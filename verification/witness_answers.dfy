/** What the answers of a Witness mean, said of the request and of the rows it finds. */
module WitnessAnswers {
  import opened Outcomes
  import opened CanonicalJson
  import opened CanonicalLaws
  import opened Hashing
  import opened Merkle
  import opened Manifests
  import opened Statements
  import opened Receipts
  import opened Checkpoints
  import opened Ballots
  import opened WitnessTables
  import opened WitnessInvariant

  // ------------------------------------------------------------------ submit

  /** The statement repeats what the record says, under the hash of the record. */
  ghost predicate Describes(c: Crypto, m: Manifest, s: Statement, record: Json)
    requires Valid(record) && HasBallotFields(record)
  {
    && Str(s.candidateDigest) == record.fields["candidate_digest"]
    && Str(s.nullifier) == record.fields["nullifier"]
    && Str(s.decisionId) == record.fields["decision_id"]
    && s.epoch == m.epoch && s.profileId == PROFILE_ID && s.schema == ACCEPTANCE_SCHEMA
    && s.recordId == DomainHash(c, RECORD_TAG, record)
  }

  lemma StatementOfMeaning(c: Crypto, m: Manifest, s: Statement, record: Json)
    requires Sound(c, m) && GoodBallot(c, m, record)
    ensures s == StatementOf(c, m, record) <==> Describes(c, m, s, record)
  {
  }

  /** Signed with the key of this Witness, over the message of the statement. */
  ghost predicate SignedAcceptance(c: Crypto, m: Manifest, key: string, a: Acceptance)
  {
    && a.schema == WITNESS_ACCEPTANCE_SCHEMA && a.signature.publicKey == key
    && ValidStatement(a.statement) && StatementFits(c, m, a.statement)
    && SignedOver(c, key, AcceptanceMessage(c, a.statement), a.signature)
  }

  ghost predicate SignedOver(c: Crypto, key: string, message: string, e: SigEntry)
  {
    && e.publicKey == key && ValidString(key) && e.witnessId == WitnessId(c, key)
    && c.isSignature(e.signature) && c.verify(key, e.signature, message)
  }

  lemma HonestIsSigned(b: Board, key: string, s: Statement)
    requires SoundBoard(b) && ValidString(key) && ValidStatement(s) && StatementError(b.c, b.m, s) == None
    ensures SignedAcceptance(b.c, b.m, key, HonestAcceptance(b.c, key, s))
  {
    StatementErrorMeaning(b.c, b.m, s);
    assert SignatureVerifies(b.c, key, AcceptanceMessage(b.c, s));
  }

  /** No other record with this nullifier is stored. */
  ghost predicate NullifierFree(t: Tables, s: Statement)
  {
    forall id | id in t.records && t.records[id].nullifier == s.nullifier :: id == s.recordId
  }

  lemma FreeMeansUnlocked(b: Board, key: string, t: Tables, s: Statement)
    requires SoundBoard(b) && ValidString(key) && StoreInv(b, key, t)
    ensures var lock := (b.m.decisionId, s.nullifier);
            NullifierFree(t, s) <==> (lock in t.locks ==> t.locks[lock] == s.recordId)
  {
    var lock := (b.m.decisionId, s.nullifier);
    LocksMatchRecords(b, key, t);
    if lock in t.locks {
      assert t.locks[lock] in t.records && t.records[t.locks[lock]].nullifier == s.nullifier;
      if t.locks[lock] == s.recordId {
        forall id | id in t.records && t.records[id].nullifier == s.nullifier ensures id == s.recordId {
          LockOf(b, key, t, id);
        }
      }
    } else {
      forall id | id in t.records ensures t.records[id].nullifier != s.nullifier {
        LockOf(b, key, t, id);
      }
    }
  }

  lemma LockOf(b: Board, key: string, t: Tables, id: string)
    requires SoundBoard(b) && ValidString(key) && StoreInv(b, key, t) && id in t.records
    ensures var lock := (b.m.decisionId, t.records[id].nullifier); lock in t.locks && t.locks[lock] == id
  {
    assert GoodAt(b, key, t, AtRecord(id));
    var record :| IsStoredAs(b, key, t, id, record);
  }

  /** The rows that an accepted record leaves. */
  ghost predicate Accepted(t: Tables, raw: string, a: Acceptance)
  {
    var s := a.statement;
    && s.recordId in t.acceptances && t.acceptances[s.recordId] == a
    && s.recordId in t.records
    && t.records[s.recordId] == RecordRow(s.decisionId, s.nullifier, s.candidateDigest, raw)
  }

  /** Whatever is stored under the id of a ballot was stored for this ballot. */
  lemma StoredForItself(b: Board, key: string, t: Tables, raw: string, record: Json)
    requires SoundBoard(b) && ValidString(key) && StoreInv(b, key, t) && BallotText(b, raw, record)
    requires StatementOf(b.c, b.m, record).recordId in t.acceptances
    ensures t.acceptances[StatementOf(b.c, b.m, record).recordId] == RowsFor(b, key, raw, record).acceptance
    ensures Accepted(t, raw, RowsFor(b, key, raw, record).acceptance)
  {
    var id := StatementOf(b.c, b.m, record).recordId;
    assert GoodAt(b, key, t, AtRecord(id));
    var record' :| IsStoredAs(b, key, t, id, record');
    RecordIdIsInjective(b.c, record, record');
    AcceptedTexts(t.records[id].rawRecord, record');
  }

  /** The answer to a ballot, whatever the store holds. */
  ghost predicate AnswersBallot(b: Board, key: string, raw: string, record: Json, a: Acceptance)
    requires SoundBoard(b)
  {
    BallotText(b, raw, record) && Describes(b.c, b.m, a.statement, record) && SignedAcceptance(b.c, b.m, key, a)
  }

  lemma TransactMeaning(b: Board, key: string, t: Tables, raw: string, record: Json)
    requires SoundBoard(b) && ValidString(key) && StoreInv(b, key, t) && BallotText(b, raw, record)
    ensures var n := RowsFor(b, key, raw, record); var (r, t') := Transact(t, n);
            && (if NullifierFree(t, n.acceptance.statement) then r == Success(n.acceptance) && Accepted(t', raw, n.acceptance)
                else r == Failure(NullifierConflict))
  {
    var s := StatementOf(b.c, b.m, record);
    FreeMeansUnlocked(b, key, t, s);
    if s.recordId in t.acceptances {
      StoredForItself(b, key, t, raw, record);
    }
  }

  lemma RowsAnswer(b: Board, key: string, raw: string, record: Json)
    requires SoundBoard(b) && ValidString(key) && BallotText(b, raw, record)
    ensures AnswersBallot(b, key, raw, record, RowsFor(b, key, raw, record).acceptance)
  {
    var s := StatementOf(b.c, b.m, record);
    StatementOfIsChecked(b.c, b.m, record);
    StatementOfMeaning(b.c, b.m, s, record);
    HonestIsSigned(b, key, s);
  }

  /** What `submit` answers to a text, and why it refuses it. */
  ghost predicate SubmitMeans(b: Board, key: string, t: Tables, raw: string, now: int, r: Result<Acceptance>, t': Tables)
    requires SoundBoard(b)
  {
    && (now < b.m.opensAt ==> r == Failure(VotingNotOpen))
    && (b.m.closesAt <= now ==> r == Failure(VotingClosed))
    && (r.Success? ==>
          && VotingOpen(b.m, now) && NullifierFree(t, r.value.statement) && Accepted(t', raw, r.value)
          && exists record :: AnswersBallot(b, key, raw, record, r.value))
    && (forall record | VotingOpen(b.m, now) && BallotText(b, raw, record) ::
          if NullifierFree(t, StatementOf(b.c, b.m, record)) then r.Success? else r == Failure(NullifierConflict))
  }

  lemma SubmitMeaning(b: Board, key: string, t: Tables, raw: string, now: int)
    requires SoundBoard(b) && ValidString(key) && StoreInv(b, key, t)
    ensures var (r, t') := SubmitStep(b, key, t, raw, now); SubmitMeans(b, key, t, raw, now, r, t')
  {
    var (r, t') := SubmitStep(b, key, t, raw, now);
    match Admitted(b, raw, now)
    case Failure(_) =>
      forall record ensures !(VotingOpen(b.m, now) && BallotText(b, raw, record)) {
        AdmittedMeaning(b, raw, now, record);
      }
      AdmittedMeaning(b, raw, now, Null);
    case Success(record) =>
      AdmittedMeaning(b, raw, now, record);
      AdmittedIsGood(b, raw, now);
      TransactMeaning(b, key, t, raw, record);
      RowsAnswer(b, key, raw, record);
      forall record' | BallotText(b, raw, record') ensures record' == record {
        AdmittedMeaning(b, raw, now, record');
      }
  }

  // ----------------------------------------------------------- store_receipt

  /** The receipt is in the store, whole, and the store accepted just what it says. */
  ghost predicate Stored(t: Tables, r: Receipt)
  {
    && r.receiptId in t.receipts && t.receipts[r.receiptId] == ReceiptRow(r.statement.recordId, r)
    && Acknowledged(t, r)
  }

  lemma InsertStores(b: Board, key: string, t: Tables, r: Receipt)
    requires SoundBoard(b) && ValidString(key) && StoreInv(b, key, t)
    requires GoodReceipt(b.c, b.m, r) && Acknowledged(t, r)
    ensures Stored(InsertReceipt(t, r), r)
  {
    if r.receiptId in t.receipts {
      assert GoodAt(b, key, t, AtReceipt(r.receiptId));
      SameReceiptId(b.c, b.m, t.receipts[r.receiptId].receipt, r);
    }
  }

  /** The text that comes with a receipt for an unknown record is a ballot that can be accepted now. */
  ghost predicate CanSubmit(b: Board, t: Tables, r: Receipt, raw: string, now: int)
    requires SoundBoard(b)
  {
    && VotingOpen(b.m, now) && NullifierFree(t, r.statement)
    && exists record :: BallotText(b, raw, record) && Describes(b.c, b.m, r.statement, record)
  }

  /** What `store_receipt` accepts: good receipts for what the store accepted, or can accept now. */
  ghost predicate CanStore(b: Board, t: Tables, r: Receipt, raw: Option<string>, now: int)
    requires SoundBoard(b)
  {
    && GoodReceipt(b.c, b.m, r)
    && if r.statement.recordId in t.records then Acknowledged(t, r) else raw.Some? && CanSubmit(b, t, r, raw.value, now)
  }

  /** What `store_receipt` answers. */
  ghost predicate ReceiptMeans(b: Board, t: Tables, r: Receipt, raw: Option<string>, now: int, v: Result<string>, t': Tables)
    requires SoundBoard(b)
  {
    && (v.Success? <==> CanStore(b, t, r, raw, now))
    && (v.Success? ==> v.value == r.receiptId && Stored(t', r))
  }

  lemma KnownReceiptMeaning(b: Board, key: string, t: Tables, r: Receipt)
    requires SoundBoard(b) && ValidString(key) && StoreInv(b, key, t)
    requires GoodReceipt(b.c, b.m, r) && r.statement.recordId in t.records
    ensures var (v, t') := StoreKnown(t, r, StoredStatement(b, t.records[r.statement.recordId].rawRecord));
            && (v.Success? <==> Acknowledged(t, r))
            && (v.Success? ==> v.value == r.receiptId && Stored(t', r))
  {
    StoredStatementIsAccepted(b, key, t, r.statement.recordId);
    if Acknowledged(t, r) {
      InsertStores(b, key, t, r);
    }
  }

  lemma SubmittedMatches(b: Board, key: string, t: Tables, r: Receipt, raw: string, now: int)
    requires SoundBoard(b) && ValidString(key) && StoreInv(b, key, t)
    ensures var (v, _) := SubmitStep(b, key, t, raw, now);
            v.Success? && v.value.statement == r.statement <==> CanSubmit(b, t, r, raw, now)
  {
    SubmitMeaning(b, key, t, raw, now);
    var (v, t') := SubmitStep(b, key, t, raw, now);
    if v.Success? && v.value.statement == r.statement {
      var record :| AnswersBallot(b, key, raw, record, v.value);
    }
    if CanSubmit(b, t, r, raw, now) {
      var record :| BallotText(b, raw, record) && Describes(b.c, b.m, r.statement, record);
      StatementOfMeaning(b.c, b.m, r.statement, record);
      var record' :| AnswersBallot(b, key, raw, record', v.value);
      AdmittedMeaning(b, raw, now, record);
      AdmittedMeaning(b, raw, now, record');
      StatementOfMeaning(b.c, b.m, v.value.statement, record);
    }
  }

  lemma UnknownReceiptMeaning(b: Board, key: string, t: Tables, r: Receipt, raw: string, now: int)
    requires SoundBoard(b) && ValidString(key) && StoreInv(b, key, t) && GoodReceipt(b.c, b.m, r)
    ensures var (submitted, t1) := SubmitStep(b, key, t, raw, now); var (v, t') := StoreSubmitted(t1, r, submitted);
            && (v.Success? <==> CanSubmit(b, t, r, raw, now))
            && (v.Success? ==> v.value == r.receiptId && Stored(t', r))
  {
    SubmittedMatches(b, key, t, r, raw, now);
    SubmitKeeps(b, key, t, raw, now);
    var (submitted, t1) := SubmitStep(b, key, t, raw, now);
    if submitted.Success? && submitted.value.statement == r.statement {
      InsertStores(b, key, t1, r);
    }
  }

  lemma StoreReceiptMeaning(b: Board, key: string, t: Tables, r: Receipt, raw: Option<string>, now: int)
    requires SoundBoard(b) && ValidString(key) && StoreInv(b, key, t)
    ensures var (v, t') := StoreReceiptStep(b, key, t, r, raw, now); ReceiptMeans(b, t, r, raw, now, v, t')
  {
    ReceiptVerdictMeaning(b.c, b.m, r);
    if GoodReceipt(b.c, b.m, r) {
      if r.statement.recordId in t.records {
        KnownReceiptMeaning(b, key, t, r);
      } else if raw.Some? {
        UnknownReceiptMeaning(b, key, t, r, raw.value, now);
      }
    }
  }

  // -------------------------------------------------------------- checkpoint

  /** The request names the cutoff of this decision, its first height and its genesis. */
  predicate RightRequest(b: Board, cutoff: string, height: int, previous: string)
    requires SoundBoard(b)
  {
    cutoff == CutoffHash(b.c, b.m) && height == 1 && previous == b.m.genesis
  }

  lemma CutoffIsDigest(b: Board)
    requires SoundBoard(b)
    ensures b.c.isDigest(CutoffHash(b.c, b.m))
  {
    CutoffJsonIsValid(b.c, b.m);
    DomainHashIsDigest(b.c, CUTOFF_TAG, CutoffJson(b.m));
  }

  /** Only the right request passes; of the others the first part that is wrong decides. */
  lemma RequestMeaning(b: Board, cutoff: string, height: int, previous: string)
    requires SoundBoard(b)
    ensures CheckpointRequestError(b, cutoff, height, previous) == None <==> RightRequest(b, cutoff, height, previous)
    ensures cutoff != CutoffHash(b.c, b.m) ==>
              CheckpointRequestError(b, cutoff, height, previous) ==
              Some(if b.c.isDigest(cutoff) then ContextMismatch else NonCanonical)
    ensures cutoff == CutoffHash(b.c, b.m) && (height != 1 || !b.c.isDigest(previous)) ==>
              CheckpointRequestError(b, cutoff, height, previous) == Some(NonCanonical)
    ensures cutoff == CutoffHash(b.c, b.m) && height == 1 && b.c.isDigest(previous) && previous != b.m.genesis ==>
              CheckpointRequestError(b, cutoff, height, previous) == Some(ContextMismatch)
  {
    CutoffIsDigest(b);
  }

  /** The body seals these records: both roots are theirs, the other two are those of no records. */
  ghost predicate SealsRecords(b: Board, body: CheckpointBody, ids: set<string>)
    requires SoundBoard(b)
  {
    && BodyFits(b.c, b.m, body)
    && body.recordSetRoot == MerkleRoot(b.c, ids) && body.acceptedBallotRoot == MerkleRoot(b.c, ids)
    && body.challengeAuditRoot == MerkleRoot(b.c, {}) && body.disputeRoot == MerkleRoot(b.c, {})
    && body.recordCount == |ids|
  }

  lemma BodyOverMeaning(b: Board, body: CheckpointBody, ids: set<string>)
    requires SoundBoard(b)
    ensures body == BodyOver(b, ids) <==> SealsRecords(b, body, ids)
  {
    RootIsDigest(b.c, ids);
    RootIsDigest(b.c, {});
    CutoffIsDigest(b);
  }

  /** The answer of a Witness that seals these records. */
  ghost predicate SignedSeal(b: Board, key: string, a: SignedCheckpoint, ids: set<string>)
    requires SoundBoard(b)
  {
    && SealsRecords(b, a.checkpoint, ids) && ValidBody(a.checkpoint)
    && a.schema == CHECKPOINT_SIGNATURE_SCHEMA
    && a.signature.checkpointHash == CheckpointHash(b.c, a.checkpoint)
    && SignedOver(b.c, key, a.signature.checkpointHash, a.signature.entry)
  }

  lemma SignBodyMeaning(b: Board, key: string, ids: set<string>)
    requires SoundBoard(b) && ValidString(key) && ValidBody(BodyOver(b, ids))
    ensures SignedSeal(b, key, SignBody(b, key, BodyOver(b, ids)), ids)
  {
    BodyOverMeaning(b, BodyOver(b, ids), ids);
    assert SignatureVerifies(b.c, key, CheckpointHash(b.c, BodyOver(b, ids)));
  }

  /** No checkpoint is stored, or one over just the records that are receipted now. */
  ghost predicate SealStands(b: Board, t: Tables)
    requires SoundBoard(b)
  {
    HeightOf(b) in t.checkpoints ==> SealsRecords(b, t.checkpoints[HeightOf(b)].response.checkpoint, ReceiptedIds(t))
  }

  /** What `checkpoint` answers: it signs what it has receipts for, once, and never anything else. */
  ghost predicate CheckpointMeans(b: Board, key: string, t: Tables, cutoff: string, height: int, previous: string,
                                  r: Result<SignedCheckpoint>)
    requires SoundBoard(b)
  {
    var ids := ReceiptedIds(t);
    && (r.Success? <==> RightRequest(b, cutoff, height, previous) && |ids| <= MAX_SAFE_INTEGER && SealStands(b, t))
    && (r.Success? ==> SignedSeal(b, key, r.value, ids))
    && (RightRequest(b, cutoff, height, previous) && |ids| <= MAX_SAFE_INTEGER && !SealStands(b, t) ==> r == Failure(BoardFork))
  }

  lemma BodyOverIsText(b: Board, ids: set<string>)
    requires SoundBoard(b)
    ensures ValidBody(BodyOver(b, ids)) <==> |ids| <= MAX_SAFE_INTEGER
  {
    BodyOverMeaning(b, BodyOver(b, ids), ids);
    BodyErrorMeaning(b.c, b.m, BodyOver(b, ids));
    CheckedBodyIsText(b.c, b.m, BodyOver(b, ids));
  }

  /** A stored checkpoint covers one set of records, and stands while that is the receipted one. */
  lemma StandsIff(b: Board, key: string, t: Tables, covered: set<string>)
    requires SoundBoard(b) && ValidString(key) && HeightOf(b) in t.checkpoints
    requires Covers(b, key, t.checkpoints[HeightOf(b)], covered)
    ensures SealStands(b, t) <==> ReceiptedIds(t) == covered
  {
    BodyOverMeaning(b, BodyOver(b, covered), ReceiptedIds(t));
    if BodyOver(b, covered) == BodyOver(b, ReceiptedIds(t)) {
      MerkleRootIsInjective(b.c, covered, ReceiptedIds(t));
    }
  }

  lemma SealMeaning(b: Board, key: string, t: Tables)
    requires SoundBoard(b) && ValidString(key) && StoreInv(b, key, t) && |ReceiptedIds(t)| <= MAX_SAFE_INTEGER
    ensures var (r, _) := SealStep(b, key, t);
            && (if SealStands(b, t) then r.Success? && SignedSeal(b, key, r.value, ReceiptedIds(t)) else r == Failure(BoardFork))
  {
    var ids := ReceiptedIds(t);
    BodyOverIsText(b, ids);
    SignBodyMeaning(b, key, ids);
    if HeightOf(b) in t.checkpoints {
      assert GoodAt(b, key, t, AtHeight(HeightOf(b)));
      var covered :| covered <= ids && Covers(b, key, t.checkpoints[HeightOf(b)], covered);
      StandsIff(b, key, t, covered);
      ResealCondition(b, key, t, covered);
    }
  }

  lemma CheckpointMeaning(b: Board, key: string, t: Tables, cutoff: string, height: int, previous: string)
    requires SoundBoard(b) && ValidString(key) && StoreInv(b, key, t)
    ensures CheckpointMeans(b, key, t, cutoff, height, previous, CheckpointStep(b, key, t, cutoff, height, previous).0)
  {
    RequestMeaning(b, cutoff, height, previous);
    BodyOverIsText(b, ReceiptedIds(t));
    if |ReceiptedIds(t)| <= MAX_SAFE_INTEGER {
      SealMeaning(b, key, t);
    }
  }
}
