/** Receipts that reach a Witness after it sealed, and a ballot to which the board's results apply. */
module BoardResealing {
  import opened Outcomes
  import opened Ordering
  import opened CanonicalJson
  import opened CanonicalLaws
  import opened Hashing
  import opened Manifests
  import opened Statements
  import opened Quorums
  import opened Receipts
  import opened Checkpoints
  import opened Ballots
  import opened WitnessTables
  import opened WitnessInvariant
  import opened BoardRuns
  import opened BoardProgress
  import opened BoardRequests
  import opened BoardLiveness
  import opened Assumptions

  // -------------------------------------------------------- receipts too late

  lemma CorrectRequest(b: Board, key: string, t: Tables)
    requires SoundBoard(b) && ValidString(key)
    ensures CheckpointStep(b, key, t, CutoffHash(b.c, b.m), 1, b.m.genesis) == SealStep(b, key, t)
  {
    BodyOverIsChecked(b, {});
  }

  /** The answer to a correct checkpoint request at a store that has sealed. */
  function AgainOrFork(b: Board, t: Tables, covered: set<string>): (Result<SignedCheckpoint>, Tables)
    requires HeightOf(b) in t.checkpoints
  {
    (if ReceiptedIds(t) == covered then Success(t.checkpoints[HeightOf(b)].response) else Failure(BoardFork), t)
  }

  lemma RepeatedRequest(b: Board, key: string, t: Tables, covered: set<string>)
    requires SoundBoard(b) && ValidString(key) && StoreInv(b, key, t)
    requires HeightOf(b) in t.checkpoints && Covers(b, key, t.checkpoints[HeightOf(b)], covered)
    requires |ReceiptedIds(t)| <= MAX_SAFE_INTEGER
    ensures CheckpointStep(b, key, t, CutoffHash(b.c, b.m), 1, b.m.genesis) == AgainOrFork(b, t, covered)
  {
    CorrectRequest(b, key, t);
    SafeCountIsText(b, ReceiptedIds(t));
    ResealCondition(b, key, t, covered);
  }

  lemma RefusedRequest(b: Board, key: string, t: Tables, covered: set<string>, id: string)
    requires SoundBoard(b) && ValidString(key) && StoreInv(b, key, t)
    requires HeightOf(b) in t.checkpoints && Covers(b, key, t.checkpoints[HeightOf(b)], covered)
    requires |ReceiptedIds(t)| <= MAX_SAFE_INTEGER && id in ReceiptedIds(t) && id !in covered
    ensures CheckpointStep(b, key, t, CutoffHash(b.c, b.m), 1, b.m.genesis) == (Failure(BoardFork), t)
  {
    RepeatedRequest(b, key, t, covered);
  }

  lemma InsertedIds(t: Tables, r: Receipt)
    ensures ReceiptedIds(InsertReceipt(t, r)) <= ReceiptedIds(t) + {r.statement.recordId}
    ensures |ReceiptedIds(InsertReceipt(t, r))| <= |ReceiptedIds(t)| + 1
  {
    SubsetSize(ReceiptedIds(InsertReceipt(t, r)), ReceiptedIds(t) + {r.statement.recordId});
  }

  /** A receipt for an accepted record that the sealed checkpoint does not cover is stored all the same, and
      from then on the Witness refuses every correct request with BOARD_FORK, though it signed one body only. */
  lemma LateReceiptForks(b: Board, key: string, t: Tables, covered: set<string>, r: Receipt)
    requires SoundBoard(b) && ValidString(key) && StoreInv(b, key, t)
    requires HeightOf(b) in t.checkpoints && Covers(b, key, t.checkpoints[HeightOf(b)], covered)
    requires GoodReceipt(b.c, b.m, r) && Acknowledged(t, r) && r.statement.recordId !in covered
    requires |ReceiptedIds(t)| < MAX_SAFE_INTEGER
    ensures var (v, t') := StoreReceiptStep(b, key, t, r, None, 0);
            && v == Success(r.receiptId)
            && CheckpointStep(b, key, t', CutoffHash(b.c, b.m), 1, b.m.genesis) == (Failure(BoardFork), t')
  {
    InsertKeeps(b, key, t, r);
    InsertedIsReceipted(b, key, t, r);
    InsertedIds(t, r);
    InsertIsStore(b, key, t, r);
    RefusedRequest(b, key, InsertReceipt(t, r), covered, r.statement.recordId);
  }

  lemma ActSeals(b: Board, key: string, t: Tables, a: Action)
    requires SoundBoard(b) && ValidString(key) && StoreInv(b, key, t)
    requires HeightOf(b) !in t.checkpoints && HeightOf(b) in Act(b, key, t, a).checkpoints
    ensures Covers(b, key, Act(b, key, t, a).checkpoints[HeightOf(b)], ReceiptedIds(t))
  {
    match a
    case Submit(_, raw, now) => SubmitKeeps(b, key, t, raw, now);
    case StoreReceipt(_, receipt, raw, now) => StoreReceiptKeeps(b, key, t, receipt, raw, now);
    case Checkpoint(_, _, _, _) =>
  }

  lemma DeliverySeals(b: Board, w: World, a: Action, key: string)
    requires SoundBoard(b) && (forall x | x in w :: ValidString(x)) && key in w && StoreInv(b, key, w[key])
    requires HeightOf(b) !in w[key].checkpoints && HeightOf(b) in Deliver(b, w, a)[key].checkpoints
    ensures Covers(b, key, Deliver(b, w, a)[key].checkpoints[HeightOf(b)], ReceiptedIds(w[key]))
  {
    if a.key == key {
      ActSeals(b, key, w[key], a);
    }
  }

  lemma SealedNow(b: Board, honest: set<string>, actions: seq<Action>, a: Action, key: string)
    requires Setting(b, honest) && key in honest
    requires HeightOf(b) !in Run(b, honest, actions)[key].checkpoints
    requires HeightOf(b) in Run(b, honest, actions + [a])[key].checkpoints
    ensures HasSealed(b, Run(b, honest, actions + [a]), key, ReceiptedIds(Run(b, honest, actions)[key]))
  {
    RunStep(b, honest, actions, a);
    RunKeepsInvariant(b, honest, actions, key);
    DeliverySeals(b, Run(b, honest, actions), a, key);
  }

  lemma SealedStays(b: Board, honest: set<string>, actions: seq<Action>, later: seq<Action>, key: string, ids: set<string>)
    requires Setting(b, honest) && key in honest && HasSealed(b, Run(b, honest, actions), key, ids)
    ensures HasSealed(b, Run(b, honest, actions + later), key, ids)
  {
    assert (actions + later)[..|actions|] == actions;
    SealedOnce(b, honest, actions + later, |actions|, key);
  }

  /** In every run, a Witness that sealed at some action answers a repeated correct request if and only if
      it has stored receipts for no further record since; otherwise it raises BOARD_FORK. */
  lemma AnswersAgainIff(b: Board, honest: set<string>, before: seq<Action>, a: Action, after: seq<Action>, key: string)
    requires Setting(b, honest) && key in honest
    requires HeightOf(b) !in Run(b, honest, before)[key].checkpoints
    requires HeightOf(b) in Run(b, honest, before + [a])[key].checkpoints
    requires |ReceiptedIds(Run(b, honest, before + [a] + after)[key])| <= MAX_SAFE_INTEGER
    ensures HeightOf(b) in Run(b, honest, before + [a] + after)[key].checkpoints
    ensures CheckpointStep(b, key, Run(b, honest, before + [a] + after)[key], CutoffHash(b.c, b.m), 1, b.m.genesis)
         == AgainOrFork(b, Run(b, honest, before + [a] + after)[key], ReceiptedIds(Run(b, honest, before)[key]))
  {
    var covered := ReceiptedIds(Run(b, honest, before)[key]);
    SealedNow(b, honest, before, a, key);
    SealedStays(b, honest, before + [a], after, key, covered);
    RunKeepsInvariant(b, honest, before + [a] + after, key);
    RepeatedRequest(b, key, Run(b, honest, before + [a] + after)[key], covered);
  }

  /** The Witness accepted the statement and sealed an empty board. */
  ghost predicate SealedUnreceipted(b: Board, w: World, key: string, s: Statement)
    requires SoundBoard(b)
  {
    HasSealed(b, w, key, {}) && ReceiptedIds(w[key]) == {} && StatedAt(w[key], s)
  }

  lemma SealUnreceipted(b: Board, w: World, k: string, s: Statement)
    requires SoundBoard(b) && (forall x | x in w :: ValidString(x)) && k in w && StoreInv(b, k, w[k])
    requires OnlyAccepted(b, k, w[k], [s])
    ensures SealedUnreceipted(b, Deliver(b, w, ActionFor(k, SealRequest(b))), k, s)
  {
    assert AcceptedAt(b, k, w[k], [s][0]);
    FirstSeal(b, k, w[k]);
    DeliverHere(b, w, ActionFor(k, SealRequest(b)));
    CheckpointKeeps(b, k, w[k], CutoffHash(b.c, b.m), 1, b.m.genesis);
  }

  lemma SameUnreceipted(b: Board, w: World, w': World, k: string, s: Statement)
    requires SoundBoard(b) && SealedUnreceipted(b, w, k, s) && k in w' && Same(w'[k], w[k])
    ensures SealedUnreceipted(b, w', k, s)
  {
  }

  /** The panel accepts one ballot and then seals an empty board. */
  lemma PanelSealsUnreceipted(b: Board, honest: set<string>, keys: seq<string>, x: Cast, i: nat)
    requires Setting(b, honest) && Panel(b, honest, keys) && i < |keys| && AdmittedCast(b, x)
    ensures SealedUnreceipted(b, Run(b, honest, Accepting(keys, [x]) + Ask(keys, SealRequest(b))), keys[i], SaidOf(b, x))
  {
    var first := Accepting(keys, [x]);
    PanelAccepts(b, honest, keys, [x], i);
    SaidOfOne(b, x);
    var w, w' := AskedStore(b, honest, first, keys, SealRequest(b), i);
    RunKeepsInvariant(b, honest, first, keys[i]);
    SealUnreceipted(b, w, keys[i], SaidOf(b, x));
    SameUnreceipted(b, w', Run(b, honest, first + Ask(keys, SealRequest(b))), keys[i], SaidOf(b, x));
  }

  lemma SaidOfOne(b: Board, x: Cast)
    requires SoundBoard(b) && AdmittedCast(b, x)
    ensures SaidOfAll(b, [x]) == [SaidOf(b, x)]
  {
  }

  /** Such a state is reached: three Witnesses accept a ballot and seal before the receipt arrives. The
      receipt is stored, and the next request is refused although nothing was signed twice. */
  lemma ForkWithoutFork(b: Board, honest: set<string>, keys: seq<string>, x: Cast, i: nat) returns (r: Receipt, t: Tables)
    requires Setting(b, honest) && Panel(b, honest, keys) && i < |keys| && AdmittedCast(b, x)
    ensures Same(t, Run(b, honest, Accepting(keys, [x]) + Ask(keys, SealRequest(b)))[keys[i]])
    ensures var (v, t') := StoreReceiptStep(b, keys[i], t, r, None, 0);
            && v == Success(r.receiptId)
            && CheckpointStep(b, keys[i], t', CutoffHash(b.c, b.m), 1, b.m.genesis) == (Failure(BoardFork), t')
  {
    var all := Accepting(keys, [x]) + Ask(keys, SealRequest(b));
    var items;
    items, r := PanelReceipt(b, honest, keys, SaidOf(b, x));
    PanelSealsUnreceipted(b, honest, keys, x, i);
    RunKeepsInvariant(b, honest, all, keys[i]);
    t := Run(b, honest, all)[keys[i]];
    LateReceiptForks(b, keys[i], t, {}, r);
  }

  // ------------------------------------------------- the assumptions can be met

  /** A ballot with an empty candidate and an empty proof. */
  function BallotWith(digest: string, decisionId: string): (record: Json)
    ensures record.Obj?
  {
    Obj(map["candidate_digest" := Str(digest),
            "candidate_record" := Obj(map[]),
            "decision_id" := Str(decisionId),
            "eligibility_proof" := Obj(map[]),
            "nullifier" := Str("0"),
            "profile_id" := Str(PROFILE_ID),
            "schema" := Str(BALLOT_SCHEMA)])
  }

  function SampleBallot(b: Board): Json
    requires SoundBoard(b)
  {
    BallotWith(CandidateDigest(b.c, b.m, Obj(map[])), b.m.decisionId)
  }

  lemma BallotFieldsAreText(key: string)
    requires key in BALLOT_FIELDS
    ensures ValidString(key)
  {
  }

  lemma BallotConstantsAreText()
    ensures ValidString("0") && ValidString(PROFILE_ID) && ValidString(BALLOT_SCHEMA)
  {
  }

  lemma BallotWithFields(digest: string, decisionId: string)
    ensures BallotWith(digest, decisionId).fields.Keys == BALLOT_FIELDS
    ensures var f := BallotWith(digest, decisionId).fields;
            && f["candidate_digest"] == Str(digest) && f["candidate_record"] == Obj(map[])
            && f["decision_id"] == Str(decisionId) && f["eligibility_proof"] == Obj(map[])
            && f["nullifier"] == Str("0") && f["profile_id"] == Str(PROFILE_ID) && f["schema"] == Str(BALLOT_SCHEMA)
  {
  }

  lemma BallotWithIsValid(digest: string, decisionId: string)
    requires ValidString(digest) && ValidString(decisionId)
    ensures Valid(BallotWith(digest, decisionId))
  {
    BallotWithFields(digest, decisionId);
    BallotConstantsAreText();
    forall k | k in BallotWith(digest, decisionId).fields ensures ValidString(k) {
      BallotFieldsAreText(k);
    }
  }

  lemma SampleDigest(b: Board)
    requires SoundBoard(b)
    ensures b.c.isDigest(CandidateDigest(b.c, b.m, Obj(map[])))
    ensures ValidString(CandidateDigest(b.c, b.m, Obj(map[]))) && ValidString(b.m.decisionId)
  {
    BindingJsonIsValid(b.c, b.m, Obj(map[]));
    DomainHashIsDigest(b.c, BINDING_TAG, BindingJson(b.m, Obj(map[])));
    DigestIsText(b.c, b.m.decisionId);
  }

  /** A ballot with the right digest and decision passes every check. */
  lemma BallotWithIsGood(c: Crypto, m: Manifest, digest: string)
    requires Sound(c, m) && c.isDigest(digest) && digest == CandidateDigest(c, m, Obj(map[]))
    ensures BallotError(c, m, BallotWith(digest, m.decisionId)) == None
  {
    BallotWithFields(digest, m.decisionId);
  }

  lemma SampleIsGood(b: Board)
    requires SoundBoard(b)
    ensures Valid(SampleBallot(b)) && BallotError(b.c, b.m, SampleBallot(b)) == None
  {
    SampleDigest(b);
    BallotWithIsValid(CandidateDigest(b.c, b.m, Obj(map[])), b.m.decisionId);
    BallotWithIsGood(b.c, b.m, CandidateDigest(b.c, b.m, Obj(map[])));
    BallotErrorMeaning(b.c, b.m, SampleBallot(b));
  }

  /** The text of the sample is admitted whenever its proof verifies and voting is open. */
  lemma SampleIsAdmitted(b: Board, now: int)
    requires SoundBoard(b) && b.proof(SampleBallot(b)) && b.m.opensAt <= now < b.m.closesAt
    ensures Valid(SampleBallot(b)) && Admitted(b, Dumps(SampleBallot(b)), now) == Success(SampleBallot(b))
  {
    SampleIsGood(b);
    ParseUndoesPrint(SampleBallot(b));
  }

  lemma BoardExists() returns (b: Board)
    ensures SoundBoard(b) && forall record :: b.proof(record)
  {
    var m := SoundIsPossible();
    b := Board(KEEPING, m, _ => true);
  }

  lemma AllWitnessesHonest(b: Board)
    requires SoundBoard(b)
    ensures Setting(b, Elements(b.m.witnesses)) && Panel(b, Elements(b.m.witnesses), b.m.witnesses)
  {
    assert Elements(b.m.witnesses) - Elements(b.m.witnesses) == {};
    IncreasingIsDistinct(b.m.witnesses);
    WitnessKeysAreText(b.c, b.m);
  }

  lemma OneIsDifferent(b: Board, x: Cast)
    requires SoundBoard(b) && AdmittedCast(b, x)
    ensures AllAdmitted(b, [x]) && DifferentNullifiers(SaidOfAll(b, [x]))
  {
  }

  /** There are a board, Witnesses and a ballot to which all of this applies. */
  lemma SomethingIsCounted() returns (b: Board, honest: set<string>, keys: seq<string>, x: Cast)
    ensures Setting(b, honest) && Panel(b, honest, keys) && AllAdmitted(b, [x]) && DifferentNullifiers(SaidOfAll(b, [x]))
  {
    b := BoardExists();
    honest, keys := Elements(b.m.witnesses), b.m.witnesses;
    AllWitnessesHonest(b);
    SampleIsAdmitted(b, b.m.opensAt);
    x := Cast(Dumps(SampleBallot(b)), b.m.opensAt);
    OneIsDifferent(b, x);
  }
}
