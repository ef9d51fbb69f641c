/** One Witness: its durable tables and what each of the three operations does to them. */
module WitnessTables {
  import opened Outcomes
  import opened CanonicalJson
  import opened CanonicalLaws
  import opened Merkle
  import opened Manifests
  import opened Statements
  import opened Receipts
  import opened Checkpoints
  import opened Ballots

  datatype RecordRow = RecordRow(decisionId: string, nullifier: string, candidateDigest: string, rawRecord: string)
  datatype ReceiptRow = ReceiptRow(recordId: string, receipt: Receipt)
  datatype CheckpointRow = CheckpointRow(checkpointHash: string, response: SignedCheckpoint)

  type LockKey = (string, string)
  type HeightKey = (string, string, int)

  /** The five tables, by primary key. */
  datatype Tables = Tables(
    records: map<string, RecordRow>,
    locks: map<LockKey, string>,
    acceptances: map<string, Acceptance>,
    receipts: map<string, ReceiptRow>,
    checkpoints: map<HeightKey, CheckpointRow>)

  const EMPTY_TABLES := Tables(map[], map[], map[], map[], map[])

  // ------------------------------------------------------------------ submit

  /** The part of `submit` before its transaction: window, parsing, structure, proof. */
  function Admitted(b: Board, raw: string, now: int): Result<Json>
    requires SoundBoard(b)
  {
    if now < b.m.opensAt then Failure(VotingNotOpen)
    else if now >= b.m.closesAt then Failure(VotingClosed)
    else
      match ParseCanonical(raw)
      case Failure(e) => Failure(e)
      case Success(record) =>
        match BallotError(b.c, b.m, record)
        case Some(e) => Failure(e)
        case None => if b.proof(record) then Success(record) else Failure(BallotProofInvalid)
  }

  lemma AdmittedIsGood(b: Board, raw: string, now: int)
    requires SoundBoard(b) && Admitted(b, raw, now).Success?
    ensures GoodBallot(b.c, b.m, Admitted(b, raw, now).value) && b.proof(Admitted(b, raw, now).value)
    ensures ParseCanonical(raw) == Success(Admitted(b, raw, now).value)
  {
    BallotErrorMeaning(b.c, b.m, Admitted(b, raw, now).value);
  }

  /** Voting is open: not before it opens, and not from the moment it closes. */
  predicate VotingOpen(m: Manifest, now: int)
  {
    m.opensAt <= now < m.closesAt
  }

  /** The text is the canonical text of a ballot record of this board, and its proof verifies. */
  ghost predicate BallotText(b: Board, raw: string, record: Json)
    requires SoundBoard(b)
  {
    Valid(record) && raw == Dumps(record) && WellFormedBallot(b.c, b.m, record) && b.proof(record)
  }

  /** A ballot is admitted exactly while voting is open, and if its text is that of a ballot. */
  lemma AdmittedMeaning(b: Board, raw: string, now: int, record: Json)
    requires SoundBoard(b)
    ensures now < b.m.opensAt ==> Admitted(b, raw, now) == Failure(VotingNotOpen)
    ensures b.m.closesAt <= now ==> Admitted(b, raw, now) == Failure(VotingClosed)
    ensures Admitted(b, raw, now) == Success(record) <==> VotingOpen(b.m, now) && BallotText(b, raw, record)
  {
    AcceptedTexts(raw, record);
    BallotErrorMeaning(b.c, b.m, record);
  }

  /** While voting is open, a record that is no ballot is refused with its own error, and one without a proof
      with BALLOT_PROOF_INVALID. */
  lemma RefusedBallot(b: Board, raw: string, now: int, record: Json)
    requires SoundBoard(b) && VotingOpen(b.m, now) && Valid(record) && raw == Dumps(record)
    requires !WellFormedBallot(b.c, b.m, record) || !b.proof(record)
    ensures Admitted(b, raw, now).Failure?
    ensures Some(Admitted(b, raw, now).error) ==
            if WellFormedBallot(b.c, b.m, record) then Some(BallotProofInvalid) else BallotError(b.c, b.m, record)
  {
    AcceptedTexts(raw, record);
    assert ParseCanonical(raw) == Success(record);
    BallotErrorMeaning(b.c, b.m, record);
  }

  /** A text that is no canonical text is refused as such. */
  lemma UnreadableBallot(b: Board, raw: string, now: int)
    requires SoundBoard(b) && VotingOpen(b.m, now) && forall v | Valid(v) :: raw != Dumps(v)
    ensures Admitted(b, raw, now) == Failure(NonCanonical)
  {
    if ParseCanonical(raw).Success? {
      AcceptedTexts(raw, ParseCanonical(raw).value);
    }
  }

  /** The rows `submit` inserts for a record that is new to the store. */
  datatype NewRecord = NewRecord(id: string, lock: LockKey, row: RecordRow, acceptance: Acceptance)

  function RowsFor(b: Board, key: string, raw: string, record: Json): NewRecord
    requires SoundBoard(b) && GoodBallot(b.c, b.m, record) && ValidString(key)
  {
    var s := StatementOf(b.c, b.m, record);
    StatementOfIsChecked(b.c, b.m, record);
    NewRecord(s.recordId,
              (s.decisionId, s.nullifier),
              RecordRow(s.decisionId, s.nullifier, s.candidateDigest, raw),
              HonestAcceptance(b.c, key, s))
  }

  function WithRecord(t: Tables, n: NewRecord): Tables
  {
    t.(locks := t.locks[n.lock := n.id],
       records := t.records[n.id := n.row],
       acceptances := t.acceptances[n.id := n.acceptance])
  }

  /** The transaction of `submit`. */
  function Transact(t: Tables, n: NewRecord): (Result<Acceptance>, Tables)
  {
    if n.lock in t.locks && t.locks[n.lock] != n.id then (Failure(NullifierConflict), t)
    else if n.id in t.acceptances then (Success(t.acceptances[n.id]), t)
    else (Success(n.acceptance), WithRecord(t, n))
  }

  function SubmitStep(b: Board, key: string, t: Tables, raw: string, now: int): (Result<Acceptance>, Tables)
    requires SoundBoard(b) && ValidString(key)
  {
    match Admitted(b, raw, now)
    case Failure(e) => (Failure(e), t)
    case Success(record) =>
      AdmittedIsGood(b, raw, now);
      Transact(t, RowsFor(b, key, raw, record))
  }

  // ----------------------------------------------------------- store_receipt

  /** The statement about a stored record; the invariant shows that stored text is never refused. */
  function StoredStatement(b: Board, raw: string): Result<Statement>
    requires SoundBoard(b)
  {
    match ParseCanonical(raw)
    case Failure(e) => Failure(e)
    case Success(record) =>
      BallotErrorMeaning(b.c, b.m, record);
      if BallotError(b.c, b.m, record) != None then Failure(NonCanonical)
      else Success(StatementOf(b.c, b.m, record))
  }

  /** The statement about the text of a ballot is the statement about the ballot. */
  lemma StoredStatementOf(b: Board, raw: string, record: Json)
    requires SoundBoard(b) && ParseCanonical(raw) == Success(record) && GoodBallot(b.c, b.m, record)
    ensures StoredStatement(b, raw) == Success(StatementOf(b.c, b.m, record))
  {
    BallotErrorMeaning(b.c, b.m, record);
  }

  function InsertReceipt(t: Tables, r: Receipt): Tables
  {
    if r.receiptId in t.receipts then t
    else t.(receipts := t.receipts[r.receiptId := ReceiptRow(r.statement.recordId, r)])
  }

  /** A receipt for a record that is stored: the stored statement must be the receipted one. */
  function StoreKnown(t: Tables, r: Receipt, stored: Result<Statement>): (Result<string>, Tables)
  {
    match stored
    case Failure(e) => (Failure(e), t)
    case Success(s) => if s != r.statement then (Failure(ContextMismatch), t) else (Success(r.receiptId), InsertReceipt(t, r))
  }

  /** A receipt whose record was just submitted: the commit stands even if the statement differs. */
  function StoreSubmitted(t': Tables, r: Receipt, submitted: Result<Acceptance>): (Result<string>, Tables)
  {
    match submitted
    case Failure(e) => (Failure(e), t')
    case Success(a) => if a.statement != r.statement then (Failure(ContextMismatch), t') else (Success(r.receiptId), InsertReceipt(t', r))
  }

  /** `store_receipt`. */
  function StoreReceiptStep(b: Board, key: string, t: Tables, r: Receipt, raw: Option<string>, now: int)
    : (Result<string>, Tables)
    requires SoundBoard(b) && ValidString(key)
  {
    var verdict := ReceiptVerdict(b.c, b.m, r);
    if verdict.Failure? then (verdict, t)
    else if r.statement.recordId in t.records then
      StoreKnown(t, r, StoredStatement(b, t.records[r.statement.recordId].rawRecord))
    else if raw.None? then (Failure(ReceiptedRecordMissing), t)
    else
      var (submitted, t') := SubmitStep(b, key, t, raw.value, now);
      StoreSubmitted(t', r, submitted)
  }

  // -------------------------------------------------------------- checkpoint

  function ReceiptedIds(t: Tables): set<string>
  {
    set k | k in t.receipts :: t.receipts[k].recordId
  }

  /** The one checkpoint body a Witness may sign for a set of receipted records. */
  function BodyOver(b: Board, ids: set<string>): CheckpointBody
    requires SoundBoard(b)
  {
    var root := MerkleRoot(b.c, ids);
    var empty := MerkleRoot(b.c, {});
    CheckpointBody(root, empty, CutoffHash(b.c, b.m), b.m.decisionId, empty, b.m.epoch, 1,
                   b.m.genesis, PROFILE_ID, |ids|, root, CHECKPOINT_SCHEMA)
  }

  function SignBody(b: Board, key: string, body: CheckpointBody): SignedCheckpoint
    requires SoundBoard(b) && ValidString(key) && ValidBody(body)
  {
    var hash := CheckpointHash(b.c, body);
    SignedCheckpoint(body, CHECKPOINT_SIGNATURE_SCHEMA,
                     CheckpointEntry(hash, SigEntry(key, b.c.sign(key, hash), WitnessId(b.c, key))))
  }

  function HeightOf(b: Board): HeightKey
  {
    (b.m.decisionId, b.m.epoch, 1)
  }

  function WithCheckpoint(b: Board, key: string, t: Tables, body: CheckpointBody): Tables
    requires SoundBoard(b) && ValidString(key) && ValidBody(body)
  {
    t.(checkpoints := t.checkpoints[HeightOf(b) := CheckpointRow(CheckpointHash(b.c, body), SignBody(b, key, body))])
  }

  /** The checks of `checkpoint` before its transaction. */
  function CheckpointRequestError(b: Board, cutoff: string, height: int, previous: string): Option<Error>
    requires SoundBoard(b)
  {
    if !b.c.isDigest(cutoff) then Some(NonCanonical)
    else if cutoff != CutoffHash(b.c, b.m) then Some(ContextMismatch)
    else if !b.c.isDigest(previous) then Some(NonCanonical)
    else if height != 1 then Some(NonCanonical)
    else if previous != b.m.genesis then Some(ContextMismatch)
    else None
  }

  /** The transaction of `checkpoint`. The hash of an unsafe count cannot be taken. */
  function SealStep(b: Board, key: string, t: Tables): (Result<SignedCheckpoint>, Tables)
    requires SoundBoard(b) && ValidString(key)
  {
    var body := BodyOver(b, ReceiptedIds(t));
    if !ValidBody(body) then (Failure(NonCanonical), t)
    else if HeightOf(b) !in t.checkpoints then (Success(SignBody(b, key, body)), WithCheckpoint(b, key, t, body))
    else if t.checkpoints[HeightOf(b)].checkpointHash != CheckpointHash(b.c, body) then (Failure(BoardFork), t)
    else (Success(t.checkpoints[HeightOf(b)].response), t)
  }

  function CheckpointStep(b: Board, key: string, t: Tables, cutoff: string, height: int, previous: string)
    : (Result<SignedCheckpoint>, Tables)
    requires SoundBoard(b) && ValidString(key)
  {
    match CheckpointRequestError(b, cutoff, height, previous)
    case Some(e) => (Failure(e), t)
    case None => SealStep(b, key, t)
  }
}
