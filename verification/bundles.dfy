/** The public verifier of a sealed board. */
module Bundles {
  import opened Outcomes
  import opened Ordering
  import opened CanonicalJson
  import opened Merkle
  import opened Statements
  import opened Receipts
  import opened Checkpoints
  import opened Ballots

  datatype BoardVerification = BoardVerification(
    valid: bool,
    decisionId: string,
    acceptedCount: int,
    acceptedRecordIds: seq<string>,
    checkpointHash: string,
    decryptionReady: bool)

  // ----------------------------------------------------------------- records

  /** What is known after some of the records: the record of every id, the id of every nullifier. */
  datatype Known = Known(records: map<string, Json>, nullifiers: map<string, string>)

  /** A record the verifier accepts on its own. */
  ghost predicate CheckedRecord(b: Board, record: Json)
    requires SoundBoard(b)
  {
    GoodBallot(b.c, b.m, record) && b.proof(record)
  }

  function RecordError(b: Board, record: Json): Option<Error>
    requires SoundBoard(b)
  {
    match BallotError(b.c, b.m, record)
    case Some(e) => Some(e)
    case None =>
      if !b.proof(record) then Some(BallotProofInvalid)
      else if !Valid(record) then Some(NonCanonical)
      else None
  }

  lemma RecordErrorMeaning(b: Board, record: Json)
    requires SoundBoard(b)
    ensures RecordError(b, record) == None <==> CheckedRecord(b, record)
  {
    BallotErrorMeaning(b.c, b.m, record);
  }

  /** A checked record with its id and its nullifier. */
  datatype Ballot = Ballot(id: string, nullifier: string, record: Json)

  function BallotOf(b: Board, record: Json): Ballot
    requires SoundBoard(b) && CheckedRecord(b, record)
  {
    Ballot(RecordId(b.c, record), NullifierOf(b.c, b.m, record), record)
  }

  function AddBallot(known: Known, x: Ballot): Result<Known>
  {
    if x.nullifier in known.nullifiers && known.nullifiers[x.nullifier] != x.id then Failure(NullifierConflict)
    else Success(Known(known.records[x.id := x.record], known.nullifiers[x.nullifier := x.id]))
  }

  function AddRecord(b: Board, known: Known, record: Json): Result<Known>
    requires SoundBoard(b)
  {
    match RecordError(b, record)
    case Some(e) => Failure(e)
    case None =>
      RecordErrorMeaning(b, record);
      AddBallot(known, BallotOf(b, record))
  }

  function ScanRecords(b: Board, records: seq<Json>): Result<Known>
    requires SoundBoard(b)
  {
    if records == [] then Success(Known(map[], map[]))
    else
      match ScanRecords(b, records[..|records| - 1])
      case Failure(e) => Failure(e)
      case Success(known) => AddRecord(b, known, records[|records| - 1])
  }

  lemma ScanRecordsStops(b: Board, records: seq<Json>, n: nat)
    requires SoundBoard(b) && n <= |records| && ScanRecords(b, records[..n]).Failure?
    ensures ScanRecords(b, records) == ScanRecords(b, records[..n])
    decreases |records|
  {
    if n == |records| {
      assert records[..n] == records;
    } else {
      var front := records[..|records| - 1];
      assert front[..n] == records[..n];
      ScanRecordsStops(b, front, n);
    }
  }

  // ---------------------------------------------------------------- receipts

  function AddReceipt(b: Board, known: map<string, Json>, accepted: set<string>, r: Receipt): Result<set<string>>
    requires SoundBoard(b) && forall id | id in known :: GoodBallot(b.c, b.m, known[id])
  {
    AddVerified(b, known, accepted, r, ReceiptVerdict(b.c, b.m, r))
  }

  function AddVerified(b: Board, known: map<string, Json>, accepted: set<string>, r: Receipt, verdict: Result<string>): Result<set<string>>
    requires SoundBoard(b) && forall id | id in known :: GoodBallot(b.c, b.m, known[id])
  {
    match verdict
    case Failure(e) => Failure(e)
    case Success(_) =>
      var id := r.statement.recordId;
      if id !in known then Failure(ReceiptedRecordMissing)
      else if r.statement != StatementOf(b.c, b.m, known[id]) then Failure(ContextMismatch)
      else Success(accepted + {id})
  }

  function ScanReceipts(b: Board, known: map<string, Json>, receipts: seq<Receipt>): Result<set<string>>
    requires SoundBoard(b) && forall id | id in known :: GoodBallot(b.c, b.m, known[id])
  {
    if receipts == [] then Success({})
    else
      match ScanReceipts(b, known, receipts[..|receipts| - 1])
      case Failure(e) => Failure(e)
      case Success(accepted) => AddReceipt(b, known, accepted, receipts[|receipts| - 1])
  }

  lemma ScanReceiptsStops(b: Board, known: map<string, Json>, receipts: seq<Receipt>, n: nat)
    requires SoundBoard(b) && forall id | id in known :: GoodBallot(b.c, b.m, known[id])
    requires n <= |receipts| && ScanReceipts(b, known, receipts[..n]).Failure?
    ensures ScanReceipts(b, known, receipts) == ScanReceipts(b, known, receipts[..n])
    decreases |receipts|
  {
    if n == |receipts| {
      assert receipts[..n] == receipts;
    } else {
      var front := receipts[..|receipts| - 1];
      assert front[..n] == receipts[..n];
      ScanReceiptsStops(b, known, front, n);
    }
  }

  // ----------------------------------------------------- what the records say

  ghost predicate AllChecked(b: Board, records: seq<Json>)
    requires SoundBoard(b)
  {
    forall i | 0 <= i < |records| :: CheckedRecord(b, records[i])
  }

  ghost function BallotsOf(b: Board, records: seq<Json>): (xs: seq<Ballot>)
    requires SoundBoard(b) && AllChecked(b, records)
    ensures |xs| == |records|
  {
    seq(|records|, i requires 0 <= i < |records| => BallotOf(b, records[i]))
  }

  /** Ids are ids: they determine the record. */
  ghost predicate Coherent(xs: seq<Ballot>)
  {
    forall i, j | 0 <= i < |xs| && 0 <= j < |xs| && xs[i].id == xs[j].id :: xs[i] == xs[j]
  }

  lemma BallotsAreCoherent(b: Board, records: seq<Json>)
    requires SoundBoard(b) && AllChecked(b, records)
    ensures Coherent(BallotsOf(b, records))
  {
    var xs := BallotsOf(b, records);
    forall i, j | 0 <= i < |xs| && 0 <= j < |xs| && xs[i].id == xs[j].id ensures xs[i] == xs[j] {
      assert CheckedRecord(b, records[i]) && CheckedRecord(b, records[j]);
      RecordIdIsInjective(b.c, records[i], records[j]);
    }
  }

  /** No two different records share a nullifier. */
  ghost predicate NullifiersAreUnique(xs: seq<Ballot>)
  {
    forall i, j | 0 <= i < |xs| && 0 <= j < |xs| && xs[i].nullifier == xs[j].nullifier :: xs[i].id == xs[j].id
  }

  ghost predicate IdListed(xs: seq<Ballot>, id: string)
  {
    exists i :: 0 <= i < |xs| && xs[i].id == id
  }

  ghost predicate NullifierListed(xs: seq<Ballot>, n: string)
  {
    exists i :: 0 <= i < |xs| && xs[i].nullifier == n
  }

  ghost predicate EntryKnown(known: Known, x: Ballot)
  {
    && x.id in known.records && known.records[x.id] == x.record
    && x.nullifier in known.nullifiers && known.nullifiers[x.nullifier] == x.id
  }

  /** The dictionaries hold exactly the given ballots. */
  ghost predicate KnownIs(xs: seq<Ballot>, known: Known)
  {
    && (forall i | 0 <= i < |xs| :: EntryKnown(known, xs[i]))
    && (forall id | id in known.records :: IdListed(xs, id))
    && (forall n | n in known.nullifiers :: NullifierListed(xs, n))
  }

  lemma ListedStep(xs: seq<Ballot>, x: Ballot, s: string)
    ensures IdListed(xs + [x], s) <==> IdListed(xs, s) || x.id == s
    ensures NullifierListed(xs + [x], s) <==> NullifierListed(xs, s) || x.nullifier == s
  {
    var all := xs + [x];
    assert all[|xs|] == x && forall i | 0 <= i < |xs| :: all[i] == xs[i];
  }

  lemma UniqueStep(xs: seq<Ballot>, x: Ballot)
    ensures NullifiersAreUnique(xs + [x])
            <==> NullifiersAreUnique(xs) && forall i | 0 <= i < |xs| && xs[i].nullifier == x.nullifier :: xs[i].id == x.id
  {
    var all := xs + [x];
    assert all[|xs|] == x && forall i | 0 <= i < |xs| :: all[i] == xs[i];
  }

  lemma AddBallotMeaning(xs: seq<Ballot>, known: Known, x: Ballot)
    requires KnownIs(xs, known) && NullifiersAreUnique(xs)
    ensures AddBallot(known, x).Success? <==> NullifiersAreUnique(xs + [x])
  {
    UniqueStep(xs, x);
    if x.nullifier in known.nullifiers {
      assert NullifierListed(xs, x.nullifier);
      var i :| 0 <= i < |xs| && xs[i].nullifier == x.nullifier;
      assert EntryKnown(known, xs[i]);
    }
    forall i | 0 <= i < |xs| && xs[i].nullifier == x.nullifier
      ensures x.nullifier in known.nullifiers && known.nullifiers[x.nullifier] == xs[i].id
    {
      assert EntryKnown(known, xs[i]);
    }
  }

  lemma KnownGrows(xs: seq<Ballot>, known: Known, x: Ballot)
    requires KnownIs(xs, known) && Coherent(xs + [x]) && AddBallot(known, x).Success?
    ensures KnownIs(xs + [x], AddBallot(known, x).value)
  {
    var all := xs + [x];
    var next := AddBallot(known, x).value;
    assert all[|xs|] == x;
    forall i | 0 <= i < |all| ensures EntryKnown(next, all[i]) {
      if i < |xs| {
        assert all[i] == xs[i] && EntryKnown(known, xs[i]);
        assert all[i].id == all[|xs|].id ==> all[i] == x;
      }
    }
    forall id | id in next.records ensures IdListed(all, id) {
      ListedStep(xs, x, id);
    }
    forall n | n in next.nullifiers ensures NullifierListed(all, n) {
      ListedStep(xs, x, n);
    }
  }

  ghost predicate GoodRecords(b: Board, records: seq<Json>)
    requires SoundBoard(b)
  {
    AllChecked(b, records) && NullifiersAreUnique(BallotsOf(b, records))
  }

  lemma CheckedStep(b: Board, front: seq<Json>, last: Json)
    requires SoundBoard(b)
    ensures AllChecked(b, front + [last]) <==> AllChecked(b, front) && CheckedRecord(b, last)
  {
    var all := front + [last];
    assert all[|front|] == last;
    assert forall i | 0 <= i < |front| :: all[i] == front[i];
  }

  lemma BallotsStep(b: Board, front: seq<Json>, last: Json)
    requires SoundBoard(b) && AllChecked(b, front) && CheckedRecord(b, last) && AllChecked(b, front + [last])
    ensures BallotsOf(b, front + [last]) == BallotsOf(b, front) + [BallotOf(b, last)]
  {
    var all := front + [last];
    var xs, ys := BallotsOf(b, front), BallotsOf(b, all);
    forall i | 0 <= i < |all| ensures ys[i] == (xs + [BallotOf(b, last)])[i] {
      assert i < |front| ==> all[i] == front[i];
    }
  }

  /** The record loop succeeds exactly on checked records without shared nullifiers. */
  lemma {:induction false} ScanRecordsMeaning(b: Board, records: seq<Json>)
    requires SoundBoard(b)
    ensures ScanRecords(b, records).Success? <==> GoodRecords(b, records)
    ensures ScanRecords(b, records).Success? ==> KnownIs(BallotsOf(b, records), ScanRecords(b, records).value)
  {
    if records != [] {
      var n := |records| - 1;
      var front, last := records[..n], records[n];
      assert records == front + [last];
      ScanRecordsMeaning(b, front);
      RecordErrorMeaning(b, last);
      CheckedStep(b, front, last);
      if AllChecked(b, records) {
        BallotsAreCoherent(b, records);
        BallotsStep(b, front, last);
        UniqueStep(BallotsOf(b, front), BallotOf(b, last));
        if ScanRecords(b, front).Success? {
          var known := ScanRecords(b, front).value;
          AddBallotMeaning(BallotsOf(b, front), known, BallotOf(b, last));
          if AddBallot(known, BallotOf(b, last)).Success? {
            KnownGrows(BallotsOf(b, front), known, BallotOf(b, last));
          }
        }
      }
    }
  }

  lemma KnownRecordsAreGood(b: Board, records: seq<Json>)
    requires SoundBoard(b) && ScanRecords(b, records).Success?
    ensures var known := ScanRecords(b, records).value.records;
            forall id | id in known :: GoodBallot(b.c, b.m, known[id]) && RecordId(b.c, known[id]) == id
  {
    ScanRecordsMeaning(b, records);
    var known := ScanRecords(b, records).value.records;
    var xs := BallotsOf(b, records);
    forall id | id in known ensures GoodBallot(b.c, b.m, known[id]) && RecordId(b.c, known[id]) == id {
      assert IdListed(xs, id);
      var i :| 0 <= i < |xs| && xs[i].id == id;
      assert EntryKnown(ScanRecords(b, records).value, xs[i]) && CheckedRecord(b, records[i]);
    }
  }

  // ---------------------------------------------------- what the receipts say

  /** A valid receipt about one of the known records. */
  ghost predicate BackedReceipt(b: Board, known: map<string, Json>, r: Receipt)
    requires SoundBoard(b) && forall id | id in known :: GoodBallot(b.c, b.m, known[id])
  {
    GoodReceipt(b.c, b.m, r) && AboutKnown(b, known, r)
  }

  ghost predicate AboutKnown(b: Board, known: map<string, Json>, r: Receipt)
    requires SoundBoard(b) && forall id | id in known :: GoodBallot(b.c, b.m, known[id])
  {
    && r.statement.recordId in known
    && r.statement == StatementOf(b.c, b.m, known[r.statement.recordId])
  }

  function ReceiptIds(receipts: seq<Receipt>): set<string>
  {
    set r | r in receipts :: r.statement.recordId
  }

  lemma AddVerifiedMeaning(b: Board, known: map<string, Json>, accepted: set<string>, r: Receipt, verdict: Result<string>)
    requires SoundBoard(b) && forall id | id in known :: GoodBallot(b.c, b.m, known[id])
    ensures AddVerified(b, known, accepted, r, verdict).Success? <==> verdict.Success? && AboutKnown(b, known, r)
    ensures verdict.Success? && AboutKnown(b, known, r) ==>
              AddVerified(b, known, accepted, r, verdict) == Success(accepted + {r.statement.recordId})
  {
  }

  lemma AddReceiptMeaning(b: Board, known: map<string, Json>, accepted: set<string>, r: Receipt)
    requires SoundBoard(b) && forall id | id in known :: GoodBallot(b.c, b.m, known[id])
    ensures AddReceipt(b, known, accepted, r).Success? <==> BackedReceipt(b, known, r)
    ensures BackedReceipt(b, known, r) ==> AddReceipt(b, known, accepted, r) == Success(accepted + {r.statement.recordId})
  {
    ReceiptVerdictMeaning(b.c, b.m, r);
    AddVerifiedMeaning(b, known, accepted, r, ReceiptVerdict(b.c, b.m, r));
  }

  ghost predicate AllBacked(b: Board, known: map<string, Json>, receipts: seq<Receipt>)
    requires SoundBoard(b) && forall id | id in known :: GoodBallot(b.c, b.m, known[id])
  {
    forall i | 0 <= i < |receipts| :: BackedReceipt(b, known, receipts[i])
  }

  lemma BackedStep(b: Board, known: map<string, Json>, front: seq<Receipt>, last: Receipt)
    requires SoundBoard(b) && forall id | id in known :: GoodBallot(b.c, b.m, known[id])
    ensures AllBacked(b, known, front + [last]) <==> AllBacked(b, known, front) && BackedReceipt(b, known, last)
  {
    AllStep(front, last, r => BackedReceipt(b, known, r));
  }

  lemma AllStep(front: seq<Receipt>, last: Receipt, p: Receipt -> bool)
    ensures (forall i | 0 <= i < |front| + 1 :: p((front + [last])[i])) <==> (forall i | 0 <= i < |front| :: p(front[i])) && p(last)
  {
    var all := front + [last];
    assert all[|front|] == last && forall i | 0 <= i < |front| :: all[i] == front[i];
    if forall i | 0 <= i < |front| + 1 :: p(all[i]) {
      forall i | 0 <= i < |front| ensures p(front[i]) {
        assert p(all[i]);
      }
    }
  }

  lemma {:induction false} ScanReceiptsMeaning(b: Board, known: map<string, Json>, receipts: seq<Receipt>)
    requires SoundBoard(b) && forall id | id in known :: GoodBallot(b.c, b.m, known[id])
    ensures ScanReceipts(b, known, receipts).Success? <==> AllBacked(b, known, receipts)
    ensures ScanReceipts(b, known, receipts).Success? ==> ScanReceipts(b, known, receipts).value == ReceiptIds(receipts)
  {
    if receipts != [] {
      var n := |receipts| - 1;
      var front, last := receipts[..n], receipts[n];
      assert receipts == front + [last];
      ScanReceiptsMeaning(b, known, front);
      BackedStep(b, known, front, last);
      ReceiptIdsStep(front, last);
      if ScanReceipts(b, known, front).Success? {
        AddReceiptMeaning(b, known, ScanReceipts(b, known, front).value, last);
      }
    }
  }

  lemma ReceiptIdsStep(front: seq<Receipt>, last: Receipt)
    ensures ReceiptIds(front + [last]) == ReceiptIds(front) + {last.statement.recordId}
  {
    assert forall r :: r in front + [last] <==> r in front || r == last;
  }

  // ----------------------------------------------------------------- verdict

  /** The final comparison of the accepted set with the sealed body. */
  function SealVerdict(b: Board, accepted: set<string>, q: QuorumCheckpoint, minimum: int): Result<BoardVerification>
    requires SoundBoard(b)
  {
    match CheckpointVerdict(b.c, b.m, q)
    case Failure(e) => Failure(e)
    case Success(hash) =>
      var root := MerkleRoot(b.c, accepted);
      if q.checkpoint.recordSetRoot != root || q.checkpoint.acceptedBallotRoot != root then
        Failure(ReceiptedRecordMissing)
      else if q.checkpoint.recordCount != |accepted| then Failure(ContextMismatch)
      else Success(BoardVerification(true, b.m.decisionId, |accepted|, Sorted(accepted), hash, |accepted| >= minimum))
  }

  /** `verify_board_bundle`. */
  function BundleVerdict(b: Board, records: seq<Json>, receipts: seq<Receipt>, q: QuorumCheckpoint, minimum: int)
    : Result<BoardVerification>
    requires SoundBoard(b)
  {
    if minimum != b.m.minimumAnonymitySet then Failure(NonCanonical)
    else
      match ScanRecords(b, records)
      case Failure(e) => Failure(e)
      case Success(known) =>
        KnownRecordsAreGood(b, records);
        match ScanReceipts(b, known.records, receipts)
        case Failure(e) => Failure(e)
        case Success(accepted) => SealVerdict(b, accepted, q, minimum)
  }

  lemma ScanRecordsNext(b: Board, records: seq<Json>, n: nat)
    requires SoundBoard(b) && n < |records| && ScanRecords(b, records[..n]).Success?
    ensures ScanRecords(b, records[..n + 1]) == AddRecord(b, ScanRecords(b, records[..n]).value, records[n])
  {
    assert records[..n + 1][..n] == records[..n];
  }

  lemma ScanReceiptsNext(b: Board, known: map<string, Json>, receipts: seq<Receipt>, n: nat)
    requires SoundBoard(b) && forall id | id in known :: GoodBallot(b.c, b.m, known[id])
    requires n < |receipts| && ScanReceipts(b, known, receipts[..n]).Success?
    ensures ScanReceipts(b, known, receipts[..n + 1]) ==
            AddReceipt(b, known, ScanReceipts(b, known, receipts[..n]).value, receipts[n])
  {
    assert receipts[..n + 1][..n] == receipts[..n];
  }

  method ReadRecords(b: Board, records: seq<Json>) returns (r: Result<Known>)
    requires SoundBoard(b)
    ensures r == ScanRecords(b, records)
  {
    var known := Known(map[], map[]);
    for n := 0 to |records|
      invariant ScanRecords(b, records[..n]) == Success(known)
    {
      ScanRecordsNext(b, records, n);
      var next := AddRecord(b, known, records[n]);
      if next.Failure? {
        ScanRecordsStops(b, records, n + 1);
        return Failure(next.error);
      }
      known := next.value;
    }
    assert records[..|records|] == records;
    return Success(known);
  }

  method ReadReceipts(b: Board, known: map<string, Json>, receipts: seq<Receipt>) returns (r: Result<set<string>>)
    requires SoundBoard(b) && forall id | id in known :: GoodBallot(b.c, b.m, known[id])
    ensures r == ScanReceipts(b, known, receipts)
  {
    var accepted: set<string> := {};
    for n := 0 to |receipts|
      invariant ScanReceipts(b, known, receipts[..n]) == Success(accepted)
    {
      ScanReceiptsNext(b, known, receipts, n);
      var next := AddReceipt(b, known, accepted, receipts[n]);
      if next.Failure? {
        ScanReceiptsStops(b, known, receipts, n + 1);
        return Failure(next.error);
      }
      accepted := next.value;
    }
    assert receipts[..|receipts|] == receipts;
    return Success(accepted);
  }

  method VerifyBoardBundle(b: Board, records: seq<Json>, receipts: seq<Receipt>, q: QuorumCheckpoint, minimum: int)
    returns (r: Result<BoardVerification>)
    requires SoundBoard(b)
    ensures r == BundleVerdict(b, records, receipts, q, minimum)
    ensures r.Success? <==> GoodBundle(b, records, receipts, q, minimum)
    ensures r.Success? ==> forall i | 0 <= i < |records| :: BoardRecord(b, records[i])
  {
    BundleVerdictMeaning(b, records, receipts, q, minimum);
    if GoodBundle(b, records, receipts, q, minimum) {
      AcceptedRecords(b, records, receipts, q, minimum);
    }
    if minimum != b.m.minimumAnonymitySet {
      return Failure(NonCanonical);
    }
    var known := ReadRecords(b, records);
    if known.Failure? {
      return Failure(known.error);
    }
    KnownRecordsAreGood(b, records);
    var accepted := ReadReceipts(b, known.value.records, receipts);
    if accepted.Failure? {
      return Failure(accepted.error);
    }
    var hash := VerifyQuorumCheckpoint(b.c, b.m, q);
    if hash.Failure? {
      return Failure(hash.error);
    }
    var listed := Sorted(accepted.value);
    var root, _ := ComputeRoot(b.c, listed);
    if q.checkpoint.recordSetRoot != root || q.checkpoint.acceptedBallotRoot != root {
      return Failure(ReceiptedRecordMissing);
    }
    if q.checkpoint.recordCount != |accepted.value| {
      return Failure(ContextMismatch);
    }
    return Success(BoardVerification(true, b.m.decisionId, |accepted.value|, listed, hash.value,
                                     |accepted.value| >= minimum));
  }

  /** A valid receipt whose statement is about a listed record. */
  ghost predicate ReceiptListed(b: Board, records: seq<Json>, r: Receipt)
    requires SoundBoard(b)
  {
    && GoodReceipt(b.c, b.m, r)
    && exists j :: 0 <= j < |records| && IsAbout(b, records[j], r)
  }

  ghost predicate IsAbout(b: Board, record: Json, r: Receipt)
    requires SoundBoard(b)
  {
    CheckedRecord(b, record) && r.statement == StatementOf(b.c, b.m, record)
  }

  /** A bundle is good when its records, receipts and checkpoint are good and the sealed root and
      count are those of the receipted set. */
  ghost predicate GoodBundle(b: Board, records: seq<Json>, receipts: seq<Receipt>, q: QuorumCheckpoint, minimum: int)
    requires SoundBoard(b)
  {
    && minimum == b.m.minimumAnonymitySet
    && GoodRecords(b, records)
    && (forall i | 0 <= i < |receipts| :: ReceiptListed(b, records, receipts[i]))
    && GoodCheckpoint(b.c, b.m, q)
    && q.checkpoint.recordSetRoot == MerkleRoot(b.c, ReceiptIds(receipts)) == q.checkpoint.acceptedBallotRoot
    && q.checkpoint.recordCount == |ReceiptIds(receipts)|
  }

  lemma BackedMeansListed(b: Board, records: seq<Json>, known: Known, r: Receipt)
    requires SoundBoard(b) && GoodRecords(b, records) && KnownIs(BallotsOf(b, records), known)
    requires forall id | id in known.records :: GoodBallot(b.c, b.m, known.records[id])
    ensures BackedReceipt(b, known.records, r) <==> ReceiptListed(b, records, r)
  {
    var xs := BallotsOf(b, records);
    if BackedReceipt(b, known.records, r) {
      assert IdListed(xs, r.statement.recordId);
      var j :| 0 <= j < |xs| && xs[j].id == r.statement.recordId;
      assert EntryKnown(known, xs[j]);
      assert CheckedRecord(b, records[j]);
      assert IsAbout(b, records[j], r);
    }
    if ReceiptListed(b, records, r) {
      var j :| 0 <= j < |records| && IsAbout(b, records[j], r);
      assert EntryKnown(known, xs[j]);
      assert xs[j].id == r.statement.recordId;
    }
  }

  lemma SealVerdictMeaning(b: Board, accepted: set<string>, q: QuorumCheckpoint, minimum: int)
    requires SoundBoard(b)
    ensures SealVerdict(b, accepted, q, minimum).Success?
            <==> GoodCheckpoint(b.c, b.m, q)
                 && q.checkpoint.recordSetRoot == MerkleRoot(b.c, accepted) == q.checkpoint.acceptedBallotRoot
                 && q.checkpoint.recordCount == |accepted|
    ensures SealVerdict(b, accepted, q, minimum).Success? ==>
            SealVerdict(b, accepted, q, minimum).value
            == BoardVerification(true, b.m.decisionId, |accepted|, Sorted(accepted), q.checkpointHash, |accepted| >= minimum)
  {
    CheckpointVerdictMeaning(b.c, b.m, q);
  }

  /** Exactly the good bundles are accepted, and the result reports the receipted set. */
  lemma BundleVerdictMeaning(b: Board, records: seq<Json>, receipts: seq<Receipt>, q: QuorumCheckpoint, minimum: int)
    requires SoundBoard(b)
    ensures BundleVerdict(b, records, receipts, q, minimum).Success? <==> GoodBundle(b, records, receipts, q, minimum)
    ensures GoodBundle(b, records, receipts, q, minimum) ==>
            var ids := ReceiptIds(receipts);
            BundleVerdict(b, records, receipts, q, minimum) ==
            Success(BoardVerification(true, b.m.decisionId, |ids|, Sorted(ids), q.checkpointHash, |ids| >= minimum))
  {
    ScanRecordsMeaning(b, records);
    if ScanRecords(b, records).Success? {
      KnownRecordsAreGood(b, records);
      ReceiptsAreListed(b, records, receipts);
      SealVerdictMeaning(b, ReceiptIds(receipts), q, minimum);
    }
  }

  /** The receipt loop passes exactly on receipts about the listed records. */
  lemma ReceiptsAreListed(b: Board, records: seq<Json>, receipts: seq<Receipt>)
    requires SoundBoard(b) && ScanRecords(b, records).Success?
    requires forall id | id in ScanRecords(b, records).value.records ::
               GoodBallot(b.c, b.m, ScanRecords(b, records).value.records[id])
    ensures var r := ScanReceipts(b, ScanRecords(b, records).value.records, receipts);
            && (r.Success? <==> forall i | 0 <= i < |receipts| :: ReceiptListed(b, records, receipts[i]))
            && (r.Success? ==> r.value == ReceiptIds(receipts))
  {
    ScanRecordsMeaning(b, records);
    var known := ScanRecords(b, records).value;
    forall r ensures BackedReceipt(b, known.records, r) <==> ReceiptListed(b, records, r) {
      BackedMeansListed(b, records, known, r);
    }
    ScanReceiptsMeaning(b, known.records, receipts);
  }

  /** A record of this board, on its own: its seven fields, the candidate it binds, its nullifier, its proof. */
  ghost predicate BoardRecord(b: Board, record: Json)
    requires SoundBoard(b)
  {
    Valid(record) && WellFormedBallot(b.c, b.m, record) && b.proof(record)
  }

  /** Good records are well-formed ballots with proofs, no two different ones under one nullifier. */
  lemma GoodRecordsMeaning(b: Board, records: seq<Json>)
    requires SoundBoard(b)
    ensures GoodRecords(b, records) <==>
            && (forall i | 0 <= i < |records| :: BoardRecord(b, records[i]))
            && (forall i, j | 0 <= i < |records| && 0 <= j < |records| :: SameNullifier(records[i], records[j]) ==> records[i] == records[j])
  {
    if forall i | 0 <= i < |records| :: BoardRecord(b, records[i]) {
      forall i | 0 <= i < |records| ensures CheckedRecord(b, records[i]) {
        assert BoardRecord(b, records[i]);
      }
      var xs := BallotsOf(b, records);
      forall i, j | 0 <= i < |records| && 0 <= j < |records|
        ensures xs[i].nullifier == xs[j].nullifier <==> SameNullifier(records[i], records[j])
        ensures xs[i].id == xs[j].id <==> records[i] == records[j]
      {
        SameBallot(b, records[i], records[j]);
      }
    } else {
      var i :| 0 <= i < |records| && !BoardRecord(b, records[i]);
      assert !CheckedRecord(b, records[i]);
    }
  }

  predicate SameNullifier(r: Json, s: Json)
  {
    && r.Obj? && s.Obj? && "nullifier" in r.fields && "nullifier" in s.fields
    && r.fields["nullifier"] == s.fields["nullifier"]
  }

  lemma SameBallot(b: Board, r: Json, s: Json)
    requires SoundBoard(b) && CheckedRecord(b, r) && CheckedRecord(b, s)
    ensures BallotOf(b, r).nullifier == BallotOf(b, s).nullifier <==> SameNullifier(r, s)
    ensures BallotOf(b, r).id == BallotOf(b, s).id <==> r == s
  {
    BallotFacts(b.c, b.m, r);
    BallotFacts(b.c, b.m, s);
    if BallotOf(b, r).id == BallotOf(b, s).id {
      RecordIdIsInjective(b.c, r, s);
    }
  }

  /** What an accepted bundle lists. */
  lemma AcceptedRecords(b: Board, records: seq<Json>, receipts: seq<Receipt>, q: QuorumCheckpoint, minimum: int)
    requires SoundBoard(b) && BundleVerdict(b, records, receipts, q, minimum).Success?
    ensures forall i | 0 <= i < |records| :: BoardRecord(b, records[i])
    ensures forall i, j | 0 <= i < |records| && 0 <= j < |records| :: SameNullifier(records[i], records[j]) ==> records[i] == records[j]
  {
    BundleVerdictMeaning(b, records, receipts, q, minimum);
    GoodRecordsMeaning(b, records);
  }

  /** A record that is no ballot of this board stops the verifier, with the error of the first such record. */
  lemma FirstBadRecord(b: Board, records: seq<Json>, receipts: seq<Receipt>, q: QuorumCheckpoint, n: nat)
    requires SoundBoard(b) && n < |records| && GoodRecords(b, records[..n]) && !BoardRecord(b, records[n])
    ensures RecordError(b, records[n]).Some?
    ensures BundleVerdict(b, records, receipts, q, b.m.minimumAnonymitySet) == Failure(RecordError(b, records[n]).value)
  {
    ScanRecordsMeaning(b, records[..n]);
    RecordErrorMeaning(b, records[n]);
    ScanRecordsNext(b, records, n);
    ScanRecordsStops(b, records, n + 1);
  }
}
