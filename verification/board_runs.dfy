/** Whole runs of the honest Witnesses against a faulty Witness and an arbitrary network. */
module BoardRuns {
  import opened Outcomes
  import opened Ordering
  import opened CanonicalJson
  import opened Merkle
  import opened Manifests
  import opened Statements
  import opened Quorums
  import opened Receipts
  import opened Checkpoints
  import opened Ballots
  import opened WitnessTables
  import opened WitnessInvariant
  import opened Bundles

  /** One call on one Witness store, with whatever arguments the network delivers. */
  datatype Action =
    | Submit(key: string, raw: string, now: int)
    | StoreReceipt(key: string, receipt: Receipt, record: Option<string>, now: int)
    | Checkpoint(key: string, cutoff: string, height: int, previous: string)

  /** The tables of every honest Witness. A faulty Witness has no state: it may do anything. */
  type World = map<string, Tables>

  /** The primitives are ideal, the manifest is valid, and at most one Witness is faulty. */
  ghost predicate Setting(b: Board, honest: set<string>)
  {
    SoundBoard(b) && MostlyHonest(b.m, honest)
  }

  /** Every Witness key of a validated manifest is text. */
  lemma HonestKeysAreText(b: Board, honest: set<string>)
    requires Setting(b, honest)
    ensures forall k | k in honest :: ValidString(k)
  {
    WitnessKeysAreText(b.c, b.m);
    forall k | k in honest ensures ValidString(k) {
      assert k in Elements(b.m.witnesses);
    }
  }

  function Act(b: Board, key: string, t: Tables, a: Action): Tables
    requires SoundBoard(b) && ValidString(key)
  {
    match a
    case Submit(_, raw, now) => SubmitStep(b, key, t, raw, now).1
    case StoreReceipt(_, receipt, raw, now) => StoreReceiptStep(b, key, t, receipt, raw, now).1
    case Checkpoint(_, cutoff, height, previous) => CheckpointStep(b, key, t, cutoff, height, previous).1
  }

  function Run(b: Board, honest: set<string>, actions: seq<Action>): (w: World)
    requires Setting(b, honest)
    ensures w.Keys == honest && forall k | k in w :: ValidString(k)
  {
    HonestKeysAreText(b, honest);
    if actions == [] then map k | k in honest :: EMPTY_TABLES
    else
      Deliver(b, Run(b, honest, actions[..|actions| - 1]), actions[|actions| - 1])
  }

  /** One action reaches the store it is addressed to, if that Witness is honest. */
  function Deliver(b: Board, w: World, a: Action): (w': World)
    requires SoundBoard(b) && (forall k | k in w :: ValidString(k))
    ensures w'.Keys == w.Keys
  {
    if a.key in w then w[a.key := Act(b, a.key, w[a.key], a)] else w
  }

  // ---------------------------------------------------------------- invariant

  lemma ActKeeps(b: Board, key: string, t: Tables, a: Action)
    requires SoundBoard(b) && ValidString(key) && StoreInv(b, key, t)
    ensures Keeps(b, key, t, Act(b, key, t, a))
  {
    match a
    case Submit(_, raw, now) => SubmitKeeps(b, key, t, raw, now);
    case StoreReceipt(_, receipt, raw, now) => StoreReceiptKeeps(b, key, t, receipt, raw, now);
    case Checkpoint(_, cutoff, height, previous) => CheckpointKeeps(b, key, t, cutoff, height, previous);
  }

  lemma DeliveryKeeps(b: Board, w: World, a: Action, key: string)
    requires SoundBoard(b) && (forall k | k in w :: ValidString(k))
    requires key in w && StoreInv(b, key, w[key])
    ensures Keeps(b, key, w[key], Deliver(b, w, a)[key])
  {
    if a.key == key {
      ActKeeps(b, key, w[key], a);
    } else {
      UnchangedIsKept(b, key, w[key]);
    }
  }

  /** In every run every honest store keeps its invariant. */
  lemma {:induction false} RunKeepsInvariant(b: Board, honest: set<string>, actions: seq<Action>, key: string)
    requires Setting(b, honest) && key in honest
    ensures StoreInv(b, key, Run(b, honest, actions)[key])
  {
    if actions == [] {
      HonestKeysAreText(b, honest);
      EmptyIsGood(b, key);
    } else {
      var front, last := actions[..|actions| - 1], actions[|actions| - 1];
      RunKeepsInvariant(b, honest, front, key);
      DeliveryKeeps(b, Run(b, honest, front), last, key);
    }
  }

  lemma LastActionGrows(b: Board, honest: set<string>, actions: seq<Action>, key: string)
    requires Setting(b, honest) && key in honest && actions != []
    ensures Extends(Run(b, honest, actions[..|actions| - 1])[key], Run(b, honest, actions)[key])
  {
    var w := Run(b, honest, actions[..|actions| - 1]);
    RunKeepsInvariant(b, honest, actions[..|actions| - 1], key);
    DeliveryKeeps(b, w, actions[|actions| - 1], key);
  }

  /** In every run nothing an honest store wrote is ever removed or changed. */
  lemma {:induction false} RunOnlyGrows(b: Board, honest: set<string>, actions: seq<Action>, n: nat, key: string)
    requires Setting(b, honest) && key in honest && n <= |actions|
    ensures Extends(Run(b, honest, actions[..n])[key], Run(b, honest, actions)[key])
    decreases |actions|
  {
    var t := Run(b, honest, actions[..n])[key];
    if n == |actions| {
      assert actions[..n] == actions;
      ExtendsIsReflexive(t);
    } else {
      var front := actions[..|actions| - 1];
      assert front[..n] == actions[..n];
      RunOnlyGrows(b, honest, front, n, key);
      LastActionGrows(b, honest, actions, key);
      ExtendsIsTransitive(t, Run(b, honest, front)[key], Run(b, honest, actions)[key]);
    }
  }

  /** At most one checkpoint is ever signed: what is sealed after a prefix stays sealed as it is. */
  lemma SealedOnce(b: Board, honest: set<string>, actions: seq<Action>, n: nat, key: string)
    requires Setting(b, honest) && key in honest && n <= |actions|
    requires HeightOf(b) in Run(b, honest, actions[..n])[key].checkpoints
    ensures HeightOf(b) in Run(b, honest, actions)[key].checkpoints
    ensures Run(b, honest, actions)[key].checkpoints[HeightOf(b)]
         == Run(b, honest, actions[..n])[key].checkpoints[HeightOf(b)]
    ensures forall k | k in Run(b, honest, actions)[key].checkpoints :: k == HeightOf(b)
  {
    RunOnlyGrows(b, honest, actions, n, key);
    RunKeepsInvariant(b, honest, actions, key);
    var t, u := Run(b, honest, actions[..n])[key], Run(b, honest, actions)[key];
    assert KeptAt(t, u, AtHeight(HeightOf(b)));
    forall k | k in u.checkpoints ensures k == HeightOf(b) {
      assert GoodAt(b, key, u, AtHeight(k));
    }
  }

  // --------------------------------------------------------------- signatures

  ghost predicate IssuedAcceptance(b: Board, t: Tables, message: string, id: string)
    requires SoundBoard(b)
  {
    && id in t.acceptances && ValidStatement(t.acceptances[id].statement)
    && message == AcceptanceMessage(b.c, t.acceptances[id].statement)
  }

  /** The messages a store has released a signature on: its acceptances and its one checkpoint. */
  ghost predicate Issued(b: Board, t: Tables, message: string)
    requires SoundBoard(b)
  {
    || (exists id :: IssuedAcceptance(b, t, message, id))
    || (HeightOf(b) in t.checkpoints && message == t.checkpoints[HeightOf(b)].checkpointHash)
  }

  /** A signature that verifies under an honest key was released by that key's store. */
  ghost predicate UnforgedEntry(b: Board, w: World, message: string, e: SigEntry)
    requires SoundBoard(b)
  {
    e.publicKey in w && b.c.verify(e.publicKey, e.signature, message) ==> Issued(b, w[e.publicKey], message)
  }

  ghost predicate Unforged(b: Board, w: World, message: string, entries: seq<SigEntry>)
    requires SoundBoard(b)
  {
    forall e | e in entries :: UnforgedEntry(b, w, message, e)
  }

  /** A receipt that verifies, with no forged honest signature in it. */
  ghost predicate PresentedReceipt(b: Board, w: World, r: Receipt)
    requires SoundBoard(b)
  {
    && ReceiptVerdict(b.c, b.m, r).Success?
    && ValidStatement(r.statement)
    && Unforged(b, w, AcceptanceMessage(b.c, r.statement), r.signatures)
  }

  /** A quorum checkpoint that verifies, with no forged honest signature in it. */
  ghost predicate PresentedCheckpoint(b: Board, w: World, q: QuorumCheckpoint)
    requires SoundBoard(b)
  {
    && CheckpointVerdict(b.c, b.m, q).Success?
    && Unforged(b, w, q.checkpointHash, CoreEntries(q.signatures))
  }

  /** A released signature stays released: verifiers may look at different times. */
  lemma IssuedPersists(b: Board, honest: set<string>, actions: seq<Action>, n: nat, key: string, message: string)
    requires Setting(b, honest) && key in honest && n <= |actions|
    requires Issued(b, Run(b, honest, actions[..n])[key], message)
    ensures Issued(b, Run(b, honest, actions)[key], message)
  {
    RunOnlyGrows(b, honest, actions, n, key);
    GrownIssued(b, Run(b, honest, actions[..n])[key], Run(b, honest, actions)[key], message);
  }

  lemma GrownIssued(b: Board, t: Tables, t': Tables, message: string)
    requires SoundBoard(b) && Extends(t, t') && Issued(b, t, message)
    ensures Issued(b, t', message)
  {
    assert KeptAt(t, t', AtHeight(HeightOf(b)));
    if id :| IssuedAcceptance(b, t, message, id) {
      assert KeptAt(t, t', AtRecord(id));
      assert IssuedAcceptance(b, t', message, id);
    }
  }

  lemma UnforgedPersists(b: Board, honest: set<string>, actions: seq<Action>, n: nat, message: string, entries: seq<SigEntry>)
    requires Setting(b, honest) && n <= |actions|
    requires Unforged(b, Run(b, honest, actions[..n]), message, entries)
    ensures Unforged(b, Run(b, honest, actions), message, entries)
  {
    var w, w' := Run(b, honest, actions[..n]), Run(b, honest, actions);
    forall e | e in entries ensures UnforgedEntry(b, w', message, e) {
      assert UnforgedEntry(b, w, message, e);
      if e.publicKey in w && Issued(b, w[e.publicKey], message) {
        IssuedPersists(b, honest, actions, n, e.publicKey, message);
      }
    }
  }

  lemma PresentedReceiptPersists(b: Board, honest: set<string>, actions: seq<Action>, n: nat, r: Receipt)
    requires Setting(b, honest) && n <= |actions|
    requires PresentedReceipt(b, Run(b, honest, actions[..n]), r)
    ensures PresentedReceipt(b, Run(b, honest, actions), r)
  {
    UnforgedPersists(b, honest, actions, n, AcceptanceMessage(b.c, r.statement), r.signatures);
  }

  lemma PresentedCheckpointPersists(b: Board, honest: set<string>, actions: seq<Action>, n: nat, q: QuorumCheckpoint)
    requires Setting(b, honest) && n <= |actions|
    requires PresentedCheckpoint(b, Run(b, honest, actions[..n]), q)
    ensures PresentedCheckpoint(b, Run(b, honest, actions), q)
  {
    UnforgedPersists(b, honest, actions, n, q.checkpointHash, CoreEntries(q.signatures));
  }

  /** An honest store that issued an acceptance message has accepted that very statement. */
  lemma IssuedMeansAccepted(b: Board, key: string, t: Tables, s: Statement)
    requires SoundBoard(b) && ValidString(key) && StoreInv(b, key, t)
    requires ValidStatement(s) && Issued(b, t, AcceptanceMessage(b.c, s))
    ensures s.recordId in t.acceptances && t.acceptances[s.recordId].statement == s
  {
    var message := AcceptanceMessage(b.c, s);
    if HeightOf(b) in t.checkpoints {
      SealedIsNoAcceptance(b, key, t, s);
    }
    var id :| IssuedAcceptance(b, t, message, id);
    AcceptanceMessageIsInjective(b.c, s, t.acceptances[id].statement);
    AcceptedIsRecorded(b, key, t, id);
    StoredStatementIsAccepted(b, key, t, id);
  }

  lemma SealedIsNoAcceptance(b: Board, key: string, t: Tables, s: Statement)
    requires SoundBoard(b) && ValidString(key) && StoreInv(b, key, t)
    requires ValidStatement(s) && HeightOf(b) in t.checkpoints
    ensures t.checkpoints[HeightOf(b)].checkpointHash != AcceptanceMessage(b.c, s)
  {
    var body := SealedBody(b, key, t);
    MessagesAreSeparate(b.c, s, body);
  }

  /** An honest store that issued a checkpoint hash holds it as its one sealed checkpoint. */
  lemma IssuedMeansSealed(b: Board, key: string, t: Tables, body: CheckpointBody)
    requires SoundBoard(b) && ValidString(key) && StoreInv(b, key, t)
    requires ValidBody(body) && Issued(b, t, CheckpointHash(b.c, body))
    ensures HeightOf(b) in t.checkpoints
    ensures t.checkpoints[HeightOf(b)].checkpointHash == CheckpointHash(b.c, body)
    ensures exists ids :: ids <= ReceiptedIds(t) && Covers(b, key, t.checkpoints[HeightOf(b)], ids) && body == BodyOver(b, ids)
  {
    var message := CheckpointHash(b.c, body);
    if exists id :: IssuedAcceptance(b, t, message, id) {
      var id :| IssuedAcceptance(b, t, message, id);
      MessagesAreSeparate(b.c, t.acceptances[id].statement, body);
      assert false;
    } else {
      assert GoodAt(b, key, t, AtHeight(HeightOf(b)));
      var ids :| ids <= ReceiptedIds(t) && Covers(b, key, t.checkpoints[HeightOf(b)], ids);
      CheckpointHashIsInjective(b.c, body, BodyOver(b, ids));
    }
  }

  /** Two quorums of a run share an honest Witness that issued both messages. */
  lemma SharedIssuer(b: Board, honest: set<string>, w: World, message: string, entries: seq<SigEntry>,
                     message': string, entries': seq<SigEntry>) returns (key: string)
    requires Setting(b, honest) && w.Keys == honest
    requires IsQuorum(b.c, b.m, message, entries) && Unforged(b, w, message, entries)
    requires IsQuorum(b.c, b.m, message', entries') && Unforged(b, w, message', entries')
    ensures key in honest && Issued(b, w[key], message) && Issued(b, w[key], message')
  {
    WitnessSetSize(b.c, b.m);
    QuorumSigners(b.c, b.m, message, entries);
    QuorumSigners(b.c, b.m, message', entries');
    QuorumsShareHonest(b.m, honest, Signers(entries), Signers(entries'));
    key :| key in Signers(entries) && key in Signers(entries') && key in honest;
    var e :| e in entries && e.publicKey == key && Genuine(b.c, b.m, message, e);
    var e' :| e' in entries' && e'.publicKey == key && Genuine(b.c, b.m, message', e');
    assert UnforgedEntry(b, w, message, e) && UnforgedEntry(b, w, message', e');
  }

  // ------------------------------------------------------------- main results

  lemma OneRecordAtOnce(b: Board, honest: set<string>, actions: seq<Action>, r: Receipt, r': Receipt)
    requires Setting(b, honest)
    requires PresentedReceipt(b, Run(b, honest, actions), r) && PresentedReceipt(b, Run(b, honest, actions), r')
    requires r.statement.nullifier == r'.statement.nullifier
    ensures r.statement == r'.statement
  {
    var w := Run(b, honest, actions);
    ReceiptVerdictMeaning(b.c, b.m, r);
    ReceiptVerdictMeaning(b.c, b.m, r');
    var key := SharedIssuer(b, honest, w, AcceptanceMessage(b.c, r.statement), r.signatures,
                            AcceptanceMessage(b.c, r'.statement), r'.signatures);
    RunKeepsInvariant(b, honest, actions, key);
    IssuedMeansAccepted(b, key, w[key], r.statement);
    IssuedMeansAccepted(b, key, w[key], r'.statement);
    OneAcceptancePerNullifier(b, key, w[key], r.statement.recordId, r'.statement.recordId);
  }

  /** One record per nullifier: two receipts with one nullifier, presented at any two times of a run,
      carry one statement. */
  lemma OneRecordPerNullifier(b: Board, honest: set<string>, actions: seq<Action>, n: nat, r: Receipt, n': nat, r': Receipt)
    requires Setting(b, honest) && n <= |actions| && n' <= |actions|
    requires PresentedReceipt(b, Run(b, honest, actions[..n]), r)
    requires PresentedReceipt(b, Run(b, honest, actions[..n']), r')
    requires r.statement.nullifier == r'.statement.nullifier
    ensures r.statement == r'.statement
  {
    PresentedReceiptPersists(b, honest, actions, n, r);
    PresentedReceiptPersists(b, honest, actions, n', r');
    OneRecordAtOnce(b, honest, actions, r, r');
  }

  lemma NoForkAtOnce(b: Board, honest: set<string>, actions: seq<Action>, q: QuorumCheckpoint, q': QuorumCheckpoint)
    requires Setting(b, honest)
    requires PresentedCheckpoint(b, Run(b, honest, actions), q) && PresentedCheckpoint(b, Run(b, honest, actions), q')
    ensures q.checkpoint == q'.checkpoint && q.checkpointHash == q'.checkpointHash
  {
    var w := Run(b, honest, actions);
    CheckpointVerdictMeaning(b.c, b.m, q);
    CheckpointVerdictMeaning(b.c, b.m, q');
    var key := SharedIssuer(b, honest, w, q.checkpointHash, CoreEntries(q.signatures),
                            q'.checkpointHash, CoreEntries(q'.signatures));
    RunKeepsInvariant(b, honest, actions, key);
    IssuedMeansSealed(b, key, w[key], q.checkpoint);
    IssuedMeansSealed(b, key, w[key], q'.checkpoint);
    CheckpointHashIsInjective(b.c, q.checkpoint, q'.checkpoint);
  }

  /** No fork: every two quorum checkpoints, presented at any two times of a run, have the same body and
      the same hash. */
  lemma NoFork(b: Board, honest: set<string>, actions: seq<Action>, n: nat, q: QuorumCheckpoint, n': nat, q': QuorumCheckpoint)
    requires Setting(b, honest) && n <= |actions| && n' <= |actions|
    requires PresentedCheckpoint(b, Run(b, honest, actions[..n]), q)
    requires PresentedCheckpoint(b, Run(b, honest, actions[..n']), q')
    ensures q.checkpoint == q'.checkpoint && q.checkpointHash == q'.checkpointHash
  {
    PresentedCheckpointPersists(b, honest, actions, n, q);
    PresentedCheckpointPersists(b, honest, actions, n', q');
    NoForkAtOnce(b, honest, actions, q, q');
  }

  /** A bundle that the verifier accepts, with no forged honest signature on its checkpoint. */
  ghost predicate PresentedBundle(b: Board, w: World, records: seq<Json>, receipts: seq<Receipt>, q: QuorumCheckpoint, minimum: int)
    requires SoundBoard(b)
  {
    && BundleVerdict(b, records, receipts, q, minimum).Success?
    && Unforged(b, w, q.checkpointHash, CoreEntries(q.signatures))
  }

  lemma PresentedBundleFacts(b: Board, w: World, records: seq<Json>, receipts: seq<Receipt>, q: QuorumCheckpoint, minimum: int)
    requires SoundBoard(b) && PresentedBundle(b, w, records, receipts, q, minimum)
    ensures PresentedCheckpoint(b, w, q)
    ensures q.checkpoint.recordSetRoot == MerkleRoot(b.c, ReceiptIds(receipts))
    ensures var ids := ReceiptIds(receipts);
            BundleVerdict(b, records, receipts, q, minimum) ==
            Success(BoardVerification(true, b.m.decisionId, |ids|, Sorted(ids), q.checkpointHash, |ids| >= b.m.minimumAnonymitySet))
  {
    BundleVerdictMeaning(b, records, receipts, q, minimum);
    CheckpointVerdictMeaning(b.c, b.m, q);
  }

  /** Agreement: every two bundles that are accepted, at any two times of a run, give the very same result. */
  lemma Agreement(b: Board, honest: set<string>, actions: seq<Action>,
                  n: nat, records: seq<Json>, receipts: seq<Receipt>, q: QuorumCheckpoint, minimum: int,
                  n': nat, records': seq<Json>, receipts': seq<Receipt>, q': QuorumCheckpoint, minimum': int)
    requires Setting(b, honest) && n <= |actions| && n' <= |actions|
    requires PresentedBundle(b, Run(b, honest, actions[..n]), records, receipts, q, minimum)
    requires PresentedBundle(b, Run(b, honest, actions[..n']), records', receipts', q', minimum')
    ensures BundleVerdict(b, records, receipts, q, minimum) == BundleVerdict(b, records', receipts', q', minimum')
    ensures ReceiptIds(receipts) == ReceiptIds(receipts')
  {
    PresentedBundleFacts(b, Run(b, honest, actions[..n]), records, receipts, q, minimum);
    PresentedBundleFacts(b, Run(b, honest, actions[..n']), records', receipts', q', minimum');
    NoFork(b, honest, actions, n, q, n', q');
    MerkleRootIsInjective(b.c, ReceiptIds(receipts), ReceiptIds(receipts'));
  }

  /** The nullifiers of the records an honest store accepted under the given ids. */
  function NullifiersOf(t: Tables, ids: set<string>): set<string>
    requires ids <= t.acceptances.Keys
  {
    set id | id in ids :: t.acceptances[id].statement.nullifier
  }

  lemma {:induction false} DistinctNullifiersCount(b: Board, key: string, t: Tables, ids: set<string>)
    requires SoundBoard(b) && ValidString(key) && StoreInv(b, key, t) && ids <= t.acceptances.Keys
    ensures |NullifiersOf(t, ids)| == |ids|
  {
    if ids == {} {
      assert NullifiersOf(t, ids) == {};
    } else {
      var id :| id in ids;
      var rest := ids - {id};
      DistinctNullifiersCount(b, key, t, rest);
      var n := t.acceptances[id].statement.nullifier;
      assert NullifiersOf(t, ids) == NullifiersOf(t, rest) + {n};
      if n in NullifiersOf(t, rest) {
        var other :| other in rest && t.acceptances[other].statement.nullifier == n;
        OneAcceptancePerNullifier(b, key, t, id, other);
      }
    }
  }

  ghost predicate Backed(b: Board, id: string, s: Statement)
    requires SoundBoard(b)
  {
    exists r: Receipt :: r.statement == s && s.recordId == id && ReceiptVerdict(b.c, b.m, r).Success?
  }

  /** No stuffing: what a quorum checkpoint covers is a set of records of an honest store, each backed
      by a receipt that verifies, with as many different nullifiers as the sealed count says. */
  lemma NoStuffing(b: Board, honest: set<string>, actions: seq<Action>, q: QuorumCheckpoint)
    returns (key: string, ids: set<string>)
    requires Setting(b, honest) && PresentedCheckpoint(b, Run(b, honest, actions), q)
    ensures key in honest && ids <= Run(b, honest, actions)[key].acceptances.Keys
    ensures q.checkpoint.recordSetRoot == MerkleRoot(b.c, ids) == q.checkpoint.acceptedBallotRoot
    ensures forall id | id in ids :: Backed(b, id, Run(b, honest, actions)[key].acceptances[id].statement)
    ensures q.checkpoint.recordCount == |ids| == |NullifiersOf(Run(b, honest, actions)[key], ids)|
  {
    key, ids := Sealer(b, honest, actions, q);
    var t := Run(b, honest, actions)[key];
    RunKeepsInvariant(b, honest, actions, key);
    forall id | id in ids ensures id in t.acceptances && Backed(b, id, t.acceptances[id].statement) {
      ReceiptedIsStored(b, key, t, id);
    }
    DistinctNullifiersCount(b, key, t, ids);
  }

  /** An honest Witness signed the checkpoint, over a set of records it holds receipts for. */
  lemma Sealer(b: Board, honest: set<string>, actions: seq<Action>, q: QuorumCheckpoint)
    returns (key: string, ids: set<string>)
    requires Setting(b, honest) && PresentedCheckpoint(b, Run(b, honest, actions), q)
    ensures key in honest && ids <= ReceiptedIds(Run(b, honest, actions)[key])
    ensures q.checkpoint == BodyOver(b, ids)
  {
    var w := Run(b, honest, actions);
    CheckpointVerdictMeaning(b.c, b.m, q);
    key := SharedIssuer(b, honest, w, q.checkpointHash, CoreEntries(q.signatures),
                        q.checkpointHash, CoreEntries(q.signatures));
    RunKeepsInvariant(b, honest, actions, key);
    IssuedMeansSealed(b, key, w[key], q.checkpoint);
    ids :| ids <= ReceiptedIds(w[key]) && q.checkpoint == BodyOver(b, ids);
  }

  // ------------------------------------------------------------ no suppression

  /** The store has not sealed yet, or sealed over a set that contains the record. */
  ghost predicate WillCover(b: Board, key: string, t: Tables, id: string)
    requires SoundBoard(b) && ValidString(key)
  {
    && id in ReceiptedIds(t)
    && (HeightOf(b) in t.checkpoints ==> CoversRecord(b, key, t.checkpoints[HeightOf(b)], id))
  }

  ghost predicate CoversRecord(b: Board, key: string, row: CheckpointRow, id: string)
    requires SoundBoard(b) && ValidString(key)
  {
    exists ids :: id in ids && Covers(b, key, row, ids)
  }

  lemma SealCovers(b: Board, key: string, t: Tables, id: string)
    requires SoundBoard(b) && ValidString(key) && WillCover(b, key, t, id)
    ensures HeightOf(b) in SealStep(b, key, t).1.checkpoints
            ==> CoversRecord(b, key, SealStep(b, key, t).1.checkpoints[HeightOf(b)], id)
  {
    var t' := SealStep(b, key, t).1;
    if HeightOf(b) !in t.checkpoints && HeightOf(b) in t'.checkpoints {
      assert Covers(b, key, t'.checkpoints[HeightOf(b)], ReceiptedIds(t));
    }
  }

  lemma ActCovers(b: Board, key: string, t: Tables, a: Action, id: string)
    requires SoundBoard(b) && ValidString(key) && StoreInv(b, key, t) && WillCover(b, key, t, id)
    ensures WillCover(b, key, Act(b, key, t, a), id)
  {
    ActKeeps(b, key, t, a);
    var t' := Act(b, key, t, a);
    ReceiptedPersists(t, t');
    match a
    case Submit(_, raw, now) => SubmitKeeps(b, key, t, raw, now);
    case StoreReceipt(_, receipt, raw, now) => StoreReceiptKeeps(b, key, t, receipt, raw, now);
    case Checkpoint(_, cutoff, height, previous) => SealCovers(b, key, t, id);
  }

  lemma DeliveryCovers(b: Board, w: World, a: Action, key: string, id: string)
    requires SoundBoard(b) && (forall k | k in w :: ValidString(k))
    requires key in w && StoreInv(b, key, w[key]) && WillCover(b, key, w[key], id)
    ensures WillCover(b, key, Deliver(b, w, a)[key], id)
  {
    if a.key == key {
      ActCovers(b, key, w[key], a, id);
    }
  }

  /** A record receipted before sealing stays covered for the rest of the run. */
  lemma {:induction false} RunCovers(b: Board, honest: set<string>, actions: seq<Action>, n: nat, key: string, id: string)
    requires Setting(b, honest) && key in honest && n <= |actions|
    requires id in ReceiptedIds(Run(b, honest, actions[..n])[key])
    requires HeightOf(b) !in Run(b, honest, actions[..n])[key].checkpoints
    ensures WillCover(b, key, Run(b, honest, actions)[key], id)
    decreases |actions|
  {
    if n == |actions| {
      assert actions[..n] == actions;
    } else {
      var front := actions[..|actions| - 1];
      assert front[..n] == actions[..n];
      RunCovers(b, honest, front, n, key, id);
      RunKeepsInvariant(b, honest, front, key);
      DeliveryCovers(b, Run(b, honest, front), actions[|actions| - 1], key, id);
    }
  }

  lemma SignedCoversRecord(b: Board, honest: set<string>, actions: seq<Action>, q: QuorumCheckpoint, key: string, id: string)
    requires Setting(b, honest) && PresentedCheckpoint(b, Run(b, honest, actions), q)
    requires key in honest && key in Signers(CoreEntries(q.signatures))
    requires WillCover(b, key, Run(b, honest, actions)[key], id)
    ensures exists ids :: id in ids && q.checkpoint == BodyOver(b, ids)
  {
    var w := Run(b, honest, actions);
    var t := w[key];
    CheckpointVerdictMeaning(b.c, b.m, q);
    QuorumSigners(b.c, b.m, q.checkpointHash, CoreEntries(q.signatures));
    var e :| e in CoreEntries(q.signatures) && e.publicKey == key && Genuine(b.c, b.m, q.checkpointHash, e);
    assert UnforgedEntry(b, w, q.checkpointHash, e);
    RunKeepsInvariant(b, honest, actions, key);
    IssuedMeansSealed(b, key, t, q.checkpoint);
    var ids :| id in ids && Covers(b, key, t.checkpoints[HeightOf(b)], ids);
    CheckpointHashIsInjective(b.c, q.checkpoint, BodyOver(b, ids));
  }

  lemma SignedByEither(b: Board, q: QuorumCheckpoint, key: string, key': string)
    requires SoundBoard(b) && CheckpointVerdict(b.c, b.m, q).Success?
    requires key in b.m.witnesses && key' in b.m.witnesses && key != key'
    ensures key in Signers(CoreEntries(q.signatures)) || key' in Signers(CoreEntries(q.signatures))
  {
    CheckpointVerdictMeaning(b.c, b.m, q);
    WitnessSetSize(b.c, b.m);
    QuorumSigners(b.c, b.m, q.checkpointHash, CoreEntries(q.signatures));
    assert key in Elements(b.m.witnesses) && key' in Elements(b.m.witnesses);
    QuorumMeetsPair(b.m, Signers(CoreEntries(q.signatures)), key, key');
  }

  /** The honest Witness held a receipt for the record at a time when it had not sealed yet. */
  ghost predicate HeldBeforeSealing(b: Board, honest: set<string>, actions: seq<Action>, n: nat, key: string, id: string)
    requires Setting(b, honest)
  {
    && n <= |actions| && key in honest
    && id in ReceiptedIds(Run(b, honest, actions[..n])[key])
    && HeightOf(b) !in Run(b, honest, actions[..n])[key].checkpoints
  }

  /** No suppression: if two honest Witnesses stored a receipt for a record before they sealed, the
      record is in every id set whose root a quorum checkpoint can carry, whenever it is presented. */
  lemma NoSuppression(b: Board, honest: set<string>, actions: seq<Action>, m: nat, q: QuorumCheckpoint,
                      n: nat, key: string, n': nat, key': string, id: string, ids: set<string>)
    requires Setting(b, honest) && m <= |actions| && PresentedCheckpoint(b, Run(b, honest, actions[..m]), q)
    requires key != key'
    requires HeldBeforeSealing(b, honest, actions, n, key, id) && HeldBeforeSealing(b, honest, actions, n', key', id)
    requires MerkleRoot(b.c, ids) == q.checkpoint.recordSetRoot
    ensures id in ids
  {
    PresentedCheckpointPersists(b, honest, actions, m, q);
    assert key in Elements(b.m.witnesses) && key' in Elements(b.m.witnesses);
    SignedByEither(b, q, key, key');
    if key in Signers(CoreEntries(q.signatures)) {
      RunCovers(b, honest, actions, n, key, id);
      SignedCoversRecord(b, honest, actions, q, key, id);
    } else {
      RunCovers(b, honest, actions, n', key', id);
      SignedCoversRecord(b, honest, actions, q, key', id);
    }
    var covered :| id in covered && q.checkpoint == BodyOver(b, covered);
    MerkleRootIsInjective(b.c, covered, ids);
  }

  /** So the verifier of every accepted bundle reports the record as accepted. */
  lemma ReceiptedIsReported(b: Board, honest: set<string>, actions: seq<Action>,
                            m: nat, records: seq<Json>, receipts: seq<Receipt>, q: QuorumCheckpoint, minimum: int,
                            n: nat, key: string, n': nat, key': string, id: string)
    requires Setting(b, honest) && m <= |actions|
    requires PresentedBundle(b, Run(b, honest, actions[..m]), records, receipts, q, minimum)
    requires key != key'
    requires HeldBeforeSealing(b, honest, actions, n, key, id) && HeldBeforeSealing(b, honest, actions, n', key', id)
    ensures id in BundleVerdict(b, records, receipts, q, minimum).value.acceptedRecordIds
  {
    PresentedBundleFacts(b, Run(b, honest, actions[..m]), records, receipts, q, minimum);
    NoSuppression(b, honest, actions, m, q, n, key, n', key', id, ReceiptIds(receipts));
    assert id in Elements(Sorted(ReceiptIds(receipts)));
  }
}
