/** Ballots from submission to the accepted bundle. */
module BoardLiveness {
  import opened Outcomes
  import opened Ordering
  import opened CanonicalJson
  import opened Merkle
  import opened Statements
  import opened Quorums
  import opened Receipts
  import opened Checkpoints
  import opened Ballots
  import opened WitnessTables
  import opened WitnessInvariant
  import opened Bundles
  import opened BoardRuns
  import opened BoardProgress
  import opened BoardRequests

  /** A ballot as it is sent, and when it arrives. */
  datatype Cast = Cast(raw: string, now: int)

  predicate AdmittedCast(b: Board, x: Cast)
    requires SoundBoard(b)
  {
    Admitted(b, x.raw, x.now).Success?
  }

  function RecordOf(b: Board, x: Cast): Json
    requires SoundBoard(b) && AdmittedCast(b, x)
  {
    Admitted(b, x.raw, x.now).value
  }

  lemma CastIsGood(b: Board, x: Cast)
    requires SoundBoard(b) && AdmittedCast(b, x)
    ensures GoodBallot(b.c, b.m, RecordOf(b, x)) && CheckedRecord(b, RecordOf(b, x))
    ensures ParseCanonical(x.raw) == Success(RecordOf(b, x))
  {
    AdmittedIsGood(b, x.raw, x.now);
  }

  /** What the Witnesses will say about the ballot. */
  function SaidOf(b: Board, x: Cast): (s: Statement)
    requires SoundBoard(b) && AdmittedCast(b, x)
    ensures StatementError(b.c, b.m, s) == None && ValidStatement(s)
  {
    CastIsGood(b, x);
    StatementOfIsChecked(b.c, b.m, RecordOf(b, x));
    StatementOf(b.c, b.m, RecordOf(b, x))
  }

  predicate AllAdmitted(b: Board, casts: seq<Cast>)
    requires SoundBoard(b)
  {
    forall i | 0 <= i < |casts| :: AdmittedCast(b, casts[i])
  }

  function SaidOfAll(b: Board, casts: seq<Cast>): (ss: seq<Statement>)
    requires SoundBoard(b) && AllAdmitted(b, casts)
    ensures |ss| == |casts|
  {
    seq(|casts|, i requires 0 <= i < |casts| => SaidOf(b, casts[i]))
  }

  predicate DifferentNullifiers(ss: seq<Statement>)
  {
    forall i, j | 0 <= i < j < |ss| :: ss[i].nullifier != ss[j].nullifier
  }

  function IdsOf(ss: seq<Statement>): set<string>
  {
    set s | s in ss :: s.recordId
  }

  lemma IdsOfStep(front: seq<Statement>, last: Statement)
    ensures IdsOf(front + [last]) == IdsOf(front) + {last.recordId}
  {
    assert forall s :: s in front + [last] <==> s in front || s == last;
  }

  // -------------------------------------------------------- acceptance stage

  ghost predicate AcceptedAt(b: Board, key: string, t: Tables, s: Statement)
    requires SoundBoard(b)
  {
    && ValidString(key) && ValidStatement(s)
    && s.recordId in t.acceptances && t.acceptances[s.recordId] == HonestAcceptance(b.c, key, s)
  }

  /** The store accepted exactly these statements, and nothing else has happened. */
  ghost predicate OnlyAccepted(b: Board, key: string, t: Tables, ss: seq<Statement>)
    requires SoundBoard(b)
  {
    && (forall i | 0 <= i < |ss| :: AcceptedAt(b, key, t, ss[i]))
    && t.acceptances.Keys == IdsOf(ss) && t.receipts == map[] && t.checkpoints == map[]
  }

  lemma StoredNullifier(b: Board, key: string, t: Tables, id: string)
    requires SoundBoard(b) && ValidString(key) && StoreInv(b, key, t) && id in t.records
    ensures id in t.acceptances && t.records[id].nullifier == t.acceptances[id].statement.nullifier
  {
    assert GoodAt(b, key, t, AtRecord(id));
    var record :| IsStoredAs(b, key, t, id, record);
  }

  lemma AcceptedNullifier(b: Board, key: string, t: Tables, ss: seq<Statement>, id: string)
    requires SoundBoard(b) && OnlyAccepted(b, key, t, ss) && id in t.acceptances
    ensures exists i :: 0 <= i < |ss| && t.acceptances[id].statement == ss[i]
  {
    var s :| s in ss && s.recordId == id;
    var i :| 0 <= i < |ss| && ss[i] == s;
    assert AcceptedAt(b, key, t, ss[i]);
  }

  /** A ballot with a new nullifier meets neither a lock nor an acceptance. */
  lemma NewNullifierIsFree(b: Board, key: string, t: Tables, ss: seq<Statement>, record: Json)
    requires SoundBoard(b) && ValidString(key) && StoreInv(b, key, t) && OnlyAccepted(b, key, t, ss)
    requires GoodBallot(b.c, b.m, record)
    requires forall i | 0 <= i < |ss| :: ss[i].nullifier != StatementOf(b.c, b.m, record).nullifier
    ensures var s := StatementOf(b.c, b.m, record);
            (b.m.decisionId, s.nullifier) !in t.locks && s.recordId !in t.acceptances
  {
    var s := StatementOf(b.c, b.m, record);
    if s.recordId in t.acceptances {
      AcceptedAsItself(b, key, t, record);
      AcceptedNullifier(b, key, t, ss, s.recordId);
    }
    var lock := (b.m.decisionId, s.nullifier);
    if lock in t.locks {
      LocksMatchRecords(b, key, t);
      StoredNullifier(b, key, t, t.locks[lock]);
      AcceptedNullifier(b, key, t, ss, t.locks[lock]);
    }
  }

  lemma FreeIsRecorded(t: Tables, n: NewRecord)
    requires n.lock !in t.locks && n.id !in t.acceptances
    ensures Transact(t, n) == (Success(n.acceptance), WithRecord(t, n))
  {
  }

  lemma RowsOf(b: Board, key: string, raw: string, record: Json)
    requires SoundBoard(b) && ValidString(key) && GoodBallot(b.c, b.m, record)
    ensures var s, n := StatementOf(b.c, b.m, record), RowsFor(b, key, raw, record);
            && ValidStatement(s) && n.id == s.recordId && n.lock == (b.m.decisionId, s.nullifier)
            && n.acceptance == HonestAcceptance(b.c, key, s)
  {
    StatementOfIsChecked(b.c, b.m, record);
  }

  lemma OneMoreAccepted(b: Board, key: string, t: Tables, ss: seq<Statement>, s: Statement, n: NewRecord)
    requires SoundBoard(b) && ValidString(key) && ValidStatement(s) && OnlyAccepted(b, key, t, ss)
    requires n.id == s.recordId && s.recordId !in t.acceptances && n.acceptance == HonestAcceptance(b.c, key, s)
    ensures OnlyAccepted(b, key, WithRecord(t, n), ss + [s])
  {
    var t' := WithRecord(t, n);
    IdsOfStep(ss, s);
    forall i | 0 <= i <= |ss| ensures AcceptedAt(b, key, t', (ss + [s])[i]) {
      if i < |ss| {
        assert AcceptedAt(b, key, t, ss[i]);
      }
    }
  }

  lemma AcceptStage(b: Board, key: string, t: Tables, ss: seq<Statement>, x: Cast)
    requires SoundBoard(b) && ValidString(key) && StoreInv(b, key, t) && OnlyAccepted(b, key, t, ss)
    requires AdmittedCast(b, x)
    requires forall i | 0 <= i < |ss| :: ss[i].nullifier != SaidOf(b, x).nullifier
    ensures OnlyAccepted(b, key, SubmitStep(b, key, t, x.raw, x.now).1, ss + [SaidOf(b, x)])
  {
    CastIsGood(b, x);
    var record := RecordOf(b, x);
    var n := RowsFor(b, key, x.raw, record);
    RowsOf(b, key, x.raw, record);
    NewNullifierIsFree(b, key, t, ss, record);
    FreeIsRecorded(t, n);
    OneMoreAccepted(b, key, t, ss, SaidOf(b, x), n);
  }

  // ----------------------------------------------------------- receipt stage

  /** The store accepted all the statements and holds receipts for the first `n` of them. */
  ghost predicate Holding(t: Tables, ss: seq<Statement>, n: nat)
    requires n <= |ss|
  {
    && ReceiptedIds(t) == IdsOf(ss[..n]) && t.checkpoints == map[]
    && forall i | 0 <= i < |ss| :: StatedAt(t, ss[i])
  }

  ghost predicate StatedAt(t: Tables, s: Statement)
  {
    s.recordId in t.acceptances && t.acceptances[s.recordId].statement == s
  }

  lemma AcceptedIsHolding(b: Board, key: string, t: Tables, ss: seq<Statement>)
    requires SoundBoard(b) && OnlyAccepted(b, key, t, ss)
    ensures Holding(t, ss, 0)
  {
    assert ss[..0] == [];
    forall i | 0 <= i < |ss| ensures StatedAt(t, ss[i]) {
      assert AcceptedAt(b, key, t, ss[i]);
    }
  }

  lemma StoreStage(b: Board, key: string, t: Tables, ss: seq<Statement>, n: nat, r: Receipt)
    requires SoundBoard(b) && ValidString(key) && StoreInv(b, key, t)
    requires n < |ss| && Holding(t, ss, n) && GoodReceipt(b.c, b.m, r) && r.statement == ss[n]
    ensures Holding(StoreReceiptStep(b, key, t, r, None, 0).1, ss, n + 1)
  {
    assert StatedAt(t, ss[n]);
    InsertIsStore(b, key, t, r);
    InsertedIsReceipted(b, key, t, r);
    OneMoreHeld(t, ss, n, r);
  }

  lemma OneMoreHeld(t: Tables, ss: seq<Statement>, n: nat, r: Receipt)
    requires n < |ss| && Holding(t, ss, n) && r.statement == ss[n]
    requires r.statement.recordId in ReceiptedIds(InsertReceipt(t, r))
    ensures Holding(InsertReceipt(t, r), ss, n + 1)
  {
    var t' := InsertReceipt(t, r);
    assert ss[..n + 1] == ss[..n] + [ss[n]];
    IdsOfStep(ss[..n], ss[n]);
    InsertExtends(t, r);
    ReceiptedPersists(t, t');
    assert ReceiptedIds(t') <= ReceiptedIds(t) + {r.statement.recordId};
    forall i | 0 <= i < |ss| ensures StatedAt(t', ss[i]) {
      assert StatedAt(t, ss[i]);
    }
  }

  // -------------------------------------------------------------- whole runs

  /** Every ballot is sent to every Witness of the panel. */
  function Accepting(keys: seq<string>, casts: seq<Cast>): seq<Action>
  {
    if casts == [] then []
    else
      var last := casts[|casts| - 1];
      Accepting(keys, casts[..|casts| - 1]) + Ask(keys, ToAccept(last.raw, last.now))
  }

  /** Every receipt is sent to every Witness of the panel. */
  function Storing(keys: seq<string>, rs: seq<Receipt>): seq<Action>
  {
    if rs == [] then [] else Storing(keys, rs[..|rs| - 1]) + Ask(keys, ToStore(rs[|rs| - 1]))
  }

  lemma DeliveredAccept(b: Board, w: World, k: string, ss: seq<Statement>, x: Cast)
    requires SoundBoard(b) && (forall y | y in w :: ValidString(y)) && k in w && StoreInv(b, k, w[k])
    requires OnlyAccepted(b, k, w[k], ss) && AdmittedCast(b, x)
    requires forall i | 0 <= i < |ss| :: ss[i].nullifier != SaidOf(b, x).nullifier
    ensures OnlyAccepted(b, k, Deliver(b, w, ActionFor(k, ToAccept(x.raw, x.now)))[k], ss + [SaidOf(b, x)])
  {
    AcceptStage(b, k, w[k], ss, x);
    DeliverHere(b, w, Submit(k, x.raw, x.now));
  }

  lemma DeliveredStore(b: Board, w: World, k: string, ss: seq<Statement>, n: nat, r: Receipt)
    requires SoundBoard(b) && (forall y | y in w :: ValidString(y)) && k in w && StoreInv(b, k, w[k])
    requires n < |ss| && Holding(w[k], ss, n) && GoodReceipt(b.c, b.m, r) && r.statement == ss[n]
    ensures Holding(Deliver(b, w, ActionFor(k, ToStore(r)))[k], ss, n + 1)
  {
    StoreStage(b, k, w[k], ss, n, r);
    DeliverHere(b, w, StoreReceipt(k, r, None, 0));
  }

  /** The store has sealed nothing and has receipts for exactly these records. */
  ghost predicate ReadyToSeal(t: Tables, ids: set<string>)
  {
    ReceiptedIds(t) == ids && t.checkpoints == map[] && |ids| <= MAX_SAFE_INTEGER
  }

  lemma DeliveredSeal(b: Board, w: World, k: string, ids: set<string>)
    requires SoundBoard(b) && (forall y | y in w :: ValidString(y)) && k in w && StoreInv(b, k, w[k])
    requires ReadyToSeal(w[k], ids)
    ensures HasSealed(b, Deliver(b, w, ActionFor(k, SealRequest(b))), k, ids)
  {
    FirstSeal(b, k, w[k]);
    DeliverHere(b, w, ActionFor(k, SealRequest(b)));
  }

  lemma SameAccepted(b: Board, key: string, t: Tables, t': Tables, ss: seq<Statement>)
    requires SoundBoard(b) && OnlyAccepted(b, key, t, ss) && Same(t', t)
    ensures OnlyAccepted(b, key, t', ss)
  {
  }

  lemma EmptyIsAccepted(b: Board, key: string)
    requires SoundBoard(b)
    ensures OnlyAccepted(b, key, EMPTY_TABLES, [])
  {
    assert IdsOf([]) == {};
  }

  lemma SaidOfAllStep(b: Board, casts: seq<Cast>)
    requires SoundBoard(b) && AllAdmitted(b, casts) && casts != []
    ensures var front, last := casts[..|casts| - 1], casts[|casts| - 1];
            && AllAdmitted(b, front) && AdmittedCast(b, last)
            && SaidOfAll(b, casts) == SaidOfAll(b, front) + [SaidOf(b, last)]
  {
    var front, last := casts[..|casts| - 1], casts[|casts| - 1];
    AdmittedStep(b, casts);
    forall i | 0 <= i < |front| ensures Same(SaidOfAll(b, casts)[i], SaidOfAll(b, front)[i]) {
      SaidEarlier(b, casts, i);
    }
    SaidOfAllAt(b, casts, |front|);
    OneLonger(SaidOfAll(b, casts), SaidOfAll(b, front), SaidOf(b, last));
  }

  lemma OneLonger<T>(all: seq<T>, front: seq<T>, last: T)
    requires |all| == |front| + 1 && all[|front|] == last && forall i | 0 <= i < |front| :: Same(all[i], front[i])
    ensures all == front + [last]
  {
    forall i | 0 <= i < |front| ensures all[i] == front[i] {
      assert Same(all[i], front[i]);
    }
  }

  lemma AdmittedStep(b: Board, casts: seq<Cast>)
    requires SoundBoard(b) && AllAdmitted(b, casts) && casts != []
    ensures AllAdmitted(b, casts[..|casts| - 1]) && AdmittedCast(b, casts[|casts| - 1])
  {
  }

  lemma SaidEarlier(b: Board, casts: seq<Cast>, i: nat)
    requires SoundBoard(b) && i < |casts| - 1 && AllAdmitted(b, casts) && AllAdmitted(b, casts[..|casts| - 1])
    ensures Same(SaidOfAll(b, casts)[i], SaidOfAll(b, casts[..|casts| - 1])[i])
  {
    SaidOfAllAt(b, casts, i);
    SaidOfAllAt(b, casts[..|casts| - 1], i);
  }

  lemma SaidOfAllAt(b: Board, casts: seq<Cast>, i: nat)
    requires SoundBoard(b) && AllAdmitted(b, casts) && i < |casts|
    ensures AdmittedCast(b, casts[i]) && SaidOfAll(b, casts)[i] == SaidOf(b, casts[i])
  {
  }

  lemma DifferentStep(front: seq<Statement>, last: Statement)
    requires DifferentNullifiers(front + [last])
    ensures DifferentNullifiers(front) && forall i | 0 <= i < |front| :: front[i].nullifier != last.nullifier
  {
    var ss := front + [last];
    assert ss[|front|] == last && forall i | 0 <= i < |front| :: ss[i] == front[i];
  }

  /** First round: every Witness of the panel has accepted every ballot. */
  lemma {:induction false} PanelAccepts(b: Board, honest: set<string>, keys: seq<string>, casts: seq<Cast>, i: nat)
    requires Setting(b, honest) && Panel(b, honest, keys) && i < |keys|
    requires AllAdmitted(b, casts) && DifferentNullifiers(SaidOfAll(b, casts))
    ensures OnlyAccepted(b, keys[i], Run(b, honest, Accepting(keys, casts))[keys[i]], SaidOfAll(b, casts))
  {
    if casts == [] {
      StartIsEmpty(b, honest, keys[i]);
      EmptyIsAccepted(b, keys[i]);
      SameAccepted(b, keys[i], EMPTY_TABLES, Run(b, honest, [])[keys[i]], []);
      assert SaidOfAll(b, casts) == [];
    } else {
      var front, last := casts[..|casts| - 1], casts[|casts| - 1];
      SaidOfAllStep(b, casts);
      DifferentStep(SaidOfAll(b, front), SaidOf(b, last));
      PanelAccepts(b, honest, keys, front, i);
      OneMoreRound(b, honest, keys, Accepting(keys, front), SaidOfAll(b, front), last, i);
    }
  }

  lemma OneMoreRound(b: Board, honest: set<string>, keys: seq<string>, actions: seq<Action>, ss: seq<Statement>, x: Cast, i: nat)
    requires Setting(b, honest) && Panel(b, honest, keys) && i < |keys| && AdmittedCast(b, x)
    requires OnlyAccepted(b, keys[i], Run(b, honest, actions)[keys[i]], ss)
    requires forall j | 0 <= j < |ss| :: ss[j].nullifier != SaidOf(b, x).nullifier
    ensures OnlyAccepted(b, keys[i], Run(b, honest, actions + Ask(keys, ToAccept(x.raw, x.now)))[keys[i]], ss + [SaidOf(b, x)])
  {
    var w, w' := AskedStore(b, honest, actions, keys, ToAccept(x.raw, x.now), i);
    RunKeepsInvariant(b, honest, actions, keys[i]);
    DeliveredAccept(b, w, keys[i], ss, x);
    SameAccepted(b, keys[i], w'[keys[i]], Run(b, honest, actions + Ask(keys, ToAccept(x.raw, x.now)))[keys[i]], ss + [SaidOf(b, x)]);
  }

  /** Good receipts for the statements, in order. */
  ghost predicate ReceiptsFor(b: Board, ss: seq<Statement>, rs: seq<Receipt>)
    requires SoundBoard(b)
  {
    |rs| == |ss| && forall i | 0 <= i < |rs| :: ReceiptFor(b, ss[i], rs[i])
  }

  ghost predicate ReceiptFor(b: Board, s: Statement, r: Receipt)
    requires SoundBoard(b)
  {
    GoodReceipt(b.c, b.m, r) && r.statement == s
  }

  lemma SameHolding(t: Tables, t': Tables, ss: seq<Statement>, n: nat)
    requires n <= |ss| && Holding(t, ss, n) && Same(t', t)
    ensures Holding(t', ss, n)
  {
  }

  lemma OneMoreStored(b: Board, honest: set<string>, keys: seq<string>, actions: seq<Action>, ss: seq<Statement>, n: nat, r: Receipt, i: nat)
    requires Setting(b, honest) && Panel(b, honest, keys) && i < |keys|
    requires n < |ss| && Holding(Run(b, honest, actions)[keys[i]], ss, n) && ReceiptFor(b, ss[n], r)
    ensures Holding(Run(b, honest, actions + Ask(keys, ToStore(r)))[keys[i]], ss, n + 1)
  {
    var w, w' := AskedStore(b, honest, actions, keys, ToStore(r), i);
    RunKeepsInvariant(b, honest, actions, keys[i]);
    DeliveredStore(b, w, keys[i], ss, n, r);
    SameHolding(w'[keys[i]], Run(b, honest, actions + Ask(keys, ToStore(r)))[keys[i]], ss, n + 1);
  }

  lemma StoringStep(actions: seq<Action>, keys: seq<string>, rs: seq<Receipt>, n: nat)
    requires n < |rs|
    ensures actions + Storing(keys, rs[..n + 1]) == (actions + Storing(keys, rs[..n])) + Ask(keys, ToStore(rs[n]))
  {
    assert rs[..n + 1][..n] == rs[..n];
  }

  lemma NextStored(b: Board, honest: set<string>, keys: seq<string>, actions: seq<Action>,
                   ss: seq<Statement>, rs: seq<Receipt>, n: nat, i: nat)
    requires Setting(b, honest) && Panel(b, honest, keys) && i < |keys| && ReceiptsFor(b, ss, rs) && n < |rs|
    requires Holding(Run(b, honest, actions + Storing(keys, rs[..n]))[keys[i]], ss, n)
    ensures Holding(Run(b, honest, actions + Storing(keys, rs[..n + 1]))[keys[i]], ss, n + 1)
  {
    StoringStep(actions, keys, rs, n);
    assert ReceiptFor(b, ss[n], rs[n]);
    OneMoreStored(b, honest, keys, actions + Storing(keys, rs[..n]), ss, n, rs[n], i);
  }

  /** Second round: every Witness of the panel holds the receipts. */
  lemma PanelStores(b: Board, honest: set<string>, keys: seq<string>, actions: seq<Action>,
                    ss: seq<Statement>, rs: seq<Receipt>, i: nat)
    requires Setting(b, honest) && Panel(b, honest, keys) && i < |keys| && ReceiptsFor(b, ss, rs)
    requires Holding(Run(b, honest, actions)[keys[i]], ss, 0)
    ensures Holding(Run(b, honest, actions + Storing(keys, rs[..|rs|]))[keys[i]], ss, |rs|)
  {
    assert actions + Storing(keys, rs[..0]) == actions;
    for n := 0 to |rs|
      invariant Holding(Run(b, honest, actions + Storing(keys, rs[..n]))[keys[i]], ss, n)
    {
      NextStored(b, honest, keys, actions, ss, rs, n, i);
    }
  }

  lemma OneSeals(b: Board, honest: set<string>, actions: seq<Action>, keys: seq<string>, i: nat, ids: set<string>)
    requires Setting(b, honest) && Panel(b, honest, keys) && i < |keys|
    requires ReadyToSeal(Run(b, honest, actions)[keys[i]], ids)
    ensures HasSealed(b, Run(b, honest, actions + Ask(keys, SealRequest(b))), keys[i], ids)
  {
    var w, w' := AskedStore(b, honest, actions, keys, SealRequest(b), i);
    RunKeepsInvariant(b, honest, actions, keys[i]);
    DeliveredSeal(b, w, keys[i], ids);
    SameSealed(b, w', Run(b, honest, actions + Ask(keys, SealRequest(b))), keys[i], ids);
  }

  // ------------------------------------------------------------------ bundle

  lemma BodyOverRoots(b: Board, ids: set<string>)
    requires SoundBoard(b)
    ensures BodyOver(b, ids).recordSetRoot == MerkleRoot(b.c, ids) == BodyOver(b, ids).acceptedBallotRoot
    ensures BodyOver(b, ids).recordCount == |ids|
  {
  }

  lemma DifferentIds(b: Board, casts: seq<Cast>)
    requires SoundBoard(b) && AllAdmitted(b, casts) && DifferentNullifiers(SaidOfAll(b, casts))
    ensures |IdsOf(SaidOfAll(b, casts))| == |casts|
  {
    var ss := SaidOfAll(b, casts);
    var ids := seq(|ss|, i requires 0 <= i < |ss| => ss[i].recordId);
    forall i, j | 0 <= i < j < |ids| ensures ids[i] != ids[j] {
      assert ss[i].nullifier != ss[j].nullifier;
      SameRecordSameStatement(b, casts[i], casts[j]);
    }
    DistinctCount(ids);
    forall id ensures id in IdsOf(ss) <==> id in Elements(ids) {
      if id in IdsOf(ss) {
        var s :| s in ss && s.recordId == id;
        var i :| 0 <= i < |ss| && ss[i] == s;
        assert ids[i] == id;
      }
    }
    assert IdsOf(ss) == Elements(ids);
  }

  lemma SameRecordSameStatement(b: Board, x: Cast, y: Cast)
    requires SoundBoard(b) && AdmittedCast(b, x) && AdmittedCast(b, y)
    ensures SaidOf(b, x).recordId == SaidOf(b, y).recordId ==> SaidOf(b, x) == SaidOf(b, y)
  {
    CastIsGood(b, x);
    CastIsGood(b, y);
    if SaidOf(b, x).recordId == SaidOf(b, y).recordId {
      RecordIdIsInjective(b.c, RecordOf(b, x), RecordOf(b, y));
    }
  }

  function RecordsOf(b: Board, casts: seq<Cast>): (records: seq<Json>)
    requires SoundBoard(b) && AllAdmitted(b, casts)
    ensures |records| == |casts|
  {
    seq(|casts|, i requires 0 <= i < |casts| => RecordOf(b, casts[i]))
  }

  lemma BallotNullifier(b: Board, x: Cast)
    requires SoundBoard(b) && AdmittedCast(b, x)
    ensures CheckedRecord(b, RecordOf(b, x)) && BallotOf(b, RecordOf(b, x)).nullifier == SaidOf(b, x).nullifier
  {
    CastIsGood(b, x);
  }

  lemma RecordsAreGood(b: Board, casts: seq<Cast>)
    requires SoundBoard(b) && AllAdmitted(b, casts) && DifferentNullifiers(SaidOfAll(b, casts))
    ensures GoodRecords(b, RecordsOf(b, casts))
  {
    var records, ss := RecordsOf(b, casts), SaidOfAll(b, casts);
    forall i | 0 <= i < |records| ensures CheckedRecord(b, records[i]) {
      CastIsGood(b, casts[i]);
    }
    var xs := BallotsOf(b, records);
    forall i | 0 <= i < |xs| ensures xs[i].nullifier == ss[i].nullifier {
      BallotNullifier(b, casts[i]);
    }
    SameNullifierSameBallot(xs, ss);
  }

  lemma SameNullifierSameBallot(xs: seq<Ballot>, ss: seq<Statement>)
    requires |xs| == |ss| && DifferentNullifiers(ss) && forall i | 0 <= i < |xs| :: xs[i].nullifier == ss[i].nullifier
    ensures NullifiersAreUnique(xs)
  {
    forall i, j | 0 <= i < |xs| && 0 <= j < |xs| && xs[i].nullifier == xs[j].nullifier ensures xs[i].id == xs[j].id {
      assert !(i < j) && !(j < i);
    }
  }

  lemma ReceiptIsListed(b: Board, casts: seq<Cast>, rs: seq<Receipt>, i: nat)
    requires SoundBoard(b) && AllAdmitted(b, casts) && i < |casts| && ReceiptsFor(b, SaidOfAll(b, casts), rs)
    ensures ReceiptListed(b, RecordsOf(b, casts), rs[i])
  {
    CastIsGood(b, casts[i]);
    assert IsAbout(b, RecordsOf(b, casts)[i], rs[i]);
  }

  lemma ReceiptIdsAre(b: Board, ss: seq<Statement>, rs: seq<Receipt>)
    requires SoundBoard(b) && ReceiptsFor(b, ss, rs)
    ensures ReceiptIds(rs) == IdsOf(ss)
  {
    forall i | 0 <= i < |rs| ensures rs[i].statement == ss[i] {
      assert ReceiptFor(b, ss[i], rs[i]);
    }
    SameIds(ss, rs);
  }

  lemma SameIds(ss: seq<Statement>, rs: seq<Receipt>)
    requires |rs| == |ss| && forall i | 0 <= i < |rs| :: rs[i].statement == ss[i]
    ensures ReceiptIds(rs) == IdsOf(ss)
  {
    forall id ensures id in ReceiptIds(rs) <==> id in IdsOf(ss) {
      if id in ReceiptIds(rs) {
        var r :| r in rs && r.statement.recordId == id;
        var i :| 0 <= i < |rs| && rs[i] == r;
        assert ss[i] in ss;
      }
      if id in IdsOf(ss) {
        var s :| s in ss && s.recordId == id;
        var i :| 0 <= i < |ss| && ss[i] == s;
        assert rs[i] in rs;
      }
    }
  }

  /** The bundle over the ballots, their receipts and a checkpoint over just these records. */
  lemma BundleIsAccepted(b: Board, casts: seq<Cast>, rs: seq<Receipt>, q: QuorumCheckpoint)
    requires SoundBoard(b) && AllAdmitted(b, casts) && DifferentNullifiers(SaidOfAll(b, casts))
    requires ReceiptsFor(b, SaidOfAll(b, casts), rs)
    requires GoodCheckpoint(b.c, b.m, q) && q.checkpoint == BodyOver(b, IdsOf(SaidOfAll(b, casts)))
    ensures var v := BundleVerdict(b, RecordsOf(b, casts), rs, q, b.m.minimumAnonymitySet);
            && v.Success? && v.value.acceptedRecordIds == Sorted(IdsOf(SaidOfAll(b, casts)))
            && v.value.acceptedCount == |casts|
  {
    var ids := IdsOf(SaidOfAll(b, casts));
    RecordsAreGood(b, casts);
    forall i | 0 <= i < |rs| ensures ReceiptListed(b, RecordsOf(b, casts), rs[i]) {
      ReceiptIsListed(b, casts, rs, i);
    }
    ReceiptIdsAre(b, SaidOfAll(b, casts), rs);
    BodyOverRoots(b, ids);
    DifferentIds(b, casts);
    BundleVerdictMeaning(b, RecordsOf(b, casts), rs, q, b.m.minimumAnonymitySet);
  }

  // ------------------------------------------------------------- main result

  /** The Witness answered the submission with this acceptance, and still holds it. */
  ghost predicate StoredAcceptance(w: World, key: string, r: Receipt, a: Acceptance)
  {
    key in w && r.statement.recordId in w[key].acceptances && w[key].acceptances[r.statement.recordId] == a
  }

  /** The receipt is what the stored acceptances of the panel combine to. */
  ghost predicate CombinedFromPanel(b: Board, w: World, keys: seq<string>, r: Receipt)
    requires SoundBoard(b)
  {
    exists items: seq<Acceptance> ::
      && |items| == |keys| && CombinedReceipt(b.c, b.m, items) == Success(r)
      && forall i | 0 <= i < |keys| :: StoredAcceptance(w, keys[i], r, items[i])
  }

  ghost predicate AllFromPanel(b: Board, w: World, keys: seq<string>, rs: seq<Receipt>)
    requires SoundBoard(b)
  {
    forall j | 0 <= j < |rs| :: CombinedFromPanel(b, w, keys, rs[j])
  }

  ghost predicate AllChecked(b: Board, ss: seq<Statement>)
    requires SoundBoard(b)
  {
    forall j | 0 <= j < |ss| :: StatementError(b.c, b.m, ss[j]) == None && ValidStatement(ss[j])
  }

  ghost predicate PanelAccepted(b: Board, w: World, keys: seq<string>, ss: seq<Statement>)
    requires SoundBoard(b)
  {
    forall i | 0 <= i < |keys| :: keys[i] in w && OnlyAccepted(b, keys[i], w[keys[i]], ss)
  }

  lemma ReceiptFromPanel(b: Board, honest: set<string>, w: World, keys: seq<string>, ss: seq<Statement>, j: nat) returns (r: Receipt)
    requires Setting(b, honest) && Panel(b, honest, keys) && w.Keys == honest && j < |ss|
    requires AllChecked(b, ss) && PanelAccepted(b, w, keys, ss)
    ensures ReceiptFor(b, ss[j], r) && CombinedFromPanel(b, w, keys, r)
  {
    var items;
    items, r := PanelReceipt(b, honest, keys, ss[j]);
    forall i | 0 <= i < |keys| ensures StoredAcceptance(w, keys[i], r, items[i]) {
      assert AcceptedAt(b, keys[i], w[keys[i]], ss[j]);
    }
  }

  lemma ReceiptsFromPanel(b: Board, honest: set<string>, w: World, keys: seq<string>, ss: seq<Statement>) returns (rs: seq<Receipt>)
    requires Setting(b, honest) && Panel(b, honest, keys) && w.Keys == honest
    requires AllChecked(b, ss) && PanelAccepted(b, w, keys, ss)
    ensures ReceiptsFor(b, ss[..|ss|], rs) && AllFromPanel(b, w, keys, rs)
  {
    rs := [];
    for n := 0 to |ss|
      invariant ReceiptsFor(b, ss[..n], rs) && AllFromPanel(b, w, keys, rs)
    {
      rs := NextReceipt(b, honest, w, keys, ss, n, rs);
    }
  }

  lemma NextReceipt(b: Board, honest: set<string>, w: World, keys: seq<string>, ss: seq<Statement>, n: nat, front: seq<Receipt>)
    returns (rs: seq<Receipt>)
    requires Setting(b, honest) && Panel(b, honest, keys) && w.Keys == honest && n < |ss|
    requires AllChecked(b, ss) && PanelAccepted(b, w, keys, ss)
    requires ReceiptsFor(b, ss[..n], front) && AllFromPanel(b, w, keys, front)
    ensures ReceiptsFor(b, ss[..n + 1], rs) && AllFromPanel(b, w, keys, rs)
  {
    var r := ReceiptFromPanel(b, honest, w, keys, ss, n);
    rs := front + [r];
    OneMoreReceipt(b, ss, n, front, r);
    OneMoreFromPanel(b, w, keys, front, r);
  }

  lemma OneMoreReceipt(b: Board, ss: seq<Statement>, n: nat, front: seq<Receipt>, r: Receipt)
    requires SoundBoard(b) && n < |ss| && ReceiptsFor(b, ss[..n], front) && ReceiptFor(b, ss[n], r)
    ensures ReceiptsFor(b, ss[..n + 1], front + [r])
  {
    forall i | 0 <= i <= n ensures ReceiptFor(b, ss[..n + 1][i], (front + [r])[i]) {
      if i < n {
        assert ReceiptFor(b, ss[..n][i], front[i]);
      }
    }
  }

  lemma OneMoreFromPanel(b: Board, w: World, keys: seq<string>, front: seq<Receipt>, r: Receipt)
    requires SoundBoard(b) && AllFromPanel(b, w, keys, front) && CombinedFromPanel(b, w, keys, r)
    ensures AllFromPanel(b, w, keys, front + [r])
  {
  }

  /** The three rounds that ballots go through. */
  function Rounds(b: Board, keys: seq<string>, casts: seq<Cast>, rs: seq<Receipt>): seq<Action>
    requires SoundBoard(b)
  {
    Accepting(keys, casts) + Storing(keys, rs) + Ask(keys, SealRequest(b))
  }

  lemma AllReceiptsSeal(b: Board, honest: set<string>, keys: seq<string>, actions: seq<Action>,
                        ss: seq<Statement>, rs: seq<Receipt>, i: nat)
    requires Setting(b, honest) && Panel(b, honest, keys) && i < |keys| && ReceiptsFor(b, ss, rs)
    requires OnlyAccepted(b, keys[i], Run(b, honest, actions)[keys[i]], ss) && |IdsOf(ss)| <= MAX_SAFE_INTEGER
    ensures HasSealed(b, Run(b, honest, actions + Storing(keys, rs) + Ask(keys, SealRequest(b))), keys[i], IdsOf(ss))
  {
    assert rs[..|rs|] == rs && ss[..|ss|] == ss;
    AcceptedIsHolding(b, keys[i], Run(b, honest, actions)[keys[i]], ss);
    PanelStores(b, honest, keys, actions, ss, rs, i);
    HoldingAllIsReady(Run(b, honest, actions + Storing(keys, rs))[keys[i]], ss);
    OneSeals(b, honest, actions + Storing(keys, rs), keys, i, IdsOf(ss));
  }

  lemma HoldingAllIsReady(t: Tables, ss: seq<Statement>)
    requires Holding(t, ss, |ss|) && |IdsOf(ss)| <= MAX_SAFE_INTEGER
    ensures ReadyToSeal(t, IdsOf(ss))
  {
    assert ss[..|ss|] == ss;
  }

  /** Third round: the answers of the sealed panel combine. */
  lemma PanelSeals(b: Board, honest: set<string>, keys: seq<string>, actions: seq<Action>, ss: seq<Statement>, rs: seq<Receipt>)
    returns (q: QuorumCheckpoint)
    requires Setting(b, honest) && Panel(b, honest, keys)
    requires ReceiptsFor(b, ss, rs) && |IdsOf(ss)| <= MAX_SAFE_INTEGER
    requires PanelAccepted(b, Run(b, honest, actions), keys, ss)
    ensures PresentedCheckpoint(b, Run(b, honest, actions + Storing(keys, rs) + Ask(keys, SealRequest(b))), q)
    ensures q.checkpoint == BodyOver(b, IdsOf(ss))
  {
    var w := Run(b, honest, actions + Storing(keys, rs) + Ask(keys, SealRequest(b)));
    forall k | k in keys ensures HasSealed(b, w, k, IdsOf(ss)) {
      var i :| 0 <= i < |keys| && keys[i] == k;
      AllReceiptsSeal(b, honest, keys, actions, ss, rs, i);
    }
    SafeCountIsText(b, IdsOf(ss));
    q := PanelCheckpoint(b, w, keys, IdsOf(ss));
  }

  lemma SaidIsChecked(b: Board, casts: seq<Cast>)
    requires SoundBoard(b) && AllAdmitted(b, casts)
    ensures AllChecked(b, SaidOfAll(b, casts))
  {
    forall j | 0 <= j < |casts| ensures
        StatementError(b.c, b.m, SaidOfAll(b, casts)[j]) == None && ValidStatement(SaidOfAll(b, casts)[j]) {
      SaidOfAllAt(b, casts, j);
    }
  }

  lemma WholePanelAccepts(b: Board, honest: set<string>, keys: seq<string>, casts: seq<Cast>)
    requires Setting(b, honest) && Panel(b, honest, keys)
    requires AllAdmitted(b, casts) && DifferentNullifiers(SaidOfAll(b, casts))
    ensures PanelAccepted(b, Run(b, honest, Accepting(keys, casts)), keys, SaidOfAll(b, casts))
  {
    forall i | 0 <= i < |keys| {
      PanelAccepts(b, honest, keys, casts, i);
    }
  }

  lemma AllReceipts(b: Board, honest: set<string>, keys: seq<string>, casts: seq<Cast>) returns (rs: seq<Receipt>)
    requires Setting(b, honest) && Panel(b, honest, keys) && AllAdmitted(b, casts)
    requires PanelAccepted(b, Run(b, honest, Accepting(keys, casts)), keys, SaidOfAll(b, casts))
    ensures ReceiptsFor(b, SaidOfAll(b, casts), rs)
    ensures AllFromPanel(b, Run(b, honest, Accepting(keys, casts)), keys, rs)
  {
    var ss := SaidOfAll(b, casts);
    SaidIsChecked(b, casts);
    rs := ReceiptsFromPanel(b, honest, Run(b, honest, Accepting(keys, casts)), keys, ss);
    assert ss[..|ss|] == ss;
  }

  /** Any admitted ballots with different nullifiers can be counted together: three or more honest Witnesses
      accept them, the stored acceptances combine to receipts, the Witnesses store these and seal, and the
      bundle over all of it is accepted and reports exactly these records. */
  lemma BallotsAreCounted(b: Board, honest: set<string>, keys: seq<string>, casts: seq<Cast>)
    returns (rs: seq<Receipt>, q: QuorumCheckpoint)
    requires Setting(b, honest) && Panel(b, honest, keys) && |casts| <= MAX_SAFE_INTEGER
    requires AllAdmitted(b, casts) && DifferentNullifiers(SaidOfAll(b, casts))
    ensures ReceiptsFor(b, SaidOfAll(b, casts), rs)
    ensures AllFromPanel(b, Run(b, honest, Accepting(keys, casts)), keys, rs)
    ensures PresentedBundle(b, Run(b, honest, Rounds(b, keys, casts, rs)), RecordsOf(b, casts), rs, q, b.m.minimumAnonymitySet)
    ensures var v := BundleVerdict(b, RecordsOf(b, casts), rs, q, b.m.minimumAnonymitySet).value;
            v.acceptedRecordIds == Sorted(IdsOf(SaidOfAll(b, casts))) && v.acceptedCount == |casts|
  {
    var ss := SaidOfAll(b, casts);
    WholePanelAccepts(b, honest, keys, casts);
    rs := AllReceipts(b, honest, keys, casts);
    DifferentIds(b, casts);
    q := PanelSeals(b, honest, keys, Accepting(keys, casts), ss, rs);
    CheckpointVerdictMeaning(b.c, b.m, q);
    BundleIsAccepted(b, casts, rs, q);
  }
}
