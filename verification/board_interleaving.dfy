/** Calls on the threads of one Witness server: `store_receipt` reads, submits and inserts in transactions of
    their own, and other calls may run in between. */
module BoardInterleaving {
  import opened Outcomes
  import opened CanonicalJson
  import opened Statements
  import opened Receipts
  import opened Checkpoints
  import opened Ballots
  import opened WitnessTables
  import opened WitnessInvariant
  import opened Bundles
  import opened BoardRuns

  /** One transaction. `submit` and `checkpoint` are one each; `store_receipt` is up to three, with the
      number of the call that they belong to. */
  datatype Part =
    | SubmitCall(key: string, raw: string, now: int)
    | CheckpointCall(key: string, cutoff: string, height: int, previous: string)
    | ReceiptCall(key: string, receipt: Receipt, record: Option<string>)
    | SubmitPart(call: nat, now: int)
    | InsertPart(call: nat)

  /** What a `store_receipt` call has still to do. */
  datatype Pending =
    | ToSubmit(key: string, receipt: Receipt, raw: string)
    | ToInsert(key: string, receipt: Receipt)

  datatype Servers = Servers(w: World, pending: map<nat, Pending>, calls: nat)

  predicate TextKeys(w: World)
  {
    forall k | k in w :: ValidString(k)
  }

  function Enqueue(s: Servers, p: Pending): Servers
  {
    s.(pending := s.pending[s.calls := p], calls := s.calls + 1)
  }

  function Finish(s: Servers, n: nat): Servers
  {
    s.(pending := s.pending - {n})
  }

  /** The receipt check and the SELECT of `store_receipt`, with the comparison if a record is there. */
  function Begin(b: Board, s: Servers, key: string, r: Receipt, raw: Option<string>): Servers
    requires SoundBoard(b) && TextKeys(s.w)
  {
    if key !in s.w || ReceiptVerdict(b.c, b.m, r).Failure? then s
    else if r.statement.recordId in s.w[key].records then
      if StoredStatement(b, s.w[key].records[r.statement.recordId].rawRecord) == Success(r.statement)
      then Enqueue(s, ToInsert(key, r)) else s
    else if raw.None? then s
    else Enqueue(s, ToSubmit(key, r, raw.value))
  }

  /** The inner `submit`, and the comparison after it. */
  function Continue(b: Board, s: Servers, n: nat, now: int): Servers
    requires SoundBoard(b) && TextKeys(s.w)
  {
    if !(n in s.pending && s.pending[n].ToSubmit? && s.pending[n].key in s.w) then s
    else
      var p := s.pending[n];
      var (submitted, _) := SubmitStep(b, p.key, s.w[p.key], p.raw, now);
      var s' := s.(w := Deliver(b, s.w, Submit(p.key, p.raw, now)));
      if submitted.Success? && submitted.value.statement == p.receipt.statement
      then s'.(pending := s.pending[n := ToInsert(p.key, p.receipt)]) else Finish(s', n)
  }

  /** The final INSERT. */
  function Insert(s: Servers, n: nat): Servers
  {
    if !(n in s.pending && s.pending[n].ToInsert? && s.pending[n].key in s.w) then s
    else
      var p := s.pending[n];
      Finish(s.(w := s.w[p.key := InsertReceipt(s.w[p.key], p.receipt)]), n)
  }

  function PartStep(b: Board, s: Servers, p: Part): (s': Servers)
    requires SoundBoard(b) && TextKeys(s.w)
    ensures s'.w.Keys == s.w.Keys
  {
    match p
    case SubmitCall(key, raw, now) => s.(w := Deliver(b, s.w, Submit(key, raw, now)))
    case CheckpointCall(key, cutoff, height, previous) => s.(w := Deliver(b, s.w, Checkpoint(key, cutoff, height, previous)))
    case ReceiptCall(key, receipt, raw) => Begin(b, s, key, receipt, raw)
    case SubmitPart(n, now) => Continue(b, s, n, now)
    case InsertPart(n) => Insert(s, n)
  }

  function Interleaved(b: Board, honest: set<string>, parts: seq<Part>): (s: Servers)
    requires Setting(b, honest)
    ensures s.w.Keys == honest && TextKeys(s.w)
  {
    if parts == [] then Servers(Run(b, honest, []), map[], 0)
    else PartStep(b, Interleaved(b, honest, parts[..|parts| - 1]), parts[|parts| - 1])
  }

  // --------------------------------------------------------------- reduction

  /** The whole call that has the same effect on the tables as one transaction. */
  function ActionOf(s: Servers, p: Part): seq<Action>
  {
    match p
    case SubmitCall(key, raw, now) => [Submit(key, raw, now)]
    case CheckpointCall(key, cutoff, height, previous) => [Checkpoint(key, cutoff, height, previous)]
    case ReceiptCall(_, _, _) => []
    case SubmitPart(n, now) =>
      if n in s.pending && s.pending[n].ToSubmit? && s.pending[n].key in s.w then [Submit(s.pending[n].key, s.pending[n].raw, now)] else []
    case InsertPart(n) =>
      if n in s.pending && s.pending[n].ToInsert? && s.pending[n].key in s.w then [StoreReceipt(s.pending[n].key, s.pending[n].receipt, None, 0)] else []
  }

  function Reduced(b: Board, honest: set<string>, parts: seq<Part>): seq<Action>
    requires Setting(b, honest)
  {
    if parts == [] then []
    else
      var front := parts[..|parts| - 1];
      Reduced(b, honest, front) + ActionOf(Interleaved(b, honest, front), parts[|parts| - 1])
  }

  /** The checks that a call made before its last transaction still hold. */
  ghost predicate PendingOk(b: Board, w: World, p: Pending)
    requires SoundBoard(b)
  {
    && p.key in w && GoodReceipt(b.c, b.m, p.receipt)
    && (p.ToInsert? ==> Acknowledged(w[p.key], p.receipt))
  }

  ghost predicate PendingAt(b: Board, s: Servers, n: nat)
    requires SoundBoard(b)
  {
    n in s.pending ==> PendingOk(b, s.w, s.pending[n])
  }

  /** Stores keep their invariant and lose nothing while a call is under way. */
  ghost predicate Evolves(b: Board, w: World, w': World)
    requires SoundBoard(b)
  {
    && w'.Keys == w.Keys && TextKeys(w)
    && forall k | k in w :: StoreInv(b, k, w[k]) && StoreInv(b, k, w'[k]) && Extends(w[k], w'[k])
  }

  lemma PendingPersists(b: Board, w: World, w': World, p: Pending)
    requires SoundBoard(b) && Evolves(b, w, w') && PendingOk(b, w, p)
    ensures PendingOk(b, w', p)
  {
    assert KeptAt(w[p.key], w'[p.key], AtRecord(p.receipt.statement.recordId));
  }

  lemma BeginIsOk(b: Board, s: Servers, key: string, r: Receipt, raw: Option<string>, n: nat)
    requires SoundBoard(b) && TextKeys(s.w) && Evolves(b, s.w, s.w) && PendingAt(b, s, n)
    ensures PendingAt(b, Begin(b, s, key, r, raw), n)
  {
    var s' := Begin(b, s, key, r, raw);
    if s' != s {
      ReceiptVerdictMeaning(b.c, b.m, r);
      if r.statement.recordId in s.w[key].records {
        StoredStatementIsAccepted(b, key, s.w[key], r.statement.recordId);
        assert PendingOk(b, s.w, ToInsert(key, r));
      } else {
        assert PendingOk(b, s.w, ToSubmit(key, r, raw.value));
      }
    }
  }

  lemma ContinueIsOk(b: Board, s: Servers, n: nat, now: int, i: nat)
    requires SoundBoard(b) && TextKeys(s.w) && PendingAt(b, s, n) && PendingAt(b, s, i)
    requires Evolves(b, s.w, Continue(b, s, n, now).w)
    ensures PendingAt(b, Continue(b, s, n, now), i)
  {
    var s' := Continue(b, s, n, now);
    if i in s.pending {
      PendingPersists(b, s.w, s'.w, s.pending[i]);
    }
    if n in s.pending && s.pending[n].ToSubmit? && s.pending[n].key in s.w {
      var p := s.pending[n];
      SubmitKeeps(b, p.key, s.w[p.key], p.raw, now);
    }
  }

  lemma InsertIsOk(b: Board, s: Servers, n: nat, i: nat)
    requires SoundBoard(b) && PendingAt(b, s, i) && Evolves(b, s.w, Insert(s, n).w)
    ensures PendingAt(b, Insert(s, n), i)
  {
    if i in s.pending {
      PendingPersists(b, s.w, Insert(s, n).w, s.pending[i]);
    }
  }

  lemma DeliverEvolves(b: Board, w: World, a: Action)
    requires SoundBoard(b) && TextKeys(w) && forall k | k in w :: StoreInv(b, k, w[k])
    ensures Evolves(b, w, Deliver(b, w, a))
  {
    forall k | k in w ensures StoreInv(b, k, Deliver(b, w, a)[k]) && Extends(w[k], Deliver(b, w, a)[k]) {
      DeliveryKeeps(b, w, a, k);
    }
  }

  lemma NothingEvolves(b: Board, w: World)
    requires SoundBoard(b) && TextKeys(w) && forall k | k in w :: StoreInv(b, k, w[k])
    ensures Evolves(b, w, w)
  {
    forall k | k in w ensures Extends(w[k], w[k]) {
      ExtendsIsReflexive(w[k]);
    }
  }

  lemma InsertIsDelivered(b: Board, w: World, key: string, r: Receipt)
    requires SoundBoard(b) && TextKeys(w) && key in w && StoreInv(b, key, w[key])
    requires GoodReceipt(b.c, b.m, r) && Acknowledged(w[key], r)
    ensures Deliver(b, w, StoreReceipt(key, r, None, 0)) == w[key := InsertReceipt(w[key], r)]
  {
    InsertIsStore(b, key, w[key], r);
  }

  lemma RunStep(b: Board, honest: set<string>, actions: seq<Action>, a: Action)
    requires Setting(b, honest)
    ensures Run(b, honest, actions + [a]) == Deliver(b, Run(b, honest, actions), a)
  {
    assert (actions + [a])[..|actions|] == actions;
  }

  /** Each transaction has the effect of no call or of one whole call. */
  ghost predicate HasEffectOf(b: Board, s: Servers, p: Part)
    requires SoundBoard(b) && TextKeys(s.w)
  {
    if ActionOf(s, p) == [] then PartStep(b, s, p).w == s.w
    else |ActionOf(s, p)| == 1 && PartStep(b, s, p).w == Deliver(b, s.w, ActionOf(s, p)[0])
  }

  ghost predicate AllPendingOk(b: Board, s: Servers)
    requires SoundBoard(b)
  {
    forall n: nat :: PendingAt(b, s, n)
  }

  lemma PartHasEffect(b: Board, s: Servers, p: Part)
    requires SoundBoard(b) && TextKeys(s.w) && AllPendingOk(b, s) && forall k | k in s.w :: StoreInv(b, k, s.w[k])
    ensures HasEffectOf(b, s, p)
  {
    match p
    case InsertPart(n) =>
      assert PendingAt(b, s, n);
      if n in s.pending && s.pending[n].ToInsert? && s.pending[n].key in s.w {
        InsertIsDelivered(b, s.w, s.pending[n].key, s.pending[n].receipt);
      }
    case SubmitPart(n, now) =>
    case _ =>
  }

  lemma PartEvolves(b: Board, s: Servers, p: Part)
    requires SoundBoard(b) && TextKeys(s.w) && AllPendingOk(b, s) && forall k | k in s.w :: StoreInv(b, k, s.w[k])
    ensures Evolves(b, s.w, PartStep(b, s, p).w)
  {
    PartHasEffect(b, s, p);
    NothingEvolves(b, s.w);
    if ActionOf(s, p) != [] {
      DeliverEvolves(b, s.w, ActionOf(s, p)[0]);
    }
  }

  lemma PartKeepsPending(b: Board, s: Servers, p: Part)
    requires SoundBoard(b) && TextKeys(s.w) && AllPendingOk(b, s) && forall k | k in s.w :: StoreInv(b, k, s.w[k])
    ensures AllPendingOk(b, PartStep(b, s, p))
  {
    PartEvolves(b, s, p);
    NothingEvolves(b, s.w);
    var s' := PartStep(b, s, p);
    forall i: nat ensures PendingAt(b, s', i) {
      assert PendingAt(b, s, i);
      match p
      case ReceiptCall(key, r, raw) => BeginIsOk(b, s, key, r, raw, i);
      case SubmitPart(n, now) =>
        assert PendingAt(b, s, n);
        ContinueIsOk(b, s, n, now, i);
      case InsertPart(n) => InsertIsOk(b, s, n, i);
      case _ => if i in s.pending { PendingPersists(b, s.w, s'.w, s.pending[i]); }
    }
  }

  /** Whatever runs in between the transactions of a call: the tables are those of a run of whole calls. */
  lemma {:induction false} InterleavingReduces(b: Board, honest: set<string>, parts: seq<Part>)
    requires Setting(b, honest)
    ensures Interleaved(b, honest, parts).w == Run(b, honest, Reduced(b, honest, parts))
    ensures AllPendingOk(b, Interleaved(b, honest, parts))
  {
    if parts != [] {
      var front, last := parts[..|parts| - 1], parts[|parts| - 1];
      InterleavingReduces(b, honest, front);
      StepReduces(b, honest, Interleaved(b, honest, front), Reduced(b, honest, front), last);
    } else {
      forall n: nat ensures PendingAt(b, Interleaved(b, honest, []), n) {
      }
    }
  }

  lemma StepReduces(b: Board, honest: set<string>, s: Servers, actions: seq<Action>, p: Part)
    requires Setting(b, honest) && s.w == Run(b, honest, actions) && AllPendingOk(b, s)
    ensures PartStep(b, s, p).w == Run(b, honest, actions + ActionOf(s, p))
    ensures AllPendingOk(b, PartStep(b, s, p))
  {
    forall k | k in s.w ensures StoreInv(b, k, s.w[k]) {
      RunKeepsInvariant(b, honest, actions, k);
    }
    PartHasEffect(b, s, p);
    PartKeepsPending(b, s, p);
    var added := ActionOf(s, p);
    if added == [] {
      assert actions + added == actions;
    } else {
      assert added == [added[0]];
      RunStep(b, honest, actions, added[0]);
    }
  }

  /** Earlier moments of an interleaved run are earlier moments of the run of whole calls. */
  lemma {:induction false} ReducedPrefix(b: Board, honest: set<string>, parts: seq<Part>, n: nat)
    requires Setting(b, honest) && n <= |parts|
    ensures Reduced(b, honest, parts[..n]) <= Reduced(b, honest, parts)
    decreases |parts|
  {
    if n == |parts| {
      assert parts[..n] == parts;
    } else {
      var front := parts[..|parts| - 1];
      assert front[..n] == parts[..n];
      ReducedPrefix(b, honest, front, n);
    }
  }

  /** A moment of an interleaved run, as a moment of the run of whole calls. */
  lemma MomentOf(b: Board, honest: set<string>, parts: seq<Part>, n: nat) returns (k: nat)
    requires Setting(b, honest) && n <= |parts|
    ensures k <= |Reduced(b, honest, parts)|
    ensures Interleaved(b, honest, parts[..n]).w == Run(b, honest, Reduced(b, honest, parts)[..k])
  {
    ReducedPrefix(b, honest, parts, n);
    InterleavingReduces(b, honest, parts[..n]);
    k := |Reduced(b, honest, parts[..n])|;
    assert Reduced(b, honest, parts)[..k] == Reduced(b, honest, parts[..n]);
  }

  // ------------------------------------------------------------ main results

  /** Agreement holds under every interleaving of transactions. */
  lemma InterleavedAgreement(b: Board, honest: set<string>, parts: seq<Part>,
                             n: nat, records: seq<Json>, receipts: seq<Receipt>, q: QuorumCheckpoint, minimum: int,
                             n': nat, records': seq<Json>, receipts': seq<Receipt>, q': QuorumCheckpoint, minimum': int)
    requires Setting(b, honest) && n <= |parts| && n' <= |parts|
    requires PresentedBundle(b, Interleaved(b, honest, parts[..n]).w, records, receipts, q, minimum)
    requires PresentedBundle(b, Interleaved(b, honest, parts[..n']).w, records', receipts', q', minimum')
    ensures BundleVerdict(b, records, receipts, q, minimum) == BundleVerdict(b, records', receipts', q', minimum')
    ensures q.checkpoint == q'.checkpoint && q.checkpointHash == q'.checkpointHash
  {
    var k := MomentOf(b, honest, parts, n);
    var k' := MomentOf(b, honest, parts, n');
    var actions := Reduced(b, honest, parts);
    Agreement(b, honest, actions, k, records, receipts, q, minimum, k', records', receipts', q', minimum');
    PresentedBundleFacts(b, Run(b, honest, actions[..k]), records, receipts, q, minimum);
    PresentedBundleFacts(b, Run(b, honest, actions[..k']), records', receipts', q', minimum');
    NoFork(b, honest, actions, k, q, k', q');
  }

  /** At that moment the honest Witness holds a receipt for the record and has not sealed yet. */
  ghost predicate HoldsUnsealed(b: Board, w: World, key: string, id: string)
  {
    key in w && id in ReceiptedIds(w[key]) && HeightOf(b) !in w[key].checkpoints
  }

  /** So does the inclusion of receipted records. */
  lemma InterleavedInclusion(b: Board, honest: set<string>, parts: seq<Part>,
                             m: nat, records: seq<Json>, receipts: seq<Receipt>, q: QuorumCheckpoint, minimum: int,
                             n: nat, key: string, n': nat, key': string, id: string)
    requires Setting(b, honest) && m <= |parts| && n <= |parts| && n' <= |parts| && key != key'
    requires PresentedBundle(b, Interleaved(b, honest, parts[..m]).w, records, receipts, q, minimum)
    requires HoldsUnsealed(b, Interleaved(b, honest, parts[..n]).w, key, id)
    requires HoldsUnsealed(b, Interleaved(b, honest, parts[..n']).w, key', id)
    ensures id in BundleVerdict(b, records, receipts, q, minimum).value.acceptedRecordIds
  {
    var i := MomentOf(b, honest, parts, m);
    var k := MomentOf(b, honest, parts, n);
    var k' := MomentOf(b, honest, parts, n');
    ReceiptedIsReported(b, honest, Reduced(b, honest, parts), i, records, receipts, q, minimum, k, key, k', key', id);
  }

  /** And so does the uniqueness of the record under a nullifier. */
  lemma InterleavedUniqueness(b: Board, honest: set<string>, parts: seq<Part>, n: nat, r: Receipt, n': nat, r': Receipt)
    requires Setting(b, honest) && n <= |parts| && n' <= |parts|
    requires PresentedReceipt(b, Interleaved(b, honest, parts[..n]).w, r)
    requires PresentedReceipt(b, Interleaved(b, honest, parts[..n']).w, r')
    requires r.statement.nullifier == r'.statement.nullifier
    ensures r.statement == r'.statement
  {
    var k := MomentOf(b, honest, parts, n);
    var k' := MomentOf(b, honest, parts, n');
    OneRecordPerNullifier(b, honest, Reduced(b, honest, parts), k, r, k', r');
  }
}
