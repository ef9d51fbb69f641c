/** A client asks a panel of Witnesses in turn: the runs that this makes. */
module BoardRequests {
  import opened Outcomes
  import opened CanonicalJson
  import opened JsonObjects
  import opened Manifests
  import opened Statements
  import opened Receipts
  import opened Checkpoints
  import opened Ballots
  import opened WitnessTables
  import opened BoardRuns
  import opened BoardProgress

  /** What a client asks every Witness in turn. */
  datatype Request =
    | ToAccept(raw: string, now: int)
    | ToStore(receipt: Receipt)
    | ToSeal(cutoff: string, height: int, previous: string)

  function ActionFor(key: string, q: Request): (a: Action)
    ensures a.key == key
  {
    match q
    case ToAccept(raw, now) => Submit(key, raw, now)
    case ToStore(receipt) => StoreReceipt(key, receipt, None, 0)
    case ToSeal(cutoff, height, previous) => Checkpoint(key, cutoff, height, previous)
  }

  function Ask(keys: seq<string>, q: Request): (actions: seq<Action>)
    ensures |actions| == |keys|
  {
    seq(|keys|, i requires 0 <= i < |keys| => ActionFor(keys[i], q))
  }

  lemma AskStep(actions: seq<Action>, keys: seq<string>, q: Request, i: nat)
    requires i < |keys|
    ensures actions + Ask(keys[..i + 1], q) == (actions + Ask(keys[..i], q)) + [ActionFor(keys[i], q)]
  {
  }

  /** Equality, not taken apart. */
  ghost predicate Same<T>(x: T, y: T)
  {
    x == y
  }

  lemma DeliverElsewhere(b: Board, w: World, a: Action, k: string)
    requires SoundBoard(b) && (forall x | x in w :: ValidString(x)) && k in w && k != a.key
    ensures Same(Deliver(b, w, a)[k], w[k])
  {
  }

  lemma DeliverHere(b: Board, w: World, a: Action)
    requires SoundBoard(b) && (forall x | x in w :: ValidString(x)) && a.key in w
    ensures Deliver(b, w, a)[a.key] == Act(b, a.key, w[a.key], a)
  {
  }

  lemma RunStep(b: Board, honest: set<string>, actions: seq<Action>, a: Action)
    requires Setting(b, honest)
    ensures Run(b, honest, actions + [a]) == Deliver(b, Run(b, honest, actions), a)
  {
    assert (actions + [a])[..|actions|] == actions;
  }

  lemma NextElsewhere(b: Board, honest: set<string>, actions: seq<Action>, keys: seq<string>, n: nat, q: Request, k: string)
    requires Setting(b, honest) && k in honest && n < |keys| && k != keys[n]
    ensures Same(Run(b, honest, actions + Ask(keys[..n + 1], q))[k], Run(b, honest, actions + Ask(keys[..n], q))[k])
  {
    AskStep(actions, keys, q, n);
    RunStep(b, honest, actions + Ask(keys[..n], q), ActionFor(keys[n], q));
    DeliverElsewhere(b, Run(b, honest, actions + Ask(keys[..n], q)), ActionFor(keys[n], q), k);
  }

  /** Asking others leaves a store alone. */
  lemma {:induction false} AskedElsewhere(b: Board, honest: set<string>, actions: seq<Action>, keys: seq<string>, n: nat, q: Request, k: string)
    requires Setting(b, honest) && k in honest && n <= |keys| && k !in keys[..n]
    ensures Same(Run(b, honest, actions + Ask(keys[..n], q))[k], Run(b, honest, actions)[k])
  {
    if n == 0 {
      assert actions + Ask(keys[..0], q) == actions;
    } else {
      assert keys[n - 1] in keys[..n];
      AskedElsewhere(b, honest, actions, keys, n - 1, q, k);
      NextElsewhere(b, honest, actions, keys, n - 1, q, k);
    }
  }

  lemma AskSplit(actions: seq<Action>, keys: seq<string>, q: Request, n: nat)
    requires n <= |keys|
    ensures actions + Ask(keys, q) == (actions + Ask(keys[..n], q)) + Ask(keys[n..], q)
  {
  }

  lemma AskedBefore(b: Board, honest: set<string>, actions: seq<Action>, keys: seq<string>, q: Request, n: nat, k: string)
    requires Setting(b, honest) && k in honest && n <= |keys| && k !in keys[n..]
    ensures Same(Run(b, honest, actions + Ask(keys, q))[k], Run(b, honest, actions + Ask(keys[..n], q))[k])
  {
    var others := keys[n..];
    AskSplit(actions, keys, q, n);
    AskedElsewhere(b, honest, actions + Ask(keys[..n], q), others, |others|, q, k);
    assert others[..|others|] == others;
  }

  /** Asking different Witnesses one after the other acts once on the store of each. */
  lemma AskedStore(b: Board, honest: set<string>, actions: seq<Action>, keys: seq<string>, q: Request, i: nat) returns (w: World, w': World)
    requires Setting(b, honest) && i < |keys| && keys[i] in honest
    requires Distinct(keys)
    ensures w.Keys == honest && (forall x | x in w :: ValidString(x))
    ensures w' == Deliver(b, w, ActionFor(keys[i], q))
    ensures Same(w[keys[i]], Run(b, honest, actions)[keys[i]])
    ensures Same(Run(b, honest, actions + Ask(keys, q))[keys[i]], w'[keys[i]])
  {
    w := Run(b, honest, actions + Ask(keys[..i], q));
    w' := Run(b, honest, actions + Ask(keys[..i + 1], q));
    AskedElsewhere(b, honest, actions, keys, i, q, keys[i]);
    AskStep(actions, keys, q, i);
    RunStep(b, honest, actions + Ask(keys[..i], q), ActionFor(keys[i], q));
    AskedBefore(b, honest, actions, keys, q, i + 1, keys[i]);
  }

  // ------------------------------------------------------------------ panels

  /** At least three different honest Witnesses. */
  ghost predicate Panel(b: Board, honest: set<string>, keys: seq<string>)
    requires SoundBoard(b)
  {
    && DifferentWitnesses(b.m, keys) && |keys| >= WITNESS_QUORUM && forall k | k in keys :: k in honest
  }

  lemma StartIsEmpty(b: Board, honest: set<string>, key: string)
    requires Setting(b, honest) && key in honest
    ensures Same(Run(b, honest, [])[key], EMPTY_TABLES)
  {
  }

  function SealRequest(b: Board): Request
    requires SoundBoard(b)
  {
    ToSeal(CutoffHash(b.c, b.m), 1, b.m.genesis)
  }

  lemma SameSealed(b: Board, w: World, w': World, k: string, ids: set<string>)
    requires SoundBoard(b) && HasSealed(b, w, k, ids) && k in w' && Same(w'[k], w[k])
    ensures HasSealed(b, w', k, ids)
  {
  }

  /** The receipt that a panel's honest acceptances of a statement combine to. */
  lemma PanelReceipt(b: Board, honest: set<string>, keys: seq<string>, s: Statement) returns (items: seq<Acceptance>, r: Receipt)
    requires Setting(b, honest) && Panel(b, honest, keys)
    requires StatementError(b.c, b.m, s) == None && ValidStatement(s)
    ensures |items| == |keys| && forall i | 0 <= i < |keys| :: items[i] == HonestAcceptance(b.c, keys[i], s)
    ensures CombinedReceipt(b.c, b.m, items) == Success(r)
    ensures GoodReceipt(b.c, b.m, r) && r.statement == s
  {
    items := seq(|keys|, i requires 0 <= i < |keys| => HonestAcceptance(b.c, keys[i], s));
    HonestAcceptancesCombine(b.c, b.m, s, keys, items);
    CombinedReceiptVerifies(b.c, b.m, items);
    r := CombinedReceipt(b.c, b.m, items).value;
  }

  /** The checkpoint that the answers of a sealed panel combine to. */
  lemma PanelCheckpoint(b: Board, w: World, keys: seq<string>, ids: set<string>) returns (q: QuorumCheckpoint)
    requires SoundBoard(b) && DifferentWitnesses(b.m, keys) && |keys| >= WITNESS_QUORUM && ValidBody(BodyOver(b, ids))
    requires forall k | k in keys :: HasSealed(b, w, k, ids)
    ensures PresentedCheckpoint(b, w, q) && q.checkpoint == BodyOver(b, ids)
  {
    SignedIsPresented(b, w, keys, ids);
    q := CombinedCheckpoint(b.c, b.m, SignedBy(b, keys, BodyOver(b, ids))).value;
  }

  lemma SafeCountIsText(b: Board, ids: set<string>)
    requires SoundBoard(b) && |ids| <= MAX_SAFE_INTEGER
    ensures ValidBody(BodyOver(b, ids))
  {
    BodyOverIsChecked(b, ids);
    CheckedBodyIsText(b.c, b.m, BodyOver(b, ids));
  }
}
