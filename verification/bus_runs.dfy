/** Whole runs of the bus, under every interleaving of suspended calls. */
module BusRuns {
  import opened Outcomes
  import opened Ordering
  import opened CanonicalJson
  import opened BusSteps
  import opened BusSafety

  /** One step of some call: its first part, the part after its delay, or the whole of a call without one. */
  datatype Event =
    | Register(assignment: Assignment, now: int)
    | Broadcast(artifact: Json)
    | Send(message: DirectMessage)
    | Submit(contribution: Contribution)
    | Commit(n: nat)
    | Receive(role: string)
    | Abort(reason: string, evidence: Json)
    | Read

  function Step(cfg: Config, s: Bus, e: Event): Bus
  {
    match e
    case Register(a, now) => RegisterStep(cfg, s, a, now).1
    case Broadcast(v) => BroadcastStep(cfg, s, v).1
    case Send(m) => SendStep(cfg, s, m).1
    case Submit(x) => ContributeStep(cfg, s, x).1
    case Commit(n) => if n in s.inFlight then CommitStep(cfg.faults, s, n).1 else s
    case Receive(role) => ReceiveStep(s, role).1
    case Abort(reason, evidence) => AbortStep(cfg, s, reason, evidence).1
    case Read => s
  }

  function Run(cfg: Config, events: seq<Event>): Bus
  {
    if events == [] then NEW_BUS else Step(cfg, Run(cfg, events[..|events| - 1]), events[|events| - 1])
  }

  // ----------------------------------------------------------------- safety

  lemma StepKeeps(cfg: Config, s: Bus, e: Event)
    requires BusInv(cfg, s)
    ensures Keeps(cfg, s, Step(cfg, s, e))
  {
    UnchangedIsKept(cfg, s);
    match e
    case Register(a, now) => RegisterKeeps(cfg, s, a, now);
    case Broadcast(v) => BroadcastKeeps(cfg, s, v);
    case Send(m) => SendKeeps(cfg, s, m);
    case Submit(x) => ContributeStepKeeps(cfg, s, x);
    case Commit(n) => if n in s.inFlight { CommitKeeps(cfg, s, n); }
    case Receive(role) => ReceiveKeeps(cfg, s, role);
    case Abort(reason, evidence) => AbortKeeps(cfg, s, reason, evidence);
    case Read =>
  }

  /** The invariant holds in every reachable state. */
  lemma {:induction false} RunKeepsInvariant(cfg: Config, events: seq<Event>)
    ensures BusInv(cfg, Run(cfg, events))
  {
    if events == [] {
      NewBusIsGood(cfg);
    } else {
      RunKeepsInvariant(cfg, events[..|events| - 1]);
      StepKeeps(cfg, Run(cfg, events[..|events| - 1]), events[|events| - 1]);
    }
  }

  /** Roles, log entries, contributions and the abort record are written once and never changed. */
  lemma {:induction false} RunGrows(cfg: Config, events: seq<Event>, n: nat)
    requires n <= |events|
    ensures Grows(Run(cfg, events[..n]), Run(cfg, events))
    decreases |events|
  {
    var s := Run(cfg, events[..n]);
    if n == |events| {
      assert events[..n] == events;
      GrowsIsReflexive(s);
    } else {
      var front := events[..|events| - 1];
      assert front[..n] == events[..n];
      RunGrows(cfg, front, n);
      RunKeepsInvariant(cfg, front);
      StepKeeps(cfg, Run(cfg, front), events[|events| - 1]);
      GrowsIsTransitive(s, Run(cfg, front), Run(cfg, events));
    }
  }

  /** Once an abort is recorded nothing grows any more, not even through calls already past their delay. */
  lemma {:induction false} AbortFreezes(cfg: Config, events: seq<Event>, n: nat)
    requires n <= |events| && Run(cfg, events[..n]).aborted.Some?
    ensures Frozen(Run(cfg, events[..n]), Run(cfg, events))
    decreases |events|
  {
    if n == |events| {
      assert events[..n] == events;
    } else {
      var front := events[..|events| - 1];
      assert front[..n] == events[..n];
      AbortFreezes(cfg, front, n);
      RunKeepsInvariant(cfg, front);
      StepKeeps(cfg, Run(cfg, front), events[|events| - 1]);
    }
  }

  /** A contribution of a role for a kind never changes once it is there. */
  lemma ContributionIsWrittenOnce(cfg: Config, events: seq<Event>, n: nat, key: (string, string))
    requires n <= |events| && key in Run(cfg, events[..n]).contributions
    ensures key in Run(cfg, events).contributions
    ensures Run(cfg, events).contributions[key] == Run(cfg, events[..n]).contributions[key]
  {
    RunGrows(cfg, events, n);
    assert SameAt(Run(cfg, events[..n]), Run(cfg, events), ContributionAt(key));
  }

  /** Every counted call is committed at most once: out of flight means out of flight for good. */
  lemma CommittedOnce(cfg: Config, events: seq<Event>, m: nat, n: nat)
    requires m <= |events| && n in Run(cfg, events[..m]).inFlight && m < |events| && events[m] == Commit(n)
    ensures n !in Run(cfg, events).inFlight
  {
    var s, t := Run(cfg, events[..m]), Run(cfg, events[..m + 1]);
    assert events[..m + 1][..m] == events[..m];
    RunKeepsInvariant(cfg, events[..m]);
    StepKeeps(cfg, s, Commit(n));
    assert OkAt(cfg, s, InFlightAt(n));
    CommitLands(cfg.faults, s, n);
    RunGrows(cfg, events, m + 1);
    assert SameAt(t, Run(cfg, events), InFlightAt(n));
  }

  lemma CommitLands(f: FaultPolicy, s: Bus, n: nat)
    requires n in s.inFlight
    ensures n !in CommitStep(f, s, n).1.inFlight
  {
  }

  // ---------------------------------------------------------------- quorums

  /** A quorum answer: enough genuine contributions of the kind, one per role, each by an authorized role
      of an allowed kind, in the order of the role ids. */
  ghost predicate QuorumAnswer(cfg: Config, s: Bus, kind: string, xs: seq<Contribution>)
    requires kind in cfg.rules
  {
    && |xs| >= cfg.rules[kind].minimum
    && (forall i, j | 0 <= i < j < |xs| :: Less(xs[i].statement.roleId, xs[j].statement.roleId))
    && (forall i | 0 <= i < |xs| ::
          && xs[i].statement.kind == kind && Authentic(cfg, s, xs[i])
          && xs[i].statement.roleId in cfg.authorized
          && cfg.authorized[xs[i].statement.roleId].roleKind in cfg.rules[kind].allowedRoles)
  }

  lemma SelectedAt(cfg: Config, s: Bus, kind: string, i: nat)
    requires BusInv(cfg, s) && kind in cfg.rules && i < |Selected(cfg, s, kind)|
    ensures var x := Selected(cfg, s, kind)[i];
            && x.statement.kind == kind && x.statement.roleId == Sorted(Counted(cfg, s, kind))[i] && Authentic(cfg, s, x)
            && x.statement.roleId in cfg.authorized
            && cfg.authorized[x.statement.roleId].roleKind in cfg.rules[kind].allowedRoles
  {
    SortedRolesCount(cfg, s, kind, i);
    var role := Sorted(Counted(cfg, s, kind))[i];
    assert OkAt(cfg, s, ContributionAt((kind, role))) && OkAt(cfg, s, RoleAt(role));
  }

  lemma CollectMeaning(cfg: Config, s: Bus, kind: string, expired: bool)
    requires BusInv(cfg, s) && kind in cfg.rules
    ensures var r := CollectPoll(cfg, s, kind, expired);
            && (r.Some? && r.value.Success? ==> QuorumAnswer(cfg, s, kind, r.value.value))
            && (r == None <==> s.aborted.None? && !expired && |Counted(cfg, s, kind)| < cfg.rules[kind].minimum)
  {
    var r := CollectPoll(cfg, s, kind, expired);
    if r.Some? && r.value.Success? {
      var xs := r.value.value;
      forall i, j | 0 <= i < j < |xs| ensures Less(xs[i].statement.roleId, xs[j].statement.roleId) {
        SelectedAt(cfg, s, kind, i);
        SelectedAt(cfg, s, kind, j);
      }
      forall i | 0 <= i < |xs|
        ensures xs[i].statement.kind == kind && Authentic(cfg, s, xs[i])
        ensures xs[i].statement.roleId in cfg.authorized
        ensures cfg.authorized[xs[i].statement.roleId].roleKind in cfg.rules[kind].allowedRoles
      {
        SelectedAt(cfg, s, kind, i);
      }
    }
  }

  /** Every contribution of the kind by an allowed role is in the selection. */
  lemma SelectedIsComplete(cfg: Config, s: Bus, kind: string, role: string)
    requires BusInv(cfg, s) && kind in cfg.rules && (kind, role) in s.contributions && role in s.roles
    requires s.roles[role].roleKind in cfg.rules[kind].allowedRoles
    ensures s.contributions[(kind, role)] in Selected(cfg, s, kind)
  {
    assert (kind, role).1 in Counted(cfg, s, kind);
    var roles := Sorted(Counted(cfg, s, kind));
    assert role in Elements(roles);
    var i :| 0 <= i < |roles| && roles[i] == role;
    assert Selected(cfg, s, kind)[i] == s.contributions[(kind, role)];
  }

  lemma SelectionGrows(cfg: Config, s: Bus, s': Bus, kind: string, i: nat)
    requires BusInv(cfg, s) && BusInv(cfg, s') && Grows(s, s') && kind in cfg.rules
    requires i < |Selected(cfg, s, kind)|
    ensures Selected(cfg, s, kind)[i] in Selected(cfg, s', kind)
  {
    SelectedAt(cfg, s, kind, i);
    SortedRolesCount(cfg, s, kind, i);
    var role := Sorted(Counted(cfg, s, kind))[i];
    assert SameAt(s, s', ContributionAt((kind, role))) && SameAt(s, s', RoleAt(role));
    SelectedIsComplete(cfg, s', kind, role);
  }

  /** A later quorum answer contains every earlier one. */
  lemma QuorumsGrow(cfg: Config, events: seq<Event>, n: nat, kind: string, expired: bool, expired': bool)
    requires n <= |events| && kind in cfg.rules
    requires var r := CollectPoll(cfg, Run(cfg, events[..n]), kind, expired); r.Some? && r.value.Success?
    requires var r := CollectPoll(cfg, Run(cfg, events), kind, expired'); r.Some? && r.value.Success?
    ensures forall x | x in CollectPoll(cfg, Run(cfg, events[..n]), kind, expired).value.value ::
              x in CollectPoll(cfg, Run(cfg, events), kind, expired').value.value
  {
    var s, s' := Run(cfg, events[..n]), Run(cfg, events);
    RunKeepsInvariant(cfg, events[..n]);
    RunKeepsInvariant(cfg, events);
    RunGrows(cfg, events, n);
    forall i | 0 <= i < |Selected(cfg, s, kind)| ensures Selected(cfg, s, kind)[i] in Selected(cfg, s', kind) {
      SelectionGrows(cfg, s, s', kind, i);
    }
  }

  // ------------------------------------------------------------- public log

  /** A subscriber that passes the cursor it was given to its next call. */
  datatype Reader = Reader(cursor: int, seen: seq<Published>)

  function ReaderAfter(cfg: Config, events: seq<Event>): Reader
  {
    if events == [] then Reader(0, [])
    else
      var front := events[..|events| - 1];
      var reader := ReaderAfter(cfg, front);
      if events[|events| - 1] != Read then reader
      else
        match SubscribePoll(Run(cfg, front), reader.cursor, true)
        case Some(Success((values, cursor))) => Reader(cursor, reader.seen + values)
        case _ => reader
  }

  ghost predicate NoRepeats(log: seq<Published>)
  {
    forall i, j | 0 <= i < j < |log| :: log[i].id != log[j].id
  }

  lemma LogHasNoRepeats(cfg: Config, s: Bus)
    requires BusInv(cfg, s)
    ensures NoRepeats(s.log)
  {
    forall i, j | 0 <= i < j < |s.log| ensures s.log[i].id != s.log[j].id {
      assert OkAt(cfg, s, LogAt(j));
    }
  }

  lemma LogIsPrefix(s: Bus, s': Bus)
    requires Grows(s, s')
    ensures s.log <= s'.log
  {
    forall i | 0 <= i < |s.log| ensures i < |s'.log| && s'.log[i] == s.log[i] {
      assert SameAt(s, s', LogAt(i));
    }
    if s.log != [] {
      assert SameAt(s, s', LogAt(|s.log| - 1));
    }
  }

  /** Chained cursors yield the public log in order, each entry once and no artifact id twice; right after
      a call the reader has seen the whole log, also when the bus was aborted in between. */
  lemma {:induction false} LogIsReadOnce(cfg: Config, events: seq<Event>)
    ensures var reader := ReaderAfter(cfg, events);
            && 0 <= reader.cursor <= |Run(cfg, events).log|
            && reader.seen == Run(cfg, events).log[..reader.cursor]
            && NoRepeats(reader.seen)
            && (events != [] && events[|events| - 1] == Read ==> reader.seen == Run(cfg, events).log)
  {
    if events != [] {
      var front := events[..|events| - 1];
      LogIsReadOnce(cfg, front);
      RunKeepsInvariant(cfg, front);
      RunKeepsInvariant(cfg, events);
      LogHasNoRepeats(cfg, Run(cfg, events));
      StepKeeps(cfg, Run(cfg, front), events[|events| - 1]);
      LogIsPrefix(Run(cfg, front), Run(cfg, events));
      ReadStep(cfg, events);
    }
  }

  lemma ReadStep(cfg: Config, events: seq<Event>)
    requires events != []
    requires var front := events[..|events| - 1]; var reader := ReaderAfter(cfg, front);
             && 0 <= reader.cursor <= |Run(cfg, front).log| && reader.seen == Run(cfg, front).log[..reader.cursor]
             && Run(cfg, front).log <= Run(cfg, events).log
    ensures var reader := ReaderAfter(cfg, events);
            && 0 <= reader.cursor <= |Run(cfg, events).log|
            && reader.seen == Run(cfg, events).log[..reader.cursor]
            && (events[|events| - 1] == Read ==> reader.seen == Run(cfg, events).log)
  {
    var log := Run(cfg, events[..|events| - 1]).log;
    var cursor := ReaderAfter(cfg, events[..|events| - 1]).cursor;
    assert log[..cursor] + log[cursor..] == log;
    if events[|events| - 1] == Read {
      assert Run(cfg, events).log == log;
    }
  }

  // --------------------------------------------------------- direct messages

  /** What commits have put into a role's inbox so far, in order. */
  function Committed(cfg: Config, events: seq<Event>, role: string): seq<DirectMessage>
  {
    if events == [] then []
    else
      var front, last := events[..|events| - 1], events[|events| - 1];
      Committed(cfg, front, role) + CommittedBy(cfg.faults, Run(cfg, front), last, role)
  }

  /** A send that is not aborted reaches its inbox 0, 1 or 2 times, as the fault counters say. */
  function CommittedBy(f: FaultPolicy, s: Bus, e: Event, role: string): seq<DirectMessage>
  {
    if e.Commit? && e.n in s.inFlight && s.inFlight[e.n].Sending? && s.inFlight[e.n].message.target == role && s.aborted.None?
    then Repeat(s.inFlight[e.n].message, Copies(f, e.n))
    else []
  }

  /** What `receive_direct` has handed out to a role so far. */
  function Received(cfg: Config, events: seq<Event>, role: string): seq<DirectMessage>
  {
    if events == [] then []
    else
      var front, last := events[..|events| - 1], events[|events| - 1];
      Received(cfg, front, role) + ReceivedBy(Run(cfg, front), last, role)
  }

  function ReceivedBy(s: Bus, e: Event, role: string): seq<DirectMessage>
  {
    if e.Receive? && e.role == role && ReceiveStep(s, role).0.Success? then ReceiveStep(s, role).0.value else []
  }

  lemma CommitMoves(f: FaultPolicy, s: Bus, n: nat, role: string)
    requires n in s.inFlight
    ensures Inbox(CommitStep(f, s, n).1, role) == Inbox(s, role) + CommittedBy(f, s, Commit(n), role)
  {
    if s.inFlight[n].Sending? && Copies(f, n) == 0 {
      assert Repeat(s.inFlight[n].message, 0) == [];
    }
  }

  lemma StepMoves(cfg: Config, s: Bus, e: Event, role: string)
    ensures ReceivedBy(s, e, role) + Inbox(Step(cfg, s, e), role) == Inbox(s, role) + CommittedBy(cfg.faults, s, e, role)
  {
    match e
    case Commit(n) => if n in s.inFlight { CommitMoves(cfg.faults, s, n, role); }
    case Receive(r) =>
    case Register(_, _) =>
    case Broadcast(v) => BroadcastKeepsInboxes(cfg, s, v);
    case Send(m) => SendKeepsInboxes(cfg, s, m);
    case Submit(x) => SubmitKeepsInboxes(cfg, s, x);
    case Abort(_, _) =>
    case Read =>
  }

  lemma BroadcastKeepsInboxes(cfg: Config, s: Bus, v: Json)
    ensures BroadcastStep(cfg, s, v).1.direct == s.direct
  {
  }

  lemma SendKeepsInboxes(cfg: Config, s: Bus, m: DirectMessage)
    ensures SendStep(cfg, s, m).1.direct == s.direct
  {
  }

  lemma SubmitKeepsInboxes(cfg: Config, s: Bus, x: Contribution)
    ensures ContributeStep(cfg, s, x).1.direct == s.direct
  {
  }

  /** No message is lost, invented or reordered: what a role received, followed by what is still waiting
      for it, is what was committed to it. */
  lemma {:induction false} MessagesAreConserved(cfg: Config, events: seq<Event>, role: string)
    ensures Received(cfg, events, role) + Inbox(Run(cfg, events), role) == Committed(cfg, events, role)
  {
    if events != [] {
      var front, last := events[..|events| - 1], events[|events| - 1];
      MessagesAreConserved(cfg, front, role);
      StepMoves(cfg, Run(cfg, front), last, role);
      Reassociate(Received(cfg, front, role), ReceivedBy(Run(cfg, front), last, role), Inbox(Run(cfg, events), role),
                  Inbox(Run(cfg, front), role), CommittedBy(cfg.faults, Run(cfg, front), last, role));
    }
  }

  lemma Reassociate(received: seq<DirectMessage>, taken: seq<DirectMessage>, inbox': seq<DirectMessage>,
                    inbox: seq<DirectMessage>, put: seq<DirectMessage>)
    requires taken + inbox' == inbox + put
    ensures received + taken + inbox' == received + inbox + put
  {
    assert received + taken + inbox' == received + (taken + inbox');
    assert received + inbox + put == received + (inbox + put);
  }
}
