/** The ceremony state machine and the replay of its event histories. */
module CeremonyStates {
  import opened Outcomes

  datatype CeremonyState =
    | Draft | Deliberating | SetupFrozen | KeyCeremony | Enrolling | FinalFrozen | Voting | Sealed
    | Tallying | Provisional | Finalized | Disputed | Aborted

  datatype Transition = Transition(oldState: CeremonyState, newState: CeremonyState, reasonCode: string, evidenceIds: seq<string>)

  /** An event as it is replayed; None is a state name that is missing or unknown. */
  datatype Event = Event(
    knownSchema: bool,
    oldState: Option<CeremonyState>,
    newState: Option<CeremonyState>,
    reasonCode: string,
    evidenceIds: seq<string>)

  /** The regular next state. */
  function Forward(s: CeremonyState): Option<CeremonyState>
  {
    match s
    case Draft => Some(Deliberating)
    case Deliberating => Some(SetupFrozen)
    case SetupFrozen => Some(KeyCeremony)
    case KeyCeremony => Some(Enrolling)
    case Enrolling => Some(FinalFrozen)
    case FinalFrozen => Some(Voting)
    case Voting => Some(Sealed)
    case Sealed => Some(Tallying)
    case Tallying => Some(Provisional)
    case Provisional => Some(Finalized)
    case Disputed => Some(Aborted)
    case Finalized => None
    case Aborted => None
  }

  predicate Allowed(s: CeremonyState, target: CeremonyState)
  {
    Forward(s) == Some(target) || (s != Disputed && (target == Disputed || target == Aborted))
  }

  predicate Terminal(s: CeremonyState)
  {
    s == Finalized || s == Aborted
  }

  /** `transition`. */
  function TransitionTo(current: CeremonyState, target: CeremonyState, reasonCode: string, evidenceIds: seq<string>): Result<Transition>
  {
    if Terminal(current) then Failure(InvalidTransition)
    else if !Allowed(current, target) then Failure(InvalidTransition)
    else if target == Disputed && evidenceIds == [] then Failure(InvalidTransition)
    else if reasonCode == "" then Failure(InvalidTransition)
    else Success(Transition(current, target, reasonCode, evidenceIds))
  }

  function ReplayEvent(current: CeremonyState, e: Event): Result<CeremonyState>
  {
    if !e.knownSchema || e.oldState.None? || e.newState.None? then Failure(InvalidTransition)
    else if e.oldState.value != current then Failure(InvalidTransition)
    else
      match TransitionTo(current, e.newState.value, e.reasonCode, e.evidenceIds)
      case Failure(error) => Failure(error)
      case Success(t) => Success(t.newState)
  }

  /** The state that a history leads to. */
  function Replayed(initial: CeremonyState, events: seq<Event>): Result<CeremonyState>
  {
    if events == [] then Success(initial)
    else
      match Replayed(initial, events[..|events| - 1])
      case Failure(error) => Failure(error)
      case Success(current) => ReplayEvent(current, events[|events| - 1])
  }

  lemma {:induction false} ReplayFails(initial: CeremonyState, events: seq<Event>, n: nat)
    requires n <= |events| && Replayed(initial, events[..n]).Failure?
    ensures Replayed(initial, events) == Replayed(initial, events[..n])
    decreases |events|
  {
    if n == |events| {
      assert events[..n] == events;
    } else {
      var front := events[..|events| - 1];
      assert front[..n] == events[..n];
      ReplayFails(initial, front, n);
    }
  }

  /** `replay`. */
  method Replay(initial: CeremonyState, events: seq<Event>) returns (r: Result<CeremonyState>)
    ensures r == Replayed(initial, events)
  {
    var current := initial;
    for n := 0 to |events|
      invariant Replayed(initial, events[..n]) == Success(current)
    {
      assert events[..n + 1][..n] == events[..n];
      match ReplayEvent(current, events[n]) {
        case Failure(error) =>
          ReplayFails(initial, events, n + 1);
          return Failure(error);
        case Success(next) => current := next;
      }
    }
    assert events[..|events|] == events;
    return Success(current);
  }

  // ------------------------------------------------------- what histories are

  /** Replaying a concatenation is replaying the parts in turn. */
  lemma {:induction false} ReplayConcatenation(initial: CeremonyState, a: seq<Event>, b: seq<Event>)
    ensures Replayed(initial, a + b) ==
            match Replayed(initial, a) case Failure(e) => Failure(e) case Success(s) => Replayed(s, b)
    decreases |b|
  {
    if b == [] {
      assert a + b == a;
    } else {
      ReplayConcatenation(initial, a, b[..|b| - 1]);
      assert (a + b)[..|a + b| - 1] == a + b[..|b| - 1];
    }
  }

  /** How many events can still follow: every accepted event lowers it. */
  function Remaining(s: CeremonyState): nat
  {
    match s
    case Draft => 11
    case Deliberating => 10
    case SetupFrozen => 9
    case KeyCeremony => 8
    case Enrolling => 7
    case FinalFrozen => 6
    case Voting => 5
    case Sealed => 4
    case Tallying => 3
    case Provisional => 2
    case Disputed => 1
    case Finalized => 0
    case Aborted => 0
  }

  lemma {:induction false} HistoriesAreShort(initial: CeremonyState, events: seq<Event>)
    requires Replayed(initial, events).Success?
    ensures |events| + Remaining(Replayed(initial, events).value) <= Remaining(initial)
  {
    if events != [] {
      HistoriesAreShort(initial, events[..|events| - 1]);
    }
  }

  function Plain(from: CeremonyState, to: CeremonyState): Event
  {
    Event(true, Some(from), Some(to), "r", ["e"])
  }

  /** The states on the way from draft to finalized. */
  function MainLine(i: nat): CeremonyState
    requires i <= 10
  {
    match i
    case 0 => Draft
    case 1 => Deliberating
    case 2 => SetupFrozen
    case 3 => KeyCeremony
    case 4 => Enrolling
    case 5 => FinalFrozen
    case 6 => Voting
    case 7 => Sealed
    case 8 => Tallying
    case 9 => Provisional
    case 10 => Finalized
  }

  lemma MainLineStep(i: nat)
    requires i < 10
    ensures ReplayEvent(MainLine(i), Plain(MainLine(i), MainLine(i + 1))) == Success(MainLine(i + 1))
  {
  }

  lemma Extended(events: seq<Event>, s: CeremonyState, s': CeremonyState) returns (events': seq<Event>)
    requires Replayed(Draft, events) == Success(s) && ReplayEvent(s, Plain(s, s')) == Success(s')
    ensures |events'| == |events| + 1 && Replayed(Draft, events') == Success(s')
  {
    events' := events + [Plain(s, s')];
    assert events'[..|events|] == events;
  }

  lemma {:induction false} MainLineHistory(n: nat) returns (events: seq<Event>)
    requires n <= 10
    ensures |events| == n && Replayed(Draft, events) == Success(MainLine(n))
  {
    events := [];
    if n > 0 {
      var front := MainLineHistory(n - 1);
      MainLineStep(n - 1);
      events := Extended(front, MainLine(n - 1), MainLine(n));
    }
  }

  lemma LastSteps()
    ensures MainLine(9) == Provisional
    ensures ReplayEvent(Provisional, Plain(Provisional, Disputed)) == Success(Disputed)
    ensures ReplayEvent(Disputed, Plain(Disputed, Aborted)) == Success(Aborted)
  {
  }

  /** The bound is reached: disputed at the last moment, then aborted. */
  lemma LongestHistory() returns (events: seq<Event>)
    ensures |events| == 11 && Replayed(Draft, events) == Success(Aborted)
  {
    var main := MainLineHistory(9);
    LastSteps();
    var disputed := Extended(main, Provisional, Disputed);
    events := Extended(disputed, Disputed, Aborted);
  }

  /** A state between draft and finalized, finalized left out. */
  ghost predicate Underway(s: CeremonyState)
  {
    exists i: nat :: i < 10 && s == MainLine(i)
  }

  /** One forward step, or out of a state on the way into disputed or aborted, or from disputed to aborted. */
  ghost predicate LegalMove(s: CeremonyState, target: CeremonyState)
  {
    || (exists i: nat :: i < 10 && s == MainLine(i) && target == MainLine(i + 1))
    || (Underway(s) && (target == Disputed || target == Aborted))
    || (s == Disputed && target == Aborted)
  }

  lemma ForwardMeaning(s: CeremonyState, target: CeremonyState)
    ensures Forward(s) == Some(target) <==>
            (exists i: nat :: i < 10 && s == MainLine(i) && target == MainLine(i + 1)) || (s == Disputed && target == Aborted)
  {
    if Forward(s) == Some(target) && s != Disputed {
      var i := 11 - Remaining(s);
      assert s == MainLine(i) && target == MainLine(i + 1);
    }
  }

  lemma UnderwayMeaning(s: CeremonyState)
    ensures Underway(s) <==> !Terminal(s) && s != Disputed
  {
    if !Terminal(s) && s != Disputed {
      assert s == MainLine(11 - Remaining(s));
    }
  }

  /** The transitions that are made, over all pairs of states: the legal moves, with a reason, and with
      evidence where the target is disputed. */
  lemma TransitionMeaning(current: CeremonyState, target: CeremonyState, reasonCode: string, evidenceIds: seq<string>)
    ensures TransitionTo(current, target, reasonCode, evidenceIds) ==
            if LegalMove(current, target) && reasonCode != "" && (target == Disputed ==> evidenceIds != [])
            then Success(Transition(current, target, reasonCode, evidenceIds)) else Failure(InvalidTransition)
  {
    ForwardMeaning(current, target);
    UnderwayMeaning(current);
  }

  /** An event that records a transition that could be made. */
  ghost predicate GoodEvent(e: Event)
  {
    && e.knownSchema && e.oldState.Some? && e.newState.Some?
    && LegalMove(e.oldState.value, e.newState.value) && e.reasonCode != ""
    && (e.newState == Some(Disputed) ==> e.evidenceIds != [])
  }

  /** Good events, each starting where the one before ended. */
  ghost predicate Chain(initial: CeremonyState, events: seq<Event>, final: CeremonyState)
  {
    && AllGood(events) && AllLinked(events)
    && (if events == [] then final == initial
        else events[0].oldState == Some(initial) && events[|events| - 1].newState == Some(final))
  }

  predicate Linked(events: seq<Event>, i: nat)
    requires 0 < i < |events|
  {
    events[i].oldState == events[i - 1].newState
  }

  lemma EventMeaning(current: CeremonyState, e: Event, next: CeremonyState)
    ensures ReplayEvent(current, e) == Success(next) <==> GoodEvent(e) && e.oldState == Some(current) && e.newState == Some(next)
  {
    if e.newState.Some? {
      TransitionMeaning(current, e.newState.value, e.reasonCode, e.evidenceIds);
    }
  }

  ghost predicate AllGood(events: seq<Event>)
  {
    forall i | 0 <= i < |events| :: GoodEvent(events[i])
  }

  predicate AllLinked(events: seq<Event>)
  {
    forall i | 0 < i < |events| :: Linked(events, i)
  }

  lemma AllGoodStep(front: seq<Event>, last: Event)
    ensures AllGood(front + [last]) <==> AllGood(front) && GoodEvent(last)
  {
    var events := front + [last];
    assert events[|front|] == last;
    assert forall i | 0 <= i < |front| :: events[i] == front[i];
  }

  lemma AllLinkedStep(front: seq<Event>, last: Event)
    ensures AllLinked(front + [last]) <==> AllLinked(front) && (front != [] ==> last.oldState == front[|front| - 1].newState)
  {
    var events, n := front + [last], |front|;
    forall i | 0 < i < n ensures Linked(events, i) <==> Linked(front, i) {
    }
    assert n > 0 ==> (Linked(events, n) <==> last.oldState == front[n - 1].newState);
  }

  lemma ChainStep(initial: CeremonyState, front: seq<Event>, last: Event, final: CeremonyState)
    ensures Chain(initial, front + [last], final) <==>
            GoodEvent(last) && last.newState == Some(final) && Chain(initial, front, last.oldState.value)
  {
    AllGoodStep(front, last);
    AllLinkedStep(front, last);
    assert front != [] ==> (front + [last])[0] == front[0];
  }

  /** A history is replayed to a state exactly when it is a chain of good events to that state. */
  lemma {:induction false} ReplayMeaning(initial: CeremonyState, events: seq<Event>, final: CeremonyState)
    ensures Replayed(initial, events) == Success(final) <==> Chain(initial, events, final)
  {
    if events != [] {
      var front, last := events[..|events| - 1], events[|events| - 1];
      assert events == front + [last];
      ChainStep(initial, front, last, final);
      if Replayed(initial, front).Success? {
        ReplayMeaning(initial, front, Replayed(initial, front).value);
      }
      if last.oldState.Some? {
        ReplayMeaning(initial, front, last.oldState.value);
      }
      LastEvent(initial, front, last, final);
    }
  }

  lemma LastEvent(initial: CeremonyState, front: seq<Event>, last: Event, final: CeremonyState)
    ensures Replayed(initial, front + [last]) == Success(final) <==>
            GoodEvent(last) && last.newState == Some(final) && Replayed(initial, front) == Success(last.oldState.value)
  {
    assert (front + [last])[..|front|] == front;
    if Replayed(initial, front).Success? {
      EventMeaning(Replayed(initial, front).value, last, final);
    }
  }

  /** The place of a state on the way from draft to finalized. */
  function Position(s: CeremonyState): Option<nat>
  {
    if s == Disputed || s == Aborted then None
    else Some(if s == Finalized then 10 else 11 - Remaining(s))
  }

  lemma StepOnMainLine(s: CeremonyState, e: Event, s': CeremonyState)
    requires ReplayEvent(s, e) == Success(s') && Position(s').Some?
    ensures Position(s).Some? && Position(s').value == Position(s).value + 1 <= 10
    ensures e.oldState == Some(MainLine(Position(s).value)) && e.newState == Some(MainLine(Position(s').value))
  {
  }

  /** A history that is still on the way, or has arrived, went through every state before, in order. */
  lemma {:induction false} MainLineOnly(events: seq<Event>)
    requires Replayed(Draft, events).Success? && Position(Replayed(Draft, events).value).Some?
    ensures |events| == Position(Replayed(Draft, events).value).value
    ensures forall i | 0 <= i < |events| ::
              events[i].oldState == Some(MainLine(i)) && events[i].newState == Some(MainLine(i + 1))
  {
    if events != [] {
      var n := |events| - 1;
      MainLineOnly(events[..n]);
      StepOnMainLine(Replayed(Draft, events[..n]).value, events[n], Replayed(Draft, events).value);
      assert forall i | 0 <= i < n :: events[..n][i] == events[i];
    }
  }

  /** Every history that ends in finalized makes exactly the ten forward transitions, in order. */
  lemma FinalizedHistories(events: seq<Event>)
    requires Replayed(Draft, events) == Success(Finalized)
    ensures |events| == 10
    ensures forall i | 0 <= i < 10 ::
              events[i].oldState == Some(MainLine(i)) && events[i].newState == Some(MainLine(i + 1))
  {
    MainLineOnly(events);
  }

  /** A history that enters disputed carries evidence, and can only go on to aborted. */
  lemma DisputedHistories(events: seq<Event>, n: nat)
    requires n <= |events| && Replayed(Draft, events).Success?
    requires Replayed(Draft, events[..n]) == Success(Disputed)
    ensures n > 0 && events[n - 1].evidenceIds != []
    ensures |events| == n || (|events| == n + 1 && Replayed(Draft, events) == Success(Aborted))
  {
    var before, after := events[..n], events[n..];
    EnteringDisputed(before);
    assert before[n - 1] == events[n - 1];
    ReplayConcatenation(Draft, before, after);
    assert before + after == events;
    assert Replayed(Draft, events) == Replayed(Disputed, after);
    LeavingDisputed(after);
  }

  lemma EnteringDisputed(events: seq<Event>)
    requires Replayed(Draft, events) == Success(Disputed)
    ensures events != [] && events[|events| - 1].evidenceIds != []
  {
  }

  lemma LeavingDisputed(events: seq<Event>)
    requires Replayed(Disputed, events).Success?
    ensures events == [] || (|events| == 1 && Replayed(Disputed, events) == Success(Aborted))
  {
    HistoriesAreShort(Disputed, events);
    if events != [] {
      assert events[..0] == [];
    }
  }
}
