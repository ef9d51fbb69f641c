/** The in-memory ceremony bus as an object that its calls update. */
module CeremonyBuses {
  import opened Outcomes
  import opened Ordering
  import opened CanonicalJson
  import opened BusSteps
  import opened BusSafety
  import opened BusRuns

  /** The configuration has a fault of the kind that an error reports. */
  ghost predicate ConfigFault(cfg: Config, now: int, e: Error)
  {
    match e
    case NonCanonical => !GoodIds(cfg) || exists k :: k in cfg.rules && !GoodName(k)
    case RoleAssignmentInvalid => exists r :: r in cfg.authorized && !cfg.current(cfg.authorized[r], now)
    case ContextMismatch => exists r :: r in cfg.authorized && cfg.authorized[r].ceremonyId != cfg.ceremonyId
    case RoleChannelViolation =>
      || (exists r :: r in cfg.authorized && cfg.authorized[r].roleId != r)
      || (exists k :: k in cfg.rules && !GoodRule(cfg, k))
    case _ => false
  }

  class CeremonyBus {
    const cfg: Config
    var roles: map<string, Assignment>
    var log: seq<Published>
    var artifactIds: set<string>
    var direct: map<string, seq<DirectMessage>>
    var contributions: map<(string, string), Contribution>
    var aborted: Option<AbortRecord>
    var deliveries: nat
    var inFlight: map<nat, Delivery>

    function State(): Bus
      reads this
    {
      Bus(roles, log, artifactIds, direct, contributions, aborted, deliveries, inFlight)
    }

    ghost predicate Valid()
      reads this
    {
      GoodConfig(cfg) && BusInv(cfg, State())
    }

    constructor (cfg: Config)
      requires GoodConfig(cfg)
      ensures Valid() && this.cfg == cfg && State() == NEW_BUS
    {
      this.cfg := cfg;
      roles, log, artifactIds, direct, contributions := map[], [], {}, map[], map[];
      aborted, deliveries, inFlight := None, 0, map[];
      new;
      NewBusIsGood(cfg);
    }

    /** The loop of `__init__` over the authorized roles. */
    static method CheckRoles(cfg: Config, now: int) returns (fault: Option<Error>)
      ensures fault == None <==>
                forall x | x in cfg.authorized :: GoodRole(cfg, x) && cfg.current(cfg.authorized[x], now)
      ensures fault.Some? ==> ConfigFault(cfg, now, fault.value)
    {
      var rolesLeft := cfg.authorized.Keys;
      while rolesLeft != {}
        invariant rolesLeft <= cfg.authorized.Keys
        invariant forall x | x in cfg.authorized && x !in rolesLeft :: GoodRole(cfg, x) && cfg.current(cfg.authorized[x], now)
        decreases |rolesLeft|
      {
        var role :| role in rolesLeft;
        var a := cfg.authorized[role];
        if a.roleId != role {
          return Some(RoleChannelViolation);
        }
        if !cfg.current(a, now) {
          return Some(RoleAssignmentInvalid);
        }
        if a.ceremonyId != cfg.ceremonyId {
          return Some(ContextMismatch);
        }
        rolesLeft := rolesLeft - {role};
      }
      return None;
    }

    /** The loop of `__init__` over the quorum rules. */
    static method CheckRules(cfg: Config) returns (fault: Option<Error>)
      ensures fault == None <==> forall k | k in cfg.rules :: GoodRule(cfg, k)
      ensures fault.Some? ==> forall now :: ConfigFault(cfg, now, fault.value)
    {
      var rulesLeft := cfg.rules.Keys;
      while rulesLeft != {}
        invariant rulesLeft <= cfg.rules.Keys
        invariant forall k | k in cfg.rules && k !in rulesLeft :: GoodRule(cfg, k)
        decreases |rulesLeft|
      {
        var kind :| kind in rulesLeft;
        EligibleMeaning(cfg, cfg.rules[kind]);
        if kind == "" || |kind| > MAX_NAME {
          assert !GoodName(kind);
          return Some(NonCanonical);
        }
        if |Eligible(cfg, cfg.rules[kind])| < cfg.rules[kind].minimum {
          assert !GoodRule(cfg, kind);
          return Some(RoleChannelViolation);
        }
        rulesLeft := rulesLeft - {kind};
      }
      return None;
    }

    /** `__init__` with its checks; `now` is the time at which the assignments are verified. */
    static method Open(cfg: Config, now: int) returns (r: Result<CeremonyBus>)
      ensures r.Success? <==> GoodConfig(cfg) && forall role | role in cfg.authorized :: cfg.current(cfg.authorized[role], now)
      ensures r.Success? ==> fresh(r.value) && r.value.Valid() && r.value.cfg == cfg && r.value.State() == NEW_BUS
      ensures r.Failure? ==> ConfigFault(cfg, now, r.error)
    {
      if !cfg.c.isDigest(cfg.ceremonyId) || (cfg.decisionId.Some? && !cfg.c.isDigest(cfg.decisionId.value)) {
        return Failure(NonCanonical);
      }
      var roleFault := CheckRoles(cfg, now);
      if roleFault.Some? {
        return Failure(roleFault.value);
      }
      var ruleFault := CheckRules(cfg);
      if ruleFault.Some? {
        return Failure(ruleFault.value);
      }
      var bus := new CeremonyBus(cfg);
      return Success(bus);
    }

    method RegisterRole(a: Assignment, now: int) returns (r: Result<()>)
      requires Valid()
      modifies this`roles
      ensures Valid()
      ensures (r, State()) == RegisterStep(cfg, old(State()), a, now)
    {
      RegisterKeeps(cfg, State(), a, now);
      if !cfg.current(a, now) {
        return Failure(RoleAssignmentInvalid);
      }
      if a.ceremonyId != cfg.ceremonyId {
        return Failure(ContextMismatch);
      }
      if a.roleId !in cfg.authorized || cfg.authorized[a.roleId] != a {
        return Failure(RoleChannelViolation);
      }
      if aborted.Some? {
        return Failure(CeremonyAborted);
      }
      if a.roleId in roles && roles[a.roleId] != a {
        return Failure(ContributionConflict);
      }
      roles := roles[a.roleId := a];
      return Success(());
    }

    /** No named end of the delivery is disconnected. */
    predicate Reachable(role: Option<string>)
    {
      role == None || role.value !in cfg.faults.disconnectRoles
    }

    /** The part of every delivery before its delay. */
    method BeforeDelivery(sender: Option<string>, target: Option<string>, d: Delivery) returns (r: Result<nat>)
      modifies this`deliveries, this`inFlight
      ensures (r, State()) == Enter(cfg.faults, old(State()), sender, target, d)
      ensures r.Success? <==> aborted.None? && Reachable(sender) && Reachable(target)
    {
      if aborted.Some? {
        return Failure(CeremonyAborted);
      }
      if Disconnected(cfg.faults, sender) || Disconnected(cfg.faults, target) {
        return Failure(BusDisconnected);
      }
      deliveries := deliveries + 1;
      inFlight := inFlight[deliveries := d];
      return Success(deliveries);
    }

    method Broadcast(v: Json) returns (r: Result<nat>)
      requires Valid()
      modifies this`deliveries, this`inFlight
      ensures Valid()
      ensures (r, State()) == BroadcastStep(cfg, old(State()), v)
      ensures r.Success? <==> aborted.None? && exists id :: OnTopic(cfg, v, id)
    {
      forall id ensures CheckArtifact(cfg, v) == Success(id) <==> OnTopic(cfg, v, id) {
        ArtifactMeaning(cfg, v, id);
      }
      BroadcastKeeps(cfg, State(), v);
      match CheckArtifact(cfg, v) {
        case Failure(e) => return Failure(e);
        case Success(id) => r := BeforeDelivery(None, None, Broadcasting(Published(id, v)));
      }
    }

    method SendToRole(m: DirectMessage) returns (r: Result<nat>)
      requires Valid()
      modifies this`deliveries, this`inFlight
      ensures Valid()
      ensures (r, State()) == SendStep(cfg, old(State()), m)
      ensures r.Success? <==>
                MessageFits(old(State()), m) && aborted.None? && Reachable(Some(m.sender)) && Reachable(Some(m.target))
    {
      MessageMeaning(State(), m);
      SendKeeps(cfg, State(), m);
      match CheckMessage(State(), m) {
        case Failure(e) => return Failure(e);
        case Success(_) => r := BeforeDelivery(Some(m.sender), Some(m.target), Sending(m));
      }
    }

    method SubmitContribution(x: Contribution) returns (r: Result<nat>)
      requires Valid()
      modifies this`deliveries, this`inFlight
      ensures Valid()
      ensures (r, State()) == ContributeStep(cfg, old(State()), x)
      ensures r.Success? <==> Authentic(cfg, old(State()), x) && aborted.None? && Reachable(Some(x.statement.roleId))
    {
      ContributionMeaning(cfg, State(), x);
      ContributeStepKeeps(cfg, State(), x);
      match CheckContribution(cfg, State(), x) {
        case Failure(e) => return Failure(e);
        case Success(_) => r := BeforeDelivery(Some(x.statement.roleId), None, Contributing(x));
      }
    }

    /** The part of every delivery after its delay. */
    method Commit(n: nat) returns (r: Result<bool>)
      requires Valid() && n in inFlight
      modifies this`log, this`artifactIds, this`direct, this`contributions, this`inFlight
      ensures Valid()
      ensures (r, State()) == CommitStep(cfg.faults, old(State()), n)
      ensures r == Success(false) <==> IsMultiple(n, cfg.faults.dropEvery)
      ensures r == Success(true) && old(inFlight[n].Sending?) ==>
                var m := old(inFlight[n]).message;
                Inbox(State(), m.target) ==
                Inbox(old(State()), m.target) + (if IsMultiple(n, cfg.faults.duplicateEvery) then [m, m] else [m])
    {
      FaultMeaning(cfg.faults, n);
      CommitKeeps(cfg, State(), n);
      var d := inFlight[n];
      inFlight := inFlight - {n};
      if Dropped(cfg.faults, n) {
        return Success(false);
      }
      if aborted.Some? {
        return Failure(CeremonyAborted);
      }
      match d {
        case Broadcasting(item) =>
          if item.id !in artifactIds {
            artifactIds := artifactIds + {item.id};
            log := log + [item];
          }
          return Success(true);
        case Sending(m) =>
          var inbox := if m.target in direct then direct[m.target] else [];
          inbox := inbox + [m];
          if Duplicated(cfg.faults, n) {
            inbox := inbox + [m];
          }
          assert inbox == Inbox(State(), m.target) + Repeat(m, Copies(cfg.faults, n));
          direct := direct[m.target := inbox];
          return Success(true);
        case Contributing(x) =>
          if KeyOf(x) in contributions && contributions[KeyOf(x)] != x {
            return Failure(ContributionConflict);
          }
          contributions := contributions[KeyOf(x) := x];
          return Success(true);
      }
    }

    /** The comprehension of `collect_quorum`: the roles whose contribution of the kind counts. */
    method CountedRoles(kind: string) returns (counted: set<string>)
      requires Valid() && kind in cfg.rules
      ensures counted == Counted(cfg, State(), kind)
    {
      counted := {};
      var left := contributions.Keys;
      while left != {}
        invariant left <= contributions.Keys
        invariant forall x :: x in counted <==> (kind, x) in contributions && (kind, x) !in left && x in Counted(cfg, State(), kind)
        decreases |left|
      {
        var key :| key in left;
        assert OkAt(cfg, State(), ContributionAt(key));
        if key.0 == kind && roles[key.1].roleKind in cfg.rules[kind].allowedRoles {
          counted := counted + {key.1};
        }
        left := left - {key};
      }
    }

    /** The contributions of the counted roles, sorted by role id. */
    method InRoleOrder(kind: string, counted: set<string>) returns (xs: seq<Contribution>)
      requires kind in cfg.rules && counted == Counted(cfg, State(), kind)
      ensures xs == Selected(cfg, State(), kind)
    {
      var ordered := Sorted(counted);
      ghost var selected := Selected(cfg, State(), kind);
      xs := [];
      for i := 0 to |ordered|
        invariant xs == selected[..i]
      {
        SelectedNext(cfg, State(), kind, i);
        xs := xs + [contributions[(kind, ordered[i])]];
      }
      assert selected[..|ordered|] == selected;
    }

    /** One look of `collect_quorum` at the bus; None means that it keeps waiting. */
    method CollectQuorum(kind: string, expired: bool) returns (r: Option<Result<seq<Contribution>>>)
      requires Valid()
      ensures r == CollectPoll(cfg, State(), kind, expired)
      ensures r == Some(Failure(RoleChannelViolation)) <==> kind !in cfg.rules
      ensures r == Some(Failure(CeremonyAborted)) <==> kind in cfg.rules && aborted.Some?
      ensures kind in cfg.rules && r.Some? && r.value.Success? ==>
                && QuorumAnswer(cfg, State(), kind, r.value.value)
                && forall role | role in Counted(cfg, State(), kind) :: contributions[(kind, role)] in r.value.value
      ensures r == None <==>
                kind in cfg.rules && aborted.None? && !expired && |Counted(cfg, State(), kind)| < cfg.rules[kind].minimum
    {
      if kind !in cfg.rules {
        return Some(Failure(RoleChannelViolation));
      }
      if aborted.Some? {
        return Some(Failure(CeremonyAborted));
      }
      var counted := CountedRoles(kind);
      if |counted| >= cfg.rules[kind].minimum {
        var xs := InRoleOrder(kind, counted);
        BusRuns.CollectMeaning(cfg, State(), kind, expired);
        forall role | role in counted ensures contributions[(kind, role)] in xs {
          SelectedIsComplete(cfg, State(), kind, role);
        }
        return Some(Success(xs));
      }
      return if expired then Some(Failure(QuorumTimeout)) else None;
    }

    /** One look of `subscribe_public_artifacts` at the log; None means that it keeps waiting. */
    method SubscribePublicArtifacts(cursor: int, expired: bool) returns (r: Option<Result<(seq<Published>, int)>>)
      requires Valid()
      ensures r == SubscribePoll(State(), cursor, expired)
      ensures 0 <= cursor <= |log| && r.Some? && r.value.Success? ==>
                var (values, next) := r.value.value; log[..cursor] + values == log && next == |log|
      ensures r == Some(Failure(NonCanonical)) <==> cursor < 0
      ensures r == Some(Failure(CeremonyAborted)) <==> cursor >= |log| && aborted.Some?
      ensures r == None <==> cursor >= |log| && aborted.None? && !expired
    {
      if cursor < 0 {
        return Some(Failure(NonCanonical));
      }
      if cursor >= |log| {
        if aborted.Some? {
          return Some(Failure(CeremonyAborted));
        }
        return if expired then Some(Success(([], cursor))) else None;
      }
      return Some(Success((log[cursor..], |log|)));
    }

    method ReceiveDirect(role: string) returns (r: Result<seq<DirectMessage>>)
      requires Valid()
      modifies this`direct
      ensures Valid()
      ensures (r, State()) == ReceiveStep(old(State()), role)
    {
      ReceiveKeeps(cfg, State(), role);
      if role !in roles {
        return Failure(RoleChannelViolation);
      }
      if aborted.Some? {
        return Failure(CeremonyAborted);
      }
      var values := if role in direct then direct[role] else [];
      direct := direct[role := []];
      return Success(values);
    }

    method Abort(reason: string, evidence: Json) returns (r: Result<AbortRecord>)
      requires Valid()
      modifies this`aborted
      ensures Valid()
      ensures (r, State()) == AbortStep(cfg, old(State()), reason, evidence)
    {
      AbortKeeps(cfg, State(), reason, evidence);
      if reason == "" || !CanonicalJson.Valid(evidence) {
        return Failure(NonCanonical);
      }
      if aborted.None? {
        aborted := Some(AbortRecord(cfg.ceremonyId, evidence, reason));
      }
      return Success(aborted.value);
    }
  }
}
