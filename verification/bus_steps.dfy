/** The in-memory ceremony bus: every call is cut at the points where it may be suspended, and each part
    between two such points is one step. */
module BusSteps {
  import opened Outcomes
  import opened Ordering
  import opened CanonicalJson
  import opened JsonObjects
  import opened Hashing
  import opened Manifests
  import Quorums
  import opened Base64Url
  import opened PublicArtifacts

  datatype RoleKind = Organizer | Registrar | Auditor | Guardian | Witness | Relay | Voter

  datatype Assignment = Assignment(
    assignmentId: string,
    ceremonyId: string,
    identitySignature: string,
    profileId: string,
    publicKey: string,
    roleId: string,
    roleKind: RoleKind,
    validUntil: string)

  datatype Rule = Rule(allowedRoles: set<RoleKind>, minimum: int)

  /** A rule that could be constructed: it allows some role and asks for at least one contribution. */
  type QuorumRule = r: Rule | r.minimum >= 1 && r.allowedRoles != {} witness Rule({Voter}, 1)

  datatype FaultPolicy = FaultPolicy(disconnectRoles: set<string>, dropEvery: nat, duplicateEvery: nat)

  datatype DirectMessage = DirectMessage(kind: string, sender: string, target: string, encryptedPayload: string)

  datatype RoleStatement = RoleStatement(
    ceremonyId: string, kind: string, payloadHash: string, profileId: string, roleId: string, schema: string)

  datatype Contribution = Contribution(payload: Json, signature: string, statement: RoleStatement)

  datatype AbortRecord = AbortRecord(ceremonyId: string, evidence: Json, reason: string)

  /** What never changes after construction. `current` says whether an assignment verifies at a time. */
  datatype Config = Config(
    c: Crypto,
    words: Vocabulary,
    ceremonyId: string,
    decisionId: Option<string>,
    authorized: map<string, Assignment>,
    rules: map<string, QuorumRule>,
    faults: FaultPolicy,
    current: (Assignment, int) -> bool)

  const MAX_NAME := 128
  const MAX_PAYLOAD := 1_048_576

  predicate GoodName(s: string)
  {
    s != "" && |s| <= MAX_NAME
  }

  function Eligible(cfg: Config, rule: QuorumRule): set<string>
  {
    set r | r in cfg.authorized && cfg.authorized[r].roleKind in rule.allowedRoles
  }

  predicate GoodIds(cfg: Config)
  {
    cfg.c.isDigest(cfg.ceremonyId) && (cfg.decisionId.Some? ==> cfg.c.isDigest(cfg.decisionId.value))
  }

  /** The role is authorized under its own id and for this ceremony. */
  predicate GoodRole(cfg: Config, r: string)
    requires r in cfg.authorized
  {
    cfg.authorized[r].roleId == r && cfg.authorized[r].ceremonyId == cfg.ceremonyId
  }

  /** As many authorized roles of the allowed kinds as the rule asks for. */
  ghost predicate Enough(cfg: Config, rule: QuorumRule, roles: set<string>)
  {
    && |roles| >= rule.minimum
    && forall r | r in roles :: r in cfg.authorized && cfg.authorized[r].roleKind in rule.allowedRoles
  }

  /** The quorum can be reached by the authorized roles. */
  ghost predicate GoodRule(cfg: Config, kind: string)
    requires kind in cfg.rules
  {
    1 <= |kind| <= 128 && exists roles :: Enough(cfg, cfg.rules[kind], roles)
  }

  lemma EligibleMeaning(cfg: Config, rule: QuorumRule)
    ensures |Eligible(cfg, rule)| >= rule.minimum <==> exists roles :: Enough(cfg, rule, roles)
  {
    if |Eligible(cfg, rule)| >= rule.minimum {
      assert Enough(cfg, rule, Eligible(cfg, rule));
    }
    if roles :| Enough(cfg, rule, roles) {
      Quorums.SubsetSize(roles, Eligible(cfg, rule));
    }
  }

  /** What the constructor leaves behind if it does not raise. */
  ghost predicate GoodConfig(cfg: Config)
  {
    && GoodIds(cfg)
    && (forall r | r in cfg.authorized :: GoodRole(cfg, r))
    && (forall k | k in cfg.rules :: GoodRule(cfg, k))
  }

  /** An entry of the public log: an artifact under its own id. */
  datatype Published = Published(id: string, artifact: Json)

  /** A call that is suspended between being counted and being committed. */
  datatype Delivery =
    | Broadcasting(item: Published)
    | Sending(message: DirectMessage)
    | Contributing(contribution: Contribution)

  datatype Bus = Bus(
    roles: map<string, Assignment>,
    log: seq<Published>,
    artifactIds: set<string>,
    direct: map<string, seq<DirectMessage>>,
    contributions: map<(string, string), Contribution>,
    aborted: Option<AbortRecord>,
    deliveries: nat,
    inFlight: map<nat, Delivery>)

  const NEW_BUS := Bus(map[], [], {}, map[], map[], None, 0, map[])

  // ------------------------------------------------------------------- roles

  /** `register_role`. */
  function RegisterStep(cfg: Config, s: Bus, a: Assignment, now: int): (Result<()>, Bus)
  {
    if !cfg.current(a, now) then (Failure(RoleAssignmentInvalid), s)
    else if a.ceremonyId != cfg.ceremonyId then (Failure(ContextMismatch), s)
    else if !(a.roleId in cfg.authorized && cfg.authorized[a.roleId] == a) then (Failure(RoleChannelViolation), s)
    else if s.aborted.Some? then (Failure(CeremonyAborted), s)
    else if a.roleId in s.roles && s.roles[a.roleId] != a then (Failure(ContributionConflict), s)
    else (Success(()), s.(roles := s.roles[a.roleId := a]))
  }

  // --------------------------------------------------------------- deliveries

  predicate Disconnected(f: FaultPolicy, role: Option<string>)
  {
    role.Some? && role.value in f.disconnectRoles
  }

  predicate Dropped(f: FaultPolicy, n: nat)
  {
    f.dropEvery != 0 && n % f.dropEvery == 0
  }

  predicate Duplicated(f: FaultPolicy, n: nat)
  {
    f.duplicateEvery != 0 && n % f.duplicateEvery == 0
  }

  /** How often the message of delivery `n` reaches its inbox. */
  function Copies(f: FaultPolicy, n: nat): nat
  {
    if Dropped(f, n) then 0 else if Duplicated(f, n) then 2 else 1
  }

  /** `_before_delivery` up to the delay: the call is counted and then suspended. */
  function Enter(f: FaultPolicy, s: Bus, sender: Option<string>, target: Option<string>, d: Delivery): (Result<nat>, Bus)
  {
    if s.aborted.Some? then (Failure(CeremonyAborted), s)
    else if Disconnected(f, sender) || Disconnected(f, target) then (Failure(BusDisconnected), s)
    else
      var n := s.deliveries + 1;
      (Success(n), s.(deliveries := n, inFlight := s.inFlight[n := d]))
  }

  predicate InContext(cfg: Config, v: Json)
  {
    && v.Obj?
    && PROFILE in v.fields && v.fields[PROFILE] == Str(PROFILE_ID)
    && if CEREMONY_ID in v.fields then v.fields[CEREMONY_ID] == Str(cfg.ceremonyId)
       else cfg.decisionId.Some? && DECISION_ID in v.fields && v.fields[DECISION_ID] == Str(cfg.decisionId.value)
  }

  /** The checks of `broadcast`; they depend on nothing that changes. */
  function CheckArtifact(cfg: Config, v: Json): Result<string>
  {
    match Verify(cfg.c, cfg.words, v)
    case Failure(e) => Failure(e)
    case Success(id) => if InContext(cfg, v) then Success(id) else Failure(ContextMismatch)
  }

  function BroadcastStep(cfg: Config, s: Bus, v: Json): (Result<nat>, Bus)
  {
    match CheckArtifact(cfg, v)
    case Failure(e) => (Failure(e), s)
    case Success(id) => Enter(cfg.faults, s, None, None, Broadcasting(Published(id, v)))
  }

  predicate IsBallotKind(kind: string)
  {
    kind == "ballot" || kind == "ballot_record" || kind == "ballot_bundle" || kind == "eligibility_proof"
  }

  /** A voter may not send ballot material over a channel that identifies the voter. */
  predicate Deanonymizes(role: Assignment, kind: string)
  {
    role.roleKind == Voter && IsBallotKind(kind)
  }

  function CheckMessage(s: Bus, m: DirectMessage): Result<()>
  {
    if m.sender !in s.roles || m.target !in s.roles then Failure(RoleChannelViolation)
    else if !GoodName(m.kind) then Failure(NonCanonical)
    else if Deanonymizes(s.roles[m.sender], m.kind) then Failure(RoleChannelViolation)
    else
      match Decode(m.encryptedPayload)
      case Failure(e) => Failure(e)
      case Success(raw) => if |raw| > MAX_PAYLOAD then Failure(NonCanonical) else Success(())
  }

  function SendStep(cfg: Config, s: Bus, m: DirectMessage): (Result<nat>, Bus)
  {
    match CheckMessage(s, m)
    case Failure(e) => (Failure(e), s)
    case Success(_) => Enter(cfg.faults, s, Some(m.sender), Some(m.target), Sending(m))
  }

  // ------------------------------------------------------------ contributions

  const STATEMENT_SCHEMA := "vsdp-role-contribution-statement/1"
  const PAYLOAD_TAG := "vsdp/role-contribution-payload/v1"
  const STATEMENT_KEYS := ["ceremony_id", "kind", "payload_hash", "profile_id", "role_id", "schema"]

  lemma StatementKeysAreDistinct()
    ensures Distinct(STATEMENT_KEYS)
  {
  }

  function RoleStatementJson(t: RoleStatement): Json
  {
    StatementKeysAreDistinct();
    Dict(STATEMENT_KEYS,
         [Str(t.ceremonyId), Str(t.kind), Str(t.payloadHash), Str(t.profileId), Str(t.roleId), Str(t.schema)])
  }

  /** `_validate_contribution`, on an envelope whose fields are all there and of the right types. */
  function ValidateContribution(cfg: Config, x: Contribution): Result<()>
  {
    var t := x.statement;
    if !x.payload.Obj? then Failure(NonCanonical)
    else if !GoodName(t.kind) || !GoodName(t.roleId) then Failure(NonCanonical)
    else if t.schema != STATEMENT_SCHEMA || t.ceremonyId != cfg.ceremonyId || t.profileId != PROFILE_ID then Failure(ContextMismatch)
    else if !Valid(x.payload) then Failure(NonCanonical)
    else if t.payloadHash != DomainHash(cfg.c, PAYLOAD_TAG, x.payload) then Failure(ContextMismatch)
    else Success(())
  }

  /** The role's own key signed the canonical text of the statement. A statement without such a text is
      reported as a bad signature, because the error for it is caught together with that one. */
  function CheckSignature(c: Crypto, x: Contribution, publicKey: string): Result<()>
  {
    match CanonicalText(RoleStatementJson(x.statement))
    case Failure(_) => Failure(RoleChannelViolation)
    case Success(text) => if c.verify(publicKey, x.signature, text) then Success(()) else Failure(RoleChannelViolation)
  }

  function CheckContribution(cfg: Config, s: Bus, x: Contribution): Result<()>
  {
    match ValidateContribution(cfg, x)
    case Failure(e) => Failure(e)
    case Success(_) =>
      if x.statement.roleId !in s.roles then Failure(RoleChannelViolation)
      else
        var role := s.roles[x.statement.roleId];
        if Deanonymizes(role, x.statement.kind) then Failure(RoleChannelViolation)
        else CheckSignature(cfg.c, x, role.publicKey)
  }

  function ContributeStep(cfg: Config, s: Bus, x: Contribution): (Result<nat>, Bus)
  {
    match CheckContribution(cfg, s, x)
    case Failure(e) => (Failure(e), s)
    case Success(_) => Enter(cfg.faults, s, Some(x.statement.roleId), None, Contributing(x))
  }

  // ------------------------------------------------------------------- commit

  function Inbox(s: Bus, role: string): seq<DirectMessage>
  {
    if role in s.direct then s.direct[role] else []
  }

  function Repeat(m: DirectMessage, n: nat): seq<DirectMessage>
  {
    seq(n, _ => m)
  }

  function Publish(s: Bus, item: Published): Bus
  {
    if item.id in s.artifactIds then s
    else s.(log := s.log + [item], artifactIds := s.artifactIds + {item.id})
  }

  function Put(s: Bus, m: DirectMessage, copies: nat): Bus
  {
    s.(direct := s.direct[m.target := Inbox(s, m.target) + Repeat(m, copies)])
  }

  function KeyOf(x: Contribution): (string, string)
  {
    (x.statement.kind, x.statement.roleId)
  }

  function Contribute(s: Bus, x: Contribution): (Result<bool>, Bus)
  {
    if KeyOf(x) in s.contributions && s.contributions[KeyOf(x)] != x then (Failure(ContributionConflict), s)
    else (Success(true), s.(contributions := s.contributions[KeyOf(x) := x]))
  }

  function Deliver(s: Bus, d: Delivery, copies: nat): (Result<bool>, Bus)
  {
    match d
    case Broadcasting(item) => (Success(true), Publish(s, item))
    case Sending(m) => (Success(true), Put(s, m, copies))
    case Contributing(x) => Contribute(s, x)
  }

  /** The rest of a suspended call, once its delay is over. */
  function CommitStep(f: FaultPolicy, s: Bus, n: nat): (Result<bool>, Bus)
    requires n in s.inFlight
  {
    var s' := s.(inFlight := s.inFlight - {n});
    if Dropped(f, n) then (Success(false), s')
    else if s.aborted.Some? then (Failure(CeremonyAborted), s')
    else
      Deliver(s', s.inFlight[n], Copies(f, n))
  }

  // ------------------------------------------------------- reading and aborting

  /** The roles whose contribution of a kind counts for its quorum. */
  function Counted(cfg: Config, s: Bus, kind: string): set<string>
    requires kind in cfg.rules
  {
    set k | k in s.contributions && k.0 == kind && k.1 in s.roles
            && s.roles[k.1].roleKind in cfg.rules[kind].allowedRoles :: k.1
  }

  lemma SortedRolesCount(cfg: Config, s: Bus, kind: string, i: nat)
    requires kind in cfg.rules && i < |Sorted(Counted(cfg, s, kind))|
    ensures Sorted(Counted(cfg, s, kind))[i] in Counted(cfg, s, kind)
  {
    assert Sorted(Counted(cfg, s, kind))[i] in Elements(Sorted(Counted(cfg, s, kind)));
  }

  function Selected(cfg: Config, s: Bus, kind: string): (xs: seq<Contribution>)
    requires kind in cfg.rules
    ensures |xs| == |Sorted(Counted(cfg, s, kind))|
  {
    var roles := Sorted(Counted(cfg, s, kind));
    seq(|roles|, i requires 0 <= i < |roles| => SortedRolesCount(cfg, s, kind, i); s.contributions[(kind, roles[i])])
  }

  lemma SelectedNext(cfg: Config, s: Bus, kind: string, i: nat)
    requires kind in cfg.rules && i < |Sorted(Counted(cfg, s, kind))|
    ensures var key := (kind, Sorted(Counted(cfg, s, kind))[i]);
            key in s.contributions && Selected(cfg, s, kind)[..i + 1] == Selected(cfg, s, kind)[..i] + [s.contributions[key]]
  {
    SortedRolesCount(cfg, s, kind, i);
    SelectedIs(cfg, s, kind, i);
    PrefixStep(Selected(cfg, s, kind), i);
  }

  lemma SelectedIs(cfg: Config, s: Bus, kind: string, i: nat)
    requires kind in cfg.rules && i < |Sorted(Counted(cfg, s, kind))|
    ensures var key := (kind, Sorted(Counted(cfg, s, kind))[i]);
            key in s.contributions && Selected(cfg, s, kind)[i] == s.contributions[key]
  {
    SortedRolesCount(cfg, s, kind, i);
  }

  /** One look of `collect_quorum` at the bus; None means that it keeps waiting. */
  function CollectPoll(cfg: Config, s: Bus, kind: string, expired: bool): Option<Result<seq<Contribution>>>
  {
    if kind !in cfg.rules then Some(Failure(RoleChannelViolation))
    else if s.aborted.Some? then Some(Failure(CeremonyAborted))
    else if |Counted(cfg, s, kind)| >= cfg.rules[kind].minimum then Some(Success(Selected(cfg, s, kind)))
    else if expired then Some(Failure(QuorumTimeout))
    else None
  }

  /** One look of `subscribe_public_artifacts` at the bus; None means that it keeps waiting. */
  function SubscribePoll(s: Bus, cursor: int, expired: bool): Option<Result<(seq<Published>, int)>>
  {
    if cursor < 0 then Some(Failure(NonCanonical))
    else if cursor < |s.log| then Some(Success((s.log[cursor..], |s.log|)))
    else if s.aborted.Some? then Some(Failure(CeremonyAborted))
    else if expired then Some(Success(([], cursor)))
    else None
  }

  /** `receive_direct`. */
  function ReceiveStep(s: Bus, role: string): (Result<seq<DirectMessage>>, Bus)
  {
    if role !in s.roles then (Failure(RoleChannelViolation), s)
    else if s.aborted.Some? then (Failure(CeremonyAborted), s)
    else (Success(Inbox(s, role)), s.(direct := s.direct[role := []]))
  }

  /** `abort`. */
  function AbortStep(cfg: Config, s: Bus, reason: string, evidence: Json): (Result<AbortRecord>, Bus)
  {
    if reason == "" || !Valid(evidence) then (Failure(NonCanonical), s)
    else if s.aborted.Some? then (Success(s.aborted.value), s)
    else
      var record := AbortRecord(cfg.ceremonyId, evidence, reason);
      (Success(record), s.(aborted := Some(record)))
  }
}
