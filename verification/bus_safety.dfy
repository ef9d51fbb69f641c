/** What every step of the bus keeps, and what an abort freezes. */
module BusSafety {
  import opened Outcomes
  import opened CanonicalJson
  import opened CanonicalLaws
  import opened JsonObjects
  import opened Hashing
  import opened Manifests
  import opened Base64Url
  import opened PublicArtifacts
  import opened BusSteps

  /** A place where the bus keeps something. */
  datatype Place =
    | RoleAt(role: string)
    | LogAt(index: nat)
    | KnownId(id: string)
    | ContributionAt(key: (string, string))
    | InFlightAt(n: nat)

  // --------------------------------------------------------- what is let through

  /** Voters send no ballot material over channels that name them. */
  predicate MaySend(role: Assignment, kind: string)
  {
    role.roleKind == Voter ==> kind !in {"ballot", "ballot_record", "ballot_bundle", "eligibility_proof"}
  }

  predicate IsName(s: string)
  {
    1 <= |s| <= 128
  }

  /** The statement is of this ceremony, about this payload, under proper names. */
  predicate StatesPayload(cfg: Config, t: RoleStatement, payload: Json)
  {
    && t.schema == "vsdp-role-contribution-statement/1" && t.ceremonyId == cfg.ceremonyId && t.profileId == PROFILE_ID
    && IsName(t.kind) && IsName(t.roleId)
    && payload.Obj? && Valid(payload) && t.payloadHash == DomainHash(cfg.c, PAYLOAD_TAG, payload)
  }

  /** The key signed the canonical text of the statement. */
  predicate SignedStatement(c: Crypto, publicKey: string, signature: string, t: RoleStatement)
  {
    Valid(RoleStatementJson(t)) && c.verify(publicKey, signature, Dumps(RoleStatementJson(t)))
  }

  /** A registered role that may send this kind signed the statement about the payload. */
  predicate Authentic(cfg: Config, s: Bus, x: Contribution)
  {
    && x.statement.roleId in s.roles
    && StatesPayload(cfg, x.statement, x.payload)
    && SignedStatement(cfg.c, s.roles[x.statement.roleId].publicKey, x.signature, x.statement)
    && MaySend(s.roles[x.statement.roleId], x.statement.kind)
  }

  lemma ValidateMeaning(cfg: Config, x: Contribution)
    ensures ValidateContribution(cfg, x).Success? <==> StatesPayload(cfg, x.statement, x.payload)
  {
  }

  /** The contributions that pass the checks are the authentic ones. */
  lemma ContributionMeaning(cfg: Config, s: Bus, x: Contribution)
    ensures CheckContribution(cfg, s, x).Success? <==> Authentic(cfg, s, x)
    ensures StatesPayload(cfg, x.statement, x.payload) && !Authentic(cfg, s, x) ==>
              CheckContribution(cfg, s, x) == Failure(RoleChannelViolation)
  {
    ValidateMeaning(cfg, x);
  }

  predicate RightContext(cfg: Config, t: RoleStatement)
  {
    t.schema == "vsdp-role-contribution-statement/1" && t.ceremonyId == cfg.ceremonyId && t.profileId == PROFILE_ID
  }

  /** The error for a contribution that does not state its payload: the first of names, context, payload and
      hash that is wrong. */
  lemma ContributionErrors(cfg: Config, s: Bus, x: Contribution)
    requires !StatesPayload(cfg, x.statement, x.payload)
    ensures CheckContribution(cfg, s, x) ==
            Failure(if !x.payload.Obj? || !IsName(x.statement.kind) || !IsName(x.statement.roleId) then NonCanonical
                    else if !RightContext(cfg, x.statement) then ContextMismatch
                    else if !Valid(x.payload) then NonCanonical
                    else ContextMismatch)
  {
  }

  /** The signed text is that of one statement only. */
  lemma StatementTextIsInjective(t: RoleStatement, t': RoleStatement)
    requires Valid(RoleStatementJson(t)) && Valid(RoleStatementJson(t'))
    requires Dumps(RoleStatementJson(t)) == Dumps(RoleStatementJson(t'))
    ensures t == t'
  {
    StatementKeysAreDistinct();
    PrintIsInjective(RoleStatementJson(t), RoleStatementJson(t'));
    var v := [Str(t.ceremonyId), Str(t.kind), Str(t.payloadHash), Str(t.profileId), Str(t.roleId), Str(t.schema)];
    var w := [Str(t'.ceremonyId), Str(t'.kind), Str(t'.payloadHash), Str(t'.profileId), Str(t'.roleId), Str(t'.schema)];
    DictIsInjective(STATEMENT_KEYS, v, w);
    assert v[0] == w[0] && v[1] == w[1] && v[2] == w[2] && v[3] == w[3] && v[4] == w[4] && v[5] == w[5];
  }

  /** Between registered roles, of a kind that the sender may send, with a proper and not too long payload. */
  ghost predicate MessageFits(s: Bus, m: DirectMessage)
  {
    && m.sender in s.roles && m.target in s.roles
    && IsName(m.kind) && MaySend(s.roles[m.sender], m.kind)
    && exists raw :: PayloadIs(m, raw)
  }

  predicate PayloadIs(m: DirectMessage, raw: seq<Byte>)
  {
    m.encryptedPayload == Encode(raw) && 1 <= |raw| <= 1_048_576
  }

  lemma MessageMeaning(s: Bus, m: DirectMessage)
    ensures CheckMessage(s, m).Success? <==> MessageFits(s, m)
  {
    var decoded := Decode(m.encryptedPayload);
    if decoded.Success? {
      DecodeMeaning(m.encryptedPayload, None, decoded.value);
      assert |decoded.value| <= MAX_PAYLOAD ==> PayloadIs(m, decoded.value);
    }
    if MessageFits(s, m) {
      var raw :| PayloadIs(m, raw);
      DecodeMeaning(m.encryptedPayload, None, raw);
    }
  }

  /** The error for a message that does not fit: unknown roles, a bad name, a kind that may not be sent, a bad
      payload, in this order. */
  lemma MessageErrors(s: Bus, m: DirectMessage)
    requires !MessageFits(s, m)
    ensures CheckMessage(s, m) ==
            Failure(if m.sender !in s.roles || m.target !in s.roles then RoleChannelViolation
                    else if !IsName(m.kind) then NonCanonical
                    else if !MaySend(s.roles[m.sender], m.kind) then RoleChannelViolation
                    else NonCanonical)
  {
    MessageMeaning(s, m);
  }

  /** The number is a multiple of an interval; an interval of zero has none. */
  ghost predicate IsMultiple(n: nat, interval: nat)
  {
    interval != 0 && exists k: nat :: n == k * interval
  }

  lemma MultipleMeaning(n: nat, interval: nat)
    ensures IsMultiple(n, interval) <==> interval != 0 && n % interval == 0
  {
    if interval != 0 {
      if n % interval == 0 {
        assert n == (n / interval) * interval;
      }
      if k: nat :| n == k * interval {
        MultipleRemainder(k, interval);
      }
    }
  }

  lemma TimesGrows(a: int, d: int)
    requires a >= 1 && d > 0
    ensures a * d >= d
  {
  }

  lemma MultipleRemainder(k: nat, interval: nat)
    requires interval != 0
    ensures k * interval % interval == 0
  {
    var q, r := k * interval / interval, k * interval % interval;
    assert (k - q) * interval == r;
    if k > q {
      TimesGrows(k - q, interval);
    } else if k < q {
      TimesGrows(q - k, interval);
    }
  }

  /** Every `dropEvery`-th delivery is lost, and of the others every `duplicateEvery`-th message comes twice. */
  lemma FaultMeaning(f: FaultPolicy, n: nat)
    ensures Dropped(f, n) <==> IsMultiple(n, f.dropEvery)
    ensures Copies(f, n) == if IsMultiple(n, f.dropEvery) then 0 else if IsMultiple(n, f.duplicateEvery) then 2 else 1
  {
    MultipleMeaning(n, f.dropEvery);
    MultipleMeaning(n, f.duplicateEvery);
  }

  /** An artifact of this ceremony or of its decision. */
  ghost predicate OnTopic(cfg: Config, v: Json, id: string)
  {
    || (IsArtifact(cfg.c, cfg.words, v, id, "ceremony_id") && v.fields["ceremony_id"] == Str(cfg.ceremonyId))
    || (IsArtifact(cfg.c, cfg.words, v, id, "decision_id")
        && cfg.decisionId.Some? && v.fields["decision_id"] == Str(cfg.decisionId.value))
  }

  lemma ArtifactMeaning(cfg: Config, v: Json, id: string)
    ensures CheckArtifact(cfg, v) == Success(id) <==> OnTopic(cfg, v, id)
  {
    VerifyMeaning(cfg.c, cfg.words, v, id);
    FieldNamesDiffer();
    assert PROFILE == "profile_id" && CEREMONY_ID == "ceremony_id" && DECISION_ID == "decision_id";
  }

  /** An artifact of something else is told apart from what is no artifact. */
  lemma ArtifactErrors(cfg: Config, v: Json, id: string)
    ensures Verify(cfg.c, cfg.words, v) == Success(id) && !OnTopic(cfg, v, id) ==> CheckArtifact(cfg, v) == Failure(ContextMismatch)
    ensures Verify(cfg.c, cfg.words, v).Failure? ==> CheckArtifact(cfg, v) == Failure(Verify(cfg.c, cfg.words, v).error)
  {
    ArtifactMeaning(cfg, v, id);
  }

  // ------------------------------------------------------------ the invariant

  ghost predicate DeliveryOk(cfg: Config, s: Bus, d: Delivery)
  {
    match d
    case Broadcasting(item) => OnTopic(cfg, item.artifact, item.id)
    case Sending(m) => MessageFits(s, m)
    case Contributing(x) => Authentic(cfg, s, x)
  }

  ghost predicate FirstOfItsId(s: Bus, i: nat)
    requires i < |s.log|
  {
    forall j | 0 <= j < i :: s.log[j].id != s.log[i].id
  }

  ghost predicate OkAt(cfg: Config, s: Bus, x: Place)
  {
    match x
    case RoleAt(r) => r in s.roles ==> r in cfg.authorized && s.roles[r] == cfg.authorized[r]
    case LogAt(i) => i < |s.log| ==>
        && OnTopic(cfg, s.log[i].artifact, s.log[i].id)
        && s.log[i].id in s.artifactIds && FirstOfItsId(s, i)
    case KnownId(id) => id in s.artifactIds ==> exists i :: 0 <= i < |s.log| && s.log[i].id == id
    case ContributionAt(k) => k in s.contributions ==> KeyOf(s.contributions[k]) == k && Authentic(cfg, s, s.contributions[k])
    case InFlightAt(n) => n in s.inFlight ==> 1 <= n <= s.deliveries && DeliveryOk(cfg, s, s.inFlight[n])
  }

  /** The bus invariant. */
  ghost predicate BusInv(cfg: Config, s: Bus)
  {
    forall x: Place :: OkAt(cfg, s, x)
  }

  ghost predicate SameAt(s: Bus, s': Bus, x: Place)
  {
    match x
    case RoleAt(r) => r in s.roles ==> r in s'.roles && s'.roles[r] == s.roles[r]
    case LogAt(i) => i < |s.log| ==> i < |s'.log| && s'.log[i] == s.log[i]
    case KnownId(id) => id in s.artifactIds ==> id in s'.artifactIds
    case ContributionAt(k) => k in s.contributions ==> k in s'.contributions && s'.contributions[k] == s.contributions[k]
    case InFlightAt(n) => n in s'.inFlight && n <= s.deliveries ==> n in s.inFlight && s'.inFlight[n] == s.inFlight[n]
  }

  /** Nothing that was registered, published, contributed or recorded as the abort is lost or changed. */
  ghost predicate Grows(s: Bus, s': Bus)
  {
    && (forall x: Place :: SameAt(s, s', x))
    && (s.aborted.Some? ==> s'.aborted == s.aborted)
    && s.deliveries <= s'.deliveries
  }

  /** Everything but the calls still in flight is the same. */
  predicate Frozen(s: Bus, s': Bus)
  {
    && s'.roles == s.roles && s'.log == s.log && s'.artifactIds == s.artifactIds
    && s'.direct == s.direct && s'.contributions == s.contributions
    && s'.aborted == s.aborted && s'.deliveries == s.deliveries
    && s'.inFlight.Keys <= s.inFlight.Keys
  }

  /** What one step leaves behind. */
  ghost predicate Keeps(cfg: Config, s: Bus, s': Bus)
  {
    && BusInv(cfg, s') && Grows(s, s')
    && (s.aborted.Some? ==> Frozen(s, s'))
  }

  lemma GrowsIsReflexive(s: Bus)
    ensures Grows(s, s)
  {
    forall x: Place ensures SameAt(s, s, x) {
    }
  }

  lemma GrowsIsTransitive(s: Bus, t: Bus, u: Bus)
    requires Grows(s, t) && Grows(t, u)
    ensures Grows(s, u)
  {
    forall x: Place ensures SameAt(s, u, x) {
      assert SameAt(s, t, x) && SameAt(t, u, x);
    }
  }

  lemma NewBusIsGood(cfg: Config)
    ensures BusInv(cfg, NEW_BUS)
  {
    forall x: Place ensures OkAt(cfg, NEW_BUS, x) {
    }
  }

  /** A registered role keeps its assignment, so what was authentic stays authentic. */
  lemma AuthenticPersists(cfg: Config, s: Bus, s': Bus, x: Contribution)
    requires Authentic(cfg, s, x)
    requires x.statement.roleId in s.roles ==>
               x.statement.roleId in s'.roles && s'.roles[x.statement.roleId] == s.roles[x.statement.roleId]
    ensures Authentic(cfg, s', x)
  {
  }

  lemma DeliveryPersists(cfg: Config, s: Bus, s': Bus, d: Delivery)
    requires DeliveryOk(cfg, s, d)
    requires forall r | r in s.roles :: r in s'.roles && s'.roles[r] == s.roles[r]
    ensures DeliveryOk(cfg, s', d)
  {
    match d
    case Contributing(x) => AuthenticPersists(cfg, s, s', x);
    case _ =>
  }

  lemma UnchangedIsKept(cfg: Config, s: Bus)
    requires BusInv(cfg, s)
    ensures Keeps(cfg, s, s)
  {
    GrowsIsReflexive(s);
  }

  // ------------------------------------------------------------------- steps

  lemma RegisterKeeps(cfg: Config, s: Bus, a: Assignment, now: int)
    requires BusInv(cfg, s)
    ensures Keeps(cfg, s, RegisterStep(cfg, s, a, now).1)
  {
    var (r, s') := RegisterStep(cfg, s, a, now);
    if r.Failure? {
      UnchangedIsKept(cfg, s);
    } else {
      RoleAddedKeeps(cfg, s, a);
    }
  }

  lemma RoleAddedKeeps(cfg: Config, s: Bus, a: Assignment)
    requires BusInv(cfg, s) && s.aborted.None?
    requires a.roleId in cfg.authorized && cfg.authorized[a.roleId] == a
    requires a.roleId in s.roles ==> s.roles[a.roleId] == a
    ensures Keeps(cfg, s, s.(roles := s.roles[a.roleId := a]))
  {
    var s' := s.(roles := s.roles[a.roleId := a]);
    forall x: Place ensures OkAt(cfg, s', x) && SameAt(s, s', x) {
      assert OkAt(cfg, s, x);
      match x
      case ContributionAt(k) => if k in s.contributions { AuthenticPersists(cfg, s, s', s.contributions[k]); }
      case InFlightAt(n) => if n in s.inFlight { DeliveryPersists(cfg, s, s', s.inFlight[n]); }
      case LogAt(i) => if i < |s.log| { assert FirstOfItsId(s', i) == FirstOfItsId(s, i); }
      case _ =>
    }
  }

  lemma EnterKeeps(cfg: Config, s: Bus, sender: Option<string>, target: Option<string>, d: Delivery)
    requires BusInv(cfg, s) && DeliveryOk(cfg, s, d)
    ensures Keeps(cfg, s, Enter(cfg.faults, s, sender, target, d).1)
  {
    var (r, s') := Enter(cfg.faults, s, sender, target, d);
    if r.Failure? {
      UnchangedIsKept(cfg, s);
    } else {
      forall x: Place ensures OkAt(cfg, s', x) && SameAt(s, s', x) {
        assert OkAt(cfg, s, x);
        SamePartsOk(cfg, s, s', x);
        match x
        case InFlightAt(n) =>
          if n in s'.inFlight { DeliveryPersists(cfg, s, s', s'.inFlight[n]); }
        case _ =>
      }
    }
  }

  /** A place other than a suspended call is judged by roles, log, ids and contributions only. */
  lemma SamePartsOk(cfg: Config, s: Bus, s': Bus, x: Place)
    requires OkAt(cfg, s, x)
    requires s'.roles == s.roles && s'.log == s.log && s'.artifactIds == s.artifactIds && s'.contributions == s.contributions
    ensures !x.InFlightAt? ==> OkAt(cfg, s', x)
  {
    match x
    case ContributionAt(k) => if k in s.contributions { AuthenticPersists(cfg, s, s', s.contributions[k]); }
    case LogAt(i) => if i < |s.log| { assert FirstOfItsId(s', i) == FirstOfItsId(s, i); }
    case _ =>
  }

  lemma BroadcastKeeps(cfg: Config, s: Bus, v: Json)
    requires BusInv(cfg, s)
    ensures Keeps(cfg, s, BroadcastStep(cfg, s, v).1)
  {
    match CheckArtifact(cfg, v)
    case Failure(_) => UnchangedIsKept(cfg, s);
    case Success(id) =>
      ArtifactMeaning(cfg, v, id);
      EnterKeeps(cfg, s, None, None, Broadcasting(Published(id, v)));
  }

  lemma SendKeeps(cfg: Config, s: Bus, m: DirectMessage)
    requires BusInv(cfg, s)
    ensures Keeps(cfg, s, SendStep(cfg, s, m).1)
  {
    match CheckMessage(s, m)
    case Failure(_) => UnchangedIsKept(cfg, s);
    case Success(_) =>
      MessageMeaning(s, m);
      EnterKeeps(cfg, s, Some(m.sender), Some(m.target), Sending(m));
  }

  lemma ContributeStepKeeps(cfg: Config, s: Bus, x: Contribution)
    requires BusInv(cfg, s)
    ensures Keeps(cfg, s, ContributeStep(cfg, s, x).1)
  {
    match CheckContribution(cfg, s, x)
    case Failure(_) => UnchangedIsKept(cfg, s);
    case Success(_) =>
      ContributionMeaning(cfg, s, x);
      EnterKeeps(cfg, s, Some(x.statement.roleId), None, Contributing(x));
  }

  /** The call is taken out of flight. */
  function Landed(s: Bus, n: nat): Bus
  {
    s.(inFlight := s.inFlight - {n})
  }

  lemma LandedKeeps(cfg: Config, s: Bus, n: nat)
    requires BusInv(cfg, s)
    ensures Keeps(cfg, s, Landed(s, n))
  {
    var s' := Landed(s, n);
    forall x: Place ensures OkAt(cfg, s', x) && SameAt(s, s', x) {
      assert OkAt(cfg, s, x);
      SamePartsOk(cfg, s, s', x);
      match x
      case InFlightAt(k) => if k in s'.inFlight { DeliveryPersists(cfg, s, s', s'.inFlight[k]); }
      case _ =>
    }
  }

  lemma PublishKeeps(cfg: Config, s: Bus, item: Published)
    requires BusInv(cfg, s) && s.aborted.None? && OnTopic(cfg, item.artifact, item.id)
    ensures Keeps(cfg, s, Publish(s, item))
  {
    var s' := Publish(s, item);
    if item.id in s.artifactIds {
      UnchangedIsKept(cfg, s);
    } else {
      forall x: Place ensures OkAt(cfg, s', x) && SameAt(s, s', x) {
        assert OkAt(cfg, s, x);
        match x
        case LogAt(i) => LogGrows(cfg, s, item, i);
        case KnownId(id) => IdsGrow(cfg, s, item, id);
        case ContributionAt(k) => if k in s.contributions { AuthenticPersists(cfg, s, s', s.contributions[k]); }
        case InFlightAt(k) => if k in s.inFlight { DeliveryPersists(cfg, s, s', s.inFlight[k]); }
        case RoleAt(_) =>
      }
    }
  }

  lemma IdsGrow(cfg: Config, s: Bus, item: Published, id: string)
    requires BusInv(cfg, s) && item.id !in s.artifactIds
    ensures OkAt(cfg, Publish(s, item), KnownId(id)) && SameAt(s, Publish(s, item), KnownId(id))
  {
    var s' := Publish(s, item);
    assert OkAt(cfg, s, KnownId(id));
    if id in s.artifactIds {
      var i :| 0 <= i < |s.log| && s.log[i].id == id;
      assert s'.log[i].id == id;
    } else {
      assert s'.log[|s.log|].id == item.id;
    }
  }

  lemma LogGrows(cfg: Config, s: Bus, item: Published, i: nat)
    requires BusInv(cfg, s) && item.id !in s.artifactIds && OnTopic(cfg, item.artifact, item.id)
    ensures OkAt(cfg, Publish(s, item), LogAt(i)) && SameAt(s, Publish(s, item), LogAt(i))
  {
    var s' := Publish(s, item);
    if i < |s.log| {
      assert OkAt(cfg, s, LogAt(i));
      assert forall j | 0 <= j < i :: s'.log[j] == s.log[j];
    } else if i == |s.log| {
      forall j: nat | j < i ensures s'.log[j].id != s'.log[i].id {
        assert OkAt(cfg, s, LogAt(j));
      }
    }
  }

  lemma PutKeeps(cfg: Config, s: Bus, m: DirectMessage, copies: nat)
    requires BusInv(cfg, s) && s.aborted.None?
    ensures Keeps(cfg, s, Put(s, m, copies))
  {
    var s' := Put(s, m, copies);
    forall x: Place ensures OkAt(cfg, s', x) && SameAt(s, s', x) {
      assert OkAt(cfg, s, x);
      SamePartsOk(cfg, s, s', x);
      match x
      case InFlightAt(k) => if k in s'.inFlight { DeliveryPersists(cfg, s, s', s'.inFlight[k]); }
      case _ =>
    }
  }

  lemma ContributeKeeps(cfg: Config, s: Bus, y: Contribution)
    requires BusInv(cfg, s) && s.aborted.None? && Authentic(cfg, s, y)
    ensures Keeps(cfg, s, Contribute(s, y).1)
  {
    var (r, s') := Contribute(s, y);
    if r.Failure? {
      UnchangedIsKept(cfg, s);
    } else {
      forall x: Place ensures OkAt(cfg, s', x) && SameAt(s, s', x) {
        assert OkAt(cfg, s, x);
        match x
        case ContributionAt(k) => if k in s'.contributions { AuthenticPersists(cfg, s, s', s'.contributions[k]); }
        case InFlightAt(k) => if k in s.inFlight { DeliveryPersists(cfg, s, s', s.inFlight[k]); }
        case LogAt(i) => if i < |s.log| { assert FirstOfItsId(s', i) == FirstOfItsId(s, i); }
        case _ =>
      }
    }
  }

  lemma DeliverKeeps(cfg: Config, s: Bus, d: Delivery, copies: nat)
    requires BusInv(cfg, s) && s.aborted.None? && DeliveryOk(cfg, s, d)
    ensures Keeps(cfg, s, Deliver(s, d, copies).1)
  {
    match d
    case Broadcasting(item) => PublishKeeps(cfg, s, item);
    case Sending(m) => PutKeeps(cfg, s, m, copies);
    case Contributing(x) => ContributeKeeps(cfg, s, x);
  }

  lemma CommitKeeps(cfg: Config, s: Bus, n: nat)
    requires BusInv(cfg, s) && n in s.inFlight
    ensures Keeps(cfg, s, CommitStep(cfg.faults, s, n).1)
  {
    var t, d := Landed(s, n), s.inFlight[n];
    LandedKeeps(cfg, s, n);
    assert OkAt(cfg, s, InFlightAt(n));
    if !Dropped(cfg.faults, n) && s.aborted.None? {
      var copies := Copies(cfg.faults, n);
      var u := Deliver(t, d, copies).1;
      DeliveryPersists(cfg, s, t, d);
      DeliverKeeps(cfg, t, d, copies);
      GrowsIsTransitive(s, t, u);
      assert CommitStep(cfg.faults, s, n).1 == u;
    }
  }

  lemma ReceiveKeeps(cfg: Config, s: Bus, role: string)
    requires BusInv(cfg, s)
    ensures Keeps(cfg, s, ReceiveStep(s, role).1)
  {
    var s' := ReceiveStep(s, role).1;
    if ReceiveStep(s, role).0.Failure? {
      UnchangedIsKept(cfg, s);
    } else {
      forall x: Place ensures OkAt(cfg, s', x) && SameAt(s, s', x) {
        assert OkAt(cfg, s, x);
        SamePartsOk(cfg, s, s', x);
        match x
        case InFlightAt(k) => if k in s'.inFlight { DeliveryPersists(cfg, s, s', s'.inFlight[k]); }
        case _ =>
      }
    }
  }

  lemma AbortKeeps(cfg: Config, s: Bus, reason: string, evidence: Json)
    requires BusInv(cfg, s)
    ensures Keeps(cfg, s, AbortStep(cfg, s, reason, evidence).1)
  {
    var s' := AbortStep(cfg, s, reason, evidence).1;
    if s' == s {
      UnchangedIsKept(cfg, s);
    } else {
      forall x: Place ensures OkAt(cfg, s', x) && SameAt(s, s', x) {
        assert OkAt(cfg, s, x);
        SamePartsOk(cfg, s, s', x);
        match x
        case InFlightAt(k) => if k in s'.inFlight { DeliveryPersists(cfg, s, s', s'.inFlight[k]); }
        case _ =>
      }
    }
  }
}
