/** Public artifacts: content-addressed envelopes that hold no private field at any depth. */
module PublicArtifacts {
  import opened Outcomes
  import opened Ordering
  import opened CanonicalJson
  import opened Hashing
  import opened Manifests

  const PUBLIC_SCHEMA := "vsdp-public-artifact/1"
  const ARTIFACT_TAG := "vsdp/public-artifact/v1"

  /** The registered words; every law below holds for any choice of them. */
  datatype Vocabulary = Vocabulary(
    kinds: set<string>,
    ceremonyKinds: set<string>,
    forbidden: set<string>,
    exemptions: map<string, set<string>>,
    statuses: set<string>)

  const VOCABULARY := Vocabulary(
    {"aggregate_authorization", "ballot_record", "board_checkpoint", "candidate_abandoned", "candidate_commitment",
     "challenge_opening", "checkpoint_fork_evidence", "decision_bundle", "decryption_authorization_conflict_evidence",
     "dkg_public", "eligibility_checkpoint", "final_approval", "final_manifest", "finalization_record",
     "invalid_record_acceptance_evidence", "nullifier_conflict_evidence", "partial_decryption",
     "provisional_decision_proof", "quorum_receipt", "receipted_record_missing_evidence", "setup_approval",
     "setup_manifest", "tally_result", "witness_double_accept_evidence"},
    {"dkg_public", "eligibility_checkpoint", "setup_approval", "setup_manifest"},
    {"identity_secret", "invitation_id", "ip", "ip_address", "iroh_ticket", "membership_path", "nickname", "node_id",
     "plaintext", "post_id", "private_key", "randomness", "referer", "relay_id", "remote_addr", "session_id",
     "submitted_at", "trace_id", "user_agent", "voter_id"},
    map["challenge_opening" := {"plaintext", "randomness"}],
    {"aborted", "disputed", "finalized", "final_frozen", "provisional", "setup_frozen"})

  // -------------------------------------------------------- forbidden fields

  predicate Banned(words: Vocabulary, allowed: set<string>, key: string)
  {
    key in words.forbidden && key !in allowed
  }

  /** `_find_forbidden_field`; the members of an object are visited in key order. */
  function FindForbidden(words: Vocabulary, allowed: set<string>, v: Json): Option<string>
    decreases v, 2
  {
    match v
    case Obj(fields) => FindInMembers(words, allowed, v, Sorted(fields.Keys))
    case Arr(items) => FindInItems(words, allowed, items)
    case _ => None
  }

  function FindInItems(words: Vocabulary, allowed: set<string>, items: seq<Json>): Option<string>
    decreases items, 0
  {
    if items == [] then None
    else
      match FindForbidden(words, allowed, items[0])
      case Some(key) => Some(key)
      case None => FindInItems(words, allowed, items[1..])
  }

  function FindInMembers(words: Vocabulary, allowed: set<string>, v: Json, keys: seq<string>): Option<string>
    requires v.Obj? && (forall k | k in keys :: k in v.fields)
    decreases v, 1, |keys|
  {
    if keys == [] then None
    else if Banned(words, allowed, keys[0]) then Some(keys[0])
    else
      match FindForbidden(words, allowed, v.fields[keys[0]])
      case Some(key) => Some(key)
      case None => FindInMembers(words, allowed, v, keys[1..])
  }

  /** One step into a value: to a member of an object or to an item of a list. */
  datatype Step = Member(key: string) | Item(index: nat)

  /** The value found by following a path of steps. */
  function At(v: Json, path: seq<Step>): Option<Json>
    decreases |path|
  {
    if path == [] then Some(v)
    else
      match (v, path[0])
      case (Obj(fields), Member(k)) => if k in fields then At(fields[k], path[1..]) else None
      case (Arr(items), Item(i)) => if i < |items| then At(items[i], path[1..]) else None
      case _ => None
  }

  /** The object at the end of the path has the key. */
  predicate KeyAt(v: Json, path: seq<Step>, key: string)
  {
    At(v, path).Some? && At(v, path).value.Obj? && key in At(v, path).value.fields
  }

  lemma {:induction false} NoneFoundInItems(words: Vocabulary, allowed: set<string>, items: seq<Json>, i: nat)
    requires FindInItems(words, allowed, items) == None && i < |items|
    ensures FindForbidden(words, allowed, items[i]) == None
  {
    if i > 0 {
      NoneFoundInItems(words, allowed, items[1..], i - 1);
    }
  }

  lemma {:induction false} NoneFoundInMembers(words: Vocabulary, allowed: set<string>, v: Json, keys: seq<string>, key: string)
    requires v.Obj? && (forall k | k in keys :: k in v.fields) && key in keys
    requires FindInMembers(words, allowed, v, keys) == None
    ensures !Banned(words, allowed, key) && FindForbidden(words, allowed, v.fields[key]) == None
  {
    if key != keys[0] {
      NoneFoundInMembers(words, allowed, v, keys[1..], key);
    }
  }

  lemma NoneFoundHere(words: Vocabulary, allowed: set<string>, v: Json, key: string)
    requires v.Obj? && key in v.fields && FindForbidden(words, allowed, v) == None
    ensures !Banned(words, allowed, key) && FindForbidden(words, allowed, v.fields[key]) == None
  {
    assert key in Elements(Sorted(v.fields.Keys));
    NoneFoundInMembers(words, allowed, v, Sorted(v.fields.Keys), key);
  }

  lemma {:induction false} NoneFoundMeansNone(words: Vocabulary, allowed: set<string>, v: Json, path: seq<Step>, key: string)
    requires FindForbidden(words, allowed, v) == None && KeyAt(v, path, key)
    ensures !Banned(words, allowed, key)
    decreases |path|
  {
    if path == [] {
      NoneFoundHere(words, allowed, v, key);
    } else {
      match path[0]
      case Member(k) =>
        NoneFoundHere(words, allowed, v, k);
        NoneFoundMeansNone(words, allowed, v.fields[k], path[1..], key);
      case Item(i) =>
        NoneFoundInItems(words, allowed, v.items, i);
        NoneFoundMeansNone(words, allowed, v.items[i], path[1..], key);
    }
  }

  lemma {:induction false} FoundInItems(words: Vocabulary, allowed: set<string>, items: seq<Json>) returns (i: nat)
    requires FindInItems(words, allowed, items).Some?
    ensures i < |items| && FindForbidden(words, allowed, items[i]) == FindInItems(words, allowed, items)
  {
    if FindForbidden(words, allowed, items[0]).Some? {
      i := 0;
    } else {
      i := FoundInItems(words, allowed, items[1..]);
      i := i + 1;
    }
  }

  lemma {:induction false} FoundInMembers(words: Vocabulary, allowed: set<string>, v: Json, keys: seq<string>) returns (k: string)
    requires v.Obj? && (forall k | k in keys :: k in v.fields) && FindInMembers(words, allowed, v, keys).Some?
    ensures k in v.fields
    ensures FindForbidden(words, allowed, v.fields[k]) == FindInMembers(words, allowed, v, keys)
         || (Banned(words, allowed, k) && FindInMembers(words, allowed, v, keys) == Some(k))
  {
    if Banned(words, allowed, keys[0]) || FindForbidden(words, allowed, v.fields[keys[0]]).Some? {
      k := keys[0];
    } else {
      k := FoundInMembers(words, allowed, v, keys[1..]);
    }
  }

  /** The reported key is banned and really occurs: here is where. */
  lemma {:induction false} FoundIsThere(words: Vocabulary, allowed: set<string>, v: Json) returns (path: seq<Step>)
    requires FindForbidden(words, allowed, v).Some?
    ensures var key := FindForbidden(words, allowed, v).value; Banned(words, allowed, key) && KeyAt(v, path, key)
  {
    var key := FindForbidden(words, allowed, v).value;
    match v
    case Obj(fields) =>
      var k := FoundInMembers(words, allowed, v, Sorted(fields.Keys));
      if Banned(words, allowed, k) && key == k {
        path := [];
      } else {
        var rest := FoundIsThere(words, allowed, fields[k]);
        path := [Member(k)] + rest;
        assert path[1..] == rest;
      }
    case Arr(items) =>
      var i := FoundInItems(words, allowed, items);
      var rest := FoundIsThere(words, allowed, items[i]);
      path := [Item(i)] + rest;
      assert path[1..] == rest;
  }

  /** Nothing is reported iff no object at any depth has a forbidden key outside the exemption. */
  lemma FindForbiddenMeaning(words: Vocabulary, allowed: set<string>, v: Json)
    ensures FindForbidden(words, allowed, v) == None
       <==> forall path, key | KeyAt(v, path, key) :: !Banned(words, allowed, key)
  {
    if FindForbidden(words, allowed, v) == None {
      forall path, key | KeyAt(v, path, key) ensures !Banned(words, allowed, key) {
        NoneFoundMeansNone(words, allowed, v, path, key);
      }
    } else {
      var path := FoundIsThere(words, allowed, v);
    }
  }

  // ---------------------------------------------------------------- envelope

  const ARTIFACT_ID := "artifact_id"
  const BODY := "body"
  const CEREMONY_ID := "ceremony_id"
  const DECISION_ID := "decision_id"
  const KIND := "kind"
  const PROFILE := "profile_id"
  const SCHEMA := "schema"

  function Exemptions(words: Vocabulary, kind: string): set<string>
  {
    if kind in words.exemptions then words.exemptions[kind] else {}
  }

  predicate IsHex(c: Crypto, v: Json)
  {
    v.Str? && c.isDigest(v.s)
  }

  function ScopeKeys(scope: string): set<string>
  {
    {ARTIFACT_ID, BODY, KIND, PROFILE, SCHEMA, scope}
  }

  predicate InScope(words: Vocabulary, kind: string, scope: string)
  {
    kind in words.ceremonyKinds <==> scope == CEREMONY_ID
  }

  /** Kind, body and scope of an envelope, as `make_public_artifact` and `verify_public_artifact` check them. */
  predicate GoodContent(c: Crypto, words: Vocabulary, kind: string, body: Json, scope: string, id: Json)
  {
    && kind in words.kinds
    && body.Obj? && FindForbidden(words, Exemptions(words, kind), body) == None
    && InScope(words, kind, scope)
    && IsHex(c, id)
  }

  /** Python's truth value of an id that may be absent or empty. */
  predicate Given(id: Option<string>)
  {
    id.Some? && id.value != ""
  }

  function WithScope(fields: map<string, Json>, scope: string, id: Option<string>): map<string, Json>
  {
    match id case None => fields case Some(s) => fields[scope := Str(s)]
  }

  function Envelope(kind: string, body: Json, ceremonyId: Option<string>, decisionId: Option<string>): map<string, Json>
  {
    var fields := map[BODY := body, KIND := Str(kind), PROFILE := Str(PROFILE_ID), SCHEMA := Str(PUBLIC_SCHEMA)];
    WithScope(WithScope(fields, CEREMONY_ID, ceremonyId), DECISION_ID, decisionId)
  }

  /** The artifact over an envelope: its fields and the hash over them. */
  function Address(c: Crypto, fields: map<string, Json>): Json
    requires Valid(Obj(fields))
  {
    Obj(fields[ARTIFACT_ID := Str(DomainHash(c, ARTIFACT_TAG, Obj(fields)))])
  }

  /** The scope in which an artifact of this kind is made. */
  function ScopeOf(words: Vocabulary, kind: string): string
  {
    if kind in words.ceremonyKinds then CEREMONY_ID else DECISION_ID
  }

  /** `make_public_artifact`. */
  function Make(c: Crypto, words: Vocabulary, kind: string, body: Json, ceremonyId: Option<string>, decisionId: Option<string>): Result<Json>
  {
    var scope := ScopeOf(words, kind);
    var id := if kind in words.ceremonyKinds then ceremonyId else decisionId;
    var fields := Envelope(kind, body, ceremonyId, decisionId);
    if Given(ceremonyId) == Given(decisionId) then Failure(NonCanonical)
    else if id.None? || !GoodContent(c, words, kind, body, scope, Str(id.value)) then Failure(NonCanonical)
    else if !Valid(Obj(fields)) then Failure(NonCanonical)
    else Success(Address(c, fields))
  }

  /** `verify_public_artifact`. */
  function Verify(c: Crypto, words: Vocabulary, v: Json): Result<string>
  {
    if !v.Obj? then Failure(NonCanonical)
    else if v.fields.Keys == ScopeKeys(DECISION_ID) then VerifyScoped(c, words, v, DECISION_ID)
    else if v.fields.Keys == ScopeKeys(CEREMONY_ID) then VerifyScoped(c, words, v, CEREMONY_ID)
    else Failure(NonCanonical)
  }

  function VerifyScoped(c: Crypto, words: Vocabulary, v: Json, scope: string): Result<string>
    requires v.Obj? && v.fields.Keys == ScopeKeys(scope)
  {
    var fields := v.fields;
    var unsigned := fields - {ARTIFACT_ID};
    if !IsHex(c, fields[ARTIFACT_ID]) || !fields[KIND].Str? then Failure(NonCanonical)
    else if !GoodContent(c, words, fields[KIND].s, fields[BODY], scope, fields[scope]) then Failure(NonCanonical)
    else if !Valid(Obj(unsigned)) then Failure(NonCanonical)
    else if fields[ARTIFACT_ID].s != DomainHash(c, ARTIFACT_TAG, Obj(unsigned)) then Failure(ArtifactHashMismatch)
    else if fields[SCHEMA] != Str(PUBLIC_SCHEMA) || fields[PROFILE] != Str(PROFILE_ID) then Failure(NonCanonical)
    else Success(fields[ARTIFACT_ID].s)
  }

  /** An envelope of the one kind of scope that fits its kind, with the hash over the rest as its id. */
  ghost predicate IsArtifact(c: Crypto, words: Vocabulary, v: Json, id: string, scope: string)
  {
    && v.Obj? && v.fields.Keys == {"artifact_id", "body", "kind", "profile_id", "schema", scope}
    && v.fields["schema"] == Str(PUBLIC_SCHEMA) && v.fields["profile_id"] == Str(PROFILE_ID)
    && FitsKind(c, words, v.fields["kind"], v.fields["body"], v.fields[scope], scope)
    && HasAddress(c, v, id)
  }

  /** The kind is registered and made in this scope, and its body holds no field that it must not publish. */
  ghost predicate FitsKind(c: Crypto, words: Vocabulary, kind: Json, body: Json, scopeId: Json, scope: string)
  {
    && kind.Str? && kind.s in words.kinds
    && scope == (if kind.s in words.ceremonyKinds then "ceremony_id" else "decision_id")
    && scopeId.Str? && c.isDigest(scopeId.s)
    && body.Obj? && forall path, key | KeyAt(body, path, key) && key in words.forbidden ::
                      kind.s in words.exemptions && key in words.exemptions[kind.s]
  }

  ghost predicate HasAddress(c: Crypto, v: Json, id: string)
    requires v.Obj? && "artifact_id" in v.fields
  {
    && v.fields["artifact_id"] == Str(id) && c.isDigest(id)
    && Valid(Obj(v.fields - {"artifact_id"})) && id == DomainHash(c, ARTIFACT_TAG, Obj(v.fields - {"artifact_id"}))
  }

  lemma ContentMeaning(c: Crypto, words: Vocabulary, kind: string, body: Json, scope: string, id: Json)
    requires scope == CEREMONY_ID || scope == DECISION_ID
    ensures GoodContent(c, words, kind, body, scope, id) <==> FitsKind(c, words, Str(kind), body, id, scope)
  {
    FindForbiddenMeaning(words, Exemptions(words, kind), body);
    FieldNamesDiffer();
  }

  lemma ScopedMeaning(c: Crypto, words: Vocabulary, v: Json, scope: string, id: string)
    requires v.Obj? && v.fields.Keys == ScopeKeys(scope) && (scope == CEREMONY_ID || scope == DECISION_ID)
    ensures VerifyScoped(c, words, v, scope) == Success(id) <==> IsArtifact(c, words, v, id, scope)
  {
    if v.fields[KIND].Str? {
      ContentMeaning(c, words, v.fields[KIND].s, v.fields[BODY], scope, v.fields[scope]);
    }
  }

  /** An artifact but for its id, its schema and its profile. */
  ghost predicate HasContent(c: Crypto, words: Vocabulary, v: Json, scope: string)
  {
    && v.Obj? && v.fields.Keys == {"artifact_id", "body", "kind", "profile_id", "schema", scope}
    && v.fields["artifact_id"].Str? && c.isDigest(v.fields["artifact_id"].s)
    && FitsKind(c, words, v.fields["kind"], v.fields["body"], v.fields[scope], scope)
    && Valid(Obj(v.fields - {"artifact_id"}))
  }

  lemma ScopedErrors(c: Crypto, words: Vocabulary, v: Json, scope: string)
    requires v.Obj? && v.fields.Keys == ScopeKeys(scope) && (scope == CEREMONY_ID || scope == DECISION_ID)
    requires VerifyScoped(c, words, v, scope).Failure?
    ensures VerifyScoped(c, words, v, scope).error ==
            if HasContent(c, words, v, scope) && v.fields["artifact_id"] != Str(DomainHash(c, ARTIFACT_TAG, Obj(v.fields - {"artifact_id"})))
            then ArtifactHashMismatch else NonCanonical
  {
    if v.fields[KIND].Str? {
      ContentMeaning(c, words, v.fields[KIND].s, v.fields[BODY], scope, v.fields[scope]);
    }
  }

  /** The content is in order and only the id is not its hash. */
  ghost predicate WrongAddress(c: Crypto, words: Vocabulary, v: Json)
  {
    && (HasContent(c, words, v, "ceremony_id") || HasContent(c, words, v, "decision_id"))
    && v.fields["artifact_id"] != Str(DomainHash(c, ARTIFACT_TAG, Obj(v.fields - {"artifact_id"})))
  }

  /** A wrong hash is told apart from everything else that is refused. */
  lemma VerifyErrors(c: Crypto, words: Vocabulary, v: Json)
    requires Verify(c, words, v).Failure?
    ensures Verify(c, words, v).error == if WrongAddress(c, words, v) then ArtifactHashMismatch else NonCanonical
  {
    FieldNamesDiffer();
    if v.Obj? && v.fields.Keys == ScopeKeys(DECISION_ID) {
      ScopedErrors(c, words, v, DECISION_ID);
      assert !HasContent(c, words, v, CEREMONY_ID);
    } else if v.Obj? && v.fields.Keys == ScopeKeys(CEREMONY_ID) {
      ScopedErrors(c, words, v, CEREMONY_ID);
      assert !HasContent(c, words, v, DECISION_ID);
    }
  }

  /** What is accepted, and under which id. */
  lemma VerifyMeaning(c: Crypto, words: Vocabulary, v: Json, id: string)
    ensures Verify(c, words, v) == Success(id) <==>
            IsArtifact(c, words, v, id, "ceremony_id") || IsArtifact(c, words, v, id, "decision_id")
  {
    FieldNamesDiffer();
    if v.Obj? && v.fields.Keys == ScopeKeys(DECISION_ID) {
      ScopedMeaning(c, words, v, DECISION_ID, id);
    } else if v.Obj? && v.fields.Keys == ScopeKeys(CEREMONY_ID) {
      ScopedMeaning(c, words, v, CEREMONY_ID, id);
    }
  }

  // ------------------------------------------------------------- what holds

  lemma FieldNamesDiffer()
    ensures |ScopeKeys(DECISION_ID)| == |ScopeKeys(CEREMONY_ID)| == 6
    ensures CEREMONY_ID !in ScopeKeys(DECISION_ID) && DECISION_ID !in ScopeKeys(CEREMONY_ID)
  {
    assert ARTIFACT_ID[0] == 'a' && BODY[0] == 'b' && CEREMONY_ID[0] == 'c' && DECISION_ID[0] == 'd';
    assert KIND[0] == 'k' && PROFILE[0] == 'p' && SCHEMA[0] == 's';
  }

  /** A given scope, and only that scope, in the envelope. */
  predicate OneScope(ceremonyId: Option<string>, decisionId: Option<string>)
  {
    ceremonyId.None? || decisionId.None?
  }

  lemma EnvelopeKeys(kind: string, body: Json, ceremonyId: Option<string>, decisionId: Option<string>)
    ensures var keys := Envelope(kind, body, ceremonyId, decisionId).Keys;
            && ARTIFACT_ID !in keys
            && (CEREMONY_ID in keys <==> ceremonyId.Some?) && (DECISION_ID in keys <==> decisionId.Some?)
            && keys + {ARTIFACT_ID, CEREMONY_ID, DECISION_ID} == ScopeKeys(CEREMONY_ID) + ScopeKeys(DECISION_ID)
    ensures var fields := Envelope(kind, body, ceremonyId, decisionId);
            && fields[BODY] == body && fields[KIND] == Str(kind)
            && fields[PROFILE] == Str(PROFILE_ID) && fields[SCHEMA] == Str(PUBLIC_SCHEMA)
            && (ceremonyId.Some? ==> fields[CEREMONY_ID] == Str(ceremonyId.value))
            && (decisionId.Some? ==> fields[DECISION_ID] == Str(decisionId.value))
  {
    FieldNamesDiffer();
  }

  /** An envelope with one scope in it has exactly the keys of that scope. */
  lemma OneScopeKeys(kind: string, body: Json, ceremonyId: Option<string>, decisionId: Option<string>, scope: string)
    requires ceremonyId.Some? || decisionId.Some?
    requires scope == CEREMONY_ID || scope == DECISION_ID
    ensures Envelope(kind, body, ceremonyId, decisionId).Keys + {ARTIFACT_ID} == ScopeKeys(scope)
       <==> OneScope(ceremonyId, decisionId) && (ceremonyId.Some? <==> scope == CEREMONY_ID)
  {
    EnvelopeKeys(kind, body, ceremonyId, decisionId);
    FieldNamesDiffer();
    var keys := Envelope(kind, body, ceremonyId, decisionId).Keys + {ARTIFACT_ID};
    assert keys + {CEREMONY_ID, DECISION_ID} == ScopeKeys(CEREMONY_ID) + ScopeKeys(DECISION_ID);
    assert CEREMONY_ID in keys <==> ceremonyId.Some?;
    assert DECISION_ID in keys <==> decisionId.Some?;
    assert CEREMONY_ID in ScopeKeys(CEREMONY_ID) && DECISION_ID in ScopeKeys(DECISION_ID);
    assert ScopeKeys(CEREMONY_ID) + ScopeKeys(DECISION_ID) == ScopeKeys(DECISION_ID) + {CEREMONY_ID};
    assert ScopeKeys(CEREMONY_ID) + ScopeKeys(DECISION_ID) == ScopeKeys(CEREMONY_ID) + {DECISION_ID};
  }

  /** The parts of an artifact that are made together: fields and their address. */
  ghost predicate AddressedBy(c: Crypto, v: Json, id: string, fields: map<string, Json>)
  {
    && Valid(Obj(fields)) && ARTIFACT_ID !in fields
    && v == Obj(fields[ARTIFACT_ID := Str(id)])
    && id == DomainHash(c, ARTIFACT_TAG, Obj(fields))
  }

  lemma AddressDetermines(c: Crypto, v: Json, w: Json, id: string, fields: map<string, Json>, fields': map<string, Json>)
    requires Ideal(c) && AddressedBy(c, v, id, fields) && AddressedBy(c, w, id, fields')
    ensures v == w
  {
    DomainHashIsInjective(c, ARTIFACT_TAG, Obj(fields), ARTIFACT_TAG, Obj(fields'));
  }

  lemma ScopedIsAddressed(c: Crypto, words: Vocabulary, v: Json, scope: string)
    requires v.Obj? && v.fields.Keys == ScopeKeys(scope) && VerifyScoped(c, words, v, scope).Success?
    ensures AddressedBy(c, v, VerifyScoped(c, words, v, scope).value, v.fields - {ARTIFACT_ID})
  {
    var unsigned := v.fields - {ARTIFACT_ID};
    assert v.fields == unsigned[ARTIFACT_ID := v.fields[ARTIFACT_ID]];
  }

  lemma VerifiedIsAddressed(c: Crypto, words: Vocabulary, v: Json)
    requires Verify(c, words, v).Success?
    ensures v.Obj? && AddressedBy(c, v, Verify(c, words, v).value, v.fields - {ARTIFACT_ID})
  {
    if v.fields.Keys == ScopeKeys(DECISION_ID) {
      ScopedIsAddressed(c, words, v, DECISION_ID);
    } else {
      ScopedIsAddressed(c, words, v, CEREMONY_ID);
    }
  }

  lemma AddressedIsValid(c: Crypto, v: Json, id: string, fields: map<string, Json>)
    requires Ideal(c) && AddressedBy(c, v, id, fields)
    ensures Valid(v) && c.isDigest(id) && ValidString(id) && v.Obj?
  {
    DomainHashIsDigest(c, ARTIFACT_TAG, Obj(fields));
    assert ValidString(ARTIFACT_ID);
    forall k | k in v.fields ensures ValidString(k) && Valid(v.fields[k]) {
      assert k in fields || k == ARTIFACT_ID;
    }
  }

  ghost predicate GoodFields(c: Crypto, words: Vocabulary, fields: map<string, Json>, scope: string)
  {
    && {BODY, KIND, PROFILE, SCHEMA, scope} <= fields.Keys
    && fields[KIND].Str? && GoodContent(c, words, fields[KIND].s, fields[BODY], scope, fields[scope])
    && fields[SCHEMA] == Str(PUBLIC_SCHEMA) && fields[PROFILE] == Str(PROFILE_ID)
  }

  lemma ScopedChecks(c: Crypto, words: Vocabulary, v: Json, scope: string, fields: map<string, Json>, id: string)
    requires v.Obj? && v.fields.Keys == ScopeKeys(scope) && v.fields - {ARTIFACT_ID} == fields
    requires GoodFields(c, words, v.fields, scope) && Valid(Obj(fields))
    requires v.fields[ARTIFACT_ID] == Str(id) && c.isDigest(id) && id == DomainHash(c, ARTIFACT_TAG, Obj(fields))
    ensures VerifyScoped(c, words, v, scope) == Success(id)
  {
  }

  lemma AddressedFields(c: Crypto, words: Vocabulary, v: Json, scope: string, fields: map<string, Json>, id: string)
    requires v == Obj(fields[ARTIFACT_ID := Str(id)]) && ARTIFACT_ID !in fields
    requires GoodFields(c, words, fields, scope)
    ensures GoodFields(c, words, v.fields, scope) && v.fields - {ARTIFACT_ID} == fields
  {
    assert BODY in fields && KIND in fields && PROFILE in fields && SCHEMA in fields && scope in fields;
  }

  lemma MadeIsVerifiedInScope(c: Crypto, words: Vocabulary, v: Json, scope: string, fields: map<string, Json>)
    requires Ideal(c) && Valid(Obj(fields)) && v == Address(c, fields)
    requires ARTIFACT_ID !in fields && v.fields.Keys == ScopeKeys(scope)
    requires GoodFields(c, words, fields, scope)
    ensures VerifyScoped(c, words, v, scope) == Success(v.fields[ARTIFACT_ID].s)
  {
    var id := DomainHash(c, ARTIFACT_TAG, Obj(fields));
    DomainHashIsDigest(c, ARTIFACT_TAG, Obj(fields));
    AddressedFields(c, words, v, scope, fields, id);
    ScopedChecks(c, words, v, scope, fields, id);
  }

  lemma VerifyPicksScope(c: Crypto, words: Vocabulary, v: Json, scope: string)
    requires v.Obj? && v.fields.Keys == ScopeKeys(scope) && (scope == CEREMONY_ID || scope == DECISION_ID)
    ensures Verify(c, words, v) == VerifyScoped(c, words, v, scope)
  {
    FieldNamesDiffer();
    assert CEREMONY_ID in ScopeKeys(CEREMONY_ID);
  }

  lemma MadeIsVerified(c: Crypto, words: Vocabulary, v: Json, scope: string, fields: map<string, Json>)
    requires Ideal(c) && Valid(Obj(fields)) && v == Address(c, fields)
    requires ARTIFACT_ID !in fields && v.fields.Keys == ScopeKeys(scope)
    requires scope == CEREMONY_ID || scope == DECISION_ID
    requires GoodFields(c, words, fields, scope)
    ensures Verify(c, words, v) == Success(v.fields[ARTIFACT_ID].s)
  {
    MadeIsVerifiedInScope(c, words, v, scope, fields);
    VerifyPicksScope(c, words, v, scope);
  }

  lemma TwoScopesAreRejected(c: Crypto, words: Vocabulary, v: Json)
    requires v.Obj? && CEREMONY_ID in v.fields.Keys && DECISION_ID in v.fields.Keys
    ensures Verify(c, words, v) == Failure(NonCanonical)
  {
    FieldNamesDiffer();
  }

  lemma MadeFields(c: Crypto, words: Vocabulary, kind: string, body: Json, ceremonyId: Option<string>, decisionId: Option<string>)
    requires Make(c, words, kind, body, ceremonyId, decisionId).Success?
    ensures var fields := Envelope(kind, body, ceremonyId, decisionId);
            && Valid(Obj(fields)) && Make(c, words, kind, body, ceremonyId, decisionId).value == Address(c, fields)
    ensures OneScope(ceremonyId, decisionId) ==>
              var scope := if kind in words.ceremonyKinds then CEREMONY_ID else DECISION_ID;
              && GoodFields(c, words, Envelope(kind, body, ceremonyId, decisionId), scope)
              && (ceremonyId.Some? <==> scope == CEREMONY_ID)
  {
    EnvelopeKeys(kind, body, ceremonyId, decisionId);
    FieldNamesDiffer();
  }

  /** What is made: the addressed envelope of good content, when just one id is given that is not empty. */
  lemma MakeMeaning(c: Crypto, words: Vocabulary, kind: string, body: Json, ceremonyId: Option<string>, decisionId: Option<string>)
    requires Ideal(c)
    ensures var r := Make(c, words, kind, body, ceremonyId, decisionId);
            var id := if kind in words.ceremonyKinds then ceremonyId else decisionId;
            && (r.Success? <==>
                  && Given(ceremonyId) != Given(decisionId) && Valid(Obj(Envelope(kind, body, ceremonyId, decisionId)))
                  && id.Some? && FitsKind(c, words, Str(kind), body, Str(id.value), ScopeOf(words, kind)))
            && (r.Success? ==> exists address :: AddressedBy(c, r.value, address, Envelope(kind, body, ceremonyId, decisionId)))
  {
    var id := if kind in words.ceremonyKinds then ceremonyId else decisionId;
    if id.Some? {
      ContentMeaning(c, words, kind, body, ScopeOf(words, kind), Str(id.value));
    }
    var r := Make(c, words, kind, body, ceremonyId, decisionId);
    if r.Success? {
      MadeFields(c, words, kind, body, ceremonyId, decisionId);
      EnvelopeKeys(kind, body, ceremonyId, decisionId);
      var fields := Envelope(kind, body, ceremonyId, decisionId);
      assert AddressedBy(c, r.value, DomainHash(c, ARTIFACT_TAG, Obj(fields)), fields);
    }
  }

  /** What is made is verified, unless an empty id put a second scope into the envelope. */
  lemma MakeThenVerify(c: Crypto, words: Vocabulary, kind: string, body: Json, ceremonyId: Option<string>, decisionId: Option<string>)
    requires Ideal(c) && Make(c, words, kind, body, ceremonyId, decisionId).Success?
    ensures var v := Make(c, words, kind, body, ceremonyId, decisionId).value;
            && v.Obj? && ARTIFACT_ID in v.fields && v.fields[ARTIFACT_ID].Str?
            && Verify(c, words, v) ==
               if OneScope(ceremonyId, decisionId) then Success(v.fields[ARTIFACT_ID].s) else Failure(NonCanonical)
  {
    var fields := Envelope(kind, body, ceremonyId, decisionId);
    var v := Make(c, words, kind, body, ceremonyId, decisionId).value;
    MadeFields(c, words, kind, body, ceremonyId, decisionId);
    EnvelopeKeys(kind, body, ceremonyId, decisionId);
    AddressKeys(c, v, fields);
    if OneScope(ceremonyId, decisionId) {
      var scope := if kind in words.ceremonyKinds then CEREMONY_ID else DECISION_ID;
      OneScopeKeys(kind, body, ceremonyId, decisionId, scope);
      MadeIsVerified(c, words, v, scope, fields);
    } else {
      TwoScopesAreRejected(c, words, v);
    }
  }

  lemma AddressKeys(c: Crypto, v: Json, fields: map<string, Json>)
    requires Valid(Obj(fields)) && v == Address(c, fields)
    ensures v.Obj? && v.fields.Keys == fields.Keys + {ARTIFACT_ID} && v.fields[ARTIFACT_ID].Str?
  {
  }

  lemma TallyResultIsRegistered()
    ensures "tally_result" in VOCABULARY.kinds && "tally_result" !in VOCABULARY.ceremonyKinds
    ensures ValidString("tally_result")
  {
  }

  lemma FieldNamesAreValid(key: string)
    requires key in ScopeKeys(CEREMONY_ID) + ScopeKeys(DECISION_ID)
    ensures ValidString(key)
  {
  }

  lemma ConstantsAreText()
    ensures ValidString(PROFILE_ID) && ValidString(PUBLIC_SCHEMA)
  {
  }

  predicate TextOrNone(id: Option<string>)
  {
    id.Some? ==> ValidString(id.value)
  }

  lemma EnvelopeIsValid(kind: string, body: Json, ceremonyId: Option<string>, decisionId: Option<string>)
    requires ValidString(kind) && Valid(body) && TextOrNone(ceremonyId) && TextOrNone(decisionId)
    ensures Valid(Obj(Envelope(kind, body, ceremonyId, decisionId)))
  {
    var fields := Envelope(kind, body, ceremonyId, decisionId);
    ConstantsAreText();
    forall k | k in fields ensures ValidString(k) && Valid(fields[k]) {
      EnvelopeKeys(kind, body, ceremonyId, decisionId);
      FieldNamesAreValid(k);
      EnvelopeValueIsValid(kind, body, ceremonyId, decisionId, k);
    }
  }

  lemma EnvelopeValueIsValid(kind: string, body: Json, ceremonyId: Option<string>, decisionId: Option<string>, key: string)
    requires ValidString(kind) && Valid(body) && TextOrNone(ceremonyId) && TextOrNone(decisionId)
    requires ValidString(PROFILE_ID) && ValidString(PUBLIC_SCHEMA)
    requires key in Envelope(kind, body, ceremonyId, decisionId)
    ensures Valid(Envelope(kind, body, ceremonyId, decisionId)[key])
  {
  }

  lemma MadeWithEmptyId(c: Crypto, words: Vocabulary, kind: string, id: string)
    requires Ideal(c) && c.isDigest(id) && id != ""
    requires ValidString(kind) && kind in words.kinds && kind !in words.ceremonyKinds
    ensures Make(c, words, kind, Obj(map[]), Some(""), Some(id)).Success?
    ensures Verify(c, words, Make(c, words, kind, Obj(map[]), Some(""), Some(id)).value).Failure?
  {
    assert HexIsText(c, id);
    EnvelopeIsValid(kind, Obj(map[]), Some(""), Some(id));
    MakeThenVerify(c, words, kind, Obj(map[]), Some(""), Some(id));
  }

  /** An empty id counts as absent when the scopes are compared, yet it is written into the envelope. */
  lemma EmptyIdIsNotVerified(c: Crypto, id: string)
    requires Ideal(c) && c.isDigest(id) && id != ""
    ensures var made := Make(c, VOCABULARY, "tally_result", Obj(map[]), Some(""), Some(id));
            made.Success? && Verify(c, VOCABULARY, made.value).Failure?
  {
    TallyResultIsRegistered();
    MadeWithEmptyId(c, VOCABULARY, "tally_result", id);
  }

  /** A verified artifact is its own address: the id determines the whole artifact. */
  lemma SameIdSameArtifact(c: Crypto, words: Vocabulary, v: Json, w: Json)
    requires Ideal(c) && Verify(c, words, v).Success? && Verify(c, words, v) == Verify(c, words, w)
    ensures v == w
  {
    VerifiedIsAddressed(c, words, v);
    VerifiedIsAddressed(c, words, w);
    AddressDetermines(c, v, w, Verify(c, words, v).value, v.fields - {ARTIFACT_ID}, w.fields - {ARTIFACT_ID});
  }

  /** The two ids with which an artifact of this scope is made. */
  function ScopeIds(v: Json): (Option<string>, Option<string>)
    requires v.Obj?
  {
    var fields := v.fields;
    (if CEREMONY_ID in fields && fields[CEREMONY_ID].Str? then Some(fields[CEREMONY_ID].s) else None,
     if DECISION_ID in fields && fields[DECISION_ID].Str? then Some(fields[DECISION_ID].s) else None)
  }

  function IdsFor(scope: string, id: string): (Option<string>, Option<string>)
  {
    (if scope == CEREMONY_ID then Some(id) else None, if scope == DECISION_ID then Some(id) else None)
  }

  lemma VerifiedContent(c: Crypto, words: Vocabulary, v: Json) returns (scope: string)
    requires Verify(c, words, v).Success?
    ensures v.Obj? && v.fields.Keys == ScopeKeys(scope) && (scope == CEREMONY_ID || scope == DECISION_ID)
    ensures GoodFields(c, words, v.fields - {ARTIFACT_ID}, scope)
  {
    FieldNamesDiffer();
    scope := if v.fields.Keys == ScopeKeys(DECISION_ID) then DECISION_ID else CEREMONY_ID;
  }

  lemma ContentIsEnvelope(c: Crypto, words: Vocabulary, v: Json, scope: string)
    requires v.Obj? && v.fields.Keys == ScopeKeys(scope) && (scope == CEREMONY_ID || scope == DECISION_ID)
    requires GoodFields(c, words, v.fields - {ARTIFACT_ID}, scope)
    ensures ScopeIds(v) == IdsFor(scope, v.fields[scope].s)
    ensures var (ceremonyId, decisionId) := ScopeIds(v);
            v.fields - {ARTIFACT_ID} == Envelope(v.fields[KIND].s, v.fields[BODY], ceremonyId, decisionId)
  {
    FieldNamesDiffer();
    var fields := v.fields - {ARTIFACT_ID};
    assert BODY in fields && KIND in fields && PROFILE in fields && SCHEMA in fields && scope in fields;
    var (ceremonyId, decisionId) := ScopeIds(v);
    EnvelopeKeys(v.fields[KIND].s, v.fields[BODY], ceremonyId, decisionId);
    var made := Envelope(v.fields[KIND].s, v.fields[BODY], ceremonyId, decisionId);
    assert made.Keys == fields.Keys;
  }

  /** Every verified artifact is one that `make_public_artifact` makes from its own parts. */
  lemma VerifiedIsMade(c: Crypto, words: Vocabulary, v: Json)
    requires Ideal(c) && !c.isDigest("") && Verify(c, words, v).Success?
    ensures v.Obj? && KIND in v.fields && v.fields[KIND].Str? && BODY in v.fields
    ensures var (ceremonyId, decisionId) := ScopeIds(v);
            && OneScope(ceremonyId, decisionId)
            && Make(c, words, v.fields[KIND].s, v.fields[BODY], ceremonyId, decisionId) == Success(v)
  {
    var scope := VerifiedContent(c, words, v);
    ContentIsEnvelope(c, words, v, scope);
    VerifiedIsAddressed(c, words, v);
    ScopeIsKnown(words, v.fields[KIND].s, scope, v.fields[scope].s);
    var (ceremonyId, decisionId) := ScopeIds(v);
    MadeFrom(c, words, v, v.fields[KIND].s, v.fields[BODY], ceremonyId, decisionId, Verify(c, words, v).value);
  }

  lemma ScopeIsKnown(words: Vocabulary, kind: string, scope: string, id: string)
    requires InScope(words, kind, scope) && id != "" && (scope == CEREMONY_ID || scope == DECISION_ID)
    ensures scope == ScopeOf(words, kind)
    ensures var (ceremonyId, decisionId) := IdsFor(scope, id);
            && OneScope(ceremonyId, decisionId) && Given(ceremonyId) != Given(decisionId)
            && Some(id) == if kind in words.ceremonyKinds then ceremonyId else decisionId
  {
    FieldNamesDiffer();
  }

  /** Good content with one id of its scope, addressed by its hash, is made from its parts. */
  lemma MadeFrom(c: Crypto, words: Vocabulary, v: Json, kind: string, body: Json, ceremonyId: Option<string>, decisionId: Option<string>,
                 address: string)
    requires Given(ceremonyId) != Given(decisionId)
    requires var id := if kind in words.ceremonyKinds then ceremonyId else decisionId;
             id.Some? && GoodContent(c, words, kind, body, ScopeOf(words, kind), Str(id.value))
    requires AddressedBy(c, v, address, Envelope(kind, body, ceremonyId, decisionId))
    ensures Make(c, words, kind, body, ceremonyId, decisionId) == Success(v)
  {
  }

  /** No object at any depth of a verified body has a forbidden key that its kind does not allow. */
  lemma VerifiedIsClean(c: Crypto, words: Vocabulary, v: Json, path: seq<Step>, key: string)
    requires Verify(c, words, v).Success?
    requires KeyAt(v.fields[BODY], path, key)
    ensures !Banned(words, Exemptions(words, v.fields[KIND].s), key)
  {
    FindForbiddenMeaning(words, Exemptions(words, v.fields[KIND].s), v.fields[BODY]);
  }
}
