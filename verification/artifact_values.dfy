/** Bodies as they are in memory, before they are written: Python has tuples, which become JSON arrays, and the
    search for private fields does not look into them. */
module ArtifactValues {
  import opened Outcomes
  import opened Ordering
  import opened CanonicalJson
  import opened Hashing
  import opened PublicArtifacts
  import opened ArtifactStores

  datatype Value =
    | PyNone
    | PyBool(b: bool)
    | PyInt(n: int)
    | PyFloat(lexeme: string)
    | PyStr(s: string)
    | PyList(items: seq<Value>)
    | PyTuple(items: seq<Value>)
    | PyDict(members: map<string, Value>)

  /** The JSON value of a scalar. */
  function ScalarJson(v: Value): Json
  {
    match v
    case PyBool(b) => Bool(b)
    case PyInt(n) => Int(n)
    case PyFloat(lexeme) => Float(lexeme)
    case PyStr(s) => Str(s)
    case _ => Null
  }

  /** What is printed and hashed: every sequence is an array. */
  function Canonical(v: Value): Json
    decreases v
  {
    match v
    case PyList(items) => Arr(seq(|items|, i requires 0 <= i < |items| => Canonical(items[i])))
    case PyTuple(items) => Arr(seq(|items|, i requires 0 <= i < |items| => Canonical(items[i])))
    case PyDict(members) => Obj(map k | k in members :: Canonical(members[k]))
    case _ => ScalarJson(v)
  }

  /** What `_find_forbidden_field` looks at: a tuple is neither a dict nor a list to it. */
  function Visible(v: Value): Json
    decreases v
  {
    match v
    case PyList(items) => Arr(seq(|items|, i requires 0 <= i < |items| => Visible(items[i])))
    case PyTuple(_) => Null
    case PyDict(members) => Obj(map k | k in members :: Visible(members[k]))
    case _ => ScalarJson(v)
  }

  /** `_find_forbidden_field` on a value in memory. */
  function FindInValue(words: Vocabulary, allowed: set<string>, v: Value): Option<string>
    decreases v, 2
  {
    match v
    case PyDict(members) => FindInEntries(words, allowed, v, Sorted(members.Keys))
    case PyList(items) => FindInList(words, allowed, items)
    case _ => None
  }

  function FindInList(words: Vocabulary, allowed: set<string>, items: seq<Value>): Option<string>
    decreases items, 0
  {
    if items == [] then None
    else
      match FindInValue(words, allowed, items[0])
      case Some(key) => Some(key)
      case None => FindInList(words, allowed, items[1..])
  }

  function FindInEntries(words: Vocabulary, allowed: set<string>, v: Value, keys: seq<string>): Option<string>
    requires v.PyDict? && (forall k | k in keys :: k in v.members)
    decreases v, 1, |keys|
  {
    if keys == [] then None
    else if Banned(words, allowed, keys[0]) then Some(keys[0])
    else
      match FindInValue(words, allowed, v.members[keys[0]])
      case Some(key) => Some(key)
      case None => FindInEntries(words, allowed, v, keys[1..])
  }

  // ----------------------------------------------------- what the search sees

  function VisibleItems(items: seq<Value>): seq<Json>
  {
    seq(|items|, i requires 0 <= i < |items| => Visible(items[i]))
  }

  lemma {:induction false} SearchSeesVisible(words: Vocabulary, allowed: set<string>, v: Value)
    ensures FindInValue(words, allowed, v) == FindForbidden(words, allowed, Visible(v))
    decreases v, 2
  {
    match v
    case PyDict(members) =>
      assert Visible(v).fields.Keys == members.Keys;
      forall k | k in Sorted(members.Keys) ensures k in members {
        assert k in Elements(Sorted(members.Keys));
      }
      SearchSeesEntries(words, allowed, v, Sorted(members.Keys));
    case PyList(items) =>
      SearchSeesItems(words, allowed, items);
      assert Visible(v).items == VisibleItems(items);
    case _ =>
  }

  lemma {:induction false} SearchSeesItems(words: Vocabulary, allowed: set<string>, items: seq<Value>)
    ensures FindInList(words, allowed, items) == FindInItems(words, allowed, VisibleItems(items))
    decreases items, 0
  {
    if items != [] {
      SearchSeesVisible(words, allowed, items[0]);
      SearchSeesItems(words, allowed, items[1..]);
      assert VisibleItems(items)[1..] == VisibleItems(items[1..]);
    }
  }

  lemma {:induction false} SearchSeesEntries(words: Vocabulary, allowed: set<string>, v: Value, keys: seq<string>)
    requires v.PyDict? && (forall k | k in keys :: k in v.members)
    ensures FindInEntries(words, allowed, v, keys) == FindInMembers(words, allowed, Visible(v), keys)
    decreases v, 1, |keys|
  {
    if keys != [] {
      SearchSeesVisible(words, allowed, v.members[keys[0]]);
      SearchSeesEntries(words, allowed, v, keys[1..]);
    }
  }

  /** The path leads into or through a tuple. */
  predicate ThroughTuple(v: Value, path: seq<Step>)
    decreases |path|
  {
    || v.PyTuple?
    || (path != [] &&
        match (v, path[0])
        case (PyDict(members), Member(k)) => k in members && ThroughTuple(members[k], path[1..])
        case (PyList(items), Item(i)) => i < |items| && ThroughTuple(items[i], path[1..])
        case _ => false)
  }

  lemma {:induction false} VisibleAt(v: Value, path: seq<Step>, key: string)
    ensures KeyAt(Visible(v), path, key) <==> KeyAt(Canonical(v), path, key) && !ThroughTuple(v, path)
    decreases |path|
  {
    if path != [] {
      match (v, path[0])
      case (PyDict(members), Member(k)) =>
        if k in members {
          VisibleAt(members[k], path[1..], key);
        }
      case (PyList(items), Item(i)) =>
        if i < |items| {
          VisibleAt(items[i], path[1..], key);
        }
      case _ =>
    }
  }

  /** A forbidden key that the kind does not allow, inside a tuple at some depth. */
  ghost predicate HidesKey(words: Vocabulary, allowed: set<string>, v: Value)
  {
    exists path, key :: HiddenAt(words, allowed, v, path, key)
  }

  predicate HiddenAt(words: Vocabulary, allowed: set<string>, v: Value, path: seq<Step>, key: string)
  {
    KeyAt(Canonical(v), path, key) && ThroughTuple(v, path) && Banned(words, allowed, key)
  }

  /** The search finds nothing in memory if and only if every forbidden key is inside a tuple. */
  lemma FindInValueMeaning(words: Vocabulary, allowed: set<string>, v: Value)
    ensures FindInValue(words, allowed, v) == None <==>
            forall path, key | KeyAt(Canonical(v), path, key) && Banned(words, allowed, key) :: ThroughTuple(v, path)
  {
    SearchSeesVisible(words, allowed, v);
    if FindInValue(words, allowed, v) == None {
      forall path, key | KeyAt(Canonical(v), path, key) && Banned(words, allowed, key) ensures ThroughTuple(v, path) {
        UnseenIsHidden(words, allowed, v, path, key);
      }
    } else {
      var path := FoundIsThere(words, allowed, Visible(v));
      VisibleAt(v, path, FindForbidden(words, allowed, Visible(v)).value);
    }
  }

  lemma UnseenIsHidden(words: Vocabulary, allowed: set<string>, v: Value, path: seq<Step>, key: string)
    requires FindInValue(words, allowed, v) == None && KeyAt(Canonical(v), path, key) && Banned(words, allowed, key)
    ensures ThroughTuple(v, path)
  {
    VisibleAt(v, path, key);
    SearchSeesVisible(words, allowed, v);
    FindForbiddenMeaning(words, allowed, Visible(v));
  }

  /** What the search passes in memory, it finds again in the written form if and only if a tuple hides a
      forbidden key. */
  lemma FoundWhenRead(words: Vocabulary, allowed: set<string>, v: Value)
    requires FindInValue(words, allowed, v) == None
    ensures FindForbidden(words, allowed, Canonical(v)).Some? <==> HidesKey(words, allowed, v)
  {
    FindInValueMeaning(words, allowed, v);
    FindForbiddenMeaning(words, allowed, Canonical(v));
    if FindForbidden(words, allowed, Canonical(v)).Some? {
      var path := FoundIsThere(words, allowed, Canonical(v));
      var key := FindForbidden(words, allowed, Canonical(v)).value;
      UnseenIsHidden(words, allowed, v, path, key);
      assert HiddenAt(words, allowed, v, path, key);
    }
    if HidesKey(words, allowed, v) {
      var path, key :| HiddenAt(words, allowed, v, path, key);
    }
  }

  // ------------------------------------------------------- artifacts in memory

  /** The other checks, without the search. */
  function WithoutSearch(words: Vocabulary): Vocabulary
  {
    words.(forbidden := {})
  }

  /** The artifact has the body that is written for the value. */
  predicate HasBody(v: Json, body: Value)
  {
    v.Obj? && KIND in v.fields && v.fields[KIND].Str? && BODY in v.fields && v.fields[BODY] == Canonical(body)
  }

  /** `verify_public_artifact` on an artifact whose body is this value in memory. */
  function VerifyValue(c: Crypto, words: Vocabulary, v: Json, body: Value): Result<string>
    requires HasBody(v, body)
  {
    if FindInValue(words, Exemptions(words, v.fields[KIND].s), body).Some? then Failure(NonCanonical)
    else Verify(c, WithoutSearch(words), v)
  }

  lemma NothingForbidden(words: Vocabulary, allowed: set<string>, v: Json)
    ensures FindForbidden(WithoutSearch(words), allowed, v) == None
  {
    FindForbiddenMeaning(WithoutSearch(words), allowed, v);
  }

  lemma ContentFactors(c: Crypto, words: Vocabulary, kind: string, body: Json, scope: string, id: Json)
    ensures GoodContent(c, words, kind, body, scope, id) <==>
            GoodContent(c, WithoutSearch(words), kind, body, scope, id) && FindForbidden(words, Exemptions(words, kind), body) == None
  {
    NothingForbidden(words, Exemptions(words, kind), body);
  }

  lemma ScopedFactors(c: Crypto, words: Vocabulary, v: Json, scope: string)
    requires v.Obj? && v.fields.Keys == ScopeKeys(scope) && v.fields[KIND].Str?
    ensures VerifyScoped(c, words, v, scope) ==
            if FindForbidden(words, Exemptions(words, v.fields[KIND].s), v.fields[BODY]).Some? then Failure(NonCanonical)
            else VerifyScoped(c, WithoutSearch(words), v, scope)
  {
    ContentFactors(c, words, v.fields[KIND].s, v.fields[BODY], scope, v.fields[scope]);
  }

  /** Verification is the search and the other checks. */
  lemma VerifyFactors(c: Crypto, words: Vocabulary, v: Json)
    requires v.Obj? && KIND in v.fields && v.fields[KIND].Str? && BODY in v.fields
    ensures Verify(c, words, v) ==
            if FindForbidden(words, Exemptions(words, v.fields[KIND].s), v.fields[BODY]).Some? then Failure(NonCanonical)
            else Verify(c, WithoutSearch(words), v)
  {
    if v.fields.Keys == ScopeKeys(DECISION_ID) {
      ScopedFactors(c, words, v, DECISION_ID);
    } else if v.fields.Keys == ScopeKeys(CEREMONY_ID) {
      ScopedFactors(c, words, v, CEREMONY_ID);
    }
  }

  /** `append` of an artifact whose body is this value in memory. */
  function AppendValueStep(c: Crypto, words: Vocabulary, files: Files, v: Json, body: Value): (Result<string>, Files)
    requires HasBody(v, body)
  {
    match VerifyValue(c, words, v, body)
    case Failure(e) => (Failure(e), files)
    case Success(_) => AppendStep(c, WithoutSearch(words), files, v)
  }

  /** What was appended from memory is loaded unchanged, unless a tuple in its body hides a forbidden key: then
      the file is there and `load` raises. */
  lemma AppendValueThenLoad(c: Crypto, words: Vocabulary, files: Files, v: Json, body: Value, later: Files)
    requires Ideal(c) && GoodStore(c, WithoutSearch(words), files) && HasBody(v, body)
    requires AppendValueStep(c, words, files, v, body).0.Success?
    requires Grown(AppendValueStep(c, words, files, v, body).1, later)
    ensures Loaded(c, words, later, AppendValueStep(c, words, files, v, body).0.value) ==
            Some(if HidesKey(words, Exemptions(words, v.fields[KIND].s), body) then Failure(NonCanonical) else Success(v))
  {
    var id := AppendValueStep(c, words, files, v, body).0.value;
    AppendThenLoad(c, WithoutSearch(words), files, v, later);
    FoundWhenRead(words, Exemptions(words, v.fields[KIND].s), body);
    VerifyFactors(c, words, v);
    LoadedUnder(c, words, later, id, v);
  }

  lemma LoadedUnder(c: Crypto, words: Vocabulary, files: Files, id: string, v: Json)
    requires Loaded(c, WithoutSearch(words), files, id) == Some(Success(v))
    ensures Loaded(c, words, files, id) ==
            match Verify(c, words, v) case Failure(e) => Some(Failure(e)) case Success(_) => Some(Success(v))
  {
  }

  // ------------------------------------------------------------ a concrete case

  /** A dict with one key, whose value is a tuple of one dict with another. */
  function Hiding(outer: string, inner: string): Value
  {
    PyDict(map[outer := PyTuple([PyDict(map[inner := PyStr("k")])])])
  }

  lemma InnerKey(outer: string, inner: string)
    ensures KeyAt(Canonical(Hiding(outer, inner)), [Member(outer), Item(0)], inner)
    ensures ThroughTuple(Hiding(outer, inner), [Member(outer), Item(0)])
  {
    var path := [Member(outer), Item(0)];
    var dict := PyDict(map[inner := PyStr("k")]);
    var tuple := PyTuple([dict]);
    assert path[1..] == [Item(0)] && path[1..][1..] == [];
    assert inner in Canonical(dict).fields;
    assert Canonical(tuple).items[0] == Canonical(dict);
    assert Canonical(Hiding(outer, inner)).fields[outer] == Canonical(tuple);
    assert At(Canonical(tuple), [Item(0)]) == Some(Canonical(dict));
    assert ThroughTuple(tuple, [Item(0)]);
  }

  lemma HidingIsPassed(words: Vocabulary, allowed: set<string>, outer: string, inner: string)
    requires !Banned(words, allowed, outer) && Banned(words, allowed, inner)
    ensures FindInValue(words, allowed, Hiding(outer, inner)) == None
    ensures HidesKey(words, allowed, Hiding(outer, inner))
  {
    var v := Hiding(outer, inner);
    var keys := Sorted(v.members.Keys);
    assert v.members.Keys == {outer} && |keys| == 1;
    assert keys[0] in Elements(keys);
    assert keys == [outer];
    assert FindInValue(words, allowed, v.members[outer]) == None;
    assert FindInEntries(words, allowed, v, [outer]) == None;
    InnerKey(outer, inner);
    assert HiddenAt(words, allowed, Hiding(outer, inner), [Member(outer), Item(0)], inner);
  }

  lemma PrivateKeyIsForbidden()
    ensures var allowed := Exemptions(VOCABULARY, "tally_result");
            !Banned(VOCABULARY, allowed, "x") && Banned(VOCABULARY, allowed, "private_key")
    ensures ValidString("x") && ValidString("private_key")
  {
  }

  lemma HidingIsText(outer: string, inner: string)
    requires ValidString(outer) && ValidString(inner)
    ensures Valid(Canonical(Hiding(outer, inner)))
  {
    var dict := PyDict(map[inner := PyStr("k")]);
    var tuple := PyTuple([dict]);
    assert Canonical(PyStr("k")) == Str("k") && Valid(Str("k"));
    assert Canonical(dict) == Obj(map[inner := Str("k")]) && Valid(Canonical(dict));
    assert Canonical(tuple) == Arr([Canonical(dict)]) && Valid(Canonical(tuple));
    assert Canonical(Hiding(outer, inner)) == Obj(map[outer := Canonical(tuple)]);
  }

  lemma DecisionArtifactIsMade(c: Crypto, words: Vocabulary, kind: string, body: Json, decisionId: string)
    requires Ideal(c) && c.isDigest(decisionId) && decisionId != "" && Valid(body) && body.Obj?
    requires ValidString(kind) && kind in words.kinds && kind !in words.ceremonyKinds
    ensures Make(c, WithoutSearch(words), kind, body, None, Some(decisionId)).Success?
  {
    assert HexIsText(c, decisionId);
    EnvelopeIsValid(kind, body, None, Some(decisionId));
    NothingForbidden(words, Exemptions(words, kind), body);
  }

  /** The artifact over such a body. */
  lemma HidingIsMade(c: Crypto, words: Vocabulary, kind: string, outer: string, inner: string, decisionId: string) returns (v: Json)
    requires Ideal(c) && c.isDigest(decisionId) && decisionId != ""
    requires ValidString(kind) && kind in words.kinds && kind !in words.ceremonyKinds
    requires ValidString(outer) && ValidString(inner)
    ensures HasBody(v, Hiding(outer, inner)) && v.fields[KIND].s == kind
    ensures Verify(c, WithoutSearch(words), v).Success?
  {
    var body := Canonical(Hiding(outer, inner));
    HidingIsText(outer, inner);
    DecisionArtifactIsMade(c, words, kind, body, decisionId);
    v := Make(c, WithoutSearch(words), kind, body, None, Some(decisionId)).value;
    MadeParts(c, words, kind, body, decisionId, v);
    MakeThenVerify(c, WithoutSearch(words), kind, body, None, Some(decisionId));
  }

  lemma MadeParts(c: Crypto, words: Vocabulary, kind: string, body: Json, decisionId: string, v: Json)
    requires Make(c, WithoutSearch(words), kind, body, None, Some(decisionId)) == Success(v)
    ensures v.Obj? && KIND in v.fields && v.fields[KIND] == Str(kind) && BODY in v.fields && v.fields[BODY] == body
  {
    FieldNamesDiffer();
    EnvelopeKeys(kind, body, None, Some(decisionId));
  }

  /** With the body `{"x": ({"private_key": "k"},)}` an artifact passes verification and is stored, but it
      cannot be loaded again. */
  lemma TupleIsNotSearched(c: Crypto, decisionId: string) returns (v: Json)
    requires Ideal(c) && c.isDigest(decisionId) && decisionId != ""
    ensures HasBody(v, Hiding("x", "private_key"))
    ensures var (r, files) := AppendValueStep(c, VOCABULARY, map[], v, Hiding("x", "private_key"));
            && r.Success? && files != map[]
            && Loaded(c, VOCABULARY, files, r.value) == Some(Failure(NonCanonical))
  {
    TallyResultIsRegistered();
    PrivateKeyIsForbidden();
    v := NotSearchedIn(c, VOCABULARY, "tally_result", "x", "private_key", decisionId);
  }

  lemma NotSearchedIn(c: Crypto, words: Vocabulary, kind: string, outer: string, inner: string, decisionId: string) returns (v: Json)
    requires Ideal(c) && c.isDigest(decisionId) && decisionId != ""
    requires ValidString(kind) && kind in words.kinds && kind !in words.ceremonyKinds
    requires ValidString(outer) && ValidString(inner)
    requires !Banned(words, Exemptions(words, kind), outer) && Banned(words, Exemptions(words, kind), inner)
    ensures HasBody(v, Hiding(outer, inner))
    ensures var (r, files) := AppendValueStep(c, words, map[], v, Hiding(outer, inner));
            && r.Success? && files != map[]
            && Loaded(c, words, files, r.value) == Some(Failure(NonCanonical))
  {
    var body := Hiding(outer, inner);
    v := HidingIsMade(c, words, kind, outer, inner, decisionId);
    HidingIsPassed(words, Exemptions(words, kind), outer, inner);
    AppendMeaning(c, WithoutSearch(words), map[], v);
    AppendValueThenLoad(c, words, map[], v, body, AppendValueStep(c, words, map[], v, body).1);
  }
}
