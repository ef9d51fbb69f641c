/** The aggregate authorization that a Guardian is shown before it decrypts. */
module Authorizations {
  import opened Outcomes
  import opened Ordering
  import opened CanonicalJson
  import opened JsonObjects
  import opened Hashing
  import opened Manifests
  import opened Bundles

  const AUTHORIZATION_SCHEMA := "vsdp-aggregate-authorization/1"
  const AUTHORIZATION_TAG := "vsdp/aggregate-authorization/v1"

  datatype OptionAggregate = OptionAggregate(aggregateHash: string, optionId: string)

  /** The authorization without its own hash. */
  datatype AuthorizationBody = AuthorizationBody(
    acceptedCount: int,
    acceptedSetRoot: string,
    decisionId: string,
    disputeCheckpointHash: string,
    finalBoardRoot: string,
    minimumAnonymitySet: int,
    optionAggregates: seq<OptionAggregate>,
    profileId: string,
    schema: string)

  datatype Authorization = Authorization(body: AuthorizationBody, authorizationHash: string)

  const BODY_KEYS := [
    "accepted_count", "accepted_set_root", "decision_id", "dispute_checkpoint_hash", "final_board_root",
    "minimum_anonymity_set", "option_aggregates", "profile_id", "schema"]
  const OPTION_KEYS := ["aggregate_hash", "option_id"]

  lemma KeysAreDistinct()
    ensures Distinct(BODY_KEYS) && Distinct(OPTION_KEYS)
  {
  }

  function OptionJson(o: OptionAggregate): Json
  {
    KeysAreDistinct();
    Dict(OPTION_KEYS, [Str(o.aggregateHash), Str(o.optionId)])
  }

  function OptionJsons(options: seq<OptionAggregate>): seq<Json>
  {
    seq(|options|, i requires 0 <= i < |options| => OptionJson(options[i]))
  }

  function BodyValues(b: AuthorizationBody): seq<Json>
  {
    [Int(b.acceptedCount), Str(b.acceptedSetRoot), Str(b.decisionId), Str(b.disputeCheckpointHash), Str(b.finalBoardRoot),
     Int(b.minimumAnonymitySet), Arr(OptionJsons(b.optionAggregates)), Str(b.profileId), Str(b.schema)]
  }

  function BodyJson(b: AuthorizationBody): Json
  {
    KeysAreDistinct();
    Dict(BODY_KEYS, BodyValues(b))
  }

  /** The hash of the body, if the body has a canonical text. */
  function BodyHash(c: Crypto, b: AuthorizationBody): Option<string>
  {
    if Valid(BodyJson(b)) then Some(DomainHash(c, AUTHORIZATION_TAG, BodyJson(b))) else None
  }

  // ------------------------------------------------------------ build and verify

  /** What the Final Manifest and the Board verification fix. */
  datatype Frame = Frame(verification: BoardVerification, minimum: int, order: seq<string>)

  predicate GoodOption(c: Crypto, hashes: map<string, string>, id: string)
    requires id in hashes
  {
    id != "" && c.isDigest(hashes[id])
  }

  /** The loop of `build_aggregate_authorization`. */
  method Normalize(c: Crypto, hashes: map<string, string>, order: seq<string>) returns (r: Result<seq<OptionAggregate>>)
    requires forall id | id in order :: id in hashes
    ensures r == Normalized(c, hashes, order)
  {
    var normalized: seq<OptionAggregate> := [];
    for n := 0 to |order|
      invariant normalized == Aggregates(hashes, order[..n])
      invariant forall i | 0 <= i < n :: GoodOption(c, hashes, order[i])
    {
      var id := order[n];
      if id == "" || !c.isDigest(hashes[id]) {
        assert !GoodOption(c, hashes, order[n]);
        return Failure(NonCanonical);
      }
      normalized := normalized + [OptionAggregate(hashes[id], id)];
    }
    assert order[..|order|] == order;
    return Success(normalized);
  }

  function Aggregates(hashes: map<string, string>, order: seq<string>): seq<OptionAggregate>
    requires forall id | id in order :: id in hashes
  {
    seq(|order|, i requires 0 <= i < |order| => OptionAggregate(hashes[order[i]], order[i]))
  }

  function Normalized(c: Crypto, hashes: map<string, string>, order: seq<string>): Result<seq<OptionAggregate>>
    requires forall id | id in order :: id in hashes
  {
    if forall i | 0 <= i < |order| :: GoodOption(c, hashes, order[i]) then Success(Aggregates(hashes, order))
    else Failure(NonCanonical)
  }

  /** `build_aggregate_authorization`. */
  function Build(c: Crypto, f: Frame, finalBoardRoot: string, hashes: map<string, string>, disputeHash: string): Result<Authorization>
  {
    if f.verification.acceptedCount < f.minimum then Failure(AnonymitySetTooSmall)
    else if !f.verification.decryptionReady then Failure(DecryptionUnauthorized)
    else if !c.isDigest(finalBoardRoot) || !c.isDigest(disputeHash) || hashes == map[] then Failure(NonCanonical)
    else if |f.order| != |hashes| || !Distinct(f.order) || Elements(f.order) != hashes.Keys then Failure(NonCanonical)
    else
      match Normalized(c, hashes, (OrderIsKnown(f.order, hashes); f.order))
      case Failure(e) => Failure(e)
      case Success(options) =>
        Stamp(c, AuthorizationBody(f.verification.acceptedCount, finalBoardRoot, f.verification.decisionId, disputeHash,
                                   finalBoardRoot, f.minimum, options, PROFILE_ID, AUTHORIZATION_SCHEMA))
  }

  lemma OrderIsKnown(order: seq<string>, hashes: map<string, string>)
    requires Elements(order) == hashes.Keys
    ensures forall id | id in order :: id in hashes
  {
    forall id | id in order ensures id in hashes {
      assert id in Elements(order);
    }
  }

  function Stamp(c: Crypto, b: AuthorizationBody): Result<Authorization>
  {
    match BodyHash(c, b)
    case None => Failure(NonCanonical)
    case Some(hash) => Success(Authorization(b, hash))
  }

  function OptionIds(options: seq<OptionAggregate>): seq<string>
  {
    seq(|options|, i requires 0 <= i < |options| => options[i].optionId)
  }

  /** `verify_aggregate_authorization`, on an object whose fields are all there and of the right types. */
  function Verify(c: Crypto, a: Authorization, f: Frame): Result<string>
  {
    var b := a.body;
    if b.schema != AUTHORIZATION_SCHEMA || b.profileId != PROFILE_ID then Failure(ContextMismatch)
    else if b.decisionId != f.verification.decisionId || b.acceptedCount != f.verification.acceptedCount
         || b.minimumAnonymitySet != f.minimum then Failure(ContextMismatch)
    else if b.acceptedCount < f.minimum then Failure(AnonymitySetTooSmall)
    else if b.optionAggregates == [] then Failure(NonCanonical)
    else if exists i :: 0 <= i < |b.optionAggregates| && !c.isDigest(b.optionAggregates[i].aggregateHash) then Failure(NonCanonical)
    else if OptionIds(b.optionAggregates) != f.order || !Distinct(f.order) then Failure(NonCanonical)
    else
      match BodyHash(c, b)
      case None => Failure(NonCanonical)
      case Some(hash) => if a.authorizationHash != hash then Failure(ContextMismatch) else Success(hash)
  }

  /** The hash is that of the canonical text of the body. */
  ghost predicate Stamped(c: Crypto, a: Authorization)
  {
    Valid(BodyJson(a.body)) && a.authorizationHash == DomainHash(c, AUTHORIZATION_TAG, BodyJson(a.body))
  }

  /** A board that is ready and large enough, digests, and one aggregate for every option of the frozen order. */
  ghost predicate GoodInputs(c: Crypto, f: Frame, finalBoardRoot: string, hashes: map<string, string>, disputeHash: string)
  {
    && f.verification.acceptedCount >= f.minimum && f.verification.decryptionReady
    && c.isDigest(finalBoardRoot) && c.isDigest(disputeHash)
    && f.order != [] && Distinct(f.order) && Elements(f.order) == hashes.Keys
    && forall id | id in hashes :: id != "" && c.isDigest(hashes[id])
  }

  /** The body over the inputs: its options in the frozen order, each with its aggregate. */
  ghost predicate BodyFrom(f: Frame, finalBoardRoot: string, hashes: map<string, string>, disputeHash: string, b: AuthorizationBody)
  {
    && b.acceptedCount == f.verification.acceptedCount && b.decisionId == f.verification.decisionId
    && b.minimumAnonymitySet == f.minimum
    && b.acceptedSetRoot == finalBoardRoot && b.finalBoardRoot == finalBoardRoot && b.disputeCheckpointHash == disputeHash
    && b.profileId == PROFILE_ID && b.schema == AUTHORIZATION_SCHEMA
    && OptionIds(b.optionAggregates) == f.order
    && forall o | o in b.optionAggregates :: o.optionId in hashes && o.aggregateHash == hashes[o.optionId]
  }

  lemma OrderCounts(order: seq<string>, hashes: map<string, string>)
    requires Distinct(order) && Elements(order) == hashes.Keys
    ensures |order| == |hashes| && (order != [] <==> hashes != map[])
  {
    DistinctCount(order);
    assert |hashes.Keys| == |hashes|;
  }

  lemma AggregatesMeaning(hashes: map<string, string>, order: seq<string>, options: seq<OptionAggregate>)
    requires forall id | id in order :: id in hashes
    ensures options == Aggregates(hashes, order) <==>
            OptionIds(options) == order && forall o | o in options :: o.optionId in hashes && o.aggregateHash == hashes[o.optionId]
  {
    if OptionIds(options) == order && forall o | o in options :: o.optionId in hashes && o.aggregateHash == hashes[o.optionId] {
      forall i | 0 <= i < |options| ensures options[i] == Aggregates(hashes, order)[i] {
        assert options[i] in options && options[i].optionId == OptionIds(options)[i];
      }
      assert |options| == |OptionIds(options)|;
    }
    if options == Aggregates(hashes, order) {
      assert OptionIds(options) == order;
    }
  }

  lemma NormalizedMeaning(c: Crypto, hashes: map<string, string>, order: seq<string>)
    requires Elements(order) == hashes.Keys && forall id | id in order :: id in hashes
    ensures Normalized(c, hashes, order) ==
            if forall id | id in hashes :: id != "" && c.isDigest(hashes[id]) then Success(Aggregates(hashes, order))
            else Failure(NonCanonical)
  {
    if forall id | id in hashes :: id != "" && c.isDigest(hashes[id]) {
      forall i | 0 <= i < |order| ensures GoodOption(c, hashes, order[i]) {
        assert order[i] in order;
      }
    }
    if forall i | 0 <= i < |order| :: GoodOption(c, hashes, order[i]) {
      forall id | id in hashes ensures id != "" && c.isDigest(hashes[id]) {
        assert id in Elements(order);
        var i :| 0 <= i < |order| && order[i] == id;
        assert GoodOption(c, hashes, order[i]);
      }
    }
  }

  /** What is built, from which inputs, and the error for the others. */
  lemma BuildMeaning(c: Crypto, f: Frame, finalBoardRoot: string, hashes: map<string, string>, disputeHash: string, a: Authorization)
    ensures f.verification.acceptedCount < f.minimum ==>
              Build(c, f, finalBoardRoot, hashes, disputeHash) == Failure(AnonymitySetTooSmall)
    ensures f.verification.acceptedCount >= f.minimum && !f.verification.decryptionReady ==>
              Build(c, f, finalBoardRoot, hashes, disputeHash) == Failure(DecryptionUnauthorized)
    ensures Build(c, f, finalBoardRoot, hashes, disputeHash) == Success(a) <==>
            GoodInputs(c, f, finalBoardRoot, hashes, disputeHash) && BodyFrom(f, finalBoardRoot, hashes, disputeHash, a.body)
            && Stamped(c, a)
  {
    if Distinct(f.order) && Elements(f.order) == hashes.Keys {
      OrderCounts(f.order, hashes);
      OrderIsKnown(f.order, hashes);
      AggregatesMeaning(hashes, f.order, a.body.optionAggregates);
      NormalizedMeaning(c, hashes, f.order);
    }
  }

  /** An authorization that fits its frame: the counts of the board, and options in the frozen order. */
  ghost predicate FitsFrame(c: Crypto, b: AuthorizationBody, f: Frame)
  {
    && b.schema == AUTHORIZATION_SCHEMA && b.profileId == PROFILE_ID
    && b.decisionId == f.verification.decisionId && b.acceptedCount == f.verification.acceptedCount
    && b.minimumAnonymitySet == f.minimum && b.acceptedCount >= f.minimum
    && f.order != [] && Distinct(f.order) && OptionIds(b.optionAggregates) == f.order
    && forall o | o in b.optionAggregates :: c.isDigest(o.aggregateHash)
  }

  /** What is accepted, and under which hash. */
  lemma VerifyMeaning(c: Crypto, a: Authorization, f: Frame, hash: string)
    ensures Verify(c, a, f) == Success(hash) <==> FitsFrame(c, a.body, f) && Stamped(c, a) && hash == a.authorizationHash
  {
    var options := a.body.optionAggregates;
    assert |OptionIds(options)| == |options|;
    if forall o | o in options :: c.isDigest(o.aggregateHash) {
      assert forall i | 0 <= i < |options| :: options[i] in options;
    }
  }

  predicate InFrame(b: AuthorizationBody, f: Frame)
  {
    && b.schema == AUTHORIZATION_SCHEMA && b.profileId == PROFILE_ID
    && b.decisionId == f.verification.decisionId && b.acceptedCount == f.verification.acceptedCount
    && b.minimumAnonymitySet == f.minimum
  }

  /** The error for the others: the first of context, count, options, text and hash that is wrong. */
  lemma VerifyErrors(c: Crypto, a: Authorization, f: Frame)
    requires Verify(c, a, f).Failure?
    ensures Verify(c, a, f).error ==
            if !InFrame(a.body, f) then ContextMismatch
            else if a.body.acceptedCount < f.minimum then AnonymitySetTooSmall
            else if !FitsFrame(c, a.body, f) || !Valid(BodyJson(a.body)) then NonCanonical
            else ContextMismatch
  {
    VerifyMeaning(c, a, f, a.authorizationHash);
    var options := a.body.optionAggregates;
    assert |OptionIds(options)| == |options|;
    if forall i | 0 <= i < |options| :: c.isDigest(options[i].aggregateHash) {
      assert forall o | o in options :: c.isDigest(o.aggregateHash);
    }
    if forall o | o in options :: c.isDigest(o.aggregateHash) {
      assert forall i | 0 <= i < |options| :: options[i] in options;
    }
  }

  /** Whatever is built is accepted for the same inputs, under its own hash. */
  lemma BuildThenVerify(c: Crypto, f: Frame, finalBoardRoot: string, hashes: map<string, string>, disputeHash: string)
    requires Build(c, f, finalBoardRoot, hashes, disputeHash).Success?
    ensures var a := Build(c, f, finalBoardRoot, hashes, disputeHash).value;
            Verify(c, a, f) == Success(a.authorizationHash)
  {
    OrderIsKnown(f.order, hashes);
    var options := Aggregates(hashes, f.order);
    assert OptionIds(options) == f.order;
    assert |f.order| == |hashes| > 0;
    assert forall i | 0 <= i < |options| :: GoodOption(c, hashes, f.order[i]);
  }

  /** What the builder requires beyond what the verifier checks. */
  ghost predicate Buildable(c: Crypto, b: AuthorizationBody, f: Frame)
  {
    && f.verification.decryptionReady
    && b.acceptedSetRoot == b.finalBoardRoot
    && c.isDigest(b.finalBoardRoot) && c.isDigest(b.disputeCheckpointHash)
    && forall i | 0 <= i < |b.optionAggregates| :: b.optionAggregates[i].optionId != ""
  }

  ghost predicate IsBuilt(c: Crypto, a: Authorization, f: Frame)
  {
    exists root, hashes, disputeHash :: Build(c, f, root, hashes, disputeHash) == Success(a)
  }

  lemma BuiltIsBuildable(c: Crypto, f: Frame, root: string, hashes: map<string, string>, disputeHash: string)
    requires Build(c, f, root, hashes, disputeHash).Success?
    ensures Buildable(c, Build(c, f, root, hashes, disputeHash).value.body, f)
  {
    OrderIsKnown(f.order, hashes);
    assert forall i | 0 <= i < |f.order| :: GoodOption(c, hashes, f.order[i]);
  }

  /** The dictionary that pairs the options of a body with their hashes. */
  function HashesOf(options: seq<OptionAggregate>): map<string, string>
    requires Distinct(OptionIds(options))
  {
    map i | 0 <= i < |options| :: OptionIds(options)[i] := options[i].aggregateHash
  }

  lemma HashesOfOptions(c: Crypto, options: seq<OptionAggregate>)
    requires Distinct(OptionIds(options))
    requires forall i | 0 <= i < |options| :: options[i].optionId != "" && c.isDigest(options[i].aggregateHash)
    ensures var hashes, order := HashesOf(options), OptionIds(options);
            && hashes.Keys == Elements(order) && |hashes| == |order|
            && (forall id | id in order :: id in hashes)
            && Normalized(c, hashes, order) == Success(options)
  {
    var hashes, order := HashesOf(options), OptionIds(options);
    assert forall i | 0 <= i < |options| :: order[i] in hashes && hashes[order[i]] == options[i].aggregateHash;
    assert hashes.Keys == Elements(order);
    OrderIsKnown(order, hashes);
    DistinctCount(order);
    assert |hashes.Keys| == |hashes|;
    assert forall i | 0 <= i < |order| :: GoodOption(c, hashes, order[i]);
    assert Aggregates(hashes, order) == options;
  }

  lemma AcceptedIsBuilt(c: Crypto, a: Authorization, f: Frame)
    requires Verify(c, a, f).Success? && Buildable(c, a.body, f)
    ensures IsBuilt(c, a, f)
  {
    var b := a.body;
    HashesOfOptions(c, b.optionAggregates);
    var hashes := HashesOf(b.optionAggregates);
    assert |hashes| > 0;
    assert Build(c, f, b.finalBoardRoot, hashes, b.disputeCheckpointHash) == Stamp(c, b);
    assert Build(c, f, b.finalBoardRoot, hashes, b.disputeCheckpointHash) == Success(a);
  }

  /** The bodies that are built are the accepted ones that also name one root, digests, options and a board
      that is ready; none of these the verifier looks at. */
  lemma BuiltIff(c: Crypto, a: Authorization, f: Frame)
    ensures IsBuilt(c, a, f) <==> Verify(c, a, f).Success? && Buildable(c, a.body, f)
  {
    if IsBuilt(c, a, f) {
      var root, hashes, disputeHash :| Build(c, f, root, hashes, disputeHash) == Success(a);
      BuildThenVerify(c, f, root, hashes, disputeHash);
      BuiltIsBuildable(c, f, root, hashes, disputeHash);
    }
    if Verify(c, a, f).Success? && Buildable(c, a.body, f) {
      AcceptedIsBuilt(c, a, f);
    }
  }

  /** Any accepted authorization gives one that is accepted and that is never built: with another text for the
      root of the accepted set, hashed anew. */
  lemma AcceptedNotBuilt(c: Crypto, a: Authorization, f: Frame, other: string) returns (a': Authorization)
    requires Verify(c, a, f).Success? && ValidString(other) && other != a.body.finalBoardRoot
    ensures a'.body == a.body.(acceptedSetRoot := other)
    ensures Verify(c, a', f) == Success(a'.authorizationHash) && !IsBuilt(c, a', f)
  {
    var body := a.body.(acceptedSetRoot := other);
    VerifyMeaning(c, a, f, a.authorizationHash);
    OtherRootIsText(a.body, other);
    a' := Authorization(body, DomainHash(c, AUTHORIZATION_TAG, BodyJson(body)));
    VerifyMeaning(c, a', f, a'.authorizationHash);
    BuiltIff(c, a', f);
  }

  lemma OtherRootIsText(b: AuthorizationBody, other: string)
    requires Valid(BodyJson(b)) && ValidString(other)
    ensures Valid(BodyJson(b.(acceptedSetRoot := other)))
  {
    KeysAreDistinct();
    DictUpdateIsValid(BODY_KEYS, BodyValues(b), 1, Str(other));
    assert BodyValues(b.(acceptedSetRoot := other)) == BodyValues(b)[1 := Str(other)];
  }

  // ---------------------------------------------------- the hash fixes the body

  lemma {:induction false} OptionJsonsAreInjective(a: seq<OptionAggregate>, b: seq<OptionAggregate>)
    requires OptionJsons(a) == OptionJsons(b)
    ensures a == b
  {
    KeysAreDistinct();
    assert |OptionJsons(a)| == |a| && |OptionJsons(b)| == |b|;
    forall i | 0 <= i < |a| ensures a[i] == b[i] {
      assert OptionJsons(a)[i] == OptionJsons(b)[i];
      var v, w := [Str(a[i].aggregateHash), Str(a[i].optionId)], [Str(b[i].aggregateHash), Str(b[i].optionId)];
      DictIsInjective(OPTION_KEYS, v, w);
      assert v[0] == w[0] && v[1] == w[1];
    }
  }

  lemma BodyJsonIsInjective(a: AuthorizationBody, b: AuthorizationBody)
    requires BodyJson(a) == BodyJson(b)
    ensures a == b
  {
    KeysAreDistinct();
    var v, w := BodyValues(a), BodyValues(b);
    DictIsInjective(BODY_KEYS, v, w);
    assert v[0] == w[0] && v[1] == w[1] && v[2] == w[2] && v[3] == w[3] && v[4] == w[4];
    assert v[5] == w[5] && v[6] == w[6] && v[7] == w[7] && v[8] == w[8];
    OptionJsonsAreInjective(a.optionAggregates, b.optionAggregates);
  }

  /** The hash that Guardians lock determines the whole authorization. */
  lemma SameHashSameAuthorization(c: Crypto, a: Authorization, f: Frame, a': Authorization, f': Frame)
    requires Ideal(c) && Verify(c, a, f).Success? && Verify(c, a', f') == Verify(c, a, f)
    ensures a == a'
  {
    DomainHashIsInjective(c, AUTHORIZATION_TAG, BodyJson(a.body), AUTHORIZATION_TAG, BodyJson(a'.body));
    BodyJsonIsInjective(a.body, a'.body);
  }
}
