/** The frozen Final Manifest, as far as the board, the tally and the proofs read it. */
module Manifests {
  import opened Ordering
  import opened CanonicalJson
  import opened JsonObjects
  import opened Hashing

  const PROFILE_ID := "vsdp-low-coercion-single-choice-v1"
  const WITNESS_COUNT := 4
  const WITNESS_QUORUM := 3
  const GUARDIAN_COUNT := 5
  const GUARDIAN_THRESHOLD := 3

  datatype Manifest = Manifest(
    decisionId: string,
    manifestHash: string,
    epoch: string,
    genesis: string,
    witnesses: seq<string>,
    opensAt: int,
    closesAt: int,
    closesText: string,
    minimumAnonymitySet: int,
    tallyKeyId: string,
    optionIds: seq<string>)

  /** What `validate_final_manifest` guarantees about those fields. */
  ghost predicate ValidManifest(c: Crypto, m: Manifest)
  {
    && c.isDigest(m.decisionId) && c.isDigest(m.manifestHash)
    && c.isDigest(m.genesis) && c.isDigest(m.tallyKeyId)
    && ValidString(m.epoch) && ValidString(m.closesText)
    && |m.witnesses| == WITNESS_COUNT && Increasing(m.witnesses)
    && (forall k | k in m.witnesses :: c.isDigest(k))
    && m.opensAt < m.closesAt
    && m.minimumAnonymitySet >= 3
    && 2 <= |m.optionIds| <= 16
    && (forall i, j | 0 <= i < j < |m.optionIds| :: m.optionIds[i] != m.optionIds[j])
    && (forall i | 0 <= i < |m.optionIds| :: m.optionIds[i] != "" && ValidString(m.optionIds[i]))
  }

  /** The setting every check runs in: ideal primitives and a validated manifest. */
  ghost predicate Sound(c: Crypto, m: Manifest)
  {
    Ideal(c) && ValidManifest(c, m)
  }

  lemma DigestIsText(c: Crypto, s: string)
    requires Ideal(c) && (c.isDigest(s) || c.isSignature(s))
    ensures ValidString(s)
  {
    assert HexIsText(c, s);
  }

  lemma WitnessKeysAreText(c: Crypto, m: Manifest)
    requires Sound(c, m)
    ensures forall k | k in m.witnesses :: ValidString(k)
  {
    forall k | k in m.witnesses ensures ValidString(k) {
      DigestIsText(c, k);
    }
  }

  const WITNESS_ID_TAG := "vsdp/witness-id/v1"
  const WITNESS_ID_KEYS := ["public_key"]

  function WitnessIdJson(key: string): (v: Json)
    ensures ValidString(key) ==> Valid(v)
  {
    DictIsValid(WITNESS_ID_KEYS, [Str(key)]);
    Dict(WITNESS_ID_KEYS, [Str(key)])
  }

  function WitnessId(c: Crypto, key: string): string
    requires ValidString(key)
  {
    DomainHash(c, WITNESS_ID_TAG, WitnessIdJson(key))
  }

  lemma WitnessIdIsInjective(c: Crypto, key: string, key': string)
    requires Ideal(c) && ValidString(key) && ValidString(key')
    requires WitnessId(c, key) == WitnessId(c, key')
    ensures key == key'
  {
    var tag := WITNESS_ID_TAG;
    DomainHashIsInjective(c, tag, WitnessIdJson(key), tag, WitnessIdJson(key'));
    DictIsInjective(WITNESS_ID_KEYS, [Str(key)], [Str(key')]);
  }

  /** `witness_map`: the key of every Witness, by its id. */
  function WitnessMap(c: Crypto, keys: seq<string>): map<string, string>
    requires forall k | k in keys :: ValidString(k)
  {
    if keys == [] then map[]
    else
      var last := keys[|keys| - 1];
      WitnessMap(c, keys[..|keys| - 1])[WitnessId(c, last) := last]
  }

  /** Looking an id up finds a key exactly when the key is listed and has that id. */
  lemma {:induction false} WitnessMapLookup(c: Crypto, keys: seq<string>, id: string, key: string)
    requires Ideal(c) && forall k | k in keys :: ValidString(k)
    ensures (id in WitnessMap(c, keys) && WitnessMap(c, keys)[id] == key)
            <==> (key in keys && WitnessId(c, key) == id)
  {
    if keys != [] {
      var n := |keys| - 1;
      var front, last := keys[..n], keys[n];
      assert keys == front + [last];
      WitnessMapLookup(c, front, id, key);
      if WitnessId(c, last) == id && key in keys && WitnessId(c, key) == id {
        WitnessIdIsInjective(c, key, last);
      }
    }
  }
}
