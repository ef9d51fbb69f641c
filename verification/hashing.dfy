/** Hashes and signatures of the ceremony package, as an ideal oracle. */
module Hashing {
  import opened Outcomes
  import opened CanonicalJson
  import opened CanonicalLaws

  /** What SHA-256 is applied to: a text, a Merkle leaf over an id, or a Merkle node over two digests. */
  datatype Preimage =
    | Text(text: string)
    | BoardLeaf(id: string)
    | BoardNode(left: string, right: string)

  /** SHA-256 and Ed25519, with the two hex formats that `require_hex` accepts for them. */
  datatype Crypto = Crypto(
    sha: Preimage -> string,
    isDigest: string -> bool,
    isSignature: string -> bool,
    sign: (string, string) -> string,
    verify: (string, string, string) -> bool)

  predicate Collide(c: Crypto, p: Preimage, q: Preimage)
  {
    c.sha(p) == c.sha(q)
  }

  predicate HashIsDigest(c: Crypto, p: Preimage)
  {
    c.isDigest(c.sha(p))
  }

  predicate HexIsText(c: Crypto, s: string)
  {
    c.isDigest(s) || c.isSignature(s) ==> ValidString(s)
  }

  predicate SignatureVerifies(c: Crypto, key: string, message: string)
  {
    && c.isSignature(c.sign(key, message))
    && c.verify(key, c.sign(key, message), message)
  }

  /** Collision-free hashing into well-formed digests, and signatures that their own key verifies. */
  ghost predicate Ideal(c: Crypto)
  {
    && (forall p, q :: Collide(c, p, q) ==> p == q)
    && (forall p :: HashIsDigest(c, p))
    && (forall s :: HexIsText(c, s))
    && (forall key, message :: SignatureVerifies(c, key, message))
  }

  const NUL := 0 as char

  predicate IsTag(tag: string)
  {
    NUL !in tag
  }

  /** The text a domain hash is taken of: tag, NUL, canonical JSON. */
  function DomainText(tag: string, v: Json): string
    requires Valid(v)
  {
    tag + [NUL] + Dumps(v)
  }

  /** The tag, a NUL, and then a text that reads as the value. */
  lemma DomainTextMeaning(tag: string, v: Json, text: string)
    requires Valid(v)
    ensures text == DomainText(tag, v) <==>
            |text| > |tag| && text[..|tag|] == tag && text[|tag|] == NUL && ParseCanonical(text[|tag| + 1..]) == Success(v)
  {
    if |text| > |tag| {
      AcceptedTexts(text[|tag| + 1..], v);
      assert text == text[..|tag|] + [text[|tag|]] + text[|tag| + 1..];
    }
    if text == DomainText(tag, v) {
      assert text[|tag| + 1..] == Dumps(v);
    }
  }

  function DomainHash(c: Crypto, tag: string, v: Json): string
    requires Valid(v)
  {
    c.sha(Text(DomainText(tag, v)))
  }

  lemma TextEndsTag(tag: string, tag': string, rest: string, rest': string)
    requires IsTag(tag) && IsTag(tag')
    requires tag + [NUL] + rest == tag' + [NUL] + rest'
    ensures tag == tag' && rest == rest'
  {
    var t := tag + [NUL] + rest;
    assert t[|tag|] == NUL && t[|tag'|] == NUL;
    assert forall i | 0 <= i < |tag| :: t[i] == tag[i];
    assert forall i | 0 <= i < |tag'| :: t[i] == tag'[i];
    assert !(|tag| < |tag'|) && !(|tag'| < |tag|);
    assert tag == t[..|tag|] == tag';
    assert rest == t[|tag| + 1..] == rest';
  }

  /** Tag and value can be read back from the text that is hashed. */
  lemma DomainTextIsInjective(tag: string, v: Json, tag': string, w: Json)
    requires IsTag(tag) && IsTag(tag') && Valid(v) && Valid(w)
    requires DomainText(tag, v) == DomainText(tag', w)
    ensures tag == tag' && v == w
  {
    TextEndsTag(tag, tag', Dumps(v), Dumps(w));
    PrintIsInjective(v, w);
  }

  lemma DomainHashIsInjective(c: Crypto, tag: string, v: Json, tag': string, w: Json)
    requires Ideal(c) && IsTag(tag) && IsTag(tag') && Valid(v) && Valid(w)
    requires DomainHash(c, tag, v) == DomainHash(c, tag', w)
    ensures tag == tag' && v == w
  {
    assert Collide(c, Text(DomainText(tag, v)), Text(DomainText(tag', w)));
    DomainTextIsInjective(tag, v, tag', w);
  }

  lemma DomainHashIsDigest(c: Crypto, tag: string, v: Json)
    requires Ideal(c) && Valid(v)
    ensures c.isDigest(DomainHash(c, tag, v)) && ValidString(DomainHash(c, tag, v))
  {
    assert HashIsDigest(c, Text(DomainText(tag, v)));
    assert HexIsText(c, DomainHash(c, tag, v));
  }

  /** The text whose hash stands for a board without records. */
  const EMPTY_BOARD := "vsdp/board-empty/v1"
}
