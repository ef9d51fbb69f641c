/** Unpadded base64url as ballots and direct messages carry it (section 5 of RFC 4648). */
module Base64Url {
  import opened Outcomes

  type Byte = x: int | 0 <= x < 256
  type Sextet = x: int | 0 <= x < 64

  // --------------------------------------------------------------- alphabet

  function SextetChar(v: Sextet): char
  {
    if v < 26 then ('A' as int + v) as char
    else if v < 52 then ('a' as int + v - 26) as char
    else if v < 62 then ('0' as int + v - 52) as char
    else if v == 62 then '-'
    else '_'
  }

  /** The library decoder maps `-` and `_` onto `+` and `/`, so it knows all four. */
  function CharSextet(c: char): Option<Sextet>
  {
    if 'A' <= c <= 'Z' then Some(c as int - 'A' as int)
    else if 'a' <= c <= 'z' then Some(c as int - 'a' as int + 26)
    else if '0' <= c <= '9' then Some(c as int - '0' as int + 52)
    else if c == '-' || c == '+' then Some(62)
    else if c == '_' || c == '/' then Some(63)
    else None
  }

  predicate IsUrlChar(c: char)
  {
    'A' <= c <= 'Z' || 'a' <= c <= 'z' || '0' <= c <= '9' || c == '-' || c == '_'
  }

  function Letters(s: seq<Sextet>): string
  {
    seq(|s|, i requires 0 <= i < |s| => SextetChar(s[i]))
  }

  function Values(value: string): Option<seq<Sextet>>
  {
    if forall i | 0 <= i < |value| :: CharSextet(value[i]).Some?
    then Some(seq(|value|, i requires 0 <= i < |value| => CharSextet(value[i]).value))
    else None
  }

  // ---------------------------------------------------- bytes and six-bit groups

  function Quad(a: Byte, b: Byte, c: Byte): seq<Sextet>
  {
    [a / 4, a % 4 * 16 + b / 16, b % 16 * 4 + c / 64, c % 64]
  }

  function Triple(s: int, t: int, u: int, v: int): seq<Byte>
    requires 0 <= s < 64 && 0 <= t < 64 && 0 <= u < 64 && 0 <= v < 64
  {
    [s * 4 + t / 16, t % 16 * 16 + u / 4, u % 4 * 64 + v]
  }

  /** Three bytes are four groups of six bits; a short last part is filled up with zero bits. */
  function Sextets(raw: seq<Byte>): seq<Sextet>
  {
    if |raw| == 0 then []
    else if |raw| == 1 then Quad(raw[0], 0, 0)[..2]
    else if |raw| == 2 then Quad(raw[0], raw[1], 0)[..3]
    else Quad(raw[0], raw[1], raw[2]) + Sextets(raw[3..])
  }

  /** The whole bytes in the groups; bits beyond the last whole byte are dropped. */
  function Octets(s: seq<Sextet>): seq<Byte>
    requires |s| % 4 != 1
  {
    if |s| == 0 then []
    else if |s| == 2 then Triple(s[0], s[1], 0, 0)[..1]
    else if |s| == 3 then Triple(s[0], s[1], s[2], 0)[..2]
    else Triple(s[0], s[1], s[2], s[3]) + Octets(s[4..])
  }

  // -------------------------------------------------------- encode and decode

  /** `b64u_encode`: the library encoder with the padding stripped. */
  function Encode(raw: seq<Byte>): string
  {
    Letters(Sextets(raw))
  }

  /** The library decoder on the text padded to whole groups. */
  function DecodeLoosely(value: string): Option<seq<Byte>>
  {
    match Values(value)
    case None => None
    case Some(s) => if |s| % 4 == 1 then None else Some(Octets(s))
  }

  /** `b64u_decode`. */
  function Decode(value: string, expectedLength: Option<int> := None): Result<seq<Byte>>
  {
    if value == "" then Failure(NonCanonical)
    else if '=' in value then Failure(NonCanonical)
    else
      match DecodeLoosely(value)
      case None => Failure(NonCanonical)
      case Some(raw) =>
        if Encode(raw) != value then Failure(NonCanonical)
        else if expectedLength.Some? && |raw| != expectedLength.value then Failure(NonCanonical)
        else Success(raw)
  }

  // ------------------------------------------------------------- round trip

  lemma LettersRoundTrip(s: seq<Sextet>)
    ensures Values(Letters(s)) == Some(s)
    ensures forall i | 0 <= i < |s| :: IsUrlChar(Letters(s)[i])
  {
    assert forall i | 0 <= i < |s| :: CharSextet(Letters(s)[i]) == Some(s[i]);
    assert Values(Letters(s)).value == s;
  }

  lemma ValuesRoundTrip(value: string)
    requires forall i | 0 <= i < |value| :: IsUrlChar(value[i])
    ensures Values(value).Some? && Letters(Values(value).value) == value
  {
  }

  /** The bits beyond the last whole byte are zero. */
  predicate ZeroFilled(s: seq<Sextet>)
  {
    && |s| % 4 != 1
    && (|s| % 4 == 2 ==> s[|s| - 1] % 16 == 0)
    && (|s| % 4 == 3 ==> s[|s| - 1] % 4 == 0)
  }

  lemma QuadRoundTrip(a: Byte, b: Byte, c: Byte)
    ensures var q := Quad(a, b, c); Triple(q[0], q[1], q[2], q[3]) == [a, b, c]
  {
  }

  lemma TripleRoundTrip(s: Sextet, t: Sextet, u: Sextet, v: Sextet)
    ensures var r := Triple(s, t, u, v); Quad(r[0], r[1], r[2]) == [s, t, u, v]
  {
    var r := Triple(s, t, u, v);
    assert r[0] / 4 == s && r[0] % 4 * 16 + r[1] / 16 == t;
    assert r[1] % 16 * 4 + r[2] / 64 == u && r[2] % 64 == v;
  }

  lemma QuadZeros(a: Byte, b: Byte)
    ensures var q := Quad(a, 0, 0); q[1] % 16 == 0 && q[2] == 0 && q[3] == 0
    ensures var q := Quad(a, b, 0); q[2] % 4 == 0 && q[3] == 0
  {
  }

  lemma OneByteRoundTrip(a: Byte)
    ensures ZeroFilled(Sextets([a])) && |Sextets([a])| == 2 && Octets(Sextets([a])) == [a]
  {
    var q := Quad(a, 0, 0);
    QuadZeros(a, 0);
    QuadRoundTrip(a, 0, 0);
    var s := [q[0], q[1]];
    assert Sextets([a]) == s;
    assert Octets(s) == Triple(q[0], q[1], q[2], q[3])[..1];
  }

  lemma TwoBytesRoundTrip(a: Byte, b: Byte)
    ensures ZeroFilled(Sextets([a, b])) && |Sextets([a, b])| == 3 && Octets(Sextets([a, b])) == [a, b]
  {
    var q := Quad(a, b, 0);
    QuadZeros(a, b);
    QuadRoundTrip(a, b, 0);
    var s := [q[0], q[1], q[2]];
    assert Sextets([a, b]) == s;
    assert Octets(s) == Triple(q[0], q[1], q[2], q[3])[..2];
  }

  lemma ZeroFilledPrepend(q: seq<Sextet>, rest: seq<Sextet>)
    requires |q| == 4
    ensures ZeroFilled(q + rest) <==> ZeroFilled(rest)
  {
    assert rest != [] ==> (q + rest)[|q + rest| - 1] == rest[|rest| - 1];
  }

  lemma {:induction false} SextetsRoundTrip(raw: seq<Byte>)
    ensures ZeroFilled(Sextets(raw)) && |Sextets(raw)| == (4 * |raw| + 2) / 3
    ensures Octets(Sextets(raw)) == raw
  {
    if |raw| == 1 {
      assert raw == [raw[0]];
      OneByteRoundTrip(raw[0]);
    } else if |raw| == 2 {
      assert raw == [raw[0], raw[1]];
      TwoBytesRoundTrip(raw[0], raw[1]);
    } else if |raw| > 2 {
      SextetsRoundTrip(raw[3..]);
      PrependRoundTrip(raw[0], raw[1], raw[2], raw[3..]);
      assert raw == [raw[0], raw[1], raw[2]] + raw[3..];
    }
  }

  /** Three more bytes in front are four more groups in front. */
  lemma PrependRoundTrip(a: Byte, b: Byte, c: Byte, rest: seq<Byte>)
    requires ZeroFilled(Sextets(rest)) && |Sextets(rest)| == (4 * |rest| + 2) / 3 && Octets(Sextets(rest)) == rest
    ensures var raw := [a, b, c] + rest;
            ZeroFilled(Sextets(raw)) && |Sextets(raw)| == (4 * |raw| + 2) / 3 && Octets(Sextets(raw)) == raw
  {
    var raw, q, s := [a, b, c] + rest, Quad(a, b, c), Sextets(rest);
    assert raw[3..] == rest;
    assert Sextets(raw) == q + s;
    assert (q + s)[4..] == s;
    ZeroFilledPrepend(q, s);
    QuadRoundTrip(a, b, c);
  }

  lemma PairRoundTrip(s: Sextet, t: Sextet)
    requires t % 16 == 0
    ensures Sextets(Octets([s, t])) == [s, t]
  {
    var r := Triple(s, t, 0, 0);
    TripleRoundTrip(s, t, 0, 0);
    assert Octets([s, t]) == [r[0]] && r[1] == 0 && r[2] == 0;
    assert Sextets([r[0]]) == Quad(r[0], r[1], r[2])[..2];
  }

  lemma TripletRoundTrip(s: Sextet, t: Sextet, u: Sextet)
    requires u % 4 == 0
    ensures Sextets(Octets([s, t, u])) == [s, t, u]
  {
    var r := Triple(s, t, u, 0);
    TripleRoundTrip(s, t, u, 0);
    assert Octets([s, t, u]) == [r[0], r[1]] && r[2] == 0;
    assert Sextets([r[0], r[1]]) == Quad(r[0], r[1], r[2])[..3];
  }

  lemma {:induction false} OctetsRoundTrip(s: seq<Sextet>)
    requires ZeroFilled(s)
    ensures Sextets(Octets(s)) == s
  {
    if |s| == 2 {
      assert s == [s[0], s[1]];
      PairRoundTrip(s[0], s[1]);
    } else if |s| == 3 {
      assert s == [s[0], s[1], s[2]];
      TripletRoundTrip(s[0], s[1], s[2]);
    } else if |s| > 3 {
      assert s == s[..4] + s[4..];
      ZeroFilledPrepend(s[..4], s[4..]);
      OctetsRoundTrip(s[4..]);
      TripleRoundTrip(s[0], s[1], s[2], s[3]);
      assert (Triple(s[0], s[1], s[2], s[3]) + Octets(s[4..]))[3..] == Octets(s[4..]);
    }
  }

  lemma EncodeRoundTrip(raw: seq<Byte>)
    ensures DecodeLoosely(Encode(raw)) == Some(raw)
    ensures |Encode(raw)| == (4 * |raw| + 2) / 3 && '=' !in Encode(raw)
  {
    LettersRoundTrip(Sextets(raw));
    SextetsRoundTrip(raw);
  }

  /** `b64u_decode` succeeds exactly on the encoding of its result, of the expected length if one is given. */
  lemma DecodeMeaning(value: string, expectedLength: Option<int>, raw: seq<Byte>)
    ensures Decode(value, expectedLength) == Success(raw)
       <==> raw != [] && value == Encode(raw) && (expectedLength.Some? ==> expectedLength.value == |raw|)
  {
    EncodeRoundTrip(raw);
  }

  /** Different byte strings have different texts. */
  lemma EncodeIsInjective(raw: seq<Byte>, raw': seq<Byte>)
    requires Encode(raw) == Encode(raw')
    ensures raw == raw'
  {
    EncodeRoundTrip(raw);
    EncodeRoundTrip(raw');
  }

  // ---------------------------------------------------------- accepted texts

  /** The canonical texts of section 3.5 of RFC 4648, without reference to encoder or decoder: URL
      alphabet, no lone last character, and no bits set beyond the last byte. */
  predicate CanonicalBase64(value: string)
  {
    && value != ""
    && (forall i | 0 <= i < |value| :: IsUrlChar(value[i]))
    && |value| % 4 != 1
    && (|value| % 4 == 2 ==> CharSextet(value[|value| - 1]).value % 16 == 0)
    && (|value| % 4 == 3 ==> CharSextet(value[|value| - 1]).value % 4 == 0)
  }

  /** The accepted texts are exactly the canonical ones. */
  lemma AcceptedTexts(value: string)
    ensures Decode(value).Success? <==> CanonicalBase64(value)
  {
    if CanonicalBase64(value) {
      ValuesRoundTrip(value);
      OctetsRoundTrip(Values(value).value);
    }
    if Decode(value).Success? {
      var raw := Decode(value).value;
      LettersRoundTrip(Sextets(raw));
      SextetsRoundTrip(raw);
    }
  }
}
