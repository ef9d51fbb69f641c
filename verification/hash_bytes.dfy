/** The bytes that SHA-256 is applied to. Bytes are characters below 256, and a byte string is a string of them.

    What is assumed of the digests that enter a Merkle leaf or node is what `hexdigest` guarantees: 64 lower-case
    hexadecimal digits. `require_hex` alone checks less, because `bytes.fromhex` skips blanks; but every record
    id that the board hashes is itself the hash of a record. */
module HashBytes {
  import opened CanonicalJson
  import opened CanonicalLaws
  import opened Hashing

  const LEAF_TAG := "vsdp/board-leaf/v1"
  const NODE_TAG := "vsdp/board-node/v1"

  // ------------------------------------------------------------------- UTF-8

  function Low6(n: nat): char
  {
    (0x80 + n % 64) as char
  }

  function CharBytes(c: char): (s: string)
    ensures s != ""
  {
    var n := c as int;
    if n < 0x80 then [c]
    else if n < 0x800 then [(0xC0 + n / 64) as char, Low6(n)]
    else if n < 0x1_0000 then [(0xE0 + n / 0x1000) as char, Low6(n / 64), Low6(n)]
    else [(0xF0 + n / 0x4_0000) as char, Low6(n / 0x1000), Low6(n / 64), Low6(n)]
  }

  function Utf8(s: string): string
  {
    if s == "" then "" else CharBytes(s[0]) + Utf8(s[1..])
  }

  predicate IsContinuation(b: char)
  {
    0x80 <= b as int < 0xC0
  }

  /** The bytes of a character carry its number: the low bits of the lead byte, then six bits a byte. */
  lemma CharBytesMeaning(c: char)
    ensures var s, n := CharBytes(c), c as int;
            || (|s| == 1 && s[0] as int == n < 0x80)
            || (|s| == 2 && 0x80 <= n && IsContinuation(s[1]) && n == (s[0] as int - 0xC0) * 64 + (s[1] as int - 0x80))
            || (|s| == 3 && 0x800 <= n && IsContinuation(s[1]) && IsContinuation(s[2])
                && n == ((s[0] as int - 0xE0) * 64 + (s[1] as int - 0x80)) * 64 + (s[2] as int - 0x80))
            || (|s| == 4 && 0x1_0000 <= n && IsContinuation(s[1]) && IsContinuation(s[2]) && IsContinuation(s[3])
                && n == (((s[0] as int - 0xF0) * 64 + (s[1] as int - 0x80)) * 64 + (s[2] as int - 0x80)) * 64 + (s[3] as int - 0x80))
  {
    var n := c as int;
    SixBits(n);
    SixBits(n / 64);
    SixBits(n / 0x1000);
    assert n / 0x1000 == n / 64 / 64 && n / 0x4_0000 == n / 0x1000 / 64;
  }

  lemma SixBits(n: nat)
    ensures n == n / 64 * 64 + (Low6(n) as int - 0x80) && IsContinuation(Low6(n))
  {
  }

  lemma CharBytesLead(c: char)
    ensures var n, lead := c as int, CharBytes(c)[0] as int;
            && (n < 0x80 <==> lead < 0x80) && (0x80 <= n < 0x800 <==> 0xC0 <= lead < 0xE0)
            && (0x800 <= n < 0x1_0000 <==> 0xE0 <= lead < 0xF0) && (0x1_0000 <= n <==> 0xF0 <= lead)
    ensures |CharBytes(c)| == if c as int < 0x80 then 1 else if c as int < 0x800 then 2 else if c as int < 0x1_0000 then 3 else 4
    ensures NUL in CharBytes(c) <==> c == NUL
  {
  }

  lemma SplitNat(n: nat, m: nat)
    requires n / 64 == m / 64 && n % 64 == m % 64
    ensures n == m
  {
  }

  lemma Low6IsInjective(n: nat, m: nat)
    requires Low6(n) == Low6(m)
    ensures n % 64 == m % 64
  {
    assert Low6(n) as int == 0x80 + n % 64 && Low6(m) as int == 0x80 + m % 64;
  }

  lemma CharBytesIsInjective(c: char, d: char)
    requires CharBytes(c) == CharBytes(d)
    ensures c == d
  {
    CharBytesLead(c);
    CharBytesLead(d);
    var n, m := c as int, d as int;
    var s, t := CharBytes(c), CharBytes(d);
    assert s[0] as int == t[0] as int && s[|s| - 1] == t[|t| - 1];
    if 0x80 <= n < 0x800 {
      Low6IsInjective(n, m);
      SplitNat(n, m);
    } else if 0x800 <= n < 0x1_0000 {
      Low6IsInjective(n, m);
      assert s[1] == t[1];
      Low6IsInjective(n / 64, m / 64);
      SplitNat(n / 64, m / 64);
      SplitNat(n, m);
    } else if 0x1_0000 <= n {
      Low6IsInjective(n, m);
      assert s[2] == t[2] && s[1] == t[1];
      Low6IsInjective(n / 64, m / 64);
      Low6IsInjective(n / 0x1000, m / 0x1000);
      SplitNat(n / 0x1000, m / 0x1000);
      SplitNat(n / 64, m / 64);
      SplitNat(n, m);
    }
    assert c as int == d as int;
  }

  /** A text can be read back from its bytes. */
  lemma {:induction false} Utf8IsInjective(s: string, t: string)
    requires Utf8(s) == Utf8(t)
    ensures s == t
  {
    if s != "" && t != "" {
      CharBytesLead(s[0]);
      CharBytesLead(t[0]);
      assert Utf8(s)[0] == CharBytes(s[0])[0] && Utf8(t)[0] == CharBytes(t[0])[0];
      var n := |CharBytes(s[0])|;
      assert Utf8(s)[..n] == CharBytes(s[0]) && Utf8(t)[..n] == CharBytes(t[0]);
      CharBytesIsInjective(s[0], t[0]);
      assert Utf8(s)[n..] == Utf8(s[1..]) && Utf8(t)[n..] == Utf8(t[1..]);
      Utf8IsInjective(s[1..], t[1..]);
      assert s == [s[0]] + s[1..] && t == [t[0]] + t[1..];
    }
  }

  lemma {:induction false} Utf8Concat(s: string, t: string)
    ensures Utf8(s + t) == Utf8(s) + Utf8(t)
  {
    if s == "" {
      assert s + t == t;
    } else {
      assert (s + t)[1..] == s[1..] + t;
      Utf8Concat(s[1..], t);
    }
  }

  predicate IsAscii(s: string)
  {
    forall i | 0 <= i < |s| :: s[i] as int < 0x80
  }

  lemma {:induction false} Utf8OfAscii(s: string)
    requires IsAscii(s)
    ensures Utf8(s) == s
  {
    if s != "" {
      Utf8OfAscii(s[1..]);
      assert s == [s[0]] + s[1..];
    }
  }

  lemma {:induction false} Utf8Nul(s: string)
    ensures NUL in Utf8(s) <==> NUL in s
  {
    if s != "" {
      CharBytesLead(s[0]);
      Utf8Nul(s[1..]);
      assert s == [s[0]] + s[1..];
    }
  }

  // ----------------------------------------------------------------- digests

  predicate IsHexDigit(c: char)
  {
    '0' <= c <= '9' || 'a' <= c <= 'f'
  }

  function HexValueOf(c: char): (v: nat)
    requires IsHexDigit(c)
    ensures v < 16
  {
    if c <= '9' then c as int - '0' as int else c as int - 'a' as int + 10
  }

  lemma HexValueIsInjective(c: char, d: char)
    requires IsHexDigit(c) && IsHexDigit(d) && HexValueOf(c) == HexValueOf(d)
    ensures c == d
  {
    assert c as int == d as int;
  }

  /** What `hexdigest` returns. */
  predicate HexDigest(s: string)
  {
    |s| == 64 && forall i | 0 <= i < 64 :: IsHexDigit(s[i])
  }

  function HexByte(s: string, i: nat): char
    requires HexDigest(s) && i < 32
  {
    (HexValueOf(s[2 * i]) * 16 + HexValueOf(s[2 * i + 1])) as char
  }

  /** `bytes.fromhex` on a digest. */
  function Unhex(s: string): (b: string)
    requires HexDigest(s)
    ensures |b| == 32
  {
    seq(32, i requires 0 <= i < 32 => HexByte(s, i))
  }

  lemma HexByteIsInjective(s: string, t: string, i: nat)
    requires HexDigest(s) && HexDigest(t) && i < 32 && HexByte(s, i) == HexByte(t, i)
    ensures s[2 * i] == t[2 * i] && s[2 * i + 1] == t[2 * i + 1]
  {
    var a, b := HexValueOf(s[2 * i]) * 16 + HexValueOf(s[2 * i + 1]), HexValueOf(t[2 * i]) * 16 + HexValueOf(t[2 * i + 1]);
    assert a == HexByte(s, i) as int == HexByte(t, i) as int == b;
    HexValueIsInjective(s[2 * i], t[2 * i]);
    HexValueIsInjective(s[2 * i + 1], t[2 * i + 1]);
  }

  lemma UnhexIsInjective(s: string, t: string)
    requires HexDigest(s) && HexDigest(t) && Unhex(s) == Unhex(t)
    ensures s == t
  {
    forall k | 0 <= k < 64 ensures s[k] == t[k] {
      var i := k / 2;
      assert HexByte(s, i) == Unhex(s)[i] == Unhex(t)[i] == HexByte(t, i);
      HexByteIsInjective(s, t, i);
      assert k == 2 * i || k == 2 * i + 1;
    }
  }

  // --------------------------------------------------------------- separation

  /** A tag of the package for a canonical text. */
  predicate TextTag(tag: string)
  {
    IsTag(tag) && IsAscii(tag) && tag != LEAF_TAG && tag != NODE_TAG
  }

  /** What the package hashes: tagged texts, texts without NUL, and Merkle leaves and nodes over digests. */
  ghost predicate Hashable(p: Preimage)
  {
    match p
    case Text(t) => NUL !in t || exists tag, rest :: TextTag(tag) && t == tag + [NUL] + rest
    case BoardLeaf(id) => HexDigest(id)
    case BoardNode(l, r) => HexDigest(l) && HexDigest(r)
  }

  predicate OverDigests(p: Preimage)
  {
    match p
    case Text(_) => true
    case BoardLeaf(id) => HexDigest(id)
    case BoardNode(l, r) => HexDigest(l) && HexDigest(r)
  }

  function Bytes(p: Preimage): string
    requires OverDigests(p)
  {
    match p
    case Text(t) => Utf8(t)
    case BoardLeaf(id) => LEAF_TAG + [NUL] + Unhex(id)
    case BoardNode(l, r) => NODE_TAG + [NUL] + (Unhex(l) + Unhex(r))
  }

  lemma MerkleTagsDiffer()
    ensures IsTag(LEAF_TAG) && IsTag(NODE_TAG) && LEAF_TAG != NODE_TAG
  {
    assert LEAF_TAG[11] != NODE_TAG[11];
  }

  lemma TaggedBytes(tag: string, rest: string)
    requires IsAscii(tag)
    ensures Utf8(tag + [NUL] + rest) == tag + [NUL] + Utf8(rest)
  {
    assert IsAscii(tag + [NUL]);
    Utf8OfAscii(tag + [NUL]);
    Utf8Concat(tag + [NUL], rest);
  }

  lemma TextIsNotMerkle(p: Preimage, tag: string, rest: string)
    requires p.Text? && Hashable(p)
    requires tag == LEAF_TAG || tag == NODE_TAG
    ensures Utf8(p.text) != tag + [NUL] + rest
  {
    MerkleTagsDiffer();
    Utf8Nul(p.text);
    if Utf8(p.text) == tag + [NUL] + rest {
      assert Utf8(p.text)[|tag|] == NUL;
      var tag', rest' :| TextTag(tag') && p.text == tag' + [NUL] + rest';
      TaggedBytes(tag', rest');
      TextEndsTag(tag, tag', rest, Utf8(rest'));
    }
  }

  lemma NodesAreSeparate(p: Preimage, q: Preimage)
    requires p.BoardNode? && q.BoardNode? && OverDigests(p) && OverDigests(q) && Bytes(p) == Bytes(q)
    ensures p == q
  {
    MerkleTagsDiffer();
    var a, b := Unhex(p.left) + Unhex(p.right), Unhex(q.left) + Unhex(q.right);
    TextEndsTag(NODE_TAG, NODE_TAG, a, b);
    assert Unhex(p.left) == a[..32] && Unhex(q.left) == b[..32];
    assert Unhex(p.right) == a[32..] && Unhex(q.right) == b[32..];
    UnhexIsInjective(p.left, q.left);
    UnhexIsInjective(p.right, q.right);
  }

  /** No two different things the package hashes are the same byte string. */
  lemma DomainSeparation(p: Preimage, q: Preimage)
    requires Hashable(p) && Hashable(q) && Bytes(p) == Bytes(q)
    ensures p == q
  {
    MerkleTagsDiffer();
    match (p, q) {
      case (Text(t), Text(u)) => Utf8IsInjective(t, u);
      case (Text(_), BoardLeaf(id)) => TextIsNotMerkle(p, LEAF_TAG, Unhex(id));
      case (Text(_), BoardNode(l, r)) => TextIsNotMerkle(p, NODE_TAG, Unhex(l) + Unhex(r));
      case (BoardLeaf(id), Text(_)) => TextIsNotMerkle(q, LEAF_TAG, Unhex(id));
      case (BoardNode(l, r), Text(_)) => TextIsNotMerkle(q, NODE_TAG, Unhex(l) + Unhex(r));
      case (BoardLeaf(a), BoardLeaf(b)) =>
        TextEndsTag(LEAF_TAG, LEAF_TAG, Unhex(a), Unhex(b));
        UnhexIsInjective(a, b);
      case (BoardLeaf(a), BoardNode(l, r)) =>
      case (BoardNode(l, r), BoardLeaf(a)) =>
      case (BoardNode(_, _), BoardNode(_, _)) => NodesAreSeparate(p, q);
    }
  }

  // ------------------------------------------------- collision freedom of hashes

  /** The model hashes the bytes of what it was given, and no two of them collide. */
  ghost predicate CollisionFree(c: Crypto, digest: string -> string, used: set<Preimage>)
  {
    && (forall p | p in used :: Hashable(p) && c.sha(p) == digest(Bytes(p)))
    && (forall p, q | p in used && q in used && digest(Bytes(p)) == digest(Bytes(q)) :: Bytes(p) == Bytes(q))
  }

  /** A hash of byte strings without collisions among those it was applied to is collision-free on the things
      that were hashed, which is the first clause of `Ideal` for them. */
  lemma HashedIsIdeal(c: Crypto, digest: string -> string, used: set<Preimage>, p: Preimage, q: Preimage)
    requires CollisionFree(c, digest, used) && p in used && q in used && Collide(c, p, q)
    ensures p == q
  {
    DomainSeparation(p, q);
  }

  lemma DomainTextIsHashable(tag: string, v: Json)
    requires Valid(v) && TextTag(tag)
    ensures Hashable(Text(DomainText(tag, v)))
  {
    assert DomainText(tag, v) == tag + [NUL] + Dumps(v);
  }

  lemma EmptyBoardIsHashable()
    ensures Hashable(Text(EMPTY_BOARD))
  {
  }

  /** Canonical texts that are hashed without a tag. */
  lemma CanonicalTextIsHashable(v: Json)
    requires Valid(v)
    ensures Hashable(Text(Dumps(v)))
  {
    DumpsIsText(v);
  }
}
