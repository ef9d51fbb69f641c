/** The assumptions of the model can be met together: here are primitives and a manifest that do. */
module Assumptions {
  import opened CanonicalJson
  import opened Hashing
  import opened Manifests

  function High(c: char): char
  {
    (c as int / 1024 + 32) as char
  }

  function Low(c: char): char
  {
    (c as int % 1024 + 32) as char
  }

  /** Any string as a string without control characters that says where it ends. */
  function Pack(s: string): string
  {
    if s == "" then "." else ['x', High(s[0]), Low(s[0])] + Pack(s[1..])
  }

  lemma {:induction false} PackIsValid(s: string)
    ensures ValidString(Pack(s))
  {
    if s != "" {
      PackIsValid(s[1..]);
    }
  }

  lemma HighLow(c: char, d: char)
    requires High(c) == High(d) && Low(c) == Low(d)
    ensures c == d
  {
    assert c as int / 1024 == d as int / 1024 && c as int % 1024 == d as int % 1024;
    assert c as int == d as int;
    assert (c as int) as char == (d as int) as char;
  }

  lemma {:induction false} PackIsInjective(s: string, t: string, rest: string, rest': string)
    requires Pack(s) + rest == Pack(t) + rest'
    ensures s == t && rest == rest'
  {
    var a, b := Pack(s) + rest, Pack(t) + rest';
    assert a[0] == Pack(s)[0] && b[0] == Pack(t)[0];
    assert s == "" <==> a[0] == '.';
    assert t == "" <==> b[0] == '.';
    if s == "" {
      assert rest == a[1..] && rest' == b[1..];
    } else {
      assert a[1] == High(s[0]) && b[1] == High(t[0]) && a[2] == Low(s[0]) && b[2] == Low(t[0]);
      HighLow(s[0], t[0]);
      assert a[3..] == Pack(s[1..]) + rest && b[3..] == Pack(t[1..]) + rest';
      PackIsInjective(s[1..], t[1..], rest, rest');
      assert s == [s[0]] + s[1..] && t == [t[0]] + t[1..];
    }
  }

  /** A hash that keeps its whole input. */
  function Keep(p: Preimage): string
  {
    match p
    case Text(t) => "t" + Pack(t)
    case BoardLeaf(id) => "l" + Pack(id)
    case BoardNode(l, r) => "n" + (Pack(l) + Pack(r))
  }

  lemma KeepIsInjective(p: Preimage, q: Preimage)
    requires Keep(p) == Keep(q)
    ensures p == q
  {
    assert Keep(p)[0] == Keep(q)[0];
    var a, b := Keep(p)[1..], Keep(q)[1..];
    match p {
      case Text(t) =>
        assert a == Pack(t) + "" && b == Pack(q.text) + "";
        PackIsInjective(t, q.text, "", "");
      case BoardLeaf(id) =>
        assert a == Pack(id) + "" && b == Pack(q.id) + "";
        PackIsInjective(id, q.id, "", "");
      case BoardNode(l, r) =>
        PackIsInjective(l, q.left, Pack(r), Pack(q.right));
        assert Pack(r) == Pack(r) + "" && Pack(q.right) == Pack(q.right) + "";
        PackIsInjective(r, q.right, "", "");
    }
  }

  lemma KeepIsValid(p: Preimage)
    ensures ValidString(Keep(p))
  {
    match p
    case Text(t) => PackIsValid(t);
    case BoardLeaf(id) => PackIsValid(id);
    case BoardNode(l, r) =>
      PackIsValid(l);
      PackIsValid(r);
  }

  const KEEPING := Crypto(p => Keep(p), s => s != "" && ValidString(s), s => s == "", (key, message) => "", (key, signature, message) => true)

  lemma IdealIsPossible()
    ensures Ideal(KEEPING) && !KEEPING.isDigest("")
  {
    forall p, q | Collide(KEEPING, p, q) ensures p == q {
      KeepIsInjective(p, q);
    }
    forall p ensures HashIsDigest(KEEPING, p) {
      KeepIsValid(p);
    }
    forall s ensures HexIsText(KEEPING, s) {
    }
    forall key, message ensures SignatureVerifies(KEEPING, key, message) {
    }
  }

  lemma SoundIsPossible() returns (m: Manifest)
    ensures Sound(KEEPING, m)
  {
    IdealIsPossible();
    m := Manifest("i", "h", "e", "g", ["a", "b", "c", "d"], 0, 1, "z", 3, "k", ["x", "y"]);
  }
}
