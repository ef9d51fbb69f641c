/** The canonical texts, described without the printer: a strict reader of one value, for which a text has no
    blanks, no escapes but those of the quote and the backslash, and the members of every object in key order. */
module CanonicalReader {
  import opened Outcomes
  import opened Ordering
  import opened CanonicalJson
  import opened CanonicalLaws

  /** A string literal whose opening quote has been read. */
  function ReadString(s: string): (r: Parsed<string>)
    ensures r.Ok? ==> |r.rest| < |s|
    decreases |s|
  {
    if s == "" || s[0] < ' ' then Fail
    else if s[0] == '"' then Ok("", s[1..])
    else if s[0] != '\\' then WithChar(s[0], ReadString(s[1..]))
    else if |s| >= 2 && (s[1] == '"' || s[1] == '\\') then WithChar(s[1], ReadString(s[2..]))
    else Fail
  }

  function WithChar(c: char, tail: Parsed<string>): Parsed<string>
  {
    match tail
    case Fail => Fail
    case Ok(chars, rest) => Ok([c] + chars, rest)
  }

  /** A safe integer, without a leading zero and without a sign on zero. */
  function ReadNumber(s: string): (r: Parsed<Json>)
    ensures r.Ok? ==> |r.rest| < |s|
  {
    var negative := s != "" && s[0] == '-';
    var t := if negative then s[1..] else s;
    var digits := LeadingDigits(t);
    if digits == "" || (digits[0] == '0' && (negative || |digits| > 1)) then Fail
    else
      var n := DigitsValue(digits);
      if n > MAX_SAFE_INTEGER then Fail else Ok(Int(if negative then 0 - n else n), t[|digits|..])
  }

  predicate InKeyOrder(pairs: seq<Pair>)
  {
    forall i, j | 0 <= i < j < |pairs| :: Less(pairs[i].0, pairs[j].0)
  }

  function ReadValue(s: string): (r: Parsed<Json>)
    ensures r.Ok? ==> |r.rest| < |s|
    decreases |s|, 1
  {
    if s == "" then Fail
    else if s[0] == '"' then
      match ReadString(s[1..])
      case Fail => Fail
      case Ok(chars, rest) => Ok(Str(chars), rest)
    else if s[0] == '{' then
      if |s| >= 2 && s[1] == '}' then Ok(Obj(map[]), s[2..])
      else
        match ReadMembers(s[1..])
        case Fail => Fail
        case Ok(pairs, rest) => ObjectOf(pairs, rest)
    else if s[0] == '[' then
      if |s| >= 2 && s[1] == ']' then Ok(Arr([]), s[2..])
      else
        match ReadItems(s[1..])
        case Fail => Fail
        case Ok(items, rest) => Ok(Arr(items), rest)
    else if s[0] == '-' || IsDigit(s[0]) then ReadNumber(s)
    else if "true" <= s then Ok(Bool(true), s[4..])
    else if "false" <= s then Ok(Bool(false), s[5..])
    else Fail
  }

  function ObjectOf(pairs: seq<Pair>, rest: string): Parsed<Json>
  {
    match FromPairs(pairs)
    case None => Fail
    case Some(m) => if InKeyOrder(pairs) then Ok(Obj(m), rest) else Fail
  }

  function ReadItems(s: string): (r: Parsed<seq<Json>>)
    ensures r.Ok? ==> |r.rest| < |s|
    decreases |s|, 2
  {
    match ReadValue(s)
    case Fail => Fail
    case Ok(v, t) =>
      if t == "" then Fail
      else if t[0] == ']' then Ok([v], t[1..])
      else if t[0] != ',' then Fail
      else
        match ReadItems(t[1..])
        case Fail => Fail
        case Ok(vs, rest) => Ok([v] + vs, rest)
  }

  function ReadMember(s: string): (r: Parsed<Pair>)
    ensures r.Ok? ==> |r.rest| < |s|
    decreases |s|, 2
  {
    if s == "" || s[0] != '"' then Fail
    else
      match ReadString(s[1..])
      case Fail => Fail
      case Ok(key, t) =>
        if t == "" || t[0] != ':' then Fail
        else
          match ReadValue(t[1..])
          case Fail => Fail
          case Ok(v, rest) => Ok((key, v), rest)
  }

  function ReadMembers(s: string): (r: Parsed<seq<Pair>>)
    ensures r.Ok? ==> |r.rest| < |s|
    decreases |s|, 3
  {
    match ReadMember(s)
    case Fail => Fail
    case Ok(pair, t) =>
      if t == "" then Fail
      else if t[0] == '}' then Ok([pair], t[1..])
      else if t[0] != ',' then Fail
      else
        match ReadMembers(t[1..])
        case Fail => Fail
        case Ok(pairs, rest) => Ok([pair] + pairs, rest)
  }

  // ------------------------------------------- what is printed is read strictly

  lemma Associate(a: string, b: string, c: string)
    ensures a + b + c == a + (b + c)
  {
  }

  lemma CharReads(c: char, tail: string, s: string, rest: string)
    requires ' ' <= c && ReadString(tail) == Ok(s, rest)
    ensures ReadString(EscapeChar(c) + tail) == Ok([c] + s, rest)
  {
    var text := EscapeChar(c) + tail;
    if c == '"' || c == '\\' {
      assert text[0] == '\\' && text[1] == c && text[2..] == tail;
    } else {
      assert text[0] == c && text[1..] == tail;
    }
  }

  lemma {:induction false} StringReads(s: string, rest: string)
    requires ValidString(s)
    ensures ReadString(Escape(s) + ("\"" + rest)) == Ok(s, rest)
  {
    var close := "\"" + rest;
    if s == "" {
      assert Escape(s) + close == close;
      assert close[1..] == rest;
    } else {
      StringReads(s[1..], rest);
      CharReads(s[0], Escape(s[1..]) + close, s[1..], rest);
      Associate(EscapeChar(s[0]), Escape(s[1..]), close);
      assert s == [s[0]] + s[1..];
    }
  }

  lemma NatReads(n: nat, rest: string)
    requires Stops(rest) && n <= MAX_SAFE_INTEGER
    ensures ReadNumber(PrintNat(n) + rest) == Ok(Int(n), rest)
  {
    var t := PrintNat(n);
    NatDigits(n);
    LeadingDigitsStop(t, rest);
    assert (t + rest)[0] == t[0] && (t + rest)[|t|..] == rest;
  }

  lemma Starts(a: string, b: string)
    requires a != ""
    ensures a + b != "" && (a + b)[0] == a[0]
  {
  }

  lemma MinusReads(t: string, n: nat, rest: string)
    requires t != "" && IsDigit(t[0]) && t[0] != '0' && ReadNumber(t) == Ok(Int(n), rest)
    ensures ReadNumber("-" + t) == Ok(Int(0 - n), rest)
  {
    assert ("-" + t)[1..] == t;
  }

  lemma NegativeReads(n: int, rest: string)
    requires Stops(rest) && -MAX_SAFE_INTEGER <= n < 0
    ensures ReadNumber(PrintInt(n) + rest) == Ok(Int(n), rest)
  {
    var digits := PrintNat(-n);
    NatDigits(-n);
    NatReads(-n, rest);
    Starts(digits, rest);
    MinusReads(digits + rest, -n, rest);
    Associate("-", digits, rest);
  }

  lemma NumberIs(s: string)
    requires s != "" && (s[0] == '-' || IsDigit(s[0]))
    ensures ReadValue(s) == ReadNumber(s)
  {
  }

  lemma IntStarts(n: int, rest: string)
    ensures var s := PrintInt(n) + rest; s != "" && (s[0] == '-' || IsDigit(s[0]))
  {
    NatDigits(if n < 0 then -n else n);
    assert (PrintInt(n) + rest)[0] == PrintInt(n)[0];
  }

  lemma SignedReads(n: int, rest: string)
    requires Stops(rest) && Valid(Int(n))
    ensures ReadNumber(PrintInt(n) + rest) == Ok(Int(n), rest)
  {
    if n < 0 {
      NegativeReads(n, rest);
    } else {
      NatReads(n, rest);
    }
  }

  lemma IntReads(n: int, rest: string)
    requires Stops(rest) && Valid(Int(n))
    ensures ReadValue(PrintInt(n) + rest) == Ok(Int(n), rest)
  {
    IntStarts(n, rest);
    NumberIs(PrintInt(n) + rest);
    SignedReads(n, rest);
  }

  lemma BoolReads(b: bool, rest: string)
    ensures ReadValue(Dumps(Bool(b)) + rest) == Ok(Bool(b), rest)
  {
    var text := Dumps(Bool(b)) + rest;
    assert text[0] == if b then 't' else 'f';
    assert Dumps(Bool(b)) <= text && text[|Dumps(Bool(b))|..] == rest;
  }

  lemma {:induction false} ValueReads(v: Json, rest: string)
    requires Valid(v) && Stops(rest)
    ensures ReadValue(Dumps(v) + rest) == Ok(v, rest)
    decreases v, 5
  {
    match v
    case Bool(b) => BoolReads(b, rest);
    case Int(n) => IntReads(n, rest);
    case Str(s) =>
      StringReads(s, rest);
      PrintStringShape(s, rest);
    case Arr(items) => ArrayReads(items, rest);
    case Obj(_) => ObjectReads(v, rest);
  }

  lemma ArrayIs(inner: string, items: seq<Json>, rest: string)
    requires inner != "" && inner[0] != ']' && ReadItems(inner) == Ok(items, rest)
    ensures ReadValue("[" + inner) == Ok(Arr(items), rest)
  {
    assert ("[" + inner)[1..] == inner;
  }

  lemma {:induction false} ArrayReads(items: seq<Json>, rest: string)
    requires forall i | 0 <= i < |items| :: Valid(items[i])
    ensures ReadValue("[" + DumpsItems(items) + "]" + rest) == Ok(Arr(items), rest)
    decreases items, 1
  {
    if items == [] {
      assert ("[]" + rest)[2..] == rest;
    } else {
      ItemsRead(items, rest);
      ItemsStart(items, "]" + rest);
      ArrayIs(DumpsItems(items) + ("]" + rest), items, rest);
      Regroup("[", DumpsItems(items), "]", rest);
    }
  }

  lemma LastItem(t: string, v: Json, u: string)
    requires ReadValue(t) == Ok(v, "]" + u)
    ensures ReadItems(t) == Ok([v], u)
  {
    assert ("]" + u)[1..] == u;
  }

  lemma FirstAndRest(items: seq<Json>)
    requires items != []
    ensures items == [items[0]] + items[1..]
  {
  }

  lemma NextItem(t: string, v: Json, u: string, vs: seq<Json>, rest: string)
    requires ReadValue(t) == Ok(v, "," + u) && ReadItems(u) == Ok(vs, rest)
    ensures ReadItems(t) == Ok([v] + vs, rest)
  {
    assert ("," + u)[1..] == u;
  }

  lemma {:induction false} ItemsRead(items: seq<Json>, rest: string)
    requires items != [] && forall i | 0 <= i < |items| :: Valid(items[i])
    ensures ReadItems(DumpsItems(items) + ("]" + rest)) == Ok(items, rest)
    decreases items, 0
  {
    var close := "]" + rest;
    if |items| == 1 {
      ValueReads(items[0], close);
      LastItem(Dumps(items[0]) + close, items[0], rest);
      assert items == [items[0]];
    } else {
      var tail := DumpsItems(items[1..]) + close;
      ItemsSplit(items, close);
      ValueReads(items[0], "," + tail);
      ItemsRead(items[1..], rest);
      NextItem(Dumps(items[0]) + ("," + tail), items[0], tail, items[1..], rest);
      FirstAndRest(items);
    }
  }

  lemma MemberIs(key: string, t: string, v: Json, rest: string)
    requires ValidString(key) && ReadValue(t) == Ok(v, rest)
    ensures ReadMember(PrintString(key) + (":" + t)) == Ok((key, v), rest)
  {
    StringReads(key, ":" + t);
    PrintStringShape(key, ":" + t);
    assert (":" + t)[1..] == t;
  }

  lemma {:induction false} MemberReads(v: Json, k: string, rest: string)
    requires Valid(v) && v.Obj? && k in v.fields && Stops(rest)
    ensures ReadMember(DumpsMember(v, k) + rest) == Ok((k, v.fields[k]), rest)
    decreases v, 1
  {
    var child := v.fields[k];
    ValueReads(child, rest);
    MemberIs(k, Dumps(child) + rest, child, rest);
    MemberText(v, k, rest);
  }

  lemma MemberText(v: Json, k: string, rest: string)
    requires Valid(v) && v.Obj? && k in v.fields
    ensures DumpsMember(v, k) + rest == PrintString(k) + (":" + (Dumps(v.fields[k]) + rest))
  {
    Regroup(PrintString(k), ":", Dumps(v.fields[k]), rest);
  }

  lemma LastMember(t: string, p: Pair, u: string)
    requires ReadMember(t) == Ok(p, "}" + u)
    ensures ReadMembers(t) == Ok([p], u)
  {
    assert ("}" + u)[1..] == u;
  }

  lemma NextMember(t: string, p: Pair, u: string, ps: seq<Pair>, rest: string)
    requires ReadMember(t) == Ok(p, "," + u) && ReadMembers(u) == Ok(ps, rest)
    ensures ReadMembers(t) == Ok([p] + ps, rest)
  {
    assert ("," + u)[1..] == u;
  }

  lemma {:induction false} MembersRead(v: Json, keys: seq<string>, rest: string)
    requires Valid(v) && v.Obj? && keys != [] && forall k | k in keys :: k in v.fields
    ensures ReadMembers(DumpsMembers(v, keys) + ("}" + rest)) == Ok(PairsOf(v, keys), rest)
    decreases v, 2, |keys|
  {
    var close := "}" + rest;
    var pair := (keys[0], v.fields[keys[0]]);
    if |keys| == 1 {
      MemberReads(v, keys[0], close);
      LastMember(DumpsMember(v, keys[0]) + close, pair, rest);
      assert PairsOf(v, keys) == [pair];
    } else {
      var tail := DumpsMembers(v, keys[1..]) + close;
      MembersSplit(v, keys, close);
      MemberReads(v, keys[0], "," + tail);
      MembersRead(v, keys[1..], rest);
      NextMember(DumpsMember(v, keys[0]) + ("," + tail), pair, tail, PairsOf(v, keys[1..]), rest);
    }
  }

  lemma ObjectIs(inner: string, pairs: seq<Pair>, m: map<string, Json>, rest: string)
    requires inner != "" && inner[0] == '"' && ReadMembers(inner) == Ok(pairs, rest)
    requires FromPairs(pairs) == Some(m) && InKeyOrder(pairs)
    ensures ReadValue("{" + inner) == Ok(Obj(m), rest)
  {
    assert ("{" + inner)[1..] == inner;
  }

  /** The members of a printed object are in key order. */
  lemma SortedPairs(v: Json)
    requires v.Obj?
    ensures forall k | k in Sorted(v.fields.Keys) :: k in v.fields
    ensures InKeyOrder(PairsOf(v, Sorted(v.fields.Keys))) && FromPairs(PairsOf(v, Sorted(v.fields.Keys))) == Some(v.fields)
  {
    var keys := Sorted(v.fields.Keys);
    assert forall k :: k in keys <==> k in Elements(keys);
    PairsInOrder(v, keys);
    AllPairs(v, keys);
  }

  lemma PairsInOrder(v: Json, keys: seq<string>)
    requires v.Obj? && (forall k | k in keys :: k in v.fields) && Increasing(keys)
    ensures InKeyOrder(PairsOf(v, keys))
  {
    var pairs := PairsOf(v, keys);
    assert forall i | 0 <= i < |pairs| :: pairs[i].0 == keys[i];
  }

  lemma AllPairs(v: Json, keys: seq<string>)
    requires v.Obj? && (forall k | k in keys :: k in v.fields) && Increasing(keys) && Elements(keys) == v.fields.Keys
    ensures FromPairs(PairsOf(v, keys)) == Some(v.fields)
  {
    IncreasingIsDistinct(keys);
    PairsRebuild(v, keys);
    assert (map k | k in Elements(keys) :: v.fields[k]) == v.fields;
  }

  lemma {:induction false} ObjectReads(v: Json, rest: string)
    requires Valid(v) && v.Obj?
    ensures ReadValue(Dumps(v) + rest) == Ok(v, rest)
    decreases v, 4
  {
    var keys := Sorted(v.fields.Keys);
    SortedPairs(v);
    if keys == [] {
      assert v.fields.Keys == {} && v.fields == map[];
      assert ("{}" + rest)[2..] == rest;
    } else {
      MembersRead(v, keys, rest);
      MembersStart(v, keys, "}" + rest);
      ObjectIs(DumpsMembers(v, keys) + ("}" + rest), PairsOf(v, keys), v.fields, rest);
      Regroup("{", DumpsMembers(v, keys), "}", rest);
    }
  }

  // --------------------------------------------- what is read strictly is printed

  lemma {:induction false} StringWritten(s: string, chars: string, rest: string)
    requires ReadString(s) == Ok(chars, rest)
    ensures ValidString(chars) && s == Escape(chars) + ("\"" + rest)
    decreases |s|
  {
    if s[0] == '"' {
      assert chars == "" && s == "\"" + rest;
    } else {
      var n := if s[0] == '\\' then 2 else 1;
      StringWritten(s[n..], chars[1..], rest);
      CharWritten(s, n, chars, rest);
    }
  }

  /** The first character of a string, as it is written. */
  lemma CharWritten(s: string, n: nat, chars: string, rest: string)
    requires s != "" && s[0] != '"' && n == (if s[0] == '\\' then 2 else 1) && n <= |s|
    requires ReadString(s) == Ok(chars, rest) && ValidString(chars[1..]) && s[n..] == Escape(chars[1..]) + ("\"" + rest)
    ensures ValidString(chars) && s == Escape(chars) + ("\"" + rest)
  {
    assert s[..n] == EscapeChar(chars[0]);
    assert s == s[..n] + s[n..];
    assert forall i | 0 < i < |chars| :: chars[i] == chars[1..][i - 1];
    Associate(EscapeChar(chars[0]), Escape(chars[1..]), "\"" + rest);
  }

  lemma LeadingDigitsSplit(t: string)
    ensures t == LeadingDigits(t) + t[|LeadingDigits(t)|..]
  {
  }

  lemma NumberWritten(s: string, v: Json, rest: string)
    requires ReadNumber(s) == Ok(v, rest)
    ensures Valid(v) && v.Int? && s == PrintInt(v.n) + rest
  {
    if s[0] == '-' {
      NegativeWritten(s, v, rest);
    } else {
      DigitsPrint(LeadingDigits(s));
      LeadingDigitsSplit(s);
    }
  }

  lemma NegativeWritten(s: string, v: Json, rest: string)
    requires s != "" && s[0] == '-' && ReadNumber(s) == Ok(v, rest)
    ensures Valid(v) && v.Int? && s == PrintInt(v.n) + rest
  {
    var digits := LeadingDigits(s[1..]);
    DigitsPrint(digits);
    DigitsArePositive(digits);
    LeadingDigitsSplit(s[1..]);
    Associate("-", digits, rest);
    assert s == "-" + s[1..];
    PrintNegative(v.n);
  }

  lemma PrintNegative(n: int)
    requires n < 0
    ensures PrintInt(n) == "-" + PrintNat(0 - n)
  {
  }

  lemma DigitsArePositive(digits: string)
    requires digits != "" && (forall i | 0 <= i < |digits| :: IsDigit(digits[i])) && digits[0] != '0'
    ensures DigitsValue(digits) > 0
  {
    DigitsPrint(digits);
    NatDigits(DigitsValue(digits));
  }

  function KeysOf(pairs: seq<Pair>): (keys: seq<string>)
    ensures |keys| == |pairs|
  {
    seq(|pairs|, i requires 0 <= i < |pairs| => pairs[i].0)
  }

  /** The object has these pairs among its members. */
  predicate Agrees(v: Json, pairs: seq<Pair>)
  {
    v.Obj? && forall i | 0 <= i < |pairs| :: HasPair(v, pairs[i])
  }

  predicate HasPair(v: Json, p: Pair)
    requires v.Obj?
  {
    p.0 in v.fields && v.fields[p.0] == p.1
  }

  predicate ValidPairs(pairs: seq<Pair>)
  {
    forall i | 0 <= i < |pairs| :: ValidString(pairs[i].0) && Valid(pairs[i].1)
  }

  lemma {:induction false} ValueWritten(s: string, v: Json, rest: string)
    requires ReadValue(s) == Ok(v, rest)
    ensures Valid(v) && s == Dumps(v) + rest
    decreases |s|, 1
  {
    if s[0] == '"' {
      StringWritten(s[1..], v.s, rest);
      StringText(s, v.s, rest);
    } else if s[0] == '{' {
      ObjectWritten(s, v, rest);
    } else if s[0] == '[' {
      ArrayWritten(s, v, rest);
    } else if s[0] == '-' || IsDigit(s[0]) {
      NumberWritten(s, v, rest);
    } else {
      LiteralWritten(s, v, rest);
    }
  }

  lemma StringText(s: string, chars: string, rest: string)
    requires s != "" && s[0] == '"' && s[1..] == Escape(chars) + ("\"" + rest)
    ensures s == PrintString(chars) + rest
  {
    Regroup("\"", Escape(chars), "\"", rest);
    assert s == "\"" + s[1..];
  }

  lemma LiteralWritten(s: string, v: Json, rest: string)
    requires ReadValue(s) == Ok(v, rest) && s[0] !in "\"{[-" && !IsDigit(s[0])
    ensures v.Bool? && s == Dumps(v) + rest
  {
    if "true" <= s {
      assert s == "true" + s[4..];
    } else {
      assert s == "false" + s[5..];
    }
  }

  lemma {:induction false} ArrayWritten(s: string, v: Json, rest: string)
    requires ReadValue(s) == Ok(v, rest) && s[0] == '['
    ensures Valid(v) && s == Dumps(v) + rest
    decreases |s|, 0
  {
    if |s| >= 2 && s[1] == ']' {
      assert s == "[]" + s[2..];
    } else {
      ItemsWritten(s[1..], v.items, rest);
      Regroup("[", DumpsItems(v.items), "]", rest);
      assert s == "[" + s[1..];
    }
  }

  lemma {:induction false} ItemsWritten(s: string, items: seq<Json>, rest: string)
    requires ReadItems(s) == Ok(items, rest)
    ensures items != [] && (forall i | 0 <= i < |items| :: Valid(items[i])) && s == DumpsItems(items) + ("]" + rest)
    decreases |s|, 2
  {
    var read := ReadValue(s);
    ValueWritten(s, read.value, read.rest);
    var t := read.rest;
    if t[0] == ']' {
      assert t == "]" + rest && items == [read.value];
    } else {
      var others := ReadItems(t[1..]).value;
      ItemsWritten(t[1..], others, rest);
      MoreItems(items, read.value, others);
      ItemsSplit(items, "]" + rest);
      assert t == "," + t[1..];
    }
  }

  lemma MoreItems(items: seq<Json>, first: Json, others: seq<Json>)
    requires items == [first] + others && others != [] && Valid(first) && forall i | 0 <= i < |others| :: Valid(others[i])
    ensures items[0] == first && items[1..] == others && |items| > 1 && forall i | 0 <= i < |items| :: Valid(items[i])
  {
  }

  lemma {:induction false} MemberWritten(s: string, p: Pair, rest: string)
    requires ReadMember(s) == Ok(p, rest)
    ensures ValidString(p.0) && Valid(p.1) && s == PrintString(p.0) + (":" + (Dumps(p.1) + rest))
    decreases |s|, 2
  {
    var t := ReadString(s[1..]).rest;
    StringWritten(s[1..], p.0, t);
    StringText(s, p.0, t);
    ValueWritten(t[1..], p.1, rest);
    assert t == ":" + t[1..];
  }

  lemma {:induction false} MembersAreValid(s: string, pairs: seq<Pair>, rest: string)
    requires ReadMembers(s) == Ok(pairs, rest)
    ensures pairs != [] && ValidPairs(pairs)
    decreases |s|, 3
  {
    var read := ReadMember(s);
    MemberWritten(s, read.value, read.rest);
    if read.rest[0] != '}' {
      MembersAreValid(read.rest[1..], ReadMembers(read.rest[1..]).value, rest);
    }
  }

  lemma {:induction false} MembersWritten(s: string, pairs: seq<Pair>, rest: string, v: Json)
    requires ReadMembers(s) == Ok(pairs, rest) && Valid(v) && Agrees(v, pairs)
    ensures (forall k | k in KeysOf(pairs) :: k in v.fields) && s == DumpsMembers(v, KeysOf(pairs)) + ("}" + rest)
    decreases |s|, 4
  {
    var read := ReadMember(s);
    var p, t := read.value, read.rest;
    MemberWritten(s, p, t);
    if t[0] == '}' {
      HeadAgrees(v, p, []);
      MemberText(v, p.0, t);
      assert t == "}" + rest && pairs == [p] + [] && KeysOf(pairs) == [p.0];
    } else {
      var others := ReadMembers(t[1..]).value;
      assert pairs == [p] + others;
      HeadAgrees(v, p, others);
      MembersAreValid(t[1..], others, rest);
      MembersWritten(t[1..], others, rest, v);
      MoreMembers(v, p, others, t[1..], rest);
      MemberText(v, p.0, t);
      assert t == "," + t[1..];
    }
  }

  lemma HeadAgrees(v: Json, p: Pair, others: seq<Pair>)
    requires Agrees(v, [p] + others)
    ensures HasPair(v, p) && Agrees(v, others) && forall k | k in KeysOf([p] + others) :: k in v.fields
  {
    var pairs := [p] + others;
    assert HasPair(v, pairs[0]);
    forall i | 0 <= i < |others| ensures HasPair(v, others[i]) {
      assert HasPair(v, pairs[i + 1]);
    }
    KeysAgree(v, pairs);
  }

  lemma KeysAgree(v: Json, pairs: seq<Pair>)
    requires Agrees(v, pairs)
    ensures forall k | k in KeysOf(pairs) :: k in v.fields
    ensures forall i | 0 <= i < |pairs| :: HasPair(v, pairs[i])
  {
  }

  lemma MoreMembers(v: Json, first: Pair, others: seq<Pair>, tail: string, rest: string)
    requires Valid(v) && v.Obj? && first.0 in v.fields && others != []
    requires (forall k | k in KeysOf(others) :: k in v.fields) && (forall k | k in KeysOf([first] + others) :: k in v.fields)
    requires tail == DumpsMembers(v, KeysOf(others)) + ("}" + rest)
    ensures DumpsMembers(v, KeysOf([first] + others)) + ("}" + rest) == DumpsMember(v, first.0) + ("," + tail)
  {
    var keys := KeysOf([first] + others);
    assert keys == [first.0] + KeysOf(others) && keys[1..] == KeysOf(others);
    MembersSplit(v, keys, "}" + rest);
  }

  /** The object of valid pairs in key order has just these members, and lists them in this order. */
  lemma ObjectOfPairs(pairs: seq<Pair>, m: map<string, Json>)
    requires FromPairs(pairs) == Some(m) && InKeyOrder(pairs) && ValidPairs(pairs)
    ensures Valid(Obj(m)) && Agrees(Obj(m), pairs) && KeysOf(pairs) == Sorted(m.Keys)
  {
    FromPairsMeaning(pairs);
    assert HoldsPairs(m, pairs);
    forall k | k in m ensures ValidString(k) && Valid(m[k]) {
      assert HasKey(pairs, k);
      var i :| 0 <= i < |pairs| && pairs[i].0 == k;
    }
    PairKeys(pairs, m);
    SortedIsUnique(m.Keys);
  }

  lemma PairKeys(pairs: seq<Pair>, m: map<string, Json>)
    requires HoldsPairs(m, pairs) && InKeyOrder(pairs)
    ensures Elements(KeysOf(pairs)) == m.Keys && Increasing(KeysOf(pairs))
  {
    var keys := KeysOf(pairs);
    forall k ensures k in Elements(keys) <==> k in m {
      if k in m {
        assert HasKey(pairs, k);
        var i :| 0 <= i < |pairs| && pairs[i].0 == k;
        assert keys[i] == k;
      }
    }
  }

  lemma {:induction false} ObjectWritten(s: string, v: Json, rest: string)
    requires ReadValue(s) == Ok(v, rest) && s[0] == '{'
    ensures Valid(v) && s == Dumps(v) + rest
    decreases |s|, 0
  {
    if |s| >= 2 && s[1] == '}' {
      EmptyObjectText();
      assert s == "{}" + s[2..];
    } else {
      var pairs := ObjectParts(s, v, rest);
      MembersAreValid(s[1..], pairs, rest);
      ObjectOfPairs(pairs, v.fields);
      MembersWritten(s[1..], pairs, rest, v);
      ObjectText(s, v, rest);
    }
  }

  lemma ObjectParts(s: string, v: Json, rest: string) returns (pairs: seq<Pair>)
    requires ReadValue(s) == Ok(v, rest) && s[0] == '{' && (|s| < 2 || s[1] != '}')
    ensures v.Obj? && ReadMembers(s[1..]) == Ok(pairs, rest) && FromPairs(pairs) == Some(v.fields) && InKeyOrder(pairs)
  {
    pairs := ReadMembers(s[1..]).value;
  }

  lemma ObjectText(s: string, v: Json, rest: string)
    requires Valid(v) && v.Obj? && s != "" && s[0] == '{' && forall k | k in Sorted(v.fields.Keys) :: k in v.fields
    requires s[1..] == DumpsMembers(v, Sorted(v.fields.Keys)) + ("}" + rest)
    ensures s == Dumps(v) + rest
  {
    Regroup("{", DumpsMembers(v, Sorted(v.fields.Keys)), "}", rest);
    assert s == "{" + s[1..];
  }

  lemma EmptyObjectText()
    ensures Valid(Obj(map[])) && Dumps(Obj(map[])) == "{}"
  {
    assert Sorted({}) == [];
  }

  // ------------------------------------------------------------------- blanks

  /** No blank stands outside a string literal; `inside` says that a literal is open. */
  predicate Tight(s: string, inside: bool)
  {
    if s == "" then true
    else if !inside then !IsSpace(s[0]) && Tight(s[1..], s[0] == '"')
    else if s[0] == '\\' && |s| >= 2 then Tight(s[2..], true)
    else Tight(s[1..], s[0] != '"')
  }

  lemma {:induction false} StringIsTight(s: string, chars: string, rest: string)
    requires ReadString(s) == Ok(chars, rest)
    ensures Tight(s, true) == Tight(rest, false)
    decreases |s|
  {
    if s[0] != '"' {
      StringIsTight(s[if s[0] == '\\' then 2 else 1..], chars[1..], rest);
    }
  }

  lemma {:induction false} DigitsAreTight(t: string)
    ensures Tight(t, false) == Tight(t[|LeadingDigits(t)|..], false)
  {
    if t != "" && IsDigit(t[0]) {
      DigitsAreTight(t[1..]);
      assert t[|LeadingDigits(t)|..] == t[1..][|LeadingDigits(t[1..])|..];
    }
  }

  lemma NumberIsTight(s: string, v: Json, rest: string)
    requires ReadNumber(s) == Ok(v, rest)
    ensures Tight(s, false) == Tight(rest, false)
  {
    DigitsAreTight(if s[0] == '-' then s[1..] else s);
  }

  lemma {:induction false} NextIsTight(s: string)
    requires s != "" && !IsSpace(s[0]) && s[0] != '"'
    ensures Tight(s, false) == Tight(s[1..], false)
  {
  }

  lemma LiteralIsTight(s: string)
    ensures "true" <= s ==> Tight(s, false) == Tight(s[4..], false)
    ensures "false" <= s ==> Tight(s, false) == Tight(s[5..], false)
  {
    if "true" <= s {
      assert s[0] == 't' && s[1] == 'r' && s[2] == 'u' && s[3] == 'e';
      LettersAreTight(s, 4);
    }
    if "false" <= s {
      assert s[0] == 'f' && s[1] == 'a' && s[2] == 'l' && s[3] == 's' && s[4] == 'e';
      LettersAreTight(s, 5);
    }
  }

  lemma {:induction false} LettersAreTight(s: string, n: nat)
    requires n <= |s| && forall i | 0 <= i < n :: 'a' <= s[i] <= 'z'
    ensures Tight(s, false) == Tight(s[n..], false)
  {
    if n > 0 {
      LettersAreTight(s[1..], n - 1);
      assert s[1..][n - 1..] == s[n..];
    } else {
      assert s[0..] == s;
    }
  }

  lemma {:induction false} ValueIsTight(s: string, v: Json, rest: string)
    requires ReadValue(s) == Ok(v, rest)
    ensures Tight(s, false) == Tight(rest, false)
    decreases |s|, 1
  {
    if s[0] == '"' {
      StringIsTight(s[1..], v.s, rest);
    } else if s[0] == '{' || s[0] == '[' {
      CompoundIsTight(s, v, rest);
    } else if s[0] == '-' || IsDigit(s[0]) {
      NumberIsTight(s, v, rest);
    } else {
      LiteralIsTight(s);
    }
  }

  lemma {:induction false} CompoundIsTight(s: string, v: Json, rest: string)
    requires ReadValue(s) == Ok(v, rest) && (s[0] == '{' || s[0] == '[')
    ensures Tight(s, false) == Tight(rest, false)
    decreases |s|, 0
  {
    NextIsTight(s);
    if |s| >= 2 && s[1] == (if s[0] == '{' then '}' else ']') {
      NextIsTight(s[1..]);
      assert s[1..][1..] == s[2..];
    } else if s[0] == '{' {
      MembersAreTight(s[1..], ReadMembers(s[1..]).value, rest);
    } else {
      ItemsAreTight(s[1..], v.items, rest);
    }
  }

  lemma {:induction false} ItemsAreTight(s: string, items: seq<Json>, rest: string)
    requires ReadItems(s) == Ok(items, rest)
    ensures Tight(s, false) == Tight(rest, false)
    decreases |s|, 2
  {
    var read := ReadValue(s);
    ValueIsTight(s, read.value, read.rest);
    NextIsTight(read.rest);
    if read.rest[0] == ',' {
      ItemsAreTight(read.rest[1..], ReadItems(read.rest[1..]).value, rest);
    }
  }

  lemma {:induction false} MemberIsTight(s: string, p: Pair, rest: string)
    requires ReadMember(s) == Ok(p, rest)
    ensures Tight(s, false) == Tight(rest, false)
    decreases |s|, 2
  {
    var t := ReadString(s[1..]).rest;
    StringIsTight(s[1..], p.0, t);
    NextIsTight(t);
    ValueIsTight(t[1..], p.1, rest);
  }

  lemma {:induction false} MembersAreTight(s: string, pairs: seq<Pair>, rest: string)
    requires ReadMembers(s) == Ok(pairs, rest)
    ensures Tight(s, false) == Tight(rest, false)
    decreases |s|, 3
  {
    var read := ReadMember(s);
    MemberIsTight(s, read.value, read.rest);
    NextIsTight(read.rest);
    if read.rest[0] == ',' {
      MembersAreTight(read.rest[1..], ReadMembers(read.rest[1..]).value, rest);
    }
  }

  // ------------------------------------------------------------- main results

  /** The texts that `parse_canonical_json` accepts are those the strict reader reads to their end, as the
      same value: key order, safe integers, plain strings, no blanks. */
  lemma CanonicalTexts(text: string, v: Json)
    ensures ParseCanonical(text) == Success(v) <==> ReadValue(text) == Ok(v, "")
  {
    AcceptedTexts(text, v);
    if ReadValue(text) == Ok(v, "") {
      ValueWritten(text, v, "");
      assert Dumps(v) + "" == Dumps(v);
    }
    if Valid(v) && text == Dumps(v) {
      ValueReads(v, "");
      assert Dumps(v) + "" == Dumps(v);
    }
  }

  /** What `canonical_json_text` writes is the one text that is read strictly as the value; it refuses exactly
      the values that no text is read as. */
  lemma CanonicalTextMeaning(v: Json, text: string)
    ensures CanonicalText(v) == Success(text) <==> ReadValue(text) == Ok(v, "")
  {
    CanonicalTexts(text, v);
    AcceptedTexts(text, v);
  }

  /** An accepted text has no blank outside its strings. */
  lemma AcceptedIsTight(text: string)
    requires ParseCanonical(text).Success?
    ensures Tight(text, false)
  {
    var v := ParseCanonical(text).value;
    CanonicalTexts(text, v);
    ValueIsTight(text, v, "");
  }

  /** The parser of all JSON finds the members of a canonical object in strictly increasing key order. */
  lemma MembersInOrder(v: Json) returns (pairs: seq<Pair>)
    requires Valid(v) && v.Obj? && v.fields != map[]
    ensures ParseMembers(Dumps(v)[1..]) == Ok(pairs, "") && InKeyOrder(pairs)
    ensures |pairs| == |v.fields| && Agrees(v, pairs)
  {
    var keys := Sorted(v.fields.Keys);
    SortedPairs(v);
    assert keys != [];
    pairs := PairsOf(v, keys);
    MembersParse(v, keys, "");
    ObjectBody(v);
  }

  lemma ObjectBody(v: Json)
    requires Valid(v) && v.Obj?
    ensures forall k | k in Sorted(v.fields.Keys) :: k in v.fields
    ensures Dumps(v)[1..] == DumpsMembers(v, Sorted(v.fields.Keys)) + ("}" + "")
  {
    assert forall k | k in Sorted(v.fields.Keys) :: k in Elements(Sorted(v.fields.Keys));
    Associate("{", DumpsMembers(v, Sorted(v.fields.Keys)), "}");
  }
}
