/** Laws of canonical JSON: parsing undoes printing, and printing undoes parsing. */
module CanonicalLaws {
  import opened Outcomes
  import opened Ordering
  import opened CanonicalJson

  /** Text that may follow a value inside a canonical document. */
  predicate Stops(rest: string)
  {
    rest == "" || rest[0] == ',' || rest[0] == ']' || rest[0] == '}'
  }

  // ---------------------------------------------------------------- numbers

  lemma {:induction false} NatDigits(n: nat)
    ensures var t := PrintNat(n);
      && t != ""
      && (forall i | 0 <= i < |t| :: IsDigit(t[i]))
      && DigitsValue(t) == n
      && (t[0] == '0' <==> n == 0)
      && (n == 0 ==> t == "0")
  {
    if n < 10 {
      assert [DigitChar(n)][..0] == "";
    } else {
      NatDigits(n / 10);
      var t := PrintNat(n);
      assert t[..|t| - 1] == PrintNat(n / 10);
    }
  }

  /** Digits without a leading zero are what their value prints as. */
  lemma {:induction false} DigitsPrint(s: string)
    requires s != "" && (forall i | 0 <= i < |s| :: IsDigit(s[i])) && (|s| == 1 || s[0] != '0')
    ensures PrintNat(DigitsValue(s)) == s
  {
    var front := s[..|s| - 1];
    assert s == front + [s[|s| - 1]];
    if |s| > 1 {
      DigitsPrint(front);
      NatDigits(DigitsValue(front));
      assert front[0] == s[0];
    }
  }

  lemma {:induction false} LeadingDigitsStop(t: string, rest: string)
    requires forall i | 0 <= i < |t| :: IsDigit(t[i])
    requires rest == "" || !IsDigit(rest[0])
    ensures LeadingDigits(t + rest) == t
  {
    if t == "" {
      assert t + rest == rest;
    } else {
      assert (t + rest)[1..] == t[1..] + rest;
      LeadingDigitsStop(t[1..], rest);
    }
  }

  lemma NatParses(n: nat, rest: string)
    requires Stops(rest)
    ensures ParseNumber(PrintNat(n) + rest) == Ok(Int(n), rest)
  {
    var t := PrintNat(n);
    NatDigits(n);
    LeadingDigitsStop(t, rest);
    assert (t + rest)[0] == t[0];
    assert (t + rest)[|t|..] == rest;
  }

  lemma MinusParses(s: string, n: int, rest: string)
    requires |s| > 1 && s[0] == '-' && IsDigit(s[1])
    requires ParseNumber(s[1..]) == Ok(Int(n), rest)
    ensures ParseNumber(s) == Ok(Int(-n), rest)
  {
  }

  lemma IntParses(n: int, rest: string)
    requires Stops(rest)
    ensures ParseNumber(PrintInt(n) + rest) == Ok(Int(n), rest)
  {
    if n < 0 {
      NegativeParses(-n, rest);
    } else {
      NatParses(n, rest);
    }
  }

  lemma NegativeParses(n: nat, rest: string)
    requires Stops(rest) && n > 0
    ensures ParseNumber("-" + PrintNat(n) + rest) == Ok(Int(0 - n), rest)
  {
    var t := PrintNat(n) + rest;
    NatDigits(n);
    NatParses(n, rest);
    var s := "-" + t;
    assert s[1..] == t;
    assert s[1] == PrintNat(n)[0];
    MinusParses(s, n, rest);
    assert "-" + PrintNat(n) + rest == s;
  }

  // ---------------------------------------------------------------- strings

  /** The escaped form of one character is read back as that character. */
  lemma CharParses(c: char, tail: string, s: string, rest: string)
    requires ' ' <= c
    requires ParseString(tail) == Ok(s, rest)
    ensures ParseString(EscapeChar(c) + tail) == Ok([c] + s, rest)
  {
    var text := EscapeChar(c) + tail;
    if c == '"' || c == '\\' {
      assert text[0] == '\\' && text[1] == c;
      assert text[2..] == tail;
      assert ParseEscape(text) == Ok(c, tail);
    } else {
      assert text[0] == c;
      assert text[1..] == tail;
    }
  }

  lemma {:induction false} StringParses(s: string, rest: string)
    requires ValidString(s)
    ensures ParseString(Escape(s) + ("\"" + rest)) == Ok(s, rest)
  {
    var close := "\"" + rest;
    if s == "" {
      assert Escape(s) + close == close;
      assert close[1..] == rest;
    } else {
      StringParses(s[1..], rest);
      CharParses(s[0], Escape(s[1..]) + close, s[1..], rest);
      assert Escape(s) + close == EscapeChar(s[0]) + (Escape(s[1..]) + close);
      assert s == [s[0]] + s[1..];
    }
  }

  lemma PrintStringShape(s: string, rest: string)
    ensures (PrintString(s) + rest)[0] == '"'
    ensures (PrintString(s) + rest)[1..] == Escape(s) + ("\"" + rest)
  {
  }

  lemma Regroup(a: string, b: string, c: string, d: string)
    ensures a + b + c + d == a + (b + (c + d))
  {
  }

  // ------------------------------------------------ single steps of the parser

  lemma ValueIsString(t: string, s: string, rest: string)
    requires t != "" && t[0] == '"' && ParseString(t[1..]) == Ok(s, rest)
    ensures ParseValue(t) == Ok(Str(s), rest)
  {
  }

  lemma ValueIsNumber(t: string)
    requires t != "" && (t[0] == '-' || IsDigit(t[0]))
    ensures ParseValue(t) == ParseNumber(t)
  {
  }

  lemma ValueIsArray(t: string, items: seq<Json>, rest: string)
    requires t != "" && t[0] == '['
    requires SkipSpace(t[1..]) == t[1..] && t[1..] != "" && t[1] != ']'
    requires ParseItems(t[1..]) == Ok(items, rest)
    ensures ParseValue(t) == Ok(Arr(items), rest)
  {
  }

  lemma ValueIsObject(t: string, pairs: seq<Pair>, m: map<string, Json>, rest: string)
    requires t != "" && t[0] == '{'
    requires SkipSpace(t[1..]) == t[1..] && t[1..] != "" && t[1] != '}'
    requires ParseMembers(t[1..]) == Ok(pairs, rest) && FromPairs(pairs) == Some(m)
    ensures ParseValue(t) == Ok(Obj(m), rest)
  {
  }

  lemma ItemsEnd(t: string, v: Json, u: string)
    requires ParseValue(t) == Ok(v, u) && u != "" && u[0] == ']'
    ensures ParseItems(t) == Ok([v], u[1..])
  {
    SkipNothing(u);
  }

  lemma ItemsContinue(t: string, v: Json, u: string, vs: seq<Json>, rest: string)
    requires ParseValue(t) == Ok(v, u) && u != "" && u[0] == ','
    requires SkipSpace(u[1..]) == u[1..] && ParseItems(u[1..]) == Ok(vs, rest)
    ensures ParseItems(t) == Ok([v] + vs, rest)
  {
    SkipNothing(u);
  }

  lemma MembersEnd(t: string, p: Pair, u: string)
    requires ParseMember(t) == Ok(p, u) && u != "" && u[0] == '}'
    ensures ParseMembers(t) == Ok([p], u[1..])
  {
    SkipNothing(u);
  }

  lemma MembersContinue(t: string, p: Pair, u: string, ps: seq<Pair>, rest: string)
    requires ParseMember(t) == Ok(p, u) && u != "" && u[0] == ','
    requires SkipSpace(u[1..]) == u[1..] && ParseMembers(u[1..]) == Ok(ps, rest)
    ensures ParseMembers(t) == Ok([p] + ps, rest)
  {
    SkipNothing(u);
  }

  lemma MemberReads(t: string, k: string, u: string, v: Json, rest: string)
    requires t != "" && t[0] == '"' && ParseString(t[1..]) == Ok(k, u)
    requires u != "" && u[0] == ':'
    requires SkipSpace(u[1..]) == u[1..] && ParseValue(u[1..]) == Ok(v, rest)
    ensures ParseMember(t) == Ok((k, v), rest)
  {
    SkipNothing(u);
  }

  lemma SkipNothing(s: string)
    requires s == "" || !IsSpace(s[0])
    ensures SkipSpace(s) == s
  {
  }

  // ----------------------------------------------------------------- values

  /** A printed value starts with a character no blank or closing bracket can be. */
  lemma DumpsStarts(v: Json)
    requires Valid(v)
    ensures Dumps(v) != "" && !IsSpace(Dumps(v)[0])
    ensures Dumps(v)[0] != ']' && Dumps(v)[0] != '}' && Dumps(v)[0] != BYTE_ORDER_MARK
    ensures v.Int? ==> Dumps(v)[0] == '-' || IsDigit(Dumps(v)[0])
  {
    if v.Int? {
      NatDigits(if v.n < 0 then -v.n else v.n);
    }
  }

  lemma BoolParses(b: bool, rest: string)
    ensures ParseValue(Dumps(Bool(b)) + rest) == Ok(Bool(b), rest)
  {
    var text := Dumps(Bool(b)) + rest;
    assert text[0] == if b then 't' else 'f';
    assert Dumps(Bool(b)) <= text;
    assert text[|Dumps(Bool(b))|..] == rest;
  }

  lemma {:induction false} ValueParses(v: Json, rest: string)
    requires Valid(v) && Stops(rest)
    ensures ParseValue(Dumps(v) + rest) == Ok(v, rest)
    decreases v, 5
  {
    match v {
      case Bool(b) =>
        BoolParses(b, rest);
      case Int(n) =>
        IntParses(n, rest);
        DumpsStarts(v);
        ValueIsNumber(PrintInt(n) + rest);
      case Str(s) =>
        StringParses(s, rest);
        PrintStringShape(s, rest);
        ValueIsString(PrintString(s) + rest, s, rest);
      case Arr(items) =>
        ArrayParses(items, rest);
      case Obj(fields) =>
        ObjectParses(v, rest);
    }
  }

  lemma {:induction false} ArrayParses(items: seq<Json>, rest: string)
    requires forall i | 0 <= i < |items| :: Valid(items[i])
    ensures ParseValue("[" + DumpsItems(items) + "]" + rest) == Ok(Arr(items), rest)
    decreases items, 1
  {
    if items == [] {
      EmptyArrayParses(rest);
    } else {
      var text := "[" + DumpsItems(items) + "]" + rest;
      var close := "]" + rest;
      assert text[1..] == DumpsItems(items) + close;
      ItemsParse(items, rest);
      ItemsStart(items, close);
      var inner := DumpsItems(items) + close;
      assert inner != "" && !IsSpace(inner[0]);
      SkipNothing(inner);
      assert text[1] == inner[0];
      ValueIsArray(text, items, rest);
    }
  }

  lemma EmptyArrayParses(rest: string)
    ensures ParseValue("[" + DumpsItems([]) + "]" + rest) == Ok(Arr([]), rest)
  {
    var text, close := "[" + DumpsItems([]) + "]" + rest, "]" + rest;
    assert text[1..] == close;
    assert close[0] == ']' && close[1..] == rest && !IsSpace(']');
    SkipNothing(close);
  }

  lemma ItemsStart(items: seq<Json>, rest: string)
    requires items != [] && forall i | 0 <= i < |items| :: Valid(items[i])
    ensures var t := DumpsItems(items) + rest; t != "" && !IsSpace(t[0]) && t[0] != ']'
  {
    DumpsStarts(items[0]);
    assert (DumpsItems(items) + rest)[0] == Dumps(items[0])[0];
  }

  lemma ItemsSplit(items: seq<Json>, close: string)
    requires |items| > 1 && forall i | 0 <= i < |items| :: Valid(items[i])
    ensures DumpsItems(items) + close == Dumps(items[0]) + ("," + (DumpsItems(items[1..]) + close))
  {
    Regroup(Dumps(items[0]), ",", DumpsItems(items[1..]), close);
  }

  lemma {:induction false} ItemsParse(items: seq<Json>, rest: string)
    requires items != [] && forall i | 0 <= i < |items| :: Valid(items[i])
    ensures ParseItems(DumpsItems(items) + ("]" + rest)) == Ok(items, rest)
    decreases items, 0
  {
    var close := "]" + rest;
    if |items| == 1 {
      ValueParses(items[0], close);
      LastItemParses(items[0], rest);
      assert items == [items[0]];
    } else {
      var first, others := items[0], items[1..];
      var tail := DumpsItems(others) + close;
      ItemsSplit(items, close);
      ValueParses(first, "," + tail);
      ItemsParse(others, rest);
      ItemsStart(others, close);
      ItemsAppend(first, tail, others, rest);
      assert items == [first] + others;
    }
  }

  lemma LastItemParses(item: Json, rest: string)
    requires Valid(item) && ParseValue(Dumps(item) + ("]" + rest)) == Ok(item, "]" + rest)
    ensures ParseItems(DumpsItems([item]) + ("]" + rest)) == Ok([item], rest)
  {
    var close := "]" + rest;
    assert close[1..] == rest;
    ItemsEnd(Dumps(item) + close, item, close);
  }

  lemma ItemsAppend(first: Json, tail: string, items: seq<Json>, rest: string)
    requires Valid(first) && ParseValue(Dumps(first) + ("," + tail)) == Ok(first, "," + tail)
    requires tail != "" && !IsSpace(tail[0]) && ParseItems(tail) == Ok(items, rest)
    ensures ParseItems(Dumps(first) + ("," + tail)) == Ok([first] + items, rest)
  {
    var next := "," + tail;
    assert next[1..] == tail;
    SkipNothing(tail);
    ItemsContinue(Dumps(first) + next, first, next, items, rest);
  }

  // ---------------------------------------------------------------- objects

  function PairsOf(v: Json, keys: seq<string>): seq<Pair>
    requires v.Obj? && forall k | k in keys :: k in v.fields
  {
    seq(|keys|, i requires 0 <= i < |keys| => (keys[i], v.fields[keys[i]]))
  }

  /** Reading pairs with distinct keys into a dictionary loses nothing. */
  lemma {:induction false} PairsRebuild(v: Json, keys: seq<string>)
    requires v.Obj? && forall k | k in keys :: k in v.fields
    requires forall i, j | 0 <= i < j < |keys| :: keys[i] != keys[j]
    ensures FromPairs(PairsOf(v, keys)) == Some(map k | k in Elements(keys) :: v.fields[k])
  {
    if keys == [] {
    } else {
      var n := |keys| - 1;
      var front := keys[..n];
      assert PairsOf(v, keys)[..n] == PairsOf(v, front);
      PairsRebuild(v, front);
      assert keys[n] !in Elements(front);
      RestrictStep(v, front, keys[n]);
      assert keys == front + [keys[n]];
    }
  }

  lemma RestrictStep(v: Json, front: seq<string>, key: string)
    requires v.Obj? && key in v.fields && forall k | k in front :: k in v.fields
    ensures forall k | k in front + [key] :: k in v.fields
    ensures (map k | k in Elements(front) :: v.fields[k])[key := v.fields[key]]
         == map k | k in Elements(front + [key]) :: v.fields[k]
  {
    assert Elements(front + [key]) == Elements(front) + {key};
  }

  lemma MembersStart(v: Json, keys: seq<string>, rest: string)
    requires Valid(v) && v.Obj? && forall k | k in keys :: k in v.fields
    requires keys != []
    ensures var t := DumpsMembers(v, keys) + rest; t != "" && t[0] == '"'
  {
    assert DumpsMember(v, keys[0])[0] == '"';
  }

  lemma {:induction false} MemberParses(v: Json, k: string, rest: string)
    requires Valid(v) && v.Obj? && k in v.fields && Stops(rest)
    ensures ParseMember(DumpsMember(v, k) + rest) == Ok((k, v.fields[k]), rest)
    decreases v, 1
  {
    var child := v.fields[k];
    var value := Dumps(child) + rest;
    var colon := ":" + value;
    assert DumpsMember(v, k) + rest == PrintString(k) + colon;
    StringParses(k, colon);
    PrintStringShape(k, colon);
    assert colon[1..] == value;
    DumpsStarts(child);
    SkipNothing(value);
    ValueParses(child, rest);
    MemberReads(PrintString(k) + colon, k, colon, child, rest);
  }

  lemma MembersSplit(v: Json, keys: seq<string>, close: string)
    requires Valid(v) && v.Obj? && forall k | k in keys :: k in v.fields
    requires |keys| > 1
    ensures DumpsMembers(v, keys) + close == DumpsMember(v, keys[0]) + ("," + (DumpsMembers(v, keys[1..]) + close))
    ensures PairsOf(v, keys) == [(keys[0], v.fields[keys[0]])] + PairsOf(v, keys[1..])
  {
    Regroup(DumpsMember(v, keys[0]), ",", DumpsMembers(v, keys[1..]), close);
  }

  lemma {:induction false} MembersParse(v: Json, keys: seq<string>, rest: string)
    requires Valid(v) && v.Obj? && forall k | k in keys :: k in v.fields
    requires keys != []
    ensures ParseMembers(DumpsMembers(v, keys) + ("}" + rest)) == Ok(PairsOf(v, keys), rest)
    decreases v, 2, |keys|
  {
    var close := "}" + rest;
    var pair := (keys[0], v.fields[keys[0]]);
    if |keys| == 1 {
      MemberParses(v, keys[0], close);
      assert close[1..] == rest;
      MembersEnd(DumpsMember(v, keys[0]) + close, pair, close);
      assert PairsOf(v, keys) == [pair];
    } else {
      var tail := DumpsMembers(v, keys[1..]) + close;
      var next := "," + tail;
      assert next[1..] == tail;
      MembersSplit(v, keys, close);
      MemberParses(v, keys[0], next);
      MembersParse(v, keys[1..], rest);
      MembersStart(v, keys[1..], close);
      SkipNothing(tail);
      MembersContinue(DumpsMember(v, keys[0]) + next, pair, next, PairsOf(v, keys[1..]), rest);
    }
  }

  lemma EmptyObjectParses(rest: string)
    ensures ParseValue("{}" + rest) == Ok(Obj(map[]), rest)
  {
    var close := "}" + rest;
    assert ("{}" + rest)[1..] == close;
    assert close[0] == '}' && close[1..] == rest;
    SkipNothing(close);
  }

  lemma {:induction false} FullObjectParses(v: Json, keys: seq<string>, rest: string)
    requires Valid(v) && v.Obj? && keys != [] && Elements(keys) == v.fields.Keys
    requires forall k | k in keys :: k in v.fields
    requires forall i, j | 0 <= i < j < |keys| :: keys[i] != keys[j]
    ensures ParseValue("{" + DumpsMembers(v, keys) + "}" + rest) == Ok(v, rest)
    decreases v, 3
  {
    var body := DumpsMembers(v, keys) + ("}" + rest);
    var text := "{" + body;
    Regroup("{", DumpsMembers(v, keys), "}", rest);
    MembersParse(v, keys, rest);
    MembersStart(v, keys, "}" + rest);
    PairsRebuild(v, keys);
    assert (map k | k in Elements(keys) :: v.fields[k]) == v.fields;
    assert text[1..] == body;
    assert text[1] == body[0];
    SkipNothing(body);
    ValueIsObject(text, PairsOf(v, keys), v.fields, rest);
  }

  lemma {:induction false} ObjectParses(v: Json, rest: string)
    requires Valid(v) && v.Obj?
    ensures ParseValue(Dumps(v) + rest) == Ok(v, rest)
    decreases v, 4
  {
    var keys := Sorted(v.fields.Keys);
    assert forall k :: k in keys <==> k in Elements(keys);
    if keys == [] {
      assert v.fields.Keys == {};
      assert v.fields == map[];
      EmptyObjectParses(rest);
    } else {
      IncreasingIsDistinct(keys);
      FullObjectParses(v, keys, rest);
    }
  }

  // ------------------------------------------------------------ main results

  /** Parsing undoes printing. */
  lemma ParseUndoesPrint(v: Json)
    requires Valid(v)
    ensures ParseCanonical(Dumps(v)) == Success(v)
    ensures ParseCanonical(Dumps(v), false) == Success(v)
  {
    assert Dumps(v) + "" == Dumps(v);
    ValueParses(v, "");
    DumpsStarts(v);
  }

  /** Blanks before a value are skipped unless canonical form is demanded. */
  lemma BlanksAreSkipped(blank: char, v: Json)
    requires Valid(v) && IsSpace(blank)
    ensures ParseCanonical([blank] + Dumps(v), false) == Success(v)
    ensures ParseCanonical([blank] + Dumps(v)) == Failure(NonCanonical)
  {
    var text := [blank] + Dumps(v);
    assert text[1..] == Dumps(v) && text[0] == blank;
    assert Dumps(v) + "" == Dumps(v);
    ValueParses(v, "");
    DumpsStarts(v);
    SkipNothing(Dumps(v));
  }

  /** The texts that are accepted, and what each of them means: exactly the printed values. */
  lemma AcceptedTexts(text: string, v: Json)
    ensures ParseCanonical(text) == Success(v) <==> Valid(v) && text == Dumps(v)
  {
    if Valid(v) {
      ParseUndoesPrint(v);
    }
  }

  /** Two values with the same canonical text are the same dictionary, list or scalar. */
  lemma PrintIsInjective(v: Json, w: Json)
    requires Valid(v) && Valid(w) && Dumps(v) == Dumps(w)
    ensures v == w
  {
    ParseUndoesPrint(v);
    ParseUndoesPrint(w);
  }

  /** The dictionary of pairs exists iff no key repeats, and then holds each pair and nothing else. */
  lemma {:induction false} FromPairsMeaning(pairs: seq<Pair>)
    ensures FromPairs(pairs).Some? <==> forall i, j | 0 <= i < j < |pairs| :: pairs[i].0 != pairs[j].0
    ensures FromPairs(pairs).Some? ==> HoldsPairs(FromPairs(pairs).value, pairs)
  {
    if pairs != [] {
      var front, last := pairs[..|pairs| - 1], pairs[|pairs| - 1];
      FromPairsMeaning(front);
      assert pairs == front + [last];
      KeysStep(front, last);
      if FromPairs(front).Some? {
        HoldsPairsKey(FromPairs(front).value, front, last.0);
        if last.0 !in FromPairs(front).value {
          HoldsPairsStep(FromPairs(front).value, front, last);
        }
      }
    }
  }

  ghost predicate HasKey(pairs: seq<Pair>, key: string)
  {
    exists i :: 0 <= i < |pairs| && pairs[i].0 == key
  }

  lemma KeysStep(front: seq<Pair>, last: Pair)
    ensures var pairs := front + [last];
            (forall i, j | 0 <= i < j < |pairs| :: pairs[i].0 != pairs[j].0) <==>
            (forall i, j | 0 <= i < j < |front| :: front[i].0 != front[j].0) && !HasKey(front, last.0)
  {
    var pairs := front + [last];
    assert forall i | 0 <= i < |front| :: pairs[i] == front[i];
    assert pairs[|front|] == last;
  }

  lemma HoldsPairsStep(m: map<string, Json>, front: seq<Pair>, last: Pair)
    requires HoldsPairs(m, front) && last.0 !in m
    ensures HoldsPairs(m[last.0 := last.1], front + [last])
  {
    var pairs := front + [last];
    assert forall i | 0 <= i < |front| :: pairs[i] == front[i];
    assert pairs[|front|] == last;
  }

  ghost predicate HoldsPairs(m: map<string, Json>, pairs: seq<Pair>)
  {
    && (forall i | 0 <= i < |pairs| :: pairs[i].0 in m && m[pairs[i].0] == pairs[i].1)
    && (forall k | k in m :: exists i :: 0 <= i < |pairs| && pairs[i].0 == k)
  }

  lemma HoldsPairsKey(m: map<string, Json>, pairs: seq<Pair>, key: string)
    requires HoldsPairs(m, pairs)
    ensures key in m <==> HasKey(pairs, key)
  {
  }

  /** `_pairs_no_duplicates`: the loop fills a dictionary and stops at the first repeated key. */
  method PairsNoDuplicates(pairs: seq<Pair>) returns (r: Result<map<string, Json>>)
    ensures r == match FromPairs(pairs) case None => Failure(NonCanonical) case Some(m) => Success(m)
  {
    var result: map<string, Json> := map[];
    for n := 0 to |pairs|
      invariant FromPairs(pairs[..n]) == Some(result)
    {
      var (key, value) := pairs[n];
      assert pairs[..n + 1][..n] == pairs[..n];
      if key in result {
        FromPairsFails(pairs, n + 1);
        return Failure(NonCanonical);
      }
      result := result[key := value];
    }
    assert pairs[..|pairs|] == pairs;
    return Success(result);
  }

  lemma {:induction false} FromPairsFails(pairs: seq<Pair>, n: nat)
    requires n <= |pairs| && FromPairs(pairs[..n]).None?
    ensures FromPairs(pairs).None?
    decreases |pairs|
  {
    if n == |pairs| {
      assert pairs[..n] == pairs;
    } else {
      var front := pairs[..|pairs| - 1];
      assert front[..n] == pairs[..n];
      FromPairsFails(front, n);
    }
  }

  // ------------------------------------------ canonical texts hold no control characters

  lemma {:induction false} PrintNatIsText(n: nat)
    ensures ValidString(PrintNat(n))
  {
    if n >= 10 {
      PrintNatIsText(n / 10);
    }
  }

  lemma {:induction false} EscapeIsText(s: string)
    requires ValidString(s)
    ensures ValidString(Escape(s))
  {
    if s != "" {
      EscapeIsText(s[1..]);
    }
  }

  lemma PrintIntIsText(n: int)
    ensures ValidString(PrintInt(n))
  {
    PrintNatIsText(if n < 0 then -n else n);
  }

  lemma PrintStringIsText(s: string)
    requires ValidString(s)
    ensures ValidString(PrintString(s))
  {
    EscapeIsText(s);
  }

  lemma {:induction false} DumpsIsText(v: Json)
    requires Valid(v)
    ensures ValidString(Dumps(v))
    decreases v, 3
  {
    match v
    case Bool(_) =>
    case Int(n) => PrintIntIsText(n);
    case Str(s) => PrintStringIsText(s);
    case Arr(items) => ItemsAreText(items);
    case Obj(fields) => FieldsAreText(v);
  }

  lemma {:induction false} FieldsAreText(v: Json)
    requires Valid(v) && v.Obj?
    ensures forall k | k in Sorted(v.fields.Keys) :: k in v.fields
    ensures ValidString(DumpsMembers(v, Sorted(v.fields.Keys)))
    decreases v, 2, |v.fields.Keys| + 1
  {
    forall k | k in Sorted(v.fields.Keys) ensures k in v.fields {
      assert k in Elements(Sorted(v.fields.Keys));
    }
    MembersAreText(v, Sorted(v.fields.Keys));
  }

  lemma {:induction false} ItemsAreText(items: seq<Json>)
    requires forall i | 0 <= i < |items| :: Valid(items[i])
    ensures ValidString(DumpsItems(items))
    decreases items, 0
  {
    if items != [] {
      DumpsIsText(items[0]);
      if |items| > 1 {
        ItemsAreText(items[1..]);
      }
    }
  }

  lemma {:induction false} MemberIsText(v: Json, k: string)
    requires Valid(v) && v.Obj? && k in v.fields
    ensures ValidString(DumpsMember(v, k))
    decreases v, 1
  {
    EscapeIsText(k);
    DumpsIsText(v.fields[k]);
  }

  lemma {:induction false} MembersAreText(v: Json, keys: seq<string>)
    requires Valid(v) && v.Obj? && (forall k | k in keys :: k in v.fields)
    ensures ValidString(DumpsMembers(v, keys))
    decreases v, 2, |keys|
  {
    if keys != [] {
      MemberIsText(v, keys[0]);
      if |keys| > 1 {
        MembersAreText(v, keys[1..]);
      }
    }
  }
}
