/** The restricted JSON of the ceremony package: printer, parser and their inverse laws. */
module CanonicalJson {
  import opened Outcomes
  import opened Ordering

  /** Values `json.loads` can produce; dictionaries compare without regard to order. */
  datatype Json =
    | Null
    | Bool(b: bool)
    | Int(n: int)
    | Float(lexeme: string)
    | Str(s: string)
    | Arr(items: seq<Json>)
    | Obj(fields: map<string, Json>)

  const MAX_SAFE_INTEGER := 0x1F_FFFF_FFFF_FFFF

  /** Dafny characters are Unicode scalar values, so unpaired surrogates cannot occur in a string. */
  predicate ValidString(s: string)
  {
    forall i | 0 <= i < |s| :: ' ' <= s[i]
  }

  predicate Valid(v: Json)
  {
    match v
    case Null => false
    case Bool(_) => true
    case Int(n) => -MAX_SAFE_INTEGER <= n <= MAX_SAFE_INTEGER
    case Float(_) => false
    case Str(s) => ValidString(s)
    case Arr(items) => forall i | 0 <= i < |items| :: Valid(items[i])
    case Obj(fields) => forall k | k in fields :: ValidString(k) && Valid(fields[k])
  }

  // ---------------------------------------------------------------- printer

  function DigitChar(d: nat): char
    requires d < 10
  {
    ('0' as int + d) as char
  }

  function PrintNat(n: nat): string
  {
    if n < 10 then [DigitChar(n)] else PrintNat(n / 10) + [DigitChar(n % 10)]
  }

  function PrintInt(n: int): string
  {
    if n < 0 then "-" + PrintNat(-n) else PrintNat(n)
  }

  /** In a valid string only the quote and the backslash are escaped. */
  function EscapeChar(c: char): string
  {
    if c == '"' then "\\\"" else if c == '\\' then "\\\\" else [c]
  }

  function Escape(s: string): string
  {
    if s == "" then "" else EscapeChar(s[0]) + Escape(s[1..])
  }

  function PrintString(s: string): string
  {
    "\"" + Escape(s) + "\""
  }

  /** `json.dumps` with sorted keys and no spaces, on a value that passed validation. */
  function Dumps(v: Json): string
    requires Valid(v)
    decreases v, 3
  {
    match v
    case Bool(b) => if b then "true" else "false"
    case Int(n) => PrintInt(n)
    case Str(s) => PrintString(s)
    case Arr(items) => "[" + DumpsItems(items) + "]"
    case Obj(fields) => "{" + DumpsMembers(v, Sorted(fields.Keys)) + "}"
  }

  function DumpsItems(items: seq<Json>): string
    requires forall i | 0 <= i < |items| :: Valid(items[i])
    decreases items, 0
  {
    if items == [] then ""
    else if |items| == 1 then Dumps(items[0])
    else Dumps(items[0]) + "," + DumpsItems(items[1..])
  }

  function DumpsMember(v: Json, k: string): string
    requires Valid(v) && v.Obj? && k in v.fields
    decreases v, 1
  {
    PrintString(k) + ":" + Dumps(v.fields[k])
  }

  function DumpsMembers(v: Json, keys: seq<string>): string
    requires Valid(v) && v.Obj?
    requires forall k | k in keys :: k in v.fields
    decreases v, 2, |keys|
  {
    if keys == [] then ""
    else if |keys| == 1 then DumpsMember(v, keys[0])
    else DumpsMember(v, keys[0]) + "," + DumpsMembers(v, keys[1..])
  }

  /** `canonical_json_text`: validation first, then the printer. */
  function CanonicalText(v: Json): (r: Result<string>)
  {
    if Valid(v) then Success(Dumps(v)) else Failure(NonCanonical)
  }

  // ----------------------------------------------------------------- parser

  /** What one parsing step read and the text after it. */
  datatype Parsed<+T> = Fail | Ok(value: T, rest: string)

  predicate IsDigit(c: char)
  {
    '0' <= c <= '9'
  }

  predicate IsSpace(c: char)
  {
    c == ' ' || c == '\t' || c == '\n' || c == '\r'
  }

  function SkipSpace(s: string): (r: string)
    ensures |r| <= |s|
  {
    if s != "" && IsSpace(s[0]) then SkipSpace(s[1..]) else s
  }

  function LeadingDigits(s: string): (r: string)
    ensures r <= s
    ensures forall i | 0 <= i < |r| :: IsDigit(r[i])
  {
    if s != "" && IsDigit(s[0]) then [s[0]] + LeadingDigits(s[1..]) else ""
  }

  function DigitValue(c: char): nat
    requires IsDigit(c)
  {
    c as int - '0' as int
  }

  function DigitsValue(s: string): nat
    requires forall i | 0 <= i < |s| :: IsDigit(s[i])
  {
    if s == "" then 0
    else DigitsValue(s[..|s| - 1]) * 10 + DigitValue(s[|s| - 1])
  }

  /** A fraction or an exponent follows, so `json.loads` would call `parse_float`. */
  predicate StartsFloatTail(s: string)
  {
    || (|s| >= 2 && s[0] == '.' && IsDigit(s[1]))
    || (|s| >= 2 && (s[0] == 'e' || s[0] == 'E') && IsDigit(s[1]))
    || (|s| >= 3 && (s[0] == 'e' || s[0] == 'E') && (s[1] == '+' || s[1] == '-') && IsDigit(s[2]))
  }

  function ParseNumber(s: string): (r: Parsed<Json>)
    ensures r.Ok? ==> |r.rest| < |s|
  {
    var negative := s != "" && s[0] == '-';
    var t := if negative then s[1..] else s;
    if t == "" || !IsDigit(t[0]) then Fail
    else
      var digits := if t[0] == '0' then "0" else LeadingDigits(t);
      var rest := t[|digits|..];
      if StartsFloatTail(rest) then Fail
      else Ok(Int(if negative then 0 - DigitsValue(digits) else DigitsValue(digits)), rest)
  }

  function HexValue(c: char): Option<nat>
  {
    if IsDigit(c) then Some(c as int - '0' as int)
    else if 'a' <= c <= 'f' then Some(c as int - 'a' as int + 10)
    else if 'A' <= c <= 'F' then Some(c as int - 'A' as int + 10)
    else None
  }

  /** The code of a `\\uXXXX` escape at the start of s. */
  function UnicodeEscape(s: string): (r: Option<nat>)
    ensures r.Some? ==> |s| >= 6 && r.value < 0x1_0000
  {
    if |s| < 6 || s[0] != '\\' || s[1] != 'u' then None
    else
      match (HexValue(s[2]), HexValue(s[3]), HexValue(s[4]), HexValue(s[5]))
      case (Some(a), Some(b), Some(c), Some(d)) =>
        if a < 16 && b < 16 && c < 16 && d < 16 then Some(((a * 16 + b) * 16 + c) * 16 + d) else None
      case _ => None
  }

  /** One escape at the start of s, which begins with a backslash. An unpaired surrogate would be
      refused by the validation that follows `json.loads`; here it is refused at once. */
  function ParseEscape(s: string): (r: Parsed<char>)
    ensures r.Ok? ==> |r.rest| < |s|
  {
    if |s| < 2 then Fail
    else match s[1]
      case '"' => Ok('"', s[2..])
      case '\\' => Ok('\\', s[2..])
      case '/' => Ok('/', s[2..])
      case 'b' => Ok(8 as char, s[2..])
      case 'f' => Ok(12 as char, s[2..])
      case 'n' => Ok('\n', s[2..])
      case 'r' => Ok('\r', s[2..])
      case 't' => Ok('\t', s[2..])
      case _ =>
        match UnicodeEscape(s)
        case None => Fail
        case Some(high) =>
          if high < 0xD800 || 0xE000 <= high then Ok(high as char, s[6..])
          else
            match UnicodeEscape(s[6..])
            case Some(low) =>
              if high < 0xDC00 && 0xDC00 <= low < 0xE000
              then Ok((0x1_0000 + (high - 0xD800) * 0x400 + (low - 0xDC00)) as char, s[12..])
              else Fail
            case None => Fail
  }

  /** The characters of a string literal whose opening quote has been read. */
  function ParseString(s: string): (r: Parsed<string>)
    ensures r.Ok? ==> |r.rest| < |s|
    decreases |s|
  {
    if s == "" || s[0] < ' ' then Fail
    else if s[0] == '"' then Ok("", s[1..])
    else
      var head := if s[0] == '\\' then ParseEscape(s) else Ok(s[0], s[1..]);
      match head
      case Fail => Fail
      case Ok(c, rest) =>
        match ParseString(rest)
        case Fail => Fail
        case Ok(tail, rest') => Ok([c] + tail, rest')
  }

  type Pair = (string, Json)

  /** The dictionary of a list of pairs, or None when a key repeats. */
  function FromPairs(pairs: seq<Pair>): Option<map<string, Json>>
  {
    if pairs == [] then Some(map[])
    else
      var (k, v) := pairs[|pairs| - 1];
      match FromPairs(pairs[..|pairs| - 1])
      case None => None
      case Some(m) => if k in m then None else Some(m[k := v])
  }

  function ParseValue(s: string): (r: Parsed<Json>)
    ensures r.Ok? ==> |r.rest| < |s|
    decreases |s|, 1
  {
    if s == "" then Fail
    else if s[0] == '"' then
      match ParseString(s[1..])
      case Fail => Fail
      case Ok(str, rest) => Ok(Str(str), rest)
    else if s[0] == '{' then
      var t := SkipSpace(s[1..]);
      if t != "" && t[0] == '}' then Ok(Obj(map[]), t[1..])
      else
        match ParseMembers(t)
        case Fail => Fail
        case Ok(pairs, rest) =>
          match FromPairs(pairs)
          case None => Fail
          case Some(m) => Ok(Obj(m), rest)
    else if s[0] == '[' then
      var t := SkipSpace(s[1..]);
      if t != "" && t[0] == ']' then Ok(Arr([]), t[1..])
      else
        match ParseItems(t)
        case Fail => Fail
        case Ok(items, rest) => Ok(Arr(items), rest)
    else if s[0] == '-' || IsDigit(s[0]) then ParseNumber(s)
    else if "true" <= s then Ok(Bool(true), s[4..])
    else if "false" <= s then Ok(Bool(false), s[5..])
    else if "null" <= s then Ok(Null, s[4..])
    else Fail
  }

  /** The items of an array, up to and including its closing bracket. */
  function ParseItems(s: string): (r: Parsed<seq<Json>>)
    ensures r.Ok? ==> |r.rest| < |s|
    decreases |s|, 2
  {
    match ParseValue(s)
    case Fail => Fail
    case Ok(v, rest) =>
      var t := SkipSpace(rest);
      if t == "" then Fail
      else if t[0] == ']' then Ok([v], t[1..])
      else if t[0] != ',' then Fail
      else
        match ParseItems(SkipSpace(t[1..]))
        case Fail => Fail
        case Ok(vs, rest') => Ok([v] + vs, rest')
  }

  /** One `"key": value` of an object. */
  function ParseMember(s: string): (r: Parsed<Pair>)
    ensures r.Ok? ==> |r.rest| < |s|
    decreases |s|, 2
  {
    if s == "" || s[0] != '"' then Fail
    else
      match ParseString(s[1..])
      case Fail => Fail
      case Ok(key, rest) =>
        var t := SkipSpace(rest);
        if t == "" || t[0] != ':' then Fail
        else
          match ParseValue(SkipSpace(t[1..]))
          case Fail => Fail
          case Ok(v, rest') => Ok((key, v), rest')
  }

  /** The members of an object, up to and including its closing brace. */
  function ParseMembers(s: string): (r: Parsed<seq<Pair>>)
    ensures r.Ok? ==> |r.rest| < |s|
    decreases |s|, 3
  {
    match ParseMember(s)
    case Fail => Fail
    case Ok(pair, rest) =>
      var t := SkipSpace(rest);
      if t == "" then Fail
      else if t[0] == '}' then Ok([pair], t[1..])
      else if t[0] != ',' then Fail
      else
        match ParseMembers(SkipSpace(t[1..]))
        case Fail => Fail
        case Ok(pairs, rest') => Ok([pair] + pairs, rest')
  }

  /** `json.loads` with the hooks of the package: one value and nothing after it but blanks. */
  function Loads(text: string): Option<Json>
  {
    match ParseValue(SkipSpace(text))
    case Fail => None
    case Ok(v, rest) => if SkipSpace(rest) == "" then Some(v) else None
  }

  const BYTE_ORDER_MARK := 0xFEFF as char

  /** `parse_canonical_json` on decoded text. */
  function ParseCanonical(text: string, requireCanonical: bool := true): (r: Result<Json>)
  {
    if text != "" && text[0] == BYTE_ORDER_MARK then Failure(NonCanonical)
    else
      match Loads(text)
      case None => Failure(NonCanonical)
      case Some(v) =>
        if !Valid(v) then Failure(NonCanonical)
        else if requireCanonical && Dumps(v) != text then Failure(NonCanonical)
        else Success(v)
  }
}
