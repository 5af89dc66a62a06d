/** `json.loads`: the standard decoder, with its acceptance of NaN, Infinity and repeated keys. */
module JsonParser {
  import opened Options
  import opened PyText
  import opened JsonValues
  import opened JsonGrammar
  import opened NumberTokens

  datatype Parsed<+T> = Ok(value: T, rest: string) | Fail

  function SkipWs(s: string): (r: string)
    ensures |r| <= |s|
    ensures r != "" ==> !IsWs(r[0])
  {
    if s != "" && IsWs(s[0]) then SkipWs(s[1..]) else s
  }

  // ----- Strings -----

  function HexDigitValue(c: char): (d: int)
    requires HexDigit(c)
    ensures 0 <= d < 16
  {
    if c <= '9' then c as int - '0' as int
    else if c <= 'F' then c as int - 'A' as int + 10
    else c as int - 'a' as int + 10
  }

  function HexValue(s: string): (n: int)
    requires AllHex(s)
    ensures |s| == 4 ==> 0 <= n < 0x1_0000
    ensures |s| == 3 ==> 0 <= n < 0x1000
    ensures |s| == 2 ==> 0 <= n < 0x100
    ensures |s| == 1 ==> 0 <= n < 0x10
    ensures |s| == 0 ==> n == 0
  {
    if s == "" then 0 else HexValue(s[..|s| - 1]) * 16 + HexDigitValue(s[|s| - 1])
  }

  /** The code unit of the character `s` starts with. */
  function Unit(s: string): CodePoint
    requires CharLength(s) > 0
  {
    if s[0] != '\\' then s[0] as int
    else match s[1]
      case 'b' => 0x08
      case 'f' => 0x0C
      case 'n' => 0x0A
      case 'r' => 0x0D
      case 't' => 0x09
      case 'u' => HexValue(s[2..6])
      case c => c as int
  }

  /** The code units up to the closing quotation mark. */
  function Units(s: string): (p: Parsed<PyStr>)
    ensures p.Ok? ==> |p.rest| < |s|
    decreases |s|
  {
    if s == "" then Fail
    else if s[0] == '"' then Ok([], s[1..])
    else if CharLength(s) == 0 then Fail
    else match Units(s[CharLength(s)..])
      case Ok(us, rest) => Ok([Unit(s)] + us, rest)
      case Fail => Fail
  }

  predicate High(c: CodePoint) { 0xD800 <= c <= 0xDBFF }
  predicate Low(c: CodePoint) { 0xDC00 <= c <= 0xDFFF }

  /** A high surrogate followed by a low one is one character; any other surrogate stays alone. */
  function JoinPairs(us: PyStr): PyStr
    decreases |us|
  {
    if us == [] then []
    else if |us| >= 2 && High(us[0]) && Low(us[1]) then
      [0x1_0000 + (us[0] - 0xD800 as int) * 0x400 + (us[1] - 0xDC00 as int)] + JoinPairs(us[2..])
    else [us[0]] + JoinPairs(us[1..])
  }

  function ParseString(s: string): (p: Parsed<PyStr>)
    ensures p.Ok? ==> |p.rest| < |s|
  {
    match Units(s)
    case Ok(us, rest) => Ok(JoinPairs(us), rest)
    case Fail => Fail
  }

  // ----- Numbers -----

  /** The length of the longest prefix the number pattern accepts from state `q`: its greedy match. */
  function Longest(q: State, s: string): (n: Option<nat>)
    ensures n.Some? ==> n.value <= |s|
    decreases |s|
  {
    var tail := if s == "" then None else Longest(Step(q, s[0]), s[1..]);
    if tail.Some? then Some(1 + tail.value)
    else if Accepting(q) then Some(0)
    else None
  }

  function DigitValue(c: char): (d: int)
    requires Digit(c)
    ensures 0 <= d < 10
  {
    c as int - '0' as int
  }

  function NatOf(s: string): nat
    requires AllDigits(s)
  {
    if s == "" then 0 else NatOf(s[..|s| - 1]) * 10 + DigitValue(s[|s| - 1])
  }

  predicate IntToken(t: string) {
    t != "" && (AllDigits(t) || (t[0] == '-' && AllDigits(t[1..])))
  }

  function IntOf(t: string): int
    requires IntToken(t)
  {
    if AllDigits(t) then NatOf(t) else 0 - NatOf(t[1..])
  }

  function NumberValue(fl: FloatReader, t: string): Json {
    if IntToken(t) then Json.Int(IntOf(t))
    else match fl(t)
      case Some(r) => Float(r)
      case None => NonFinite(if t != "" && t[0] == '-' then "-Infinity" else "Infinity")
  }

  /** `NaN`, `Infinity` and `-Infinity`, which the decoder accepts beyond RFC 8259. */
  function ParseConstant(s: string): (p: Parsed<Json>)
    ensures p.Ok? ==> |p.rest| < |s|
  {
    if "NaN" <= s then Ok(NonFinite("NaN"), s[3..])
    else if "Infinity" <= s then Ok(NonFinite("Infinity"), s[8..])
    else if "-Infinity" <= s then Ok(NonFinite("-Infinity"), s[9..])
    else Fail
  }

  function ParseNumber(fl: FloatReader, s: string): (p: Parsed<Json>)
    ensures p.Ok? ==> |p.rest| < |s|
  {
    match Longest(Start, s)
    case Some(n) => if n == 0 then Fail else Ok(NumberValue(fl, s[..n]), s[n..])
    case None => ParseConstant(s)
  }

  // ----- Values -----

  function ParseValue(fl: FloatReader, s: string): (p: Parsed<Json>)
    ensures p.Ok? ==> |p.rest| < |s|
    decreases |s|, 1
  {
    if s == "" then Fail
    else if s[0] == '"' then
      match ParseString(s[1..])
      case Ok(x, rest) => Ok(Str(x), rest)
      case Fail => Fail
    else if s[0] == '{' then
      var r := SkipWs(s[1..]);
      if r != "" && r[0] == '}' then Ok(Obj(map[]), r[1..])
      else match ParseMembers(fl, r, map[])
        case Ok(fields, rest) => Ok(Obj(fields), rest)
        case Fail => Fail
    else if s[0] == '[' then
      var r := SkipWs(s[1..]);
      if r != "" && r[0] == ']' then Ok(Arr([]), r[1..])
      else match ParseItems(fl, r)
        case Ok(items, rest) => Ok(Arr(items), rest)
        case Fail => Fail
    else if "null" <= s then Ok(Null, s[4..])
    else if "true" <= s then Ok(Bool(true), s[4..])
    else if "false" <= s then Ok(Bool(false), s[5..])
    else ParseNumber(fl, s)
  }

  /** One value, then `]`, or a comma and more values. */
  function ParseItems(fl: FloatReader, s: string): (p: Parsed<seq<Json>>)
    ensures p.Ok? ==> |p.rest| < |s|
    decreases |s|, 2
  {
    match ParseValue(fl, s)
    case Fail => Fail
    case Ok(v, rest) =>
      var r := SkipWs(rest);
      if r == "" then Fail
      else if r[0] == ']' then Ok([v], r[1..])
      else if r[0] != ',' then Fail
      else match ParseItems(fl, SkipWs(r[1..]))
        case Ok(vs, rest') => Ok([v] + vs, rest')
        case Fail => Fail
  }

  /** A name and the colon after it. */
  function ParseName(s: string): (p: Parsed<PyStr>)
    ensures p.Ok? ==> |p.rest| < |s|
  {
    if s == "" || s[0] != '"' then Fail
    else match ParseString(s[1..])
      case Fail => Fail
      case Ok(k, rest) =>
        var r := SkipWs(rest);
        if r == "" || r[0] != ':' then Fail else Ok(k, SkipWs(r[1..]))
  }

  /** One member, then `}`, or a comma and more members; a repeated name keeps its last value. */
  function ParseMembers(fl: FloatReader, s: string, acc: map<PyStr, Json>): (p: Parsed<map<PyStr, Json>>)
    ensures p.Ok? ==> |p.rest| < |s|
    decreases |s|, 2
  {
    match ParseName(s)
    case Fail => Fail
    case Ok(k, rest) =>
      match ParseValue(fl, rest)
      case Fail => Fail
      case Ok(v, rest') =>
        var r := SkipWs(rest');
        if r == "" then Fail
        else if r[0] == '}' then Ok(acc[k := v], r[1..])
        else if r[0] != ',' then Fail
        else ParseMembers(fl, SkipWs(r[1..]), acc[k := v])
  }

  /** `json.loads(text)`, nothing when it raises. */
  function Loads(fl: FloatReader, text: string): Option<Json> {
    match ParseValue(fl, SkipWs(text))
    case Ok(v, rest) => if SkipWs(rest) == "" then Some(v) else None
    case Fail => None
  }
}
