/** The text grammar of RFC 8259, as derivation trees and the text each tree derives.
    Nothing here knows about the recogniser; this is the reference it is measured against. */
module JsonGrammar {

  /** Section 2: the four insignificant whitespace characters. */
  predicate IsWs(c: char) {
    c == ' ' || c == '\t' || c == '\n' || c == '\r'
  }

  predicate Blank(s: string) {
    forall i :: 0 <= i < |s| ==> IsWs(s[i])
  }

  // ----- Section 7: strings -----

  predicate Unescaped(c: char) {
    c >= ' ' && c != '"' && c != '\\'
  }

  predicate SimpleEscape(c: char) {
    c == '"' || c == '\\' || c == '/' || c == 'b' || c == 'f' || c == 'n' || c == 'r' || c == 't'
  }

  predicate HexDigit(c: char) {
    '0' <= c <= '9' || 'a' <= c <= 'f' || 'A' <= c <= 'F'
  }

  predicate AllHex(s: string) {
    forall i :: 0 <= i < |s| ==> HexDigit(s[i])
  }

  /** The length of the `char` production that `s` starts with, 0 when it starts with none. */
  function CharLength(s: string): (n: nat)
    ensures n <= |s|
    ensures n <= 6
  {
    if s == "" then 0
    else if Unescaped(s[0]) then 1
    else if |s| >= 2 && s[0] == '\\' && SimpleEscape(s[1]) then 2
    else if |s| >= 6 && s[0] == '\\' && s[1] == 'u' && AllHex(s[2..6]) then 6
    else 0
  }

  /** More text does not change a character that is already complete. */
  lemma {:induction false} CharLengthStable(x: string, u: string)
    requires CharLength(x) > 0
    ensures CharLength(x + u) == CharLength(x)
  {
    if |x| >= 6 { assert (x + u)[2..6] == x[2..6]; }
    else if |x + u| >= 6 && x[0] == '\\' { assert (x + u)[1] == x[1]; }
  }

  /** `*char quotation-mark`, up to the end of `s`. */
  predicate StringTail(s: string)
    decreases |s|
  {
    s == "\"" || (CharLength(s) > 0 && StringTail(s[CharLength(s)..]))
  }

  predicate IsString(s: string) {
    s != "" && s[0] == '"' && StringTail(s[1..])
  }

  // ----- Section 6: numbers -----

  predicate Digit(c: char) {
    '0' <= c <= '9'
  }

  predicate AllDigits(s: string) {
    forall i :: 0 <= i < |s| ==> Digit(s[i])
  }

  predicate Digits(s: string) {
    s != "" && AllDigits(s)
  }

  predicate IsMinus(s: string) {
    s == "" || s == "-"
  }

  predicate IsInt(s: string) {
    s == "0" || (Digits(s) && s[0] != '0')
  }

  predicate IsFrac(s: string) {
    s != "" && s[0] == '.' && Digits(s[1..])
  }

  predicate IsExp(s: string) {
    s != "" && (s[0] == 'e' || s[0] == 'E') &&
    (Digits(s[1..]) || (|s| > 1 && (s[1] == '+' || s[1] == '-') && Digits(s[2..])))
  }

  /** `number = [ minus ] int [ frac ] [ exp ]` */
  ghost predicate IsNumber(s: string) {
    exists m: string, i: string, f: string, e: string ::
      NumberParts(m, i, f, e) && s == m + i + f + e
  }

  predicate NumberParts(m: string, i: string, f: string, e: string) {
    IsMinus(m) && IsInt(i) && (f == "" || IsFrac(f)) && (e == "" || IsExp(e))
  }

  // ----- Section 3: literals -----

  predicate IsLiteral(s: string) {
    s == "true" || s == "false" || s == "null"
  }

  ghost predicate IsScalar(s: string) {
    IsString(s) || IsNumber(s) || IsLiteral(s)
  }

  // ----- Sections 4 and 5: objects and arrays -----

  /** A value is a token or a container. Objects and arrays differ only in their brackets
      and in the lead (`name ws : ws`, or nothing) before each element's value. */
  datatype Value =
    | Scalar(token: string)
    | Container(closer: char, pad: string, elements: Elements)

  datatype Elements =
    | NoElements
    | Item(lead: string, value: Value, pad: string, rest: Rest)

  datatype Rest =
    | Close
    | Comma(pad: string, next: Elements)

  predicate IsCloser(c: char) {
    c == '}' || c == ']'
  }

  function Opener(closer: char): char {
    if closer == '}' then '{' else '['
  }

  ghost predicate IsLabel(closer: char, s: string) {
    if closer == '}' then
      exists name: string, w: string, w': string ::
        IsString(name) && Blank(w) && Blank(w') && s == name + w + ":" + w'
    else
      s == ""
  }

  ghost predicate WellFormed(v: Value) {
    match v
    case Scalar(token) => IsScalar(token)
    case Container(closer, pad, elements) =>
      IsCloser(closer) && Blank(pad) && ElementsWellFormed(closer, elements)
  }

  ghost predicate ElementsWellFormed(closer: char, es: Elements)
    decreases es
  {
    match es
    case NoElements => true
    case Item(lead, value, pad, rest) =>
      IsLabel(closer, lead) && WellFormed(value) && Blank(pad) && RestWellFormed(closer, rest)
  }

  ghost predicate RestWellFormed(closer: char, rest: Rest)
    decreases rest
  {
    match rest
    case Close => true
    case Comma(pad, next) => Blank(pad) && next.Item? && ElementsWellFormed(closer, next)
  }

  function Text(v: Value): string {
    match v
    case Scalar(token) => token
    case Container(closer, pad, elements) => [Opener(closer)] + (pad + ElementsText(closer, elements))
  }

  function ElementsText(closer: char, es: Elements): string
    decreases es
  {
    match es
    case NoElements => [closer]
    case Item(lead, value, pad, rest) => lead + (Text(value) + (pad + RestText(closer, rest)))
  }

  function RestText(closer: char, rest: Rest): string
    decreases rest
  {
    match rest
    case Close => [closer]
    case Comma(pad, next) => [','] + (pad + ElementsText(closer, next))
  }

  /** One JSON value, and one JSON object (section 4), without surrounding whitespace. */
  ghost predicate IsValue(s: string) {
    exists v :: WellFormed(v) && s == Text(v)
  }

  ghost predicate IsObject(s: string) {
    exists v :: WellFormed(v) && v.Container? && v.closer == '}' && s == Text(v)
  }

  /** Optional whitespace, then one JSON object. */
  ghost predicate IsPaddedObject(s: string) {
    exists n: nat :: n <= |s| && Blank(s[..n]) && IsObject(s[n..])
  }

  /** `JSON-text = ws value ws` */
  ghost predicate IsJsonText(s: string) {
    exists w: string, x: string, w': string :: Blank(w) && Blank(w') && IsValue(x) && s == w + x + w'
  }
}
