/** Strings written in ASCII alone, as `json.dumps` writes them with `ensure_ascii`: every code unit an escape. */
module AsciiStrings {
  import opened Options
  import opened PyText
  import opened JsonGrammar
  import opened JsonParser
  import JsonRoundTrip
  import opened CanonicalText

  const LOWER: string := "0123456789abcdef"
  const UPPER: string := "0123456789ABCDEF"

  /** Code units: no more than sixteen bits each. */
  predicate InPlane(us: PyStr) {
    forall i :: 0 <= i < |us| ==> us[i] < 0x1_0000
  }

  /** The UTF-16 code units of a text. */
  function Utf16(x: PyStr): (us: PyStr)
    ensures InPlane(us)
  {
    if x == [] then []
    else if x[0] < 0x1_0000 then [x[0]] + Utf16(x[1..])
    else [0xD800 + (x[0] - 0x1_0000) / 0x400, 0xDC00 + (x[0] - 0x1_0000) % 0x400] + Utf16(x[1..])
  }

  /** The four digits of a unit. */
  function HexText(u: CodePoint, digits: string): (h: string)
    requires u < 0x1_0000 && |digits| == 16
    ensures |h| == 4
  {
    [digits[u / 16 / 16 / 16], digits[u / 16 / 16 % 16], digits[u / 16 % 16], digits[u % 16]]
  }

  /** `\u` and the four hex digits of a unit, from one of the two digit tables. */
  function UnitText(u: CodePoint, digits: string): (s: string)
    requires u < 0x1_0000 && |digits| == 16
  {
    "\\u" + HexText(u, digits)
  }

  function AsciiText(us: PyStr, digits: string): string
    requires |digits| == 16 && InPlane(us)
  {
    if us == [] then "" else UnitText(us[0], digits) + AsciiText(us[1..], digits)
  }

  lemma {:induction false} TableDigit(d: int, digits: string)
    requires 0 <= d < 16 && (digits == LOWER || digits == UPPER)
    ensures HexDigit(digits[d]) && HexDigitValue(digits[d]) == d
  {
  }

  lemma {:induction false} HexNumber(u: int)
    ensures ((u / 16 / 16 / 16 * 16 + u / 16 / 16 % 16) * 16 + u / 16 % 16) * 16 + u % 16 == u
  {
    var q, r := u / 16, u / 16 / 16;
    assert r / 16 * 16 + r % 16 == r && q / 16 * 16 + q % 16 == q && u / 16 * 16 + u % 16 == u;
  }

  lemma {:induction false} HexBack(u: CodePoint, digits: string)
    requires u < 0x1_0000 && (digits == LOWER || digits == UPPER)
    ensures AllHex(HexText(u, digits)) && HexValue(HexText(u, digits)) == u
  {
    var a, b, c, d := u / 16 / 16 / 16, u / 16 / 16 % 16, u / 16 % 16, u % 16;
    TableDigit(a, digits); TableDigit(b, digits); TableDigit(c, digits); TableDigit(d, digits);
    assert |digits| == 16;
    hide HexDigitValue, LOWER, UPPER, HexValue;
    JsonRoundTrip.HexSteps(HexText(u, digits));
    HexNumber(u);
  }

  /** One escape stands for its unit. */
  lemma {:induction false} UnitBack(u: CodePoint, digits: string, rest: string)
    requires u < 0x1_0000 && (digits == LOWER || digits == UPPER)
    ensures CharLength(UnitText(u, digits) + rest) == 6 && Unit(UnitText(u, digits) + rest) == u
  {
    HexBack(u, digits);
    hide HexValue, HexText, LOWER, UPPER;
    var s := UnitText(u, digits) + rest;
    assert s[0] == '\\' && s[1] == 'u' && s[2..6] == HexText(u, digits);
  }

  /** One character more in front. */
  lemma {:induction false} UnitsMore(s: string, tail: string, us: PyStr, rest: string)
    requires s != "" && s[0] != '"' && CharLength(s) > 0 && s[CharLength(s)..] == tail && Units(tail) == Ok(us, rest)
    ensures Units(s) == Ok([Unit(s)] + us, rest)
  {
    hide CharLength, Unit;
  }

  lemma {:induction false} UnitsEnd(digits: string, rest: string)
    requires |digits| == 16 && InPlane([])
    ensures Units(AsciiText([], digits) + ("\"" + rest)) == Ok([], rest)
  {
    assert "" + ("\"" + rest) == "\"" + rest;
  }

  lemma {:induction false} AsciiMore(us: PyStr, digits: string)
    requires us != [] && InPlane(us) && |digits| == 16
    ensures us[0] < 0x1_0000 && InPlane(us[1..])
    ensures AsciiText(us, digits) == UnitText(us[0], digits) + AsciiText(us[1..], digits)
    ensures |UnitText(us[0], digits)| == 6 && UnitText(us[0], digits)[0] == '\\'
  {
    assert forall i :: 0 <= i < |us[1..]| ==> us[1..][i] == us[i + 1];
  }

  lemma {:induction false} UnitsBack(us: PyStr, digits: string, rest: string)
    requires InPlane(us) && |digits| == 16 && (digits == LOWER || digits == UPPER)
    ensures Units(AsciiText(us, digits) + ("\"" + rest)) == Ok(us, rest)
    decreases |us|
  {
    hide *;
    if us == [] {
      UnitsEnd(digits, rest);
    } else {
      AsciiMore(us, digits);
      var u, more := us[0], us[1..];
      UnitsBack(more, digits, rest);
      var tail := AsciiText(more, digits) + ("\"" + rest);
      var s := UnitText(u, digits) + tail;
      UnitBack(u, digits, tail);
      assert s[6..] == tail && s[0] == '\\';
      UnitsMore(s, tail, more, rest);
      assert us == [u] + more;
      assert AsciiText(us, digits) + ("\"" + rest) == s;
    }
  }

  lemma {:induction false} PairsBack(x: PyStr)
    requires Clean(x)
    ensures JoinPairs(Utf16(x)) == x
    decreases |x|
  {
    if x != [] {
      assert x == [x[0]] + x[1..] && !Surrogate(x[0]);
      PairsBack(x[1..]);
      var us := Utf16(x);
      if x[0] < 0x1_0000 {
        assert us[1..] == Utf16(x[1..]);
      } else {
        var y := x[0] - 0x1_0000;
        assert us[2..] == Utf16(x[1..]) && High(us[0]) && Low(us[1]);
        assert y == y / 0x400 * 0x400 + y % 0x400;
      }
    }
  }

  /** The decoder reads such a string back, whichever case its hex digits have. */
  lemma {:induction false} AsciiRoundTrip(x: PyStr, digits: string, rest: string)
    requires Clean(x) && (digits == LOWER || digits == UPPER)
    ensures ParseString(AsciiText(Utf16(x), digits) + ("\"" + rest)) == Ok(x, rest)
  {
    assert |digits| == 16;
    hide LOWER, UPPER, Utf16, Units, AsciiText;
    PairsBack(x);
    UnitsBack(Utf16(x), digits, rest);
  }
}
