/** What exactly the canonical text of a value is: of all the texts that stand for it, which one. */
module CanonicalText {
  import opened PyText
  import opened JsonGrammar
  import opened NumberTokens
  import opened JsonValues
  import opened JsonPrinter
  import opened JsonParser
  import JsonRoundTrip

  // ----- Objects and arrays: nothing but brackets, commas and colons between the tokens -----

  /** The texts with a comma between each two. */
  function Joined(texts: seq<string>): string {
    if texts == [] then "" else if |texts| == 1 then texts[0] else texts[0] + "," + Joined(texts[1..])
  }

  function MemberText(v: Json, k: PyStr): string
    requires v.Obj? && Encodable(v) && k in v.fields
  {
    StringText(k) + ":" + Print(v.fields[k])
  }

  function MemberTexts(v: Json, ks: seq<PyStr>): (texts: seq<string>)
    requires v.Obj? && Encodable(v) && forall k :: k in ks ==> k in v.fields
    ensures |texts| == |ks| && forall i :: 0 <= i < |ks| ==> texts[i] == MemberText(v, ks[i])
  {
    seq(|ks|, i requires 0 <= i < |ks| => MemberText(v, ks[i]))
  }

  function ItemTexts(items: seq<Json>): (texts: seq<string>)
    requires forall i :: 0 <= i < |items| ==> Encodable(items[i])
    ensures |texts| == |items| && forall i :: 0 <= i < |items| ==> texts[i] == Print(items[i])
  {
    seq(|items|, i requires 0 <= i < |items| => Print(items[i]))
  }

  lemma {:induction false} FieldsJoined(v: Json, ks: seq<PyStr>)
    requires v.Obj? && Encodable(v) && forall k :: k in ks ==> k in v.fields
    ensures FieldsText(v, ks) == Joined(MemberTexts(v, ks)) + "}"
    decreases |ks|
  {
    hide StringText, Print;
    var texts := MemberTexts(v, ks);
    if ks == [] {
      assert texts == [] && "" + "}" == "}";
    } else {
      assert texts[0] == StringText(ks[0]) + ":" + Print(v.fields[ks[0]]);
      if |ks| > 1 {
        FieldsJoined(v, ks[1..]);
        assert MemberTexts(v, ks[1..]) == texts[1..];
        assert texts[0] + "," + Joined(texts[1..]) + "}" == texts[0] + ("," + (Joined(texts[1..]) + "}"));
      }
    }
  }

  /** An object's text: each name once, in ascending order of code points, with its value behind it. */
  lemma {:induction false} ObjectText(v: Json) returns (ks: seq<PyStr>)
    requires v.Obj? && Encodable(v)
    ensures forall k :: k in ks <==> k in v.fields
    ensures forall i, j :: 0 <= i < j < |ks| ==> ks[i] != ks[j] && Precedes(ks[i], ks[j])
    ensures Print(v) == "{" + Joined(MemberTexts(v, ks)) + "}"
  {
    ks := SortedKeys(v.fields.Keys);
    forall i, j | 0 <= i < j < |ks| ensures ks[i] != ks[j] && Precedes(ks[i], ks[j]) {
      LessIs(ks[i], ks[j]);
      LessTotal(ks[i], ks[j]);
    }
    assert Print(v) == "{" + FieldsText(v, ks);
    hide *;
    FieldsJoined(v, ks);
    assert "{" + (Joined(MemberTexts(v, ks)) + "}") == "{" + Joined(MemberTexts(v, ks)) + "}";
  }

  lemma {:induction false} ItemsJoined(items: seq<Json>)
    requires forall i :: 0 <= i < |items| ==> Encodable(items[i])
    ensures ItemsText(items) == Joined(ItemTexts(items)) + "]"
    decreases |items|
  {
    hide Print, Encodable;
    var texts := ItemTexts(items);
    if items == [] {
      assert texts == [] && "" + "]" == "]";
    } else if |items| > 1 {
      ItemsJoined(items[1..]);
      assert ItemTexts(items[1..]) == texts[1..];
      assert texts[0] + "," + Joined(texts[1..]) + "]" == texts[0] + ("," + (Joined(texts[1..]) + "]"));
    }
  }

  lemma {:induction false} ArrayText(v: Json)
    requires v.Arr? && Encodable(v)
    ensures Print(v) == "[" + Joined(ItemTexts(v.items)) + "]"
  {
    assert Print(v) == "[" + ItemsText(v.items);
    ItemsJoined(v.items);
    hide *;
    assert "[" + (Joined(ItemTexts(v.items)) + "]") == "[" + Joined(ItemTexts(v.items)) + "]";
  }

  lemma {:induction false} JoinedSplit(texts: seq<string>, i: nat) returns (x: string, y: string)
    requires i < |texts|
    ensures Joined(texts) == x + texts[i] + y
    ensures i == 0 ==> x == ""
    ensures if i + 1 == |texts| then y == "" else y == "," + Joined(texts[i + 1..])
    decreases i
  {
    if i == 0 {
      x := "";
      y := if |texts| == 1 then "" else "," + Joined(texts[1..]);
      assert Joined(texts) == texts[0] + y;
      assert "" + texts[0] + y == texts[0] + y;
    } else {
      var w;
      w, y := JoinedSplit(texts[1..], i - 1);
      x := texts[0] + "," + w;
      assert texts[1..][i - 1] == texts[i] && texts[1..][i..] == texts[i + 1..];
      assert Joined(texts) == texts[0] + "," + (w + texts[i] + y);
      hide Joined;
      assert texts[0] + "," + (w + texts[i] + y) == x + texts[i] + y;
    }
  }

  /** Of two names of an object, the one with the smaller code point where they first differ stands first. */
  lemma {:induction false} SmallerNameFirst(v: Json, k: PyStr, k': PyStr) returns (x: string, y: string, z: string)
    requires v.Obj? && Encodable(v) && k in v.fields && k' in v.fields && Precedes(k, k')
    ensures Print(v) == x + MemberText(v, k) + "," + y + MemberText(v, k') + z
  {
    LessIs(k, k');
    LessTotal(k, k');
    hide *;
    var ks := ObjectText(v);
    var i :| 0 <= i < |ks| && ks[i] == k;
    var j :| 0 <= j < |ks| && ks[j] == k';
    if j < i { LessIs(k', k); }
    var texts := MemberTexts(v, ks);
    var x0, rest := JoinedSplit(texts, i);
    var y0, z0 := JoinedSplit(texts[i + 1..], j - i - 1);
    assert texts[i + 1..][j - i - 1] == texts[j];
    x, y, z := "{" + x0, y0, z0 + "}";
    Regroup(x0, texts[i], y0, texts[j], z0);
  }

  lemma {:induction false} Regroup(x: string, a: string, y: string, b: string, z: string)
    ensures "{" + (x + a + ("," + (y + b + z))) + "}" == ("{" + x) + a + "," + y + b + (z + "}")
  {
  }

  // ----- Strings: the shortest token -----

  /** What one code unit needs at least. */
  function Cost(c: CodePoint): nat {
    if Surrogate(c) then 6 else |EscapeChar(c)|
  }

  function Costs(us: PyStr): nat {
    if us == [] then 0 else Cost(us[0]) + Costs(us[1..])
  }

  lemma {:induction false} UnitCost(s: string)
    requires CharLength(s) > 0
    ensures CharLength(s) >= Cost(Unit(s))
  {
    if s[0] == '\\' && CharLength(s) == 2 { assert SimpleEscape(s[1]); }
  }

  lemma {:induction false} UnitsCost(s: string)
    requires Units(s).Ok?
    ensures |s| > Costs(Units(s).value) + |Units(s).rest|
    decreases |s|
  {
    if s[0] != '"' {
      var n := CharLength(s);
      UnitCost(s);
      UnitsCost(s[n..]);
      var us := Units(s[n..]).value;
      assert ([Unit(s)] + us)[1..] == us;
      hide CharLength, Cost, Unit;
    }
  }

  lemma {:induction false} JoinedCost(us: PyStr)
    requires Clean(JoinPairs(us))
    ensures |Escape(JoinPairs(us))| <= Costs(us)
    decreases |us|
  {
    if us != [] {
      var n := if |us| >= 2 && High(us[0]) && Low(us[1]) then 2 else 1;
      var x, rest := JoinPairs(us)[0], JoinPairs(us[n..]);
      assert JoinPairs(us) == [x] + rest;
      assert JoinPairs(us)[1..] == rest;
      assert forall i :: 0 <= i < |rest| ==> rest[i] == JoinPairs(us)[i + 1];
      JoinedCost(us[n..]);
      if n == 2 {
        assert Cost(us[0]) == 6;
        assert us[1..][1..] == us[2..];
      }
      hide EscapeChar, JoinPairs;
    }
  }

  /** No string token that stands for the text is shorter than the canonical one. */
  lemma {:induction false} EscapeShortest(r: string)
    requires ParseString(r).Ok? && Clean(ParseString(r).value)
    ensures |Escape(ParseString(r).value)| + 1 + |ParseString(r).rest| <= |r|
  {
    UnitsCost(r);
    JoinedCost(Units(r).value);
    hide Units, Escape, Costs, JoinPairs;
  }

  /** Of the shortest forms of one character the canonical one has no upper-case hex digits. */
  lemma {:induction false} EscapeCharOnly(e: string, c: CodePoint)
    requires 0 < CharLength(e) == |e| && Unit(e) == c && !Surrogate(c)
    requires |e| == |EscapeChar(c)| && forall i :: 2 <= i < |e| ==> !('A' <= e[i] <= 'F')
    ensures e == EscapeChar(c)
  {
    if |e| == 6 {
      assert e == "\\u" + e[2..6];
      LowerHexOnly(e[2..6], c);
    } else if |e| == 2 {
      assert SimpleEscape(e[1]) && e == [e[0], e[1]];
    } else {
      assert e == [e[0]];
    }
  }

  lemma {:induction false} LowerHexOnly(h: string, c: CodePoint)
    requires |h| == 4 && AllHex(h) && HexValue(h) == c < 0x20 && forall i :: 0 <= i < 4 ==> !('A' <= h[i] <= 'F')
    ensures h == ['0', '0', HexChar(c / 16), HexChar(c % 16)]
  {
    var a, b, d, e := HexDigitValue(h[0]), HexDigitValue(h[1]), HexDigitValue(h[2]), HexDigitValue(h[3]);
    JsonRoundTrip.HexSteps(h);
    assert HexValue(h) == ((a * 16 + b) * 16 + d) * 16 + e;
    assert a == 0 && b == 0 && d == c / 16 && e == c % 16;
  }

  // ----- Integers: the only number token -----

  lemma {:induction false} DecOnly(t: string)
    requires IsInt(t)
    ensures AllDigits(t) && t == Dec(NatOf(t))
    decreases |t|
  {
    assert t == t[..|t| - 1] + [t[|t| - 1]];
    if |t| > 1 {
      hide Dec, NatOf;
      DecOnly(t[..|t| - 1]);
      Positive(t[..|t| - 1]);
      OneMore(t[..|t| - 1], t[|t| - 1]);
    } else {
      assert NatOf(t[..0]) == 0;
      assert DigitChar(DigitValue(t[0])) == t[0];
    }
  }

  lemma {:induction false} OneMore(u: string, c: char)
    requires AllDigits(u) && Digit(c) && NatOf(u) > 0 && u == Dec(NatOf(u))
    ensures AllDigits(u + [c]) && u + [c] == Dec(NatOf(u + [c]))
  {
    var t, d := u + [c], DigitValue(c);
    assert t[..|t| - 1] == u;
    assert DigitChar(d) == c;
    var n := NatOf(u);
    assert NatOf(t) == n * 10 + d;
    assert (n * 10 + d) / 10 == n && (n * 10 + d) % 10 == d;
  }

  lemma {:induction false} Positive(t: string)
    requires Digits(t) && t[0] != '0'
    ensures NatOf(t) > 0
    decreases |t|
  {
    if |t| == 1 { assert NatOf(t[..0]) == 0; } else { Positive(t[..|t| - 1]); }
  }

  /** An integer has one token, but for the minus sign that zero may carry. */
  lemma {:induction false} IntTextOnly(t: string)
    requires MatchesNumber(t) && IntToken(t)
    ensures t == IntText(IntOf(t)) || (t == "-0" && IntText(IntOf(t)) == "0")
  {
    NumberPattern(t);
    var m, i, f, e :| NumberParts(m, i, f, e) && t == m + i + f + e;
    IntegerParts(t, m, i, f, e);
    DecOnly(i);
    if m == "-" {
      assert t[1..] == i;
      if i != "0" { Positive(i); }
    } else {
      assert t == i;
    }
  }

  lemma {:induction false} IntegerParts(t: string, m: string, i: string, f: string, e: string)
    requires NumberParts(m, i, f, e) && t == m + i + f + e && IntToken(t)
    ensures f == "" && e == "" && t == m + i && (m == "" <==> AllDigits(t))
  {
    AfterInt(m, i, f, e);
  }

  lemma {:induction false} AfterInt(m: string, i: string, f: string, e: string)
    requires NumberParts(m, i, f, e)
    ensures f != "" ==> '.' in m + i + f + e
    ensures f == "" && e != "" ==> 'e' in m + i + f + e || 'E' in m + i + f + e
    ensures m != "" ==> (m + i + f + e)[0] == '-'
  {
    var t := m + i + f + e;
    if f != "" { assert t[|m| + |i|] == f[0]; }
    if f == "" && e != "" { assert t[|m| + |i|] == e[0]; }
  }
}
