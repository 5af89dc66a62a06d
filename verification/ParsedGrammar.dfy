/** The decoder and the grammar: what decodes, constants apart, is a text of RFC 8259. */
module ParsedGrammar {
  import opened Options
  import opened PyText
  import opened JsonValues
  import opened JsonGrammar
  import opened NumberTokens
  import opened JsonParser
  import opened JsonRoundTrip
  import opened StrictJson
  import opened StrictText
  import TornRecord

  lemma {:induction false} UnitsToken(s: string) returns (c: string)
    requires Units(s).Ok?
    ensures s == c + Units(s).rest && StringTail(c)
    decreases |s|
  {
    if s[0] == '"' {
      c := s[..1];
      assert c == "\"";
    } else {
      var n := CharLength(s);
      var tail := UnitsToken(s[n..]);
      c := s[..n] + tail;
      assert s == c + Units(s[n..]).rest;
      TornRecord.CharLengthTrim(s, c);
      assert c[n..] == tail;
      hide CharLength;
    }
  }

  lemma {:induction false} StringToken(s: string) returns (c: string)
    requires s != "" && s[0] == '"' && ParseString(s[1..]).Ok?
    ensures s == c + ParseString(s[1..]).rest && IsString(c)
  {
    hide *;
    StringUnits(s[1..]);
    var tail := UnitsToken(s[1..]);
    c := ['"'] + tail;
    QuotedIs(tail);
    Regroup(s, ['"'], tail, ParseString(s[1..]).rest);
  }

  lemma {:induction false} QuotedIs(tail: string)
    requires StringTail(tail)
    ensures IsString(['"'] + tail)
  {
    assert (['"'] + tail)[1..] == tail;
  }

  lemma {:induction false} ScalarToken(fl: FloatReader, s: string) returns (c: string)
    requires s != "" && s[0] != '"' && s[0] != '{' && s[0] != '[' && ParseValue(fl, s).Ok?
    requires !ParseValue(fl, s).value.NonFinite?
    ensures s == c + ParseValue(fl, s).rest && (IsLiteral(c) || IsNumber(c))
    ensures !ParseValue(fl, s).value.Obj?
  {
    c := s[..|s| - |ParseValue(fl, s).rest|];
    if !("null" <= s || "true" <= s || "false" <= s) {
      NumberCase(fl, s);
      LongestToken(fl, s);
      NumberPattern(c);
      hide IsNumber, ParseValue, ParseNumber;
    }
  }

  lemma {:induction false} LongestToken(fl: FloatReader, s: string)
    requires ParseNumber(fl, s).Ok? && !ParseNumber(fl, s).value.NonFinite?
    ensures MatchesNumber(s[..|s| - |ParseNumber(fl, s).rest|]) && !ParseNumber(fl, s).value.Obj?
    ensures s == s[..|s| - |ParseNumber(fl, s).rest|] + ParseNumber(fl, s).rest
  {
    LongestAccepts(Start, s);
  }

  lemma {:induction false} ValueTree(fl: FloatReader, s: string) returns (t: Value)
    requires ParseValue(fl, s).Ok? && !MeetsValue(fl, s)
    ensures WellFormed(t) && s == Text(t) + ParseValue(fl, s).rest
    ensures ParseValue(fl, s).value.Obj? <==> t.Container? && t.closer == '}'
    decreases |s|, 1
  {
    if s[0] == '"' {
      var c := StringToken(s);
      t := Scalar(c);
    } else if s[0] == '{' {
      t := ObjectTree(fl, s);
    } else if s[0] == '[' {
      t := ArrayTree(fl, s);
    } else {
      var c := ScalarToken(fl, s);
      t := Scalar(c);
    }
    hide ParseString, IsString, IsNumber, IsLiteral, ElementsWellFormed, ElementsText, MeetsMembers, MeetsItems;
  }

  lemma {:induction false} EmptyTree(closer: char, w: string, r: string) returns (t: Value)
    requires IsCloser(closer) && Blank(w) && r != "" && r[0] == closer
    ensures WellFormed(t) && t.Container? && t.closer == closer && [Opener(closer)] + w + r == Text(t) + r[1..]
  {
    t := Container(closer, w, NoElements);
    assert Text(t) == [Opener(closer)] + (w + [closer]);
    assert r == [closer] + r[1..];
  }

  lemma {:induction false} ObjectTree(fl: FloatReader, s: string) returns (t: Value)
    requires s != "" && s[0] == '{' && ParseValue(fl, s).Ok? && !MeetsValue(fl, s)
    ensures WellFormed(t) && s == Text(t) + ParseValue(fl, s).rest && ParseValue(fl, s).value.Obj?
    ensures t.Container? && t.closer == '}'
    decreases |s|, 0
  {
    var r := ObjectParts(fl, s);
    hide ParseValue, MeetsValue, ParseMembers, MeetsMembers, SkipWs, Blank, Text, ElementsText, ElementsWellFormed;
    var w := WsSplit(s[1..]);
    assert s == [Opener('}')] + w + r;
    if r[0] == '}' && ParseValue(fl, s).rest == r[1..] {
      t := EmptyTree('}', w, r);
    } else {
      var es := MembersTree(fl, r, map[]);
      t := Container('}', w, es);
      ContainerIs('}', w, es, ParseValue(fl, s).rest, r);
    }
  }

  lemma {:induction false} ArrayTree(fl: FloatReader, s: string) returns (t: Value)
    requires s != "" && s[0] == '[' && ParseValue(fl, s).Ok? && !MeetsValue(fl, s)
    ensures WellFormed(t) && s == Text(t) + ParseValue(fl, s).rest && !ParseValue(fl, s).value.Obj?
    ensures t.Container? && t.closer == ']'
    decreases |s|, 0
  {
    var r := ArrayParts(fl, s);
    hide ParseValue, MeetsValue, ParseItems, MeetsItems, SkipWs, Blank, Text, ElementsText, ElementsWellFormed;
    var w := WsSplit(s[1..]);
    assert s == [Opener(']')] + w + r;
    if r[0] == ']' && ParseValue(fl, s).rest == r[1..] {
      t := EmptyTree(']', w, r);
    } else {
      var es := ItemsTree(fl, r);
      t := Container(']', w, es);
      ContainerIs(']', w, es, ParseValue(fl, s).rest, r);
    }
  }

  lemma {:induction false} ContainerIs(closer: char, w: string, es: Elements, rest: string, r: string)
    requires r == ElementsText(closer, es) + rest
    ensures [Opener(closer)] + w + r == Text(Container(closer, w, es)) + rest
  {
    hide ElementsText;
    assert Text(Container(closer, w, es)) == [Opener(closer)] + (w + ElementsText(closer, es));
  }

  /** An element in front of what follows it. */
  lemma {:induction false} ElementIs(closer: char, lead: string, v: Value, w: string, rest: Rest, r: string)
      returns (es: Elements)
    requires IsCloser(closer) && IsLabel(closer, lead) && WellFormed(v) && Blank(w) && RestWellFormed(closer, rest)
    ensures es.Item? && ElementsWellFormed(closer, es)
    ensures ElementsText(closer, es) + r == lead + (Text(v) + (w + (RestText(closer, rest) + r)))
  {
    es := Item(lead, v, w, rest);
    TornRecord.ItemThen(closer, lead, v, w, rest, r);
  }

  /** What stands behind an element. */
  lemma {:induction false} RestIs(closer: char, x: string, w': string, next: Elements, r: string) returns (rest: Rest)
    requires IsCloser(closer) && x != ""
    requires (x[0] == closer && r == x[1..]) ||
             (x[0] == ',' && Blank(w') && next.Item? && ElementsWellFormed(closer, next)
              && x[1..] == w' + (ElementsText(closer, next) + r))
    ensures RestWellFormed(closer, rest) && x == RestText(closer, rest) + r
  {
    hide ElementsText, ElementsWellFormed;
    if x[0] == closer {
      rest := Close;
      assert x == [closer] + x[1..];
    } else {
      rest := Comma(w', next);
      assert x == [','] + x[1..];
      assert RestText(closer, rest) + r == [','] + (w' + (ElementsText(closer, next) + r));
    }
  }

  lemma {:induction false} ItemsTree(fl: FloatReader, s: string) returns (es: Elements)
    requires ParseItems(fl, s).Ok? && !MeetsItems(fl, s)
    ensures es.Item? && ElementsWellFormed(']', es) && s == ElementsText(']', es) + ParseItems(fl, s).rest
    decreases |s|, 3
  {
    hide MeetsValue, MeetsItems, ParseValue, ParseItems, SkipWs, WellFormed, Text, ElementsText, ElementsWellFormed,
      RestText, RestWellFormed, Blank;
    var vs, rest := ParseItems(fl, s).value, ParseItems(fl, s).rest;
    var v, r, x := ItemsCases(fl, s, vs, rest);
    ItemsMet(fl, s, v, r, x);
    var t := ValueTree(fl, s);
    var w := WsSplit(r);
    var w', next := "", NoElements;
    if x[0] == ',' {
      SkipShorter(x[1..]);
      w' := WsSplit(x[1..]);
      next := ItemsTree(fl, SkipWs(x[1..]));
    }
    var tail := RestIs(']', x, w', next, rest);
    es := ElementIs(']', "", t, w, tail, rest);
    assert s == "" + (Text(t) + (w + x));
  }

  lemma {:induction false} NameTree(s: string) returns (c: string)
    requires ParseName(s).Ok?
    ensures IsLabel('}', c) && s == c + ParseName(s).rest
  {
    hide IsString, ParseString, SkipWs, Blank;
    var name := StringToken(s);
    var rest := ParseString(s[1..]).rest;
    var w := WsSplit(rest);
    var r := SkipWs(rest);
    var w' := WsSplit(r[1..]);
    c := name + w + ":" + w';
    assert r == ":" + (w' + SkipWs(r[1..]));
    assert s == name + (w + (":" + (w' + SkipWs(r[1..]))));
  }

  lemma {:induction false} MembersTree(fl: FloatReader, s: string, acc: map<PyStr, Json>) returns (es: Elements)
    requires ParseMembers(fl, s, acc).Ok? && !MeetsMembers(fl, s)
    ensures es.Item? && ElementsWellFormed('}', es) && s == ElementsText('}', es) + ParseMembers(fl, s, acc).rest
    decreases |s|, 3
  {
    hide MeetsValue, MeetsMembers, ParseValue, ParseMembers, ParseName, SkipWs, WellFormed, Text, ElementsText,
      ElementsWellFormed, RestText, RestWellFormed, Blank, IsLabel;
    var fields, rest := ParseMembers(fl, s, acc).value, ParseMembers(fl, s, acc).rest;
    var k, n, v, r, x := MembersCases(fl, s, acc, fields, rest);
    MembersMet(fl, s, k, n, v, r, x);
    var c := NameTree(s);
    var t := ValueTree(fl, n);
    var w := WsSplit(r);
    var w', next := "", NoElements;
    if x[0] == ',' {
      SkipShorter(x[1..]);
      w' := WsSplit(x[1..]);
      next := MembersTree(fl, SkipWs(x[1..]), acc[k := v]);
    }
    var tail := RestIs('}', x, w', next, rest);
    es := ElementIs('}', c, t, w, tail, rest);
    assert s == c + (Text(t) + (w + x));
  }

  /** A text that decodes and holds no number outside strings that is not finite is one value of the grammar, an
      object if and only if it decodes to one, with whitespace around it. */
  lemma {:induction false} LoadsGrammar(fl: FloatReader, text: string) returns (w: string, t: Value, w': string)
    requires Loads(fl, text).Some? && !HoldsNonFinite(fl, text)
    ensures Blank(w) && Blank(w') && WellFormed(t) && text == w + Text(t) + w'
    ensures Loads(fl, text).value.Obj? <==> t.Container? && t.closer == '}'
  {
    hide *;
    TextScan(fl, text);
    LoadsParts(fl, text);
    w := WsSplit(text);
    t := ValueTree(fl, SkipWs(text));
    w' := WsSplit(ParseValue(fl, SkipWs(text)).rest);
    assert text == w + (Text(t) + (w' + ""));
  }

  lemma {:induction false} LoadsParts(fl: FloatReader, text: string)
    requires Loads(fl, text).Some?
    ensures ParseValue(fl, SkipWs(text)).Ok? && SkipWs(ParseValue(fl, SkipWs(text)).rest) == ""
    ensures ParseValue(fl, SkipWs(text)).value == Loads(fl, text).value
  {
    hide ParseValue, SkipWs;
  }
}
