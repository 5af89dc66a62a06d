/** Printing and parsing undo each other; a parse that has finished is not changed by more text. */
module JsonRoundTrip {
  import opened Options
  import opened PyText
  import opened JsonValues
  import opened JsonGrammar
  import opened NumberTokens
  import opened JsonPrinter
  import opened JsonParser
  import opened Utf8

  // ----- Strings -----

  lemma {:induction false} HexSteps(h: string)
    requires |h| == 4 && AllHex(h)
    ensures HexValue(h) ==
            ((HexDigitValue(h[0]) * 16 + HexDigitValue(h[1])) * 16 + HexDigitValue(h[2])) * 16 + HexDigitValue(h[3])
  {
    hide HexDigitValue;
    assert h[..3][..2] == h[..2] && h[..2][..1] == h[..1] && h[..1][..0] == "";
    assert HexValue(h[..1]) == HexDigitValue(h[0]);
    assert HexValue(h[..2]) == HexDigitValue(h[0]) * 16 + HexDigitValue(h[1]);
    assert HexValue(h[..3]) == HexValue(h[..2]) * 16 + HexDigitValue(h[2]);
  }

  lemma {:induction false} EscapeCharUnit(c: CodePoint, rest: string)
    requires !Surrogate(c)
    ensures CharLength(EscapeChar(c) + rest) == |EscapeChar(c)|
    ensures Unit(EscapeChar(c) + rest) == c
    ensures (EscapeChar(c) + rest)[0] != '"'
  {
    var e := EscapeChar(c);
    var s := e + rest;
    if |e| == 2 {
      assert s[0] == e[0] && s[1] == e[1];
    } else if |e| == 6 {
      assert s[..6] == e;
      assert s[2..6] == ['0', '0', HexChar(c / 16), HexChar(c % 16)];
      var h := s[2..6];
      assert HexDigitValue('0') == 0;
      assert HexDigitValue(HexChar(c / 16)) == c / 16 && HexDigitValue(HexChar(c % 16)) == c % 16;
      assert AllHex(h);
      HexSteps(h);
    }
  }

  lemma {:induction false} EscapeUnits(x: PyStr, rest: string)
    requires Clean(x)
    ensures Units(Escape(x) + ("\"" + rest)) == Ok(x, rest)
    decreases |x|
  {
    var tail := "\"" + rest;
    if x == [] {
      assert Escape(x) + tail == tail && tail[1..] == rest;
    } else {
      var more := Escape(x[1..]) + tail;
      assert Escape(x) + tail == EscapeChar(x[0]) + more;
      EscapeUnits(x[1..], rest);
      hide Units, EscapeChar;
      UnitsStep(x[0], more);
      assert x == [x[0]] + x[1..];
    }
  }

  lemma {:induction false} UnitsStep(c: CodePoint, more: string)
    requires !Surrogate(c) && Units(more).Ok?
    ensures Units(EscapeChar(c) + more) == Ok([c] + Units(more).value, Units(more).rest)
  {
    EscapeCharUnit(c, more);
    assert (EscapeChar(c) + more)[|EscapeChar(c)|..] == more;
    hide EscapeChar, CharLength, Unit;
  }

  lemma {:induction false} JoinClean(x: PyStr)
    requires Clean(x)
    ensures JoinPairs(x) == x
    decreases |x|
  {
    if x != [] {
      JoinClean(x[1..]);
      assert x == [x[0]] + x[1..];
    }
  }

  lemma {:induction false} ParseStringText(x: PyStr, rest: string)
    requires Clean(x)
    ensures ParseString((StringText(x) + rest)[1..]) == Ok(x, rest)
    ensures (StringText(x) + rest)[0] == '"'
  {
    assert (StringText(x) + rest)[1..] == Escape(x) + ("\"" + rest);
    EscapeUnits(x, rest);
    JoinClean(x);
  }

  // ----- Numbers -----

  lemma {:induction false} DecDigits(n: nat)
    ensures IsInt(Dec(n)) && NatOf(Dec(n)) == n
    ensures n > 0 ==> Dec(n)[0] != '0'
  {
    if n >= 10 {
      DecDigits(n / 10);
      var d := Dec(n);
      assert d[..|d| - 1] == Dec(n / 10);
    } else {
      var d := Dec(n);
      assert d[..|d| - 1] == "";
      assert NatOf("") == 0;
    }
  }

  lemma {:induction false} IntTokenIs(n: int)
    ensures IntToken(IntText(n)) && IntOf(IntText(n)) == n && MatchesNumber(IntText(n))
    ensures IntText(n)[0] == '-' || Digit(IntText(n)[0])
  {
    var d := Dec(if n < 0 then -n else n);
    DecDigits(if n < 0 then -n else n);
    if n < 0 {
      assert IntText(n)[1..] == d;
      PartsAccepted("-", d, "", "");
      assert "-" + d + "" + "" == IntText(n);
    } else {
      PartsAccepted("", d, "", "");
      assert "" + d + "" + "" == d;
    }
  }

  /** A text that cannot continue a number. */
  predicate Delimited(rest: string) {
    rest == "" || !NumberChar(rest[0])
  }

  lemma {:induction false} LongestDead(s: string)
    ensures Longest(Dead, s) == None
    decreases |s|
  {
    if s != "" { LongestDead(s[1..]); }
  }

  lemma {:induction false} LongestToken(q: State, t: string, rest: string)
    requires Accepting(Run(q, t)) && Delimited(rest)
    ensures Longest(q, t + rest) == Some(|t|)
    decreases |t|
  {
    if t == "" {
      assert t + rest == rest;
      if rest != "" {
        assert Step(q, rest[0]) == Dead;
        LongestDead(rest[1..]);
      }
    } else {
      assert (t + rest)[1..] == t[1..] + rest;
      LongestToken(Step(q, t[0]), t[1..], rest);
    }
  }

  lemma {:induction false} ParseNumberToken(fl: FloatReader, t: string, rest: string)
    requires MatchesNumber(t) && Delimited(rest)
    ensures ParseValue(fl, t + rest) == Ok(NumberValue(fl, t), rest)
  {
    assert t != "";
    RunDead(t[1..]);
    assert t[0] == '-' || Digit(t[0]);
    assert (t + rest)[0] == t[0];
    LongestToken(Start, t, rest);
    assert (t + rest)[..|t|] == t && (t + rest)[|t|..] == rest;
  }

  lemma {:induction false} FloatNotInt(t: string)
    requires FloatToken(t)
    ensures !IntToken(t)
  {
    if '.' in t { var i :| 0 <= i < |t| && t[i] == '.'; assert i > 0 ==> t[1..][i - 1] == '.'; }
    else if 'e' in t { var i :| 0 <= i < |t| && t[i] == 'e'; assert i > 0 ==> t[1..][i - 1] == 'e'; }
    else { var i :| 0 <= i < |t| && t[i] == 'E'; assert i > 0 ==> t[1..][i - 1] == 'E'; }
  }

  // ----- Values -----

  lemma {:induction false} PrintHead(v: Json)
    requires Encodable(v)
    requires v.Float? ==> FloatToken(v.token)
    ensures Print(v) != "" && !IsWs(Print(v)[0]) && Print(v)[0] != ']' && Print(v)[0] != '}'
    ensures v.Obj? <==> Print(v)[0] == '{'
  {
    match v
    case Int(n) => IntTokenIs(n);
    case Float(t) => RunDead(t[1..]);
    case _ =>
  }

  lemma {:induction false} ParsePrinted(fl: FloatReader, v: Json, rest: string)
    requires Encodable(v) && Lawful(fl, v) && Delimited(rest)
    ensures ParseValue(fl, Print(v) + rest) == Ok(v, rest)
    decreases v, 2, 0
  {
    var s := Print(v) + rest;
    match v
    case Null => assert s[4..] == rest;
    case Bool(b) => assert s[if b then 4 else 5..] == rest;
    case Int(n) => IntTokenIs(n); ParseNumberToken(fl, IntText(n), rest);
    case Float(t) => FloatNotInt(t); ParseNumberToken(fl, t, rest);
    case Str(x) => ParseStringText(x, rest);
    case Arr(items) => ParsePrintedArray(fl, v, rest);
    case Obj(fields) => ParsePrintedObject(fl, v, rest);
  }

  lemma {:induction false} ParsePrintedArray(fl: FloatReader, v: Json, rest: string)
    requires v.Arr? && Encodable(v) && Lawful(fl, v)
    ensures ParseValue(fl, Print(v) + rest) == Ok(v, rest)
    decreases v, 1, 0
  {
    var s := Print(v) + rest;
    var inner := ItemsText(v.items) + rest;
    assert s[0] == '[' && s[1..] == inner;
    if v.items == [] {
      assert inner == "]" + rest && inner[1..] == rest;
    } else {
      ParsePrintedItems(fl, v.items, rest);
      PrintHead(v.items[0]);
      assert inner[0] == Print(v.items[0])[0];
    }
  }

  /** One turn of the array loop. */
  lemma {:induction false} ItemsFrom(fl: FloatReader, s: string, v: Json, rest: string, x: string)
    requires ParseValue(fl, s) == Ok(v, rest) && SkipWs(rest) == x && x != ""
    ensures x[0] == ']' ==> ParseItems(fl, s) == Ok([v], x[1..])
    ensures x[0] != ']' && x[0] != ',' ==> ParseItems(fl, s) == Fail
    ensures x[0] == ',' ==>
      ParseItems(fl, s) == match ParseItems(fl, SkipWs(x[1..]))
                           case Ok(vs, rest') => Ok([v] + vs, rest')
                           case Fail => Fail
  {
  }

  lemma {:induction false} ItemTextIs(items: seq<Json>, rest: string) returns (y: string)
    requires items != [] &&
               forall i :: 0 <= i < |items| ==> Encodable(items[i]) && (items[i].Float? ==> FloatToken(items[i].token))
    ensures ItemsText(items) + rest == Print(items[0]) + y
    ensures Delimited(y) && SkipWs(y) == y && y != ""
    ensures |items| == 1 ==> y[0] == ']' && y[1..] == rest && items == [items[0]]
    ensures |items| > 1 ==> y[0] == ',' && y[1..] == ItemsText(items[1..]) + rest && SkipWs(y[1..]) == y[1..]
    ensures items == [items[0]] + items[1..]
  {
    var more := if |items| == 1 then rest else ItemsText(items[1..]) + rest;
    y := (if |items| == 1 then "]" else ",") + more;
    assert y[1..] == more;
    if |items| > 1 {
      PrintHead(items[1]);
      assert more[0] == Print(items[1])[0];
    }
  }

  lemma {:induction false} ParsePrintedItems(fl: FloatReader, items: seq<Json>, rest: string)
    requires items != [] && forall i :: 0 <= i < |items| ==> Encodable(items[i]) && Lawful(fl, items[i])
    ensures ParseItems(fl, ItemsText(items) + rest) == Ok(items, rest)
    decreases items, 0, 0
  {
    var y := ItemTextIs(items, rest);
    hide ParseValue, ParseItems, ItemsText, Print;
    ParsePrinted(fl, items[0], y);
    ItemsFrom(fl, ItemsText(items) + rest, items[0], y, y);
    if |items| > 1 { ParsePrintedItems(fl, items[1..], rest); }
  }

  function AddFields(acc: map<PyStr, Json>, fields: map<PyStr, Json>, keys: seq<PyStr>): map<PyStr, Json>
    requires forall k :: k in keys ==> k in fields
    decreases |keys|
  {
    if keys == [] then acc else AddFields(acc[keys[0] := fields[keys[0]]], fields, keys[1..])
  }

  lemma {:induction false} AddFieldsIs(acc: map<PyStr, Json>, fields: map<PyStr, Json>, keys: seq<PyStr>)
    requires forall k :: k in keys ==> k in fields
    ensures AddFields(acc, fields, keys).Keys == acc.Keys + (set k | k in keys)
    ensures forall k :: k in keys ==> AddFields(acc, fields, keys)[k] == fields[k]
    ensures forall k :: k in acc && k !in keys ==> AddFields(acc, fields, keys)[k] == acc[k]
    decreases |keys|
  {
    if keys != [] {
      AddFieldsIs(acc[keys[0] := fields[keys[0]]], fields, keys[1..]);
      assert keys == [keys[0]] + keys[1..];
    }
  }

  lemma {:induction false} AllFieldsAdded(v: Json)
    requires v.Obj?
    ensures AddFields(map[], v.fields, SortedKeys(v.fields.Keys)) == v.fields
  {
    AddFieldsIs(map[], v.fields, SortedKeys(v.fields.Keys));
  }

  lemma {:induction false} ObjectTextIs(v: Json, rest: string) returns (keys: seq<PyStr>, inner: string)
    requires v.Obj? && Encodable(v)
    ensures keys == SortedKeys(v.fields.Keys) && inner == FieldsText(v, keys) + rest
    ensures var s := Print(v) + rest; s != "" && s[0] == '{' && s[1..] == inner && SkipWs(inner) == inner
    ensures inner != "" && (keys == [] ==> inner[0] == '}' && inner[1..] == rest) && (keys != [] ==> inner[0] != '}')
    ensures keys == [] ==> v == Obj(map[])
  {
    keys := SortedKeys(v.fields.Keys);
    inner := FieldsText(v, keys) + rest;
    assert Print(v) + rest == ['{'] + inner;
    if keys == [] { assert inner == "}" + rest; } else { assert inner[0] == '"'; }
  }

  lemma {:induction false} ParsePrintedObject(fl: FloatReader, v: Json, rest: string)
    requires v.Obj? && Encodable(v) && Lawful(fl, v)
    ensures ParseValue(fl, Print(v) + rest) == Ok(v, rest)
    decreases v, 1, 1
  {
    hide *;
    var keys, inner := ObjectTextIs(v, rest);
    AllFieldsAdded(v);
    if keys == [] {
      EmptyObjectFrom(fl, Print(v) + rest, inner, rest);
    } else {
      ParseFullObject(fl, v, keys, inner, rest);
    }
  }

  lemma {:induction false} ParseFullObject(fl: FloatReader, v: Json, keys: seq<PyStr>, inner: string, rest: string)
    requires v.Obj? && Encodable(v) && Lawful(fl, v)
    requires keys != [] && (forall k :: k in keys ==> k in v.fields) && AddFields(map[], v.fields, keys) == v.fields
    requires inner == FieldsText(v, keys) + rest && inner != "" && SkipWs(inner) == inner && inner[0] != '}'
    requires var s := Print(v) + rest; s != "" && s[0] == '{' && s[1..] == inner
    ensures ParseValue(fl, Print(v) + rest) == Ok(v, rest)
    decreases v, 1, 0
  {
    hide *;
    ParsePrintedMembers(fl, v, keys, map[], rest);
    ObjectFrom(fl, Print(v) + rest, inner, v.fields, rest);
  }

  lemma {:induction false} EmptyObjectFrom(fl: FloatReader, s: string, r: string, rest: string)
    requires s != "" && s[0] == '{' && SkipWs(s[1..]) == r && r != "" && r[0] == '}' && r[1..] == rest
    ensures ParseValue(fl, s) == Ok(Obj(map[]), rest)
  {
  }

  lemma {:induction false} ObjectFrom(fl: FloatReader, s: string, r: string, fields: map<PyStr, Json>, rest: string)
    requires s != "" && s[0] == '{' && SkipWs(s[1..]) == r && r != "" && r[0] != '}'
    requires ParseMembers(fl, r, map[]) == Ok(fields, rest)
    ensures ParseValue(fl, s) == Ok(Obj(fields), rest)
  {
  }

  lemma {:induction false} ArrayFrom(fl: FloatReader, s: string, r: string, items: seq<Json>, rest: string)
    requires s != "" && s[0] == '[' && SkipWs(s[1..]) == r && r != "" && r[0] != ']'
    requires ParseItems(fl, r) == Ok(items, rest)
    ensures ParseValue(fl, s) == Ok(Arr(items), rest)
  {
  }

  /** One turn of the object loop. */
  lemma {:induction false} MembersFrom(fl: FloatReader, s: string, acc: map<PyStr, Json>, k: PyStr, r: string,
                                       v: Json, rest: string, x: string)
    requires ParseName(s) == Ok(k, r) && ParseValue(fl, r) == Ok(v, rest) && SkipWs(rest) == x && x != ""
    ensures x[0] == '}' ==> ParseMembers(fl, s, acc) == Ok(acc[k := v], x[1..])
    ensures x[0] != '}' && x[0] != ',' ==> ParseMembers(fl, s, acc) == Fail
    ensures x[0] == ',' ==> ParseMembers(fl, s, acc) == ParseMembers(fl, SkipWs(x[1..]), acc[k := v])
  {
  }

  /** The name, the colon and the value of a printed member. */
  lemma {:induction false} ParsePrintedName(k: PyStr, x: Json, rest: string)
    requires Clean(k) && Encodable(x) && (x.Float? ==> FloatToken(x.token))
    ensures ParseName(StringText(k) + (":" + (Print(x) + rest))) == Ok(k, Print(x) + rest)
  {
    var value := Print(x) + rest;
    ParseStringText(k, ":" + value);
    assert (":" + value)[1..] == value;
    PrintHead(x);
    assert value[0] == Print(x)[0];
  }

  lemma {:induction false} MemberTextIs(v: Json, keys: seq<PyStr>, rest: string) returns (y: string)
    requires v.Obj? && Encodable(v) && keys != [] && forall k :: k in keys ==> k in v.fields
    ensures FieldsText(v, keys) + rest == StringText(keys[0]) + (":" + (Print(v.fields[keys[0]]) + y))
    ensures Delimited(y) && SkipWs(y) == y && y != ""
    ensures |keys| == 1 ==> y[0] == '}' && y[1..] == rest
    ensures |keys| > 1 ==> y[0] == ',' && y[1..] == FieldsText(v, keys[1..]) + rest && SkipWs(y[1..]) == y[1..]
  {
    hide Print, Escape;
    var more := if |keys| == 1 then rest else FieldsText(v, keys[1..]) + rest;
    y := (if |keys| == 1 then "}" else ",") + more;
    assert y[1..] == more;
    if |keys| > 1 { assert more[0] == '"'; }
  }

  lemma {:induction false} ParsePrintedMembers(fl: FloatReader, v: Json, keys: seq<PyStr>, acc: map<PyStr, Json>,
                                               rest: string)
    requires v.Obj? && Encodable(v) && Lawful(fl, v)
    requires keys != [] && forall k :: k in keys ==> k in v.fields
    ensures ParseMembers(fl, FieldsText(v, keys) + rest, acc) == Ok(AddFields(acc, v.fields, keys), rest)
    decreases v, 0, |keys|
  {
    var k := keys[0];
    var x := v.fields[k];
    var y := MemberTextIs(v, keys, rest);
    AddFieldsFirst(acc, v.fields, keys);
    hide ParseValue, ParseMembers, ParseName, FieldsText, StringText, Print;
    ParsePrintedName(k, x, y);
    ParsePrinted(fl, x, y);
    MembersFrom(fl, FieldsText(v, keys) + rest, acc, k, Print(x) + y, x, y, y);
    if |keys| > 1 { ParsePrintedMembers(fl, v, keys[1..], acc[k := x], rest); }
  }

  lemma {:induction false} AddFieldsFirst(acc: map<PyStr, Json>, fields: map<PyStr, Json>, keys: seq<PyStr>)
    requires keys != [] && forall k :: k in keys ==> k in fields
    ensures AddFields(acc, fields, keys) == AddFields(acc[keys[0] := fields[keys[0]]], fields, keys[1..])
    ensures |keys| == 1 ==> AddFields(acc, fields, keys) == acc[keys[0] := fields[keys[0]]]
  {
  }

  // ----- A name without escapes -----

  lemma {:induction false} PlainUnits(x: string, u: string)
    requires forall i :: 0 <= i < |x| ==> Unescaped(x[i])
    ensures Units(x + ("\"" + u)) == Ok(Name(x), u)
    decreases |x|
  {
    var s := x + ("\"" + u);
    if x == "" {
      assert s[1..] == u;
      assert Name(x) == [];
    } else {
      assert s[0] == x[0] && s[1..] == x[1..] + ("\"" + u);
      PlainUnits(x[1..], u);
      assert Name(x) == [x[0] as int] + Name(x[1..]);
    }
  }

  lemma {:induction false} PlainName(x: string, u: string)
    requires forall i :: 0 <= i < |x| ==> Unescaped(x[i])
    ensures var r := SkipWs(u);
            ParseName("\"" + x + ("\"" + u)) == if r == "" || r[0] != ':' then Fail else Ok(Name(x), SkipWs(r[1..]))
  {
    var s := "\"" + x + ("\"" + u);
    assert s[1..] == x + ("\"" + u);
    PlainUnits(x, u);
    JoinClean(Name(x));
    hide Units, JoinPairs;
  }

  /** Parsing the canonical text gives the value back. */
  lemma {:induction false} LoadsPrinted(fl: FloatReader, v: Json)
    requires Encodable(v) && Lawful(fl, v)
    ensures Loads(fl, Print(v)) == Some(v)
  {
    ParsePrinted(fl, v, "");
    assert Print(v) + "" == Print(v);
    PrintHead(v);
  }

  /** Equal canonical bytes mean equal values. */
  lemma {:induction false} CanonicalInjective(fl: FloatReader, v: Json, w: Json)
    requires Lawful(fl, v) && Lawful(fl, w)
    requires CanonicalBytes(v).Some? && CanonicalBytes(v) == CanonicalBytes(w)
    ensures v == w
  {
    RoundTrip(Print(v));
    RoundTrip(Print(w));
    LoadsPrinted(fl, v);
    LoadsPrinted(fl, w);
  }

  // ----- What `Loads` returns is lawful -----

  lemma {:induction false} ParsedLawful(fl: FloatReader, s: string)
    requires LawfulReader(fl)
    ensures ParseValue(fl, s).Ok? ==> Lawful(fl, ParseValue(fl, s).value)
    decreases |s|, 1
  {
    if s != "" {
      if s[0] == '{' { ParsedMembersLawful(fl, SkipWs(s[1..]), map[]); }
      else if s[0] == '[' { ParsedItemsLawful(fl, SkipWs(s[1..])); }
    }
  }

  lemma {:induction false} ParsedItemsLawful(fl: FloatReader, s: string)
    requires LawfulReader(fl)
    ensures ParseItems(fl, s).Ok? ==> Lawful(fl, Arr(ParseItems(fl, s).value))
    decreases |s|, 2
  {
    ParsedLawful(fl, s);
    var p := ParseValue(fl, s);
    if p.Ok? {
      var r := SkipWs(p.rest);
      if r != "" && r[0] == ',' { ParsedItemsLawful(fl, SkipWs(r[1..])); }
    }
  }

  lemma {:induction false} ParsedMembersLawful(fl: FloatReader, s: string, acc: map<PyStr, Json>)
    requires LawfulReader(fl) && Lawful(fl, Obj(acc))
    ensures ParseMembers(fl, s, acc).Ok? ==> Lawful(fl, Obj(ParseMembers(fl, s, acc).value))
    decreases |s|, 2
  {
    var n := ParseName(s);
    if n.Ok? {
      ParsedLawful(fl, n.rest);
      var p := ParseValue(fl, n.rest);
      if p.Ok? {
        var r := SkipWs(p.rest);
        var acc' := acc[n.value := p.value];
        assert Lawful(fl, Obj(acc'));
        if r != "" && r[0] == ',' { ParsedMembersLawful(fl, SkipWs(r[1..]), acc'); }
      }
    }
  }

  lemma {:induction false} LoadsLawful(fl: FloatReader, text: string)
    requires LawfulReader(fl)
    ensures Loads(fl, text).Some? ==> Lawful(fl, Loads(fl, text).value)
  {
    ParsedLawful(fl, SkipWs(text));
  }

  // ----- More text does not change a parse that has finished -----

  lemma {:induction false} SkipWsStable(s: string, t: string)
    requires SkipWs(s) != ""
    ensures SkipWs(s + t) == SkipWs(s) + t
    decreases |s|
  {
    if IsWs(s[0]) {
      assert (s + t)[1..] == s[1..] + t;
      SkipWsStable(s[1..], t);
    }
  }

  lemma {:induction false} CharStable(x: string, u: string)
    requires CharLength(x) > 0
    ensures CharLength(x + u) == CharLength(x) && Unit(x + u) == Unit(x)
  {
    CharLengthStable(x, u);
    if |x| >= 6 { assert (x + u)[2..6] == x[2..6]; }
  }

  lemma {:induction false} UnitsStable(s: string, t: string)
    requires Units(s).Ok?
    ensures Units(s + t) == Ok(Units(s).value, Units(s).rest + t)
    decreases |s|
  {
    if s[0] == '"' {
      assert (s + t)[1..] == s[1..] + t;
    } else {
      CharStable(s, t);
      var n := CharLength(s);
      assert (s + t)[n..] == s[n..] + t;
      UnitsStable(s[n..], t);
    }
  }

  lemma {:induction false} LongestStable(q: State, s: string, t: string)
    requires Longest(q, s).Some? && Delimited(s[Longest(q, s).value..]) && s[Longest(q, s).value..] != ""
    ensures Longest(q, s + t) == Longest(q, s)
  {
    var n := Longest(q, s).value;
    LongestAccepts(q, s);
    LongestToken(q, s[..n], s[n..] + t);
    assert s + t == s[..n] + (s[n..] + t);
  }

  lemma {:induction false} LongestAccepts(q: State, s: string)
    requires Longest(q, s).Some?
    ensures Accepting(Run(q, s[..Longest(q, s).value]))
    decreases |s|
  {
    var n := Longest(q, s).value;
    if n > 0 {
      LongestAccepts(Step(q, s[0]), s[1..]);
      assert s[..n][1..] == s[1..][..n - 1];
    }
  }

  /** A value whose end is visible: a container, a string, or anything a delimiter follows. */
  predicate Settled(v: Json, rest: string) {
    v.Str? || v.Arr? || v.Obj? || (rest != "" && !NumberChar(rest[0]))
  }

  lemma {:induction false} LiteralsStable(s: string, t: string, word: string)
    ensures word <= s ==> word <= s + t && (s + t)[|word|..] == s[|word|..] + t
  {
    if word <= s { assert (s + t)[..|word|] == s[..|word|]; }
  }

  lemma {:induction false} LiteralStable(fl: FloatReader, s: string, t: string)
    requires "null" <= s || "true" <= s || "false" <= s
    ensures ParseValue(fl, s).Ok?
    ensures ParseValue(fl, s + t) == Ok(ParseValue(fl, s).value, ParseValue(fl, s).rest + t)
  {
    assert (s + t)[0] == s[0];
    LiteralsStable(s, t, "null");
    LiteralsStable(s, t, "true");
    LiteralsStable(s, t, "false");
    if "null" <= s { assert s[0] == 'n'; } else if "true" <= s { assert s[0] == 't'; } else { assert s[0] == 'f'; }
  }

  lemma {:induction false} ParseNumberStable(fl: FloatReader, s: string, t: string)
    requires ParseNumber(fl, s).Ok? && Settled(ParseNumber(fl, s).value, ParseNumber(fl, s).rest)
    ensures ParseNumber(fl, s + t) == Ok(ParseNumber(fl, s).value, ParseNumber(fl, s).rest + t)
  {
    var m := Longest(Start, s);
    if m.Some? {
      LongestStable(Start, s, t);
      var n := m.value;
      assert (s + t)[..n] == s[..n] && (s + t)[n..] == s[n..] + t;
    } else {
      ConstantHead(s, t);
      LiteralsStable(s, t, "NaN");
      LiteralsStable(s, t, "Infinity");
      LiteralsStable(s, t, "-Infinity");
    }
  }

  /** A text that starts like no string, container or literal is handed to the number scanner. */
  lemma {:induction false} NumberCase(fl: FloatReader, s: string)
    requires s != "" && s[0] != '"' && s[0] != '{' && s[0] != '['
    requires !("null" <= s) && !("true" <= s) && !("false" <= s)
    ensures ParseValue(fl, s) == ParseNumber(fl, s)
  {
  }

  lemma {:induction false} NumberStable(fl: FloatReader, s: string, t: string)
    requires s != "" && s[0] != '"' && s[0] != '{' && s[0] != '['
    requires ParseValue(fl, s).Ok? && Settled(ParseValue(fl, s).value, ParseValue(fl, s).rest)
    ensures ParseValue(fl, s + t) == Ok(ParseValue(fl, s).value, ParseValue(fl, s).rest + t)
  {
    assert (s + t)[0] == s[0];
    if "null" <= s || "true" <= s || "false" <= s {
      LiteralStable(fl, s, t);
    } else {
      NumberCase(fl, s);
      NoLiteralYet(fl, s, t);
      NumberCase(fl, s + t);
      ParseNumberStable(fl, s, t);
    }
  }

  lemma {:induction false} NoLiteralYet(fl: FloatReader, s: string, t: string)
    requires s != "" && ParseNumber(fl, s).Ok?
    ensures !("null" <= s + t) && !("true" <= s + t) && !("false" <= s + t)
  {
    assert (s + t)[0] == s[0];
    if s[0] == 'n' || s[0] == 't' || s[0] == 'f' { LongestDead(s[1..]); }
  }

  lemma {:induction false} ConstantHead(s: string, t: string)
    requires ParseConstant(s).Ok?
    ensures Longest(Start, s + t) == None
    ensures "-Infinity" <= s ==> !("NaN" <= s + t) && !("Infinity" <= s + t)
    ensures "Infinity" <= s ==> !("NaN" <= s + t)
  {
    var u := s + t;
    assert u[0] == s[0] && (|s| > 1 ==> u[1] == s[1]);
    LongestDead(u[1..]);
    if s[0] == '-' {
      assert u[1..][0] == 'I';
      LongestDead(u[1..][1..]);
    }
  }

  lemma {:induction false} ParseStable(fl: FloatReader, s: string, v: Json, rest: string, t: string)
    requires ParseValue(fl, s) == Ok(v, rest) && Settled(v, rest)
    ensures ParseValue(fl, s + t) == Ok(v, rest + t)
    decreases |s|, 1
  {
    assert (s + t)[0] == s[0] && (s + t)[1..] == s[1..] + t;
    if s[0] == '"' {
      UnitsStable(s[1..], t);
    } else if s[0] == '{' {
      ObjectStable(fl, s, v, rest, t);
    } else if s[0] == '[' {
      ArrayStable(fl, s, v, rest, t);
    } else {
      NumberStable(fl, s, t);
    }
  }

  lemma {:induction false} ObjectStable(fl: FloatReader, s: string, v: Json, rest: string, t: string)
    requires s != "" && s[0] == '{' && ParseValue(fl, s) == Ok(v, rest)
    ensures ParseValue(fl, s + t) == Ok(v, rest + t)
    decreases |s|, 0
  {
    assert (s + t)[0] == s[0] && (s + t)[1..] == s[1..] + t;
    var r := SkipWs(s[1..]);
    SkipWsStable(s[1..], t);
    assert (r + t)[0] == r[0] && (r + t)[1..] == r[1..] + t;
    if r[0] != '}' {
      var fields := ParseMembers(fl, r, map[]).value;
      MembersStable(fl, r, map[], fields, rest, t);
      ObjectFrom(fl, s + t, r + t, fields, rest + t);
    }
  }

  lemma {:induction false} ArrayStable(fl: FloatReader, s: string, v: Json, rest: string, t: string)
    requires s != "" && s[0] == '[' && ParseValue(fl, s) == Ok(v, rest)
    ensures ParseValue(fl, s + t) == Ok(v, rest + t)
    decreases |s|, 0
  {
    assert (s + t)[0] == s[0] && (s + t)[1..] == s[1..] + t;
    var r := SkipWs(s[1..]);
    SkipWsStable(s[1..], t);
    assert (r + t)[0] == r[0] && (r + t)[1..] == r[1..] + t;
    if r[0] != ']' {
      var items := ParseItems(fl, r).value;
      ItemsStable(fl, r, items, rest, t);
      ArrayFrom(fl, s + t, r + t, items, rest + t);
    }
  }

  /** Inside a container every value is followed by a delimiter. */
  lemma {:induction false} InnerSettled(v: Json, rest: string)
    requires SkipWs(rest) != "" && SkipWs(rest)[0] in ",]}"
    ensures Settled(v, rest)
  {
  }

  /** What a finished array parse read first, and what it did next. */
  lemma {:induction false} ItemsCases(fl: FloatReader, s: string, vs: seq<Json>, rest: string)
      returns (v: Json, r: string, x: string)
    requires ParseItems(fl, s) == Ok(vs, rest)
    ensures ParseValue(fl, s) == Ok(v, r) && SkipWs(r) == x && x != "" && |x| < |s|
    ensures (x[0] == ']' && vs == [v] && rest == x[1..]) ||
            (x[0] == ',' && vs != [] && vs[0] == v && ParseItems(fl, SkipWs(x[1..])) == Ok(vs[1..], rest))
  {
    v, r := ParseValue(fl, s).value, ParseValue(fl, s).rest;
    x := SkipWs(r);
  }

  lemma {:induction false} ItemsStable(fl: FloatReader, s: string, vs: seq<Json>, rest: string, t: string)
    requires ParseItems(fl, s) == Ok(vs, rest)
    ensures ParseItems(fl, s + t) == Ok(vs, rest + t)
    decreases |s|, 2
  {
    hide *;
    var v, r, x := ItemsCases(fl, s, vs, rest);
    InnerSettled(v, r);
    ParseStable(fl, s, v, r, t);
    SkipWsStable(r, t);
    assert (x + t)[0] == x[0] && (x + t)[1..] == x[1..] + t;
    if x[0] == ',' {
      NonEmptyItems(fl, SkipWs(x[1..]));
      SkipWsStable(x[1..], t);
      ItemsStable(fl, SkipWs(x[1..]), vs[1..], rest, t);
      assert vs == [v] + vs[1..];
    }
    ItemsFrom(fl, s + t, v, r + t, x + t);
  }

  lemma {:induction false} NonEmptyItems(fl: FloatReader, s: string)
    ensures ParseItems(fl, s).Ok? ==> s != ""
  {
  }

  lemma {:induction false} NonEmptyMembers(fl: FloatReader, s: string, acc: map<PyStr, Json>)
    ensures ParseMembers(fl, s, acc).Ok? ==> s != ""
  {
  }

  /** What a finished object parse read first, and what it did next. */
  lemma {:induction false} MembersCases(fl: FloatReader, s: string, acc: map<PyStr, Json>,
                                        fields: map<PyStr, Json>, rest: string)
      returns (k: PyStr, n: string, v: Json, r: string, x: string)
    requires ParseMembers(fl, s, acc) == Ok(fields, rest)
    ensures ParseName(s) == Ok(k, n) && ParseValue(fl, n) == Ok(v, r) && n != "" && SkipWs(r) == x && x != ""
    ensures |n| < |s| && |x| < |n|
    ensures (x[0] == '}' && fields == acc[k := v] && rest == x[1..]) ||
            (x[0] == ',' && ParseMembers(fl, SkipWs(x[1..]), acc[k := v]) == Ok(fields, rest))
  {
    k, n := ParseName(s).value, ParseName(s).rest;
    v, r := ParseValue(fl, n).value, ParseValue(fl, n).rest;
    x := SkipWs(r);
  }

  lemma {:induction false} NameStable(s: string, t: string)
    requires ParseName(s).Ok? && ParseName(s).rest != ""
    ensures ParseName(s + t) == Ok(ParseName(s).value, ParseName(s).rest + t)
  {
    hide Units, JoinPairs;
    assert (s + t)[0] == s[0] && (s + t)[1..] == s[1..] + t;
    UnitsStable(s[1..], t);
    var rest := ParseString(s[1..]).rest;
    hide ParseString;
    SkipWsStable(rest, t);
    var r := SkipWs(rest);
    assert (r + t)[1..] == r[1..] + t;
    SkipWsStable(r[1..], t);
  }

  lemma {:induction false} MembersStable(fl: FloatReader, s: string, acc: map<PyStr, Json>,
                                         fields: map<PyStr, Json>, rest: string, t: string)
    requires ParseMembers(fl, s, acc) == Ok(fields, rest)
    ensures ParseMembers(fl, s + t, acc) == Ok(fields, rest + t)
    decreases |s|, 2
  {
    hide *;
    var k, n, v, r, x := MembersCases(fl, s, acc, fields, rest);
    NameStable(s, t);
    InnerSettled(v, r);
    ParseStable(fl, n, v, r, t);
    SkipWsStable(r, t);
    assert (x + t)[0] == x[0] && (x + t)[1..] == x[1..] + t;
    if x[0] == ',' {
      NonEmptyMembers(fl, SkipWs(x[1..]), acc[k := v]);
      SkipWsStable(x[1..], t);
      MembersStable(fl, SkipWs(x[1..]), acc[k := v], fields, rest, t);
    }
    MembersFrom(fl, s + t, acc, k, n + t, v, r + t, x + t);
  }

  /** The canonical text of an object, cut anywhere, does not load. */
  lemma {:induction false} CutObjectFails(fl: FloatReader, v: Json, k: nat)
    requires v.Obj? && Encodable(v) && Lawful(fl, v)
    requires k < |Print(v)|
    ensures Loads(fl, Print(v)[..k]) == None
  {
    var s := Print(v);
    var p, t := s[..k], s[k..];
    PrintHead(v);
    assert s == p + t;
    if p != "" {
      assert p[0] == s[0] == '{';
      ParsePrinted(fl, v, "");
      assert s + "" == s;
      if ParseValue(fl, p).Ok? { ObjectStable(fl, p, ParseValue(fl, p).value, ParseValue(fl, p).rest, t); }
    }
  }
}
