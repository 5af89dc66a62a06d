/** Canonical texts are texts of the RFC 8259 grammar. */
module PrintedJson {
  import opened PyText
  import opened JsonGrammar
  import opened JsonValues
  import opened JsonPrinter
  import JsonRoundTrip
  import NumberTokens

  lemma {:induction false} EscapedChar(c: CodePoint, rest: string)
    requires !Surrogate(c)
    ensures CharLength(EscapeChar(c) + rest) == |EscapeChar(c)|
  {
    var e := EscapeChar(c);
    var s := e + rest;
    assert s[0] == e[0];
    if |e| == 2 { assert s[1] == e[1]; }
    if |e| == 6 { assert s[2..6] == e[2..6]; }
  }

  lemma {:induction false} EscapedTail(x: PyStr)
    requires Clean(x)
    ensures StringTail(Escape(x) + "\"")
    decreases |x|
  {
    if x != [] {
      var e, rest := EscapeChar(x[0]), Escape(x[1..]) + "\"";
      EscapedTail(x[1..]);
      EscapedChar(x[0], rest);
      var s := Escape(x) + "\"";
      assert s == e + rest;
      assert s[|e|..] == rest;
      hide EscapeChar, CharLength;
    }
  }

  lemma {:induction false} StringTextIs(x: PyStr)
    requires Clean(x)
    ensures IsString(StringText(x))
  {
    EscapedTail(x);
    assert StringText(x)[1..] == Escape(x) + "\"";
    hide StringTail, Escape;
  }

  lemma {:induction false} PrintedScalar(fl: FloatReader, v: Json)
    requires Encodable(v) && JsonValues.Lawful(fl, v) && !v.Arr? && !v.Obj?
    ensures IsScalar(Print(v))
  {
    match v
    case Int(n) =>
      JsonRoundTrip.IntTokenIs(n);
      NumberTokens.NumberPattern(IntText(n));
    case Float(x) => NumberTokens.NumberPattern(x);
    case Str(x) => StringTextIs(x);
    case _ =>
  }

  lemma {:induction false} ContainerText(closer: char, es: Elements)
    requires IsCloser(closer) && ElementsWellFormed(closer, es)
    ensures WellFormed(Container(closer, "", es)) &&
              Text(Container(closer, "", es)) == [Opener(closer)] + ElementsText(closer, es)
  {
    assert "" + ElementsText(closer, es) == ElementsText(closer, es);
  }

  /** The tree of a canonical text. */
  lemma {:induction false} PrintedTree(fl: FloatReader, v: Json) returns (t: Value)
    requires Encodable(v) && JsonValues.Lawful(fl, v)
    ensures WellFormed(t) && Text(t) == Print(v)
    ensures v.Obj? ==> t.Container? && t.closer == '}'
    decreases v, 1, 0
  {
    hide SortedKeys, FieldsText, ItemsText, ElementsText, ElementsWellFormed, IsScalar;
    if v.Arr? {
      var es := ItemsTree(fl, v.items);
      t := Container(']', "", es);
      ContainerText(']', es);
    } else if v.Obj? {
      var es := FieldsTree(fl, v, SortedKeys(v.fields.Keys));
      t := Container('}', "", es);
      ContainerText('}', es);
    } else {
      PrintedScalar(fl, v);
      t := Scalar(Print(v));
    }
  }

  lemma {:induction false} ItemsTree(fl: FloatReader, items: seq<Json>) returns (es: Elements)
    requires forall i :: 0 <= i < |items| ==> Encodable(items[i]) && JsonValues.Lawful(fl, items[i])
    ensures ElementsWellFormed(']', es) && ElementsText(']', es) == ItemsText(items) && (items != [] ==> es.Item?)
    decreases items, 0, 0
  {
    if items == [] {
      es := NoElements;
    } else {
      var t := PrintedTree(fl, items[0]);
      if |items| == 1 {
        es := Item("", t, "", Close);
        OneElement(']', "", t);
      } else {
        var next := ItemsTree(fl, items[1..]);
        es := Item("", t, "", Comma("", next));
        MoreElements(']', "", t, next);
      }
    }
  }

  lemma {:induction false} OneElement(closer: char, lead: string, t: Value)
    ensures ElementsText(closer, Item(lead, t, "", Close)) == lead + (Text(t) + [closer])
  {
  }

  lemma {:induction false} MoreElements(closer: char, lead: string, t: Value, next: Elements)
    ensures ElementsText(closer, Item(lead, t, "", Comma("", next))) ==
            lead + (Text(t) + ("," + ElementsText(closer, next)))
  {
    assert RestText(closer, Comma("", next)) == [','] + ElementsText(closer, next);
  }

  lemma {:induction false} LabelIs(k: PyStr)
    requires Clean(k)
    ensures IsLabel('}', StringText(k) + ":")
  {
    StringTextIs(k);
    var name, w := StringText(k), "";
    hide StringText, IsString;
    assert Blank(w) && name + ":" == name + w + ":" + w;
  }

  lemma {:induction false} FieldsTextIs(v: Json, keys: seq<PyStr>)
    requires v.Obj? && Encodable(v) && (forall k :: k in keys ==> k in v.fields) && keys != []
    ensures var x := Print(v.fields[keys[0]]);
            FieldsText(v, keys) ==
            (StringText(keys[0]) + ":") + (x + (if |keys| == 1 then "}" else "," + FieldsText(v, keys[1..])))
  {
    hide StringText, Print;
  }

  lemma {:induction false} ItemFormed(lead: string, t: Value, next: Elements)
    requires IsLabel('}', lead) && WellFormed(t) && next.Item? && ElementsWellFormed('}', next)
    ensures ElementsWellFormed('}', Item(lead, t, "", Comma("", next))) &&
              ElementsWellFormed('}', Item(lead, t, "", Close))
  {
    hide IsLabel, WellFormed;
  }

  lemma {:induction false} LastFormed(lead: string, t: Value)
    requires IsLabel('}', lead) && WellFormed(t)
    ensures ElementsWellFormed('}', Item(lead, t, "", Close))
  {
    hide IsLabel, WellFormed;
  }

  lemma {:induction false} FieldsTree(fl: FloatReader, v: Json, keys: seq<PyStr>) returns (es: Elements)
    requires v.Obj? && Encodable(v) && JsonValues.Lawful(fl, v) && (forall k :: k in keys ==> k in v.fields)
    ensures ElementsWellFormed('}', es) && ElementsText('}', es) == FieldsText(v, keys) && (keys != [] ==> es.Item?)
    decreases v, 0, |keys|
  {
    if keys == [] {
      es := NoElements;
    } else {
      var k := keys[0];
      var x := v.fields[k];
      assert Encodable(x) && Clean(k) && JsonValues.Lawful(fl, x);
      hide Print, StringText, FieldsText, ElementsText, ElementsWellFormed, IsLabel, Encodable, JsonValues.Lawful,
        WellFormed, Text;
      var t := PrintedTree(fl, x);
      var lead := StringText(k) + ":";
      LabelIs(k);
      FieldsTextIs(v, keys);
      if |keys| == 1 {
        es := Item(lead, t, "", Close);
        OneElement('}', lead, t);
        LastFormed(lead, t);
      } else {
        var next := FieldsTree(fl, v, keys[1..]);
        es := Item(lead, t, "", Comma("", next));
        MoreElements('}', lead, t, next);
        ItemFormed(lead, t, next);
      }
    }
  }

  /** The canonical text of an object is a JSON object, of any value a JSON value. */
  lemma {:induction false} CanonicalIsJson(fl: FloatReader, v: Json)
    requires Encodable(v) && JsonValues.Lawful(fl, v)
    ensures IsValue(Print(v)) && (v.Obj? ==> IsObject(Print(v)))
  {
    var t := PrintedTree(fl, v);
  }
}
