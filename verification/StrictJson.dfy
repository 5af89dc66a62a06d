/** `decode_json_dupaware`: the decoder of the reader, stricter than the plain one. */
module StrictJson {
  import opened Options
  import opened PyText
  import opened JsonValues
  import opened JsonPrinter
  import opened JsonParser
  import opened JsonRoundTrip

  // ----- Non-finite numbers anywhere in the text, also under a name that is repeated later -----

  /** Parsing a value from `s` meets `NaN`, an infinity, or a float that overflows. */
  predicate MeetsValue(fl: FloatReader, s: string)
    decreases |s|, 1
  {
    if s == "" || s[0] == '"' then false
    else if s[0] == '{' then
      var r := SkipWs(s[1..]);
      !(r != "" && r[0] == '}') && MeetsMembers(fl, r)
    else if s[0] == '[' then
      var r := SkipWs(s[1..]);
      !(r != "" && r[0] == ']') && MeetsItems(fl, r)
    else ParseValue(fl, s).Ok? && ParseValue(fl, s).value.NonFinite?
  }

  predicate MeetsItems(fl: FloatReader, s: string)
    decreases |s|, 2
  {
    MeetsValue(fl, s) ||
    match ParseValue(fl, s)
    case Fail => false
    case Ok(_, rest) =>
      var r := SkipWs(rest);
      r != "" && r[0] == ',' && MeetsItems(fl, SkipWs(r[1..]))
  }

  predicate MeetsMembers(fl: FloatReader, s: string)
    decreases |s|, 2
  {
    match ParseName(s)
    case Fail => false
    case Ok(_, rest) =>
      MeetsValue(fl, rest) ||
      match ParseValue(fl, rest)
      case Fail => false
      case Ok(_, rest') =>
        var r := SkipWs(rest');
        r != "" && r[0] == ',' && MeetsMembers(fl, SkipWs(r[1..]))
  }

  /** No string and no name holds a lone surrogate. */
  predicate CleanTree(v: Json) {
    match v
    case Str(s) => Clean(s)
    case Arr(items) => forall i :: 0 <= i < |items| ==> CleanTree(items[i])
    case Obj(fields) => forall k :: k in fields ==> Clean(k) && CleanTree(fields[k])
    case _ => true
  }

  /** `"\\u" in text or "\\U" in text` */
  predicate HasEscape(text: string) {
    exists i :: 0 <= i < |text| - 1 && text[i] == '\\' && (text[i + 1] == 'u' || text[i + 1] == 'U')
  }

  /** `decode_json_dupaware(text)`, nothing when it raises `ValueError`. */
  function StrictLoads(fl: FloatReader, text: string): Option<Json> {
    if MeetsValue(fl, SkipWs(text)) then None
    else match Loads(fl, text)
      case Some(v) => if HasEscape(text) && !CleanTree(v) then None else Some(v)
      case None => None
  }

  /** It never gives a value the plain decoder would not give. */
  lemma {:induction false} StrictIsLoads(fl: FloatReader, text: string)
    ensures StrictLoads(fl, text).Some? ==> Loads(fl, text) == StrictLoads(fl, text)
  {
    hide Loads, MeetsValue, CleanTree, HasEscape;
  }

  lemma {:induction false} EncodableIsClean(v: Json)
    requires Encodable(v)
    ensures CleanTree(v)
  {
    match v
    case Arr(items) => forall i | 0 <= i < |items| ensures CleanTree(items[i]) { EncodableIsClean(items[i]); }
    case Obj(fields) => forall k | k in fields ensures CleanTree(fields[k]) { EncodableIsClean(fields[k]); }
    case _ =>
  }

  // ----- Canonical texts are accepted -----

  lemma {:induction false} PrintedMeetsNothing(fl: FloatReader, v: Json, rest: string)
    requires Encodable(v) && Lawful(fl, v) && Delimited(rest)
    ensures !MeetsValue(fl, Print(v) + rest)
    decreases v, 1, 0
  {
    PrintHead(v);
    assert (Print(v) + rest)[0] == Print(v)[0];
    if v.Arr? {
      ArrayMeetsNothing(fl, v, rest);
    } else if v.Obj? {
      ObjectMeetsNothing(fl, v, rest);
    } else {
      ParsePrinted(fl, v, rest);
      ScalarMeets(fl, Print(v) + rest, v, rest);
    }
  }

  lemma {:induction false} ScalarMeets(fl: FloatReader, s: string, v: Json, rest: string)
    requires ParseValue(fl, s) == Ok(v, rest) && !v.Arr? && !v.Obj? && !v.NonFinite?
    ensures !MeetsValue(fl, s)
  {
  }

  lemma {:induction false} ArrayMeetsNothing(fl: FloatReader, v: Json, rest: string)
    requires v.Arr? && Encodable(v) && Lawful(fl, v)
    ensures !MeetsValue(fl, Print(v) + rest)
    decreases v, 0, 0
  {
    var s := Print(v) + rest;
    var inner := ItemsText(v.items) + rest;
    assert s[0] == '[' && s[1..] == inner;
    if v.items == [] {
      assert inner[0] == ']';
    } else {
      PrintHead(v.items[0]);
      assert inner[0] == Print(v.items[0])[0];
      assert SkipWs(inner) == inner;
      ItemsMeetNothing(fl, v.items, rest);
    }
    hide MeetsItems, ItemsText, Print;
  }

  lemma {:induction false} ItemsMeetNothing(fl: FloatReader, items: seq<Json>, rest: string)
    requires items != [] && forall i :: 0 <= i < |items| ==> Encodable(items[i]) && Lawful(fl, items[i])
    ensures !MeetsItems(fl, ItemsText(items) + rest)
    decreases items, 0, 0
  {
    var y := ItemTextIs(items, rest);
    hide ParseValue, MeetsValue, ItemsText, Print;
    ParsePrinted(fl, items[0], y);
    PrintedMeetsNothing(fl, items[0], y);
    if |items| > 1 { ItemsMeetNothing(fl, items[1..], rest); }
  }

  lemma {:induction false} ObjectMeetsNothing(fl: FloatReader, v: Json, rest: string)
    requires v.Obj? && Encodable(v) && Lawful(fl, v)
    ensures !MeetsValue(fl, Print(v) + rest)
    decreases v, 0, |SortedKeys(v.fields.Keys)| + 1
  {
    var keys, inner := ObjectTextIs(v, rest);
    if keys != [] { MembersMeetNothing(fl, v, keys, rest); }
    hide MeetsMembers, FieldsText, Print, Encodable, Lawful;
  }

  lemma {:induction false} MembersMeetNothing(fl: FloatReader, v: Json, keys: seq<PyStr>, rest: string)
    requires v.Obj? && Encodable(v) && Lawful(fl, v)
    requires keys != [] && forall k :: k in keys ==> k in v.fields
    ensures !MeetsMembers(fl, FieldsText(v, keys) + rest)
    decreases v, 0, |keys|
  {
    var k := keys[0];
    var x := v.fields[k];
    var y := MemberTextIs(v, keys, rest);
    hide ParseValue, MeetsValue, ParseName, FieldsText, StringText, Print;
    ParsePrintedName(k, x, y);
    ParsePrinted(fl, x, y);
    PrintedMeetsNothing(fl, x, y);
    if |keys| > 1 { MembersMeetNothing(fl, v, keys[1..], rest); }
  }

  /** The strict decoder reads every canonical text back. */
  lemma {:induction false} StrictLoadsPrinted(fl: FloatReader, v: Json)
    requires Encodable(v) && Lawful(fl, v)
    ensures StrictLoads(fl, Print(v)) == Some(v)
  {
    LoadsPrinted(fl, v);
    PrintedMeetsNothing(fl, v, "");
    assert Print(v) + "" == Print(v);
    PrintHead(v);
    EncodableIsClean(v);
    hide Loads, MeetsValue, Print, CleanTree, HasEscape, Encodable, Lawful;
  }
}
