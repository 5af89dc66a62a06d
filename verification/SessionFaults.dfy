/** Sessions the parser accepts and the dumper cannot write, or not in full. */
module SessionFaults {
  import opened Options
  import opened PyText
  import opened JsonValues
  import opened JsonPrinter
  import opened JsonGrammar
  import opened JsonParser
  import opened JsonRoundTrip
  import opened PyLines
  import opened SessionModel
  import opened SessionRoundTrip
  import opened Timestamps
  import SealCrash

  const PLAIN_HEADER := Header(Name("s"), NEW_YEAR, None, map[], None, None, map[])

  lemma {:induction false} PlainHeader(rd: Reader)
    ensures ValidHeader(rd, PLAIN_HEADER) && LawfulHeader(rd.fl, PLAIN_HEADER)
    ensures PLAIN_HEADER.title == None && PLAIN_HEADER.extra == map[]
  {
    NewYearIsValid();
    hide NEW_YEAR, ValidTs;
    assert Name("s")[0] == 's' as int;
    hide Name;
  }

  lemma {:induction false} PlainHeaderValue(f: HField)
    ensures HFieldValue(PLAIN_HEADER, f).Some? ==> Encodable(HFieldValue(PLAIN_HEADER, f).value)
  {
    assert Clean(NEW_YEAR);
    hide NEW_YEAR, Name, Clean;
  }

  lemma {:induction false} PlainHeaderEntry(k: PyStr)
    requires k in HeaderDict(PLAIN_HEADER)
    ensures Clean(k) && Encodable(HeaderDict(PLAIN_HEADER)[k])
  {
    PlainHeader(Reader(_ => None));
    hide HeaderDict, PLAIN_HEADER, HFieldValue, Experimental, ValidHeader, LawfulHeader, HFieldNamed, Encodable, Clean;
    HNamedIs(k);
    PlainHeaderValue(HFieldNamed(k).value);
  }

  lemma {:induction false} HNamedIs(k: PyStr)
    ensures HFieldNamed(k).Some? ==> HKeyName(HFieldNamed(k).value) == k && Clean(k)
  {
    hide HKeyText;
  }

  lemma {:induction false} PlainHeaderEncodable()
    ensures Encodable(Obj(HeaderDict(PLAIN_HEADER)))
  {
    var d := HeaderDict(PLAIN_HEADER);
    hide HeaderDict, PLAIN_HEADER, Clean;
    forall k | k in d ensures Clean(k) && Encodable(d[k]) { PlainHeaderEntry(k); }
  }

  // ----- A lone surrogate in a title -----

  /** The escape of a high surrogate, on its own. */
  const LONE := "\\ud800"

  lemma {:induction false} LoneUnits(rest: string)
    ensures ParseString(LONE + ("\"" + rest)) == Ok([0xD800], rest)
  {
    var s := LONE + ("\"" + rest);
    assert s[0] == '\\' && s[1] == 'u' && s[2] == 'd' && s[3] == '8' && s[4] == '0' && s[5] == '0';
    assert s[2..6] == "d800" && s[6..] == "\"" + rest;
    assert ("\"" + rest)[1..] == rest;
    LoneHex();
    assert CharLength(s) == 6;
    assert Unit(s) == 0xD800;
    hide HexValue, CharLength, Unit;
    assert Units("\"" + rest) == Ok([], rest);
    assert [0xD800] + [] == [0xD800];
  }

  lemma {:induction false} LoneHex()
    ensures AllHex("d800") && HexValue("d800") == 0xD800
  {
    assert "d800"[..3] == "d80" && "d80"[..2] == "d8" && "d8"[..1] == "d" && "d"[..0] == "";
    assert HexValue("d") == 13;
    assert HexValue("d8") == 13 * 16 + 8;
    assert HexValue("d80") == (13 * 16 + 8) * 16;
  }

  lemma {:induction false} LoneValue(fl: FloatReader, rest: string)
    ensures ParseValue(fl, "\"" + LONE + ("\"" + rest)) == Ok(Str([0xD800]), rest)
  {
    var s := "\"" + LONE + ("\"" + rest);
    assert s[1..] == LONE + ("\"" + rest);
    LoneUnits(rest);
    hide ParseString, LONE;
  }

  /** The printed fields of `o`, with such a title in front. */
  function Titled(o: map<PyStr, Json>): string
    requires Encodable(Obj(o))
  {
    "{" + ("\"" + "title" + ("\"" + (":" + ("\"" + LONE + ("\"" + ("," + FieldsText(Obj(o), SortedKeys(o.Keys))))))))
  }

  lemma {:induction false} TitleName(value: string)
    requires SkipWs(value) == value
    ensures ParseName("\"" + "title" + ("\"" + (":" + value))) == Ok(HKeyName(Title), value)
  {
    var u := ":" + value;
    PlainName("title", u);
    hide ParseName, Name;
    assert u[1..] == value && SkipWs(u) == u;
  }

  lemma {:induction false} TitleMember(fl: FloatReader, more: string)
    requires SkipWs(more) == more
    ensures var s := "\"" + "title" + ("\"" + (":" + ("\"" + LONE + ("\"" + ("," + more)))));
            && ParseMembers(fl, s, map[]) == ParseMembers(fl, more, map[HKeyName(Title) := Str([0xD800])])
            && SkipWs(s) == s && s[0] == '"'
  {
    hide ParseValue, ParseMembers, ParseName, HKeyName, LONE;
    var value := "\"" + LONE + ("\"" + ("," + more));
    var s := "\"" + "title" + ("\"" + (":" + value));
    assert SkipWs(value) == value;
    TitleName(value);
    LoneValue(fl, "," + more);
    assert SkipWs("," + more) == "," + more && ("," + more)[1..] == more;
    MembersFrom(fl, s, map[], HKeyName(Title), value, Str([0xD800]), "," + more, "," + more);
  }

  lemma {:induction false} FieldsHead(o: map<PyStr, Json>)
    requires o != map[] && Encodable(Obj(o))
    ensures var t := FieldsText(Obj(o), SortedKeys(o.Keys)); SkipWs(t) == t && t != "" && t[|t| - 1] == '}'
    ensures SortedKeys(o.Keys) != [] && forall k :: k in SortedKeys(o.Keys) ==> k in o
  {
    var keys := SortedKeys(o.Keys);
    assert o.Keys != {};
    FieldsTextEnds(Obj(o), keys);
    hide Print, Escape, SortedKeys;
  }

  lemma {:induction false} FieldsBehind(fl: FloatReader, o: map<PyStr, Json>)
    requires o != map[] && Encodable(Obj(o)) && Lawful(fl, Obj(o)) && HKeyName(Title) !in o
    ensures var acc := map[HKeyName(Title) := Str([0xD800])];
            ParseMembers(fl, FieldsText(Obj(o), SortedKeys(o.Keys)), acc) == Ok(o[HKeyName(Title) := Str([0xD800])], "")
  {
    var keys := SortedKeys(o.Keys);
    var more := FieldsText(Obj(o), keys);
    var acc := map[HKeyName(Title) := Str([0xD800])];
    FieldsHead(o);
    hide Encodable, Lawful, Print, FieldsText, SortedKeys, ParseMembers, AddFields, HKeyName;
    ParsePrintedMembers(fl, Obj(o), keys, acc, "");
    assert more + "" == more;
    AddFieldsIs(acc, o, keys);
    AllAdded(acc, o, keys, AddFields(acc, o, keys));
  }

  lemma {:induction false} TitledLoads(fl: FloatReader, o: map<PyStr, Json>)
    requires o != map[] && Encodable(Obj(o)) && Lawful(fl, Obj(o)) && HKeyName(Title) !in o
    ensures Loads(fl, Titled(o)) == Some(Obj(o[HKeyName(Title) := Str([0xD800])]))
  {
    FieldsHead(o);
    hide Encodable, Lawful, FieldsText, SortedKeys, ParseMembers, ParseValue, HKeyName, LONE;
    FieldsBehind(fl, o);
    var more := FieldsText(Obj(o), SortedKeys(o.Keys));
    TitleMember(fl, more);
    var s := "\"" + "title" + ("\"" + (":" + ("\"" + LONE + ("\"" + ("," + more)))));
    BracedLoads(fl, s, o[HKeyName(Title) := Str([0xD800])]);
  }

  lemma {:induction false} BracedLoads(fl: FloatReader, s: string, fields: map<PyStr, Json>)
    requires SkipWs(s) == s && s != "" && s[0] != '}' && ParseMembers(fl, s, map[]) == Ok(fields, "")
    ensures Loads(fl, "{" + s) == Some(Obj(fields))
  {
    hide ParseMembers, ParseValue;
    assert ("{" + s)[1..] == s && SkipWs("{" + s) == "{" + s;
    ObjectFrom(fl, "{" + s, s, fields, "");
  }

  lemma {:induction false} AllAdded(acc: map<PyStr, Json>, o: map<PyStr, Json>, keys: seq<PyStr>,
                                    fields: map<PyStr, Json>)
    requires acc == map[HKeyName(Title) := Str([0xD800])] && HKeyName(Title) !in o
    requires (forall k :: k in keys ==> k in o) && (forall k :: k in o ==> k in keys)
    requires fields.Keys == acc.Keys + (set k | k in keys)
    requires forall k :: k in keys ==> fields[k] == o[k]
    requires forall k :: k in acc && k !in keys ==> fields[k] == acc[k]
    ensures fields == o[HKeyName(Title) := Str([0xD800])]
  {
    hide HKeyName;
  }

  /** The line of a header with that title. */
  function SurrogateLine(): (line: string)
    ensures Encodable(Obj(HeaderDict(PLAIN_HEADER))) && line == Titled(HeaderDict(PLAIN_HEADER))
  {
    PlainHeaderEncodable();
    Titled(HeaderDict(PLAIN_HEADER))
  }

  function SurrogateHeader(): Header {
    PLAIN_HEADER.(title := Some([0xD800]))
  }

  lemma {:induction false} TitleValue(h: Header, x: PyStr, k: PyStr)
    ensures HDictValue(h.(title := Some(x)), k) == if k == HKeyName(Title) then Some(Str(x)) else HDictValue(h, k)
  {
    HFieldNamedIs(Title);
    HNamedIs(k);
    hide HKeyName, HFieldNamed, Experimental;
  }

  lemma {:induction false} HEntry(h: Header, k: PyStr)
    ensures k in HeaderDict(h) <==> HDictValue(h, k).Some?
    ensures k in HeaderDict(h) ==> HeaderDict(h)[k] == HDictValue(h, k).value
  {
    hide HDictValue;
  }

  lemma {:induction false} HNamedValue(h: Header, f: HField)
    ensures HDictValue(h, HKeyName(f)) == HFieldValue(h, f)
  {
    HFieldNamedIs(f);
    hide HFieldNamed, HKeyName, HFieldValue;
  }

  lemma {:induction false} TitleKey(h: Header, x: PyStr, k: PyStr)
    ensures var d, d' := HeaderDict(h), HeaderDict(h.(title := Some(x)));
            && (k in d' <==> k in d || k == HKeyName(Title))
            && (k in d' ==> d'[k] == if k == HKeyName(Title) then Str(x) else d[k])
  {
    hide *;
    HEntry(h, k);
    HEntry(h.(title := Some(x)), k);
    TitleValue(h, x, k);
  }

  lemma {:induction false} NoTitle(h: Header)
    ensures h.title == None ==> HKeyName(Title) !in HeaderDict(h)
    ensures HKeyName(SessionId) in HeaderDict(h)
  {
    assert HFieldValue(h, Title) == OptStr(h.title) && HFieldValue(h, SessionId).Some?;
    assert h.title == None ==> OptStr(h.title) == None;
    hide *;
    HEntry(h, HKeyName(Title));
    HNamedValue(h, Title);
    HEntry(h, HKeyName(SessionId));
    HNamedValue(h, SessionId);
  }

  lemma {:induction false} OneMoreEntry(d: map<PyStr, Json>, d': map<PyStr, Json>, t: PyStr, v: Json)
    requires forall k :: k in d' <==> k in d || k == t
    requires forall k :: k in d' ==> d'[k] == if k == t then v else d[k]
    ensures d' == d[t := v]
  {
  }

  /** A title more in the header is a title more in its dictionary. */
  lemma {:induction false} TitleDict(h: Header, x: PyStr)
    ensures HeaderDict(h.(title := Some(x))) == HeaderDict(h)[HKeyName(Title) := Str(x)]
  {
    hide *;
    var d, d', t := HeaderDict(h), HeaderDict(h.(title := Some(x))), HKeyName(Title);
    assert forall k :: (k in d' <==> k in d || k == t) && (k in d' ==> d'[k] == if k == t then Str(x) else d[k]) by {
      forall k ensures (k in d' <==> k in d || k == t) && (k in d' ==> d'[k] == if k == t then Str(x) else d[k]) {
        TitleKey(h, x, k);
      }
    }
    OneMoreEntry(d, d', t, Str(x));
  }

  lemma {:induction false} SurrogateHeaderParses(rd: Reader)
    ensures ParseHeader(rd, Obj(HeaderDict(SurrogateHeader()))) == Some(SurrogateHeader())
  {
    PlainHeader(rd);
    assert ValidHeader(rd, SurrogateHeader()) by { hide PLAIN_HEADER; }
    hide *;
    HeaderRoundTrip(rd, SurrogateHeader());
  }

  /** The line parser accepts the file of this one line, and `dump_session` cannot write the session it holds. */
  lemma {:induction false} SurrogateSession(rd: Reader)
    ensures ParseLines(rd, [SurrogateLine()]) == Some(Session(SurrogateHeader(), [], map[]))
    ensures Dump(Session(SurrogateHeader(), [], map[])) == None
  {
    hide HeaderDict, ParseHeader, PLAIN_HEADER, Titled, Loads, Strip, HKeyName, ParseEvent, Lawful;
    PlainHeader(rd);
    TitleDict(PLAIN_HEADER, [0xD800]);
    NoTitle(PLAIN_HEADER);
    SurrogateHeaderParses(rd);
    var o := HeaderDict(PLAIN_HEADER);
    PlainHeaderEncodable();
    HDictLawful(rd, PLAIN_HEADER);
    TitledLoads(rd.fl, o);
    TitledStrip(o);
    var e := HeaderDict(SurrogateHeader());
    assert e[HKeyName(Title)] == Str([0xD800]);
    NotEncodable(e, HKeyName(Title));
    assert [SurrogateLine()][1..] == [];
  }

  lemma {:induction false} TitledStrip(o: map<PyStr, Json>)
    requires Encodable(Obj(o)) && o != map[]
    ensures Strip(Titled(o)) == Titled(o) && Titled(o) != ""
  {
    FieldsHead(o);
    var t := Titled(o);
    var more := FieldsText(Obj(o), SortedKeys(o.Keys));
    hide Encodable, FieldsText, SortedKeys, Strip, LONE;
    assert t[0] == '{' && t[|t| - 1] == more[|more| - 1];
    NothingToStrip(t);
  }

  lemma {:induction false} NotEncodable(o: map<PyStr, Json>, k: PyStr)
    requires k in o && o[k] == Str([0xD800])
    ensures !Encodable(Obj(o))
  {
    assert !Encodable(o[k]) by { assert Surrogate([0xD800][0]); }
  }

  // ----- An extra beside the header -----

  const EXTRA := Name("experimental_x")

  function FramedDocument(): map<PyStr, Json> {
    map[HEADER := Obj(HeaderDict(PLAIN_HEADER)), EVENTS := Arr([]), EXTRA := Null]
  }

  lemma {:induction false} FramedKeys()
    ensures HEADER != EVENTS && HEADER != EXTRA && EVENTS != EXTRA && Experimental(EXTRA)
  {
    assert |HEADER| == 6 && |EVENTS| == 6 && |EXTRA| == 14 && HEADER[0] == 'h' as int && EVENTS[0] == 'e' as int;
  }

  /** The loader accepts the text of a framed document with an extra, and keeps the extra. */
  lemma {:induction false} FramedSession(rd: Reader)
    ensures Encodable(Obj(FramedDocument()))
    ensures LoadText(rd, Print(Obj(FramedDocument()))) == Some(Session(PLAIN_HEADER, [], map[EXTRA := Null]))
  {
    hide *;
    FramedParses(rd);
    FramedEncodable(rd.fl);
    PrintedObject(rd.fl, Obj(FramedDocument()));
    LoadsPrinted(rd.fl, Obj(FramedDocument()));
    LoadsFramed(rd, Print(Obj(FramedDocument())), FramedDocument());
  }

  lemma {:induction false} LoadsFramed(rd: Reader, text: string, o: map<PyStr, Json>)
    requires ObjectText(text) && Loads(rd.fl, text) == Some(Obj(o)) && EVENTS in o
    ensures LoadText(rd, text) == ParseSession(rd, o)
  {
    hide Loads, ParseSession, ParseLines, Strip, Name, SealCrash.NoControl;
    NothingToStrip(text);
  }

  lemma {:induction false} FramedEncodable(fl: FloatReader)
    ensures Encodable(Obj(FramedDocument())) && Lawful(fl, Obj(FramedDocument()))
  {
    hide *;
    PlainHeader(Reader(fl));
    PlainHeaderEncodable();
    HDictLawful(Reader(fl), PLAIN_HEADER);
    FramedFields(fl);
  }

  lemma {:induction false} FramedFields(fl: FloatReader)
    requires Encodable(Obj(HeaderDict(PLAIN_HEADER))) && Lawful(fl, Obj(HeaderDict(PLAIN_HEADER)))
    ensures Encodable(Obj(FramedDocument())) && Lawful(fl, Obj(FramedDocument()))
  {
    assert Encodable(Arr([])) && Lawful(fl, Arr([]));
    assert Clean(HEADER) && Clean(EVENTS) && Clean(EXTRA);
    hide Encodable, Lawful, HeaderDict, PLAIN_HEADER, HEADER, EVENTS, EXTRA, Name, Clean;
    ThreeFields(fl, HEADER, Obj(HeaderDict(PLAIN_HEADER)), EVENTS, Arr([]), EXTRA, Null);
  }

  lemma {:induction false} ThreeFields(fl: FloatReader, a: PyStr, x: Json, b: PyStr, y: Json, c: PyStr, z: Json)
    requires Clean(a) && Clean(b) && Clean(c) && Encodable(x) && Encodable(y) && Encodable(z)
    requires Lawful(fl, x) && Lawful(fl, y) && Lawful(fl, z)
    ensures var o := Obj(map[a := x, b := y, c := z]); Encodable(o) && Lawful(fl, o)
  {
    hide Clean;
    var o := map[a := x, b := y, c := z];
    assert forall k :: k in o ==> k == a || k == b || k == c;
    assert forall k :: k in o ==> o[k] == x || o[k] == y || o[k] == z;
  }

  /** A framed document without events. */
  lemma {:induction false} FramedIs(rd: Reader, o: map<PyStr, Json>, h: Header)
    requires EVENTS in o && o[EVENTS] == Arr([]) && HEADER in o && ParseHeader(rd, o[HEADER]) == Some(h)
    requires forall k :: k in o ==> k == HEADER || k == EVENTS || Experimental(k)
    ensures ParseSession(rd, o) == Some(Session(h, [], o - {HEADER, EVENTS}))
  {
    hide ParseHeader, Name, Experimental;
  }

  lemma {:induction false} ThreeEntries(a: PyStr, x: Json, b: PyStr, y: Json, c: PyStr, z: Json)
    requires a != b && a != c && b != c
    ensures var o := map[a := x, b := y, c := z];
            && a in o && o[a] == x && b in o && o[b] == y && (forall k :: k in o ==> k == a || k == b || k == c)
            && o - {a, b} == map[c := z]
  {
    var o := map[a := x, b := y, c := z];
    assert forall k :: k in o - {a, b} <==> k == c;
  }

  lemma {:induction false} FramedParses(rd: Reader)
    ensures ParseSession(rd, FramedDocument()) == Some(Session(PLAIN_HEADER, [], map[EXTRA := Null]))
    ensures EVENTS in FramedDocument()
  {
    var o := FramedDocument();
    assert o == map[HEADER := Obj(HeaderDict(PLAIN_HEADER)), EVENTS := Arr([]), EXTRA := Null];
    hide *;
    FramedKeys();
    PlainHeader(rd);
    HeaderRoundTrip(rd, PLAIN_HEADER);
    ThreeEntries(HEADER, Obj(HeaderDict(PLAIN_HEADER)), EVENTS, Arr([]), EXTRA, Null);
    FramedIs(rd, o, PLAIN_HEADER);
  }
}
