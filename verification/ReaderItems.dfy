/** What each line of a stream gives, said of its bytes. */
module ReaderItems {
  import opened Options
  import opened PyText
  import opened JsonValues
  import opened JsonPrinter
  import opened JsonParser
  import opened Utf8
  import opened Depth
  import opened SessionModel
  import opened SessionMeaning
  import opened SessionDocuments
  import opened Framing
  import opened Timestamps
  import opened StreamReader
  import opened StrictJson
  import opened StrictText
  import PyLines
  import SessionRoundTrip
  import TornAppend
  import TornRecord
  import PrefixFree
  import ParsedGrammar
  import JsonGrammar

  // ----- A record -----

  /** The bytes are this text in UTF-8, on the first line behind a byte-order mark or none. */
  ghost predicate TextIs(raw: Raw, text: string) {
    raw.bytes == (if raw.lineNumber == 1 && TornAppend.BOM <= raw.bytes then TornAppend.BOM else []) + Encode(text)
  }

  lemma {:induction false} TextMeans(raw: Raw, text: string)
    ensures TextIs(raw, text) <==> TornAppend.StripBom(raw.bytes, raw.lineNumber == 1) == Encode(text)
  {
    hide TornAppend.StripBom, Encode, TornAppend.BOM;
    TornAppend.BomOff(raw.bytes, raw.lineNumber == 1, Encode(text));
  }

  /** The line was read whole and holds, stripped, the text of this value: no NUL in it, UTF-8 throughout, no number
      outside strings that is not finite, and no lone surrogate. */
  ghost predicate RecordHolds(cfg: Config, raw: Raw, v: Json) {
    && !raw.truncated && TornAppend.NUL !in raw.bytes
    && exists text: string ::
         && TextIs(raw, text) && Loads(cfg.rd.fl, PyLines.Strip(text)) == Some(v)
         && !HoldsNonFinite(cfg.rd.fl, PyLines.Strip(text)) && CleanTree(v)
  }

  /** The first record, when it has one of the two names a header begins with. */
  predicate HeaderLike(raw: Raw, o: map<PyStr, Json>) {
    raw.ordinal == 1 && (Name("schema_version") in o || Name("session_id") in o)
  }

  /** What the reader decodes of a line. */
  function Decoded(cfg: Config, raw: Raw): Option<Json> {
    if raw.truncated || TornAppend.NUL in raw.bytes then None
    else match Decode(TornAppend.StripBom(raw.bytes, raw.lineNumber == 1))
      case Valid(text) => StrictLoads(cfg.rd.fl, PyLines.Strip(text))
      case _ => None
  }

  lemma {:induction false} DecodedIs(cfg: Config, raw: Raw, v: Json)
    ensures Decoded(cfg, raw) == Some(v) <==> RecordHolds(cfg, raw, v)
  {
    var bs := TornAppend.StripBom(raw.bytes, raw.lineNumber == 1);
    hide StrictLoads, Loads, PyLines.Strip, CleanTree, HoldsNonFinite, TornAppend.StripBom, Encode, Decode, TextIs;
    if Decode(bs).Valid? {
      var text := Decode(bs).text;
      EncodeDecoded(bs);
      TextMeans(raw, text);
      StrictMeans(cfg.rd.fl, PyLines.Strip(text), v);
    }
    if RecordHolds(cfg, raw, v) {
      var text: string :|
        TextIs(raw, text) && Loads(cfg.rd.fl, PyLines.Strip(text)) == Some(v)
        && !HoldsNonFinite(cfg.rd.fl, PyLines.Strip(text)) && CleanTree(v);
      TextMeans(raw, text);
      RoundTrip(text);
      StrictMeans(cfg.rd.fl, PyLines.Strip(text), v);
    }
  }

  lemma {:induction false} ItemIs(cfg: Config, raw: Raw, terminal: bool)
    ensures var item, v := ItemOf(cfg, raw, terminal), Decoded(cfg, raw);
            item == if v.Some? then RecordItem(cfg, raw, v.value)
                    else FindingItem(if raw.truncated then SL001 else DefectCode(raw, terminal), raw)
  {
    hide StrictLoads, PyLines.Strip, TornAppend.StripBom, Decode, RecordItem, DefectCode;
  }

  // ----- The items -----

  /** The record of an event. */
  ghost predicate EventRecord(cfg: Config, raw: Raw, o: map<PyStr, Json>, ev: Event) {
    && RecordHolds(cfg, raw, Obj(o)) && Within(Obj(o), cfg.maxDepth) && !HeaderLike(raw, o)
    && RecordSays(o, ev) && SoundEvent(ev)
  }

  ghost predicate HeaderRecord(cfg: Config, raw: Raw, o: map<PyStr, Json>, h: Header) {
    && RecordHolds(cfg, raw, Obj(o)) && Within(Obj(o), cfg.maxDepth) && HeaderLike(raw, o)
    && HeaderSays(o, h) && SoundHeader(h)
  }

  /** A record on which the first check of the event parser that does not pass is one that raises. */
  ghost predicate RaisingRecord(cfg: Config, raw: Raw, o: map<PyStr, Json>) {
    && RecordHolds(cfg, raw, Obj(o)) && Within(Obj(o), cfg.maxDepth) && !HeaderLike(raw, o)
    && exists n: nat :: n < |ORDER| && Passed(o, n) && Check(o, ORDER[n]) == Raises
  }

  lemma {:induction false} RecordText(cfg: Config, raw: Raw, o: map<PyStr, Json>)
    ensures var item, h, ev := RecordItem(cfg, raw, Obj(o)), ParseHeader(cfg.rd, Obj(o)), ParseEvent(cfg.rd, Obj(o));
            if !Within(Obj(o), cfg.maxDepth) then item == FindingItem(SL001, raw)
            else if HeaderLike(raw, o) then item == if h.Some? then HeaderItem(h.value) else FindingItem(SL001, raw)
            else if RaisesTypeError(cfg.rd, o) then item == Escaped && ev.None?
            else item == if ev.Some? then EventItem(ev.value) else FindingItem(SL001, raw)
  {
    assert HeaderLike(raw, o) <==> raw.ordinal == 1 && LooksLikeHeader(o) by { hide Name; }
    if RaisesTypeError(cfg.rd, o) { RaisedIsNone(cfg.rd, o); }
    hide ParseHeader, ParseEvent, Within, HeaderLike, LooksLikeHeader, RaisesTypeError;
  }

  lemma {:induction false} RaisedIsNone(rd: Reader, o: map<PyStr, Json>)
    requires RaisesTypeError(rd, o)
    ensures ParseEvent(rd, Obj(o)).None?
  {
    hide *;
    SessionRoundTrip.TypeErrorRejects(rd, o);
  }

  lemma {:induction false} EventGiven(cfg: Config, raw: Raw, o: map<PyStr, Json>, ev: Event)
    ensures RecordItem(cfg, raw, Obj(o)) == EventItem(ev) <==>
            Within(Obj(o), cfg.maxDepth) && !HeaderLike(raw, o) && RecordSays(o, ev) && SoundEvent(ev)
  {
    hide *;
    RecordText(cfg, raw, o);
    EventMeans(cfg.rd, o, ev);
  }

  lemma {:induction false} HeaderGiven(cfg: Config, raw: Raw, o: map<PyStr, Json>, h: Header)
    ensures RecordItem(cfg, raw, Obj(o)) == HeaderItem(h) <==>
            Within(Obj(o), cfg.maxDepth) && HeaderLike(raw, o) && HeaderSays(o, h) && SoundHeader(h)
  {
    hide *;
    RecordText(cfg, raw, o);
    HeaderMeans(cfg.rd, o, h);
  }

  lemma {:induction false} RaiseGiven(cfg: Config, raw: Raw, o: map<PyStr, Json>)
    ensures RecordItem(cfg, raw, Obj(o)) == Escaped <==>
            && Within(Obj(o), cfg.maxDepth) && !HeaderLike(raw, o)
            && exists n: nat :: n < |ORDER| && Passed(o, n) && Check(o, ORDER[n]) == Raises
  {
    hide *;
    RecordText(cfg, raw, o);
    TypeErrorIs(cfg.rd, o);
  }

  lemma {:induction false} FindingGiven(cfg: Config, raw: Raw, v: Json)
    ensures RecordItem(cfg, raw, v).FindingItem? ==> RecordItem(cfg, raw, v) == FindingItem(SL001, raw)
    ensures !v.Obj? ==> RecordItem(cfg, raw, v).FindingItem?
  {
    hide ParseHeader, ParseEvent, Within, LooksLikeHeader, RaisesTypeError;
  }

  /** Exactly such lines give an event. */
  lemma {:induction false} EventItemIff(cfg: Config, raw: Raw, terminal: bool, ev: Event)
    ensures ItemOf(cfg, raw, terminal) == EventItem(ev) <==> exists o :: EventRecord(cfg, raw, o, ev)
  {
    hide RecordHolds, Within, HeaderLike, RecordSays, SoundEvent, RecordItem, Decoded, ItemOf, DefectCode;
    ItemIs(cfg, raw, terminal);
    var d := Decoded(cfg, raw);
    forall v ensures d == Some(v) <==> RecordHolds(cfg, raw, v) { DecodedIs(cfg, raw, v); }
    forall o ensures RecordItem(cfg, raw, Obj(o)) == EventItem(ev) <==>
                     Within(Obj(o), cfg.maxDepth) && !HeaderLike(raw, o) && RecordSays(o, ev) && SoundEvent(ev) {
      EventGiven(cfg, raw, o, ev);
    }
    if d.Some? { FindingGiven(cfg, raw, d.value); }
    if ItemOf(cfg, raw, terminal) == EventItem(ev) { assert EventRecord(cfg, raw, d.value.fields, ev); }
  }

  /** Exactly such lines give the header. */
  lemma {:induction false} HeaderItemIff(cfg: Config, raw: Raw, terminal: bool, h: Header)
    ensures ItemOf(cfg, raw, terminal) == HeaderItem(h) <==> exists o :: HeaderRecord(cfg, raw, o, h)
  {
    hide RecordHolds, Within, HeaderLike, HeaderSays, SoundHeader, RecordItem, Decoded, ItemOf, DefectCode;
    ItemIs(cfg, raw, terminal);
    var d := Decoded(cfg, raw);
    forall v ensures d == Some(v) <==> RecordHolds(cfg, raw, v) { DecodedIs(cfg, raw, v); }
    forall o ensures RecordItem(cfg, raw, Obj(o)) == HeaderItem(h) <==>
                     Within(Obj(o), cfg.maxDepth) && HeaderLike(raw, o) && HeaderSays(o, h) && SoundHeader(h) {
      HeaderGiven(cfg, raw, o, h);
    }
    if d.Some? { FindingGiven(cfg, raw, d.value); }
    if ItemOf(cfg, raw, terminal) == HeaderItem(h) { assert HeaderRecord(cfg, raw, d.value.fields, h); }
  }

  /** Exactly such lines let a `TypeError` escape. */
  lemma {:induction false} EscapedItemIff(cfg: Config, raw: Raw, terminal: bool)
    ensures ItemOf(cfg, raw, terminal) == Escaped <==> exists o :: RaisingRecord(cfg, raw, o)
  {
    hide RecordHolds, Within, HeaderLike, RecordItem, Decoded, ItemOf, DefectCode, Passed, Check, ORDER;
    ItemIs(cfg, raw, terminal);
    var d := Decoded(cfg, raw);
    forall v ensures d == Some(v) <==> RecordHolds(cfg, raw, v) { DecodedIs(cfg, raw, v); }
    forall o ensures RecordItem(cfg, raw, Obj(o)) == Escaped <==>
                     && Within(Obj(o), cfg.maxDepth) && !HeaderLike(raw, o)
                     && exists n: nat :: n < |ORDER| && Passed(o, n) && Check(o, ORDER[n]) == Raises {
      RaiseGiven(cfg, raw, o);
    }
    if d.Some? { FindingGiven(cfg, raw, d.value); }
    if ItemOf(cfg, raw, terminal) == Escaped { assert RaisingRecord(cfg, raw, d.value.fields); }
  }

  // ----- A record is not torn -----

  lemma {:induction false} WsIsSpace(w: string)
    requires JsonGrammar.Blank(w)
    ensures PyLines.PyBlank(w)
  {
    assert forall i :: 0 <= i < |w| ==> JsonGrammar.IsWs(w[i]);
  }

  /** Behind whitespace of any kind a value of the grammar is never a cut object, whatever follows it. */
  lemma {:induction false} ValueNotCut(a: string, t: JsonGrammar.Value, b: string)
    requires PyLines.PyBlank(a) && JsonGrammar.WellFormed(t)
    ensures var text := a + JsonGrammar.Text(t) + b;
            !JsonGrammar.Blank(text) && !TornRecord.IsCutObject(text)
  {
    var x := JsonGrammar.Text(t);
    TornRecord.ValueHead(t);
    var text := a + x + b;
    assert text[|a|] == x[0];
    hide JsonGrammar.WellFormed, JsonGrammar.Text, JsonGrammar.IsPaddedObject;
    forall u: string | u != "" ensures !JsonGrammar.IsPaddedObject(text + u) { ValueNotBegun(a, t, b + u, text + u); }
  }

  lemma {:induction false} ValueNotBegun(a: string, t: JsonGrammar.Value, c: string, s: string)
    requires PyLines.PyBlank(a) && JsonGrammar.WellFormed(t) && c != "" && s == a + JsonGrammar.Text(t) + c
    ensures !JsonGrammar.IsPaddedObject(s)
  {
    var x := JsonGrammar.Text(t);
    TornRecord.ValueHead(t);
    if JsonGrammar.Blank(a) {
      if t.Container? && t.closer == '}' {
        assert JsonGrammar.IsObject(x);
        PrefixFree.ObjectIsFinal(a, x, "", c);
        assert s == a + x + "" + c;
      } else {
        PrefixFree.OtherValue(a, x, c);
      }
    } else {
      var i := FirstOdd(a);
      assert s == a[..i] + (a[i..] + x) + c;
      assert PyLines.PySpace(a[i]);
      PrefixFree.OtherValue(a[..i], a[i..] + x, c);
    }
    hide JsonGrammar.IsPaddedObject, JsonGrammar.WellFormed, JsonGrammar.Text;
  }

  /** The first character that JSON does not count as whitespace. */
  lemma {:induction false} FirstOdd(a: string) returns (i: nat)
    requires !JsonGrammar.Blank(a)
    ensures i < |a| && JsonGrammar.Blank(a[..i]) && !JsonGrammar.IsWs(a[i])
    decreases |a|
  {
    if JsonGrammar.IsWs(a[0]) {
      assert a == [a[0]] + a[1..];
      var j := FirstOdd(a[1..]);
      i := j + 1;
      assert a[..i] == [a[0]] + a[1..][..j];
    } else {
      i := 0;
    }
  }

  lemma {:induction false} RecordNotTorn(cfg: Config, raw: Raw, v: Json)
    requires RecordHolds(cfg, raw, v)
    ensures !TornAppend.IsTorn(raw.bytes, raw.lineNumber == 1)
  {
    hide Loads, PyLines.Strip, CleanTree, HoldsNonFinite, Encode, Decode, TornRecord.IsCutObject, JsonGrammar.Blank,
      JsonGrammar.WellFormed, JsonGrammar.Text, PyLines.PyBlank, TextIs;
    var text: string :|
      TextIs(raw, text) && Loads(cfg.rd.fl, PyLines.Strip(text)) == Some(v)
      && !HoldsNonFinite(cfg.rd.fl, PyLines.Strip(text)) && CleanTree(v);
    TextMeans(raw, text);
    var a, b := PyLines.StripSplit(text);
    var w, t, w' := ParsedGrammar.LoadsGrammar(cfg.rd.fl, PyLines.Strip(text));
    WsIsSpace(w);
    SpacesJoined(a, w);
    assert text == (a + w) + JsonGrammar.Text(t) + (w' + b);
    ValueNotCut(a + w, t, w' + b);
    RoundTrip(text);
    NoNulStays(raw.bytes, raw.lineNumber == 1);
  }

  lemma {:induction false} SpacesJoined(a: string, b: string)
    requires PyLines.PyBlank(a) && PyLines.PyBlank(b)
    ensures PyLines.PyBlank(a + b)
  {
  }

  lemma {:induction false} NoNulStays(bs: seq<byte>, strip: bool)
    requires TornAppend.NUL !in bs
    ensures TornAppend.StripNuls(TornAppend.StripBom(bs, strip)) == TornAppend.StripBom(bs, strip)
  {
  }

  /** Every other line is reported: as a torn append exactly when it is the last one, was read whole and is torn,
      otherwise as malformed. */
  lemma {:induction false} FindingItemIff(cfg: Config, raw: Raw, terminal: bool)
    ensures ItemOf(cfg, raw, terminal).FindingItem? ==> ItemOf(cfg, raw, terminal).raw == raw
    ensures ItemOf(cfg, raw, terminal) == FindingItem(SL002, raw) <==>
            terminal && !raw.truncated && TornAppend.IsTorn(raw.bytes, raw.lineNumber == 1)
  {
    hide RecordHolds, RecordItem, Decoded, ItemOf, TornAppend.IsTorn;
    ItemIs(cfg, raw, terminal);
    var d := Decoded(cfg, raw);
    forall v ensures d == Some(v) <==> RecordHolds(cfg, raw, v) { DecodedIs(cfg, raw, v); }
    if d.Some? {
      FindingGiven(cfg, raw, d.value);
      RecordNotTorn(cfg, raw, d.value);
    }
  }

  // ----- What the reader gives can be written -----

  lemma {:induction false} EventEncodable(o: map<PyStr, Json>, ev: Event)
    requires RecordSays(o, ev) && SoundEvent(ev) && Encodable(Obj(o))
    ensures Encodable(Obj(CanonicalDict(ev)))
  {
    var d := CanonicalDict(ev);
    forall k | k in d ensures Clean(k) && Encodable(d[k]) {
      assert DictValue(ev, k) == Some(d[k]);
      if FieldNamed(k).Some? {
        var f := FieldNamed(k).value;
        assert KeyName(f) == k;
        FieldEncodable(o, ev, f);
      } else {
        assert k in ev.extra && k in o && ev.extra[k] == o[k];
      }
    }
  }

  lemma {:induction false} FieldEncodable(o: map<PyStr, Json>, ev: Event, f: Field)
    requires RecordSays(o, ev) && SoundEvent(ev) && Encodable(Obj(o)) && FieldValue(ev, f).Some?
    ensures Encodable(FieldValue(ev, f).value)
  {
    hide KeyName, FieldNamed, Experimental, Within, ValidTs, BlankStr, VALID_ACTORS, VALID_KINDS, VALID_STATES;
    if f == SideEffects && Missing(Get(o, f)) {
      assert ev.sideEffects.value in VALID_SIDE_EFFECTS;
    } else {
      hide FieldValue, VALID_SIDE_EFFECTS;
      assert Get(o, f) == FieldValue(ev, f);
    }
  }

  lemma {:induction false} HeaderEncodable(o: map<PyStr, Json>, h: Header)
    requires HeaderSays(o, h) && Encodable(Obj(o))
    ensures Encodable(Obj(HeaderDict(h)))
  {
    var d := HeaderDict(h);
    forall k | k in d ensures Clean(k) && Encodable(d[k]) {
      assert HDictValue(h, k) == Some(d[k]);
      if HFieldNamed(k).Some? {
        var f := HFieldNamed(k).value;
        assert HKeyName(f) == k;
        HFieldEncodable(o, h, f);
      } else {
        assert k in h.extra && k in o && h.extra[k] == o[k];
      }
    }
  }

  lemma {:induction false} HFieldEncodable(o: map<PyStr, Json>, h: Header, f: HField)
    requires HeaderSays(o, h) && Encodable(Obj(o)) && HFieldValue(h, f).Some?
    ensures Encodable(HFieldValue(h, f).value)
  {
    if f == SchemaVersion {
      assert Clean(SCHEMA_VERSION);
    } else {
      hide *;
      HFieldSaid(o, h, f);
      HGotEncodable(o, f);
    }
  }

  lemma {:induction false} HFieldSaid(o: map<PyStr, Json>, h: Header, f: HField)
    requires HeaderSays(o, h) && HFieldValue(h, f).Some? && f != SchemaVersion
    ensures HGet(o, f) == HFieldValue(h, f)
  {
    hide HKeyName, HFieldNamed, HGet, Experimental, SCHEMA_VERSION, Name;
  }

  lemma {:induction false} HGotEncodable(o: map<PyStr, Json>, f: HField)
    requires Encodable(Obj(o)) && HGet(o, f).Some?
    ensures Encodable(HGet(o, f).value)
  {
    hide HKeyName;
  }

  /** Every record the reader gives is one that `dump_session` can write. */
  lemma {:induction false} ItemEncodable(cfg: Config, raw: Raw, terminal: bool)
    ensures match ItemOf(cfg, raw, terminal)
            case EventItem(ev) => Encodable(Obj(CanonicalDict(ev)))
            case HeaderItem(h) => Encodable(Obj(HeaderDict(h)))
            case _ => true
  {
    hide *;
    match ItemOf(cfg, raw, terminal)
    case EventItem(ev) =>
      EventItemIff(cfg, raw, terminal, ev);
      var o :| EventRecord(cfg, raw, o, ev);
      HeldEvent(cfg, raw, o, ev);
      EventEncodable(o, ev);
    case HeaderItem(h) =>
      HeaderItemIff(cfg, raw, terminal, h);
      var o :| HeaderRecord(cfg, raw, o, h);
      HeldHeader(cfg, raw, o, h);
      HeaderEncodable(o, h);
    case _ =>
  }

  lemma {:induction false} HeldEncodable(cfg: Config, raw: Raw, v: Json)
    requires RecordHolds(cfg, raw, v)
    ensures Encodable(v)
  {
    hide Loads, PyLines.Strip, CleanTree, HoldsNonFinite, TornAppend.StripBom, Encode, Finite, Encodable;
    var text: string :|
      TextIs(raw, text) && Loads(cfg.rd.fl, PyLines.Strip(text)) == Some(v)
      && !HoldsNonFinite(cfg.rd.fl, PyLines.Strip(text)) && CleanTree(v);
    TextScan(cfg.rd.fl, PyLines.Strip(text));
    EncodableIff(v);
  }

  lemma {:induction false} HeldEvent(cfg: Config, raw: Raw, o: map<PyStr, Json>, ev: Event)
    requires EventRecord(cfg, raw, o, ev)
    ensures RecordSays(o, ev) && SoundEvent(ev) && Encodable(Obj(o))
  {
    HeldEncodable(cfg, raw, Obj(o));
    hide RecordHolds, RecordSays, SoundEvent, Encodable;
  }

  lemma {:induction false} HeldHeader(cfg: Config, raw: Raw, o: map<PyStr, Json>, h: Header)
    requires HeaderRecord(cfg, raw, o, h)
    ensures HeaderSays(o, h) && Encodable(Obj(o))
  {
    HeldEncodable(cfg, raw, Obj(o));
    hide RecordHolds, HeaderSays, SoundHeader, Encodable;
  }

  lemma {:induction false} RunEncodable(cfg: Config, size: nat, rs: seq<Raw>, items: seq<Item>, outcome: Outcome)
    requires RunIs(cfg, size, rs, items, outcome)
    ensures forall i :: 0 <= i < |items| && items[i].EventItem? ==> Encodable(Obj(CanonicalDict(items[i].event)))
    ensures forall i :: 0 <= i < |items| && items[i].HeaderItem? ==> Encodable(Obj(HeaderDict(items[i].header)))
  {
    hide ItemOf, CanonicalDict, HeaderDict, Encodable, OutcomeAfter, Reach;
    forall i | 0 <= i < |items|
      ensures items[i].EventItem? ==> Encodable(Obj(CanonicalDict(items[i].event)))
      ensures items[i].HeaderItem? ==> Encodable(Obj(HeaderDict(items[i].header))) {
      assert items[i] == ItemAt(cfg, rs, i);
      ItemEncodable(cfg, rs[i], i + 1 == |rs|);
    }
  }
}
