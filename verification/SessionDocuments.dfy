/** Which headers, line files and documents the session parser accepts, and which session each of them holds. */
module SessionDocuments {
  import opened Options
  import opened PyText
  import opened JsonValues
  import opened JsonGrammar
  import opened JsonPrinter
  import opened JsonParser
  import opened JsonRoundTrip
  import opened PyLines
  import opened Depth
  import opened Timestamps
  import opened SessionModel
  import opened SessionRoundTrip
  import opened SessionMeaning

  // ----- Headers -----

  /** The header record says what the header says: its optional fields as they are or missing, where only a field
      that is not there stands for empty metadata, and everything else experimental. */
  ghost predicate HeaderSays(o: map<PyStr, Json>, h: Header) {
    && (forall k :: k in o ==> HFieldNamed(k).Some? || Experimental(k))
    && HGet(o, SchemaVersion) == Some(Str(SCHEMA_VERSION))
    && HGet(o, SessionId) == Some(Str(h.sessionId)) && HGet(o, CreatedAt) == Some(Str(h.createdAt))
    && (if Missing(HGet(o, Title)) then h.title == None else HGet(o, Title) == OptStr(h.title))
    && (if HGet(o, Metadata) == None then h.metadata == map[] else HGet(o, Metadata) == Some(Obj(h.metadata)))
    && (if Missing(HGet(o, Source)) then h.source == None else HGet(o, Source) == h.source)
    && (if Missing(HGet(o, Version)) then h.version == None
        else h.version.Some? && HGet(o, Version) == Some(Json.Int(h.version.value)))
    && h.extra == (map k | k in o && HFieldNamed(k).None? :: o[k])
  }

  /** What the format asks of a header. */
  ghost predicate SoundHeader(h: Header) {
    && !BlankStr(h.sessionId) && ValidTs(h.createdAt)
    && Within(Obj(h.metadata), MAX_PAYLOAD_DEPTH)
    && (h.source.Some? ==> h.source.value.Str? || (h.source.value.Obj? && Within(h.source.value, MAX_PAYLOAD_DEPTH)))
  }

  lemma {:induction false} MetadataMeans(v: Option<Json>, m: map<PyStr, Json>)
    ensures ReadMetadata(v) == Some(m) <==>
            Within(Obj(m), MAX_PAYLOAD_DEPTH) && if v == None then m == map[] else v == Some(Obj(m))
  {
    var none: map<PyStr, Json> := map[];
    assert ValidateDepth(Obj(none), 1);
    ValidateIsWithin(Obj(m), 1);
    hide Within, ValidateDepth;
  }

  lemma {:induction false} SourceMeans(v: Option<Json>, r: Option<Json>)
    ensures ReadSource(v) == Some(r) <==>
            (r.Some? ==> r.value.Str? || (r.value.Obj? && Within(r.value, MAX_PAYLOAD_DEPTH))) &&
            if Missing(v) then r == None else v == r
  {
    if v.Some? { ValidateIsWithin(v.value, 1); }
    hide Within, ValidateDepth;
  }

  lemma {:induction false} VersionMeans(v: Option<Json>, r: Option<int>)
    ensures ReadVersion(v) == Some(r) <==>
            if Missing(v) then r == None else r.Some? && v == Some(Json.Int(r.value))
  {
  }

  /** Everything the parser reads of a header. */
  ghost predicate HeaderReads(o: map<PyStr, Json>, h: Header) {
    && (forall k :: k in o ==> HFieldNamed(k).Some? || Experimental(k))
    && HExtraFields(o) == h.extra
    && HGet(o, SchemaVersion) == Some(Str(SCHEMA_VERSION))
    && HGet(o, SessionId) == Some(Str(h.sessionId)) && !BlankStr(h.sessionId)
    && HGet(o, CreatedAt) == Some(Str(h.createdAt)) && ValidTs(h.createdAt)
    && ReadStr(HGet(o, Title)) == Some(h.title)
    && ReadMetadata(HGet(o, Metadata)) == Some(h.metadata)
    && ReadSource(HGet(o, Source)) == Some(h.source)
    && ReadVersion(HGet(o, Version)) == Some(h.version)
  }

  lemma {:induction false} ParsedHeaderReads(rd: Reader, o: map<PyStr, Json>, h: Header)
    ensures ParseHeader(rd, Obj(o)) == Some(h) <==> HeaderReads(o, h)
  {
    hide HFieldNamed, Experimental, ValidTs, BlankStr, Name, HGet, ReadStr, ReadMetadata, ReadSource, ReadVersion,
      HExtraFields;
  }

  /** A record is accepted as a header exactly when it says what the header says and the header is as the format
      asks. */
  lemma {:induction false} HeaderMeans(rd: Reader, o: map<PyStr, Json>, h: Header)
    ensures ParseHeader(rd, Obj(o)) == Some(h) <==> HeaderSays(o, h) && SoundHeader(h)
  {
    ParsedHeaderReads(rd, o, h);
    StrMeans(HGet(o, Title), h.title);
    MetadataMeans(HGet(o, Metadata), h.metadata);
    SourceMeans(HGet(o, Source), h.source);
    VersionMeans(HGet(o, Version), h.version);
    hide HFieldNamed, Experimental, ValidTs, BlankStr, Name, HGet, ReadStr, ReadMetadata, ReadSource, ReadVersion,
      ParseHeader, Within;
  }

  // ----- Event lists -----

  /** The values are the records of these events, in order, and no two events have the same id. */
  ghost predicate AreEvents(rd: Reader, vs: seq<Json>, events: seq<Event>) {
    && |vs| == |events|
    && (forall i :: 0 <= i < |vs| ==> vs[i].Obj? && RecordSays(vs[i].fields, events[i]) && SoundEvent(events[i]))
    && (forall i, j :: 0 <= i < j < |events| ==> events[i].id != events[j].id)
  }

  lemma {:induction false} EventOrNot(rd: Reader, v: Json, ev: Event)
    ensures ParseEvent(rd, v) == Some(ev) <==> v.Obj? && RecordSays(v.fields, ev) && SoundEvent(ev)
  {
    if v.Obj? { EventMeans(rd, v.fields, ev); }
    assert !v.Obj? ==> ParseEvent(rd, v) == None;
    hide ParseEvent, RecordSays, SoundEvent;
  }

  ghost predicate DistinctIds(events: seq<Event>) {
    forall i, j :: 0 <= i < j < |events| ==> events[i].id != events[j].id
  }

  /** Reading on behind some events. */
  ghost predicate Continues(rd: Reader, vs: seq<Json>, before: seq<Event>, events: seq<Event>) {
    && |events| == |before| + |vs| && events[..|before|] == before && DistinctIds(events)
    && forall i :: 0 <= i < |vs| ==> ParseEvent(rd, vs[i]) == Some(events[|before| + i])
  }

  lemma {:induction false} NothingMore(rd: Reader, before: seq<Event>, events: seq<Event>)
    requires DistinctIds(before)
    ensures Continues(rd, [], before, events) <==> events == before
  {
    hide ParseEvent;
    if |events| == |before| && events[..|before|] == before { assert events == before; }
    if events == before { assert events[..|before|] == before; }
  }

  lemma {:induction false} OneMore(rd: Reader, vs: seq<Json>, before: seq<Event>, events: seq<Event>, ev: Event)
    requires vs != [] && ParseEvent(rd, vs[0]) == Some(ev)
    ensures Continues(rd, vs, before, events) <==> Continues(rd, vs[1..], before + [ev], events)
  {
    hide ParseEvent;
    var n := |before|;
    if Continues(rd, vs, before, events) {
      assert events[n + 0] == ev;
      assert events[..n + 1] == before + [ev];
      forall i | 0 <= i < |vs[1..]| ensures ParseEvent(rd, vs[1..][i]) == Some(events[n + 1 + i]) {
        assert ParseEvent(rd, vs[i + 1]) == Some(events[n + (i + 1)]);
      }
    }
    if Continues(rd, vs[1..], before + [ev], events) {
      assert events[n] == events[..n + 1][n] == ev;
      assert events[..n] == events[..n + 1][..n] == before;
      forall i | 0 <= i < |vs| ensures ParseEvent(rd, vs[i]) == Some(events[n + i]) {
        if i > 0 { assert ParseEvent(rd, vs[1..][i - 1]) == Some(events[n + 1 + (i - 1)]); }
      }
    }
  }

  lemma {:induction false} FirstRead(rd: Reader, vs: seq<Json>, before: seq<Event>, events: seq<Event>)
    requires vs != [] && Continues(rd, vs, before, events)
    ensures ParseEvent(rd, vs[0]) == Some(events[|before|]) && events[|before|].id !in Ids(before)
  {
    hide ParseEvent;
    assert ParseEvent(rd, vs[0]) == Some(events[|before| + 0]);
    forall i | 0 <= i < |before| ensures before[i].id != events[|before|].id {
      assert events[i] == events[..|before|][i] == before[i];
    }
  }

  lemma {:induction false} FreshId(before: seq<Event>, ev: Event)
    requires DistinctIds(before) && ev.id !in Ids(before)
    ensures DistinctIds(before + [ev])
  {
    var more := before + [ev];
    forall i, j | 0 <= i < j < |more| ensures more[i].id != more[j].id {
      if j == |before| { assert before[i].id in Ids(before); }
    }
  }

  lemma {:induction false} ReadEventsMean(rd: Reader, vs: seq<Json>, before: seq<Event>, events: seq<Event>)
    requires DistinctIds(before)
    ensures ReadEvents(rd, vs, before) == Some(events) <==> Continues(rd, vs, before, events)
    decreases |vs|
  {
    hide ParseEvent, Continues, DistinctIds, Ids;
    if vs == [] {
      NothingMore(rd, before, events);
    } else if ParseEvent(rd, vs[0]).None? {
      if Continues(rd, vs, before, events) { FirstRead(rd, vs, before, events); }
    } else {
      var ev := ParseEvent(rd, vs[0]).value;
      if ev.id in Ids(before) {
        if Continues(rd, vs, before, events) { FirstRead(rd, vs, before, events); }
      } else {
        FreshId(before, ev);
        OneMore(rd, vs, before, events, ev);
        ReadEventsMean(rd, vs[1..], before + [ev], events);
      }
    }
  }

  lemma {:induction false} AreEventsIs(rd: Reader, vs: seq<Json>, events: seq<Event>)
    ensures AreEvents(rd, vs, events) <==> Continues(rd, vs, [], events)
  {
    hide ParseEvent, RecordSays, SoundEvent;
    if |vs| == |events| {
      forall i | 0 <= i < |vs|
        ensures ParseEvent(rd, vs[i]) == Some(events[i]) <==>
                vs[i].Obj? && RecordSays(vs[i].fields, events[i]) && SoundEvent(events[i]) {
        EventOrNot(rd, vs[i], events[i]);
      }
      assert events[..0] == [];
      var none: seq<Event> := [];
      assert forall i :: 0 <= i < |vs| ==> events[|none| + i] == events[i];
    }
  }

  lemma {:induction false} ReadEventsAre(rd: Reader, vs: seq<Json>, events: seq<Event>)
    ensures ReadEvents(rd, vs, []) == Some(events) <==> AreEvents(rd, vs, events)
  {
    assert DistinctIds([]);
    hide *;
    AreEventsIs(rd, vs, events);
    ReadEventsMean(rd, vs, [], events);
  }

  // ----- One document -----

  /** The document is the session: its events in order, its header framed or made of the other fields, and its
      extras, which only the framed form has. */
  ghost predicate DocumentSays(rd: Reader, o: map<PyStr, Json>, s: Session) {
    && EVENTS in o && o[EVENTS].Arr? && AreEvents(rd, o[EVENTS].items, s.events)
    && SoundHeader(s.header)
    && if HEADER in o then
         && (forall k :: k in o ==> k == HEADER || k == EVENTS || Experimental(k))
         && o[HEADER].Obj? && HeaderSays(o[HEADER].fields, s.header)
         && s.extra == (map k | k in o && k != HEADER && k != EVENTS :: o[k])
       else
         HeaderSays(map k | k in o && k != EVENTS :: o[k], s.header) && s.extra == map[]
  }

  lemma {:induction false} HeaderOrNot(rd: Reader, v: Json, h: Header)
    ensures ParseHeader(rd, v) == Some(h) <==> v.Obj? && HeaderSays(v.fields, h) && SoundHeader(h)
  {
    if v.Obj? { HeaderMeans(rd, v.fields, h); }
    assert !v.Obj? ==> ParseHeader(rd, v) == None;
    hide ParseHeader, HeaderSays, SoundHeader;
  }

  /** Exactly such documents are accepted. */
  lemma {:induction false} DocumentMeans(rd: Reader, o: map<PyStr, Json>, s: Session)
    ensures ParseSession(rd, o) == Some(s) <==> DocumentSays(rd, o, s)
  {
    hide ParseHeader, HeaderSays, SoundHeader, Experimental, AreEvents, ReadEvents, HEADER, EVENTS;
    if EVENTS in o && o[EVENTS].Arr? {
      ReadEventsAre(rd, o[EVENTS].items, s.events);
      if HEADER in o {
        HeaderOrNot(rd, o[HEADER], s.header);
        assert o - {HEADER, EVENTS} == map k | k in o && k != HEADER && k != EVENTS :: o[k];
      } else {
        HeaderOrNot(rd, Obj(o - {EVENTS}), s.header);
        assert o - {EVENTS} == map k | k in o && k != EVENTS :: o[k];
      }
    }
  }

  /** The dictionaries of the events. */
  function EventDicts(events: seq<Event>): (vs: seq<Json>)
    ensures |vs| == |events| && forall i :: 0 <= i < |vs| ==> vs[i] == Obj(CanonicalDict(events[i]))
  {
    seq(|events|, i requires 0 <= i < |events| => Obj(CanonicalDict(events[i])))
  }

  lemma {:induction false} DictsAreEvents(rd: Reader, events: seq<Event>)
    requires ValidEvents(rd, events)
    ensures AreEvents(rd, EventDicts(events), events)
  {
    hide ParseEvent, RecordSays, SoundEvent, ValidEvent, LawfulEvent, CanonicalDict;
    forall i | 0 <= i < |events| ensures RecordSays(CanonicalDict(events[i]), events[i]) && SoundEvent(events[i]) {
      EventRoundTrip(rd, events[i]);
      EventOrNot(rd, Obj(CanonicalDict(events[i])), events[i]);
    }
    forall i, j | 0 <= i < j < |events| ensures events[i].id != events[j].id {
      assert events[..j][i] == events[i];
      assert events[i].id in Ids(events[..j]);
    }
  }

  /** The framed document of a session. */
  function Framed(s: Session): map<PyStr, Json> {
    s.extra[HEADER := Obj(HeaderDict(s.header))][EVENTS := Arr(EventDicts(s.events))]
  }

  lemma {:induction false} FrameKeys()
    ensures HEADER != EVENTS && !Experimental(HEADER) && !Experimental(EVENTS)
  {
    assert HEADER[0] == 'h' as int && EVENTS[0] == 'e' as int && EVENTS[1] == 'v' as int;
    assert EXPERIMENTAL[0] == 'e' as int && EXPERIMENTAL[1] == 'x' as int;
  }

  lemma {:induction false} FramedParts(s: Session)
    requires HEADER != EVENTS && HEADER !in s.extra && EVENTS !in s.extra
    ensures var o := Framed(s);
            && HEADER in o && o[HEADER] == Obj(HeaderDict(s.header))
            && EVENTS in o && o[EVENTS] == Arr(EventDicts(s.events))
            && (forall k :: k in o ==> k == HEADER || k == EVENTS || k in s.extra)
            && s.extra == (map k | k in o && k != HEADER && k != EVENTS :: o[k])
  {
    hide HEADER, EVENTS, HeaderDict, EventDicts;
  }

  lemma {:induction false} HeaderDictSays(rd: Reader, h: Header)
    requires ValidHeader(rd, h)
    ensures HeaderSays(HeaderDict(h), h) && SoundHeader(h)
  {
    hide *;
    HeaderRoundTrip(rd, h);
    HeaderMeans(rd, HeaderDict(h), h);
  }

  /** It parses to the session: its header, its events in order, its extras. */
  lemma {:induction false} FramedRoundTrip(rd: Reader, s: Session)
    requires ValidSession(rd, s) && forall k :: k in s.extra ==> Experimental(k)
    ensures ParseSession(rd, Framed(s)) == Some(s)
  {
    assert ValidHeader(rd, s.header) && ValidEvents(rd, s.events);
    hide Experimental, HEADER, EVENTS, ValidHeader, LawfulHeader, ValidEvents, HeaderDict, EventDicts, Framed,
      HeaderSays, SoundHeader, AreEvents, ParseSession;
    FrameKeys();
    FramedParts(s);
    HeaderDictSays(rd, s.header);
    DictsAreEvents(rd, s.events);
    DocumentMeans(rd, Framed(s), s);
  }

  /** The flat document of a session, which has no room for extras of its own. */
  function Flat(s: Session): map<PyStr, Json> {
    HeaderDict(s.header)[EVENTS := Arr(EventDicts(s.events))]
  }

  lemma {:induction false} HeaderUnknown()
    ensures HFieldNamed(HEADER) == None
  {
    assert HEADER[0] == 'h' as int;
    forall f: HField ensures HKeyName(f) != HEADER {
      assert HKeyText(f)[0] != 'h';
      assert HKeyName(f)[0] == HKeyText(f)[0] as int;
    }
    hide HKeyName, HEADER, HFind;
  }

  lemma {:induction false} NotFramed(rd: Reader, h: Header)
    requires ValidHeader(rd, h)
    ensures HEADER !in HeaderDict(h) && EVENTS !in HeaderDict(h)
  {
    NotEvents(rd, h);
    FrameKeys();
    HeaderUnknown();
    hide HFieldNamed, HEADER, EVENTS, Experimental, HFieldValue;
    assert HDictValue(h, HEADER) == None;
    hide HDictValue;
  }

  lemma {:induction false} FlatParts(s: Session)
    requires HEADER != EVENTS && HEADER !in HeaderDict(s.header) && EVENTS !in HeaderDict(s.header)
    ensures var o := Flat(s);
            && HEADER !in o && EVENTS in o && o[EVENTS] == Arr(EventDicts(s.events))
            && HeaderDict(s.header) == (map k | k in o && k != EVENTS :: o[k])
  {
    hide HEADER, EVENTS, HeaderDict, EventDicts;
  }

  lemma {:induction false} FlatRoundTrip(rd: Reader, s: Session)
    requires ValidSession(rd, s)
    ensures ParseSession(rd, Flat(s)) == Some(s.(extra := map[]))
  {
    assert ValidHeader(rd, s.header) && ValidEvents(rd, s.events);
    hide Experimental, HEADER, EVENTS, ValidHeader, LawfulHeader, ValidEvents, HeaderDict, EventDicts, Flat,
      HeaderSays, SoundHeader, AreEvents, ParseSession;
    FrameKeys();
    NotFramed(rd, s.header);
    FlatParts(s);
    HeaderDictSays(rd, s.header);
    DictsAreEvents(rd, s.events);
    DocumentMeans(rd, Flat(s), s.(extra := map[]));
  }

  // ----- Files of lines -----

  /** The decoded lines, blank ones apart; nothing when one of them does not decode. */
  function Held(fl: FloatReader, lines: seq<string>): Option<seq<Json>> {
    if lines == [] then Some([])
    else if PyBlank(lines[0]) then Held(fl, lines[1..])
    else match (Loads(fl, Strip(lines[0])), Held(fl, lines[1..]))
      case (Some(v), Some(vs)) => Some([v] + vs)
      case _ => None
  }

  /** The first record is the header, the others are the events. */
  ghost predicate LinesSay(rd: Reader, lines: seq<string>, s: Session) {
    var held := Held(rd.fl, lines);
    && held.Some? && held.value != []
    && held.value[0].Obj? && HeaderSays(held.value[0].fields, s.header) && SoundHeader(s.header)
    && AreEvents(rd, held.value[1..], s.events) && s.extra == map[]
  }

  lemma {:induction false} StripBlank(s: string)
    ensures Strip(s) == "" <==> PyBlank(s)
  {
    LStripIs(s);
    RStripIs(LStrip(s));
  }

  lemma {:induction false} LStripIs(s: string)
    ensures LStrip(s) == "" <==> PyBlank(s)
    ensures LStrip(s) != "" ==> !PySpace(LStrip(s)[0])
    decreases |s|
  {
    if s != "" && PySpace(s[0]) {
      LStripIs(s[1..]);
      assert s == [s[0]] + s[1..];
    }
  }

  lemma {:induction false} RStripIs(s: string)
    requires s != "" ==> !PySpace(s[0])
    ensures RStrip(s) == "" <==> s == ""
    ensures RStrip(s) != "" ==> RStrip(s)[0] == s[0]
    decreases |s|
  {
    if s != "" && PySpace(s[|s| - 1]) { RStripIs(s[..|s| - 1]); }
  }

  /** One line of the loop, behind the header. */
  lemma {:induction false} OneRecord(rd: Reader, h: Header, before: seq<Event>, line: string)
    ensures var r := ReadOne(rd, Progress(Some(h), before), line);
            if PyBlank(line) then r == Some(Progress(Some(h), before))
            else match Loads(rd.fl, Strip(line))
              case None => r == None
              case Some(v) =>
                if ParseEvent(rd, v).None? || ParseEvent(rd, v).value.id in Ids(before) then r == None
                else r == Some(Progress(Some(h), before + [ParseEvent(rd, v).value]))
  {
    StripBlank(line);
    hide Strip, PyBlank, Loads, ParseEvent, Ids;
  }

  /** The lines behind the header. */
  lemma {:induction false} RecordsMean(rd: Reader, h: Header, before: seq<Event>, lines: seq<string>,
                                       events: seq<Event>)
    requires DistinctIds(before)
    ensures ReadAll(rd, Progress(Some(h), before), lines) == Some(Progress(Some(h), events)) <==>
            Held(rd.fl, lines).Some? && Continues(rd, Held(rd.fl, lines).value, before, events)
    ensures ReadAll(rd, Progress(Some(h), before), lines).Some? ==>
              ReadAll(rd, Progress(Some(h), before), lines).value.header == Some(h)
    decreases |lines|
  {
    hide ReadOne, PyBlank, Strip, Loads, ParseEvent, Continues, DistinctIds, Ids;
    if lines == [] {
      NothingMore(rd, before, events);
    } else {
      OneRecord(rd, h, before, lines[0]);
      var v := Loads(rd.fl, Strip(lines[0]));
      if PyBlank(lines[0]) {
        RecordsMean(rd, h, before, lines[1..], events);
      } else if v.Some? {
        var held := Held(rd.fl, lines[1..]);
        var vs := if held.Some? then [v.value] + held.value else [];
        var ev := ParseEvent(rd, v.value);
        if held.Some? { assert vs[0] == v.value && vs[1..] == held.value; }
        if ev.None? || ev.value.id in Ids(before) {
          if held.Some? && Continues(rd, vs, before, events) { FirstRead(rd, vs, before, events); }
        } else {
          FreshId(before, ev.value);
          RecordsMean(rd, h, before + [ev.value], lines[1..], events);
          if held.Some? { OneMore(rd, vs, before, events, ev.value); }
        }
      }
    }
  }

  /** One line of the loop while there is no header. */
  lemma {:induction false} FirstRecord(rd: Reader, line: string)
    ensures var r := ReadOne(rd, Progress(None, []), line);
            if PyBlank(line) then r == Some(Progress(None, []))
            else match Loads(rd.fl, Strip(line))
              case None => r == None
              case Some(v) =>
                if ParseHeader(rd, v).None? then r == None else r == Some(Progress(ParseHeader(rd, v), []))
  {
    StripBlank(line);
    hide Strip, PyBlank, Loads, ParseHeader;
  }

  lemma {:induction false} FileMeans(rd: Reader, lines: seq<string>, h: Header, events: seq<Event>)
    ensures ReadAll(rd, Progress(None, []), lines) == Some(Progress(Some(h), events)) <==>
            var held := Held(rd.fl, lines);
            && held.Some? && held.value != [] && ParseHeader(rd, held.value[0]) == Some(h)
            && Continues(rd, held.value[1..], [], events)
    decreases |lines|
  {
    hide ReadOne, PyBlank, Strip, Loads, ParseHeader, ParseEvent, Continues;
    if lines != [] {
      FirstRecord(rd, lines[0]);
      var v := Loads(rd.fl, Strip(lines[0]));
      if PyBlank(lines[0]) {
        FileMeans(rd, lines[1..], h, events);
      } else if v.Some? {
        var held := Held(rd.fl, lines[1..]);
        if held.Some? { assert ([v.value] + held.value)[1..] == held.value; }
        var h' := ParseHeader(rd, v.value);
        if h'.Some? { RecordsMean(rd, h'.value, [], lines[1..], events); }
      }
    }
  }

  /** The line parser accepts exactly the files whose records are a header and its events. */
  lemma {:induction false} LinesMean(rd: Reader, lines: seq<string>, s: Session)
    ensures ParseLines(rd, lines) == Some(s) <==> LinesSay(rd, lines, s)
  {
    hide ReadAll, Held, HeaderSays, SoundHeader, AreEvents, Continues, ParseHeader;
    FileMeans(rd, lines, s.header, s.events);
    var held := Held(rd.fl, lines);
    if held.Some? && held.value != [] {
      HeaderOrNot(rd, held.value[0], s.header);
      AreEventsIs(rd, held.value[1..], s.events);
    }
    var st := ReadAll(rd, Progress(None, []), lines);
    if st.Some? && st.value.header.Some? {
      assert st == Some(Progress(Some(st.value.header.value), st.value.events));
    }
  }

  // ----- The file loader -----

  /** A text that is one JSON object with an event list is read as a document, any other as lines. */
  ghost predicate TextSays(rd: Reader, text: string, s: Session) {
    && !PyBlank(text)
    && match Loads(rd.fl, Strip(text))
       case Some(Obj(o)) => if EVENTS in o then DocumentSays(rd, o, s) else LinesSay(rd, SplitLf(text), s)
       case _ => LinesSay(rd, SplitLf(text), s)
  }

  /** Only a text that starts with a brace is an object. */
  lemma {:induction false} ObjectStart(fl: FloatReader, t: string)
    requires t != "" && !PySpace(t[0]) && Loads(fl, t).Some? && Loads(fl, t).value.Obj?
    ensures t[0] == '{'
  {
    assert !IsWs(t[0]);
    assert SkipWs(t) == t;
    ObjectHead(fl, t);
  }

  lemma {:induction false} ObjectHead(fl: FloatReader, t: string)
    requires t != "" && ParseValue(fl, t).Ok? && ParseValue(fl, t).value.Obj?
    ensures t[0] == '{'
  {
  }

  lemma {:induction false} LoadMeans(rd: Reader, text: string, s: Session)
    ensures LoadText(rd, text) == Some(s) <==> TextSays(rd, text, s)
  {
    StripBlank(text);
    LinesMean(rd, SplitLf(text), s);
    var t := Strip(text);
    if t != "" {
      LStripIs(text);
      RStripIs(LStrip(text));
      if Loads(rd.fl, t).Some? && Loads(rd.fl, t).value.Obj? {
        ObjectStart(rd.fl, t);
        DocumentMeans(rd, Loads(rd.fl, t).value.fields, s);
      }
    }
    hide Strip, LStrip, RStrip, PyBlank, Loads, ParseLines, ParseSession, DocumentSays, LinesSay, SplitLf, EVENTS;
  }

  lemma {:induction false} DictsLawful(rd: Reader, events: seq<Event>)
    requires ValidEvents(rd, events)
    ensures Lawful(rd.fl, Arr(EventDicts(events)))
  {
    hide ValidEvent, LawfulEvent, CanonicalDict;
    forall i | 0 <= i < |events| ensures Lawful(rd.fl, Obj(CanonicalDict(events[i]))) { DictLawful(rd, events[i]); }
  }

  lemma {:induction false} FramedLawful(rd: Reader, s: Session)
    requires ValidSession(rd, s) && forall k :: k in s.extra ==> Lawful(rd.fl, s.extra[k])
    ensures Lawful(rd.fl, Obj(Framed(s)))
  {
    HDictLawful(rd, s.header);
    DictsLawful(rd, s.events);
    hide HeaderDict, EventDicts, HEADER, EVENTS, ValidHeader, LawfulHeader, ValidEvents;
    var o := Framed(s);
    forall k | k in o ensures Lawful(rd.fl, o[k]) {
      if k != EVENTS && k != HEADER { assert o[k] == s.extra[k]; }
    }
  }

  lemma {:induction false} NothingStripped(t: string)
    requires ObjectText(t)
    ensures Strip(t) == t && !PyBlank(t)
  {
    assert !PySpace(t[0]);
    NothingToStrip(t);
    hide Strip;
  }

  /** A file that holds the framed document of a session, in canonical form, is loaded as the session. */
  lemma {:induction false} LoadFramed(rd: Reader, s: Session)
    requires ValidSession(rd, s) && (forall k :: k in s.extra ==> Experimental(k) && Lawful(rd.fl, s.extra[k]))
    requires Encodable(Obj(Framed(s)))
    ensures LoadText(rd, Print(Obj(Framed(s)))) == Some(s)
  {
    FramedLawful(rd, s);
    FramedRoundTrip(rd, s);
    FramedThere(s);
    hide *;
    var v := Obj(Framed(s));
    LoadsPrinted(rd.fl, v);
    PrintedObject(rd.fl, v);
    NothingStripped(Print(v));
    DocumentMeans(rd, Framed(s), s);
    LoadMeans(rd, Print(v), s);
    LoadObject(rd, Print(v), Framed(s), s);
  }

  lemma {:induction false} FramedThere(s: Session)
    ensures EVENTS in Framed(s)
  {
    hide EVENTS, HEADER;
  }

  lemma {:induction false} LoadObject(rd: Reader, text: string, o: map<PyStr, Json>, s: Session)
    requires !PyBlank(text) && Loads(rd.fl, Strip(text)) == Some(Obj(o)) && EVENTS in o && DocumentSays(rd, o, s)
    ensures TextSays(rd, text, s)
  {
    hide PyBlank, Loads, Strip, EVENTS, DocumentSays;
  }
}
