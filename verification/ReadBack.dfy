/** The reader on files this program wrote, and on a file that makes it stop. */
module ReadBack {
  import opened Options
  import opened PyText
  import opened JsonValues
  import opened JsonPrinter
  import opened Utf8
  import opened Depth
  import opened SessionModel
  import opened SessionRoundTrip
  import opened Framing
  import opened StreamReader
  import opened ReaderProperties
  import opened Timestamps
  import JsonRoundTrip
  import PyLines
  import SealCrash
  import StrictJson
  import TornAppend

  // ----- Framing a file of complete lines -----

  /** The file of these lines, each closed by a line feed. */
  function Joined(lines: seq<seq<byte>>): seq<byte> {
    if lines == [] then [] else lines[0] + [LF] + Joined(lines[1..])
  }

  /** A line within the limit that is one line and not blank. */
  predicate GoodLine(line: seq<byte>, max: nat) {
    line != [] && line[0] == 0x7B && LF !in line && |line| < max
  }

  /** The records of such a file from `start` on. */
  function RawLines(lines: seq<seq<byte>>, start: nat, number: nat): (rs: seq<Raw>)
    ensures |rs| == |lines|
    ensures forall i :: 0 <= i < |rs| ==>
              rs[i].lineNumber == number + i && rs[i].ordinal == number + i && !rs[i].truncated
              && rs[i].bytes == lines[i] + [LF]
    decreases |lines|
  {
    if lines == [] then []
    else
      var end := start + |lines[0]| + 1;
      [Raw(number, lines[0] + [LF], false, start, end, number)] + RawLines(lines[1..], end, number + 1)
  }

  lemma {:induction false} OneLineAt(pre: seq<byte>, line: seq<byte>, rest: seq<byte>, max: nat, number: nat)
    requires GoodLine(line, max)
    ensures var data := pre + (line + [LF] + rest);
            && LineEnd(data, |pre|) == |pre| + |line| + 1 && Kept(data, max, |pre|)
            && RawAt(data, max, |pre|, number, number) ==
               Raw(number, line + [LF], false, |pre|, |pre| + |line| + 1, number)
  {
    var data := pre + (line + [LF] + rest);
    var end := |pre| + |line| + 1;
    assert forall j :: |pre| <= j < end - 1 ==> data[j] == line[j - |pre|];
    assert data[end - 1] == LF;
    LineEndIs(data, |pre|, end);
    hide LineEnd;
    assert data[|pre|..end] == line + [LF];
    assert !AsciiBlank(line + [LF]) by { assert (line + [LF])[0] == 0x7B; }
  }

  lemma {:induction false} FrameJoined(pre: seq<byte>, lines: seq<seq<byte>>, max: nat, number: nat)
    requires forall i :: 0 <= i < |lines| ==> GoodLine(lines[i], max)
    ensures FrameAt(pre + Joined(lines), max, |pre|, number, number) == RawLines(lines, |pre|, number)
    decreases |lines|
  {
    hide GoodLine, Kept, RawAt, LineEnd;
    var data := pre + Joined(lines);
    if lines != [] {
      OneLineAt(pre, lines[0], Joined(lines[1..]), max, number);
      var pre' := pre + (lines[0] + [LF]);
      assert data == pre' + Joined(lines[1..]);
      FrameJoined(pre', lines[1..], max, number + 1);
    }
  }

  lemma {:induction false} FrameOfFile(lines: seq<seq<byte>>, max: nat)
    requires forall i :: 0 <= i < |lines| ==> GoodLine(lines[i], max)
    ensures Frame(Joined(lines), max) == RawLines(lines, 0, 1)
  {
    hide GoodLine, FrameAt, RawLines, Joined;
    FrameJoined([], lines, max, 1);
    assert [] + Joined(lines) == Joined(lines);
  }

  // ----- One canonical record -----

  lemma {:induction false} RecordLine(fl: FloatReader, v: Json, max: nat)
    requires v.Obj? && Encodable(v) && Lawful(fl, v) && |Encode(Print(v))| < max
    ensures GoodLine(Encode(Print(v)), max)
  {
    RecordBytes(fl, v);
    hide Print, Encode;
  }

  /** The text the reader decodes from such a line. */
  lemma {:induction false} LineText(fl: FloatReader, v: Json, strip: bool)
    requires v.Obj? && Encodable(v) && Lawful(fl, v)
    ensures var bytes := Encode(Print(v)) + [LF];
            && TornAppend.NUL !in bytes && TornAppend.StripBom(bytes, strip) == bytes
            && Decode(bytes) == Valid(Print(v) + "\n") && PyLines.Strip(Print(v) + "\n") == Print(v)
  {
    var t := Print(v);
    RecordBytes(fl, v);
    PrintedObject(fl, v);
    NothingToStrip(t);
    NoNulIn(t);
    AsciiByte(t, '\0');
    hide Print, Encodable, Lawful;
    NoBom(Encode(t) + [LF], strip);
    EncodeConcat(t, "\n");
    assert Encode("\n") == [LF] by { assert "\n"[1..] == ""; }
    RoundTrip(t + "\n");
    hide Encode, Decode;
  }

  lemma {:induction false} NoNulIn(t: string)
    requires SealCrash.NoControl(t)
    ensures '\0' !in t
  {
  }

  lemma {:induction false} RecordDecodes(cfg: Config, v: Json, raw: Raw)
    requires v.Obj? && Encodable(v) && Lawful(cfg.rd.fl, v)
    requires !raw.truncated && raw.bytes == Encode(Print(v)) + [LF]
    ensures DecodesTo(cfg, raw, v)
    ensures forall terminal: bool :: ItemOf(cfg, raw, terminal) == RecordItem(cfg, raw, v)
  {
    LineText(cfg.rd.fl, v, raw.lineNumber == 1);
    StrictJson.StrictLoadsPrinted(cfg.rd.fl, v);
    hide Print, Encode, Decode, PyLines.Strip, StrictJson.StrictLoads, Encodable, Lawful, RecordItem,
      TornAppend.StripBom;
  }

  /** A written header on the first line, and a written event on a later one: what the reader makes of them
      depends on the depth limit alone. */
  lemma {:induction false} HeaderLineItem(cfg: Config, h: Header, raw: Raw)
    requires ValidHeader(cfg.rd, h) && raw.ordinal == 1
    ensures RecordItem(cfg, raw, Obj(HeaderDict(h))) ==
            if Within(Obj(HeaderDict(h)), cfg.maxDepth) then HeaderItem(h) else FindingItem(SL001, raw)
  {
    HeaderRoundTrip(cfg.rd, h);
    HDictField(h, SessionId);
    hide HeaderDict, ParseHeader, ValidHeader, Within, RaisesTypeError, ParseEvent, HKeyName;
  }

  lemma {:induction false} EventLineItem(cfg: Config, ev: Event, raw: Raw)
    requires ValidEvent(cfg.rd, ev) && raw.ordinal > 1
    ensures RecordItem(cfg, raw, Obj(CanonicalDict(ev))) ==
            if Within(Obj(CanonicalDict(ev)), cfg.maxDepth) then EventItem(ev) else FindingItem(SL001, raw)
  {
    hide CanonicalDict, ParseHeader, ParseEvent, ValidEvent, Within, RaisesTypeError, LooksLikeHeader;
    EventRoundTrip(cfg.rd, ev);
    ParsedDoesNotRaise(cfg.rd, CanonicalDict(ev));
  }

  lemma {:induction false} ParsedDoesNotRaise(rd: Reader, o: map<PyStr, Json>)
    requires ParseEvent(rd, Obj(o)).Some?
    ensures !RaisesTypeError(rd, o)
  {
    hide ParseEvent, RaisesTypeError;
    if RaisesTypeError(rd, o) { TypeErrorRejects(rd, o); }
  }

  // ----- A dumped session -----

  function EventLines(events: seq<Event>): (lines: seq<seq<byte>>)
    requires forall i :: 0 <= i < |events| ==> Encodable(Obj(CanonicalDict(events[i])))
    ensures |lines| == |events|
    ensures forall i :: 0 <= i < |lines| ==> lines[i] == Encode(Print(Obj(CanonicalDict(events[i]))))
  {
    seq(|events|, i requires 0 <= i < |events| => Encode(Print(Obj(CanonicalDict(events[i])))))
  }

  /** The lines of the file `dump_session_file` writes. */
  function DumpLines(s: Session): (lines: seq<seq<byte>>)
    requires AllEncodable(s)
    ensures |lines| == |s.events| + 1
  {
    [Encode(Print(Obj(HeaderDict(s.header))))] + EventLines(s.events)
  }

  /** What the reader gives for the header and for each event. */
  function DumpItem(cfg: Config, s: Session, raw: Raw, i: nat): Item
    requires i <= |s.events|
  {
    if i == 0 then
      if Within(Obj(HeaderDict(s.header)), cfg.maxDepth) then HeaderItem(s.header) else FindingItem(SL001, raw)
    else
      var ev := s.events[i - 1];
      if Within(Obj(CanonicalDict(ev)), cfg.maxDepth) then EventItem(ev) else FindingItem(SL001, raw)
  }

  ghost predicate FitsLimits(cfg: Config, lines: seq<seq<byte>>) {
    && (forall i :: 0 <= i < |lines| ==> |lines[i]| < cfg.maxLine)
    && |Joined(lines)| <= cfg.maxFile && !Over(cfg, |lines|)
  }

  lemma {:induction false} EncodeJoin(texts: seq<string>)
    requires texts != []
    ensures Encode(JoinLf(texts) + "\n") == Joined(seq(|texts|, i requires 0 <= i < |texts| => Encode(texts[i])))
    decreases |texts|
  {
    hide Encode;
    var lines := seq(|texts|, i requires 0 <= i < |texts| => Encode(texts[i]));
    EncodeLf();
    if |texts| == 1 {
      EncodeConcat(texts[0], "\n");
      assert lines[1..] == [];
      assert Joined(lines) == lines[0] + [LF] + [];
    } else {
      var rest := JoinLf(texts[1..]) + "\n";
      assert JoinLf(texts) + "\n" == texts[0] + "\n" + rest;
      EncodeConcat(texts[0] + "\n", rest);
      EncodeConcat(texts[0], "\n");
      EncodeJoin(texts[1..]);
      assert lines[1..] == seq(|texts[1..]|, i requires 0 <= i < |texts[1..]| => Encode(texts[1..][i]));
    }
  }

  lemma {:induction false} EncodeLf()
    ensures Encode("\n") == [LF]
  {
    assert "\n"[1..] == "";
  }

  /** The written file is the encoding of the dumped text. */
  lemma {:induction false} DumpBytes(s: Session)
    requires AllEncodable(s)
    ensures Dump(s).Some? && Encode(Dump(s).value) == Joined(DumpLines(s))
  {
    hide Encode, Print, HeaderDict, CanonicalDict, Encodable;
    var head, texts := Print(Obj(HeaderDict(s.header))), EventTexts(s.events);
    var lines := DumpLines(s);
    EncodeLf();
    EncodeConcat(head, "\n");
    if s.events == [] {
      assert lines[1..] == [];
      assert Joined(lines) == lines[0] + [LF] + [];
    } else {
      var body := JoinLf(texts) + "\n";
      assert Dump(s).value == head + "\n" + body;
      EncodeConcat(head + "\n", body);
      EncodeJoin(texts);
      assert lines[1..] == seq(|texts|, i requires 0 <= i < |texts| => Encode(texts[i]));
    }
  }

  lemma {:induction false} HeaderLine(rd: Reader, h: Header, max: nat)
    requires LawfulHeader(rd.fl, h) && Encodable(Obj(HeaderDict(h))) && |Encode(Print(Obj(HeaderDict(h))))| < max
    ensures GoodLine(Encode(Print(Obj(HeaderDict(h)))), max)
  {
    hide *;
    HDictLawful(rd, h);
    RecordLine(rd.fl, Obj(HeaderDict(h)), max);
  }

  lemma {:induction false} EventLine(rd: Reader, ev: Event, max: nat)
    requires LawfulEvent(rd.fl, ev) && Encodable(Obj(CanonicalDict(ev))) &&
               |Encode(Print(Obj(CanonicalDict(ev))))| < max
    ensures GoodLine(Encode(Print(Obj(CanonicalDict(ev)))), max)
  {
    hide *;
    DictLawful(rd, ev);
    RecordLine(rd.fl, Obj(CanonicalDict(ev)), max);
  }

  /** The record of line `i` of the dumped file. */
  function DumpRecord(s: Session, i: nat): Json
    requires i <= |s.events|
  {
    if i == 0 then Obj(HeaderDict(s.header)) else Obj(CanonicalDict(s.events[i - 1]))
  }

  lemma {:induction false} DumpLineAt(s: Session, i: nat)
    requires AllEncodable(s) && i <= |s.events|
    ensures Encodable(DumpRecord(s, i)) && DumpLines(s)[i] == Encode(Print(DumpRecord(s, i)))
  {
    hide Encode, Print, HeaderDict, CanonicalDict, Encodable, EventLines;
    if i > 0 {
      assert DumpLines(s)[i] == EventLines(s.events)[i - 1];
    }
  }

  lemma {:induction false} ValidAt(rd: Reader, s: Session, i: nat)
    requires ValidSession(rd, s) && 0 < i <= |s.events|
    ensures ValidEvent(rd, s.events[i - 1]) && LawfulEvent(rd.fl, s.events[i - 1])
  {
    hide ValidHeader, LawfulHeader, ValidEvent, LawfulEvent;
  }

  lemma {:induction false} DumpLineIs(rd: Reader, s: Session, i: nat, max: nat)
    requires ValidSession(rd, s) && AllEncodable(s) && i <= |s.events| && |DumpLines(s)[i]| < max
    ensures GoodLine(DumpLines(s)[i], max)
  {
    DumpLineAt(s, i);
    hide Encode, Print, HeaderDict, CanonicalDict, Encodable, GoodLine, DumpLines, AllEncodable, LawfulHeader,
      ValidHeader, ValidEvents;
    if i == 0 {
      HeaderLine(rd, s.header, max);
    } else {
      ValidAt(rd, s, i);
      EventLine(rd, s.events[i - 1], max);
    }
  }

  lemma {:induction false} WrittenHeader(cfg: Config, h: Header, raw: Raw, terminal: bool)
    requires ValidHeader(cfg.rd, h) && LawfulHeader(cfg.rd.fl, h) && Encodable(Obj(HeaderDict(h)))
    requires raw.ordinal == 1 && !raw.truncated && raw.bytes == Encode(Print(Obj(HeaderDict(h)))) + [LF]
    ensures ItemOf(cfg, raw, terminal) ==
            if Within(Obj(HeaderDict(h)), cfg.maxDepth) then HeaderItem(h) else FindingItem(SL001, raw)
  {
    hide *;
    HDictLawful(cfg.rd, h);
    RecordDecodes(cfg, Obj(HeaderDict(h)), raw);
    HeaderLineItem(cfg, h, raw);
  }

  lemma {:induction false} WrittenEvent(cfg: Config, ev: Event, raw: Raw, terminal: bool)
    requires ValidEvent(cfg.rd, ev) && LawfulEvent(cfg.rd.fl, ev) && Encodable(Obj(CanonicalDict(ev)))
    requires raw.ordinal > 1 && !raw.truncated && raw.bytes == Encode(Print(Obj(CanonicalDict(ev)))) + [LF]
    ensures ItemOf(cfg, raw, terminal) ==
            if Within(Obj(CanonicalDict(ev)), cfg.maxDepth) then EventItem(ev) else FindingItem(SL001, raw)
  {
    hide *;
    DictLawful(cfg.rd, ev);
    RecordDecodes(cfg, Obj(CanonicalDict(ev)), raw);
    EventLineItem(cfg, ev, raw);
  }

  lemma {:induction false} DumpItemIs(cfg: Config, s: Session, raw: Raw, i: nat, terminal: bool)
    requires ValidSession(cfg.rd, s) && AllEncodable(s) && i <= |s.events|
    requires raw.ordinal == i + 1 && !raw.truncated && raw.bytes == DumpLines(s)[i] + [LF]
    ensures ItemOf(cfg, raw, terminal) == DumpItem(cfg, s, raw, i)
  {
    DumpLineAt(s, i);
    hide Encode, Print, HeaderDict, CanonicalDict, Encodable, ItemOf, Within, DumpLines, AllEncodable, ValidHeader,
      LawfulHeader, ValidEvents;
    if i == 0 {
      WrittenHeader(cfg, s.header, raw, terminal);
    } else {
      ValidAt(cfg.rd, s, i);
      WrittenEvent(cfg, s.events[i - 1], raw, terminal);
    }
  }

  /** Reading a dumped session within the size limits ends normally and gives, record by record, the header
      and the events; only one that nests deeper than the reader allows is reported instead. */
  lemma {:induction false} ReadDumped(cfg: Config, s: Session, items: seq<Item>, outcome: Outcome)
    requires ValidSession(cfg.rd, s) && AllEncodable(s) && FitsLimits(cfg, DumpLines(s))
    requires var data := Encode(Dump(s).value); RunIs(cfg, |data|, Frame(data, cfg.maxLine), items, outcome)
    ensures outcome == Finished && |items| == |s.events| + 1
    ensures var rs := Frame(Encode(Dump(s).value), cfg.maxLine);
            |rs| == |items| && forall i :: 0 <= i < |items| ==> items[i] == DumpItem(cfg, s, rs[i], i)
  {
    hide *;
    DumpBytes(s);
    var lines := DumpLines(s);
    LimitsAre(cfg, lines);
    forall i | 0 <= i < |lines| ensures GoodLine(lines[i], cfg.maxLine) { DumpLineIs(cfg.rd, s, i, cfg.maxLine); }
    FrameOfFile(lines, cfg.maxLine);
    var rs := Frame(Encode(Dump(s).value), cfg.maxLine);
    forall i, terminal: bool | 0 <= i < |rs| ensures ItemOf(cfg, rs[i], terminal) == DumpItem(cfg, s, rs[i], i) {
      DumpItemIs(cfg, s, rs[i], i, terminal);
    }
    AllRead(cfg, s, rs, items, outcome);
  }

  lemma {:induction false} LimitsAre(cfg: Config, lines: seq<seq<byte>>)
    requires FitsLimits(cfg, lines)
    ensures (forall i :: 0 <= i < |lines| ==> |lines[i]| < cfg.maxLine) && |Joined(lines)| <= cfg.maxFile
    ensures !Over(cfg, |lines|)
  {
    hide Over;
  }

  lemma {:induction false} AllRead(cfg: Config, s: Session, rs: seq<Raw>, items: seq<Item>, outcome: Outcome)
    requires exists size: nat :: size <= cfg.maxFile && RunIs(cfg, size, rs, items, outcome)
    requires !Over(cfg, |rs|) && |rs| == |s.events| + 1
    requires forall i, terminal: bool :: 0 <= i < |rs| ==> ItemOf(cfg, rs[i], terminal) == DumpItem(cfg, s, rs[i], i)
    ensures outcome == Finished && |items| == |rs|
    ensures forall i :: 0 <= i < |items| ==> items[i] == DumpItem(cfg, s, rs[i], i)
  {
    hide Within, HeaderDict, CanonicalDict, ItemOf;
    forall i | 0 <= i < |rs| ensures ItemAt(cfg, rs, i) == DumpItem(cfg, s, rs[i], i) {
      assert ItemOf(cfg, rs[i], i + 1 == |rs|) == DumpItem(cfg, s, rs[i], i);
    }
  }

  /** The reader's depth limit counts the record itself, the parser's counts from the payload: a record is
      read exactly when its payload and its extras leave one level. */
  lemma {:induction false} DepthIff(ev: Event, m: int)
    requires forall k :: k in ev.extra ==> Experimental(k)
    ensures Within(Obj(CanonicalDict(ev)), m) <==>
            m >= 1 && Within(Obj(ev.payload), m - 1) && forall k :: k in ev.extra ==> Within(ev.extra[k], m - 1)
  {
    hide KeyName, FieldNamed, Experimental, CanonicalDict;
    var d := CanonicalDict(ev);
    assert Within(Obj(d), m) <==> m >= 1 && forall k :: k in d ==> Within(d[k], m - 1);
    hide Within;
    PayloadThere(ev);
    forall k | k in ev.extra ensures k in d && d[k] == ev.extra[k] { ExtraThere(ev, k); }
    if Within(Obj(ev.payload), m - 1) && forall k :: k in ev.extra ==> Within(ev.extra[k], m - 1) {
      forall k | k in d ensures Within(d[k], m - 1) { DictEntryDepth(ev, k, m - 1); }
    }
  }

  lemma {:induction false} PayloadThere(ev: Event)
    ensures KeyName(Payload) in CanonicalDict(ev) && CanonicalDict(ev)[KeyName(Payload)] == Obj(ev.payload)
  {
    hide KeyName, CanonicalDict, DictValue, FieldNamed;
    DictField(ev, Payload);
  }

  lemma {:induction false} ExtraThere(ev: Event, k: PyStr)
    requires Experimental(k) && k in ev.extra
    ensures k in CanonicalDict(ev) && CanonicalDict(ev)[k] == ev.extra[k]
  {
    hide KeyName, FieldNamed, Experimental;
    ExperimentalUnknown(k);
  }

  lemma {:induction false} FieldIsScalar(ev: Event, f: Field)
    ensures FieldValue(ev, f).Some? ==>
              !IsContainer(FieldValue(ev, f).value) || FieldValue(ev, f).value == Obj(ev.payload)
  {
  }

  lemma {:induction false} DictEntryDepth(ev: Event, k: PyStr, m: int)
    requires k in CanonicalDict(ev)
    ensures Within(CanonicalDict(ev)[k], m) || CanonicalDict(ev)[k] == Obj(ev.payload)
            || (k in ev.extra && CanonicalDict(ev)[k] == ev.extra[k])
  {
    hide FieldNamed, Experimental, CanonicalDict, FieldValue, Within, IsContainer;
    if FieldNamed(k).Some? { FieldIsScalar(ev, FieldNamed(k).value); }
    if !IsContainer(CanonicalDict(ev)[k]) { ScalarWithin(CanonicalDict(ev)[k], m); }
  }

  /** Lists in lists, `n` deep. */
  function Nest(n: nat): (v: Json)
    ensures n > 0 ==> v.Arr?
  {
    if n == 0 then Null else Arr([Nest(n - 1)])
  }

  lemma {:induction false} NestDepth(n: nat, m: int)
    ensures Within(Nest(n), m) <==> n == 0 || m >= n
  {
    if n > 0 {
      NestDepth(n - 1, m - 1);
      var items := [Nest(n - 1)];
      assert items[0] == Nest(n - 1);
      assert Within(Arr(items), m) <==> m >= 1 && forall i :: 0 <= i < |items| ==> Within(items[i], m - 1);
    }
  }

  /** A plain event whose payload holds lists, `n` deep. */
  function DeepEvent(n: nat): Event {
    PLAIN_EVENT.(payload := map[Name("k") := Nest(n)])
  }

  lemma {:induction false} OneFieldWithin(k: PyStr, v: Json, m: int)
    ensures Within(Obj(map[k := v]), m) <==> m >= 1 && Within(v, m - 1)
  {
    var o := map[k := v];
    assert k in o && o[k] == v;
    assert Within(Obj(o), m) <==> m >= 1 && forall l :: l in o ==> Within(o[l], m - 1);
    hide Within;
  }

  lemma {:induction false} DeepPayload(n: nat, m: int)
    ensures Within(Obj(DeepEvent(n).payload), m) <==> m >= n + 1
  {
    hide Name, PLAIN_EVENT, Nest, Within;
    NestDepth(n, m - 1);
    OneFieldWithin(Name("k"), Nest(n), m);
  }

  /** The parser's and the reader's limit may be the same number but are not the same limit: the deepest
      payload the parser takes makes a record too deep for a reader with that limit. */
  lemma {:induction false} DeepEventUnread(n: nat, m: int)
    ensures ValidateDepth(Obj(DeepEvent(n).payload), 1) <==> n < MAX_PAYLOAD_DEPTH
    ensures Within(Obj(CanonicalDict(DeepEvent(n))), m) <==> n < m - 1
  {
    hide Within, CanonicalDict, Nest, Name;
    DeepPayload(n, MAX_PAYLOAD_DEPTH);
    DeepPayload(n, m - 1);
    ValidateIsWithin(Obj(DeepEvent(n).payload), 1);
    assert DeepEvent(n).extra == map[] by { PlainPayload(); }
    hide DeepEvent, ValidateDepth;
    DepthIff(DeepEvent(n), m);
  }

  // ----- A file on which the reader raises `TypeError` -----

  const PLAIN_EVENT := Event(
    Name("e"), None, 0, NEW_YEAR, Name("user"), Name("message"), map[], None, None, None, None, None, None, None, None,
    None, None, None, None, map[])

  /** An event record whose `actor` is a list. */
  function EscapingRecord(): map<PyStr, Json> {
    CanonicalDict(PLAIN_EVENT)[KeyName(Actor) := Arr([])]
  }

  lemma {:induction false} EscapingField(f: Field)
    ensures Get(EscapingRecord(), f) == if f == Actor then Some(Arr([])) else FieldValue(PLAIN_EVENT, f)
  {
    hide KeyName, CanonicalDict, FieldValue, PLAIN_EVENT;
    DictField(PLAIN_EVENT, f);
    if f != Actor && KeyName(f) == KeyName(Actor) { KeyInjective(f, Actor); }
  }

  lemma {:induction false} EscapingKeys()
    ensures KeysOk(EscapingRecord()) && !LooksLikeHeader(EscapingRecord())
  {
    hide KeyName, CanonicalDict, PLAIN_EVENT, FieldNamed, Experimental, HKeyName;
    DictKeysOk(PLAIN_EVENT);
    FieldNamedIs(Actor);
    HeaderKeyUnknown(SchemaVersion);
    HeaderKeyUnknown(SessionId);
  }

  lemma {:induction false} HeaderKeyUnknown(h: HField)
    requires h == SchemaVersion || h == SessionId
    ensures FieldNamed(HKeyName(h)).None? && !Experimental(HKeyName(h))
  {
    var k := HKeyName(h);
    assert |k| == |HKeyText(h)| && k[0] == 's' as int && EXPERIMENTAL[0] == 'e' as int;
    forall f: Field ensures KeyName(f) != k {
      KeyTagIs(f);
      if KeyName(f) == k { NameInjective(KeyText(f), HKeyText(h)); }
    }
    hide KeyName, KeyText, Name;
  }

  lemma {:induction false} PlainFields()
    ensures FieldValue(PLAIN_EVENT, Id) == Some(Str(Name("e"))) && FieldValue(PLAIN_EVENT, ParentId) == Some(Null)
    ensures FieldValue(PLAIN_EVENT, Seq) == Some(Json.Int(0)) && FieldValue(PLAIN_EVENT, Ts) == Some(Str(NEW_YEAR))
  {
    hide NEW_YEAR, Name;
  }

  lemma {:induction false} EscapingGraph(rd: Reader)
    requires KeysOk(EscapingRecord())
    ensures GraphOk(rd, EscapingRecord())
  {
    hide KeyName, EscapingRecord, ValidTs, KeysOk, NEW_YEAR, PLAIN_EVENT, FieldValue;
    EscapingField(Id); EscapingField(ParentId); EscapingField(Seq); EscapingField(Ts);
    PlainFields();
    NewYearIsValid();
    assert Name("e")[0] == 'e' as int;
    hide Name;
    RequiredThere(EscapingRecord());
  }

  lemma {:induction false} EscapingRaises(rd: Reader)
    ensures RaisesTypeError(rd, EscapingRecord())
  {
    hide KeyName, EscapingRecord, KeysOk, GraphOk, RaisesTypeError;
    EscapingKeys();
    EscapingGraph(rd);
    EscapingField(Actor);
    UnhashableActorRaises(rd, EscapingRecord());
  }

  lemma {:induction false} PlainLawful(fl: FloatReader)
    ensures Encodable(Obj(CanonicalDict(PLAIN_EVENT))) && Lawful(fl, Obj(CanonicalDict(PLAIN_EVENT)))
  {
    hide KeyName, FieldNamed, Name, Experimental, NEW_YEAR;
    var d := CanonicalDict(PLAIN_EVENT);
    DictLawful(Reader(fl), PLAIN_EVENT);
    forall k | k in d ensures Clean(k) && Encodable(d[k]) { PlainEntry(k); }
    hide Lawful, CanonicalDict;
  }

  lemma {:induction false} PlainValue(f: Field)
    ensures FieldValue(PLAIN_EVENT, f).Some? ==> Encodable(FieldValue(PLAIN_EVENT, f).value)
  {
    assert Clean(NEW_YEAR);
    hide NEW_YEAR, Name, Clean;
  }

  lemma {:induction false} PlainEntry(k: PyStr)
    requires k in CanonicalDict(PLAIN_EVENT)
    ensures Clean(k) && Encodable(CanonicalDict(PLAIN_EVENT)[k])
  {
    hide Experimental, CanonicalDict, PLAIN_EVENT, FieldNamed, FieldValue, Encodable, Clean;
    PlainPayload();
    NamedIs(k);
    PlainValue(FieldNamed(k).value);
  }

  lemma {:induction false} NamedIs(k: PyStr)
    ensures FieldNamed(k).Some? ==> KeyName(FieldNamed(k).value) == k && Clean(k)
  {
    hide KeyText;
  }

  lemma {:induction false} Replaced(fl: FloatReader, d: map<PyStr, Json>, k: PyStr)
    requires Encodable(Obj(d)) && Lawful(fl, Obj(d)) && Clean(k)
    ensures var e := Obj(d[k := Arr([])]);
            && Encodable(e) && Lawful(fl, e)
            && forall m :: m >= 2 && Within(Obj(d), m) ==> Within(e, m)
  {
    var e := d[k := Arr([])];
    assert Encodable(Arr([])) && Lawful(fl, Arr([]));
    assert (forall l :: l in d ==> Clean(l) && Encodable(d[l]) && Lawful(fl, d[l]));
    assert (forall l :: l in e ==> Clean(l) && Encodable(e[l]) && Lawful(fl, e[l]));
    hide Clean;
    forall m | m >= 2 && Within(Obj(d), m) ensures Within(Obj(e), m) {
      assert forall l :: l in d ==> Within(d[l], m - 1);
      assert Within(Arr([]), m - 1);
    }
  }

  lemma {:induction false} EscapingEncodable(fl: FloatReader)
    ensures Encodable(Obj(EscapingRecord())) && Lawful(fl, Obj(EscapingRecord()))
  {
    hide KeyName, CanonicalDict, PLAIN_EVENT, Encodable, Lawful, Within;
    PlainLawful(fl);
    KeyClean(Actor);
    Replaced(fl, CanonicalDict(PLAIN_EVENT), KeyName(Actor));
  }

  /** The line of that record. */
  function EscapingLine(): (line: seq<byte>)
    ensures Encodable(Obj(EscapingRecord())) && line == Encode(Print(Obj(EscapingRecord())))
  {
    EscapingEncodable(_ => None);
    Encode(Print(Obj(EscapingRecord())))
  }

  lemma {:induction false} KeyClean(f: Field)
    ensures Clean(KeyName(f))
  {
    hide KeyText;
  }

  lemma {:induction false} EscapingDepth(m: int)
    requires m >= 2
    ensures Within(Obj(EscapingRecord()), m)
  {
    hide KeyName, CanonicalDict, PLAIN_EVENT, Encodable, Lawful;
    var none: map<PyStr, Json> := map[];
    assert Within(Obj(none), m - 1);
    hide Within;
    PlainPayload();
    DepthIff(PLAIN_EVENT, m);
    PlainLawful(_ => None);
    KeyClean(Actor);
    Replaced(_ => None, CanonicalDict(PLAIN_EVENT), KeyName(Actor));
  }

  lemma {:induction false} PlainPayload()
    ensures PLAIN_EVENT.payload == map[] && PLAIN_EVENT.extra == map[]
  {
    hide Name, NEW_YEAR;
  }

  /** The reader stops on a file that holds this one line, whatever its limits allow beyond it. */
  lemma {:induction false} EscapingFile(cfg: Config, items: seq<Item>, outcome: Outcome)
    requires cfg.maxDepth >= 2 && |EscapingLine()| < cfg.maxLine && |EscapingLine()| < cfg.maxFile && !Over(cfg, 1)
    requires var data := EscapingLine() + [LF]; RunIs(cfg, |data|, Frame(data, cfg.maxLine), items, outcome)
    ensures outcome == TypeError && items == []
  {
    var v := Obj(EscapingRecord());
    hide *;
    var line := EscapingLine();
    var data := line + [LF];
    EscapingEncodable(cfg.rd.fl);
    EscapingLineIs(cfg.rd.fl, cfg.maxLine);
    OneLineFile(line);
    FrameOfFile([line], cfg.maxLine);
    var rs := Frame(data, cfg.maxLine);
    EscapingDepth(cfg.maxDepth);
    EscapingKeys();
    EscapingRaises(cfg.rd);
    RecordDecodes(cfg, v, rs[0]);
    LetsEscape(cfg, rs[0], v);
    TypeErrorIff(cfg, |data|, rs, items, outcome);
    NothingBefore(cfg, |data|, rs, items, outcome);
  }

  lemma {:induction false} EscapingLineIs(fl: FloatReader, max: nat)
    requires |EscapingLine()| < max
    ensures GoodLine(EscapingLine(), max)
  {
    hide Print, EscapingRecord, GoodLine, Encode;
    EscapingEncodable(fl);
    RecordLine(fl, Obj(EscapingRecord()), max);
  }

  lemma {:induction false} OneLineFile(line: seq<byte>)
    ensures Joined([line]) == line + [LF]
    ensures var rs := RawLines([line], 0, 1);
            |rs| == 1 && rs[0].ordinal == 1 && !rs[0].truncated && rs[0].bytes == line + [LF]
  {
    assert [line][1..] == [];
    assert Joined([line]) == line + [LF] + [];
  }

  lemma {:induction false} LetsEscape(cfg: Config, raw: Raw, v: Json)
    requires DecodesTo(cfg, raw, v) && v.Obj? && Within(v, cfg.maxDepth) && !LooksLikeHeader(v.fields)
    requires RaisesTypeError(cfg.rd, v.fields)
    ensures Escapes(cfg, raw)
  {
    hide DecodesTo, Within, LooksLikeHeader, RaisesTypeError;
  }

  lemma {:induction false} NothingBefore(cfg: Config, size: nat, rs: seq<Raw>, items: seq<Item>, outcome: Outcome)
    requires RunIs(cfg, size, rs, items, outcome) && |rs| == 1 && outcome == TypeError
    ensures items == []
  {
    hide ItemOf, Over, Fitting;
  }
}
