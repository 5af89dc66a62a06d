/** Writing a session and reading it back. */
module SessionRoundTrip {
  import opened Options
  import opened PyText
  import opened JsonValues
  import opened JsonPrinter
  import opened JsonParser
  import opened JsonRoundTrip
  import opened PyLines
  import opened Depth
  import opened Timestamps
  import opened SessionModel
  import SealCrash

  // ----- Events -----

  /** What the event parser guarantees of its result. */
  ghost predicate ValidEvent(rd: Reader, ev: Event) {
    && !BlankStr(ev.id)
    && (ev.parentId.Some? ==> !BlankStr(ev.parentId.value) && ev.parentId.value != ev.id)
    && ev.seqNo >= 0 && ValidTs(ev.ts) && ev.actor in VALID_ACTORS && ev.kind in VALID_KINDS
    && ValidateDepth(Obj(ev.payload), 1)
    && (ev.executionState.Some? ==> ev.executionState.value in VALID_STATES)
    && (ev.sourceLine.Some? ==> ev.sourceLine.value >= 1)
    && (ev.sideEffects.Some? ==> ev.sideEffects.value in VALID_SIDE_EFFECTS)
    && (ev.sideEffects.None? ==> ReadEffects(None, ev.payload) == Some(None))
    && (forall k :: k in ev.extra ==> Experimental(k))
  }

  ghost predicate LawfulEvent(fl: FloatReader, ev: Event) {
    && (forall k :: k in ev.payload ==> Lawful(fl, ev.payload[k]))
    && (forall k :: k in ev.extra ==> Lawful(fl, ev.extra[k]))
  }

  lemma {:induction false} ParsedEventIsValid(rd: Reader, v: Json)
    ensures ParseEvent(rd, v).Some? ==> ValidEvent(rd, ParseEvent(rd, v).value)
  {
    hide ParseEvent, ValidateDepth, FieldNamed, Experimental, BlankStr, ReadEffects;
    if ParseEvent(rd, v).Some? {
      ParsedMandatory(rd, v);
      ParsedChecked(rd, v);
      ParsedExtra(rd, v);
    }
  }

  lemma {:induction false} ParsedMandatory(rd: Reader, v: Json)
    requires ParseEvent(rd, v).Some?
    ensures var ev := ParseEvent(rd, v).value;
            && !BlankStr(ev.id)
            && (ev.parentId.Some? ==> !BlankStr(ev.parentId.value) && ev.parentId.value != ev.id)
            && ev.seqNo >= 0 && ValidTs(ev.ts) && ev.actor in VALID_ACTORS && ev.kind in VALID_KINDS
            && ValidateDepth(Obj(ev.payload), 1)
  {
    hide KeyName, ValidateDepth, Name, KeysOk, OptionalOk, BlankStr, ReadStr, ReadState, ReadLine, ReadEffects, Get,
      ExtraFields;
    RequiredThere(v.fields);
  }

  lemma {:induction false} ParsedChecked(rd: Reader, v: Json)
    requires ParseEvent(rd, v).Some?
    ensures var ev := ParseEvent(rd, v).value;
            && (ev.executionState.Some? ==> ev.executionState.value in VALID_STATES)
            && (ev.sourceLine.Some? ==> ev.sourceLine.value >= 1)
            && (ev.sideEffects.Some? ==> ev.sideEffects.value in VALID_SIDE_EFFECTS)
            && (ev.sideEffects.None? ==> ReadEffects(None, ev.payload) == Some(None))
  {
    hide KeyName, ValidateDepth, Name, KeysOk, BlankStr, ReadParent, Get, ExtraFields;
    RequiredThere(v.fields);
    var o := v.fields;
    StateRead(Get(o, ExecutionState));
    LineRead(Get(o, SourceLine));
    EffectsRead(Get(o, SideEffects), o[KeyName(Payload)].fields);
    hide ReadStr, ReadState, ReadLine, ReadEffects;
  }

  lemma {:induction false} StateRead(v: Option<Json>)
    ensures ReadState(v).Some? && ReadState(v).value.Some? ==> ReadState(v).value.value in VALID_STATES
  {
    hide Name;
  }

  lemma {:induction false} LineRead(v: Option<Json>)
    ensures ReadLine(v).Some? && ReadLine(v).value.Some? ==> ReadLine(v).value.value >= 1
  {
  }

  lemma {:induction false} EffectsRead(v: Option<Json>, payload: map<PyStr, Json>)
    ensures ReadEffects(v, payload).Some? && ReadEffects(v, payload).value.Some? ==>
              ReadEffects(v, payload).value.value in VALID_SIDE_EFFECTS
    ensures ReadEffects(v, payload) == Some(None) ==> ReadEffects(None, payload) == Some(None)
  {
    hide Name, KeyName;
  }

  lemma {:induction false} ParsedExtra(rd: Reader, v: Json)
    requires ParseEvent(rd, v).Some?
    ensures forall k :: k in ParseEvent(rd, v).value.extra ==> Experimental(k)
  {
    hide KeyName, ValidateDepth, Name, OptionalOk, BlankStr, ReadStr, ReadState, ReadLine, ReadEffects, ReadParent, Get,
      MandatoryOk, FieldNamed, Experimental, Required;
    RequiredThere(v.fields);
  }

  lemma {:induction false} ParsedEventIsLawful(rd: Reader, v: Json)
    requires Lawful(rd.fl, v)
    ensures ParseEvent(rd, v).Some? ==> LawfulEvent(rd.fl, ParseEvent(rd, v).value)
  {
    hide KeyName, FieldNamed, ValidateDepth, Name, Experimental, KeysOk, OptionalOk, ReadStr, ReadEffects, ReadState;
    if ParseEvent(rd, v).Some? {
      RequiredThere(v.fields);
      var payload := v.fields[KeyName(Payload)];
      assert Lawful(rd.fl, payload);
    }
  }

  /** A record that makes the parser raise `TypeError` is one it does not accept. */
  lemma {:induction false} TypeErrorRejects(rd: Reader, o: map<PyStr, Json>)
    requires RaisesTypeError(rd, o)
    ensures ParseEvent(rd, Obj(o)).None?
  {
    hide KeyName, KeysOk, ValidateDepth, Name, BlankStr, ReadParent, ReadLine, ExtraFields, Get;
    RequiredThere(o);
  }

  /** There are such records: any list or object as `actor`, behind valid graph fields. */
  lemma {:induction false} UnhashableActorRaises(rd: Reader, o: map<PyStr, Json>)
    requires KeysOk(o) && GraphOk(rd, o) && Get(o, Actor).Some? && Unhashable(Get(o, Actor).value)
    ensures RaisesTypeError(rd, o)
  {
    hide KeyName, KeysOk, GraphOk, LinksOk, SourceOk, ValidateDepth;
    RequiredThere(o);
  }

  lemma {:induction false} DictField(ev: Event, f: Field)
    ensures Get(CanonicalDict(ev), f) == FieldValue(ev, f)
  {
    hide KeyName, FieldNamed;
    FieldNamedIs(f);
  }

  lemma {:induction false} DictKeysOk(ev: Event)
    ensures KeysOk(CanonicalDict(ev))
  {
    hide KeyName, FieldNamed, CanonicalDict, Experimental;
    forall f | f in ALL_FIELDS && Required(f) ensures KeyName(f) in CanonicalDict(ev) {
      DictField(ev, f);
      assert Get(CanonicalDict(ev), f).Some?;
    }
  }

  /** The dictionary's other fields are exactly the extras of a parsed event. */
  lemma {:induction false} DictExtra(rd: Reader, ev: Event)
    requires ValidEvent(rd, ev)
    ensures ExtraFields(CanonicalDict(ev)) == ev.extra
  {
    hide KeyName, FieldNamed, Experimental, FieldValue, ValidateDepth, BlankStr, ReadEffects;
    var o := CanonicalDict(ev);
    forall k | k in ev.extra ensures FieldNamed(k).None? { ExperimentalUnknown(k); }
    assert forall k :: k in o && FieldNamed(k).None? ==> k in ev.extra && o[k] == ev.extra[k];
    assert forall k :: k in ev.extra ==> k in o && FieldNamed(k).None?;
  }

  lemma {:induction false} MandatoryReads(rd: Reader, ev: Event)
    requires ValidEvent(rd, ev) && KeysOk(CanonicalDict(ev))
    ensures MandatoryOk(rd, CanonicalDict(ev))
    ensures Mandatory(CanonicalDict(ev), ev)
  {
    hide KeyName, FieldNamed, CanonicalDict, Experimental, ValidateDepth, BlankStr, Name, ReadEffects, KeysOk,
      FieldValue;
    MandatoryFields(ev);
    MandatoryChecks(rd, CanonicalDict(ev), ev);
  }

  /** What `o` holds under the required fields. */
  ghost predicate Mandatory(o: map<PyStr, Json>, ev: Event) {
    && Get(o, Id) == Some(Str(ev.id))
    && Get(o, ParentId) == Some(if ev.parentId.Some? then Str(ev.parentId.value) else Null)
    && Get(o, Seq) == Some(Json.Int(ev.seqNo))
    && Get(o, Ts) == Some(Str(ev.ts))
    && Get(o, Actor) == Some(Str(ev.actor))
    && Get(o, Kind) == Some(Str(ev.kind))
    && Get(o, Payload) == Some(Obj(ev.payload))
  }

  lemma {:induction false} MandatoryFields(ev: Event)
    ensures Mandatory(CanonicalDict(ev), ev)
  {
    hide CanonicalDict, Get;
    DictField(ev, Id); DictField(ev, ParentId); DictField(ev, Seq); DictField(ev, Ts);
    DictField(ev, Actor); DictField(ev, Kind); DictField(ev, Payload);
  }

  lemma {:induction false} MandatoryChecks(rd: Reader, o: map<PyStr, Json>, ev: Event)
    requires ValidEvent(rd, ev) && KeysOk(o) && Mandatory(o, ev)
    ensures MandatoryOk(rd, o)
  {
    hide KeyName, FieldNamed, Experimental, ValidateDepth, BlankStr, Name, ReadEffects, KeysOk;
  }

  predicate StrField(f: Field) {
    match f
    case ContentHash => true
    case CorrelationId => true
    case BranchId => true
    case InteractionId => true
    case AgentId => true
    case SourceRecordHash => true
    case OriginalId => true
    case SourceAdapter => true
    case SourceLocation => true
    case _ => false
  }

  /** The plain optional string under a field. */
  function StrOf(ev: Event, f: Field): Option<PyStr>
    requires StrField(f)
  {
    match f
    case ContentHash => ev.contentHash
    case CorrelationId => ev.correlationId
    case BranchId => ev.branchId
    case InteractionId => ev.interactionId
    case AgentId => ev.agentId
    case SourceRecordHash => ev.sourceRecordHash
    case OriginalId => ev.originalId
    case SourceAdapter => ev.sourceAdapter
    case SourceLocation => ev.sourceLocation
  }

  lemma {:induction false} StrReads(ev: Event, f: Field)
    requires StrField(f)
    ensures ReadStr(Get(CanonicalDict(ev), f)) == Some(StrOf(ev, f))
  {
    hide CanonicalDict, Get;
    DictField(ev, f);
  }

  ghost predicate StrFields(o: map<PyStr, Json>, ev: Event) {
    && ReadStr(Get(o, ContentHash)) == Some(ev.contentHash)
    && ReadStr(Get(o, CorrelationId)) == Some(ev.correlationId)
    && ReadStr(Get(o, BranchId)) == Some(ev.branchId)
    && ReadStr(Get(o, InteractionId)) == Some(ev.interactionId)
    && ReadStr(Get(o, AgentId)) == Some(ev.agentId)
    && ReadStr(Get(o, SourceRecordHash)) == Some(ev.sourceRecordHash)
    && ReadStr(Get(o, OriginalId)) == Some(ev.originalId)
    && ReadStr(Get(o, SourceAdapter)) == Some(ev.sourceAdapter)
    && ReadStr(Get(o, SourceLocation)) == Some(ev.sourceLocation)
  }

  lemma {:induction false} CheckedReads(rd: Reader, ev: Event)
    requires ValidEvent(rd, ev)
    ensures var o := CanonicalDict(ev);
            && ReadState(Get(o, ExecutionState)) == Some(ev.executionState)
            && ReadLine(Get(o, SourceLine)) == Some(ev.sourceLine)
            && ReadEffects(Get(o, SideEffects), ev.payload) == Some(ev.sideEffects)
  {
    hide KeyName, FieldNamed, CanonicalDict, Experimental, ValidateDepth, BlankStr, Name, Get;
    DictField(ev, ExecutionState); DictField(ev, SourceLine); DictField(ev, SideEffects);
  }

  lemma {:induction false} OptionalReads(rd: Reader, ev: Event)
    requires ValidEvent(rd, ev)
    ensures OptionalOk(CanonicalDict(ev), ev.payload)
    ensures StrFields(CanonicalDict(ev), ev)
  {
    hide CanonicalDict, Get, ReadStr, ReadState, ReadLine, ReadEffects, ValidEvent;
    StrReads(ev, ContentHash); StrReads(ev, CorrelationId); StrReads(ev, BranchId); StrReads(ev, InteractionId);
    StrReads(ev, AgentId); StrReads(ev, SourceRecordHash); StrReads(ev, OriginalId); StrReads(ev, SourceAdapter);
    StrReads(ev, SourceLocation);
    CheckedReads(rd, ev);
  }

  /** Parsing the dictionary of a parsed event gives the event back. */
  lemma {:induction false} EventRoundTrip(rd: Reader, ev: Event)
    requires ValidEvent(rd, ev)
    ensures ParseEvent(rd, Obj(CanonicalDict(ev))) == Some(ev)
  {
    hide *;
    DictKeysOk(ev);
    MandatoryReads(rd, ev);
    OptionalReads(rd, ev);
    CheckedReads(rd, ev);
    DictExtra(rd, ev);
    ParentReads(rd, ev, CanonicalDict(ev));
    EventOf(rd, CanonicalDict(ev), ev);
  }

  lemma {:induction false} ParentReads(rd: Reader, ev: Event, o: map<PyStr, Json>)
    requires ValidEvent(rd, ev) && Mandatory(o, ev)
    ensures Get(o, ParentId).Some? && ReadParent(Get(o, ParentId).value, ev.id) == Some(ev.parentId)
  {
    hide Get, BlankStr, FieldNamed, Experimental, ReadEffects, ValidateDepth;
  }

  /** The event the parser builds from what it reads. */
  lemma {:induction false} EventOf(rd: Reader, o: map<PyStr, Json>, ev: Event)
    requires KeysOk(o) && MandatoryOk(rd, o) && OptionalOk(o, ev.payload) && Mandatory(o, ev)
    requires ReadParent(Get(o, ParentId).value, ev.id) == Some(ev.parentId)
    requires StrFields(o, ev)
    requires ReadState(Get(o, ExecutionState)) == Some(ev.executionState)
    requires ReadLine(Get(o, SourceLine)) == Some(ev.sourceLine)
    requires ReadEffects(Get(o, SideEffects), ev.payload) == Some(ev.sideEffects)
    requires ExtraFields(o) == ev.extra
    ensures ParseEvent(rd, Obj(o)) == Some(ev)
  {
    hide OptionalOk, ExtraFields, KeyName, ReadStr, ReadState, ReadLine, ReadEffects, ReadParent, KeysOk, MandatoryOk;
    RequiredThere(o);
  }

  lemma {:induction false} DictLawful(rd: Reader, ev: Event)
    requires LawfulEvent(rd.fl, ev)
    ensures Lawful(rd.fl, Obj(CanonicalDict(ev)))
  {
    hide KeyName, FieldNamed, Experimental;
    var o := CanonicalDict(ev);
    forall k | k in o ensures Lawful(rd.fl, o[k]) {
      assert DictValue(ev, k) == Some(o[k]);
    }
  }

  // ----- Headers -----

  ghost predicate ValidHeader(rd: Reader, h: Header) {
    && !BlankStr(h.sessionId) && ValidTs(h.createdAt)
    && ValidateDepth(Obj(h.metadata), 1)
    && (h.source.Some? ==> h.source.value.Str? || (h.source.value.Obj? && ValidateDepth(h.source.value, 1)))
    && (forall k :: k in h.extra ==> Experimental(k))
  }

  ghost predicate LawfulHeader(fl: FloatReader, h: Header) {
    && (forall k :: k in h.metadata ==> Lawful(fl, h.metadata[k]))
    && (h.source.Some? ==> Lawful(fl, h.source.value))
    && (forall k :: k in h.extra ==> Lawful(fl, h.extra[k]))
  }

  lemma {:induction false} ParsedHeaderIsValid(rd: Reader, v: Json)
    ensures ParseHeader(rd, v).Some? ==> ValidHeader(rd, ParseHeader(rd, v).value)
  {
    hide HKeyName, HFieldNamed, Name, Experimental;
    var none: map<PyStr, Json> := map[];
    assert ValidateDepth(Obj(none), 1);
    hide ValidateDepth;
  }

  lemma {:induction false} ParsedHeaderIsLawful(rd: Reader, v: Json)
    requires Lawful(rd.fl, v)
    ensures ParseHeader(rd, v).Some? ==> LawfulHeader(rd.fl, ParseHeader(rd, v).value)
  {
    hide HKeyName, HFieldNamed, ValidateDepth, Name, Experimental;
  }

  lemma {:induction false} HDictField(h: Header, f: HField)
    ensures HGet(HeaderDict(h), f) == HFieldValue(h, f)
  {
    hide HKeyName, HFieldNamed;
    HFieldNamedIs(f);
  }

  lemma {:induction false} HDictExtra(rd: Reader, h: Header)
    requires ValidHeader(rd, h)
    ensures HExtraFields(HeaderDict(h)) == h.extra
    ensures forall k :: k in HeaderDict(h) ==> HFieldNamed(k).Some? || Experimental(k)
  {
    hide HKeyName, HFieldNamed, Experimental, HFieldValue, ValidateDepth, BlankStr;
    var o := HeaderDict(h);
    forall k | k in h.extra ensures HFieldNamed(k).None? { HExperimentalUnknown(k); }
    assert forall k :: k in o && HFieldNamed(k).None? ==> k in h.extra && o[k] == h.extra[k];
    assert forall k :: k in h.extra ==> k in o && HFieldNamed(k).None?;
  }

  lemma {:induction false} HeaderRoundTrip(rd: Reader, h: Header)
    requires ValidHeader(rd, h)
    ensures ParseHeader(rd, Obj(HeaderDict(h))) == Some(h)
  {
    hide *;
    HDictExtra(rd, h);
    HeaderReads(rd, h);
    HeaderOf(rd, HeaderDict(h), h);
  }

  /** The header the parser builds from what it reads. */
  lemma {:induction false} HeaderOf(rd: Reader, o: map<PyStr, Json>, h: Header)
    requires ValidHeader(rd, h)
    requires forall k :: k in o ==> HFieldNamed(k).Some? || Experimental(k)
    requires HExtraFields(o) == h.extra
    requires HGet(o, SchemaVersion) == Some(Str(SCHEMA_VERSION))
    requires HGet(o, SessionId) == Some(Str(h.sessionId))
    requires HGet(o, CreatedAt) == Some(Str(h.createdAt))
    requires ReadStr(HGet(o, Title)) == Some(h.title)
    requires ReadMetadata(HGet(o, Metadata)) == Some(h.metadata)
    requires ReadSource(HGet(o, Source)) == Some(h.source)
    requires ReadVersion(HGet(o, Version)) == Some(h.version)
    ensures ParseHeader(rd, Obj(o)) == Some(h)
  {
    hide HFieldNamed, Experimental, ValidateDepth, BlankStr, Name, HGet, ReadStr, ReadMetadata, ReadSource, ReadVersion,
      HExtraFields;
  }

  lemma {:induction false} HeaderReads(rd: Reader, h: Header)
    requires ValidHeader(rd, h)
    ensures var o := HeaderDict(h);
            && HGet(o, SchemaVersion) == Some(Str(SCHEMA_VERSION))
            && HGet(o, SessionId) == Some(Str(h.sessionId))
            && HGet(o, CreatedAt) == Some(Str(h.createdAt))
            && ReadStr(HGet(o, Title)) == Some(h.title)
            && ReadMetadata(HGet(o, Metadata)) == Some(h.metadata)
            && ReadSource(HGet(o, Source)) == Some(h.source)
            && ReadVersion(HGet(o, Version)) == Some(h.version)
  {
    HDictField(h, SchemaVersion); HDictField(h, SessionId); HDictField(h, CreatedAt); HDictField(h, Title);
    HDictField(h, Metadata); HDictField(h, Source); HDictField(h, Version);
    hide HKeyName, HFieldNamed, HeaderDict, Experimental, ValidateDepth, BlankStr, Name, HGet;
  }

  lemma {:induction false} HDictLawful(rd: Reader, h: Header)
    requires LawfulHeader(rd.fl, h)
    ensures Lawful(rd.fl, Obj(HeaderDict(h)))
  {
    hide HKeyName, HFieldNamed, Experimental;
    var o := HeaderDict(h);
    forall k | k in o ensures Lawful(rd.fl, o[k]) {
      assert HDictValue(h, k) == Some(o[k]);
    }
  }

  // ----- Sessions -----

  ghost predicate ValidSession(rd: Reader, s: Session) {
    && ValidHeader(rd, s.header) && LawfulHeader(rd.fl, s.header)
    && ValidEvents(rd, s.events)
  }

  ghost predicate ValidEvents(rd: Reader, events: seq<Event>) {
    && (forall i :: 0 <= i < |events| ==> ValidEvent(rd, events[i]) && LawfulEvent(rd.fl, events[i]))
    && (forall i, j :: 0 <= i < j < |events| ==> events[i].id != events[j].id)
  }

  lemma {:induction false} ValidMore(rd: Reader, events: seq<Event>, ev: Event)
    requires ValidEvents(rd, events) && ValidEvent(rd, ev) && LawfulEvent(rd.fl, ev) && ev.id !in Ids(events)
    ensures ValidEvents(rd, events + [ev])
  {
    hide ValidEvent, LawfulEvent;
    assert forall i :: 0 <= i < |events| ==> events[i].id in Ids(events);
  }

  ghost predicate ValidProgress(rd: Reader, st: Progress) {
    && ValidEvents(rd, st.events)
    && (st.header.Some? ==> ValidHeader(rd, st.header.value) && LawfulHeader(rd.fl, st.header.value))
  }

  /** Every session the line parser accepts is valid. */
  lemma {:induction false} ReadAllValid(rd: Reader, st: Progress, lines: seq<string>)
    requires LawfulReader(rd.fl)
    requires ValidProgress(rd, st)
    ensures var r := ReadAll(rd, st, lines);
            r.Some? ==> ValidProgress(rd, r.value)
    decreases |lines|
  {
    hide ValidProgress, LawfulReader, ReadOne;
    if lines != [] && ReadOne(rd, st, lines[0]).Some? {
      ReadOneValid(rd, st, lines[0]);
      ReadAllValid(rd, ReadOne(rd, st, lines[0]).value, lines[1..]);
    }
  }

  lemma {:induction false} ReadOneValid(rd: Reader, st: Progress, line: string)
    requires LawfulReader(rd.fl)
    requires ValidProgress(rd, st)
    ensures var r := ReadOne(rd, st, line);
            r.Some? ==> ValidProgress(rd, r.value)
  {
    hide ValidEvents, ValidHeader, LawfulHeader, LawfulReader, Loads, ParseEvent, ParseHeader, Lawful, ValidEvent,
      LawfulEvent;
    var stripped := Strip(line);
    LoadsLawful(rd.fl, stripped);
    if Loads(rd.fl, stripped).Some? {
      var v := Loads(rd.fl, stripped).value;
      ParsedHeaderIsValid(rd, v);
      ParsedHeaderIsLawful(rd, v);
      ParsedEventIsValid(rd, v);
      ParsedEventIsLawful(rd, v);
      if ParseEvent(rd, v).Some? && ParseEvent(rd, v).value.id !in Ids(st.events) {
        ValidMore(rd, st.events, ParseEvent(rd, v).value);
      }
    }
  }

  lemma {:induction false} ParsedLinesValid(rd: Reader, lines: seq<string>)
    requires LawfulReader(rd.fl) && ParseLines(rd, lines).Some?
    ensures ValidSession(rd, ParseLines(rd, lines).value) && ParseLines(rd, lines).value.extra == map[]
  {
    hide ReadAll, ValidHeader, LawfulHeader, LawfulReader, ValidEvent;
    ReadAllValid(rd, Progress(None, []), lines);
  }

  // ----- The lines of a dumped session -----

  /** The canonical text of an object is one line with nothing to strip. */
  ghost predicate ObjectText(t: string) {
    t != "" && t[0] == '{' && t[|t| - 1] == '}' && SealCrash.NoControl(t)
  }

  lemma {:induction false} FieldsTextEnds(v: Json, keys: seq<PyStr>)
    requires v.Obj? && Encodable(v) && (forall k :: k in keys ==> k in v.fields)
    ensures var t := FieldsText(v, keys); t != "" && t[|t| - 1] == '}'
    decreases |keys|
  {
    hide Print, StringText, Encodable;
    if |keys| > 1 { FieldsTextEnds(v, keys[1..]); }
  }

  lemma {:induction false} PrintedObject(fl: FloatReader, v: Json)
    requires v.Obj? && Encodable(v) && Lawful(fl, v)
    ensures ObjectText(Print(v))
  {
    SealCrash.PrintNoControl(fl, v);
    FieldsTextEnds(v, SortedKeys(v.fields.Keys));
    hide FieldsText, SortedKeys, SealCrash.NoControl;
  }

  lemma {:induction false} NothingToStrip(t: string)
    requires t != "" && !PySpace(t[0]) && !PySpace(t[|t| - 1])
    ensures Strip(t) == t && Strip(t + "\n") == t
  {
    hide PySpace;
    assert (t + "\n")[0] == t[0];
    assert PySpace('\n') by { EmptyAndLf(); }
    assert (t + "\n")[..|t + "\n"| - 1] == t;
    assert RStrip(t + "\n") == RStrip(t);
  }

  lemma {:induction false} EmptyAndLf()
    ensures PySpace('\n') && Strip("") == ""
  {
  }

  /** A header line and event lines, each as the writer makes them. */
  lemma {:induction false} ReadHeaderLine(rd: Reader, h: Header)
    requires ValidHeader(rd, h) && LawfulHeader(rd.fl, h) && Encodable(Obj(HeaderDict(h)))
    ensures ReadOne(rd, Progress(None, []), Print(Obj(HeaderDict(h)))) == Some(Progress(Some(h), []))
  {
    var v := Obj(HeaderDict(h));
    HDictLawful(rd, h);
    PrintedObject(rd.fl, v);
    NothingToStrip(Print(v));
    LoadsPrinted(rd.fl, v);
    HeaderRoundTrip(rd, h);
    hide Loads, ParseHeader, Print, HeaderDict, Strip, Lawful, LawfulHeader, ValidHeader, Encodable,
      SealCrash.NoControl;
  }

  lemma {:induction false} EventText(rd: Reader, ev: Event)
    requires LawfulEvent(rd.fl, ev) && Encodable(Obj(CanonicalDict(ev)))
    ensures var t := Print(Obj(CanonicalDict(ev)));
            Strip(t) == t && t != "" && Loads(rd.fl, t) == Some(Obj(CanonicalDict(ev)))
  {
    var v := Obj(CanonicalDict(ev));
    hide Loads, Print, CanonicalDict, Strip, Lawful, LawfulEvent, Encodable, SealCrash.NoControl;
    DictLawful(rd, ev);
    PrintedObject(rd.fl, v);
    NothingToStrip(Print(v));
    LoadsPrinted(rd.fl, v);
  }

  lemma {:induction false} ReadEventLine(rd: Reader, st: Progress, ev: Event)
    requires ValidEvent(rd, ev) && LawfulEvent(rd.fl, ev) && Encodable(Obj(CanonicalDict(ev)))
    requires st.header.Some? && ev.id !in Ids(st.events)
    ensures ReadOne(rd, st, Print(Obj(CanonicalDict(ev)))) == Some(st.(events := st.events + [ev]))
  {
    hide Loads, ParseEvent, Print, CanonicalDict, Strip, LawfulEvent, ValidEvent, Encodable, Ids;
    EventText(rd, ev);
    EventRoundTrip(rd, ev);
  }

  lemma {:induction false} ReadEventLines(rd: Reader, h: Header, events: seq<Event>, n: nat)
    requires ValidEvents(rd, events) && n <= |events|
    requires forall i :: 0 <= i < |events| ==> Encodable(Obj(CanonicalDict(events[i])))
    ensures ReadAll(rd, Progress(Some(h), events[..n]), EventTexts(events)[n..] + [""]) ==
            Some(Progress(Some(h), events))
    decreases |events| - n
  {
    hide ReadOne, Print, CanonicalDict, Encodable, ValidEvent, LawfulEvent;
    var st, lines := Progress(Some(h), events[..n]), EventTexts(events)[n..] + [""];
    if n == |events| {
      assert lines == [""] && lines[1..] == [];
      BlankLine(rd, st);
      assert events[..n] == events;
    } else {
      var ev := events[n];
      assert ev.id !in Ids(events[..n]);
      ReadEventLine(rd, st, ev);
      assert lines[0] == Print(Obj(CanonicalDict(ev)));
      assert lines[1..] == EventTexts(events)[n + 1..] + [""];
      assert events[..n] + [ev] == events[..n + 1];
      ReadEventLines(rd, h, events, n + 1);
    }
  }

  lemma {:induction false} BlankLine(rd: Reader, st: Progress)
    ensures ReadOne(rd, st, "") == Some(st)
  {
    EmptyAndLf();
  }

  lemma {:induction false} JoinSplit(texts: seq<string>)
    requires texts != [] && forall i :: 0 <= i < |texts| ==> NoLf(texts[i])
    ensures SplitLf(JoinLf(texts)) == texts
    decreases |texts|
  {
    hide SplitLf, NoLf;
    if |texts| == 1 {
      OneLine(texts[0], 1);
    } else {
      JoinSplit(texts[1..]);
      assert JoinLf(texts) == texts[0] + ['\n'] + JoinLf(texts[1..]);
      SplitAt(texts[0], JoinLf(texts[1..]));
      assert texts == [texts[0]] + texts[1..];
    }
  }

  lemma {:induction false} EventTextsAreLines(rd: Reader, events: seq<Event>)
    requires ValidEvents(rd, events)
    requires forall i :: 0 <= i < |events| ==> Encodable(Obj(CanonicalDict(events[i])))
    ensures forall i :: 0 <= i < |events| ==> ObjectText(EventTexts(events)[i]) && NoLf(EventTexts(events)[i])
  {
    hide ValidEvent, LawfulEvent, CanonicalDict, Encodable, Print, ObjectText, NoLf;
    forall i | 0 <= i < |events| ensures ObjectText(EventTexts(events)[i]) && NoLf(EventTexts(events)[i]) {
      DictLawful(rd, events[i]);
      PrintedObject(rd.fl, Obj(CanonicalDict(events[i])));
      OneLineText(EventTexts(events)[i]);
    }
  }

  lemma {:induction false} OneLineText(t: string)
    requires ObjectText(t)
    ensures NoLf(t)
  {
  }

  lemma {:induction false} ClosedLine(body: string)
    ensures SplitLf(body + "\n") == SplitLf(body) + [""]
  {
    hide SplitLf;
    EmptyNoLf();
    OneLine("", 1);
    SplitConcat(body, "");
    assert body + "\n" == body + ['\n'] + "";
  }

  lemma {:induction false} FirstLine(head: string, rest: string)
    requires NoLf(head)
    ensures SplitLf(head + "\n" + rest) == [head] + SplitLf(rest)
  {
    hide SplitLf, NoLf;
    SplitAt(head, rest);
  }

  lemma {:induction false} LinesOf(head: string, texts: seq<string>)
    requires NoLf(head) && forall i :: 0 <= i < |texts| ==> NoLf(texts[i])
    ensures SplitLf(if texts == [] then head + "\n" else head + "\n" + JoinLf(texts) + "\n") == [head] + texts + [""]
  {
    hide *;
    if texts == [] {
      ClosedLine(head);
      OneLine(head, 1);
      assert [head] + [""] == [head] + texts + [""];
    } else {
      var body := JoinLf(texts);
      FirstLine(head, body + "\n");
      assert head + "\n" + body + "\n" == head + "\n" + (body + "\n");
      ClosedLine(body);
      JoinSplit(texts);
      assert [head] + (texts + [""]) == [head] + texts + [""];
    }
  }

  /** The physical lines of a dumped session. */
  lemma {:induction false} DumpedLines(rd: Reader, s: Session)
    requires ValidSession(rd, s) && AllEncodable(s)
    ensures SplitLf(Dump(s).value) == [Print(Obj(HeaderDict(s.header)))] + EventTexts(s.events) + [""]
  {
    hide ValidHeader, LawfulHeader, ValidEvents, CanonicalDict, HeaderDict, Encodable, Print, ObjectText, NoLf,
      SplitLf, JoinLf;
    var head := Print(Obj(HeaderDict(s.header)));
    HDictLawful(rd, s.header);
    PrintedObject(rd.fl, Obj(HeaderDict(s.header)));
    OneLineText(head);
    EventTextsAreLines(rd, s.events);
    LinesOf(head, EventTexts(s.events));
  }

  lemma {:induction false} EmptyNoLf()
    ensures NoLf("")
  {
  }

  /** Reading the lines of a dumped session gives the session back without its session-level extras. */
  lemma {:induction false} DumpThenParse(rd: Reader, s: Session)
    requires ValidSession(rd, s) && AllEncodable(s)
    ensures ParseLines(rd, SplitLf(Dump(s).value)) == Some(s.(extra := map[]))
  {
    hide ValidHeader, LawfulHeader, CanonicalDict, HeaderDict, Encodable, Print, ReadOne, SplitLf, JoinLf, ValidEvent,
      LawfulEvent;
    DumpedLines(rd, s);
    var lines := SplitLf(Dump(s).value);
    ReadHeaderLine(rd, s.header);
    ReadEventLines(rd, s.header, s.events, 0);
    assert lines[1..] == EventTexts(s.events)[0..] + [""];
    assert s.events[..0] == [];
  }

  /** A session the line parser accepts can be written exactly when its strings are well formed and its
      floats finite, and is then read back unchanged. */
  lemma {:induction false} ParsedSessionRoundTrip(rd: Reader, lines: seq<string>)
    requires LawfulReader(rd.fl) && ParseLines(rd, lines).Some?
    ensures var s := ParseLines(rd, lines).value;
            && (Dump(s).Some? <==> AllEncodable(s))
            && (Dump(s).Some? ==> ParseLines(rd, SplitLf(Dump(s).value)) == Some(s))
  {
    ParsedLinesValid(rd, lines);
    var s := ParseLines(rd, lines).value;
    if AllEncodable(s) { DumpThenParse(rd, s); }
    hide ParseLines, ValidSession, AllEncodable;
  }

  lemma {:induction false} ReadEventsValid(rd: Reader, vs: seq<Json>, events: seq<Event>)
    requires ValidEvents(rd, events) && forall i :: 0 <= i < |vs| ==> Lawful(rd.fl, vs[i])
    ensures ReadEvents(rd, vs, events).Some? ==> ValidEvents(rd, ReadEvents(rd, vs, events).value)
    decreases |vs|
  {
    hide ValidEvents, ParseEvent, Lawful, ValidEvent, LawfulEvent;
    if vs != [] && ParseEvent(rd, vs[0]).Some? {
      var ev := ParseEvent(rd, vs[0]).value;
      ParsedEventIsValid(rd, vs[0]);
      ParsedEventIsLawful(rd, vs[0]);
      if ev.id !in Ids(events) {
        ValidMore(rd, events, ev);
        ReadEventsValid(rd, vs[1..], events + [ev]);
      }
    }
  }

  /** A session read from one document is valid too; only the framed form leaves session-level extras. */
  lemma {:induction false} ParsedDocumentValid(rd: Reader, o: map<PyStr, Json>)
    requires Lawful(rd.fl, Obj(o)) && ParseSession(rd, o).Some?
    ensures ValidSession(rd, ParseSession(rd, o).value)
  {
    hide ParseHeader, ReadEvents, ValidHeader, LawfulHeader, ValidEvent, LawfulEvent, Experimental, Name;
    var v := if HEADER in o then o[HEADER] else Obj(o - {EVENTS});
    assert Lawful(rd.fl, v);
    ParsedHeaderIsValid(rd, v);
    ParsedHeaderIsLawful(rd, v);
    assert Lawful(rd.fl, o[EVENTS]);
    ReadEventsValid(rd, o[EVENTS].items, []);
  }

  /** A session read from one document survives being written and read exactly when it has no extras. */
  lemma {:induction false} DocumentRoundTrip(rd: Reader, o: map<PyStr, Json>)
    requires Lawful(rd.fl, Obj(o)) && ParseSession(rd, o).Some?
    ensures var s := ParseSession(rd, o).value;
            && (Dump(s).Some? <==> AllEncodable(s))
            && (Dump(s).Some? ==> (ParseLines(rd, SplitLf(Dump(s).value)) == Some(s) <==> s.extra == map[]))
  {
    ParsedDocumentValid(rd, o);
    var s := ParseSession(rd, o).value;
    if AllEncodable(s) { DumpThenParse(rd, s); }
    hide ParseSession, ParseLines, ValidSession, AllEncodable, Lawful;
  }

  // ----- The file loader on a dumped session -----

  /** The stripped text of a dumped session: everything but the last line feed. */
  lemma {:induction false} DumpText(rd: Reader, s: Session)
    requires ValidSession(rd, s) && AllEncodable(s)
    ensures var text, head := Dump(s).value, Print(Obj(HeaderDict(s.header)));
            && Strip(text) != "" && Strip(text)[0] == '{'
            && Strip(text) == if s.events == [] then head else head + ("\n" + JoinLf(EventTexts(s.events)))
  {
    hide ValidHeader, LawfulHeader, ValidEvent, LawfulEvent, CanonicalDict, HeaderDict, Encodable, Print, JoinLf, Strip,
      SealCrash.NoControl, ObjectText;
    var head, texts := Print(Obj(HeaderDict(s.header))), EventTexts(s.events);
    HDictLawful(rd, s.header);
    PrintedObject(rd.fl, Obj(HeaderDict(s.header)));
    var stripped := if s.events == [] then head else head + ("\n" + JoinLf(texts));
    if s.events != [] {
      EventTextsAreLines(rd, s.events);
      JoinEnds(texts);
    }
    TextEnds(head, JoinLf(texts), s.events == []);
    NothingToStrip(stripped);
    assert Dump(s).value == stripped + "\n";
  }

  lemma {:induction false} TextEnds(head: string, body: string, alone: bool)
    requires ObjectText(head) && (alone || (body != "" && body[|body| - 1] == '}'))
    ensures var t := if alone then head else head + ("\n" + body);
            t != "" && t[0] == '{' && !PySpace(t[0]) && !PySpace(t[|t| - 1])
  {
  }

  lemma {:induction false} JoinEnds(texts: seq<string>)
    requires texts != [] && forall i :: 0 <= i < |texts| ==> ObjectText(texts[i])
    ensures var t := JoinLf(texts); t != "" && t[|t| - 1] == '}'
    decreases |texts|
  {
    hide SealCrash.NoControl;
    if |texts| > 1 { JoinEnds(texts[1..]); }
  }

  lemma {:induction false} NotEvents(rd: Reader, h: Header)
    requires ValidHeader(rd, h)
    ensures EVENTS !in HeaderDict(h)
  {
    hide HFieldNamed, ValidateDepth, BlankStr, HFieldValue;
    assert EVENTS[1] == 'v' as int && EXPERIMENTAL[1] == 'x' as int && EVENTS[0] == 'e' as int;
    forall f: HField ensures HKeyName(f) != EVENTS {
      assert HKeyText(f)[0] != 'e';
      assert HKeyName(f)[0] == HKeyText(f)[0] as int;
    }
    hide HKeyName, HFieldNamed, Name, ValidateDepth, BlankStr;
    assert !Experimental(EVENTS);
  }

  /** A header followed by more text that is not blank is not one JSON document. */
  lemma {:induction false} NoDocument(fl: FloatReader, v: Json, body: string)
    requires v.Obj? && Encodable(v) && Lawful(fl, v) && body != "" && body[0] == '{'
    ensures Loads(fl, Print(v) + ("\n" + body)).None?
  {
    var rest := "\n" + body;
    ParsePrinted(fl, v, rest);
    PrintHead(v);
    assert (Print(v) + rest)[0] == Print(v)[0];
    assert rest[1..] == body;
    assert SkipWs(body) == body;
    hide Print, Encodable, Lawful, ParseValue;
  }

  lemma {:induction false} JoinStarts(texts: seq<string>)
    requires texts != [] && ObjectText(texts[0])
    ensures var t := JoinLf(texts); t != "" && t[0] == '{'
  {
    hide SealCrash.NoControl;
  }

  /** `load_session_file` reads the file that `dump_session_file` wrote. */
  lemma {:induction false} LoadDumped(rd: Reader, s: Session)
    requires ValidSession(rd, s) && AllEncodable(s)
    ensures LoadText(rd, Dump(s).value) == Some(s.(extra := map[]))
  {
    var head := Obj(HeaderDict(s.header));
    DumpText(rd, s);
    DumpThenParse(rd, s);
    HDictLawful(rd, s.header);
    if s.events == [] {
      LoadsPrinted(rd.fl, head);
      NotEvents(rd, s.header);
    } else {
      EventTextsAreLines(rd, s.events);
      JoinStarts(EventTexts(s.events));
      NoDocument(rd.fl, head, JoinLf(EventTexts(s.events)));
    }
    hide HeaderDict, CanonicalDict, Encodable, Print, Strip, JoinLf, Loads, Lawful, LawfulHeader, ParseLines, SplitLf,
      ParseSession, ValidHeader, ValidEvent, LawfulEvent, ObjectText, NoLf, Name;
  }
}
