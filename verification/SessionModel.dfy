/** The canonical session model: events, headers, their dictionaries, and the parser. */
module SessionModel {
  import opened Options
  import opened PyText
  import opened JsonValues
  import opened JsonPrinter
  import opened JsonParser
  import opened PyLines
  import opened Depth
  import opened Timestamps

  /** The known fields of an event record. */
  datatype Field =
    | Actor | AgentId | BranchId | ContentHash | CorrelationId | ExecutionState | Id | InteractionId | Kind
    | OriginalId | ParentId | Payload | Seq | SideEffects | SourceAdapter | SourceLine | SourceLocation
    | SourceRecordHash | Ts

  function KeyText(f: Field): string {
    match f
    case Actor => "actor"
    case AgentId => "agent_id"
    case BranchId => "branch_id"
    case ContentHash => "content_hash"
    case CorrelationId => "correlation_id"
    case ExecutionState => "execution_state"
    case Id => "id"
    case InteractionId => "interaction_id"
    case Kind => "kind"
    case OriginalId => "original_id"
    case ParentId => "parent_id"
    case Payload => "payload"
    case Seq => "seq"
    case SideEffects => "side_effects"
    case SourceAdapter => "source_adapter"
    case SourceLine => "source_line"
    case SourceLocation => "source_location"
    case SourceRecordHash => "source_record_hash"
    case Ts => "ts"
  }

  function KeyName(f: Field): PyStr {
    Name(KeyText(f))
  }

  /** Length and first character tell the field names apart. */
  function KeyTag(f: Field): (int, char) {
    match f
    case Actor => (5, 'a')
    case AgentId => (8, 'a')
    case BranchId => (9, 'b')
    case ContentHash => (12, 'c')
    case CorrelationId => (14, 'c')
    case ExecutionState => (15, 'e')
    case Id => (2, 'i')
    case InteractionId => (14, 'i')
    case Kind => (4, 'k')
    case OriginalId => (11, 'o')
    case ParentId => (9, 'p')
    case Payload => (7, 'p')
    case Seq => (3, 's')
    case SideEffects => (12, 's')
    case SourceAdapter => (14, 's')
    case SourceLine => (11, 's')
    case SourceLocation => (15, 's')
    case SourceRecordHash => (18, 's')
    case Ts => (2, 't')
  }

  lemma {:induction false} KeyTagIs(f: Field)
    ensures |KeyText(f)| == KeyTag(f).0 && KeyText(f)[0] == KeyTag(f).1
  {
  }

  lemma {:induction false} KeyInjective(f: Field, g: Field)
    requires KeyName(f) == KeyName(g)
    ensures f == g
  {
    hide KeyText, Name;
    NameInjective(KeyText(f), KeyText(g));
    KeyTagIs(f);
    KeyTagIs(g);
  }

  const ALL_FIELDS: seq<Field> := [
    Actor, AgentId, BranchId, ContentHash, CorrelationId, ExecutionState, Id, InteractionId, Kind, OriginalId,
    ParentId, Payload, Seq, SideEffects, SourceAdapter, SourceLine, SourceLocation, SourceRecordHash, Ts]

  function Find(fs: seq<Field>, k: PyStr): (r: Option<Field>)
    ensures r.Some? ==> r.value in fs && KeyName(r.value) == k
    ensures r.None? ==> forall f :: f in fs ==> KeyName(f) != k
  {
    if fs == [] then None else if KeyName(fs[0]) == k then Some(fs[0]) else Find(fs[1..], k)
  }

  /** The known field a key names. */
  function FieldNamed(k: PyStr): Option<Field> {
    Find(ALL_FIELDS, k)
  }

  lemma {:induction false} AllFields(f: Field)
    ensures f in ALL_FIELDS
  {
    match f
    case Actor => assert ALL_FIELDS[0] == f;
    case AgentId => assert ALL_FIELDS[1] == f;
    case BranchId => assert ALL_FIELDS[2] == f;
    case ContentHash => assert ALL_FIELDS[3] == f;
    case CorrelationId => assert ALL_FIELDS[4] == f;
    case ExecutionState => assert ALL_FIELDS[5] == f;
    case Id => assert ALL_FIELDS[6] == f;
    case InteractionId => assert ALL_FIELDS[7] == f;
    case Kind => assert ALL_FIELDS[8] == f;
    case OriginalId => assert ALL_FIELDS[9] == f;
    case ParentId => assert ALL_FIELDS[10] == f;
    case Payload => assert ALL_FIELDS[11] == f;
    case Seq => assert ALL_FIELDS[12] == f;
    case SideEffects => assert ALL_FIELDS[13] == f;
    case SourceAdapter => assert ALL_FIELDS[14] == f;
    case SourceLine => assert ALL_FIELDS[15] == f;
    case SourceLocation => assert ALL_FIELDS[16] == f;
    case SourceRecordHash => assert ALL_FIELDS[17] == f;
    case Ts => assert ALL_FIELDS[18] == f;
  }

  lemma {:induction false} FieldNamedIs(f: Field)
    ensures FieldNamed(KeyName(f)) == Some(f)
  {
    hide KeyName, Find;
    AllFields(f);
    if FieldNamed(KeyName(f)).Some? { KeyInjective(f, FieldNamed(KeyName(f)).value); }
  }

  const EXPERIMENTAL := Name("experimental_")

  predicate Experimental(k: PyStr) {
    EXPERIMENTAL <= k
  }

  lemma {:induction false} KeyNotExperimental(f: Field)
    ensures !Experimental(KeyName(f))
  {
    var t := KeyText(f);
    assert |t| < 3 || t[0] != 'e' || t[2] != 'p';
    assert EXPERIMENTAL[0] == 'e' as int && EXPERIMENTAL[2] == 'p' as int;
    assert |t| >= 3 ==> KeyName(f)[0] == t[0] as int && KeyName(f)[2] == t[2] as int;
    hide KeyText, Name;
  }

  lemma {:induction false} ExperimentalUnknown(k: PyStr)
    requires Experimental(k)
    ensures FieldNamed(k) == None
  {
    hide KeyName, Find, Experimental;
    forall f: Field ensures KeyName(f) != k { KeyNotExperimental(f); }
  }

  datatype Event = Event(
    id: PyStr, parentId: Option<PyStr>, seqNo: int, ts: PyStr, actor: PyStr, kind: PyStr, payload: map<PyStr, Json>,
    contentHash: Option<PyStr>, correlationId: Option<PyStr>, branchId: Option<PyStr>, interactionId: Option<PyStr>,
    agentId: Option<PyStr>, executionState: Option<PyStr>, sourceLine: Option<int>, sourceRecordHash: Option<PyStr>,
    originalId: Option<PyStr>, sourceAdapter: Option<PyStr>, sourceLocation: Option<PyStr>, sideEffects: Option<PyStr>,
    extra: map<PyStr, Json>)

  function OptStr(o: Option<PyStr>): Option<Json> {
    match o
    case Some(s) => Some(Str(s))
    case None => None
  }

  /** What the normalised dictionary holds under a known field. */
  function FieldValue(ev: Event, f: Field): Option<Json> {
    match f
    case Actor => Some(Str(ev.actor))
    case AgentId => OptStr(ev.agentId)
    case BranchId => OptStr(ev.branchId)
    case ContentHash => OptStr(ev.contentHash)
    case CorrelationId => OptStr(ev.correlationId)
    case ExecutionState => OptStr(ev.executionState)
    case Id => Some(Str(ev.id))
    case InteractionId => OptStr(ev.interactionId)
    case Kind => Some(Str(ev.kind))
    case OriginalId => OptStr(ev.originalId)
    case ParentId => Some(if ev.parentId.Some? then Str(ev.parentId.value) else Null)
    case Payload => Some(Obj(ev.payload))
    case Seq => Some(Json.Int(ev.seqNo))
    case SideEffects => OptStr(ev.sideEffects)
    case SourceAdapter => OptStr(ev.sourceAdapter)
    case SourceLine => if ev.sourceLine.Some? then Some(Json.Int(ev.sourceLine.value)) else None
    case SourceLocation => OptStr(ev.sourceLocation)
    case SourceRecordHash => OptStr(ev.sourceRecordHash)
    case Ts => Some(Str(ev.ts))
  }

  /** What it holds under any key: known fields, and of the extras only the experimental ones. */
  function DictValue(ev: Event, k: PyStr): Option<Json> {
    match FieldNamed(k)
    case Some(f) => FieldValue(ev, f)
    case None => if Experimental(k) && k in ev.extra then Some(ev.extra[k]) else None
  }

  function KnownKeys(): (ks: set<PyStr>)
    ensures forall f: Field :: KeyName(f) in ks
  {
    assert forall f: Field :: f in ALL_FIELDS by { forall f: Field ensures f in ALL_FIELDS { AllFields(f); } }
    set f | f in ALL_FIELDS :: KeyName(f)
  }

  /** `to_canonical_dict()` */
  function CanonicalDict(ev: Event): (d: map<PyStr, Json>)
    ensures forall k :: k in d <==> DictValue(ev, k).Some?
    ensures forall k :: k in d ==> d[k] == DictValue(ev, k).value
  {
    map k | k in KnownKeys() + ev.extra.Keys && DictValue(ev, k).Some? :: DictValue(ev, k).value
  }

  // ----- `parse_session_event` -----

  /** The float reader of the platform. */
  datatype Reader = Reader(fl: FloatReader)

  /** `not s.strip()` */
  predicate BlankStr(s: PyStr) {
    forall i :: 0 <= i < |s| ==> SpaceCode(s[i])
  }

  const VALID_ACTORS: set<PyStr> := {Name("user"), Name("assistant"), Name("tool"), Name("system")}
  const VALID_KINDS: set<PyStr> := {
    Name("message"), Name("tool_call"), Name("tool_result"), Name("approval"), Name("checkpoint"),
    Name("compaction_boundary"), Name("handoff"), Name("subagent_boundary"), Name("error"), Name("opaque"),
    Name("unknown")}
  const VALID_STATES: set<PyStr> := {
    Name("success"), Name("failure"), Name("pending"), Name("aborted"), Name("unknown")}
  const VALID_SIDE_EFFECTS: set<PyStr> := {Name("none"), Name("possible"), Name("unknown")}

  function Get(o: map<PyStr, Json>, f: Field): Option<Json> {
    if KeyName(f) in o then Some(o[KeyName(f)]) else None
  }

  /** An optional string field: `Some(None)` when absent or null, nothing when it is anything else. */
  function ReadStr(v: Option<Json>): Option<Option<PyStr>> {
    match v
    case None => Some(None)
    case Some(Null) => Some(None)
    case Some(Str(s)) => Some(Some(s))
    case _ => None
  }

  function ReadLine(v: Option<Json>): Option<Option<int>> {
    match v
    case None => Some(None)
    case Some(Null) => Some(None)
    case Some(Int(n)) => if n >= 1 then Some(Some(n)) else None
    case _ => None
  }

  function ReadParent(v: Json, id: PyStr): Option<Option<PyStr>> {
    match v
    case Null => Some(None)
    case Str(s) => if BlankStr(s) || s == id then None else Some(Some(s))
    case _ => None
  }

  function ReadState(v: Option<Json>): Option<Option<PyStr>> {
    match ReadStr(v)
    case Some(Some(s)) => if s in VALID_STATES then Some(Some(s)) else None
    case r => r
  }

  /** Without an own `side_effects`, a valid one in the payload is lifted; testing an unhashable
      payload value against the frozenset raises. */
  function ReadEffects(v: Option<Json>, payload: map<PyStr, Json>): Option<Option<PyStr>> {
    match ReadStr(v)
    case None => None
    case Some(Some(s)) => if s in VALID_SIDE_EFFECTS then Some(Some(s)) else None
    case Some(None) =>
      var k := KeyName(SideEffects);
      if k !in payload then Some(None)
      else match payload[k]
        case Arr(_) => None
        case Obj(_) => None
        case Str(s) => Some(if s in VALID_SIDE_EFFECTS then Some(s) else None)
        case _ => Some(None)
  }

  predicate Required(f: Field) {
    f == Id || f == ParentId || f == Seq || f == Ts || f == Actor || f == Kind || f == Payload
  }

  /** All required fields are there, and every key is known or experimental. */
  predicate KeysOk(o: map<PyStr, Json>) {
    && (forall f | f in ALL_FIELDS :: Required(f) ==> KeyName(f) in o)
    && (forall k :: k in o ==> FieldNamed(k).Some? || Experimental(k))
  }

  predicate MandatoryOk(rd: Reader, o: map<PyStr, Json>)
    requires KeysOk(o)
  {
    RequiredThere(o);
    var id, sq, ts := o[KeyName(Id)], o[KeyName(Seq)], o[KeyName(Ts)];
    var actor, kind, payload := o[KeyName(Actor)], o[KeyName(Kind)], o[KeyName(Payload)];
    && id.Str? && !BlankStr(id.s)
    && ReadParent(o[KeyName(ParentId)], id.s).Some?
    && sq.Int? && sq.n >= 0
    && ts.Str? && ValidTs(ts.s)
    && actor.Str? && actor.s in VALID_ACTORS
    && kind.Str? && kind.s in VALID_KINDS
    && payload.Obj? && ValidateDepth(payload, 1)
  }

  lemma {:induction false} RequiredThere(o: map<PyStr, Json>)
    requires KeysOk(o)
    ensures KeyName(Id) in o && KeyName(ParentId) in o && KeyName(Seq) in o && KeyName(Ts) in o
    ensures KeyName(Actor) in o && KeyName(Kind) in o && KeyName(Payload) in o
  {
    AllFields(Id); AllFields(ParentId); AllFields(Seq); AllFields(Ts); AllFields(Actor); AllFields(Kind);
    AllFields(Payload);
    hide KeyName;
  }

  predicate OptionalOk(o: map<PyStr, Json>, payload: map<PyStr, Json>) {
    && ReadStr(Get(o, ContentHash)).Some?
    && ReadStr(Get(o, CorrelationId)).Some?
    && ReadStr(Get(o, BranchId)).Some?
    && ReadStr(Get(o, InteractionId)).Some?
    && ReadStr(Get(o, AgentId)).Some?
    && ReadState(Get(o, ExecutionState)).Some?
    && ReadLine(Get(o, SourceLine)).Some?
    && ReadStr(Get(o, SourceRecordHash)).Some?
    && ReadStr(Get(o, OriginalId)).Some?
    && ReadStr(Get(o, SourceAdapter)).Some?
    && ReadStr(Get(o, SourceLocation)).Some?
    && ReadEffects(Get(o, SideEffects), payload).Some?
  }

  /** The fields that are not known ones. */
  function ExtraFields(o: map<PyStr, Json>): map<PyStr, Json> {
    map k | k in o && FieldNamed(k).None? :: o[k]
  }

  /** `parse_session_event(obj)`, nothing when it raises. The duplicate-id check is the caller's. */
  function ParseEvent(rd: Reader, v: Json): Option<Event> {
    if !v.Obj? || !KeysOk(v.fields) || !MandatoryOk(rd, v.fields) then None
    else
      RequiredThere(v.fields);
      var o := v.fields;
      var payload := o[KeyName(Payload)].fields;
      if !OptionalOk(o, payload) then None
      else
        var id := o[KeyName(Id)].s;
        Some(Event(
          id, ReadParent(o[KeyName(ParentId)], id).value, o[KeyName(Seq)].n, o[KeyName(Ts)].s, o[KeyName(Actor)].s,
          o[KeyName(Kind)].s, payload,
          ReadStr(Get(o, ContentHash)).value, ReadStr(Get(o, CorrelationId)).value, ReadStr(Get(o, BranchId)).value,
          ReadStr(Get(o, InteractionId)).value, ReadStr(Get(o, AgentId)).value, ReadState(Get(o, ExecutionState)).value,
          ReadLine(Get(o, SourceLine)).value, ReadStr(Get(o, SourceRecordHash)).value,
          ReadStr(Get(o, OriginalId)).value,
          ReadStr(Get(o, SourceAdapter)).value, ReadStr(Get(o, SourceLocation)).value,
          ReadEffects(Get(o, SideEffects), payload).value,
          ExtraFields(o)))
  }

  predicate Unhashable(v: Json) {
    v.Arr? || v.Obj?
  }

  predicate GraphOk(rd: Reader, o: map<PyStr, Json>)
    requires KeysOk(o)
  {
    RequiredThere(o);
    var id, sq, ts := o[KeyName(Id)], o[KeyName(Seq)], o[KeyName(Ts)];
    && id.Str? && !BlankStr(id.s) && ReadParent(o[KeyName(ParentId)], id.s).Some?
    && sq.Int? && sq.n >= 0 && ts.Str? && ValidTs(ts.s)
  }

  predicate LinksOk(o: map<PyStr, Json>) {
    && ReadStr(Get(o, ContentHash)).Some? && ReadStr(Get(o, CorrelationId)).Some? && ReadStr(Get(o, BranchId)).Some?
    && ReadStr(Get(o, InteractionId)).Some? && ReadStr(Get(o, AgentId)).Some?
  }

  predicate SourceOk(o: map<PyStr, Json>) {
    && ReadLine(Get(o, SourceLine)).Some? && ReadStr(Get(o, SourceRecordHash)).Some?
    && ReadStr(Get(o, OriginalId)).Some? && ReadStr(Get(o, SourceAdapter)).Some?
    && ReadStr(Get(o, SourceLocation)).Some?
  }

  /** The event parser raises `TypeError`, not `SchemaError`: a list or an object reaches a test
      against a frozenset, in the order the tests are made. */
  predicate RaisesTypeError(rd: Reader, o: map<PyStr, Json>) {
    KeysOk(o) && GraphOk(rd, o) &&
    (RequiredThere(o);
     var actor, kind, payload := o[KeyName(Actor)], o[KeyName(Kind)], o[KeyName(Payload)];
     if Unhashable(actor) then true
     else if !(actor.Str? && actor.s in VALID_ACTORS) then false
     else if Unhashable(kind) then true
     else if !(kind.Str? && kind.s in VALID_KINDS && payload.Obj? && ValidateDepth(payload, 1) && LinksOk(o)) then false
     else match Get(o, ExecutionState)
       case Some(Arr(_)) => true
       case Some(Obj(_)) => true
       case state =>
         ReadState(state).Some? && SourceOk(o) && ReadStr(Get(o, SideEffects)) == Some(None)
         && KeyName(SideEffects) in payload.fields && Unhashable(payload.fields[KeyName(SideEffects)]))
  }

  // ----- Headers -----

  datatype HField = SchemaVersion | SessionId | CreatedAt | Title | Metadata | Source | Version

  function HKeyText(f: HField): string {
    match f
    case SchemaVersion => "schema_version"
    case SessionId => "session_id"
    case CreatedAt => "created_at"
    case Title => "title"
    case Metadata => "metadata"
    case Source => "source"
    case Version => "version"
  }

  function HKeyName(f: HField): PyStr {
    Name(HKeyText(f))
  }

  lemma {:induction false} HKeyInjective(f: HField, g: HField)
    requires HKeyName(f) == HKeyName(g)
    ensures f == g
  {
    NameInjective(HKeyText(f), HKeyText(g));
    assert |HKeyText(f)| == |HKeyText(g)| && HKeyText(f)[0] == HKeyText(g)[0];
  }

  const ALL_HFIELDS: seq<HField> := [SchemaVersion, SessionId, CreatedAt, Title, Metadata, Source, Version]

  function HFind(fs: seq<HField>, k: PyStr): (r: Option<HField>)
    ensures r.Some? ==> r.value in fs && HKeyName(r.value) == k
    ensures r.None? ==> forall f :: f in fs ==> HKeyName(f) != k
  {
    if fs == [] then None else if HKeyName(fs[0]) == k then Some(fs[0]) else HFind(fs[1..], k)
  }

  function HFieldNamed(k: PyStr): Option<HField> {
    HFind(ALL_HFIELDS, k)
  }

  lemma {:induction false} AllHFields(f: HField)
    ensures f in ALL_HFIELDS
  {
    match f
    case SchemaVersion => assert ALL_HFIELDS[0] == f;
    case SessionId => assert ALL_HFIELDS[1] == f;
    case CreatedAt => assert ALL_HFIELDS[2] == f;
    case Title => assert ALL_HFIELDS[3] == f;
    case Metadata => assert ALL_HFIELDS[4] == f;
    case Source => assert ALL_HFIELDS[5] == f;
    case Version => assert ALL_HFIELDS[6] == f;
  }

  lemma {:induction false} HFieldNamedIs(f: HField)
    ensures HFieldNamed(HKeyName(f)) == Some(f)
  {
    hide HKeyName, HFind;
    AllHFields(f);
    if HFieldNamed(HKeyName(f)).Some? { HKeyInjective(f, HFieldNamed(HKeyName(f)).value); }
  }

  lemma {:induction false} HExperimentalUnknown(k: PyStr)
    requires Experimental(k)
    ensures HFieldNamed(k) == None
  {
    assert EXPERIMENTAL[0] == 'e' as int;
    forall f: HField ensures HKeyName(f) != k {
      assert HKeyText(f)[0] != 'e';
      assert HKeyName(f)[0] == HKeyText(f)[0] as int;
    }
    hide HKeyName, HFind;
  }

  const SCHEMA_VERSION := Name("sesslint.session/v1")

  datatype Header = Header(
    sessionId: PyStr, createdAt: PyStr, title: Option<PyStr>, metadata: map<PyStr, Json>, source: Option<Json>,
    version: Option<int>, extra: map<PyStr, Json>)

  /** The dataclass path of the normaliser: absent options and empty metadata are not written. */
  function HFieldValue(h: Header, f: HField): Option<Json> {
    match f
    case SchemaVersion => Some(Str(SCHEMA_VERSION))
    case SessionId => Some(Str(h.sessionId))
    case CreatedAt => Some(Str(h.createdAt))
    case Title => OptStr(h.title)
    case Metadata => if h.metadata == map[] then None else Some(Obj(h.metadata))
    case Source => h.source
    case Version => if h.version.Some? then Some(Json.Int(h.version.value)) else None
  }

  function HDictValue(h: Header, k: PyStr): Option<Json> {
    match HFieldNamed(k)
    case Some(f) => HFieldValue(h, f)
    case None => if Experimental(k) && k in h.extra then Some(h.extra[k]) else None
  }

  function HKnownKeys(): (ks: set<PyStr>)
    ensures forall f: HField :: HKeyName(f) in ks
  {
    assert forall f: HField :: f in ALL_HFIELDS by { forall f: HField ensures f in ALL_HFIELDS { AllHFields(f); } }
    set f | f in ALL_HFIELDS :: HKeyName(f)
  }

  function HeaderDict(h: Header): (d: map<PyStr, Json>)
    ensures forall k :: k in d <==> HDictValue(h, k).Some?
    ensures forall k :: k in d ==> d[k] == HDictValue(h, k).value
  {
    map k | k in HKnownKeys() + h.extra.Keys && HDictValue(h, k).Some? :: HDictValue(h, k).value
  }

  function HGet(o: map<PyStr, Json>, f: HField): Option<Json> {
    if HKeyName(f) in o then Some(o[HKeyName(f)]) else None
  }

  function ReadMetadata(v: Option<Json>): Option<map<PyStr, Json>> {
    match v
    case None => Some(map[])
    case Some(Obj(m)) => if ValidateDepth(Obj(m), 1) then Some(m) else None
    case _ => None
  }

  function ReadSource(v: Option<Json>): Option<Option<Json>> {
    match v
    case None => Some(None)
    case Some(Null) => Some(None)
    case Some(Str(s)) => Some(Some(Str(s)))
    case Some(Obj(m)) => if ValidateDepth(Obj(m), 1) then Some(Some(Obj(m))) else None
    case _ => None
  }

  function ReadVersion(v: Option<Json>): Option<Option<int>> {
    match v
    case None => Some(None)
    case Some(Null) => Some(None)
    case Some(Int(n)) => Some(Some(n))
    case _ => None
  }

  predicate HeaderOk(rd: Reader, o: map<PyStr, Json>) {
    && HGet(o, SchemaVersion) == Some(Str(SCHEMA_VERSION))
    && (match HGet(o, SessionId) case Some(Str(s)) => !BlankStr(s) case _ => false)
    && (match HGet(o, CreatedAt) case Some(Str(s)) => ValidTs(s) case _ => false)
    && (forall k :: k in o ==> HFieldNamed(k).Some? || Experimental(k))
    && ReadStr(HGet(o, Title)).Some?
    && ReadMetadata(HGet(o, Metadata)).Some?
    && ReadSource(HGet(o, Source)).Some?
    && ReadVersion(HGet(o, Version)).Some?
  }

  function HExtraFields(o: map<PyStr, Json>): map<PyStr, Json> {
    map k | k in o && HFieldNamed(k).None? :: o[k]
  }

  /** `parse_session_header(obj)`, nothing when it raises. */
  function ParseHeader(rd: Reader, v: Json): Option<Header> {
    if !v.Obj? || !HeaderOk(rd, v.fields) then None
    else
      var o := v.fields;
      Some(Header(
        HGet(o, SessionId).value.s, HGet(o, CreatedAt).value.s, ReadStr(HGet(o, Title)).value,
        ReadMetadata(HGet(o, Metadata)).value, ReadSource(HGet(o, Source)).value, ReadVersion(HGet(o, Version)).value,
        HExtraFields(o)))
  }

  // ----- Sessions -----

  datatype Session = Session(header: Header, events: seq<Event>, extra: map<PyStr, Json>)

  /** The state of the line loop: the header once read, and the events so far. */
  datatype Progress = Progress(header: Option<Header>, events: seq<Event>)

  function Ids(events: seq<Event>): set<PyStr> {
    set i | 0 <= i < |events| :: events[i].id
  }

  /** One line, nothing when it raises. */
  function ReadOne(rd: Reader, st: Progress, line: string): Option<Progress> {
    var stripped := Strip(line);
    if stripped == "" then Some(st)
    else match Loads(rd.fl, stripped)
      case None => None
      case Some(v) =>
        if st.header.None? then
          match ParseHeader(rd, v)
          case Some(h) => Some(st.(header := Some(h)))
          case None => None
        else
          match ParseEvent(rd, v)
          case Some(ev) => if ev.id in Ids(st.events) then None else Some(st.(events := st.events + [ev]))
          case None => None
  }

  function ReadAll(rd: Reader, st: Progress, lines: seq<string>): Option<Progress>
    decreases |lines|
  {
    if lines == [] then Some(st)
    else match ReadOne(rd, st, lines[0])
      case Some(st') => ReadAll(rd, st', lines[1..])
      case None => None
  }

  function ParseLines(rd: Reader, lines: seq<string>): Option<Session> {
    match ReadAll(rd, Progress(None, []), lines)
    case Some(st) => if st.header.Some? then Some(Session(st.header.value, st.events, map[])) else None
    case None => None
  }

  /** `parse_session_lines`: the loop that grows `seen_ids` and `events`. */
  method ParseSessionLines(rd: Reader, lines: seq<string>) returns (session: Option<Session>)
    ensures session == ParseLines(rd, lines)
  {
    hide Loads, ParseEvent, ParseHeader, Strip;
    var header: Option<Header> := None;
    var seenIds: set<PyStr> := {};
    var events: seq<Event> := [];
    for i := 0 to |lines|
      invariant seenIds == Ids(events)
      invariant ReadAll(rd, Progress(None, []), lines) == ReadAll(rd, Progress(header, events), lines[i..])
    {
      assert lines[i..][0] == lines[i] && lines[i..][1..] == lines[i + 1..];
      var stripped := Strip(lines[i]);
      if stripped == "" {
        continue;
      }
      var obj := Loads(rd.fl, stripped);
      if obj.None? {
        return None;
      }
      if header.None? {
        header := ParseHeader(rd, obj.value);
        if header.None? {
          return None;
        }
      } else {
        var ev := ParseEvent(rd, obj.value);
        if ev.None? || ev.value.id in seenIds {
          return None;
        }
        IdsMore(events, ev.value);
        events := events + [ev.value];
        seenIds := seenIds + {ev.value.id};
      }
    }
    assert lines[|lines|..] == [];
    if header.None? {
      return None;
    }
    return Some(Session(header.value, events, map[]));
  }

  lemma {:induction false} IdsMore(events: seq<Event>, ev: Event)
    ensures Ids(events + [ev]) == Ids(events) + {ev.id}
  {
    var more := events + [ev];
    assert more[|events|] == ev;
    forall x ensures x in Ids(more) <==> x in Ids(events) || x == ev.id {
      if x in Ids(events) {
        var i :| 0 <= i < |events| && events[i].id == x;
        assert more[i].id == x;
      }
    }
  }

  function JoinLf(texts: seq<string>): string {
    if texts == [] then "" else if |texts| == 1 then texts[0] else texts[0] + "\n" + JoinLf(texts[1..])
  }

  function EventTexts(events: seq<Event>): seq<string>
    requires forall i :: 0 <= i < |events| ==> Encodable(Obj(CanonicalDict(events[i])))
  {
    seq(|events|, i requires 0 <= i < |events| => Print(Obj(CanonicalDict(events[i]))))
  }

  predicate AllEncodable(s: Session) {
    && Encodable(Obj(HeaderDict(s.header)))
    && forall i :: 0 <= i < |s.events| ==> Encodable(Obj(CanonicalDict(s.events[i])))
  }

  /** `dump_session`, nothing when the codec raises `SchemaError`. */
  function Dump(s: Session): Option<string> {
    if !AllEncodable(s) then None
    else
      var head := Print(Obj(HeaderDict(s.header)));
      if s.events == [] then Some(head + "\n")
      else Some(head + "\n" + JoinLf(EventTexts(s.events)) + "\n")
  }

  // ----- One JSON document holding a whole session -----

  const HEADER := Name("header")
  const EVENTS := Name("events")

  function ReadEvents(rd: Reader, vs: seq<Json>, events: seq<Event>): Option<seq<Event>>
    decreases |vs|
  {
    if vs == [] then Some(events)
    else match ParseEvent(rd, vs[0])
      case Some(ev) => if ev.id in Ids(events) then None else ReadEvents(rd, vs[1..], events + [ev])
      case None => None
  }

  /** `parse_session(obj)`: the framed form keeps experimental fields, the flat form gives them to the header. */
  function ParseSession(rd: Reader, o: map<PyStr, Json>): Option<Session> {
    if EVENTS !in o || !o[EVENTS].Arr? then None
    else
      var framed := HEADER in o;
      if framed && !(forall k :: k in o ==> k == HEADER || k == EVENTS || Experimental(k)) then None
      else match ParseHeader(rd, if framed then o[HEADER] else Obj(o - {EVENTS}))
        case None => None
        case Some(h) =>
          match ReadEvents(rd, o[EVENTS].items, [])
          case Some(events) => Some(Session(h, events, if framed then o - {HEADER, EVENTS} else map[]))
          case None => None
  }

  /** `load_session_file` on the decoded text of the file. */
  function LoadText(rd: Reader, text: string): Option<Session> {
    var stripped := Strip(text);
    if stripped == "" then None
    else if stripped[0] != '{' then ParseLines(rd, SplitLf(text))
    else match Loads(rd.fl, stripped)
      case Some(Obj(o)) => if EVENTS in o then ParseSession(rd, o) else ParseLines(rd, SplitLf(text))
      case _ => ParseLines(rd, SplitLf(text))
  }
}
