/** Which records, lines and documents the session parser accepts, and what it makes of them, said of their
    contents and not of the order of its checks. */
module SessionMeaning {
  import opened Options
  import opened PyText
  import opened JsonValues
  import opened JsonPrinter
  import opened JsonParser
  import opened JsonRoundTrip
  import opened PyLines
  import opened Depth
  import opened Timestamps
  import opened SessionModel
  import opened SessionRoundTrip

  // ----- Event records -----

  /** Not there, or null. */
  predicate Missing(v: Option<Json>) {
    v == None || v == Some(Null)
  }

  /** The side effects a payload declares, when the record itself does not. */
  function Declared(payload: map<PyStr, Json>): Option<PyStr> {
    var k := Name("side_effects");
    if k in payload && payload[k] in {Str(Name("none")), Str(Name("possible")), Str(Name("unknown"))}
    then Some(payload[k].s) else None
  }

  /** An optional field: missing, or as the event has it. */
  ghost predicate OptionSaid(o: map<PyStr, Json>, ev: Event, f: Field) {
    if Missing(Get(o, f)) then FieldValue(ev, f) == None else Get(o, f) == FieldValue(ev, f)
  }

  /** The record says what the event says: required fields as they are, optional ones as they are or missing,
      side effects possibly declared by the payload, and everything else experimental. */
  ghost predicate RecordSays(o: map<PyStr, Json>, ev: Event) {
    && (forall k :: k in o ==> FieldNamed(k).Some? || Experimental(k))
    && (forall f: Field :: Required(f) ==> Get(o, f) == FieldValue(ev, f))
    && (forall f: Field :: !Required(f) && f != SideEffects ==> OptionSaid(o, ev, f))
    && (if Missing(Get(o, SideEffects)) then
          && ev.sideEffects == Declared(ev.payload)
          && !(KeyName(SideEffects) in ev.payload && Unhashable(ev.payload[KeyName(SideEffects)]))
        else Get(o, SideEffects) == FieldValue(ev, SideEffects))
    && ev.extra == (map k | k in o && FieldNamed(k).None? :: o[k])
  }

  /** What the format asks of an event. */
  ghost predicate SoundEvent(ev: Event) {
    && !BlankStr(ev.id)
    && (ev.parentId.Some? ==> !BlankStr(ev.parentId.value) && ev.parentId.value != ev.id)
    && ev.seqNo >= 0 && ValidTs(ev.ts) && ev.actor in VALID_ACTORS && ev.kind in VALID_KINDS
    && Within(Obj(ev.payload), MAX_PAYLOAD_DEPTH)
    && (ev.executionState.Some? ==> ev.executionState.value in VALID_STATES)
    && (ev.sourceLine.Some? ==> ev.sourceLine.value >= 1)
    && (ev.sideEffects.Some? ==> ev.sideEffects.value in VALID_SIDE_EFFECTS)
  }

  lemma {:induction false} StrMeans(v: Option<Json>, r: Option<PyStr>)
    ensures ReadStr(v) == Some(r) <==> if Missing(v) then OptStr(r) == None else v == OptStr(r)
  {
  }

  lemma {:induction false} StateMeans(v: Option<Json>, r: Option<PyStr>)
    ensures ReadState(v) == Some(r) <==>
            (r.Some? ==> r.value in VALID_STATES) && if Missing(v) then OptStr(r) == None else v == OptStr(r)
  {
    hide VALID_STATES;
  }

  lemma {:induction false} LineMeans(v: Option<Json>, r: Option<int>)
    ensures ReadLine(v) == Some(r) <==>
            (r.Some? ==> r.value >= 1) &&
            if Missing(v) then r == None else r.Some? && v == Some(Json.Int(r.value))
  {
  }

  lemma {:induction false} EffectsMeans(v: Option<Json>, payload: map<PyStr, Json>, r: Option<PyStr>)
    ensures ReadEffects(v, payload) == Some(r) <==>
            (r.Some? ==> r.value in VALID_SIDE_EFFECTS) &&
            if Missing(v) then
              r == Declared(payload)
              && !(KeyName(SideEffects) in payload && Unhashable(payload[KeyName(SideEffects)]))
            else v == OptStr(r)
  {
    assert KeyName(SideEffects) == Name("side_effects");
    hide Name, KeyName;
  }

  lemma {:induction false} StrFieldMeans(o: map<PyStr, Json>, ev: Event, f: Field)
    requires StrField(f)
    ensures OptionSaid(o, ev, f) <==> ReadStr(Get(o, f)) == Some(StrOf(ev, f))
  {
    StrMeans(Get(o, f), StrOf(ev, f));
    assert FieldValue(ev, f) == OptStr(StrOf(ev, f));
    hide Get, ReadStr, FieldValue, StrOf;
  }

  lemma {:induction false} StrFieldsMean(o: map<PyStr, Json>, ev: Event)
    ensures StrFields(o, ev) <==> forall f :: StrField(f) ==> OptionSaid(o, ev, f)
  {
    hide Get, ReadStr, OptionSaid;
    StrFieldMeans(o, ev, ContentHash); StrFieldMeans(o, ev, CorrelationId); StrFieldMeans(o, ev, BranchId);
    StrFieldMeans(o, ev, InteractionId); StrFieldMeans(o, ev, AgentId); StrFieldMeans(o, ev, SourceRecordHash);
    StrFieldMeans(o, ev, OriginalId); StrFieldMeans(o, ev, SourceAdapter); StrFieldMeans(o, ev, SourceLocation);
  }

  /** Everything the parser reads, and the checks on it. */
  ghost predicate Reads(o: map<PyStr, Json>, ev: Event) {
    && KeysOk(o) && Mandatory(o, ev) && StrFields(o, ev)
    && ReadState(Get(o, ExecutionState)) == Some(ev.executionState)
    && ReadLine(Get(o, SourceLine)) == Some(ev.sourceLine)
    && ReadEffects(Get(o, SideEffects), ev.payload) == Some(ev.sideEffects)
    && ExtraFields(o) == ev.extra
  }

  lemma {:induction false} ParsedReads(rd: Reader, o: map<PyStr, Json>, ev: Event)
    requires ParseEvent(rd, Obj(o)) == Some(ev)
    ensures Reads(o, ev) && OptionalOk(o, ev.payload) && MandatoryOk(rd, o)
  {
    hide KeyName, FieldNamed, Experimental, ValidateDepth, BlankStr, Name, ReadStr, ReadState, ReadLine, ReadEffects,
      ExtraFields, VALID_ACTORS, VALID_KINDS, ValidTs, KeysOk;
    RequiredThere(o);
  }

  lemma {:induction false} MandatoryMeans(o: map<PyStr, Json>, ev: Event)
    ensures Mandatory(o, ev) <==> forall f: Field :: Required(f) ==> Get(o, f) == FieldValue(ev, f)
  {
    FieldsOfEvent(ev);
    hide Get;
    if forall f: Field :: Required(f) ==> Get(o, f) == FieldValue(ev, f) {
      hide FieldValue;
      assert Required(Id) && Required(ParentId) && Required(Seq) && Required(Ts) && Required(Actor) && Required(Kind)
        && Required(Payload);
    }
  }

  lemma {:induction false} FieldsOfEvent(ev: Event)
    ensures FieldValue(ev, Id) == Some(Str(ev.id)) && FieldValue(ev, Seq) == Some(Json.Int(ev.seqNo))
    ensures FieldValue(ev, Ts) == Some(Str(ev.ts)) && FieldValue(ev, Actor) == Some(Str(ev.actor))
    ensures FieldValue(ev, Kind) == Some(Str(ev.kind)) && FieldValue(ev, Payload) == Some(Obj(ev.payload))
    ensures FieldValue(ev, ParentId) == Some(if ev.parentId.Some? then Str(ev.parentId.value) else Null)
    ensures FieldValue(ev, ExecutionState) == OptStr(ev.executionState)
    ensures FieldValue(ev, SideEffects) == OptStr(ev.sideEffects)
    ensures FieldValue(ev, SourceLine) == (if ev.sourceLine.Some? then Some(Json.Int(ev.sourceLine.value)) else None)
  {
  }

  lemma {:induction false} KeysMean(o: map<PyStr, Json>, ev: Event)
    requires Mandatory(o, ev)
    ensures KeysOk(o) <==> forall k :: k in o ==> FieldNamed(k).Some? || Experimental(k)
  {
    hide KeyName, FieldNamed, Experimental;
    forall f | Required(f) ensures KeyName(f) in o { assert Get(o, f).Some?; }
  }

  lemma {:induction false} OptionsMean(o: map<PyStr, Json>, ev: Event)
    ensures (forall f: Field :: !Required(f) && f != SideEffects ==> OptionSaid(o, ev, f)) <==>
            (forall f :: StrField(f) ==> OptionSaid(o, ev, f)) && OptionSaid(o, ev, ExecutionState)
            && OptionSaid(o, ev, SourceLine)
  {
    hide OptionSaid;
    assert forall f: Field ::
        !Required(f) && f != SideEffects <==> StrField(f) || f == ExecutionState || f == SourceLine;
  }

  /** What is said and what is read is the same, where the contents are as the format asks. */
  lemma {:induction false} ReadsMean(o: map<PyStr, Json>, ev: Event)
    requires SoundEvent(ev)
    ensures Reads(o, ev) <==> RecordSays(o, ev)
  {
    FieldsOfEvent(ev);
    StateMeans(Get(o, ExecutionState), ev.executionState);
    LineMeans(Get(o, SourceLine), ev.sourceLine);
    EffectsMeans(Get(o, SideEffects), ev.payload, ev.sideEffects);
    hide FieldValue, Get, ReadState, ReadLine, ReadEffects, Within, ValidTs, BlankStr, Declared, Name, KeyName,
      FieldNamed, Experimental, VALID_STATES, VALID_SIDE_EFFECTS, VALID_ACTORS, VALID_KINDS;
    StrFieldsMean(o, ev);
    MandatoryMeans(o, ev);
    OptionsMean(o, ev);
    if Mandatory(o, ev) { KeysMean(o, ev); }
    hide Mandatory, StrFields, KeysOk, StrField, Required;
  }

  lemma {:induction false} SoundIsValid(rd: Reader, o: map<PyStr, Json>, ev: Event)
    requires SoundEvent(ev) && Reads(o, ev) && forall k :: k in o ==> FieldNamed(k).Some? || Experimental(k)
    ensures ValidEvent(rd, ev)
  {
    hide *;
    ReadsExtra(o, ev);
    ValidFrom(rd, ev);
  }

  lemma {:induction false} ValidFrom(rd: Reader, ev: Event)
    requires SoundEvent(ev) && (ev.sideEffects.None? ==> ReadEffects(None, ev.payload) == Some(None))
    requires forall k :: k in ev.extra ==> Experimental(k)
    ensures ValidEvent(rd, ev)
  {
    ValidateIsWithin(Obj(ev.payload), 1);
    hide Experimental, Within, ValidateDepth, ValidTs, BlankStr, ReadEffects, Name;
  }

  lemma {:induction false} ReadsExtra(o: map<PyStr, Json>, ev: Event)
    requires Reads(o, ev) && forall k :: k in o ==> FieldNamed(k).Some? || Experimental(k)
    ensures ev.sideEffects.None? ==> ReadEffects(None, ev.payload) == Some(None)
    ensures forall k :: k in ev.extra ==> Experimental(k)
  {
    EffectsRead(Get(o, SideEffects), ev.payload);
    hide FieldNamed, Experimental, ReadEffects, Get, KeyName, Mandatory, StrFields, KeysOk, ReadState, ReadLine, Name;
    assert forall k :: k in ev.extra ==> k in o && FieldNamed(k).None?;
  }

  lemma {:induction false} ValidIsSound(rd: Reader, ev: Event)
    requires ValidEvent(rd, ev)
    ensures SoundEvent(ev)
  {
    ValidateIsWithin(Obj(ev.payload), 1);
    hide Within, ValidateDepth, ValidTs, BlankStr, ReadEffects, Name, Experimental;
  }

  lemma {:induction false} OptionsOk(o: map<PyStr, Json>, ev: Event)
    requires Reads(o, ev)
    ensures OptionalOk(o, ev.payload)
  {
    hide ReadStr, ReadState, ReadLine, ReadEffects, Get, KeysOk, Mandatory, ExtraFields;
  }

  /** A record is accepted as an event exactly when it says what the event says and the event is as the format asks. */
  lemma {:induction false} EventMeans(rd: Reader, o: map<PyStr, Json>, ev: Event)
    ensures ParseEvent(rd, Obj(o)) == Some(ev) <==> RecordSays(o, ev) && SoundEvent(ev)
  {
    if ParseEvent(rd, Obj(o)) == Some(ev) {
      hide *;
      ParsedReads(rd, o, ev);
      ParsedEventIsValid(rd, Obj(o));
      ValidIsSound(rd, ev);
      ReadsMean(o, ev);
    }
    if RecordSays(o, ev) && SoundEvent(ev) {
      ReadsMean(o, ev);
      SoundIsValid(rd, o, ev);
      OptionsOk(o, ev);
      assert Mandatory(o, ev) && KeysOk(o) && StrFields(o, ev);
      hide RecordSays, SoundEvent, ValidEvent, KeysOk, Mandatory, StrFields, ExtraFields, OptionalOk, MandatoryOk,
        ReadState, ReadLine, ReadEffects, ReadParent, Get, ParseEvent;
      MandatoryChecks(rd, o, ev);
      ParentReads(rd, ev, o);
      EventOf(rd, o, ev);
    }
  }

  // ----- Which check of the parser decides -----

  datatype CheckResult = Passes | Rejects | Raises

  function Passing(ok: bool): CheckResult {
    if ok then Passes else Rejects
  }

  /** A test against a frozenset, which a list or an object makes raise. */
  function Membership(v: Json, allowed: set<PyStr>): CheckResult {
    if Unhashable(v) then Raises else Passing(v.Str? && v.s in allowed)
  }

  /** The value of a field; a missing one reads as null. */
  function Got(o: map<PyStr, Json>, f: Field): Json {
    if KeyName(f) in o then o[KeyName(f)] else Null
  }

  function OptionalText(v: Json): CheckResult {
    Passing(v.Null? || v.Str?)
  }

  /** The effects a record declares or, where it is silent, its payload does. */
  function EffectsCheck(v: Json, payload: Json): CheckResult {
    if v != Null then Passing(v.Str? && v.s in VALID_SIDE_EFFECTS)
    else if payload.Obj? && KeyName(SideEffects) in payload.fields
         && Unhashable(payload.fields[KeyName(SideEffects)]) then Raises
    else Passes
  }

  /** The checks of the event parser in the order they are made. */
  const ORDER: seq<Field> := [
    Id, ParentId, Seq, Ts, Actor, Kind, Payload, ContentHash, CorrelationId, BranchId, InteractionId, AgentId,
    ExecutionState, SourceLine, SourceRecordHash, OriginalId, SourceAdapter, SourceLocation, SideEffects]

  /** The check of one field. */
  function Check(o: map<PyStr, Json>, f: Field): CheckResult {
    var v := Got(o, f);
    match f
    case Id => Passing(v.Str? && !BlankStr(v.s))
    case ParentId => Passing(v.Null? || (v.Str? && !BlankStr(v.s) && v != Got(o, Id)))
    case Seq => Passing(v.Int? && v.n >= 0)
    case Ts => Passing(v.Str? && ValidTs(v.s))
    case Actor => Membership(v, VALID_ACTORS)
    case Kind => Membership(v, VALID_KINDS)
    case Payload => Passing(v.Obj? && ValidateDepth(v, 1))
    case ExecutionState => if v.Null? then Passes else Membership(v, VALID_STATES)
    case SourceLine => Passing(v.Null? || (v.Int? && v.n >= 1))
    case SideEffects => EffectsCheck(v, Got(o, Payload))
    case _ => OptionalText(v)
  }

  /** The first `n` checks pass. */
  ghost predicate Passed(o: map<PyStr, Json>, n: nat)
    requires n <= |ORDER|
  {
    KeysOk(o) && forall i :: 0 <= i < n ==> Check(o, ORDER[i]) == Passes
  }

  lemma {:induction false} PassedMore(o: map<PyStr, Json>, n: nat)
    requires n < |ORDER|
    ensures Passed(o, n + 1) <==> Passed(o, n) && Check(o, ORDER[n]) == Passes
  {
    hide Check, KeysOk;
  }

  /** The required fields, by the checks on them. */
  lemma {:induction false} RequiredGot(rd: Reader, o: map<PyStr, Json>)
    requires KeysOk(o)
    ensures GraphOk(rd, o) <==> Check(o, Id) == Check(o, ParentId) == Check(o, Seq) == Check(o, Ts) == Passes
    ensures Got(o, Actor) == o[KeyName(Actor)] && Got(o, Kind) == o[KeyName(Kind)]
    ensures Got(o, Payload) == o[KeyName(Payload)]
  {
    hide KeyName, KeysOk, ValidTs, BlankStr, Name;
    RequiredThere(o);
  }

  lemma {:induction false} TextGot(o: map<PyStr, Json>, f: Field)
    requires StrField(f)
    ensures ReadStr(Get(o, f)).Some? <==> Check(o, f) == Passes
  {
    hide KeyName;
  }

  lemma {:induction false} LinksGot(o: map<PyStr, Json>)
    ensures LinksOk(o) <==> Check(o, ContentHash) == Check(o, CorrelationId) == Check(o, BranchId)
                            == Check(o, InteractionId) == Check(o, AgentId) == Passes
  {
    hide Check, Get, ReadStr;
    TextGot(o, ContentHash); TextGot(o, CorrelationId); TextGot(o, BranchId); TextGot(o, InteractionId);
    TextGot(o, AgentId);
  }

  lemma {:induction false} SourceGot(o: map<PyStr, Json>)
    ensures SourceOk(o) <==> Check(o, SourceLine) == Check(o, SourceRecordHash) == Check(o, OriginalId)
                             == Check(o, SourceAdapter) == Check(o, SourceLocation) == Passes
  {
    LineGot(o);
    hide Check, Get, ReadStr, ReadLine;
    TextGot(o, SourceRecordHash); TextGot(o, OriginalId); TextGot(o, SourceAdapter); TextGot(o, SourceLocation);
  }

  lemma {:induction false} LineGot(o: map<PyStr, Json>)
    ensures ReadLine(Get(o, SourceLine)).Some? <==> Check(o, SourceLine) == Passes
  {
    hide KeyName;
  }

  lemma {:induction false} StateGot(o: map<PyStr, Json>)
    ensures ReadState(Get(o, ExecutionState)).Some? <==> Check(o, ExecutionState) == Passes
    ensures (match Get(o, ExecutionState) case Some(v) => Unhashable(v) case None => false) <==>
            Check(o, ExecutionState) == Raises
  {
    hide KeyName, VALID_STATES;
  }

  lemma {:induction false} EffectsGot(o: map<PyStr, Json>)
    requires Got(o, Payload).Obj?
    ensures var e := ReadEffects(Get(o, SideEffects), Got(o, Payload).fields);
            && (e.Some? <==> Check(o, SideEffects) == Passes)
            && (Check(o, SideEffects) == Raises <==>
                  ReadStr(Get(o, SideEffects)) == Some(None) && KeyName(SideEffects) in Got(o, Payload).fields
                  && Unhashable(Got(o, Payload).fields[KeyName(SideEffects)]))
  {
    hide KeyName, VALID_SIDE_EFFECTS;
  }

  lemma {:induction false} OrderIs()
    ensures |ORDER| == 19 && ORDER[0] == Id && ORDER[1] == ParentId && ORDER[2] == Seq && ORDER[3] == Ts
    ensures ORDER[4] == Actor && ORDER[5] == Kind && ORDER[6] == Payload && ORDER[7] == ContentHash
    ensures ORDER[8] == CorrelationId && ORDER[9] == BranchId && ORDER[10] == InteractionId && ORDER[11] == AgentId
    ensures ORDER[12] == ExecutionState && ORDER[13] == SourceLine && ORDER[14] == SourceRecordHash
    ensures ORDER[15] == OriginalId && ORDER[16] == SourceAdapter && ORDER[17] == SourceLocation
    ensures ORDER[18] == SideEffects
  {
  }

  /** How far the checks have come where the parser has read the fields of the graph. */
  lemma {:induction false} GraphPassed(rd: Reader, o: map<PyStr, Json>)
    ensures |ORDER| == 19 && (Passed(o, 4) <==> KeysOk(o) && GraphOk(rd, o))
  {
    assert Passed(o, 0) <==> KeysOk(o) by { hide Check, KeysOk; }
    if KeysOk(o) { RequiredGot(rd, o); }
    hide *;
    OrderIs();
    PassedMore(o, 0); PassedMore(o, 1); PassedMore(o, 2); PassedMore(o, 3);
  }

  lemma {:induction false} PayloadPassed(o: map<PyStr, Json>)
    ensures |ORDER| == 19 && (Passed(o, 5) <==> Passed(o, 4) && Check(o, Actor) == Passes)
    ensures Passed(o, 7) <==> Passed(o, 5) && Check(o, Kind) == Passes && Check(o, Payload) == Passes
  {
    hide *;
    OrderIs();
    PassedMore(o, 4); PassedMore(o, 5); PassedMore(o, 6);
  }

  lemma {:induction false} LinksPassed(o: map<PyStr, Json>)
    ensures |ORDER| == 19 && (Passed(o, 12) <==> Passed(o, 7) && LinksOk(o))
  {
    hide *;
    OrderIs();
    LinksGot(o);
    PassedMore(o, 7); PassedMore(o, 8); PassedMore(o, 9); PassedMore(o, 10); PassedMore(o, 11);
  }

  lemma {:induction false} SourcePassed(o: map<PyStr, Json>)
    ensures |ORDER| == 19 && (Passed(o, 18) <==> Passed(o, 12) && Check(o, ExecutionState) == Passes && SourceOk(o))
    ensures Passed(o, 19) <==> Passed(o, 18) && Check(o, SideEffects) == Passes
  {
    hide *;
    OrderIs();
    SourceGot(o);
    PassedMore(o, 12); PassedMore(o, 13); PassedMore(o, 14); PassedMore(o, 15); PassedMore(o, 16); PassedMore(o, 17);
    PassedMore(o, 18);
  }

  lemma {:induction false} OnlyThese(o: map<PyStr, Json>, f: Field)
    requires Check(o, f) == Raises
    ensures f == Actor || f == Kind || f == ExecutionState || f == SideEffects
  {
    hide KeyName, BlankStr, ValidTs, ValidateDepth, Name;
  }

  lemma {:induction false} RequiredChecks(o: map<PyStr, Json>)
    ensures Check(o, Actor) == Passes <==> Got(o, Actor).Str? && Got(o, Actor).s in VALID_ACTORS
    ensures Check(o, Kind) == Passes <==> Got(o, Kind).Str? && Got(o, Kind).s in VALID_KINDS
    ensures Check(o, Payload) == Passes <==> Got(o, Payload).Obj? && ValidateDepth(Got(o, Payload), 1)
    ensures Check(o, Actor) == Raises <==> Unhashable(Got(o, Actor))
    ensures Check(o, Kind) == Raises <==> Unhashable(Got(o, Kind))
  {
    hide Got, VALID_ACTORS, VALID_KINDS, ValidateDepth;
  }

  lemma {:induction false} MandatoryChecked(rd: Reader, o: map<PyStr, Json>)
    requires KeysOk(o)
    ensures MandatoryOk(rd, o) <==> Passed(o, 7)
    ensures MandatoryOk(rd, o) ==>
              Got(o, Payload).Obj? && KeyName(Payload) in o && Got(o, Payload) == o[KeyName(Payload)]
  {
    GraphPassed(rd, o);
    RequiredGot(rd, o);
    RequiredThere(o);
    RequiredChecks(o);
    hide Passed, Check, KeysOk, Got, KeyName, ValidateDepth, ValidTs, BlankStr, ReadParent, VALID_ACTORS, VALID_KINDS,
      ORDER;
    PayloadPassed(o);
  }

  lemma {:induction false} OptionalChecked(o: map<PyStr, Json>)
    requires Got(o, Payload).Obj?
    ensures OptionalOk(o, Got(o, Payload).fields) <==>
            LinksOk(o) && Check(o, ExecutionState) == Passes && SourceOk(o) && Check(o, SideEffects) == Passes
  {
    StateGot(o);
    EffectsGot(o);
    hide Check, Got, Get, ReadStr, ReadState, ReadLine, ReadEffects;
  }

  lemma {:induction false} ParseSome(rd: Reader, o: map<PyStr, Json>)
    ensures ParseEvent(rd, Obj(o)).Some? <==>
            && KeysOk(o) && MandatoryOk(rd, o)
            && Got(o, Payload).Obj? && OptionalOk(o, Got(o, Payload).fields)
  {
    if KeysOk(o) && MandatoryOk(rd, o) { MandatoryChecked(rd, o); }
    hide KeysOk, MandatoryOk, OptionalOk, KeyName, Got, Get, ReadStr, ReadState, ReadLine, ReadEffects, ReadParent,
      ExtraFields;
  }

  lemma {:induction false} PassedKeys(o: map<PyStr, Json>, n: nat)
    requires n <= |ORDER| && Passed(o, n)
    ensures KeysOk(o)
  {
    hide KeysOk, Check, ORDER;
  }

  /** A record is accepted exactly when all checks pass. */
  lemma {:induction false} AcceptedIff(rd: Reader, o: map<PyStr, Json>)
    ensures ParseEvent(rd, Obj(o)).Some? <==> Passed(o, |ORDER|)
  {
    hide *;
    OrderIs();
    ParseSome(rd, o);
    LinksPassed(o);
    SourcePassed(o);
    if KeysOk(o) {
      MandatoryChecked(rd, o);
      if Got(o, Payload).Obj? { OptionalChecked(o); }
    }
    if Passed(o, 19) { PassedKeys(o, 19); }
  }

  /** The four tests that can raise, where they stand in the parser's text. */
  ghost predicate RaisesSomewhere(o: map<PyStr, Json>)
    requires |ORDER| == 19
  {
    || (Passed(o, 4) && Check(o, Actor) == Raises)
    || (Passed(o, 5) && Check(o, Kind) == Raises)
    || (Passed(o, 12) && Check(o, ExecutionState) == Raises)
    || (Passed(o, 18) && Check(o, SideEffects) == Raises)
  }

  ghost predicate LateRaise(o: map<PyStr, Json>) {
    LinksOk(o) &&
    (Check(o, ExecutionState) == Raises ||
     (Check(o, ExecutionState) == Passes && SourceOk(o) && Check(o, SideEffects) == Raises))
  }

  lemma {:induction false} LateText(o: map<PyStr, Json>)
    requires Got(o, Payload).Obj?
    ensures LateRaise(o) <==>
            LinksOk(o) &&
            match Get(o, ExecutionState)
            case Some(Arr(_)) => true
            case Some(Obj(_)) => true
            case state =>
              && ReadState(state).Some? && SourceOk(o) && ReadStr(Get(o, SideEffects)) == Some(None)
              && KeyName(SideEffects) in Got(o, Payload).fields
              && Unhashable(Got(o, Payload).fields[KeyName(SideEffects)])
  {
    StateGot(o);
    EffectsGot(o);
    hide Check, LinksOk, SourceOk, Got, Get, KeyName, ReadStr, ReadState;
  }

  lemma {:induction false} RaisesText(rd: Reader, o: map<PyStr, Json>)
    requires KeysOk(o) && GraphOk(rd, o)
    ensures RaisesTypeError(rd, o) <==>
            Check(o, Actor) == Raises ||
            (Check(o, Actor) == Passes &&
             (Check(o, Kind) == Raises ||
              (Check(o, Kind) == Passes && Check(o, Payload) == Passes && LateRaise(o))))
  {
    RequiredGot(rd, o);
    RequiredThere(o);
    hide Check, KeysOk, GraphOk, LinksOk, SourceOk, Got, KeyName, ValidateDepth, ReadStr, ReadState, VALID_ACTORS,
      VALID_KINDS, LateRaise, Get;
    RequiredChecks(o);
    if Got(o, Payload).Obj? { LateText(o); }
  }

  lemma {:induction false} RaisesParts(rd: Reader, o: map<PyStr, Json>)
    ensures |ORDER| == 19 && (RaisesTypeError(rd, o) <==> RaisesSomewhere(o))
  {
    OrderIs();
    RaisesLate(rd, o);
    hide Passed, Check, KeysOk, GraphOk, LinksOk, SourceOk, ORDER, RaisesTypeError;
    GraphPassed(rd, o);
    PayloadPassed(o);
    LinksPassed(o);
    SourcePassed(o);
    if KeysOk(o) && GraphOk(rd, o) { RaisesText(rd, o); }
  }

  lemma {:induction false} RaisesLate(rd: Reader, o: map<PyStr, Json>)
    ensures RaisesTypeError(rd, o) ==> KeysOk(o) && GraphOk(rd, o)
  {
    hide KeysOk, GraphOk, LinksOk, SourceOk, Unhashable, Got;
  }

  lemma {:induction false} RaisingPlace(o: map<PyStr, Json>, n: nat)
    requires n < |ORDER| && Check(o, ORDER[n]) == Raises
    ensures n in {4, 5, 12, 18}
  {
    hide Check, ORDER;
    OnlyThese(o, ORDER[n]);
    OrderIs();
  }

  /** The parser lets a `TypeError` escape exactly when the first check that does not pass is one that raises. */
  lemma {:induction false} TypeErrorIs(rd: Reader, o: map<PyStr, Json>)
    ensures RaisesTypeError(rd, o) <==>
            exists n: nat :: n < |ORDER| && Passed(o, n) && Check(o, ORDER[n]) == Raises
  {
    hide Passed, Check, ORDER, RaisesTypeError;
    RaisesParts(rd, o);
    OrderIs();
    forall n: nat | n < |ORDER| && Check(o, ORDER[n]) == Raises ensures n in {4, 5, 12, 18} { RaisingPlace(o, n); }
  }
}
