/** Content identity of events, and identity up to what parsing again would change. */
module Identity {
  import opened Options
  import opened PyText
  import opened JsonValues
  import opened JsonPrinter
  import opened JsonRoundTrip
  import opened SessionModel
  import opened SessionRoundTrip
  import opened Utf8

  // ----- Dictionaries without some of their fields -----

  const PROVENANCE: set<Field> := {SourceLine, SourceLocation, SourceRecordHash}

  function KeysOf(fs: set<Field>): set<PyStr> {
    set f | f in fs :: KeyName(f)
  }

  /** The extras that are written: only experimental ones are. */
  function Serialised(extra: map<PyStr, Json>): map<PyStr, Json> {
    map k | k in extra && Experimental(k) :: extra[k]
  }

  /** The events agree on everything that is written except the fields in `omit`. */
  ghost predicate SameBut(a: Event, b: Event, omit: set<Field>) {
    && (forall f :: f !in omit ==> FieldValue(a, f) == FieldValue(b, f))
    && Serialised(a.extra) == Serialised(b.extra)
  }

  lemma {:induction false} OmittedKey(f: Field, omit: set<Field>)
    ensures KeyName(f) in KeysOf(omit) <==> f in omit
  {
    hide KeyName;
    if KeyName(f) in KeysOf(omit) {
      var g :| g in omit && KeyName(g) == KeyName(f);
      KeyInjective(f, g);
    }
  }

  lemma {:induction false} ExtraKept(a: Event, omit: set<Field>, k: PyStr)
    requires Experimental(k)
    ensures var d := CanonicalDict(a) - KeysOf(omit);
            (k in d <==> k in a.extra) && (k in d ==> d[k] == a.extra[k])
  {
    hide KeyName, Experimental, FieldNamed;
    ExperimentalUnknown(k);
    forall f ensures KeyName(f) != k { FieldNamedIs(f); }
  }

  lemma {:induction false} SameButSameDict(a: Event, b: Event, omit: set<Field>)
    requires SameBut(a, b, omit)
    ensures CanonicalDict(a) - KeysOf(omit) == CanonicalDict(b) - KeysOf(omit)
  {
    hide KeyName, Experimental, FieldNamed, CanonicalDict, FieldValue;
    var x, y := CanonicalDict(a) - KeysOf(omit), CanonicalDict(b) - KeysOf(omit);
    forall k | k !in KeysOf(omit) ensures DictValue(a, k) == DictValue(b, k) {
      if FieldNamed(k).Some? {
        NamedKey(k);
        OmittedKey(FieldNamed(k).value, omit);
      } else if Experimental(k) {
        assert k in a.extra <==> k in Serialised(a.extra);
        assert k in b.extra <==> k in Serialised(b.extra);
        assert k in a.extra ==> a.extra[k] == Serialised(a.extra)[k];
        assert k in b.extra ==> b.extra[k] == Serialised(b.extra)[k];
      }
    }
    assert forall k :: k in x <==> k in y;
    assert forall k :: k in x ==> x[k] == y[k];
  }

  lemma {:induction false} NamedKey(k: PyStr)
    requires FieldNamed(k).Some?
    ensures KeyName(FieldNamed(k).value) == k
  {
    hide KeyName;
  }

  lemma {:induction false} SameDictSameBut(a: Event, b: Event, omit: set<Field>)
    requires CanonicalDict(a) - KeysOf(omit) == CanonicalDict(b) - KeysOf(omit)
    ensures SameBut(a, b, omit)
  {
    hide KeyName, Experimental, FieldNamed, CanonicalDict, FieldValue, KeysOf;
    forall f | f !in omit ensures FieldValue(a, f) == FieldValue(b, f) {
      OmittedKey(f, omit);
      DictField(a, f);
      DictField(b, f);
      assert KeyName(f) in CanonicalDict(a) <==> KeyName(f) in CanonicalDict(a) - KeysOf(omit);
      assert KeyName(f) in CanonicalDict(b) <==> KeyName(f) in CanonicalDict(b) - KeysOf(omit);
    }
    var x, y := Serialised(a.extra), Serialised(b.extra);
    forall k | Experimental(k) ensures (k in x <==> k in y) && (k in x ==> x[k] == y[k]) {
      ExtraKept(a, omit, k);
      ExtraKept(b, omit, k);
    }
    assert x == y;
  }

  // ----- `content_identity_bytes` -----

  function ContentDict(ev: Event): map<PyStr, Json> {
    CanonicalDict(ev) - KeysOf(PROVENANCE)
  }

  /** `content_identity_bytes(event)`, nothing when it raises `SchemaError`. */
  function ContentBytes(ev: Event): Option<seq<byte>> {
    CanonicalBytes(Obj(ContentDict(ev)))
  }

  /** Agreement on every serialised field except the three provenance ones. */
  ghost predicate SameContent(a: Event, b: Event) {
    && a.id == b.id && a.parentId == b.parentId && a.seqNo == b.seqNo && a.ts == b.ts && a.actor == b.actor
    && a.kind == b.kind && a.payload == b.payload && a.contentHash == b.contentHash
    && a.correlationId == b.correlationId && a.branchId == b.branchId && a.interactionId == b.interactionId
    && a.agentId == b.agentId && a.executionState == b.executionState && a.originalId == b.originalId
    && a.sourceAdapter == b.sourceAdapter && a.sideEffects == b.sideEffects
    && Serialised(a.extra) == Serialised(b.extra)
  }

  lemma {:induction false} SameContentIs(a: Event, b: Event)
    ensures SameContent(a, b) <==> SameBut(a, b, PROVENANCE)
  {
    hide Serialised;
    if SameContent(a, b) {
      forall f | f !in PROVENANCE ensures FieldValue(a, f) == FieldValue(b, f) { }
    }
    if SameBut(a, b, PROVENANCE) {
      hide FieldValue, PROVENANCE;
      SameRequired(a, b);
      SameOptional(a, b);
      SameOrigin(a, b);
    }
  }

  lemma {:induction false} SameValue(a: Event, b: Event, f: Field)
    requires f !in PROVENANCE && forall g :: g !in PROVENANCE ==> FieldValue(a, g) == FieldValue(b, g)
    ensures FieldValue(a, f) == FieldValue(b, f)
  {
    hide FieldValue, PROVENANCE;
  }

  /** The fields that are always written, from the values under their names. */
  lemma {:induction false} FieldsOf(ev: Event)
    ensures FieldValue(ev, Id) == Some(Str(ev.id)) && FieldValue(ev, Seq) == Some(Json.Int(ev.seqNo))
    ensures FieldValue(ev, Ts) == Some(Str(ev.ts)) && FieldValue(ev, Actor) == Some(Str(ev.actor))
    ensures FieldValue(ev, Kind) == Some(Str(ev.kind)) && FieldValue(ev, Payload) == Some(Obj(ev.payload))
    ensures FieldValue(ev, ParentId) == Some(if ev.parentId.Some? then Str(ev.parentId.value) else Null)
  {
  }

  lemma {:induction false} SameRequired(a: Event, b: Event)
    requires forall f :: f !in PROVENANCE ==> FieldValue(a, f) == FieldValue(b, f)
    ensures a.id == b.id && a.parentId == b.parentId && a.seqNo == b.seqNo && a.ts == b.ts && a.actor == b.actor
    ensures a.kind == b.kind && a.payload == b.payload
  {
    SameValue(a, b, Id); SameValue(a, b, ParentId); SameValue(a, b, Seq); SameValue(a, b, Ts); SameValue(a, b, Actor);
    SameValue(a, b, Kind); SameValue(a, b, Payload);
    FieldsOf(a);
    FieldsOf(b);
    hide PROVENANCE, FieldValue;
  }

  lemma {:induction false} SameOptional(a: Event, b: Event)
    requires forall f :: f !in PROVENANCE ==> FieldValue(a, f) == FieldValue(b, f)
    ensures a.contentHash == b.contentHash && a.correlationId == b.correlationId && a.branchId == b.branchId
    ensures a.interactionId == b.interactionId && a.agentId == b.agentId
  {
    SameValue(a, b, ContentHash); SameValue(a, b, CorrelationId); SameValue(a, b, BranchId);
    SameValue(a, b, InteractionId); SameValue(a, b, AgentId);
    hide PROVENANCE;
  }

  lemma {:induction false} SameOrigin(a: Event, b: Event)
    requires forall f :: f !in PROVENANCE ==> FieldValue(a, f) == FieldValue(b, f)
    ensures a.executionState == b.executionState && a.originalId == b.originalId
    ensures a.sourceAdapter == b.sourceAdapter && a.sideEffects == b.sideEffects
  {
    SameValue(a, b, ExecutionState); SameValue(a, b, OriginalId); SameValue(a, b, SourceAdapter);
    SameValue(a, b, SideEffects);
    hide PROVENANCE;
  }

  lemma {:induction false} ContentLawful(fl: FloatReader, a: Event)
    requires LawfulEvent(fl, a)
    ensures Lawful(fl, Obj(ContentDict(a)))
  {
    hide CanonicalDict, KeysOf, LawfulEvent;
    DictLawful(Reader(fl), a);
  }

  /** The identity bytes are equal exactly when the events agree on everything written but provenance. */
  lemma {:induction false} ContentIdentityIff(fl: FloatReader, a: Event, b: Event)
    requires LawfulEvent(fl, a) && LawfulEvent(fl, b)
    requires ContentBytes(a).Some? && ContentBytes(b).Some?
    ensures ContentBytes(a) == ContentBytes(b) <==> SameContent(a, b)
  {
    hide CanonicalBytes, LawfulEvent, CanonicalDict, KeysOf, SameBut, SameContent;
    SameContentIs(a, b);
    ContentLawful(fl, a);
    ContentLawful(fl, b);
    if SameContent(a, b) {
      SameButSameDict(a, b, PROVENANCE);
    }
    if ContentBytes(a) == ContentBytes(b) {
      CanonicalInjective(fl, Obj(ContentDict(a)), Obj(ContentDict(b)));
      SameDictSameBut(a, b, PROVENANCE);
    }
  }

  // ----- `reparse_identity_hashes` -----

  const SYNTHETIC := Name("sesslint:synthetic:")

  predicate Synthetic(id: PyStr) {
    SYNTHETIC <= id
  }

  /** A synthetic id begins with the prefix, with or without something behind it. */
  lemma {:induction false} SyntheticIs(id: PyStr)
    ensures Synthetic(id) <==> exists rest: PyStr :: id == Name("sesslint:synthetic:") + rest
  {
    hide Name;
    if Synthetic(id) { assert id == SYNTHETIC + id[|SYNTHETIC|..]; }
  }

  /** `id_to_pos` after the first `n` events: the first position of each synthetic id. */
  function Positions(events: seq<Event>, n: nat): (pos: map<PyStr, nat>)
    requires n <= |events|
    ensures forall i :: 0 <= i < n && Synthetic(events[i].id) ==> events[i].id in pos && pos[events[i].id] <= i
    ensures forall x :: x in pos ==> Synthetic(x) && pos[x] < n && events[pos[x]].id == x
  {
    if n == 0 then map[]
    else
      var pos := Positions(events, n - 1);
      var id := events[n - 1].id;
      if Synthetic(id) && id !in pos then pos[id := n - 1] else pos
  }

  function IdValue(pos: map<PyStr, nat>, id: PyStr, i: nat): Json {
    if Synthetic(id) then Json.Int(if id in pos then pos[id] else i) else Str(id)
  }

  function ParentValue(pos: map<PyStr, nat>, parent: Option<PyStr>): Json {
    match parent
    case None => Null
    case Some(pid) => if Synthetic(pid) && pid in pos then Json.Int(pos[pid]) else Str(pid)
  }

  /** The dictionary that is hashed for the event at position `i`. */
  function ReparseDict(pos: map<PyStr, nat>, ev: Event, i: nat): map<PyStr, Json> {
    ContentDict(ev)
      [KeyName(Seq) := Json.Int(i)]
      [KeyName(Id) := IdValue(pos, ev.id, i)]
      [KeyName(ParentId) := ParentValue(pos, ev.parentId)]
  }

  function Preimage(events: seq<Event>, i: nat): Option<seq<byte>>
    requires i < |events|
  {
    CanonicalBytes(Obj(ReparseDict(Positions(events, |events|), events[i], i)))
  }

  predicate Hashable(events: seq<Event>, n: nat)
    requires n <= |events|
  {
    forall i :: 0 <= i < n ==> Preimage(events, i).Some?
  }

  /** The first `n` identity hashes. */
  function Hashes(hash: seq<byte> -> PyStr, events: seq<Event>, n: nat): seq<PyStr>
    requires n <= |events| && Hashable(events, n)
  {
    seq(n, i requires 0 <= i < n => hash(Preimage(events, i).value))
  }

  lemma {:induction false} Kept(ev: Event, f: Field)
    requires f !in PROVENANCE
    ensures Get(ContentDict(ev), f) == FieldValue(ev, f)
  {
    hide KeyName, CanonicalDict, KeysOf, PROVENANCE, FieldValue;
    DictField(ev, f);
    OmittedKey(f, PROVENANCE);
  }

  lemma {:induction false} GraphKeysDiffer()
    ensures KeyName(Id) != KeyName(ParentId) && KeyName(Id) != KeyName(Seq) && KeyName(ParentId) != KeyName(Seq)
  {
    hide KeyName;
    FieldNamedIs(Id);
    FieldNamedIs(ParentId);
    FieldNamedIs(Seq);
    hide FieldNamed;
  }

  lemma {:induction false} IdThere(ev: Event)
    ensures Get(ContentDict(ev), Id) == Some(Str(ev.id))
    ensures Get(ContentDict(ev), ParentId) == Some(if ev.parentId.Some? then Str(ev.parentId.value) else Null)
  {
    hide KeyName, ContentDict, Get;
    Kept(ev, Id);
    Kept(ev, ParentId);
  }

  /** Overwriting only where a position replaces the text gives the same dictionary. */
  lemma {:induction false} StagedDict(pos: map<PyStr, nat>, ev: Event, i: nat, d0: map<PyStr, Json>,
                                      d1: map<PyStr, Json>, d: map<PyStr, Json>)
    requires d0 == ContentDict(ev)[KeyName(Seq) := Json.Int(i)]
    requires d1 == if Synthetic(ev.id) then d0[KeyName(Id) := IdValue(pos, ev.id, i)] else d0
    requires d == if ev.parentId.Some? && Synthetic(ev.parentId.value) && ev.parentId.value in pos
                  then d1[KeyName(ParentId) := ParentValue(pos, ev.parentId)] else d1
    ensures d == ReparseDict(pos, ev, i)
  {
    hide KeyName, ContentDict, Synthetic;
    IdThere(ev);
    GraphKeysDiffer();
    assert d1 == d0[KeyName(Id) := IdValue(pos, ev.id, i)];
    assert d == d1[KeyName(ParentId) := ParentValue(pos, ev.parentId)];
  }

  /** The edits on one event's dictionary, each made only where it changes something. */
  method RewriteEvent(idToPos: map<PyStr, nat>, ev: Event, i: nat) returns (d: map<PyStr, Json>)
    ensures d == ReparseDict(idToPos, ev, i)
  {
    hide Synthetic, ContentDict, KeyName, ReparseDict;
    d := ContentDict(ev)[KeyName(Seq) := Json.Int(i)];
    ghost var d0 := d;
    if Synthetic(ev.id) {
      d := d[KeyName(Id) := Json.Int(if ev.id in idToPos then idToPos[ev.id] else i)];
    }
    ghost var d1 := d;
    if ev.parentId.Some? && Synthetic(ev.parentId.value) && ev.parentId.value in idToPos {
      d := d[KeyName(ParentId) := Json.Int(idToPos[ev.parentId.value])];
    }
    StagedDict(idToPos, ev, i, d0, d1, d);
  }

  /** The first event of that id. */
  ghost predicate FirstAt(events: seq<Event>, id: PyStr, j: nat) {
    j < |events| && events[j].id == id && forall k :: 0 <= k < j ==> events[k].id != id
  }

  /** What a reference to an id becomes: the place of the first event of that id, when the id is synthetic and there is
      one, otherwise the id. */
  ghost predicate RefersTo(events: seq<Event>, id: PyStr, v: Json) {
    if Synthetic(id) && exists j: nat :: FirstAt(events, id, j) then
      exists j: nat :: FirstAt(events, id, j) && v == Json.Int(j)
    else v == Str(id)
  }

  lemma {:induction false} PositionIsFirst(events: seq<Event>, id: PyStr)
    requires Synthetic(id)
    ensures var pos := Positions(events, |events|);
            if id in pos then FirstAt(events, id, pos[id]) else forall j: nat :: !FirstAt(events, id, j)
  {
    hide Synthetic;
  }

  /** What is hashed for the event at place `i`: its place, its id and its parent as places, no provenance, and every
      other field as it is. */
  ghost predicate HashedSays(events: seq<Event>, i: nat, d: map<PyStr, Json>)
    requires i < |events|
  {
    var ev := events[i];
    && Get(d, Seq) == Some(Json.Int(i))
    && Get(d, Id).Some? && RefersTo(events, ev.id, Get(d, Id).value)
    && Get(d, ParentId).Some?
    && (if ev.parentId.None? then Get(d, ParentId) == Some(Null)
        else RefersTo(events, ev.parentId.value, Get(d, ParentId).value))
    && Get(d, SourceLine) == Get(d, SourceLocation) == Get(d, SourceRecordHash) == None
    && (forall f :: f !in {Seq, Id, ParentId, SourceLine, SourceLocation, SourceRecordHash} ==>
          Get(d, f) == FieldValue(ev, f))
    && (forall k :: FieldNamed(k).None? ==>
          (k in d <==> Experimental(k) && k in ev.extra) && (k in d ==> d[k] == ev.extra[k]))
  }

  lemma {:induction false} IdRefers(events: seq<Event>, i: nat)
    requires i < |events|
    ensures RefersTo(events, events[i].id, IdValue(Positions(events, |events|), events[i].id, i))
  {
    hide Positions, Synthetic;
    var id := events[i].id;
    if Synthetic(id) {
      PositionIsFirst(events, id);
      FirstExists(events, id, i);
    }
  }

  lemma {:induction false} FirstExists(events: seq<Event>, id: PyStr, i: nat)
    requires i < |events| && events[i].id == id
    ensures exists j: nat :: FirstAt(events, id, j)
    decreases i
  {
    if k :| 0 <= k < i && events[k].id == id { FirstExists(events, id, k); } else { assert FirstAt(events, id, i); }
  }

  lemma {:induction false} ParentRefers(events: seq<Event>, parent: Option<PyStr>)
    ensures var v := ParentValue(Positions(events, |events|), parent);
            if parent.None? then v == Null else RefersTo(events, parent.value, v)
  {
    hide Positions, Synthetic;
    if parent.Some? && Synthetic(parent.value) { PositionIsFirst(events, parent.value); }
  }

  lemma {:induction false} ReparseField(pos: map<PyStr, nat>, ev: Event, i: nat, f: Field)
    ensures var d := ReparseDict(pos, ev, i);
            Get(d, f) == match f
              case Seq => Some(Json.Int(i))
              case Id => Some(IdValue(pos, ev.id, i))
              case ParentId => Some(ParentValue(pos, ev.parentId))
              case SourceLine => None
              case SourceLocation => None
              case SourceRecordHash => None
              case _ => FieldValue(ev, f)
  {
    hide KeyName, CanonicalDict, IdValue, ParentValue, KeysOf, FieldValue;
    GraphKeysDiffer();
    OmittedKey(f, PROVENANCE);
    if KeyName(f) == KeyName(Seq) { KeyInjective(f, Seq); }
    if KeyName(f) == KeyName(Id) { KeyInjective(f, Id); }
    if KeyName(f) == KeyName(ParentId) { KeyInjective(f, ParentId); }
    if f !in PROVENANCE { Kept(ev, f); }
  }

  lemma {:induction false} ReparseOther(pos: map<PyStr, nat>, ev: Event, i: nat, k: PyStr)
    requires FieldNamed(k).None?
    ensures var d := ReparseDict(pos, ev, i);
            (k in d <==> Experimental(k) && k in ev.extra) && (k in d ==> d[k] == ev.extra[k])
  {
    hide KeyName, IdValue, ParentValue, FieldNamed, Experimental;
    forall f: Field ensures KeyName(f) != k { FieldNamedIs(f); }
    assert k !in KeysOf(PROVENANCE);
    assert k in CanonicalDict(ev) <==> DictValue(ev, k).Some?;
    hide CanonicalDict, KeysOf;
  }

  /** The dictionary that is hashed says just that. */
  lemma {:induction false} HashedIs(events: seq<Event>, i: nat)
    requires i < |events|
    ensures HashedSays(events, i, ReparseDict(Positions(events, |events|), events[i], i))
  {
    hide Positions, ReparseDict, IdValue, ParentValue, FieldValue, Get, FieldNamed, Experimental, RefersTo;
    var pos, ev := Positions(events, |events|), events[i];
    IdRefers(events, i);
    ParentRefers(events, ev.parentId);
    var d := ReparseDict(pos, ev, i);
    forall f | f !in {Seq, Id, ParentId, SourceLine, SourceLocation, SourceRecordHash}
      ensures Get(d, f) == FieldValue(ev, f) {
      ReparseField(pos, ev, i, f);
    }
    forall k | FieldNamed(k).None? { ReparseOther(pos, ev, i, k); }
    ReparseField(pos, ev, i, Seq); ReparseField(pos, ev, i, Id); ReparseField(pos, ev, i, ParentId);
    ReparseField(pos, ev, i, SourceLine); ReparseField(pos, ev, i, SourceLocation);
    ReparseField(pos, ev, i, SourceRecordHash);
  }

  lemma {:induction false} NoHashes(hash: seq<byte> -> PyStr, events: seq<Event>)
    ensures Hashable(events, 0) && Hashes(hash, events, 0) == []
  {
  }

  lemma {:induction false} PositionsStep(events: seq<Event>, i: nat)
    requires i < |events|
    ensures var pos, id := Positions(events, i), events[i].id;
            Positions(events, i + 1) == if Synthetic(id) && id !in pos then pos[id := i] else pos
  {
    hide Synthetic;
  }

  lemma {:induction false} OneMoreHash(hash: seq<byte> -> PyStr, events: seq<Event>, i: nat)
    requires i < |events| && Hashable(events, i) && Preimage(events, i).Some?
    ensures Hashable(events, i + 1)
    ensures Hashes(hash, events, i + 1) == Hashes(hash, events, i) + [hash(Preimage(events, i).value)]
  {
    hide Preimage;
  }

  lemma {:induction false} PreimageOf(events: seq<Event>, i: nat)
    requires i < |events|
    ensures Preimage(events, i) == CanonicalBytes(Obj(ReparseDict(Positions(events, |events|), events[i], i)))
    ensures Preimage(events, i).None? ==> !Hashable(events, |events|)
  {
    hide CanonicalBytes, ReparseDict, Positions;
  }

  /** `reparse_identity_hashes(events)`, nothing when it raises `SchemaError`. */
  method ReparseIdentityHashes(hash: seq<byte> -> PyStr, events: seq<Event>) returns (hashes: Option<seq<PyStr>>)
    ensures hashes.Some? <==> Hashable(events, |events|)
    ensures hashes.Some? ==> hashes.value == Hashes(hash, events, |events|)
  {
    NoHashes(hash, events);
    assert Positions(events, 0) == map[];
    hide *;
    var idToPos: map<PyStr, nat> := map[];
    for i := 0 to |events|
      invariant idToPos == Positions(events, i)
    {
      PositionsStep(events, i);
      if Synthetic(events[i].id) && events[i].id !in idToPos {
        idToPos := idToPos[events[i].id := i];
      }
    }
    var out: seq<PyStr> := [];
    for i := 0 to |events|
      invariant Hashable(events, i) && out == Hashes(hash, events, i)
    {
      var d := RewriteEvent(idToPos, events[i], i);
      var encoded := CanonicalBytes(Obj(d));
      PreimageOf(events, i);
      if encoded.None? {
        return None;
      }
      OneMoreHash(hash, events, i);
      out := out + [hash(encoded.value)];
    }
    return Some(out);
  }

  // ----- What the hash list is an invariant of -----

  const REPLACED: set<Field> := {SourceLine, SourceLocation, SourceRecordHash, Id, ParentId, Seq}

  lemma {:induction false} ReparseParts(pos: map<PyStr, nat>, ev: Event, i: nat)
    ensures var d := ReparseDict(pos, ev, i);
            && Get(d, Id) == Some(IdValue(pos, ev.id, i)) && Get(d, ParentId) == Some(ParentValue(pos, ev.parentId))
            && d - KeysOf(REPLACED) == CanonicalDict(ev) - KeysOf(REPLACED)
            && d == (CanonicalDict(ev) - KeysOf(REPLACED))[KeyName(Seq) := Json.Int(i)]
                 [KeyName(Id) := IdValue(pos, ev.id, i)][KeyName(ParentId) := ParentValue(pos, ev.parentId)]
  {
    hide KeyName, CanonicalDict, IdValue, ParentValue, KeysOf, PROVENANCE, REPLACED;
    GraphKeysDiffer();
    SplitReplaced();
    Replace(CanonicalDict(ev), KeysOf(PROVENANCE), KeyName(Seq), Json.Int(i), KeyName(Id), IdValue(pos, ev.id, i),
            KeyName(ParentId), ParentValue(pos, ev.parentId));
  }

  /** Writing three keys of a dictionary leaves the rest as it was. */
  lemma {:induction false} Replace(d: map<PyStr, Json>, ks: set<PyStr>, k: PyStr, x: Json, l: PyStr, y: Json,
                                   m: PyStr, z: Json)
    requires k != l && k != m && l != m
    ensures var r, all := (d - ks)[k := x][l := y][m := z], ks + {l, m, k};
            r[l] == y && r[m] == z && r - all == d - all && r == (d - all)[k := x][l := y][m := z]
  {
  }

  lemma {:induction false} SplitReplaced()
    ensures KeysOf(REPLACED) == KeysOf(PROVENANCE) + {KeyName(Id), KeyName(ParentId), KeyName(Seq)}
  {
    hide KeyName;
    assert REPLACED == PROVENANCE + {Id, ParentId, Seq};
    var l, r := KeysOf(REPLACED), KeysOf(PROVENANCE) + {KeyName(Id), KeyName(ParentId), KeyName(Seq)};
    forall k | k in l ensures k in r {
      var f :| f in REPLACED && KeyName(f) == k;
    }
    assert Id in REPLACED && ParentId in REPLACED && Seq in REPLACED;
  }

  lemma {:induction false} ReparseDictIff(p: map<PyStr, nat>, q: map<PyStr, nat>, a: Event, b: Event, i: nat)
    ensures ReparseDict(p, a, i) == ReparseDict(q, b, i) <==>
            IdValue(p, a.id, i) == IdValue(q, b.id, i) && ParentValue(p, a.parentId) == ParentValue(q, b.parentId)
            && SameBut(a, b, REPLACED)
  {
    hide KeyName, CanonicalDict, IdValue, ParentValue, KeysOf, PROVENANCE, REPLACED, ReparseDict, SameBut;
    ReparseParts(p, a, i);
    ReparseParts(q, b, i);
    if ReparseDict(p, a, i) == ReparseDict(q, b, i) {
      SameDictSameBut(a, b, REPLACED);
    }
    if SameBut(a, b, REPLACED) {
      SameButSameDict(a, b, REPLACED);
    }
  }

  lemma {:induction false} ReparseLawful(fl: FloatReader, pos: map<PyStr, nat>, ev: Event, i: nat)
    requires LawfulEvent(fl, ev)
    ensures Lawful(fl, Obj(ReparseDict(pos, ev, i)))
  {
    hide KeyName, ContentDict, LawfulEvent;
    ContentLawful(fl, ev);
  }

  // A renaming is a bijection between the synthetic ids that two lists define.

  ghost predicate Renaming(r: map<PyStr, PyStr>, a: seq<Event>, b: seq<Event>) {
    && (forall x :: x in r <==> Defined(x, a))
    && (forall y :: y in r.Values <==> Defined(y, b))
    && (forall x, x' :: x in r && x' in r && r[x] == r[x'] ==> x == x')
  }

  ghost predicate Defined(x: PyStr, events: seq<Event>) {
    Synthetic(x) && exists i :: 0 <= i < |events| && events[i].id == x
  }

  lemma {:induction false} DefinedIs(x: PyStr, events: seq<Event>)
    ensures Defined(x, events) <==> x in Positions(events, |events|)
  {
    hide Synthetic;
  }

  /** Defined synthetic ids follow the renaming; real and dangling ones compare raw. */
  ghost predicate Renamed(r: map<PyStr, PyStr>, x: PyStr, y: PyStr) {
    if x in r then y == r[x] else y == x && y !in r.Values
  }

  ghost predicate SameUpTo(r: map<PyStr, PyStr>, a: Event, b: Event) {
    && Renamed(r, a.id, b.id)
    && (a.parentId.Some? <==> b.parentId.Some?)
    && (a.parentId.Some? ==> Renamed(r, a.parentId.value, b.parentId.value))
    && SameBut(a, b, REPLACED)
  }

  ghost predicate SameUpToRenaming(a: seq<Event>, b: seq<Event>) {
    |a| == |b| && exists r :: Renaming(r, a, b) && forall i :: 0 <= i < |a| ==> SameUpTo(r, a[i], b[i])
  }

  /** No two different preimages of the two lists have the same digest. */
  ghost predicate CollisionFree(hash: seq<byte> -> PyStr, a: seq<Event>, b: seq<Event>) {
    forall i, j | 0 <= i < |a| && 0 <= j < |b| && Preimage(a, i).Some? && Preimage(b, j).Some? ::
      hash(Preimage(a, i).value) == hash(Preimage(b, j).value) ==> Preimage(a, i) == Preimage(b, j)
  }

  ghost predicate SamePlaces(a: seq<Event>, b: seq<Event>)
    requires |a| == |b|
  {
    var p, q := Positions(a, |a|), Positions(b, |b|);
    forall i :: 0 <= i < |a| ==>
      IdValue(p, a[i].id, i) == IdValue(q, b[i].id, i) && ParentValue(p, a[i].parentId) == ParentValue(q, b[i].parentId)
  }

  /** The renaming that equal positions define. */
  function RenamingOf(a: seq<Event>, b: seq<Event>): map<PyStr, PyStr>
    requires |a| == |b|
  {
    var p := Positions(a, |a|);
    map x | x in p :: b[p[x]].id
  }

  lemma {:induction false} IdPlaces(a: seq<Event>, b: seq<Event>, i: nat)
    requires |a| == |b| && SamePlaces(a, b) && i < |a| && (Synthetic(a[i].id) || Synthetic(b[i].id))
    ensures var p, q := Positions(a, |a|), Positions(b, |b|);
            a[i].id in p && b[i].id in q && p[a[i].id] == q[b[i].id] && RenamingOf(a, b)[a[i].id] == b[i].id
  {
    hide Synthetic;
    var p, q := Positions(a, |a|), Positions(b, |b|);
    assert IdValue(p, a[i].id, i) == IdValue(q, b[i].id, i);
    var f := p[a[i].id];
    assert b[q[b[i].id]].id == b[i].id;
    assert f == q[b[i].id];
  }

  lemma {:induction false} PlaceOf(a: seq<Event>, b: seq<Event>, x: PyStr)
    requires |a| == |b| && SamePlaces(a, b) && x in RenamingOf(a, b)
    ensures var p, q, y := Positions(a, |a|), Positions(b, |b|), RenamingOf(a, b)[x];
            x in p && y in q && q[y] == p[x] && a[p[x]].id == x
  {
    hide Synthetic, SamePlaces;
    IdPlaces(a, b, Positions(a, |a|)[x]);
  }

  lemma {:induction false} NameOf(a: seq<Event>, b: seq<Event>, y: PyStr)
    requires |a| == |b| && SamePlaces(a, b) && y in Positions(b, |b|)
    ensures y in RenamingOf(a, b).Values
  {
    hide Synthetic, SamePlaces;
    var i := Positions(b, |b|)[y];
    IdPlaces(a, b, i);
    assert RenamingOf(a, b)[a[i].id] == y;
  }

  lemma {:induction false} RenamingKeys(a: seq<Event>, b: seq<Event>)
    requires |a| == |b|
    ensures forall x :: x in RenamingOf(a, b) <==> Defined(x, a)
  {
    hide Synthetic, Defined;
    forall x ensures Defined(x, a) <==> x in Positions(a, |a|) { DefinedIs(x, a); }
    hide Positions;
  }

  lemma {:induction false} NameIsDefined(a: seq<Event>, b: seq<Event>, x: PyStr)
    requires |a| == |b| && SamePlaces(a, b) && x in RenamingOf(a, b)
    ensures Defined(RenamingOf(a, b)[x], b)
  {
    hide *;
    PlaceOf(a, b, x);
    DefinedIs(RenamingOf(a, b)[x], b);
  }

  lemma {:induction false} RenamingValues(a: seq<Event>, b: seq<Event>)
    requires |a| == |b| && SamePlaces(a, b)
    ensures forall y :: y in RenamingOf(a, b).Values <==> Defined(y, b)
  {
    hide *;
    var r := RenamingOf(a, b);
    forall x | x in r ensures Defined(r[x], b) { NameIsDefined(a, b, x); }
    forall y | Defined(y, b) ensures y in r.Values {
      DefinedIs(y, b);
      NameOf(a, b, y);
    }
  }

  lemma {:induction false} RenamingInjective(a: seq<Event>, b: seq<Event>, x: PyStr, x': PyStr)
    requires |a| == |b| && SamePlaces(a, b)
    requires var r := RenamingOf(a, b); x in r && x' in r && r[x] == r[x']
    ensures x == x'
  {
    hide *;
    PlaceOf(a, b, x);
    PlaceOf(a, b, x');
  }

  lemma {:induction false} PlacesGiveRenaming(a: seq<Event>, b: seq<Event>)
    requires |a| == |b| && SamePlaces(a, b)
    ensures Renaming(RenamingOf(a, b), a, b)
  {
    hide RenamingOf, SamePlaces, Defined;
    var r := RenamingOf(a, b);
    RenamingKeys(a, b);
    RenamingValues(a, b);
    forall x, x' | x in r && x' in r && r[x] == r[x'] ensures x == x' { RenamingInjective(a, b, x, x'); }
  }

  lemma {:induction false} PlacesGiveNames(a: seq<Event>, b: seq<Event>, i: nat)
    requires |a| == |b| && SamePlaces(a, b) && Renaming(RenamingOf(a, b), a, b) && i < |a|
    ensures var r := RenamingOf(a, b);
            && Renamed(r, a[i].id, b[i].id)
            && (a[i].parentId.Some? <==> b[i].parentId.Some?)
            && (a[i].parentId.Some? ==> Renamed(r, a[i].parentId.value, b[i].parentId.value))
  {
    hide Synthetic, Renaming, Renamed, Positions;
    var p, q := Positions(a, |a|), Positions(b, |b|);
    assert IdValue(p, a[i].id, i) == IdValue(q, b[i].id, i);
    assert ParentValue(p, a[i].parentId) == ParentValue(q, b[i].parentId);
    IdNames(a, b, i);
    if a[i].parentId.Some? && b[i].parentId.Some? {
      ParentPlaces(a, b, a[i].parentId.value, b[i].parentId.value);
    }
  }

  lemma {:induction false} IdNames(a: seq<Event>, b: seq<Event>, i: nat)
    requires |a| == |b| && SamePlaces(a, b) && Renaming(RenamingOf(a, b), a, b) && i < |a|
    ensures Renamed(RenamingOf(a, b), a[i].id, b[i].id)
  {
    hide Synthetic, Positions;
    var p, q, r := Positions(a, |a|), Positions(b, |b|), RenamingOf(a, b);
    assert IdValue(p, a[i].id, i) == IdValue(q, b[i].id, i);
    DefinedIs(a[i].id, a);
    DefinedIs(b[i].id, b);
    if Synthetic(a[i].id) || Synthetic(b[i].id) { IdPlaces(a, b, i); }
  }

  lemma {:induction false} ParentPlaces(a: seq<Event>, b: seq<Event>, x: PyStr, y: PyStr)
    requires |a| == |b| && SamePlaces(a, b) && Renaming(RenamingOf(a, b), a, b)
    requires ParentValue(Positions(a, |a|), Some(x)) == ParentValue(Positions(b, |b|), Some(y))
    ensures Renamed(RenamingOf(a, b), x, y)
  {
    hide Synthetic, SamePlaces, Defined, Positions;
    var p, q, r := Positions(a, |a|), Positions(b, |b|), RenamingOf(a, b);
    DefinedIs(x, a);
    DefinedIs(y, b);
    if x in p {
      PlaceOf(a, b, x);
      PlacedAt(b, y);
      PlacedAt(b, r[x]);
    }
  }

  lemma {:induction false} PlacedAt(events: seq<Event>, x: PyStr)
    ensures var p := Positions(events, |events|); x in p ==> p[x] < |events| && events[p[x]].id == x
  {
    hide Synthetic;
  }

  /** Under a renaming, the first positions agree. */
  lemma {:induction false} NamesGivePosition(r: map<PyStr, PyStr>, a: seq<Event>, b: seq<Event>, x: PyStr)
    requires |a| == |b| && Renaming(r, a, b) && (forall i :: 0 <= i < |a| ==> Renamed(r, a[i].id, b[i].id)) && x in r
    ensures var p, q := Positions(a, |a|), Positions(b, |b|);
            x in p && r[x] in q && p[x] == q[r[x]] && Synthetic(x) && Synthetic(r[x])
  {
    hide Synthetic;
    DefinedIs(x, a);
    DefinedIs(r[x], b);
    var p, q := Positions(a, |a|), Positions(b, |b|);
    var y := r[x];
    assert y in r.Values;
    assert Defined(x, a) && Defined(y, b);
    assert Renamed(r, a[p[x]].id, b[p[x]].id);
    assert Renamed(r, a[q[y]].id, b[q[y]].id);
    assert b[p[x]].id == y;
    assert a[q[y]].id == x;
  }

  lemma {:induction false} NamesGiveValues(r: map<PyStr, PyStr>, a: seq<Event>, b: seq<Event>, x: PyStr, y: PyStr)
    requires |a| == |b| && Renaming(r, a, b) && (forall i :: 0 <= i < |a| ==> Renamed(r, a[i].id, b[i].id))
    requires Renamed(r, x, y)
    ensures ParentValue(Positions(a, |a|), Some(x)) == ParentValue(Positions(b, |b|), Some(y))
    ensures x in r ==> Synthetic(x) && Synthetic(y) && x in Positions(a, |a|) && y in Positions(b, |b|)
                       && Positions(a, |a|)[x] == Positions(b, |b|)[y]
    ensures x !in r ==> x !in Positions(a, |a|) && y !in Positions(b, |b|) && x == y
  {
    hide Synthetic;
    var p, q := Positions(a, |a|), Positions(b, |b|);
    DefinedIs(x, a);
    DefinedIs(y, b);
    if x in r { NamesGivePosition(r, a, b, x); }
  }

  lemma {:induction false} NamesGivePlaces(r: map<PyStr, PyStr>, a: seq<Event>, b: seq<Event>)
    requires |a| == |b| && Renaming(r, a, b) && forall i :: 0 <= i < |a| ==> SameUpTo(r, a[i], b[i])
    ensures SamePlaces(a, b)
  {
    hide Synthetic, Renamed, Renaming, SameBut;
    var p, q := Positions(a, |a|), Positions(b, |b|);
    forall i | 0 <= i < |a|
      ensures IdValue(p, a[i].id, i) == IdValue(q, b[i].id, i)
      ensures ParentValue(p, a[i].parentId) == ParentValue(q, b[i].parentId)
    {
      assert SameUpTo(r, a[i], b[i]);
      NamesGiveValues(r, a, b, a[i].id, b[i].id);
      if a[i].parentId.Some? { NamesGiveValues(r, a, b, a[i].parentId.value, b[i].parentId.value); }
    }
  }

  lemma {:induction false} PreimageIff(fl: FloatReader, a: seq<Event>, b: seq<Event>, i: nat)
    requires i < |a| == |b| && LawfulEvent(fl, a[i]) && LawfulEvent(fl, b[i])
    requires Preimage(a, i).Some? && Preimage(b, i).Some?
    ensures var p, q := Positions(a, |a|), Positions(b, |b|);
            Preimage(a, i) == Preimage(b, i) <==>
            && IdValue(p, a[i].id, i) == IdValue(q, b[i].id, i)
            && ParentValue(p, a[i].parentId) == ParentValue(q, b[i].parentId)
            && SameBut(a[i], b[i], REPLACED)
  {
    hide LawfulEvent, CanonicalBytes, ReparseDict, IdValue, ParentValue, SameBut, Positions, Lawful;
    var p, q := Positions(a, |a|), Positions(b, |b|);
    ReparseLawful(fl, p, a[i], i);
    ReparseLawful(fl, q, b[i], i);
    ReparseDictIff(p, q, a[i], b[i], i);
    if Preimage(a, i) == Preimage(b, i) {
      CanonicalInjective(fl, Obj(ReparseDict(p, a[i], i)), Obj(ReparseDict(q, b[i], i)));
    }
  }

  /** Two event lists get the same hash list exactly when they agree position by position up to `seq`,
      provenance and a renaming of the synthetic ids each of them defines. */
  lemma {:induction false} ReparseComplete(hash: seq<byte> -> PyStr, fl: FloatReader, a: seq<Event>, b: seq<Event>)
    requires forall i :: 0 <= i < |a| ==> LawfulEvent(fl, a[i])
    requires forall i :: 0 <= i < |b| ==> LawfulEvent(fl, b[i])
    requires Hashable(a, |a|) && Hashable(b, |b|) && CollisionFree(hash, a, b)
    ensures Hashes(hash, a, |a|) == Hashes(hash, b, |b|) <==> SameUpToRenaming(a, b)
  {
    hide LawfulEvent, Preimage, Renaming, SameBut, IdValue, ParentValue, Positions, Renamed;
    var x, y := Hashes(hash, a, |a|), Hashes(hash, b, |b|);
    assert |x| == |a| && |y| == |b|;
    if |a| == |b| {
      forall i | 0 <= i < |a| { PreimageIff(fl, a, b, i); }
      if x == y {
        forall i | 0 <= i < |a| ensures Preimage(a, i) == Preimage(b, i) {
          assert x[i] == y[i];
        }
        var r := RenamingOf(a, b);
        PlacesGiveRenaming(a, b);
        forall i | 0 <= i < |a| ensures SameUpTo(r, a[i], b[i]) { PlacesGiveNames(a, b, i); }
      }
      if SameUpToRenaming(a, b) {
        var r :| Renaming(r, a, b) && forall i :: 0 <= i < |a| ==> SameUpTo(r, a[i], b[i]);
        NamesGivePlaces(r, a, b);
        forall i | 0 <= i < |a| ensures x[i] == y[i] {
          assert SameUpTo(r, a[i], b[i]);
        }
      }
    }
  }
}
