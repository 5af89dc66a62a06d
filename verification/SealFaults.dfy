/** Where the ledger's functions fail their callers: lines that make the verifier raise, and appends that the
    verifier then rejects. */
module SealFaults {
  import opened Options
  import opened PyText
  import opened JsonValues
  import opened JsonPrinter
  import opened JsonParser
  import opened JsonRoundTrip
  import opened PyLines
  import opened Seal
  import opened SealChain
  import opened SealCrash
  import opened SealStamp
  import opened Utf8

  // ----- An escaping `TypeError` -----

  /** An entry whose digests, number and link are well formed, and whose `tool` is a list or an object. */
  predicate BadToolEntry(e: Entry) {
    && SCHEMA in e && e[SCHEMA] == Str(SCHEMA_ID) && HasSeq(e) && HasPrev(e)
    && HasHex(e, FILE) && HasHex(e, REPORT) && HasHex(e, ENTRY)
    && TOOL in e && (e[TOOL].Arr? || e[TOOL].Obj?)
  }

  predicate BadTool(v: Json) {
    v.Obj? && BadToolEntry(v.fields)
  }

  predicate RaisingLine(p: Platform, text: string) {
    Loads(p.fl, text).Some? && BadTool(Loads(p.fl, text).value)
  }

  /** Whatever the chain expects next, such a line raises and no other does. */
  lemma {:induction false} CrashIff(p: Platform, text: string, prev: PyStr, seqNo: int)
    ensures CheckLine(p, text, prev, seqNo).Crash? <==> RaisingLine(p, text)
  {
    hide Loads, HasSeq, HasPrev, HasHex, RestOk, EntryHash, Name;
  }

  /** `verify_lines` raises exactly when such a line follows an intact chain. */
  lemma {:induction false} RaisesIff(p: Platform, lines: seq<Line>)
    ensures Verify(p, lines) == Raises <==>
            exists i: nat :: i < |lines| && Verify(p, lines[..i]) == Intact && RaisingLine(p, lines[i].text)
  {
    hide CheckLine, RaisingLine, PrevHash, VerifyFrom;
    if Verify(p, lines) == Raises {
      var i := DivergencePoint(p, lines, GENESIS, 1);
      CrashIff(p, lines[i].text, PrevHash(p, lines, i, GENESIS), 1 + i);
      assert Verify(p, lines[..i]) == Intact;
    }
    forall i: nat | i < |lines| && Verify(p, lines[..i]) == Intact && RaisingLine(p, lines[i].text)
      ensures Verify(p, lines) == Raises {
      RaisesHere(p, lines, i);
    }
  }

  lemma {:induction false} RaisesHere(p: Platform, lines: seq<Line>, i: nat)
    requires i < |lines| && Verify(p, lines[..i]) == Intact && RaisingLine(p, lines[i].text)
    ensures Verify(p, lines) == Raises
  {
    hide CheckLine, RaisingLine, PrevHash, VerifyFrom;
    var prev := PrevHash(p, lines[..i], i, GENESIS);
    VerifyConcat(p, lines[..i], lines[i..], GENESIS, 1);
    assert lines[..i] + lines[i..] == lines;
    CrashIff(p, lines[i].text, prev, 1 + i);
    VerifyStop(p, lines[i..], prev, 1 + i);
  }

  /** An append raises for no other reason: a verified chain always has a last entry to continue. */
  lemma {:induction false} AppendRaisesIff(p: Platform, file: seq<byte>, r: Request)
    ensures PlanAppend(p, file, r) == PlanRaises <==> VerifyFile(p, file) == Some(Raises)
  {
    hide Verify, PlanWrite, LastEntry;
    if IterLines(file).Some? && Verify(p, IterLines(file).value) == Intact && IterLines(file).value != [] {
      LastFacts(p, IterLines(file).value);
    }
    hide IterLines;
    PlanWriteAnswers(p, file, r);
  }

  lemma {:induction false} PlanWriteAnswers(p: Platform, file: seq<byte>, r: Request)
    ensures forall seqNo: int, prev: PyStr :: PlanWrite(p, file, seqNo, prev, r) != PlanRaises
  {
    hide BuildEntry, CanonicalBytes;
  }

  /** Sixty-four zeros. */
  function Zeros(): PyStr {
    seq(64, i requires 0 <= i < 64 => 0x30)
  }

  lemma {:induction false} ZerosAreHex()
    ensures IsHex64(Zeros()) && Clean(Zeros())
  {
  }

  function RaisingEntry(): Entry {
    map[
      SCHEMA := Str(SCHEMA_ID), SEQ := Json.Int(1), PREV := Str(GENESIS), FILE := Str(Zeros()), REPORT := Str(Zeros()),
      ENTRY := Str(Zeros()), TOOL := Arr([])]
  }

  lemma {:induction false} RaisingFields()
    ensures BadTool(Obj(RaisingEntry()))
  {
    KeysDiffer();
    ZerosAreHex();
    hide Name, Zeros, IsHex64;
    var e := RaisingEntry();
    assert e[SCHEMA] == Str(SCHEMA_ID) && e[SEQ] == Json.Int(1) && e[PREV] == Str(GENESIS) && e[TOOL] == Arr([]);
    assert e[FILE] == Str(Zeros()) && e[REPORT] == Str(Zeros()) && e[ENTRY] == Str(Zeros());
  }

  lemma {:induction false} RaisingEntryIs(fl: FloatReader)
    ensures Encodable(Obj(RaisingEntry())) && JsonValues.Lawful(fl, Obj(RaisingEntry()))
  {
    ZerosAreHex();
    hide Name, Zeros, IsHex64, Clean;
    var e := RaisingEntry();
    assert Encodable(Arr([])) && JsonValues.Lawful(fl, Arr([]));
    forall k | k in e ensures Clean(k) && Encodable(e[k]) && JsonValues.Lawful(fl, e[k]) {
    }
  }

  /** After any intact ledger one such line makes the verifier raise. */
  lemma {:induction false} RaisingAfter(p: Platform, lines: seq<Line>, number: nat)
    requires Verify(p, lines) == Intact
    ensures Encodable(Obj(RaisingEntry()))
    ensures Verify(p, lines + [Line(number, Print(Obj(RaisingEntry())))]) == Raises
  {
    hide *;
    RaisingFields();
    RaisingEntryIs(p.fl);
    LoadsPrinted(p.fl, Obj(RaisingEntry()));
    var text := Print(Obj(RaisingEntry()));
    RaisingText(p, text, Obj(RaisingEntry()));
    var all := lines + [Line(number, text)];
    assert all[..|lines|] == lines;
    RaisesHere(p, all, |lines|);
  }

  lemma {:induction false} RaisingText(p: Platform, text: string, v: Json)
    requires Loads(p.fl, text) == Some(v) && BadTool(v)
    ensures RaisingLine(p, text)
  {
    hide Loads, BadTool;
  }

  // ----- Appends that are written -----

  /** The free texts of a request hold no lone surrogate. */
  predicate CleanRequest(r: Request) {
    && Clean(r.verdict) && Clean(r.sealedAt) && (r.path.Some? ==> Clean(r.path.value))
    && forall k :: k in r.codes ==> Clean(k)
  }

  /** The texts the request's own check bounds. */
  predicate CheckedTexts(prev: PyStr, r: Request) {
    && Clean(prev) && Clean(r.fileSha) && Clean(r.tool) && Clean(r.reportSha)
    && (r.genesisOf.Some? ==> Clean(r.genesisOf.value))
  }

  lemma {:induction false} HexIsClean(s: PyStr)
    requires IsHex64(s)
    ensures Clean(s)
  {
  }

  lemma {:induction false} RequestTexts(prev: PyStr, r: Request)
    requires RequestOk(r) && (prev == GENESIS || IsHex64(prev))
    ensures CheckedTexts(prev, r)
  {
    HexIsClean(r.fileSha);
    HexIsClean(r.reportSha);
    if IsHex64(prev) { HexIsClean(prev); }
    if r.genesisOf.Some? { HexIsClean(r.genesisOf.value); }
    hide IsHex64, Clean, Name;
  }

  lemma {:induction false} CodesEncodableIff(codes: map<PyStr, int>)
    ensures Encodable(Obj(map k | k in codes :: Json.Int(codes[k]))) <==> forall k :: k in codes ==> Clean(k)
  {
    var o := map k | k in codes :: Json.Int(codes[k]);
    assert forall k :: k in o <==> k in codes;
    hide Clean;
  }

  /** The fields a base entry has, one by one. */
  lemma {:induction false} BaseHolds(seqNo: int, prev: PyStr, r: Request, k: PyStr)
    requires k in Base(seqNo, prev, r)
    ensures var v := Base(seqNo, prev, r)[k];
            || (k == SCHEMA && v == Str(SCHEMA_ID)) || (k == SEQ && v == Json.Int(seqNo))
            || (k == PREV && v == Str(prev)) || (k == FILE && v == Str(r.fileSha)) || (k == TOOL && v == Str(r.tool))
            || (k == VERDICT && v == Str(r.verdict))
            || (k == CODES && v == Obj(map c | c in r.codes :: Json.Int(r.codes[c])))
            || (k == REPORT && v == Str(r.reportSha)) || (k == SEALED_AT && v == Str(r.sealedAt))
  {
    hide Name, SCHEMA, SEQ, PREV, FILE, TOOL, VERDICT, CODES, REPORT, SEALED_AT, SCHEMA_ID;
  }

  lemma {:induction false} BaseEncodable(seqNo: int, prev: PyStr, r: Request)
    requires CleanRequest(r) && CheckedTexts(prev, r)
    ensures Encodable(Obj(Base(seqNo, prev, r)))
  {
    CodesEncodableIff(r.codes);
    hide Clean, Name, Base;
    var e := Base(seqNo, prev, r);
    forall k | k in e ensures Clean(k) && Encodable(e[k]) { BaseHolds(seqNo, prev, r, k); }
  }

  lemma {:induction false} OneFieldMore(e: Entry, k: PyStr, s: PyStr)
    requires Encodable(Obj(e)) && Clean(k) && Clean(s)
    ensures Encodable(Obj(e[k := Str(s)]))
  {
    var e' := e[k := Str(s)];
    assert forall l :: l in e ==> Clean(l) && Encodable(e[l]);
    assert Encodable(Str(s));
    hide Clean;
  }

  lemma {:induction false} BodyEncodable(seqNo: int, prev: PyStr, r: Request)
    requires CleanRequest(r) && CheckedTexts(prev, r)
    ensures Encodable(Obj(Body(seqNo, prev, r)))
  {
    BaseEncodable(seqNo, prev, r);
    hide Base, Clean, Name, Encodable;
    var e := Base(seqNo, prev, r);
    if r.path.Some? { OneFieldMore(e, PATH, r.path.value); }
    var e' := if r.path.Some? then e[PATH := Str(r.path.value)] else e;
    if r.genesisOf.Some? { OneFieldMore(e', GENESIS_OF, r.genesisOf.value); }
  }

  lemma {:induction false} EncodableBody(seqNo: int, prev: PyStr, r: Request)
    requires Encodable(Obj(Body(seqNo, prev, r)))
    ensures CleanRequest(r)
  {
    var e := Body(seqNo, prev, r);
    BodyFields(seqNo, prev, r);
    CodesEncodableIff(r.codes);
    hide Name, Body, Clean;
    assert forall k :: k in e ==> Encodable(e[k]);
    assert Encodable(e[VERDICT]) && Encodable(e[CODES]) && Encodable(e[SEALED_AT]);
    if r.path.Some? { assert Encodable(e[PATH]); }
  }

  lemma {:induction false} HashIff(p: Platform, e: Entry)
    requires Trusted(p) && ENTRY !in e
    ensures EntryHash(p, e).Some? <==> Encodable(Obj(e))
    ensures EntryHash(p, e).Some? ==> Clean(EntryHash(p, e).value)
  {
    assert e - {ENTRY} == e;
    DigestHex(p, e);
    hide Name, IsHex64, Print, Clean, Encodable;
    if EntryHash(p, e).Some? { HexIsClean(EntryHash(p, e).value); }
  }

  lemma {:induction false} BuiltIs(p: Platform, seqNo: int, prev: PyStr, r: Request)
    requires seqNo >= 1 && (prev == GENESIS || IsHex64(prev))
    ensures var e := Body(seqNo, prev, r);
            BuildEntry(p, seqNo, prev, r) ==
            if RequestOk(r) && EntryHash(p, e).Some? then Some(e[ENTRY := Str(EntryHash(p, e).value)]) else None
  {
    hide Body, Name, RequestOk, IsHex64, EntryHash, ENTRY, GENESIS;
  }

  lemma {:induction false} BuiltIff(p: Platform, seqNo: int, prev: PyStr, r: Request)
    requires Trusted(p) && seqNo >= 1 && (prev == GENESIS || IsHex64(prev))
    ensures var e := BuildEntry(p, seqNo, prev, r);
            && (e.Some? <==> RequestOk(r) && Encodable(Obj(Body(seqNo, prev, r))))
            && (e.Some? ==> Encodable(Obj(e.value)))
  {
    var e := Body(seqNo, prev, r);
    assert Clean(ENTRY);
    hide *;
    BodyFields(seqNo, prev, r);
    HashIff(p, e);
    BuiltIs(p, seqNo, prev, r);
    if Encodable(Obj(e)) { OneFieldMore(e, ENTRY, EntryHash(p, e).value); }
  }

  lemma {:induction false} WriteIff(p: Platform, file: seq<byte>, seqNo: int, prev: PyStr, r: Request)
    ensures var e := BuildEntry(p, seqNo, prev, r);
            PlanWrite(p, file, seqNo, prev, r).Write? <==>
            (r.genesisOf.Some? ==> seqNo == 1) && e.Some? && Encodable(Obj(e.value))
  {
    hide BuildEntry, Encodable, Print;
  }

  /** An entry is built and printed exactly for such requests. */
  lemma {:induction false} WrittenIff(p: Platform, file: seq<byte>, seqNo: int, prev: PyStr, r: Request)
    requires Trusted(p) && seqNo >= 1 && (prev == GENESIS || IsHex64(prev))
    ensures PlanWrite(p, file, seqNo, prev, r).Write? <==>
            RequestOk(r) && CleanRequest(r) && (r.genesisOf.Some? ==> seqNo == 1)
  {
    hide *;
    WriteIff(p, file, seqNo, prev, r);
    BuiltIff(p, seqNo, prev, r);
    if RequestOk(r) {
      RequestTexts(prev, r);
      if CleanRequest(r) { BodyEncodable(seqNo, prev, r); }
      if Encodable(Obj(Body(seqNo, prev, r))) { EncodableBody(seqNo, prev, r); }
    }
  }

  /** What an append demands: a ledger that verifies, a request in the closed vocabulary without lone surrogates,
      and a first entry where another ledger is to be bound. */
  lemma {:induction false} AppendWritesIff(p: Platform, file: seq<byte>, r: Request)
    requires Trusted(p)
    ensures PlanAppend(p, file, r).Write? <==>
            && IntactFile(p, file) && RequestOk(r) && CleanRequest(r)
            && (r.genesisOf.Some? ==> FileEntries(p, file) == [])
  {
    hide PlanWrite, RequestOk, CleanRequest, Trusted, Verify, Name, IsHex64, LastEntry;
    if IntactFile(p, file) {
      var lines := IterLines(file).value;
      hide IterLines;
      if lines == [] {
        WrittenIff(p, file, 1, GENESIS, r);
      } else {
        LastFacts(p, lines);
        LastIsHex(p, lines);
        var last := LastEntry(p, lines).value;
        WrittenIff(p, file, last[SEQ].n + 1, last[ENTRY].s, r);
      }
    }
  }

  lemma {:induction false} ShapeIsHex(e: Entry)
    requires EntryShape(Obj(e)) == ShapeOk
    ensures HasHex(e, ENTRY)
  {
    hide HasSeq, HasPrev, HasHex, RestOk, Name;
  }

  lemma {:induction false} LastDigest(p: Platform, lines: seq<Line>)
    requires lines != []
    ensures PrevHash(p, lines, |lines|, GENESIS) == DigestOf(p, lines[|lines| - 1].text)
  {
    hide DigestOf;
  }

  lemma {:induction false} HexText(e: Entry, k: PyStr)
    requires HasHex(e, k)
    ensures k in e && e[k].Str? && IsHex64(e[k].s)
  {
    hide IsHex64;
  }

  lemma {:induction false} LastIsHex(p: Platform, lines: seq<Line>)
    requires lines != [] && Verify(p, lines) == Intact
    ensures IsHex64(PrevHash(p, lines, |lines|, GENESIS))
  {
    hide *;
    var e := EntryAt(p, lines[|lines| - 1].text);
    EntryFacts(p, lines, |lines| - 1);
    ShapeIsHex(e);
    HexText(e, ENTRY);
    LastDigest(p, lines);
  }

  /** A stamped append verifies if and only if the moment is in UTC; any other one ends the ledger. */
  lemma {:induction false} AppendVerifiesUtc(p: Platform, file: seq<byte>, r: Request, now: Moment)
    requires Trusted(p) && PlanAppend(p, file, r).Write? && ValidMoment(now) && r.sealedAt == Stamp(now)
    ensures IntactFile(p, file + PlanAppend(p, file, r).bytes) <==> now.offset == Some(0)
    ensures now.offset != Some(0) ==> BrokenBehind(p, file, file + PlanAppend(p, file, r).bytes)
  {
    AppendVerifiesIff(p, file, r);
    StampIsSealedIff(now);
    hide *;
  }

  /** Two hours east of UTC. */
  const EASTERN := Moment(2024, 1, 1, 0, 0, 0, Some(7_200 * MICROS))

  function EasternRequest(): Request {
    Request(Name("check"), Zeros(), None, Name("clean"), map[], Zeros(), None, Stamp(EASTERN))
  }

  lemma {:induction false} EasternRequestOk()
    ensures RequestOk(EasternRequest()) && CleanRequest(EasternRequest())
  {
    ZerosAreHex();
    StampClean(EASTERN);
    hide Zeros, Stamp, EASTERN, IsHex64, Clean, Name;
    assert |Name("clean")| == 5;
  }

  /** On any intact ledger that request is accepted and written, and leaves a file that no longer verifies and
      refuses every later append. */
  lemma {:induction false} EasternAppend(p: Platform, file: seq<byte>)
    requires Trusted(p) && IntactFile(p, file)
    ensures PlanAppend(p, file, EasternRequest()).Write?
    ensures var file' := file + PlanAppend(p, file, EasternRequest()).bytes;
            BrokenBehind(p, file, file') && forall r :: PlanAppend(p, file', r) == Refused
  {
    var r := EasternRequest();
    assert r.genesisOf == None && r.sealedAt == Stamp(EASTERN);
    assert ValidMoment(EASTERN) && EASTERN.offset != Some(0);
    hide *;
    EasternRequestOk();
    AppendWritesIff(p, file, r);
    AppendVerifiesUtc(p, file, r, EASTERN);
    var file' := file + PlanAppend(p, file, r).bytes;
    BehindIsLast(p, file, file');
    forall r' ensures PlanAppend(p, file', r') == Refused { BrokenRefuses(p, file', r'); }
  }
}
