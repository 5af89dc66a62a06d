/** The hash-chain ledger: `build_entry`, `verify_lines`, and the locked append. */
module Seal {
  import opened Options
  import opened PyText
  import opened Decimals
  import opened JsonValues
  import opened JsonPrinter
  import opened JsonParser
  import opened PyLines
  import opened Utf8

  const SCHEMA := Name("schema")
  const SEQ := Name("seq")
  const PREV := Name("prev_sha256")
  const FILE := Name("file_sha256")
  const TOOL := Name("tool")
  const VERDICT := Name("verdict")
  const CODES := Name("codes")
  const REPORT := Name("report_sha256")
  const SEALED_AT := Name("sealed_at")
  const PATH := Name("path")
  const GENESIS_OF := Name("genesis_of")
  const ENTRY := Name("entry_sha256")

  const SCHEMA_ID := Name("sesslint.seal-ledger/v1")
  const GENESIS := Name("GENESIS")
  const SEAL_TOOLS: set<PyStr> := {Name("check"), Name("verify"), Name("repair")}

  /** SHA-256 to a hex digest, and the float reader of the JSON decoder. */
  datatype Platform = Platform(hash: seq<byte> -> PyStr, fl: FloatReader)

  /** What the model relies on: digests are 64 lower-case hex digits, `repr`s read back. */
  ghost predicate Trusted(p: Platform) {
    (forall bs: seq<byte> :: IsHex64(p.hash(bs))) && LawfulReader(p.fl)
  }

  predicate LowerHex(c: CodePoint) {
    0x30 <= c <= 0x39 || 0x61 <= c <= 0x66
  }

  predicate IsHex64(s: PyStr) {
    |s| == 64 && forall i :: 0 <= i < |s| ==> LowerHex(s[i])
  }

  /** `_SEALED_AT`, with `d` for `\d`. */
  const SEALED_AT_PATTERN := "dddd-dd-ddTdd:dd:ddZ"

  predicate IsSealedAt(s: PyStr) {
    |s| == |SEALED_AT_PATTERN| &&
    forall i :: 0 <= i < |s| ==>
      if SEALED_AT_PATTERN[i] == 'd' then DecimalDigit(s[i]) else s[i] == SEALED_AT_PATTERN[i] as int
  }

  datatype Kind = MalformedLine | BadSchema | SeqGap | ChainBreak | HashMismatch

  // ----- `_validate_entry_shape` -----

  datatype Shape = ShapeOk | ShapeBad(kind: Kind) | ShapeRaises

  type Entry = map<PyStr, Json>

  predicate HasHex(e: Entry, k: PyStr) {
    k in e && e[k].Str? && IsHex64(e[k].s)
  }

  predicate HasSeq(e: Entry) {
    SEQ in e && e[SEQ].Int? && e[SEQ].n >= 1
  }

  predicate HasPrev(e: Entry) {
    PREV in e && e[PREV].Str? && (e[PREV].s == GENESIS || IsHex64(e[PREV].s))
  }

  /** A count is an `int`, and in Python a `bool` is one. */
  predicate IsCount(v: Json) {
    v.Bool? || (v.Int? && v.n >= 0)
  }

  predicate HasCodes(e: Entry) {
    CODES in e && e[CODES].Obj? && forall k :: k in e[CODES].fields ==> IsCount(e[CODES].fields[k])
  }

  /** The checks after `tool`. */
  predicate RestOk(e: Entry) {
    && VERDICT in e && e[VERDICT].Str? && e[VERDICT].s != []
    && HasCodes(e)
    && SEALED_AT in e && e[SEALED_AT].Str? && IsSealedAt(e[SEALED_AT].s)
    && (PATH in e ==> e[PATH].Str?)
    && (GENESIS_OF in e ==> HasHex(e, GENESIS_OF))
  }

  /** A list or an object cannot be looked up in a frozenset: the membership test raises. */
  function EntryShape(v: Json): Shape {
    if !v.Obj? then ShapeBad(MalformedLine)
    else
      var e := v.fields;
      if SCHEMA !in e || e[SCHEMA] != Str(SCHEMA_ID) then ShapeBad(BadSchema)
      else if !HasSeq(e) || !HasPrev(e) then ShapeBad(MalformedLine)
      else if !HasHex(e, FILE) || !HasHex(e, REPORT) || !HasHex(e, ENTRY) then ShapeBad(MalformedLine)
      else if TOOL in e && (e[TOOL].Arr? || e[TOOL].Obj?) then ShapeRaises
      else if TOOL !in e || !e[TOOL].Str? || e[TOOL].s !in SEAL_TOOLS then ShapeBad(MalformedLine)
      else if !RestOk(e) then ShapeBad(MalformedLine)
      else ShapeOk
  }

  // ----- `_entry_hash` and `verify_lines` -----

  /** The canonical bytes the digest is taken over: every field but the digest itself. */
  function Preimage(e: Entry): Option<seq<byte>> {
    CanonicalBytes(Obj(e - {ENTRY}))
  }

  function EntryHash(p: Platform, e: Entry): Option<PyStr> {
    match Preimage(e)
    case Some(bs) => Some(p.hash(bs))
    case None => None
  }

  datatype LineCheck = Linked(entry: Entry) | Bad(kind: Kind, seqNo: Option<int>) | Crash

  /** One turn of the loop of `verify_lines`. */
  function CheckLine(p: Platform, text: string, prevHash: PyStr, expectedSeq: int): (c: LineCheck)
    ensures c.Linked? ==> ENTRY in c.entry && c.entry[ENTRY].Str?
  {
    match Loads(p.fl, text)
    case None => Bad(MalformedLine, None)
    case Some(v) =>
      match EntryShape(v)
      case ShapeRaises => Crash
      case ShapeBad(kind) => Bad(kind, None)
      case ShapeOk =>
        var e := v.fields;
        var s := Some(e[SEQ].n);
        if e[SEQ].n != expectedSeq then Bad(SeqGap, s)
        else if e[PREV].s != prevHash then Bad(ChainBreak, s)
        else match EntryHash(p, e)
          case None => Bad(MalformedLine, s)
          case Some(h) => if e[ENTRY].s != h then Bad(HashMismatch, s) else Linked(e)
  }

  datatype Verdict = Intact | Diverges(kind: Kind, line: nat, seqNo: Option<int>) | Raises

  /** `verify_lines` from a given point of the chain. */
  function VerifyFrom(p: Platform, lines: seq<Line>, prevHash: PyStr, expectedSeq: int): Verdict {
    if lines == [] then Intact
    else match CheckLine(p, lines[0].text, prevHash, expectedSeq)
      case Linked(e) => VerifyFrom(p, lines[1..], e[ENTRY].s, expectedSeq + 1)
      case Bad(kind, s) => Diverges(kind, lines[0].number, s)
      case Crash => Raises
  }

  function Verify(p: Platform, lines: seq<Line>): Verdict {
    VerifyFrom(p, lines, GENESIS, 1)
  }

  method VerifyLines(p: Platform, lines: seq<Line>) returns (v: Verdict)
    ensures v == Verify(p, lines)
  {
    hide CheckLine;
    var prevHash := GENESIS;
    var expectedSeq := 1;
    var i := 0;
    while i < |lines|
      invariant 0 <= i <= |lines|
      invariant Verify(p, lines) == VerifyFrom(p, lines[i..], prevHash, expectedSeq)
    {
      assert lines[i..][0] == lines[i] && lines[i..][1..] == lines[i + 1..];
      match CheckLine(p, lines[i].text, prevHash, expectedSeq) {
        case Bad(kind, s) => return Diverges(kind, lines[i].number, s);
        case Crash => return Raises;
        case Linked(e) =>
          prevHash := e[ENTRY].s;
          expectedSeq := expectedSeq + 1;
      }
      i := i + 1;
    }
    return Intact;
  }

  /** `_iter_lines` on the bytes of a readable file, nothing when they are not UTF-8. */
  function IterLines(bs: seq<byte>): Option<seq<Line>> {
    match Decode(bs)
    case Valid(t) => Some(NonBlank(SplitLf(t), 1))
    case _ => None
  }

  /** The lines of a ledger, in order: those of its text that are not blank, counted from 1 with the blank ones. */
  lemma {:induction false} FileLines(bs: seq<byte>)
    ensures IterLines(bs).Some? <==> Decode(bs).Valid?
    ensures IterLines(bs).Some? ==>
              var phys, lines := SplitLf(Decode(bs).text), IterLines(bs).value;
              && (forall l :: l in lines <==>
                    1 <= l.number <= |phys| && l.text == phys[l.number - 1] && !PyBlank(l.text))
              && (forall i, j :: 0 <= i < j < |lines| ==> lines[i].number < lines[j].number)
  {
    hide SplitLf, NonBlank, PyBlank, Decode;
    if Decode(bs).Valid? {
      var phys := SplitLf(Decode(bs).text);
      NumbersAscend(phys, 1);
      forall l ensures l in NonBlank(phys, 1) <==>
                       1 <= l.number <= |phys| && l.text == phys[l.number - 1] && !PyBlank(l.text) {
        NonBlankIs(phys, 1, l);
      }
    }
  }

  // ----- `build_entry` and `_append_seal_locked` -----

  datatype Request = Request(
    tool: PyStr, fileSha: PyStr, path: Option<PyStr>, verdict: PyStr, codes: map<PyStr, int>,
    reportSha: PyStr, genesisOf: Option<PyStr>, sealedAt: PyStr)

  predicate RequestOk(r: Request) {
    && IsHex64(r.fileSha)
    && r.tool in SEAL_TOOLS
    && r.verdict != []
    && (forall k :: k in r.codes ==> r.codes[k] >= 0)
    && IsHex64(r.reportSha)
    && (r.genesisOf.Some? ==> IsHex64(r.genesisOf.value))
  }

  /** The fields every entry has, but the digest. */
  function Base(seqNo: int, prev: PyStr, r: Request): Entry {
    map[
      SCHEMA := Str(SCHEMA_ID),
      SEQ := Json.Int(seqNo),
      PREV := Str(prev),
      FILE := Str(r.fileSha),
      TOOL := Str(r.tool),
      VERDICT := Str(r.verdict),
      CODES := Obj(map k | k in r.codes :: Json.Int(r.codes[k])),
      REPORT := Str(r.reportSha),
      SEALED_AT := Str(r.sealedAt)]
  }

  /** Every field but the digest. */
  function Body(seqNo: int, prev: PyStr, r: Request): Entry {
    var e := Base(seqNo, prev, r);
    var e' := if r.path.Some? then e[PATH := Str(r.path.value)] else e;
    if r.genesisOf.Some? then e'[GENESIS_OF := Str(r.genesisOf.value)] else e'
  }

  /** `build_entry`, nothing when it raises `SealError`. */
  function BuildEntry(p: Platform, seqNo: int, prev: PyStr, r: Request): Option<Entry> {
    if seqNo < 1 || (prev != GENESIS && !IsHex64(prev)) || !RequestOk(r) then None
    else
      var e := Body(seqNo, prev, r);
      match EntryHash(p, e)
      case None => None
      case Some(h) => Some(e[ENTRY := Str(h)])
  }

  function LastEntry(p: Platform, lines: seq<Line>): (e: Option<Entry>)
    requires lines != []
    ensures e.Some? ==> SEQ in e.value && e.value[SEQ].Int? && ENTRY in e.value && e.value[ENTRY].Str?
  {
    match Loads(p.fl, lines[|lines| - 1].text)
    case Some(Obj(e)) => if SEQ in e && e[SEQ].Int? && ENTRY in e && e[ENTRY].Str? then Some(e) else None
    case _ => None
  }

  datatype Plan = Refused | Write(bytes: seq<byte>, entry: Entry) | PlanRaises

  /** The bytes `_append_seal_locked` writes at the end of the file, once the chain has verified. */
  function PlanWrite(p: Platform, file: seq<byte>, seqNo: int, prev: PyStr, r: Request): Plan {
    if r.genesisOf.Some? && seqNo != 1 then Refused
    else match BuildEntry(p, seqNo, prev, r)
      case None => Refused
      case Some(e) =>
        match CanonicalBytes(Obj(e))
        case None => Refused
        case Some(bs) =>
          Write((if file != [] && file[|file| - 1] != LF then [LF] else []) + (bs + [LF]), e)
  }

  /** `_append_seal_locked` up to the write; an absent ledger is an empty file. */
  function PlanAppend(p: Platform, file: seq<byte>, r: Request): Plan {
    match IterLines(file)
    case None => Refused
    case Some(lines) =>
      match Verify(p, lines)
      case Raises => PlanRaises
      case Diverges(_, _, _) => Refused
      case Intact =>
        if lines == [] then PlanWrite(p, file, 1, GENESIS, r)
        else match LastEntry(p, lines)
          case None => PlanRaises
          case Some(last) => PlanWrite(p, file, last[SEQ].n + 1, last[ENTRY].s, r)
  }

  /** The ledger file. */
  class Ledger {
    var bytes: seq<byte>

    /** `append_seal` under the lock, when nothing interrupts it: verify, build, write. */
    method Append(p: Platform, r: Request) returns (entry: Option<Entry>)
      modifies this
      ensures match PlanAppend(p, old(bytes), r)
              case Write(w, e) => bytes == old(bytes) + w && entry == Some(e)
              case _ => bytes == old(bytes) && entry == None
    {
      hide Verify, IterLines, BuildEntry, CanonicalBytes, LastEntry;
      var read := IterLines(bytes);
      if read.None? {
        return None;
      }
      var lines := read.value;
      var verdict := VerifyLines(p, lines);
      if verdict != Intact {
        return None;
      }
      var seqNo, prev := 1, GENESIS;
      if lines != [] {
        var last := LastEntry(p, lines);
        if last.None? {
          return None;
        }
        seqNo, prev := last.value[SEQ].n + 1, last.value[ENTRY].s;
      }
      if r.genesisOf.Some? && seqNo != 1 {
        return None;
      }
      var built := BuildEntry(p, seqNo, prev, r);
      if built.None? {
        return None;
      }
      var line := CanonicalBytes(Obj(built.value));
      if line.None? {
        return None;
      }
      if bytes != [] && bytes[|bytes| - 1] != LF {
        bytes := bytes + ([LF] + (line.value + [LF]));
      } else {
        bytes := bytes + ([] + (line.value + [LF]));
      }
      return built;
    }
  }
}
