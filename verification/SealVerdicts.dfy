/** What `verify_lines` reports, said of the lines alone: which are good, and what each kind of divergence means. */
module SealVerdicts {
  import opened Options
  import opened PyText
  import opened JsonValues
  import opened JsonPrinter
  import opened JsonParser
  import opened JsonRoundTrip
  import opened PyLines
  import opened Seal
  import opened SealChain
  import opened SealFaults
  import opened Utf8

  // ----- The form of an entry -----

  predicate RightSchema(v: Json) {
    v.Obj? && SCHEMA in v.fields && v.fields[SCHEMA] == Str(SCHEMA_ID)
  }

  predicate Digest(v: Json) {
    v.Str? && |v.s| == 64 && forall i :: 0 <= i < 64 ==> v.s[i] in Name("0123456789abcdef")
  }

  /** What the schema of the ledger asks of an entry. */
  predicate WellShaped(e: Entry) {
    && RightSchema(Obj(e))
    && (SEQ in e && e[SEQ].Int? && e[SEQ].n >= 1)
    && (PREV in e && (e[PREV] == Str(GENESIS) || Digest(e[PREV])))
    && (FILE in e && Digest(e[FILE])) && (REPORT in e && Digest(e[REPORT])) && (ENTRY in e && Digest(e[ENTRY]))
    && (TOOL in e && e[TOOL] in {Str(Name("check")), Str(Name("verify")), Str(Name("repair"))})
    && (VERDICT in e && e[VERDICT].Str? && e[VERDICT] != Str([]))
    && (CODES in e && e[CODES].Obj? && forall k :: k in e[CODES].fields ==>
          e[CODES].fields[k].Bool? || (e[CODES].fields[k].Int? && e[CODES].fields[k].n >= 0))
    && (SEALED_AT in e && e[SEALED_AT].Str? && IsSealedAt(e[SEALED_AT].s))
    && (PATH in e ==> e[PATH].Str?)
    && (GENESIS_OF in e ==> Digest(e[GENESIS_OF]))
  }

  lemma {:induction false} DigestIs(v: Json)
    ensures Digest(v) <==> v.Str? && IsHex64(v.s)
  {
    var hex := Name("0123456789abcdef");
    forall c: CodePoint ensures c in hex <==> LowerHex(c) {
      if LowerHex(c) { assert hex[if c <= 0x39 then c - 0x30 else c - 0x61 + 10] == c; }
    }
  }

  /** The checks of the code, made one after the other, ask for the same. */
  lemma {:induction false} ShapeIff(v: Json)
    ensures EntryShape(v) == ShapeOk <==> v.Obj? && WellShaped(v.fields)
    ensures EntryShape(v) == ShapeRaises <==> BadTool(v)
    ensures EntryShape(v) == ShapeBad(BadSchema) <==> v.Obj? && !RightSchema(v)
    ensures EntryShape(v) == ShapeBad(MalformedLine) <==>
            !v.Obj? || (RightSchema(v) && !WellShaped(v.fields) && !BadTool(v))
  {
    if v.Obj? {
      var e := v.fields;
      forall x: Json ensures Digest(x) <==> x.Str? && IsHex64(x.s) { DigestIs(x); }
      hide Digest, IsHex64, Name, IsSealedAt;
    }
  }

  // ----- One line -----

  /** The line is an entry of the right form that continues the chain with the right number, link and digest. */
  ghost predicate GoodLine(p: Platform, text: string, prev: PyStr, n: int) {
    exists e: Entry, bs: seq<byte> ::
      && Loads(p.fl, text) == Some(Obj(e)) && WellShaped(e) && e[SEQ] == Json.Int(n) && e[PREV] == Str(prev)
      && CanonicalBytes(Obj(e - {ENTRY})) == Some(bs) && e[ENTRY] == Str(p.hash(bs))
  }

  /** What each kind of report says of the line it is about, where `n` is the number and `prev` the digest due. */
  ghost predicate Reports(p: Platform, text: string, prev: PyStr, n: int, kind: Kind, seqNo: Option<int>) {
    var v := Loads(p.fl, text);
    match kind
    case MalformedLine =>
      if seqNo.None? then
        v.None? || !v.value.Obj? || (RightSchema(v.value) && !WellShaped(v.value.fields) && !BadTool(v.value))
      else
        && seqNo == Some(n) && v.Some? && v.value.Obj? && WellShaped(v.value.fields)
        && v.value.fields[SEQ] == Json.Int(n) && v.value.fields[PREV] == Str(prev)
        && CanonicalBytes(Obj(v.value.fields - {ENTRY})).None?
    case BadSchema => seqNo == None && v.Some? && v.value.Obj? && !RightSchema(v.value)
    case SeqGap =>
      && v.Some? && v.value.Obj? && WellShaped(v.value.fields)
      && seqNo == Some(v.value.fields[SEQ].n) && v.value.fields[SEQ] != Json.Int(n)
    case ChainBreak =>
      && seqNo == Some(n) && v.Some? && v.value.Obj? && WellShaped(v.value.fields)
      && v.value.fields[SEQ] == Json.Int(n) && v.value.fields[PREV] != Str(prev)
    case HashMismatch =>
      && seqNo == Some(n) && v.Some? && v.value.Obj? && WellShaped(v.value.fields)
      && v.value.fields[SEQ] == Json.Int(n) && v.value.fields[PREV] == Str(prev)
      && var bs := CanonicalBytes(Obj(v.value.fields - {ENTRY}));
         bs.Some? && v.value.fields[ENTRY] != Str(p.hash(bs.value))
  }

  /** The turn of the loop on an entry of the right form. */
  lemma {:induction false} ShapedLine(p: Platform, text: string, e: Entry, prev: PyStr, n: int)
    requires Loads(p.fl, text) == Some(Obj(e)) && WellShaped(e)
    ensures var c, bs := CheckLine(p, text, prev, n), CanonicalBytes(Obj(e - {ENTRY}));
            if e[SEQ] != Json.Int(n) then c == Bad(SeqGap, Some(e[SEQ].n))
            else if e[PREV] != Str(prev) then c == Bad(ChainBreak, Some(n))
            else if bs.None? then c == Bad(MalformedLine, Some(n))
            else if e[ENTRY] != Str(p.hash(bs.value)) then c == Bad(HashMismatch, Some(n))
            else c == Linked(e)
  {
    ShapeIff(Obj(e));
    hide Loads, CanonicalBytes, EntryShape, Name, IsSealedAt;
  }

  lemma {:induction false} OddLine(p: Platform, text: string, prev: PyStr, n: int)
    requires Loads(p.fl, text).None? || !Loads(p.fl, text).value.Obj? || !WellShaped(Loads(p.fl, text).value.fields)
    ensures var c, v := CheckLine(p, text, prev, n), Loads(p.fl, text);
            if v.None? || !v.value.Obj? then c == Bad(MalformedLine, None)
            else if !RightSchema(v.value) then c == Bad(BadSchema, None)
            else if BadTool(v.value) then c == Crash
            else c == Bad(MalformedLine, None)
  {
    if Loads(p.fl, text).Some? { ShapeIff(Loads(p.fl, text).value); }
    hide Loads, EntryShape, WellShaped, BadTool;
  }

  lemma {:induction false} GoodIs(p: Platform, text: string, prev: PyStr, n: int)
    ensures CheckLine(p, text, prev, n).Linked? <==> GoodLine(p, text, prev, n)
  {
    var v := Loads(p.fl, text);
    if v.Some? && v.value.Obj? && WellShaped(v.value.fields) {
      ShapedLine(p, text, v.value.fields, prev, n);
    } else {
      OddLine(p, text, prev, n);
    }
    hide Loads, CanonicalBytes, CheckLine, Name, BadTool, RightSchema, Digest;
  }

  lemma {:induction false} ReportIs(p: Platform, text: string, prev: PyStr, n: int, kind: Kind, s: Option<int>)
    ensures CheckLine(p, text, prev, n) == Bad(kind, s) <==> Reports(p, text, prev, n, kind, s)
  {
    var v := Loads(p.fl, text);
    if v.Some? && v.value.Obj? && WellShaped(v.value.fields) {
      ShapedReport(p, text, v.value.fields, prev, n, kind, s);
    } else {
      OddLine(p, text, prev, n);
      hide Loads, CanonicalBytes, CheckLine, WellShaped, Name, BadTool, RightSchema;
    }
  }

  lemma {:induction false} ShapedReport(p: Platform, text: string, e: Entry, prev: PyStr, n: int, kind: Kind,
                                        s: Option<int>)
    requires Loads(p.fl, text) == Some(Obj(e)) && WellShaped(e)
    ensures CheckLine(p, text, prev, n) == Bad(kind, s) <==> Reports(p, text, prev, n, kind, s)
  {
    ShapedLine(p, text, e, prev, n);
    assert SEQ in e && e[SEQ].Int? && PREV in e && ENTRY in e && RightSchema(Obj(e));
    hide Loads, CanonicalBytes, CheckLine, WellShaped, BadTool, Name, RightSchema, ENTRY, SEQ, PREV;
  }

  // ----- The whole ledger -----

  /** Line `i` is good, behind the digest of the line before it. */
  ghost predicate GoodAt(p: Platform, lines: seq<Line>, i: nat)
    requires i < |lines|
  {
    GoodLine(p, lines[i].text, PrevHash(p, lines, i, GENESIS), i + 1)
  }

  lemma {:induction false} IntactMeans(p: Platform, lines: seq<Line>)
    ensures Verify(p, lines) == Intact <==> forall i: nat :: i < |lines| ==> GoodAt(p, lines, i)
  {
    hide CheckLine, GoodLine, PrevHash, VerifyFrom;
    IntactIff(p, lines, GENESIS, 1);
    forall i: nat | i < |lines| ensures GoodAt(p, lines, i) <==> LinkedAt(p, lines, i, GENESIS, 1) {
      GoodIs(p, lines[i].text, PrevHash(p, lines, i, GENESIS), 1 + i);
    }
  }

  /** Line `i` is the first that is not good, and this is what its kind of divergence means. */
  ghost predicate FirstReport(p: Platform, lines: seq<Line>, i: nat, kind: Kind, line: nat, seqNo: Option<int>) {
    && i < |lines| && lines[i].number == line
    && (forall j: nat :: j < i ==> GoodAt(p, lines, j))
    && Reports(p, lines[i].text, PrevHash(p, lines, i, GENESIS), i + 1, kind, seqNo)
  }

  lemma {:induction false} GoodBefore(p: Platform, lines: seq<Line>, i: nat)
    requires i <= |lines|
    ensures Verify(p, lines[..i]) == Intact <==> forall j: nat :: j < i ==> GoodAt(p, lines, j)
  {
    hide GoodLine, DigestOf, Verify;
    IntactMeans(p, lines[..i]);
    forall j: nat | j < i ensures GoodAt(p, lines[..i], j) <==> GoodAt(p, lines, j) {
      assert PrevHash(p, lines[..i], j, GENESIS) == PrevHash(p, lines, j, GENESIS);
    }
  }

  /** What a line does behind good ones decides. */
  lemma {:induction false} VerdictAt(p: Platform, lines: seq<Line>, i: nat)
    requires i < |lines| && forall j: nat :: j < i ==> GoodAt(p, lines, j)
    ensures match CheckLine(p, lines[i].text, PrevHash(p, lines, i, GENESIS), i + 1)
            case Linked(_) => true
            case Bad(kind, s) => Verify(p, lines) == Diverges(kind, lines[i].number, s)
            case Crash => Verify(p, lines) == Raises
  {
    hide GoodLine, DigestOf, CheckLine, VerifyFrom, GoodAt;
    GoodBefore(p, lines, i);
    VerifyConcat(p, lines[..i], lines[i..], GENESIS, 1);
    assert lines[..i] + lines[i..] == lines;
    assert PrevHash(p, lines[..i], i, GENESIS) == PrevHash(p, lines, i, GENESIS);
    VerifyStop(p, lines[i..], PrevHash(p, lines, i, GENESIS), 1 + i);
  }

  /** A divergence of some kind is reported at a line exactly when all lines before it are good and the line is
      bad in that way. */
  lemma {:induction false} DivergesMeans(p: Platform, lines: seq<Line>, kind: Kind, line: nat, seqNo: Option<int>)
    ensures Verify(p, lines) == Diverges(kind, line, seqNo) <==>
            exists i: nat :: FirstReport(p, lines, i, kind, line, seqNo)
  {
    hide GoodLine, Reports, CheckLine, VerifyFrom, PrevHash;
    if Verify(p, lines) == Diverges(kind, line, seqNo) {
      var i := DivergencePoint(p, lines, GENESIS, 1);
      GoodBefore(p, lines, i);
      ReportIs(p, lines[i].text, PrevHash(p, lines, i, GENESIS), i + 1, kind, seqNo);
      assert FirstReport(p, lines, i, kind, line, seqNo);
    }
    if i: nat :| FirstReport(p, lines, i, kind, line, seqNo) {
      VerdictAt(p, lines, i);
      ReportIs(p, lines[i].text, PrevHash(p, lines, i, GENESIS), i + 1, kind, seqNo);
    }
  }

  // ----- Edited lines -----

  lemma {:induction false} SkipInBlank(s: string)
    requires PyBlank(s)
    ensures PyBlank(SkipWs(s))
    decreases |s|
  {
    if s != "" { SkipInBlank(s[1..]); }
  }

  lemma {:induction false} BlankFails(fl: FloatReader, s: string)
    requires PyBlank(s)
    ensures Loads(fl, s) == None
  {
    var r := SkipWs(s);
    SkipInBlank(s);
    if r != "" {
      assert PySpace(r[0]);
      LongestDead(r[1..]);
    }
  }

  /** The lines of the file with one of them replaced. */
  lemma {:induction false} Replaced(phys: seq<string>, i: nat, text: string)
    requires i < |NonBlank(phys, 1)| && !PyBlank(text)
    ensures var lines := NonBlank(phys, 1);
            && 1 <= lines[i].number <= |phys|
            && NonBlank(phys[lines[i].number - 1 := text], 1) == lines[i := Line(lines[i].number, text)]
  {
    hide *;
    var lines := NonBlank(phys, 1);
    var pre, x, post := AroundLine(phys, 1, i);
    CutOut(pre, x, post);
    var k := lines[i].number;
    assert phys[k - 1 := text] == pre + ([text] + post);
    NonBlankConcat(pre, [text] + post, 1);
    InkFirst(text, post, k);
    assert lines[..i] + ([Line(k, text)] + lines[i + 1..]) == lines[i := Line(k, text)];
  }

  /** The text is an entry of the right form with the number and the link of line `i`, and not the same entry. */
  ghost predicate EditOf(p: Platform, lines: seq<Line>, i: nat, text: string)
    requires i < |lines|
  {
    var e, e' := EntryAt(p, lines[i].text), EntryAt(p, text);
    && Loads(p.fl, text) == Some(Obj(e')) && WellShaped(e') && e' != e
    && SEQ in e && PREV in e && e'[SEQ] == e[SEQ] && e'[PREV] == e[PREV]
    && NoCollision(p, [e'], [e])
  }

  /** The edit kept the digest that stood there. */
  ghost predicate DigestKept(p: Platform, lines: seq<Line>, i: nat, text: string)
    requires i < |lines|
  {
    var e, e' := EntryAt(p, lines[i].text), EntryAt(p, text);
    ENTRY in e && ENTRY in e' && e'[ENTRY] == e[ENTRY]
  }

  /** The edit put in the digest of what stands there now. */
  ghost predicate Resealed(p: Platform, text: string) {
    var e := EntryAt(p, text);
    ENTRY in e && EntryHash(p, e).Some? && e[ENTRY] == Str(EntryHash(p, e).value)
  }

  /** What the verifier makes of an edit that kept the digest: without canonical bytes there is none to compare. */
  function KindOfEdit(p: Platform, text: string): Kind {
    if EntryHash(p, EntryAt(p, text)).Some? then HashMismatch else MalformedLine
  }

  lemma {:induction false} EditedFacts(p: Platform, lines: seq<Line>, i: nat, text: string)
    requires Trusted(p) && Verify(p, lines) == Intact && i < |lines| && EditOf(p, lines, i, text)
    ensures var e, e' := EntryAt(p, lines[i].text), EntryAt(p, text);
            && e'[SEQ] == Json.Int(i + 1) && e'[PREV] == Str(PrevHash(p, lines, i, GENESIS))
            && ENTRY in e && ENTRY in e' && e'[ENTRY].Str?
            && !(DigestKept(p, lines, i, text) && Resealed(p, text))
  {
    assert LawfulReader(p.fl);
    EntryFacts(p, lines, i);
    LoadsLawful(p.fl, lines[i].text);
    LoadsLawful(p.fl, text);
    var e, e' := EntryAt(p, lines[i].text), EntryAt(p, text);
    assert ENTRY in e' && e'[ENTRY].Str?;
    hide WellShaped, Loads, EntryAt, Verify, PrevHash, DigestOf, EntryShape, NoCollision, JsonValues.Lawful, Preimage;
    if DigestKept(p, lines, i, text) && Resealed(p, text) {
      Distinguish(p, [e'], [e], 0, 0);
      SamePreimage(p, e', e);
    }
  }

  lemma {:induction false} OthersGood(p: Platform, lines: seq<Line>, i: nat, x: Line, lines': seq<Line>)
    requires Verify(p, lines) == Intact && i < |lines| && lines' == lines[i := x]
    ensures forall j: nat :: j < i ==> GoodAt(p, lines', j)
    ensures PrevHash(p, lines', i, GENESIS) == PrevHash(p, lines, i, GENESIS)
  {
    hide GoodLine, DigestOf, Verify;
    IntactMeans(p, lines);
    forall j: nat | j < i ensures GoodAt(p, lines', j) {
      assert GoodAt(p, lines, j);
      assert PrevHash(p, lines', j, GENESIS) == PrevHash(p, lines, j, GENESIS);
    }
  }

  lemma {:induction false} EditedLine(p: Platform, lines: seq<Line>, i: nat, text: string)
    requires Trusted(p) && Verify(p, lines) == Intact && i < |lines|
    requires EditOf(p, lines, i, text) && DigestKept(p, lines, i, text)
    ensures CheckLine(p, text, PrevHash(p, lines, i, GENESIS), i + 1) == Bad(KindOfEdit(p, text), Some(i + 1))
  {
    var e' := EntryAt(p, text);
    EditedFacts(p, lines, i, text);
    ShapedLine(p, text, e', PrevHash(p, lines, i, GENESIS), i + 1);
    hide EntryAt, WellShaped, Loads, CanonicalBytes, CheckLine, PrevHash, Verify, NoCollision, Trusted;
  }

  /** Editing an entry without touching its number, its link and its digest is reported at its own line, as long as
      the two contents do not collide. */
  lemma {:induction false} EditDetected(p: Platform, phys: seq<string>, i: nat, text: string)
    requires Trusted(p) && Verify(p, NonBlank(phys, 1)) == Intact && i < |NonBlank(phys, 1)|
    requires EditOf(p, NonBlank(phys, 1), i, text) && DigestKept(p, NonBlank(phys, 1), i, text)
    ensures var k := NonBlank(phys, 1)[i].number;
            && 1 <= k <= |phys|
            && Verify(p, NonBlank(phys[k - 1 := text], 1)) == Diverges(KindOfEdit(p, text), k, Some(i + 1))
  {
    assert Loads(p.fl, text).Some?;
    hide *;
    if PyBlank(text) { BlankFails(p.fl, text); }
    Replaced(phys, i, text);
    var lines := NonBlank(phys, 1);
    var x := Line(lines[i].number, text);
    OthersGood(p, lines, i, x, lines[i := x]);
    EditedLine(p, lines, i, text);
    VerdictAt(p, lines[i := x], i);
  }

  lemma {:induction false} ResealedLine(p: Platform, lines: seq<Line>, i: nat, text: string)
    requires Trusted(p) && Verify(p, lines) == Intact && i < |lines|
    requires EditOf(p, lines, i, text) && Resealed(p, text)
    ensures GoodLine(p, text, PrevHash(p, lines, i, GENESIS), i + 1)
    ensures DigestOf(p, text) != DigestOf(p, lines[i].text)
  {
    var e' := EntryAt(p, text);
    EditedFacts(p, lines, i, text);
    EntryFacts(p, lines, i);
    ShapedLine(p, text, e', PrevHash(p, lines, i, GENESIS), i + 1);
    GoodIs(p, text, PrevHash(p, lines, i, GENESIS), i + 1);
    assert DigestOf(p, text) == e'[ENTRY].s;
    hide EntryAt, WellShaped, Loads, CanonicalBytes, CheckLine, PrevHash, Verify, NoCollision, Trusted, GoodLine;
  }

  /** Behind another digest than its own predecessor's, an entry of an intact ledger breaks the chain. */
  lemma {:induction false} BrokenLink(p: Platform, lines: seq<Line>, i: nat, prev: PyStr)
    requires Verify(p, lines) == Intact && 0 < i < |lines| && prev != DigestOf(p, lines[i - 1].text)
    ensures CheckLine(p, lines[i].text, prev, i + 1) == Bad(ChainBreak, Some(i + 1))
  {
    EntryFacts(p, lines, i);
    var f := EntryAt(p, lines[i].text);
    ShapeIff(Obj(f));
    ShapedLine(p, lines[i].text, f, prev, i + 1);
    assert f[PREV] == Str(DigestOf(p, lines[i - 1].text));
    hide EntryAt, WellShaped, Loads, CanonicalBytes, CheckLine, Verify, DigestOf, EntryShape;
  }

  /** Editing an entry and putting the new digest in is reported at the next line, whose link it breaks; only the
      last entry can be replaced so. */
  lemma {:induction false} ResealDetected(p: Platform, phys: seq<string>, i: nat, text: string)
    requires Trusted(p) && Verify(p, NonBlank(phys, 1)) == Intact && i < |NonBlank(phys, 1)|
    requires EditOf(p, NonBlank(phys, 1), i, text) && Resealed(p, text)
    ensures var lines := NonBlank(phys, 1);
            && 1 <= lines[i].number <= |phys|
            && Verify(p, NonBlank(phys[lines[i].number - 1 := text], 1)) ==
               if i + 1 < |lines| then Diverges(ChainBreak, lines[i + 1].number, Some(i + 2)) else Intact
  {
    assert Loads(p.fl, text).Some?;
    hide *;
    if PyBlank(text) { BlankFails(p.fl, text); }
    Replaced(phys, i, text);
    var lines := NonBlank(phys, 1);
    var x := Line(lines[i].number, text);
    OthersGood(p, lines, i, x, lines[i := x]);
    ResealedLine(p, lines, i, text);
    ResealedRest(p, lines, i, text, lines[i := x]);
  }

  lemma {:induction false} ResealedRest(p: Platform, lines: seq<Line>, i: nat, text: string, lines': seq<Line>)
    requires Verify(p, lines) == Intact && i < |lines| && lines' == lines[i := Line(lines[i].number, text)]
    requires forall j: nat :: j < i ==> GoodAt(p, lines', j)
    requires PrevHash(p, lines', i, GENESIS) == PrevHash(p, lines, i, GENESIS)
    requires GoodLine(p, text, PrevHash(p, lines, i, GENESIS), i + 1)
    requires DigestOf(p, text) != DigestOf(p, lines[i].text)
    ensures Verify(p, lines') ==
            if i + 1 < |lines| then Diverges(ChainBreak, lines[i + 1].number, Some(i + 2)) else Intact
  {
    assert GoodAt(p, lines', i);
    if i + 1 < |lines| {
      BrokenLink(p, lines, i + 1, DigestOf(p, text));
      assert PrevHash(p, lines', i + 1, GENESIS) == DigestOf(p, text);
      hide *;
      VerdictAt(p, lines', i + 1);
    } else {
      hide *;
      IntactMeans(p, lines');
    }
  }
}
