/** What an append leaves behind: complete, or stopped after any byte of its write. */
module SealCrash {
  import opened Options
  import opened PyText
  import opened JsonValues
  import opened JsonPrinter
  import opened JsonParser
  import opened JsonRoundTrip
  import opened PyLines
  import opened Seal
  import opened SealChain
  import opened Utf8
  import JsonGrammar
  import NumberTokens

  // ----- The entry an append builds -----

  lemma {:induction false} KeysDiffer()
    ensures SCHEMA != SEQ && SCHEMA != PREV && SCHEMA != FILE && SCHEMA != TOOL && SCHEMA != VERDICT && SCHEMA != CODES
    ensures SCHEMA != REPORT && SCHEMA != SEALED_AT && SCHEMA != PATH && SCHEMA != GENESIS_OF && SCHEMA != ENTRY
    ensures SEQ != PREV && SEQ != FILE && SEQ != TOOL && SEQ != VERDICT && SEQ != CODES && SEQ != REPORT
    ensures SEQ != SEALED_AT && SEQ != PATH && SEQ != GENESIS_OF && SEQ != ENTRY
    ensures PREV != FILE && PREV != TOOL && PREV != VERDICT && PREV != CODES && PREV != REPORT && PREV != SEALED_AT
    ensures PREV != PATH && PREV != GENESIS_OF && PREV != ENTRY
    ensures FILE != TOOL && FILE != VERDICT && FILE != CODES && FILE != REPORT && FILE != SEALED_AT && FILE != PATH
    ensures FILE != GENESIS_OF && FILE != ENTRY
    ensures TOOL != VERDICT && TOOL != CODES && TOOL != REPORT && TOOL != SEALED_AT && TOOL != PATH &&
              TOOL != GENESIS_OF
    ensures TOOL != ENTRY
    ensures VERDICT != CODES && VERDICT != REPORT && VERDICT != SEALED_AT && VERDICT != PATH &&
              VERDICT != GENESIS_OF && VERDICT != ENTRY
    ensures CODES != REPORT && CODES != SEALED_AT && CODES != PATH && CODES != GENESIS_OF && CODES != ENTRY
    ensures REPORT != SEALED_AT && REPORT != PATH && REPORT != GENESIS_OF && REPORT != ENTRY
    ensures SEALED_AT != PATH && SEALED_AT != GENESIS_OF && SEALED_AT != ENTRY
    ensures PATH != GENESIS_OF && PATH != ENTRY
    ensures GENESIS_OF != ENTRY
  {
    assert PREV[0] == 'p' as int && FILE[0] == 'f' as int;
    assert TOOL[0] == 't' as int && PATH[0] == 'p' as int;
  }

  /** The fields every body has. */
  ghost predicate HasFields(e: Entry, seqNo: int, prev: PyStr, r: Request) {
    && SCHEMA in e && e[SCHEMA] == Str(SCHEMA_ID)
    && SEQ in e && e[SEQ] == Json.Int(seqNo)
    && PREV in e && e[PREV] == Str(prev)
    && FILE in e && e[FILE] == Str(r.fileSha)
    && TOOL in e && e[TOOL] == Str(r.tool)
    && VERDICT in e && e[VERDICT] == Str(r.verdict)
    && CODES in e && e[CODES] == Obj(map k | k in r.codes :: Json.Int(r.codes[k]))
    && REPORT in e && e[REPORT] == Str(r.reportSha)
    && SEALED_AT in e && e[SEALED_AT] == Str(r.sealedAt)
  }

  ghost predicate Plain(e: Entry) {
    forall k :: k in e ==> e[k].Str? || e[k].Int? || k == CODES
  }

  lemma {:induction false} BaseFields(seqNo: int, prev: PyStr, r: Request)
    ensures HasFields(Base(seqNo, prev, r), seqNo, prev, r) && Plain(Base(seqNo, prev, r))
    ensures ENTRY !in Base(seqNo, prev, r) && PATH !in Base(seqNo, prev, r) && GENESIS_OF !in Base(seqNo, prev, r)
  {
    hide Name;
    KeysDiffer();
  }

  /** The fields of a body, one by one. */
  lemma {:induction false} BodyFields(seqNo: int, prev: PyStr, r: Request)
    ensures var e := Body(seqNo, prev, r);
            && HasFields(e, seqNo, prev, r) && Plain(e) && ENTRY !in e
            && (PATH in e <==> r.path.Some?) && (r.path.Some? ==> e[PATH] == Str(r.path.value))
            && (GENESIS_OF in e <==> r.genesisOf.Some?)
            && (r.genesisOf.Some? ==> e[GENESIS_OF] == Str(r.genesisOf.value))
  {
    BaseFields(seqNo, prev, r);
    KeysDiffer();
    hide Name, Base;
  }

  lemma {:induction false} BodyLawful(fl: FloatReader, seqNo: int, prev: PyStr, r: Request)
    ensures JsonValues.Lawful(fl, Obj(Body(seqNo, prev, r)))
  {
    var e := Body(seqNo, prev, r);
    BodyFields(seqNo, prev, r);
    hide Body;
    forall k | k in e ensures JsonValues.Lawful(fl, e[k]) {
    }
  }

  /** A built entry passes the shape check, if and only if its time stamp has the ledger's form. */
  lemma {:induction false} BuiltShape(p: Platform, seqNo: int, prev: PyStr, r: Request)
    requires Trusted(p) && BuildEntry(p, seqNo, prev, r).Some?
    ensures EntryShape(Obj(BuildEntry(p, seqNo, prev, r).value)) ==
            if IsSealedAt(r.sealedAt) then ShapeOk else ShapeBad(MalformedLine)
  {
    var e := Body(seqNo, prev, r);
    BodyFields(seqNo, prev, r);
    KeysDiffer();
    hide Body, Name, IsSealedAt, EntryHash;
    var h := EntryHash(p, e).value;
    DigestHex(p, e);
    var full := e[ENTRY := Str(h)];
    assert BuildEntry(p, seqNo, prev, r).value == full;
    assert HasCodes(full) by {
      forall k | k in full[CODES].fields ensures IsCount(full[CODES].fields[k]) {
      }
    }
    assert full[SEALED_AT] == Str(r.sealedAt);
  }

  lemma {:induction false} DigestHex(p: Platform, e: Entry)
    requires Trusted(p)
    ensures EntryHash(p, e).Some? ==> IsHex64(EntryHash(p, e).value)
  {
    hide Preimage, IsHex64;
  }

  /** A built entry: its sequence number, link and digest, and the value its canonical text loads as. */
  lemma {:induction false} BuiltFacts(p: Platform, seqNo: int, prev: PyStr, r: Request)
    requires BuildEntry(p, seqNo, prev, r).Some?
    ensures var e := BuildEntry(p, seqNo, prev, r).value;
            && SEQ in e && e[SEQ] == Json.Int(seqNo) && PREV in e && e[PREV] == Str(prev)
            && ENTRY in e && e[ENTRY].Str? && EntryHash(p, e) == Some(e[ENTRY].s)
            && (GENESIS_OF in e <==> r.genesisOf.Some?)
            && JsonValues.Lawful(p.fl, Obj(e))
  {
    var e := Body(seqNo, prev, r);
    BodyFields(seqNo, prev, r);
    BodyLawful(p.fl, seqNo, prev, r);
    KeysDiffer();
    hide Body, Name, EntryHash, RequestOk;
    var h := EntryHash(p, e).value;
    var full := e[ENTRY := Str(h)];
    assert full - {ENTRY} == e;
    assert e - {ENTRY} == e;
    SameHash(p, full, e);
  }

  lemma {:induction false} SameHash(p: Platform, x: Entry, y: Entry)
    requires x - {ENTRY} == y - {ENTRY}
    ensures EntryHash(p, x) == EntryHash(p, y)
  {
  }

  /** Checking the line of a built entry at its own place. */
  lemma {:induction false} BuiltLine(p: Platform, seqNo: int, prev: PyStr, r: Request)
    requires Trusted(p) && BuildEntry(p, seqNo, prev, r).Some?
    requires Encodable(Obj(BuildEntry(p, seqNo, prev, r).value))
    ensures var e := BuildEntry(p, seqNo, prev, r).value;
            CheckLine(p, Print(Obj(e)), prev, seqNo) ==
            if IsSealedAt(r.sealedAt) then Linked(e) else Bad(MalformedLine, None)
  {
    var e := BuildEntry(p, seqNo, prev, r).value;
    BuiltFacts(p, seqNo, prev, r);
    BuiltShape(p, seqNo, prev, r);
    LoadsPrinted(p.fl, Obj(e));
    hide Loads, EntryShape, EntryHash, IsSealedAt, Print, BuildEntry;
  }

  // ----- The canonical text of an entry is one line -----

  predicate NoControl(s: string) {
    forall i :: 0 <= i < |s| ==> s[i] >= ' '
  }

  lemma {:induction false} EscapeNoControl(x: PyStr)
    requires Clean(x)
    ensures NoControl(Escape(x))
    decreases |x|
  {
    if x != [] { EscapeNoControl(x[1..]); }
  }

  lemma {:induction false} DecNoControl(n: nat)
    ensures NoControl(Dec(n))
  {
    if n >= 10 { DecNoControl(n / 10); }
  }

  lemma {:induction false} PrintNoControl(fl: FloatReader, v: Json)
    requires Encodable(v) && JsonValues.Lawful(fl, v)
    ensures NoControl(Print(v))
    decreases v, 1, 0
  {
    match v
    case Int(n) => DecNoControl(if n < 0 then -n else n);
    case Float(t) => NumberTokens.NumberChars(NumberTokens.Start, t);
    case Str(x) => EscapeNoControl(x);
    case Arr(items) => ItemsNoControl(fl, items);
    case Obj(fields) => FieldsNoControl(fl, v, SortedKeys(fields.Keys));
    case _ =>
  }

  lemma {:induction false} ItemsNoControl(fl: FloatReader, items: seq<Json>)
    requires forall i :: 0 <= i < |items| ==> Encodable(items[i]) && JsonValues.Lawful(fl, items[i])
    ensures NoControl(ItemsText(items))
    decreases items, 0, 0
  {
    if items != [] {
      PrintNoControl(fl, items[0]);
      ItemsNoControl(fl, items[1..]);
    }
  }

  lemma {:induction false} FieldsNoControl(fl: FloatReader, v: Json, keys: seq<PyStr>)
    requires v.Obj? && Encodable(v) && JsonValues.Lawful(fl, v) && (forall k :: k in keys ==> k in v.fields)
    ensures NoControl(FieldsText(v, keys))
    decreases v, 0, |keys|
  {
    if keys != [] {
      assert keys[0] in v.fields;
      EscapeNoControl(keys[0]);
      PrintNoControl(fl, v.fields[keys[0]]);
      FieldsNoControl(fl, v, keys[1..]);
    }
  }

  /** An object's canonical text and every non-empty prefix of it is one non-blank line. */
  lemma {:induction false} ObjectLine(fl: FloatReader, v: Json, k: nat)
    requires v.Obj? && Encodable(v) && JsonValues.Lawful(fl, v) && 0 < k <= |Print(v)|
    ensures NoLf(Print(v)[..k]) && !PyBlank(Print(v)[..k])
  {
    PrintNoControl(fl, v);
    PrintHead(v);
    assert Print(v)[..k][0] == Print(v)[0] == '{';
  }

  // ----- The lines of a file after some more text -----

  /** The file's text ends at a line boundary. */
  predicate AtLineStart(t: string) {
    t == "" || t[|t| - 1] == '\n'
  }

  lemma {:induction false} EmptyLine(number: nat)
    ensures NonBlank(SplitLf(""), number) == []
  {
    OneLine("", number);
  }

  /** Text after a line boundary adds its own lines. */
  lemma {:induction false} LinesAfterBoundary(t: string, x: string) returns (number: nat)
    requires AtLineStart(t)
    ensures number >= 1
    ensures NonBlank(SplitLf(t + x), 1) == NonBlank(SplitLf(t), 1) + NonBlank(SplitLf(x), number)
  {
    hide NonBlank, SplitLf, PyBlank;
    if t == "" {
      assert t + x == x;
      EmptyLine(1);
      number := 1;
      assert [] + NonBlank(SplitLf(x), 1) == NonBlank(SplitLf(x), 1);
    } else {
      var a := t[..|t| - 1];
      assert t + x == a + ['\n'] + x && t == a + ['\n'] + "";
      number := LinesAfterBreak(a, x);
      var n := LinesAfterBreak(a, "");
      EmptyLine(n);
    }
  }

  lemma {:induction false} LinesAfterBreak(t: string, x: string) returns (number: nat)
    ensures number >= 1
    ensures NonBlank(SplitLf(t + ['\n'] + x), 1) == NonBlank(SplitLf(t), 1) + NonBlank(SplitLf(x), number)
  {
    SplitConcat(t, x);
    number := 1 + |SplitLf(t)|;
    NonBlankConcat(SplitLf(t), SplitLf(x), 1);
  }

  /** The separator an append puts in front of its line. */
  function Separator(t: string): string {
    if AtLineStart(t) then "" else "\n"
  }

  /** After the separator, text adds its own lines; the separator alone adds none. */
  lemma {:induction false} LinesAfterSeparator(t: string, x: string) returns (number: nat)
    ensures NonBlank(SplitLf(t + Separator(t) + x), 1) == NonBlank(SplitLf(t), 1) + NonBlank(SplitLf(x), number)
  {
    if AtLineStart(t) {
      assert t + Separator(t) + x == t + x;
      number := LinesAfterBoundary(t, x);
    } else {
      assert t + Separator(t) + x == t + ['\n'] + x;
      number := LinesAfterBreak(t, x);
    }
  }

  /** The lines a cut of the record adds: none, the cut text, or the whole text. */
  lemma {:induction false} CutLines(t: string, x: string, j: nat) returns (number: nat)
    requires NoLf(x) && x != "" && (forall k :: 0 < k <= |x| ==> !PyBlank(x[..k]))
    requires j <= |x| + 1
    ensures var y := (x + "\n")[..j];
            NonBlank(SplitLf(t + Separator(t) + y), 1) ==
            NonBlank(SplitLf(t), 1) + (if j == 0 then [] else [Line(number, if j <= |x| then x[..j] else x)])
  {
    hide NonBlank, SplitLf, PyBlank;
    var y := (x + "\n")[..j];
    if j == 0 {
      number := LinesAfterSeparator(t, y);
      EmptyLine(number);
      assert y == "";
    } else if j <= |x| {
      number := LinesAfterSeparator(t, y);
      assert y == x[..j];
      OneLine(y, number);
    } else {
      assert y == x + ['\n'] + "";
      number := LinesAfterSeparator(t, y);
      LinesAfterLine(x, number);
      assert x[..|x|] == x;
      OneLine(x, number);
    }
  }

  lemma {:induction false} LinesAfterLine(x: string, number: nat)
    ensures NonBlank(SplitLf(x + ['\n'] + ""), number) == NonBlank(SplitLf(x), number)
  {
    hide NonBlank, SplitLf, PyBlank;
    SplitConcat(x, "");
    NonBlankConcat(SplitLf(x), SplitLf(""), number);
    EmptyLine(number + |SplitLf(x)|);
  }

  // ----- Bytes and text -----

  lemma {:induction false} LastByte(t: string)
    requires t != ""
    ensures Encode(t) != [] && (Encode(t)[|Encode(t)| - 1] == LF <==> t[|t| - 1] == '\n')
  {
    var h, c := t[..|t| - 1], t[|t| - 1];
    assert t == h + [c];
    EncodeConcat(h, [c]);
    assert Encode([c]) == EncodeChar(c) by { assert [c][1..] == ""; }
  }

  /** The bytes of a planned write are the separator, the canonical text and a line feed. */
  lemma {:induction false} PlannedText(p: Platform, file: seq<byte>, seqNo: int, prev: PyStr, r: Request)
    requires Decode(file).Valid? && PlanWrite(p, file, seqNo, prev, r).Write?
    ensures var w := PlanWrite(p, file, seqNo, prev, r);
            && BuildEntry(p, seqNo, prev, r) == Some(w.entry) && Encodable(Obj(w.entry))
            && w.bytes == Encode(Separator(Decode(file).text) + (Print(Obj(w.entry)) + "\n"))
            && !(r.genesisOf.Some? && seqNo != 1)
  {
    var t := Decode(file).text;
    var w := PlanWrite(p, file, seqNo, prev, r);
    EncodeDecoded(file);
    if t != "" { LastByte(t); }
    assert Encode("\n") == [LF] by { assert "\n"[1..] == ""; }
    var x := Print(Obj(w.entry));
    EncodeConcat(x, "\n");
    EncodeConcat(Separator(t), x + "\n");
    if AtLineStart(t) { assert [] + Encode(x + "\n") == Encode(x + "\n"); }
  }

  // ----- Crash trichotomy -----

  /** The file after the first `k` bytes of a write. */
  function After(file: seq<byte>, bytes: seq<byte>, k: nat): seq<byte>
    requires k <= |bytes|
  {
    file + bytes[..k]
  }

  /** What the file says of the chain: nothing when it is not UTF-8. */
  function VerifyFile(p: Platform, file: seq<byte>): Option<Verdict> {
    match IterLines(file)
    case Some(lines) => Some(Verify(p, lines))
    case None => None
  }

  /** The parsed entries of an intact file. */
  function FileEntries(p: Platform, file: seq<byte>): seq<Entry> {
    match IterLines(file)
    case Some(lines) => Entries(p, lines)
    case None => []
  }

  predicate IntactFile(p: Platform, file: seq<byte>) {
    VerifyFile(p, file) == Some(Intact)
  }

  /** The chain stops at its last line, which is malformed. */
  predicate BrokenAtLastLine(p: Platform, file: seq<byte>) {
    match IterLines(file)
    case Some(lines) =>
      lines != [] && Verify(p, lines) == Diverges(MalformedLine, lines[|lines| - 1].number, None)
    case None => false
  }

  /** The lines of `base` are all there, and behind them the chain stops at one malformed line. */
  predicate BrokenBehind(p: Platform, base: seq<byte>, file: seq<byte>) {
    && IterLines(base).Some? && IterLines(file).Some?
    && var before, lines := IterLines(base).value, IterLines(file).value;
    && |lines| == |before| + 1 && lines[..|before|] == before
    && Verify(p, lines) == Diverges(MalformedLine, lines[|before|].number, None)
  }

  lemma {:induction false} BehindIsLast(p: Platform, base: seq<byte>, file: seq<byte>)
    requires BrokenBehind(p, base, file)
    ensures BrokenAtLastLine(p, file)
  {
    hide Verify, IterLines;
  }

  /** The lines after some bytes of a write. */
  lemma {:induction false} CutFile(file: seq<byte>, x: string, k: nat) returns (j: nat)
    requires Decode(file).Valid?
    requires var w := Encode(Separator(Decode(file).text) + (x + "\n")); k <= |w|
    ensures var s := Separator(Decode(file).text);
            var w := Encode(s + (x + "\n"));
            var d := Decode(After(file, w, k));
            && !d.Invalid?
            && j <= |s| + |x| + 1
            && (d.Valid? ==> d.text == Decode(file).text + (s + (x + "\n"))[..j])
            && (k == |w| ==> d.Valid? && j == |s| + |x| + 1)
  {
    var t := Decode(file).text;
    var s := Separator(t);
    var all := s + (x + "\n");
    var w := Encode(all);
    j := DecodePrefix(all, k);
    DecodeConcat(file, w[..k]);
    if k == |w| {
      assert w[..k] == w;
      RoundTrip(all);
    }
  }

  /** What `lines'` is after a cut: the old lines, one good line more, or one malformed line more. */
  ghost predicate CutOutcome(p: Platform, lines: seq<Line>, lines': seq<Line>, e: Entry, whole: bool, stamped: bool) {
    || (lines' == lines && !whole)
    || (|lines'| == |lines| + 1 && lines'[..|lines|] == lines && whole && stamped &&
        Verify(p, lines') == Intact && EntryAt(p, lines'[|lines|].text) == e)
    || (|lines'| == |lines| + 1 && lines'[..|lines|] == lines && (!whole || !stamped) &&
        Verify(p, lines') == Diverges(MalformedLine, lines'[|lines|].number, None))
  }

  /** `j` characters of the write after the file's text. */
  lemma {:induction false} CutText(p: Platform, lines: seq<Line>, t: string, e: Entry, j: nat, seqNo: int,
                                   prev: PyStr, r: Request)
    requires Trusted(p)
    requires lines == NonBlank(SplitLf(t), 1) && Verify(p, lines) == Intact
    requires seqNo == |lines| + 1 && prev == PrevHash(p, lines, |lines|, GENESIS)
    requires Encodable(Obj(e)) && BuildEntry(p, seqNo, prev, r) == Some(e)
    requires j <= |Separator(t)| + |Print(Obj(e))| + 1
    ensures CutOutcome(p, lines, NonBlank(SplitLf(t + (Separator(t) + (Print(Obj(e)) + "\n"))[..j]), 1), e,
                       j >= |Separator(t)| + |Print(Obj(e))|, IsSealedAt(r.sealedAt))
  {
    hide *;
    BuiltFacts(p, seqNo, prev, r);
    var s, x := Separator(t), Print(Obj(e));
    ObjectLines(p.fl, Obj(e));
    var y := (s + (x + "\n"))[..j];
    if j <= |s| {
      SeparatorOnly(t, j);
      assert y == s[..j];
      OutcomeSame(p, lines, e, IsSealedAt(r.sealedAt));
    } else {
      var i := j - |s|;
      assert y == s + (x + "\n")[..i];
      assert t + y == t + s + (x + "\n")[..i];
      var number := CutLines(t, x, i);
      OneMore(p, lines, e, i, number, seqNo, prev, r);
    }
  }

  lemma {:induction false} OutcomeSame(p: Platform, lines: seq<Line>, e: Entry, stamped: bool)
    ensures CutOutcome(p, lines, lines, e, false, stamped)
  {
  }

  lemma {:induction false} OutcomeGood(p: Platform, lines: seq<Line>, line: Line, e: Entry)
    requires Verify(p, lines + [line]) == Intact && EntryAt(p, line.text) == e
    ensures CutOutcome(p, lines, lines + [line], e, true, true)
  {
    hide Verify, EntryAt;
  }

  lemma {:induction false} OutcomeBroken(p: Platform, lines: seq<Line>, line: Line, e: Entry, whole: bool,
                                         stamped: bool)
    requires Verify(p, lines + [line]) == Diverges(MalformedLine, line.number, None) && (!whole || !stamped)
    ensures CutOutcome(p, lines, lines + [line], e, whole, stamped)
  {
    hide Verify, EntryAt;
  }

  lemma {:induction false} VerifyOneMore(p: Platform, lines: seq<Line>, line: Line)
    requires Verify(p, lines) == Intact
    ensures Verify(p, lines + [line]) == VerifyFrom(p, [line], PrevHash(p, lines, |lines|, GENESIS), |lines| + 1)
  {
    hide VerifyFrom, PrevHash;
    VerifyConcat(p, lines, [line], GENESIS, 1);
  }

  /** One line more: the first `i` characters of the entry's text, or all of them. */
  lemma {:induction false} OneMore(p: Platform, lines: seq<Line>, e: Entry, i: nat, number: nat, seqNo: int,
                                   prev: PyStr, r: Request)
    requires Trusted(p) && Verify(p, lines) == Intact
    requires seqNo == |lines| + 1 && prev == PrevHash(p, lines, |lines|, GENESIS)
    requires Encodable(Obj(e)) && BuildEntry(p, seqNo, prev, r) == Some(e)
    ensures var x := Print(Obj(e));
            CutOutcome(p, lines, lines + [Line(number, if i <= |x| then x[..i] else x)], e, i >= |x|,
                       IsSealedAt(r.sealedAt))
  {
    hide *;
    BuiltFacts(p, seqNo, prev, r);
    BuiltLine(p, seqNo, prev, r);
    var x := Print(Obj(e));
    var text := if i <= |x| then x[..i] else x;
    VerifyOneMore(p, lines, Line(number, text));
    if i < |x| {
      CutObjectFails(p.fl, Obj(e), i);
      FailingLine(p, text, number, prev, seqNo);
      OutcomeBroken(p, lines, Line(number, text), e, false, IsSealedAt(r.sealedAt));
    } else {
      assert text == x;
      LastLine(p, text, number, prev, seqNo);
      if IsSealedAt(r.sealedAt) {
        OutcomeGood(p, lines, Line(number, text), e);
      } else {
        OutcomeBroken(p, lines, Line(number, text), e, true, false);
      }
    }
  }

  /** The outcomes of a write cut after `k` bytes. */
  ghost predicate Trichotomy(p: Platform, file: seq<byte>, e: Entry, file': seq<byte>, complete: bool, stamped: bool) {
    || (IntactFile(p, file') && FileEntries(p, file') == FileEntries(p, file) && !complete)
    || (IntactFile(p, file') && FileEntries(p, file') == FileEntries(p, file) + [e] && stamped)
    || (BrokenBehind(p, file, file') && (!complete || !stamped))
    || (IterLines(file') == None && !complete)
  }

  lemma {:induction false} OutcomeOfLines(p: Platform, file: seq<byte>, file': seq<byte>, lines: seq<Line>,
                                          lines': seq<Line>, e: Entry, whole: bool, complete: bool, stamped: bool)
    requires IterLines(file) == Some(lines) && IterLines(file') == Some(lines')
    requires Verify(p, lines) == Intact && CutOutcome(p, lines, lines', e, whole, stamped) && (complete ==> whole)
    ensures Trichotomy(p, file, e, file', complete, stamped)
  {
    hide Verify, EntryAt, IterLines;
    if |lines'| == |lines| + 1 && lines'[..|lines|] == lines && EntryAt(p, lines'[|lines|].text) == e {
      var es, es' := Entries(p, lines), Entries(p, lines');
      assert forall i :: 0 <= i < |lines| ==> lines'[i] == lines[i];
      assert es' == es + [e];
    }
  }

  /** The outcomes of a write cut after `k` bytes, for the request's place in the chain. */
  lemma {:induction false} CutVerdict(p: Platform, file: seq<byte>, lines: seq<Line>, seqNo: int, prev: PyStr,
                                      r: Request, k: nat)
    requires Trusted(p)
    requires IterLines(file) == Some(lines) && Verify(p, lines) == Intact
    requires seqNo == |lines| + 1 && prev == PrevHash(p, lines, |lines|, GENESIS)
    requires PlanWrite(p, file, seqNo, prev, r).Write? && k <= |PlanWrite(p, file, seqNo, prev, r).bytes|
    ensures var w := PlanWrite(p, file, seqNo, prev, r);
            Trichotomy(p, file, w.entry, After(file, w.bytes, k), k == |w.bytes|, IsSealedAt(r.sealedAt))
  {
    var w := PlanWrite(p, file, seqNo, prev, r);
    PlannedText(p, file, seqNo, prev, r);
    hide PlanWrite, BuildEntry, IsSealedAt, Verify, EntryHash, Trichotomy, CutOutcome, Print, Trusted, Encodable;
    var x := Print(Obj(w.entry));
    var t := Decode(file).text;
    var j := CutFile(file, x, k);
    var file' := After(file, w.bytes, k);
    if Decode(file').Valid? {
      CutText(p, lines, t, w.entry, j, seqNo, prev, r);
      var lines' := NonBlank(SplitLf(t + (Separator(t) + (x + "\n"))[..j]), 1);
      assert IterLines(file') == Some(lines');
      OutcomeOfLines(p, file, file', lines, lines', w.entry, j >= |Separator(t)| + |x|, k == |w.bytes|,
                     IsSealedAt(r.sealedAt));
    } else {
      NotText(p, file, w.entry, file', IsSealedAt(r.sealedAt));
    }
  }

  lemma {:induction false} NotText(p: Platform, file: seq<byte>, e: Entry, file': seq<byte>, stamped: bool)
    requires !Decode(file').Valid?
    ensures Trichotomy(p, file, e, file', false, stamped)
  {
  }

  lemma {:induction false} ObjectLines(fl: FloatReader, v: Json)
    requires v.Obj? && Encodable(v) && JsonValues.Lawful(fl, v)
    ensures NoLf(Print(v)) && Print(v) != "" && forall k :: 0 < k <= |Print(v)| ==> !PyBlank(Print(v)[..k])
  {
    PrintHead(v);
    forall k | 0 < k <= |Print(v)| ensures !PyBlank(Print(v)[..k]) { ObjectLine(fl, v, k); }
    ObjectLine(fl, v, |Print(v)|);
    assert Print(v)[..|Print(v)|] == Print(v);
  }

  lemma {:induction false} SeparatorOnly(t: string, j: nat)
    requires j <= |Separator(t)|
    ensures NonBlank(SplitLf(t + Separator(t)[..j]), 1) == NonBlank(SplitLf(t), 1)
  {
    hide NonBlank, SplitLf, PyBlank;
    if j == 0 {
      assert t + Separator(t)[..j] == t;
    } else {
      var number := LinesAfterSeparator(t, "");
      assert t + Separator(t)[..j] == t + Separator(t) + "";
      EmptyLine(number);
    }
  }

  lemma {:induction false} FailingLine(p: Platform, text: string, number: nat, prev: PyStr, seqNo: int)
    requires Loads(p.fl, text) == None
    ensures VerifyFrom(p, [Line(number, text)], prev, seqNo) == Diverges(MalformedLine, number, None)
  {
    hide Loads;
  }

  lemma {:induction false} LastLine(p: Platform, text: string, number: nat, prev: PyStr, seqNo: int)
    ensures var c := CheckLine(p, text, prev, seqNo);
            var v := VerifyFrom(p, [Line(number, text)], prev, seqNo);
            && (c.Linked? ==> v == Intact && EntryAt(p, text) == c.entry)
            && (c.Bad? ==> v == Diverges(c.kind, number, c.seqNo))
  {
    if CheckLine(p, text, prev, seqNo).Linked? { LinkedFacts(p, text, prev, seqNo); }
    hide CheckLine, EntryAt;
    assert [Line(number, text)][1..] == [];
  }

  // ----- The append itself -----

  /** The plan of an append on an intact file continues its chain. */
  lemma {:induction false} PlanContinues(p: Platform, file: seq<byte>, r: Request)
    returns (lines: seq<Line>, seqNo: int, prev: PyStr)
    requires PlanAppend(p, file, r).Write?
    ensures IterLines(file) == Some(lines) && Verify(p, lines) == Intact
    ensures seqNo == |lines| + 1 && prev == PrevHash(p, lines, |lines|, GENESIS)
    ensures PlanAppend(p, file, r) == PlanWrite(p, file, seqNo, prev, r)
  {
    hide PlanWrite, CheckLine, Loads, VerifyFrom;
    lines := IterLines(file).value;
    seqNo, prev := 1, GENESIS;
    if lines != [] {
      LastFacts(p, lines);
      var last := LastEntry(p, lines).value;
      seqNo, prev := last[SEQ].n + 1, last[ENTRY].s;
    }
  }

  lemma {:induction false} LastFacts(p: Platform, lines: seq<Line>)
    requires lines != [] && Verify(p, lines) == Intact
    ensures LastEntry(p, lines).Some?
    ensures var e := LastEntry(p, lines).value;
            SEQ in e && e[SEQ] == Json.Int(|lines|) && ENTRY in e && e[ENTRY].Str? &&
            e[ENTRY].s == PrevHash(p, lines, |lines|, GENESIS)
  {
    hide Loads, Verify, EntryShape, EntryHash, DigestOf, EntryAt;
    EntryFacts(p, lines, |lines| - 1);
  }

  /** Crash trichotomy: stop the write of an append on an intact ledger after any number of bytes.
      The file verifies with the old entries, or with the new one added, or its last line is
      malformed, or it is not UTF-8. Complete, it verifies exactly when the stamp is well formed. */
  lemma {:induction false} CrashTrichotomy(p: Platform, file: seq<byte>, r: Request, k: nat)
    requires Trusted(p) && PlanAppend(p, file, r).Write? && k <= |PlanAppend(p, file, r).bytes|
    ensures var w := PlanAppend(p, file, r);
            Trichotomy(p, file, w.entry, After(file, w.bytes, k), k == |w.bytes|, IsSealedAt(r.sealedAt))
  {
    var lines, seqNo, prev := PlanContinues(p, file, r);
    hide *;
    CutVerdict(p, file, lines, seqNo, prev, r, k);
  }

  /** A completed append verifies, with exactly one entry more, if and only if its time stamp has
      the form the ledger's own check demands: UTC, to the second. */
  lemma {:induction false} AppendVerifiesIff(p: Platform, file: seq<byte>, r: Request)
    requires Trusted(p) && PlanAppend(p, file, r).Write?
    ensures var w := PlanAppend(p, file, r);
            && (IntactFile(p, file + w.bytes) <==> IsSealedAt(r.sealedAt))
            && (IsSealedAt(r.sealedAt) ==> FileEntries(p, file + w.bytes) == FileEntries(p, file) + [w.entry])
            && (!IsSealedAt(r.sealedAt) ==> BrokenBehind(p, file, file + w.bytes))
  {
    var w := PlanAppend(p, file, r);
    CrashTrichotomy(p, file, r, |w.bytes|);
    assert After(file, w.bytes, |w.bytes|) == file + w.bytes by { assert w.bytes[..|w.bytes|] == w.bytes; }
    hide PlanAppend, IsSealedAt, IterLines, Verify;
  }

  /** A file that is broken at its last line, or not UTF-8, is never extended again. */
  lemma {:induction false} BrokenRefuses(p: Platform, file: seq<byte>, r: Request)
    requires BrokenAtLastLine(p, file) || IterLines(file) == None
    ensures PlanAppend(p, file, r) == Refused
  {
    hide Verify, IterLines, PlanWrite, LastEntry;
  }
}
