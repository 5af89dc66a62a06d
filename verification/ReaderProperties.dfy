/** What the stream of findings guarantees. */
module ReaderProperties {
  import opened Options
  import opened PyText
  import opened JsonValues
  import opened JsonPrinter
  import opened JsonGrammar
  import opened Utf8
  import opened Depth
  import opened SessionModel
  import opened Framing
  import opened StreamReader
  import opened StrictJson
  import JsonParser
  import JsonRoundTrip
  import PrintedJson
  import PyLines
  import SealCrash
  import TornAppend

  /** The line is read whole, is NUL-free UTF-8, and its text decodes to `v`. */
  ghost predicate DecodesTo(cfg: Config, raw: Raw, v: Json) {
    && !raw.truncated && TornAppend.NUL !in raw.bytes
    && Decode(TornAppend.StripBom(raw.bytes, raw.lineNumber == 1)).Valid?
    && var text := Decode(TornAppend.StripBom(raw.bytes, raw.lineNumber == 1)).text;
       StrictLoads(cfg.rd.fl, PyLines.Strip(text)) == Some(v)
  }

  /** The record is an object within the depth limit, not taken for a header, on which the event parser
      meets a list or an object where it tests against a frozenset. */
  ghost predicate Escapes(cfg: Config, raw: Raw) {
    exists v :: DecodesTo(cfg, raw, v) && v.Obj? && Within(v, cfg.maxDepth)
      && !(raw.ordinal == 1 && LooksLikeHeader(v.fields)) && RaisesTypeError(cfg.rd, v.fields)
  }

  lemma {:induction false} EscapedIff(cfg: Config, raw: Raw, terminal: bool)
    ensures ItemOf(cfg, raw, terminal) == Escaped <==> Escapes(cfg, raw)
  {
    hide DefectCode, Decode, TornAppend.StripBom, PyLines.Strip, StrictLoads, Within, RaisesTypeError, LooksLikeHeader,
      ParseEvent, ParseHeader;
    if ItemOf(cfg, raw, terminal) == Escaped {
      var text := Decode(TornAppend.StripBom(raw.bytes, raw.lineNumber == 1)).text;
      assert DecodesTo(cfg, raw, StrictLoads(cfg.rd.fl, PyLines.Strip(text)).value);
    }
  }

  lemma {:induction false} RunItem(cfg: Config, size: nat, rs: seq<Raw>, items: seq<Item>, outcome: Outcome, n: nat)
    requires RunIs(cfg, size, rs, items, outcome)
    ensures n < |items| ==> n < |rs| && ItemAt(cfg, rs, n) != Escaped && !Over(cfg, n + 1)
  {
    hide ItemOf, Reach;
    if n < |items| { assert items[n] != Escaped; }
  }

  /** A run does not stop before another one. */
  lemma {:induction false} SameUpTo(cfg: Config, size: nat, rs: seq<Raw>, items: seq<Item>, outcome: Outcome,
                                    items': seq<Item>, outcome': Outcome)
    requires RunIs(cfg, size, rs, items, outcome) && RunIs(cfg, size, rs, items', outcome')
    ensures |items| >= |items'|
  {
    hide ItemOf, Reach;
    RunItem(cfg, size, rs, items', outcome', |items|);
  }

  /** There is only one possible run. */
  lemma {:induction false} RunUnique(cfg: Config, size: nat, rs: seq<Raw>, items: seq<Item>, outcome: Outcome,
                                     items': seq<Item>, outcome': Outcome)
    requires RunIs(cfg, size, rs, items, outcome) && RunIs(cfg, size, rs, items', outcome')
    ensures items == items' && outcome == outcome'
  {
    hide ItemOf, Reach;
    if |items| < |items'| { SameUpTo(cfg, size, rs, items, outcome, items', outcome'); }
    if |items'| < |items| { SameUpTo(cfg, size, rs, items', outcome', items, outcome); }
    assert |items| == |items'|;
  }

  /** A `TypeError` escapes from a run within the limits exactly when some record of the file lets it. */
  lemma {:induction false} TypeErrorIff(cfg: Config, size: nat, rs: seq<Raw>, items: seq<Item>, outcome: Outcome)
    requires RunIs(cfg, size, rs, items, outcome) && size <= cfg.maxFile && !Over(cfg, |rs|)
    ensures outcome == TypeError <==> exists i :: 0 <= i < |rs| && Escapes(cfg, rs[i])
  {
    hide ItemOf, Escapes;
    forall i | 0 <= i < |rs| ensures ItemAt(cfg, rs, i) == Escaped <==> Escapes(cfg, rs[i]) {
      EscapedIff(cfg, rs[i], i + 1 == |rs|);
    }
    if outcome == TypeError {
      assert ItemAt(cfg, rs, |items|) == Escaped;
    }
  }

  /** A run ends normally exactly when the file is within the size limit, holds a record, has no more than
      the allowed number of them, and none of them lets a `TypeError` escape. */
  lemma {:induction false} FinishedIff(cfg: Config, size: nat, rs: seq<Raw>, items: seq<Item>, outcome: Outcome)
    requires RunIs(cfg, size, rs, items, outcome)
    ensures outcome == Finished <==>
            size <= cfg.maxFile && rs != [] && !Over(cfg, |rs|) && forall i :: 0 <= i < |rs| ==> !Escapes(cfg, rs[i])
    ensures outcome == NoRecords <==> size <= cfg.maxFile && rs == []
  {
    hide ItemOf, Escapes;
    forall i | 0 <= i < |rs| ensures ItemAt(cfg, rs, i) == Escaped <==> Escapes(cfg, rs[i]) {
      EscapedIff(cfg, rs[i], i + 1 == |rs|);
    }
    if outcome == Finished {
      forall i | 0 <= i < |rs| ensures !Escapes(cfg, rs[i]) { assert items[i] != Escaped; }
    }
  }

  predicate IsTornFinding(item: Item) {
    item.FindingItem? && item.code == SL002
  }

  /** A torn-append finding is about the last record, which is unterminated: its range ends where the
      file ends. So there is at most one. */
  lemma {:induction false} TornOnlyAtEnd(cfg: Config, data: seq<byte>, items: seq<Item>, outcome: Outcome, i: nat)
    requires RunIs(cfg, |data|, Frame(data, cfg.maxLine), items, outcome) && i < |items| && IsTornFinding(items[i])
    ensures var rs := Frame(data, cfg.maxLine);
            && i + 1 == |rs| && items[i].raw == rs[i] && rs[i].end == |data| && !rs[i].truncated
            && rs[i].start <= |data| && rs[i].bytes == data[rs[i].start..] && !TornAppend.EndsWithLf(rs[i].bytes)
  {
    var rs := Frame(data, cfg.maxLine);
    FrameRefinesSplit(data, cfg.maxLine);
    TornIsTerminal(cfg, rs[i], i + 1 == |rs|);
    assert Exact(data, cfg.maxLine, rs[i], i + 1);
    hide FrameAt, ItemOf, Kept, AllExact, RunIs, Feeds;
    UnterminatedIsLast(data, cfg.maxLine, rs[i], i + 1);
  }

  lemma {:induction false} TornIsTerminal(cfg: Config, raw: Raw, terminal: bool)
    ensures var item := ItemOf(cfg, raw, terminal);
            && (item.FindingItem? ==> item.raw == raw)
            && (IsTornFinding(item) ==> terminal && !raw.truncated && !TornAppend.EndsWithLf(raw.bytes)
                                        && TornAppend.IsTorn(raw.bytes, raw.lineNumber == 1))
  {
    hide Decode, TornAppend.StripNuls, TornAppend.StripBom, ParseHeader, ParseEvent, RaisesTypeError,
      PyLines.Strip, HKeyName, StrictLoads;
  }

  lemma {:induction false} UnterminatedIsLast(data: seq<byte>, max: nat, r: Raw, ordinal: nat)
    requires Exact(data, max, r, ordinal) && !r.truncated && !TornAppend.EndsWithLf(r.bytes)
    ensures r.end == |data| && r.bytes == data[r.start..]
  {
    hide Feeds;
    var end := LineEnd(data, r.start);
    assert r.bytes == data[r.start..end];
    assert r.bytes[|r.bytes| - 1] == data[end - 1];
  }

  /** A complete JSON value on the last line, behind a byte-order mark on line 1 or not, and padded with
      NULs or not, is never reported as torn. */
  lemma {:induction false} CompleteRecordKept(cfg: Config, raw: Raw, s: string, nuls: seq<byte>, bom: bool,
                                              terminal: bool)
    requires IsJsonText(s) && TornAppend.Nuls(nuls) && raw.bytes == TornAppend.Line(bom, Encode(s), nuls)
    requires bom ==> raw.lineNumber == 1
    ensures !IsTornFinding(ItemOf(cfg, raw, terminal))
  {
    hide TornAppend.IsTorn, ItemOf, IsJsonText, TornAppend.Line, IsTornFinding;
    TornAppend.CompleteIsNotTorn(s, nuls, bom);
    TornIsTerminal(cfg, raw, terminal);
  }

  // ----- An append of a canonical record that stopped half way -----

  lemma {:induction false} StripIsPrefix(s: string, j: nat) returns (i: nat)
    requires j <= |s| && s != "" && !PyLines.PySpace(s[0])
    ensures i <= j && PyLines.Strip(s[..j]) == s[..i]
  {
    hide PyLines.PySpace;
    i := RStripIsPrefix(s, j);
    if j > 0 { assert s[..j][0] == s[0]; }
    assert PyLines.LStrip(s[..j]) == s[..j];
  }

  lemma {:induction false} RStripIsPrefix(s: string, j: nat) returns (i: nat)
    requires j <= |s|
    ensures i <= j && PyLines.RStrip(s[..j]) == s[..i]
    decreases j
  {
    if j > 0 && PyLines.PySpace(s[j - 1]) {
      assert s[..j][..j - 1] == s[..j - 1];
      i := RStripIsPrefix(s, j - 1);
    } else {
      i := j;
    }
  }

  /** The bytes of a canonical object record, cut. */
  ghost predicate CutRecord(fl: FloatReader, v: Json, k: nat, nuls: seq<byte>) {
    v.Obj? && Encodable(v) && Lawful(fl, v) && 0 < k < |Encode(Print(v))| && TornAppend.Nuls(nuls)
  }

  lemma {:induction false} CutDoesNotDecode(cfg: Config, v: Json, k: nat)
    requires CutRecord(cfg.rd.fl, v, k, [])
    ensures var d := Decode(Encode(Print(v))[..k]); d.Valid? ==> StrictLoads(cfg.rd.fl, PyLines.Strip(d.text)).None?
  {
    var x := Print(v);
    var j := DecodePrefix(x, k);
    JsonRoundTrip.PrintHead(v);
    var i := StripIsPrefix(x, j);
    if i < |x| {
      JsonRoundTrip.CutObjectFails(cfg.rd.fl, v, i);
      StrictIsLoads(cfg.rd.fl, x[..i]);
    }
    hide JsonParser.Loads, Print, Decode, PyLines.Strip, Encodable, Lawful, StrictLoads;
  }

  function CutTail(v: Json, k: nat, nuls: seq<byte>): seq<byte>
    requires Encodable(v) && k <= |Encode(Print(v))|
  {
    Encode(Print(v))[..k] + nuls
  }

  lemma {:induction false} RecordBytes(fl: FloatReader, v: Json)
    requires v.Obj? && Encodable(v) && Lawful(fl, v)
    ensures var e := Encode(Print(v)); e != [] && e[0] == 0x7B && LF !in e
  {
    var x := Print(v);
    SealCrash.PrintNoControl(fl, v);
    JsonRoundTrip.PrintHead(v);
    NoLfIn(x);
    AsciiByte(x, '\n');
    hide Print, Encodable, Lawful, SealCrash.NoControl;
    assert x[0] == '{';
    assert Encode(x)[0] == EncodeChar(x[0])[0];
  }

  lemma {:induction false} NoLfIn(x: string)
    requires SealCrash.NoControl(x)
    ensures '\n' !in x
  {
  }

  lemma {:induction false} TailBytes(e: seq<byte>, k: nat, nuls: seq<byte>)
    requires e != [] && e[0] == 0x7B && LF !in e && 0 < k <= |e| && TornAppend.Nuls(nuls)
    ensures var tail := e[..k] + nuls;
            tail != [] && tail[0] == 0x7B && LF !in tail && (nuls != [] ==> TornAppend.NUL in tail)
  {
    var tail := e[..k] + nuls;
    assert tail[0] == e[0];
    assert nuls != [] ==> tail[k] == nuls[0];
    assert forall i :: 0 <= i < k ==> tail[i] == e[i] && e[i] in e;
    assert forall i :: k <= i < |tail| ==> tail[i] == nuls[i - k];
  }

  lemma {:induction false} NoBom(tail: seq<byte>, strip: bool)
    requires tail != [] && tail[0] == 0x7B
    ensures TornAppend.StripBom(tail, strip) == tail
  {
    assert TornAppend.BOM[0] == 0xEF;
  }

  lemma {:induction false} CutTailBytes(fl: FloatReader, v: Json, k: nat, nuls: seq<byte>)
    requires CutRecord(fl, v, k, nuls)
    ensures var tail := CutTail(v, k, nuls);
            && tail != [] && tail[0] == 0x7B && LF !in tail && (nuls != [] ==> TornAppend.NUL in tail)
            && TornAppend.Line(false, Encode(Print(v))[..k], nuls) == tail
            && (forall strip: bool :: TornAppend.StripBom(tail, strip) == tail)
  {
    hide Encode, Print, Encodable, Lawful, TornAppend.StripBom, TornAppend.Nuls;
    RecordBytes(fl, v);
    TailBytes(Encode(Print(v)), k, nuls);
    var tail := CutTail(v, k, nuls);
    forall strip: bool ensures TornAppend.StripBom(tail, strip) == tail { NoBom(tail, strip); }
  }

  /** Such a tail is torn, wherever the line is. */
  lemma {:induction false} CutTailTorn(fl: FloatReader, v: Json, k: nat, nuls: seq<byte>, strip: bool)
    requires CutRecord(fl, v, k, nuls)
    ensures TornAppend.IsTorn(CutTail(v, k, nuls), strip)
  {
    var x := Print(v);
    PrintedJson.CanonicalIsJson(fl, v);
    CutTailBytes(fl, v, k, nuls);
    hide TornAppend.IsTorn, IsObject, Encodable, Lawful, Print, Encode, TornAppend.StripBom;
    var tail := CutTail(v, k, nuls);
    assert "" + x == x;
    assert !TornAppend.EndsWithLf(tail);
    TornAppend.ProperPrefixIsTorn("", x, k, nuls, false);
  }

  lemma {:induction false} CutItem(cfg: Config, v: Json, k: nat, nuls: seq<byte>, raw: Raw)
    requires CutRecord(cfg.rd.fl, v, k, nuls) && raw.bytes == CutTail(v, k, nuls) && !raw.truncated
    ensures ItemOf(cfg, raw, true) == FindingItem(SL002, raw)
  {
    CutTailBytes(cfg.rd.fl, v, k, nuls);
    CutTailTorn(cfg.rd.fl, v, k, nuls, raw.lineNumber == 1);
    if nuls == [] {
      CutDoesNotDecode(cfg, v, k);
      assert raw.bytes == Encode(Print(v))[..k];
    }
    hide TornAppend.IsTorn, Encodable, Lawful, Print, Encode, TornAppend.StripBom, Decode, PyLines.Strip, StrictLoads,
      RecordItem, CutTail;
  }

  /** The record that starts at `start` is the last one when its line runs to the end of the file. */
  lemma {:induction false} LastRecord(data: seq<byte>, max: nat, start: nat)
    requires LineStart(data, start) && Kept(data, max, start) && LineEnd(data, start) == |data| && |data| - start <= max
    ensures var rs := Frame(data, max);
            && rs != []
            && rs[|rs| - 1].start == start && rs[|rs| - 1].bytes == data[start..] && !rs[|rs| - 1].truncated
  {
    FrameRefinesSplit(data, max);
    hide Frame, Kept, Feeds;
    var rs := Frame(data, max);
    var i :| 0 <= i < |rs| && rs[i].start == start;
    var last := rs[|rs| - 1];
    assert Exact(data, max, rs[i], i + 1) && Exact(data, max, last, |rs| - 1 + 1);
    LastOrBefore(data, max, rs, i);
    assert rs[i].end == |data|;
  }

  lemma {:induction false} LastOrBefore(data: seq<byte>, max: nat, rs: seq<Raw>, i: nat)
    requires AllExact(data, max, rs, 0, 1) && i < |rs|
    ensures i == |rs| - 1 || rs[i].end <= rs[|rs| - 1].start
  {
    hide Exact;
  }

  lemma {:induction false} NoLfAfter(pre: seq<byte>, tail: seq<byte>)
    requires LF !in tail
    ensures forall j :: |pre| <= j < |pre + tail| ==> (pre + tail)[j] != LF
  {
    assert forall j :: |pre| <= j < |pre + tail| ==> (pre + tail)[j] == tail[j - |pre|];
  }

  /** A file whose last append of a canonical record stopped at any byte, whatever NUL padding follows, is
      reported as torn on exactly those bytes. */
  lemma {:induction false} CutAppendReported(cfg: Config, pre: seq<byte>, v: Json, k: nat, nuls: seq<byte>)
    requires CutRecord(cfg.rd.fl, v, k, nuls)
    requires pre == [] || pre[|pre| - 1] == LF
    requires |CutTail(v, k, nuls)| <= cfg.maxLine
    ensures var rs := Frame(pre + CutTail(v, k, nuls), cfg.maxLine);
            && rs != [] && rs[|rs| - 1].start == |pre|
            && ItemAt(cfg, rs, |rs| - 1) == FindingItem(SL002, rs[|rs| - 1])
  {
    var tail := CutTail(v, k, nuls);
    CutTailBytes(cfg.rd.fl, v, k, nuls);
    hide *;
    LastLine(pre, tail, cfg.maxLine);
    var rs := Frame(pre + tail, cfg.maxLine);
    CutItem(cfg, v, k, nuls, rs[|rs| - 1]);
    TerminalItem(cfg, rs);
  }

  lemma {:induction false} TerminalItem(cfg: Config, rs: seq<Raw>)
    requires rs != []
    ensures ItemAt(cfg, rs, |rs| - 1) == ItemOf(cfg, rs[|rs| - 1], true)
  {
    hide ItemOf;
  }

  /** The last record of a file whose last line is `tail`. */
  lemma {:induction false} LastLine(pre: seq<byte>, tail: seq<byte>, max: nat)
    requires pre == [] || pre[|pre| - 1] == LF
    requires tail != [] && tail[0] == 0x7B && LF !in tail && |tail| <= max
    ensures var rs := Frame(pre + tail, max);
            && rs != [] && rs[|rs| - 1].start == |pre| && rs[|rs| - 1].bytes == tail && !rs[|rs| - 1].truncated
  {
    var data := pre + tail;
    hide FrameAt, Frame;
    NoLfAfter(pre, tail);
    LineEndIs(data, |pre|, |data|);
    hide LineEnd;
    assert data[|pre|..|data|] == tail && data[|pre|..] == tail;
    assert !AsciiBlank(tail);
    assert pre != [] ==> data[|pre| - 1] == pre[|pre| - 1];
    LastRecord(data, max, |pre|);
  }
}
