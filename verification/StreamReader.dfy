/** `_process_line` and the streaming loop of `iter_events`. */
module StreamReader {
  import opened Options
  import opened PyText
  import opened JsonValues
  import opened Utf8
  import opened Depth
  import opened SessionModel
  import opened Framing
  import opened StrictJson
  import JsonParser
  import PyLines
  import TornAppend

  /** The limits, and the float reader of the platform. */
  datatype Config = Config(maxLine: nat, maxDepth: int, maxFile: nat, maxRecords: Option<nat>, rd: Reader)

  datatype Code = SL001 | SL002

  /** What one line gives: an event, a consumed header, a finding, or an escaping `TypeError`. */
  datatype Item = EventItem(event: Event) | HeaderItem(header: Header) | FindingItem(code: Code, raw: Raw) | Escaped

  /** `decode_defect_code` */
  ghost function DefectCode(raw: Raw, terminal: bool): Code {
    if terminal && !raw.truncated && TornAppend.IsTorn(raw.bytes, raw.lineNumber == 1) then SL002 else SL001
  }

  method DecodeDefectCode(raw: Raw, terminal: bool) returns (code: Code)
    ensures code == DefectCode(raw, terminal)
  {
    hide TornAppend.IsTorn;
    if !terminal || raw.truncated {
      return SL001;
    }
    var torn := TornAppend.IsTornAppend(raw.bytes, raw.lineNumber == 1);
    code := if torn then SL002 else SL001;
  }

  predicate LooksLikeHeader(o: map<PyStr, Json>) {
    HKeyName(SchemaVersion) in o || HKeyName(SessionId) in o
  }

  /** What a decoded record gives. */
  function RecordItem(cfg: Config, raw: Raw, v: Json): Item {
    if !v.Obj? || !Within(v, cfg.maxDepth) then FindingItem(SL001, raw)
    else if raw.ordinal == 1 && LooksLikeHeader(v.fields) then
      match ParseHeader(cfg.rd, v)
      case Some(h) => HeaderItem(h)
      case None => FindingItem(SL001, raw)
    else if RaisesTypeError(cfg.rd, v.fields) then Escaped
    else match ParseEvent(cfg.rd, v)
      case Some(ev) => EventItem(ev)
      case None => FindingItem(SL001, raw)
  }

  /** What a line gives, by the steps of `_process_line`. */
  ghost function ItemOf(cfg: Config, raw: Raw, terminal: bool): Item {
    if raw.truncated then FindingItem(SL001, raw)
    else if TornAppend.NUL in raw.bytes then FindingItem(DefectCode(raw, terminal), raw)
    else match Decode(TornAppend.StripBom(raw.bytes, raw.lineNumber == 1))
      case Valid(text) =>
        (match StrictLoads(cfg.rd.fl, PyLines.Strip(text))
         case Some(v) => RecordItem(cfg, raw, v)
         case None => FindingItem(DefectCode(raw, terminal), raw))
      case _ => FindingItem(DefectCode(raw, terminal), raw)
  }

  method ProcessLine(cfg: Config, raw: Raw, terminal: bool) returns (item: Item)
    ensures item == ItemOf(cfg, raw, terminal)
  {
    hide DefectCode, Decode, PyLines.Strip, ParseHeader, ParseEvent, RaisesTypeError, Within, JsonParser.Loads,
      HKeyName,
      StrictLoads;
    if raw.truncated {
      return FindingItem(SL001, raw);
    }
    if TornAppend.NUL in raw.bytes {
      var code := DecodeDefectCode(raw, terminal);
      return FindingItem(code, raw);
    }
    var decoded := Decode(TornAppend.StripBom(raw.bytes, raw.lineNumber == 1));
    if !decoded.Valid? {
      var code := DecodeDefectCode(raw, terminal);
      return FindingItem(code, raw);
    }
    var text := PyLines.Strip(decoded.text);
    var obj := StrictLoads(cfg.rd.fl, text);
    if obj.None? {
      var code := DecodeDefectCode(raw, terminal);
      return FindingItem(code, raw);
    }
    if !obj.value.Obj? {
      return FindingItem(SL001, raw);
    }
    StrictIsLoads(cfg.rd.fl, text);
    var shallow := DepthAccepted(cfg.rd.fl, text, obj.value, cfg.maxDepth);
    if !shallow {
      return FindingItem(SL001, raw);
    }
    if raw.ordinal == 1 && LooksLikeHeader(obj.value.fields) {
      var h := ParseHeader(cfg.rd, obj.value);
      return if h.Some? then HeaderItem(h.value) else FindingItem(SL001, raw);
    }
    if RaisesTypeError(cfg.rd, obj.value.fields) {
      return Escaped;
    }
    var ev := ParseEvent(cfg.rd, obj.value);
    return if ev.Some? then EventItem(ev.value) else FindingItem(SL001, raw);
  }

  // ----- The loop -----

  datatype Outcome = Finished | NoRecords | TooLarge | TooMany | TypeError

  /** The item of record `i`; the last record is the terminal one. */
  ghost function ItemAt(cfg: Config, rs: seq<Raw>, i: nat): Item
    requires i < |rs|
  {
    ItemOf(cfg, rs[i], i + 1 == |rs|)
  }

  /** How many of the first records end within the size limit. */
  function Fitting(rs: seq<Raw>, limit: nat): (n: nat)
    ensures n <= |rs|
  {
    if rs == [] || rs[0].end > limit then 0 else 1 + Fitting(rs[1..], limit)
  }

  /** How many records get their turn, if nothing stops the loop before: all of them, or, in a file that is
      too large, those before the last one that was read whole. */
  function Reach(cfg: Config, size: nat, rs: seq<Raw>): (n: nat)
    ensures n <= |rs|
  {
    if size <= cfg.maxFile then |rs|
    else if Fitting(rs, cfg.maxFile) == 0 then 0
    else Fitting(rs, cfg.maxFile) - 1
  }

  /** How a run ends that has processed `n` records. */
  function OutcomeAfter(cfg: Config, size: nat, rs: seq<Raw>, n: nat): Outcome {
    if n < Reach(cfg, size, rs) then (if Over(cfg, n + 1) then TooMany else TypeError)
    else if size > cfg.maxFile then TooLarge
    else if rs == [] then NoRecords
    else Finished
  }

  /** What a run of the loop gives on a file of `size` bytes whose records are `rs`: the items of the first
      records, up to the first one that is over the record limit or lets a `TypeError` escape. */
  ghost predicate RunIs(cfg: Config, size: nat, rs: seq<Raw>, items: seq<Item>, outcome: Outcome) {
    && |items| <= Reach(cfg, size, rs)
    && (forall i :: 0 <= i < |items| ==> items[i] == ItemAt(cfg, rs, i) && items[i] != Escaped)
    && (items != [] ==> !Over(cfg, |items|))
    && (|items| < Reach(cfg, size, rs) ==> Over(cfg, |items| + 1) || ItemAt(cfg, rs, |items|) == Escaped)
    && outcome == OutcomeAfter(cfg, size, rs, |items|)
  }

  /** An ordinal beyond the record limit. */
  predicate Over(cfg: Config, ordinal: nat) {
    cfg.maxRecords.Some? && ordinal > cfg.maxRecords.value
  }

  const DRAIN_SIZE: nat := 65536

  /** Where the loop is: the records before the pending one are processed, the rest of the file is to come. */
  ghost predicate LoopState(cfg: Config, data: seq<byte>, total: nat, number: nat, done: seq<Raw>, items: seq<Item>) {
    && total <= |data| && total <= cfg.maxFile
    && Frame(data, cfg.maxLine) == done + FrameAt(data, cfg.maxLine, total, number + 1, |done| + 1)
    && |items| == (if done == [] then 0 else |done| - 1)
    && (forall i :: 0 <= i < |items| ==> items[i] == ItemOf(cfg, done[i], false) && items[i] != Escaped)
    && (forall i :: 0 <= i < |done| ==> done[i].ordinal == i + 1)
    && (forall i :: 0 <= i < |done| ==> done[i].end <= cfg.maxFile)
    && (done != [] ==> !Over(cfg, |done| - 1))
  }

  /** Reads on to the end of an over-long line; stops early when the file is too large. */
  method Drain(cfg: Config, source: LineSource, start: nat) returns (ok: bool)
    requires start < source.pos <= |source.data| && source.pos <= cfg.maxFile
    requires source.pos <= LineEnd(source.data, start)
    modifies source`pos
    ensures old(source.pos) <= source.pos <= LineEnd(source.data, start)
    ensures ok ==> source.pos == LineEnd(source.data, start) && source.pos <= cfg.maxFile
    ensures !ok ==> source.pos > cfg.maxFile
  {
    var more := source.data[source.pos - 1] != LF;
    InLine(source.data, start, source.pos);
    while more
      invariant start < source.pos <= |source.data| && source.pos <= cfg.maxFile && old(source.pos) <= source.pos
      invariant source.pos <= LineEnd(source.data, start)
      invariant more ==> source.data[source.pos - 1] != LF
      invariant !more ==> source.pos == LineEnd(source.data, start)
      decreases |source.data| - source.pos, more
    {
      ghost var before := source.pos;
      RestOfLine(source.data, start, before);
      var drain := source.Readline(DRAIN_SIZE);
      if drain == [] {
        more := false;
      } else {
        if source.pos > cfg.maxFile {
          return false;
        }
        InLine(source.data, start, source.pos);
        more := drain[|drain| - 1] != LF;
      }
    }
    return true;
  }

  lemma {:induction false} InLine(data: seq<byte>, start: nat, pos: nat)
    requires start < pos <= |data| && pos <= LineEnd(data, start)
    ensures data[pos - 1] == LF ==> pos == LineEnd(data, start)
  {
  }

  lemma {:induction false} RestOfLine(data: seq<byte>, start: nat, pos: nat)
    requires start < pos <= |data| && pos <= LineEnd(data, start)
    ensures pos < LineEnd(data, start) ==> LineEnd(data, pos) == LineEnd(data, start)
    ensures pos == |data| ==> pos == LineEnd(data, start)
  {
    if pos < LineEnd(data, start) { LineEndIs(data, pos, LineEnd(data, start)); }
  }

  /** `iter_events` over a byte source: one record of lookahead, the last one processed as terminal. */
  method IterEvents(cfg: Config, source: LineSource) returns (items: seq<Item>, outcome: Outcome)
    requires source.pos == 0
    modifies source`pos
    ensures RunIs(cfg, |source.data|, Frame(source.data, cfg.maxLine), items, outcome)
  {
    hide ItemOf, FrameAt, Kept, RawAt, LineEnd, ReadTo, LoopState, RunIs, ItemAt, AsciiBlank, Reach, OutcomeAfter;
    var lineNumber, total, recordCount := 0, 0, 0;
    var pending: Option<Raw> := None;
    items := [];
    ghost var data, done: seq<Raw> := source.data, [];
    LoopStart(cfg, data);
    while true
      invariant source.data == data && source.pos == total <= |data| && recordCount == |done|
      invariant LoopState(cfg, data, total, lineNumber, done, items)
      invariant pending == if done == [] then None else Some(done[|done| - 1])
      decreases |data| - total
    {
      var start := total;
      ReadAhead(data, start, cfg.maxLine + 1);
      var chunk := source.Readline(cfg.maxLine + 1);
      if chunk == [] {
        break;
      }
      lineNumber := lineNumber + 1;
      if source.pos > cfg.maxFile {
        TooLargeRun(cfg, data, total, lineNumber - 1, done, items);
        return items, TooLarge;
      }
      var truncated := |chunk| > cfg.maxLine;
      if truncated {
        var ok := Drain(cfg, source, start);
        if !ok {
          TooLargeRun(cfg, data, total, lineNumber - 1, done, items);
          return items, TooLarge;
        }
      }
      total := source.pos;
      NextRecord(data, cfg.maxLine, start, lineNumber, recordCount + 1, chunk);
      if AsciiBlank(chunk) && !truncated {
        BlankStep(cfg, data, start, total, lineNumber, done, items);
        continue;
      }
      recordCount := recordCount + 1;
      var current := Raw(lineNumber, chunk, truncated, start, total, recordCount);
      if pending.Some? {
        PendingOrdinal(cfg, data, start, lineNumber - 1, done, items);
        if Over(cfg, pending.value.ordinal) {
          OneMoreFits(cfg, data, start, lineNumber - 1, done, items, current);
          TooManyRun(cfg, data, start, lineNumber - 1, done, items);
          return items, TooMany;
        }
        var item := ProcessLine(cfg, pending.value, false);
        if item == Escaped {
          OneMoreFits(cfg, data, start, lineNumber - 1, done, items, current);
          EscapedRun(cfg, data, start, lineNumber - 1, done, items);
          return items, TypeError;
        }
        RecordStep(cfg, data, start, total, lineNumber, done, items, current, item);
        items := items + [item];
      } else {
        FirstStep(cfg, data, start, total, lineNumber, items, current);
      }
      pending := Some(current);
      done := done + [current];
    }
    AtEnd(data, cfg.maxLine, lineNumber + 1, recordCount + 1);
    LastState(cfg, data, total, lineNumber, done, items);
    if pending.Some? {
      PendingOrdinal(cfg, data, total, lineNumber, done, items);
      if Over(cfg, pending.value.ordinal) {
        AllFit(cfg, data, done);
        TooManyRun(cfg, data, total, lineNumber, done, items);
        return items, TooMany;
      }
      var item := ProcessLine(cfg, pending.value, true);
      LastRun(cfg, data, total, lineNumber, done, items, item);
      if item == Escaped {
        return items, TypeError;
      }
      items := items + [item];
      return items, Finished;
    }
    return items, NoRecords;
  }

  lemma {:induction false} ReadAhead(data: seq<byte>, pos: nat, size: nat)
    requires pos <= |data| && size > 0
    ensures pos == |data| ==> ReadTo(data, pos, size) == pos
    ensures pos < |data| ==> pos < ReadTo(data, pos, size) <= LineEnd(data, pos)
  {
  }

  lemma {:induction false} LoopStart(cfg: Config, data: seq<byte>)
    ensures LoopState(cfg, data, 0, 0, [], [])
  {
    assert Frame(data, cfg.maxLine) == [] + FrameAt(data, cfg.maxLine, 0, 1, 1);
  }

  lemma {:induction false} BlankStep(cfg: Config, data: seq<byte>, start: nat, end: nat, number: nat, done: seq<Raw>,
                                     items: seq<Item>)
    requires number > 0 && LoopState(cfg, data, start, number - 1, done, items) && end <= cfg.maxFile && end <= |data|
    requires FrameAt(data, cfg.maxLine, start, number, |done| + 1) ==
             FrameAt(data, cfg.maxLine, end, number + 1, |done| + 1)
    ensures LoopState(cfg, data, end, number, done, items)
  {
    hide FrameAt, ItemOf, Frame;
  }

  lemma {:induction false} RecordStep(cfg: Config, data: seq<byte>, start: nat, end: nat, number: nat, done: seq<Raw>,
                                      items: seq<Item>, current: Raw, item: Item)
    requires number > 0 && LoopState(cfg, data, start, number - 1, done, items) && end <= cfg.maxFile && end <= |data|
    requires FrameAt(data, cfg.maxLine, start, number, |done| + 1) ==
             [current] + FrameAt(data, cfg.maxLine, end, number + 1, |done| + 2)
    requires done != [] && current.ordinal == |done| + 1 && !Over(cfg, |done|) && current.end == end
    requires item == ItemOf(cfg, done[|done| - 1], false) && item != Escaped
    ensures LoopState(cfg, data, end, number, done + [current], items + [item])
  {
    hide FrameAt, ItemOf, Frame;
    assert done + ([current] + FrameAt(data, cfg.maxLine, end, number + 1, |done| + 2)) ==
      (done + [current]) + FrameAt(data, cfg.maxLine, end, number + 1, |done| + 2);
  }

  lemma {:induction false} FirstStep(cfg: Config, data: seq<byte>, start: nat, end: nat, number: nat,
                                     items: seq<Item>, current: Raw)
    requires number > 0 && LoopState(cfg, data, start, number - 1, [], items) && end <= cfg.maxFile && end <= |data|
    requires FrameAt(data, cfg.maxLine, start, number, 1) == [current] + FrameAt(data, cfg.maxLine, end, number + 1, 2)
    requires current.ordinal == 1 && current.end == end
    ensures LoopState(cfg, data, end, number, [] + [current], items)
  {
    hide FrameAt, ItemOf, Frame;
    var rest := FrameAt(data, cfg.maxLine, end, number + 1, 2);
    assert [] + ([current] + rest) == ([] + [current]) + rest;
  }

  lemma {:induction false} PendingOrdinal(cfg: Config, data: seq<byte>, total: nat, number: nat, done: seq<Raw>,
                                          items: seq<Item>)
    requires LoopState(cfg, data, total, number, done, items) && done != []
    ensures done[|done| - 1].ordinal == |done|
  {
  }

  lemma {:induction false} FittingAtLeast(rs: seq<Raw>, limit: nat, n: nat)
    requires n <= |rs| && forall i :: 0 <= i < n ==> rs[i].end <= limit
    ensures Fitting(rs, limit) >= n
    decreases n
  {
    if n > 0 { FittingAtLeast(rs[1..], limit, n - 1); }
  }

  lemma {:induction false} FittingIs(rs: seq<Raw>, limit: nat, n: nat)
    requires n <= |rs| && (forall i :: 0 <= i < n ==> rs[i].end <= limit) && (n < |rs| ==> rs[n].end > limit)
    ensures Fitting(rs, limit) == n
    decreases n
  {
    if n > 0 { FittingIs(rs[1..], limit, n - 1); }
  }

  /** The records still to come end no earlier than the next line. */
  lemma {:induction false} FirstEnd(data: seq<byte>, max: nat, pos: nat, number: nat, ordinal: nat)
    requires pos < |data|
    ensures var rs := FrameAt(data, max, pos, number, ordinal); rs != [] ==> rs[0].end >= LineEnd(data, pos)
    decreases |data| - pos
  {
    hide LineEnd, Kept;
    if !Kept(data, max, pos) && LineEnd(data, pos) < |data| {
      FirstEnd(data, max, LineEnd(data, pos), number + 1, ordinal);
    }
  }

  /** The line that is being read passes the size limit: the turns are over, none was the last record's. */
  lemma {:induction false} TooLargeRun(cfg: Config, data: seq<byte>, total: nat, number: nat, done: seq<Raw>,
                                       items: seq<Item>)
    requires LoopState(cfg, data, total, number, done, items)
    requires total < |data| && LineEnd(data, total) > cfg.maxFile
    ensures RunIs(cfg, |data|, Frame(data, cfg.maxLine), items, TooLarge)
  {
    FirstEnd(data, cfg.maxLine, total, number + 1, |done| + 1);
    hide FrameAt, ItemOf, Frame, LineEnd;
    var rs := Frame(data, cfg.maxLine);
    FittingIs(rs, cfg.maxFile, |done|);
    hide Fitting;
  }

  /** A record read behind the pending one: the pending one gets its turn. */
  lemma {:induction false} OneMoreFits(cfg: Config, data: seq<byte>, start: nat, number: nat, done: seq<Raw>,
                                       items: seq<Item>, current: Raw)
    requires LoopState(cfg, data, start, number, done, items) && done != [] && current.end <= cfg.maxFile
    requires var rest := FrameAt(data, cfg.maxLine, start, number + 1, |done| + 1); rest != [] && rest[0] == current
    ensures var rs := Frame(data, cfg.maxLine); |done| < |rs| && |done| <= Reach(cfg, |data|, rs)
  {
    hide FrameAt, ItemOf, Frame;
    FittingAtLeast(Frame(data, cfg.maxLine), cfg.maxFile, |done| + 1);
    hide Fitting;
  }

  lemma {:induction false} AllFit(cfg: Config, data: seq<byte>, done: seq<Raw>)
    requires |data| <= cfg.maxFile && Frame(data, cfg.maxLine) == done
    ensures |done| <= Reach(cfg, |data|, Frame(data, cfg.maxLine))
  {
    hide Frame;
  }

  lemma {:induction false} TooManyRun(cfg: Config, data: seq<byte>, total: nat, number: nat, done: seq<Raw>,
                                      items: seq<Item>)
    requires LoopState(cfg, data, total, number, done, items) && done != [] && Over(cfg, |done|)
    requires |done| <= Reach(cfg, |data|, Frame(data, cfg.maxLine))
    ensures RunIs(cfg, |data|, Frame(data, cfg.maxLine), items, TooMany)
  {
    hide FrameAt, ItemOf, Frame, Reach;
  }

  lemma {:induction false} EscapedRun(cfg: Config, data: seq<byte>, total: nat, number: nat, done: seq<Raw>,
                                      items: seq<Item>)
    requires LoopState(cfg, data, total, number, done, items) && done != [] && !Over(cfg, |done|)
    requires ItemOf(cfg, done[|done| - 1], false) == Escaped
    requires |done| < |Frame(data, cfg.maxLine)| && |done| <= Reach(cfg, |data|, Frame(data, cfg.maxLine))
    ensures RunIs(cfg, |data|, Frame(data, cfg.maxLine), items, TypeError)
  {
    hide FrameAt, ItemOf, Frame, Reach;
  }

  lemma {:induction false} LastState(cfg: Config, data: seq<byte>, total: nat, number: nat, done: seq<Raw>,
                                     items: seq<Item>)
    requires LoopState(cfg, data, total, number, done, items) &&
               FrameAt(data, cfg.maxLine, total, number + 1, |done| + 1) == []
    requires total == |data|
    ensures Frame(data, cfg.maxLine) == done && |data| <= cfg.maxFile
    ensures done == [] ==> RunIs(cfg, |data|, done, items, NoRecords)
  {
    hide FrameAt, ItemOf, Frame;
    assert done + [] == done;
  }

  lemma {:induction false} LastRun(cfg: Config, data: seq<byte>, total: nat, number: nat, done: seq<Raw>,
                                   items: seq<Item>, item: Item)
    requires LoopState(cfg, data, total, number, done, items) && done != [] && Frame(data, cfg.maxLine) == done &&
               total == |data|
    requires item == ItemOf(cfg, done[|done| - 1], true) && !Over(cfg, |done|) && total <= cfg.maxFile
    ensures item != Escaped ==> RunIs(cfg, |data|, done, items + [item], Finished)
    ensures item == Escaped ==> RunIs(cfg, |data|, done, items, TypeError)
  {
    hide FrameAt, ItemOf, Frame;
  }

  lemma {:induction false} AtEnd(data: seq<byte>, max: nat, number: nat, ordinal: nat)
    ensures FrameAt(data, max, |data|, number, ordinal) == []
  {
  }

  /** What reading one line, capped, tells about the records to come. */
  lemma {:induction false} NextRecord(data: seq<byte>, max: nat, start: nat, number: nat, ordinal: nat,
                                      chunk: seq<byte>)
    requires start < |data| && chunk == data[start..ReadTo(data, start, max + 1)] &&
               ReadTo(data, start, max + 1) <= |data|
    requires start <= ReadTo(data, start, max + 1)
    ensures var end := LineEnd(data, start);
            && (|chunk| <= max ==> ReadTo(data, start, max + 1) == end)
            && FrameAt(data, max, start, number, ordinal) ==
               (if AsciiBlank(chunk) && |chunk| <= max then FrameAt(data, max, end, number + 1, ordinal)
                else
                  [Raw(number, chunk, |chunk| > max, start, end, ordinal)] +
                  FrameAt(data, max, end, number + 1, ordinal + 1))
  {
    var end := LineEnd(data, start);
    if end - start > max {
      assert ReadTo(data, start, max + 1) == start + max + 1;
    } else {
      assert ReadTo(data, start, max + 1) == end;
    }
  }
}
