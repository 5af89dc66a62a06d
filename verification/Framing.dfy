/** The byte sources and the framing loop of `iter_events`. */
module Framing {
  import opened Utf8

  /** The end of the physical line that starts at `pos`, its LF included. */
  function LineEnd(data: seq<byte>, pos: nat): (end: nat)
    requires pos < |data|
    ensures pos < end <= |data|
    ensures forall j :: pos <= j < end - 1 ==> data[j] != LF
    ensures end == |data| || data[end - 1] == LF
    decreases |data| - pos
  {
    if data[pos] == LF || pos + 1 == |data| then pos + 1 else LineEnd(data, pos + 1)
  }

  /** Where `readline(size)` stops. */
  function ReadTo(data: seq<byte>, pos: nat, size: int): nat {
    if pos >= |data| then pos
    else if 0 <= size < LineEnd(data, pos) - pos then pos + size
    else LineEnd(data, pos)
  }

  lemma {:induction false} LineEndIs(data: seq<byte>, pos: nat, end: nat)
    requires pos < end <= |data| && (forall j :: pos <= j < end - 1 ==> data[j] != LF)
    requires end == |data| || data[end - 1] == LF
    ensures LineEnd(data, pos) == end
    decreases end - pos
  {
    if data[pos] != LF && pos + 1 < |data| { LineEndIs(data, pos + 1, end); }
  }

  /** A line source over the bytes of a file: a mapping of it, or a buffered stream. */
  class LineSource {
    const data: seq<byte>
    const mapped: bool
    var pos: nat

    constructor (data: seq<byte>, mapped: bool)
      ensures this.data == data && this.mapped == mapped && pos == 0
    {
      this.data, this.mapped, pos := data, mapped, 0;
    }

    /** The first newline at or after `from`, or -1. */
    method Find(from: nat) returns (nl: int)
      requires from <= |data|
      ensures nl == -1 || (from <= nl < |data| && data[nl] == LF)
      ensures forall j :: from <= j < (if nl == -1 then |data| else nl) ==> data[j] != LF
    {
      nl := from;
      while nl < |data|
        invariant from <= nl <= |data| && forall j :: from <= j < nl ==> data[j] != LF
      {
        if data[nl] == LF {
          return;
        }
        nl := nl + 1;
      }
      nl := -1;
    }

    /** `_MMapLineSource.readline`: find, cap, slice. */
    method ReadMapped(size: int) returns (chunk: seq<byte>)
      requires pos <= |data|
      modifies this`pos
      ensures pos == ReadTo(data, old(pos), size) && old(pos) <= pos <= |data| && chunk == data[old(pos)..pos]
    {
      if pos >= |data| {
        return [];
      }
      var nl := Find(pos);
      var end := if nl < 0 then |data| else nl + 1;
      LineEndIs(data, pos, end);
      if size >= 0 && pos + size < end {
        end := pos + size;
      }
      chunk := data[pos..end];
      pos := end;
    }

    /** A buffered stream's `readline`: bytes up to the newline or the cap. */
    method ReadBuffered(size: int) returns (chunk: seq<byte>)
      requires pos <= |data|
      modifies this`pos
      ensures pos == ReadTo(data, old(pos), size) && old(pos) <= pos <= |data| && chunk == data[old(pos)..pos]
    {
      chunk := [];
      if pos >= |data| {
        return;
      }
      ghost var start := pos;
      ghost var end := LineEnd(data, pos);
      while pos < |data| && (size < 0 || |chunk| < size)
        invariant pos == start + |chunk| && start <= pos <= end && chunk == data[start..pos]
        invariant (0 <= size ==> |chunk| <= size) &&
                    (pos < end || pos == start || data[pos - 1] == LF || pos == |data|)
        decreases |data| - pos
      {
        if chunk != [] && chunk[|chunk| - 1] == LF {
          break;
        }
        assert pos < end;
        chunk := chunk + [data[pos]];
        pos := pos + 1;
      }
    }

    method Readline(size: int) returns (chunk: seq<byte>)
      requires pos <= |data|
      modifies this`pos
      ensures pos == ReadTo(data, old(pos), size) && old(pos) <= pos <= |data| && chunk == data[old(pos)..pos]
    {
      if mapped {
        chunk := ReadMapped(size);
      } else {
        chunk := ReadBuffered(size);
      }
    }
  }

  // ----- Physical lines and the records made of them -----

  /** `chunk.strip()` is empty. */
  predicate AsciiBlank(bs: seq<byte>) {
    forall i :: 0 <= i < |bs| ==> bs[i] == 0x20 || 0x09 <= bs[i] <= 0x0D
  }

  datatype Raw = Raw(lineNumber: nat, bytes: seq<byte>, truncated: bool, start: nat, end: nat, ordinal: nat)

  /** The line at `start` is reported: it is over the limit or not blank. */
  predicate Kept(data: seq<byte>, max: nat, start: nat)
    requires start < |data|
  {
    var end := LineEnd(data, start);
    end - start > max || !AsciiBlank(data[start..end])
  }

  function RawAt(data: seq<byte>, max: nat, start: nat, number: nat, ordinal: nat): Raw
    requires start < |data|
  {
    var end := LineEnd(data, start);
    var cut := if end - start > max then start + max + 1 else end;
    Raw(number, data[start..cut], end - start > max, start, end, ordinal)
  }

  /** The records of the lines from `pos` on. */
  function FrameAt(data: seq<byte>, max: nat, pos: nat, number: nat, ordinal: nat): seq<Raw>
    requires pos <= |data|
    decreases |data| - pos
  {
    if pos == |data| then []
    else if Kept(data, max, pos) then
      [RawAt(data, max, pos, number, ordinal)] + FrameAt(data, max, LineEnd(data, pos), number + 1, ordinal + 1)
    else FrameAt(data, max, LineEnd(data, pos), number + 1, ordinal)
  }

  function Frame(data: seq<byte>, max: nat): seq<Raw> {
    FrameAt(data, max, 0, 1, 1)
  }

  // Lines told apart by their line feeds alone.

  /** `pos` is where a physical line starts. */
  predicate LineStart(data: seq<byte>, pos: nat) {
    pos < |data| && (pos == 0 || data[pos - 1] == LF)
  }

  /** How many line feeds are before `pos`. */
  function Feeds(data: seq<byte>, pos: nat): nat
    requires pos <= |data|
  {
    if pos == 0 then 0 else Feeds(data, pos - 1) + (if data[pos - 1] == LF then 1 else 0)
  }

  lemma {:induction false} FeedsToEnd(data: seq<byte>, pos: nat, j: nat)
    requires pos < |data| && pos <= j < LineEnd(data, pos)
    ensures Feeds(data, j) == Feeds(data, pos)
    decreases j
  {
    hide LineEnd;
    if j > pos { FeedsToEnd(data, pos, j - 1); }
  }

  lemma {:induction false} NextLine(data: seq<byte>, pos: nat)
    requires pos < |data|
    ensures var end := LineEnd(data, pos);
            && (end == |data| || (LineStart(data, end) && Feeds(data, end) == Feeds(data, pos) + 1))
            && forall q :: pos < q < end ==> !LineStart(data, q)
  {
    var end := LineEnd(data, pos);
    FeedsToEnd(data, pos, end - 1);
    hide LineEnd;
  }

  /** A line is kept when it is over the limit or holds a byte that is no ASCII whitespace. */
  lemma {:induction false} KeptIs(data: seq<byte>, max: nat, start: nat)
    requires start < |data|
    ensures Kept(data, max, start) <==>
            LineEnd(data, start) - start > max
            || exists j :: start <= j < LineEnd(data, start) && data[j] !in {0x20, 0x09, 0x0A, 0x0B, 0x0C, 0x0D}
  {
    var line := data[start..LineEnd(data, start)];
    hide LineEnd;
    if i :| 0 <= i < |line| && !(line[i] == 0x20 || 0x09 <= line[i] <= 0x0D) {
      assert data[start + i] == line[i];
    }
    if j :| start <= j < LineEnd(data, start) && data[j] !in {0x20, 0x09, 0x0A, 0x0B, 0x0C, 0x0D} {
      assert line[j - start] == data[j];
    }
  }

  /** Record `i` is the line at its own start: exact text, number, byte range and ordinal. */
  ghost predicate Exact(data: seq<byte>, max: nat, r: Raw, ordinal: nat) {
    && LineStart(data, r.start) && Kept(data, max, r.start)
    && r == RawAt(data, max, r.start, Feeds(data, r.start) + 1, ordinal)
  }

  ghost predicate AllExact(data: seq<byte>, max: nat, rs: seq<Raw>, pos: nat, ordinal: nat) {
    && (forall i :: 0 <= i < |rs| ==> pos <= rs[i].start && Exact(data, max, rs[i], i + ordinal))
    && (forall i, j :: 0 <= i < j < |rs| ==> rs[i].end <= rs[j].start)
  }

  lemma {:induction false} ConsExact(data: seq<byte>, max: nat, r: Raw, rest: seq<Raw>, ordinal: nat)
    requires Exact(data, max, r, ordinal) && AllExact(data, max, rest, r.end, ordinal + 1) && r.start <= r.end
    ensures AllExact(data, max, [r] + rest, r.start, ordinal)
  {
    hide Exact;
    var rs := [r] + rest;
    forall i | 0 <= i < |rs| ensures r.start <= rs[i].start && Exact(data, max, rs[i], i + ordinal) {
      if i > 0 { assert rs[i] == rest[i - 1] && Exact(data, max, rest[i - 1], (i - 1) + (ordinal + 1)); }
    }
    forall i, j | 0 <= i < j < |rs| ensures rs[i].end <= rs[j].start {
      if i > 0 { assert rs[i] == rest[i - 1] && rs[j] == rest[j - 1]; }
    }
  }

  lemma {:induction false} LowerExact(data: seq<byte>, max: nat, rs: seq<Raw>, pos: nat, end: nat, ordinal: nat)
    requires AllExact(data, max, rs, end, ordinal) && pos <= end
    ensures AllExact(data, max, rs, pos, ordinal)
  {
    hide Exact;
  }

  lemma {:induction false} FrameAtExact(data: seq<byte>, max: nat, pos: nat, ordinal: nat)
    requires pos < |data| ==> LineStart(data, pos)
    requires pos <= |data|
    ensures AllExact(data, max, FrameAt(data, max, pos, Feeds(data, pos) + 1, ordinal), pos, ordinal)
    decreases |data| - pos
  {
    hide Kept, RawAt, LineStart, Feeds, Exact, AllExact;
    if pos == |data| {
      NoneExact(data, max, pos, ordinal);
    } else {
      var end, number := LineEnd(data, pos), Feeds(data, pos) + 1;
      NextLine(data, pos);
      var next := if Kept(data, max, pos) then ordinal + 1 else ordinal;
      FrameAtExact(data, max, end, next);
      var rest := FrameAt(data, max, end, number + 1, next);
      if end == |data| { NoneExact(data, max, end, next); }
      assert AllExact(data, max, rest, end, next);
      if Kept(data, max, pos) {
        AtItself(data, max, pos, ordinal);
        ConsExact(data, max, RawAt(data, max, pos, number, ordinal), rest, ordinal);
      } else {
        LowerExact(data, max, rest, pos, end, ordinal);
      }
    }
  }

  lemma {:induction false} NoneExact(data: seq<byte>, max: nat, pos: nat, ordinal: nat)
    ensures AllExact(data, max, [], pos, ordinal)
  {
  }

  lemma {:induction false} AtItself(data: seq<byte>, max: nat, pos: nat, ordinal: nat)
    requires LineStart(data, pos) && Kept(data, max, pos)
    ensures var r := RawAt(data, max, pos, Feeds(data, pos) + 1, ordinal);
            Exact(data, max, r, ordinal) && r.start == pos && r.end == LineEnd(data, pos)
  {
  }

  lemma {:induction false} FrameAtComplete(data: seq<byte>, max: nat, pos: nat, number: nat, ordinal: nat, q: nat)
    requires (pos < |data| ==> LineStart(data, pos)) && pos <= q && LineStart(data, q) && Kept(data, max, q)
    ensures exists i :: 0 <= i < |FrameAt(data, max, pos, number, ordinal)| &&
                        FrameAt(data, max, pos, number, ordinal)[i].start == q
    decreases |data| - pos
  {
    hide Kept, LineStart, Feeds;
    InData(data, q);
    var end := LineEnd(data, pos);
    NextLine(data, pos);
    var rs := FrameAt(data, max, pos, number, ordinal);
    if pos == q {
      assert rs[0].start == q;
    } else {
      var next := if Kept(data, max, pos) then ordinal + 1 else ordinal;
      FrameAtComplete(data, max, end, number + 1, next, q);
      var rest := FrameAt(data, max, end, number + 1, next);
      var i :| 0 <= i < |rest| && rest[i].start == q;
      if Kept(data, max, pos) { assert rs[i + 1] == rest[i]; }
    }
  }

  lemma {:induction false} InData(data: seq<byte>, q: nat)
    requires LineStart(data, q)
    ensures q < |data|
  {
  }

  /** The records are exactly the kept lines, in order, each with its exact coordinates. */
  lemma {:induction false} FrameRefinesSplit(data: seq<byte>, max: nat)
    ensures var rs := Frame(data, max);
            && AllExact(data, max, rs, 0, 1)
            && (forall q :: LineStart(data, q) && Kept(data, max, q) ==> exists i :: 0 <= i < |rs| && rs[i].start == q)
  {
    hide FrameAt, Exact, Kept;
    FrameAtExact(data, max, 0, 1);
    assert Feeds(data, 0) == 0;
    forall q | LineStart(data, q) && Kept(data, max, q)
      ensures exists i :: 0 <= i < |Frame(data, max)| && Frame(data, max)[i].start == q {
      FrameAtComplete(data, max, 0, 1, 1, q);
      var rs := FrameAt(data, max, 0, 1, 1);
      var i :| 0 <= i < |rs| && rs[i].start == q;
      assert Frame(data, max)[i].start == q;
    }
  }
}
