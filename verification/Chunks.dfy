/** Reading a file in chunks: `probe_stream_encoding` and `_count_records_bounded`. */
module Chunks {
  import opened Options
  import opened Utf8
  import opened PyLines

  function Concat(chunks: seq<seq<byte>>): seq<byte> {
    if chunks == [] then [] else chunks[0] + Concat(chunks[1..])
  }

  lemma {:induction false} ConcatMore(chunks: seq<seq<byte>>, i: nat)
    requires i < |chunks|
    ensures Concat(chunks[..i + 1]) == Concat(chunks[..i]) + chunks[i]
    decreases i
  {
    if i == 0 {
      assert chunks[..1] == [chunks[0]] && |chunks[..0]| == 0;
      var one: seq<seq<byte>> := [chunks[0]];
      assert |one[1..]| == 0;
      assert chunks[0] + [] == chunks[0];
    } else {
      assert chunks[..i + 1][1..] == chunks[1..][..i] && chunks[..i][1..] == chunks[1..][..i - 1];
      ConcatMore(chunks[1..], i - 1);
      var x, y, z := chunks[0], Concat(chunks[1..][..i - 1]), chunks[i];
      assert x + (y + z) == (x + y) + z;
    }
  }

  // ----- `probe_stream_encoding` -----

  datatype Tag = NulByte | BadUtf8

  /** What an incremental decoder keeps back: the bytes after the last complete character. */
  function Pending(bs: seq<byte>): seq<byte>
    decreases |bs|
  {
    if bs == [] then []
    else match First(bs)
      case Char(_, n) => Pending(bs[n..])
      case _ => bs
  }

  function Probe(chunks: seq<seq<byte>>, pending: seq<byte>): Option<Tag>
    decreases |chunks|
  {
    if chunks == [] then if pending == [] then None else Some(BadUtf8)
    else if 0 in chunks[0] then Some(NulByte)
    else if Decode(pending + chunks[0]).Invalid? then Some(BadUtf8)
    else Probe(chunks[1..], Pending(pending + chunks[0]))
  }

  /** `probe_stream_encoding(stream)`, the stream giving these chunks. */
  method ProbeStreamEncoding(chunks: seq<seq<byte>>) returns (tag: Option<Tag>)
    ensures tag == Probe(chunks, [])
  {
    hide Decode;
    var pending: seq<byte> := [];
    for i := 0 to |chunks|
      invariant Probe(chunks[i..], pending) == Probe(chunks, [])
    {
      var chunk := chunks[i];
      assert chunks[i..][0] == chunk && chunks[i..][1..] == chunks[i + 1..];
      if 0 in chunk {
        return Some(NulByte);
      }
      if Decode(pending + chunk).Invalid? {
        return Some(BadUtf8);
      }
      pending := Pending(pending + chunk);
    }
    return if pending == [] then None else Some(BadUtf8);
  }

  /** Bytes without an error are complete characters followed by what is kept back. */
  lemma {:induction false} PendingIs(bs: seq<byte>) returns (clean: seq<byte>)
    requires !Decode(bs).Invalid?
    ensures bs == clean + Pending(bs) && Decode(clean).Valid?
    ensures !Decode(Pending(bs)).Invalid? && (Pending(bs) == [] <==> Decode(bs).Valid?)
    decreases |bs|
  {
    hide First;
    clean := [];
    if bs != [] && First(bs).Char? {
      var n := First(bs).length;
      var rest := PendingIs(bs[n..]);
      clean := bs[..n] + rest;
      OneMoreChar(bs, n, rest);
    }
  }

  lemma {:induction false} OneMoreChar(bs: seq<byte>, n: nat, rest: seq<byte>)
    requires bs != [] && First(bs).Char? && n == First(bs).length && Decode(rest).Valid?
    ensures Decode(bs[..n] + rest).Valid?
  {
    var s := bs[..n];
    assert First(s) == First(bs);
    assert s[n..] == [];
    assert Decode(s).Valid?;
    DecodeConcat(s, rest);
  }

  /** Feeding more bytes: only what was kept back matters. */
  lemma {:induction false} FeedPending(bs: seq<byte>, more: seq<byte>)
    requires !Decode(bs).Invalid?
    ensures Decode(bs + more).Valid? <==> Decode(Pending(bs) + more).Valid?
    ensures Decode(bs + more).Invalid? <==> Decode(Pending(bs) + more).Invalid?
  {
    hide Decode, Pending;
    var clean := PendingIs(bs);
    DecodeConcat(clean, Pending(bs) + more);
    assert bs + more == clean + (Pending(bs) + more);
  }

  lemma {:induction false} PendingIdle(bs: seq<byte>)
    requires !Decode(bs).Invalid?
    ensures Decode(Pending(bs)).Valid? <==> Pending(bs) == []
    decreases |bs|
  {
    if bs != [] && First(bs).Char? { PendingIdle(bs[First(bs).length..]); }
    hide First;
  }

  /** How many bytes lie before the first chunk with a NUL in it. */
  function NulStart(chunks: seq<seq<byte>>): (n: nat)
    ensures n <= |Concat(chunks)|
  {
    if chunks == [] || 0 in chunks[0] then 0 else |chunks[0]| + NulStart(chunks[1..])
  }

  /** The probe's answer from the bytes alone, but for where the chunk with the first NUL starts. */
  function TagFrom(before: seq<byte>, bs: seq<byte>): Option<Tag> {
    if Decode(before).Invalid? then Some(BadUtf8)
    else if 0 in bs then Some(NulByte)
    else if Decode(bs).Valid? then None
    else Some(BadUtf8)
  }

  lemma {:induction false} ProbeFrom(chunks: seq<seq<byte>>, pending: seq<byte>)
    requires !Decode(pending).Invalid? && (Decode(pending).Valid? <==> pending == []) && 0 !in pending
    ensures Probe(chunks, pending) ==
            TagFrom(pending + Concat(chunks)[..NulStart(chunks)], pending + Concat(chunks))
    decreases |chunks|
  {
    hide Decode;
    var all, start := Concat(chunks), NulStart(chunks);
    if chunks == [] || 0 in chunks[0] {
      assert pending + all[..start] == pending;
      if chunks == [] { assert pending + [] == pending; }
    } else {
      var bs, rest, start' := pending + chunks[0], Concat(chunks[1..]), NulStart(chunks[1..]);
      assert pending + all == bs + rest;
      assert pending + all[..start] == bs + rest[..start'];
      if Decode(bs).Invalid? {
        InvalidStays(bs, rest[..start']);
      } else {
        var clean := PendingIs(bs);
        assert forall x :: x in Pending(bs) ==> x in clean + Pending(bs);
        PendingIdle(bs);
        FeedPending(bs, rest);
        FeedPending(bs, rest[..start']);
        ProbeFrom(chunks[1..], Pending(bs));
      }
    }
  }

  /** What the probe answers, for every way to split the stream. */
  lemma {:induction false} ProbeIs(chunks: seq<seq<byte>>)
    ensures Probe(chunks, []) == TagFrom(Concat(chunks)[..NulStart(chunks)], Concat(chunks))
  {
    ProbeFrom(chunks, []);
    var all := Concat(chunks);
    assert [] + all == all && [] + all[..NulStart(chunks)] == all[..NulStart(chunks)];
    hide Decode;
  }

  lemma {:induction false} NulStartIs(chunks: seq<seq<byte>>)
    ensures 0 !in Concat(chunks)[..NulStart(chunks)]
    ensures 0 !in Concat(chunks) <==> NulStart(chunks) == |Concat(chunks)|
    decreases |chunks|
  {
    if chunks != [] && 0 !in chunks[0] {
      NulStartIs(chunks[1..]);
      var rest := Concat(chunks[1..]);
      assert Concat(chunks)[..NulStart(chunks)] == chunks[0] + rest[..NulStart(chunks[1..])];
    }
  }

  /** The probe is silent exactly when the whole stream is NUL-free UTF-8, however it is split. */
  lemma {:induction false} ProbeNoneIff(chunks: seq<seq<byte>>)
    ensures Probe(chunks, []) == None <==> 0 !in Concat(chunks) && Decode(Concat(chunks)).Valid?
  {
    ProbeIs(chunks);
    NulStartIs(chunks);
    hide Decode, NulStart, Probe;
    var all := Concat(chunks);
    if 0 !in all { assert all[..|all|] == all; }
  }

  /** Where the first NUL is. */
  function FirstNul(bs: seq<byte>): (i: nat)
    ensures i <= |bs| && 0 !in bs[..i] && (i < |bs| <==> 0 in bs) && (i < |bs| ==> bs[i] == 0)
  {
    if bs == [] || bs[0] == 0 then 0
    else
      var i := FirstNul(bs[1..]);
      assert bs[..1 + i] == [bs[0]] + bs[1..][..i];
      1 + i
  }

  lemma {:induction false} NulBehind(bs: seq<byte>, start: nat)
    requires start <= |bs| && 0 !in bs[..start] && 0 in bs
    ensures start <= FirstNul(bs)
  {
    assert forall k :: 0 <= k < start ==> bs[k] == bs[..start][k];
    hide FirstNul;
  }

  /** A way a stream may give its bytes: no chunk is empty before its end. */
  predicate Chunking(chunks: seq<seq<byte>>, bs: seq<byte>) {
    Concat(chunks) == bs && [] !in chunks
  }

  /** The bytes before the first NUL are already not UTF-8. */
  predicate BadBeforeNul(bs: seq<byte>) {
    0 in bs && Decode(bs[..FirstNul(bs)]).Invalid?
  }

  /** Outside that case the tag is this, for every chunking. */
  lemma {:induction false} TagIs(chunks: seq<seq<byte>>, bs: seq<byte>)
    requires Chunking(chunks, bs) && !BadBeforeNul(bs)
    ensures Probe(chunks, []) == if 0 in bs then Some(NulByte) else if Decode(bs).Valid? then None else Some(BadUtf8)
  {
    ProbeIs(chunks);
    NulStartIs(chunks);
    hide Decode, NulStart, Probe;
    var start, first := NulStart(chunks), FirstNul(bs);
    if 0 in bs {
      NulBehind(bs, start);
      assert bs[..first] == bs[..start] + bs[start..first];
      if Decode(bs[..start]).Invalid? { InvalidStays(bs[..start], bs[start..first]); }
    } else {
      assert bs[..start] == bs;
    }
  }

  /** In that case it is not: in one chunk the NUL wins, with a boundary just before it the bytes in front do. */
  lemma {:induction false} TwoTags(bs: seq<byte>)
    requires BadBeforeNul(bs)
    ensures var i := FirstNul(bs);
            && Chunking([bs], bs) && Probe([bs], []) == Some(NulByte)
            && Chunking([bs[..i], bs[i..]], bs) && Probe([bs[..i], bs[i..]], []) == Some(BadUtf8)
  {
    var i := FirstNul(bs);
    var one, two := [bs], [bs[..i], bs[i..]];
    assert bs[..0] == [] && Decode([]) == Valid("");
    hide Decode, FirstNul, First;
    ConcatOne(bs);
    assert two[1..] == [bs[i..]];
    ConcatOne(bs[i..]);
    assert Concat(two) == bs[..i] + bs[i..] == bs;
    assert [] + bs[..i] == bs[..i];
  }

  lemma {:induction false} ConcatOne(bs: seq<byte>)
    ensures Concat([bs]) == bs
  {
    assert [bs][1..] == [];
    assert bs + [] == bs;
  }

  /** The tag depends on the chunks exactly when bytes that are not UTF-8 lie before the first NUL. */
  lemma {:induction false} TagDependsIff(bs: seq<byte>)
    ensures BadBeforeNul(bs) <==>
            exists x, y :: Chunking(x, bs) && Chunking(y, bs) && Probe(x, []) != Probe(y, [])
  {
    hide Decode, FirstNul, Probe, Chunking, BadBeforeNul;
    if BadBeforeNul(bs) {
      TwoTags(bs);
    } else {
      forall x, y | Chunking(x, bs) && Chunking(y, bs) ensures Probe(x, []) == Probe(y, []) {
        TagIs(x, bs);
        TagIs(y, bs);
      }
    }
  }

  // ----- `_count_records_bounded` -----

  /** A byte outside space, tab and carriage return. */
  predicate Ink(b: byte) {
    b != 0x20 && b != 0x09 && b != 0x0D
  }

  /** `bool(fragment.strip(b" \t\r"))` */
  predicate HasInk(bs: seq<byte>) {
    exists i :: 0 <= i < |bs| && Ink(bs[i])
  }

  /** Stripped of space, tab and carriage return, the fragment is not empty. */
  lemma {:induction false} HasInkIs(bs: seq<byte>)
    ensures HasInk(bs) <==> exists b :: b in bs && b !in {0x20, 0x09, 0x0D}
  {
    if HasInk(bs) {
      var i :| 0 <= i < |bs| && Ink(bs[i]);
      assert bs[i] in bs;
    }
  }

  /** `bs.split(b"\n")` */
  function Split(bs: seq<byte>): (segs: seq<seq<byte>>)
    ensures segs != []
  {
    SplitOn(bs, LF)
  }

  /** One more byte in front: a new segment for a line feed, else it joins the first one. */
  function Cons(b: byte, segs: seq<seq<byte>>): (r: seq<seq<byte>>)
    requires segs != []
    ensures r != []
  {
    if b == LF then [[]] + segs else [[b] + segs[0]] + segs[1..]
  }

  lemma {:induction false} SplitFirst(b: byte, bs: seq<byte>)
    ensures Split([b] + bs) == Cons(b, Split(bs)) && Split([]) == [[]]
  {
    var s := [b] + bs;
    assert s[1..] == bs;
    var i := FirstOf(bs, LF);
    if b == LF {
      assert s[..0] == [];
    } else {
      assert s[..1 + i] == [b] + bs[..i] && s[1 + i..] == bs[i..];
    }
    if i < |bs| { assert s[1 + i + 1..] == bs[i + 1..]; }
  }

  function Count(segs: seq<seq<byte>>): nat {
    if segs == [] then 0 else (if HasInk(segs[0]) then 1 else 0) + Count(segs[1..])
  }

  function Init(segs: seq<seq<byte>>): seq<seq<byte>>
    requires segs != []
  {
    segs[..|segs| - 1]
  }

  function Last(segs: seq<seq<byte>>): seq<byte>
    requires segs != []
  {
    segs[|segs| - 1]
  }

  function Join(x: seq<seq<byte>>, y: seq<seq<byte>>): seq<seq<byte>>
    requires x != [] && y != []
  {
    Init(x) + [Last(x) + y[0]] + y[1..]
  }

  lemma {:induction false} ConsJoin(b: byte, x: seq<seq<byte>>, y: seq<seq<byte>>)
    requires x != [] && y != []
    ensures Cons(b, Join(x, y)) == Join(Cons(b, x), y)
  {
    var l, r := Cons(b, Join(x, y)), Join(Cons(b, x), y);
    if b == LF {
      assert l == [[]] + (Init(x) + [Last(x) + y[0]] + y[1..]);
      assert Init(Cons(b, x)) == [[]] + Init(x);
    } else if |x| == 1 {
      assert [b] + (x[0] + y[0]) == ([b] + x[0]) + y[0];
      assert Init(x) == [] && Init(Cons(b, x)) == [];
    } else {
      assert Init(Cons(b, x)) == [[b] + x[0]] + Init(x)[1..];
      assert Last(Cons(b, x)) == Last(x);
    }
  }

  /** Splitting across a boundary: the last segment of the one and the first of the other are one segment. */
  lemma {:induction false} SplitConcat(a: seq<byte>, b: seq<byte>)
    ensures Split(a + b) == Join(Split(a), Split(b))
    decreases |a|
  {
    hide Cons, Join, Split;
    if a == [] {
      assert a + b == b;
      SplitFirst(LF, []);
      FrontJoin(Split(b));
    } else {
      assert a == [a[0]] + a[1..] && a + b == [a[0]] + (a[1..] + b);
      SplitFirst(a[0], a[1..]);
      SplitFirst(a[0], a[1..] + b);
      SplitConcat(a[1..], b);
      ConsJoin(a[0], Split(a[1..]), Split(b));
    }
  }

  lemma {:induction false} FrontJoin(y: seq<seq<byte>>)
    requires y != []
    ensures Join([[]], y) == y
  {
    assert [] + y[0] == y[0];
  }

  lemma {:induction false} CountConcat(x: seq<seq<byte>>, y: seq<seq<byte>>)
    ensures Count(x + y) == Count(x) + Count(y)
    decreases |x|
  {
    hide HasInk;
    if x == [] {
      assert x + y == y;
    } else {
      assert (x + y)[1..] == x[1..] + y;
      CountConcat(x[1..], y);
    }
  }

  lemma {:induction false} InkConcat(a: seq<byte>, b: seq<byte>)
    ensures HasInk(a + b) <==> HasInk(a) || HasInk(b)
  {
    var s := a + b;
    if HasInk(a) {
      var i :| 0 <= i < |a| && Ink(a[i]);
      assert Ink(s[i]);
    }
    if HasInk(b) {
      var i :| 0 <= i < |b| && Ink(b[i]);
      assert Ink(s[|a| + i]);
    }
  }

  lemma {:induction false} CountFirst(x: seq<byte>, y: seq<seq<byte>>)
    ensures Count([x] + y) == (if HasInk(x) then 1 else 0) + Count(y)
  {
    assert ([x] + y)[1..] == y;
    hide HasInk;
  }

  /** What the counter knows after the bytes `seen`. */
  ghost predicate Counted(seen: seq<byte>, count: nat, open: bool) {
    count == Count(Init(Split(seen))) && open == HasInk(Last(Split(seen)))
  }

  /** The effect of one chunk, by its fragments. */
  lemma {:induction false} ChunkStep(seen: seq<byte>, chunk: seq<byte>, count: nat, open: bool)
    requires Counted(seen, count, open)
    ensures var fs := Split(chunk);
            |fs| == 1 ==> Counted(seen + chunk, count, open || HasInk(fs[0]))
    ensures var fs := Split(chunk);
            var more := if open || HasInk(fs[0]) then 1 else 0;
            |fs| > 1 ==> Counted(seen + chunk, count + more + Count(fs[1..|fs| - 1]), HasInk(Last(fs)))
  {
    hide HasInk, Split;
    var fs, ss := Split(chunk), Split(seen);
    SplitConcat(seen, chunk);
    InkConcat(Last(ss), fs[0]);
    var joined := Last(ss) + fs[0];
    if |fs| == 1 {
      assert Split(seen + chunk) == Init(ss) + [joined];
      assert Init(Init(ss) + [joined]) == Init(ss);
    } else {
      var mid := fs[1..|fs| - 1];
      assert Init(Split(seen + chunk)) == Init(ss) + ([joined] + mid);
      CountConcat(Init(ss), [joined] + mid);
      CountFirst(joined, mid);
    }
  }

  lemma {:induction false} CountLast(segs: seq<seq<byte>>)
    requires segs != []
    ensures Count(segs) == Count(Init(segs)) + (if HasInk(Last(segs)) then 1 else 0)
  {
    hide HasInk;
    CountConcat(Init(segs), [Last(segs)]);
    assert segs == Init(segs) + [Last(segs)];
    CountFirst(Last(segs), []);
    assert [Last(segs)] + [] == [Last(segs)];
  }

  /** `_count_records_bounded` on a file read in these chunks: the non-empty segments of the whole file. */
  method CountRecordsBounded(chunks: seq<seq<byte>>) returns (count: nat)
    ensures count == Count(Split(Concat(chunks)))
  {
    hide HasInk, Split, Count, Counted;
    count := 0;
    var nonEmptyLine := false;
    NothingCounted();
    for i := 0 to |chunks|
      invariant Counted(Concat(chunks[..i]), count, nonEmptyLine)
    {
      ConcatMore(chunks, i);
      ChunkStep(Concat(chunks[..i]), chunks[i], count, nonEmptyLine);
      count, nonEmptyLine := CountChunk(chunks[i], count, nonEmptyLine);
    }
    assert chunks[..|chunks|] == chunks;
    CountedAll(Concat(chunks), count, nonEmptyLine);
    if nonEmptyLine {
      count := count + 1;
    }
  }

  lemma {:induction false} NothingCounted()
    ensures Counted(Concat([]), 0, false)
  {
    SplitFirst(LF, []);
  }

  lemma {:induction false} CountedAll(seen: seq<byte>, count: nat, open: bool)
    requires Counted(seen, count, open)
    ensures Count(Split(seen)) == count + (if open then 1 else 0)
  {
    hide HasInk, Split;
    CountLast(Split(seen));
  }

  /** The fragments of one chunk. */
  method CountChunk(chunk: seq<byte>, count0: nat, open0: bool) returns (count: nat, open: bool)
    ensures var fs := Split(chunk);
            |fs| == 1 ==> count == count0 && open == (open0 || HasInk(fs[0]))
    ensures var fs := Split(chunk);
            var more := if open0 || HasInk(fs[0]) then 1 else 0;
            |fs| > 1 ==> count == count0 + more + Count(fs[1..|fs| - 1]) && open == HasInk(Last(fs))
  {
    hide HasInk, Split;
    count, open := count0, open0;
    var fragments := Split(chunk);
    for j := 0 to |fragments| - 1
      invariant j == 0 ==> count == count0 && open == open0
      invariant j > 0 ==>
                  !open && count == count0 + (if open0 || HasInk(fragments[0]) then 1 else 0) + Count(fragments[1..j])
    {
      if j > 0 {
        CountMore(fragments, j);
      } else {
        assert fragments[1..1] == [];
      }
      if open || HasInk(fragments[j]) {
        count := count + 1;
      }
      open := false;
    }
    open := open || HasInk(fragments[|fragments| - 1]);
  }

  lemma {:induction false} CountMore(fs: seq<seq<byte>>, j: nat)
    requires 1 <= j < |fs|
    ensures Count(fs[1..j + 1]) == Count(fs[1..j]) + (if HasInk(fs[j]) then 1 else 0)
  {
    var s := fs[1..j + 1];
    assert |s| == j && s[j - 1] == fs[j];
    assert s[..j - 1] == fs[1..j];
    CountLast(s);
    hide HasInk, Count;
  }
}
