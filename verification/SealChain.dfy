/** What a verified chain means, and what tampering with it does. */
module SealChain {
  import opened Options
  import opened PyText
  import opened JsonValues
  import opened JsonPrinter
  import opened JsonParser
  import opened JsonRoundTrip
  import opened PyLines
  import opened Seal
  import opened Utf8

  /** The digest line `i - 1` carries, `GENESIS` before the first line. */
  function PrevHash(p: Platform, lines: seq<Line>, i: nat, start: PyStr): PyStr
    requires i <= |lines|
  {
    if i == 0 then start else DigestOf(p, lines[i - 1].text)
  }

  function DigestOf(p: Platform, text: string): PyStr {
    match Loads(p.fl, text)
    case Some(Obj(e)) => if ENTRY in e && e[ENTRY].Str? then e[ENTRY].s else []
    case _ => []
  }

  /** Line `i` continues the chain. */
  predicate LinkedAt(p: Platform, lines: seq<Line>, i: nat, start: PyStr, from: int)
    requires i < |lines|
  {
    CheckLine(p, lines[i].text, PrevHash(p, lines, i, start), from + i).Linked?
  }

  /** A chain is intact exactly when every line links to the one before it, in sequence. */
  lemma {:induction false} IntactIff(p: Platform, lines: seq<Line>, start: PyStr, from: int)
    ensures VerifyFrom(p, lines, start, from) == Intact <==>
            forall i :: 0 <= i < |lines| ==> LinkedAt(p, lines, i, start, from)
    decreases |lines|
  {
    hide *;
    VerifyStop(p, lines, start, from);
    if lines != [] {
      LinkedFirst(p, lines, start, from);
      if CheckLine(p, lines[0].text, start, from).Linked? {
        LinkedFacts(p, lines[0].text, start, from);
        var start' := CheckLine(p, lines[0].text, start, from).entry[ENTRY].s;
        VerifyStep(p, lines, start, from);
        IntactIff(p, lines[1..], start', from + 1);
        LinkedRest(p, lines, start, lines[1..], start', from, from + 1);
      }
    }
  }

  lemma {:induction false} LinkedRest(p: Platform, lines: seq<Line>, start: PyStr, rest: seq<Line>, start': PyStr,
                                      from: int, from': int)
    requires lines != [] && start' == DigestOf(p, lines[0].text) && LinkedAt(p, lines, 0, start, from)
    requires rest == lines[1..] && from' == from + 1
    ensures (forall i :: 0 <= i < |rest| ==> LinkedAt(p, rest, i, start', from')) <==>
            forall i :: 0 <= i < |lines| ==> LinkedAt(p, lines, i, start, from)
  {
    hide *;
    forall i: nat | i < |rest| ensures LinkedAt(p, rest, i, start', from') <==> LinkedAt(p, lines, i + 1, start, from) {
      ShiftLinked(p, lines, i, start, start', from);
    }
    if forall i :: 0 <= i < |rest| ==> LinkedAt(p, rest, i, start', from') {
      forall i | 0 <= i < |lines| ensures LinkedAt(p, lines, i, start, from) {
        if i > 0 { assert LinkedAt(p, rest, i - 1, start', from'); }
      }
    }
  }

  lemma {:induction false} LinkedFirst(p: Platform, lines: seq<Line>, start: PyStr, from: int)
    requires lines != []
    ensures LinkedAt(p, lines, 0, start, from) <==> CheckLine(p, lines[0].text, start, from).Linked?
  {
    hide CheckLine;
  }

  lemma {:induction false} ShiftLinked(p: Platform, lines: seq<Line>, j: nat, start: PyStr, start': PyStr, from: int)
    requires j + 1 < |lines| && start' == DigestOf(p, lines[0].text)
    ensures LinkedAt(p, lines[1..], j, start', from + 1) <==> LinkedAt(p, lines, j + 1, start, from)
  {
    hide CheckLine, DigestOf;
    assert PrevHash(p, lines[1..], j, start') == PrevHash(p, lines, j + 1, start);
    assert from + 1 + j == from + (j + 1);
  }

  /** Everything a linked line says. */
  lemma {:induction false} LinkedFacts(p: Platform, text: string, prev: PyStr, seqNo: int)
    requires CheckLine(p, text, prev, seqNo).Linked?
    ensures var e := CheckLine(p, text, prev, seqNo).entry;
            && Loads(p.fl, text) == Some(Obj(e)) && EntryAt(p, text) == e
            && EntryShape(Obj(e)) == ShapeOk
            && SEQ in e && PREV in e && ENTRY in e && e[ENTRY].Str?
            && e[SEQ] == Json.Int(seqNo) && e[PREV] == Str(prev)
            && EntryHash(p, e) == Some(e[ENTRY].s) && DigestOf(p, text) == e[ENTRY].s
  {
    hide Loads, EntryHash;
  }

  /** What stops the chain at line `i`. */
  ghost predicate StopsAt(p: Platform, lines: seq<Line>, start: PyStr, from: int, i: nat)
    requires i < |lines|
  {
    var v := VerifyFrom(p, lines, start, from);
    var c := CheckLine(p, lines[i].text, PrevHash(p, lines, i, start), from + i);
    (v.Diverges? && c == Bad(v.kind, v.seqNo) && v.line == lines[i].number) || (v.Raises? && c.Crash?)
  }

  lemma {:induction false} StopsFirst(p: Platform, lines: seq<Line>, start: PyStr, from: int)
    requires lines != [] && VerifyFrom(p, lines, start, from) != Intact
    requires !CheckLine(p, lines[0].text, start, from).Linked?
    ensures StopsAt(p, lines, start, from, 0)
  {
    hide CheckLine, DigestOf, VerifyFrom;
    VerifyStop(p, lines, start, from);
  }

  lemma {:induction false} StopsLater(p: Platform, lines: seq<Line>, start: PyStr, from: int, start': PyStr, j: nat)
    requires j + 1 < |lines| && start' == DigestOf(p, lines[0].text)
    requires VerifyFrom(p, lines, start, from) == VerifyFrom(p, lines[1..], start', from + 1)
    requires StopsAt(p, lines[1..], start', from + 1, j)
    ensures StopsAt(p, lines, start, from, j + 1)
  {
    hide CheckLine, DigestOf, VerifyFrom;
    assert PrevHash(p, lines[1..], j, start') == PrevHash(p, lines, j + 1, start);
    assert from + 1 + j == from + (j + 1);
  }

  /** The first reported divergence is at a line, and the lines before it verify by themselves. */
  lemma {:induction false} DivergencePoint(p: Platform, lines: seq<Line>, start: PyStr, from: int) returns (i: nat)
    requires VerifyFrom(p, lines, start, from) != Intact
    ensures i < |lines| && VerifyFrom(p, lines[..i], start, from) == Intact && StopsAt(p, lines, start, from, i)
    decreases |lines|
  {
    VerifyStop(p, lines, start, from);
    hide *;
    var c := CheckLine(p, lines[0].text, start, from);
    if c.Linked? {
      var start' := c.entry[ENTRY].s;
      LinkedFacts(p, lines[0].text, start, from);
      VerifyStep(p, lines, start, from);
      var j := DivergencePoint(p, lines[1..], start', from + 1);
      i := j + 1;
      TakeMore(lines, j);
      VerifyStep(p, lines[..i], start, from);
      StopsLater(p, lines, start, from, start', j);
    } else {
      i := 0;
      assert lines[..0] == [];
      VerifyStop(p, [], start, from);
      StopsFirst(p, lines, start, from);
    }
  }

  lemma {:induction false} TakeMore(lines: seq<Line>, j: nat)
    requires j < |lines|
    ensures lines[..j + 1][1..] == lines[1..][..j] && lines[..j + 1][0] == lines[0]
  {
  }

  lemma {:induction false} VerifyStop(p: Platform, lines: seq<Line>, start: PyStr, from: int)
    ensures VerifyFrom(p, [], start, from) == Intact
    ensures lines != [] ==>
      match CheckLine(p, lines[0].text, start, from)
      case Linked(e) => true
      case Bad(kind, s) => VerifyFrom(p, lines, start, from) == Diverges(kind, lines[0].number, s)
      case Crash => VerifyFrom(p, lines, start, from) == Raises
  {
    hide CheckLine;
  }

  /** Verifying a concatenation. */
  lemma {:induction false} VerifyConcat(p: Platform, a: seq<Line>, b: seq<Line>, start: PyStr, from: int)
    requires VerifyFrom(p, a, start, from) == Intact
    ensures VerifyFrom(p, a + b, start, from) == VerifyFrom(p, b, PrevHash(p, a, |a|, start), from + |a|)
    decreases |a|
  {
    hide *;
    if a == [] {
      assert a + b == b;
      PrevTail(p, a, start, start);
    } else {
      VerifyFirst(p, a, start, from);
      var c := CheckLine(p, a[0].text, start, from);
      LinkedFacts(p, a[0].text, start, from);
      var start' := c.entry[ENTRY].s;
      VerifyStep(p, a, start, from);
      VerifyConcat(p, a[1..], b, start', from + 1);
      assert (a + b)[1..] == a[1..] + b && (a + b)[0] == a[0];
      VerifyStep(p, a + b, start, from);
      PrevTail(p, a, start, start');
    }
  }

  lemma {:induction false} PrevTail(p: Platform, a: seq<Line>, start: PyStr, start': PyStr)
    requires a != [] ==> start' == DigestOf(p, a[0].text)
    ensures a == [] ==> PrevHash(p, a, 0, start) == start
    ensures a != [] ==> PrevHash(p, a, |a|, start) == PrevHash(p, a[1..], |a| - 1, start')
  {
    hide DigestOf;
  }

  lemma {:induction false} VerifyFirst(p: Platform, lines: seq<Line>, start: PyStr, from: int)
    requires lines != [] && VerifyFrom(p, lines, start, from) == Intact
    ensures CheckLine(p, lines[0].text, start, from).Linked?
  {
    hide CheckLine;
  }

  lemma {:induction false} VerifyStep(p: Platform, lines: seq<Line>, start: PyStr, from: int)
    requires lines != [] && CheckLine(p, lines[0].text, start, from).Linked?
    ensures VerifyFrom(p, lines, start, from) ==
            VerifyFrom(p, lines[1..], CheckLine(p, lines[0].text, start, from).entry[ENTRY].s, from + 1)
  {
    hide CheckLine;
  }

  function EntryAt(p: Platform, text: string): Entry {
    match Loads(p.fl, text)
    case Some(Obj(e)) => e
    case _ => map[]
  }

  /** The parsed entries of a ledger. */
  function Entries(p: Platform, lines: seq<Line>): (es: seq<Entry>)
    ensures |es| == |lines|
    ensures forall i {:trigger es[i]} :: 0 <= i < |es| ==> es[i] == EntryAt(p, lines[i].text)
  {
    seq(|lines|, i requires 0 <= i < |lines| => EntryAt(p, lines[i].text))
  }

  /** What an intact ledger says of entry `i`: shape, sequence number, link and digest. */
  lemma {:induction false} EntryFacts(p: Platform, lines: seq<Line>, i: nat)
    requires Verify(p, lines) == Intact && i < |lines|
    ensures var e := EntryAt(p, lines[i].text);
            && Loads(p.fl, lines[i].text) == Some(Obj(e))
            && EntryShape(Obj(e)) == ShapeOk
            && SEQ in e && PREV in e && ENTRY in e && e[ENTRY].Str?
            && e[SEQ] == Json.Int(i + 1)
            && e[PREV] == Str(PrevHash(p, lines, i, GENESIS))
            && EntryHash(p, e) == Some(e[ENTRY].s) && DigestOf(p, lines[i].text) == e[ENTRY].s
  {
    hide CheckLine, DigestOf, EntryShape, EntryHash;
    IntactIff(p, lines, GENESIS, 1);
    assert LinkedAt(p, lines, i, GENESIS, 1);
    LinkedFacts(p, lines[i].text, PrevHash(p, lines, i, GENESIS), 1 + i);
  }

  /** No two different preimages at hand have the same digest. */
  ghost predicate NoCollision(p: Platform, xs: seq<Entry>, ys: seq<Entry>) {
    forall i, j | 0 <= i < |xs| && 0 <= j < |ys| ::
      Preimage(xs[i]).Some? && EntryHash(p, xs[i]) == EntryHash(p, ys[j]) ==> Preimage(xs[i]) == Preimage(ys[j])
  }

  /** Equal digests mean equal entries. */
  lemma {:induction false} SameDigest(p: Platform, a: seq<Line>, b: seq<Line>, i: nat, j: nat)
    requires Trusted(p) && Verify(p, a) == Intact && Verify(p, b) == Intact
    requires NoCollision(p, Entries(p, a), Entries(p, b))
    requires i < |a| && j < |b|
    requires DigestOf(p, a[i].text) == DigestOf(p, b[j].text)
    ensures EntryAt(p, a[i].text) == EntryAt(p, b[j].text)
  {
    assert LawfulReader(p.fl);
    hide *;
    var x, y := EntryAt(p, a[i].text), EntryAt(p, b[j].text);
    EntryFacts(p, a, i);
    EntryFacts(p, b, j);
    assert Entries(p, a)[i] == x && Entries(p, b)[j] == y;
    Distinguish(p, Entries(p, a), Entries(p, b), i, j);
    LoadsLawful(p.fl, a[i].text);
    LoadsLawful(p.fl, b[j].text);
    SamePreimage(p, x, y);
  }

  lemma {:induction false} Distinguish(p: Platform, xs: seq<Entry>, ys: seq<Entry>, i: nat, j: nat)
    requires NoCollision(p, xs, ys) && i < |xs| && j < |ys|
    requires EntryHash(p, xs[i]).Some? && EntryHash(p, xs[i]) == EntryHash(p, ys[j])
    ensures Preimage(xs[i]).Some? && Preimage(xs[i]) == Preimage(ys[j])
  {
    hide Preimage;
  }

  lemma {:induction false} SamePreimage(p: Platform, x: Entry, y: Entry)
    requires JsonValues.Lawful(p.fl, Obj(x)) && JsonValues.Lawful(p.fl, Obj(y))
    requires Preimage(x).Some? && Preimage(x) == Preimage(y)
    requires ENTRY in x && ENTRY in y && x[ENTRY] == y[ENTRY]
    ensures x == y
  {
    CanonicalInjective(p.fl, Obj(x - {ENTRY}), Obj(y - {ENTRY}));
    assert x == (x - {ENTRY})[ENTRY := x[ENTRY]];
    assert y == (y - {ENTRY})[ENTRY := y[ENTRY]];
  }

  /** Tamper evidence: two intact ledgers that end in the same digest are the same throughout. */
  lemma {:induction false} LastDigestDecides(p: Platform, a: seq<Line>, b: seq<Line>)
    requires Trusted(p) && Verify(p, a) == Intact && Verify(p, b) == Intact
    requires NoCollision(p, Entries(p, a), Entries(p, b))
    requires a != [] && b != []
    requires DigestOf(p, a[|a| - 1].text) == DigestOf(p, b[|b| - 1].text)
    ensures Entries(p, a) == Entries(p, b)
    decreases |a|
  {
    hide *;
    var i, j := |a| - 1, |b| - 1;
    SameDigest(p, a, b, i, j);
    EntryFacts(p, a, i);
    EntryFacts(p, b, j);
    assert |a| == |b|;
    SameBefore(p, a, b, i);
    var es, fs := Entries(p, a), Entries(p, b);
    forall k | 0 <= k < |es| ensures es[k] == fs[k] {
      assert EntryAt(p, a[k].text) == EntryAt(p, b[k].text);
    }
  }

  /** Equal entries at a place are equal at every place before it. */
  lemma {:induction false} SameBefore(p: Platform, a: seq<Line>, b: seq<Line>, i: nat)
    requires Trusted(p) && Verify(p, a) == Intact && Verify(p, b) == Intact
    requires NoCollision(p, Entries(p, a), Entries(p, b))
    requires i < |a| && i < |b| && EntryAt(p, a[i].text) == EntryAt(p, b[i].text)
    ensures forall k :: 0 <= k <= i ==> EntryAt(p, a[k].text) == EntryAt(p, b[k].text)
    decreases i
  {
    hide DigestOf, EntryShape, EntryHash, EntryAt, Verify, NoCollision, Loads, Entries, Trusted;
    if i > 0 {
      EntryFacts(p, a, i);
      EntryFacts(p, b, i);
      EntryFacts(p, a, i - 1);
      EntryFacts(p, b, i - 1);
      SameDigest(p, a, b, i - 1, i - 1);
      SameBefore(p, a, b, i - 1);
    }
  }

  /** A line of an intact chain, met at another place, is a sequence gap there. */
  lemma {:induction false} MisplacedLine(p: Platform, lines: seq<Line>, i: nat, prev: PyStr, at: int)
    requires Verify(p, lines) == Intact && i < |lines| && at != i + 1
    ensures CheckLine(p, lines[i].text, prev, at) == Bad(SeqGap, Some(i + 1))
  {
    hide EntryShape, EntryHash, Loads, Verify;
    EntryFacts(p, lines, i);
  }

  /** Any prefix of an intact ledger is intact. */
  lemma {:induction false} PrefixIntact(p: Platform, lines: seq<Line>, n: nat)
    requires Verify(p, lines) == Intact && n <= |lines|
    ensures Verify(p, lines[..n]) == Intact
  {
    hide CheckLine, DigestOf;
    IntactIff(p, lines, GENESIS, 1);
    IntactIff(p, lines[..n], GENESIS, 1);
    forall i | 0 <= i < n ensures LinkedAt(p, lines[..n], i, GENESIS, 1) {
      assert LinkedAt(p, lines, i, GENESIS, 1);
      assert PrevHash(p, lines[..n], i, GENESIS) == PrevHash(p, lines, i, GENESIS);
    }
  }

  /** What lies after an intact prefix decides: here, the text of a line out of place. */
  lemma {:induction false} GapAfterPrefix(p: Platform, lines: seq<Line>, n: nat, moved: nat, rest: seq<Line>)
    requires Verify(p, lines) == Intact && n <= |lines| && moved < |lines| && moved != n
    requires rest != [] && rest[0].text == lines[moved].text
    ensures Verify(p, lines[..n] + rest) == Diverges(SeqGap, rest[0].number, Some(moved + 1))
  {
    hide CheckLine, DigestOf;
    PrefixIntact(p, lines, n);
    VerifyConcat(p, lines[..n], rest, GENESIS, 1);
    MisplacedLine(p, lines, moved, PrevHash(p, lines[..n], n, GENESIS), 1 + n);
  }

  /** Deleting any entry but the last from a ledger, given as the physical lines of its file, is reported at
      the line that now holds the next one. */
  lemma {:induction false} DeletionDetected(p: Platform, phys: seq<string>, i: nat)
    requires Verify(p, NonBlank(phys, 1)) == Intact && i + 1 < |NonBlank(phys, 1)|
    ensures var lines := NonBlank(phys, 1);
            var k := lines[i].number;
            && 1 <= k <= |phys|
            && var v := Verify(p, NonBlank(phys[..k - 1] + phys[k..], 1));
               v.Diverges? && v.kind == SeqGap && v.line + 1 == lines[i + 1].number && v.seqNo == Some(i + 2)
  {
    hide *;
    var lines := NonBlank(phys, 1);
    var pre, x, post := AroundLine(phys, 1, i);
    var k := lines[i].number;
    assert k == 1 + |pre|;
    CutOut(pre, x, post);
    NonBlankConcat(pre, post, 1);
    Renumbered(post, k);
    var rest := NonBlank(post, k);
    GapAfterPrefix(p, lines, i, i + 1, rest);
  }

  lemma {:induction false} CutOut(pre: seq<string>, x: string, post: seq<string>)
    ensures var phys := pre + [x] + post; phys[..|pre|] == pre && phys[|pre| + 1..] == post && phys[|pre|] == x
  {
  }

  /** Swapping two entries of a ledger is reported at the earlier of the two places. */
  lemma {:induction false} SwapDetected(p: Platform, phys: seq<string>, i: nat, j: nat)
    requires Verify(p, NonBlank(phys, 1)) == Intact && i < j < |NonBlank(phys, 1)|
    ensures var lines := NonBlank(phys, 1);
            var a, b := lines[i].number - 1, lines[j].number - 1;
            && 0 <= a < b < |phys|
            && Verify(p, NonBlank(phys[a := phys[b]][b := phys[a]], 1)) ==
               Diverges(SeqGap, lines[i].number, Some(j + 1))
  {
    hide *;
    var lines := NonBlank(phys, 1);
    var pre, x, post := AroundLine(phys, 1, i);
    CutOut(pre, x, post);
    var pre', y, post' := AroundLine(phys, 1, j);
    CutOut(pre', y, post');
    var a, b := lines[i].number - 1, lines[j].number - 1;
    assert a == |pre| && b == |pre'|;
    NumbersAscend(phys, 1);
    var tail := phys[a := y][b := x][a + 1..];
    Swapped(phys, a, b);
    NonBlankConcat(pre, [y] + tail, 1);
    InkFirst(y, tail, 1 + a);
    GapAfterPrefix(p, lines, i, j, NonBlank([y] + tail, 1 + a));
  }

  lemma {:induction false} Swapped(phys: seq<string>, a: nat, b: nat)
    requires a < b < |phys|
    ensures var s := phys[a := phys[b]][b := phys[a]]; s == phys[..a] + ([phys[b]] + s[a + 1..])
  {
  }
}
