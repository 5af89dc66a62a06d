/** Python's `str.strip()` blanks and physical lines. */
module PyLines {

  /** `str.isspace` on one character. */
  predicate PySpace(c: char) {
    SpaceCode(c as int)
  }

  predicate SpaceCode(n: int) {
    0x9 <= n <= 0xD || 0x1C <= n <= 0x20 || n == 0x85 || n == 0xA0 || n == 0x1680 || 0x2000 <= n <= 0x200A ||
    n == 0x2028 || n == 0x2029 || n == 0x202F || n == 0x205F || n == 0x3000
  }

  /** The characters for which `str.isspace` is true. */
  lemma {:induction false} SpaceIs(n: int)
    ensures SpaceCode(n) <==>
            n in {0x09, 0x0A, 0x0B, 0x0C, 0x0D, 0x1C, 0x1D, 0x1E, 0x1F, 0x20, 0x85, 0xA0, 0x1680, 0x2000, 0x2001,
                  0x2002, 0x2003, 0x2004, 0x2005, 0x2006, 0x2007, 0x2008, 0x2009, 0x200A, 0x2028, 0x2029, 0x202F,
                  0x205F, 0x3000}
  {
  }

  /** `not s.strip()` */
  predicate PyBlank(s: string) {
    forall i :: 0 <= i < |s| ==> PySpace(s[i])
  }

  /** `s.lstrip()`, `s.rstrip()` and `s.strip()` */
  function LStrip(s: string): string {
    if s != "" && PySpace(s[0]) then LStrip(s[1..]) else s
  }

  function RStrip(s: string): string {
    if s != "" && PySpace(s[|s| - 1]) then RStrip(s[..|s| - 1]) else s
  }

  function Strip(s: string): string {
    RStrip(LStrip(s))
  }

  /** What stripping on the left takes off. */
  lemma {:induction false} LStripSplit(s: string) returns (w: string)
    ensures PyBlank(w) && s == w + LStrip(s)
    decreases |s|
  {
    if s != "" && PySpace(s[0]) {
      var u := LStripSplit(s[1..]);
      w := [s[0]] + u;
    } else {
      w := "";
    }
  }

  lemma {:induction false} LStripBack(w: string, m: string)
    requires PyBlank(w) && m != "" && !PySpace(m[0])
    ensures LStrip(w + m) == m
    decreases |w|
  {
    if w == "" {
      assert w + m == m;
    } else {
      assert (w + m)[1..] == w[1..] + m;
      LStripBack(w[1..], m);
    }
  }

  lemma {:induction false} RStripSplit(s: string) returns (w: string)
    ensures PyBlank(w) && s == RStrip(s) + w
    decreases |s|
  {
    if s != "" && PySpace(s[|s| - 1]) {
      var u := RStripSplit(s[..|s| - 1]);
      w := u + [s[|s| - 1]];
      assert s == s[..|s| - 1] + [s[|s| - 1]];
    } else {
      w := "";
    }
  }

  /** What stripping takes off on both sides. */
  lemma {:induction false} StripSplit(s: string) returns (a: string, b: string)
    ensures PyBlank(a) && PyBlank(b) && s == a + Strip(s) + b
  {
    hide LStrip, RStrip, PyBlank;
    a := LStripSplit(s);
    b := RStripSplit(LStrip(s));
    assert s == a + (Strip(s) + b);
  }

  function FirstOf<T(==)>(s: seq<T>, x: T): (i: nat)
    ensures i <= |s|
    ensures i < |s| ==> s[i] == x
    ensures forall j :: 0 <= j < i ==> s[j] != x
  {
    if s == [] || s[0] == x then 0 else 1 + FirstOf(s[1..], x)
  }

  /** `s.split(x)` for a separator of one character, or one byte. */
  function SplitOn<T(==)>(s: seq<T>, x: T): (parts: seq<seq<T>>)
    ensures parts != []
    decreases |s|
  {
    var i := FirstOf(s, x);
    if i == |s| then [s] else [s[..i]] + SplitOn(s[i + 1..], x)
  }

  /** `s.split("\n")` */
  function SplitLf(s: string): (lines: seq<string>)
    ensures lines != []
  {
    SplitOn(s, '\n')
  }

  datatype Line = Line(number: nat, text: string)

  /** The non-blank lines with their numbers, `first` being the number of the first line. */
  function NonBlank(lines: seq<string>, first: nat): (r: seq<Line>)
  {
    if lines == [] then []
    else (if PyBlank(lines[0]) then [] else [Line(first, lines[0])]) + NonBlank(lines[1..], first + 1)
  }

  /** The numbers ascend within the range of the lines. */
  lemma {:induction false} NumbersAscend(lines: seq<string>, first: nat)
    ensures forall i :: 0 <= i < |NonBlank(lines, first)| ==>
              first <= NonBlank(lines, first)[i].number < first + |lines|
    ensures forall i, j :: 0 <= i < j < |NonBlank(lines, first)| ==>
              NonBlank(lines, first)[i].number < NonBlank(lines, first)[j].number
    decreases |lines|
  {
    if lines != [] { NumbersAscend(lines[1..], first + 1); }
  }

  /** A numbered line is one of the lines, at its number, and not blank. */
  lemma {:induction false} NonBlankIs(lines: seq<string>, first: nat, l: Line)
    ensures l in NonBlank(lines, first) <==>
            first <= l.number < first + |lines| && lines[l.number - first] == l.text && !PyBlank(l.text)
    decreases |lines|
  {
    hide PyBlank;
    if lines != [] {
      NonBlankIs(lines[1..], first + 1, l);
      var own := if PyBlank(lines[0]) then [] else [Line(first, lines[0])];
      assert NonBlank(lines, first) == own + NonBlank(lines[1..], first + 1);
      assert l in own <==> l == Line(first, lines[0]) && !PyBlank(lines[0]);
    }
  }

  predicate NoLf(s: string) {
    '\n' !in s
  }

  lemma {:induction false} FirstOfAt<T>(a: seq<T>, x: T, b: seq<T>)
    requires x !in a
    ensures FirstOf(a + [x] + b, x) == |a|
    ensures FirstOf(a, x) == |a|
    decreases |a|
  {
    var s := a + [x] + b;
    if a != [] {
      assert s[1..] == a[1..] + [x] + b;
      FirstOfAt(a[1..], x, b);
    }
  }

  lemma {:induction false} SplitOnAt<T>(h: seq<T>, x: T, t: seq<T>)
    requires x !in h
    ensures SplitOn(h + [x] + t, x) == [h] + SplitOn(t, x)
    ensures SplitOn(h, x) == [h]
  {
    var s := h + [x] + t;
    FirstOfAt(h, x, t);
    assert s[..|h|] == h && s[|h| + 1..] == t;
  }

  /** Splitting two texts with a separator between them. */
  lemma {:induction false} SplitOnConcat<T>(a: seq<T>, x: T, b: seq<T>)
    ensures SplitOn(a + [x] + b, x) == SplitOn(a, x) + SplitOn(b, x)
    decreases |a|
  {
    hide SplitOn, FirstOf;
    var s := a + [x] + b;
    var i := FirstOf(a, x);
    if i == |a| {
      SplitOnAt(a, x, b);
    } else {
      var h, t := a[..i], a[i + 1..];
      assert a == h + [x] + t;
      assert s == h + [x] + (t + [x] + b);
      SplitOnAt(h, x, t + [x] + b);
      SplitOnAt(h, x, t);
      SplitOnConcat(t, x, b);
      assert [h] + (SplitOn(t, x) + SplitOn(b, x)) == [h] + SplitOn(t, x) + SplitOn(b, x);
    }
  }

  lemma {:induction false} SplitConcat(a: string, b: string)
    ensures SplitLf(a + ['\n'] + b) == SplitLf(a) + SplitLf(b)
  {
    hide SplitOn;
    SplitOnConcat(a, '\n', b);
  }

  lemma {:induction false} SplitAt(h: string, t: string)
    requires NoLf(h)
    ensures SplitLf(h + ['\n'] + t) == [h] + SplitLf(t)
    ensures SplitLf(h) == [h]
  {
    hide SplitOn;
    SplitOnAt(h, '\n', t);
  }

  lemma {:induction false} NonBlankConcat(a: seq<string>, b: seq<string>, first: nat)
    ensures NonBlank(a + b, first) == NonBlank(a, first) + NonBlank(b, first + |a|)
    decreases |a|
  {
    hide PyBlank;
    if a == [] {
      assert a + b == b;
    } else {
      assert (a + b)[1..] == a[1..] + b;
      NonBlankConcat(a[1..], b, first + 1);
      var own, rest := if PyBlank(a[0]) then [] else [Line(first, a[0])], NonBlank(b, first + |a|);
      assert own + (NonBlank(a[1..], first + 1) + rest) == own + NonBlank(a[1..], first + 1) + rest;
      hide NonBlank;
    }
  }

  /** A blank first line adds nothing, any other adds itself. */
  lemma {:induction false} BlankFirst(h: string, t: seq<string>, first: nat)
    requires PyBlank(h)
    ensures NonBlank([h] + t, first) == NonBlank(t, first + 1)
  {
    assert ([h] + t)[1..] == t;
  }

  lemma {:induction false} InkFirst(h: string, t: seq<string>, first: nat)
    requires !PyBlank(h)
    ensures NonBlank([h] + t, first) == [Line(first, h)] + NonBlank(t, first + 1)
  {
    assert ([h] + t)[1..] == t;
  }

  /** What lies before and behind a non-blank line. */
  lemma {:induction false} AroundLine(phys: seq<string>, first: nat, i: nat)
    returns (pre: seq<string>, x: string, post: seq<string>)
    requires i < |NonBlank(phys, first)|
    ensures phys == pre + [x] + post && !PyBlank(x)
    ensures var lines := NonBlank(phys, first);
            && lines[i] == Line(first + |pre|, x)
            && NonBlank(pre, first) == lines[..i] && NonBlank(post, first + |pre| + 1) == lines[i + 1..]
    decreases |phys|
  {
    if phys == [] { NoLines(first); }
    hide NonBlank, PyBlank;
    var h, t := phys[0], phys[1..];
    assert phys == [h] + t;
    if PyBlank(h) {
      BlankFirst(h, t, first);
      pre, x, post := AroundLine(t, first + 1, i);
      BlankFirst(h, pre, first);
      pre := [h] + pre;
    } else {
      InkFirst(h, t, first);
      if i == 0 {
        pre, x, post := [], h, t;
        NoLines(first);
      } else {
        pre, x, post := AroundLine(t, first + 1, i - 1);
        InkFirst(h, pre, first);
        pre := [h] + pre;
      }
    }
  }

  lemma {:induction false} NoLines(first: nat)
    ensures NonBlank([], first) == []
  {
  }

  /** Lines numbered from another start. */
  lemma {:induction false} Renumbered(phys: seq<string>, first: nat)
    ensures |NonBlank(phys, first)| == |NonBlank(phys, first + 1)|
    ensures forall i :: 0 <= i < |NonBlank(phys, first)| ==>
              && NonBlank(phys, first)[i].number + 1 == NonBlank(phys, first + 1)[i].number
              && NonBlank(phys, first)[i].text == NonBlank(phys, first + 1)[i].text
    decreases |phys|
  {
    if phys == [] {
      NoLines(first);
    } else {
      hide NonBlank, PyBlank;
      var h, t := phys[0], phys[1..];
      assert phys == [h] + t;
      Renumbered(t, first + 1);
      if PyBlank(h) {
        BlankFirst(h, t, first);
        BlankFirst(h, t, first + 1);
      } else {
        InkFirst(h, t, first);
        InkFirst(h, t, first + 1);
      }
    }
  }

  /** One line without a line feed in it. */
  lemma {:induction false} OneLine(s: string, first: nat)
    requires NoLf(s)
    ensures SplitLf(s) == [s]
    ensures NonBlank(SplitLf(s), first) == if PyBlank(s) then [] else [Line(first, s)]
  {
    SplitAt(s, "");
    assert [s][1..] == [];
  }
}
