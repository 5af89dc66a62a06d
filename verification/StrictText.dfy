/** Exactly what the strict decoder refuses, said of the text and of the value. */
module StrictText {
  import opened Options
  import opened PyText
  import opened JsonValues
  import opened JsonGrammar
  import opened NumberTokens
  import opened JsonParser
  import opened JsonRoundTrip
  import opened StrictJson

  // ----- Where a text stands outside its strings -----

  datatype Mode = Outside | Inside | Backslash

  function Next(m: Mode, c: char): Mode {
    match m
    case Outside => if c == '"' then Inside else Outside
    case Inside => if c == '\\' then Backslash else if c == '"' then Outside else Inside
    case Backslash => Inside
  }

  function ModeFrom(m: Mode, s: string): Mode
    decreases |s|
  {
    if s == "" then m else ModeFrom(Next(m, s[0]), s[1..])
  }

  lemma {:induction false} ModeConcat(m: Mode, a: string, b: string)
    ensures ModeFrom(m, a + b) == ModeFrom(ModeFrom(m, a), b)
    decreases |a|
  {
    if a == "" {
      assert a + b == b;
    } else {
      assert (a + b)[1..] == a[1..] + b;
      ModeConcat(Next(m, a[0]), a[1..], b);
    }
  }

  // ----- A number that is not finite -----

  /** The number characters `s` starts with. */
  function NumberRun(s: string): string {
    if s != "" && NumberChar(s[0]) then [s[0]] + NumberRun(s[1..]) else ""
  }

  /** A number token of a float that overflows. */
  predicate Overflows(fl: FloatReader, t: string) {
    MatchesNumber(t) && !IntToken(t) && fl(t) == None
  }

  /** At place `i`, outside strings, `NaN`, an infinity or an overflowing float begins. */
  predicate NonFiniteAt(fl: FloatReader, s: string, i: nat) {
    && i < |s| && ModeFrom(Outside, s[..i]) == Outside
    && (s[i] == 'N' || s[i] == 'I' || ((i == 0 || !NumberChar(s[i - 1])) && Overflows(fl, NumberRun(s[i..]))))
  }

  ghost predicate HoldsNonFinite(fl: FloatReader, s: string) {
    exists i: nat :: NonFiniteAt(fl, s, i)
  }

  lemma {:induction false} RunConcat(x: string, b: string)
    requires x != "" && (b == "" || !NumberChar(x[|x| - 1]) || !NumberChar(b[0]))
    ensures NumberRun(x + b) == NumberRun(x)
    decreases |x|
  {
    if NumberChar(x[0]) {
      assert (x + b)[1..] == x[1..] + b;
      if |x| > 1 {
        RunConcat(x[1..], b);
      } else {
        assert x[1..] == "" && (x + b)[1..] == b;
      }
    }
  }

  /** No number goes on from `a` into `b`. */
  predicate Apart(a: string, b: string) {
    a == "" || b == "" || !NumberChar(a[|a| - 1]) || !NumberChar(b[0])
  }

  lemma {:induction false} NonFiniteLeft(fl: FloatReader, a: string, b: string, i: nat)
    requires i < |a| && Apart(a, b)
    ensures NonFiniteAt(fl, a + b, i) <==> NonFiniteAt(fl, a, i)
  {
    assert (a + b)[..i] == a[..i] && (a + b)[i..] == a[i..] + b;
    RunConcat(a[i..], b);
  }

  lemma {:induction false} NonFiniteRight(fl: FloatReader, a: string, b: string, j: nat)
    requires j < |b| && Apart(a, b) && ModeFrom(Outside, a) == Outside
    ensures NonFiniteAt(fl, a + b, |a| + j) <==> NonFiniteAt(fl, b, j)
  {
    var s, i := a + b, |a| + j;
    assert s[..i] == a + b[..j] && s[i..] == b[j..] && s[i] == b[j];
    ModeConcat(Outside, a, b[..j]);
    if j > 0 {
      assert s[i - 1] == b[j - 1];
    } else if a != "" {
      assert s[i - 1] == a[|a| - 1];
      if NumberChar(s[i - 1]) {
        assert !NumberChar(b[0]);
        assert NumberRun(b[j..]) == "";
      }
    }
  }

  /** What a text holds, by its parts. */
  lemma {:induction false} Glue(fl: FloatReader, a: string, b: string)
    requires Apart(a, b) && ModeFrom(Outside, a) == Outside
    ensures HoldsNonFinite(fl, a + b) <==> HoldsNonFinite(fl, a) || HoldsNonFinite(fl, b)
    ensures ModeFrom(Outside, a + b) == ModeFrom(Outside, b)
  {
    hide NumberRun, Overflows, ModeFrom, Apart;
    ModeConcat(Outside, a, b);
    forall i: nat | i < |a| ensures NonFiniteAt(fl, a + b, i) <==> NonFiniteAt(fl, a, i) { NonFiniteLeft(fl, a, b, i); }
    forall j: nat | j < |b| ensures NonFiniteAt(fl, a + b, |a| + j) <==> NonFiniteAt(fl, b, j) {
      NonFiniteRight(fl, a, b, j);
    }
    if i: nat :| NonFiniteAt(fl, a + b, i) {
      if i >= |a| { assert NonFiniteAt(fl, b, i - |a|); }
    }
  }

  // ----- Tokens -----

  /** Whitespace and punctuation. */
  predicate Structural(s: string) {
    forall i :: 0 <= i < |s| ==> IsWs(s[i]) || s[i] in ",:[]{}"
  }

  lemma {:induction false} StructuralQuiet(fl: FloatReader, s: string)
    requires Structural(s)
    ensures ModeFrom(Outside, s) == Outside && !HoldsNonFinite(fl, s)
    decreases |s|
  {
    forall i: nat ensures !NonFiniteAt(fl, s, i) {
      if i < |s| { assert !NumberChar(s[i]) && NumberRun(s[i..]) == ""; }
    }
    if s != "" { StructuralQuiet(fl, s[1..]); }
  }

  lemma {:induction false} WsSplit(s: string) returns (w: string)
    ensures s == w + SkipWs(s) && Blank(w) && Structural(w)
    decreases |s|
  {
    if s != "" && IsWs(s[0]) {
      var u := WsSplit(s[1..]);
      w := [s[0]] + u;
    } else {
      w := "";
    }
  }

  /** One character of a string leaves the scan inside it. */
  lemma {:induction false} CharMode(s: string)
    requires CharLength(s) > 0
    ensures ModeFrom(Inside, s[..CharLength(s)]) == Inside
    ensures forall i :: 0 <= i < CharLength(s) ==> ModeFrom(Inside, s[..i]) != Outside
  {
    var n := CharLength(s);
    if n == 1 {
      OneChar(Inside, s[..1]);
      assert s[..0] == "";
    } else {
      assert s[..0] == "";
      OneChar(Inside, s[..1]);
      ModeConcat(Inside, s[..1], s[1..2]);
      assert s[..1] + s[1..2] == s[..2];
      OneChar(Backslash, s[1..2]);
      if n == 6 {
        forall i | 2 <= i <= 6 ensures ModeFrom(Inside, s[..i]) == Inside {
          HexInside(s[2..i], s);
          ModeConcat(Inside, s[..2], s[2..i]);
          assert s[..2] + s[2..i] == s[..i];
        }
      }
    }
  }

  lemma {:induction false} OneChar(m: Mode, s: string)
    requires |s| == 1
    ensures ModeFrom(m, s) == Next(m, s[0])
  {
    assert s[1..] == "";
  }

  lemma {:induction false} HexInside(x: string, s: string)
    requires |s| >= 6 && AllHex(s[2..6]) && |x| <= 4 && x == s[2..2 + |x|]
    ensures ModeFrom(Inside, x) == Inside
  {
    assert forall i :: 0 <= i < |x| ==> x[i] == s[2..6][i];
    AllHexInside(x);
  }

  lemma {:induction false} AllHexInside(x: string)
    requires AllHex(x)
    ensures ModeFrom(Inside, x) == Inside
    decreases |x|
  {
    if x != "" { AllHexInside(x[1..]); }
  }

  /** No proper prefix leaves the string. */
  ghost predicate Staying(c: string) {
    forall i :: 0 <= i < |c| ==> ModeFrom(Inside, c[..i]) != Outside
  }

  /** The rest of a string token, from inside it. */
  lemma {:induction false} UnitsScan(s: string) returns (c: string)
    requires Units(s).Ok?
    ensures s == c + Units(s).rest && c != "" && ModeFrom(Inside, c) == Outside && Staying(c)
    ensures !HasEscape(c) ==> Clean(Units(s).value)
    decreases |s|
  {
    if s[0] == '"' {
      c := s[..1];
      OneChar(Inside, c);
      assert c[..0] == "";
    } else {
      UnitsMore(s);
      hide *;
      var n := CharLength(s);
      var head := s[..n];
      var tail := UnitsScan(s[n..]);
      c := head + tail;
      HeadMode(s, head);
      ModesOfBoth(head, tail);
      HeadClean(s, head, tail, Units(s[n..]).value);
      Regroup(s, head, tail, Units(s).rest);
    }
  }

  lemma {:induction false} Regroup(s: string, a: string, b: string, c: string)
    requires |a| <= |s| && a == s[..|a|] && s[|a|..] == b + c
    ensures s == a + b + c
  {
    assert s == a + s[|a|..];
    assert a + (b + c) == a + b + c;
  }

  lemma {:induction false} UnitsMore(s: string)
    requires Units(s).Ok? && s[0] != '"'
    ensures 0 < CharLength(s) <= |s| && Units(s[CharLength(s)..]).Ok?
    ensures Units(s) == Ok([Unit(s)] + Units(s[CharLength(s)..]).value, Units(s[CharLength(s)..]).rest)
  {
    hide CharLength, Unit;
  }

  lemma {:induction false} HeadMode(s: string, head: string)
    requires CharLength(s) > 0 && head == s[..CharLength(s)]
    ensures ModeFrom(Inside, head) == Inside && Staying(head)
  {
    hide ModeFrom, CharLength;
    CharMode(s);
    assert forall i :: 0 <= i < |head| ==> head[..i] == s[..i];
  }

  lemma {:induction false} HeadClean(s: string, head: string, tail: string, us: PyStr)
    requires CharLength(s) > 0 && head == s[..CharLength(s)] && (!HasEscape(tail) ==> Clean(us))
    ensures !HasEscape(head + tail) ==> Clean([Unit(s)] + us)
  {
    hide CharLength, Unit, HasEscape;
    if !HasEscape(head + tail) {
      EscapeParts(head, tail);
      UnitClean(s);
    }
  }

  /** Text that stays in the string, in front of the rest of it. */
  lemma {:induction false} ModesOfBoth(head: string, tail: string)
    requires ModeFrom(Inside, head) == Inside && Staying(head) && Staying(tail)
    ensures ModeFrom(Inside, head + tail) == ModeFrom(Inside, tail) && Staying(head + tail)
  {
    hide ModeFrom;
    var c := head + tail;
    ModeConcat(Inside, head, tail);
    forall i | 0 <= i < |c| ensures ModeFrom(Inside, c[..i]) != Outside {
      if i < |head| {
        assert c[..i] == head[..i];
      } else {
        assert c[..i] == head + tail[..i - |head|];
        ModeConcat(Inside, head, tail[..i - |head|]);
      }
    }
  }

  lemma {:induction false} EscapeParts(a: string, b: string)
    requires !HasEscape(a + b)
    ensures !HasEscape(a) && !HasEscape(b)
  {
    var s := a + b;
    forall i | 0 <= i < |a| - 1 ensures !(a[i] == '\\' && (a[i + 1] == 'u' || a[i + 1] == 'U')) {
      assert s[i] == a[i] && s[i + 1] == a[i + 1];
    }
    forall i | 0 <= i < |b| - 1 ensures !(b[i] == '\\' && (b[i + 1] == 'u' || b[i + 1] == 'U')) {
      assert s[|a| + i] == b[i] && s[|a| + i + 1] == b[i + 1];
    }
  }

  lemma {:induction false} UnitClean(s: string)
    requires CharLength(s) > 0 && !HasEscape(s[..CharLength(s)])
    ensures !Surrogate(Unit(s))
  {
    var h := s[..CharLength(s)];
    if s[0] == '\\' { assert h[0] == '\\' && h[1] == s[1]; }
  }

  lemma {:induction false} JoinClean(us: PyStr)
    requires Clean(us)
    ensures Clean(JoinPairs(us))
    decreases |us|
  {
    if us != [] {
      assert !Surrogate(us[0]);
      JoinClean(us[1..]);
    }
  }

  /** A string token. */
  lemma {:induction false} StringScan(fl: FloatReader, s: string) returns (c: string)
    requires s != "" && s[0] == '"' && ParseString(s[1..]).Ok?
    ensures s == c + ParseString(s[1..]).rest && c != "" && c[0] == '"'
    ensures ModeFrom(Outside, c) == Outside && !HoldsNonFinite(fl, c)
    ensures !HasEscape(c) ==> Clean(ParseString(s[1..]).value)
  {
    hide *;
    StringUnits(s[1..]);
    var tail := UnitsScan(s[1..]);
    c := ['"'] + tail;
    QuotedMode(tail);
    QuotedQuiet(fl, tail);
    if !HasEscape(c) {
      EscapeParts(['"'], tail);
      JoinClean(Units(s[1..]).value);
    }
    Regroup(s, ['"'], tail, ParseString(s[1..]).rest);
  }

  lemma {:induction false} StringUnits(s: string)
    requires ParseString(s).Ok?
    ensures Units(s).Ok? && ParseString(s) == Ok(JoinPairs(Units(s).value), Units(s).rest)
  {
    hide Units, JoinPairs;
  }

  lemma {:induction false} QuotedMode(tail: string)
    ensures ModeFrom(Outside, ['"'] + tail) == ModeFrom(Inside, tail)
  {
    assert (['"'] + tail)[1..] == tail;
  }

  /** Text behind an opening quote that stays inside until its end. */
  lemma {:induction false} QuotedQuiet(fl: FloatReader, tail: string)
    requires Staying(tail)
    ensures !HoldsNonFinite(fl, ['"'] + tail)
  {
    var c := ['"'] + tail;
    NoToken("");
    hide MatchesNumber;
    forall i: nat ensures !NonFiniteAt(fl, c, i) {
      if i == 0 {
        assert !NumberChar(c[0]) && NumberRun(c[0..]) == "";
      } else if i < |c| {
        assert c[..i][1..] == tail[..i - 1] && c[..i][0] == '"';
        assert ModeFrom(Outside, c[..i]) == ModeFrom(Inside, tail[..i - 1]);
      }
    }
  }

  lemma {:induction false} NoQuotes(s: string)
    requires '"' !in s
    ensures ModeFrom(Outside, s) == Outside
    decreases |s|
  {
    if s != "" { NoQuotes(s[1..]); }
  }

  lemma {:induction false} NoToken(t: string)
    requires t == "" || (t[0] != '-' && !Digit(t[0]))
    ensures !MatchesNumber(t)
  {
    if t != "" { RunDead(t[1..]); }
  }

  /** Letters in which no number begins. */
  lemma {:induction false} LettersQuiet(fl: FloatReader, s: string)
    requires forall i :: 0 <= i < |s| ==> s[i] !in "\"-NI" && !Digit(s[i])
    ensures ModeFrom(Outside, s) == Outside && !HoldsNonFinite(fl, s)
  {
    NoQuotes(s);
    forall i: nat ensures !NonFiniteAt(fl, s, i) {
      if i < |s| { NoToken(NumberRun(s[i..])); }
    }
  }

  lemma {:induction false} RunOfToken(t: string)
    requires forall i :: 0 <= i < |t| ==> NumberChar(t[i])
    ensures NumberRun(t) == t
    decreases |t|
  {
    if t != "" { RunOfToken(t[1..]); }
  }

  lemma {:induction false} TokenScan(fl: FloatReader, t: string)
    requires t != "" && MatchesNumber(t)
    ensures ModeFrom(Outside, t) == Outside
    ensures HoldsNonFinite(fl, t) <==> NumberValue(fl, t).NonFinite?
  {
    NumberChars(Start, t);
    NoQuotes(t);
    RunOfToken(t);
    assert t[..0] == "" && t[0..] == t;
    assert NonFiniteAt(fl, t, 0) <==> Overflows(fl, t);
    forall i: nat | i > 0 ensures !NonFiniteAt(fl, t, i) {
      if i < |t| { assert NumberChar(t[i]) && NumberChar(t[i - 1]); }
    }
    hide NumberRun, ModeFrom, MatchesNumber;
  }

  lemma {:induction false} ConstantScan(fl: FloatReader, w: string)
    requires w == "NaN" || w == "Infinity" || w == "-Infinity"
    ensures ModeFrom(Outside, w) == Outside && HoldsNonFinite(fl, w)
  {
    NoQuotes(w);
    assert w[..0] == "";
    assert w == "-Infinity" ==> w[1] == 'I';
    if w == "-Infinity" {
      OneChar(Outside, w[..1]);
      assert NonFiniteAt(fl, w, 1);
    } else {
      assert NonFiniteAt(fl, w, 0);
    }
  }

  // ----- Values -----

  /** No float that is not finite anywhere. */
  predicate Finite(v: Json) {
    match v
    case NonFinite(_) => false
    case Arr(items) => forall i :: 0 <= i < |items| ==> Finite(items[i])
    case Obj(fields) => forall k :: k in fields ==> Finite(fields[k])
    case _ => true
  }

  /** A literal. */
  lemma {:induction false} LiteralScan(fl: FloatReader, s: string) returns (c: string)
    requires "null" <= s || "true" <= s || "false" <= s
    ensures ParseValue(fl, s).Ok? && s == c + ParseValue(fl, s).rest && c != "" && ModeFrom(Outside, c) == Outside
    ensures !HoldsNonFinite(fl, c) && (ParseValue(fl, s).value.Null? || ParseValue(fl, s).value.Bool?)
  {
    c := s[..if "false" <= s then 5 else 4];
    LettersQuiet(fl, c);
    hide HoldsNonFinite, ModeFrom, ParseNumber;
  }

  lemma {:induction false} NumberScan(fl: FloatReader, s: string) returns (c: string)
    requires ParseNumber(fl, s).Ok?
    ensures s == c + ParseNumber(fl, s).rest && c != "" && ModeFrom(Outside, c) == Outside
    ensures HoldsNonFinite(fl, c) <==> ParseNumber(fl, s).value.NonFinite?
    ensures var v := ParseNumber(fl, s).value; v.Int? || v.Float? || v.NonFinite?
  {
    hide HoldsNonFinite, ModeFrom, Accepting, Run;
    c := s[..|s| - |ParseNumber(fl, s).rest|];
    if Longest(Start, s).Some? {
      LongestAccepts(Start, s);
      TokenScan(fl, c);
    } else {
      ConstantScan(fl, c);
    }
    hide Longest, MatchesNumber;
  }

  /** A scalar that is no string. */
  lemma {:induction false} ScalarScan(fl: FloatReader, s: string) returns (c: string)
    requires s != "" && s[0] != '"' && s[0] != '{' && s[0] != '[' && ParseValue(fl, s).Ok?
    ensures s == c + ParseValue(fl, s).rest && c != "" && ModeFrom(Outside, c) == Outside
    ensures HoldsNonFinite(fl, c) <==> ParseValue(fl, s).value.NonFinite?
    ensures !ParseValue(fl, s).value.Str? && !ParseValue(fl, s).value.Arr? && !ParseValue(fl, s).value.Obj?
  {
    if "null" <= s || "true" <= s || "false" <= s {
      c := LiteralScan(fl, s);
    } else {
      NumberCase(fl, s);
      hide *;
      c := NumberScan(fl, s);
    }
  }

  /** What a scan of `c` finds: whether the decoder meets a number that is not finite, and, when it does not, what it
      builds. */
  ghost predicate Scans(fl: FloatReader, c: string, met: bool, finite: bool, clean: bool) {
    && c != "" && ModeFrom(Outside, c) == Outside
    && (met <==> HoldsNonFinite(fl, c))
    && (!met ==> finite)
    && (!HasEscape(c) ==> clean)
  }

  lemma {:induction false} ValueScan(fl: FloatReader, s: string) returns (c: string)
    requires ParseValue(fl, s).Ok?
    ensures var v, rest := ParseValue(fl, s).value, ParseValue(fl, s).rest;
            s == c + rest && Scans(fl, c, MeetsValue(fl, s), Finite(v), CleanTree(v))
    decreases |s|, 1
  {
    if s[0] == '"' {
      c := StringScan(fl, s);
    } else if s[0] == '{' {
      c := ObjectScan(fl, s);
    } else if s[0] == '[' {
      c := ArrayScan(fl, s);
    } else {
      c := ScalarScan(fl, s);
      hide HoldsNonFinite, ModeFrom;
    }
  }

  lemma {:induction false} PunctuationScans(fl: FloatReader, c: string)
    requires c != "" && Structural(c)
    ensures Scans(fl, c, false, true, true)
  {
    hide HoldsNonFinite, ModeFrom, HasEscape, Structural;
    StructuralQuiet(fl, c);
  }

  /** Punctuation in front changes nothing. */
  lemma {:induction false} PrefixScans(fl: FloatReader, p: string, d: string, met: bool, finite: bool, clean: bool)
    requires p != "" && Structural(p) && Scans(fl, d, met, finite, clean)
    ensures Scans(fl, p + d, met, finite, clean)
  {
    assert !NumberChar(p[|p| - 1]);
    hide HoldsNonFinite, ModeFrom, HasEscape, Structural;
    StructuralQuiet(fl, p);
    Glue(fl, p, d);
    if !HasEscape(p + d) { EscapeParts(p, d); }
  }

  lemma {:induction false} ArrayParts(fl: FloatReader, s: string) returns (r: string)
    requires s != "" && s[0] == '[' && ParseValue(fl, s).Ok?
    ensures r == SkipWs(s[1..]) && r != "" && ParseValue(fl, s).value.Arr? && |r| < |s|
    ensures var v, rest := ParseValue(fl, s).value, ParseValue(fl, s).rest;
            (r[0] == ']' && v == Arr([]) && rest == r[1..] && !MeetsValue(fl, s)) ||
            (ParseItems(fl, r) == Ok(v.items, rest) && (MeetsValue(fl, s) <==> MeetsItems(fl, r)))
  {
    r := SkipWs(s[1..]);
    hide MeetsItems, ParseItems;
  }

  /** The bracket a container opens with, and the whitespace behind it. */
  lemma {:induction false} OpenScan(s: string, open: char) returns (p: string)
    requires s != "" && s[0] == open && open in "[{"
    ensures p != "" && Structural(p) && s == p + SkipWs(s[1..])
  {
    hide SkipWs, Blank, Structural;
    var w := WsSplit(s[1..]);
    p := [open] + w;
    Punctuated("", open, p, w);
  }

  /** An empty container. */
  lemma {:induction false} EmptyScan(fl: FloatReader, p: string, close: char, r: string) returns (c: string)
    requires p != "" && Structural(p) && close in "]}" && r != "" && r[0] == close
    ensures p + r == c + r[1..] && Scans(fl, c, false, true, true)
  {
    hide Structural, Scans;
    c := p + [close];
    Punctuated(p, close, c, "");
    PunctuationScans(fl, c);
  }

  lemma {:induction false} ArrayScan(fl: FloatReader, s: string) returns (c: string)
    requires s != "" && s[0] == '[' && ParseValue(fl, s).Ok?
    ensures var v, rest := ParseValue(fl, s).value, ParseValue(fl, s).rest;
            s == c + rest && Scans(fl, c, MeetsValue(fl, s), Finite(v), CleanTree(v))
    decreases |s|, 0
  {
    hide *;
    var v, rest := ParseValue(fl, s).value, ParseValue(fl, s).rest;
    var r := ArrayParts(fl, s);
    var p := OpenScan(s, '[');
    ContainersAre(v);
    if r[0] == ']' && rest == r[1..] && v == Arr([]) && !MeetsValue(fl, s) {
      c := EmptyScan(fl, p, ']', r);
    } else {
      var d := ItemsScan(fl, r);
      c := p + d;
      assert s == c + rest;
      PrefixScans(fl, p, d, MeetsItems(fl, r), FiniteItems(v.items), CleanItems(v.items));
    }
  }

  lemma {:induction false} ContainersAre(v: Json)
    ensures v.Arr? ==> (Finite(v) <==> FiniteItems(v.items)) && (CleanTree(v) <==> CleanItems(v.items))
    ensures v.Obj? ==> (Finite(v) <==> FiniteFields(v.fields)) && (CleanTree(v) <==> CleanFields(v.fields))
    ensures FiniteItems([]) && CleanItems([]) && FiniteFields(map[]) && CleanFields(map[])
  {
    hide Clean;
  }

  /** A value, the punctuation `m` behind it, and the scanned `d` behind that. */
  lemma {:induction false} ValueThen(fl: FloatReader, s: string, m: string, d: string, t: string)
      returns (e: string)
    requires ParseValue(fl, s).Ok? && ParseValue(fl, s).rest == m + (d + t) && m != "" && Structural(m)
    requires ModeFrom(Outside, d) == Outside
    ensures s == e + t && e != "" && ModeFrom(Outside, e) == Outside
    ensures HoldsNonFinite(fl, e) <==> MeetsValue(fl, s) || HoldsNonFinite(fl, d)
    ensures !MeetsValue(fl, s) ==> Finite(ParseValue(fl, s).value)
    ensures !HasEscape(e) ==> CleanTree(ParseValue(fl, s).value) && !HasEscape(d)
    decreases |s|, 2
  {
    hide ParseValue, MeetsValue, Finite, CleanTree;
    var c := ValueScan(fl, s);
    e := c + (m + d);
    assert s == c + (m + (d + t)) == e + t;
    StructuralQuiet(fl, m);
    assert !NumberChar(m[0]) && !NumberChar(m[|m| - 1]);
    Glue(fl, m, d);
    assert (m + d)[0] == m[0];
    Glue(fl, c, m + d);
    if !HasEscape(e) {
      EscapeParts(c, m + d);
      EscapeParts(m, d);
    }
    hide HoldsNonFinite, ModeFrom, HasEscape;
  }

  ghost predicate FiniteItems(vs: seq<Json>) {
    forall i :: 0 <= i < |vs| ==> Finite(vs[i])
  }

  ghost predicate CleanItems(vs: seq<Json>) {
    forall i :: 0 <= i < |vs| ==> CleanTree(vs[i])
  }

  /** From what `ValueThen` finds to a scan. */
  lemma {:induction false} ScanOf(fl: FloatReader, e: string, first: bool, d: string, later: bool, finite: bool,
                                  clean: bool)
    requires e != "" && ModeFrom(Outside, e) == Outside
    requires HoldsNonFinite(fl, e) <==> first || HoldsNonFinite(fl, d)
    requires (later <==> HoldsNonFinite(fl, d)) && (!first && !later ==> finite)
    requires !HasEscape(e) ==> clean
    ensures Scans(fl, e, first || later, finite, clean)
  {
    hide HoldsNonFinite, ModeFrom, HasEscape;
  }

  lemma {:induction false} ItemsMore(v: Json, vs: seq<Json>)
    requires vs != [] && vs[0] == v
    ensures FiniteItems(vs) <==> Finite(v) && FiniteItems(vs[1..])
    ensures CleanItems(vs) <==> CleanTree(v) && CleanItems(vs[1..])
  {
    hide Finite, CleanTree;
    assert vs == [v] + vs[1..];
  }

  lemma {:induction false} ItemsScan(fl: FloatReader, s: string) returns (e: string)
    requires ParseItems(fl, s).Ok?
    ensures var vs, rest := ParseItems(fl, s).value, ParseItems(fl, s).rest;
            s == e + rest && Scans(fl, e, MeetsItems(fl, s), FiniteItems(vs), CleanItems(vs))
    decreases |s|, 3
  {
    hide HoldsNonFinite, ModeFrom, HasEscape, MeetsValue, MeetsItems, ParseValue, ParseItems, Finite, CleanTree,
      SkipWs, Structural, FiniteItems, CleanItems;
    var vs, rest := ParseItems(fl, s).value, ParseItems(fl, s).rest;
    var v, r, x := ItemsCases(fl, s, vs, rest);
    var w := WsSplit(r);
    ItemsMet(fl, s, v, r, x);
    ItemsMore(v, vs);
    var m, d, later := w + [x[0]], "", false;
    if x[0] == ']' {
      EmptyQuiet(fl);
      ContainersAre(v);
      assert vs[1..] == [];
    } else {
      var y := SkipWs(x[1..]);
      var w' := WsSplit(x[1..]);
      SkipShorter(x[1..]);
      d := ItemsScan(fl, y);
      m, later := w + [x[0]] + w', MeetsItems(fl, y);
      assert x[1..] == w' + (d + rest);
    }
    Punctuated(w, x[0], m, m[|w| + 1..]);
    assert r == m + (d + rest);
    e := ValueThen(fl, s, m, d, rest);
    ScanOf(fl, e, MeetsValue(fl, s), d, later, FiniteItems(vs), CleanItems(vs));
  }

  lemma {:induction false} SkipShorter(s: string)
    ensures |SkipWs(s)| <= |s|
  {
  }

  lemma {:induction false} Punctuated(w: string, c: char, m: string, w': string)
    requires (w == "" || Structural(w)) && (w' == "" || Structural(w')) && c in ",:[]{}" && m == w + [c] + w'
    ensures Structural(m)
  {
  }

  lemma {:induction false} EmptyQuiet(fl: FloatReader)
    ensures ModeFrom(Outside, "") == Outside && !HoldsNonFinite(fl, "")
  {
  }

  lemma {:induction false} ItemsMet(fl: FloatReader, s: string, v: Json, r: string, x: string)
    requires ParseValue(fl, s) == Ok(v, r) && SkipWs(r) == x && x != "" && (x[0] == ']' || x[0] == ',')
    ensures MeetsItems(fl, s) <==> MeetsValue(fl, s) || (x[0] == ',' && MeetsItems(fl, SkipWs(x[1..])))
  {
    hide ParseValue, MeetsValue;
  }

  lemma {:induction false} NameScan(fl: FloatReader, s: string) returns (c: string)
    requires ParseName(s).Ok?
    ensures s == c + ParseName(s).rest && c != "" && !NumberChar(c[|c| - 1])
    ensures ModeFrom(Outside, c) == Outside && !HoldsNonFinite(fl, c)
    ensures !HasEscape(c) ==> Clean(ParseName(s).value)
  {
    hide HoldsNonFinite, ModeFrom, HasEscape, ParseString, SkipWs, Structural, Blank;
    var t := StringScan(fl, s);
    var rest := ParseString(s[1..]).rest;
    var w := WsSplit(rest);
    var r := SkipWs(rest);
    var w' := WsSplit(r[1..]);
    var m := w + [':'] + w';
    c := t + m;
    assert r == [':'] + r[1..];
    assert rest == m + SkipWs(r[1..]);
    Punctuated(w, ':', m, w');
    StructuralQuiet(fl, m);
    StructuralEnds(m);
    Glue(fl, t, m);
    if !HasEscape(c) { EscapeParts(t, m); }
  }

  lemma {:induction false} StructuralEnds(m: string)
    requires m != "" && Structural(m)
    ensures !NumberChar(m[0]) && !NumberChar(m[|m| - 1])
  {
  }

  ghost predicate FiniteFields(o: map<PyStr, Json>) {
    forall k :: k in o ==> Finite(o[k])
  }

  ghost predicate CleanFields(o: map<PyStr, Json>) {
    forall k :: k in o ==> Clean(k) && CleanTree(o[k])
  }

  lemma {:induction false} FieldsMore(k: PyStr, v: Json, acc: map<PyStr, Json>)
    ensures Finite(v) && FiniteFields(acc) ==> FiniteFields(acc[k := v])
    ensures Clean(k) && CleanTree(v) && CleanFields(acc) ==> CleanFields(acc[k := v])
  {
    hide Finite, CleanTree, Clean;
  }

  /** A quiet name in front. */
  lemma {:induction false} NameThen(fl: FloatReader, c: string, tail: string, met: bool)
    requires c != "" && !NumberChar(c[|c| - 1]) && ModeFrom(Outside, c) == Outside && !HoldsNonFinite(fl, c)
    requires tail != "" && ModeFrom(Outside, tail) == Outside && (met <==> HoldsNonFinite(fl, tail))
    ensures ModeFrom(Outside, c + tail) == Outside && (met <==> HoldsNonFinite(fl, c + tail))
    ensures !HasEscape(c + tail) ==> !HasEscape(c) && !HasEscape(tail)
  {
    hide HoldsNonFinite, ModeFrom, HasEscape;
    Glue(fl, c, tail);
    if !HasEscape(c + tail) { EscapeParts(c, tail); }
  }

  lemma {:induction false} MembersScan(fl: FloatReader, s: string, acc: map<PyStr, Json>) returns (e: string)
    requires ParseMembers(fl, s, acc).Ok?
    ensures var fields, rest := ParseMembers(fl, s, acc).value, ParseMembers(fl, s, acc).rest;
            s == e + rest && Scans(fl, e, MeetsMembers(fl, s), FiniteFields(acc) ==> FiniteFields(fields),
                                   CleanFields(acc) ==> CleanFields(fields))
    decreases |s|, 3
  {
    hide HoldsNonFinite, ModeFrom, HasEscape, MeetsValue, MeetsMembers, ParseValue, ParseMembers, ParseName, Finite,
      CleanTree, Clean, SkipWs, Structural, FiniteFields, CleanFields, NumberChar;
    var fields, rest := ParseMembers(fl, s, acc).value, ParseMembers(fl, s, acc).rest;
    var k, n, v, r, x := MembersCases(fl, s, acc, fields, rest);
    var c := NameScan(fl, s);
    var w := WsSplit(r);
    MembersMet(fl, s, k, n, v, r, x);
    FieldsMore(k, v, acc);
    var m, d, later := w + [x[0]], "", false;
    if x[0] == '}' {
      EmptyQuiet(fl);
    } else {
      var y := SkipWs(x[1..]);
      var w' := WsSplit(x[1..]);
      SkipShorter(x[1..]);
      d := MembersScan(fl, y, acc[k := v]);
      m, later := w + [x[0]] + w', MeetsMembers(fl, y);
      assert x[1..] == w' + (d + rest);
    }
    Punctuated(w, x[0], m, m[|w| + 1..]);
    assert r == m + (d + rest);
    var tail := ValueThen(fl, n, m, d, rest);
    e := c + tail;
    assert s == c + (tail + rest) == e + rest;
    NameThen(fl, c, tail, MeetsValue(fl, n) || later);
    ScanOf(fl, e, MeetsValue(fl, n), d, later, FiniteFields(acc) ==> FiniteFields(fields),
           CleanFields(acc) ==> CleanFields(fields));
  }

  lemma {:induction false} MembersMet(fl: FloatReader, s: string, k: PyStr, n: string, v: Json, r: string, x: string)
    requires ParseName(s) == Ok(k, n) && ParseValue(fl, n) == Ok(v, r)
    requires SkipWs(r) == x && x != "" && (x[0] == '}' || x[0] == ',')
    ensures MeetsMembers(fl, s) <==> MeetsValue(fl, n) || (x[0] == ',' && MeetsMembers(fl, SkipWs(x[1..])))
  {
    hide ParseValue, MeetsValue, ParseName;
  }

  lemma {:induction false} ObjectParts(fl: FloatReader, s: string) returns (r: string)
    requires s != "" && s[0] == '{' && ParseValue(fl, s).Ok?
    ensures r == SkipWs(s[1..]) && r != "" && ParseValue(fl, s).value.Obj? && |r| < |s|
    ensures var v, rest := ParseValue(fl, s).value, ParseValue(fl, s).rest;
            (r[0] == '}' && v == Obj(map[]) && rest == r[1..] && !MeetsValue(fl, s)) ||
            (ParseMembers(fl, r, map[]) == Ok(v.fields, rest) && (MeetsValue(fl, s) <==> MeetsMembers(fl, r)))
  {
    r := SkipWs(s[1..]);
    hide MeetsMembers, ParseMembers;
  }

  lemma {:induction false} ObjectScan(fl: FloatReader, s: string) returns (c: string)
    requires s != "" && s[0] == '{' && ParseValue(fl, s).Ok?
    ensures var v, rest := ParseValue(fl, s).value, ParseValue(fl, s).rest;
            s == c + rest && Scans(fl, c, MeetsValue(fl, s), Finite(v), CleanTree(v))
    decreases |s|, 0
  {
    hide *;
    var v, rest := ParseValue(fl, s).value, ParseValue(fl, s).rest;
    var r := ObjectParts(fl, s);
    var p := OpenScan(s, '{');
    ContainersAre(v);
    if r[0] == '}' && rest == r[1..] && v == Obj(map[]) && !MeetsValue(fl, s) {
      c := EmptyScan(fl, p, '}', r);
    } else {
      var d := MembersScan(fl, r, map[]);
      c := p + d;
      assert s == c + rest;
      PrefixScans(fl, p, d, MeetsMembers(fl, r), FiniteFields(map[]) ==> FiniteFields(v.fields),
                  CleanFields(map[]) ==> CleanFields(v.fields));
    }
  }

  // ----- The decoder -----

  /** A value has canonical bytes exactly when it is finite and its strings hold no lone surrogate. */
  lemma {:induction false} EncodableIff(v: Json)
    ensures Encodable(v) <==> Finite(v) && CleanTree(v)
  {
    hide Clean;
    match v
    case Arr(items) =>
      forall i | 0 <= i < |items| ensures Encodable(items[i]) <==> Finite(items[i]) && CleanTree(items[i]) {
        EncodableIff(items[i]);
      }
    case Obj(fields) =>
      forall k | k in fields ensures Encodable(fields[k]) <==> Finite(fields[k]) && CleanTree(fields[k]) {
        EncodableIff(fields[k]);
      }
    case _ =>
  }

  lemma {:induction false} BlankRest(s: string)
    requires SkipWs(s) == ""
    ensures Structural(s)
  {
    var w := WsSplit(s);
    assert s == w;
  }

  /** A text that decodes, by its parts. */
  lemma {:induction false} TextScan(fl: FloatReader, text: string)
    requires Loads(fl, text).Some?
    ensures MeetsValue(fl, SkipWs(text)) <==> HoldsNonFinite(fl, text)
    ensures !HoldsNonFinite(fl, text) ==> Finite(Loads(fl, text).value)
    ensures !HasEscape(text) ==> CleanTree(Loads(fl, text).value)
  {
    var s := SkipWs(text);
    var w := WsSplit(text);
    var c := ValueScan(fl, s);
    var rest := ParseValue(fl, s).rest;
    BlankRest(rest);
    hide HoldsNonFinite, ModeFrom, HasEscape, MeetsValue, ParseValue, Finite, CleanTree, Structural;
    StructuralQuiet(fl, w);
    StructuralQuiet(fl, rest);
    EndsApart(w, c);
    EndsApart(rest, c);
    Glue(fl, c, rest);
    EndsApart(w, c + rest);
    Glue(fl, w, c + rest);
    assert text == w + (c + rest);
    if !HasEscape(text) {
      EscapeParts(w, c + rest);
      EscapeParts(c, rest);
    }
  }

  lemma {:induction false} EndsApart(w: string, c: string)
    requires Structural(w)
    ensures Apart(w, c) && Apart(c, w)
  {
    assert w != "" ==> !NumberChar(w[0]) && !NumberChar(w[|w| - 1]);
  }

  /** The strict decoder gives a value exactly when the plain one does, the text holds no number outside strings that is
      not finite, even under a name that is repeated later, and the value holds no lone surrogate. */
  lemma {:induction false} StrictMeans(fl: FloatReader, text: string, v: Json)
    ensures StrictLoads(fl, text) == Some(v) <==>
            Loads(fl, text) == Some(v) && !HoldsNonFinite(fl, text) && CleanTree(v)
  {
    if Loads(fl, text).Some? { TextScan(fl, text); }
    hide Loads, MeetsValue, CleanTree, HasEscape, HoldsNonFinite;
  }

  /** What it gives has canonical bytes. */
  lemma {:induction false} StrictEncodable(fl: FloatReader, text: string)
    ensures StrictLoads(fl, text).Some? ==> Encodable(StrictLoads(fl, text).value)
  {
    if StrictLoads(fl, text).Some? {
      var v := StrictLoads(fl, text).value;
      StrictMeans(fl, text, v);
      TextScan(fl, text);
      EncodableIff(v);
    }
    hide StrictLoads, Loads, MeetsValue, CleanTree, HasEscape, HoldsNonFinite, Finite, Encodable;
  }
}
