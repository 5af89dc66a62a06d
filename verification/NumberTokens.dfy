/** Numbers as a finite automaton: how the two number patterns of the recogniser are decided. */
module NumberTokens {
  import opened JsonGrammar

  datatype State = Start | Minus | Zero | Int | Dot | Frac | Exp | Sign | ExpInt | Dead

  function Step(q: State, c: char): State {
    match q
    case Start => if c == '-' then Minus else if c == '0' then Zero else if Digit(c) then Int else Dead
    case Minus => if c == '0' then Zero else if Digit(c) then Int else Dead
    case Zero => if c == '.' then Dot else if c == 'e' || c == 'E' then Exp else Dead
    case Int => if Digit(c) then Int else if c == '.' then Dot else if c == 'e' || c == 'E' then Exp else Dead
    case Dot => if Digit(c) then Frac else Dead
    case Frac => if Digit(c) then Frac else if c == 'e' || c == 'E' then Exp else Dead
    case Exp => if c == '+' || c == '-' then Sign else if Digit(c) then ExpInt else Dead
    case Sign => if Digit(c) then ExpInt else Dead
    case ExpInt => if Digit(c) then ExpInt else Dead
    case Dead => Dead
  }

  function Run(q: State, s: string): State
    decreases |s|
  {
    if s == "" then q else Run(Step(q, s[0]), s[1..])
  }

  predicate Accepting(q: State) {
    q.Zero? || q.Int? || q.Frac? || q.ExpInt?
  }

  /** `_NUMBER.fullmatch(s)` */
  predicate MatchesNumber(s: string) {
    Accepting(Run(Start, s))
  }

  /** `_CUT_NUMBER.fullmatch(s)` */
  predicate MatchesCutNumber(s: string) {
    !Run(Start, s).Dead?
  }

  /** The characters of `_NUMBER_RUN`. */
  predicate NumberChar(c: char) {
    Digit(c) || c == '-' || c == '+' || c == '.' || c == 'e' || c == 'E'
  }

  lemma {:induction false} RunConcat(q: State, a: string, b: string)
    ensures Run(q, a + b) == Run(Run(q, a), b)
    decreases |a|
  {
    if a == "" {
      assert a + b == b;
    } else {
      assert (a + b)[1..] == a[1..] + b;
      RunConcat(Step(q, a[0]), a[1..], b);
    }
  }

  lemma {:induction false} RunDead(s: string)
    ensures Run(Dead, s) == Dead
    decreases |s|
  {
    if s != "" { RunDead(s[1..]); }
  }

  lemma {:induction false} RunDigits(q: State, s: string)
    requires AllDigits(s)
    requires q.Int? || q.Frac? || q.ExpInt?
    ensures Run(q, s) == q
    decreases |s|
  {
    if s != "" { RunDigits(q, s[1..]); }
  }

  /** A number's parts drive the automaton to an accepting state. */
  lemma {:induction false} PartsAccepted(m: string, i: string, f: string, e: string)
    requires NumberParts(m, i, f, e)
    ensures MatchesNumber(m + i + f + e)
  {
    var q1 := Run(Start, m);
    if m == "-" { assert m[1..] == "" && Run(Minus, m[1..]) == Minus; }
    RunConcat(Start, m, i);
    IntAccepted(q1, i);
    RunConcat(Start, m + i, f);
    FracAccepted(Run(q1, i), f);
    RunConcat(Start, m + i + f, e);
    ExpAccepted(Run(Run(q1, i), f), e);
  }

  lemma {:induction false} IntAccepted(q: State, i: string)
    requires q.Start? || q.Minus?
    requires IsInt(i)
    ensures Run(q, i) == if i == "0" then Zero else Int
  {
    if i == "0" {
      assert i[1..] == "" && Run(Zero, i[1..]) == Zero;
    } else {
      RunDigits(Int, i[1..]);
    }
  }

  lemma {:induction false} FracAccepted(q: State, f: string)
    requires q.Zero? || q.Int?
    requires f == "" || IsFrac(f)
    ensures Run(q, f) == if f == "" then q else Frac
  {
    if f != "" {
      var d := f[1..];
      assert Run(q, f) == Run(Dot, d) == Run(Frac, d[1..]);
      RunDigits(Frac, d[1..]);
    }
  }

  lemma {:induction false} ExpAccepted(q: State, e: string)
    requires q.Zero? || q.Int? || q.Frac?
    requires e == "" || IsExp(e)
    ensures Run(q, e) == if e == "" then q else ExpInt
  {
    if e != "" {
      var d := e[1..];
      assert Run(q, e) == Run(Exp, d);
      if Digits(d) {
        RunDigits(ExpInt, d[1..]);
      } else {
        assert d[1..] == e[2..] && Run(Exp, d) == Run(Sign, e[2..]) == Run(ExpInt, e[2..][1..]);
        RunDigits(ExpInt, e[2..][1..]);
      }
    }
  }

  lemma {:induction false} AcceptedExpInt(q: State, s: string)
    requires q.Exp? || q.Sign? || q.ExpInt?
    requires Accepting(Run(q, s))
    ensures q.ExpInt? ==> AllDigits(s)
    ensures q.Sign? ==> Digits(s)
    ensures q.Exp? ==> Digits(s) || (s != "" && (s[0] == '+' || s[0] == '-') && Digits(s[1..]))
    decreases |s|
  {
    if s != "" {
      RunDead(s[1..]);
      AcceptedExpInt(Step(q, s[0]), s[1..]);
    }
  }

  lemma {:induction false} AcceptedExp(c: char, s: string)
    requires c == 'e' || c == 'E'
    requires Accepting(Run(Exp, s))
    ensures IsExp([c] + s)
  {
    AcceptedExpInt(Exp, s);
    assert ([c] + s)[1..] == s;
    if |s| > 0 { assert ([c] + s)[2..] == s[1..]; }
  }

  lemma {:induction false} AcceptedFrac(q: State, s: string) returns (d: string, e: string)
    requires q.Dot? || q.Frac?
    requires Accepting(Run(q, s))
    ensures s == d + e && AllDigits(d) && (e == "" || IsExp(e))
    ensures q.Dot? ==> d != ""
    decreases |s|
  {
    d, e := "", s;
    if s != "" {
      RunDead(s[1..]);
      assert s == [s[0]] + s[1..];
      if Step(q, s[0]).Exp? {
        AcceptedExp(s[0], s[1..]);
      } else {
        d, e := AcceptedFrac(Step(q, s[0]), s[1..]);
        d := [s[0]] + d;
      }
    }
  }

  lemma {:induction false} AcceptedInt(q: State, s: string) returns (d: string, f: string, e: string)
    requires q.Zero? || q.Int?
    requires Accepting(Run(q, s))
    ensures s == d + f + e && AllDigits(d) && (q.Zero? ==> d == "")
    ensures (f == "" || IsFrac(f)) && (e == "" || IsExp(e))
    decreases |s|
  {
    d, f, e := "", "", s;
    if s != "" {
      RunDead(s[1..]);
      assert s == [s[0]] + s[1..];
      if Step(q, s[0]).Exp? {
        AcceptedExp(s[0], s[1..]);
      } else if Step(q, s[0]).Dot? {
        f, e := AcceptedFrac(Dot, s[1..]);
        assert (['.'] + f)[1..] == f;
        f := ['.'] + f;
      } else {
        d, f, e := AcceptedInt(Step(q, s[0]), s[1..]);
        d := [s[0]] + d;
      }
    }
  }

  /** The optional sign a number starts with. */
  function SignOf(s: string): string {
    if s != "" && s[0] == '-' then "-" else ""
  }

  lemma {:induction false} SignSplit(s: string)
    ensures s == SignOf(s) + s[|SignOf(s)|..]
    ensures Run(Start, s) == Run(if SignOf(s) == "" then Start else Minus, s[|SignOf(s)|..])
  {
  }

  lemma {:induction false} AcceptedUnsigned(q: State, r: string) returns (i: string, f: string, e: string)
    requires q.Minus? || (q.Start? && (r == "" || r[0] != '-'))
    requires Accepting(Run(q, r))
    ensures NumberParts("", i, f, e) && r == i + f + e
  {
    RunDead(r[1..]);
    var d;
    d, f, e := AcceptedInt(Step(q, r[0]), r[1..]);
    i := [r[0]] + d;
    assert IsInt(i) by { if r[0] == '0' { assert i == "0"; } }
    assert r == [r[0]] + r[1..];
  }

  lemma {:induction false} AcceptedParts(s: string) returns (m: string, i: string, f: string, e: string)
    requires MatchesNumber(s)
    ensures NumberParts(m, i, f, e) && s == m + i + f + e
  {
    SignSplit(s);
    m := SignOf(s);
    i, f, e := AcceptedUnsigned(if m == "" then Start else Minus, s[|m|..]);
  }

  /** `_NUMBER` matches exactly the numbers of RFC 8259. */
  lemma {:induction false} NumberPattern(s: string)
    ensures MatchesNumber(s) <==> IsNumber(s)
  {
    if IsNumber(s) {
      var m, i, f, e :| NumberParts(m, i, f, e) && s == m + i + f + e;
      PartsAccepted(m, i, f, e);
    }
    if MatchesNumber(s) {
      var m, i, f, e := AcceptedParts(s);
    }
  }

  predicate CutExp(s: string) {
    s != "" && (s[0] == 'e' || s[0] == 'E') &&
    (AllDigits(s[1..]) || (|s| > 1 && (s[1] == '+' || s[1] == '-') && AllDigits(s[2..])))
  }

  /** What may follow the integer part in `_CUT_NUMBER`. */
  ghost predicate CutSuffix(s: string) {
    s == "" || CutExp(s) || s == "." ||
    exists d: string, e: string :: CutFraction(d, e) && s == "." + d + e
  }

  predicate CutFraction(d: string, e: string) {
    Digits(d) && (e == "" || CutExp(e))
  }

  /** `_CUT_NUMBER` read as it is written in the source. */
  ghost predicate CutNumberPattern(s: string) {
    exists m: string, i: string, x: string ::
      IsMinus(m) && ((i == "" && x == "") || (IsInt(i) && CutSuffix(x))) && s == m + i + x
  }

  /** A live state can always be driven to an accepting one. */
  function Finish(q: State): string {
    if Accepting(q) || q.Dead? then "" else "0"
  }

  lemma {:induction false} CutIsPrefix(s: string)
    ensures MatchesCutNumber(s) <==> exists t: string :: IsNumber(s + t)
  {
    if MatchesCutNumber(s) {
      var t := Finish(Run(Start, s));
      RunConcat(Start, s, t);
      if t == "0" { assert t[1..] == ""; }
      NumberPattern(s + t);
      assert IsNumber(s + t);
    }
    if t: string :| IsNumber(s + t) {
      NumberPattern(s + t);
      RunConcat(Start, s, t);
      RunDead(t);
    }
  }

  /** Every prefix of a number has the shape `_CUT_NUMBER` spells out, and conversely. */
  lemma {:induction false} CutPattern(s: string)
    ensures MatchesCutNumber(s) <==> CutNumberPattern(s)
  {
    if MatchesCutNumber(s) {
      SignSplit(s);
      var m, r := SignOf(s), s[|SignOf(s)|..];
      if r == "" {
        assert s == m + "" + "";
      } else {
        var q := if m == "" then Start else Minus;
        RunDead(r[1..]);
        var d, x := LiveInt(Step(q, r[0]), r[1..]);
        assert r == [r[0]] + r[1..];
        var i := [r[0]] + d;
        assert IsInt(i) by { if d == "" && r[0] == '0' { assert i == "0"; } }
        assert s == m + i + x;
      }
    }
    if CutNumberPattern(s) {
      var m, i, x :| IsMinus(m) && ((i == "" && x == "") || (IsInt(i) && CutSuffix(x))) && s == m + i + x;
      CutPartsLive(m, i, x);
    }
  }

  lemma {:induction false} CutPartsLive(m: string, i: string, x: string)
    requires IsMinus(m) && ((i == "" && x == "") || (IsInt(i) && CutSuffix(x)))
    ensures MatchesCutNumber(m + i + x)
  {
    if m == "-" { assert m[1..] == "" && Run(Minus, m[1..]) == Minus; }
    var q := Run(Start, m);
    RunConcat(Start, m, i);
    RunConcat(Start, m + i, x);
    if i != "" {
      IntAccepted(q, i);
      CutSuffixLive(Run(q, i), x);
    }
  }

  lemma {:induction false} CutExpLive(q: State, x: string)
    requires q.Zero? || q.Int? || q.Frac?
    requires CutExp(x)
    ensures !Run(q, x).Dead?
  {
    var r := x[1..];
    assert Run(q, x) == Run(Exp, r);
    if r != "" {
      if Digit(r[0]) {
        RunDigits(ExpInt, r[1..]);
      } else {
        var d := r[1..];
        assert d == x[2..] && Run(Exp, r) == Run(Sign, d);
        if d != "" {
          assert Run(Sign, d) == Run(ExpInt, d[1..]);
          RunDigits(ExpInt, d[1..]);
        }
      }
    }
  }

  lemma {:induction false} CutSuffixLive(q: State, x: string)
    requires q.Zero? || q.Int?
    requires CutSuffix(x)
    ensures !Run(q, x).Dead?
  {
    if CutExp(x) {
      CutExpLive(q, x);
    } else if x == "." {
      assert x[1..] == "" && Run(Dot, x[1..]) == Dot;
    } else if x != "" {
      var d, e :| CutFraction(d, e) && x == "." + d + e;
      assert x[1..] == d + e;
      RunConcat(Dot, d, e);
      assert Run(Dot, d) == Run(Frac, d[1..]);
      RunDigits(Frac, d[1..]);
      if e != "" { CutExpLive(Frac, e); }
    }
  }

  lemma {:induction false} LiveExp(q: State, s: string)
    requires q.Exp? || q.Sign? || q.ExpInt?
    requires !Run(q, s).Dead?
    ensures AllDigits(s) || (q.Exp? && s != "" && (s[0] == '+' || s[0] == '-') && AllDigits(s[1..]))
    decreases |s|
  {
    if s != "" {
      RunDead(s[1..]);
      LiveExp(Step(q, s[0]), s[1..]);
    }
  }

  lemma {:induction false} LiveCutExp(c: char, s: string)
    requires c == 'e' || c == 'E'
    requires !Run(Exp, s).Dead?
    ensures CutExp([c] + s)
  {
    LiveExp(Exp, s);
    assert ([c] + s)[1..] == s;
    if |s| > 0 { assert ([c] + s)[2..] == s[1..]; }
  }

  lemma {:induction false} LiveFrac(q: State, s: string) returns (d: string, e: string)
    requires q.Dot? || q.Frac?
    requires !Run(q, s).Dead?
    ensures s == d + e && AllDigits(d) && (e == "" || CutExp(e))
    ensures q.Dot? ==> s == "" || d != ""
    decreases |s|
  {
    d, e := "", s;
    if s != "" {
      RunDead(s[1..]);
      assert s == [s[0]] + s[1..];
      if Step(q, s[0]).Exp? {
        LiveCutExp(s[0], s[1..]);
      } else {
        d, e := LiveFrac(Step(q, s[0]), s[1..]);
        d := [s[0]] + d;
      }
    }
  }

  lemma {:induction false} LiveInt(q: State, s: string) returns (d: string, x: string)
    requires q.Zero? || q.Int?
    requires !Run(q, s).Dead?
    ensures s == d + x && AllDigits(d) && (q.Zero? ==> d == "") && CutSuffix(x)
    decreases |s|
  {
    d, x := "", s;
    if s != "" {
      RunDead(s[1..]);
      assert s == [s[0]] + s[1..];
      if Step(q, s[0]).Exp? {
        LiveCutExp(s[0], s[1..]);
        assert CutSuffix(s);
      } else if Step(q, s[0]).Dot? {
        var f, e := LiveFrac(Dot, s[1..]);
        if s[1..] == "" {
          assert s == ".";
        } else {
          assert CutFraction(f, e);
          assert s == "." + f + e;
        }
        assert CutSuffix(s);
      } else {
        d, x := LiveInt(Step(q, s[0]), s[1..]);
        d := [s[0]] + d;
      }
    }
  }

  lemma {:induction false} NumberChars(q: State, s: string)
    requires !Run(q, s).Dead?
    ensures forall i :: 0 <= i < |s| ==> NumberChar(s[i])
    decreases |s|
  {
    if s != "" {
      RunDead(s[1..]);
      NumberChars(Step(q, s[0]), s[1..]);
      assert s == [s[0]] + s[1..];
    }
  }
}
