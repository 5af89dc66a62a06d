/** Dates and times as text: what the timestamp check reads is what `isoformat` writes. */
module ClockText {
  import opened Options
  import opened PyText
  import opened Decimals
  import opened SealStamp
  import opened Timestamps

  /** A moment whose day is one of its month. */
  predicate Occurs(m: Moment) {
    ValidMoment(m) && m.day <= DaysIn(m.year, m.month)
  }

  /** Days before the first of January of a year, by the rule of the Gregorian calendar. */
  function DaysBefore(year: int): int
    requires year >= 1
  {
    var y := year - 1;
    365 * y + y / 4 - y / 100 + y / 400
  }

  function DaysUpTo(year: int, months: nat): int {
    if months == 0 then 0 else DaysUpTo(year, months - 1) + DaysIn(year, months)
  }

  /** The months of every year have the days that the calendar gives the year. */
  lemma {:induction false} YearLength(year: int)
    requires year >= 1
    ensures DaysUpTo(year, 12) == DaysBefore(year + 1) - DaysBefore(year)
  {
    YearMonths(year);
    hide DaysUpTo;
    Fourths(year);
    Hundredths(year);
    assert year / 400 - (year - 1) / 400 == if year % 400 == 0 then 1 else 0;
  }

  lemma {:induction false} YearMonths(year: int)
    ensures DaysUpTo(year, 12) == if Leap(year) then 366 else 365
  {
    hide Leap;
    assert DaysUpTo(year, 1) == 31;
    assert DaysUpTo(year, 2) == 31 + DaysIn(year, 2);
    assert DaysUpTo(year, 4) == DaysUpTo(year, 2) + 61;
    assert DaysUpTo(year, 6) == DaysUpTo(year, 4) + 61;
    assert DaysUpTo(year, 8) == DaysUpTo(year, 6) + 62;
    assert DaysUpTo(year, 10) == DaysUpTo(year, 8) + 61;
    assert DaysUpTo(year, 12) == DaysUpTo(year, 10) + 61;
  }

  lemma {:induction false} Fourths(n: int)
    ensures n / 4 - (n - 1) / 4 == if n % 4 == 0 then 1 else 0
    ensures n % 100 == 0 ==> n % 4 == 0
  {
    if n % 100 == 0 { assert n == 4 * (25 * (n / 100)); }
  }

  lemma {:induction false} Hundredths(n: int)
    ensures n / 100 - (n - 1) / 100 == if n % 100 == 0 then 1 else 0
    ensures n % 400 == 0 ==> n % 100 == 0
  {
    if n % 400 == 0 { assert n == 100 * (4 * (n / 400)); }
  }

  // ----- Two digits, four digits -----

  predicate Digits(s: PyStr) {
    forall i :: 0 <= i < |s| ==> AsciiDigit(s[i])
  }

  lemma {:induction false} TwoText(s: PyStr, i: nat, n: nat)
    requires i + 2 <= |s| && n < 100
    ensures s[i..i + 2] == Name(Two(n)) <==> Digits(s[i..i + 2]) && Number(s, i, 2) == n
  {
    TwoDigits(s, i);
    var t, w := s[i..i + 2], Name(Two(n));
    assert t[0] == s[i] && t[1] == s[i + 1];
    assert w[0] == 0x30 + n / 10 && w[1] == 0x30 + n % 10;
    assert t == w <==> t[0] == w[0] && t[1] == w[1];
    hide Number, Two;
  }

  lemma {:induction false} FourText(s: PyStr, i: nat, n: nat)
    requires i + 4 <= |s| && n < 10000
    ensures s[i..i + 4] == Name(Four(n)) <==> Digits(s[i..i + 4]) && Number(s, i, 4) == n
  {
    FourDigits(s, i);
    TwoDigits(s, i);
    TwoDigits(s, i + 2);
    TwoText(s, i, n / 100);
    TwoText(s, i + 2, n % 100);
    assert Two(n) == Two(n % 100) by { TwoTail(n); }
    assert Four(n) == Two(n / 100) + Two(n % 100);
    hide Number, Two;
    var t, w := s[i..i + 4], Name(Four(n));
    assert t == s[i..i + 2] + s[i + 2..i + 4];
    assert w == Name(Two(n / 100)) + Name(Two(n % 100));
    assert t[..2] == s[i..i + 2] && t[2..] == s[i + 2..i + 4];
    assert w[..2] == Name(Two(n / 100)) && w[2..] == Name(Two(n % 100));
    assert Digits(t) <==> Digits(t[..2]) && Digits(t[2..]) by { DigitsParts(t, 2); }
    if Digits(t) {
      assert Number(s, i, 4) == Number(s, i, 2) * 100 + Number(s, i + 2, 2);
      TwoBelow(s, i + 2);
      TwoBelow(s, i);
    }
  }

  lemma {:induction false} TwoTail(n: nat)
    ensures Two(n) == Two(n % 100)
  {
    assert n % 100 % 10 == n % 10 && n % 100 / 10 == n / 10 % 10;
  }

  lemma {:induction false} DigitsParts(t: PyStr, k: nat)
    requires k <= |t|
    ensures Digits(t) <==> Digits(t[..k]) && Digits(t[k..])
  {
    if Digits(t[..k]) && Digits(t[k..]) {
      forall i | 0 <= i < |t| ensures AsciiDigit(t[i]) {
        if i < k { assert t[..k][i] == t[i]; } else { assert t[k..][i - k] == t[i]; }
      }
    }
  }

  lemma {:induction false} TwoBelow(s: PyStr, i: nat)
    requires i + 2 <= |s| && Digits(s[i..i + 2])
    ensures 0 <= Number(s, i, 2) < 100
  {
    TwoDigits(s, i);
    assert s[i..i + 2][0] == s[i] && s[i..i + 2][1] == s[i + 1];
    hide Number;
  }

  // ----- The whole text -----

  /** The parts of the text of a moment. */
  lemma {:induction false} ClockParts(m: Moment)
    ensures var c := Clock(m);
            && c[..4] == Four(m.year) && c[4] == '-' && c[5..7] == Two(m.month) && c[7] == '-'
            && c[8..10] == Two(m.day) && c[10] == 'T' && c[11..13] == Two(m.hour) && c[13] == ':'
            && c[14..16] == Two(m.minute) && c[16] == ':' && c[17..19] == Two(m.second)
  {
    hide Two, Four;
  }

  lemma {:induction false} ClockFrom(m: Moment, s: PyStr)
    requires |s| >= 19
    ensures s[..19] == Name(Clock(m)) <==>
            && s[0..4] == Name(Four(m.year)) && s[4] == '-' as int && s[5..7] == Name(Two(m.month))
            && s[7] == '-' as int && s[8..10] == Name(Two(m.day)) && s[10] == 'T' as int
            && s[11..13] == Name(Two(m.hour)) && s[13] == ':' as int
            && s[14..16] == Name(Two(m.minute)) && s[16] == ':' as int && s[17..19] == Name(Two(m.second))
  {
    ClockParts(m);
    var c := Clock(m);
    hide Two, Four, Clock;
    var t := Name(c);
    assert t[0..4] == Name(Four(m.year)) && t[5..7] == Name(Two(m.month)) && t[8..10] == Name(Two(m.day));
    assert t[11..13] == Name(Two(m.hour)) && t[14..16] == Name(Two(m.minute)) && t[17..19] == Name(Two(m.second));
    var u := s[..19];
    assert u[0..4] == s[0..4] && u[5..7] == s[5..7] && u[8..10] == s[8..10];
    assert u[11..13] == s[11..13] && u[14..16] == s[14..16] && u[17..19] == s[17..19];
    Pieces(u);
    Pieces(t);
    hide Name;
  }

  lemma {:induction false} Pieces(t: PyStr)
    requires |t| == 19
    ensures t == t[0..4] + [t[4]] + t[5..7] + [t[7]] + t[8..10] + [t[10]] + t[11..13] + [t[13]] + t[14..16] + [t[16]]
                 + t[17..19]
  {
  }

  lemma {:induction false} PatternIs()
    ensures |PATTERN| == 19 && PATTERN[4] == '-' && PATTERN[7] == '-' && PATTERN[10] == 'T'
    ensures PATTERN[13] == ':' && PATTERN[16] == ':'
    ensures forall i :: 0 <= i < 19 && i != 4 && i != 7 && i != 10 && i != 13 && i != 16 ==> PATTERN[i] == 'd'
  {
    assert PATTERN == "dddd" + "-" + "dd" + "-" + "dd" + "T" + "dd" + ":" + "dd" + ":" + "dd";
  }

  lemma {:induction false} DigitsAre(s: PyStr, i: nat, j: nat)
    requires i <= j <= |s|
    ensures Digits(s[i..j]) <==> forall k :: i <= k < j ==> AsciiDigit(s[k])
  {
    hide AsciiDigit;
    var t := s[i..j];
    forall k | i <= k < j ensures t[k - i] == s[k] { }
    if Digits(t) {
      forall k | i <= k < j ensures AsciiDigit(s[k]) { assert AsciiDigit(t[k - i]); }
    }
  }

  lemma {:induction false} ShapeParts(s: PyStr)
    requires |s| >= 19
    ensures HasShape(s) <==>
            && Digits(s[0..4]) && s[4] == '-' as int && Digits(s[5..7]) && s[7] == '-' as int
            && Digits(s[8..10]) && s[10] == 'T' as int && Digits(s[11..13]) && s[13] == ':' as int
            && Digits(s[14..16]) && s[16] == ':' as int && Digits(s[17..19])
  {
    PatternIs();
    DigitsAre(s, 0, 4);
    DigitsAre(s, 5, 7); DigitsAre(s, 8, 10); DigitsAre(s, 11, 13); DigitsAre(s, 14, 16); DigitsAre(s, 17, 19);
    hide AsciiDigit, Digits, PATTERN;
    if HasShape(s) {
      forall i | 0 <= i < 19 && PATTERN[i] == 'd' ensures AsciiDigit(s[i]) { }
      assert s[4] == PATTERN[4] as int && s[7] == PATTERN[7] as int && s[10] == PATTERN[10] as int;
      assert s[13] == PATTERN[13] as int && s[16] == PATTERN[16] as int;
    }
  }

  lemma {:induction false} NumbersFit(s: PyStr, m: Moment)
    requires |s| >= 19 && m.year < 10000 && m.month < 100 && m.day < 100 && m.hour < 100 && m.minute < 100
    requires m.second < 100
    ensures s[..19] == Name(Clock(m)) <==>
            && HasShape(s) && Number(s, 0, 4) == m.year && Number(s, 5, 2) == m.month && Number(s, 8, 2) == m.day
            && Number(s, 11, 2) == m.hour && Number(s, 14, 2) == m.minute && Number(s, 17, 2) == m.second
  {
    hide *;
    ClockFrom(m, s);
    ShapeParts(s);
    FourText(s, 0, m.year);
    TwoText(s, 5, m.month); TwoText(s, 8, m.day); TwoText(s, 11, m.hour); TwoText(s, 14, m.minute);
    TwoText(s, 17, m.second);
  }

  /** The moment a text of the right shape names. */
  function Named(s: PyStr): Moment
    requires |s| >= 19 && HasShape(s)
  {
    NumbersSmall(s);
    Moment(Number(s, 0, 4), Number(s, 5, 2), Number(s, 8, 2), Number(s, 11, 2), Number(s, 14, 2), Number(s, 17, 2),
           None)
  }

  lemma {:induction false} NumbersSmall(s: PyStr)
    requires |s| >= 19 && HasShape(s)
    ensures 0 <= Number(s, 0, 4) < 10000
    ensures 0 <= Number(s, 5, 2) < 100 && 0 <= Number(s, 8, 2) < 100 && 0 <= Number(s, 11, 2) < 100
    ensures 0 <= Number(s, 14, 2) < 100 && 0 <= Number(s, 17, 2) < 100
  {
    ShapeParts(s);
    hide HasShape, Number;
    FourDigits(s, 0);
    TwoDigits(s, 0);
    assert s[0..4][..2] == s[0..2] && s[0..4][2] == s[2] && s[0..4][3] == s[3];
    DigitsParts(s[0..4], 2);
    assert AsciiDigit(s[0..4][2]) && AsciiDigit(s[0..4][3]);
    TwoBelow(s, 0); TwoBelow(s, 5); TwoBelow(s, 8); TwoBelow(s, 11); TwoBelow(s, 14); TwoBelow(s, 17);
  }

  /** The check of shape and calendar passes exactly the texts of moments that occur. */
  lemma {:induction false} ClockMeans(s: PyStr)
    requires |s| >= 19
    ensures HasShape(s) && OnCalendar(s) <==> exists m: Moment :: Occurs(m) && s[..19] == Name(Clock(m))
  {
    if HasShape(s) && OnCalendar(s) {
      NumbersSmall(s);
      NumbersFit(s, Named(s));
      assert Occurs(Named(s));
    }
    hide HasShape, Number, Clock, DaysIn;
    if m: Moment :| Occurs(m) && s[..19] == Name(Clock(m)) {
      NumbersFit(s, m);
    }
  }

  /** The stamp of a moment that occurs, in UTC, is a valid timestamp of a record. */
  lemma {:induction false} StampIsTimestamp(m: Moment)
    requires Occurs(m) && m.offset == Some(0)
    ensures ValidTs(Stamp(m))
  {
    hide Clock, OffsetText, HasShape, OnCalendar, DaysIn;
    ClockNoPlus(m);
    ReplacedBehind(Clock(m), OffsetText(m.offset));
    ZeroOffset();
    var s := Stamp(m);
    assert s == Name(Clock(m) + "Z");
    assert s[..19] == Name(Clock(m));
    assert s[19..] == Name("Z");
    ClockMeans(s);
  }

  // ----- Whole timestamps -----

  /** `Z`, or a zero offset in one of its spellings. */
  predicate ZoneText(z: PyStr) {
    z == Name("Z") ||
    (z != [] && (z[0] == '+' as int || z[0] == '-' as int) && z[1..] in {Name("00"), Name("0000"), Name("00:00")})
  }

  lemma {:induction false} ZoneIs(z: PyStr)
    ensures IsZone(z) <==> ZoneText(z)
  {
    SignedIs(z, '+', "00"); SignedIs(z, '+', "0000"); SignedIs(z, '+', "00:00");
    SignedIs(z, '-', "00"); SignedIs(z, '-', "0000"); SignedIs(z, '-', "00:00");
    assert "+00" == ['+'] + "00" && "+0000" == ['+'] + "0000" && "+00:00" == ['+'] + "00:00";
    assert "-00" == ['-'] + "00" && "-0000" == ['-'] + "0000" && "-00:00" == ['-'] + "00:00";
    hide Name;
  }

  lemma {:induction false} SignedIs(z: PyStr, sign: char, rest: string)
    ensures z == Name([sign] + rest) <==> z != [] && z[0] == sign as int && z[1..] == Name(rest)
  {
    assert Name([sign] + rest) == [sign as int] + Name(rest);
    if z != [] { assert z == [z[0]] + z[1..]; }
  }

  /** Digits of a fraction from place `n` on: ASCII in the first six places, any decimal digit behind them. */
  predicate FractionDigits(f: PyStr, n: nat) {
    f != [] && forall i :: 0 <= i < |f| ==> if n + i < 6 then AsciiDigit(f[i]) else DecimalDigit(f[i])
  }

  lemma {:induction false} FractionIs(t: PyStr, n: nat)
    ensures FractionThenZone(t, n) <==> exists k: nat :: k <= |t| && FractionDigits(t[..k], n) && IsZone(t[k..])
    decreases |t|
  {
    hide IsZone, AsciiDigit, DecimalDigit;
    if t != [] {
      FractionIs(t[1..], n + 1);
      if k: nat :| k <= |t| && FractionDigits(t[..k], n) && IsZone(t[k..]) {
        assert t[..k][0] == t[0];
        if k == 1 {
        } else {
          assert t[1..][..k - 1] == t[..k][1..] && t[1..][k - 1..] == t[k..];
          assert FractionDigits(t[1..][..k - 1], n + 1);
        }
      }
      if FractionThenZone(t, n) {
        if IsZone(t[1..]) {
          assert FractionDigits(t[..1], n);
        } else {
          var k: nat :| k <= |t[1..]| && FractionDigits(t[1..][..k], n + 1) && IsZone(t[1..][k..]);
          assert t[..k + 1] == [t[0]] + t[1..][..k] && t[k + 1..] == t[1..][k..];
          assert FractionDigits(t[..k + 1], n);
        }
      }
    }
  }

  /** What may stand between the clock and the zone. */
  predicate Fraction(f: PyStr) {
    f == [] || (f[0] == '.' as int && FractionDigits(f[1..], 0))
  }

  /** The text is made of these parts. */
  ghost predicate Stamped(s: PyStr, m: Moment, f: PyStr, z: PyStr) {
    Occurs(m) && Fraction(f) && ZoneText(z) && s == Name(Clock(m)) + f + z
  }

  lemma {:induction false} ValidIsStamped(s: PyStr)
    requires ValidTs(s)
    ensures exists m: Moment, f: PyStr, z: PyStr :: Stamped(s, m, f, z)
  {
    hide HasShape, OnCalendar, Occurs, Clock, IsZone, ZoneText, FractionDigits, FractionThenZone, Name;
    ClockMeans(s);
    var m: Moment :| Occurs(m) && s[..19] == Name(Clock(m));
    var tail := s[19..];
    if IsZone(tail) {
      ZoneIs(tail);
      assert Stamped(s, m, [], tail);
    } else {
      var t := s[20..];
      FractionIs(t, 0);
      var k: nat :| k <= |t| && FractionDigits(t[..k], 0) && IsZone(t[k..]);
      ZoneIs(t[k..]);
      var f := [s[19]] + t[..k];
      assert f[1..] == t[..k];
      assert Stamped(s, m, f, t[k..]);
    }
  }

  lemma {:induction false} StampedIsValid(s: PyStr, m: Moment, f: PyStr, z: PyStr)
    requires Stamped(s, m, f, z)
    ensures ValidTs(s)
  {
    hide HasShape, OnCalendar, Occurs, Clock, IsZone, ZoneText, FractionDigits, FractionThenZone, Name;
    ClockLength(m);
    assert s[..19] == Name(Clock(m));
    ClockMeans(s);
    ZoneIs(z);
    ZoneThere(z);
    if f == [] {
      assert s[19..] == z;
    } else {
      var t := s[20..];
      assert s[19] == f[0] && t == f[1..] + z;
      var k: nat := |f| - 1;
      assert t[..k] == f[1..] && t[k..] == z;
      FractionIs(t, 0);
      assert FractionThenZone(t, 0);
    }
  }

  /** A timestamp is the text of a moment that occurs, then a fraction or none, then a zero offset. */
  lemma {:induction false} TimestampMeans(s: PyStr)
    ensures ValidTs(s) <==> exists m: Moment, f: PyStr, z: PyStr :: Stamped(s, m, f, z)
  {
    hide ValidTs, Stamped;
    if ValidTs(s) { ValidIsStamped(s); }
    if m: Moment, f: PyStr, z: PyStr :| Stamped(s, m, f, z) { StampedIsValid(s, m, f, z); }
  }

  lemma {:induction false} ClockLength(m: Moment)
    ensures |Name(Clock(m))| == 19
  {
    hide Clock;
  }

  lemma {:induction false} ZoneThere(z: PyStr)
    requires ZoneText(z)
    ensures z != []
  {
  }
}
