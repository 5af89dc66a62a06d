/** The time stamp of an entry: `isoformat(timespec="seconds").replace("+00:00", "Z")`. */
module SealStamp {
  import opened Options
  import opened PyText
  import opened Decimals
  import opened Seal

  /** A `datetime`; the offset from UTC is in microseconds, and a naive value has none. */
  datatype Moment = Moment(year: nat, month: nat, day: nat, hour: nat, minute: nat, second: nat, offset: Option<int>)

  const MICROS := 1_000_000
  const DAY := 86_400 * MICROS

  /** What `datetime` demands of its fields, a month's length apart. */
  predicate ValidMoment(m: Moment) {
    && 1 <= m.year <= 9999 && 1 <= m.month <= 12 && 1 <= m.day <= 31
    && m.hour < 24 && m.minute < 60 && m.second < 60
    && (m.offset.Some? ==> -DAY < m.offset.value < DAY)
  }

  function Digit(n: nat): char {
    ('0' as int + n % 10) as char
  }

  /** `%02d`, `%04d` and `%06d` */
  function Two(n: nat): (s: string)
    ensures |s| == 2
  {
    [Digit(n / 10), Digit(n)]
  }

  function Four(n: nat): (s: string)
    ensures |s| == 4
  {
    Two(n / 100) + Two(n)
  }

  function Six(n: nat): (s: string)
    ensures |s| == 6
  {
    Four(n / 100) + Two(n)
  }

  /** The date and the time. */
  function Clock(m: Moment): (s: string)
    ensures |s| == 19
  {
    Four(m.year) + "-" + Two(m.month) + "-" + Two(m.day) + "T" + Two(m.hour) + ":" + Two(m.minute) + ":" + Two(m.second)
  }

  /** The size of an offset, with seconds and microseconds only where they are not zero. */
  function OffsetDigits(a: nat): string {
    var hours, minutes, seconds, micros := a / (3600 * MICROS), a / (60 * MICROS) % 60, a / MICROS % 60, a % MICROS;
    Two(hours) + ":" + Two(minutes) +
    (if micros != 0 then ":" + Two(seconds) + "." + Six(micros) else if seconds != 0 then ":" + Two(seconds) else "")
  }

  function OffsetText(offset: Option<int>): string {
    match offset
    case None => ""
    case Some(o) => if o < 0 then "-" + OffsetDigits(-o) else "+" + OffsetDigits(o)
  }

  /** An offset is its sign, its hours and minutes, and what is left of it in seconds and microseconds. */
  lemma {:induction false} OffsetIs(o: int, h: nat, m: nat, s: nat, u: nat)
    requires m < 60 && s < 60 && u < MICROS
    requires var a := ((h * 60 + m) * 60 + s) * MICROS + u; o == a || o == -a
    ensures OffsetText(Some(o)) == [if o >= 0 then '+' else '-'] + OffsetFrom(h, m, s, u)
  {
    DigitsFrom(h, m, s, u);
    hide OffsetDigits, OffsetFrom;
  }

  function OffsetFrom(h: nat, m: nat, s: nat, u: nat): string {
    Two(h) + ":" + Two(m) + (if s == 0 && u == 0 then "" else ":" + Two(s)) + (if u == 0 then "" else "." + Six(u))
  }

  lemma {:induction false} DigitsFrom(h: nat, m: nat, s: nat, u: nat)
    requires m < 60 && s < 60 && u < MICROS
    ensures OffsetDigits(((h * 60 + m) * 60 + s) * MICROS + u) == OffsetFrom(h, m, s, u)
  {
    OffsetParts(h, m, s, u);
    hide Two, Six;
    var x, y := Two(h) + ":" + Two(m), ":" + Two(s);
    assert x + (y + "." + Six(u)) == x + y + ("." + Six(u));
  }

  lemma {:induction false} OffsetParts(h: nat, m: nat, s: nat, u: nat)
    requires m < 60 && s < 60 && u < MICROS
    ensures var a := ((h * 60 + m) * 60 + s) * MICROS + u;
            && a / (3600 * MICROS) == h && a / (60 * MICROS) % 60 == m && a / MICROS % 60 == s && a % MICROS == u
  {
    var q := (h * 60 + m) * 60 + s;
    var a := q * MICROS + u;
    assert a / MICROS == q && a % MICROS == u;
    assert q / 60 == h * 60 + m && q % 60 == s;
    assert a / (60 * MICROS) == q / 60;
    assert a / (3600 * MICROS) == h;
  }

  /** `m.isoformat(timespec="seconds")` */
  function Iso(m: Moment): string {
    Clock(m) + OffsetText(m.offset)
  }

  const UTC := "+00:00"

  /** `s.replace("+00:00", "Z")` */
  function Replaced(s: string): string {
    if s == "" then ""
    else if UTC <= s then "Z" + Replaced(s[|UTC|..])
    else [s[0]] + Replaced(s[1..])
  }

  /** The stamp `build_entry` writes for `now`. */
  function Stamp(m: Moment): PyStr {
    Name(Replaced(Iso(m)))
  }

  predicate NoPlus(s: string) {
    '+' !in s
  }

  lemma {:induction false} ReplacedBehind(a: string, b: string)
    requires NoPlus(a)
    ensures Replaced(a + b) == a + Replaced(b)
    decreases |a|
  {
    if a == "" {
      assert a + b == b;
    } else {
      assert (a + b)[0] == a[0] != UTC[0];
      assert (a + b)[1..] == a[1..] + b;
      ReplacedBehind(a[1..], b);
    }
  }

  lemma {:induction false} Unchanged(a: string)
    requires NoPlus(a)
    ensures Replaced(a) == a
  {
    ReplacedBehind(a, "");
    assert a + "" == a;
  }

  lemma {:induction false} ClockNoPlus(m: Moment)
    ensures NoPlus(Clock(m))
  {
  }

  lemma {:induction false} DigitsNoPlus(a: nat)
    ensures NoPlus(OffsetDigits(a)) && |OffsetDigits(a)| >= 5
  {
  }

  lemma {:induction false} ZeroOffset()
    ensures OffsetText(Some(0)) == UTC && Replaced(UTC) == "Z"
  {
    assert OffsetDigits(0) == "00:00";
    assert UTC[|UTC|..] == "";
    assert Replaced(UTC[|UTC|..]) == "";
  }

  lemma {:induction false} TwoZeros(n: nat)
    requires n < 100 && Two(n)[0] == '0' && Two(n)[1] == '0'
    ensures n == 0
  {
  }

  lemma {:induction false} SomePart(a: nat)
    requires 0 < a && a / (3600 * MICROS) == 0 && a / (60 * MICROS) % 60 == 0
    ensures a / MICROS % 60 != 0 || a % MICROS != 0
  {
  }

  lemma {:induction false} DigitsStart(a: nat)
    ensures var s := OffsetDigits(a);
            && |s| >= 5 && s[0] == Two(a / (3600 * MICROS))[0] && s[1] == Two(a / (3600 * MICROS))[1]
            && s[3] == Two(a / (60 * MICROS) % 60)[0] && s[4] == Two(a / (60 * MICROS) % 60)[1]
            && (a / MICROS % 60 != 0 || a % MICROS != 0 ==> |s| > 5)
  {
    hide Two, Six;
  }

  /** A non-zero offset has a digit other than the zeros of `+00:00`. */
  lemma {:induction false} OffsetShows(a: nat)
    requires 0 < a < DAY
    requires var s := OffsetDigits(a); |s| >= 5 && s[0] == '0' && s[1] == '0' && s[3] == '0' && s[4] == '0'
    ensures |OffsetDigits(a)| > 5
  {
    DigitsStart(a);
    hide OffsetDigits;
    TwoZeros(a / (3600 * MICROS));
    TwoZeros(a / (60 * MICROS) % 60);
    SomePart(a);
  }

  lemma {:induction false} BehindUtc(digits: string)
    requires UTC <= "+" + digits && NoPlus(digits)
    ensures |digits| >= 5 && digits[0] == '0' && digits[1] == '0' && digits[3] == '0' && digits[4] == '0'
    ensures Replaced("+" + digits) == "Z" + digits[5..]
  {
    var s := "+" + digits;
    assert UTC[0] == '+' && UTC[1] == '0' && UTC[2] == '0' && UTC[4] == '0' && UTC[5] == '0';
    assert digits[0] == s[1] && digits[1] == s[2] && digits[3] == s[4] && digits[4] == s[5];
    assert s[|UTC|..] == digits[5..];
    Unchanged(digits[5..]);
  }

  lemma {:induction false} NotUtc(sign: char, digits: string)
    requires NoPlus(digits) && (sign == '-' || !(UTC <= [sign] + digits))
    ensures Replaced([sign] + digits) == [sign] + digits
  {
    var s := [sign] + digits;
    assert s[1..] == digits && s[0] == sign;
    assert UTC[0] == '+';
    Unchanged(digits);
  }

  /** Any offset but zero leaves something else than one `Z`. */
  lemma {:induction false} OtherOffset(offset: Option<int>)
    requires offset.Some? ==> -DAY < offset.value < DAY && offset.value != 0
    ensures |Replaced(OffsetText(offset))| != 1
  {
    hide OffsetDigits, Replaced, NoPlus, UTC;
    if offset.Some? {
      var o := offset.value;
      var a := if o < 0 then -o else o;
      var digits := OffsetDigits(a);
      DigitsNoPlus(a);
      if o < 0 {
        NotUtc('-', digits);
      } else if UTC <= "+" + digits {
        BehindUtc(digits);
        OffsetShows(a);
      } else {
        NotUtc('+', digits);
      }
    } else {
      Unchanged("");
    }
  }

  lemma {:induction false} DigitIsDecimal(n: nat)
    ensures DecimalDigit(Digit(n) as int)
  {
    assert DECIMAL_ZEROS[0] == 0x30;
  }

  lemma {:induction false} TwoDecimal(n: nat)
    ensures DecimalDigit(Two(n)[0] as int) && DecimalDigit(Two(n)[1] as int)
  {
    DigitIsDecimal(n);
    DigitIsDecimal(n / 10);
    hide DecimalDigit, Digit;
  }

  /** `s` has digits and other characters where `pattern` has them. */
  predicate Fits(s: string, pattern: string) {
    && |s| == |pattern|
    && forall i :: 0 <= i < |s| ==> if pattern[i] == 'd' then DecimalDigit(s[i] as int) else s[i] == pattern[i]
  }

  lemma {:induction false} FitsJoined(a: string, sep: char, b: string, pa: string, pb: string)
    requires Fits(a, pa) && Fits(b, pb) && sep != 'd'
    ensures Fits(a + [sep] + b, pa + [sep] + pb)
  {
    hide DecimalDigit;
  }

  lemma {:induction false} FitsTwo(n: nat)
    ensures Fits(Two(n), "dd")
  {
    TwoDecimal(n);
    hide DecimalDigit, Two;
  }

  lemma {:induction false} FitsFour(n: nat)
    ensures Fits(Four(n), "dddd")
  {
    TwoDecimal(n / 100);
    TwoDecimal(n);
    hide DecimalDigit, Two;
  }

  lemma {:induction false} FitsDate(m: Moment)
    ensures Fits(Four(m.year) + "-" + Two(m.month) + "-" + Two(m.day), "dddd" + "-" + "dd" + "-" + "dd")
  {
    hide Fits, Two, Four;
    FitsFour(m.year); FitsTwo(m.month); FitsTwo(m.day);
    FitsJoined(Four(m.year), '-', Two(m.month), "dddd", "dd");
    FitsJoined(Four(m.year) + "-" + Two(m.month), '-', Two(m.day), "dddd" + "-" + "dd", "dd");
  }

  lemma {:induction false} FitsTime(m: Moment)
    ensures Fits(Two(m.hour) + ":" + Two(m.minute) + ":" + Two(m.second), "dd" + ":" + "dd" + ":" + "dd")
  {
    hide Fits, Two;
    FitsTwo(m.hour); FitsTwo(m.minute); FitsTwo(m.second);
    FitsJoined(Two(m.hour), ':', Two(m.minute), "dd", "dd");
    FitsJoined(Two(m.hour) + ":" + Two(m.minute), ':', Two(m.second), "dd" + ":" + "dd", "dd");
  }

  lemma {:induction false} FitsClock(m: Moment)
    ensures Fits(Clock(m) + "Z", SEALED_AT_PATTERN)
  {
    FitsDate(m);
    FitsTime(m);
    var date := Four(m.year) + "-" + Two(m.month) + "-" + Two(m.day);
    var time := Two(m.hour) + ":" + Two(m.minute) + ":" + Two(m.second);
    var pd, pt := "dddd" + "-" + "dd" + "-" + "dd", "dd" + ":" + "dd" + ":" + "dd";
    FitsJoined(date, 'T', time, pd, pt);
    FitsJoined(date + "T" + time, 'Z', "", pd + "T" + pt, "");
    assert date + "T" + time + "Z" + "" == Clock(m) + "Z";
    assert pd + "T" + pt + "Z" + "" == SEALED_AT_PATTERN;
    hide Fits;
  }

  lemma {:induction false} ClockIsSealed(m: Moment)
    ensures IsSealedAt(Name(Clock(m) + "Z"))
  {
    FitsClock(m);
    hide DecimalDigit, Clock;
  }

  /** The ledger accepts the stamp of a moment if and only if the moment is in UTC: not a naive one, and not one
      with another offset, however small. */
  lemma {:induction false} StampIsSealedIff(m: Moment)
    requires ValidMoment(m)
    ensures IsSealedAt(Stamp(m)) <==> m.offset == Some(0)
  {
    hide Clock, OffsetText, IsSealedAt;
    ClockNoPlus(m);
    ReplacedBehind(Clock(m), OffsetText(m.offset));
    if m.offset == Some(0) {
      ZeroOffset();
      ClockIsSealed(m);
    } else {
      OtherOffset(m.offset);
      SealedLength(Stamp(m));
    }
  }

  lemma {:induction false} SealedLength(s: PyStr)
    requires |s| != 20
    ensures !IsSealedAt(s)
  {
  }

  /** Stamps hold no surrogate. */
  lemma {:induction false} StampClean(m: Moment)
    ensures Clean(Stamp(m))
  {
    hide Replaced, Iso;
  }
}
