/** The RFC 3339 UTC timestamps of session records. */
module Timestamps {
  import opened PyText
  import opened Decimals

  predicate AsciiDigit(c: CodePoint) {
    0x30 <= c <= 0x39
  }

  /** `d` stands for a digit. The pattern's `\d` also matches other decimal digits, which in these places
      `datetime.fromisoformat` then rejects. */
  const PATTERN := "dddd-dd-ddTdd:dd:dd"

  predicate HasShape(s: PyStr) {
    |s| >= |PATTERN| &&
    forall i :: 0 <= i < |PATTERN| ==> if PATTERN[i] == 'd' then AsciiDigit(s[i]) else s[i] == PATTERN[i] as int
  }

  /** The number written in the `n` digits at `i`. */
  function Number(s: PyStr, i: nat, n: nat): int
    requires i + n <= |s|
  {
    if n == 0 then 0 else Number(s, i, n - 1) * 10 + (s[i + n - 1] as int - 0x30)
  }

  predicate Leap(year: int) {
    year % 4 == 0 && (year % 100 != 0 || year % 400 == 0)
  }

  function DaysIn(year: int, month: int): int {
    if month == 2 then (if Leap(year) then 29 else 28)
    else if month == 4 || month == 6 || month == 9 || month == 11 then 30
    else 31
  }

  /** A date and a time that exist. */
  predicate OnCalendar(s: PyStr)
    requires HasShape(s)
  {
    var year, month, day := Number(s, 0, 4), Number(s, 5, 2), Number(s, 8, 2);
    && year >= 1 && 1 <= month <= 12 && 1 <= day <= DaysIn(year, month)
    && Number(s, 11, 2) <= 23 && Number(s, 14, 2) <= 59 && Number(s, 17, 2) <= 59
  }

  predicate IsZone(z: PyStr) {
    || z == Name("Z") || z == Name("+00") || z == Name("-00") || z == Name("+0000") || z == Name("-0000")
    || z == Name("+00:00") || z == Name("-00:00")
  }

  /** At least one digit of a fraction, from place `n` on, then the zone. Six places are read as ASCII digits; what
      follows them is skipped, so there any decimal digit passes. */
  predicate FractionThenZone(t: PyStr, n: nat)
    decreases |t|
  {
    && t != [] && (if n < 6 then AsciiDigit(t[0]) else DecimalDigit(t[0]))
    && (IsZone(t[1..]) || FractionThenZone(t[1..], n + 1))
  }

  /** `_validate_rfc3339_utc(ts, field_name)` does not raise. */
  predicate ValidTs(s: PyStr) {
    && HasShape(s) && OnCalendar(s) && |s| > |PATTERN|
    && (IsZone(s[|PATTERN|..]) || (s[|PATTERN|] == '.' as int && FractionThenZone(s[|PATTERN| + 1..], 0)))
  }

  const NEW_YEAR := Name("2024-01-01T00:00:00Z")

  /** A valid timestamp. */
  lemma {:induction false} NewYearDigits()
    ensures HasShape(NEW_YEAR)
    ensures var s := NEW_YEAR;
            && s[0] == 0x32 && s[1] == 0x30 && s[2] == 0x32 && s[3] == 0x34
            && s[5] == 0x30 && s[6] == 0x31 && s[8] == 0x30 && s[9] == 0x31
            && s[11] == s[12] == s[14] == s[15] == s[17] == s[18] == 0x30
            && s[|PATTERN|..] == Name("Z")
  {
  }

  lemma {:induction false} TwoDigits(s: PyStr, i: nat)
    requires i + 2 <= |s|
    ensures Number(s, i, 2) == (s[i] as int - 0x30) * 10 + (s[i + 1] as int - 0x30)
  {
    assert Number(s, i, 1) == s[i] as int - 0x30;
  }

  lemma {:induction false} FourDigits(s: PyStr, i: nat)
    requires i + 4 <= |s|
    ensures Number(s, i, 4) ==
            (Number(s, i, 2) * 10 + (s[i + 2] as int - 0x30)) * 10 + (s[i + 3] as int - 0x30)
  {
    assert Number(s, i, 3) == Number(s, i, 2) * 10 + (s[i + 2] as int - 0x30);
  }

  lemma {:induction false} NewYearIsValid()
    ensures ValidTs(NEW_YEAR)
  {
    NewYearDigits();
    var s := NEW_YEAR;
    hide NEW_YEAR, HasShape, Name, Number;
    TwoDigits(s, 0); FourDigits(s, 0); TwoDigits(s, 5); TwoDigits(s, 8);
    TwoDigits(s, 11); TwoDigits(s, 14); TwoDigits(s, 17);
  }
}
