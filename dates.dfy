/**
 * Calendar arithmetic for the couple store: calendar dates, the current
 * instant, the number of days since 1970-01-01 and the millisecond
 * timestamps that the document database stores.
 *
 * The local time zone is taken to be UTC with no daylight saving, so a
 * local midnight and a UTC midnight are the same instant.
 */
module Dates {
  import opened Common

  const MsPerDay: int := 86_400_000

  /** A proleptic Gregorian calendar date; `month` counts from 1. */
  datatype CivilDate = CivilDate(year: int, month: int, day: int)

  /** The current instant: today's date and the milliseconds elapsed since its midnight. */
  datatype Instant = Instant(date: CivilDate, msOfDay: int)

  predicate IsLeap(y: int) {
    y % 4 == 0 && (y % 100 != 0 || y % 400 == 0)
  }

  function YearLength(y: int): int {
    if IsLeap(y) then 366 else 365
  }

  function DaysInMonth(y: int, m: int): int
    requires 1 <= m <= 12
  {
    if m == 2 then (if IsLeap(y) then 29 else 28)
    else if m == 4 || m == 6 || m == 9 || m == 11 then 30
    else 31
  }

  /** Days of year `y` that come before the first of month `m`. */
  function DaysBeforeMonth(y: int, m: int): int
    requires 1 <= m <= 12
  {
    var common := match m
      case 1 => 0 case 2 => 31 case 3 => 59 case 4 => 90
      case 5 => 120 case 6 => 151 case 7 => 181 case 8 => 212
      case 9 => 243 case 10 => 273 case 11 => 304 case _ => 334;
    common + (if IsLeap(y) && m > 2 then 1 else 0)
  }

  predicate ValidDate(d: CivilDate) {
    1 <= d.month <= 12 && 1 <= d.day <= DaysInMonth(d.year, d.month)
  }

  predicate ValidInstant(t: Instant) {
    ValidDate(t.date) && 0 <= t.msOfDay < MsPerDay
  }

  /** Leap years in the years before `y`, counted from a fixed origin (floor division). */
  function LeapYearsBefore(y: int): int {
    (y - 1) / 4 - (y - 1) / 100 + (y - 1) / 400
  }

  /** Days from 1970-01-01 to the first of January of year `y` (negative before 1970). */
  function YearStart(y: int): int {
    365 * (y - 1970) + LeapYearsBefore(y) - LeapYearsBefore(1970)
  }

  /** Days from 1970-01-01 to `d`; a day past the month's end carries into the next month. */
  function EpochDay(d: CivilDate): int
    requires 1 <= d.month <= 12
  {
    YearStart(d.year) + DaysBeforeMonth(d.year, d.month) + d.day - 1
  }

  /** The timestamp (milliseconds since the epoch) of `d`'s midnight. */
  function Midnight(d: CivilDate): int
    requires 1 <= d.month <= 12
  {
    EpochDay(d) * MsPerDay
  }

  /** The timestamp of the instant `t`. */
  function Millis(t: Instant): int
    requires 1 <= t.date.month <= 12
  {
    EpochDay(t.date) * MsPerDay + t.msOfDay
  }

  /** Floor division by 4, 100 and 400 steps up by one exactly at the multiples. */
  lemma FloorDivSteps(y: int)
    ensures y / 4 - (y - 1) / 4 == if y % 4 == 0 then 1 else 0
    ensures y / 100 - (y - 1) / 100 == if y % 100 == 0 then 1 else 0
    ensures y / 400 - (y - 1) / 400 == if y % 400 == 0 then 1 else 0
  {
  }

  /** A multiple of 400 is a multiple of 100. */
  lemma MultipleOf400(y: int)
    requires y % 400 == 0
    ensures y % 100 == 0
  {
    var k := y / 400;
    assert y == 100 * (4 * k);
  }

  /** A multiple of 100 is a multiple of 4. */
  lemma MultipleOf100(y: int)
    requires y % 100 == 0
    ensures y % 4 == 0
  {
    var k := y / 100;
    assert y == 4 * (25 * k);
  }

  /** The leap-year count grows by one past exactly the leap years. */
  lemma LeapYearsStep(y: int)
    ensures LeapYearsBefore(y + 1) == LeapYearsBefore(y) + (if IsLeap(y) then 1 else 0)
  {
    FloorDivSteps(y);
    if y % 400 == 0 { MultipleOf400(y); }
    if y % 100 == 0 { MultipleOf100(y); }
  }

  /** Consecutive years start exactly one year length apart. */
  lemma YearStartStep(y: int)
    ensures YearStart(y + 1) == YearStart(y) + YearLength(y)
  {
    LeapYearsStep(y);
  }

  /** A valid date lies within its own year: after its first day and before the next year's. */
  lemma DayWithinYear(d: CivilDate)
    requires ValidDate(d)
    ensures YearStart(d.year) <= EpochDay(d) < YearStart(d.year + 1)
  {
    YearStartStep(d.year);
  }

  /** Every valid date of a later year has a larger day number. */
  lemma {:induction false} LaterYearLaterDay(d: CivilDate, e: CivilDate)
    requires ValidDate(d) && ValidDate(e) && d.year < e.year
    ensures EpochDay(d) < EpochDay(e)
    decreases e.year - d.year
  {
    DayWithinYear(d);
    DayWithinYear(e);
    if d.year + 1 < e.year {
      var mid := CivilDate(d.year + 1, 1, 1);
      LaterYearLaterDay(mid, e);
    }
  }

  /**
   * JavaScript's `new Date(y, m - 1, d)` at local midnight, for a month/day
   * pair that some year has (so only February 29 can overflow, into March 1).
   */
  function LocalDate(y: int, m: int, d: int): (r: CivilDate)
    requires 1 <= m <= 12 && 1 <= d <= DaysInMonth(2000, m)
    ensures ValidDate(r) && r.year == y
    ensures EpochDay(r) == YearStart(y) + DaysBeforeMonth(y, m) + d - 1
    ensures d <= DaysInMonth(y, m) ==> r.month == m && r.day == d
  {
    if d <= DaysInMonth(y, m) then CivilDate(y, m, d) else CivilDate(y, m + 1, 1)
  }

  predicate IsDigit(c: char) {
    '0' <= c <= '9'
  }

  function DigitValue(c: char): int
    requires IsDigit(c)
  {
    c as int - '0' as int
  }

  /** The value of a string of decimal digits, most significant first. */
  function DecimalValue(s: string): (n: nat)
    requires forall i :: 0 <= i < |s| ==> IsDigit(s[i])
  {
    if s == [] then 0 else 10 * DecimalValue(s[..|s| - 1]) + DigitValue(s[|s| - 1])
  }

  predicate AllDigits(s: string) {
    forall i :: 0 <= i < |s| ==> IsDigit(s[i])
  }

  /** Four decimal digits spell a year from 0 to 9999. */
  lemma FourDigitsBound(s: string)
    requires |s| == 4 && AllDigits(s)
    ensures DecimalValue(s) <= 9999
  {
    assert DecimalValue(s[..1]) <= 9;
    assert s[..2][..1] == s[..1];
    assert DecimalValue(s[..2]) <= 99;
    assert s[..3][..2] == s[..2];
    assert DecimalValue(s[..3]) <= 999;
    assert s[..3] == s[..|s| - 1];
  }

  /** `YYYY-MM-DD` shape: four, two and two decimal digits separated by dashes. */
  predicate IsoShaped(s: string) {
    |s| == 10 && s[4] == '-' && s[7] == '-'
    && AllDigits(s[..4]) && AllDigits(s[5..7]) && AllDigits(s[8..])
  }

  /**
   * The date of a `YYYY-MM-DD` string, as an HTML date input produces it;
   * `None` for anything else, JavaScript's invalid date.
   */
  function ParseIsoDate(s: string): (r: Option<CivilDate>)
    ensures r.Some? <==> (IsoShaped(s) &&
      ValidDate(CivilDate(DecimalValue(s[..4]), DecimalValue(s[5..7]), DecimalValue(s[8..]))))
    ensures r.Some? ==> (IsoShaped(s) &&
      r.value == CivilDate(DecimalValue(s[..4]), DecimalValue(s[5..7]), DecimalValue(s[8..])))
    ensures r.Some? ==> ValidDate(r.value) && 0 <= r.value.year <= 9999
  {
    if IsoShaped(s) then
      var y, m, d := DecimalValue(s[..4]), DecimalValue(s[5..7]), DecimalValue(s[8..]);
      FourDigitsBound(s[..4]);
      if 1 <= m <= 12 && 1 <= d <= DaysInMonth(y, m) then Some(CivilDate(y, m, d)) else None
    else None
  }

  function Pow10(k: nat): (p: nat)
    ensures p >= 1
  {
    if k == 0 then 1 else 10 * Pow10(k - 1)
  }

  /** The last `width` decimal digits of `n`, zero-padded, most significant first. */
  function DigitsOf(n: nat, width: nat): (s: string)
    ensures |s| == width && AllDigits(s)
  {
    if width == 0 then [] else DigitsOf(n / 10, width - 1) + [('0' as int + n % 10) as char]
  }

  /** Writing a number that fits in `width` digits and reading it back gives the number. */
  lemma {:induction false} DigitsOfValue(n: nat, width: nat)
    requires n < Pow10(width)
    ensures DecimalValue(DigitsOf(n, width)) == n
  {
    if width > 0 {
      var s := DigitsOf(n, width);
      assert s[..|s| - 1] == DigitsOf(n / 10, width - 1);
      DigitsOfValue(n / 10, width - 1);
    }
  }

  /** Reading a digit string and writing its value back at the same width gives the string. */
  lemma {:induction false} ValueDigitsOf(s: string)
    requires AllDigits(s)
    ensures DigitsOf(DecimalValue(s), |s|) == s
  {
    if s != [] {
      var init := s[..|s| - 1];
      assert AllDigits(init);
      ValueDigitsOf(init);
      var n := DecimalValue(s);
      assert n / 10 == DecimalValue(init) && n % 10 == DigitValue(s[|s| - 1]);
    }
  }

  /** A date in the `YYYY-MM-DD` form an HTML date input gives it. */
  function FormatIsoDate(d: CivilDate): (s: string)
    requires 0 <= d.year <= 9999 && 1 <= d.month <= 12 && 1 <= d.day <= 31
    ensures IsoShaped(s)
  {
    var s := DigitsOf(d.year, 4) + "-" + DigitsOf(d.month, 2) + "-" + DigitsOf(d.day, 2);
    assert s[..4] == DigitsOf(d.year, 4) && s[5..7] == DigitsOf(d.month, 2) && s[8..] == DigitsOf(d.day, 2);
    s
  }

  /** Parsing is the inverse of writing a date in the `YYYY-MM-DD` form, in both directions. */
  lemma ParseFormatRoundTrip(d: CivilDate, s: string)
    requires ValidDate(d) && 0 <= d.year <= 9999
    ensures ParseIsoDate(FormatIsoDate(d)) == Some(d)
    ensures ParseIsoDate(s) == Some(d) ==> FormatIsoDate(d) == s
  {
    var f := FormatIsoDate(d);
    assert f[..4] == DigitsOf(d.year, 4) && f[5..7] == DigitsOf(d.month, 2) && f[8..] == DigitsOf(d.day, 2);
    DigitsOfValue(d.year, 4);
    DigitsOfValue(d.month, 2);
    DigitsOfValue(d.day, 2);
    if ParseIsoDate(s) == Some(d) {
      ValueDigitsOf(s[..4]);
      ValueDigitsOf(s[5..7]);
      ValueDigitsOf(s[8..]);
      assert s == s[..4] + "-" + s[5..7] + "-" + s[8..];
    }
  }

  /** A birthday typed into the date input as `1990-03-15` is March 15, 1990. */
  lemma ParseIsoDateExample()
    ensures ParseIsoDate("1990-03-15") == Some(CivilDate(1990, 3, 15))
    ensures ParseIsoDate("1990-02-30") == None && ParseIsoDate("15/03/1990") == None
  {
    var s := "1990-03-15";
    assert s[..4] == "1990" && s[5..7] == "03" && s[8..] == "15";
    assert DecimalValue("1990") == 1990 by {
      assert "1990"[..3] == "199" && "199"[..2] == "19" && "19"[..1] == "1";
    }
    assert DecimalValue("03") == 3 by { assert "03"[..1] == "0"; }
    assert DecimalValue("15") == 15 by { assert "15"[..1] == "1"; }
    var t := "1990-02-30";
    assert t[..4] == "1990" && t[5..7] == "02" && t[8..] == "30";
    assert DecimalValue("02") == 2 by { assert "02"[..1] == "0"; }
    assert DecimalValue("30") == 30 by { assert "30"[..1] == "3"; }
    assert "15/03/1990"[4] != '-';
  }
}
