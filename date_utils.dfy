/**
 * Calendar arithmetic and the month grid: proleptic Gregorian leap years,
 * month lengths and weekdays (Sunday = 0) stand in for the date library;
 * the grid is the previous month's tail, the month's days and the next
 * month's head, 7 cells per week. Also the two format validators: the
 * extended calendar date "YYYY-MM-DD" of ISO 8601:2004 section 4.1.2.2 and
 * the reduced-accuracy time "hh:mm" of section 4.2.2.3.
 */
module DateUtils {
  import opened Wrappers
  import opened Text

  const DaysInWeek: nat := 7

  predicate IsLeapYear(y: int) {
    (y % 4 == 0 && y % 100 != 0) || y % 400 == 0
  }

  /** `daysInMonth()` for a month 0-11. */
  function DaysInMonth(y: int, mo: int): (n: int)
    requires 0 <= mo <= 11
    ensures 28 <= n <= 31
    ensures mo == 1 ==> (n == 29 <==> IsLeapYear(y))
  {
    if mo == 1 then (if IsLeapYear(y) then 29 else 28)
    else if mo == 3 || mo == 5 || mo == 8 || mo == 10 then 30
    else 31
  }

  /** Days from 1 January of year 1 to 1 January of year `y` (`/` floors, as the count needs). */
  function DaysBeforeYear(y: int): int {
    var p := y - 1;
    365 * p + p / 4 - p / 100 + p / 400
  }

  /** Days from 1 January to the first of month `mo` of year `y`. */
  function DaysBeforeMonth(y: int, mo: int): int
    requires 0 <= mo <= 11
  {
    var cumulative := [0, 31, 59, 90, 120, 151, 181, 212, 243, 273, 304, 334];
    cumulative[mo] + if mo >= 2 && IsLeapYear(y) then 1 else 0
  }

  /** Days from 1 January of year 1 to the given date. */
  function DayNumber(y: int, mo: int, d: int): int
    requires 0 <= mo <= 11
  {
    DaysBeforeYear(y) + DaysBeforeMonth(y, mo) + d - 1
  }

  /** `day()`: 0 for Sunday to 6 for Saturday; 1 January of year 1 was a Monday. */
  function Weekday(y: int, mo: int, d: int): (w: int)
    requires 0 <= mo <= 11
    ensures 0 <= w < DaysInWeek
  {
    (DayNumber(y, mo, d) + 1) % DaysInWeek
  }

  lemma DivStep4(n: int)
    ensures n / 4 - (n - 1) / 4 == if n % 4 == 0 then 1 else 0
  {
  }

  lemma DivStep100(n: int)
    ensures n / 100 - (n - 1) / 100 == if n % 100 == 0 then 1 else 0
  {
  }

  lemma DivStep400(n: int)
    ensures n / 400 - (n - 1) / 400 == if n % 400 == 0 then 1 else 0
  {
  }

  /** A year has 366 days exactly when it is a leap year. */
  lemma YearLength(y: int)
    ensures DaysBeforeYear(y + 1) - DaysBeforeYear(y) == if IsLeapYear(y) then 366 else 365
  {
    var a, b := DaysBeforeYear(y + 1), DaysBeforeYear(y);
    assert a - b == 365 + (y / 4 - (y - 1) / 4) - (y / 100 - (y - 1) / 100) + (y / 400 - (y - 1) / 400);
    DivStep4(y);
    DivStep100(y);
    DivStep400(y);
    ModChain(y);
  }

  /** A multiple of 400 is a multiple of 100, and a multiple of 100 one of 4. */
  lemma ModChain(y: int)
    ensures y % 400 == 0 ==> y % 100 == 0
    ensures y % 100 == 0 ==> y % 4 == 0
  {
    if y % 400 == 0 {
      var k := y / 400;
      assert y == 400 * k;
      assert y / 100 == 4 * k;
    }
    if y % 100 == 0 {
      var q := y / 100;
      assert y == 100 * q;
      assert y / 4 == 25 * q;
    }
  }

  /**
   * Consecutive months fit together: the first of the next month comes
   * `DaysInMonth` days after the first of this one, across a year end too.
   * The weekday function and the month lengths thus describe one calendar.
   */
  lemma NextFirstDay(y: int, mo: int)
    requires 0 <= mo <= 11
    ensures mo < 11 ==> DayNumber(y, mo + 1, 1) == DayNumber(y, mo, 1) + DaysInMonth(y, mo)
    ensures mo == 11 ==> DayNumber(y + 1, 0, 1) == DayNumber(y, mo, 1) + DaysInMonth(y, mo)
  {
    if mo == 11 {
      YearLength(y);
    }
  }

  /** The weekday of the next month's first day follows from this month's length. */
  lemma ModShift(x: int, n: int)
    ensures (x + n) % 7 == (x % 7 + n) % 7
  {
  }

  lemma WeekdayOfNextMonth(y: int, mo: int)
    requires 0 <= mo <= 11
    ensures mo < 11 ==> Weekday(y, mo + 1, 1) == (Weekday(y, mo, 1) + DaysInMonth(y, mo)) % 7
    ensures mo == 11 ==> Weekday(y + 1, 0, 1) == (Weekday(y, mo, 1) + DaysInMonth(y, mo)) % 7
  {
    NextFirstDay(y, mo);
    ModShift(DayNumber(y, mo, 1) + 1, DaysInMonth(y, mo));
  }

  /** Anchors: 1 January 1970 was a Thursday, 1 January 2024 a Monday, 1 March 2024 a Friday. */
  lemma KnownWeekdays()
    ensures Weekday(1970, 0, 1) == 4
    ensures Weekday(2024, 0, 1) == 1
    ensures Weekday(2024, 2, 1) == 5
  {
  }

  /** `new Date(year, month)` reads a year 0-99 as 1900-1999. */
  function EffectiveYear(year: int): int {
    if 0 <= year <= 99 then 1900 + year else year
  }

  /** `getPreviousMonthDate`: one calendar month back, as (year, month). */
  function PreviousMonth(year: int, month: int): (ym: (int, int))
    requires 0 <= month <= 11
    ensures 0 <= ym.1 <= 11
  {
    var total := year * 12 + month - 1;
    (total / 12, total % 12)
  }

  /** One cell of the grid; only enabled cells carry their month and year. */
  datatype DayCell = DayCell(number: int, isEnabled: bool, month: Option<int>, year: Option<int>)

  function Reverse<T>(s: seq<T>): (r: seq<T>)
    ensures |r| == |s|
  {
    if s == [] then [] else Reverse(s[1..]) + [s[0]]
  }

  lemma {:induction false} ReverseAt<T>(s: seq<T>, k: int)
    requires 0 <= k < |s|
    ensures Reverse(s)[k] == s[|s| - 1 - k]
  {
    if k < |s| - 1 {
      ReverseAt(s[1..], k);
    }
  }

  /** The number of leading cells: the weekday of the month's first day. */
  function LeadingCount(year: int, month: int): int
    requires 0 <= month <= 11
  {
    Weekday(EffectiveYear(year), month, 1)
  }

  /** The length of the month before the grid's month. */
  function PreviousMonthLength(year: int, month: int): int
    requires 0 <= month <= 11
  {
    var prev := PreviousMonth(EffectiveYear(year), month);
    DaysInMonth(prev.0, prev.1)
  }

  function MonthLength(year: int, month: int): int
    requires 0 <= month <= 11
  {
    DaysInMonth(EffectiveYear(year), month)
  }

  /** `getCurrentMonthCalendarizableDays(year, month)` for a month 0-11. */
  function MonthGrid(year: int, month: int): seq<DayCell>
    requires 0 <= month <= 11
  {
    var baseYear := EffectiveYear(year);
    var weekdayOfFirstDay := Weekday(baseYear, month, 1);
    var prev := PreviousMonth(baseYear, month);
    var lastDayOfPreviousMonth := DaysInMonth(prev.0, prev.1);
    var lastMonthDays :=
      if weekdayOfFirstDay > 0
      then Reverse(seq(weekdayOfFirstDay, index => DayCell(lastDayOfPreviousMonth - index, false, None, None)))
      else [];
    var amountOfDays := DaysInMonth(baseYear, month);
    var currentMonthDays := seq(amountOfDays, index => DayCell(index + 1, true, Some(month), Some(year)));
    var calendarDays := lastMonthDays + currentMonthDays;
    var nextMonthAmount := DaysInWeek - |calendarDays| % DaysInWeek;
    var nextMonthDays := seq(nextMonthAmount, day => DayCell(day + 1, false, None, None));
    calendarDays + nextMonthDays
  }

  /**
   * Three parts of the grid: the last `w` days of the previous month in
   * ascending order, where `w` is the weekday of the first; the month's days
   * 1..n, enabled and tagged with the month and the caller's year; then
   * `7 - (w + n) % 7` disabled days 1, 2, ..., a full week when `w + n` is
   * already a multiple of 7.
   */
  lemma MonthGridLayout(year: int, month: int)
    requires 0 <= month <= 11
    ensures var g, w, n := MonthGrid(year, month), LeadingCount(year, month), MonthLength(year, month);
      var trailing := |g| - w - n;
      && trailing == 7 - (w + n) % 7
      && 1 <= trailing <= 7
      && (forall i :: 0 <= i < w ==> g[i] == DayCell(PreviousMonthLength(year, month) - w + 1 + i, false, None, None))
      && (forall j :: w <= j < w + n ==> g[j] == DayCell(j - w + 1, true, Some(month), Some(year)))
      && (forall j :: w + n <= j < |g| ==> g[j] == DayCell(j - w - n + 1, false, None, None))
  {
    var w := LeadingCount(year, month);
    var last := PreviousMonthLength(year, month);
    var tail := seq(w, index => DayCell(last - index, false, None, None));
    var lead := if w > 0 then Reverse(tail) else [];
    var g := MonthGrid(year, month);
    assert |lead| == w;
    forall i | 0 <= i < w ensures g[i] == DayCell(last - w + 1 + i, false, None, None) {
      ReverseAt(tail, i);
      assert g[i] == lead[i];
    }
  }

  /** The grid is whole weeks: 5 or 6 rows of 7. */
  lemma MonthGridWholeWeeks(year: int, month: int)
    requires 0 <= month <= 11
    ensures |MonthGrid(year, month)| % 7 == 0
    ensures |MonthGrid(year, month)| == 35 || |MonthGrid(year, month)| == 42
  {
    MonthGridLayout(year, month);
    WholeWeeks(LeadingCount(year, month) + MonthLength(year, month));
  }

  lemma WholeWeeks(s: int)
    requires 28 <= s <= 37
    ensures (s + (7 - s % 7)) % 7 == 0
    ensures s + (7 - s % 7) == 35 || s + (7 - s % 7) == 42
  {
  }

  /**
   * A cell is enabled exactly when it lies in the month's block, and it
   * carries a month and year exactly when it is enabled.
   */
  lemma MonthGridEnabledCells(year: int, month: int)
    requires 0 <= month <= 11
    ensures var g, w, n := MonthGrid(year, month), LeadingCount(year, month), MonthLength(year, month);
      forall i :: 0 <= i < |g| ==>
        && (g[i].isEnabled <==> w <= i < w + n)
        && (g[i].month.Some? <==> g[i].isEnabled)
        && (g[i].year.Some? <==> g[i].isEnabled)
  {
    MonthGridLayout(year, month);
    var g, w, n := MonthGrid(year, month), LeadingCount(year, month), MonthLength(year, month);
    forall i | 0 <= i < |g|
      ensures (g[i].isEnabled <==> w <= i < w + n) && (g[i].month.Some? <==> g[i].isEnabled) && (g[i].year.Some? <==> g[i].isEnabled)
    {
      if i < w {
        assert g[i] == DayCell(PreviousMonthLength(year, month) - w + 1 + i, false, None, None);
      } else if i < w + n {
        assert g[i] == DayCell(i - w + 1, true, Some(month), Some(year));
      } else {
        assert g[i] == DayCell(i - w - n + 1, false, None, None);
      }
    }
  }

  /** February 2024 (a leap year) starts on a Thursday and has 29 enabled cells. */
  lemma February2024()
    ensures LeadingCount(2024, 1) == 4 && MonthLength(2024, 1) == 29
    ensures |MonthGrid(2024, 1)| == 35
    ensures MonthGrid(2024, 1)[4] == DayCell(1, true, Some(1), Some(2024))
    ensures MonthGrid(2024, 1)[32] == DayCell(29, true, Some(1), Some(2024))
  {
    MonthGridLayout(2024, 1);
  }

  /** February 2015 fills exactly four weeks, and a fifth, disabled week follows. */
  lemma February2015FullTrailingWeek()
    ensures LeadingCount(2015, 1) == 0 && MonthLength(2015, 1) == 28
    ensures |MonthGrid(2015, 1)| == 35
    ensures forall i :: 28 <= i < 35 ==> !MonthGrid(2015, 1)[i].isEnabled
  {
    MonthGridLayout(2015, 1);
  }

  /** Years 0-99 take their weekdays and month lengths from 1900-1999, but cells keep the given year. */
  lemma TwoDigitYears(year: int, month: int)
    requires 0 <= year <= 99 && 0 <= month <= 11
    ensures LeadingCount(year, month) == LeadingCount(1900 + year, month)
    ensures MonthLength(year, month) == MonthLength(1900 + year, month)
    ensures MonthGrid(year, month)[LeadingCount(year, month)] == DayCell(1, true, Some(month), Some(year))
  {
    MonthGridLayout(year, month);
  }

  // The time format: `^([0-1][0-9]|2[0-3]):[0-5][0-9]$`.
  predicate TimeRegex(s: string) {
    && |s| == 5
    && (('0' <= s[0] <= '1' && IsDigit(s[1])) || (s[0] == '2' && '0' <= s[1] <= '3'))
    && s[2] == ':'
    && '0' <= s[3] <= '5' && IsDigit(s[4])
  }

  /** `isTimeValid(timeStr = "")`: a missing argument is the empty string. */
  predicate IsTimeValid(timeStr: Option<string>) {
    TimeRegex(timeStr.GetOr(""))
  }

  /** "hh:mm" for an hour and a minute. */
  function TimeText(h: int, mi: int): (s: string)
    requires 0 <= h < 100 && 0 <= mi < 100
    ensures |s| == 5
  {
    Pad2(h) + ":" + Pad2(mi)
  }

  /** Every hour 00-23 with every minute 00-59 passes, and nothing else does. */
  lemma TimeValidIff(s: string)
    ensures TimeRegex(s) ==>
      var h, mi := DigitsValue(s[..2]), DigitsValue(s[3..]);
      0 <= h <= 23 && 0 <= mi <= 59 && s == TimeText(h, mi)
    ensures forall h, mi :: 0 <= h <= 23 && 0 <= mi <= 59 ==> TimeRegex(TimeText(h, mi))
  {
    if TimeRegex(s) {
      var hs, ms := s[..2], s[3..];
      assert hs[0] == s[0] && hs[1] == s[1] && ms[0] == s[3] && ms[1] == s[4];
      TwoDigits(hs);
      TwoDigits(ms);
      assert s == hs + ":" + ms;
    }
  }

  /** No argument, or the empty string, is not a valid time. */
  lemma MissingTimeInvalid()
    ensures !IsTimeValid(None) && !IsTimeValid(Some(""))
  {
  }

  // The date format: `^\d{4}\-(0[1-9]|1[012])\-(0[1-9]|[12][0-9]|3[01])$`.
  predicate DateRegex(s: string) {
    && |s| == 10
    && IsDigit(s[0]) && IsDigit(s[1]) && IsDigit(s[2]) && IsDigit(s[3])
    && s[4] == '-'
    && ((s[5] == '0' && '1' <= s[6] <= '9') || (s[5] == '1' && '0' <= s[6] <= '2'))
    && s[7] == '-'
    && ((s[8] == '0' && '1' <= s[9] <= '9') || ('1' <= s[8] <= '2' && IsDigit(s[9])) || (s[8] == '3' && '0' <= s[9] <= '1'))
  }

  /**
   * `isDateValid`: the format test, then the date library's strict parse,
   * which is taken as a parameter.
   */
  predicate IsDateValid(dateStr: string, strictParse: string -> bool) {
    if DateRegex(dateStr) then strictParse(dateStr) else false
  }

  /** A string failing the format test is invalid whatever the strict parse says. */
  lemma DateRegexGates(dateStr: string, strictParse: string -> bool)
    ensures IsDateValid(dateStr, strictParse) ==> DateRegex(dateStr)
    ensures DateRegex(dateStr) ==> (IsDateValid(dateStr, strictParse) <==> strictParse(dateStr))
  {
  }

  /** Four-digit text of a year 0-9999. */
  function Pad4(y: int): (s: string)
    requires 0 <= y < 10000
    ensures |s| == 4 && AllDigits(s)
  {
    Pad2(y / 100) + Pad2(y % 100)
  }

  /** "YYYY-MM-DD" for a year 0-9999, a month 1-12 and a day 1-31. */
  function DateText(y: int, mo: int, d: int): (s: string)
    requires 0 <= y < 10000 && 0 <= mo < 100 && 0 <= d < 100
    ensures |s| == 10
  {
    Pad4(y) + "-" + Pad2(mo) + "-" + Pad2(d)
  }

  /** Four digits read as a number and written back are the same four digits. */
  lemma Pad4OfDigits(t: string)
    requires |t| == 4 && AllDigits(t)
    ensures DigitsValue(t) < 10000 && Pad4(DigitsValue(t)) == t
  {
    DigitsValue4(t);
    Pad2OfDigits(t[..2]);
    Pad2OfDigits(t[2..]);
    var hi, lo := DigitsValue(t[..2]), DigitsValue(t[2..]);
    var y := DigitsValue(t);
    assert y == hi * 100 + lo && 0 <= lo < 100 && 0 <= hi < 100;
    assert y / 100 == hi && y % 100 == lo;
    assert t == t[..2] + t[2..];
  }

  /** Two digits: their value, and the digits written back from it. */
  lemma TwoDigits(t: string)
    requires |t| == 2 && AllDigits(t)
    ensures DigitsValue(t) == DigitValue(t[0]) * 10 + DigitValue(t[1])
    ensures DigitsValue(t) < 100 && Pad2(DigitsValue(t)) == t
  {
    DigitsValue2(t);
    Pad2OfDigits(t);
  }

  /** A string passing the date format test is the text of a year 0000-9999, a month 01-12 and a day 01-31. */
  lemma DateRegexParses(s: string)
    requires DateRegex(s)
    ensures var y, mo, d := DigitsValue(s[..4]), DigitsValue(s[5..7]), DigitsValue(s[8..]);
      0 <= y <= 9999 && 1 <= mo <= 12 && 1 <= d <= 31 && s == DateText(y, mo, d)
  {
    var ys, ms, ds := s[..4], s[5..7], s[8..];
    assert ms[0] == s[5] && ms[1] == s[6] && ds[0] == s[8] && ds[1] == s[9];
    Pad4OfDigits(ys);
    TwoDigits(ms);
    TwoDigits(ds);
    assert 1 <= DigitsValue(ms) <= 12;
    assert 1 <= DigitsValue(ds) <= 31;
    assert s == ys + "-" + ms + "-" + ds;
  }

  /** Every year 0000-9999 with a month 01-12 and a day 01-31 passes the date format test. */
  lemma DateTextPasses(y: int, mo: int, d: int)
    requires 0 <= y <= 9999 && 1 <= mo <= 12 && 1 <= d <= 31
    ensures DateRegex(DateText(y, mo, d))
  {
    var s := DateText(y, mo, d);
    assert s[5..7] == Pad2(mo) && s[8..] == Pad2(d);
  }
}
