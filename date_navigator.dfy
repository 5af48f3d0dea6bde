/**
 * The month navigator: the previous and next month as (month, year)
 * pairs, and what each button reports to `onMonthChange` and
 * `onYearChange`.
 */
module DateNavigator {
  import opened Wrappers
  import DateUtils

  /** The previous-month memo: January steps back to December of the year before. */
  function PrevMonth(month: int, year: int): (int, int) {
    if month == 0 then (11, year - 1) else (month - 1, year)
  }

  /** The next-month memo: December steps on to January of the year after. */
  function NextMonth(month: int, year: int): (int, int) {
    if month == 11 then (0, year + 1) else (month + 1, year)
  }

  /** The months since January of year 0: a (month, year) pair as one count. */
  function MonthCount(my: (int, int)): int {
    my.1 * 12 + my.0
  }

  /**
   * For a month 0-11 both steps stay in 0-11 and move the month count by
   * exactly one; each undoes the other.
   */
  lemma StepsMoveByOneMonth(month: int, year: int)
    requires 0 <= month <= 11
    ensures 0 <= PrevMonth(month, year).0 <= 11 && 0 <= NextMonth(month, year).0 <= 11
    ensures MonthCount(PrevMonth(month, year)) == MonthCount((month, year)) - 1
    ensures MonthCount(NextMonth(month, year)) == MonthCount((month, year)) + 1
    ensures NextMonth(PrevMonth(month, year).0, PrevMonth(month, year).1) == (month, year)
    ensures PrevMonth(NextMonth(month, year).0, NextMonth(month, year).1) == (month, year)
  {
  }

  /** The navigator's previous month is the date library's one month back. */
  lemma PrevMonthIsPreviousMonthDate(month: int, year: int)
    requires 0 <= month <= 11
    ensures PrevMonth(month, year) == (DateUtils.PreviousMonth(year, month).1, DateUtils.PreviousMonth(year, month).0)
  {
    var total := year * 12 + month - 1;
    if month == 0 {
      assert total == (year - 1) * 12 + 11;
    } else {
      assert total == year * 12 + (month - 1);
    }
  }

  /** What one click reports: the month to `onMonthChange` and the year to `onYearChange`; None when not called. */
  datatype Change = Change(month: Option<int>, year: Option<int>)

  /** The page's state after it applies a change with `setMonth` and `setYear`. */
  function Apply(c: Change, month: int, year: int): (int, int) {
    (c.month.GetOr(month), c.year.GetOr(year))
  }

  function HandlePrevMonthClick(month: int, year: int): Change {
    var prev := PrevMonth(month, year);
    Change(Some(prev.0), Some(prev.1))
  }

  function HandleNextMonthClick(month: int, year: int): Change {
    var next := NextMonth(month, year);
    Change(Some(next.0), Some(next.1))
  }

  function HandlePrevYearClick(year: int): Change {
    Change(None, Some(year - 1))
  }

  function HandleNextYearClick(year: int): Change {
    Change(None, Some(year + 1))
  }

  /** "See current": jump to today's (month, year) when a today is given. */
  function HandleGoToCurrentMonthClick(today: Option<(int, int)>): Change {
    if today.Some? then Change(Some(today.value.0), Some(today.value.1)) else Change(None, None)
  }

  /**
   * "See current" lands on the clock's (month, year) and reports both; with
   * no today it reports nothing and the page stays where it is.
   */
  lemma GoToCurrentMonthLands(today: Option<(int, int)>, month: int, year: int)
    ensures Apply(HandleGoToCurrentMonthClick(today), month, year) == if today.Some? then today.value else (month, year)
    ensures today.Some? <==> HandleGoToCurrentMonthClick(today).month.Some? && HandleGoToCurrentMonthClick(today).year.Some?
  {
  }

  /** The month buttons land on the neighbouring months; the year buttons change only the year, by one. */
  lemma HandlersStep(month: int, year: int)
    requires 0 <= month <= 11
    ensures MonthCount(Apply(HandlePrevMonthClick(month, year), month, year)) == MonthCount((month, year)) - 1
    ensures MonthCount(Apply(HandleNextMonthClick(month, year), month, year)) == MonthCount((month, year)) + 1
    ensures Apply(HandlePrevYearClick(year), month, year) == (month, year - 1)
    ensures Apply(HandleNextYearClick(year), month, year) == (month, year + 1)
    ensures HandlePrevYearClick(year).month.None? && HandleNextYearClick(year).month.None?
  {
    StepsMoveByOneMonth(month, year);
  }
}
