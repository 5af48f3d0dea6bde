/**
 * The month view: the grid's cells cut into week rows, the reminders each
 * cell is given, which cell is highlighted as today, and the state that
 * decides whether the reminder form is open and for what.
 */
module CalendarGrid {
  import opened Wrappers
  import opened DateUtils
  import opened ReminderUtils
  import opened ReminderFormDialog

  function Min(a: int, b: int): int {
    if a <= b then a else b
  }

  /** The rows read one after another. */
  function Flatten<T>(rows: seq<seq<T>>): seq<T> {
    if rows == [] then [] else rows[0] + Flatten(rows[1..])
  }

  lemma {:induction false} FlattenAppend<T>(rows: seq<seq<T>>, row: seq<T>)
    ensures Flatten(rows + [row]) == Flatten(rows) + row
  {
    if rows != [] {
      assert (rows + [row])[1..] == rows[1..] + [row];
      FlattenAppend(rows[1..], row);
    }
  }

  /**
   * The memo's loop: `slice(i, i + 7)` for i = 0, 7, 14, ... while i is
   * below the length. Each row is the next (at most) seven cells; a length
   * that is a multiple of seven gives full rows only.
   */
  method ChunkRows<T>(days: seq<T>) returns (rows: seq<seq<T>>)
    ensures Flatten(rows) == days
    ensures |rows| == (|days| + 6) / 7
    ensures forall k :: 0 <= k < |rows| ==> rows[k] == days[7 * k..Min(7 * k + 7, |days|)]
    ensures |days| % 7 == 0 ==> forall k :: 0 <= k < |rows| ==> |rows[k]| == 7
  {
    rows := [];
    var i := 0;
    while i < |days|
      invariant i == 7 * |rows| && i < |days| + 7
      invariant Flatten(rows) == days[..Min(i, |days|)]
      invariant forall k :: 0 <= k < |rows| ==> rows[k] == days[7 * k..Min(7 * k + 7, |days|)]
    {
      var row := days[i..Min(i + 7, |days|)];
      FlattenAppend(rows, row);
      assert days[..Min(i + 7, |days|)] == days[..i] + row;
      rows := rows + [row];
      i := i + 7;
    }
    assert days[..Min(i, |days|)] == days;
    CeilingWeeks(|days|, |rows|);
  }

  lemma CeilingWeeks(len: nat, r: nat)
    requires len <= 7 * r < len + 7
    ensures r == (len + 6) / 7
    ensures len % 7 == 0 ==> len == 7 * r
  {
  }

  /**
   * `calendarDayRows`: the month grid as week rows, five or six rows of
   * seven cells, holding the grid's cells in order.
   */
  method CalendarDayRows(year: int, month: int) returns (rows: seq<seq<DayCell>>)
    requires 0 <= month <= 11
    ensures Flatten(rows) == MonthGrid(year, month)
    ensures |rows| == 5 || |rows| == 6
    ensures 7 * |rows| == |MonthGrid(year, month)|
    ensures forall k :: 0 <= k < |rows| ==> |rows[k]| == 7 && rows[k] == MonthGrid(year, month)[7 * k..7 * k + 7]
  {
    var calendarDays := MonthGrid(year, month);
    MonthGridWholeWeeks(year, month);
    rows := ChunkRows(calendarDays);
  }

  /** `monthEventMap`: the month's reminders by day number, as the fetch function returns them. */
  function MonthEventMap(index: Index, year: int, month: int): (r: MonthMap)
    ensures Fetch(index, Some(year), Some(month), None, None) == Days(r)
  {
    MonthOf(index, year, month)
  }

  /**
   * The `reminders` a cell is given: for a cell of the shown month, that
   * day's entry of the month map (None is `undefined`); an empty map for
   * the padding cells.
   */
  function CellReminders(year: int, month: int, monthEventMap: MonthMap, day: DayCell): Option<DayMap> {
    if day.month == Some(month) && day.year == Some(year) then Get(monthEventMap, day.number) else Some(map[])
  }

  /** `active`: today's month, day and year match the cell's. */
  predicate IsActive(today: Option<(int, int, int)>, day: DayCell) {
    today.Some? && Some(today.value.1) == day.month && today.value.2 == day.number && Some(today.value.0) == day.year
  }

  /**
   * Every day of the month has its cell in the grid, and each cell of the
   * month is given exactly that day's stored reminders; the padding cells
   * are given none.
   */
  lemma GridCellReminders(index: Index, year: int, month: int, i: int)
    requires 0 <= month <= 11 && 0 <= i < |MonthGrid(year, month)|
    ensures var g, w := MonthGrid(year, month), LeadingCount(year, month);
      var r := CellReminders(year, month, MonthEventMap(index, year, month), g[i]);
      && (g[i].isEnabled ==> r == Get(MonthOf(index, year, month), i - w + 1)
                             && r.GetOr(map[]) == DayOf(index, year, month, i - w + 1))
      && (!g[i].isEnabled ==> r == Some(map[]))
  {
    MonthGridLayout(year, month);
    MonthGridEnabledCells(year, month);
  }

  /** Each day of the month 1..n sits in the cell just after the leading padding. */
  lemma EveryDayHasItsCell(year: int, month: int, d: int)
    requires 0 <= month <= 11 && 1 <= d <= MonthLength(year, month)
    ensures var g, w := MonthGrid(year, month), LeadingCount(year, month);
      w + d - 1 < |g| && g[w + d - 1] == DayCell(d, true, Some(month), Some(year))
  {
    MonthGridLayout(year, month);
  }

  /**
   * The highlighted cell: only when today falls in the shown month and
   * year, and then exactly the cell of today's day.
   */
  lemma ActiveCell(year: int, month: int, today: Option<(int, int, int)>, i: int)
    requires 0 <= month <= 11 && 0 <= i < |MonthGrid(year, month)|
    ensures var g, w, n := MonthGrid(year, month), LeadingCount(year, month), MonthLength(year, month);
      IsActive(today, g[i]) <==>
        (today.Some? && today.value.0 == year && today.value.1 == month &&
         1 <= today.value.2 <= n && i == w + today.value.2 - 1)
  {
    MonthGridLayout(year, month);
    MonthGridEnabledCells(year, month);
  }

  /**
   * The reminder form's state in the grid: `mode` and `target`, None for
   * `undefined`. The form is shown while both are set.
   */
  class GridForm {
    var mode: Option<Mode>
    var target: Option<FormTarget>

    predicate DialogOpen()
      reads this
    {
      mode.Some? && target.Some?
    }

    constructor ()
      ensures mode == None && target == None && !DialogOpen()
    {
      mode := None;
      target := None;
    }

    /** `handleDayClick`: a create form for the given date, with no time. */
    method HandleDayClick(year: int, month: int, day: int)
      modifies this
      ensures mode == Some(Create) && target == Some(FormTarget(year, month, day, None))
      ensures DialogOpen() && !IsUpdateMode(mode.value, target.value)
    {
      mode := Some(Create);
      target := Some(FormTarget(year, month, day, None));
    }

    /**
     * `handleReminderClick`: an update form for the reminder at `time`,
     * dated by the grid's year and month and the cell's number.
     */
    method HandleReminderClick(year: int, month: int, day: DayCell, time: Time)
      modifies this
      ensures mode == Some(Update) && target == Some(FormTarget(year, month, day.number, Some(time)))
      ensures DialogOpen() && IsUpdateMode(mode.value, target.value)
    {
      mode := Some(Update);
      target := Some(FormTarget(year, month, day.number, Some(time)));
    }

    /** `handleReminderFormClose`: both cleared, so the form is removed. */
    method HandleReminderFormClose()
      modifies this
      ensures mode == None && target == None && !DialogOpen()
    {
      mode := None;
      target := None;
    }

    /**
     * The dialog's own close request: it reaches `handleReminderFormClose`
     * only when `handleClose` forwards it, so a backdrop click leaves the form
     * open. The dialog disables the Escape key, so the backdrop is the reason
     * the dialog itself raises; any other reason comes from another caller.
     */
    method DialogClose(reason: string)
      modifies this
      ensures reason == BackdropClick ==> mode == old(mode) && target == old(target)
      ensures reason != BackdropClick ==> mode == None && target == None && !DialogOpen()
    {
      var forwarded := HandleClose(reason);
      if forwarded.Some? {
        HandleReminderFormClose();
      }
    }

    /**
     * A click on cell `i` of the grid: only an enabled cell has a handler,
     * and it opens a create form for that day of the shown month.
     */
    method ClickCell(year: int, month: int, i: int)
      requires 0 <= month <= 11 && 0 <= i < |MonthGrid(year, month)|
      modifies this
      ensures var g := MonthGrid(year, month);
        g[i].isEnabled ==> mode == Some(Create) && target == Some(FormTarget(year, month, g[i].number, None))
      ensures !MonthGrid(year, month)[i].isEnabled ==> mode == old(mode) && target == old(target)
    {
      var day := MonthGrid(year, month)[i];
      MonthGridLayout(year, month);
      MonthGridEnabledCells(year, month);
      if day.isEnabled {
        HandleDayClick(day.year.value, day.month.value, day.number);
      }
    }
  }
}
