/**
 * The calendar page as a whole: a reminder created from a day's default
 * date lands in that day's cell of the month grid.
 */
module CalendarPage {
  import opened Wrappers
  import opened LocationPicker
  import opened ReminderUtils
  import opened CalendarActions
  import opened CalendarReducer
  import opened DateUtils
  import opened ReminderFormDialog
  import opened CalendarGrid

  /** A reminder stored under a day of the shown month is in the map that day's cell is given. */
  lemma StoredReminderShown(index: Index, year: int, month: int, day: int, time: Time, reminder: Reminder)
    requires 0 <= month <= 11 && 1 <= day <= MonthLength(year, month)
    requires Slot(index, year, month, day, time) == Some(reminder)
    ensures var cell := MonthGrid(year, month)[LeadingCount(year, month) + day - 1];
      var shown := CellReminders(year, month, MonthEventMap(index, year, month), cell);
      && cell.number == day && cell.isEnabled
      && shown.Some? && time in shown.value && shown.value[time] == reminder
  {
    EveryDayHasItsCell(year, month, day);
    var i := LeadingCount(year, month) + day - 1;
    GridCellReminders(index, year, month, i);
    var dayMap := DayOf(index, year, month, day);
    assert time in dayMap;
    assert day in MonthOf(index, year, month);
  }

  /**
   * Clicking day `day` of the shown month opens a form whose date text
   * parses back to that day (`FormatThenParse`); the ADD it then
   * dispatches leaves the reminder in the map the grid hands to that day's
   * cell, under its time.
   */
  lemma CreatedReminderShownInItsCell(index: Index, year: int, month: int, day: int,
                                      time: Time, location: Location, text: string)
    requires 0 <= month <= 11 && 1 <= day <= MonthLength(year, month)
    ensures var after := Reduce(index, AddReminder(year, month, day, time, location, text));
      var cell := MonthGrid(year, month)[LeadingCount(year, month) + day - 1];
      var shown := CellReminders(year, month, MonthEventMap(after, year, month), cell);
      && cell.number == day && cell.isEnabled
      && shown.Some? && time in shown.value && shown.value[time] == Reminder(text, location)
  {
    var after := Reduce(index, AddReminder(year, month, day, time, location, text));
    assert Slot(after, year, month, day, time) == Some(Reminder(text, location)) by {
      AddStores(index, year, month, day, time, location, text);
    }
    StoredReminderShown(after, year, month, day, time, Reminder(text, location));
  }
}
