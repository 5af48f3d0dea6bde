/**
 * The calendar reducer: ADD, UPDATE and DELETE mutate the reminder index in
 * place through `getOrCreateDayMap`; any other action leaves it alone.
 */
module CalendarReducer {
  import opened Wrappers
  import opened LocationPicker
  import opened ReminderUtils
  import opened CalendarActions

  /** The index after one action, as the reducer's in-place steps leave it. */
  function Reduce(m: Index, a: Action): Index
    requires WellFormed(a)
  {
    if a.kind == ADD_REMINDER then
      var p := a.payload;
      PutTime(Materialise(m, p.year, p.month, p.day), p.year, p.month, p.day, p.time, Reminder(p.text, p.location))
    else if a.kind == UPDATE_REMINDER then
      var o, n := a.payload.originalTarget, a.payload.newTarget;
      var afterDelete := RemoveTime(Materialise(m, o.year, o.month, o.day), o.year, o.month, o.day, o.time);
      PutTime(Materialise(afterDelete, n.year, n.month, n.day), n.year, n.month, n.day, n.time,
              Reminder(a.payload.newText, a.payload.newLocation))
    else if a.kind == DELETE_REMINDER then
      var p := a.payload;
      RemoveTime(Materialise(m, p.year, p.month, p.day), p.year, p.month, p.day, p.time)
    else
      m
  }

  /** ADD stores the new reminder in its slot, whether or not the slot was taken. */
  lemma AddStores(m: Index, y: int, mo: int, d: int, t: Time, loc: Location, text: string)
    ensures Slot(Reduce(m, AddReminder(y, mo, d, t, loc, text)), y, mo, d, t) == Some(Reminder(text, loc))
    ensures Fetch(Reduce(m, AddReminder(y, mo, d, t, loc, text)), Some(y), Some(mo), Some(d), Some(t)) == Found(Reminder(text, loc))
  {
    FetchFullKey(Reduce(m, AddReminder(y, mo, d, t, loc, text)), y, mo, d, t);
  }

  /** ADD leaves every other slot as it was. */
  lemma AddFrame(m: Index, y: int, mo: int, d: int, t: Time, loc: Location, text: string,
                 y': int, mo': int, d': int, t': Time)
    requires (y', mo', d', t') != (y, mo, d, t)
    ensures Slot(Reduce(m, AddReminder(y, mo, d, t, loc, text)), y', mo', d', t') == Slot(m, y', mo', d', t')
  {
    MaterialiseKeepsSlots(m, y, mo, d);
  }

  /** UPDATE leaves the new key holding the new text and location, also when both keys are equal. */
  lemma UpdateStores(m: Index, o: Target, n: Target, loc: Location, text: string)
    ensures Slot(Reduce(m, UpdateReminder(o, n, loc, text)), n.year, n.month, n.day, n.time) == Some(Reminder(text, loc))
  {
  }

  /** UPDATE between distinct keys empties the original slot and touches no third slot. */
  lemma UpdateMoves(m: Index, o: Target, n: Target, loc: Location, text: string)
    requires o != n
    ensures Slot(Reduce(m, UpdateReminder(o, n, loc, text)), o.year, o.month, o.day, o.time) == None
    ensures forall y, mo, d, t :: (y, mo, d, t) != (o.year, o.month, o.day, o.time) &&
                                  (y, mo, d, t) != (n.year, n.month, n.day, n.time) ==>
      Slot(Reduce(m, UpdateReminder(o, n, loc, text)), y, mo, d, t) == Slot(m, y, mo, d, t)
  {
    MaterialiseKeepsSlots(m, o.year, o.month, o.day);
    var afterDelete := RemoveTime(Materialise(m, o.year, o.month, o.day), o.year, o.month, o.day, o.time);
    MaterialiseKeepsSlots(afterDelete, n.year, n.month, n.day);
  }

  /**
   * A same-key UPDATE, delete then recreate, leaves exactly the index an
   * ADD of the new content would.
   */
  lemma UpdateSameKeyIsAdd(m: Index, k: Target, loc: Location, text: string)
    ensures Reduce(m, UpdateReminder(k, k, loc, text)) == Reduce(m, AddReminder(k.year, k.month, k.day, k.time, loc, text))
  {
    var m1 := Materialise(m, k.year, k.month, k.day);
    var m2 := RemoveTime(m1, k.year, k.month, k.day, k.time);
    MaterialisePresent(m2, k.year, k.month, k.day);
    var y, mo, d, r := k.year, k.month, k.day, Reminder(text, loc);
    var dayMap: DayMap := m1[y][mo][d];
    assert (dayMap - {k.time})[k.time := r] == dayMap[k.time := r];
    assert m2[y][mo][d := dayMap[k.time := r]] == m1[y][mo][d := dayMap[k.time := r]];
    assert m2[y][mo := m1[y][mo][d := dayMap[k.time := r]]] == m1[y][mo := m1[y][mo][d := dayMap[k.time := r]]];
    assert PutTime(m2, y, mo, d, k.time, r) == PutTime(m1, y, mo, d, k.time, r);
  }

  /**
   * DELETE empties the slot and keeps every other one; when the slot was
   * already empty no reminder changes, yet the path's maps now exist.
   */
  lemma DeleteRemoves(m: Index, y: int, mo: int, d: int, t: Time)
    ensures Slot(Reduce(m, DeleteReminder(y, mo, d, t)), y, mo, d, t) == None
    ensures HasDay(Reduce(m, DeleteReminder(y, mo, d, t)), y, mo, d)
    ensures forall y', mo', d', t' :: (y', mo', d', t') != (y, mo, d, t) ==>
      Slot(Reduce(m, DeleteReminder(y, mo, d, t)), y', mo', d', t') == Slot(m, y', mo', d', t')
  {
    MaterialiseKeepsSlots(m, y, mo, d);
  }

  /** DELETE of an empty slot on a path that is not there yet still changes the index. */
  lemma DeleteAbsentMaterialises(m: Index, y: int, mo: int, d: int, t: Time)
    requires !HasDay(m, y, mo, d)
    ensures Reduce(m, DeleteReminder(y, mo, d, t)) != m
  {
    assert HasDay(Reduce(m, DeleteReminder(y, mo, d, t)), y, mo, d);
  }

  /** Actions of other kinds return the index as it was. */
  lemma OtherActionsIgnored(m: Index, a: Action)
    requires WellFormed(a)
    requires a.kind != ADD_REMINDER && a.kind != UPDATE_REMINDER && a.kind != DELETE_REMINDER
    ensures Reduce(m, a) == m
  {
  }

  /** The calendar state: it holds the index's root map, which every command mutates in place. */
  class CalendarStore {
    const reminders: RemindersMap

    /** The store starts with an empty index. */
    constructor ()
      ensures fresh(reminders) && reminders.years == map[]
    {
      reminders := new RemindersMap();
    }

    /** `calendarReducer(state, action)`; the returned state keeps the same `reminders` map. */
    method Dispatch(a: Action)
      requires WellFormed(a)
      modifies reminders
      ensures reminders.years == Reduce(old(reminders.years), a)
    {
      if a.kind == ADD_REMINDER {
        var p := a.payload;
        var dayMap := reminders.GetOrCreateDayMap(p.year, p.month, p.day);
        // An occupied slot (`p.time in dayMap`) is only logged; the reminder is written anyway.
        reminders.SetInDay(p.year, p.month, p.day, p.time, Reminder(p.text, p.location));
      } else if a.kind == UPDATE_REMINDER {
        var o, n := a.payload.originalTarget, a.payload.newTarget;
        var originalDayMap := reminders.GetOrCreateDayMap(o.year, o.month, o.day);
        reminders.DeleteInDay(o.year, o.month, o.day, o.time);
        var newDayMap := reminders.GetOrCreateDayMap(n.year, n.month, n.day);
        reminders.SetInDay(n.year, n.month, n.day, n.time, Reminder(a.payload.newText, a.payload.newLocation));
      } else if a.kind == DELETE_REMINDER {
        var p := a.payload;
        var dayMap := reminders.GetOrCreateDayMap(p.year, p.month, p.day);
        reminders.DeleteInDay(p.year, p.month, p.day, p.time);
      }
    }
  }

  /** The scenario of moving a reminder to another day and time. */
  lemma MoveScenario(loc: Location)
    ensures var m0 := Reduce(map[], AddReminder(2024, 0, 1, "09:00", loc, "Standup"));
            var m1 := Reduce(m0, UpdateReminder(Target(2024, 0, 1, "09:00"), Target(2024, 0, 2, "10:00"), loc, "Retro"));
            Fetch(m1, Some(2024), Some(0), Some(1), Some("09:00")) == NotFound &&
            Fetch(m1, Some(2024), Some(0), Some(2), Some("10:00")) == Found(Reminder("Retro", loc))
  {
    var m0 := Reduce(map[], AddReminder(2024, 0, 1, "09:00", loc, "Standup"));
    var o, n := Target(2024, 0, 1, "09:00"), Target(2024, 0, 2, "10:00");
    UpdateMoves(m0, o, n, loc, "Retro");
    UpdateStores(m0, o, n, loc, "Retro");
    var m1 := Reduce(m0, UpdateReminder(o, n, loc, "Retro"));
    FetchFullKey(m1, 2024, 0, 1, "09:00");
    FetchFullKey(m1, 2024, 0, 2, "10:00");
  }
}
