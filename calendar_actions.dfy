/** The calendar store's commands: their type strings and payload constructors. */
module CalendarActions {
  import opened LocationPicker
  import opened ReminderUtils

  const ADD_REMINDER: string := "calendar/addReminder"
  const UPDATE_REMINDER: string := "calendar/updateReminder"
  const DELETE_REMINDER: string := "calendar/deleteReminder"

  /** An identifier object `{ year, month, day, time }` for one slot. */
  datatype Target = Target(year: int, month: int, day: int, time: Time)

  datatype Payload =
    | AddPayload(year: int, month: int, day: int, time: Time, location: Location, text: string)
    | UpdatePayload(originalTarget: Target, newTarget: Target, newLocation: Location, newText: string)
    | DeletePayload(year: int, month: int, day: int, time: Time)
    | OtherPayload   // any action of another part of the store

  /** A dispatched action `{ type, payload }`. */
  datatype Action = Action(kind: string, payload: Payload)

  /** The payload has the shape its type string announces. */
  predicate WellFormed(a: Action) {
    && (a.kind == ADD_REMINDER ==> a.payload.AddPayload?)
    && (a.kind == UPDATE_REMINDER ==> a.payload.UpdatePayload?)
    && (a.kind == DELETE_REMINDER ==> a.payload.DeletePayload?)
  }

  /** The three type strings differ, so the reducer's `switch` picks one case per action. */
  lemma KindsDistinct()
    ensures ADD_REMINDER != UPDATE_REMINDER && ADD_REMINDER != DELETE_REMINDER && UPDATE_REMINDER != DELETE_REMINDER
  {
    assert ADD_REMINDER[9] == 'a' && UPDATE_REMINDER[9] == 'u' && DELETE_REMINDER[9] == 'd';
  }

  /** `addReminder`: the six arguments travel unchanged in an ADD_REMINDER action. */
  function AddReminder(year: int, month: int, day: int, time: Time, location: Location, text: string): (a: Action)
    ensures WellFormed(a) && a.kind == ADD_REMINDER
    ensures a.payload.year == year && a.payload.month == month && a.payload.day == day
    ensures a.payload.time == time && a.payload.location == location && a.payload.text == text
  {
    KindsDistinct();
    Action(ADD_REMINDER, AddPayload(year, month, day, time, location, text))
  }

  /** `updateReminder`: both targets, the new location and text in an UPDATE_REMINDER action. */
  function UpdateReminder(originalTarget: Target, newTarget: Target, newLocation: Location, newText: string): (a: Action)
    ensures WellFormed(a) && a.kind == UPDATE_REMINDER
    ensures a.payload.originalTarget == originalTarget && a.payload.newTarget == newTarget
    ensures a.payload.newLocation == newLocation && a.payload.newText == newText
  {
    KindsDistinct();
    Action(UPDATE_REMINDER, UpdatePayload(originalTarget, newTarget, newLocation, newText))
  }

  /** `deleteReminder`: the slot's key in a DELETE_REMINDER action. */
  function DeleteReminder(year: int, month: int, day: int, time: Time): (a: Action)
    ensures WellFormed(a) && a.kind == DELETE_REMINDER
    ensures a.payload.year == year && a.payload.month == month && a.payload.day == day && a.payload.time == time
  {
    KindsDistinct();
    Action(DELETE_REMINDER, DeletePayload(year, month, day, time))
  }
}
