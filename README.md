# Reminder calendar, modelled in Dafny

A model of the core of a single-page reminder calendar. The app shows one
month as a grid of week rows. You move between months and years with a
navigator. Clicking a day opens a form that creates a reminder (a text of
at most 30 characters, a location picked from geocoding search results
and an "hh:mm" time). Clicking a reminder opens the same form to update or
delete it.

The model covers these parts:

- **The reminder index** (`ReminderUtils`): reminders are kept in a nested
  index year → month (0-11) → day → time → reminder.
  - `getOrCreateDayMap` creates the missing levels of that index, in place.
  - The fetch function reads any prefix of a key through optional chaining.
- **The calendar store** (`CalendarActions`, `CalendarReducer`): the ADD,
  UPDATE and DELETE commands, and a reducer that changes the index in place.
- **The month grid** (`DateUtils`, `CalendarGrid`):
  - the grid itself: the previous month's tail, the month's days, then the
    next month's head;
  - the date and time format validators;
  - the grid cut into week rows, the reminders each cell is given, the
    highlighted "today" cell, and the state that opens the form.
- **The month navigator** (`DateNavigator`): the previous and next month,
  and what each button reports.
- **The reminder form** (`ReminderFormDialog`):
  - its default date text "YYYY-MM-DD" and the parsing of that text back
    into the action's numbers;
  - the four validators and the guards on create, update and delete.
- **The location picker** (`LocationPicker`): the pipeline that turns a
  geocoding response into at most three options (filter, take three,
  convert), and the picker's state.
- **The profile store** (`ProfileActions`, `ProfileReducer`): the inferred
  location with its IP address, and the colour theme.
- **The calendar page** (`CalendarPage`): a reminder created from a day's
  default date appears in that day's cell.

Modelling choices:

- JavaScript `undefined` is `Option.None`.
- `Number(s)` is modelled only on the strings the form feeds it. A digit
  string gives its value, and any other string gives None (NaN).
- The reminder index, written in place by the reducer, is a `map` field of
  the class `RemindersMap`. Its methods state the new index as a function
  of the old one (`Materialise`, `PutTime`, `RemoveTime`). The reducer's
  lemmas are stated about those functions.
- Component state that a handler changes (the picker, the grid's form
  state, the form) becomes a class whose methods change its fields.
  Methods return the callbacks the source calls (`onChange` values, the
  dispatched action).
- The date library's calendar arithmetic is modelled by the proleptic
  Gregorian calendar. Its weekdays use `0` for Sunday, and its month
  lengths include leap years. `new Date(year, month)` reads a year 0-99
  as 1900-1999 (`EffectiveYear`).
- The date library's strict "YYYY-MM-DD" parse is a function parameter of
  `IsDateValid`.

Where the documentation and the code differ, the model follows the code:

- The reducer comment at `src/store/calendar/calendar.reducer.js:12-14`
  says an ADD avoids overriding an existing entry. The code logs an error
  at lines 15-20 and then overwrites the entry at line 22. `AddStores`
  proves that the slot holds the new reminder whether or not it was taken.

## Model

| member | source | states |
|---|---|---|
| ReminderUtils.Materialise | src/utils/reminderUtils.js:14-31 | after the three presence tests the day's path exists; the day map is the old one, or empty if it was missing; every old entry at every level is kept; each level gains at most the one key; every other year map, and every other month map of the year, is unchanged |
| ReminderUtils.MaterialiseKeepsSlots | src/utils/reminderUtils.js:14-31 | creating the path changes no reminder anywhere in the index |
| ReminderUtils.MaterialisePresent | src/utils/reminderUtils.js:15-29 | when the day's path already exists, nothing is created |
| ReminderUtils.MaterialiseIdempotent | src/utils/reminderUtils.js:14-31 | calling it a second time for the same day changes nothing |
| ReminderUtils.PutTime | src/store/calendar/calendar.reducer.js:22 | `dayMap.set(time, …)` through the live day map: only that slot changes, and the same days exist |
| ReminderUtils.RemoveTime | src/store/calendar/calendar.reducer.js:62 | `dayMap.delete(time)`: only that slot becomes empty, and the same days exist |
| ReminderUtils.Fetch | src/utils/reminderUtils.js:48-73 | the fetch function itself; what it returns for each combination of arguments is stated by `FetchFullKey`, `FetchPrefixes`, `FetchUndefinedOnlyForFullKey` and `FetchEmptyIndex` |
| ReminderUtils.Get | src/utils/reminderUtils.js:59 | `Map.get`: defined exactly for present keys, and then the stored value |
| ReminderUtils.FetchFullKey | src/utils/reminderUtils.js:57-59 | with all four arguments the reminder at that slot is returned, or `undefined` when there is none |
| ReminderUtils.FetchPrefixes | src/utils/reminderUtils.js:60-72 | a day, month or year prefix returns that level's map (empty if missing); no year returns the whole index; a later argument after a missing one is ignored |
| ReminderUtils.FetchUndefinedOnlyForFullKey | src/utils/reminderUtils.js:43-44 | the result is `undefined` only when all four arguments are given and no reminder is there |
| ReminderUtils.FetchEmptyIndex | src/utils/reminderUtils.js:48-73 | on an empty index every lookup gives `undefined` or an empty map |
| ReminderUtils.RemindersMap.constructor | src/store/calendar/calendar.reducer.js:2 | the index starts empty |
| ReminderUtils.RemindersMap.GetOrCreateDayMap | src/utils/reminderUtils.js:14-32 | the index becomes `Materialise` of the old one; the returned map is the day's old map, or empty if it was missing |
| ReminderUtils.RemindersMap.SetInDay | src/store/calendar/calendar.reducer.js:22 | a write through the returned day map is `PutTime` on the index |
| ReminderUtils.RemindersMap.DeleteInDay | src/store/calendar/calendar.reducer.js:42 | a delete through the returned day map is `RemoveTime` on the index |
| CalendarActions.KindsDistinct | src/store/calendar/calendar.actions.js:6-8 | the three type strings differ |
| CalendarActions.AddReminder | src/store/calendar/calendar.actions.js:21-24 | an ADD_REMINDER action whose payload holds the six arguments unchanged |
| CalendarActions.UpdateReminder | src/store/calendar/calendar.actions.js:34-42 | an UPDATE_REMINDER action carrying both targets, the new location and the new text |
| CalendarActions.DeleteReminder | src/store/calendar/calendar.actions.js:46-49 | a DELETE_REMINDER action carrying the slot's key |
| CalendarReducer.Reduce | src/store/calendar/calendar.reducer.js:5-72 | the reducer on the index; its effect per action type is stated by the lemmas below |
| CalendarReducer.AddStores | src/store/calendar/calendar.reducer.js:7-28 | after ADD the slot holds the new reminder, even if it was taken, and a full-key fetch finds it |
| CalendarReducer.AddFrame | src/store/calendar/calendar.reducer.js:10-22 | ADD changes no other slot |
| CalendarReducer.UpdateStores | src/store/calendar/calendar.reducer.js:44-51 | after UPDATE the new key holds the new text and location |
| CalendarReducer.UpdateMoves | src/store/calendar/calendar.reducer.js:32-51 | UPDATE between different keys empties the original slot and changes no third slot |
| CalendarReducer.UpdateSameKeyIsAdd | src/store/calendar/calendar.reducer.js:32-51 | UPDATE with equal keys (delete, then set) gives an index with the same contents as an ADD of the new reminder |
| CalendarReducer.DeleteRemoves | src/store/calendar/calendar.reducer.js:58-68 | DELETE empties that slot, leaves its day's path in place, and changes no other slot |
| CalendarReducer.DeleteAbsentMaterialises | src/store/calendar/calendar.reducer.js:61-62 | deleting from a day whose path is missing still changes the index, because it creates the empty path |
| CalendarReducer.OtherActionsIgnored | src/store/calendar/calendar.reducer.js:69-70 | an action of another type leaves the index unchanged |
| CalendarReducer.MoveScenario | src/store/calendar/calendar.reducer.js:29-57 | ADD, then UPDATE to another day and time: the old slot fetches `undefined` and the new slot the updated reminder |
| CalendarReducer.CalendarStore.constructor | src/store/calendar/calendar.reducer.js:5 | the store starts with an empty index |
| CalendarReducer.CalendarStore.Dispatch | src/store/calendar/calendar.reducer.js:5-72 | the in-place steps leave the index equal to `Reduce` of the old index and the action |
| DateUtils.DaysInMonth | src/utils/dateUtils.js:56 | month lengths are 28-31, and February has 29 days exactly in leap years |
| DateUtils.Weekday | src/utils/dateUtils.js:40 | `day()` is a weekday 0-6 |
| DateUtils.YearLength | src/utils/dateUtils.js:40 | the day count gives a year 366 days exactly when it is a leap year |
| DateUtils.NextFirstDay | src/utils/dateUtils.js:40-56 | the first of the next month is `daysInMonth` days after the first of this one, across a year end too |
| DateUtils.WeekdayOfNextMonth | src/utils/dateUtils.js:40-56 | the next month's first weekday is this one's shifted by this month's length, mod 7 |
| DateUtils.KnownWeekdays | src/utils/dateUtils.js:40 | 1970-01-01 is a Thursday, 2024-01-01 a Monday and 2024-03-01 a Friday |
| DateUtils.PreviousMonth | src/utils/dateUtils.js:77-79 | one month back is always a month 0-11 |
| DateUtils.MonthGrid | src/utils/dateUtils.js:26-75 | the month grid; its layout is stated cell by cell by `MonthGridLayout`, its length by `MonthGridWholeWeeks` |
| DateUtils.ReverseAt | src/utils/dateUtils.js:53 | `reverse()` puts element `k` of the result at position `len-1-k` of the input |
| DateUtils.MonthGridLayout | src/utils/dateUtils.js:26-75 | the grid is the previous month's last `w` days in ascending order (w = weekday of the 1st), then days 1..n (enabled, tagged with the month and year), then `7 - (w+n)%7` disabled days 1, 2, …, a full week when w+n is already a multiple of 7 |
| DateUtils.MonthGridWholeWeeks | src/utils/dateUtils.js:67-74 | the grid length is a multiple of 7, either 35 or 42 |
| DateUtils.MonthGridEnabledCells | src/utils/dateUtils.js:46-72 | a cell is enabled exactly inside the month's block, and carries a month and year exactly when enabled |
| DateUtils.February2024 | src/utils/dateUtils.js:26-75 | February 2024 starts on a Thursday, has 29 days and a 35-cell grid |
| DateUtils.February2015FullTrailingWeek | src/utils/dateUtils.js:67-72 | a month that fills exactly four weeks still gets a fifth, disabled week |
| DateUtils.TwoDigitYears | src/utils/dateUtils.js:36 | years 0-99 take their weekdays and lengths from 1900-1999, while the cells keep the year given |
| DateUtils.TimeRegex | src/utils/dateUtils.js:97 | `TIME_REGEX`; characterised by `TimeValidIff` |
| DateUtils.IsTimeValid | src/utils/dateUtils.js:122-125 | `isTimeValid`, with a missing time read as ""; see `TimeValidIff` and `MissingTimeInvalid` |
| DateUtils.TimeValidIff | src/utils/dateUtils.js:97 | the time format accepts exactly the "hh:mm" texts with hours 00-23 and minutes 00-59 |
| DateUtils.MissingTimeInvalid | src/utils/dateUtils.js:122-125 | missing and empty times are invalid |
| DateUtils.DateRegex | src/utils/dateUtils.js:96 | `DATE_REGEX`; characterised by `DateRegexParses` and `DateTextPasses` |
| DateUtils.IsDateValid | src/utils/dateUtils.js:102-117 | the regex first, then the strict parse; see `DateRegexGates` |
| DateUtils.DateRegexGates | src/utils/dateUtils.js:102-117 | a date failing the format test is invalid; one passing it is valid exactly when the strict parse accepts it |
| DateUtils.DateRegexParses | src/utils/dateUtils.js:96 | a text passing the date format is the text of a year 0000-9999, a month 01-12 and a day 01-31 |
| DateUtils.DateTextPasses | src/utils/dateUtils.js:96 | every such year, month and day written out passes the date format |
| DateNavigator.PrevMonth | src/components/DateNavigator/DateNavigator.jsx:32-40 | the previous-month memo; see `StepsMoveByOneMonth` |
| DateNavigator.NextMonth | src/components/DateNavigator/DateNavigator.jsx:42-50 | the next-month memo; see `StepsMoveByOneMonth` |
| DateNavigator.StepsMoveByOneMonth | src/components/DateNavigator/DateNavigator.jsx:32-50 | the previous and next months stay in 0-11, move the month count by exactly ±1, and undo each other |
| DateNavigator.PrevMonthIsPreviousMonthDate | src/components/DateNavigator/DateNavigator.jsx:32-40 | the navigator's previous month equals the date library's one month back |
| DateNavigator.HandlePrevMonthClick | src/components/DateNavigator/DateNavigator.jsx:52-55 | reports the previous month and its year; see `HandlersStep` |
| DateNavigator.HandleNextMonthClick | src/components/DateNavigator/DateNavigator.jsx:57-60 | reports the next month and its year; see `HandlersStep` |
| DateNavigator.HandlePrevYearClick | src/components/DateNavigator/DateNavigator.jsx:62-64 | reports only the year before; see `HandlersStep` |
| DateNavigator.HandleNextYearClick | src/components/DateNavigator/DateNavigator.jsx:66-68 | reports only the year after; see `HandlersStep` |
| DateNavigator.HandleGoToCurrentMonthClick | src/components/DateNavigator/DateNavigator.jsx:70-75 | reports today's year and month when a today is given; see `GoToCurrentMonthLands` |
| DateNavigator.HandlersStep | src/components/DateNavigator/DateNavigator.jsx:52-68 | the month buttons land one month earlier or later; the year buttons report only a year, one earlier or later |
| DateNavigator.GoToCurrentMonthLands | src/components/DateNavigator/DateNavigator.jsx:70-75 | "see current" lands on the clock's month and year and reports both; with no today nothing is reported and the page stays |
| CalendarGrid.FlattenAppend | src/components/CalendarGrid/CalendarGrid.jsx:22 | appending a row appends its cells |
| CalendarGrid.ChunkRows | src/components/CalendarGrid/CalendarGrid.jsx:20-23 | the rows hold the cells in order; there are ⌈len/7⌉ rows, row k is cells 7k..7k+7 (clamped), and a length that is a multiple of 7 gives rows of exactly seven |
| CalendarGrid.CalendarDayRows | src/components/CalendarGrid/CalendarGrid.jsx:14-26 | the month grid splits into 5 or 6 rows of exactly seven cells, as the comment at lines 18-19 expects |
| CalendarGrid.MonthEventMap | src/components/CalendarGrid/CalendarGrid.jsx:28-29 | `getReminders(year, month)` returns the month's map of day maps |
| CalendarGrid.CellReminders | src/components/CalendarGrid/CalendarGrid.jsx:73-77 | the map a cell is given; see `GridCellReminders` |
| CalendarGrid.IsActive | src/components/CalendarGrid/CalendarGrid.jsx:78-83 | the `active` flag; see `ActiveCell` |
| CalendarGrid.GridCellReminders | src/components/CalendarGrid/CalendarGrid.jsx:73-77 | an enabled cell is given the stored day map of its own day; a padding cell is given an empty map |
| CalendarGrid.EveryDayHasItsCell | src/utils/dateUtils.js:58-63 | each day 1..n of the month has its enabled cell, right after the leading padding |
| CalendarGrid.ActiveCell | src/components/CalendarGrid/CalendarGrid.jsx:78-83 | a cell is highlighted exactly when today falls in the shown month and year and the cell is today's day |
| CalendarGrid.GridForm.constructor | src/components/CalendarGrid/CalendarGrid.jsx:11-12 | no mode and no target, so no form |
| CalendarGrid.GridForm.HandleDayClick | src/components/CalendarGrid/CalendarGrid.jsx:31-34 | a create form for that date without a time, shown and not in update mode |
| CalendarGrid.GridForm.HandleReminderClick | src/components/CalendarGrid/CalendarGrid.jsx:41-46 | an update form for the grid's year and month, the cell's day and the reminder's time, which is in update mode |
| CalendarGrid.GridForm.HandleReminderFormClose | src/components/CalendarGrid/CalendarGrid.jsx:36-39 | both cleared, so the form is removed (line 95) |
| CalendarGrid.GridForm.DialogClose | src/components/ReminderFormDialog/ReminderFormDialog.jsx:241-247 | the dialog's close request reaches `handleReminderFormClose` unless it is a backdrop click: a backdrop click leaves mode and target as they were, any other reason clears both |
| CalendarGrid.GridForm.ClickCell | src/components/CalendarGrid/CalendarGrid.jsx:67-71 | only enabled cells respond, with a create form for that day of the shown month |
| LocationPicker.Filter | src/components/LocationPicker/LocationPicker.jsx:127-131 | every kept record has an accepted type, is not the suggestion, and comes from the response |
| LocationPicker.Keep | src/components/LocationPicker/LocationPicker.jsx:128-130 | the filter's test: an accepted type and not the suggestion's place id; see `Filter` |
| LocationPicker.ToLocation | src/components/LocationPicker/LocationPicker.jsx:133-138 | the `map` step with latitude and longitude kept as text; see `SearchResultsProperties` |
| LocationPicker.SearchResults | src/components/LocationPicker/LocationPicker.jsx:126-138 | the filter, take three, convert pipeline; see `SearchResultsAreFirstSurvivors` and `SearchResultsProperties` |
| LocationPicker.FilterTakeIsFirstSurvivors | src/components/LocationPicker/LocationPicker.jsx:126-138 | filtering, taking `n` and converting equals one pass that takes acceptable records while fewer than `n` are taken |
| LocationPicker.SearchResultsAreFirstSurvivors | src/components/LocationPicker/LocationPicker.jsx:126-138 | the options are exactly the first three acceptable records, in response order |
| LocationPicker.SearchResultsProperties | src/components/LocationPicker/LocationPicker.jsx:26-34 | at most three options; each is the conversion of a response record of an accepted type, and none has the suggestion's place id |
| LocationPicker.SearchResultsKeepAllWhenFew | src/components/LocationPicker/LocationPicker.jsx:132 | with three or fewer acceptable records, all of them are offered |
| LocationPicker.Picker.constructor | src/components/LocationPicker/LocationPicker.jsx:80-102 | after mounting, the search text is the value's name (or "" when there is no value, via the effect at 157-164); an empty search text clears the location |
| LocationPicker.Picker.ChangeSearch | src/components/LocationPicker/LocationPicker.jsx:97-102 | typing sets the search text, and the dummy field also opens the box; changing it to "" clears the location and reports `undefined` |
| LocationPicker.Picker.BeginSearch | src/components/LocationPicker/LocationPicker.jsx:104-111 | a search runs only while the box is shown, and a non-empty text first empties the list |
| LocationPicker.Picker.FailSearch | src/components/LocationPicker/LocationPicker.jsx:142-145 | a failed request empties the list |
| LocationPicker.Picker.ReceiveResults | src/components/LocationPicker/LocationPicker.jsx:125-140 | the list becomes the pipeline's output |
| LocationPicker.Picker.SelectResult | src/components/LocationPicker/LocationPicker.jsx:187-193 | the option becomes the location and is reported, its name becomes the search text and the box closes |
| LocationPicker.Picker.CloseResultBox | src/components/LocationPicker/LocationPicker.jsx:157-164 | closing the box with no location wipes the search text, and reports `undefined` if that changed it |
| ReminderFormDialog.IsUpdateMode | src/components/ReminderFormDialog/ReminderFormDialog.jsx:46-47 | `isUpdateMode`: update mode with a target that has a time; used by the guards of `HandleCreate`, `HandleUpdate` and `HandleDelete` |
| ReminderFormDialog.FormatDate | src/components/ReminderFormDialog/ReminderFormDialog.jsx:92-95 | the default date text; see `FormatDateDigits`, `FormatThenParse` and `DefaultDateFormat` |
| ReminderFormDialog.GetDateParts | src/components/ReminderFormDialog/ReminderFormDialog.jsx:157-165 | `getDatePartsFromInputs`; see `PartsOfThreePieces`, `FormatThenParse` and `ValidDateParts` |
| ReminderFormDialog.AcceptsText | src/components/ReminderFormDialog/ReminderFormDialog.jsx:109 | the 30-character gate of `handleTextChange`; see `HandleTextChange` |
| ReminderFormDialog.FormatDateDigits | src/components/ReminderFormDialog/ReminderFormDialog.jsx:92-95 | the default date text is the year's digits, a two-digit month (plus one) and a two-digit day |
| ReminderFormDialog.PartsOfThreePieces | src/components/ReminderFormDialog/ReminderFormDialog.jsx:157-165 | splitting three dash-free pieces reads each with `Number`, taking one off the month |
| ReminderFormDialog.FormatThenParse | src/components/ReminderFormDialog/ReminderFormDialog.jsx:92-95 | for year ≥ 0, month 0-11 and day 1-31, parsing the default date text (lines 157-165) gives back year, month and day |
| ReminderFormDialog.ValidDateParts | src/components/ReminderFormDialog/ReminderFormDialog.jsx:157-165 | a date text passing the format parses to a year 0-9999, a month 0-11 and a day 1-31, and is their text |
| ReminderFormDialog.DefaultDateFormat | src/components/ReminderFormDialog/ReminderFormDialog.jsx:95 | the default date text passes the format test exactly for years 1000-9999 |
| ReminderFormDialog.FourDigitYear | src/components/ReminderFormDialog/ReminderFormDialog.jsx:95 | a year 1000-9999 is written as exactly its four-digit text |
| ReminderFormDialog.ShortYear | src/components/ReminderFormDialog/ReminderFormDialog.jsx:95 | a year below 1000 is written in fewer than four characters |
| ReminderFormDialog.MessageInputValidIff | src/components/ReminderFormDialog/ReminderFormDialog.jsx:121 | the message passes exactly when it is defined and has a character that is not whitespace |
| ReminderFormDialog.TimeInputValidIff | src/components/ReminderFormDialog/ReminderFormDialog.jsx:275-293 | the time passes exactly when it matches "hh:mm" |
| ReminderFormDialog.DateInputValidIff | src/components/ReminderFormDialog/ReminderFormDialog.jsx:255-273 | the date passes exactly when it matches the format and the strict parse accepts it |
| ReminderFormDialog.DateErrorIff | src/components/ReminderFormDialog/ReminderFormDialog.jsx:255-273 | the date validator leaves no error exactly when it passes |
| ReminderFormDialog.TimeErrorIff | src/components/ReminderFormDialog/ReminderFormDialog.jsx:275-293 | the time validator leaves no error exactly when it passes |
| ReminderFormDialog.HandleClose | src/components/ReminderFormDialog/ReminderFormDialog.jsx:241-247 | a close request is forwarded to `onClose` with its reason exactly when it is not a backdrop click |
| ReminderFormDialog.PageOutcomeCases | src/components/ReminderFormDialog/ReminderFormDialog.jsx:145-155 | the verdict is the conjunction of the four validators; the first failing one sets its error ("Required." or the format message), those before it are cleared, those after it keep theirs; only a failed message check changes an input, resetting it to ""; success clears all four errors |
| ReminderFormDialog.FetchReminder | src/components/ReminderFormDialog/ReminderFormDialog.jsx:72-82 | `getReminders` with the full key of a stored slot returns that slot's reminder |
| ReminderFormDialog.ReminderForm.constructor | src/components/ReminderFormDialog/ReminderFormDialog.jsx:53-88 | the initial state: no date text, time "12:00", no errors, confirmation closed; in update mode the memo holds the stored reminder (the slot must exist) and loads its message and location, otherwise both are empty |
| ReminderFormDialog.ReminderForm.OpenEffect | src/components/ReminderFormDialog/ReminderFormDialog.jsx:90-104 | the date field shows the target's date; for a stored reminder the time, message and location become its own, otherwise they are left as they were |
| ReminderFormDialog.ReminderForm.HandleTextChange | src/components/ReminderFormDialog/ReminderFormDialog.jsx:106-116 | a value of at most 30 characters replaces the message and clears a set error; a longer one is ignored |
| ReminderFormDialog.ReminderForm.HandleDateChange | src/components/ReminderFormDialog/ReminderFormDialog.jsx:251-253 | the date text becomes the typed value |
| ReminderFormDialog.ReminderForm.HandleTimeChange | src/components/ReminderFormDialog/ReminderFormDialog.jsx:299-301 | the time text becomes the typed value |
| ReminderFormDialog.ReminderForm.HandleLocationChange | src/components/ReminderFormDialog/ReminderFormDialog.jsx:236-239 | the location is replaced and its error cleared |
| ReminderFormDialog.ReminderForm.ValidateDateInput | src/components/ReminderFormDialog/ReminderFormDialog.jsx:255-273 | the verdict of `DateInputValid`, and the error `DateError`: missing or blank → "Required."; bad format → the format message; otherwise none |
| ReminderFormDialog.ReminderForm.ValidateTimeInput | src/components/ReminderFormDialog/ReminderFormDialog.jsx:275-293 | the verdict of `TimeInputValid`, and the error `TimeError`: missing or empty → "Required."; bad format → the format message; otherwise none |
| ReminderFormDialog.ReminderForm.ValidateReminderMessageInput | src/components/ReminderFormDialog/ReminderFormDialog.jsx:118-133 | a missing or blank message is reset to "" and flagged as required |
| ReminderFormDialog.ReminderForm.ValidateReminderLocationInput | src/components/ReminderFormDialog/ReminderFormDialog.jsx:135-143 | a missing location is flagged as required |
| ReminderFormDialog.ReminderForm.ValidatePage | src/components/ReminderFormDialog/ReminderFormDialog.jsx:145-155 | the verdict, the inputs and the errors afterwards are `PageOutcome` of the inputs and errors before, whose cases `PageOutcomeCases` states |
| ReminderFormDialog.ReminderForm.ValidateFromTime | src/components/ReminderFormDialog/ReminderFormDialog.jsx:148-150 | the `&&` chain from the time validator on: the new state is `TimeStageOutcome` of the old one |
| ReminderFormDialog.ReminderForm.ValidateFromMessage | src/components/ReminderFormDialog/ReminderFormDialog.jsx:149-150 | the `&&` chain from the message validator on: the new state is `MessageStageOutcome` of the old one |
| ReminderFormDialog.ReminderForm.HandleCreate | src/components/ReminderFormDialog/ReminderFormDialog.jsx:167-186 | nothing in update mode (and no validation runs) or when a field is invalid; otherwise an ADD of the parsed date, the time, the location and the message; outside update mode the inputs and errors afterwards are those `PageOutcome` gives |
| ReminderFormDialog.ReminderForm.HandleUpdate | src/components/ReminderFormDialog/ReminderFormDialog.jsx:188-205 | nothing unless in update mode and valid; then an UPDATE from the opened target to the parsed date and time; in update mode the inputs and errors afterwards are those `PageOutcome` gives |
| ReminderFormDialog.ReminderForm.HandleDeleteClick | src/components/ReminderFormDialog/ReminderFormDialog.jsx:307 | the delete confirmation opens |
| ReminderFormDialog.ReminderForm.HandleCloseDeleteCheckModal | src/components/ReminderFormDialog/ReminderFormDialog.jsx:207 | the delete confirmation closes |
| ReminderFormDialog.ReminderForm.HandleDelete | src/components/ReminderFormDialog/ReminderFormDialog.jsx:209-219 | in update mode, a DELETE of the opened target and the confirmation closes; otherwise nothing |
| ProfileActions.KindsDistinct | src/store/profile/profile.actions.js:1-4 | the two type strings differ |
| ProfileActions.SetInferredCurrentLocation | src/store/profile/profile.actions.js:62-65 | a SET_INFERRED_CURRENT_LOCATION action carrying the IP and the location |
| ProfileActions.SetLightTheme | src/store/profile/profile.actions.js:66-69 | a SET_THEME action carrying "light" |
| ProfileActions.SetDarkTheme | src/store/profile/profile.actions.js:70-73 | a SET_THEME action carrying "dark" |
| ProfileActions.InferredLocationAction | src/store/profile/profile.actions.js:28-48 | an action is dispatched exactly when the geocoding service returns a record; it then carries the IP query and the first record as a location |
| ProfileReducer.Reduce | src/store/profile/profile.reducer.js:4-22 | the profile reducer; its effect per action type is stated by the lemmas below |
| ProfileReducer.InferredLocationStored | src/store/profile/profile.reducer.js:6-13 | the IP and the inferred location are replaced, and the theme is kept |
| ProfileReducer.ThemeStored | src/store/profile/profile.reducer.js:14-18 | the theme is replaced, and the IP and location are kept |
| ProfileReducer.ReduceIdempotent | src/store/profile/profile.reducer.js:4-22 | dispatching an action twice equals dispatching it once |
| ProfileReducer.LastThemeWins | src/store/profile/profile.reducer.js:14-18 | of two theme actions in a row, only the second matters |
| ProfileReducer.LocationAndThemeCommute | src/store/profile/profile.reducer.js:6-18 | setting the location and setting the theme commute |
| ProfileReducer.OtherActionsIgnored | src/store/profile/profile.reducer.js:19-20 | an action of another type leaves the state unchanged |
| CalendarPage.StoredReminderShown | src/components/CalendarGrid/CalendarGrid.jsx:73-77 | a stored reminder is in the map given to its day's cell, under its time |
| CalendarPage.CreatedReminderShownInItsCell | src/pages/Calendar.test.js:104-122 | after an ADD for a day of the shown month, that day's enabled cell is given the new reminder under its time |
| Text.NatToStringValue | src/components/ReminderFormDialog/ReminderFormDialog.jsx:92-95 | reading back the decimal text of a number gives the number |
| Text.PadStartIsPad2 | src/components/ReminderFormDialog/ReminderFormDialog.jsx:92-93 | `padStart(2, "0")` of a number below 100 is its two-digit text |
| Text.SplitCons | src/components/ReminderFormDialog/ReminderFormDialog.jsx:158 | splitting at a separator after a separator-free piece gives that piece, then the split of the rest |
| Text.SplitNone | src/components/ReminderFormDialog/ReminderFormDialog.jsx:158 | a text without the separator splits into itself alone |
| Text.TrimEmptyIff | src/components/ReminderFormDialog/ReminderFormDialog.jsx:121 | `trim()` is empty exactly when every character is whitespace |
| Text.JsNumber | src/components/ReminderFormDialog/ReminderFormDialog.jsx:159-162 | `Number` is defined (not NaN) exactly on digit strings, and is never negative there |

## Left out

- CalendarReducer.UpdateSameKeyIsAdd: the index is modelled with Dafny maps, which have no order, so the insertion order of the JavaScript `Map`s is not modelled. The day cell lists its reminders in that order (`[...reminders.entries()]`, src/components/CalendarDay/CalendarDay.jsx:54). An UPDATE to the same key deletes and then sets (calendar.reducer.js:42,51), which moves the reminder to the end of its day's list, where an ADD on an existing key keeps its place (calendar.reducer.js:22). So the two agree on contents only.
- Network requests (the geocoding search, the IP lookup) are left out. Their answers are parameters: the response list of `ReceiveResults`, and the IP query and results list of `InferredLocationAction`.
- The debounce of the search text is left out. `BeginSearch` takes the debounced value as a parameter.
- The abort and timeout plumbing of the search effect is left out, as is its loading and error text.
- Rendering and layout are not modelled. This covers the dialog title, `getRowHeightFromCurrentMonth`, the rows' keys and the month and weekday names of `getMonthYearDateText`, `getWeekDays` and `getCurrentDate`, which depend on the date library's locale data.
- `getNextMonthDate` is not used by the modelled components, so it is not modelled.
- The clock is a parameter: `today` is given to `ActiveCell` and `HandleGoToCurrentMonthClick`. No "now" is read.
- `console.error` on a colliding ADD is left out, because it only logs. The overwrite that follows it is modelled.
- Latitude and longitude are kept as the service's text. `Number(lat)` in floating point is not modelled.
- Text.JsNumber: models `Number` only on the inputs the form gives it. Digit strings (including "", which is 0) have their value; anything else is None (NaN). Signs, decimals, exponents, hexadecimal and surrounding whitespace are not read.
- String lengths count Dafny characters, not UTF-16 code units. The 30-character limit therefore differs for characters outside the Basic Multilingual Plane.
- DateUtils.IsDateValid: the date library's strict parse is a parameter. Which day-month combinations it rejects (such as 2023-02-31) is not modelled.
- The date library's local time zone and the year range of JavaScript dates are not modelled. Calendar arithmetic is proleptic Gregorian on unbounded integers.
- DateUtils.MonthGrid: requires a month 0-11, which the navigator keeps (`StepsMoveByOneMonth`). `new Date(year, month)` rolling other months into neighbouring years is not modelled.
- ReminderFormDialog.ReminderForm.constructor: in update mode it requires the opened slot to exist. The source reads the missing reminder's fields and throws, which is not modelled. It states the state after the memo (lines 71-88); the opening effect (lines 90-104) is the separate `OpenEffect`. It does not report what the picker's mount effects pass to `onChange`.
- LocationPicker.Picker.constructor: states the state after the mount effects, but not which `onChange` calls they make.
- The form's state is updated at once, while React applies state updates after the handler returns. This is equivalent here, because no validator reads a field that an earlier step of the same handler writes. The dialog's `handleClose` ignores a backdrop click and forwards any other reason to the grid's close handler (`ReminderFormDialog.HandleClose`, wired up as `CalendarGrid.GridForm.DialogClose`). The cancel buttons (`handleCancelClick`) and the `onClose?.()` after a create, update or delete call the grid's handler directly, which is modelled as `HandleReminderFormClose`.
- Live aliasing of the day map: `GetOrCreateDayMap` returns the day map as a value. The writes made through it are `SetInDay` and `DeleteInDay`, which state the same change to the index.
- The initial calendar and profile state files are not part of this model. The calendar starts with an empty index. The profile's initial fields are whatever the caller passes in.
- CalendarPage.CreatedReminderShownInItsCell: walks through the scenario of the page test starting from the ADD. That the form's default date text parses back to the clicked day is the separate lemma `FormatThenParse`.
