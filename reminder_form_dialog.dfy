/**
 * The reminder form: the default date text and its parsing back into
 * (year, month 0-11, day), the 30-character message limit, the four field
 * validators and the guards that decide whether create, update or delete
 * dispatch a command.
 */
module ReminderFormDialog {
  import opened Wrappers
  import opened Text
  import opened LocationPicker
  import opened ReminderUtils
  import opened CalendarActions
  import opened DateUtils

  const MaxReminderTextLength: nat := 30
  const RequiredMessage: string := "Required."
  const DateFormatMessage: string := "The format should be 'YYYY-MM-DD'."
  const TimeFormatMessage: string := "The format should be 'HH:MM'."
  const DefaultTime: string := "12:00"
  /** The dialog's close reason for a click outside it. */
  const BackdropClick: string := "backdropClick"

  datatype Mode = Create | Update

  /** The slot the form was opened for; `time` is given only for an existing reminder. */
  datatype FormTarget = FormTarget(year: int, month: int, day: int, time: Option<Time>)

  /** `isUpdateMode`: mode "update" with a target that has a time. */
  predicate IsUpdateMode(mode: Mode, target: FormTarget) {
    target.time.Some? && mode == Update
  }

  /** The date field's initial text: `${year}-${pad2(month + 1)}-${pad2(day)}`. */
  function FormatDate(year: int, month: int, day: int): string {
    IntToString(year) + "-" + PadStart(IntToString(month + 1), 2, '0') + "-" + PadStart(IntToString(day), 2, '0')
  }

  /** The parsed parts; None is NaN. */
  datatype DateParts = DateParts(year: Option<int>, month: Option<int>, day: Option<int>)

  /** `getDatePartsFromInputs`: split on "-", `Number` each piece, month minus one. */
  function GetDateParts(dateStr: string): DateParts {
    var parts := Split(dateStr, '-');
    var finalYear := JsNumber(parts[0]);
    var monthNumber := if |parts| > 1 then JsNumber(parts[1]) else None;
    var finalDay := if |parts| > 2 then JsNumber(parts[2]) else None;
    DateParts(finalYear, if monthNumber.Some? then Some(monthNumber.value - 1) else None, finalDay)
  }

  /** For a year from 0 up, a month 0-11 and a day 1-31 the form's date text is year, two-digit month, two-digit day. */
  lemma FormatDateDigits(year: int, month: int, day: int)
    requires 0 <= year && 0 <= month <= 11 && 1 <= day <= 31
    ensures FormatDate(year, month, day) == NatToString(year) + "-" + Pad2(month + 1) + "-" + Pad2(day)
  {
    var ms, ds := IntToString(month + 1), IntToString(day);
    assert ms == NatToString(month + 1) && ds == NatToString(day);
    PadStartIsPad2(month + 1);
    PadStartIsPad2(day);
    assert IntToString(year) == NatToString(year);
  }

  /** A text of three dash-free pieces joined by dashes parses piece by piece. */
  lemma PartsOfThreePieces(a: string, b: string, c: string)
    requires '-' !in a && '-' !in b && '-' !in c
    ensures var p := JsNumber(b);
      GetDateParts(a + "-" + b + "-" + c) ==
        DateParts(JsNumber(a), if p.Some? then Some(p.value - 1) else None, JsNumber(c))
  {
    assert a + "-" + b + "-" + c == a + ['-'] + (b + ['-'] + c);
    SplitCons(a, '-', b + ['-'] + c);
    SplitCons(b, '-', c);
    SplitNone(c, '-');
  }

  /** Parsing the form's date text gives back the year, the zero-based month and the day. */
  lemma FormatThenParse(year: int, month: int, day: int)
    requires 0 <= year && 0 <= month <= 11 && 1 <= day <= 31
    ensures GetDateParts(FormatDate(year, month, day)) == DateParts(Some(year), Some(month), Some(day))
  {
    FormatDateDigits(year, month, day);
    var ys, ms, ds := NatToString(year), Pad2(month + 1), Pad2(day);
    assert '-' !in ys && '-' !in ms && '-' !in ds by {
      assert forall c :: c in ys ==> IsDigit(c);
      assert ms[0] != '-' && ms[1] != '-' && ds[0] != '-' && ds[1] != '-';
    }
    PartsOfThreePieces(ys, ms, ds);
    NatToStringValue(year);
    Pad2Value(month + 1);
    Pad2Value(day);
  }

  /**
   * A date text that passes the format test parses to a year 0-9999, a
   * month 0-11 and a day 1-31: what a created reminder's key is made of.
   */
  lemma ValidDateParts(dateStr: string)
    requires DateRegex(dateStr)
    ensures var p := GetDateParts(dateStr);
      && p.year.Some? && p.month.Some? && p.day.Some?
      && 0 <= p.year.value <= 9999 && 0 <= p.month.value <= 11 && 1 <= p.day.value <= 31
      && dateStr == DateText(p.year.value, p.month.value + 1, p.day.value)
  {
    DateRegexParses(dateStr);
    var ys, ms, ds := dateStr[..4], dateStr[5..7], dateStr[8..];
    assert '-' !in ys && '-' !in ms && '-' !in ds by {
      assert forall i :: 0 <= i < 4 ==> IsDigit(ys[i]);
      assert ms[0] != '-' && ms[1] != '-' && ds[0] != '-' && ds[1] != '-';
    }
    assert dateStr == ys + "-" + ms + "-" + ds;
    PartsOfThreePieces(ys, ms, ds);
  }

  /** The default date text passes the format test for four-digit years, and fails it for years 0-999. */
  lemma DefaultDateFormat(year: int, month: int, day: int)
    requires 0 <= year <= 9999 && 0 <= month <= 11 && 1 <= day <= 31
    ensures DateRegex(FormatDate(year, month, day)) <==> 1000 <= year
  {
    FormatDateDigits(year, month, day);
    if 1000 <= year {
      FormatThenParse(year, month, day);
      FourDigitYear(year);
      DateTextPasses(year, month + 1, day);
      assert Pad4(year) == NatToString(year);
    } else {
      ShortYear(year);
    }
  }

  lemma FourDigitYear(year: int)
    requires 1000 <= year <= 9999
    ensures Pad4(year) == NatToString(year)
  {
    var a, b, c, d := year / 1000, year / 100 % 10, year / 10 % 10, year % 10;
    assert NatToString(year / 1000) == [DigitChar(a)];
    assert NatToString(year / 100) == [DigitChar(a), DigitChar(b)];
    assert NatToString(year / 10) == [DigitChar(a), DigitChar(b), DigitChar(c)];
    assert NatToString(year) == [DigitChar(a), DigitChar(b), DigitChar(c), DigitChar(d)];
    assert year / 100 / 10 == a && year / 100 % 10 == b && year % 100 / 10 == c && year % 100 % 10 == d;
  }

  lemma ShortYear(year: int)
    requires 0 <= year < 1000
    ensures |NatToString(year)| < 4
  {
    if year >= 10 {
      ShortYear(year / 10);
    }
  }

  /** `handleTextChange`'s gate: a new message longer than 30 characters is ignored. */
  predicate AcceptsText(newValue: string) {
    |newValue| <= MaxReminderTextLength
  }

  /** A JavaScript truthiness test on an optional string: defined and not empty. */
  predicate Truthy(s: Option<string>) {
    s.Some? && s.value != ""
  }

  /** What each validator accepts. */
  predicate DateInputValid(dateStr: Option<string>, strictParse: string -> bool) {
    dateStr.Some? && Trim(dateStr.value) != "" && IsDateValid(dateStr.value, strictParse)
  }

  predicate TimeInputValid(timeStr: Option<string>) {
    Truthy(timeStr) && IsTimeValid(timeStr)
  }

  predicate MessageInputValid(message: Option<string>) {
    Truthy(message) && Trim(message.value) != ""
  }

  predicate LocationInputValid(location: Option<Location>) {
    location.Some?
  }

  /** The error `validateDateInput` shows: required first, then the format. */
  function DateError(dateStr: Option<string>, strictParse: string -> bool): Option<string> {
    if dateStr.None? || Trim(dateStr.value) == "" then Some(RequiredMessage)
    else if !IsDateValid(dateStr.value, strictParse) then Some(DateFormatMessage)
    else None
  }

  /**
   * `handleClose(e, reason)`: the reason passed on to `onClose`, or None
   * when the request is a backdrop click, which leaves the dialog open.
   */
  function HandleClose(reason: string): (forwarded: Option<string>)
    ensures forwarded.None? <==> reason == BackdropClick
    ensures forwarded.Some? ==> forwarded.value == reason
  {
    if reason == BackdropClick then None else Some(reason)
  }

  /** The form's inputs and errors, as the form's methods hold them. */
  type FormInputs = (Option<string>, Option<string>, Option<string>, Option<Location>)
  type FormErrors = (Option<string>, Option<string>, Option<string>, Option<string>)

  /**
   * The outcome of `validatePage` from the inputs (message, date, time,
   * location) and the errors (message, date, time, location): the verdict
   * and the new inputs and errors. Each stage runs only when the ones
   * before it passed, and a failing stage leaves the later errors alone.
   */
  function PageOutcome(inputs: FormInputs, errors: FormErrors, strictParse: string -> bool): (bool, FormInputs, FormErrors) {
    var dateStr := inputs.1;
    if !DateInputValid(dateStr, strictParse) then (false, inputs, errors.(1 := DateError(dateStr, strictParse)))
    else TimeStageOutcome(inputs, errors.(1 := None))
  }

  /** The time, message and location stages of `validatePage`. */
  function TimeStageOutcome(inputs: FormInputs, errors: FormErrors): (bool, FormInputs, FormErrors) {
    var timeStr := inputs.2;
    if !TimeInputValid(timeStr) then (false, inputs, errors.(2 := TimeError(timeStr)))
    else MessageStageOutcome(inputs, errors.(2 := None))
  }

  /** The message and location stages of `validatePage`; a failed message is reset to "". */
  function MessageStageOutcome(inputs: FormInputs, errors: FormErrors): (bool, FormInputs, FormErrors) {
    var message := inputs.0;
    if !MessageInputValid(message) then (false, inputs.(0 := Some("")), errors.(0 := Some(RequiredMessage)))
    else LocationStageOutcome(inputs, errors.(0 := None))
  }

  /** The location stage of `validatePage`. */
  function LocationStageOutcome(inputs: FormInputs, errors: FormErrors): (bool, FormInputs, FormErrors) {
    var location := inputs.3;
    if !LocationInputValid(location) then (false, inputs, errors.(3 := Some(RequiredMessage)))
    else (true, inputs, errors.(3 := None))
  }

  /** The error `validateTimeInput` shows: required first, then the format. */
  function TimeError(timeStr: Option<string>): Option<string> {
    if !Truthy(timeStr) then Some(RequiredMessage)
    else if !IsTimeValid(timeStr) then Some(TimeFormatMessage)
    else None
  }
  /** The date error is cleared exactly when the date validator passes. */
  lemma DateErrorIff(dateStr: Option<string>, strictParse: string -> bool)
    ensures DateError(dateStr, strictParse).None? <==> DateInputValid(dateStr, strictParse)
  {
  }

  /** The time error is cleared exactly when the time validator passes. */
  lemma TimeErrorIff(timeStr: Option<string>)
    ensures TimeError(timeStr).None? <==> TimeInputValid(timeStr)
  {
  }

  /**
   * `validatePage` case by case: the verdict is the conjunction of the four
   * validators; the first failing validator sets its error, the ones before
   * it have cleared theirs and the ones after it keep theirs; only a failed
   * message check changes an input, resetting the message to "".
   */
  lemma PageOutcomeCases(inputs: FormInputs, errors: FormErrors, strictParse: string -> bool)
    ensures var (valid, inputs', errors') := PageOutcome(inputs, errors, strictParse);
      var (message, dateStr, timeStr, location) := inputs;
      var dateOk, timeOk := DateInputValid(dateStr, strictParse), TimeInputValid(timeStr);
      var messageOk, locationOk := MessageInputValid(message), LocationInputValid(location);
      && (valid <==> dateOk && timeOk && messageOk && locationOk)
      && (valid ==> inputs' == inputs && errors' == (None, None, None, None))
      && (!dateOk ==>
            inputs' == inputs && errors' == (errors.0, DateError(dateStr, strictParse), errors.2, errors.3))
      && (dateOk && !timeOk ==>
            inputs' == inputs && errors' == (errors.0, None, TimeError(timeStr), errors.3))
      && (dateOk && timeOk && !messageOk ==>
            inputs' == (Some(""), dateStr, timeStr, location) && errors' == (Some(RequiredMessage), None, None, errors.3))
      && (dateOk && timeOk && messageOk && !locationOk ==>
            inputs' == inputs && errors' == (None, None, None, Some(RequiredMessage)))
  {
  }


  /** The message validator fails exactly for no message or one made only of whitespace. */
  lemma MessageInputValidIff(message: Option<string>)
    ensures MessageInputValid(message) <==>
      message.Some? && exists i :: 0 <= i < |message.value| && !IsJsWhitespace(message.value[i])
  {
    if message.Some? {
      TrimEmptyIff(message.value);
    }
  }

  /** The time validator accepts exactly the "hh:mm" texts with hours 00-23 and minutes 00-59. */
  lemma TimeInputValidIff(timeStr: Option<string>)
    ensures TimeInputValid(timeStr) <==> timeStr.Some? && TimeRegex(timeStr.value)
  {
  }

  /** The date validator only accepts texts of the "YYYY-MM-DD" shape, and then defers to the strict parse. */
  lemma DateInputValidIff(dateStr: Option<string>, strictParse: string -> bool)
    ensures DateInputValid(dateStr, strictParse) <==>
      dateStr.Some? && DateRegex(dateStr.value) && strictParse(dateStr.value)
  {
    if dateStr.Some? && DateRegex(dateStr.value) {
      var s := dateStr.value;
      assert !IsJsWhitespace(s[0]);
      TrimEmptyIff(s);
    }
  }

  /** `getReminders(year, month, day, time)` for a slot that holds a reminder. */
  method FetchReminder(index: Index, year: int, month: int, day: int, time: Time) returns (reminder: Reminder)
    requires Slot(index, year, month, day, time).Some?
    ensures reminder == Slot(index, year, month, day, time).value
  {
    var fetched := Fetch(index, Some(year), Some(month), Some(day), Some(time));
    FetchFullKey(index, year, month, day, time);
    reminder := fetched.reminder;
  }

  /**
   * The form's state. The source keeps each field in React state; the
   * validators read only values they do not write before returning, so
   * updating the fields at once gives the same outcomes.
   */
  class ReminderForm {
    const mode: Mode
    const target: FormTarget
    /** The `originalReminder` memo: the stored reminder in update mode. */
    const originalReminder: Option<Reminder>
    var message: Option<string>
    var messageError: Option<string>
    var dateStr: Option<string>
    var dateError: Option<string>
    var timeStr: Option<string>
    var timeError: Option<string>
    var location: Option<Location>
    var locationError: Option<string>
    var deleteCheckModalOpen: bool

    /** The form's inputs as one value, for describing what a method leaves unchanged. */
    function Inputs(): (Option<string>, Option<string>, Option<string>, Option<Location>)
      reads this
    {
      (message, dateStr, timeStr, location)
    }

    function Errors(): (Option<string>, Option<string>, Option<string>, Option<string>)
      reads this
    {
      (messageError, dateError, timeError, locationError)
    }

    /** Every validator accepts the current inputs. */
    predicate PageValid(strictParse: string -> bool)
      reads this
    {
      DateInputValid(dateStr, strictParse) && TimeInputValid(timeStr) &&
      MessageInputValid(message) && LocationInputValid(location)
    }

    /**
     * Opening the dialog: the initial React state and the `originalReminder`
     * memo. In update mode the memo fetches the stored reminder, which must
     * exist (the source reads its fields unguarded), and loads its message
     * and location; the date field stays undefined and the time "12:00"
     * until `OpenEffect` runs.
     */
    constructor (mode: Mode, target: FormTarget, index: Index)
      requires IsUpdateMode(mode, target) ==>
        Slot(index, target.year, target.month, target.day, target.time.value).Some?
      ensures this.mode == mode && this.target == target
      ensures originalReminder ==
        if IsUpdateMode(mode, target)
        then Some(Slot(index, target.year, target.month, target.day, target.time.value).value)
        else None
      ensures dateStr == None && timeStr == Some(DefaultTime)
      ensures originalReminder.Some? ==>
        message == Some(originalReminder.value.text) && location == Some(originalReminder.value.location)
      ensures originalReminder.None? ==> message.None? && location.None?
      ensures Errors() == (None, None, None, None) && !deleteCheckModalOpen
    {
      var memo: Option<Reminder> := None;
      var initialMessage, initialLocation := None, None;
      if IsUpdateMode(mode, target) {
        var original := FetchReminder(index, target.year, target.month, target.day, target.time.value);
        memo := Some(original);
        initialMessage, initialLocation := Some(original.text), Some(original.location);
      }
      this.mode, this.target, originalReminder := mode, target, memo;
      dateStr, timeStr := None, Some(DefaultTime);
      message, location := initialMessage, initialLocation;
      messageError, dateError, timeError, locationError := None, None, None, None;
      deleteCheckModalOpen := false;
    }

    /**
     * The effect that runs once `originalReminder` is known: the date field
     * shows the target's date, and for a stored reminder the time, message
     * and location are its own.
     */
    method OpenEffect()
      modifies this`dateStr, this`timeStr, this`message, this`location
      ensures dateStr == Some(FormatDate(target.year, target.month, target.day))
      ensures originalReminder.Some? ==>
        && timeStr == target.time
        && message == Some(originalReminder.value.text)
        && location == Some(originalReminder.value.location)
      ensures originalReminder.None? ==>
        timeStr == old(timeStr) && message == old(message) && location == old(location)
    {
      dateStr := Some(FormatDate(target.year, target.month, target.day));
      if originalReminder.Some? {
        timeStr := target.time;
        message := Some(originalReminder.value.text);
        location := Some(originalReminder.value.location);
      }
    }

    /** `handleTextChange`: a value within the limit replaces the message and clears its error. */
    method HandleTextChange(newValue: string)
      modifies this`message, this`messageError
      ensures AcceptsText(newValue) ==> message == Some(newValue)
      ensures AcceptsText(newValue) ==> messageError == if Truthy(old(messageError)) then None else old(messageError)
      ensures !AcceptsText(newValue) ==> message == old(message) && messageError == old(messageError)
      ensures dateStr == old(dateStr) && timeStr == old(timeStr) && location == old(location)
      ensures dateError == old(dateError) && timeError == old(timeError) && locationError == old(locationError)
    {
      if |newValue| <= MaxReminderTextLength {
        message := Some(newValue);
        if Truthy(messageError) {
          messageError := None;
        }
      }
    }

    method HandleDateChange(value: string)
      modifies this`dateStr
      ensures dateStr == Some(value)
    {
      dateStr := Some(value);
    }

    method HandleTimeChange(value: string)
      modifies this`timeStr
      ensures timeStr == Some(value)
    {
      timeStr := Some(value);
    }

    method HandleLocationChange(newLocation: Option<Location>)
      modifies this`location, this`locationError
      ensures location == newLocation && locationError == None
    {
      locationError := None;
      location := newLocation;
    }

    /** `validateDateInput`: required, then the date format. */
    method ValidateDateInput(strictParse: string -> bool) returns (isValid: bool)
      modifies this`dateError
      ensures isValid == DateInputValid(dateStr, strictParse)
      ensures dateError == DateError(dateStr, strictParse)
    {
      if dateStr.None? || Trim(dateStr.value) == "" {
        dateError := Some(RequiredMessage);
        return false;
      }
      isValid := true;
      if !IsDateValid(dateStr.value, strictParse) {
        dateError := Some(DateFormatMessage);
        isValid := false;
      }
      if isValid {
        dateError := None;
      }
    }

    /** `validateTimeInput`: required, then the time format. */
    method ValidateTimeInput() returns (isValid: bool)
      modifies this`timeError
      ensures isValid == TimeInputValid(timeStr)
      ensures timeError == TimeError(timeStr)
    {
      if !Truthy(timeStr) {
        timeError := Some(RequiredMessage);
        return false;
      }
      isValid := true;
      if !IsTimeValid(timeStr) {
        timeError := Some(TimeFormatMessage);
        isValid := false;
      }
      if isValid {
        timeError := None;
      }
    }

    /** `validateReminderMessageInput`: a missing or blank message is reset to "" and flagged. */
    method ValidateReminderMessageInput() returns (isValid: bool)
      modifies this`message, this`messageError
      ensures isValid == MessageInputValid(old(message))
      ensures !isValid ==> message == Some("") && messageError == Some(RequiredMessage)
      ensures isValid ==> message == old(message) && messageError == None
    {
      isValid := true;
      if !Truthy(message) || Trim(message.value) == "" {
        message := Some("");
        messageError := Some(RequiredMessage);
        isValid := false;
      }
      if isValid {
        messageError := None;
      }
    }

    /** `validateReminderLocationInput`: a location must be chosen. */
    method ValidateReminderLocationInput() returns (isValid: bool)
      modifies this`locationError
      ensures isValid == LocationInputValid(location)
      ensures locationError == if isValid then None else Some(RequiredMessage)
    {
      if location.None? {
        locationError := Some(RequiredMessage);
        return false;
      } else {
        locationError := None;
        return true;
      }
    }

    /**
     * `validatePage`: date, time, message and location validators in that
     * order, stopping at the first failure (`PageOutcome`).
     */
    method ValidatePage(strictParse: string -> bool) returns (areInputsValid: bool)
      modifies this`message, this`messageError, this`dateError, this`timeError, this`locationError
      ensures (areInputsValid, Inputs(), Errors()) == PageOutcome(old(Inputs()), old(Errors()), strictParse)
    {
      areInputsValid := ValidateDateInput(strictParse);
      if areInputsValid {
        areInputsValid := ValidateFromTime();
      }
    }

    /** The `&&` chain of `validatePage` from the time validator on. */
    method ValidateFromTime() returns (areInputsValid: bool)
      modifies this`message, this`messageError, this`timeError, this`locationError
      ensures (areInputsValid, Inputs(), Errors()) == TimeStageOutcome(old(Inputs()), old(Errors()))
    {
      areInputsValid := ValidateTimeInput();
      if areInputsValid {
        areInputsValid := ValidateFromMessage();
      }
    }

    /** The `&&` chain of `validatePage` from the message validator on. */
    method ValidateFromMessage() returns (areInputsValid: bool)
      modifies this`message, this`messageError, this`locationError
      ensures (areInputsValid, Inputs(), Errors()) == MessageStageOutcome(old(Inputs()), old(Errors()))
    {
      areInputsValid := ValidateReminderMessageInput();
      if areInputsValid {
        areInputsValid := ValidateReminderLocationInput();
      }
    }

    /**
     * `handleCreate`: nothing in update mode (and no validation runs) or
     * when a field is invalid; otherwise an ADD of the parsed date, the
     * time, the location and the message.
     */
    method HandleCreate(strictParse: string -> bool) returns (dispatched: Option<Action>)
      modifies this`message, this`messageError, this`dateError, this`timeError, this`locationError
      ensures IsUpdateMode(mode, target) ==> dispatched == None && Inputs() == old(Inputs()) && Errors() == old(Errors())
      ensures !IsUpdateMode(mode, target) ==>
        var outcome := PageOutcome(old(Inputs()), old(Errors()), strictParse);
        Inputs() == outcome.1 && Errors() == outcome.2
      ensures !IsUpdateMode(mode, target) && !old(PageValid(strictParse)) ==> dispatched == None
      ensures !IsUpdateMode(mode, target) && old(PageValid(strictParse)) ==>
        var parts := GetDateParts(old(dateStr).value);
        && parts.year.Some? && parts.month.Some? && parts.day.Some?
        && dispatched == Some(AddReminder(parts.year.value, parts.month.value, parts.day.value,
                                          old(timeStr).value, old(location).value, old(message).value))
    {
      if IsUpdateMode(mode, target) {
        return None;
      }
      ghost var inputs, errors := Inputs(), Errors();
      var valid := ValidatePage(strictParse);
      PageOutcomeCases(inputs, errors, strictParse);
      if !valid {
        return None;
      }
      ValidDateParts(dateStr.value);
      var parts := GetDateParts(dateStr.value);
      dispatched := Some(AddReminder(parts.year.value, parts.month.value, parts.day.value,
                                     timeStr.value, location.value, message.value));
    }

    /**
     * `handleUpdate`: the mirror guard, nothing unless in update mode and
     * valid; then an UPDATE from the opened target to the parsed one.
     */
    method HandleUpdate(strictParse: string -> bool) returns (dispatched: Option<Action>)
      modifies this`message, this`messageError, this`dateError, this`timeError, this`locationError
      ensures !IsUpdateMode(mode, target) ==> dispatched == None && Inputs() == old(Inputs()) && Errors() == old(Errors())
      ensures IsUpdateMode(mode, target) ==>
        var outcome := PageOutcome(old(Inputs()), old(Errors()), strictParse);
        Inputs() == outcome.1 && Errors() == outcome.2
      ensures IsUpdateMode(mode, target) && !old(PageValid(strictParse)) ==> dispatched == None
      ensures IsUpdateMode(mode, target) && old(PageValid(strictParse)) ==>
        var parts := GetDateParts(old(dateStr).value);
        && parts.year.Some? && parts.month.Some? && parts.day.Some?
        && dispatched == Some(UpdateReminder(
             Target(target.year, target.month, target.day, target.time.value),
             Target(parts.year.value, parts.month.value, parts.day.value, old(timeStr).value),
             old(location).value, old(message).value))
    {
      if !IsUpdateMode(mode, target) {
        return None;
      }
      ghost var inputs, errors := Inputs(), Errors();
      var valid := ValidatePage(strictParse);
      PageOutcomeCases(inputs, errors, strictParse);
      if !valid {
        return None;
      }
      ValidDateParts(dateStr.value);
      var parts := GetDateParts(dateStr.value);
      dispatched := Some(UpdateReminder(
        Target(target.year, target.month, target.day, target.time.value),
        Target(parts.year.value, parts.month.value, parts.day.value, timeStr.value),
        location.value, message.value));
    }

    /** `handleDeleteClick`: the delete confirmation opens. */
    method HandleDeleteClick()
      modifies this`deleteCheckModalOpen
      ensures deleteCheckModalOpen
    {
      deleteCheckModalOpen := true;
    }

    /** `handleCloseDeleteCheckModal`: the delete confirmation closes without deleting. */
    method HandleCloseDeleteCheckModal()
      modifies this`deleteCheckModalOpen
      ensures !deleteCheckModalOpen
    {
      deleteCheckModalOpen := false;
    }

    /**
     * `handleDelete`: in update mode, a DELETE of the opened target and the
     * confirmation closes; otherwise nothing.
     */
    method HandleDelete() returns (dispatched: Option<Action>)
      modifies this`deleteCheckModalOpen
      ensures dispatched == if IsUpdateMode(mode, target)
        then Some(DeleteReminder(target.year, target.month, target.day, target.time.value))
        else None
      ensures deleteCheckModalOpen == (old(deleteCheckModalOpen) && !IsUpdateMode(mode, target))
    {
      if !IsUpdateMode(mode, target) {
        return None;
      }
      dispatched := Some(DeleteReminder(target.year, target.month, target.day, target.time.value));
      deleteCheckModalOpen := false;
    }
  }
}
