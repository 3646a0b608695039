/**
 * The add form: the Task/Schedule switch with its category lists, the
 * weekly repeat-day selection, the date and time pickers, and the
 * submission, which validates, builds the new record and hands it to the
 * store.
 */
module AddScreen {
  import opened JsText
  import opened Calendar
  import opened TimeText
  import opened Records
  import opened RepeatDays

  const TaskCategories: seq<string> := ["Task"]
  const ScheduleCategories: seq<string> := ["Class", "Routine", "Meeting", "Work"]

  /** The category buttons the form shows for an entry type. */
  function CategoriesFor(activeType: string): (names: seq<string>)
    ensures |names| > 0
  {
    if activeType == "Task" then TaskCategories else ScheduleCategories
  }

  /** Everything an add form holds, for stating what a change leaves alone. */
  datatype FormFields = FormFields(
    activeType: string, taskTitle: string, selectedCategory: string, description: string,
    repeatFrequency: string, repeatDays: seq<string>, dueDate: string, startDateString: string,
    endDateString: string, dueTime: string, location: string,
    dueDay: CalendarDate, startDay: CalendarDate, endDay: CalendarDate, dueHour: int, dueMinute: int)

  class AddForm {
    var activeType: string
    var taskTitle: string
    var selectedCategory: string
    var description: string
    var repeatFrequency: string
    var repeatDays: seq<string>
    var dueDate: string
    var startDateString: string
    var endDateString: string
    var dueTime: string
    var location: string
    /** The days and the clock time the pickers last delivered. */
    ghost var dueDay: CalendarDate
    ghost var startDay: CalendarDate
    ghost var endDay: CalendarDate
    ghost var dueHour: int
    ghost var dueMinute: int

    /**
     * The selected category is one the active type offers, the repeat days
     * are distinct week days, and every date and time text is what the
     * formatters made of the picked value.
     */
    ghost predicate Valid()
      reads this
    {
      && selectedCategory in CategoriesFor(activeType)
      && WellFormed(repeatDays)
      && ValidDate(dueDay) && ValidDate(startDay) && ValidDate(endDay)
      && 0 <= dueHour < 24 && 0 <= dueMinute < 60
      && dueDate == FormatDate(dueDay)
      && startDateString == FormatDate(startDay)
      && endDateString == FormatDate(endDay)
      && dueTime == FormatTime(dueHour, dueMinute)
    }

    ghost function Fields(): FormFields
      reads this
    {
      FormFields(activeType, taskTitle, selectedCategory, description, repeatFrequency, repeatDays,
                 dueDate, startDateString, endDateString, dueTime, location,
                 dueDay, startDay, endDay, dueHour, dueMinute)
    }

    /** A fresh form at the local day `today` and clock time `hour`:`minute`. */
    constructor(today: CalendarDate, hour: int, minute: int)
      requires ValidDate(today) && 0 <= hour < 24 && 0 <= minute < 60
      ensures Valid()
      ensures activeType == "Task" && selectedCategory == "Task" && taskTitle == "" && description == ""
      ensures repeatFrequency == "none" && repeatDays == [] && location == ""
      ensures dueDate == FormatDate(today) && startDateString == dueDate && endDateString == dueDate
      ensures dueTime == FormatTime(hour, minute)
    {
      activeType, taskTitle, selectedCategory, description := "Task", "", "Task", "";
      repeatFrequency, repeatDays, location := "none", [], "";
      dueDate, startDateString, endDateString := FormatDate(today), FormatDate(today), FormatDate(today);
      dueTime := FormatTime(hour, minute);
      dueDay, startDay, endDay, dueHour, dueMinute := today, today, today, hour, minute;
    }

    /** `handleTypeChange`: the first category of the new type, and no repeat days. */
    method HandleTypeChange(kind: string)
      requires Valid()
      modifies this
      ensures Valid()
      ensures activeType == kind && selectedCategory == CategoriesFor(kind)[0] && repeatDays == []
      ensures Fields() == old(Fields()).(activeType := kind, selectedCategory := CategoriesFor(kind)[0], repeatDays := [])
    {
      activeType := kind;
      if kind == "Task" {
        selectedCategory := TaskCategories[0];
      } else {
        selectedCategory := ScheduleCategories[0];
      }
      repeatDays := [];
    }

    /** A category button; the form shows only the active type's buttons. */
    method SelectCategory(name: string)
      requires Valid() && name in CategoriesFor(activeType)
      modifies this
      ensures Valid() && Fields() == old(Fields()).(selectedCategory := name)
    {
      selectedCategory := name;
    }

    method SetTitle(title: string)
      requires Valid()
      modifies this
      ensures Valid() && Fields() == old(Fields()).(taskTitle := title)
    {
      taskTitle := title;
    }

    method SetDescription(text: string)
      requires Valid()
      modifies this
      ensures Valid() && Fields() == old(Fields()).(description := text)
    {
      description := text;
    }

    method SetLocation(text: string)
      requires Valid()
      modifies this
      ensures Valid() && Fields() == old(Fields()).(location := text)
    {
      location := text;
    }

    method SetRepeatFrequency(frequency: string)
      requires Valid()
      modifies this
      ensures Valid() && Fields() == old(Fields()).(repeatFrequency := frequency)
    {
      repeatFrequency := frequency;
    }

    /** `handleRepeatDayToggle` for one of the seven day buttons. */
    method ToggleRepeatDay(day: string)
      requires Valid() && day in WeekDays
      modifies this
      ensures Valid() && Fields() == old(Fields()).(repeatDays := ToggleDay(old(repeatDays), day))
    {
      ToggleKeepsWellFormed(repeatDays, day);
      repeatDays := ToggleDay(repeatDays, day);
    }

    /** `handleEverydayToggle`. */
    method ToggleEveryday()
      requires Valid()
      modifies this
      ensures Valid() && Fields() == old(Fields()).(repeatDays := RepeatDays.ToggleEveryday(old(repeatDays)))
    {
      WeekDaysDistinct();
      repeatDays := RepeatDays.ToggleEveryday(repeatDays);
    }

    /** `handleDateChange`: a dismissed picker (None) changes nothing. */
    method HandleDateChange(selected: Option<CalendarDate>)
      requires Valid() && (selected.Some? ==> ValidDate(selected.value))
      modifies this
      ensures Valid()
      ensures selected.Some? ==> Fields() == old(Fields()).(dueDay := selected.value, dueDate := FormatDate(selected.value))
      ensures selected.None? ==> Fields() == old(Fields())
    {
      if selected.Some? {
        dueDay := selected.value;
        dueDate := FormatDate(selected.value);
      }
    }

    /** `handleStartDateChange`. */
    method HandleStartDateChange(selected: Option<CalendarDate>)
      requires Valid() && (selected.Some? ==> ValidDate(selected.value))
      modifies this
      ensures Valid()
      ensures selected.Some? ==> Fields() == old(Fields()).(startDay := selected.value, startDateString := FormatDate(selected.value))
      ensures selected.None? ==> Fields() == old(Fields())
    {
      if selected.Some? {
        startDay := selected.value;
        startDateString := FormatDate(selected.value);
      }
    }

    /** `handleEndDateChange`. */
    method HandleEndDateChange(selected: Option<CalendarDate>)
      requires Valid() && (selected.Some? ==> ValidDate(selected.value))
      modifies this
      ensures Valid()
      ensures selected.Some? ==> Fields() == old(Fields()).(endDay := selected.value, endDateString := FormatDate(selected.value))
      ensures selected.None? ==> Fields() == old(Fields())
    {
      if selected.Some? {
        endDay := selected.value;
        endDateString := FormatDate(selected.value);
      }
    }

    /** `handleTimeChange`, the picked time given as (hour, minute). */
    method HandleTimeChange(selected: Option<(int, int)>)
      requires Valid() && (selected.Some? ==> 0 <= selected.value.0 < 24 && 0 <= selected.value.1 < 60)
      modifies this
      ensures Valid()
      ensures selected.Some? ==> Fields() == old(Fields()).(dueHour := selected.value.0, dueMinute := selected.value.1,
                                                            dueTime := FormatTime(selected.value.0, selected.value.1))
      ensures selected.None? ==> Fields() == old(Fields())
    {
      if selected.Some? {
        dueHour, dueMinute := selected.value.0, selected.value.1;
        dueTime := FormatTime(selected.value.0, selected.value.1);
      }
    }

    /** The record `handleAdd` submits for the user `userId`. */
    function Record(userId: int): (r: NewTask)
      reads this
    {
      NewTask(
        taskTitle, description,
        if activeType == "Task" then dueDate else startDateString,
        dueTime, selectedCategory, location, userId, repeatFrequency,
        if repeatFrequency == "weekly" then Some(repeatDays) else None,
        if activeType == "Schedule" then Some(startDateString) else None,
        if activeType == "Schedule" then Some(endDateString) else None)
    }

    /**
     * The calls `handleAdd` makes: a blank title or a missing user stops at
     * an alert; otherwise the record goes to the store, followed by the
     * success alert and leaving the screen, or by the failure alert when the
     * store refuses it (`added` false).
     */
    function AddCalls(userId: Option<int>, added: bool): (calls: seq<Call>)
      reads this
      ensures Trim(taskTitle) == "" ==> calls == [ShowAlert("Validation Error", "Task title is required.")]
      ensures Trim(taskTitle) != "" && !IdPresent(userId) ==> calls == [ShowAlert("Error", "User not found. Please log in again.")]
    {
      if Trim(taskTitle) == "" then [ShowAlert("Validation Error", "Task title is required.")]
      else if !IdPresent(userId) then [ShowAlert("Error", "User not found. Please log in again.")]
      else [AddTask(Record(userId.value))] + SubmitOutcome(added)
    }

    /** The alerts after the store call, and leaving the screen on success. */
    function SubmitOutcome(added: bool): seq<Call>
      reads this
    {
      if added then [ShowAlert("Success", activeType + " added successfully!"), GoBack]
      else [ShowAlert("Error", "Failed to add " + activeType + ". Please try again.")]
    }

    /** `handleAdd`; `added` tells whether the store accepted the record. */
    method HandleAdd(outside: Outside, userId: Option<int>, added: bool)
      requires Valid()
      modifies outside
      ensures outside.trace == old(outside.trace) + AddCalls(userId, added)
    {
      if Trim(taskTitle) == "" {
        outside.Perform(ShowAlert("Validation Error", "Task title is required."));
        return;
      }
      if !IdPresent(userId) {
        outside.Perform(ShowAlert("Error", "User not found. Please log in again."));
        return;
      }
      outside.Perform(AddTask(Record(userId.value)));
      if added {
        outside.Perform(ShowAlert("Success", activeType + " added successfully!"));
        outside.Perform(GoBack);
      } else {
        outside.Perform(ShowAlert("Error", "Failed to add " + activeType + ". Please try again."));
      }
    }
  }

  // ---------------------------------------------------------------------
  // Lemmas
  // ---------------------------------------------------------------------

  /**
   * The store is reached only with a title that has a non-space character
   * and a signed-in user, and then with exactly one record, the form's.
   */
  lemma StoreOnlyAfterValidation(f: AddForm, userId: Option<int>, added: bool, r: NewTask)
    ensures AddTask(r) in f.AddCalls(userId, added) <==>
      (exists i :: 0 <= i < |f.taskTitle| && !IsSpace(f.taskTitle[i])) && IdPresent(userId)
      && r == f.Record(userId.value)
  {
    TrimEmptyIffBlank(f.taskTitle);
  }

  /**
   * The submitted record of a valid form: a Task is dated by its due date
   * and has no schedule range; a Schedule is dated by its start date and
   * carries its range; repeat days go along exactly for a weekly repeat and
   * are distinct week days; the category is one of the type's categories.
   */
  lemma RecordShape(f: AddForm, userId: int)
    requires f.Valid()
    ensures f.Record(userId).kind in CategoriesFor(f.activeType)
    ensures f.Record(userId).userId == userId && f.Record(userId).title == f.taskTitle
    ensures f.activeType == "Task" ==>
      f.Record(userId).date == FormatDate(f.dueDay) && f.Record(userId).startDate.None? && f.Record(userId).endDate.None?
    ensures f.activeType == "Schedule" ==>
      f.Record(userId).date == FormatDate(f.startDay)
      && f.Record(userId).startDate == Some(FormatDate(f.startDay))
      && f.Record(userId).endDate == Some(FormatDate(f.endDay))
    ensures f.Record(userId).repeatDays.Some? <==> f.repeatFrequency == "weekly"
    ensures f.Record(userId).repeatDays.Some? ==> WellFormed(f.Record(userId).repeatDays.value)
  {
  }

  /**
   * The deadline later read from a submitted Task record (four-digit year)
   * is the local instant of the picked due day and time.
   */
  lemma TaskRecordDeadline(f: AddForm, userId: int)
    requires f.Valid() && f.activeType == "Task" && 1000 <= f.dueDay.year <= 9999
    ensures Deadline(f.Record(userId).date, f.Record(userId).time) == Some(LocalInstant(f.dueDay, f.dueHour, f.dueMinute))
  {
    DeadlineRoundTrip(f.dueDay, f.dueHour, f.dueMinute);
  }
}
