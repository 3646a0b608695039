/**
 * The edit form: opened on a record, it lets the user change the fields,
 * the repeat days and the reminder offset, and saves by replacing an
 * original Task's reminder, resolving the stored row's id and handing the
 * updated record to the store.
 */
module EditScreen {
  import opened JsText
  import opened Calendar
  import opened TimeText
  import opened Records
  import opened OccurrenceIds
  import opened RepeatDays
  import opened NotificationService
  import TaskCard

  /** The offsets the "Remind Me Before" chips offer, in minutes. */
  const ReminderChoices: seq<int> := [0, 5, 10, 15, 30, 60]

  /** `task.reminder_minutes || 5`: absent and 0 both give 5. */
  function ReminderDefault(stored: Option<int>): (r: int)
    ensures stored.Some? && stored.value != 0 ==> r == stored.value
  {
    if stored.Some? && stored.value != 0 then stored.value else 5
  }

  /** `task.repeat_frequency || 'none'`: absent and "" both give "none". */
  function FrequencyDefault(stored: Option<string>): (r: string)
    ensures TextPresent(stored) ==> r == stored.value
  {
    if TextPresent(stored) then stored.value else "none"
  }

  /** `task.repeat_days ? JSON.parse(task.repeat_days) : []`. */
  function RepeatDaysDefault(stored: Option<seq<string>>): seq<string> {
    if stored.Some? then stored.value else []
  }

  /** The form's branch: fixed by the type of the record it was opened on. */
  function ActiveType(task: TaskRow): (t: string)
    ensures t == "Task" <==> task.kind == "Task"
    ensures t == "Task" || t == "Schedule"
  {
    if task.kind == "Task" then "Task" else "Schedule"
  }

  /**
   * What the date pickers start from: the `Date` the engine makes of the
   * record's date, start date, end date and time texts (parsing them is
   * not modelled), used when the text is present.
   */
  datatype ParsedFields = ParsedFields(date: CalendarDate, startDate: CalendarDate, endDate: CalendarDate,
                                       hour: int, minute: int)

  predicate ParsedValid(p: ParsedFields) {
    ValidDate(p.date) && ValidDate(p.startDate) && ValidDate(p.endDate) && 0 <= p.hour < 24 && 0 <= p.minute < 60
  }

  /** The alert after the store call. */
  function SaveAlert(updated: bool): Call {
    if updated then ShowAlert("Success", "Task updated successfully!") else ShowAlert("Error", "Failed to update task.")
  }

  /** Everything an edit form holds besides the record it was opened on. */
  datatype FormFields = FormFields(
    title: string, description: string, category: string, location: string,
    date: CalendarDate, startDate: CalendarDate, endDate: CalendarDate, hour: int, minute: int,
    repeatFrequency: string, repeatDays: seq<string>, reminderMinutes: int)

  class EditForm {
    /** The record the form was opened on. */
    const task: TaskRow
    var title: string
    var description: string
    var category: string
    var location: string
    var date: CalendarDate
    var startDate: CalendarDate
    var endDate: CalendarDate
    var hour: int
    var minute: int
    var repeatFrequency: string
    var repeatDays: seq<string>
    var reminderMinutes: int

    predicate Valid()
      reads this
    {
      ValidDate(date) && ValidDate(startDate) && ValidDate(endDate) && 0 <= hour < 24 && 0 <= minute < 60
    }

    ghost function Fields(): FormFields
      reads this
    {
      FormFields(title, description, category, location, date, startDate, endDate, hour, minute,
                 repeatFrequency, repeatDays, reminderMinutes)
    }

    /**
     * The form opened on `task` at the local day `today` and clock time
     * `nowHour`:`nowMinute`: a missing date, start date, end date or time
     * falls back to now.
     */
    constructor(task: TaskRow, parsed: ParsedFields, today: CalendarDate, nowHour: int, nowMinute: int)
      requires ParsedValid(parsed) && ValidDate(today) && 0 <= nowHour < 24 && 0 <= nowMinute < 60
      ensures Valid() && this.task == task
      ensures title == task.title && description == task.description && category == task.kind
      ensures location == task.location
      ensures date == (if task.date != "" then parsed.date else today)
      ensures startDate == (if TextPresent(task.startDate) then parsed.startDate else today)
      ensures endDate == (if TextPresent(task.endDate) then parsed.endDate else today)
      ensures (hour, minute) == (if task.time != "" then (parsed.hour, parsed.minute) else (nowHour, nowMinute))
      ensures repeatFrequency == FrequencyDefault(task.repeatFrequency)
      ensures repeatDays == RepeatDaysDefault(task.repeatDays)
      ensures reminderMinutes == ReminderDefault(task.reminderMinutes)
    {
      this.task := task;
      title, description, category, location := task.title, task.description, task.kind, task.location;
      date := if task.date != "" then parsed.date else today;
      startDate := if TextPresent(task.startDate) then parsed.startDate else today;
      endDate := if TextPresent(task.endDate) then parsed.endDate else today;
      if task.time != "" {
        hour, minute := parsed.hour, parsed.minute;
      } else {
        hour, minute := nowHour, nowMinute;
      }
      repeatFrequency := FrequencyDefault(task.repeatFrequency);
      repeatDays := RepeatDaysDefault(task.repeatDays);
      reminderMinutes := ReminderDefault(task.reminderMinutes);
    }

    method SetTitle(text: string)
      requires Valid()
      modifies this
      ensures Valid() && Fields() == old(Fields()).(title := text)
    {
      title := text;
    }

    method SetDescription(text: string)
      requires Valid()
      modifies this
      ensures Valid() && Fields() == old(Fields()).(description := text)
    {
      description := text;
    }

    method SetLocation(text: string)
      requires Valid()
      modifies this
      ensures Valid() && Fields() == old(Fields()).(location := text)
    {
      location := text;
    }

    /** The category picker; it offers every category of both types. */
    method SetCategory(name: string)
      requires Valid()
      modifies this
      ensures Valid() && Fields() == old(Fields()).(category := name)
    {
      category := name;
    }

    method SetRepeatFrequency(frequency: string)
      requires Valid()
      modifies this
      ensures Valid() && Fields() == old(Fields()).(repeatFrequency := frequency)
    {
      repeatFrequency := frequency;
    }

    /** A "Remind Me Before" chip. */
    method SetReminderMinutes(minutes: int)
      requires Valid() && minutes in ReminderChoices
      modifies this
      ensures Valid() && Fields() == old(Fields()).(reminderMinutes := minutes)
    {
      reminderMinutes := minutes;
    }

    /** `onDateChange`: `selectedDate || date`, so a dismissed picker keeps the date. */
    method OnDateChange(selected: Option<CalendarDate>)
      requires Valid() && (selected.Some? ==> ValidDate(selected.value))
      modifies this
      ensures Valid() && Fields() == old(Fields()).(date := if selected.Some? then selected.value else old(date))
    {
      if selected.Some? {
        date := selected.value;
      }
    }

    /** `onTimeChange`, the picked time given as (hour, minute). */
    method OnTimeChange(selected: Option<(int, int)>)
      requires Valid() && (selected.Some? ==> 0 <= selected.value.0 < 24 && 0 <= selected.value.1 < 60)
      modifies this
      ensures Valid()
      ensures selected.Some? ==> Fields() == old(Fields()).(hour := selected.value.0, minute := selected.value.1)
      ensures selected.None? ==> Fields() == old(Fields())
    {
      if selected.Some? {
        hour, minute := selected.value.0, selected.value.1;
      }
    }

    method HandleStartDateChange(selected: Option<CalendarDate>)
      requires Valid() && (selected.Some? ==> ValidDate(selected.value))
      modifies this
      ensures Valid() && Fields() == old(Fields()).(startDate := if selected.Some? then selected.value else old(startDate))
    {
      if selected.Some? {
        startDate := selected.value;
      }
    }

    method HandleEndDateChange(selected: Option<CalendarDate>)
      requires Valid() && (selected.Some? ==> ValidDate(selected.value))
      modifies this
      ensures Valid() && Fields() == old(Fields()).(endDate := if selected.Some? then selected.value else old(endDate))
    {
      if selected.Some? {
        endDate := selected.value;
      }
    }

    /** `handleRepeatDayToggle`. */
    method ToggleRepeatDay(day: string)
      requires Valid()
      modifies this
      ensures Valid() && Fields() == old(Fields()).(repeatDays := ToggleDay(old(repeatDays), day))
    {
      repeatDays := ToggleDay(repeatDays, day);
    }

    /** `handleEverydayToggle`. */
    method ToggleEveryday()
      requires Valid()
      modifies this
      ensures Valid() && Fields() == old(Fields()).(repeatDays := RepeatDays.ToggleEveryday(old(repeatDays)))
    {
      repeatDays := RepeatDays.ToggleEveryday(repeatDays);
    }

    /** The due date and display time the save writes. */
    function SavedDate(): string
      requires Valid()
      reads this
    {
      FormatDate(if ActiveType(task) == "Task" then date else startDate)
    }

    function SavedTime(): string
      requires Valid()
      reads this
    {
      FormatTime(hour, minute)
    }

    /** The reminder handle the save stores: a new one for an original Task, the old one otherwise. */
    function NewHandle(now: int, scheduled: Option<string>): Option<string>
      requires Valid()
      reads this
    {
      if ActiveType(task) == "Task" then ScheduleHandle(FormatDate(date), FormatTime(hour, minute), now, scheduled)
      else task.notificationId
    }

    /** The record the save hands to `updateTask`, with the reminder handle `handle`. */
    function Update(handle: Option<string>): (u: TaskUpdate)
      requires Valid()
      reads this
    {
      var active := ActiveType(task);
      TaskUpdate(
        ResolveBaseId(task.id), title, description, SavedDate(), SavedTime(), category, location,
        repeatFrequency,
        if repeatFrequency == "weekly" then Some(repeatDays) else None,
        if active == "Schedule" then Some(FormatDate(startDate)) else None,
        if active == "Schedule" then Some(FormatDate(endDate)) else None,
        handle, reminderMinutes)
    }

    /** The reminder calls of a save: for an original Task, cancel the old handle, then schedule anew. */
    function ReminderCalls(now: int): seq<Call>
      requires Valid()
      reads this
    {
      if ActiveType(task) == "Task" then
        (if TextPresent(task.notificationId) then [CancelNotification(task.notificationId.value)] else [])
        + ScheduleCalls(title, FormatDate(date), FormatTime(hour, minute), now)
      else []
    }

    /**
     * The cancel of an original Task's old reminder throws (`cancelled`
     * false). It is awaited outside the save's try block, so the save ends
     * there.
     */
    predicate CancelThrows(cancelled: bool)
      reads this
    {
      ActiveType(task) == "Task" && TextPresent(task.notificationId) && !cancelled
    }

    /**
     * The calls `handleSaveTask` makes at the clock reading `now`, the
     * cancel returning when `cancelled`, the scheduler answering `scheduled`
     * and the store accepting the update when `updated`: an empty title or
     * category stops at an alert, and a cancel that throws stops the save.
     */
    function SaveCalls(now: int, cancelled: bool, scheduled: Option<string>, updated: bool): (calls: seq<Call>)
      requires Valid()
      reads this
      ensures title == "" || category == "" ==> calls == [ShowAlert("Error", "Please fill in all fields.")]
    {
      if title == "" || category == "" then [ShowAlert("Error", "Please fill in all fields.")]
      else if CancelThrows(cancelled) then [CancelNotification(task.notificationId.value)]
      else ReminderCalls(now) + [UpdateTask(Update(NewHandle(now, scheduled))), SaveAlert(updated)]
    }

    /**
     * The reminder half of `handleSaveTask`: for an original Task, cancel
     * the old handle when there is one, then schedule anew; the handle to
     * store is the new one, or the old one for a Schedule. `completed` is
     * false when the cancel threw, and then nothing is scheduled.
     */
    method ReplaceReminder(outside: Outside, now: int, cancelled: bool, scheduled: Option<string>)
      returns (completed: bool, newNotificationId: Option<string>)
      requires Valid()
      modifies outside
      ensures completed == !CancelThrows(cancelled)
      ensures completed ==> outside.trace == old(outside.trace) + ReminderCalls(now)
      ensures completed ==> newNotificationId == NewHandle(now, scheduled)
      ensures !completed ==> outside.trace == old(outside.trace) + [CancelNotification(task.notificationId.value)]
    {
      completed, newNotificationId := true, task.notificationId;
      if ActiveType(task) == "Task" {
        if TextPresent(task.notificationId) {
          outside.Perform(CancelNotification(task.notificationId.value));
          if !cancelled {
            completed := false;
            return;
          }
        }
        newNotificationId := ScheduleTaskNotification(outside, title, FormatDate(date), FormatTime(hour, minute),
                                                      now, scheduled);
      }
    }

    /** `handleSaveTask`. */
    method HandleSaveTask(outside: Outside, now: int, cancelled: bool, scheduled: Option<string>, updated: bool)
      requires Valid()
      modifies outside
      ensures outside.trace == old(outside.trace) + SaveCalls(now, cancelled, scheduled, updated)
    {
      if title == "" || category == "" {
        outside.Perform(ShowAlert("Error", "Please fill in all fields."));
        return;
      }
      var completed, newNotificationId := ReplaceReminder(outside, now, cancelled, scheduled);
      if !completed {
        return;
      }
      ghost var before := outside.trace;
      var updatedTask := Update(newNotificationId);
      outside.Perform(UpdateTask(updatedTask));
      if updated {
        outside.Perform(ShowAlert("Success", "Task updated successfully!"));
      } else {
        outside.Perform(ShowAlert("Error", "Failed to update task."));
      }
      assert outside.trace == before + [UpdateTask(updatedTask), SaveAlert(updated)];
      FilledSaveCalls(this, now, cancelled, scheduled, updated);
      AppendAssociates(old(outside.trace), ReminderCalls(now), [UpdateTask(updatedTask), SaveAlert(updated)]);
    }
  }

  // ---------------------------------------------------------------------
  // Lemmas
  // ---------------------------------------------------------------------

  lemma AppendAssociates(a: seq<Call>, b: seq<Call>, c: seq<Call>)
    ensures (a + b) + c == a + (b + c)
  {
  }

  lemma FilledSaveCalls(f: EditForm, now: int, cancelled: bool, scheduled: Option<string>, updated: bool)
    requires f.Valid() && f.title != "" && f.category != "" && !f.CancelThrows(cancelled)
    ensures f.SaveCalls(now, cancelled, scheduled, updated)
      == f.ReminderCalls(now) + [UpdateTask(f.Update(f.NewHandle(now, scheduled))), SaveAlert(updated)]
  {
  }

  /** The save reaches the scheduler or the store only with a title and a category. */
  lemma IncompleteSaveHasNoEffect(f: EditForm, now: int, cancelled: bool, scheduled: Option<string>, updated: bool,
                                  c: Call)
    requires f.Valid() && c in f.SaveCalls(now, cancelled, scheduled, updated)
    ensures (c.CancelNotification? || c.ScheduleNotification? || c.UpdateTask?) ==> f.title != "" && f.category != ""
  {
  }

  /**
   * Saving an original Task that holds a reminder handle cancels that
   * reminder before anything else, whatever category the form now shows.
   */
  lemma TaskSaveCancelsFirst(f: EditForm, now: int, cancelled: bool, scheduled: Option<string>, updated: bool)
    requires f.Valid() && f.task.kind == "Task" && f.title != "" && f.category != ""
    requires TextPresent(f.task.notificationId)
    ensures f.SaveCalls(now, cancelled, scheduled, updated)[0] == CancelNotification(f.task.notificationId.value)
  {
    if cancelled {
      FilledSaveCalls(f, now, cancelled, scheduled, updated);
      var sc := ScheduleCalls(f.title, FormatDate(f.date), FormatTime(f.hour, f.minute), now);
      assert f.ReminderCalls(now) == [CancelNotification(f.task.notificationId.value)] + sc;
    }
  }

  /**
   * A cancel that throws ends the save of an original Task: the attempted
   * cancel is its only call, so nothing is scheduled, nothing is stored
   * and no alert is shown.
   */
  lemma CancelFailureAbandonsSave(f: EditForm, now: int, scheduled: Option<string>, updated: bool)
    requires f.Valid() && f.task.kind == "Task" && TextPresent(f.task.notificationId)
    requires f.title != "" && f.category != ""
    ensures f.SaveCalls(now, false, scheduled, updated) == [CancelNotification(f.task.notificationId.value)]
    ensures forall c :: c in f.SaveCalls(now, false, scheduled, updated) ==>
      !c.ScheduleNotification? && !c.UpdateTask? && !c.ShowAlert?
  {
  }

  /**
   * Saving an original Task schedules the new reminder, at the saved date
   * and time, exactly when that time is not past.
   */
  lemma TaskSaveSchedulesUnlessPast(f: EditForm, now: int, cancelled: bool, scheduled: Option<string>, updated: bool)
    requires f.Valid() && f.task.kind == "Task" && f.title != "" && f.category != ""
    ensures var trigger := TriggerInstant(f.SavedDate(), f.SavedTime());
      ScheduleNotification(ReminderTitle, ReminderBody(f.title), trigger) in f.SaveCalls(now, cancelled, scheduled, updated)
      <==> !TriggerInPast(trigger, now) && !f.CancelThrows(cancelled)
  {
    if f.CancelThrows(cancelled) {
      return;
    }
    FilledSaveCalls(f, now, cancelled, scheduled, updated);
    var trigger := TriggerInstant(FormatDate(f.date), FormatTime(f.hour, f.minute));
    var x := ScheduleNotification(ReminderTitle, ReminderBody(f.title), trigger);
    var cancel: seq<Call> := if TextPresent(f.task.notificationId) then [CancelNotification(f.task.notificationId.value)] else [];
    var sc := ScheduleCalls(f.title, FormatDate(f.date), FormatTime(f.hour, f.minute), now);
    var tail := [UpdateTask(f.Update(f.NewHandle(now, scheduled))), SaveAlert(updated)];
    assert sc == if TriggerInPast(trigger, now) then [] else [x];
    assert f.SaveCalls(now, cancelled, scheduled, updated) == cancel + sc + tail;
    assert x !in cancel && x !in tail;
  }

  /**
   * Saving an original Task stores the scheduler's new handle, or none when
   * the time is past: the old handle is never kept.
   */
  lemma TaskSaveStoresNewHandle(f: EditForm, now: int, cancelled: bool, scheduled: Option<string>, updated: bool)
    requires f.Valid() && f.task.kind == "Task" && f.title != "" && f.category != ""
    ensures UpdateTask(f.Update(if TriggerInPast(TriggerInstant(f.SavedDate(), f.SavedTime()), now) then None else scheduled))
      in f.SaveCalls(now, cancelled, scheduled, updated)
      <==> !f.CancelThrows(cancelled)
  {
    if f.CancelThrows(cancelled) {
      return;
    }
    FilledSaveCalls(f, now, cancelled, scheduled, updated);
    var handle := f.NewHandle(now, scheduled);
    assert handle == ScheduleHandle(FormatDate(f.date), FormatTime(f.hour, f.minute), now, scheduled);
    var calls := f.SaveCalls(now, cancelled, scheduled, updated);
    assert calls[|calls| - 2] == UpdateTask(f.Update(handle));
  }

  /**
   * Saving an original Schedule never touches the notification scheduler
   * and keeps the stored reminder handle, whatever category the form shows.
   */
  lemma ScheduleSaveKeepsReminder(f: EditForm, now: int, cancelled: bool, scheduled: Option<string>, updated: bool)
    requires f.Valid() && f.task.kind != "Task" && f.title != "" && f.category != ""
    ensures f.SaveCalls(now, cancelled, scheduled, updated)[0] == UpdateTask(f.Update(f.task.notificationId))
    ensures forall c :: c in f.SaveCalls(now, cancelled, scheduled, updated) ==> !c.CancelNotification? && !c.ScheduleNotification?
  {
  }

  /**
   * The record saved: under the stored row's id (the base row for an
   * occurrence "N-YYYY-MM-DD"); a Task dated by its due date with no range,
   * a Schedule dated by its start date with its range; repeat days only
   * for a weekly repeat.
   */
  lemma UpdateShape(f: EditForm, handle: Option<string>)
    requires f.Valid()
    ensures f.Update(handle).id == ResolveBaseId(f.task.id)
    ensures f.task.id.NumId? ==> f.Update(handle).id == Some(f.task.id.n)
    ensures f.task.kind == "Task" ==>
      f.Update(handle).date == FormatDate(f.date) && f.Update(handle).startDate.None? && f.Update(handle).endDate.None?
    ensures f.task.kind != "Task" ==>
      f.Update(handle).date == FormatDate(f.startDate) && f.Update(handle).startDate == Some(FormatDate(f.startDate))
      && f.Update(handle).endDate == Some(FormatDate(f.endDate))
    ensures f.Update(handle).repeatDays.Some? <==> f.repeatFrequency == "weekly"
    ensures f.Update(handle).notificationId == handle && f.Update(handle).reminderMinutes == f.reminderMinutes
  {
  }

  /** Editing one occurrence "N-D" of a repeating row saves row N. */
  lemma OccurrenceEditSavesBaseRow(f: EditForm, n: nat, d: string, handle: Option<string>)
    requires f.Valid() && f.task.id == TextId(OccurrenceId(n, d))
    ensures f.Update(handle).id == Some(n)
  {
    ResolveOccurrence(n, d);
  }

  /**
   * The new reminder of a saved Task (four-digit year) fires at the saved
   * deadline itself, whatever reminder offset the form holds.
   */
  lemma SavedReminderAtDeadline(f: EditForm, now: int, scheduled: Option<string>)
    requires f.Valid() && f.task.kind == "Task" && 1000 <= f.date.year <= 9999
    ensures TriggerInstant(f.SavedDate(), f.SavedTime()) == Deadline(f.Update(f.NewHandle(now, scheduled)).date, f.Update(f.NewHandle(now, scheduled)).time)
    ensures TriggerInstant(f.SavedDate(), f.SavedTime()) == Some(LocalInstant(f.date, f.hour, f.minute))
  {
    ReminderAtDeadline(f.date, f.hour, f.minute);
    TriggerRoundTrip(f.date, f.hour, f.minute);
  }

  /**
   * The reminder offset reopens as saved, except "At time" (0), which
   * reopens as 5 minutes; an absent offset also opens as 5.
   */
  lemma ReminderReopens(minutes: int)
    requires minutes in ReminderChoices
    ensures ReminderDefault(Some(minutes)) == (if minutes == 0 then 5 else minutes)
    ensures ReminderDefault(None) == 5
  {
  }

  // ---------------------------------------------------------------------
  // The record a card hands to the form
  // ---------------------------------------------------------------------

  /**
   * As written, a card's Edit button hands over only the card's own fields.
   * A form opened on that object for a Task whose row holds a reminder
   * handle never cancels it: its save sends no cancel at all, and still
   * schedules a second reminder when the time is not past.
   */
  lemma CardPayloadKeepsOldReminder(card: TaskCard.Card, userId: int, f: EditForm, now: int, cancelled: bool,
                                    scheduled: Option<string>, updated: bool)
    requires f.Valid() && f.task == card.EditPayload(userId) && card.kind == "Task"
    requires f.title != "" && f.category != ""
    ensures forall c :: c in f.SaveCalls(now, cancelled, scheduled, updated) ==> !c.CancelNotification?
    ensures !TriggerInPast(TriggerInstant(f.SavedDate(), f.SavedTime()), now) ==>
      exists c :: c in f.SaveCalls(now, cancelled, scheduled, updated) && c.ScheduleNotification?
  {
    assert f.task.notificationId.None?;
    FilledSaveCalls(f, now, cancelled, scheduled, updated);
    var sc := ScheduleCalls(f.title, FormatDate(f.date), FormatTime(f.hour, f.minute), now);
    assert f.ReminderCalls(now) == sc;
    assert forall c :: c in sc ==> c.ScheduleNotification?;
    if !TriggerInPast(TriggerInstant(f.SavedDate(), f.SavedTime()), now) {
      TaskSaveSchedulesUnlessPast(f, now, cancelled, scheduled, updated);
    }
  }

  /**
   * As written, a form opened on the card's object for a weekly schedule
   * opens with no repeat ("none"), no repeat days, a 5-minute offset and
   * today's start and end dates, so saving it unchanged stops the
   * repetition and moves the schedule to today.
   */
  lemma CardPayloadDropsRepeat(card: TaskCard.Card, userId: int, parsed: ParsedFields, today: CalendarDate)
    requires card.row.repeatFrequency == Some("weekly")
    ensures FrequencyDefault(card.EditPayload(userId).repeatFrequency) == "none"
    ensures RepeatDaysDefault(card.EditPayload(userId).repeatDays) == []
    ensures (if TextPresent(card.EditPayload(userId).startDate) then parsed.startDate else today) == today
    ensures ReminderDefault(card.EditPayload(userId).reminderMinutes) == 5
  {
  }

  /**
   * With the whole row handed over, saving an original Task cancels the
   * row's reminder before anything else; when the cancel returns, the
   * stored record carries the new handle, never the cancelled one.
   */
  lemma FullPayloadReplacesReminder(card: TaskCard.Card, f: EditForm, now: int, cancelled: bool,
                                    scheduled: Option<string>, updated: bool)
    requires f.Valid() && f.task == card.FullEditPayload() && card.kind == "Task"
    requires TextPresent(card.row.notificationId) && f.title != "" && f.category != ""
    ensures f.SaveCalls(now, cancelled, scheduled, updated)[0] == CancelNotification(card.row.notificationId.value)
    ensures cancelled ==>
      UpdateTask(f.Update(if TriggerInPast(TriggerInstant(f.SavedDate(), f.SavedTime()), now) then None else scheduled))
      in f.SaveCalls(now, cancelled, scheduled, updated)
  {
    TaskSaveCancelsFirst(f, now, cancelled, scheduled, updated);
    TaskSaveStoresNewHandle(f, now, cancelled, scheduled, updated);
  }

  /** With the whole row handed over, the repeat settings and reminder offset open as stored. */
  lemma FullPayloadKeepsRepeat(card: TaskCard.Card)
    requires TextPresent(card.row.repeatFrequency)
    ensures FrequencyDefault(card.FullEditPayload().repeatFrequency) == card.row.repeatFrequency.value
    ensures RepeatDaysDefault(card.FullEditPayload().repeatDays) == RepeatDaysDefault(card.row.repeatDays)
    ensures ReminderDefault(card.FullEditPayload().reminderMinutes) == ReminderDefault(card.row.reminderMinutes)
  {
  }
}
