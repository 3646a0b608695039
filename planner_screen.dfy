/**
 * The planner: one day at a time, the rows of that day (repeating rows
 * expanded by the store) split into tasks and schedules, day stepping, and
 * the done and delete actions on a row or on one occurrence of it.
 */
module PlannerScreen {
  import opened JsText
  import opened Lists
  import opened Calendar
  import opened TimeText
  import opened Records
  import opened OccurrenceIds

  predicate IsTaskItem(row: TaskRow) {
    row.kind == "Task"
  }

  predicate IsScheduleItem(row: TaskRow) {
    row.kind != "Task"
  }

  /** The calls one refresh makes: the day's range query, start and end both the day's text. */
  function FetchCalls(userId: Option<int>, day: CalendarDate): (calls: seq<Call>)
    requires ValidDate(day)
    ensures IdPresent(userId) ==> calls == [RangeQuery(userId.value, FormatDate(day), FormatDate(day))]
    ensures !IdPresent(userId) ==> calls == []
  {
    if IdPresent(userId) then [RangeQuery(userId.value, FormatDate(day), FormatDate(day))] else []
  }

  /** The status update the done action sends: the stored row's id, status "done". */
  function DoneCall(taskId: TaskId): Call {
    UpdateTaskStatus(ResolveBaseId(taskId), "done")
  }

  /** The delete the delete action sends: the stored row's id. */
  function DeleteCall(taskId: TaskId): Call {
    DeleteTask(ResolveBaseId(taskId))
  }

  class Planner {
    var currentDate: CalendarDate
    var tasks: seq<TaskRow>
    var schedules: seq<TaskRow>

    predicate Valid()
      reads this
    {
      ValidDate(currentDate)
    }

    /** The planner opens on `today` with empty lists. */
    constructor(today: CalendarDate)
      requires ValidDate(today)
      ensures Valid() && currentDate == today && tasks == [] && schedules == []
    {
      currentDate, tasks, schedules := today, [], [];
    }

    /**
     * `fetchTasksAndSchedules`: for a signed-in user, query the store for the
     * current day and split what it lists (`fetched`, None when the query
     * fails and the lists stay as they were).
     */
    method FetchTasksAndSchedules(outside: Outside, userId: Option<int>, fetched: Option<seq<TaskRow>>)
      requires Valid()
      modifies this, outside
      ensures Valid() && currentDate == old(currentDate)
      ensures outside.trace == old(outside.trace) + FetchCalls(userId, currentDate)
      ensures IdPresent(userId) && fetched.Some? ==>
        tasks == Filter(fetched.value, IsTaskItem) && schedules == Filter(fetched.value, IsScheduleItem)
      ensures !(IdPresent(userId) && fetched.Some?) ==> tasks == old(tasks) && schedules == old(schedules)
    {
      if IdPresent(userId) {
        var dateString := FormatDate(currentDate);
        outside.Perform(RangeQuery(userId.value, dateString, dateString));
        if fetched.Some? {
          tasks := Filter(fetched.value, IsTaskItem);
          schedules := Filter(fetched.value, IsScheduleItem);
        }
      }
    }

    /**
     * `handleDone`: mark the stored row done and, when the update went
     * through (`updated`), refresh the day.
     */
    method HandleDone(outside: Outside, userId: Option<int>, taskId: TaskId, updated: bool,
                      fetched: Option<seq<TaskRow>>)
      requires Valid()
      modifies this, outside
      ensures Valid() && currentDate == old(currentDate)
      ensures outside.trace == old(outside.trace) + [DoneCall(taskId)]
                               + (if updated then FetchCalls(userId, currentDate) else [])
      ensures updated && IdPresent(userId) && fetched.Some? ==>
        tasks == Filter(fetched.value, IsTaskItem) && schedules == Filter(fetched.value, IsScheduleItem)
      ensures !(updated && IdPresent(userId) && fetched.Some?) ==> tasks == old(tasks) && schedules == old(schedules)
    {
      outside.Perform(DoneCall(taskId));
      if updated {
        FetchTasksAndSchedules(outside, userId, fetched);
      }
    }

    /**
     * `executeDeleteTask`: delete the stored row; refresh the day when the
     * delete went through (`deleted`), otherwise show the error alert.
     */
    method ExecuteDeleteTask(outside: Outside, userId: Option<int>, taskId: TaskId, deleted: bool,
                             fetched: Option<seq<TaskRow>>)
      requires Valid()
      modifies this, outside
      ensures Valid() && currentDate == old(currentDate)
      ensures outside.trace == old(outside.trace) + [DeleteCall(taskId)]
        + (if deleted then FetchCalls(userId, currentDate) else [ShowAlert("Error", "Could not delete the task.")])
      ensures deleted && IdPresent(userId) && fetched.Some? ==>
        tasks == Filter(fetched.value, IsTaskItem) && schedules == Filter(fetched.value, IsScheduleItem)
      ensures !(deleted && IdPresent(userId) && fetched.Some?) ==> tasks == old(tasks) && schedules == old(schedules)
    {
      outside.Perform(DeleteCall(taskId));
      if deleted {
        FetchTasksAndSchedules(outside, userId, fetched);
      } else {
        outside.Perform(ShowAlert("Error", "Could not delete the task."));
      }
    }

    /** `goToNextDay`: exactly one calendar day later. */
    method GoToNextDay()
      requires Valid()
      modifies this
      ensures Valid() && currentDate == NextDay(old(currentDate))
      ensures DayNumber(currentDate) == DayNumber(old(currentDate)) + 1
      ensures tasks == old(tasks) && schedules == old(schedules)
    {
      NextDayIsOneDayLater(currentDate);
      currentDate := NextDay(currentDate);
    }

    /** `goToPreviousDay`: exactly one calendar day earlier. */
    method GoToPreviousDay()
      requires Valid()
      modifies this
      ensures Valid() && currentDate == PrevDay(old(currentDate))
      ensures DayNumber(currentDate) == DayNumber(old(currentDate)) - 1
      ensures tasks == old(tasks) && schedules == old(schedules)
    {
      PrevDayIsOneDayEarlier(currentDate);
      currentDate := PrevDay(currentDate);
    }
  }

  // ---------------------------------------------------------------------
  // Lemmas
  // ---------------------------------------------------------------------

  /**
   * The refresh's window admits the day's own text and no other day's: a
   * date text lies between the query's start and end (in the store's text
   * order) exactly when it is the planner's day, for four-digit years.
   */
  lemma DayWindowIsTheDay(userId: Option<int>, day: CalendarDate, other: CalendarDate)
    requires IdPresent(userId) && ValidDate(day) && ValidDate(other)
    requires 1000 <= day.year <= 9999 && 1000 <= other.year <= 9999
    ensures FetchCalls(userId, day) == [RangeQuery(userId.value, FormatDate(day), FormatDate(day))]
    ensures !TextLess(FormatDate(other), FormatDate(day)) && !TextLess(FormatDate(day), FormatDate(other))
      <==> other == day
  {
    FormatDateOrder(other, day);
    FormatDateOrder(day, other);
    DayNumberOrder(other, day);
  }

  /**
   * The task and schedule lists split the day's rows: no row is in both,
   * together they hold every row exactly as often as the day has it, and
   * each keeps the store's order.
   */
  lemma PartitionOfDay(items: seq<TaskRow>)
    ensures forall row :: !(row in Filter(items, IsTaskItem) && row in Filter(items, IsScheduleItem))
    ensures multiset(Filter(items, IsTaskItem)) + multiset(Filter(items, IsScheduleItem)) == multiset(items)
    ensures IsSubsequence(Filter(items, IsTaskItem), items) && IsSubsequence(Filter(items, IsScheduleItem), items)
  {
    FilterComplement(items, IsTaskItem, IsScheduleItem);
    FilterIsSubsequence(items, IsTaskItem);
    FilterIsSubsequence(items, IsScheduleItem);
  }

  /**
   * Done and delete on any occurrence of row `n`, whatever its date, send
   * the same call as on the row itself: they act on every occurrence.
   */
  lemma ActionsReachEveryOccurrence(n: nat, date: string)
    ensures DoneCall(TextId(OccurrenceId(n, date))) == DoneCall(NumId(n)) == UpdateTaskStatus(Some(n), "done")
    ensures DeleteCall(TextId(OccurrenceId(n, date))) == DeleteCall(NumId(n)) == DeleteTask(Some(n))
  {
    ResolveOccurrence(n, date);
  }
}
