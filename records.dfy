/**
 * The records the screens exchange with the store: a task row as the store
 * returns it, the new record the add form submits and the updated record the
 * edit form submits, together with the ordered trace of calls the screens
 * make to everything outside them (store, notification scheduler, alerts,
 * navigation).
 */
module Records {
  import opened JsText

  /**
   * A row id: a number for a stored row, a text "N-YYYY-MM-DD" for one
   * occurrence of a repeating row expanded by the store.
   */
  datatype TaskId = NumId(n: int) | TextId(s: string)

  /**
   * A task or schedule as the store lists it; `kind` is the `type` column,
   * and a nullable column is an Option. `repeatDays` stands for the JSON
   * text of the list, already decoded.
   */
  datatype TaskRow = TaskRow(
    id: TaskId,
    userId: int,
    kind: string,
    title: string,
    description: string,
    location: string,
    date: string,
    time: string,
    status: string,
    repeatFrequency: Option<string>,
    repeatDays: Option<seq<string>>,
    startDate: Option<string>,
    endDate: Option<string>,
    notificationId: Option<string>,
    reminderMinutes: Option<int>)

  /** The record `addTask` receives from the add form. */
  datatype NewTask = NewTask(
    title: string,
    description: string,
    date: string,
    time: string,
    kind: string,
    location: string,
    userId: int,
    repeatFrequency: string,
    repeatDays: Option<seq<string>>,
    startDate: Option<string>,
    endDate: Option<string>)

  /** The record `updateTask` receives from the edit form. */
  datatype TaskUpdate = TaskUpdate(
    id: Option<int>,
    title: string,
    description: string,
    date: string,
    time: string,
    kind: string,
    location: string,
    repeatFrequency: string,
    repeatDays: Option<seq<string>>,
    startDate: Option<string>,
    endDate: Option<string>,
    notificationId: Option<string>,
    reminderMinutes: int)

  /** One call from the screens to something outside them, in the order made. */
  datatype Call =
    | ScheduleNotification(title: string, body: string, trigger: Option<int>)
    | CancelNotification(handle: string)
    | AddTask(newTask: NewTask)
    | UpdateTask(update: TaskUpdate)
    | UpdateTaskStatus(taskId: Option<int>, status: string)
    | DeleteTask(taskId: Option<int>)
    | RangeQuery(userId: int, startDate: string, endDate: string)
    | ShowAlert(alertTitle: string, message: string)
    | GoBack

  /** Everything outside the screens, seen as the calls made to it so far. */
  class Outside {
    var trace: seq<Call>

    constructor()
      ensures trace == []
    {
      trace := [];
    }

    method Perform(c: Call)
      modifies this
      ensures trace == old(trace) + [c]
    {
      trace := trace + [c];
    }
  }

  /** JavaScript truthiness of a user id: absent and 0 are false. */
  predicate IdPresent(userId: Option<int>) {
    userId.Some? && userId.value != 0
  }

  /** JavaScript truthiness of an optional text: absent and "" are false. */
  predicate TextPresent(s: Option<string>) {
    s.Some? && s.value != ""
  }
}
