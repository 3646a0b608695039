/**
 * The task card: the countdown to a row's deadline, refreshed every second
 * while the row is pending and its deadline has not passed; the label shown
 * once it has passed ("Missed" for a Task, "Done" for any other kind); and
 * the long-press actions.
 */
module TaskCard {
  import opened JsText
  import opened Calendar
  import opened Records

  const MsPerSecond: int := 1000

  /** Whole days, hours, minutes and seconds of a remaining time. */
  datatype Countdown = Countdown(days: int, hours: int, minutes: int, seconds: int)

  /**
   * The `Math.floor` divisions of a positive remaining time: each unit is
   * taken from what the larger units leave over.
   */
  function SplitRemaining(diff: int): (c: Countdown)
    requires diff > 0
    ensures c.days >= 0 && 0 <= c.hours < 24 && 0 <= c.minutes < 60 && 0 <= c.seconds < 60
    ensures Total(c) <= diff < Total(c) + MsPerSecond
  {
    var c := Countdown(diff / MsPerDay, (diff % MsPerDay) / MsPerHour,
                       (diff % MsPerHour) / MsPerMinute, (diff % MsPerMinute) / MsPerSecond);
    SplitSum(diff);
    c
  }

  /** The milliseconds a countdown stands for. */
  function Total(c: Countdown): int {
    c.days * MsPerDay + c.hours * MsPerHour + c.minutes * MsPerMinute + c.seconds * MsPerSecond
  }

  /** `deadlineDate - now`: NaN when the deadline is an invalid date. */
  function Remaining(deadline: Option<int>, now: int): Option<int> {
    match deadline
    case None => None
    case Some(t) => Some(t - now)
  }

  /** `diff <= 0`, which is false for NaN. */
  predicate PastDeadline(diff: Option<int>) {
    diff.Some? && diff.value <= 0
  }

  /**
   * The countdown text for a remaining time that is not past, the largest
   * unit first; NaN gives "NaNs" because every comparison with NaN fails.
   */
  function CountdownLabel(diff: Option<int>): (text: string)
    requires !PastDeadline(diff)
    ensures text != [] && text[|text| - 1] in {'h', 'm', 's'}
    ensures text != "Missed" && text != "Done"
  {
    match diff
    case None => "NaN" + "s"
    case Some(v) =>
      var c := SplitRemaining(v);
      if c.days > 0 then "Remaining Time: " + NatToString(c.days) + "d " + NatToString(c.hours) + "h"
      else if c.hours > 0 then "Remaining Time: " + NatToString(c.hours) + "h " + NatToString(c.minutes) + "m"
      else if c.minutes > 0 then "Remaining Time: " + NatToString(c.minutes) + "m"
      else NatToString(c.seconds) + "s"
  }

  /** The card's status text: "Done" for a done row or a passed non-Task, else the countdown text. */
  function StatusText(status: string, kind: string, isPastDeadline: bool, remainingTime: string): string {
    if status == "done" then "Done"
    else if isPastDeadline && kind != "Task" then "Done"
    else remainingTime
  }

  /** A snapshot of a card's props, the row they came from and its deadline. */
  datatype CardProps = CardProps(id: TaskId, kind: string, title: string, description: string,
                                 time: string, location: string, date: string,
                                 deadline: Option<int>, status: string, row: TaskRow)

  class Card {
    /** The props, which a later render for the same row id replaces. */
    var id: TaskId
    var kind: string
    var title: string
    var description: string
    var time: string
    var location: string
    var date: string
    var deadline: Option<int>
    var status: string
    /** Every column of the row the card is rendered from (the screens spread the whole row into the card). */
    var row: TaskRow
    /** The card's own state, which survives a later render. */
    var remainingTime: string
    var isEditing: bool
    var isPastDeadline: bool

    /** "Missed" is set only once the deadline has passed; "Done" is never a countdown. */
    predicate Valid()
      reads this
    {
      (remainingTime == "Missed" ==> isPastDeadline) && remainingTime != "Done"
    }

    /**
     * "Missed" is held exactly by a Task whose deadline has passed. A card
     * keeps this while it is rendered with the type it started with.
     */
    predicate Settled()
      reads this
    {
      remainingTime == "Missed" <==> isPastDeadline && kind == "Task"
    }

    constructor(row: TaskRow, deadline: Option<int>)
      ensures Valid() && Settled()
      ensures id == row.id && kind == row.kind && title == row.title && description == row.description
      ensures time == row.time && location == row.location && date == row.date && status == row.status
      ensures this.deadline == deadline && this.row == row
      ensures remainingTime == "" && !isEditing && !isPastDeadline
    {
      this.row := row;
      id, kind, title, description := row.id, row.kind, row.title, row.description;
      time, location, date, status := row.time, row.location, row.date, row.status;
      this.deadline := deadline;
      remainingTime, isEditing, isPastDeadline := "", false, false;
    }

    /** The props as a value: what a render sets and the card's own handlers leave alone. */
    ghost function Props(): CardProps
      reads this
    {
      CardProps(id, kind, title, description, time, location, date, deadline, status, row)
    }

    /** The one-second timer exists only while the row is not done and the deadline has not passed. */
    predicate TimerRunning()
      reads this
    {
      status != "done" && !isPastDeadline
    }

    /**
     * One firing of the timer at the clock reading `now`: a passed deadline
     * sets the past flag (and "Missed" for a Task); otherwise the countdown
     * text is refreshed. Without a running timer nothing happens.
     */
    method Tick(now: int)
      requires Valid()
      modifies this
      ensures Valid()
      ensures !old(TimerRunning()) ==> remainingTime == old(remainingTime) && isPastDeadline == old(isPastDeadline)
      ensures old(TimerRunning()) && PastDeadline(Remaining(deadline, now)) ==>
        isPastDeadline && remainingTime == (if kind == "Task" then "Missed" else old(remainingTime))
      ensures old(TimerRunning()) && !PastDeadline(Remaining(deadline, now)) ==>
        !isPastDeadline && remainingTime == CountdownLabel(Remaining(deadline, now))
      ensures old(isPastDeadline) ==> isPastDeadline
      ensures isEditing == old(isEditing) && Props() == old(Props())
      ensures old(Settled()) ==> Settled()
    {
      if !TimerRunning() {
        return;
      }
      var diff := Remaining(deadline, now);
      if PastDeadline(diff) {
        isPastDeadline := true;
        if kind == "Task" {
          remainingTime := "Missed";
        }
        return;
      }
      remainingTime := CountdownLabel(diff);
    }

    /** What the card shows in its status corner. */
    function DisplayedStatus(): (r: string)
      requires Valid()
      reads this
      ensures r == "Done" <==> status == "done" || (isPastDeadline && kind != "Task")
      ensures r == "Missed" ==> status != "done" && isPastDeadline && kind == "Task"
      ensures Settled() ==> (r == "Missed" <==> status != "done" && isPastDeadline && kind == "Task")
    {
      StatusText(status, kind, isPastDeadline, remainingTime)
    }

    /**
     * The screen renders the card again for the same row id (its key) with
     * the row's new columns: the props are replaced and the card's own
     * state is kept. A passed deadline therefore keeps the timer stopped
     * even when the new deadline lies ahead, and a change of type can leave
     * a label that no longer agrees with it.
     */
    method Rerender(newRow: TaskRow, newDeadline: Option<int>)
      requires Valid() && newRow.id == id
      modifies this
      ensures Valid()
      ensures kind == newRow.kind && title == newRow.title && description == newRow.description
      ensures time == newRow.time && location == newRow.location && date == newRow.date && status == newRow.status
      ensures id == old(id) && deadline == newDeadline && row == newRow
      ensures remainingTime == old(remainingTime) && isEditing == old(isEditing) && isPastDeadline == old(isPastDeadline)
      ensures old(isPastDeadline) ==> !TimerRunning()
      ensures old(Settled()) && kind == old(kind) ==> Settled()
    {
      row := newRow;
      kind, title, description := newRow.kind, newRow.title, newRow.description;
      time, location, date, status := newRow.time, newRow.location, newRow.date, newRow.status;
      deadline := newDeadline;
    }

    method LongPress()
      modifies this
      ensures isEditing == !old(isEditing)
      ensures remainingTime == old(remainingTime) && isPastDeadline == old(isPastDeadline)
      ensures Props() == old(Props())
      ensures old(Settled()) ==> Settled()
    {
      isEditing := !isEditing;
    }

    /** Cancel, or a tap on the card while it shows its actions. */
    method LeaveEditing()
      modifies this
      ensures !isEditing
      ensures remainingTime == old(remainingTime) && isPastDeadline == old(isPastDeadline)
      ensures Props() == old(Props())
      ensures old(Settled()) ==> Settled()
    {
      isEditing := false;
    }

    /** The Done button is shown only in editing mode, for a Task that is not done. */
    predicate DoneOffered()
      reads this
    {
      isEditing && kind == "Task" && status != "done"
    }

    /**
     * Pressing Done hands the card's own id to the screen and leaves editing
     * mode; when the button is not shown there is nothing to press.
     */
    method PressDone() returns (doneId: Option<TaskId>)
      modifies this
      ensures old(DoneOffered()) ==> doneId == Some(old(id)) && !isEditing
      ensures !old(DoneOffered()) ==> doneId == None && isEditing == old(isEditing)
      ensures remainingTime == old(remainingTime) && isPastDeadline == old(isPastDeadline)
      ensures Props() == old(Props())
    {
      if !DoneOffered() {
        return None;
      }
      doneId := Some(id);
      isEditing := false;
    }

    /**
     * Pressing Edit hands the screen the record to edit and leaves editing
     * mode. The record is the whole row (FullEditPayload), the payload the
     * edit form needs; EditPayload is the narrower object the card builds.
     * `hasEdit` says whether the screen passed an `onEdit` handler: without
     * one the call throws before editing mode is left, so nothing is handed
     * over and the card keeps showing its actions.
     */
    method PressEdit(hasEdit: bool) returns (payload: Option<TaskRow>)
      modifies this
      ensures hasEdit ==> payload == Some(old(FullEditPayload())) && !isEditing
      ensures !hasEdit ==> payload == None && isEditing == old(isEditing)
      ensures remainingTime == old(remainingTime) && isPastDeadline == old(isPastDeadline)
      ensures Props() == old(Props())
    {
      if !hasEdit {
        return None;
      }
      payload := Some(FullEditPayload());
      isEditing := false;
    }

    /**
     * The object `handleEditPress` builds: id, type, title, description,
     * time, location, date and status; every other column is undefined,
     * including the reminder handle, the repeat settings and the schedule
     * range. (The user id is not part of it either; `userId` only fills the
     * slot.)
     */
    function EditPayload(userId: int): (t: TaskRow)
      reads this
      ensures t.id == id && t.kind == kind && t.date == date && t.time == time
      ensures t.repeatFrequency.None? && t.repeatDays.None? && t.startDate.None? && t.endDate.None?
      ensures t.notificationId.None? && t.reminderMinutes.None?
    {
      TaskRow(id, userId, kind, title, description, location, date, time, status,
              None, None, None, None, None, None)
    }

    /**
     * The record the edit form reads: the card's own fields together with
     * the row's reminder handle, repeat settings, schedule range and
     * reminder offset.
     */
    function FullEditPayload(): (t: TaskRow)
      reads this
      ensures t.id == id && t.kind == kind && t.title == title && t.date == date && t.time == time
      ensures t.status == status && t.location == location && t.description == description
      ensures t.notificationId == row.notificationId && t.reminderMinutes == row.reminderMinutes
      ensures t.repeatFrequency == row.repeatFrequency && t.repeatDays == row.repeatDays
      ensures t.startDate == row.startDate && t.endDate == row.endDate
    {
      TaskRow(id, row.userId, kind, title, description, location, date, time, status,
              row.repeatFrequency, row.repeatDays, row.startDate, row.endDate,
              row.notificationId, row.reminderMinutes)
    }
  }

  // ---------------------------------------------------------------------
  // Lemmas
  // ---------------------------------------------------------------------

  lemma SplitSum(diff: int)
    requires diff > 0
    ensures var c := Countdown(diff / MsPerDay, (diff % MsPerDay) / MsPerHour,
                               (diff % MsPerHour) / MsPerMinute, (diff % MsPerMinute) / MsPerSecond);
      c.days >= 0 && 0 <= c.hours < 24 && 0 <= c.minutes < 60 && 0 <= c.seconds < 60
      && Total(c) <= diff < Total(c) + MsPerSecond
  {
    var d, rd := diff / MsPerDay, diff % MsPerDay;
    var h, rh := rd / MsPerHour, rd % MsPerHour;
    HourOfDay(rd);
    ByHour(diff, d * 24 + h, rh);
    var m, rm := rh / MsPerMinute, rh % MsPerMinute;
    MinuteOfHour(rh);
    ByMinute(diff, (d * 24 + h) * 60 + m, rm);
    SecondOfMinute(rm);
  }

  /** What is left of a day splits into fewer than 24 hours and a rest. */
  lemma HourOfDay(rd: int)
    requires 0 <= rd < MsPerDay
    ensures rd == (rd / MsPerHour) * MsPerHour + rd % MsPerHour
    ensures 0 <= rd / MsPerHour < 24 && 0 <= rd % MsPerHour < MsPerHour
  {
  }

  lemma MinuteOfHour(rh: int)
    requires 0 <= rh < MsPerHour
    ensures rh == (rh / MsPerMinute) * MsPerMinute + rh % MsPerMinute
    ensures 0 <= rh / MsPerMinute < 60 && 0 <= rh % MsPerMinute < MsPerMinute
  {
  }

  lemma SecondOfMinute(rm: int)
    requires 0 <= rm < MsPerMinute
    ensures rm == (rm / MsPerSecond) * MsPerSecond + rm % MsPerSecond
    ensures 0 <= rm / MsPerSecond < 60 && 0 <= rm % MsPerSecond < MsPerSecond
  {
  }

  /** Euclidean division by an hour is unique. */
  lemma ByHour(x: int, q: int, r: int)
    requires x == q * MsPerHour + r && 0 <= r < MsPerHour
    ensures x % MsPerHour == r
  {
  }

  /** Euclidean division by a minute is unique. */
  lemma ByMinute(x: int, q: int, r: int)
    requires x == q * MsPerMinute + r && 0 <= r < MsPerMinute
    ensures x % MsPerMinute == r
  {
  }

  /**
   * The label by thresholds on the remaining time itself: below a minute
   * only the seconds with no prefix, below an hour the minutes, below a day
   * hours and minutes, otherwise days and hours.
   */
  lemma LabelThresholds(diff: int)
    requires diff > 0
    ensures diff < MsPerMinute ==> CountdownLabel(Some(diff)) == NatToString(diff / MsPerSecond) + "s"
    ensures MsPerMinute <= diff < MsPerHour ==>
      CountdownLabel(Some(diff)) == "Remaining Time: " + NatToString(diff / MsPerMinute) + "m"
    ensures MsPerHour <= diff < MsPerDay ==>
      CountdownLabel(Some(diff)) == "Remaining Time: " + NatToString(diff / MsPerHour) + "h "
        + NatToString(diff % MsPerHour / MsPerMinute) + "m"
    ensures MsPerDay <= diff ==>
      CountdownLabel(Some(diff)) == "Remaining Time: " + NatToString(diff / MsPerDay) + "d "
        + NatToString(diff % MsPerDay / MsPerHour) + "h"
  {
    var c := SplitRemaining(diff);
    assert c.days > 0 <==> diff >= MsPerDay;
    if diff < MsPerDay {
      assert diff % MsPerDay == diff;
      assert c.hours > 0 <==> diff >= MsPerHour;
      if diff < MsPerHour {
        assert diff % MsPerHour == diff;
        assert c.minutes > 0 <==> diff >= MsPerMinute;
        if diff < MsPerMinute {
          assert diff % MsPerMinute == diff;
        }
      }
    }
  }
}
