/**
 * The missed screen: of the pending Tasks the store offers as possibly
 * missed, the ones whose deadline lies strictly before now, optionally only
 * those dated today.
 */
module MissedScreen {
  import opened JsText
  import opened Lists
  import opened Calendar
  import opened TimeText
  import opened Records
  import TaskCard

  /** `deadline < now`; an invalid deadline compares false. */
  predicate TrulyMissed(row: TaskRow, now: int) {
    var deadline := Deadline(row.date, row.time);
    deadline.Some? && deadline.value < now
  }

  /** The candidates whose deadline has passed, in the store's order. */
  function TrulyMissedList(potential: seq<TaskRow>, now: int): seq<TaskRow> {
    Filter(potential, row => TrulyMissed(row, now))
  }

  /**
   * What the screen lists: the truly missed rows, and on the "Today" filter
   * only those whose date text is `today`; any other filter lists them all.
   */
  function MissedList(potential: seq<TaskRow>, now: int, today: string, filter: string): seq<TaskRow> {
    var missed := TrulyMissedList(potential, now);
    if filter == "Today" then Filter(missed, (row: TaskRow) => row.date == today) else missed
  }

  /**
   * `fetchMissed`: with a signed-in user and the store's candidates
   * (`fetched`, None when the read fails), the new list; otherwise the list
   * `shown` stays.
   */
  function FetchMissed(userId: Option<int>, fetched: Option<seq<TaskRow>>, now: int, today: CalendarDate,
                       filter: string, shown: seq<TaskRow>): (r: seq<TaskRow>)
    requires ValidDate(today)
    ensures IdPresent(userId) && fetched.Some? ==> IsSubsequence(r, fetched.value)
    ensures IdPresent(userId) && fetched.Some? ==> r == MissedList(fetched.value, now, FormatDate(today), filter)
    ensures !(IdPresent(userId) && fetched.Some?) ==> r == shown
  {
    if IdPresent(userId) && fetched.Some? then
      var r := MissedList(fetched.value, now, CurrentDateText(today), filter);
      MissedListIsSubsequence(fetched.value, now, CurrentDateText(today), filter);
      CurrentDateIsFormatDate(today);
      r
    else shown
  }

  // ---------------------------------------------------------------------
  // Lemmas
  // ---------------------------------------------------------------------

  /** A row is listed exactly when it is a candidate, its deadline has passed, and it passes the date filter. */
  lemma MissedMembership(potential: seq<TaskRow>, now: int, today: string, filter: string, row: TaskRow)
    ensures row in MissedList(potential, now, today, filter) <==>
      row in potential && TrulyMissed(row, now) && (filter == "Today" ==> row.date == today)
  {
  }

  /** Filtering only removes rows: the list keeps the store's order. */
  lemma MissedListIsSubsequence(potential: seq<TaskRow>, now: int, today: string, filter: string)
    ensures IsSubsequence(MissedList(potential, now, today, filter), potential)
  {
    FilterTwice(potential, row => TrulyMissed(row, now), (row: TaskRow) => row.date == today);
    FilterIsSubsequence(potential, row => TrulyMissed(row, now));
  }

  /** The Today list is the All list with the rows of other days removed. */
  lemma TodayWithinAll(potential: seq<TaskRow>, now: int, today: string)
    ensures IsSubsequence(MissedList(potential, now, today, "Today"), MissedList(potential, now, today, "All"))
    ensures forall row :: row in MissedList(potential, now, today, "Today") ==> row.date == today
  {
    FilterIsSubsequence(TrulyMissedList(potential, now), (row: TaskRow) => row.date == today);
  }

  /**
   * A row whose deadline is exactly now is not listed, although its card
   * already counts it as past (the card's test is `diff <= 0`); every listed
   * row is past for the card too.
   */
  lemma MissedStricterThanCard(potential: seq<TaskRow>, now: int, today: string, filter: string, row: TaskRow)
    ensures Deadline(row.date, row.time) == Some(now) ==>
      row !in MissedList(potential, now, today, filter)
      && TaskCard.PastDeadline(TaskCard.Remaining(Deadline(row.date, row.time), now))
    ensures row in MissedList(potential, now, today, filter) ==>
      TaskCard.PastDeadline(TaskCard.Remaining(Deadline(row.date, row.time), now))
  {
    MissedMembership(potential, now, today, filter, row);
  }

  /**
   * For a row the forms wrote (four-digit year), listed means: its date and
   * time lie strictly before now and, on the Today filter, it is dated the
   * day the clock shows.
   */
  lemma MissedFormRow(potential: seq<TaskRow>, now: int, today: CalendarDate, filter: string,
                      row: TaskRow, d: CalendarDate, h: int, m: int)
    requires ValidDate(today) && 1000 <= today.year <= 9999
    requires ValidDate(d) && 1000 <= d.year <= 9999 && 0 <= h < 24 && 0 <= m < 60
    requires row in potential && row.date == FormatDate(d) && row.time == FormatTime(h, m)
    ensures row in MissedList(potential, now, CurrentDateText(today), filter) <==>
      LocalInstant(d, h, m) < now && (filter == "Today" ==> d == today)
  {
    DeadlineRoundTrip(d, h, m);
    CurrentDateIsFormatDate(today);
    FormatDateInjective(d, today);
    MissedMembership(potential, now, CurrentDateText(today), filter, row);
  }
}
