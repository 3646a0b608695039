/**
 * The home screen: the per-tab store queries with the type filter, and the
 * share of the user's rows that are done.
 */
module HomeScreen {
  import opened JsText
  import opened Lists
  import opened Calendar
  import opened TimeText
  import opened Records

  /** The type-filter clause: "Task" keeps Tasks, "Schedule" keeps every other kind, "All" adds nothing. */
  predicate TypeClause(filter: string, row: TaskRow) {
    if filter == "Task" then row.kind == "Task"
    else if filter == "Schedule" then row.kind != "Task"
    else true
  }

  predicate KnownTab(tab: string) {
    tab == "All" || tab == "Today" || tab == "Upcoming" || tab == "Completed"
  }

  /** The tab's own condition; `today` is compared as text, as the store compares the date column. */
  predicate TabClause(tab: string, today: string, row: TaskRow) {
    if tab == "All" then true
    else if tab == "Today" then row.date == today
    else if tab == "Upcoming" then TextLess(today, row.date) && row.status != "done"
    else tab == "Completed" && row.status == "done"
  }

  predicate Selected(userId: int, tab: string, filter: string, today: string, row: TaskRow) {
    row.userId == userId && TabClause(tab, today, row) && TypeClause(filter, row)
  }

  /**
   * The rows the tab's query returns from `table`, in table order; an
   * unknown tab runs no query and lists nothing.
   */
  function TabQuery(table: seq<TaskRow>, userId: int, tab: string, filter: string, today: string): (r: seq<TaskRow>)
    ensures |r| <= |table|
    ensures forall row :: row in r ==> row in table && row.userId == userId
  {
    if KnownTab(tab) then Filter(table, row => Selected(userId, tab, filter, today, row)) else []
  }

  predicate IsDone(row: TaskRow) {
    row.status == "done"
  }

  /**
   * `Math.round(done / total * 100)`, 0 without rows, in exact arithmetic:
   * the nearest whole percentage, halves rounded up.
   */
  function DonePercentage(done: nat, total: nat): (p: int)
    requires done <= total
    ensures 0 <= p <= 100
    ensures total == 0 ==> p == 0
    ensures total > 0 ==> (2 * p - 1) * total <= 200 * done < (2 * p + 1) * total
  {
    if total == 0 then 0
    else
      var p := (200 * done + total) / (2 * total);
      RoundingBounds(done, total, p);
      p
  }

  /** The done percentage of the user's rows. */
  function CompletedShare(allTasks: seq<TaskRow>): int {
    DonePercentage(|Filter(allTasks, IsDone)|, |allTasks|)
  }

  class Home {
    var activeTab: string
    var activeFilter: string
    var tasks: seq<TaskRow>
    var allTasks: seq<TaskRow>

    constructor()
      ensures activeTab == "Upcoming" && activeFilter == "All" && tasks == [] && allTasks == []
    {
      activeTab, activeFilter, tasks, allTasks := "Upcoming", "All", [], [];
    }

    method SelectTab(tab: string)
      modifies this
      ensures activeTab == tab && activeFilter == old(activeFilter)
      ensures tasks == old(tasks) && allTasks == old(allTasks)
    {
      activeTab := tab;
    }

    method SelectFilter(filter: string)
      modifies this
      ensures activeFilter == filter && activeTab == old(activeTab)
      ensures tasks == old(tasks) && allTasks == old(allTasks)
    {
      activeFilter := filter;
    }

    /**
     * `fetchTasks` for the signed-in user on the day `today`: the listed
     * rows come from the active tab's query on `table`; the rows behind the
     * done percentage are the same rows on the All tab and otherwise the
     * user's rows as the store lists them (`everything`, None when that
     * read fails, which leaves them as they were).
     */
    method FetchTasks(userId: Option<int>, today: CalendarDate, table: seq<TaskRow>, everything: Option<seq<TaskRow>>)
      requires ValidDate(today)
      modifies this
      ensures activeTab == old(activeTab) && activeFilter == old(activeFilter)
      ensures !IdPresent(userId) ==> tasks == old(tasks) && allTasks == old(allTasks)
      ensures IdPresent(userId) ==>
        tasks == TabQuery(table, userId.value, activeTab, activeFilter, CurrentDateText(today))
      ensures IdPresent(userId) ==>
        allTasks == (if activeTab == "All" then tasks
                     else if everything.Some? then everything.value else old(allTasks))
    {
      if !IdPresent(userId) {
        return;
      }
      var uid := userId.value;
      var date := CurrentDateText(today);
      var tab, filter := activeTab, activeFilter;
      var fetched: seq<TaskRow>;
      var selected := (row: TaskRow) => Selected(uid, tab, filter, date, row);
      if activeTab == "All" {
        var query := (row: TaskRow) => row.userId == uid && TypeClause(filter, row);
        fetched := Filter(table, query);
        FilterSamePredicate(table, selected, query);
      } else if activeTab == "Today" {
        var query := (row: TaskRow) => row.userId == uid && row.date == date && TypeClause(filter, row);
        fetched := Filter(table, query);
        FilterSamePredicate(table, selected, query);
      } else if activeTab == "Upcoming" {
        var query := (row: TaskRow) => row.userId == uid && TextLess(date, row.date) && row.status != "done"
                                       && TypeClause(filter, row);
        fetched := Filter(table, query);
        FilterSamePredicate(table, selected, query);
      } else if activeTab == "Completed" {
        var query := (row: TaskRow) => row.userId == uid && row.status == "done" && TypeClause(filter, row);
        fetched := Filter(table, query);
        FilterSamePredicate(table, selected, query);
      } else {
        fetched := [];
      }
      tasks := fetched;
      if activeTab == "All" {
        allTasks := fetched;
      } else if everything.Some? {
        allTasks := everything.value;
      }
    }

    function DonePercent(): int
      reads this
    {
      CompletedShare(allTasks)
    }
  }

  // ---------------------------------------------------------------------
  // Lemmas
  // ---------------------------------------------------------------------

  lemma RoundingBounds(done: nat, total: nat, p: int)
    requires done <= total && total > 0 && p == (200 * done + total) / (2 * total)
    ensures 0 <= p <= 100
    ensures (2 * p - 1) * total <= 200 * done < (2 * p + 1) * total
  {
    var n, t2 := 200 * done + total, 2 * total;
    var r := n % t2;
    assert n == p * t2 + r && 0 <= r < t2;
    assert (2 * p - 1) * total == p * t2 - total;
    assert (2 * p + 1) * total == p * t2 + total;
    if p < 0 {
      ScaleMonotone(p, -1, t2);
    }
    if p > 100 {
      ScaleMonotone(101, p, t2);
    }
  }

  /** What each tab lists, row by row, as its SQL query states it. */
  lemma TabMembership(table: seq<TaskRow>, userId: int, tab: string, filter: string, today: string, row: TaskRow)
    ensures row in TabQuery(table, userId, tab, filter, today) <==>
      row in table && row.userId == userId && TypeClause(filter, row)
      && (|| tab == "All"
          || (tab == "Today" && row.date == today)
          || (tab == "Upcoming" && TextLess(today, row.date) && row.status != "done")
          || (tab == "Completed" && row.status == "done"))
  {
  }

  /** Nothing is both Upcoming and Completed, and nothing is both Today and Upcoming. */
  lemma TabsDisjoint(table: seq<TaskRow>, userId: int, filter: string, today: string, row: TaskRow)
    ensures !(row in TabQuery(table, userId, "Upcoming", filter, today) && row in TabQuery(table, userId, "Completed", filter, today))
    ensures !(row in TabQuery(table, userId, "Today", filter, today) && row in TabQuery(table, userId, "Upcoming", filter, today))
  {
    TextLessIrreflexive(today);
  }

  /**
   * The Task and Schedule filters split each tab: together they list every
   * row of the unfiltered tab exactly once.
   */
  lemma TypeFiltersSplitTab(table: seq<TaskRow>, userId: int, tab: string, today: string)
    ensures multiset(TabQuery(table, userId, tab, "Task", today)) + multiset(TabQuery(table, userId, tab, "Schedule", today))
      == multiset(TabQuery(table, userId, tab, "All", today))
  {
    if KnownTab(tab) {
      var all := row => Selected(userId, tab, "All", today, row);
      var isTask := (row: TaskRow) => row.kind == "Task";
      var notTask := (row: TaskRow) => row.kind != "Task";
      FilterConjunction(table, all, isTask, row => Selected(userId, tab, "Task", today, row));
      FilterConjunction(table, all, notTask, row => Selected(userId, tab, "Schedule", today, row));
      FilterComplement(Filter(table, all), isTask, notTask);
    }
  }

  /**
   * With today's text from the clock and a row dated by the forms (four-digit
   * years), the Upcoming tab's text comparison is "a later day", and the
   * Today tab's equality is "the same day".
   */
  lemma UpcomingMeansLaterDay(table: seq<TaskRow>, userId: int, filter: string, today: CalendarDate,
                              row: TaskRow, day: CalendarDate)
    requires ValidDate(today) && ValidDate(day) && 1000 <= today.year <= 9999 && 1000 <= day.year <= 9999
    requires row in table && row.userId == userId && TypeClause(filter, row) && row.date == FormatDate(day)
    ensures row in TabQuery(table, userId, "Upcoming", filter, CurrentDateText(today)) <==>
      DayNumber(today) < DayNumber(day) && row.status != "done"
    ensures row in TabQuery(table, userId, "Today", filter, CurrentDateText(today)) <==> day == today
  {
    CurrentDateIsFormatDate(today);
    FormatDateOrder(today, day);
    FormatDateInjective(today, day);
    TabMembership(table, userId, "Upcoming", filter, CurrentDateText(today), row);
    TabMembership(table, userId, "Today", filter, CurrentDateText(today), row);
  }

  lemma {:induction false} ScaleMonotone(x: int, y: int, t: nat)
    requires x <= y
    ensures x * t <= y * t
  {
    if t > 0 {
      ScaleMonotone(x, y, t - 1);
      assert x * t == x * (t - 1) + x && y * t == y * (t - 1) + y;
    }
  }

  /** All done gives 100 percent, none done 0. */
  lemma DonePercentageExtremes(total: nat)
    requires total > 0
    ensures DonePercentage(total, total) == 100
    ensures DonePercentage(0, total) == 0
  {
    var p := DonePercentage(total, total);
    if p < 100 {
      ScaleMonotone(2 * p + 1, 200, total);
    }
    var z := DonePercentage(0, total);
    if z > 0 {
      ScaleMonotone(1, 2 * z - 1, total);
    }
  }

  /** All rows done gives 100; none done gives 0. */
  lemma CompletedShareExtremes(allTasks: seq<TaskRow>)
    ensures (forall row :: row in allTasks ==> IsDone(row)) ==> CompletedShare(allTasks) == (if allTasks == [] then 0 else 100)
    ensures (forall row :: row in allTasks ==> !IsDone(row)) ==> CompletedShare(allTasks) == 0
  {
    if allTasks != [] {
      DonePercentageExtremes(|allTasks|);
    }
    if forall row :: row in allTasks ==> IsDone(row) {
      FilterKeepsAll(allTasks, IsDone);
    }
    if forall row :: row in allTasks ==> !IsDone(row) {
      FilterDropsAll(allTasks, IsDone);
    }
  }
}
