/**
 * The weekly repeat-day selection of the add and edit forms: toggling one
 * day and the "Everyday" toggle.
 */
module RepeatDays {
  import opened Lists

  const WeekDays: seq<string> := ["Sun", "Mon", "Tue", "Wed", "Thu", "Fri", "Sat"]

  predicate NoDuplicates(days: seq<string>) {
    forall i, j :: 0 <= i < j < |days| ==> days[i] != days[j]
  }

  /** A selection the forms can reach: distinct week days. */
  predicate WellFormed(days: seq<string>) {
    NoDuplicates(days) && forall d :: d in days ==> d in WeekDays
  }

  /** Remove `day` when it is selected, otherwise append it. */
  function ToggleDay(days: seq<string>, day: string): (r: seq<string>)
    ensures day in r <==> day !in days
    ensures forall x :: x != day ==> (x in r <==> x in days)
  {
    if day in days then Filter(days, d => d != day) else days + [day]
  }

  /** Clear the selection when it has seven entries, otherwise select all seven in order. */
  function ToggleEveryday(days: seq<string>): (r: seq<string>)
    ensures r == [] || r == WeekDays
  {
    if |days| == |WeekDays| then [] else WeekDays
  }

  // ---------------------------------------------------------------------
  // Lemmas
  // ---------------------------------------------------------------------

  lemma {:induction false} FilterKeepsNoDuplicates(days: seq<string>, p: string -> bool)
    requires NoDuplicates(days)
    ensures NoDuplicates(Filter(days, p))
  {
    if days != [] {
      FilterKeepsNoDuplicates(days[1..], p);
      assert days[0] !in days[1..];
    }
  }

  /** Toggling never creates a duplicate and never adds anything but the toggled day. */
  lemma ToggleKeepsWellFormed(days: seq<string>, day: string)
    requires WellFormed(days) && day in WeekDays
    ensures WellFormed(ToggleDay(days, day))
  {
    if day in days {
      FilterKeepsNoDuplicates(days, d => d != day);
    }
  }

  /**
   * Toggling the same day twice restores the selection as a set; when the
   * day was not selected it restores the very same sequence.
   */
  lemma ToggleTwice(days: seq<string>, day: string)
    ensures forall x :: x in ToggleDay(ToggleDay(days, day), day) <==> x in days
    ensures day !in days ==> ToggleDay(ToggleDay(days, day), day) == days
  {
    if day !in days {
      var once := days + [day];
      FilterRemovesLast(days, day);
    }
  }

  lemma {:induction false} FilterRemovesLast(days: seq<string>, day: string)
    requires day !in days
    ensures Filter(days + [day], d => d != day) == days
  {
    if days == [] {
      assert Filter([day], d => d != day) == [] + Filter([day][1..], d => d != day);
    } else {
      FilterRemovesLast(days[1..], day);
      assert (days + [day])[1..] == days[1..] + [day];
      assert days == [days[0]] + days[1..];
    }
  }

  lemma {:induction false} DistinctCount(days: seq<string>)
    requires NoDuplicates(days)
    ensures |set d | d in days| == |days|
  {
    if days != [] {
      DistinctCount(days[1..]);
      assert (set d | d in days) == (set d | d in days[1..]) + {days[0]};
      assert days[0] !in days[1..];
    }
  }

  lemma WeekDaysDistinct()
    ensures NoDuplicates(WeekDays)
    ensures |set w | w in WeekDays| == |WeekDays|
  {
    assert forall i :: 0 <= i < 7 ==> |WeekDays[i]| == 3;
    assert forall i :: 0 <= i < 7 ==> WeekDays[i][0] == "SMTWTFS"[i];
    assert forall i :: 0 <= i < 7 ==> WeekDays[i][1] == "uouehra"[i];
    DistinctCount(WeekDays);
  }

  lemma SubsetOfSameSize(a: set<string>, b: set<string>)
    requires a <= b && |a| == |b|
    ensures a == b
  {
    var c := b - a;
    assert b == a + c && a * c == {};
    assert |a + c| + |a * c| == |a| + |c|;
    assert c == {};
    assert forall x :: x in b ==> x in a by {
      forall x | x in b
        ensures x in a
      {
        assert x !in c;
      }
    }
  }

  /**
   * On a selection the forms can reach, "seven entries" means "every week
   * day selected", so Everyday clears exactly a full selection and otherwise
   * selects every day.
   */
  lemma EverydayOnFullSelection(days: seq<string>)
    requires WellFormed(days)
    ensures |days| == |WeekDays| <==> forall w :: w in WeekDays ==> w in days
    ensures ToggleEveryday(days) == [] <==> forall w :: w in WeekDays ==> w in days
  {
    var all := set w | w in WeekDays;
    var chosen := set d | d in days;
    DistinctCount(days);
    WeekDaysDistinct();
    assert chosen <= all;
    if |days| == |WeekDays| {
      SubsetOfSameSize(chosen, all);
      forall w | w in WeekDays
        ensures w in days
      {
        assert w in all;
      }
    }
    if forall w :: w in WeekDays ==> w in days {
      assert chosen == all;
    }
  }
}
