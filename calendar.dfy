/**
 * Calendar arithmetic as JavaScript's `Date` does it (ECMA-262, section 21.4.1
 * "Time Values and Time Range"): proleptic Gregorian days counted from
 * 1970-01-01, `MakeDay` normalising an out-of-range month or day, and
 * millisecond instants. Local time is taken as one offset-free timeline.
 */
module Calendar {

  const MsPerMinute: int := 60000
  const MsPerHour: int := 3600000
  const MsPerDay: int := 86400000

  predicate IsLeapYear(y: int) {
    y % 4 == 0 && (y % 100 != 0 || y % 400 == 0)
  }

  function DaysInYear(y: int): (n: int)
    ensures n == 365 || n == 366
  {
    if IsLeapYear(y) then 366 else 365
  }

  /** Days in month `m` (1 = January) of year `y`. */
  function DaysInMonth(y: int, m: int): (n: int)
    requires 1 <= m <= 12
    ensures 28 <= n <= 31
  {
    if m == 2 then (if IsLeapYear(y) then 29 else 28)
    else if m == 4 || m == 6 || m == 9 || m == 11 then 30
    else 31
  }

  /** Days of year `y` before the first of month `m` (1 = January). */
  function DaysBeforeMonth(y: int, m: int): (n: int)
    requires 1 <= m <= 12
    ensures 0 <= n <= 335
    ensures m > 1 ==> n == DaysBeforeMonth(y, m - 1) + DaysInMonth(y, m - 1)
    ensures m == 12 ==> n + DaysInMonth(y, 12) == DaysInYear(y)
  {
    if m == 1 then 0 else DaysBeforeMonth(y, m - 1) + DaysInMonth(y, m - 1)
  }

  /** ECMA-262 DayFromYear: the day number of January 1 of year `y`. */
  function DayFromYear(y: int): int {
    365 * (y - 1970) + (y - 1969) / 4 - (y - 1901) / 100 + (y - 1601) / 400
  }

  /**
   * ECMA-262 MakeDay with a 0-based month: the month is first brought into
   * 0..11 by carrying whole years, and the day of the month is added as is,
   * so the 32nd of January is the 1st of February.
   */
  function MakeDay(year: int, month0: int, date: int): int {
    var ym := year + month0 / 12;
    var mn := month0 % 12;
    DayFromYear(ym) + DaysBeforeMonth(ym, mn + 1) + date - 1
  }

  /**
   * `new Date(year, month0, date, hours, minutes)` in milliseconds on the
   * local timeline, including the constructor's rule that a year in 0..99
   * means 1900..1999.
   */
  function DateConstructor(year: int, month0: int, date: int, hours: int, minutes: int): int {
    var fullYear := if 0 <= year <= 99 then 1900 + year else year;
    MakeDay(fullYear, month0, date) * MsPerDay + hours * MsPerHour + minutes * MsPerMinute
  }

  datatype CalendarDate = CalendarDate(year: int, month: int, day: int)

  /** A date a `Date` object can show: month 1..12 and a day that exists in it. */
  predicate ValidDate(d: CalendarDate) {
    1 <= d.month <= 12 && 1 <= d.day <= DaysInMonth(d.year, d.month)
  }

  /** Days from 1970-01-01 to `d`; for a valid date this is MakeDay (see DayNumberIsMakeDay). */
  function DayNumber(d: CalendarDate): int
    requires 1 <= d.month <= 12
  {
    DayFromYear(d.year) + DaysBeforeMonth(d.year, d.month) + d.day - 1
  }

  /** The local instant of minute `minute` of hour `hour` on day `d`. */
  function LocalInstant(d: CalendarDate, hour: int, minute: int): int
    requires 1 <= d.month <= 12
  {
    DayNumber(d) * MsPerDay + hour * MsPerHour + minute * MsPerMinute
  }

  /** The calendar day after `d`. */
  function NextDay(d: CalendarDate): (r: CalendarDate)
    requires ValidDate(d)
    ensures ValidDate(r)
  {
    if d.day < DaysInMonth(d.year, d.month) then CalendarDate(d.year, d.month, d.day + 1)
    else if d.month < 12 then CalendarDate(d.year, d.month + 1, 1)
    else CalendarDate(d.year + 1, 1, 1)
  }

  /** The calendar day before `d`. */
  function PrevDay(d: CalendarDate): (r: CalendarDate)
    requires ValidDate(d)
    ensures ValidDate(r)
  {
    if d.day > 1 then CalendarDate(d.year, d.month, d.day - 1)
    else if d.month > 1 then CalendarDate(d.year, d.month - 1, DaysInMonth(d.year, d.month - 1))
    else CalendarDate(d.year - 1, 12, 31)
  }

  // ---------------------------------------------------------------------
  // Lemmas
  // ---------------------------------------------------------------------

  lemma LeapStep4(y: int)
    ensures (y - 1968) / 4 - (y - 1969) / 4 == if y % 4 == 0 then 1 else 0
  {
    var q, r := y / 4, y % 4;
    assert y == 4 * q + r && 0 <= r < 4;
    if r == 0 {
      assert y - 1968 == 4 * (q - 492);
      assert y - 1969 == 4 * (q - 493) + 3;
    } else {
      assert y - 1968 == 4 * (q - 492) + r;
      assert y - 1969 == 4 * (q - 492) + (r - 1);
    }
  }

  lemma LeapStep100(y: int)
    ensures (y - 1900) / 100 - (y - 1901) / 100 == if y % 100 == 0 then 1 else 0
  {
    var q, r := y / 100, y % 100;
    assert y == 100 * q + r && 0 <= r < 100;
    if r == 0 {
      assert y - 1900 == 100 * (q - 19);
      assert y - 1901 == 100 * (q - 20) + 99;
    } else {
      assert y - 1900 == 100 * (q - 19) + r;
      assert y - 1901 == 100 * (q - 19) + (r - 1);
    }
  }

  lemma LeapStep400(y: int)
    ensures (y - 1600) / 400 - (y - 1601) / 400 == if y % 400 == 0 then 1 else 0
  {
    var q, r := y / 400, y % 400;
    assert y == 400 * q + r && 0 <= r < 400;
    if r == 0 {
      assert y - 1600 == 400 * (q - 4);
      assert y - 1601 == 400 * (q - 5) + 399;
    } else {
      assert y - 1600 == 400 * (q - 4) + r;
      assert y - 1601 == 400 * (q - 4) + (r - 1);
    }
  }

  /** Consecutive years are DaysInYear apart. */
  lemma YearStep(y: int)
    ensures DayFromYear(y + 1) == DayFromYear(y) + DaysInYear(y)
  {
    LeapStep4(y);
    LeapStep100(y);
    LeapStep400(y);
    CenturyDivisors(y);
    var step := ((y - 1968) / 4 - (y - 1969) / 4) - ((y - 1900) / 100 - (y - 1901) / 100)
                + ((y - 1600) / 400 - (y - 1601) / 400);
    assert step == DaysInYear(y) - 365;
    assert DayFromYear(y + 1) - DayFromYear(y) == 365 + step;
  }

  /** A multiple of 400 is a multiple of 100, and a multiple of 100 one of 4. */
  lemma CenturyDivisors(y: int)
    ensures y % 400 == 0 ==> y % 100 == 0
    ensures y % 100 == 0 ==> y % 4 == 0
  {
    if y % 400 == 0 {
      QuadCenturyIsCentury(y);
    }
    if y % 100 == 0 {
      CenturyIsLeap(y);
    }
  }

  lemma QuadCenturyIsCentury(y: int)
    requires y % 400 == 0
    ensures y % 100 == 0
  {
    var q := y / 400;
    assert y == 100 * (4 * q);
  }

  lemma CenturyIsLeap(y: int)
    requires y % 100 == 0
    ensures y % 4 == 0
  {
    var q := y / 100;
    assert y == 4 * (25 * q);
  }

  /** For a month in 1..12, MakeDay needs no carrying and gives the day number. */
  lemma DayNumberIsMakeDay(y: int, m: int, day: int)
    requires 1 <= m <= 12
    ensures MakeDay(y, m - 1, day) == DayNumber(CalendarDate(y, m, day))
  {
    assert (m - 1) / 12 == 0 && (m - 1) % 12 == m - 1;
  }

  /**
   * Stepping forward is JavaScript's `setDate(getDate() + 1)`: the day number
   * of the result is MakeDay of the same year and month with the next date,
   * which is one more than the day number of `d`.
   */
  lemma NextDayIsOneDayLater(d: CalendarDate)
    requires ValidDate(d)
    ensures DayNumber(NextDay(d)) == DayNumber(d) + 1
  {
    if d.day == DaysInMonth(d.year, d.month) && d.month == 12 {
      YearStep(d.year);
    }
  }

  /** Stepping back is `setDate(getDate() - 1)`: one day earlier. */
  lemma PrevDayIsOneDayEarlier(d: CalendarDate)
    requires ValidDate(d)
    ensures DayNumber(PrevDay(d)) == DayNumber(d) - 1
  {
    if d.day == 1 && d.month == 1 {
      YearStep(d.year - 1);
    }
  }

  /**
   * The planner's day stepping is `setDate(getDate() + 1)` and
   * `setDate(getDate() - 1)`: MakeDay of the same year and month with the
   * date moved by one, which is where NextDay and PrevDay land.
   */
  lemma StepsAreSetDate(d: CalendarDate)
    requires ValidDate(d)
    ensures DayNumber(NextDay(d)) == MakeDay(d.year, d.month - 1, d.day + 1)
    ensures DayNumber(PrevDay(d)) == MakeDay(d.year, d.month - 1, d.day - 1)
  {
    NextDayIsOneDayLater(d);
    PrevDayIsOneDayEarlier(d);
    DayNumberIsMakeDay(d.year, d.month, d.day + 1);
    DayNumberIsMakeDay(d.year, d.month, d.day - 1);
  }

  /** Going to the next day and back, or back and then forward, restores the date. */
  lemma NextPrevRoundTrip(d: CalendarDate)
    requires ValidDate(d)
    ensures PrevDay(NextDay(d)) == d
    ensures NextDay(PrevDay(d)) == d
  {
  }

  lemma {:induction false} DayFromYearIncreasing(a: int, b: int)
    requires a < b
    ensures DayFromYear(a) + DaysInYear(a) <= DayFromYear(b)
    decreases b - a
  {
    YearStep(a);
    if a + 1 < b {
      DayFromYearIncreasing(a + 1, b);
    }
  }

  lemma {:induction false} DaysBeforeMonthIncreasing(y: int, m1: int, m2: int)
    requires 1 <= m1 < m2 <= 12
    ensures DaysBeforeMonth(y, m1) + DaysInMonth(y, m1) <= DaysBeforeMonth(y, m2)
    decreases m2 - m1
  {
    if m1 + 1 < m2 {
      DaysBeforeMonthIncreasing(y, m1 + 1, m2);
    }
  }

  /** Calendar order of (year, month, day). */
  predicate DateBefore(a: CalendarDate, b: CalendarDate) {
    a.year < b.year
    || (a.year == b.year && a.month < b.month)
    || (a.year == b.year && a.month == b.month && a.day < b.day)
  }

  /** Day numbers order valid dates exactly as the calendar does, and tell them apart. */
  lemma DayNumberOrder(a: CalendarDate, b: CalendarDate)
    requires ValidDate(a) && ValidDate(b)
    ensures DateBefore(a, b) <==> DayNumber(a) < DayNumber(b)
    ensures a == b <==> DayNumber(a) == DayNumber(b)
  {
    DaysBeforeMonthIncreasing(a.year, 1, 12);
    DaysBeforeMonthIncreasing(b.year, 1, 12);
    assert DaysBeforeMonth(a.year, a.month) + a.day <= DaysInYear(a.year) by {
      if a.month < 12 {
        DaysBeforeMonthIncreasing(a.year, a.month, 12);
      }
    }
    assert DaysBeforeMonth(b.year, b.month) + b.day <= DaysInYear(b.year) by {
      if b.month < 12 {
        DaysBeforeMonthIncreasing(b.year, b.month, 12);
      }
    }
    if a.year < b.year {
      DayFromYearIncreasing(a.year, b.year);
    } else if b.year < a.year {
      DayFromYearIncreasing(b.year, a.year);
    } else if a.month < b.month {
      DaysBeforeMonthIncreasing(a.year, a.month, b.month);
    } else if b.month < a.month {
      DaysBeforeMonthIncreasing(a.year, b.month, a.month);
    }
  }
}
