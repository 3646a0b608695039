/**
 * `scheduleTaskNotification(title, date, time)`: reads a "YYYY-MM-DD" date
 * and an "H:MM AM"/"H:MM PM" time back into a local instant, skips a trigger
 * that is already past, and otherwise asks the notification scheduler for a
 * reminder at that instant, turning any failure into an undefined handle.
 */
module NotificationService {
  import opened JsText
  import opened Calendar
  import opened TimeText
  import opened Records

  /** The largest time value a `Date` holds (ECMA-262 TimeClip), in milliseconds. */
  const MaxTimeValue: int := 8640000000000000

  const ReminderTitle: string := "Task Reminder"

  function ReminderBody(title: string): string {
    "It's time for: " + title
  }

  /** ECMA-262 TimeClip on an integer time value: beyond the range it is an invalid date. */
  function TimeClip(t: int): (r: Option<int>)
    ensures r.Some? <==> -MaxTimeValue <= t <= MaxTimeValue
    ensures r.Some? ==> r.value == t
  {
    if -MaxTimeValue <= t <= MaxTimeValue then Some(t) else None
  }

  /** `new Date(year, month0, day, hours, minutes)`; a NaN argument gives an invalid date. */
  function NewDate(year: Option<int>, month0: Option<int>, day: Option<int>, hours: Option<int>, minutes: Option<int>): Option<int> {
    if year.Some? && month0.Some? && day.Some? && hours.Some? && minutes.Some? then
      TimeClip(DateConstructor(year.value, month0.value, day.value, hours.value, minutes.value))
    else None
  }

  /** `Number` of field `k` of a split; a missing field is undefined, which is NaN. */
  function NumberField(parts: seq<string>, k: nat): Option<int> {
    if k < |parts| then ToNumber(parts[k]) else None
  }

  function MinusOne(x: Option<int>): Option<int> {
    match x
    case None => None
    case Some(v) => Some(v - 1)
  }

  /** The hour after the service's two adjustments: 12 becomes 0, then "PM" adds 12 (NaN stays NaN). */
  function AdjustHour(hours: Option<int>, modifier: Option<string>): Option<int> {
    var atTwelve := if hours == Some(12) then Some(0) else hours;
    if modifier == Some("PM") then PlusTwelve(atTwelve) else atTwelve
  }

  /** The hour and minute the service reads from a 12-hour time. */
  function ParsedClock(time: string): (Option<int>, Option<int>) {
    var halves := Split(time, ' ');
    var clock := Split(halves[0], ':');
    (AdjustHour(NumberField(clock, 0), Field(halves, 1)), NumberField(clock, 1))
  }

  /** `date.split('-').map(Number)` taken as year, month and day. */
  function DateNumbers(date: string): (Option<int>, Option<int>, Option<int>) {
    var ymd := Split(date, '-');
    (NumberField(ymd, 0), NumberField(ymd, 1), NumberField(ymd, 2))
  }

  /** The instant the reminder is set for; the month of the date text is 1-based. */
  function TriggerInstant(date: string, time: string): Option<int> {
    var ymd := DateNumbers(date);
    var clock := ParsedClock(time);
    NewDate(ymd.0, MinusOne(ymd.1), ymd.2, clock.0, clock.1)
  }

  /** A valid trigger strictly before now is not scheduled; an invalid one is handed on. */
  predicate TriggerInPast(trigger: Option<int>, now: int) {
    trigger.Some? && trigger.value < now
  }

  /** The calls one `scheduleTaskNotification` makes: none for a past trigger, else one. */
  function ScheduleCalls(title: string, date: string, time: string, now: int): seq<Call> {
    var trigger := TriggerInstant(date, time);
    if TriggerInPast(trigger, now) then []
    else [ScheduleNotification(ReminderTitle, ReminderBody(title), trigger)]
  }

  /** The handle it returns: the scheduler's id, or undefined when past or when scheduling failed. */
  function ScheduleHandle(date: string, time: string, now: int, scheduled: Option<string>): Option<string> {
    if TriggerInPast(TriggerInstant(date, time), now) then None else scheduled
  }

  /**
   * The parsing half of the service, reassigning `hours` as it goes: the
   * instant it computes is TriggerInstant.
   */
  method ParseTrigger(date: string, time: string) returns (trigger: Option<int>)
    ensures trigger == TriggerInstant(date, time)
  {
    var ymd := Split(date, '-');
    var year, month, day := NumberField(ymd, 0), NumberField(ymd, 1), NumberField(ymd, 2);
    var halves := Split(time, ' ');
    var timePart, modifier := halves[0], Field(halves, 1);
    var clock := Split(timePart, ':');
    var hours, minutes := NumberField(clock, 0), NumberField(clock, 1);
    if hours == Some(12) {
      hours := Some(0);
    }
    if modifier == Some("PM") {
      hours := PlusTwelve(hours);
    }
    assert hours == AdjustHour(NumberField(clock, 0), modifier);
    trigger := NewDate(year, MinusOne(month), day, hours, minutes);
  }

  /**
   * The service itself. `now` is the clock reading and `scheduled` what the
   * scheduler answers: its id, or None when it throws.
   */
  method ScheduleTaskNotification(outside: Outside, title: string, date: string, time: string,
                                  now: int, scheduled: Option<string>)
    returns (handle: Option<string>)
    modifies outside
    ensures TriggerInPast(TriggerInstant(date, time), now) ==> outside.trace == old(outside.trace) && handle == None
    ensures !TriggerInPast(TriggerInstant(date, time), now) ==>
      outside.trace == old(outside.trace) + [ScheduleNotification(ReminderTitle, ReminderBody(title), TriggerInstant(date, time))]
      && handle == scheduled
    ensures outside.trace == old(outside.trace) + ScheduleCalls(title, date, time, now)
    ensures handle == ScheduleHandle(date, time, now, scheduled)
  {
    var trigger := ParseTrigger(date, time);
    if trigger.Some? && trigger.value < now {
      return None;
    }
    outside.Perform(ScheduleNotification(ReminderTitle, ReminderBody(title), trigger));
    handle := scheduled;
  }

  // ---------------------------------------------------------------------
  // Lemmas
  // ---------------------------------------------------------------------

  /**
   * The hour rules on any "H:MM modifier" text with a one- or two-digit hour
   * 1..12: 12 AM is 0, 12 PM is 12, H PM is H + 12 and H AM is H; the
   * minutes are their decimal value.
   */
  lemma ParsedClockRules(k: nat, mm: string, modifier: string)
    requires 1 <= k <= 12 && mm != [] && AllDigits(mm) && ' ' !in modifier
    ensures ParsedClock(NatToString(k) + ":" + mm + " " + modifier)
      == (Some((if k == 12 then 0 else k) + (if modifier == "PM" then 12 else 0)), Some(DigitsValue(mm)))
  {
    var hh := NatToString(k);
    DigitsHaveNoSeparator(hh, ' ');
    DigitsHaveNoSeparator(hh, ':');
    DigitsHaveNoSeparator(mm, ' ');
    DigitsHaveNoSeparator(mm, ':');
    ClockTextSplits(hh, mm, modifier);
    ToNumberDigits(hh);
    ToNumberDigits(mm);
    NatToStringValue(k);
    ParsedClockOfFields(hh + ":" + mm + " " + modifier, hh + ":" + mm, hh, mm, modifier, k, DigitsValue(mm));
  }

  lemma ParsedClockOfFields(t: string, time: string, hh: string, mm: string, modifier: string, k: int, v: int)
    requires Split(t, ' ') == [time, modifier] && Split(time, ':') == [hh, mm]
    requires ToNumber(hh) == Some(k) && ToNumber(mm) == Some(v) && 1 <= k <= 12
    ensures ParsedClock(t) == (Some((if k == 12 then 0 else k) + (if modifier == "PM" then 12 else 0)), Some(v))
  {
    assert ParsedClock(t) == (AdjustHour(Some(k), Some(modifier)), Some(v));
    AdjustHourRules(k, modifier);
  }

  lemma AdjustHourRules(k: int, modifier: string)
    requires 1 <= k <= 12
    ensures AdjustHour(Some(k), Some(modifier)) == Some((if k == 12 then 0 else k) + (if modifier == "PM" then 12 else 0))
  {
  }

  lemma DisplayHourBack(h: int)
    requires 0 <= h < 24
    ensures (if DisplayHour(h) == 12 then 0 else DisplayHour(h)) + (if h >= 12 then 12 else 0) == h
  {
  }

  /** The display time the forms write reads back as the same hour and minute. */
  lemma ParsedClockOfFormatTime(h: int, m: int)
    requires 0 <= h < 24 && 0 <= m < 60
    ensures ParsedClock(FormatTime(h, m)) == (Some(h), Some(m))
  {
    var k := DisplayHour(h);
    var modifier := if h >= 12 then "PM" else "AM";
    PaddedMinutes(m);
    PadBelowTenDigits(m);
    assert FormatTime(h, m) == NatToString(k) + ":" + PadBelowTen(m) + " " + modifier;
    ParsedClockRules(k, PadBelowTen(m), modifier);
    DisplayHourBack(h);
  }

  /** How the date text the forms write splits at '-'. */
  lemma SplitFormatDate(d: CalendarDate)
    requires ValidDate(d) && d.year >= 0
    ensures Split(FormatDate(d), '-') == [NatToString(d.year), PadBelowTen(d.month), PadBelowTen(d.day)]
    ensures AllDigits(PadBelowTen(d.month)) && AllDigits(PadBelowTen(d.day))
    ensures DigitsValue(PadBelowTen(d.month)) == d.month && DigitsValue(PadBelowTen(d.day)) == d.day
  {
    var y, mo, dd := NatToString(d.year), PadBelowTen(d.month), PadBelowTen(d.day);
    PadIdiomsAgree(d.month);
    PadIdiomsAgree(d.day);
    PadBelowTenDigits(d.month);
    PadBelowTenDigits(d.day);
    assert IntToString(d.year) == y;
    assert FormatDate(d) == y + ['-'] + (mo + ['-'] + dd);
    DigitsHaveNoSeparator(y, '-');
    DigitsHaveNoSeparator(mo, '-');
    DigitsHaveNoSeparator(dd, '-');
    SplitAtFirst(y, mo + ['-'] + dd, '-');
    SplitAtFirst(mo, dd, '-');
    SplitNoSeparator(dd, '-');
  }

  lemma DateNumbersOfFields(date: string, y: string, mo: string, dd: string)
    requires Split(date, '-') == [y, mo, dd]
    requires y != [] && mo != [] && dd != [] && AllDigits(y) && AllDigits(mo) && AllDigits(dd)
    ensures DateNumbers(date) == (Some(DigitsValue(y)), Some(DigitsValue(mo)), Some(DigitsValue(dd)))
  {
    ToNumberDigits(y);
    ToNumberDigits(mo);
    ToNumberDigits(dd);
  }

  /** The date text the forms write reads back as the same year, month and day. */
  lemma DateNumbersOfFormatDate(d: CalendarDate)
    requires ValidDate(d) && d.year >= 0
    ensures DateNumbers(FormatDate(d)) == (Some(d.year), Some(d.month), Some(d.day))
  {
    SplitFormatDate(d);
    NatToStringValue(d.year);
    DateNumbersOfFields(FormatDate(d), NatToString(d.year), PadBelowTen(d.month), PadBelowTen(d.day));
  }

  lemma DayNumberBounds(d: CalendarDate)
    requires ValidDate(d) && 100 <= d.year <= 9999
    ensures -1000000 <= DayNumber(d) <= 4000000
  {
  }

  /** The Date constructor on the fields of a valid date of years 100..9999 gives its local instant. */
  lemma DateConstructorOfFields(d: CalendarDate, h: int, m: int)
    requires ValidDate(d) && 100 <= d.year
    ensures DateConstructor(d.year, d.month - 1, d.day, h, m) == LocalInstant(d, h, m)
  {
    DayNumberIsMakeDay(d.year, d.month, d.day);
  }

  lemma LocalInstantInRange(d: CalendarDate, h: int, m: int)
    requires ValidDate(d) && 100 <= d.year <= 9999
    requires 0 <= h < 24 && 0 <= m < 60
    ensures -MaxTimeValue <= LocalInstant(d, h, m) <= MaxTimeValue
  {
    DayNumberBounds(d);
  }

  lemma NewDateOfFields(d: CalendarDate, h: int, m: int)
    requires ValidDate(d) && 100 <= d.year <= 9999
    requires 0 <= h < 24 && 0 <= m < 60
    ensures NewDate(Some(d.year), Some(d.month - 1), Some(d.day), Some(h), Some(m)) == Some(LocalInstant(d, h, m))
  {
    DateConstructorOfFields(d, h, m);
    LocalInstantInRange(d, h, m);
  }

  /**
   * Round trip: the date and display time the forms write are read back as
   * the local instant of that day, hour and minute, for years 100..9999
   * (years 0..99 are taken as 1900..1999 by the Date constructor).
   */
  lemma TriggerRoundTrip(d: CalendarDate, h: int, m: int)
    requires ValidDate(d) && 100 <= d.year <= 9999
    requires 0 <= h < 24 && 0 <= m < 60
    ensures TriggerInstant(FormatDate(d), FormatTime(h, m)) == Some(LocalInstant(d, h, m))
  {
    DateNumbersOfFormatDate(d);
    ParsedClockOfFormatTime(h, m);
    NewDateOfFields(d, h, m);
  }

  /**
   * The reminder fires at the deadline itself, the instant the cards count
   * down to: the reminder offset the edit form passes plays no part.
   */
  lemma ReminderAtDeadline(d: CalendarDate, h: int, m: int)
    requires ValidDate(d) && 1000 <= d.year <= 9999
    requires 0 <= h < 24 && 0 <= m < 60
    ensures TriggerInstant(FormatDate(d), FormatTime(h, m)) == Deadline(FormatDate(d), FormatTime(h, m))
  {
    TriggerRoundTrip(d, h, m);
    DeadlineRoundTrip(d, h, m);
  }
}
