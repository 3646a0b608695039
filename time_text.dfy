/**
 * The time and date text helpers the screens share: the 12-hour display time
 * written by the add and edit forms, the zero-padded "YYYY-MM-DD" calendar
 * date (ISO 8601 extended format), the 12-hour to 24-hour conversion used to
 * build deadlines, and the reading of `${date}T${time24}:00` as a local
 * instant.
 */
module TimeText {
  import opened JsText
  import opened Calendar

  /** The hour a 12-hour clock shows: 0 and 12 show as 12. */
  function DisplayHour(h: int): (r: int)
    requires 0 <= h < 24
    ensures 1 <= r <= 12
    ensures r % 12 == h % 12
  {
    if h % 12 == 0 then 12 else h % 12
  }

  /** `formatTime(date)` of the add and edit forms: "H:MM AM" or "H:MM PM". */
  function FormatTime(h: int, m: int): string
    requires 0 <= h < 24 && 0 <= m < 60
  {
    var minutes := if m < 10 then "0" + NatToString(m) else NatToString(m);
    NatToString(DisplayHour(h)) + ":" + minutes + " " + (if h >= 12 then "PM" else "AM")
  }

  /** `formatDate(date)` of the add, edit and planner screens, padding with padStart. */
  function FormatDate(d: CalendarDate): string
    requires ValidDate(d)
  {
    IntToString(d.year) + "-" + PadStart2(NatToString(d.month)) + "-" + PadStart2(NatToString(d.day))
  }

  /** `getCurrentDate()` of the home and missed screens, padding by hand, for the day `d`. */
  function CurrentDateText(d: CalendarDate): string
    requires ValidDate(d)
  {
    IntToString(d.year) + "-" + PadBelowTen(d.month) + "-" + PadBelowTen(d.day)
  }

  /**
   * `convertTo24HourFormat(time12h)`: split at the first space into the time
   * and the modifier, split the time at ':' into hours and minutes; hours
   * "12" become "00", and for "PM" the hours are parsed and 12 is added.
   */
  function ConvertTo24Hour(time12h: string): string {
    var halves := Split(time12h, ' ');
    var time := halves[0];
    var modifier := Field(halves, 1);
    var clock := Split(time, ':');
    var hours := if clock[0] == "12" then "00" else clock[0];
    var minutes := Field(clock, 1);
    var hoursText := if modifier == Some("PM") then NumberText(PlusTwelve(ParseInt(hours))) else hours;
    hoursText + ":" + TextOrUndefined(minutes)
  }

  function PlusTwelve(x: Option<int>): Option<int> {
    match x
    case None => None
    case Some(v) => Some(v + 12)
  }

  /** The 24-hour hour text a 12-hour time converts to: "00" at midnight, unpadded otherwise. */
  function Hour24Text(h: nat): string {
    if h == 0 then "00" else NatToString(h)
  }

  /**
   * Reading `${date}T${time24}:00` as a local date-time: a four-digit year,
   * two-digit month and day, a one- or two-digit hour and two-digit minutes,
   * each in range; anything else is an invalid date.
   */
  function ParseDeadline(date: string, time24: string): Option<int> {
    var clock := Split(time24, ':');
    if |date| == 10 && date[4] == '-' && date[7] == '-'
       && AllDigits(date[..4]) && AllDigits(date[5..7]) && AllDigits(date[8..])
       && |clock| == 2 && 1 <= |clock[0]| <= 2 && |clock[1]| == 2
       && AllDigits(clock[0]) && AllDigits(clock[1])
    then
      var d := CalendarDate(DigitsValue(date[..4]), DigitsValue(date[5..7]), DigitsValue(date[8..]));
      var h, m := DigitsValue(clock[0]), DigitsValue(clock[1]);
      if ValidDate(d) && m < 60 && (h < 24 || (h == 24 && m == 0)) then Some(LocalInstant(d, h, m))
      else None
    else None
  }

  /**
   * The deadline of a listed row, `${date}T${convertTo24HourFormat(time)}:00`
   * read as a local date-time (None for an invalid date).
   */
  function Deadline(date: string, time12h: string): Option<int> {
    ParseDeadline(date, ConvertTo24Hour(time12h))
  }

  // ---------------------------------------------------------------------
  // Lemmas
  // ---------------------------------------------------------------------

  lemma PaddedMinutes(m: int)
    requires 0 <= m < 60
    ensures (if m < 10 then "0" + NatToString(m) else NatToString(m)) == PadBelowTen(m)
  {
  }

  /**
   * The display time splits into exactly the fields its readers expect: the
   * hour 1..12 written without padding, the minutes as two digits, and "AM"
   * exactly when the hour is before noon.
   */
  lemma FormatTimeFields(h: int, m: int)
    requires 0 <= h < 24 && 0 <= m < 60
    ensures var hh, mm, ampm := NatToString(DisplayHour(h)), PadBelowTen(m), if h >= 12 then "PM" else "AM";
      && Split(FormatTime(h, m), ' ') == [hh + ":" + mm, ampm]
      && Split(hh + ":" + mm, ':') == [hh, mm]
      && 1 <= DigitsValue(hh) <= 12 && DigitsValue(hh) % 12 == h % 12
      && |mm| == 2 && AllDigits(mm) && DigitsValue(mm) == m
      && (ampm == "AM" <==> h < 12)
  {
    var hh, mm, ampm := NatToString(DisplayHour(h)), PadBelowTen(m), if h >= 12 then "PM" else "AM";
    PadBelowTenDigits(m);
    NatToStringValue(DisplayHour(h));
    assert FormatTime(h, m) == (hh + ":" + mm) + [' '] + ampm;
    assert ' ' !in hh + ":" + mm by {
      DigitsHaveNoSeparator(hh, ' ');
      DigitsHaveNoSeparator(mm, ' ');
    }
    SplitAtFirst(hh + ":" + mm, ampm, ' ');
    SplitNoSeparator(ampm, ' ');
    DigitsHaveNoSeparator(hh, ':');
    DigitsHaveNoSeparator(mm, ':');
    assert hh + ":" + mm == hh + [':'] + mm;
    SplitAtFirst(hh, mm, ':');
    SplitNoSeparator(mm, ':');
  }

  /** How an "hours:minutes modifier" text splits at the space and then at the colon. */
  lemma ClockTextSplits(hh: string, mm: string, modifier: string)
    requires ' ' !in hh && ' ' !in mm && ':' !in hh && ':' !in mm && ' ' !in modifier
    ensures Split(hh + ":" + mm + " " + modifier, ' ') == [hh + ":" + mm, modifier]
    ensures Split(hh + ":" + mm, ':') == [hh, mm]
  {
    var time := hh + ":" + mm;
    assert hh + ":" + mm + " " + modifier == time + [' '] + modifier;
    assert ' ' !in time;
    SplitAtFirst(time, modifier, ' ');
    SplitNoSeparator(modifier, ' ');
    assert time == hh + [':'] + mm;
    SplitAtFirst(hh, mm, ':');
    SplitNoSeparator(mm, ':');
  }

  /** How the conversion takes an "hours:minutes modifier" text apart. */
  lemma ConvertTo24HourFields(hh: string, mm: string, modifier: string)
    requires ' ' !in hh && ' ' !in mm && ':' !in hh && ':' !in mm && ' ' !in modifier
    ensures var hours := if hh == "12" then "00" else hh;
      ConvertTo24Hour(hh + ":" + mm + " " + modifier)
      == (if modifier == "PM" then NumberText(PlusTwelve(ParseInt(hours))) else hours) + ":" + mm
  {
    ClockTextSplits(hh, mm, modifier);
  }

  lemma ParseIntDoubleZero()
    ensures ParseInt("00") == Some(0)
  {
    TrimOfDigits("00");
    DigitRunAll("00");
    assert "00"[..2] == "00";
    assert "00" == "0" + NatToString(0);
    DigitsValueLeadingZero(NatToString(0));
  }

  /**
   * Before any modifier other than "PM", hours "12" become "00" and other
   * hours are kept as written, unpadded; the minutes are copied verbatim.
   */
  lemma ConvertTo24HourMorning(hh: string, mm: string, modifier: string)
    requires ' ' !in hh && ' ' !in mm && ':' !in hh && ':' !in mm && ' ' !in modifier
    requires modifier != "PM"
    ensures ConvertTo24Hour(hh + ":" + mm + " " + modifier) == (if hh == "12" then "00" else hh) + ":" + mm
  {
    ConvertTo24HourFields(hh, mm, modifier);
  }

  /** "12:MM PM" is noon: the hours stay 12. */
  lemma ConvertTo24HourNoon(mm: string)
    requires ' ' !in mm && ':' !in mm
    ensures ConvertTo24Hour("12:" + mm + " PM") == "12:" + mm
  {
    var hh, t := "12", "12:" + mm + " PM";
    assert t == hh + ":" + mm + " " + "PM";
    ConvertTo24HourFields(hh, mm, "PM");
    NoonHourText();
    assert ConvertTo24Hour(t) == hh + ":" + mm;
  }

  /** "12" PM: the hours, already turned into "00", are parsed and 12 is added. */
  lemma NoonHourText()
    ensures NumberText(PlusTwelve(ParseInt("00"))) == "12"
  {
    ParseIntDoubleZero();
    assert NatToString(12) == "12";
  }

  /** An afternoon hour 1..11 written without padding gains 12. */
  lemma ConvertTo24HourAfternoon(k: nat, mm: string)
    requires 1 <= k <= 11 && ' ' !in mm && ':' !in mm
    ensures ConvertTo24Hour(NatToString(k) + ":" + mm + " PM") == NatToString(k + 12) + ":" + mm
  {
    var hh := NatToString(k);
    DigitsHaveNoSeparator(hh, ' ');
    DigitsHaveNoSeparator(hh, ':');
    ConvertTo24HourFields(hh, mm, "PM");
    assert hh + ":" + mm + " " + "PM" == hh + ":" + mm + " PM";
    ParseIntNatToString(k);
    assert hh != "12" by {
      NatToStringValue(k);
      NatToStringValue(12);
    }
  }

  /** The display time with its minutes written by the hand-made pad. */
  lemma FormatTimeText(h: int, m: int)
    requires 0 <= h < 24 && 0 <= m < 60
    ensures FormatTime(h, m) == NatToString(DisplayHour(h)) + ":" + PadBelowTen(m) + " " + (if h >= 12 then "PM" else "AM")
  {
    PaddedMinutes(m);
  }

  lemma ConvertMorningDisplay(h: int, mm: string)
    requires 0 <= h < 12 && ' ' !in mm && ':' !in mm
    ensures ConvertTo24Hour(NatToString(DisplayHour(h)) + ":" + mm + " " + "AM") == Hour24Text(h) + ":" + mm
  {
    var hh := NatToString(DisplayHour(h));
    DigitsHaveNoSeparator(hh, ' ');
    DigitsHaveNoSeparator(hh, ':');
    ConvertTo24HourMorning(hh, mm, "AM");
    if h != 0 {
      assert DisplayHour(h) == h;
      assert hh != "12" by {
        NatToStringValue(h);
        NatToStringValue(12);
      }
    }
  }

  lemma ConvertAfternoonDisplay(h: int, mm: string)
    requires 12 < h < 24 && ' ' !in mm && ':' !in mm
    ensures ConvertTo24Hour(NatToString(DisplayHour(h)) + ":" + mm + " " + "PM") == Hour24Text(h) + ":" + mm
  {
    assert DisplayHour(h) == h - 12;
    assert NatToString(h - 12) + ":" + mm + " " + "PM" == NatToString(h - 12) + ":" + mm + " PM";
    ConvertTo24HourAfternoon(h - 12, mm);
  }

  /**
   * Converting what the forms write gives back the same clock reading: the
   * 24-hour text is "00" at midnight and the unpadded hour otherwise, followed
   * by the two-digit minutes.
   */
  lemma ConvertFormatTime(h: int, m: int)
    requires 0 <= h < 24 && 0 <= m < 60
    ensures ConvertTo24Hour(FormatTime(h, m)) == Hour24Text(h) + ":" + PadBelowTen(m)
  {
    var mm := PadBelowTen(m);
    PadBelowTenDigits(m);
    DigitsHaveNoSeparator(mm, ' ');
    DigitsHaveNoSeparator(mm, ':');
    FormatTimeText(h, m);
    if h < 12 {
      ConvertMorningDisplay(h, mm);
    } else if h == 12 {
      assert NatToString(DisplayHour(h)) == "12";
      assert FormatTime(h, m) == "12:" + mm + " PM";
      ConvertTo24HourNoon(mm);
    } else {
      ConvertAfternoonDisplay(h, mm);
    }
  }

  /** The hour text of the conversion is one or two digits whose value is the hour. */
  lemma Hour24TextDigits(h: nat)
    requires h < 24
    ensures 1 <= |Hour24Text(h)| <= 2 && AllDigits(Hour24Text(h)) && DigitsValue(Hour24Text(h)) == h
  {
    NatToStringLength(h);
    NatToStringValue(h);
    if h == 0 {
      DigitsValueLeadingZero("0");
      assert "00" == "0" + NatToString(0);
    }
  }

  /** The two padding idioms give the same date text. */
  lemma CurrentDateIsFormatDate(d: CalendarDate)
    requires ValidDate(d)
    ensures CurrentDateText(d) == FormatDate(d)
  {
    PadIdiomsAgree(d.month);
    PadIdiomsAgree(d.day);
  }

  /** The fields of a formatted date, for a four-digit year. */
  lemma FormatDateFields(d: CalendarDate)
    requires ValidDate(d) && 1000 <= d.year <= 9999
    ensures var s := FormatDate(d);
      && |s| == 10 && s[4] == '-' && s[7] == '-'
      && s[..4] == NatToString(d.year) && s[5..7] == PadBelowTen(d.month) && s[8..] == PadBelowTen(d.day)
      && s == s[..4] + "-" + s[5..7] + "-" + s[8..]
  {
    NatToStringLength(d.year);
    PadIdiomsAgree(d.month);
    PadIdiomsAgree(d.day);
    PadBelowTenDigits(d.month);
    PadBelowTenDigits(d.day);
    var s := FormatDate(d);
    var y, mo, dd := NatToString(d.year), PadBelowTen(d.month), PadBelowTen(d.day);
    assert s == y + "-" + mo + "-" + dd;
  }

  /**
   * A deadline built from what the forms write reads back as the local
   * instant of that date, hour and minute.
   */
  lemma DeadlineRoundTrip(d: CalendarDate, h: int, m: int)
    requires ValidDate(d) && 1000 <= d.year <= 9999
    requires 0 <= h < 24 && 0 <= m < 60
    ensures Deadline(FormatDate(d), FormatTime(h, m)) == Some(LocalInstant(d, h, m))
  {
    var s := FormatDate(d);
    FormatDateFields(d);
    NatToStringValue(d.year);
    PadBelowTenDigits(d.month);
    PadBelowTenDigits(d.day);
    ConvertFormatTime(h, m);
    var hh, mm := Hour24Text(h), PadBelowTen(m);
    Hour24TextDigits(h);
    PadBelowTenDigits(m);
    DigitsHaveNoSeparator(hh, ':');
    DigitsHaveNoSeparator(mm, ':');
    assert hh + ":" + mm == hh + [':'] + mm;
    SplitAtFirst(hh, mm, ':');
    SplitNoSeparator(mm, ':');
  }

  /**
   * Text order of "Y-M-D" texts whose fields have matching widths is the
   * order of the year texts, then the month texts, then the day texts.
   */
  lemma DateTextOrder(ya: string, ma: string, da: string, yb: string, mb: string, db: string)
    requires |ya| == |yb| && |ma| == |mb|
    ensures TextLess(ya + "-" + ma + "-" + da, yb + "-" + mb + "-" + db)
      <==> TextLess(ya, yb) || (ya == yb && (TextLess(ma, mb) || (ma == mb && TextLess(da, db))))
  {
    assert ya + "-" + ma + "-" + da == ya + ("-" + (ma + ("-" + da)));
    assert yb + "-" + mb + "-" + db == yb + ("-" + (mb + ("-" + db)));
    TextLessConcat(ya, "-" + (ma + ("-" + da)), yb, "-" + (mb + ("-" + db)));
    TextLessConcat("-", ma + ("-" + da), "-", mb + ("-" + db));
    TextLessConcat(ma, "-" + da, mb, "-" + db);
    TextLessConcat("-", da, "-", db);
    assert !TextLess("-", "-");
  }

  /** The three fields of a four-digit-year date, as equal-width digit texts. */
  lemma FormatDateDigits(d: CalendarDate)
    requires ValidDate(d) && 1000 <= d.year <= 9999
    ensures FormatDate(d) == NatToString(d.year) + "-" + PadBelowTen(d.month) + "-" + PadBelowTen(d.day)
    ensures |NatToString(d.year)| == 4 && AllDigits(NatToString(d.year)) && DigitsValue(NatToString(d.year)) == d.year
    ensures |PadBelowTen(d.month)| == 2 && AllDigits(PadBelowTen(d.month)) && DigitsValue(PadBelowTen(d.month)) == d.month
    ensures |PadBelowTen(d.day)| == 2 && AllDigits(PadBelowTen(d.day)) && DigitsValue(PadBelowTen(d.day)) == d.day
  {
    NatToStringLength(d.year);
    NatToStringValue(d.year);
    PadIdiomsAgree(d.month);
    PadIdiomsAgree(d.day);
    PadBelowTenDigits(d.month);
    PadBelowTenDigits(d.day);
  }

  /**
   * On four-digit years, comparing formatted dates as text (as the store
   * does) is comparing the days.
   */
  lemma FormatDateOrder(a: CalendarDate, b: CalendarDate)
    requires ValidDate(a) && ValidDate(b)
    requires 1000 <= a.year <= 9999 && 1000 <= b.year <= 9999
    ensures TextLess(FormatDate(a), FormatDate(b)) <==> DayNumber(a) < DayNumber(b)
  {
    FormatDateDigits(a);
    FormatDateDigits(b);
    var ya, ma, da := NatToString(a.year), PadBelowTen(a.month), PadBelowTen(a.day);
    var yb, mb, db := NatToString(b.year), PadBelowTen(b.month), PadBelowTen(b.day);
    TextLessDigits(ya, yb);
    TextLessDigits(ma, mb);
    TextLessDigits(da, db);
    DateTextOrder(ya, ma, da, yb, mb, db);
    DayNumberOrder(a, b);
  }

  /** Two four-digit-year dates have the same text exactly when they are the same day. */
  lemma FormatDateInjective(a: CalendarDate, b: CalendarDate)
    requires ValidDate(a) && ValidDate(b)
    requires 1000 <= a.year <= 9999 && 1000 <= b.year <= 9999
    ensures FormatDate(a) == FormatDate(b) <==> a == b
  {
    FormatDateFields(a);
    FormatDateFields(b);
    NatToStringValue(a.year);
    NatToStringValue(b.year);
    PadBelowTenDigits(a.month);
    PadBelowTenDigits(b.month);
    PadBelowTenDigits(a.day);
    PadBelowTenDigits(b.day);
  }
}
