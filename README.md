# Smart scheduler: deadlines, reminders and the task screens

This project is a Dafny model of the scheduling core of a React Native task and schedule tracker. Users keep one-off **Tasks**, each with a hard deadline, and **schedule items** (Class, Routine, Meeting, Work), which may repeat weekly. The model covers:

- **Task card** (`task_card.dfy`): the per-second countdown to a row's deadline. Once the deadline passes the card shows "Missed" for a Task and "Done" for a schedule item. The card also has long-press actions: Done, Edit and Cancel.
- **Notification service** (`notification_service.dfy`): reads a "YYYY-MM-DD" date and an "H:MM AM/PM" time back into a local instant. It skips a trigger that is already past; otherwise it asks the scheduler for a reminder.
- **Home screen** (`home_screen.dfy`): the All/Today/Upcoming/Completed store queries with the Task/Schedule type filter, and the share of the user's rows that are done.
- **Planner** (`planner_screen.dfy`): one day at a time. The day's rows are split into tasks and schedules. The planner steps a day forward or back, and marks done or deletes a row or one occurrence `"N-YYYY-MM-DD"` of a repeating row.
- **Missed screen** (`missed_screen.dfy`): the pending Tasks whose deadline is strictly before now, optionally only those dated today.
- **Add form** (`add_screen.dfy`): validation, the new record, and the category and repeat-day state.
- **Edit form** (`edit_screen.dfy`): initial values with fallbacks, and the save. The save replaces an original Task's reminder, resolves the stored row id and sends the updated record.

Supporting modules:

- `js_text.dfy` models the JavaScript string and number semantics the code relies on: `split`, `parseInt`, `Number` on integer literals, `trim` with the white space of ECMA-262, `padStart`, and SQLite's byte-wise text order. NaN is `None`.
- `calendar.dfy` implements `Date` day arithmetic as ECMA-262, section 21.4.1, defines it (DayFromYear, MakeDay).
- `time_text.dfy` holds the shared date and time text helpers.
- `lists.dfy` holds `Array.prototype.filter`.
- `repeat_days.dfy` holds the weekly day selection.
- `occurrence_ids.dfy` holds the ids of expanded occurrences.
- `records.dfy` holds the rows and the `Outside` trace.

Everything outside the screens is a single object, `Records.Outside`, whose `trace` records each call in order: the SQLite store, the Expo notification scheduler, alerts and navigation. What those calls answer is passed in as parameters. `scheduled` is the scheduler's id, or None when it throws. `updated`, `deleted` and `added` say whether the store call succeeded. `fetched` and `everything` are the rows a read returns, or None when it fails. The clock (`now`, `today`) is a parameter too. Local time is a single timeline with no time zone offset.

Where the design description and the code disagree, the model follows the code:

- The description puts a reminder at `deadline - reminderOffsetMinutes`. `scheduleTaskNotification` takes no offset, and the edit form's fourth argument is ignored, so the reminder fires at the deadline itself. See `NotificationService.ReminderAtDeadline` and `EditScreen.SavedReminderAtDeadline`.
- The description says creating a Task schedules its reminder. `handleAdd` in `screens/AddScreen.js` schedules nothing; only a save in the edit form does.
- The description has one classification in which a Task is Missed at its deadline. The code has two tests:
  - the card uses `diff <= 0`, so a Task is Missed at its deadline;
  - the Missed screen uses `deadline < now`, so it is listed only after the deadline.

  `MissedScreen.MissedStricterThanCard` states the difference.
- The description requires at most one live reminder per Task. The code can leave two; see Findings.
- The description makes a failed cancel non-fatal. The code awaits the cancel outside its try block, so a cancel that throws abandons the save: nothing is scheduled or stored and no alert is shown (`EditScreen.CancelFailureAbandonsSave`).
- The description resets a card's status when its row changes. The card keeps its label and past flag across renders for the same row id (`TaskCard.Card.Rerender`), so a Missed Task whose deadline is moved later still shows "Missed".

## Model

| member | source | states |
|---|---|---|
| JsText.Split | screens/HomeScreen.js:37-38 | `split` on one character gives at least one piece, and no piece contains the separator |
| JsText.SplitAtFirst | screens/HomeScreen.js:37-38 | splitting `a + c + b` where `a` has no `c` gives `a` followed by the pieces of `b` |
| JsText.ParseInt | screens/PlannerScreen.js:115 | `parseInt(s, 10)`: leading white space, an optional sign, then the longest digit run, NaN without digits; its contract is stated by ParseIntNatToString and used by OccurrenceIds.ResolveOccurrence |
| JsText.ToNumber | services/NotificationService.js:55 | `Number(s)` on integer literals, surrounding white space ignored and "" giving 0; ToNumberDigits states its value on digit strings |
| JsText.NatToString | screens/AddScreen.js:83 | decimal text of a natural number: non-empty digits, one digit exactly below 10, no leading zero |
| JsText.NatToStringValue | screens/AddScreen.js:83 | the digits of `n.toString()` have the value `n` |
| JsText.ParseIntNatToString | screens/PlannerScreen.js:115 | `parseInt` reads back the decimal text of every natural number |
| JsText.ToNumberDigits | services/NotificationService.js:55 | `Number` of a non-empty digit string is its decimal value |
| JsText.PadIdiomsAgree | screens/HomeScreen.js:15-22 | the hand-written `num < 10 ? '0' + num : num` pad equals `padStart(2, '0')` for every natural number |
| JsText.PadBelowTenDigits | screens/MissedScreen.js:35-42 | below 100 the padded text is two digits whose value is the number |
| JsText.Trim | screens/AddScreen.js:169 | `s.trim()` as `trimEnd` after `trimStart`; the three lemmas below state what it removes and when it is empty |
| JsText.TrimStartDropsLeadingSpace | screens/AddScreen.js:169 | `trimStart` leaves a suffix that does not start with white space (JavaScript's WhiteSpace and LineTerminator, every Unicode space separator included) and removes only white space |
| JsText.TrimEndDropsTrailingSpace | screens/AddScreen.js:169 | `trimEnd` leaves a prefix that does not end with white space (the same set, U+3000 and U+2000..U+200A included) and removes only white space |
| JsText.TrimEmptyIffBlank | screens/AddScreen.js:169 | `s.trim()` is empty exactly when every character of `s` is JavaScript white space, so a title of ideographic spaces is blank |
| JsText.TextLessIrreflexive | screens/HomeScreen.js:124 | no text sorts before itself in the store's text order |
| JsText.TextLessConcat | screens/HomeScreen.js:124 | comparing texts whose first parts have equal length: the first parts decide unless they are equal |
| JsText.TextLessDigits | screens/HomeScreen.js:124 | on equal-length digit strings, text order is numeric order and text equality is numeric equality |
| Lists.Filter | screens/PlannerScreen.js:79-80 | the filtered list is no longer than the original; an element is in it exactly when it is in the list and passes; every element passes |
| Lists.FilterIsSubsequence | screens/PlannerScreen.js:79-80 | filtering only deletes elements and keeps the order of the rest |
| Lists.FilterComplement | screens/PlannerScreen.js:79-80 | two complementary filters together hold every element exactly as often as the list does |
| Lists.FilterConjunction | screens/MissedScreen.js:57-66 | filtering by a conjunction equals filtering by one conjunct, then by the other |
| Lists.FilterTwice | screens/MissedScreen.js:57-66 | a filter of a filter is a subsequence of both the first result and the original |
| Calendar.DaysBeforeMonth | services/NotificationService.js:63 | days before a month are the previous month's plus its length, and December's sum is the year length |
| Calendar.MakeDay | services/NotificationService.js:63 | ECMA-262 MakeDay, the month carried into the year by Euclidean division; DayNumberIsMakeDay and StepsAreSetDate state its value |
| Calendar.DateConstructor | services/NotificationService.js:63 | `new Date(y, m, d, h, min)` in local time, with years 0..99 read as 1900 + y; NotificationService.NewDateOfFields states its value for years 100..9999 |
| Calendar.YearStep | services/NotificationService.js:63 | DayFromYear advances by the length of each year (the 4/100/400 leap rule) |
| Calendar.DayNumberIsMakeDay | services/NotificationService.js:63 | for months 1..12, `MakeDay(y, m - 1, d)` needs no carry and is the day number of the date |
| Calendar.NextDay | screens/PlannerScreen.js:159-163 | the day after a valid date is a valid date |
| Calendar.PrevDay | screens/PlannerScreen.js:153-157 | the day before a valid date is a valid date |
| Calendar.NextDayIsOneDayLater | screens/PlannerScreen.js:159-163 | the next day is exactly one day number later, across month and year ends |
| Calendar.PrevDayIsOneDayEarlier | screens/PlannerScreen.js:153-157 | the previous day is exactly one day number earlier, across month and year starts |
| Calendar.StepsAreSetDate | screens/PlannerScreen.js:153-163 | NextDay and PrevDay are `setDate(getDate() ± 1)`: MakeDay of the same year and month with the date moved by one |
| Calendar.NextPrevRoundTrip | screens/PlannerScreen.js:153-163 | a step forward and a step back, in either order, restore the date |
| Calendar.DayNumberOrder | screens/HomeScreen.js:124 | day numbers order valid dates as the calendar does, and equal day numbers mean equal dates |
| TimeText.DisplayHour | screens/AddScreen.js:72-79 | the 12-hour clock hour is 1..12 and agrees with the hour modulo 12 |
| TimeText.FormatTime | screens/AddScreen.js:72-79 | `formatTime`: the 12-hour clock text; its layout is stated by FormatTimeFields and its reading back by NotificationService.ParsedClockOfFormatTime |
| TimeText.FormatDate | screens/AddScreen.js:81-86 | `formatDate`: "YYYY-MM-DD" with padded month and day; stated by FormatDateFields, FormatDateOrder and FormatDateInjective |
| TimeText.CurrentDateText | screens/MissedScreen.js:35-42 | `getCurrentDate`, padding by hand; CurrentDateIsFormatDate states it equals FormatDate |
| TimeText.ConvertTo24Hour | screens/HomeScreen.js:36-42 | `convertTo24HourFormat`; the three ConvertTo24Hour lemmas and ConvertFormatTime state its result |
| TimeText.ParseDeadline | screens/MissedScreen.js:59-60 | the `Date` read of `${date}T${time24}:00` as a local instant, or an invalid date; DeadlineRoundTrip states its value on the forms' texts |
| TimeText.Deadline | screens/MissedScreen.js:59-60 | a row's deadline: ParseDeadline after ConvertTo24Hour; DeadlineRoundTrip states it |
| TimeText.FormatTimeFields | screens/AddScreen.js:72-79 | the display time splits into an unpadded hour 1..12, two-digit minutes and "AM" exactly before noon |
| TimeText.ConvertTo24HourMorning | screens/HomeScreen.js:36-42 | before any modifier other than "PM", "12" becomes "00", other hours are kept as written, and minutes are copied |
| TimeText.ConvertTo24HourNoon | screens/HomeScreen.js:36-42 | "12:MM PM" converts to "12:MM" |
| TimeText.ConvertTo24HourAfternoon | screens/HomeScreen.js:36-42 | an afternoon hour 1..11 gains 12 |
| TimeText.ConvertFormatTime | screens/HomeScreen.js:36-42 | converting what the forms write gives the same clock reading: "00" at midnight, otherwise the unpadded hour, then the two-digit minutes |
| TimeText.CurrentDateIsFormatDate | screens/MissedScreen.js:35-42 | `getCurrentDate` and the forms' `formatDate` write the same text for every day |
| TimeText.FormatDateFields | screens/AddScreen.js:81-86 | a four-digit-year date is written as "YYYY-MM-DD" with its year, month and day in fixed positions |
| TimeText.DeadlineRoundTrip | screens/MissedScreen.js:59-60 | `${date}T${convertTo24HourFormat(time)}:00` built from the forms' texts reads back as the local instant of that day, hour and minute |
| TimeText.FormatDateOrder | screens/HomeScreen.js:124 | for four-digit years, the store's text comparison of two dates is their calendar order |
| TimeText.FormatDateInjective | screens/MissedScreen.js:64-66 | for four-digit years, two dates have the same text exactly when they are the same day |
| NotificationService.TimeClip | services/NotificationService.js:63 | a time value is kept exactly when it lies within ±8.64e15 ms; otherwise the date is invalid |
| NotificationService.TriggerInstant | services/NotificationService.js:55-63 | the trigger `Date` of a date and time text; TriggerRoundTrip and ReminderAtDeadline state its value |
| NotificationService.ScheduleCalls | services/NotificationService.js:65-75 | the scheduler calls of one `scheduleTaskNotification`: none for a valid past trigger, otherwise one request; stated through ScheduleTaskNotification |
| NotificationService.ScheduleHandle | services/NotificationService.js:65-79 | the returned handle: undefined for a past trigger, otherwise the scheduler's answer; stated through ScheduleTaskNotification and EditScreen.TaskSaveStoresNewHandle |
| NotificationService.ParseTrigger | services/NotificationService.js:55-63 | the parse, which reassigns `hours` in two steps, computes the trigger instant (12 becomes 0, then "PM" adds 12, month is 1-based) |
| NotificationService.ScheduleTaskNotification | services/NotificationService.js:51-82 | a valid trigger before now makes no call and returns undefined; otherwise one "Task Reminder" request with body "It's time for: title", and the scheduler's id, or undefined when it throws |
| NotificationService.ParsedClockRules | services/NotificationService.js:57-61 | for hours 1..12: 12 AM is hour 0, 12 PM is 12, H PM is H + 12, H AM is H, and the minutes are their decimal value |
| NotificationService.ParsedClockOfFormatTime | services/NotificationService.js:57-61 | the display time the forms write is read back as the same hour and minute |
| NotificationService.DateNumbersOfFormatDate | services/NotificationService.js:55 | the date text the forms write is read back as the same year, month and day |
| NotificationService.NewDateOfFields | services/NotificationService.js:63 | for years 100..9999, `new Date(y, m - 1, d, h, min)` is the local instant of that day and time |
| NotificationService.TriggerRoundTrip | services/NotificationService.js:55-63 | the date and time the forms write are read back as the local instant of that day, hour and minute |
| NotificationService.ReminderAtDeadline | services/NotificationService.js:63-66 | the reminder instant is the row's deadline itself: no offset is subtracted |
| OccurrenceIds.ResolveBaseId | screens/PlannerScreen.js:115 | a numeric id is used as it is |
| OccurrenceIds.ResolveOccurrence | screens/PlannerScreen.js:126 | the id "N-date" of any occurrence of row N resolves to N, whatever the date text |
| OccurrenceIds.OccurrencesShareBase | screens/EditScreen.js:138 | all occurrences of one row resolve to the same id as the row itself |
| RepeatDays.ToggleDay | screens/AddScreen.js:149-157 | the toggled day is selected afterwards exactly when it was not before; every other day keeps its state |
| RepeatDays.ToggleEveryday | screens/AddScreen.js:159-165 | Everyday either clears the selection or selects all seven days |
| RepeatDays.ToggleKeepsWellFormed | screens/AddScreen.js:149-157 | toggling a week day keeps the selection a list of distinct week days |
| RepeatDays.ToggleTwice | screens/AddScreen.js:149-157 | toggling a day twice restores the selection as a set, and restores the same list when the day was not selected |
| RepeatDays.WeekDaysDistinct | screens/AddScreen.js:36 | the seven week-day names are distinct |
| RepeatDays.EverydayOnFullSelection | screens/AddScreen.js:159-165 | on a reachable selection, "seven entries" means every day is selected, so Everyday clears exactly a full selection |
| TaskCard.SplitRemaining | components/TaskCard.js:49-60 | the floor divisions give days ≥ 0, hours < 24, minutes < 60 and seconds < 60, and together they are the remaining time to within a second |
| TaskCard.CountdownLabel | components/TaskCard.js:53-62 | a countdown label is never "Missed" or "Done" and ends in a unit letter |
| TaskCard.LabelThresholds | components/TaskCard.js:49-62 | the label by thresholds on the remaining time: seconds below a minute, minutes below an hour, hours and minutes below a day, else days and hours |
| TaskCard.Card.constructor | components/TaskCard.js:28-31 | a card holds the row's fields, an empty label, is neither editing nor past, and "Missed" agrees with a passed Task (Settled) |
| TaskCard.Card.Tick | components/TaskCard.js:33-70 | the props, the row and the deadline stay as they were (`Props()`), and without a running timer nothing else changes either; a passed deadline sets the past flag and "Missed" for a Task only; otherwise the label is the countdown; the past flag is never cleared, and a Settled card stays Settled |
| TaskCard.Card.DisplayedStatus | components/TaskCard.js:150-156 | "Done" exactly for a done row or a passed non-Task; "Missed" only for a passed, not-done Task, and for every such Task while the card is Settled |
| TaskCard.Card.Rerender | components/TaskCard.js:28-70 | a render for the same row id (the screens' key, screens/PlannerScreen.js:236) replaces the props and keeps the label, the editing mode and the past flag; a passed card's timer stays stopped even for a later deadline, and Settled survives only when the type is unchanged |
| TaskCard.Card.LongPress | components/TaskCard.js:72-74 | a long press flips editing mode and changes nothing else: label, past flag and every prop (`Props()`) are kept, so a Settled card stays Settled |
| TaskCard.Card.LeaveEditing | components/TaskCard.js:96-98 | Cancel leaves editing mode and keeps the label, the past flag and every prop, so a Settled card stays Settled |
| TaskCard.Card.PressDone | components/TaskCard.js:76-79 | the Done button exists only when editing a not-done Task (line 105); pressing it hands over the card's id as it was before the press and leaves editing mode, with every prop kept |
| TaskCard.Card.PressEdit | components/TaskCard.js:81-94 | with an `onEdit` handler, Edit hands over the record to edit (the whole row as it was, see Findings) and leaves editing mode; without one (the missed screen, screens/MissedScreen.js:115) nothing is handed over and editing mode stays; every prop is kept |
| TaskCard.Card.EditPayload | components/TaskCard.js:82-92 | the object the card builds: its own fields, with the reminder handle, offset, repeat settings and schedule range all undefined |
| TaskCard.Card.FullEditPayload | components/TaskCard.js:81-94 | the card's fields plus the row's reminder handle, offset, repeat settings and schedule range |
| HomeScreen.TabQuery | screens/HomeScreen.js:116-131 | a tab lists only rows of the table that belong to the user, and an unknown tab lists nothing |
| HomeScreen.TypeClause | screens/HomeScreen.js:109-114 | the SQL type clause of the filter buttons; TabMembership and TypeFiltersSplitTab state its effect |
| HomeScreen.TabClause | screens/HomeScreen.js:116-131 | the SQL clause of each tab; TabMembership, TabsDisjoint and UpcomingMeansLaterDay state its effect |
| HomeScreen.TabMembership | screens/HomeScreen.js:109-131 | a row is listed exactly when it is the user's and passes the tab clause and the type clause, for a known tab |
| HomeScreen.TabsDisjoint | screens/HomeScreen.js:122-128 | no row is both Upcoming and Completed, and no row is both Today and Upcoming |
| HomeScreen.TypeFiltersSplitTab | screens/HomeScreen.js:109-114 | on every tab, the Task and Schedule filters together list exactly the All filter's rows |
| HomeScreen.UpcomingMeansLaterDay | screens/HomeScreen.js:120-124 | for four-digit years, Upcoming means a later calendar day and not done, and Today means the same day |
| HomeScreen.DonePercentage | screens/HomeScreen.js:246 | the percentage is 0..100, 0 without rows, and the nearest whole number to `100 * done / total` with halves rounded up |
| HomeScreen.RoundingBounds | screens/HomeScreen.js:246 | `Math.round` in exact arithmetic lies within half a percent of the exact share |
| HomeScreen.DonePercentageExtremes | screens/HomeScreen.js:245-246 | all rows done gives 100, and none done gives 0 |
| HomeScreen.CompletedShare | screens/HomeScreen.js:245-246 | the completed percentage of a row list; CompletedShareExtremes states its extremes and DonePercentage its rounding |
| HomeScreen.CompletedShareExtremes | screens/HomeScreen.js:245-246 | a list with every row done shows 100 (0 when empty), and a list with none done shows 0 |
| HomeScreen.Home.constructor | screens/HomeScreen.js:52-56 | the screen opens on Upcoming with the All filter and empty lists |
| HomeScreen.Home.SelectTab | screens/HomeScreen.js:353 | a tab button changes only the active tab |
| HomeScreen.Home.SelectFilter | screens/HomeScreen.js:339 | a filter button changes only the active filter |
| HomeScreen.Home.FetchTasks | screens/HomeScreen.js:104-143 | with a user: the list is the active tab's query with today's date; the rows behind the percentage are the same rows on All, and otherwise all the user's rows (unchanged when that read fails); without a user nothing changes |
| PlannerScreen.FetchCalls | screens/PlannerScreen.js:70-76 | a refresh with a user is one range query whose start and end are both the day's text; without a user it makes no call |
| PlannerScreen.DayWindowIsTheDay | screens/PlannerScreen.js:72-75 | the refresh's range query has the day's text as both start and end, and a date text lies within that window exactly when it is the planner's day |
| PlannerScreen.DoneCall | screens/PlannerScreen.js:112-121 | the status update of `handleDone` for the stored row; ActionsReachEveryOccurrence states it for every occurrence |
| PlannerScreen.DeleteCall | screens/PlannerScreen.js:123-133 | the delete of `executeDeleteTask` for the stored row; ActionsReachEveryOccurrence states it for every occurrence |
| PlannerScreen.Planner.constructor | screens/PlannerScreen.js:45-48 | the planner opens on today with empty lists |
| PlannerScreen.Planner.FetchTasksAndSchedules | screens/PlannerScreen.js:70-87 | records the day's query, then sets tasks to the day's Task rows and schedules to the rest; the lists stay when there is no user or the read fails |
| PlannerScreen.Planner.HandleDone | screens/PlannerScreen.js:112-121 | marks the stored row (the base row of an occurrence) done; after a successful update with a user and a successful read the lists are the day's Task rows and the rest, and otherwise they stay |
| PlannerScreen.Planner.ExecuteDeleteTask | screens/PlannerScreen.js:123-133 | deletes the stored row; on success refreshes, so with a user and a successful read the lists are the day's Task rows and the rest; on failure shows "Could not delete the task."; in every other case the lists stay |
| PlannerScreen.Planner.GoToNextDay | screens/PlannerScreen.js:159-163 | the day moves exactly one calendar day forward and the lists are kept |
| PlannerScreen.Planner.GoToPreviousDay | screens/PlannerScreen.js:153-157 | the day moves exactly one calendar day back and the lists are kept |
| PlannerScreen.PartitionOfDay | screens/PlannerScreen.js:79-80 | the task and schedule lists are disjoint, together hold every row of the day exactly once, and each keeps the store's order |
| PlannerScreen.ActionsReachEveryOccurrence | screens/PlannerScreen.js:112-133 | done and delete on any occurrence of row N send the same call as on row N |
| MissedScreen.FetchMissed | screens/MissedScreen.js:50-71 | with a user and a successful read, the list is the missed list of what the store offered for today's `formatDate` text (so MissedMembership describes it) and a subsequence of it; otherwise the shown list stays |
| MissedScreen.MissedList | screens/MissedScreen.js:57-66 | the rows the screen shows; MissedMembership, MissedListIsSubsequence and TodayWithinAll state its contents |
| MissedScreen.MissedMembership | screens/MissedScreen.js:57-66 | a row is listed exactly when it was offered, its deadline is strictly before now, and on Today it is dated today |
| MissedScreen.MissedListIsSubsequence | screens/MissedScreen.js:57-66 | the list keeps the store's order and only removes rows |
| MissedScreen.TodayWithinAll | screens/MissedScreen.js:64-66 | the Today list is the All list without the rows of other days |
| MissedScreen.MissedStricterThanCard | screens/MissedScreen.js:61 | a row whose deadline is exactly now is not listed although its card counts it as past; every listed row is past for its card too |
| MissedScreen.MissedFormRow | screens/MissedScreen.js:50-71 | for a row the forms wrote, listed means its date and time lie strictly before now and, on Today, it is dated the clock's day |
| AddScreen.CategoriesFor | screens/AddScreen.js:258 | every entry type offers at least one category |
| AddScreen.AddForm.constructor | screens/AddScreen.js:43-92 | a fresh form is a Task in category "Task" with no repeat, dated today at the current time, with every text what the formatters made of it |
| AddScreen.AddForm.HandleTypeChange | screens/AddScreen.js:61-70 | the category becomes the new type's first, the repeat days are cleared, and every other field, the frequency included, stays |
| AddScreen.AddForm.SelectCategory | screens/AddScreen.js:96-104 | a category button selects that category and leaves every other field as it was |
| AddScreen.AddForm.SetTitle | screens/AddScreen.js:252 | typing sets the title and leaves every other field as it was |
| AddScreen.AddForm.SetDescription | screens/AddScreen.js:270 | typing sets the description and leaves every other field as it was |
| AddScreen.AddForm.SetLocation | screens/AddScreen.js:409 | typing sets the location and leaves every other field as it was |
| AddScreen.AddForm.SetRepeatFrequency | screens/AddScreen.js:280-287 | a frequency button sets the frequency and leaves every other field, the days included, as it was |
| AddScreen.AddForm.ToggleRepeatDay | screens/AddScreen.js:149-157 | the selection becomes ToggleDay of the old one, stays distinct week days, and nothing else changes |
| AddScreen.AddForm.ToggleEveryday | screens/AddScreen.js:159-165 | the selection becomes ToggleEveryday of the old one and nothing else changes |
| AddScreen.AddForm.HandleDateChange | screens/AddScreen.js:112-118 | a picked day sets the due day and its formatted text and nothing else; a dismissed picker changes nothing |
| AddScreen.AddForm.HandleStartDateChange | screens/AddScreen.js:120-126 | a picked day sets the start day and its text and nothing else; a dismissed picker changes nothing |
| AddScreen.AddForm.HandleEndDateChange | screens/AddScreen.js:128-134 | a picked day sets the end day and its text and nothing else; a dismissed picker changes nothing |
| AddScreen.AddForm.HandleTimeChange | screens/AddScreen.js:136-142 | a picked time sets the hour, minute and display time and nothing else; a dismissed picker changes nothing |
| AddScreen.AddForm.Record | screens/AddScreen.js:178-191 | the record `handleAdd` submits; RecordShape and TaskRecordDeadline state its shape and deadline |
| AddScreen.AddForm.AddCalls | screens/AddScreen.js:168-198 | a blank title stops at "Task title is required."; without a user it stops at "User not found" |
| AddScreen.AddForm.HandleAdd | screens/AddScreen.js:168-198 | the calls made are AddCalls: validation alerts, or the record, then success and leaving the screen, or the failure alert |
| AddScreen.StoreOnlyAfterValidation | screens/AddScreen.js:168-191 | a record reaches the store exactly when the title has a character that is not JavaScript white space and there is a user, and it is then the form's record |
| AddScreen.RecordShape | screens/AddScreen.js:178-191 | a Task is dated by its due date with no range; a Schedule by its start date with its range; repeat days go along exactly for "weekly" and are distinct week days |
| AddScreen.TaskRecordDeadline | screens/AddScreen.js:178-191 | the deadline later read from a submitted Task is the local instant of the picked day and time |
| EditScreen.ReminderDefault | screens/EditScreen.js:51 | a stored non-zero offset is kept |
| EditScreen.FrequencyDefault | screens/EditScreen.js:49 | a stored non-empty frequency is kept |
| EditScreen.ActiveType | screens/EditScreen.js:53-54 | the form's branch is "Task" exactly for a Task record, otherwise "Schedule" |
| EditScreen.EditForm.constructor | screens/EditScreen.js:36-51 | fields come from the record; a missing date, range or time falls back to now; frequency, days and offset use their defaults |
| EditScreen.EditForm.SetTitle | screens/EditScreen.js:195 | typing sets the title and leaves every other field as it was |
| EditScreen.EditForm.SetDescription | screens/EditScreen.js:210 | typing sets the description and leaves every other field as it was |
| EditScreen.EditForm.SetLocation | screens/EditScreen.js:226 | typing sets the location and leaves every other field as it was |
| EditScreen.EditForm.SetCategory | screens/EditScreen.js:278 | the picker sets the category and leaves every other field as it was |
| EditScreen.EditForm.SetRepeatFrequency | screens/EditScreen.js:237-244 | a frequency button sets the frequency and leaves every other field, the days included, as it was |
| EditScreen.EditForm.SetReminderMinutes | screens/EditScreen.js:354-362 | a chip sets the reminder offset and leaves every other field as it was |
| EditScreen.EditForm.OnDateChange | screens/EditScreen.js:64-68 | a picked day replaces the date, a dismissed picker keeps it, and nothing else changes |
| EditScreen.EditForm.OnTimeChange | screens/EditScreen.js:70-74 | a picked time replaces the hour and minute, a dismissed picker keeps them, and nothing else changes |
| EditScreen.EditForm.HandleStartDateChange | screens/EditScreen.js:76-81 | a picked day replaces the start date, a dismissed picker keeps it, and nothing else changes |
| EditScreen.EditForm.HandleEndDateChange | screens/EditScreen.js:83-88 | a picked day replaces the end date, a dismissed picker keeps it, and nothing else changes |
| EditScreen.EditForm.ToggleRepeatDay | screens/EditScreen.js:90-98 | the selection becomes ToggleDay of the old one and nothing else changes |
| EditScreen.EditForm.ToggleEveryday | screens/EditScreen.js:100-106 | the selection becomes ToggleEveryday of the old one and nothing else changes |
| EditScreen.EditForm.Update | screens/EditScreen.js:138-154 | the record the save sends; UpdateShape and OccurrenceEditSavesBaseRow state its id and shape |
| EditScreen.EditForm.ReminderCalls | screens/EditScreen.js:124-136 | the reminder calls of a completed save; TaskSaveCancelsFirst, TaskSaveSchedulesUnlessPast and ScheduleSaveKeepsReminder state them |
| EditScreen.EditForm.SaveCalls | screens/EditScreen.js:108-169 | an empty title or category stops at "Please fill in all fields."; the other outcomes, a cancel that throws among them, are stated by the save lemmas |
| EditScreen.EditForm.ReplaceReminder | screens/EditScreen.js:124-136 | for an original Task, cancels the old handle if present; if the cancel throws it stops there; otherwise it schedules anew and returns the new handle; for a Schedule it makes no call and keeps the old handle |
| EditScreen.EditForm.HandleSaveTask | screens/EditScreen.js:108-169 | the calls made are SaveCalls: the validation alert; or only the attempted cancel when it throws; or the reminder calls, the update, then the success or failure alert |
| EditScreen.IncompleteSaveHasNoEffect | screens/EditScreen.js:109-112 | the scheduler and the store are reached only with a title and a category |
| EditScreen.TaskSaveCancelsFirst | screens/EditScreen.js:124-129 | saving an original Task with a handle cancels that handle before anything else, whether or not the cancel throws |
| EditScreen.CancelFailureAbandonsSave | screens/EditScreen.js:124-129 | a cancel that throws ends the save: nothing is scheduled, nothing is stored, no alert is shown |
| EditScreen.TaskSaveSchedulesUnlessPast | screens/EditScreen.js:124-135 | saving an original Task schedules a reminder at the saved date and time exactly when that is not past and the cancel did not throw |
| EditScreen.TaskSaveStoresNewHandle | screens/EditScreen.js:124-153 | saving an original Task stores the new handle, or none when past, exactly when the cancel did not throw; the old handle is never kept |
| EditScreen.ScheduleSaveKeepsReminder | screens/EditScreen.js:124-136 | saving an original Schedule never calls the scheduler and keeps the stored handle |
| EditScreen.UpdateShape | screens/EditScreen.js:138-154 | the update uses the stored row's id; a Task is dated by its date with no range, a Schedule by its start date with its range; repeat days go along only for "weekly"; handle and offset are saved |
| EditScreen.OccurrenceEditSavesBaseRow | screens/EditScreen.js:138 | editing occurrence "N-date" saves row N |
| EditScreen.SavedReminderAtDeadline | screens/EditScreen.js:130-135 | the new reminder fires at the saved deadline, whatever offset the form holds |
| EditScreen.ReminderReopens | screens/EditScreen.js:51 | a saved offset reopens unchanged, except "At time" (0), which reopens as 5; no offset opens as 5 |
| EditScreen.CardPayloadKeepsOldReminder | components/TaskCard.js:81-94 | a form opened from the card's object sends no cancel on save, yet schedules a new reminder when the time is not past |
| EditScreen.CardPayloadDropsRepeat | components/TaskCard.js:81-94 | a form opened from the card's object on a weekly row opens with no repeat, no days, a 5-minute offset and today's start date |
| EditScreen.FullPayloadReplacesReminder | components/TaskCard.js:81-94 | with the whole row handed over, saving a Task cancels the row's reminder first, and when the cancel returns the stored handle is the new one |
| EditScreen.FullPayloadKeepsRepeat | components/TaskCard.js:81-94 | with the whole row handed over, the repeat settings and offset open as stored |

## Left out

- `registerForPushNotificationsAsync` and the permission dialogs (services/NotificationService.js:14-48) are left out: they only talk to the device.
- The store functions are calls recorded in the trace. Their own behaviour is not part of this model: recurrence expansion in the range query, the `getMissedTasks` SQL predicate, and `getAllTasks`.
- `cancelTaskNotification` is imported by screens/EditScreen.js:5, but services/NotificationService.js exports no such function, so its body is not part of this model. Its outcome is the parameter `cancelled`. With the service file as it stands the import is undefined, the call throws, and that is `cancelled` false.
- JsText.ToNumber: models `Number` only on integer literals. Fractions, exponents, `0x`/`0o`/`0b` prefixes and `Infinity` are NaN in the model but numbers in JavaScript. The code applies `Number` only to the digit fields of the forms' date and time texts.
- A failing tab query in `fetchTasks` (caught, lists unchanged) is not modelled: the queried table is a parameter. A failing `getAllTasks` is modelled as `everything == None`.
- HomeScreen's `handleDone`, `executeDeleteTask` and the delete confirmation (screens/HomeScreen.js:151-187) are not modelled separately: they repeat the planner's actions without resolving occurrence ids. MissedScreen's `handleDone` (screens/MissedScreen.js:79-86) is also left out.
- The planner's delete confirmation dialog and the Cancel button are left out: they only open and close the dialog.
- The edit form's initial parsing of the stored date and time texts into `Date` objects is left out. Examples are `new Date("YYYY-MM-DD")`, which is UTC, and `1970-01-01T${time}:00`. The parsed values are the `ParsedFields` parameter.
- Time zones and daylight saving are left out: local time is one timeline with no offset.
- `Date` parsing of `${date}T${time24}:00` (TimeText.ParseDeadline) accepts a one- or two-digit hour, because engines differ on the unpadded hour that `convertTo24HourFormat` produces.
- TaskCard.Card.DisplayedStatus: "Missed" for every passed, not-done Task is promised only while the card is Settled. A card re-rendered from another type to Task after its deadline keeps its last countdown text, as the code does.
- `setInterval`/`clearInterval` are left out: `TaskCard.Card.Tick` is one firing, and the timer runs exactly while `TimerRunning` holds.
- React state batching, toasts, modal visibility, locale day and date texts (`getFormattedDate`, `getDayName`), the AI recommendation (`handleAiSubmit`) and the profile screen and navigator are left out: they are outside the scheduling core.
- The JSON encoding of `repeat_days` is left out: the list is kept decoded.
- HomeScreen.DonePercentage: computed in exact rational arithmetic, not binary floating point. `Math.round(done / total * 100)` on doubles can fall below a .5 boundary that exact arithmetic reaches, for example 29 of 200.
- AddScreen.AddForm.SelectCategory: requires a category of the active type, because the form shows only those buttons (screens/AddScreen.js:258).
- AddScreen.AddForm.ToggleRepeatDay: requires one of the seven week days, because only those buttons exist (screens/AddScreen.js:292).
- EditScreen.EditForm.SetReminderMinutes: requires one of the offered chips, because only those are shown (screens/EditScreen.js:354).
- TaskCard.Card.PressEdit: uses the corrected whole-row payload; the object as built is `TaskCard.Card.EditPayload` (see Findings). Without an `onEdit` handler the press throws a TypeError, which the model shows only as "nothing handed over, editing mode kept"; the error itself is not modelled.
- The card's `onDelete` prop is passed by the screens but never read by the card, so no delete action is reachable from a card. It has no member here.
- The edit form's `onClose` after the success alert's OK button, and the category list fetch, are left out: they are presentation only.

## Findings

| source | as written | input that shows it | evidently intended | confidence | as-written member | corrected member |
|---|---|---|---|---|---|---|
| components/TaskCard.js:81-94 | Edit hands the form only id, type, title, description, time, location, date, deadline and status, so `task.notification_id` is undefined and the save never cancels the old reminder (screens/EditScreen.js:124-136) | a Task row with `notification_id` "n1" and a future date and time, opened from its card and saved unchanged: no cancel of "n1", plus one new reminder, so two reminders are live | the form receives the whole row, and the save cancels "n1" before scheduling the new reminder | high (not executed) | EditScreen.CardPayloadKeepsOldReminder | EditScreen.FullPayloadReplacesReminder |
| components/TaskCard.js:81-94 | the same object lacks `repeat_frequency`, `repeat_days`, `reminder_minutes`, `start_date` and `end_date`, so the form opens with "none", no days, a 5-minute offset and today's range (screens/EditScreen.js:41-51) | a weekly schedule row with days ["Mon"], opened from its card and saved unchanged: it is stored as non-repeating with today's range | the form opens with the row's own repeat settings, offset and range | high (not executed) | EditScreen.CardPayloadDropsRepeat | EditScreen.FullPayloadKeepsRepeat |

Corrected half of the first row: the cancel it reaches is `cancelTaskNotification`, which the service file does not export (see Left out). `EditScreen.FullPayloadReplacesReminder` therefore states the stored handle only for a cancel that returns. `EditScreen.CancelFailureAbandonsSave` states what happens when it throws.
