# DentaPlan scheduling core in Dafny

DentaPlan is a single-page clinic scheduler. A practice sets its weekly working
hours and a slot duration. It keeps patients and appointments in two records:

- patients are keyed by id;
- appointments are keyed by `yyyy-MM-dd_HH:mm`, the day and slot they occupy.

The app offers several views over these records:

- a dashboard with today's appointments, the next appointment and the most booked procedures;
- a weekly, daily, monthly and agenda calendar;
- a searchable patient list;
- a reports page filtered to the current week or month.

The week's schedule can be exported as text.

This project models that core and proves what it promises. The files follow the
program's structure:

| file | models |
|---|---|
| `types.dfy` | the records (`DaySetting`, `Settings`, `Patient`, `Appointment`), the procedure colour table, the procedure list, and the day-setting update shared by the settings page and the wizard |
| `dates.dfy` | proleptic Gregorian dates: day numbers, weekdays (0 = Sunday), adding days and months, the Sunday-first week and the month grid |
| `date_format.dfy` | `yyyy-MM-dd` and `HH:mm` texts, and reading them back |
| `date_ranges.dfy` | the heading for a date and a view mode (`formatDateRangeForView`) |
| `slot_generator.dfy` | `generateTimeSlots`, as a loop proved against a recursive definition |
| `slot_keys.dfy` | `getAppointmentKey`, and splitting a key at its first `_` |
| `reporting.dfy` | today's appointments, the procedure summary, the date-range filter, and the weekday buckets |
| `schedule_export.dfy` | the text and file name of the weekly export |
| `home_page.dfy` | the page's state as a class, with one method per handler; deleting a patient orphans their appointments in a loop; rounding when booking from the dashboard; the sorted patient list |
| `calendar_view.dfy` | the calendar page's date, view mode, zoom and search box as a class |
| `slot_cells.dfy` | each cell of the weekly grid and the daily column |
| `minimal_view.dfy` | the agenda of the week |
| `monthly_view.dfy` | counts per day and the month cells |
| `patients_view.dfy` | the patient search |
| `settings_view.dfy`, `onboarding_wizard.dfy` | the settings draft |
| `appointment_modal.dfy`, `patient_modal.dfy` | the forms of the two dialogs |
| `text.dfy`, `sorting.dfy`, `tally.dfy`, `records.dfy`, `wrappers.dfy` | supporting definitions: digits, ASCII case folding, ASCII lexicographic order, a stable insertion sort, counting in first-occurrence order, iterating a record, and `Option` |

Where the source updates state step by step, the model does too:

- the page handlers are methods of a class;
- so are the calendar controls, the dialogs' forms and the settings drafts;
- the loops of `generateTimeSlots`, the orphaning in `handleDeletePatient`, the filter by date range, the weekday count, the procedure tally, the monthly count and the export are `while` loops.

Each loop, and each method that computes a result, is proved equal to a
function, and the properties are proved about that function. Each handler states
the whole new state of its class.

Integer dates stand in for `Date`. "Now", today's date and fresh ids are
parameters.

## Model

| member | source | states |
|---|---|---|
| Types.ColorOf | src/types/denta-plan.ts:37-47 | a name has a colour class exactly when it is one of the table's procedure names |
| Types.LookupColor | src/types/denta-plan.ts:37-47 | a lookup finds a class exactly when the name is in the table, and the class found is paired with that name |
| Types.LookupFirst | src/types/denta-plan.ts:37-47 | the class found is the one of the first entry with that name |
| Types.KeysExceptCustom | src/types/denta-plan.ts:48 | the names kept are exactly the table's names other than "Custom" |
| Types.ProceduresAreThePresets | src/types/denta-plan.ts:48 | `PROCEDURES` is the eight preset names in table order; "Custom" is not among them; each has a colour |
| Types.CustomHasColor | src/types/denta-plan.ts:46 | the "Custom" entry, used as the fallback, is the gray class |
| Types.DayAt | src/types/denta-plan.ts:17 | a weekday's setting is found exactly for the indices the table holds, and is that entry |
| Types.DisplayProcedure | src/components/denta-plan/CalendarGrid.tsx:52-54 | the shown name is the custom name for "Custom", the procedure otherwise |
| Types.UpdateDay | src/components/denta-plan/SettingsView.tsx:19-30 | only the given day changes, and in it only the named field; other days, the duration and `isConfigured` are kept |
| Types.ApplyFieldChangesOneField | src/components/denta-plan/SettingsView.tsx:24-27 | setting one field of a day keeps its two other fields |
| Types.OfferedOptions | src/components/denta-plan/SettingsView.tsx:15-16 | the selectors offer start hours 0..23, end hours 1..24 and positive durations |
| Types.OfferedOptionsKeepValid | src/types/denta-plan.ts:11-15 | a valid day changed with an offered hour keeps its start in 0..23 and its end in 1..24 |
| Dates.DaysInMonth | src/lib/denta-plan-utils.ts:27 | every month has 28 to 31 days |
| Dates.Weekday | src/lib/denta-plan-utils.ts:122 | `getDay` is in 0..6 |
| Dates.WeekdayOfNumber | src/lib/denta-plan-utils.ts:122 | the weekday follows the day number modulo 7 |
| Dates.NextDayWeekday | src/lib/denta-plan-utils.ts:122 | the next day's weekday is one more, modulo 7 |
| Dates.NextPrev | src/components/denta-plan/CalendarView.tsx:26-31 | the day after the day before is the same day, one day number earlier |
| Dates.PrevNext | src/components/denta-plan/CalendarView.tsx:26-31 | the day before the day after is the same day |
| Dates.AddDaysNumber | src/components/denta-plan/CalendarView.tsx:26-33 | adding `n` days moves the day number by exactly `n` |
| Dates.AddDaysAdd | src/components/denta-plan/CalendarView.tsx:26-33 | adding `m` days then `n` days is adding `m + n` days |
| Dates.DayNumberOrder | src/lib/denta-plan-utils.ts:93 | comparing day numbers is comparing dates in calendar order |
| Dates.DayNumberInjective | src/lib/denta-plan-utils.ts:93 | two dates with one day number are the same date |
| Dates.EachDay | src/lib/denta-plan-utils.ts:23 | the interval holds one day per day number from start to end, none when end precedes start |
| Dates.EachDayNumbers | src/lib/denta-plan-utils.ts:23 | the i-th day of the interval is `i` days after its start |
| Dates.EachDayMembers | src/lib/denta-plan-utils.ts:23 | a date is in the interval exactly when it lies between start and end |
| Dates.AddMonths | src/components/denta-plan/CalendarView.tsx:27 | the month moves by `n` across years, and the day is kept, or clamped to the last day of a shorter month |
| Dates.AddMonthsBack | src/components/denta-plan/CalendarView.tsx:27-32 | a month forward and back returns to the same month, on the same or an earlier day |
| Dates.WeekStartDay | src/lib/denta-plan-utils.ts:21 | `startOfWeek` is the Sunday on or before the date |
| Dates.WeekEndDay | src/lib/denta-plan-utils.ts:22 | `endOfWeek` is the Saturday after that Sunday |
| Dates.WeekDaysFacts | src/lib/denta-plan-utils.ts:20-24 | `getWeekDays` gives seven consecutive days, the i-th on weekday `i`, with the date itself at its own weekday |
| Dates.WeekBounds | src/lib/denta-plan-utils.ts:20-24 | the week runs from a Sunday to a Saturday and contains the date |
| Dates.MonthSpan | src/lib/denta-plan-utils.ts:26-27 | the month's last day is its length minus one after its first, at least 27 days on |
| Dates.MonthGridShape | src/lib/denta-plan-utils.ts:25-31 | the month grid is whole weeks, at least four, from a Sunday to a Saturday |
| Dates.MonthGridCovers | src/lib/denta-plan-utils.ts:25-31 | every day of the month is in its grid |
| DateFormat.YearOfEra | src/lib/denta-plan-utils.ts:56 | `yyyy` prints the year of the era: the year itself from year 1 on |
| DateFormat.YearZeroPrintsAsOne | src/lib/denta-plan-utils.ts:56 | year 0 prints like year 1, so reading a date back needs a year from 1 to 9999 |
| DateFormat.IsoDateShape | src/lib/denta-plan-utils.ts:56 | `yyyy-MM-dd` is ten characters: four year digits, a dash, two month digits, a dash, two day digits |
| DateFormat.ParseIsoDate | src/lib/denta-plan-utils.ts:92 | only the ten-character text of a date reads back as a date |
| DateFormat.ParseIsoDateRoundTrip | src/lib/denta-plan-utils.ts:92 | `parseISO` of a date's `yyyy-MM-dd` gives that date back |
| DateFormat.IsoDateInjective | src/lib/denta-plan-utils.ts:56 | two dates with one `yyyy-MM-dd` are the same date |
| DateFormat.TimeLabel | src/lib/denta-plan-utils.ts:15 | an `HH:mm` label is five characters |
| DateFormat.TimeLabelParts | src/lib/denta-plan-utils.ts:15 | an `HH:mm` label is the two-digit hour, a colon and the two-digit minute |
| DateFormat.TimeLabelOnHour | src/lib/denta-plan-utils.ts:12 | a whole hour is labelled `HH:00` |
| DateFormat.SlotHour | src/lib/denta-plan-utils.ts:130-131 | the hour read from a slot label is in 0..23 |
| DateFormat.SlotHourOfLabel | src/lib/denta-plan-utils.ts:130-131 | reading a slot label back gives its hour |
| DateFormat.TimeLabelOrder | src/lib/denta-plan-utils.ts:66 | an earlier minute has a label that sorts first |
| DateFormat.TimeLabelInjective | src/lib/denta-plan-utils.ts:15 | two minutes of the day with one label are the same minute |
| DateRanges.WeekEnds | src/lib/denta-plan-utils.ts:39-42 | the first and last of the week's days are its Sunday and its Saturday |
| DateRanges.MonthNumberOfName | src/lib/denta-plan-utils.ts:43-44 | a month's name determines the month |
| DateRanges.MonthNameInjective | src/lib/denta-plan-utils.ts:50 | two dates with one month name are in the same month |
| DateRanges.YearTextInjective | src/lib/denta-plan-utils.ts:45-47 | two years from 1 on print alike exactly when they are equal |
| DateRanges.DayAndMonthRanges | src/lib/denta-plan-utils.ts:33-38 | daily gives "MMMM d, yyyy"; monthly gives "MMMM yyyy" |
| DateRanges.WeekRange | src/lib/denta-plan-utils.ts:39-53 | weekly and agenda give both full dates when the years differ; "MMMM d - MMMM d, yyyy" when only the months differ; "MMMM d - d, yyyy" otherwise |
| DateRanges.WeekTextCases | src/lib/denta-plan-utils.ts:47-53 | the same three cases for any first and last day |
| DateRanges.WeekInsideMonth | src/lib/denta-plan-utils.ts:53 | the week of 4 June 2025 reads "June 1 - 7, 2025" |
| DateRanges.WeekAcrossMonths | src/lib/denta-plan-utils.ts:51 | the week of 1 July 2025 reads "June 29 - July 5, 2025" |
| DateRanges.WeekAcrossYears | src/lib/denta-plan-utils.ts:48 | the week of 31 December 2025 reads "December 28, 2025 - January 3, 2026" |
| SlotGenerator.WorkingDays | src/lib/denta-plan-utils.ts:5 | the kept settings are exactly the working days' |
| SlotGenerator.EarliestStart | src/lib/denta-plan-utils.ts:9 | the earliest start is one working day's start and no later than any |
| SlotGenerator.LatestEnd | src/lib/denta-plan-utils.ts:10 | the latest end is one working day's end and no earlier than any |
| SlotGenerator.SlotMinutesFrom | src/lib/denta-plan-utils.ts:14-17 | the loop emits nothing exactly when it starts at or past the end; otherwise it emits the start first, every minute lies below the end, and one more step from the last reaches the end |
| SlotGenerator.SlotMinutesIncreasing | src/lib/denta-plan-utils.ts:14-17 | the emitted minutes strictly increase |
| SlotGenerator.SlotMinuteAt | src/lib/denta-plan-utils.ts:16 | the i-th emitted minute is the start plus `i` durations |
| SlotGenerator.LabelsFromMinutes | src/lib/denta-plan-utils.ts:15 | labelling while stepping is labelling the stepped minutes |
| SlotGenerator.GenerateTimeSlots | src/lib/denta-plan-utils.ts:3-19 | the loop returns exactly the slot labels of the settings |
| SlotGenerator.NoWorkingDayNoSlots | src/lib/denta-plan-utils.ts:5-8 | without a working day there are no slots |
| SlotGenerator.WorkingDayBounds | src/lib/denta-plan-utils.ts:9-10 | every working day starts no earlier than the earliest start and ends no later than the latest end |
| SlotGenerator.OpenWeek | src/lib/denta-plan-utils.ts:9-10 | with a working day of positive length, the earliest start is an hour of the day and precedes the latest end |
| SlotGenerator.FirstSlot | src/lib/denta-plan-utils.ts:9-15 | then there is a slot, and the first is `earliestStart:00` |
| SlotGenerator.SlotAt | src/lib/denta-plan-utils.ts:12-17 | the i-th slot is `i` durations after the earliest start, before the latest end, labelled `HH:mm` |
| SlotGenerator.SlotMinutesInDay | src/lib/denta-plan-utils.ts:13 | an end of 24 is midnight, so every slot starts within the day |
| SlotGenerator.TimeSlotsIncreasing | src/lib/denta-plan-utils.ts:14-17 | the labels strictly increase in text order |
| SlotKeys.KeyParts | src/lib/denta-plan-utils.ts:55-57 | a key starts with its date; the text before the first `_` is that date, and for a time without `_` the text after it is the time |
| SlotKeys.NoSeparatorInDate | src/lib/denta-plan-utils.ts:56 | no `yyyy-MM-dd` holds a `_` |
| SlotKeys.KeyDateParses | src/lib/denta-plan-utils.ts:92 | the date part of a key reads back as the key's date |
| SlotKeys.KeyInjective | src/lib/denta-plan-utils.ts:55-57 | two slots with one key have the same date and time |
| Reporting.KeysWithPrefix | src/lib/denta-plan-utils.ts:61 | the keys kept are exactly those starting with the prefix |
| Reporting.KeysWithPrefixDistinct | src/lib/denta-plan-utils.ts:60-61 | filtering distinct keys keeps them distinct |
| Reporting.Timed | src/lib/denta-plan-utils.ts:62-65 | each entry pairs the text after a key's `_` with that key's appointment |
| Reporting.TodaysKeysSpec | src/lib/denta-plan-utils.ts:59-61 | today's keys are exactly the stored keys starting with today's `yyyy-MM-dd`, each once |
| Reporting.ByTimeIsOrder | src/lib/denta-plan-utils.ts:66 | the time comparator is total and transitive |
| Reporting.TodaysAppointmentsSorted | src/lib/denta-plan-utils.ts:66 | today's list has one entry per key and is sorted by time |
| Reporting.TodaysAppointmentsMembers | src/lib/denta-plan-utils.ts:58-67 | an entry is listed exactly when some key of today holds its appointment under its time |
| Reporting.BookedTodayIsListed | src/lib/denta-plan-utils.ts:55-67 | a slot booked today is listed with its own time |
| Reporting.SummaryNames | src/lib/denta-plan-utils.ts:71 | each appointment is named by the custom name, or "Custom", for "Custom", and by its procedure otherwise |
| Reporting.Items | src/lib/denta-plan-utils.ts:74-75 | each summary item carries a name, its count, and the name as its colour |
| Reporting.ItemsFacts | src/lib/denta-plan-utils.ts:74-75 | the items' counts add up to the tally's, and distinct names stay distinct |
| Reporting.GetProcedureSummary | src/lib/denta-plan-utils.ts:68-77 | the counting loop and the sort give exactly the procedure summary |
| Reporting.ProcedureSummaryTotals | src/lib/denta-plan-utils.ts:69-75 | the summary's names are distinct and its counts add up to the number of appointments |
| Reporting.ProcedureSummaryOrder | src/lib/denta-plan-utils.ts:76 | the summary is sorted by non-increasing count, every count at least one |
| Reporting.ProcedureSummaryCounts | src/lib/denta-plan-utils.ts:70-75 | each item counts the appointments with its name; its colour is its name; every appointment's name is listed |
| Reporting.FilterAppointmentsByDateRange | src/lib/denta-plan-utils.ts:78-98 | the loop over the keys builds exactly the filtered record |
| Reporting.KeptAmongSnoc | src/lib/denta-plan-utils.ts:93-95 | one more key adds that key's appointment when its date is in range and nothing otherwise |
| Reporting.WeekFilter | src/lib/denta-plan-utils.ts:85-96 | "week" keeps exactly the keys whose date is in the Sunday-to-Saturday week of now, with their appointments |
| Reporting.MonthFilter | src/lib/denta-plan-utils.ts:87-96 | "month" keeps exactly the keys whose date is in the calendar month of now, with their appointments |
| Reporting.FilterIsSubRecord | src/lib/denta-plan-utils.ts:82 | "all" keeps the record; any range keeps a part of it, unchanged, and no more entries |
| Reporting.KeyWeekday | src/lib/denta-plan-utils.ts:105-107 | a key with a readable date has a weekday in 0..6 |
| Reporting.WeekdayCounts | src/lib/denta-plan-utils.ts:102 | there are always seven counts |
| Reporting.Buckets | src/lib/denta-plan-utils.ts:111 | the buckets are "Sun" to "Sat" in order, with their counts |
| Reporting.CountKeyDay | src/lib/denta-plan-utils.ts:105-109 | a key adds one to its weekday's count, and a key without a readable date changes nothing |
| Reporting.WeekdayCountsSnoc | src/lib/denta-plan-utils.ts:104-110 | each key adds one to exactly its weekday's count, if it has one |
| Reporting.GetAppointmentsByDayOfWeek | src/lib/denta-plan-utils.ts:99-112 | the loop returns exactly the seven weekday buckets |
| Reporting.WeekdayCountsTotal | src/lib/denta-plan-utils.ts:104-110 | the seven counts add up to the number of keys with a readable date |
| Reporting.DayOfWeekBucketsShape | src/lib/denta-plan-utils.ts:102-111 | seven buckets, "Sun" to "Sat", each counting the keys on its weekday, adding up to the dated keys |
| Reporting.DatedKeysCounted | src/lib/denta-plan-utils.ts:104-110 | when every key has a readable date, the total is the number of keys |
| ScheduleExport.ExportedProcedure | src/lib/denta-plan-utils.ts:139-146 | the exported procedure is the shown name, or "N/A" when that is empty |
| ScheduleExport.SlotLine | src/lib/denta-plan-utils.ts:129-147 | a slot gives a line exactly when its hour is inside the day's hours and it is booked, and the line carries its time |
| ScheduleExport.CollectLines | src/lib/denta-plan-utils.ts:128-149 | no more lines than slots |
| ScheduleExport.CollectLinesMembers | src/lib/denta-plan-utils.ts:128-149 | a line is emitted exactly for a booked slot within hours, with the patient's name ("Unknown Patient" when missing) and the exported procedure |
| ScheduleExport.CollectLinesOrder | src/lib/denta-plan-utils.ts:128-149 | lines keep the slots' increasing time order |
| ScheduleExport.DayLinesInTimeOrder | src/lib/denta-plan-utils.ts:127-155 | a day's lines are in strictly increasing time order |
| ScheduleExport.SlotOutsideHours | src/lib/denta-plan-utils.ts:130-134 | a generated slot is skipped exactly when its hour is before the day's start or at or after its end |
| ScheduleExport.NonWorkingDaySilent | src/lib/denta-plan-utils.ts:124-126 | a day without a setting, or not a working day, adds nothing |
| ScheduleExport.AppendLines | src/lib/denta-plan-utils.ts:153-155 | the inner loop appends exactly the lines' text |
| ScheduleExport.WorkingDayLines | src/lib/denta-plan-utils.ts:127-149 | the lines computed for a working day are its day lines |
| ScheduleExport.DaySectionContent | src/lib/denta-plan-utils.ts:122-157 | a day adds its section, and is marked booked exactly when it has lines |
| ScheduleExport.ExportStarts | src/lib/denta-plan-utils.ts:119-120 | the text starts as the heading, with nothing booked yet |
| ScheduleExport.ExportStep | src/lib/denta-plan-utils.ts:121-158 | each day appends its section and updates the booked flag |
| ScheduleExport.ExportEnds | src/lib/denta-plan-utils.ts:159-161 | the closing sentence is added exactly when no day was booked |
| ScheduleExport.ExportContent | src/lib/denta-plan-utils.ts:119-161 | the loop builds exactly the export text |
| ScheduleExport.SectionText | src/lib/denta-plan-utils.ts:152-156 | a section is its day heading, its lines and a blank line |
| ScheduleExport.BodySnoc | src/lib/denta-plan-utils.ts:121-158 | one more day appends its section, and the text is booked when either part is |
| ScheduleExport.AnyLinesIff | src/lib/denta-plan-utils.ts:150-151 | the week is booked exactly when some day has a line |
| ScheduleExport.ExportStartsWithHeading | src/lib/denta-plan-utils.ts:119 | the text starts with "Dental Appointments - Week of", the weekly heading and a blank line |
| ScheduleExport.ExportClosing | src/lib/denta-plan-utils.ts:159-161 | the text ends with "No appointments scheduled for this week." exactly when no day has a line, and is then the heading and that sentence alone |
| ScheduleExport.ExportFileNameDate | src/lib/denta-plan-utils.ts:165 | the file name is "DentaPlan_Schedule_", the first day's `yyyy-MM-dd` that reads back as that day, and ".txt" |
| SlotCells.ColorClass | src/components/denta-plan/CalendarGrid.tsx:55-57 | a booked cell takes its procedure's colour, or the "Custom" colour for an unknown procedure; a free cell has none |
| SlotCells.ColorFromTable | src/components/denta-plan/CalendarGrid.tsx:55-57 | a booked cell's colour is always one from the table |
| SlotCells.BookedAt | src/components/denta-plan/CalendarGrid.tsx:46-47 | a cell holds an appointment exactly when its key is stored, and it is the stored one |
| SlotCells.PatientOf | src/components/denta-plan/CalendarGrid.tsx:48 | a cell has a patient exactly when its appointment's patient id is stored |
| SlotCells.Click | src/components/denta-plan/CalendarGrid.tsx:69 | a click reports the slot exactly on a working slot |
| SlotCells.CellContent | src/components/denta-plan/CalendarGrid.tsx:71-86 | a patient card exactly for a booked slot with a known patient, under that name; "Unknown Patient" exactly for a booked slot without one; the add hint exactly on a free working slot |
| SlotCells.BookedCellLooks | src/components/denta-plan/CalendarGrid.tsx:52-57 | a booked cell shows a colour from the table, and the custom name for "Custom" or the procedure otherwise |
| SlotCells.DimmedCells | src/components/denta-plan/CalendarGrid.tsx:49-66 | a cell is dimmed exactly when the query is non-empty, the slot is booked, its patient is stored and the patient's lower-cased name does not contain the lower-cased query |
| SlotCells.MatchIgnoresCase | src/components/denta-plan/CalendarGrid.tsx:49-51 | the match ignores the query's letter case, and a patient's own name matches |
| SlotCells.GeneratedSlotWorking | src/components/denta-plan/CalendarGrid.tsx:41-45 | a generated slot is working exactly when its weekday works and its hour is from the day's start up to before its end |
| SlotCells.WeekGrid | src/components/denta-plan/CalendarGrid.tsx:33-40 | one row per slot and one cell per day, each the cell of that day and slot |
| SlotCells.DailyColumn | src/components/denta-plan/DailyView.tsx:26 | the daily view has one cell per slot |
| SlotCells.DailyMatchesWeekly | src/components/denta-plan/DailyView.tsx:21-35 | each daily cell is the weekly grid's cell for that day and slot |
| SlotCells.ClickedSlot | src/components/denta-plan/DailyView.tsx:50 | a click fires exactly on a working slot and selects that cell's key |
| MinimalView.DayEntries | src/components/denta-plan/MinimalView.tsx:20-25 | a day's entries are exactly its keys' appointments, each under the time after the key's `_` |
| MinimalView.WeekEntries | src/components/denta-plan/MinimalView.tsx:16-25 | the week's entries are exactly those of its working days |
| MinimalView.ByDayThenTimeIsOrder | src/components/denta-plan/MinimalView.tsx:26-31 | the comparator is total and transitive |
| MinimalView.AgendaMembers | src/components/denta-plan/MinimalView.tsx:15-25 | an entry is on the agenda exactly when its day is a working day of the week holding that key |
| MinimalView.AgendaOrdered | src/components/denta-plan/MinimalView.tsx:26-31 | the agenda is sorted by day, then by time |
| MinimalView.NoWorkingDayEmptyAgenda | src/components/denta-plan/MinimalView.tsx:17-19 | without working days the agenda is empty |
| MinimalView.ClickedEntryKey | src/components/denta-plan/MinimalView.tsx:44-46 | an entry's day and time give back its key |
| MinimalView.PatientLabel | src/components/denta-plan/MinimalView.tsx:57 | the patient's name, or "Unknown Patient" when the patient is missing |
| MinimalView.FirstWithPrefix | src/components/denta-plan/MinimalView.tsx:41 | the class found is the first word that starts with the prefix; none is found exactly when no word starts with it |
| MinimalView.BarColor | src/components/denta-plan/MinimalView.tsx:41 | the bar colour is always a `bg-` class: the first `bg-` word of the colour class, or "bg-gray-100" when it has none |
| MinimalView.LeadingBackgroundIsBar | src/components/denta-plan/MinimalView.tsx:40-41 | a colour class opening with a `bg-` class has that class as its bar |
| MonthlyView.KeyDates | src/components/denta-plan/MonthlyView.tsx:18 | each key contributes the text before its first `_` |
| MonthlyView.CountByDay | src/components/denta-plan/MonthlyView.tsx:16-20 | the loop gives the tally of the keys' dates |
| MonthlyView.KeysOn | src/components/denta-plan/MonthlyView.tsx:18 | exactly the keys whose date part is the given date |
| MonthlyView.KeysOnCount | src/components/denta-plan/MonthlyView.tsx:16-20 | a date occurs among the date parts once per key on that date |
| MonthlyView.DayCounts | src/components/denta-plan/MonthlyView.tsx:16-31 | a day's count is its number of keys, and all counts add up to the number of appointments |
| MonthlyView.BookedDayCounted | src/components/denta-plan/MonthlyView.tsx:30-31 | a day with a booked slot counts at least one |
| MonthlyView.BadgeSpec | src/components/denta-plan/MonthlyView.tsx:46-48 | a badge exactly for a positive count; it is the count's digits and "appt", plural exactly above one |
| MonthlyView.BadgeOfOne | src/components/denta-plan/MonthlyView.tsx:48 | one appointment reads "1 appt" |
| MonthlyView.MonthCells | src/components/denta-plan/MonthlyView.tsx:15-32 | one cell per day of the month grid, each that day's cell |
| MonthlyView.MonthCellsCover | src/components/denta-plan/MonthlyView.tsx:15 | the cells are whole weeks from a Sunday, and every day of the month has one |
| MonthlyView.MonthCellsShow | src/components/denta-plan/MonthlyView.tsx:30-39 | muted exactly outside the month, highlighted exactly today, counting that day's keys, badged exactly when booked |
| PatientsView.MatchingSpec | src/components/denta-plan/PatientsView.tsx:19 | the filter keeps exactly the matching patients, in their order, and no more than there are |
| PatientsView.EmptyQueryKeepsAll | src/components/denta-plan/PatientsView.tsx:17-18 | an empty query keeps the list as it is |
| PatientsView.FilterSpec | src/components/denta-plan/PatientsView.tsx:16-20 | a non-empty query keeps exactly the patients whose lower-cased name contains it lower-cased; order is kept and the list does not grow |
| PatientsView.QueryCaseIgnored | src/components/denta-plan/PatientsView.tsx:17 | queries that agree when lower-cased give the same list |
| PatientsView.SubsequenceOrder | src/components/denta-plan/PatientsView.tsx:19 | two patients listed in one order are stored in that order |
| CalendarView.StepSizes | src/components/denta-plan/CalendarView.tsx:25-34 | next and previous move by a day in the daily view, a week in the weekly and agenda views, and a month in the monthly view |
| CalendarView.StepUndone | src/components/denta-plan/CalendarView.tsx:25-34 | for days and weeks, back after forward and forward after back restore the date |
| CalendarView.MonthStepUndone | src/components/denta-plan/CalendarView.tsx:27-32 | for months, back after forward returns to the same month, on the same or an earlier day |
| CalendarView.MonthStepClamps | src/components/denta-plan/CalendarView.tsx:27-32 | 31 January 2025 comes back as 28 January |
| CalendarView.ZoomBounds | src/components/denta-plan/CalendarView.tsx:37-38 | zoom never passes 2 or 0.5, moves by 0.25 inside them, and stops at them |
| CalendarView.ZoomUndone | src/components/denta-plan/CalendarView.tsx:37-38 | inside the bounds, out undoes in and in undoes out |
| CalendarView.ToggleSearchSpec | src/components/denta-plan/CalendarView.tsx:43-46 | the query is cleared exactly when the box is being hidden; two toggles restore the visibility |
| CalendarView.Calendar.constructor | src/components/denta-plan/CalendarView.tsx:19-23 | opens on today, weekly, at zoom 1, with the search hidden and empty |
| CalendarView.Calendar.WeekShown | src/components/denta-plan/CalendarView.tsx:24 | the week shown has seven days on weekdays 0..6 and contains the current date |
| CalendarView.Calendar.HandleNext | src/components/denta-plan/CalendarView.tsx:25-29 | only the date moves, one step forward for the view mode |
| CalendarView.Calendar.HandlePrevious | src/components/denta-plan/CalendarView.tsx:30-34 | only the date moves, one step back |
| CalendarView.Calendar.HandleToday | src/components/denta-plan/CalendarView.tsx:35 | only the date changes, to today |
| CalendarView.Calendar.HandleViewChange | src/components/denta-plan/CalendarView.tsx:36 | only the view mode changes |
| CalendarView.Calendar.HandleZoomIn | src/components/denta-plan/CalendarView.tsx:37 | only the zoom changes, up by 0.25 to at most 2 |
| CalendarView.Calendar.HandleZoomOut | src/components/denta-plan/CalendarView.tsx:38 | only the zoom changes, down by 0.25 to at least 0.5 |
| CalendarView.Calendar.HandleDayClick | src/components/denta-plan/CalendarView.tsx:39-42 | the date becomes the day clicked and the view daily; nothing else changes |
| CalendarView.Calendar.HandleToggleSearch | src/components/denta-plan/CalendarView.tsx:43-46 | the visibility flips and the query is cleared exactly when the box was showing |
| CalendarView.Calendar.SetSearchQuery | src/components/denta-plan/CalendarView.tsx:72 | only the query changes |
| CalendarView.Calendar.HandleExport | src/components/denta-plan/CalendarView.tsx:47-49 | the exported text is the export of the week shown |
| SettingsView.DraftEditKeepsValid | src/components/denta-plan/SettingsView.tsx:19-30 | an edit with offered values keeps the settings valid and touches only that day |
| SettingsView.DurationChoiceKeepsValid | src/components/denta-plan/SettingsView.tsx:98 | an offered duration keeps the settings valid |
| SettingsView.StartAfterEndAccepted | src/components/denta-plan/SettingsView.tsx:31-34 | the draft can be saved with a start after its end: nothing checks the order |
| SettingsView.Form.constructor | src/components/denta-plan/SettingsView.tsx:18 | the draft starts as the current settings |
| SettingsView.Form.HandleDaySettingChange | src/components/denta-plan/SettingsView.tsx:19-30 | the draft becomes the old draft with that one field of that day changed |
| SettingsView.Form.SetSlotDuration | src/components/denta-plan/SettingsView.tsx:98 | only the duration changes |
| SettingsView.Form.HandleSave | src/components/denta-plan/SettingsView.tsx:31-34 | the draft is handed over unchanged |
| OnboardingWizard.Completed | src/components/denta-plan/OnboardingWizard.tsx:30-32 | the completed settings are configured, keep the draft's hours and duration, and stay valid |
| OnboardingWizard.CompletedIdempotent | src/components/denta-plan/OnboardingWizard.tsx:31 | completing twice is completing once, and completing changes a draft exactly when it was not configured |
| OnboardingWizard.Wizard.constructor | src/components/denta-plan/OnboardingWizard.tsx:17 | the draft starts as the initial settings |
| OnboardingWizard.Wizard.HandleDaySettingChange | src/components/denta-plan/OnboardingWizard.tsx:18-29 | the draft becomes the old draft with that one field of that day changed |
| OnboardingWizard.Wizard.SetSlotDuration | src/components/denta-plan/OnboardingWizard.tsx:86 | only the duration changes |
| OnboardingWizard.Wizard.HandleComplete | src/components/denta-plan/OnboardingWizard.tsx:30-32 | hands over the draft as configured |
| AppointmentModal.FormOf | src/components/denta-plan/AppointmentModal.tsx:40 | the form holds exactly the appointment's fields other than its id |
| AppointmentModal.FinalProcedure | src/components/denta-plan/AppointmentModal.tsx:45-47 | both branches give the form's own procedure |
| AppointmentModal.SavedId | src/components/denta-plan/AppointmentModal.tsx:50 | the existing appointment's id when it has one, the fresh id otherwise |
| AppointmentModal.SavedAppointment | src/components/denta-plan/AppointmentModal.tsx:43-54 | an appointment is handed back exactly when the guard passes; it carries the saved id and the form's fields |
| AppointmentModal.ValidFormIsSaved | src/components/denta-plan/AppointmentModal.tsx:66 | a form the button accepts passes the guard, and its appointment has a non-empty shown name |
| AppointmentModal.GuardWeakerThanButton | src/components/denta-plan/AppointmentModal.tsx:44 | a custom name without a procedure passes the guard though the button rejects it |
| AppointmentModal.ReopenedAppointmentSavesUnchanged | src/components/denta-plan/AppointmentModal.tsx:38-52 | reopening a stored appointment and saving it gives it back unchanged |
| AppointmentModal.FindPatient | src/components/denta-plan/AppointmentModal.tsx:61 | the first patient with that id, or none when no patient has it |
| AppointmentModal.Modal.constructor | src/components/denta-plan/AppointmentModal.tsx:37 | the form starts empty |
| AppointmentModal.Modal.Reset | src/components/denta-plan/AppointmentModal.tsx:38-42 | on open the form becomes the existing appointment or the empty one; while closed it is kept |
| AppointmentModal.Modal.SetPatientId | src/components/denta-plan/AppointmentModal.tsx:88 | only the patient changes |
| AppointmentModal.Modal.SetProcedure | src/components/denta-plan/AppointmentModal.tsx:100 | only the procedure changes |
| AppointmentModal.Modal.SetCustomProcedureName | src/components/denta-plan/AppointmentModal.tsx:115 | only the custom name changes |
| AppointmentModal.Modal.SetNotes | src/components/denta-plan/AppointmentModal.tsx:125 | only the notes change |
| AppointmentModal.Modal.HandleSave | src/components/denta-plan/AppointmentModal.tsx:43-54 | hands back the saved appointment of the form, or nothing |
| AppointmentModal.Modal.HandleDelete | src/components/denta-plan/AppointmentModal.tsx:55-59 | deletion is requested exactly when there is an existing appointment |
| AppointmentModal.Modal.HandleEditPatientClick | src/components/denta-plan/AppointmentModal.tsx:60-65 | when editing is offered, the profile opened is the first listed patient with the form's id, and none opens when no patient has it; without editing none opens |
| PatientModal.FormOf | src/components/denta-plan/PatientModal.tsx:33 | the form holds exactly the patient's fields other than its id |
| PatientModal.SetField | src/components/denta-plan/PatientModal.tsx:36-39 | the named field takes the value and every other field is kept |
| PatientModal.FormsAgreeOnFields | src/components/denta-plan/PatientModal.tsx:36-39 | forms that agree on every field are equal |
| PatientModal.SetFieldLaws | src/components/denta-plan/PatientModal.tsx:38 | writing a field's own value changes nothing, and the last write wins |
| PatientModal.SavedId | src/components/denta-plan/PatientModal.tsx:47 | the edited patient's id when it has one, the fresh id otherwise |
| PatientModal.SavedPatient | src/components/denta-plan/PatientModal.tsx:40-49 | nothing is saved exactly when the name is all white space as JavaScript's `trim` counts it (Unicode space separators, tab, vertical tab, form feed, byte order mark, line terminators); otherwise the patient carries the saved id and every form field |
| PatientModal.UnicodeBlankNameNotSaved | src/components/denta-plan/PatientModal.tsx:41-43 | a name of a no-break space and an ideographic space disables the button and saves nothing |
| PatientModal.SaveEnabledIffSaved | src/components/denta-plan/PatientModal.tsx:101 | the button is enabled exactly when saving would save |
| PatientModal.ReopenedPatientSavesUnchanged | src/components/denta-plan/PatientModal.tsx:31-48 | reopening a stored patient and saving gives it back unchanged |
| PatientModal.Modal.constructor | src/components/denta-plan/PatientModal.tsx:30 | the form starts empty |
| PatientModal.Modal.Reset | src/components/denta-plan/PatientModal.tsx:31-35 | on open the form becomes the edited patient or the empty one; while closed it is kept |
| PatientModal.Modal.HandleChange | src/components/denta-plan/PatientModal.tsx:36-39 | only the named field changes |
| PatientModal.Modal.HandleSave | src/components/denta-plan/PatientModal.tsx:40-51 | hands back the saved patient, and asks to close exactly when one is saved |
| ReportsView.MaxBucketSpec | src/components/denta-plan/ReportsView.tsx:23 | the reduction's result is at least its start and every bucket; it is the start or the earliest bucket strictly above everything before it |
| ReportsView.BusiestDayIsEarliestMaximum | src/components/denta-plan/ReportsView.tsx:21-24 | "N/A" with count 0 exactly when nothing is booked; otherwise the earliest of the largest weekday buckets |
| ReportsView.BusiestDayIsBooked | src/components/denta-plan/ReportsView.tsx:21-24 | when every key has a readable date, the busiest day has an appointment |
| ReportsView.MostCommonProcedureSpec | src/components/denta-plan/ReportsView.tsx:25-28 | count 0 exactly when nothing is booked; otherwise a largest count, equal to the appointments with that name |
| ReportsView.ReportTotals | src/components/denta-plan/ReportsView.tsx:16-18 | the total counts the filtered record and is all of it for "all"; the patient total is the list's length |
| DashboardView.NextAppointmentIsEarliest | src/components/denta-plan/DashboardView.tsx:17-18 | none exactly when nothing is booked today; otherwise one of today's entries, no later than any |
| DashboardView.NextPatient | src/components/denta-plan/DashboardView.tsx:19 | the next patient exists exactly when the next appointment's patient is stored |
| DashboardView.NextCardOf | src/components/denta-plan/DashboardView.tsx:45-55 | the card shows a time exactly when both the appointment and its patient exist, with their time, name and procedure |
| DashboardView.TopProcedures | src/components/denta-plan/DashboardView.tsx:89 | at most five items, the summary's first ones in order |
| DashboardView.TopProceduresAreLargest | src/components/denta-plan/DashboardView.tsx:87-95 | no item left out has a larger count than one listed |
| DashboardView.DashboardFigures | src/components/denta-plan/DashboardView.tsx:17-64 | today's count, the patient count, the top list bounded by five and non-empty exactly when something is booked, and no next card without appointments today |
| HomePage.DefaultShape | src/pages/HomePage.tsx:20-32 | the defaults are valid, Monday works, slots last 30 minutes, and every day runs from 9 to 17 |
| HomePage.NineToFiveSlots | src/pages/HomePage.tsx:20-32 | such a week has sixteen slots, from 09:00 to 16:30 |
| HomePage.UniformWeekSlots | src/lib/denta-plan-utils.ts:5-13 | when every day has the same hours, slots run from that start to that end |
| HomePage.Orphan | src/pages/HomePage.tsx:84-86 | the patient id is cleared when it is the deleted one, and every other field is kept |
| HomePage.Orphaned | src/pages/HomePage.tsx:81-89 | the same keys, each appointment orphaned |
| HomePage.OrphanedIdempotent | src/pages/HomePage.tsx:81-89 | orphaning twice is orphaning once |
| HomePage.OrphanStep | src/pages/HomePage.tsx:83-87 | one key's update keeps every earlier key orphaned and later keys untouched |
| HomePage.OrphanAppointments | src/pages/HomePage.tsx:81-89 | the loop over the keys gives exactly the orphaned record |
| HomePage.RoundedMinutesIsCeiling | src/pages/HomePage.tsx:103 | the rounded minute is the smallest multiple of the duration at or after the minute |
| HomePage.CarryMinutes | src/pages/HomePage.tsx:104 | minutes past 59 carry into the hour, and hours past 23 wrap to the start of the day |
| HomePage.BookingTimeDigits | src/pages/HomePage.tsx:104-105 | the booked time is the carried hour and minute, each two digits |
| HomePage.BookingExamples | src/pages/HomePage.tsx:101-105 | 10:50 books 11:00, 23:50 books 00:00 of the same date, and 09:00 stays 09:00 |
| HomePage.ByNameIsOrder | src/pages/HomePage.tsx:44 | the name comparator is total and transitive |
| HomePage.PatientListSpec | src/pages/HomePage.tsx:44 | the list holds each stored patient once, sorted by name |
| HomePage.App.constructor | src/pages/HomePage.tsx:34-43 | the stored settings and records, or the defaults and empty records; the dashboard, every dialog closed, nothing selected |
| HomePage.App.HandleSaveSettings | src/pages/HomePage.tsx:45-48 | the settings are stored as configured and the dashboard opens, so the onboarding gate at lines 129-131 is passed |
| HomePage.App.SetActiveView | src/pages/HomePage.tsx:37 | only the active view changes |
| HomePage.App.HandleOpenAddPatientModal | src/pages/HomePage.tsx:49-52 | editing nothing, the patient dialog opens |
| HomePage.App.HandleOpenEditPatient | src/pages/HomePage.tsx:53-57 | the patient and where to return are recorded; the dialog opens and hides the appointment dialog when returning to it |
| HomePage.App.HandleClosePatientModal | src/pages/HomePage.tsx:58-64 | the dialog closes, reopens the appointment dialog when returning to it, and the editing context clears |
| HomePage.App.HandleSavePatient | src/pages/HomePage.tsx:65-68 | the patient is stored under its id, every other entry is kept, and the dialog closes |
| HomePage.App.HandleOpenDeleteConfirmation | src/pages/HomePage.tsx:69-72 | the patient to delete is recorded and the confirmation opens |
| HomePage.App.HandleCloseConfirmation | src/pages/HomePage.tsx:161 | only the confirmation closes |
| HomePage.App.HandleDeletePatient | src/pages/HomePage.tsx:73-93 | with a patient to delete, only that id leaves the patients and its appointments are orphaned; either way the confirmation closes and the choice clears |
| HomePage.App.HandleSlotClick | src/pages/HomePage.tsx:94-97 | the slot is selected and the appointment dialog opens |
| HomePage.App.HandleBookAppointmentFromDashboard | src/pages/HomePage.tsx:98-107 | the calendar opens with today's slot at the rounded time selected |
| HomePage.App.ExistingAppointment | src/pages/HomePage.tsx:128 | the stored appointment under the selected slot's key, none without a slot or a booking |
| HomePage.App.HandleSaveAppointment | src/pages/HomePage.tsx:108-115 | with a slot, the appointment is stored under its key and every other key is kept; either way the dialog closes and the slot clears |
| HomePage.App.HandleDeleteAppointment | src/pages/HomePage.tsx:116-127 | with a slot, only its key is removed; either way the dialog closes and the slot clears |
| HomePage.App.HandleCloseAppointmentModal | src/pages/HomePage.tsx:162 | only the appointment dialog closes |

## Left out

- Persistence through `useLocalStorageState`: the page's constructor takes what was stored, or nothing, as parameters.
- `crypto.randomUUID()` and `new Date()`: fresh ids, "now" and today's date are parameters.
- The `setTimeout` deferral when booking from the dashboard: it only delays the same state change.
- Time zones, daylight saving and the internals of date-fns. Dates are integer civil dates, and the slot loop steps over minutes of one day.
- Month addition in date-fns `add`/`sub` is modelled as keeping the day or clamping it to the month's last day.
- `localeCompare` and `toLowerCase` are modelled as ASCII text order and ASCII case folding.
- HomePage.ByNameIsOrder: the patient-name sort is stated as a sort by a total order (ASCII order), not by the user's locale.
- Iteration order of JavaScript objects: the appointment and patient records are iterated in ascending key order, and the two counting dictionaries (procedure summary, monthly counts) list names in first-occurrence order. JavaScript puts integer-like keys first in numeric order, which neither captures. The order only decides ties in the stable sorts and which key is visited first.
- `customProcedureName` is optional in the source; the model uses the empty string for "absent", since every use tests it for truthiness.
- DateFormat.ParseIsoDate: `parseISO` is modelled only on the `yyyy-MM-dd` form; any other text reads as an Invalid Date. date-fns would also read other ISO forms ("2025-06", "2025", "20250604", week and ordinal dates). The year `0000` is rejected too, where `parseISO` would read year 0. Keys written by `getAppointmentKey` always carry the `yyyy-MM-dd` form with a year from `0001`, so only hand-edited stored keys would differ.
- Reporting.ProcedureSummary: the counting dictionary of `getProcedureSummary` is modelled as a map with no inherited keys, so GetProcedureSummary, ProcedureSummaryTotals, ProcedureSummaryCounts and ProcedureSummaryOrder hold for every name. In the source the dictionary is a plain object, and a custom procedure name that is an `Object.prototype` property is counted differently. With `__proto__` no entry is made, so the counts add up to fewer than the appointments. With `constructor`, `toString`, `valueOf` or `hasOwnProperty` the count becomes a string and the sort comparator gives NaN. DashboardView.TopProcedures and ReportsView.MostCommonProcedureSpec inherit this. The weekday and monthly counts use fixed weekday names or `yyyy-MM-dd` keys and are not affected.
- DateFormat.SlotHour: reads only a five-character `HH:mm` label, where date-fns `parse` with 'HH:mm' would also take a one-digit hour such as "9:00". Every label comes from `generateTimeSlots`, which always writes two digits.
- `key.split('_')[1]` of a key without `_` is `undefined` in the source and the empty string in the model.
- Zoom is counted in quarter steps (4 stands for 1.0), not as a floating-point number.
- Rendering is not modelled: JSX, Tailwind classes, charts, animations, icons, slot heights, the nav bars, the procedure legend, the page header, modal titles, the date-range buttons and the empty-state texts.
- `renderActiveView` is not modelled; it only chooses which component to render.
- The Blob, the DOM link and the download in `exportScheduleAsText`: only the content string and the file name are modelled.
- SlotGenerator.GenerateTimeSlots: requires a positive slot duration. With a duration of zero or less, `generateTimeSlots` itself never returns: its `while` loop does not advance. No offered duration is one, but a stored or hand-edited settings value could be.
- ScheduleExport.ExportContent: requires at least one day, since the source reads `weekDays[0]` unconditionally; it is only called with a seven-day week.
- SettingsView.Form.HandleDaySettingChange: requires an existing day index. The source would add a new key for any other index, and the selectors only ever pass 0..6. The same holds for OnboardingWizard.Wizard.HandleDaySettingChange.
- HomePage.App.HandleOpenEditPatient: requires a return target, because the source's parameter type excludes `null` and defaults to 'manage'.
- HomePage.App.HandleBookAppointmentFromDashboard: takes the current hour and minute as parameters and requires a positive slot duration.
- The onboarding wizard's `Omit<Settings, 'isConfigured'>` draft is modelled as a full `Settings` value whose flag is overwritten on completion.
- The monthly view counts keys by the text before the first `_`, while the agenda and today's list match keys by their `yyyy-MM-dd` prefix. Both are modelled as written.
