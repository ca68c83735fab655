# Attendance portal — a Dafny model

The attendance portal is a small web application. Students clock in and out once per
calendar day, and take one lunch break that is judged against a 30-minute allowance. Admins
see a roster of the day, a report over a range of days and the most recent activity. They
accept or decline registration requests and change batches. A launcher starts the portal
only when the machine is on the company network.

This project models the portal's core in Dafny and proves properties of that model:

- **The server's record engine** (`AttendanceRules`, `Portal`). There is one attendance
  document per student and day.
  - Toggling flips the status. A clock-out is clamped so that it is never earlier than the
    clock-in, and a note is written when that happens.
  - Lunch start resets the lunch fields. Lunch end clamps the end time and rounds the
    duration to minutes. Overtime is a duration above 30 minutes.
  - The status read hides a clock-out that is earlier than the clock-in, and a lunch end
    that is earlier than the lunch start.
  - The database collections are `seq` fields of class `Portal.Portal`. Its `Valid()` holds
    the unique indexes: user ids and e-mails, pending ids, and (user, day) for attendance.
  - Every route handler is a method that keeps `Valid()` and states the whole new state.
- **The server's aggregations** (`Aggregation`): the day roster joined with that day's
  documents, the report rows, the recent-activity list and a user's records for a month.
- **The lateness rules** (`Lateness`, `AdminDashboard`, `AttendanceDecorator`). These are
  the batch-aware badge of the admin dashboard and the fixed-10:00 table decorator. The
  model shows where the two agree and where they disagree.
- **The student dashboard** (`StudentDashboard`): the client state object, merging a server
  response key by key, the repairs made after a merge, the view rules, the lunch countdown
  and the local guards before each request.
- **The other pages**: the calendar filter (`Calendar`), the pending-requests page
  (`RequestsPage`), the records page (`RecordsPage`) and the shared HTML escaping
  (`Markup`).
- **The one-off migration** (`Migration`) and **the launcher's network decision**
  (`Launcher`).

Some modules only support the others. `Common`, `Collections`, `Strings` and `Dates`
define options, filters, insertion sort, JavaScript's `trim`, `toLowerCase` and `split`,
decimal numerals and YYYY-MM-DD keys. `Schema` holds the stored entities and the batch
deadlines.

Instants are integer milliseconds. `Math.round(ms / 60000)` is exactly
`(ms + 30000) / 60000` in Dafny's floor division, and `Math.floor` is `ms / 60000`, so no
floating point is needed.

Some values come from the runtime, and each one is a parameter:
- the current instant;
- the start of a local day;
- the time-zone offset;
- `new Date(text)` (a `parse` function);
- the locale printers `toLocaleString` and `toLocaleTimeString` (`localize` and
  `timeOfDay`).

Three behaviours of the code are modelled as written, and each has a lemma:
- `AttendanceRules.ClockOutWithoutClockIn`: a lunch start on a day with no document
  creates a `logged_in` document with no clock-in. The next toggle then records a clock-out
  without any clock-in.
- `AttendanceDecorator.DisagreesWithDashboardOnBatch3`: the decorator judges every row
  against 10:00. The dashboard uses the batch's own deadline. So a batch3 student who
  arrives at 09:45 is on time in one view and 15 minutes late in the other.
- `StudentDashboard.Dashboard.StartCountdown`: on an overtime first tick, the tick clears
  the timer, but `startLunchCountdown` then starts a new interval. So the countdown keeps
  running, and its contract says so.

## Model

| member | source | states |
|---|---|---|
| Common.Or | public/js/new_request.js:87 | a JavaScript `a \|\| b` on optional strings is truthy iff one side is, and is the left side whenever that side is truthy, else the right side |
| Common.RoundMinutes | server.js:552 | the rounded minute count is the unique integer within half a minute of the interval |
| Common.FloorMinutes | public/js/student_dashboard.js:106 | the floored minute count is the unique integer whose minute holds the interval |
| Common.RoundMinutesNonNegative | server.js:552-553 | a non-negative interval rounds to a non-negative count, and to zero exactly when it is under 30 seconds |
| Schema.ParseBatch | server.js:258-259 | the whitelist accepts exactly batch1, batch2 and batch3 and returns the batch with that name |
| Schema.ParseBatchName | server.js:32-36 | every batch's name passes the whitelist and maps back to the same batch |
| Dates.Pad2 | server.js:160-161 | the two-digit padding yields only digits, and exactly two of them below 100 |
| Dates.NatToStringShort | public/js/admin_dashboard.js:12-13 | numerals of one to four digits have exactly that length |
| Dates.FormatDateShape | server.js:158-163 | a date key with a four-digit year is ten characters long, with digits around dashes at positions 4 and 7 |
| Dates.NumberText | public/js/admin_dashboard.js:52 | `Number(text)` is zero for blank text and, for digit text, its decimal value |
| Dates.Pad2Value | public/js/admin_dashboard.js:52 | reading a padded number back with `Number` gives the number |
| Dates.SplitThree | public/js/admin_dashboard.js:52 | splitting on '-' recovers three dash-free pieces joined by dashes |
| Dates.ParseOfPieces | public/js/admin_dashboard.js:52 | `split('-').map(Number)` of a joined key gives the values of its pieces |
| Dates.ParseFormatDate | public/js/admin_dashboard.js:10-15 | the dashboard reads back exactly the year, month and day that the date key was formatted from |
| Dates.FormatDateInjective | server.js:158-163 | two different calendar dates never share a day key |
| Markup.Entity | public/js/view_data.js:78 | each replacement contains no raw markup character, and starts with '&' exactly for the six special characters |
| Markup.EscapeText | public/js/view_data.js:78 | the escaped text contains no raw < > " ' or backtick, and is never shorter than the input |
| Markup.EscapePlain | public/js/calendar.js:64 | text without special characters is left unchanged |
| Markup.EscapeConcat | public/js/calendar.js:64 | escaping works character by character, so it distributes over concatenation |
| Markup.UnescapeEntity | public/js/view_data.js:78 | decoding one replacement gives back the character it stands for |
| Markup.UnescapeEscape | public/js/view_data.js:78 | decoding the escaped text gives back the original text |
| Markup.EscapeHtml | public/js/view_data.js:76-79 | falsy input gives the empty string, and any other input is escaped |
| Markup.EscapeInjective | public/js/new_request.js:30-33 | two different texts never escape to the same HTML |
| Markup.StatusLabel | public/js/view_data.js:27 | the label is 'Clock In' exactly for `logged_in`, and 'Clock Out' for `logged_out` |
| Lateness.Classify | public/js/admin_dashboard.js:89-95 | on time iff the reference time is at or before the deadline; otherwise late by the non-negative rounded minute count, which is zero iff less than 30 s late |
| Lateness.ClassifyMonotone | public/js/admin_dashboard.js:89-95 | a later arrival is never judged earlier, and is never fewer minutes late |
| Lateness.ClassifyShift | public/js/admin_dashboard.js:75-95 | moving the deadline k minutes later reduces the late count by exactly k |
| Lateness.RoundUnique | public/js/admin_dashboard.js:94 | at most one minute count lies within half a minute of an interval |
| AttendanceRules.NextStatus | server.js:456 | the next status is `logged_in` iff there is no document or it is `logged_out` |
| AttendanceRules.ClockOutTime | server.js:476-479 | the stored clock-out is the later of now and the clock-in |
| AttendanceRules.Toggle | server.js:456-485 | a clock-in sets the clock-in to now and clears the clock-out; a clock-out keeps the clock-in and stores the clamped time; a note exists iff clamping happened; lunch fields are kept, and well-formedness (out ≥ in, end ≥ start) is preserved |
| AttendanceRules.StartLunch | server.js:513-524 | the lunch starts now and end, duration and overtime are cleared; an existing document keeps its clock fields; a missing one is created `logged_in` with the user's batch; well-formedness is preserved |
| AttendanceRules.OvertimeThreshold | server.js:552-556 | a lunch is never negative, and is over 30 minutes exactly when it lasts at least 30.5 minutes |
| AttendanceRules.EndLunch | server.js:540-556 | refused iff there is no document or no start; otherwise the end is clamped to the start, the duration is rounded and non-negative, overtime iff over 30, a note iff clamped, and the clock fields are kept |
| AttendanceRules.NotBefore | server.js:413-416 | a second time is kept exactly when it is not earlier than the first |
| AttendanceRules.ReadStatus | server.js:397-437 | no document reads as logged out with nothing set; otherwise a clock-out earlier than the clock-in and a lunch end earlier than the start are hidden, and the status is `logged_in` when a clock-in has no valid clock-out |
| AttendanceRules.ReadStatusOfWellFormed | server.js:411-423 | on a well-formed document the status read hides nothing |
| AttendanceRules.ToggleTwice | server.js:456-485 | clocking in then out records the first time as clock-in and the later of the two as clock-out, with a note iff the second time is earlier |
| AttendanceRules.ClockOutWithoutClockIn | server.js:514-518 | a lunch start without a document, followed by a toggle, yields a clock-out with no clock-in |
| Portal.FindUser | server.js:449 | the lookup by id finds a user with that id, or reports that none exists |
| Portal.FindPending | server.js:586 | the lookup by id finds a pending request with that id, or reports that none exists |
| Portal.DayDoc | server.js:453 | the lookup finds the student's document for that day, or reports that none exists |
| Portal.Saved | server.js:487 | saving replaces a document in place or appends it |
| Portal.SavedLookup | server.js:85 | after a save, the saved document is the one for its (user, day), and every other day's lookup is unchanged |
| Portal.SavedUnique | server.js:85 | saving keeps the one-document-per-user-and-day index |
| Portal.TrimmedField | server.js:243 | a truthy field is its trimmed text and a falsy one is empty; a non-empty result has no white space at either end |
| Portal.EmailField | server.js:244 | the normalised e-mail is the lower-cased trimmed field: no upper-case letter, the length of the trimmed input |
| Portal.RoleField | server.js:246 | the requested role is the lower-cased `role` when truthy, else the lower-cased `userRole`; lower case, and empty exactly when neither is truthy |
| Portal.BatchField | server.js:248-259 | a whitelisted batch is kept (ignoring case); everything else becomes batch1 |
| Portal.RemoveUser | server.js:616-623 | removing a user keeps both unique indexes and the id bound, drops that id, and keeps every other user |
| Portal.RemoveUserDocs | server.js:620 | removing a user's documents keeps the day index, leaves none of theirs, and keeps everyone else's |
| Portal.Portal.constructor | server.js:49-85 | the store starts empty and valid |
| Portal.Portal.SaveAttendance | server.js:487 | a save keeps the indexes and changes only the attendance collection |
| Portal.Portal.ToggleClock | server.js:447-504 | a non-student or unknown session is forbidden and changes nothing; otherwise today's document becomes the toggled one with the user's batch, and the reply carries its status and times |
| Portal.Portal.LunchStart | server.js:509-531 | today's document afterwards exists and starts its lunch now; nothing but attendance changes |
| Portal.Portal.LunchEnd | server.js:535-570 | without a started lunch nothing changes; otherwise the ended document is saved and the reply carries its start, end, duration and overtime |
| Portal.Portal.UpdateBatch | server.js:365-379 | a batch outside the whitelist, or an unknown user, changes nothing; otherwise only that user's batch changes |
| Portal.Portal.InsertUser | server.js:302-311 | a new user with a fresh id and an unused e-mail is appended and the indexes still hold |
| Portal.Portal.InsertPending | server.js:327-333 | a new pending request with a fresh id and an unused e-mail is appended and the indexes still hold |
| Portal.Portal.Register | server.js:240-346 | missing fields are refused; an admin role needs a session admin or a matching non-empty invite code; an admin with a taken e-mail fails; a student is refused if the user exists, a duplicate pending request is a no-op, otherwise one pending request is added; no outcome touches attendance |
| Portal.Portal.RequestAction | server.js:581-613 | a bad action or unknown id changes nothing; decline removes the request; accept removes it and, unless the e-mail is taken, creates an active student with its name, e-mail, hash and batch; other requests are kept |
| Portal.Portal.RemoveRequest | server.js:590 | deleting a request keeps every other request and the indexes |
| Portal.Portal.DeleteUser | server.js:616-623 | an unknown id changes nothing; otherwise the user and all their documents are gone and every other user and document stays |
| Portal.Portal.DeleteAttendance | server.js:626-635 | no date is refused; otherwise exactly the documents of that date (and batch, if given) are deleted, and the count is the number removed |
| Aggregation.BatchFilter | server.js:644-646 | the filter is set only by a whitelisted batch (after trim and lower case), and every whitelisted value sets it |
| Aggregation.NameOrder | server.js:652 | ordering by name is a total preorder |
| Aggregation.Roster | server.js:649-652 | the roster is sorted by name and holds exactly the active students of the filter, with their multiplicities |
| Aggregation.RosterMembers | server.js:649-652 | a user is on the roster iff stored and an active student in the filtered batch |
| Aggregation.BuildAttMap | server.js:656-658 | the loop builds the map in which each user's last document wins |
| Aggregation.LatestByUserLookup | server.js:657-658 | with one document per user, the map has exactly those users, each with their document |
| Aggregation.DocsOnDistinct | server.js:85 | the documents of one day have distinct users |
| Aggregation.LatestIsDayDoc | server.js:656-658 | the map entry of a user is that user's document for the day |
| Aggregation.JoinRow | server.js:660-676 | a row carries the student's identity; a missing document reads as logged out with nothing set, otherwise its fields are copied |
| Aggregation.AttendanceByDate | server.js:639-683 | the date defaults to today; one row per roster student, in name order, joined with that day's document |
| Aggregation.LineFor | server.js:697-716 | a report row names the student, batch and date, writes overtime as TRUE or FALSE, copies the status, the four times and the lunch duration of the day's document, and has the logged-out status and empty cells when there is none |
| Aggregation.DateBlock | server.js:697-716 | one date's rows follow the roster order |
| Aggregation.ReportBodyLength | server.js:697-716 | the report body has one row per date and student |
| Aggregation.ReportBodyOffset | server.js:697-716 | the row at offset (date index × students + student index) is that student's row for that date |
| Aggregation.ReportBodyAt | server.js:697-716 | the same as a product: the body has dates × students rows, and row di·n+si is student si on date di |
| Aggregation.DateRows | server.js:699-715 | the inner loop produces that date's block |
| Aggregation.ReportRows | server.js:696-716 | the nested loops produce the header followed by the body |
| Aggregation.ReportDates | server.js:688-694 | a single date gives itself, a missing range gives today, an unreadable range gives nothing, and otherwise one label per day from start to end |
| Aggregation.Report | server.js:687-721 | the report is the header plus one row per date and active student |
| Aggregation.NewerFirstOrder | server.js:741 | newest-first ordering is a total preorder |
| Aggregation.RecentDocs | server.js:739-742 | the first (at most) 15 of all toggled documents sorted newest first: a prefix of that sorted list, so a sub-multiset of the stored documents |
| Aggregation.ToggledNewestFirst | server.js:739-741 | the toggled documents exactly, sorted newest first |
| Aggregation.RecentDocsAreNewest | server.js:739-742 | a toggled document left out means the list is full and it is no newer than any listed one |
| Aggregation.ActivityOf | server.js:743-749 | an activity entry has the document's status and time, and the user's name and e-mail, or 'Unknown' |
| Aggregation.RecentActivity | server.js:737-755 | entry i is the activity of the i-th newest toggled record: at most 15 entries, with non-increasing timestamps |
| Aggregation.DigitPrefix | server.js:216 | the leading digits of a text that `parseInt` reads |
| Aggregation.ParseIntOfNumeral | server.js:216 | `parseInt` reads back any integer numeral |
| Aggregation.MonthText | server.js:216 | the month text is at least two characters |
| Aggregation.MonthPrefixOfNumber | server.js:216-219 | a month number is zero-padded to two digits after the year and a dash |
| Aggregation.DateOrder | server.js:220 | ordering by day key is a total preorder |
| Aggregation.MonthDocs | server.js:219-220 | exactly the user's documents whose day key starts with the prefix, sorted by day |
| Aggregation.UserRecords | server.js:207-235 | missing parameters are refused iff user, year or month is absent; otherwise one row per selected document in day order |
| Aggregation.UserRecordsInMonth | server.js:219-228 | every returned record is in the month and the records are in day order |
| AdminDashboard.FromServer | server.js:660-676 | the dashboard sees the batch name and the clock times that the server sent |
| AdminDashboard.DeadlineForBatch | public/js/admin_dashboard.js:75-79 | the deadline is the day at the batch's hour and minute (minute defaulting to 0), or 10:00 for a batch with no configuration |
| AdminDashboard.DashboardUsesServerDeadlines | public/js/admin_dashboard.js:75-81 | for any server row the dashboard deadline is the batch's configured deadline |
| AdminDashboard.MissingBatchIsBatch1 | public/js/admin_dashboard.js:81 | a student without a batch is judged by batch1's deadline |
| AdminDashboard.StatusBadge | public/js/admin_dashboard.js:83-97 | 'Not logged in' iff neither clock time exists; otherwise judged from the clock-in, or the clock-out without it |
| AdminDashboard.LunchCellOf | public/js/admin_dashboard.js:102-121 | the dash iff no lunch field is set; otherwise start and end, with OVERTIME or OK iff a duration exists, chosen by the overtime flag |
| AdminDashboard.TimeCellOf | public/js/admin_dashboard.js:124-145 | the dash iff neither clock time exists; otherwise both times |
| AdminDashboard.RowFor | public/js/admin_dashboard.js:54-147 | a row shows the name, e-mail, badge against the batch's deadline, lunch cell and time cell |
| AdminDashboard.AttendanceTable.constructor | public/js/admin_dashboard.js:43 | the table starts empty |
| AdminDashboard.AttendanceTable.Render | public/js/admin_dashboard.js:40-149 | an empty list gives the single 'No students found' row; otherwise one row per student in list order |
| AdminDashboard.AttendanceQuery | public/js/admin_dashboard.js:20 | the date defaults to today, and the batch is sent iff it is non-empty and not 'all' |
| AdminDashboard.QueryReachesServerFilter | public/js/admin_dashboard.js:20 | a batch chosen in the dashboard becomes the server's filter; 'all' means none |
| AttendanceDecorator.PageDeadline | public/js/admin_attendance_decorate.js:43-51 | 10:00 on the picked day, or today without a pick |
| AttendanceDecorator.VerdictOf | public/js/admin_attendance_decorate.js:62-108 | missing text gives 'Not logged in', unparsable text 'No time', and otherwise the parsed time is judged against the deadline |
| AttendanceDecorator.DecorateRowEffect | public/js/admin_attendance_decorate.js:53-110 | short rows are untouched; otherwise only the action and timestamp cells change, and exactly one verdict class is added |
| AttendanceDecorator.Decorate | public/js/admin_attendance_decorate.js:39-110 | every row of the table is decorated in place |
| AttendanceDecorator.LateRowMeaning | public/js/admin_attendance_decorate.js:92-109 | a row is marked late iff its parsed time is after the deadline, and on time iff at or before it |
| AttendanceDecorator.TimestampKeptWhenUnparsed | public/js/admin_attendance_decorate.js:81-88 | an unparsable timestamp leaves every cell but the action unchanged |
| AttendanceDecorator.AgreesWithDashboardOnBatch1 | public/js/admin_attendance_decorate.js:12-13 | the fixed deadline equals the dashboard's batch1 deadline |
| AttendanceDecorator.DisagreesWithDashboardOnBatch3 | public/js/admin_attendance_decorate.js:12-13 | a 09:45 arrival is on time here and 15 minutes late on the dashboard for batch3 |
| AttendanceDecorator.Plural | public/js/admin_attendance_decorate.js:25 | the text is the number, a space and the word, with an 's' unless the number is 1; the default word is not modelled because no page calls it |
| StudentDashboard.ToDate | public/js/student_dashboard.js:29-32 | a truthy value gives its parsed instant (or none when it does not parse); a falsy one gives none |
| StudentDashboard.MergeLunchKeys | public/js/student_dashboard.js:194-198 | merging the lunch keys copies exactly the lunch fields that the response has |
| StudentDashboard.MergeAllKeys | public/js/student_dashboard.js:125-127 | the merge copies exactly the keys the response has and keeps every other field |
| StudentDashboard.MergeKeysAppend | public/js/student_dashboard.js:125-127 | merging a key list in two parts equals merging it at once |
| StudentDashboard.Repair | public/js/student_dashboard.js:129-133 | afterwards no clock-out is earlier than the clock-in, and without a lunch end there is no duration and no overtime; nothing else changes |
| StudentDashboard.RepairClearsOnlyEarlierClockOut | public/js/student_dashboard.js:129-131 | the clock-out is cleared iff it is earlier than the clock-in |
| StudentDashboard.RepairIdempotent | public/js/student_dashboard.js:129-133 | repairing twice is repairing once |
| StudentDashboard.Short | public/js/student_dashboard.js:33-36 | '—' for no date, otherwise the local text of the date |
| StudentDashboard.NextView | public/js/student_dashboard.js:45-98 | pill and button follow the status; the lunch card is hidden iff start, end and duration are all absent; start is disabled and end enabled iff lunch has started and not ended; a duration is shown only after the end |
| StudentDashboard.RepairedViewShowsDurationOnlyAfterEnd | public/js/student_dashboard.js:76-89 | after a repair, a shown lunch card without an end shows no duration |
| StudentDashboard.TickOf | public/js/student_dashboard.js:104-109 | no start gives no reading; overtime iff 30 whole minutes have passed; otherwise the minutes left are 30 minus the whole minutes passed, at least 1 |
| StudentDashboard.TickMonotone | public/js/student_dashboard.js:104-109 | overtime stays overtime, and the minutes left never increase |
| StudentDashboard.FloorMonotone | public/js/student_dashboard.js:106 | more elapsed time never gives fewer whole minutes |
| StudentDashboard.CounterText | public/js/student_dashboard.js:105-109 | '0 min (Overtime)', 'N min left', or empty without a start |
| StudentDashboard.EndLunchGuard | public/js/student_dashboard.js:190-192 | refused without a start, or when now is before the start |
| StudentDashboard.ToggleGuardMeaning | public/js/student_dashboard.js:148-155 | a logged-in clock-out is allowed iff now is not before the clock-in |
| StudentDashboard.Dashboard.constructor | public/js/student_dashboard.js:43 | the initial state is logged out with nothing set and the page shows its view |
| StudentDashboard.Dashboard.StopCountdown | public/js/student_dashboard.js:115 | the countdown stops and its text and overtime mark are cleared |
| StudentDashboard.Dashboard.Tick | public/js/student_dashboard.js:103-110 | one tick shows the reading and stops the timer on overtime |
| StudentDashboard.Dashboard.StartCountdown | public/js/student_dashboard.js:100-114 | the countdown runs from the start with the first reading shown |
| StudentDashboard.Dashboard.UpdateUI | public/js/student_dashboard.js:45-98 | the view follows the state; the countdown runs iff lunch is shown, started and not ended, and is stopped when hidden or ended |
| StudentDashboard.Dashboard.MergeResponse | public/js/student_dashboard.js:125-127 | the state becomes the merge of the response over the old state |
| StudentDashboard.Dashboard.FetchStatus | public/js/student_dashboard.js:118-141 | a failed request changes nothing; otherwise the state is the repaired merge, the view follows it and the countdown is redrawn from it |
| StudentDashboard.Dashboard.Toggle | public/js/student_dashboard.js:144-169 | a refused or failed clock request changes nothing; a successful one merges the reply, then the refreshed status, with the view and countdown redrawn from it; when the refresh fails the merged reply stays in the state and the view and countdown are left as they were |
| StudentDashboard.Dashboard.StartLunch | public/js/student_dashboard.js:171-185 | a failed request changes nothing; a successful one sets the start from the reply, clears end, duration and overtime, and redraws the view and countdown from the new state |
| StudentDashboard.Dashboard.EndLunch | public/js/student_dashboard.js:187-206 | a refused or failed request changes nothing; a successful one merges the lunch keys, then the refreshed status, with the view and countdown redrawn from it; when the refresh fails the merged keys stay in the state and the view and countdown are left as they were |
| Calendar.MinuteOfDay | public/js/calendar.js:43 | the local minute of the day is in 0..1439 and is the whole minutes into the day |
| Calendar.SelectedMinutes | public/js/calendar.js:38-39 | a selected minute exists only when the time text has at least two parts |
| Calendar.SelectedMinutesOfPieces | public/js/calendar.js:38-39 | hours and minutes text read as h·60+m |
| Calendar.SelectedMinutesOfPicker | public/js/calendar.js:38-39 | a picker value HH:MM reads as its minute of the day |
| Calendar.TimeFilter | public/js/calendar.js:35-45 | an empty time keeps every record; otherwise the records toggled at or before the selected minute, in order |
| Calendar.TimeFilterKeeps | public/js/calendar.js:40-45 | a record is kept iff it has a toggle time whose minute of the day is at most the selected one |
| Calendar.TimeFilterOrder | public/js/calendar.js:40-45 | the filter keeps the original order |
| Calendar.LineOf | public/js/calendar.js:51-52 | a line shows the local time, the escaped name and the status label |
| Calendar.RenderLines | public/js/calendar.js:49-54 | one line per kept record, in order |
| Calendar.CalendarPage.constructor | public/js/calendar.js:14 | the page starts blank |
| Calendar.CalendarPage.FetchData | public/js/calendar.js:11-60 | no date asks for one; failures give their messages; an empty list gives 'no records'; otherwise one line per filtered record |
| RequestsPage.FetchPending | public/js/new_request.js:14-28 | failure gives nothing, otherwise pending, else list, else requests, else the empty list |
| RequestsPage.RequestId | public/js/new_request.js:87 | the id is `_id`, else `id`, else the e-mail |
| RequestsPage.DoAction | public/js/new_request.js:35-50 | refused without a request iff the id is falsy or the action is neither accept nor decline; otherwise the path names the id and the action |
| RequestsPage.ActionPathSegments | public/js/new_request.js:39 | the request path ends with the id and the action as its own segments |
| RequestsPage.CardViewOf | public/js/new_request.js:69-79 | a card shows the escaped name, contact and batch, and request time |
| RequestsPage.RequestList.constructor | public/js/new_request.js:12 | the page starts with the loading message |
| RequestsPage.RequestList.Render | public/js/new_request.js:52-113 | failure shows the error message, the empty list the 'no requests' message, otherwise one card per request in order |
| RequestsPage.RequestList.Click | public/js/new_request.js:84-109 | a cancelled click sends nothing; a successful action removes exactly that card; a failure keeps all cards |
| RequestsPage.NoIdNeverSent | public/js/new_request.js:37 | a request with no id, `_id` or e-mail can never be acted on |
| RecordsPage.RowOf | public/js/view_data.js:22-31 | a row shows the escaped name and e-mail, the status label and the local time |
| RecordsPage.RecordsView.constructor | public/js/view_data.js:4 | the page starts loading |
| RecordsPage.RecordsView.Load | public/js/view_data.js:6-38 | a failed request falls back to local records; an empty list shows 'no records today'; otherwise one row per entry in order |
| Migration.BackfillDoc | public/js/migration-script.js:8-10 | only a document with a toggle time but neither clock time changes, getting the toggle time as clock-in if logged in, else as clock-out |
| Migration.BackfillEstablishes | public/js/migration-script.js:8-10 | afterwards no document needs the migration, and the copied time is the toggle time |
| Migration.BackfillIdempotent | public/js/migration-script.js:7-14 | a second pass changes nothing |
| Migration.BackfillKeepsTheRest | public/js/migration-script.js:8-10 | status, toggle time, lunch, user and day are kept |
| Migration.Backfill | public/js/migration-script.js:7-14 | every document is migrated in place, and the saved positions are exactly those that needed it, in order |
| Launcher.ExpectedGateway | start-if-on-wifi.js:10 | the expected gateway is EXPECTED_GATEWAY, else COMPANY_GATEWAY, else empty |
| Launcher.ExpectedSsid | start-if-on-wifi.js:11 | the expected SSID is `EXPECTED_SSID` when set, and empty iff it is not set |
| Launcher.InSame24 | start-if-on-wifi.js:85 | false when either address is missing or empty |
| Launcher.InSame24Segments | start-if-on-wifi.js:86-88 | two addresses are in the same /24 iff their first three dot-separated segments are equal |
| Launcher.InSame24Symmetric | start-if-on-wifi.js:84-89 | the subnet test is symmetric |
| Launcher.InSame24Reflexive | start-if-on-wifi.js:84-89 | a non-empty address is in its own subnet |
| Launcher.NothingConfiguredNeverStarts | start-if-on-wifi.js:143-179 | with no gateway and no SSID configured, the portal never starts |
| Launcher.Decide | start-if-on-wifi.js:143-163 | start iff the SSID contains the expected one ignoring case, or the gateway is equal, or some address shares the gateway's subnet; the reason names the first test passed and the first matching address |
| Launcher.Fields | start-if-on-wifi.js:27 | splitting on runs of white space gives at least one field, none containing white space, the first being the longest white-space-free prefix of the line |
| Launcher.FieldsOfJoin | start-if-on-wifi.js:27 | a white-space-free field followed by a run of white space splits off as the first field, and the rest splits on its own |
| Launcher.TrimmedLines | start-if-on-wifi.js:24 | one trimmed entry per output line |
| Launcher.RouteLines | start-if-on-wifi.js:24-25 | exactly the non-empty trimmed lines that start with three dotted quads, in their original order |
| Launcher.WindowsGateway | start-if-on-wifi.js:21-34 | failure or no output gives none; otherwise the third field of the first route line whose first two fields are 0.0.0.0, or none |
| Launcher.DefaultGateway | start-if-on-wifi.js:26-32 | the loop returns the third field of the first default route, or none |
| Launcher.RouteLineFields | start-if-on-wifi.js:27-28 | a route line has at least three fields, and is a default route iff its first two are 0.0.0.0 |
| Launcher.WindowsGatewayIsAddress | start-if-on-wifi.js:25-29 | a gateway found this way always starts with a dotted quad |

## Left out

- The database, the session store, the Express routing and middleware, and rendering are
  left out. Each route is a method on the in-memory collections and returns a result tag
  in place of the HTTP status and JSON.
- Login, `/api/me`, logout, the admin seeding at start-up, the delete-all routes and the
  new-requests listing (a query sorted by creation time) are left out. None of them has
  logic beyond a query.
- Password hashing is left out: the hash is an opaque string parameter.
- The attendance schema has no `notes` field, so the database drops the adjustment notes
  that the toggle and lunch-end handlers append. The model returns each note beside the
  document (`Written.note`) and does not store it.
- Portal.Portal.LunchStart: the handler reads the clock twice, and the model uses one
  instant for both readings.
- Portal.Portal.ToggleClock: the batch written is the user's batch. The source falls back to
  the document's batch, but the schema default means a stored user always has a batch.
- The invalid-id errors of the database (a cast error for a malformed id) are not modelled;
  ids are natural numbers.
- JavaScript's `String()` coercion of request fields is left out: fields are optional
  strings.
- Time zones, daylight saving and the locale printers `toISOString`, `toLocaleString` and
  `toLocaleTimeString` are left out. The start of a local day, the time-zone offset and the
  printers are parameters.
- Aggregation.ReportDates: the day-by-day calendar step is abstracted to day numbers through
  a `parseDay` and a `dayLabel` parameter.
- The CSV text encoding of the report and the URI encoding of request parameters are left
  out.
- Aggregation.MonthDocs: the `$regex` prefix match is modelled as a literal prefix test, so a
  year containing regular-expression characters is not modelled.
- Aggregation.ParseIntOfNumeral: `parseInt` is modelled on decimal digits only, without
  floating-point precision limits, and `Number` only on blank or digit text.
- `toLowerCase` is modelled on ASCII letters only.
- The records page's local-storage fallback table and its clear button are left out. The
  model records only that the page falls back.
- The DOM, toasts, alerts and button disabling are left out. Storage events, polling
  intervals and the redirect after a 401 response are left out too. The countdown keeps
  only its running flag, its text and its overtime mark.
- The launcher's operating-system calls are left out: running `route`, `ip`, `netstat` and
  `netsh`, listing interfaces and opening the browser. So are the regular-expression
  parsing of Linux and netstat output and the SSID parsing. Their results are parameters.
- Launcher.RouteLines: the route-line test checks three leading dotted quads of digits,
  which is the effect of the source's regular expression.
- Concurrency is left out: requests are handled one at a time.
- register.js, login.js, index.js, admin_requests.js and admin_new_requests.js are not part
  of this model. They are form and fetch glue, and the last is commented out.
