/**
 * The admin dashboard's attendance table: the query it sends, the per-batch deadline it
 * judges each student against, the lateness badge, the lunch and timestamp cells, and the
 * table body it rebuilds from the server's list.
 */
module AdminDashboard {
  import opened Common
  import opened Schema
  import opened Lateness
  import opened Aggregation

  /** One entry of the `batchDeadlines` object the server sends. */
  datatype DeadlineConfig = DeadlineConfig(hour: int, minute: Option<int>)

  /** One element of the server's `list`, as the dashboard reads it (instants already parsed). */
  datatype StudentJson = StudentJson(
    name: Option<string>, email: Option<string>, batch: Option<string>,
    lastClockInAt: Option<Instant>, lastClockOutAt: Option<Instant>,
    lunchStartAt: Option<Instant>, lunchEndAt: Option<Instant>,
    lunchDurationMins: Option<int>, lunchOvertime: bool)

  /** The JSON the attendance-by-date route produces for one roster row. */
  function FromServer(r: DailyRow): (s: StudentJson)
    ensures s.batch == Some(BatchName(r.batch))
    ensures s.lastClockInAt == r.lastClockInAt && s.lastClockOutAt == r.lastClockOutAt
  {
    StudentJson(Some(r.name), Some(r.email), Some(BatchName(r.batch)),
                r.lastClockInAt, r.lastClockOutAt, r.lunchStartAt, r.lunchEndAt,
                r.lunchDurationMins, r.lunchOvertime)
  }

  /** `BATCH_DEADLINES` as the server serialises it. */
  function ServerDeadlines(): map<string, DeadlineConfig> {
    map["batch1" := DeadlineConfig(10, Some(0)),
        "batch2" := DeadlineConfig(11, Some(0)),
        "batch3" := DeadlineConfig(9, Some(30))]
  }

  /** `student.batch || 'batch1'`. */
  function StudentBatch(s: StudentJson): string {
    if Truthy(s.batch) then s.batch.value else "batch1"
  }

  /**
   * `deadlineForBatch`: the configured hour and minute (a missing or zero minute is 0) on the
   * viewed day, whose local midnight is `dayStart`, or 10:00 when the batch has no entry.
   */
  function DeadlineForBatch(deadlines: map<string, DeadlineConfig>, batch: string, dayStart: Instant): (t: Instant)
    ensures batch !in deadlines ==> t == DeadlineAt(dayStart, Deadline(10, 0))
    ensures batch in deadlines ==>
              t == dayStart + deadlines[batch].hour * MsPerHour
                   + (if deadlines[batch].minute.Some? then deadlines[batch].minute.value else 0) * MsPerMinute
  {
    if batch in deadlines then
      var cfg := deadlines[batch];
      var minute := match cfg.minute case Some(m) => m case None => 0;
      dayStart + cfg.hour * MsPerHour + minute * MsPerMinute
    else dayStart + 10 * MsPerHour
  }

  /** With the server's table, the dashboard judges every row against its own batch's deadline. */
  lemma DashboardUsesServerDeadlines(r: DailyRow, dayStart: Instant)
    ensures DeadlineForBatch(ServerDeadlines(), StudentBatch(FromServer(r)), dayStart)
            == DeadlineAt(dayStart, BatchDeadline(r.batch))
  {
    match r.batch
    case Batch1 =>
    case Batch2 =>
    case Batch3 =>
  }

  /** A row without a batch is judged as batch1. */
  lemma MissingBatchIsBatch1(s: StudentJson, dayStart: Instant)
    requires !Truthy(s.batch)
    ensures DeadlineForBatch(ServerDeadlines(), StudentBatch(s), dayStart) == DeadlineAt(dayStart, BatchDeadline(Batch1))
  {
    assert StudentBatch(s) == "batch1";
  }

  datatype Badge = NotLoggedIn | Punctual(p: Punctuality)

  /** The status badge: judged on the clock-in, else the clock-out, else 'Not logged in'. */
  function StatusBadge(s: StudentJson, deadline: Instant): (b: Badge)
    ensures b.NotLoggedIn? <==> s.lastClockInAt.None? && s.lastClockOutAt.None?
    ensures s.lastClockInAt.Some? ==> b == Punctual(Classify(s.lastClockInAt.value, deadline))
    ensures s.lastClockInAt.None? && s.lastClockOutAt.Some? ==> b == Punctual(Classify(s.lastClockOutAt.value, deadline))
  {
    var ref := if s.lastClockInAt.Some? then s.lastClockInAt else s.lastClockOutAt;
    match ref
    case None => NotLoggedIn
    case Some(t) => Punctual(Classify(t, deadline))
  }

  datatype LunchVerdict = LunchOvertime(mins: int) | LunchOk(mins: int)

  /** The lunch cell: '—', or the start and end lines and, once a duration exists, its verdict. */
  datatype LunchCell = NoLunch | LunchBlock(start: Option<Instant>, end: Option<Instant>, verdict: Option<LunchVerdict>)

  function LunchCellOf(s: StudentJson): (c: LunchCell)
    ensures c.NoLunch? <==> s.lunchStartAt.None? && s.lunchEndAt.None? && s.lunchDurationMins.None?
    ensures c.LunchBlock? ==> c.start == s.lunchStartAt && c.end == s.lunchEndAt
    ensures c.LunchBlock? ==> (c.verdict.Some? <==> s.lunchDurationMins.Some?)
    ensures c.LunchBlock? && c.verdict.Some? ==>
              && c.verdict.value.mins == s.lunchDurationMins.value
              && (c.verdict.value.LunchOvertime? <==> s.lunchOvertime)
  {
    if s.lunchStartAt.None? && s.lunchEndAt.None? && s.lunchDurationMins.None? then NoLunch
    else
      var verdict := match s.lunchDurationMins
        case None => None
        case Some(d) => Some(if s.lunchOvertime then LunchOvertime(d) else LunchOk(d));
      LunchBlock(s.lunchStartAt, s.lunchEndAt, verdict)
  }

  /** The timestamp cell: the In and Out blocks that exist, or '—' when neither does. */
  datatype TimeCell = NoTimes | TimeBlocks(clockIn: Option<Instant>, clockOut: Option<Instant>)

  function TimeCellOf(s: StudentJson): (c: TimeCell)
    ensures c.NoTimes? <==> s.lastClockInAt.None? && s.lastClockOutAt.None?
    ensures c.TimeBlocks? ==> c.clockIn == s.lastClockInAt && c.clockOut == s.lastClockOutAt
  {
    if s.lastClockInAt.None? && s.lastClockOutAt.None? then NoTimes
    else TimeBlocks(s.lastClockInAt, s.lastClockOutAt)
  }

  datatype TableRow =
    | NoStudentsRow(date: string)
    | StudentRow(name: string, email: string, badge: Badge, lunch: LunchCell, time: TimeCell)

  /** The row `renderAttendanceRows` builds for one student of the viewed day. */
  function RowFor(s: StudentJson, deadlines: map<string, DeadlineConfig>, dayStart: Instant): (r: TableRow)
    ensures r.StudentRow?
    ensures r.name == (if Truthy(s.name) then s.name.value else "")
    ensures r.email == (if Truthy(s.email) then s.email.value else "")
    ensures r.badge == StatusBadge(s, DeadlineForBatch(deadlines, StudentBatch(s), dayStart))
    ensures r.lunch == LunchCellOf(s) && r.time == TimeCellOf(s)
  {
    StudentRow(if Truthy(s.name) then s.name.value else "",
               if Truthy(s.email) then s.email.value else "",
               StatusBadge(s, DeadlineForBatch(deadlines, StudentBatch(s), dayStart)),
               LunchCellOf(s), TimeCellOf(s))
  }

  /** The table body of the attendance view. */
  class AttendanceTable {
    var rows: seq<TableRow>

    constructor ()
      ensures rows == []
    {
      rows := [];
    }

    /**
     * `renderAttendanceRows(list, dateStr, batchDeadlines)`: one 'No students found' row for an
     * empty list, otherwise one row per student in list order. `dayStart` is the local
     * midnight of `dateStr`.
     */
    method Render(list: seq<StudentJson>, dateStr: string, deadlines: map<string, DeadlineConfig>, dayStart: Instant)
      modifies this
      ensures list == [] ==> rows == [NoStudentsRow(dateStr)]
      ensures list != [] ==> |rows| == |list| && forall i :: 0 <= i < |list| ==> rows[i] == RowFor(list[i], deadlines, dayStart)
    {
      rows := [];
      if list == [] {
        rows := rows + [NoStudentsRow(dateStr)];
        return;
      }
      for i := 0 to |list|
        invariant |rows| == i
        invariant forall j :: 0 <= j < i ==> rows[j] == RowFor(list[j], deadlines, dayStart)
      {
        rows := rows + [RowFor(list[i], deadlines, dayStart)];
      }
    }
  }

  /** The query of `fetchAttendance`: the date (today when empty) and the batch unless empty or 'all'. */
  datatype Query = Query(date: string, batch: Option<string>)

  function AttendanceQuery(date: Option<string>, today: string, batch: Option<string>): (q: Query)
    ensures q.date == (if Truthy(date) then date.value else today)
    ensures q.batch.Some? <==> Truthy(batch) && batch.value != "all"
    ensures q.batch.Some? ==> q.batch == batch
  {
    Query(if Truthy(date) then date.value else today,
          if Truthy(batch) && batch.value != "all" then batch else None)
  }

  /** Each choice of the batch selector reaches the server as the filter it names, and 'all' as none. */
  lemma QueryReachesServerFilter(choice: string, today: string)
    requires choice == "all" || ParseBatch(choice).Some?
    ensures BatchFilter(AttendanceQuery(None, today, Some(choice)).batch) == ParseBatch(choice)
  {
    var q := AttendanceQuery(None, today, Some(choice));
    if choice != "all" {
      assert q.batch == Some(choice);
      NoSpaceTrim(choice);
      LowerOfBatchName(choice);
    }
  }

  lemma NoSpaceTrim(s: string)
    requires s == "batch1" || s == "batch2" || s == "batch3"
    ensures Strings.Trim(s) == s
  {
    assert forall i :: 0 <= i < |s| ==> !Strings.IsSpace(s[i]);
    Strings.TrimNoSpace(s);
  }

  lemma LowerOfBatchName(s: string)
    requires s == "batch1" || s == "batch2" || s == "batch3"
    ensures Strings.ToLower(s) == s
  {
    var l := Strings.ToLower(s);
    assert forall i :: 0 <= i < |s| ==> l[i] == s[i];
  }
}
