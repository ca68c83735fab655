/**
 * The attendance-table decorator: for every row it reads the timestamp column, judges it
 * against a fixed 10:00 deadline, writes a status pill into the action column, rewrites the
 * timestamp column and tags the row with a status class.
 */
module AttendanceDecorator {
  import opened Common
  import opened Strings
  import opened Schema
  import opened Lateness
  import AdminDashboard

  const ActionColumn: nat := 2
  const TimestampColumn: nat := 3

  /** `DEADLINE_HOUR`:`DEADLINE_MIN`, the same for every batch. */
  const FixedDeadline: Deadline := Deadline(10, 0)

  /**
   * The deadline of the page: 10:00 on the date-picker's day when the picker holds a date,
   * else on today. `pickerDayStart` and `todayStart` are those days' local midnights.
   */
  function PageDeadline(picker: Option<string>, pickerDayStart: Instant, todayStart: Instant): (t: Instant)
    ensures t == DeadlineAt(if Truthy(picker) then pickerDayStart else todayStart, FixedDeadline)
  {
    (if Truthy(picker) then pickerDayStart else todayStart) + 10 * MsPerHour
  }

  /** An HTML table row: the text of its cells and its class list. */
  datatype Row = Row(cells: seq<string>, classes: set<string>)

  /** Timestamp text that stands for "no clock-in": empty, or mentioning 'not logged' or 'no records'. */
  predicate MissingText(t: string) {
    t == "" || Contains(ToLower(t), "not logged") || Contains(ToLower(t), "no records")
  }

  datatype Verdict = Missing | NoTime | Judged(t: Instant, p: Punctuality)

  /** How one row's timestamp text is judged; `parse` is `new Date(text)`, None when invalid. */
  function VerdictOf(tsText: string, parse: string -> Option<Instant>, deadline: Instant): (v: Verdict)
    ensures v.Missing? <==> MissingText(Trim(tsText))
    ensures v.NoTime? <==> !MissingText(Trim(tsText)) && parse(Trim(tsText)).None?
    ensures v.Judged? ==> parse(Trim(tsText)) == Some(v.t) && v.p == Classify(v.t, deadline)
  {
    var t := Trim(tsText);
    if MissingText(t) then Missing
    else match parse(t)
      case None => NoTime
      case Some(instant) => Judged(instant, Classify(instant, deadline))
  }

  /** The text of the status pill. */
  function PillText(v: Verdict): string {
    match v
    case Missing => "Not logged in"
    case NoTime => "No time"
    case Judged(_, OnTime) => "On time"
    case Judged(_, Late(n)) => "Late • " + IntToString(n) + " min"
  }

  /** The class the row is tagged with. */
  function RowClass(v: Verdict): string {
    match v
    case Missing => "att-row-missed"
    case NoTime => "att-row-missed"
    case Judged(_, OnTime) => "att-row-on-time"
    case Judged(_, Late(_)) => "att-row-late"
  }

  /** The new timestamp text; `localize` is `toLocaleString()`. */
  function TimestampText(v: Verdict, original: string, localize: Instant -> string): string {
    match v
    case Missing => "—"
    case NoTime => original
    case Judged(t, OnTime) => localize(t)
    case Judged(t, Late(n)) => localize(t) + " (" + IntToString(n) + " min late)"
  }

  /** One row of `decorateAttendanceTable`. */
  function DecorateRow(r: Row, deadline: Instant, parse: string -> Option<Instant>, localize: Instant -> string): Row {
    if |r.cells| <= TimestampColumn then r
    else
      var v := VerdictOf(r.cells[TimestampColumn], parse, deadline);
      Row(r.cells[ActionColumn := PillText(v)][TimestampColumn := TimestampText(v, r.cells[TimestampColumn], localize)],
          r.classes + {RowClass(v)})
  }

  /**
   * A row with at most three cells is left alone; otherwise only the action and timestamp
   * cells change, to the pill and the new timestamp text, and the row gains its status class.
   */
  lemma DecorateRowEffect(r: Row, deadline: Instant, parse: string -> Option<Instant>, localize: Instant -> string)
    ensures var d := DecorateRow(r, deadline, parse, localize);
            && (|r.cells| <= TimestampColumn ==> d == r)
            && (|r.cells| > TimestampColumn ==>
                  var v := VerdictOf(r.cells[TimestampColumn], parse, deadline);
                  && |d.cells| == |r.cells|
                  && (forall i :: 0 <= i < |r.cells| && i != ActionColumn && i != TimestampColumn ==> d.cells[i] == r.cells[i])
                  && d.cells[ActionColumn] == PillText(v)
                  && d.cells[TimestampColumn] == TimestampText(v, r.cells[TimestampColumn], localize)
                  && d.classes == r.classes + {RowClass(v)})
  {
  }

  /** `decorateAttendanceTable`: every row of the body decorated in place. */
  method Decorate(rows: array<Row>, deadline: Instant, parse: string -> Option<Instant>, localize: Instant -> string)
    modifies rows
    ensures forall i :: 0 <= i < rows.Length ==> rows[i] == DecorateRow(old(rows[i]), deadline, parse, localize)
  {
    ghost var before := rows[..];
    for i := 0 to rows.Length
      invariant forall j :: 0 <= j < i ==> rows[j] == DecorateRow(before[j], deadline, parse, localize)
      invariant forall j :: i <= j < rows.Length ==> rows[j] == before[j]
    {
      var d := DecorateRow(rows[i], deadline, parse, localize);
      rows[i] := d;
    }
  }

  /** A row is tagged late exactly when its timestamp parses to an instant after the deadline. */
  lemma LateRowMeaning(r: Row, deadline: Instant, parse: string -> Option<Instant>, localize: Instant -> string)
    requires |r.cells| > TimestampColumn
    ensures var v := VerdictOf(r.cells[TimestampColumn], parse, deadline);
            var text := Trim(r.cells[TimestampColumn]);
            && (RowClass(v) == "att-row-late" <==> !MissingText(text) && parse(text).Some? && parse(text).value > deadline)
            && (RowClass(v) == "att-row-on-time" <==> !MissingText(text) && parse(text).Some? && parse(text).value <= deadline)
  {
  }

  /** Only the verdicts with an instant give up the original timestamp text for a localized one. */
  lemma TimestampKeptWhenUnparsed(r: Row, deadline: Instant, parse: string -> Option<Instant>, localize: Instant -> string)
    requires |r.cells| > TimestampColumn
    requires !MissingText(Trim(r.cells[TimestampColumn])) && parse(Trim(r.cells[TimestampColumn])).None?
    ensures DecorateRow(r, deadline, parse, localize).cells == r.cells[ActionColumn := "No time"]
  {
  }

  /** The decorator's deadline agrees with the dashboard's for batch1 students. */
  lemma AgreesWithDashboardOnBatch1(dayStart: Instant)
    ensures DeadlineAt(dayStart, FixedDeadline) == AdminDashboard.DeadlineForBatch(AdminDashboard.ServerDeadlines(), "batch1", dayStart)
  {
  }

  /**
   * It disagrees for the other batches: a batch3 clock-in at 09:45 is on time here but fifteen
   * minutes late on the dashboard.
   */
  lemma DisagreesWithDashboardOnBatch3(dayStart: Instant)
    ensures var t := dayStart + 9 * MsPerHour + 45 * MsPerMinute;
            && Classify(t, DeadlineAt(dayStart, FixedDeadline)) == OnTime
            && Classify(t, AdminDashboard.DeadlineForBatch(AdminDashboard.ServerDeadlines(), "batch3", dayStart)) == Late(15)
  {
  }

  /**
   * `plural(n, s)`: `n`, a space and `s`, with an 's' appended unless `n` is 1.
   * The page script never calls it, so its default word 'min' is not modelled.
   */
  function Plural(n: int, s: string): (r: string)
    ensures StartsWith(r, IntToString(n) + " " + s)
    ensures |r| == |IntToString(n)| + 1 + |s| + (if n == 1 then 0 else 1)
    ensures n != 1 ==> r[|r| - 1] == 's'
  {
    IntToString(n) + " " + s + (if n == 1 then "" else "s")
  }
}
