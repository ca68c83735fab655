/**
 * The calendar page: it asks for one day's roster, keeps the rows toggled up to a chosen
 * time of day, and prints one line per kept row.
 */
module Calendar {
  import opened Common
  import opened Strings
  import opened Collections
  import opened Schema
  import opened Dates
  import opened Markup
  import opened Aggregation

  const MsPerDay: int := 86400000

  /** `getHours() * 60 + getMinutes()` of instant `t` in a zone `offset` milliseconds ahead of UTC. */
  function MinuteOfDay(t: Instant, offset: int): (r: int)
    ensures 0 <= r < 1440
    ensures r * MsPerMinute <= (t + offset) % MsPerDay < r * MsPerMinute + MsPerMinute
  {
    ((t + offset) % MsPerDay) / MsPerMinute
  }

  /** `const [h, m] = time.split(':').map(Number); h * 60 + m`, None when the result is NaN. */
  function SelectedMinutes(time: string): (r: Option<int>)
    ensures r.Some? ==> |Split(time, ':')| >= 2
  {
    var parts := Split(time, ':');
    if |parts| < 2 then None
    else
      var h, m := NumberText(parts[0]), NumberText(parts[1]);
      if h.Some? && m.Some? then Some(h.value * 60 + m.value) else None
  }

  lemma SelectedMinutesOfPieces(time: string, a: string, b: string, x: int, y: int)
    requires Split(time, ':') == [a, b]
    requires NumberText(a) == Some(x) && NumberText(b) == Some(y)
    ensures SelectedMinutes(time) == Some(x * 60 + y)
  {
    var parts := Split(time, ':');
    assert |parts| == 2 && parts[0] == a && parts[1] == b;
  }

  /** The value of a time picker's "HH:MM" is its minute of the day. */
  lemma SelectedMinutesOfPicker(h: nat, m: nat)
    requires h < 24 && m < 60
    ensures SelectedMinutes(Pad2(h) + ":" + Pad2(m)) == Some(h * 60 + m)
  {
    var a, b := Pad2(h), Pad2(m);
    DigitsExclude(a, ':');
    DigitsExclude(b, ':');
    SplitTwo(a, b, ':');
    Pad2Value(h);
    Pad2Value(m);
    SelectedMinutesOfPieces(a + ":" + b, a, b, h, m);
  }

  /** The filter's test: the row was toggled, at a time of day no later than `selected`. */
  function ToggledBy(selected: int, offset: int): DailyRow -> bool {
    (r: DailyRow) => r.lastToggledAt.Some? && MinuteOfDay(r.lastToggledAt.value, offset) <= selected
  }

  /**
   * The rows the page shows for the time input `time`: every row when it is empty, and none
   * when it reads as NaN, since NaN compares false with every time of day.
   */
  function TimeFilter(rows: seq<DailyRow>, time: string, offset: int): (r: seq<DailyRow>)
    ensures time == "" ==> r == rows
    ensures time != "" && SelectedMinutes(time).Some? ==> r == Filter(rows, ToggledBy(SelectedMinutes(time).value, offset))
    ensures time != "" && SelectedMinutes(time).None? ==> r == []
  {
    if time == "" then rows
    else match SelectedMinutes(time)
      case None => []
      case Some(selected) => Filter(rows, ToggledBy(selected, offset))
  }

  /** With a time chosen, a row is kept exactly when it was toggled no later than that time of day. */
  lemma TimeFilterKeeps(rows: seq<DailyRow>, time: string, offset: int, x: DailyRow)
    requires time != "" && SelectedMinutes(time).Some?
    ensures x in TimeFilter(rows, time, offset) <==>
              x in rows && x.lastToggledAt.Some?
              && MinuteOfDay(x.lastToggledAt.value, offset) <= SelectedMinutes(time).value
  {
    var p := ToggledBy(SelectedMinutes(time).value, offset);
    FilterMultiset(rows, p);
    assert x in TimeFilter(rows, time, offset) <==> multiset(Filter(rows, p))[x] > 0;
  }

  /** The filter keeps the page's order: filtering a concatenation filters each part in turn. */
  lemma TimeFilterOrder(a: seq<DailyRow>, b: seq<DailyRow>, time: string, offset: int)
    ensures TimeFilter(a + b, time, offset) == TimeFilter(a, time, offset) + TimeFilter(b, time, offset)
  {
    if time != "" {
      match SelectedMinutes(time)
      case None =>
      case Some(selected) => FilterConcat(a, b, ToggledBy(selected, offset));
    }
  }

  /** One printed line: the toggle's local time of day, the escaped name and the action label. */
  datatype Line = Line(time: string, nameHtml: string, action: string)

  /** How `fetchData` leaves the display. */
  datatype Display =
    | Blank
    | PickDate
    | FetchFailed
    | NetworkError
    | NoRecords(date: string)
    | Lines(lines: seq<Line>)

  /** The line of one row; `timeOfDay` is `toLocaleTimeString()`. */
  function LineOf(r: DailyRow, timeOfDay: Instant -> string): (l: Line)
    ensures l.action == StatusLabel(r.status)
    ensures l.nameHtml == EscapeHtml(Some(r.name))
    ensures l.time == (if r.lastToggledAt.Some? then timeOfDay(r.lastToggledAt.value) else "")
  {
    Line(if r.lastToggledAt.Some? then timeOfDay(r.lastToggledAt.value) else "", EscapeHtml(Some(r.name)), StatusLabel(r.status))
  }

  /** The `forEach` that appends one line per kept row, in order. */
  method RenderLines(kept: seq<DailyRow>, timeOfDay: Instant -> string) returns (lines: seq<Line>)
    ensures |lines| == |kept|
    ensures forall i :: 0 <= i < |kept| ==> lines[i] == LineOf(kept[i], timeOfDay)
  {
    lines := [];
    for i := 0 to |kept|
      invariant |lines| == i
      invariant forall j :: 0 <= j < i ==> lines[j] == LineOf(kept[j], timeOfDay)
    {
      lines := lines + [LineOf(kept[i], timeOfDay)];
    }
  }

  class CalendarPage {
    var display: Display

    constructor ()
      ensures display == Blank
    {
      display := Blank;
    }

    /**
     * `fetchData` for the date input `date` and time input `time`; `response` is what the
     * by-date request returns (it is not sent when no date is chosen).
     */
    method FetchData(date: string, time: string, response: ListResponse, offset: int, timeOfDay: Instant -> string)
      modifies this
      ensures date == "" ==> display == PickDate
      ensures date != "" && response.HttpError? ==> display == FetchFailed
      ensures date != "" && response.Threw? ==> display == NetworkError
      ensures date != "" && response.Body? && ListOf(response.list) == [] ==> display == NoRecords(date)
      ensures date != "" && response.Body? && ListOf(response.list) != [] ==>
                var kept := TimeFilter(ListOf(response.list), time, offset);
                && display.Lines? && |display.lines| == |kept|
                && forall i :: 0 <= i < |kept| ==> display.lines[i] == LineOf(kept[i], timeOfDay)
    {
      if date == "" {
        display := PickDate;
        return;
      }
      match response {
        case HttpError(_) =>
          display := FetchFailed;
        case Threw =>
          display := NetworkError;
        case Body(list) =>
          var records := ListOf(list);
          if |records| == 0 {
            display := NoRecords(date);
            return;
          }
          var lines := RenderLines(TimeFilter(records, time, offset), timeOfDay);
          display := Lines(lines);
      }
    }
  }
}
