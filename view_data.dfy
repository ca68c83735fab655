/**
 * The records page: today's roster from the server as a table of name, email, action label
 * and last toggle time.
 */
module RecordsPage {
  import opened Common
  import opened Markup
  import opened Aggregation

  /** One table row, as the HTML it inserts for the text cells. */
  datatype RecordLine = RecordLine(nameHtml: string, emailHtml: string, action: string, timestamp: string)

  /** How the page ends up. */
  datatype Display =
    | Loading
    | LocalFallback
    | NoRecordsToday
    | Table(rows: seq<RecordLine>)

  /** The row of one roster entry; `localize` is `toLocaleString()`. */
  function RowOf(r: DailyRow, localize: Instant -> string): (row: RecordLine)
    ensures row.action == StatusLabel(r.status)
    ensures row.nameHtml == EscapeHtml(Some(r.name)) && row.emailHtml == EscapeHtml(Some(r.email))
    ensures row.timestamp == (if r.lastToggledAt.Some? then localize(r.lastToggledAt.value) else "")
  {
    RecordLine(EscapeHtml(Some(r.name)), EscapeHtml(Some(r.email)), StatusLabel(r.status),
              if r.lastToggledAt.Some? then localize(r.lastToggledAt.value) else "")
  }

  class RecordsView {
    var display: Display

    constructor ()
      ensures display == Loading
    {
      display := Loading;
    }

    /**
     * The page's load handler given the by-date response for today. A failed or thrown request
     * falls back to the browser's local records, which this model does not read.
     */
    method Load(response: ListResponse, localize: Instant -> string)
      modifies this
      ensures !response.Body? ==> display == LocalFallback
      ensures response.Body? && ListOf(response.list) == [] ==> display == NoRecordsToday
      ensures response.Body? && ListOf(response.list) != [] ==>
                var list := ListOf(response.list);
                && display.Table? && |display.rows| == |list|
                && forall i :: 0 <= i < |list| ==> display.rows[i] == RowOf(list[i], localize)
    {
      if !response.Body? {
        display := LocalFallback;
        return;
      }
      var list := ListOf(response.list);
      if |list| == 0 {
        display := NoRecordsToday;
        return;
      }
      var rows: seq<RecordLine> := [];
      for i := 0 to |list|
        invariant |rows| == i
        invariant forall j :: 0 <= j < i ==> rows[j] == RowOf(list[j], localize)
      {
        rows := rows + [RowOf(list[i], localize)];
      }
      display := Table(rows);
    }
  }
}
