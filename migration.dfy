/**
 * The one-off migration: attendance documents that carry only the last toggle time get it
 * copied into the clock-in or clock-out field that matches their status.
 */
module Migration {
  import opened Common
  import opened Schema

  /** A document the migration touches: no clock-in, no clock-out, but a last toggle. */
  predicate NeedsBackfill(d: AttendanceDoc) {
    d.lastClockInAt.None? && d.lastClockOutAt.None? && d.lastToggledAt.Some?
  }

  /** The migration of one document. */
  function BackfillDoc(d: AttendanceDoc): (r: AttendanceDoc)
    ensures !NeedsBackfill(d) ==> r == d
    ensures NeedsBackfill(d) && d.status == LoggedIn ==> r == d.(lastClockInAt := d.lastToggledAt)
    ensures NeedsBackfill(d) && d.status != LoggedIn ==> r == d.(lastClockOutAt := d.lastToggledAt)
  {
    if !NeedsBackfill(d) then d
    else if d.status == LoggedIn then d.(lastClockInAt := d.lastToggledAt)
    else d.(lastClockOutAt := d.lastToggledAt)
  }

  /** After the migration no document needs it, and the copied time is the last toggle. */
  lemma BackfillEstablishes(d: AttendanceDoc)
    ensures !NeedsBackfill(BackfillDoc(d))
    ensures NeedsBackfill(d) ==>
              (if d.status == LoggedIn then BackfillDoc(d).lastClockInAt else BackfillDoc(d).lastClockOutAt)
              == d.lastToggledAt
  {
  }

  /** Running the migration twice changes nothing the first run did not. */
  lemma BackfillIdempotent(d: AttendanceDoc)
    ensures BackfillDoc(BackfillDoc(d)) == BackfillDoc(d)
  {
    BackfillEstablishes(d);
  }

  /** The migration keeps the status, the toggle time, the lunch fields, the user and the day. */
  lemma BackfillKeepsTheRest(d: AttendanceDoc)
    ensures var r := BackfillDoc(d);
            && r.userId == d.userId && r.date == d.date && r.status == d.status
            && r.lastToggledAt == d.lastToggledAt && r.batch == d.batch
            && r.lunchStartAt == d.lunchStartAt && r.lunchEndAt == d.lunchEndAt
            && r.lunchDurationMins == d.lunchDurationMins && r.lunchOvertime == d.lunchOvertime
  {
  }

  /**
   * The migration over every document, each saved in place. `updated` lists, in order, the
   * positions of the documents it saved.
   */
  method Backfill(docs: array<AttendanceDoc>) returns (updated: seq<nat>)
    modifies docs
    ensures forall i :: 0 <= i < docs.Length ==> docs[i] == BackfillDoc(old(docs[i]))
    ensures forall k :: 0 <= k < |updated| ==> updated[k] < docs.Length && NeedsBackfill(old(docs[updated[k]]))
    ensures forall i :: 0 <= i < docs.Length && NeedsBackfill(old(docs[i])) ==> i in updated
    ensures forall k, l :: 0 <= k < l < |updated| ==> updated[k] < updated[l]
  {
    ghost var before := docs[..];
    updated := [];
    for i := 0 to docs.Length
      invariant forall j :: 0 <= j < i ==> docs[j] == BackfillDoc(before[j])
      invariant forall j :: i <= j < docs.Length ==> docs[j] == before[j]
      invariant forall k :: 0 <= k < |updated| ==> updated[k] < i && NeedsBackfill(before[updated[k]])
      invariant forall j :: 0 <= j < i && NeedsBackfill(before[j]) ==> j in updated
      invariant forall k, l :: 0 <= k < l < |updated| ==> updated[k] < updated[l]
    {
      var d := docs[i];
      if NeedsBackfill(d) {
        docs[i] := BackfillDoc(d);
        updated := updated + [i];
      }
    }
  }
}
