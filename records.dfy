/**
 * The rules the student handlers apply to one attendance document: clock in/out toggling
 * with the clock-out clamp, lunch start, lunch end with the duration and overtime rule, and
 * the sanitised status read. Each write rule is a function of the stored document (if any)
 * and the server's current instant.
 */
module AttendanceRules {
  import opened Common
  import opened Schema

  /**
   * A document as a write handler saves it, with the adjustment note the handler set on it.
   * `notes` is not a path of the attendance schema, so the database does not keep the note.
   */
  datatype Written = Written(doc: AttendanceDoc, note: Option<Note>)

  /** The status a toggle moves to: clock in when there is no document or it is logged out. */
  function NextStatus(att: Option<AttendanceDoc>): (s: Status)
    ensures s == LoggedIn <==> att.None? || att.value.status == LoggedOut
  {
    if att.None? || att.value.status == LoggedOut then LoggedIn else LoggedOut
  }

  /** `new Attendance({ userId, date, status, lastToggledAt: now, batch })` with the schema defaults. */
  function FreshDoc(userId: UserId, date: string, status: Status, now: Instant, batch: Batch): AttendanceDoc {
    AttendanceDoc(userId, date, status, Some(now), None, None, None, None, None, false, batch)
  }

  /** The stored clock-out: `now`, raised to the clock-in when the clock-in lies after `now`. */
  function ClockOutTime(clockIn: Option<Instant>, now: Instant): (t: Instant)
    ensures t >= now && (clockIn.Some? ==> t >= clockIn.value)
    ensures t == now || (clockIn.Some? && t == clockIn.value)
  {
    if clockIn.Some? && now < clockIn.value then clockIn.value else now
  }

  predicate SameLunch(a: AttendanceDoc, b: AttendanceDoc) {
    && a.lunchStartAt == b.lunchStartAt && a.lunchEndAt == b.lunchEndAt
    && a.lunchDurationMins == b.lunchDurationMins && a.lunchOvertime == b.lunchOvertime
  }

  predicate SameClock(a: AttendanceDoc, b: AttendanceDoc) {
    && a.status == b.status && a.lastToggledAt == b.lastToggledAt
    && a.lastClockInAt == b.lastClockInAt && a.lastClockOutAt == b.lastClockOutAt
  }

  /** POST /api/student/toggle applied to the day's document `att` of a student in batch `batch`. */
  function Toggle(att: Option<AttendanceDoc>, userId: UserId, date: string, now: Instant, batch: Batch): (w: Written)
    requires att.Some? ==> att.value.userId == userId && att.value.date == date
    ensures w.doc.userId == userId && w.doc.date == date && w.doc.batch == batch
    ensures w.doc.lastToggledAt == Some(now)
    ensures w.doc.status == NextStatus(att)
    ensures w.doc.status == LoggedIn ==> w.doc.lastClockInAt == Some(now) && w.doc.lastClockOutAt.None?
    ensures w.doc.status == LoggedOut ==>
              && att.Some?
              && w.doc.lastClockInAt == att.value.lastClockInAt
              && w.doc.lastClockOutAt == Some(ClockOutTime(att.value.lastClockInAt, now))
    ensures w.note.Some? <==> w.doc.status == LoggedOut && w.doc.lastClockInAt.Some? && now < w.doc.lastClockInAt.value
    ensures w.note.Some? ==> w.note.value == AdjustedClockOut(now, w.doc.lastClockInAt.value)
    ensures att.Some? ==> SameLunch(w.doc, att.value)
    ensures att.None? ==> SameLunch(w.doc, FreshDoc(userId, date, LoggedIn, now, batch))
    ensures (att.None? || WellFormed(att.value)) ==> WellFormed(w.doc)
  {
    var next := NextStatus(att);
    var base := if att.None? then FreshDoc(userId, date, next, now, batch)
                else att.value.(status := next, lastToggledAt := Some(now), batch := batch);
    if next == LoggedIn then
      Written(base.(lastClockInAt := Some(now), lastClockOutAt := None), None)
    else
      var outTime := ClockOutTime(base.lastClockInAt, now);
      var note := if outTime != now then Some(AdjustedClockOut(now, outTime)) else None;
      Written(base.(lastClockOutAt := Some(outTime)), note)
  }

  /**
   * POST /api/student/lunch/start applied to the day's document `att`; `user` is the batch of
   * the session user, or None when that user no longer exists.
   */
  function StartLunch(att: Option<AttendanceDoc>, userId: UserId, date: string, now: Instant, user: Option<Batch>): (d: AttendanceDoc)
    requires att.Some? ==> att.value.userId == userId && att.value.date == date
    ensures d.userId == userId && d.date == date
    ensures d.lunchStartAt == Some(now) && d.lunchEndAt.None? && d.lunchDurationMins.None? && !d.lunchOvertime
    ensures att.Some? ==> SameClock(d, att.value) && d.batch == att.value.batch
    ensures att.None? ==>
              && d.status == LoggedIn && d.lastToggledAt == Some(now)
              && d.lastClockInAt.None? && d.lastClockOutAt.None?
              && d.batch == (if user.Some? then user.value else Batch1)
    ensures (att.None? || WellFormed(att.value)) ==> WellFormed(d)
  {
    var base := if att.Some? then att.value
                else FreshDoc(userId, date, LoggedIn, now, if user.Some? then user.value else Batch1);
    base.(lunchStartAt := Some(now), lunchEndAt := None, lunchDurationMins := None, lunchOvertime := false)
  }

  datatype LunchEnd = NotStarted | Ended(w: Written)

  /** The minutes a lunch from `start` to `end` lasted: `Math.round((end - start) / 60000)`. */
  function LunchMinutes(start: Instant, end: Instant): int {
    RoundMinutes(end - start)
  }

  /** A lunch counts as overtime exactly when it lasted at least thirty and a half minutes. */
  lemma OvertimeThreshold(start: Instant, end: Instant)
    requires start <= end
    ensures LunchMinutes(start, end) >= 0
    ensures LunchMinutes(start, end) > 30 <==> end - start >= 30 * MsPerMinute + 30000
  {
  }

  /** POST /api/student/lunch/end applied to the day's document `att`. */
  function EndLunch(att: Option<AttendanceDoc>, now: Instant): (r: LunchEnd)
    ensures r.NotStarted? <==> att.None? || att.value.lunchStartAt.None?
    ensures r.Ended? ==>
              var a := att.value;
              var start := a.lunchStartAt.value;
              var d := r.w.doc;
              && d.lunchStartAt == a.lunchStartAt
              && d.lunchEndAt == Some(Max(now, start))
              && d.lunchDurationMins == Some(LunchMinutes(start, Max(now, start)))
              && d.lunchDurationMins.value >= 0
              && (d.lunchOvertime <==> d.lunchDurationMins.value > 30)
              && (r.w.note.Some? <==> now < start)
              && (r.w.note.Some? ==> r.w.note.value == AdjustedLunchEnd(now, start))
              && SameClock(d, a) && d.userId == a.userId && d.date == a.date
              && d.batch == a.batch
    ensures r.Ended? && WellFormed(att.value) ==> WellFormed(r.w.doc)
  {
    if att.None? || att.value.lunchStartAt.None? then NotStarted
    else
      var a := att.value;
      var start := a.lunchStartAt.value;
      var note := if now < start then Some(AdjustedLunchEnd(now, start)) else None;
      var end := if now < start then start else now;
      var mins := RoundMinutes(end - start);
      Ended(Written(a.(lunchEndAt := Some(end),
                       lunchDurationMins := Some(if mins >= 0 then mins else 0),
                       lunchOvertime := mins > 30), note))
  }

  /** The body of GET /api/student/status (timestamps as instants instead of ISO strings). */
  datatype StatusView = StatusView(
    status: Status,
    lastClockInAt: Option<Instant>,
    lastClockOutAt: Option<Instant>,
    lunchStartAt: Option<Instant>,
    lunchEndAt: Option<Instant>,
    lunchDurationMins: Option<int>,
    lunchOvertime: bool)

  /** The later of a pair, dropped when it lies before the earlier one. */
  function NotBefore(first: Option<Instant>, second: Option<Instant>): (r: Option<Instant>)
    ensures r.Some? <==> second.Some? && (first.None? || first.value <= second.value)
    ensures r.Some? ==> r == second
  {
    if first.Some? && second.Some? && second.value < first.value then None else second
  }

  function ReadStatus(att: Option<AttendanceDoc>): (v: StatusView)
    ensures att.None? ==> v == StatusView(LoggedOut, None, None, None, None, None, false)
    ensures v.lastClockInAt.Some? && v.lastClockOutAt.Some? ==> v.lastClockInAt.value <= v.lastClockOutAt.value
    ensures v.lunchStartAt.Some? && v.lunchEndAt.Some? ==> v.lunchStartAt.value <= v.lunchEndAt.value
    ensures att.Some? ==>
              var a := att.value;
              && v.lastClockInAt == a.lastClockInAt && v.lunchStartAt == a.lunchStartAt
              && v.lunchDurationMins == a.lunchDurationMins && v.lunchOvertime == a.lunchOvertime
              && (v.lastClockOutAt.Some? <==> a.lastClockOutAt.Some? && !(a.lastClockInAt.Some? && a.lastClockOutAt.value < a.lastClockInAt.value))
              && (v.lastClockOutAt.Some? ==> v.lastClockOutAt == a.lastClockOutAt)
              && (v.lunchEndAt.Some? <==> a.lunchEndAt.Some? && !(a.lunchStartAt.Some? && a.lunchEndAt.value < a.lunchStartAt.value))
              && (v.lunchEndAt.Some? ==> v.lunchEndAt == a.lunchEndAt)
              && (v.status == LoggedIn <==> (v.lastClockInAt.Some? && v.lastClockOutAt.None?) || a.status == LoggedIn)
  {
    match att
    case None => StatusView(LoggedOut, None, None, None, None, None, false)
    case Some(a) =>
      var out := NotBefore(a.lastClockInAt, a.lastClockOutAt);
      var lunchEnd := NotBefore(a.lunchStartAt, a.lunchEndAt);
      var status := if a.lastClockInAt.Some? && out.None? then LoggedIn else a.status;
      StatusView(status, a.lastClockInAt, out, a.lunchStartAt, lunchEnd, a.lunchDurationMins, a.lunchOvertime)
  }

  /** A well-formed document is reported as stored: the status read only hides inconsistencies. */
  lemma ReadStatusOfWellFormed(a: AttendanceDoc)
    requires WellFormed(a)
    ensures ReadStatus(Some(a)).lastClockOutAt == a.lastClockOutAt
    ensures ReadStatus(Some(a)).lunchEndAt == a.lunchEndAt
  {
  }

  /** Clocking in and then out keeps the clock-in and stores the later of the two instants as the clock-out. */
  lemma ToggleTwice(att: Option<AttendanceDoc>, userId: UserId, date: string, t1: Instant, t2: Instant, batch: Batch)
    requires att.Some? ==> att.value.userId == userId && att.value.date == date
    requires att.None? || att.value.status == LoggedOut
    ensures var w1 := Toggle(att, userId, date, t1, batch);
            var w2 := Toggle(Some(w1.doc), userId, date, t2, batch);
            && w1.doc.status == LoggedIn && w2.doc.status == LoggedOut
            && w2.doc.lastClockInAt == Some(t1)
            && w2.doc.lastClockOutAt == Some(Max(t1, t2))
            && (w2.note.Some? <==> t2 < t1)
            && SameLunch(w2.doc, w1.doc)
  {
  }

  /**
   * Starting lunch with no document for the day creates a logged-in document without a clock-in,
   * so the next toggle clocks out a day that was never clocked into.
   */
  lemma ClockOutWithoutClockIn(userId: UserId, date: string, t1: Instant, t2: Instant)
    ensures var d := StartLunch(None, userId, date, t1, None);
            var w := Toggle(Some(d), userId, date, t2, Batch1);
            && d.status == LoggedIn
            && w.doc.status == LoggedOut && w.doc.lastClockInAt.None? && w.doc.lastClockOutAt == Some(t2)
  {
  }
}
