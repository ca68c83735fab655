/**
 * The portal's stored entities: users, pending registration requests and daily attendance
 * documents, with the fixed batch list and the per-batch clock-in deadlines.
 */
module Schema {
  import opened Common
  import opened Collections

  /** A document id (an ObjectId in the database). */
  type UserId = nat

  datatype Role = Student | Admin
  datatype AccountStatus = Pending | Active | Declined
  datatype Batch = Batch1 | Batch2 | Batch3
  datatype Status = LoggedIn | LoggedOut

  function BatchName(b: Batch): string {
    match b
    case Batch1 => "batch1"
    case Batch2 => "batch2"
    case Batch3 => "batch3"
  }

  /** The batch whitelist `['batch1','batch2','batch3'].includes(s)`. */
  function ParseBatch(s: string): (r: Option<Batch>)
    ensures r.Some? <==> s == "batch1" || s == "batch2" || s == "batch3"
    ensures r.Some? ==> BatchName(r.value) == s
  {
    if s == "batch1" then Some(Batch1)
    else if s == "batch2" then Some(Batch2)
    else if s == "batch3" then Some(Batch3)
    else None
  }

  lemma ParseBatchName(b: Batch)
    ensures ParseBatch(BatchName(b)) == Some(b)
  {
  }

  /** A time of day, as the deadline configuration writes it. */
  datatype Deadline = Deadline(hour: nat, minute: nat)

  /** `BATCH_DEADLINES`: batch1 at 10:00, batch2 at 11:00, batch3 at 09:30. */
  function BatchDeadline(b: Batch): Deadline {
    match b
    case Batch1 => Deadline(10, 0)
    case Batch2 => Deadline(11, 0)
    case Batch3 => Deadline(9, 30)
  }

  /** The instant of a time of day on the day that starts at `dayStart` (local time, no DST shift). */
  function DeadlineAt(dayStart: Instant, d: Deadline): Instant {
    dayStart + d.hour * MsPerHour + d.minute * MsPerMinute
  }

  datatype User = User(
    id: UserId, name: string, email: string, passwordHash: string,
    role: Role, status: AccountStatus, batch: Batch)

  datatype PendingRequest = PendingRequest(
    id: UserId, name: string, email: string, passwordHash: string, batch: Batch)

  /** The annotation a handler appends when it clamps a timestamp forward. */
  datatype Note =
    | AdjustedClockOut(requested: Instant, stored: Instant)
    | AdjustedLunchEnd(requested: Instant, stored: Instant)

  /** One attendance document: one user's day (`date` is the YYYY-MM-DD key). */
  datatype AttendanceDoc = AttendanceDoc(
    userId: UserId,
    date: string,
    status: Status,
    lastToggledAt: Option<Instant>,
    lastClockInAt: Option<Instant>,
    lastClockOutAt: Option<Instant>,
    lunchStartAt: Option<Instant>,
    lunchEndAt: Option<Instant>,
    lunchDurationMins: Option<int>,
    lunchOvertime: bool,
    batch: Batch)

  /** The timestamp-ordering invariants every write path keeps. */
  ghost predicate WellFormed(d: AttendanceDoc) {
    && (d.lastClockInAt.Some? && d.lastClockOutAt.Some? ==> d.lastClockInAt.value <= d.lastClockOutAt.value)
    && (d.lunchEndAt.Some? ==> d.lunchStartAt.Some? && d.lunchStartAt.value <= d.lunchEndAt.value)
    && (d.lunchDurationMins.Some? <==> d.lunchEndAt.Some?)
    && (d.lunchDurationMins.Some? ==> d.lunchDurationMins.value >= 0)
    && (d.lunchOvertime ==> d.lunchDurationMins.Some? && d.lunchDurationMins.value > 30)
  }

  /** The unique index on (userId, date): at most one document per user and day. */
  ghost predicate UniqueDays(atts: seq<AttendanceDoc>) {
    Distinct(atts, DayKey)
  }

  function DayKey(d: AttendanceDoc): (UserId, string) {
    (d.userId, d.date)
  }
}
