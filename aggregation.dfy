/**
 * The admin read views the server computes from snapshots of the collections: the daily
 * roster joined with the day's attendance, the report rows, the recent-activity feed and
 * one student's records for a month.
 */
module Aggregation {
  import opened Common
  import opened Strings
  import opened Collections
  import opened Schema
  import opened Portal

  /** The batch query parameter after `trim().toLowerCase()` and the whitelist; None means no filter. */
  function BatchFilter(raw: Option<string>): (r: Option<Batch>)
    ensures r.Some? ==> Truthy(raw) && ToLower(Trim(raw.value)) == BatchName(r.value)
    ensures Truthy(raw) && ParseBatch(ToLower(Trim(raw.value))).Some? ==> r.Some?
  {
    if Truthy(raw) then ParseBatch(ToLower(Trim(raw.value))) else None
  }

  /** `{ role: 'student', status: 'active' }`, with the batch added when filtering. */
  predicate OnRoster(u: User, filter: Option<Batch>) {
    u.role == Student && u.status == Active && (filter.None? || u.batch == filter.value)
  }

  predicate NameLe(a: User, b: User) {
    StrLe(a.name, b.name)
  }

  lemma NameOrder()
    ensures TotalPreorder(NameLe)
  {
    forall a: User, b: User ensures NameLe(a, b) || NameLe(b, a) {
      StrLeTotal(a.name, b.name);
    }
    forall a: User, b: User, c: User | NameLe(a, b) && NameLe(b, c) ensures NameLe(a, c) {
      StrLeTransitive(a.name, b.name, c.name);
    }
  }

  /** `User.find(query).sort({ name: 1 })`: the matching users, ordered by name. */
  function Roster(users: seq<User>, filter: Option<Batch>): (r: seq<User>)
    ensures SortedBy(r, NameLe)
    ensures forall u :: multiset(r)[u] == if OnRoster(u, filter) then multiset(users)[u] else 0
  {
    var member := (u: User) => OnRoster(u, filter);
    NameOrder();
    FilterMultiset(users, member);
    SortBy(Filter(users, member), NameLe)
  }

  /** Every matching user is on the roster and nobody else is. */
  lemma RosterMembers(users: seq<User>, filter: Option<Batch>, u: User)
    ensures u in Roster(users, filter) <==> u in users && OnRoster(u, filter)
  {
    var r := Roster(users, filter);
    assert u in r <==> multiset(r)[u] > 0;
    assert u in users <==> multiset(users)[u] > 0;
  }

  /** `Attendance.find({ date })`. */
  function DocsOn(atts: seq<AttendanceDoc>, date: string): seq<AttendanceDoc> {
    Filter(atts, (d: AttendanceDoc) => d.date == date)
  }

  /** The `attMap` a `forEach` over `docs` fills: a later document for the same user replaces an earlier one. */
  function LatestByUser(docs: seq<AttendanceDoc>): map<UserId, AttendanceDoc> {
    if docs == [] then map[]
    else LatestByUser(docs[..|docs| - 1])[docs[|docs| - 1].userId := docs[|docs| - 1]]
  }

  method BuildAttMap(docs: seq<AttendanceDoc>) returns (m: map<UserId, AttendanceDoc>)
    ensures m == LatestByUser(docs)
  {
    m := map[];
    for i := 0 to |docs|
      invariant m == LatestByUser(docs[..i])
    {
      assert docs[..i + 1][..i] == docs[..i];
      m := m[docs[i].userId := docs[i]];
    }
    assert docs[..|docs|] == docs;
  }

  function Get(m: map<UserId, AttendanceDoc>, id: UserId): Option<AttendanceDoc> {
    if id in m then Some(m[id]) else None
  }

  function DocUser(d: AttendanceDoc): UserId { d.userId }

  /** With one document per user, the map holds exactly that document for each user. */
  lemma {:induction false} LatestByUserLookup(docs: seq<AttendanceDoc>, u: UserId)
    requires Distinct(docs, DocUser)
    ensures u in LatestByUser(docs) <==> exists i :: 0 <= i < |docs| && docs[i].userId == u
    ensures forall i :: 0 <= i < |docs| && docs[i].userId == u ==> LatestByUser(docs)[u] == docs[i]
  {
    if docs != [] {
      var front := docs[..|docs| - 1];
      assert Distinct(front, DocUser);
      LatestByUserLookup(front, u);
      forall i | 0 <= i < |front| && front[i].userId == u ensures docs[i].userId == u {
      }
      forall i | 0 <= i < |docs| - 1 && docs[i].userId == u ensures front[i].userId == u {
      }
    }
  }

  /** The unique (userId, date) index leaves at most one document per user on a day. */
  lemma DocsOnDistinct(atts: seq<AttendanceDoc>, date: string)
    requires UniqueDays(atts)
    ensures Distinct(DocsOn(atts, date), DocUser)
  {
    var p := (d: AttendanceDoc) => d.date == date;
    FilterDistinct(atts, p, DayKey);
    var on := DocsOn(atts, date);
    forall i, j | 0 <= i < j < |on| ensures DocUser(on[i]) != DocUser(on[j]) {
      assert DayKey(on[i]) != DayKey(on[j]);
    }
  }

  /** Under the unique index the map lookup is the single-document lookup of the toggle handlers. */
  lemma LatestIsDayDoc(atts: seq<AttendanceDoc>, date: string, u: UserId)
    requires UniqueDays(atts)
    ensures Get(LatestByUser(DocsOn(atts, date)), u) == DayDoc(atts, u, date)
  {
    var p := (d: AttendanceDoc) => d.date == date;
    var on := DocsOn(atts, date);
    DocsOnDistinct(atts, date);
    LatestByUserLookup(on, u);
    match DayDoc(atts, u, date)
    case Some(d) =>
      FilterKeeps(atts, p, d);
      var i :| 0 <= i < |on| && on[i] == d;
      assert on[i].userId == u;
    case None =>
      forall i | 0 <= i < |on| ensures on[i].userId != u {
        assert on[i] in atts && on[i].date == date;
      }
  }

  /** One row of the attendance-by-date list. */
  datatype DailyRow = DailyRow(
    id: UserId, name: string, email: string, batch: Batch,
    status: Status,
    lastToggledAt: Option<Instant>,
    lastClockInAt: Option<Instant>,
    lastClockOutAt: Option<Instant>,
    lunchStartAt: Option<Instant>,
    lunchEndAt: Option<Instant>,
    lunchDurationMins: Option<int>,
    lunchOvertime: bool)

  /** A student's row: the roster fields, and the day's document fields or the logged-out defaults. */
  function JoinRow(s: User, a: Option<AttendanceDoc>): (r: DailyRow)
    ensures r.id == s.id && r.name == s.name && r.email == s.email && r.batch == s.batch
    ensures a.None? ==> && r.status == LoggedOut && r.lastToggledAt.None?
                        && r.lastClockInAt.None? && r.lastClockOutAt.None?
                        && r.lunchStartAt.None? && r.lunchEndAt.None?
                        && r.lunchDurationMins.None? && !r.lunchOvertime
    ensures a.Some? ==> && r.status == a.value.status && r.lastToggledAt == a.value.lastToggledAt
                        && r.lastClockInAt == a.value.lastClockInAt && r.lastClockOutAt == a.value.lastClockOutAt
                        && r.lunchStartAt == a.value.lunchStartAt && r.lunchEndAt == a.value.lunchEndAt
                        && r.lunchDurationMins == a.value.lunchDurationMins && r.lunchOvertime == a.value.lunchOvertime
  {
    match a
    case None => DailyRow(s.id, s.name, s.email, s.batch, LoggedOut, None, None, None, None, None, None, false)
    case Some(d) =>
      DailyRow(s.id, s.name, s.email, s.batch, d.status, d.lastToggledAt, d.lastClockInAt, d.lastClockOutAt,
               d.lunchStartAt, d.lunchEndAt, d.lunchDurationMins, d.lunchOvertime)
  }

  datatype DailyView = DailyView(date: string, batch: Option<Batch>, list: seq<DailyRow>)

  /**
   * GET /api/admin/attendance-by-date over the snapshots `users` and `atts`; `dateParam` is the
   * date query ("" when absent) and `today` the server's current date.
   */
  method AttendanceByDate(users: seq<User>, atts: seq<AttendanceDoc>, dateParam: string, today: string, rawBatch: Option<string>)
    returns (v: DailyView)
    ensures v.date == if dateParam != "" then dateParam else today
    ensures v.batch == BatchFilter(rawBatch)
    ensures var roster := Roster(users, v.batch);
            && |v.list| == |roster|
            && forall i :: 0 <= i < |roster| ==> v.list[i] == JoinRow(roster[i], Get(LatestByUser(DocsOn(atts, v.date)), roster[i].id))
    ensures forall i, j :: 0 <= i < j < |v.list| ==> StrLe(v.list[i].name, v.list[j].name)
  {
    var date := if dateParam != "" then dateParam else today;
    var batchFilter := BatchFilter(rawBatch);
    var students := Roster(users, batchFilter);
    var attMap := BuildAttMap(DocsOn(atts, date));
    var list := seq(|students|, i requires 0 <= i < |students| => JoinRow(students[i], Get(attMap, students[i].id)));
    v := DailyView(date, batchFilter, list);
  }

  /** The header row of the report. */
  const ReportHeader: seq<string> :=
    ["Name", "Email", "Batch", "Date", "Status", "LastClockInAt", "LastClockOutAt",
     "LunchStartAt", "LunchEndAt", "LunchDurationMins", "LunchOvertime"]

  /** A report row before CSV encoding; None is an empty cell. */
  datatype ReportRow =
    | HeaderRow(columns: seq<string>)
    | ReportLine(
        name: string, email: string, batch: string, date: string, status: Status,
        clockIn: Option<Instant>, clockOut: Option<Instant>, lunchStart: Option<Instant>, lunchEnd: Option<Instant>,
        lunchDurationMins: Option<int>, lunchOvertime: string)

  function LineFor(s: User, date: string, a: Option<AttendanceDoc>): (r: ReportRow)
    ensures r.ReportLine? && r.name == s.name && r.email == s.email && r.date == date
    ensures r.batch == BatchName(s.batch)
    ensures r.lunchOvertime == "TRUE" <==> a.Some? && a.value.lunchOvertime
    ensures r.lunchOvertime == "TRUE" || r.lunchOvertime == "FALSE"
    ensures a.None? ==> r.status == LoggedOut && r.clockIn.None? && r.clockOut.None?
                        && r.lunchStart.None? && r.lunchEnd.None? && r.lunchDurationMins.None?
    ensures a.Some? ==> && r.status == a.value.status
                        && r.clockIn == a.value.lastClockInAt && r.clockOut == a.value.lastClockOutAt
                        && r.lunchStart == a.value.lunchStartAt && r.lunchEnd == a.value.lunchEndAt
                        && r.lunchDurationMins == a.value.lunchDurationMins
  {
    match a
    case None => ReportLine(s.name, s.email, BatchName(s.batch), date, LoggedOut, None, None, None, None, None, "FALSE")
    case Some(d) =>
      ReportLine(s.name, s.email, BatchName(s.batch), date, d.status, d.lastClockInAt, d.lastClockOutAt,
                 d.lunchStartAt, d.lunchEndAt, d.lunchDurationMins, if d.lunchOvertime then "TRUE" else "FALSE")
  }

  /** The rows of one date: one per student, in roster order. */
  function DateBlock(students: seq<User>, date: string, atts: seq<AttendanceDoc>): (b: seq<ReportRow>)
    ensures |b| == |students|
    ensures forall i :: 0 <= i < |b| ==> b[i] == LineFor(students[i], date, Get(LatestByUser(DocsOn(atts, date)), students[i].id))
  {
    var m := LatestByUser(DocsOn(atts, date));
    seq(|students|, i requires 0 <= i < |students| => LineFor(students[i], date, Get(m, students[i].id)))
  }

  /** The data rows: date by date, each date's block of student rows. */
  function ReportBody(dates: seq<string>, students: seq<User>, atts: seq<AttendanceDoc>): seq<ReportRow> {
    if dates == [] then []
    else ReportBody(dates[..|dates| - 1], students, atts) + DateBlock(students, dates[|dates| - 1], atts)
  }

  /** The number of rows before the block of date `k`, counted block by block. */
  function Offset(k: nat, n: nat): nat {
    if k == 0 then 0 else Offset(k - 1, n) + n
  }

  lemma {:induction false} OffsetIsProduct(k: nat, n: nat)
    ensures Offset(k, n) == k * n
  {
    if k > 0 {
      OffsetIsProduct(k - 1, n);
      assert k * n == (k - 1) * n + n;
    }
  }

  lemma {:induction false} ReportBodyLength(dates: seq<string>, students: seq<User>, atts: seq<AttendanceDoc>)
    ensures |ReportBody(dates, students, atts)| == Offset(|dates|, |students|)
  {
    if dates != [] {
      ReportBodyLength(dates[..|dates| - 1], students, atts);
    }
  }

  /** The row of date `di` and student `si` sits after the blocks of the earlier dates. */
  lemma {:induction false} ReportBodyOffset(dates: seq<string>, students: seq<User>, atts: seq<AttendanceDoc>, di: nat, si: nat)
    requires di < |dates| && si < |students|
    ensures Offset(di, |students|) + si < |ReportBody(dates, students, atts)|
    ensures ReportBody(dates, students, atts)[Offset(di, |students|) + si]
            == LineFor(students[si], dates[di], Get(LatestByUser(DocsOn(atts, dates[di])), students[si].id))
  {
    if di < |dates| - 1 {
      var front := dates[..|dates| - 1];
      ReportBodyOffset(front, students, atts, di, si);
      ReportBodyKeepsFront(dates, students, atts, Offset(di, |students|) + si);
    } else {
      ReportBodyLast(dates, students, atts, si);
    }
  }

  /** Appending a date keeps the rows of the earlier dates. */
  lemma ReportBodyKeepsFront(dates: seq<string>, students: seq<User>, atts: seq<AttendanceDoc>, k: nat)
    requires dates != [] && k < |ReportBody(dates[..|dates| - 1], students, atts)|
    ensures k < |ReportBody(dates, students, atts)|
    ensures ReportBody(dates, students, atts)[k] == ReportBody(dates[..|dates| - 1], students, atts)[k]
  {
  }

  /** The rows of the last date follow the rows of all the others. */
  lemma ReportBodyLast(dates: seq<string>, students: seq<User>, atts: seq<AttendanceDoc>, si: nat)
    requires dates != [] && si < |students|
    ensures Offset(|dates| - 1, |students|) + si < |ReportBody(dates, students, atts)|
    ensures ReportBody(dates, students, atts)[Offset(|dates| - 1, |students|) + si]
            == LineFor(students[si], dates[|dates| - 1], Get(LatestByUser(DocsOn(atts, dates[|dates| - 1])), students[si].id))
  {
    var front := dates[..|dates| - 1];
    ReportBodyLength(front, students, atts);
    assert |front| == |dates| - 1;
  }

  /** There is one data row per (date, student), the row of date `di` and student `si` at `di * |students| + si`. */
  lemma ReportBodyAt(dates: seq<string>, students: seq<User>, atts: seq<AttendanceDoc>, di: nat, si: nat)
    requires di < |dates| && si < |students|
    ensures |ReportBody(dates, students, atts)| == |dates| * |students|
    ensures di * |students| + si < |ReportBody(dates, students, atts)|
    ensures ReportBody(dates, students, atts)[di * |students| + si]
            == LineFor(students[si], dates[di], Get(LatestByUser(DocsOn(atts, dates[di])), students[si].id))
  {
    ReportBodyLength(dates, students, atts);
    ReportBodyOffset(dates, students, atts, di, si);
    OffsetIsProduct(|dates|, |students|);
    OffsetIsProduct(di, |students|);
  }

  /** One more date appends that date's block. */
  lemma ReportBodySnoc(dates: seq<string>, k: nat, students: seq<User>, atts: seq<AttendanceDoc>)
    requires k < |dates|
    ensures ReportBody(dates[..k + 1], students, atts) == ReportBody(dates[..k], students, atts) + DateBlock(students, dates[k], atts)
  {
    assert dates[..k + 1][..k] == dates[..k];
  }

  /** The inner loop of GET /admin/report: one row per student for date `d`. */
  method DateRows(students: seq<User>, d: string, atts: seq<AttendanceDoc>) returns (block: seq<ReportRow>)
    ensures block == DateBlock(students, d, atts)
  {
    var attMap := BuildAttMap(DocsOn(atts, d));
    block := [];
    for si := 0 to |students|
      invariant |block| == si
      invariant forall k :: 0 <= k < si ==> block[k] == LineFor(students[k], d, Get(attMap, students[k].id))
    {
      block := block + [LineFor(students[si], d, Get(attMap, students[si].id))];
    }
  }

  /** The nested loops of GET /admin/report: the header, then date by date a row per student. */
  method ReportRows(dates: seq<string>, students: seq<User>, atts: seq<AttendanceDoc>) returns (rows: seq<ReportRow>)
    ensures rows == [HeaderRow(ReportHeader)] + ReportBody(dates, students, atts)
  {
    var body: seq<ReportRow> := [];
    for di := 0 to |dates|
      invariant body == ReportBody(dates[..di], students, atts)
    {
      var block := DateRows(students, dates[di], atts);
      ReportBodySnoc(dates, di, students, atts);
      body := body + block;
    }
    rows := [HeaderRow(ReportHeader)] + body;
    assert dates[..|dates|] == dates;
  }

  /**
   * The report's date list: `date` alone, else the days from `from` to `to` (as day numbers that
   * `parseDay` reads and `dayLabel` formats), else today.
   */
  method ReportDates(date: string, from: string, to: string, today: string,
                     parseDay: string -> Option<int>, dayLabel: int -> string) returns (dates: seq<string>)
    ensures date != "" ==> dates == [date]
    ensures date == "" && (from == "" || to == "") ==> dates == [today]
    ensures date == "" && from != "" && to != "" ==>
              if parseDay(from).None? || parseDay(to).None? then dates == []
              else
                var start, end := parseDay(from).value, parseDay(to).value;
                && |dates| == (if start <= end then end - start + 1 else 0)
                && forall i :: 0 <= i < |dates| ==> dates[i] == dayLabel(start + i)
  {
    if date != "" {
      return [date];
    }
    if from == "" || to == "" {
      return [today];
    }
    dates := [];
    var start, end := parseDay(from), parseDay(to);
    if start.None? || end.None? {
      // an invalid date makes every comparison false
      return;
    }
    var d := start.value;
    while d <= end.value
      invariant start.value <= d <= (if start.value <= end.value then end.value + 1 else start.value)
      invariant |dates| == d - start.value
      invariant forall i :: 0 <= i < |dates| ==> dates[i] == dayLabel(start.value + i)
      decreases end.value - d
    {
      dates := dates + [dayLabel(d)];
      d := d + 1;
    }
  }

  /** GET /admin/report: the rows for every date and every active student. */
  method Report(users: seq<User>, atts: seq<AttendanceDoc>, dates: seq<string>) returns (rows: seq<ReportRow>)
    ensures |rows| == 1 + |dates| * |Roster(users, None)|
    ensures rows[0] == HeaderRow(ReportHeader)
    ensures rows[1..] == ReportBody(dates, Roster(users, None), atts)
  {
    var students := Roster(users, None);
    rows := ReportRows(dates, students, atts);
    ReportBodyLength(dates, students, atts);
    OffsetIsProduct(|dates|, |students|);
  }

  /** Recent activity considers documents with a `lastToggledAt`. */
  predicate HasToggled(d: AttendanceDoc) {
    d.lastToggledAt.Some?
  }

  function ToggledTime(d: AttendanceDoc): int {
    match d.lastToggledAt
    case Some(t) => t
    case None => 0
  }

  /** `sort({ lastToggledAt: -1 })`: newest first. */
  predicate NewerFirst(a: AttendanceDoc, b: AttendanceDoc) {
    ToggledTime(a) >= ToggledTime(b)
  }

  lemma NewerFirstOrder()
    ensures TotalPreorder(NewerFirst)
  {
  }

  const RecentLimit: nat := 15

  /** The documents of the recent-activity query: toggled ones, newest first, at most fifteen. */
  function RecentDocs(atts: seq<AttendanceDoc>): (r: seq<AttendanceDoc>)
    ensures |r| == if |Filter(atts, HasToggled)| <= RecentLimit then |Filter(atts, HasToggled)| else RecentLimit
    ensures SortedBy(r, NewerFirst)
    ensures forall i :: 0 <= i < |r| ==> HasToggled(r[i]) && multiset(atts)[r[i]] > 0
    ensures r == ToggledNewestFirst(atts)[..|r|]
    ensures multiset(r) <= multiset(atts)
  {
    var sorted := ToggledNewestFirst(atts);
    TakeSorted(sorted, RecentLimit, NewerFirst);
    TakeMultiset(sorted, RecentLimit);
    ToggledSubMultiset(atts);
    Take(sorted, RecentLimit)
  }

  /** The toggled documents, sorted, occur no more often than they are stored. */
  lemma ToggledSubMultiset(atts: seq<AttendanceDoc>)
    ensures multiset(ToggledNewestFirst(atts)) <= multiset(atts)
  {
    var sorted := ToggledNewestFirst(atts);
    forall d
      ensures multiset(sorted)[d] <= multiset(atts)[d]
    {
    }
  }

  /** Every toggled document, newest first. */
  function ToggledNewestFirst(atts: seq<AttendanceDoc>): (r: seq<AttendanceDoc>)
    ensures |r| == |Filter(atts, HasToggled)|
    ensures SortedBy(r, NewerFirst)
    ensures forall d :: multiset(r)[d] == if HasToggled(d) then multiset(atts)[d] else 0
    ensures forall i :: 0 <= i < |r| ==> HasToggled(r[i]) && multiset(atts)[r[i]] > 0
  {
    NewerFirstOrder();
    FilterMultiset(atts, HasToggled);
    var r := SortBy(Filter(atts, HasToggled), NewerFirst);
    assert |r| == |multiset(r)| == |multiset(Filter(atts, HasToggled))|;
    assert forall i :: 0 <= i < |r| ==> multiset(r)[r[i]] > 0;
    r
  }

  /** A toggled document left out of the feed is no newer than every document in it, and the feed is full. */
  lemma RecentDocsAreNewest(atts: seq<AttendanceDoc>, d: AttendanceDoc)
    requires d in atts && HasToggled(d) && d !in RecentDocs(atts)
    ensures |RecentDocs(atts)| == RecentLimit
    ensures forall i :: 0 <= i < RecentLimit ==> ToggledTime(d) <= ToggledTime(RecentDocs(atts)[i])
  {
    var sorted := ToggledNewestFirst(atts);
    var k := ToggledIndex(atts, d);
    var r := RecentDocs(atts);
    assert r == sorted[..|r|];
  }

  /** A stored toggled document has a position in the newest-first list. */
  lemma ToggledIndex(atts: seq<AttendanceDoc>, d: AttendanceDoc) returns (k: nat)
    requires d in atts && HasToggled(d)
    ensures k < |ToggledNewestFirst(atts)| && ToggledNewestFirst(atts)[k] == d
  {
    var sorted := ToggledNewestFirst(atts);
    assert multiset(sorted)[d] > 0;
    k :| 0 <= k < |sorted| && sorted[k] == d;
  }

  /** One entry of the recent-activity feed. */
  datatype Activity = Activity(userId: Option<UserId>, name: string, email: string, status: Status, timestamp: Instant)

  /** `populate('userId', 'name email')`: the user's name and email, or 'Unknown' and '' when the user is gone. */
  function ActivityOf(users: seq<User>, d: AttendanceDoc): (a: Activity)
    ensures a.status == d.status && a.timestamp == ToggledTime(d)
    ensures a.userId.Some? <==> FindUser(users, d.userId).Some?
    ensures a.userId.None? ==> a.name == "Unknown" && a.email == ""
    ensures a.userId.Some? ==> a.userId.value == d.userId && a.name == FindUser(users, d.userId).value.name
                               && a.email == FindUser(users, d.userId).value.email
  {
    match FindUser(users, d.userId)
    case Some(u) => Activity(Some(u.id), u.name, u.email, d.status, ToggledTime(d))
    case None => Activity(None, "Unknown", "", d.status, ToggledTime(d))
  }

  /** GET /api/admin/recent-activity. */
  function RecentActivity(users: seq<User>, atts: seq<AttendanceDoc>): (r: seq<Activity>)
    ensures |r| <= RecentLimit
    ensures |r| == |RecentDocs(atts)|
    ensures forall i, j :: 0 <= i < j < |r| ==> r[i].timestamp >= r[j].timestamp
    ensures forall i :: 0 <= i < |r| ==> r[i] == ActivityOf(users, RecentDocs(atts)[i])
  {
    var docs := RecentDocs(atts);
    seq(|docs|, i requires 0 <= i < |docs| => ActivityOf(users, docs[i]))
  }

  /** The longest run of decimal digits at the start of `s`. */
  function DigitPrefix(s: string): (r: string)
    ensures |r| <= |s| && r == s[..|r|] && AllDigits(r)
    ensures |r| < |s| ==> !IsDigit(s[|r|])
  {
    if s != [] && IsDigit(s[0]) then [s[0]] + DigitPrefix(s[1..]) else []
  }

  /** `parseInt(s, 10)`: leading white space, an optional sign and the leading digits; None is NaN. */
  function ParseIntText(s: string): Option<int> {
    var t := TrimStart(s);
    var negative := t != [] && t[0] == '-';
    var body := if t != [] && (t[0] == '-' || t[0] == '+') then t[1..] else t;
    var digits := DigitPrefix(body);
    if digits == [] then None
    else
      var value: int := DigitsValue(digits);
      Some(if negative then -value else value)
  }

  /** `parseInt` reads back what `String` writes. */
  lemma ParseIntOfNumeral(n: int)
    ensures ParseIntText(IntToString(n)) == Some(n)
  {
    var m: nat := if n < 0 then -n else n;
    var digits := NatToString(m);
    var s := IntToString(n);
    NatToStringValue(m);
    DigitPrefixAll(digits);
    assert IsDigit(digits[0]);
    assert s[0] == '-' || s[0] == digits[0];
    NoLeadingSpace(s);
    if n < 0 {
      assert s[1..] == digits;
    } else {
      assert s == digits;
    }
  }

  lemma NoLeadingSpace(s: string)
    requires s != [] && (s[0] == '-' || IsDigit(s[0]))
    ensures TrimStart(s) == s
  {
  }

  lemma {:induction false} DigitPrefixAll(s: string)
    requires AllDigits(s)
    ensures DigitPrefix(s) == s
  {
    if s != [] {
      DigitPrefixAll(s[1..]);
    }
  }

  /** `String(parseInt(month, 10)).padStart(2, '0')`. */
  function MonthText(month: string): (r: string)
    ensures |r| >= 2
  {
    var text := match ParseIntText(month) case Some(n) => IntToString(n) case None => "NaN";
    PadStart(text, 2, '0')
  }

  /** The date prefix `${year}-${mm}` the records query matches. */
  function MonthPrefix(year: string, month: string): string {
    year + "-" + MonthText(month)
  }

  /** A one-digit month is zero-padded and a two-digit month is kept. */
  lemma MonthPrefixOfNumber(year: string, m: nat)
    requires 1 <= m <= 12
    ensures m < 10 ==> MonthPrefix(year, NatToString(m)) == year + "-0" + NatToString(m)
    ensures m >= 10 ==> MonthPrefix(year, NatToString(m)) == year + "-" + NatToString(m)
  {
    ParseIntOfNumeral(m);
  }

  /** One row of the user-records response (times as instants instead of locale strings). */
  datatype RecordRow = RecordRow(
    date: string, clockIn: Option<Instant>, clockOut: Option<Instant>, lunchStart: Option<Instant>, lunchEnd: Option<Instant>)

  datatype RecordsResult = MissingParameters | Records(rows: seq<RecordRow>)

  predicate DateLe(a: AttendanceDoc, b: AttendanceDoc) {
    StrLe(a.date, b.date)
  }

  lemma DateOrder()
    ensures TotalPreorder(DateLe)
  {
    forall a: AttendanceDoc, b: AttendanceDoc ensures DateLe(a, b) || DateLe(b, a) {
      StrLeTotal(a.date, b.date);
    }
    forall a: AttendanceDoc, b: AttendanceDoc, c: AttendanceDoc | DateLe(a, b) && DateLe(b, c) ensures DateLe(a, c) {
      StrLeTransitive(a.date, b.date, c.date);
    }
  }

  /** The documents of `user` whose date starts with `prefix`, ordered by date. */
  function MonthDocs(atts: seq<AttendanceDoc>, user: UserId, prefix: string): (r: seq<AttendanceDoc>)
    ensures SortedBy(r, DateLe)
    ensures forall d :: multiset(r)[d] == if d.userId == user && StartsWith(d.date, prefix) then multiset(atts)[d] else 0
  {
    var hit := (d: AttendanceDoc) => d.userId == user && StartsWith(d.date, prefix);
    DateOrder();
    FilterMultiset(atts, hit);
    SortBy(Filter(atts, hit), DateLe)
  }

  function RecordOf(d: AttendanceDoc): RecordRow {
    RecordRow(d.date, d.lastClockInAt, d.lastClockOutAt, d.lunchStartAt, d.lunchEndAt)
  }

  /** GET /api/admin/user-records?user=&year=&month= ("" for an absent year or month). */
  function UserRecords(atts: seq<AttendanceDoc>, user: Option<UserId>, year: string, month: string): (r: RecordsResult)
    ensures r.MissingParameters? <==> user.None? || year == "" || month == ""
    ensures r.Records? ==>
              var docs := MonthDocs(atts, user.value, MonthPrefix(year, month));
              && |r.rows| == |docs|
              && forall i :: 0 <= i < |docs| ==> r.rows[i] == RecordOf(docs[i])
  {
    if user.None? || year == "" || month == "" then MissingParameters
    else
      var docs := MonthDocs(atts, user.value, MonthPrefix(year, month));
      Records(seq(|docs|, i requires 0 <= i < |docs| => RecordOf(docs[i])))
  }

  /** Every returned record is the student's, lies in the month, and the records come in date order. */
  lemma UserRecordsInMonth(atts: seq<AttendanceDoc>, user: UserId, year: string, month: string)
    requires year != "" && month != ""
    ensures var r := UserRecords(atts, Some(user), year, month);
            && r.Records?
            && (forall i :: 0 <= i < |r.rows| ==> StartsWith(r.rows[i].date, MonthPrefix(year, month)))
            && (forall i, j :: 0 <= i < j < |r.rows| ==> StrLe(r.rows[i].date, r.rows[j].date))
  {
    var prefix := MonthPrefix(year, month);
    var docs := MonthDocs(atts, user, prefix);
    var r := UserRecords(atts, Some(user), year, month);
    assert |r.rows| == |docs| && forall i :: 0 <= i < |docs| ==> r.rows[i] == RecordOf(docs[i]);
    forall i | 0 <= i < |r.rows| ensures StartsWith(r.rows[i].date, prefix) {
      assert multiset(docs)[docs[i]] > 0;
    }
    forall i, j | 0 <= i < j < |r.rows| ensures StrLe(r.rows[i].date, r.rows[j].date) {
      assert DateLe(docs[i], docs[j]);
    }
  }
}
