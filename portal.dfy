/**
 * The server's stored state (the users, pending requests and attendance collections) and
 * the handlers that write it: clock in/out, lunch start and end, batch update,
 * registration, accepting or declining a request, deleting a user and deleting a day's
 * attendance. The unique indexes of the schema are the class invariant.
 */
module Portal {
  import opened Common
  import opened Strings
  import opened Collections
  import opened Schema
  import opened AttendanceRules

  function UserKey(u: User): UserId { u.id }
  function UserEmail(u: User): string { u.email }
  function PendingKey(p: PendingRequest): UserId { p.id }
  function PendingEmail(p: PendingRequest): string { p.email }

  function UserIndex(users: seq<User>, id: UserId): Option<nat> {
    FindIndex(users, (u: User) => u.id == id)
  }

  /** `User.findById(id)`. */
  function FindUser(users: seq<User>, id: UserId): (r: Option<User>)
    ensures r.Some? ==> r.value in users && r.value.id == id
    ensures r.None? ==> forall i :: 0 <= i < |users| ==> users[i].id != id
  {
    match UserIndex(users, id)
    case Some(i) => Some(users[i])
    case None => None
  }

  /** The batch of the user with this id, if there is one. */
  function UserBatch(users: seq<User>, id: UserId): Option<Batch> {
    match FindUser(users, id)
    case Some(u) => Some(u.batch)
    case None => None
  }

  /** `User.findOne({ email })` finds a user. */
  predicate EmailTaken(users: seq<User>, email: string) {
    exists i :: 0 <= i < |users| && users[i].email == email
  }

  /** `PendingRequest.findOne({ email })` finds a request. */
  predicate EmailPending(pending: seq<PendingRequest>, email: string) {
    exists i :: 0 <= i < |pending| && pending[i].email == email
  }

  /** `PendingRequest.findById(id)`. */
  function FindPending(pending: seq<PendingRequest>, id: UserId): (r: Option<PendingRequest>)
    ensures r.Some? ==> r.value in pending && r.value.id == id
    ensures r.None? ==> forall i :: 0 <= i < |pending| ==> pending[i].id != id
  {
    match FindIndex(pending, (p: PendingRequest) => p.id == id)
    case Some(i) => Some(pending[i])
    case None => None
  }

  /** `PendingRequest.deleteOne({ _id: id })`. */
  function RemovePending(pending: seq<PendingRequest>, id: UserId): seq<PendingRequest> {
    Filter(pending, (p: PendingRequest) => p.id != id)
  }

  function DayIndex(atts: seq<AttendanceDoc>, userId: UserId, date: string): Option<nat> {
    FindIndex(atts, (d: AttendanceDoc) => d.userId == userId && d.date == date)
  }

  /** `Attendance.findOne({ userId, date })`. */
  function DayDoc(atts: seq<AttendanceDoc>, userId: UserId, date: string): (r: Option<AttendanceDoc>)
    ensures r.Some? ==> r.value in atts && r.value.userId == userId && r.value.date == date
    ensures r.None? ==> forall i :: 0 <= i < |atts| ==> !(atts[i].userId == userId && atts[i].date == date)
  {
    match DayIndex(atts, userId, date)
    case Some(i) => Some(atts[i])
    case None => None
  }

  /** `att.save()`: the document replaces the stored one for its (userId, date), or is inserted. */
  function Saved(atts: seq<AttendanceDoc>, doc: AttendanceDoc): (r: seq<AttendanceDoc>)
    ensures |r| == |atts| || r == atts + [doc]
  {
    match DayIndex(atts, doc.userId, doc.date)
    case Some(i) => atts[i := doc]
    case None => atts + [doc]
  }

  /** After a save, the saved day reads back as the saved document and every other day reads as before. */
  lemma SavedLookup(atts: seq<AttendanceDoc>, doc: AttendanceDoc, userId: UserId, date: string)
    ensures DayDoc(Saved(atts, doc), userId, date)
            == if userId == doc.userId && date == doc.date then Some(doc) else DayDoc(atts, userId, date)
  {
    var p := (d: AttendanceDoc) => d.userId == userId && d.date == date;
    match DayIndex(atts, doc.userId, doc.date)
    case Some(i) =>
      FindIndexSame(atts, atts[i := doc], p);
    case None =>
      FindIndexAppend(atts, doc, p);
  }

  /** A save keeps the (userId, date) index unique. */
  lemma SavedUnique(atts: seq<AttendanceDoc>, doc: AttendanceDoc)
    requires UniqueDays(atts)
    ensures UniqueDays(Saved(atts, doc))
  {
    var r := Saved(atts, doc);
    match DayIndex(atts, doc.userId, doc.date)
    case Some(i) =>
      assert DayKey(atts[i]) == DayKey(doc);
      forall a, b | 0 <= a < b < |r| ensures DayKey(r[a]) != DayKey(r[b]) {
        if a != i && b != i {
          assert r[a] == atts[a] && r[b] == atts[b];
        } else if a == i {
          assert r[b] == atts[b];
        } else {
          assert r[a] == atts[a];
        }
      }
    case None =>
      forall a, b | 0 <= a < b < |r| ensures DayKey(r[a]) != DayKey(r[b]) {
        if b < |atts| {
          assert r[a] == atts[a] && r[b] == atts[b];
        } else {
          assert r[a] == atts[a] && r[b] == doc;
        }
      }
  }

  datatype ToggleOutcome =
    | ToggleForbidden
    | Toggled(status: Status, lastClockInAt: Option<Instant>, lastClockOutAt: Option<Instant>, timestamp: Instant)

  datatype LunchEndOutcome =
    | LunchNotStarted
    | LunchEnded(lunchStartAt: Instant, lunchEndAt: Instant, lunchDurationMins: int, lunchOvertime: bool)

  datatype UpdateBatchOutcome = BadBatch | UserNotFound | BatchUpdated(batch: Batch)

  /** Registration form fields as posted; None is a missing field. */
  datatype RegisterForm = RegisterForm(
    name: Option<string>, email: Option<string>, password: Option<string>,
    role: Option<string>, userRole: Option<string>, inviteCode: Option<string>, batch: Option<string>)

  /** The normalised form: an empty string stands for a missing (falsy) value. */
  datatype Registration = Registration(
    name: string, email: string, password: string, clientRole: string, inviteCode: string, batch: Batch)

  datatype RegisterOutcome =
    | MissingFields
    | AdminForbidden
    | AdminCreated(userId: UserId)
    | RegistrationFailed
    | AccountExists
    | AlreadySubmitted
    | Submitted

  datatype ActionOutcome = BadAction | RequestNotFound | RequestDeclined | UserAlreadyExists | UserCreated(userId: UserId)

  datatype DeleteUserOutcome = NoSuchUser | UserRemoved

  datatype DeleteAttendanceOutcome = DateRequired | DeletedCount(deleted: nat)

  /** A trimmed text field: `x && String(x).trim()`. */
  function TrimmedField(x: Option<string>): (r: string)
    ensures Truthy(x) ==> r == Trim(x.value)
    ensures !Truthy(x) ==> r == ""
    ensures r != "" ==> Truthy(x) && !IsSpace(r[0]) && !IsSpace(r[|r| - 1])
  {
    if Truthy(x) then Trim(x.value) else ""
  }

  /** The email field: trimmed, then lower-cased. */
  function EmailField(x: Option<string>): (r: string)
    ensures forall i :: 0 <= i < |r| ==> !('A' <= r[i] <= 'Z')
    ensures |r| == |TrimmedField(x)|
    ensures r == ToLower(TrimmedField(x))
  {
    if Truthy(x) then ToLower(Trim(x.value)) else ""
  }

  /** `String(role || userRole || '').toLowerCase()`. */
  function RoleField(role: Option<string>, userRole: Option<string>): (r: string)
    ensures forall i :: 0 <= i < |r| ==> !('A' <= r[i] <= 'Z')
    ensures r == "" <==> !Truthy(role) && !Truthy(userRole)
    ensures Truthy(role) ==> r == ToLower(role.value)
    ensures !Truthy(role) && Truthy(userRole) ==> r == ToLower(userRole.value)
  {
    ToLower(if Truthy(role) then role.value else if Truthy(userRole) then userRole.value else "")
  }

  /** The batch field: lower-cased, defaulting to batch1, and batch1 unless whitelisted. */
  function BatchField(x: Option<string>): (b: Batch)
    ensures b != Batch1 ==> Truthy(x) && ToLower(x.value) == BatchName(b)
    ensures Truthy(x) && ParseBatch(ToLower(x.value)).Some? ==> b == ParseBatch(ToLower(x.value)).value
  {
    var batch := if Truthy(x) then ToLower(x.value) else "batch1";
    match ParseBatch(batch)
    case Some(b) => b
    case None => Batch1
  }

  /** The field normalisation at the top of the registration handler. */
  function Normalize(f: RegisterForm): Registration {
    Registration(TrimmedField(f.name), EmailField(f.email), if Truthy(f.password) then f.password.value else "",
                 RoleField(f.role, f.userRole), TrimmedField(f.inviteCode), BatchField(f.batch))
  }

  /** The filters of the user deletion. */
  function OtherUser(id: UserId): User -> bool {
    (u: User) => u.id != id
  }

  function OtherDoc(id: UserId): AttendanceDoc -> bool {
    (d: AttendanceDoc) => d.userId != id
  }

  /** Removing a user keeps the unique indexes and the id bound, keeps everybody else and leaves nobody with that id. */
  lemma RemoveUser(users: seq<User>, id: UserId, nextId: nat)
    requires Distinct(users, UserKey) && Distinct(users, UserEmail)
    requires forall i :: 0 <= i < |users| ==> users[i].id < nextId
    ensures var r := Filter(users, OtherUser(id));
            && Distinct(r, UserKey) && Distinct(r, UserEmail)
            && (forall i :: 0 <= i < |r| ==> r[i].id < nextId)
            && FindUser(r, id).None?
            && forall u :: u in users && u.id != id ==> u in r
  {
    var r := Filter(users, OtherUser(id));
    FilterDistinct(users, OtherUser(id), UserKey);
    FilterDistinct(users, OtherUser(id), UserEmail);
    forall u | u in users && u.id != id ensures u in r {
      FilterKeeps(users, OtherUser(id), u);
    }
    forall i | 0 <= i < |r| ensures r[i].id < nextId {
      assert r[i] in users;
    }
  }

  /** Removing a user's documents keeps the day index and every other user's documents. */
  lemma RemoveUserDocs(atts: seq<AttendanceDoc>, id: UserId)
    requires UniqueDays(atts)
    ensures var r := Filter(atts, OtherDoc(id));
            && UniqueDays(r)
            && (forall i :: 0 <= i < |r| ==> r[i].userId != id)
            && forall d :: d in atts && d.userId != id ==> d in r
  {
    FilterDistinct(atts, OtherDoc(id), DayKey);
    forall d | d in atts && d.userId != id ensures d in Filter(atts, OtherDoc(id)) {
      FilterKeeps(atts, OtherDoc(id), d);
    }
  }

  /** The session belongs to an existing admin. */
  predicate SessionIsAdmin(users: seq<User>, session: Option<UserId>) {
    session.Some? && FindUser(users, session.value).Some? && FindUser(users, session.value).value.role == Admin
  }

  /** The invite-code route to an admin account: a non-empty code equal to the configured one. */
  predicate InviteAccepted(clientRole: string, configured: string, invite: string) {
    clientRole == "admin" && Trim(configured) != "" && invite != "" && invite == Trim(configured)
  }

  class Portal {
    var users: seq<User>
    var pending: seq<PendingRequest>
    var attendance: seq<AttendanceDoc>
    /** The next fresh document id. */
    var nextId: nat

    /** The unique indexes hold and every stored id was handed out before. */
    ghost predicate Valid()
      reads this
    {
      && Distinct(users, UserKey) && Distinct(users, UserEmail)
      && Distinct(pending, PendingKey) && Distinct(pending, PendingEmail)
      && UniqueDays(attendance)
      && (forall i :: 0 <= i < |users| ==> users[i].id < nextId)
      && (forall i :: 0 <= i < |pending| ==> pending[i].id < nextId)
    }

    constructor ()
      ensures Valid()
      ensures users == [] && pending == [] && attendance == [] && nextId == 0
    {
      users, pending, attendance, nextId := [], [], [], 0;
    }

    /** `att.save()` on an attendance document. */
    method SaveAttendance(doc: AttendanceDoc)
      requires Valid()
      modifies this
      ensures Valid()
      ensures attendance == Saved(old(attendance), doc)
      ensures users == old(users) && pending == old(pending) && nextId == old(nextId)
    {
      SavedUnique(attendance, doc);
      attendance := Saved(attendance, doc);
    }

    /** POST /api/student/toggle for the session user on day `today` at instant `now`. */
    method ToggleClock(session: UserId, today: string, now: Instant) returns (r: ToggleOutcome)
      requires Valid()
      modifies this
      ensures Valid()
      ensures users == old(users) && pending == old(pending) && nextId == old(nextId)
      ensures var u := FindUser(old(users), session);
              if u.None? || u.value.role != Student then
                r == ToggleForbidden && attendance == old(attendance)
              else
                var w := Toggle(DayDoc(old(attendance), session, today), session, today, now, u.value.batch);
                && attendance == Saved(old(attendance), w.doc)
                && r == Toggled(w.doc.status, w.doc.lastClockInAt, w.doc.lastClockOutAt, now)
    {
      var found := FindUser(users, session);
      if found.None? || found.value.role != Student {
        return ToggleForbidden;
      }
      var u := found.value;
      var existing := DayDoc(attendance, u.id, today);
      var next := if existing.None? || existing.value.status == LoggedOut then LoggedIn else LoggedOut;
      var att: AttendanceDoc;
      if existing.None? {
        att := FreshDoc(u.id, today, next, now, u.batch);
      } else {
        att := existing.value;
        att := att.(status := next);
        att := att.(lastToggledAt := Some(now));
        att := att.(batch := u.batch);
      }
      if next == LoggedIn {
        att := att.(lastClockInAt := Some(now));
        att := att.(lastClockOutAt := None);
      } else {
        var outTime := now;
        if att.lastClockInAt.Some? && outTime < att.lastClockInAt.value {
          outTime := att.lastClockInAt.value;
        }
        att := att.(lastClockOutAt := Some(outTime));
      }
      SaveAttendance(att);
      r := Toggled(att.status, att.lastClockInAt, att.lastClockOutAt, now);
    }

    /** POST /api/student/lunch/start; returns the stored lunch start. */
    method LunchStart(session: UserId, today: string, now: Instant) returns (start: Instant)
      requires Valid()
      modifies this
      ensures Valid()
      ensures users == old(users) && pending == old(pending) && nextId == old(nextId)
      ensures attendance == Saved(old(attendance),
                                  StartLunch(DayDoc(old(attendance), session, today), session, today, now,
                                             UserBatch(old(users), session)))
      ensures DayDoc(attendance, session, today).Some?
      ensures DayDoc(attendance, session, today).value.lunchStartAt == Some(start) && start == now
    {
      var att: AttendanceDoc;
      var existing := DayDoc(attendance, session, today);
      if existing.None? {
        var u := FindUser(users, session);
        att := FreshDoc(session, today, LoggedIn, now, if u.Some? then u.value.batch else Batch1);
      } else {
        att := existing.value;
      }
      att := att.(lunchStartAt := Some(now));
      att := att.(lunchEndAt := None);
      att := att.(lunchDurationMins := None);
      att := att.(lunchOvertime := false);
      SaveAttendance(att);
      SavedLookup(old(attendance), att, session, today);
      start := now;
    }

    /** POST /api/student/lunch/end. */
    method LunchEnd(session: UserId, today: string, now: Instant) returns (r: LunchEndOutcome)
      requires Valid()
      modifies this
      ensures Valid()
      ensures users == old(users) && pending == old(pending) && nextId == old(nextId)
      ensures match EndLunch(DayDoc(old(attendance), session, today), now)
              case NotStarted => r == LunchNotStarted && attendance == old(attendance)
              case Ended(w) =>
                && attendance == Saved(old(attendance), w.doc)
                && r == LunchEnded(w.doc.lunchStartAt.value, w.doc.lunchEndAt.value,
                                   w.doc.lunchDurationMins.value, w.doc.lunchOvertime)
    {
      var existing := DayDoc(attendance, session, today);
      if existing.None? || existing.value.lunchStartAt.None? {
        return LunchNotStarted;
      }
      var att := existing.value;
      var endTime := now;
      var startTime := att.lunchStartAt.value;
      if endTime < startTime {
        endTime := startTime;
      }
      att := att.(lunchEndAt := Some(endTime));
      var durationMins := RoundMinutes(endTime - startTime);
      att := att.(lunchDurationMins := Some(if durationMins >= 0 then durationMins else 0));
      att := att.(lunchOvertime := durationMins > 30);
      SaveAttendance(att);
      r := LunchEnded(startTime, endTime, att.lunchDurationMins.value, att.lunchOvertime);
    }

    /** POST /api/me/update-batch with the posted batch text `raw` ("" when absent). */
    method UpdateBatch(session: UserId, raw: string) returns (r: UpdateBatchOutcome)
      requires Valid()
      modifies this
      ensures Valid()
      ensures pending == old(pending) && attendance == old(attendance) && nextId == old(nextId)
      ensures var b := ParseBatch(ToLower(raw));
              var i := UserIndex(old(users), session);
              if b.None? then r == BadBatch && users == old(users)
              else if i.None? then r == UserNotFound && users == old(users)
              else r == BatchUpdated(b.value) && users == old(users)[i.value := old(users)[i.value].(batch := b.value)]
      ensures r.BatchUpdated? ==> UserBatch(users, session) == Some(r.batch)
    {
      var batch := ToLower(raw);
      var b := ParseBatch(batch);
      if b.None? {
        return BadBatch;
      }
      var i := UserIndex(users, session);
      if i.None? {
        return UserNotFound;
      }
      var u := users[i.value];
      u := u.(batch := b.value);
      users := users[i.value := u];
      assert forall k :: 0 <= k < |users| ==> UserKey(users[k]) == UserKey(old(users)[k]);
      assert forall k :: 0 <= k < |users| ==> UserEmail(users[k]) == UserEmail(old(users)[k]);
      FindIndexSame(old(users), users, (u: User) => u.id == session);
      r := BatchUpdated(b.value);
    }

    /** `User.create(...)` with a fresh id and an email no user has. */
    method InsertUser(u: User)
      requires Valid()
      requires u.id == nextId && !EmailTaken(users, u.email)
      modifies this
      ensures Valid()
      ensures users == old(users) + [u] && nextId == old(nextId) + 1
      ensures pending == old(pending) && attendance == old(attendance)
    {
      users := users + [u];
      nextId := nextId + 1;
    }

    /** `PendingRequest.create(...)` with a fresh id and an email no request has. */
    method InsertPending(p: PendingRequest)
      requires Valid()
      requires p.id == nextId && !EmailPending(pending, p.email)
      modifies this
      ensures Valid()
      ensures pending == old(pending) + [p] && nextId == old(nextId) + 1
      ensures users == old(users) && attendance == old(attendance)
    {
      pending := pending + [p];
      nextId := nextId + 1;
    }

    /**
     * POST /register for a visitor whose session is `session`; `configured` is the configured
     * admin invite code ("" when unset) and `hash` the password hash.
     */
    method Register(session: Option<UserId>, form: RegisterForm, configured: string, hash: string)
      returns (r: RegisterOutcome)
      requires Valid()
      modifies this
      ensures Valid()
      ensures attendance == old(attendance)
      ensures var n := Normalize(form);
              var allowed := SessionIsAdmin(old(users), session) || InviteAccepted(n.clientRole, configured, n.inviteCode);
              if n.name == "" || n.email == "" || n.password == "" then r == MissingFields
              else if n.clientRole == "admin" && !allowed then r == AdminForbidden
              else if n.clientRole == "admin" then
                (if EmailTaken(old(users), n.email) then r == RegistrationFailed
                 else r == AdminCreated(old(nextId))
                      && users == old(users) + [User(old(nextId), n.name, n.email, hash, Admin, Active, n.batch)])
              else if EmailTaken(old(users), n.email) then r == AccountExists
              else if EmailPending(old(pending), n.email) then r == AlreadySubmitted
              else r == Submitted && pending == old(pending) + [PendingRequest(old(nextId), n.name, n.email, hash, n.batch)]
      ensures r.AdminCreated? ==> pending == old(pending) && nextId == old(nextId) + 1
      ensures r.Submitted? ==> users == old(users) && nextId == old(nextId) + 1
      ensures !r.AdminCreated? && !r.Submitted? ==> users == old(users) && pending == old(pending) && nextId == old(nextId)
      ensures r.AdminCreated? ==> SessionIsAdmin(old(users), session)
                                  || (Trim(configured) != "" && Normalize(form).inviteCode == Trim(configured))
    {
      var n := Normalize(form);
      if n.name == "" || n.email == "" || n.password == "" {
        return MissingFields;
      }
      var allowedToCreateAdmin := false;
      if session.Some? {
        var current := FindUser(users, session.value);
        if current.Some? && current.value.role == Admin {
          allowedToCreateAdmin := true;
        }
      }
      var envInvite := Trim(configured);
      if !allowedToCreateAdmin && n.clientRole == "admin" && envInvite != "" && n.inviteCode != "" && n.inviteCode == envInvite {
        allowedToCreateAdmin := true;
      }
      if n.clientRole == "admin" && !allowedToCreateAdmin {
        return AdminForbidden;
      }
      if allowedToCreateAdmin && n.clientRole == "admin" {
        if EmailTaken(users, n.email) {
          // the unique email index rejects the insert
          return RegistrationFailed;
        }
        var created := User(nextId, n.name, n.email, hash, Admin, Active, n.batch);
        InsertUser(created);
        return AdminCreated(created.id);
      }
      if EmailTaken(users, n.email) {
        return AccountExists;
      }
      if EmailPending(pending, n.email) {
        return AlreadySubmitted;
      }
      InsertPending(PendingRequest(nextId, n.name, n.email, hash, n.batch));
      r := Submitted;
    }

    /** POST /api/admin/requests/:id/:action. */
    method RequestAction(id: UserId, action: string) returns (r: ActionOutcome)
      requires Valid()
      modifies this
      ensures Valid()
      ensures attendance == old(attendance)
      ensures var p := FindPending(old(pending), id);
              if action != "accept" && action != "decline" then
                r == BadAction && pending == old(pending) && users == old(users) && nextId == old(nextId)
              else if p.None? then
                r == RequestNotFound && pending == old(pending) && users == old(users) && nextId == old(nextId)
              else if action == "decline" then
                r == RequestDeclined && pending == RemovePending(old(pending), id) && users == old(users) && nextId == old(nextId)
              else if EmailTaken(old(users), p.value.email) then
                r == UserAlreadyExists && pending == RemovePending(old(pending), id) && users == old(users) && nextId == old(nextId)
              else
                && r == UserCreated(old(nextId))
                && users == old(users) + [User(old(nextId), p.value.name, p.value.email, p.value.passwordHash, Student, Active, p.value.batch)]
                && pending == RemovePending(old(pending), id)
                && nextId == old(nextId) + 1
      ensures forall q :: q in old(pending) && q.id != id ==> q in pending
    {
      if action != "accept" && action != "decline" {
        return BadAction;
      }
      var pr := FindPending(pending, id);
      if pr.None? {
        return RequestNotFound;
      }
      var p := pr.value;
      if action == "decline" {
        RemoveRequest(id);
        return RequestDeclined;
      }
      if EmailTaken(users, p.email) {
        RemoveRequest(id);
        return UserAlreadyExists;
      }
      var created := User(nextId, p.name, p.email, p.passwordHash, Student, Active, p.batch);
      InsertUser(created);
      RemoveRequest(id);
      r := UserCreated(created.id);
    }

    /** `PendingRequest.deleteOne({ _id: id })`. */
    method RemoveRequest(id: UserId)
      requires Valid()
      modifies this
      ensures Valid()
      ensures pending == RemovePending(old(pending), id)
      ensures forall q :: q in old(pending) && q.id != id ==> q in pending
      ensures users == old(users) && attendance == old(attendance) && nextId == old(nextId)
    {
      var keep := (p: PendingRequest) => p.id != id;
      FilterDistinct(pending, keep, PendingKey);
      FilterDistinct(pending, keep, PendingEmail);
      forall q | q in pending && q.id != id ensures q in RemovePending(pending, id) {
        FilterKeeps(pending, keep, q);
      }
      pending := RemovePending(pending, id);
    }

    /** DELETE /api/admin/user/:id: the user and all of their attendance documents go. */
    method DeleteUser(id: UserId) returns (r: DeleteUserOutcome)
      requires Valid()
      modifies this
      ensures Valid()
      ensures pending == old(pending) && nextId == old(nextId)
      ensures FindUser(old(users), id).None? ==> r == NoSuchUser && users == old(users) && attendance == old(attendance)
      ensures FindUser(old(users), id).Some? ==>
                && r == UserRemoved
                && users == Filter(old(users), OtherUser(id))
                && attendance == Filter(old(attendance), OtherDoc(id))
      ensures FindUser(users, id).None?
      ensures forall d :: d in old(attendance) && d.userId != id ==> d in attendance
      ensures forall u :: u in old(users) && u.id != id ==> u in users
      ensures r.UserRemoved? ==> forall i :: 0 <= i < |attendance| ==> attendance[i].userId != id
    {
      var u := FindUser(users, id);
      if u.None? {
        return NoSuchUser;
      }
      RemoveUser(users, id, nextId);
      RemoveUserDocs(attendance, id);
      attendance := Filter(attendance, OtherDoc(id));
      users := Filter(users, OtherUser(id));
      r := UserRemoved;
    }

    /**
     * DELETE /api/admin/attendance?date=&batch=: removes the day's documents, only those of
     * batch `batch` when it is not empty, and reports how many went.
     */
    method DeleteAttendance(date: string, batch: string) returns (r: DeleteAttendanceOutcome)
      requires Valid()
      modifies this
      ensures Valid()
      ensures users == old(users) && pending == old(pending) && nextId == old(nextId)
      ensures date == "" ==> r == DateRequired && attendance == old(attendance)
      ensures date != "" ==>
                && attendance == Filter(old(attendance), (d: AttendanceDoc) => !DeleteMatches(d, date, batch))
                && r == DeletedCount(|Filter(old(attendance), (d: AttendanceDoc) => DeleteMatches(d, date, batch))|)
                && r.deleted == |old(attendance)| - |attendance|
      ensures date != "" ==> forall d :: d in old(attendance) ==> (d in attendance <==> !DeleteMatches(d, date, batch))
    {
      if date == "" {
        return DateRequired;
      }
      var hit := (d: AttendanceDoc) => DeleteMatches(d, date, batch);
      var keep := (d: AttendanceDoc) => !DeleteMatches(d, date, batch);
      FilterPartition(attendance, hit, keep);
      FilterDistinct(attendance, keep, DayKey);
      forall d | d in attendance && keep(d) ensures d in Filter(attendance, keep) {
        FilterKeeps(attendance, keep, d);
      }
      var removed := Filter(attendance, hit);
      attendance := Filter(attendance, keep);
      r := DeletedCount(|removed|);
    }
  }

  /** The delete filter `{ date }`, with `batch` added when the batch parameter is not empty. */
  predicate DeleteMatches(d: AttendanceDoc, date: string, batch: string) {
    d.date == date && (batch == "" || BatchName(d.batch) == batch)
  }
}
