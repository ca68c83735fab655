/**
 * The student dashboard: a local copy of the student's attendance state, merged from the
 * server's partial responses and repaired, the page drawn from it, the lunch countdown, and
 * the clock-in/out and lunch buttons with their local guards.
 *
 * Timestamps are kept as the server sends them (ISO text or null); `parse` stands for
 * `new Date(text)` (None when invalid), `localize` for the short locale format and `now` for
 * `Date.now()`.
 */
module StudentDashboard {
  import opened Common
  import opened Strings

  /** One key of a JSON response: absent, or present with its value (which may be null). */
  datatype Key<T> = Absent | Present(value: T)

  /** The keys of a status response the page copies. */
  datatype StatusJson = StatusJson(
    status: Key<Option<string>>,
    lastClockInAt: Key<Option<string>>, lastClockOutAt: Key<Option<string>>,
    lunchStartAt: Key<Option<string>>, lunchEndAt: Key<Option<string>>,
    lunchDurationMins: Key<Option<int>>, lunchOvertime: Key<bool>)

  /** The page's `state` object. */
  datatype ClientState = ClientState(
    status: Option<string>,
    lastClockInAt: Option<string>, lastClockOutAt: Option<string>,
    lunchStartAt: Option<string>, lunchEndAt: Option<string>,
    lunchDurationMins: Option<int>, lunchOvertime: bool)

  const InitialState: ClientState := ClientState(Some("logged_out"), None, None, None, None, None, false)

  predicate LoggedIn(s: ClientState) {
    s.status == Some("logged_in")
  }

  /** `toDate(v)`: null for a falsy value or an invalid date. */
  function ToDate(v: Option<string>, parse: string -> Option<Instant>): (r: Option<Instant>)
    ensures Truthy(v) ==> r == parse(v.value)
    ensures !Truthy(v) ==> r.None?
  {
    if Truthy(v) then parse(v.value) else None
  }

  datatype StateKey = StatusKey | ClockInKey | ClockOutKey | LunchStartKey | LunchEndKey | DurationKey | OvertimeKey

  /** The keys `fetchStatus` and `toggleAttendance` copy, and the lunch keys `endLunch` copies. */
  const AllKeys: seq<StateKey> := [StatusKey, ClockInKey, ClockOutKey, LunchStartKey, LunchEndKey, DurationKey, OvertimeKey]
  const LunchKeys: seq<StateKey> := [LunchStartKey, LunchEndKey, DurationKey, OvertimeKey]

  /** `if (k in j) state[k] = j[k]` for one key. */
  function CopyKey(s: ClientState, j: StatusJson, k: StateKey): ClientState {
    match k
    case StatusKey => if j.status.Present? then s.(status := j.status.value) else s
    case ClockInKey => if j.lastClockInAt.Present? then s.(lastClockInAt := j.lastClockInAt.value) else s
    case ClockOutKey => if j.lastClockOutAt.Present? then s.(lastClockOutAt := j.lastClockOutAt.value) else s
    case LunchStartKey => if j.lunchStartAt.Present? then s.(lunchStartAt := j.lunchStartAt.value) else s
    case LunchEndKey => if j.lunchEndAt.Present? then s.(lunchEndAt := j.lunchEndAt.value) else s
    case DurationKey => if j.lunchDurationMins.Present? then s.(lunchDurationMins := j.lunchDurationMins.value) else s
    case OvertimeKey => if j.lunchOvertime.Present? then s.(lunchOvertime := j.lunchOvertime.value) else s
  }

  /** The key-copy loop over `keys`, one key after the other. */
  function MergeKeys(s: ClientState, j: StatusJson, keys: seq<StateKey>): ClientState
    decreases |keys|
  {
    if |keys| == 0 then s else CopyKey(MergeKeys(s, j, keys[..|keys| - 1]), j, keys[|keys| - 1])
  }

  /** The value a key leaves: the response's when present, the old one otherwise. */
  function Pick<T>(k: Key<T>, current: T): T {
    if k.Present? then k.value else current
  }

  /** Copying one more key extends the merge by that key. */
  lemma MergeKeysSnoc(s: ClientState, j: StatusJson, keys: seq<StateKey>, k: StateKey)
    ensures MergeKeys(s, j, keys + [k]) == CopyKey(MergeKeys(s, j, keys), j, k)
  {
    assert (keys + [k])[..|keys|] == keys;
  }

  /** The lunch merge of `endLunch` replaces the present lunch fields and keeps status and clock times. */
  lemma MergeLunchKeys(s: ClientState, j: StatusJson)
    ensures MergeKeys(s, j, LunchKeys) == s.(
              lunchStartAt := Pick(j.lunchStartAt, s.lunchStartAt), lunchEndAt := Pick(j.lunchEndAt, s.lunchEndAt),
              lunchDurationMins := Pick(j.lunchDurationMins, s.lunchDurationMins),
              lunchOvertime := Pick(j.lunchOvertime, s.lunchOvertime))
  {
    var m := s;
    assert MergeKeys(s, j, []) == m;
    MergeKeysSnoc(s, j, [], LunchStartKey);
    assert [] + [LunchStartKey] == [LunchStartKey];
    m := CopyKey(m, j, LunchStartKey);
    assert MergeKeys(s, j, [LunchStartKey]) == m;
    MergeKeysSnoc(s, j, [LunchStartKey], LunchEndKey);
    assert [LunchStartKey] + [LunchEndKey] == [LunchStartKey, LunchEndKey];
    m := CopyKey(m, j, LunchEndKey);
    assert MergeKeys(s, j, [LunchStartKey, LunchEndKey]) == m;
    MergeKeysSnoc(s, j, [LunchStartKey, LunchEndKey], DurationKey);
    assert [LunchStartKey, LunchEndKey] + [DurationKey] == [LunchStartKey, LunchEndKey, DurationKey];
    m := CopyKey(m, j, DurationKey);
    assert MergeKeys(s, j, [LunchStartKey, LunchEndKey, DurationKey]) == m;
    MergeKeysSnoc(s, j, [LunchStartKey, LunchEndKey, DurationKey], OvertimeKey);
    assert [LunchStartKey, LunchEndKey, DurationKey] + [OvertimeKey] == [LunchStartKey, LunchEndKey, DurationKey, OvertimeKey];
    m := CopyKey(m, j, OvertimeKey);
    assert MergeKeys(s, j, [LunchStartKey, LunchEndKey, DurationKey, OvertimeKey]) == m;
  }

  /** The full merge replaces exactly the fields present in the response (explicit nulls included). */
  lemma MergeAllKeys(s: ClientState, j: StatusJson)
    ensures MergeKeys(s, j, AllKeys) == ClientState(
              Pick(j.status, s.status),
              Pick(j.lastClockInAt, s.lastClockInAt), Pick(j.lastClockOutAt, s.lastClockOutAt),
              Pick(j.lunchStartAt, s.lunchStartAt), Pick(j.lunchEndAt, s.lunchEndAt),
              Pick(j.lunchDurationMins, s.lunchDurationMins), Pick(j.lunchOvertime, s.lunchOvertime))
  {
    var m := s;
    assert MergeKeys(s, j, []) == m;
    MergeKeysSnoc(s, j, [], StatusKey);
    assert [] + [StatusKey] == [StatusKey];
    m := CopyKey(m, j, StatusKey);
    assert MergeKeys(s, j, [StatusKey]) == m;
    MergeKeysSnoc(s, j, [StatusKey], ClockInKey);
    assert [StatusKey] + [ClockInKey] == [StatusKey, ClockInKey];
    m := CopyKey(m, j, ClockInKey);
    assert MergeKeys(s, j, [StatusKey, ClockInKey]) == m;
    MergeKeysSnoc(s, j, [StatusKey, ClockInKey], ClockOutKey);
    assert [StatusKey, ClockInKey] + [ClockOutKey] == [StatusKey, ClockInKey, ClockOutKey];
    m := CopyKey(m, j, ClockOutKey);
    assert MergeKeys(s, j, [StatusKey, ClockInKey, ClockOutKey]) == m;
    assert AllKeys == [StatusKey, ClockInKey, ClockOutKey] + LunchKeys;
    MergeKeysAppend(s, j, [StatusKey, ClockInKey, ClockOutKey], LunchKeys);
    MergeLunchKeys(m, j);
  }

  /** Merging two key lists one after the other is merging their concatenation. */
  lemma {:induction false} MergeKeysAppend(s: ClientState, j: StatusJson, a: seq<StateKey>, b: seq<StateKey>)
    ensures MergeKeys(s, j, a + b) == MergeKeys(MergeKeys(s, j, a), j, b)
    decreases |b|
  {
    if |b| == 0 {
      assert a + b == a;
    } else {
      var c := b[..|b| - 1];
      assert (a + b)[..|a + b| - 1] == a + c;
      MergeKeysAppend(s, j, a, c);
    }
  }

  /**
   * The repairs after a merge: a clock-out earlier than the clock-in is cleared, and without a
   * lunch end there is no duration and no overtime.
   */
  function Repair(s: ClientState, parse: string -> Option<Instant>): (r: ClientState)
    ensures !(ToDate(r.lastClockInAt, parse).Some? && ToDate(r.lastClockOutAt, parse).Some?
              && ToDate(r.lastClockOutAt, parse).value < ToDate(r.lastClockInAt, parse).value)
    ensures !Truthy(r.lunchEndAt) ==> r.lunchDurationMins.None? && !r.lunchOvertime
    ensures r.status == s.status && r.lastClockInAt == s.lastClockInAt
    ensures r.lunchStartAt == s.lunchStartAt && r.lunchEndAt == s.lunchEndAt
    ensures r.lastClockOutAt == s.lastClockOutAt || r.lastClockOutAt.None?
    ensures Truthy(s.lunchEndAt) ==> r.lunchDurationMins == s.lunchDurationMins && r.lunchOvertime == s.lunchOvertime
  {
    var inD, outD := ToDate(s.lastClockInAt, parse), ToDate(s.lastClockOutAt, parse);
    var s1 := if inD.Some? && outD.Some? && outD.value < inD.value then s.(lastClockOutAt := None) else s;
    if !Truthy(s1.lunchEndAt) then s1.(lunchDurationMins := None, lunchOvertime := false) else s1
  }

  /** A clock-out is cleared only when it reads as earlier than the clock-in. */
  lemma RepairClearsOnlyEarlierClockOut(s: ClientState, parse: string -> Option<Instant>)
    ensures Repair(s, parse).lastClockOutAt != s.lastClockOutAt <==>
              && ToDate(s.lastClockInAt, parse).Some? && ToDate(s.lastClockOutAt, parse).Some?
              && ToDate(s.lastClockOutAt, parse).value < ToDate(s.lastClockInAt, parse).value
  {
  }

  /** Repairing a repaired state changes nothing. */
  lemma RepairIdempotent(s: ClientState, parse: string -> Option<Instant>)
    ensures Repair(Repair(s, parse), parse) == Repair(s, parse)
  {
    var r := Repair(s, parse);
    assert !(ToDate(r.lastClockInAt, parse).Some? && ToDate(r.lastClockOutAt, parse).Some?
             && ToDate(r.lastClockOutAt, parse).value < ToDate(r.lastClockInAt, parse).value);
  }

  /** What the page shows. */
  datatype View = View(
    pillIn: bool, pillText: string, toggleText: string,
    clockInText: string, clockOutText: string,
    lunchCardShown: bool, lunchStartText: string, lunchEndText: string,
    durationText: string, durationOvertime: bool,
    startDisabled: bool, endDisabled: bool)

  /** The page before its first update. */
  const PageView: View := View(false, "", "", "—", "—", false, "—", "—", "—", false, false, true)

  /** `formatShort(toDate(v))` behind a truthiness test: '—' unless `v` reads as a date. */
  function Short(v: Option<string>, parse: string -> Option<Instant>, localize: Instant -> string): (r: string)
    ensures ToDate(v, parse).None? ==> r == "—"
    ensures ToDate(v, parse).Some? ==> r == localize(ToDate(v, parse).value)
  {
    match ToDate(v, parse)
    case None => "—"
    case Some(d) => localize(d)
  }

  /** The lunch card is hidden when there is no lunch start, no lunch end and no duration. */
  predicate LunchCardHidden(s: ClientState) {
    !Truthy(s.lunchStartAt) && !Truthy(s.lunchEndAt) && s.lunchDurationMins.None?
  }

  /** `updateUIFromState` on the page `v` (parts it does not touch keep their old text). */
  function NextView(v: View, s: ClientState, parse: string -> Option<Instant>, localize: Instant -> string): (r: View)
    ensures r.pillIn == LoggedIn(s)
    ensures r.pillText == (if LoggedIn(s) then "Logged In" else "Not Logged In")
    ensures r.toggleText == (if LoggedIn(s) then "Clock Out" else "Clock In")
    ensures r.clockInText == Short(s.lastClockInAt, parse, localize)
    ensures r.clockOutText == Short(s.lastClockOutAt, parse, localize)
    ensures r.lunchCardShown <==> !LunchCardHidden(s)
    ensures r.startDisabled <==> Truthy(s.lunchStartAt) && !Truthy(s.lunchEndAt)
    ensures r.endDisabled <==> !r.startDisabled
    ensures LunchCardHidden(s) ==>
              && r.lunchStartText == v.lunchStartText && r.lunchEndText == v.lunchEndText
              && r.durationText == v.durationText && r.durationOvertime == v.durationOvertime
    ensures !LunchCardHidden(s) ==>
              r.lunchStartText == Short(s.lunchStartAt, parse, localize) && r.lunchEndText == Short(s.lunchEndAt, parse, localize)
    ensures !LunchCardHidden(s) && Truthy(s.lunchEndAt) && s.lunchDurationMins.Some? ==>
              r.durationText == IntToString(s.lunchDurationMins.value) + " min" && r.durationOvertime == s.lunchOvertime
    ensures !LunchCardHidden(s) && Truthy(s.lunchEndAt) && s.lunchDurationMins.None? ==>
              r.durationText == "—" && !r.durationOvertime
    ensures !LunchCardHidden(s) && !Truthy(s.lunchEndAt) ==>
              r.durationText == "—" && r.durationOvertime == v.durationOvertime
  {
    var loggedIn := LoggedIn(s);
    var hidden := LunchCardHidden(s);
    var startText := if hidden then v.lunchStartText else Short(s.lunchStartAt, parse, localize);
    var endText := if hidden then v.lunchEndText else Short(s.lunchEndAt, parse, localize);
    var durText :=
      if hidden then v.durationText
      else if Truthy(s.lunchEndAt) && s.lunchDurationMins.Some? then IntToString(s.lunchDurationMins.value) + " min"
      else "—";
    var durOver :=
      if hidden then v.durationOvertime
      else if Truthy(s.lunchEndAt) then s.lunchDurationMins.Some? && s.lunchOvertime
      else v.durationOvertime;
    var lunchOpen := Truthy(s.lunchStartAt) && !Truthy(s.lunchEndAt);
    View(loggedIn, if loggedIn then "Logged In" else "Not Logged In", if loggedIn then "Clock Out" else "Clock In",
         Short(s.lastClockInAt, parse, localize), Short(s.lastClockOutAt, parse, localize),
         !hidden, startText, endText, durText, durOver, lunchOpen, !lunchOpen)
  }

  /** After a repair, a shown lunch card has a duration only when lunch has ended. */
  lemma RepairedViewShowsDurationOnlyAfterEnd(v: View, s: ClientState, parse: string -> Option<Instant>, localize: Instant -> string)
    ensures var r := Repair(s, parse);
            var w := NextView(v, r, parse, localize);
            w.lunchCardShown && !Truthy(r.lunchEndAt) ==> w.durationText == "—"
  {
  }

  /** One reading of the countdown: no valid start, minutes left, or overtime. */
  datatype Reading = NoStart | Left(minutes: int) | Overtime

  /** The lunch allowance, in minutes. */
  const LunchMinutes: int := 30

  /** `tick`'s reading at `now`: `30 - floor(elapsed / 1 min)`, overtime once that is at most 0. */
  function TickOf(start: Option<string>, now: Instant, parse: string -> Option<Instant>): (r: Reading)
    ensures r.NoStart? <==> ToDate(start, parse).None?
    ensures r.Overtime? <==> ToDate(start, parse).Some? && now - ToDate(start, parse).value >= LunchMinutes * MsPerMinute
    ensures r.Left? ==>
              && r.minutes >= 1
              && (LunchMinutes - r.minutes) * MsPerMinute <= now - ToDate(start, parse).value
              && now - ToDate(start, parse).value < (LunchMinutes - r.minutes + 1) * MsPerMinute
  {
    match ToDate(start, parse)
    case None => NoStart
    case Some(d) =>
      var remaining := LunchMinutes - FloorMinutes(now - d);
      if remaining <= 0 then Overtime else Left(remaining)
  }

  /** As time passes the minutes left never grow, and overtime stays overtime. */
  lemma TickMonotone(start: Option<string>, now: Instant, later: Instant, parse: string -> Option<Instant>)
    requires now <= later
    ensures TickOf(start, now, parse).Overtime? ==> TickOf(start, later, parse).Overtime?
    ensures TickOf(start, now, parse).Left? && TickOf(start, later, parse).Left? ==>
              TickOf(start, later, parse).minutes <= TickOf(start, now, parse).minutes
  {
    var d := ToDate(start, parse);
    if d.Some? {
      var a, b := FloorMinutes(now - d.value), FloorMinutes(later - d.value);
      assert a <= b by {
        FloorMonotone(now - d.value, later - d.value);
      }
    }
  }

  lemma FloorMonotone(x: int, y: int)
    requires x <= y
    ensures FloorMinutes(x) <= FloorMinutes(y)
  {
  }

  /** The countdown's text. */
  function CounterText(r: Reading): (t: string)
    ensures r.Overtime? ==> t == "0 min (Overtime)"
    ensures r.NoStart? ==> t == ""
    ensures r.Left? ==> t == IntToString(r.minutes) + " min left"
  {
    match r
    case NoStart => ""
    case Left(n) => IntToString(n) + " min left"
    case Overtime => "0 min (Overtime)"
  }

  /**
   * The countdown element and its timer: whether the 20-second interval is running, the
   * lunch start it counts from, and the element's text and overtime class.
   */
  datatype Countdown = Countdown(running: bool, start: Option<string>, text: string, overtime: bool)

  /** The local guard of `toggleAttendance`: clocking out before the recorded clock-in is refused. */
  predicate ToggleRefused(s: ClientState, now: Instant, parse: string -> Option<Instant>) {
    LoggedIn(s) && ToDate(s.lastClockInAt, parse).Some? && now < ToDate(s.lastClockInAt, parse).value
  }

  /** The local guards of `endLunch`. */
  datatype EndGuard = NoLunchStart | ClockBehindStart | MayEnd

  function EndLunchGuard(s: ClientState, now: Instant, parse: string -> Option<Instant>): (g: EndGuard)
    ensures g == NoLunchStart <==> !Truthy(s.lunchStartAt)
    ensures g == ClockBehindStart <==> Truthy(s.lunchStartAt) && ToDate(s.lunchStartAt, parse).Some?
                                         && now < ToDate(s.lunchStartAt, parse).value
  {
    if !Truthy(s.lunchStartAt) then NoLunchStart
    else if ToDate(s.lunchStartAt, parse).Some? && now < ToDate(s.lunchStartAt, parse).value then ClockBehindStart
    else MayEnd
  }

  /** A request to `/api/student/status`: not OK, thrown, or a body whose JSON may be unreadable. */
  datatype StatusResponse = StatusNotOk(code: int) | StatusThrew | StatusBody(json: Option<StatusJson>)

  /** A POST through `postJson`: an error status, or success with a JSON body that may be unreadable. */
  datatype PostReply = PostFailed(code: int, text: Option<string>) | PostOk(json: Option<StatusJson>)

  datatype ActionOutcome = Refused | Failed(code: int) | Done

  /**
   * The countdown after `updateUIFromState`: stopped when the lunch card is hidden or lunch has
   * ended, restarted from the lunch start while lunch is open, and left alone otherwise.
   */
  function Redrawn(c: Countdown, s: ClientState, now: Instant, parse: string -> Option<Instant>): Countdown {
    if LunchCardHidden(s) || Truthy(s.lunchEndAt) then c.(running := false, text := "", overtime := false)
    else if Truthy(s.lunchStartAt) then
      var r := TickOf(s.lunchStartAt, now, parse);
      Countdown(true, s.lunchStartAt, CounterText(r), if r.NoStart? then c.overtime else r.Overtime?)
    else c
  }

  class Dashboard {
    var state: ClientState
    var view: View
    var countdown: Countdown

    /** The page after `DOMContentLoaded`'s first `updateUIFromState`. */
    constructor (parse: string -> Option<Instant>, localize: Instant -> string)
      ensures state == InitialState
      ensures view == NextView(PageView, InitialState, parse, localize)
      ensures countdown == Countdown(false, None, "", false)
    {
      state := InitialState;
      view := NextView(PageView, InitialState, parse, localize);
      countdown := Countdown(false, None, "", false);
    }

    /** `stopLunchCountdown`. */
    method StopCountdown()
      modifies this
      ensures state == old(state) && view == old(view)
      ensures countdown == old(countdown).(running := false, text := "", overtime := false)
    {
      countdown := countdown.(text := "", overtime := false);
      if countdown.running {
        countdown := countdown.(running := false);
      }
    }

    /** `tick()` of a countdown counting from `countdown.start`: an overtime reading stops the timer. */
    method Tick(now: Instant, parse: string -> Option<Instant>)
      modifies this
      ensures state == old(state) && view == old(view)
      ensures var r := TickOf(old(countdown).start, now, parse);
              countdown == old(countdown).(
                running := old(countdown).running && !r.Overtime?,
                text := CounterText(r),
                overtime := if r.NoStart? then old(countdown).overtime else r.Overtime?)
    {
      var r := TickOf(countdown.start, now, parse);
      match r {
        case NoStart =>
          countdown := countdown.(text := "");
        case Overtime =>
          countdown := countdown.(text := "0 min (Overtime)", overtime := true, running := false);
        case Left(n) =>
          countdown := countdown.(text := IntToString(n) + " min left", overtime := false);
      }
    }

    /**
     * `startLunchCountdown(start)`: the old timer is cleared, one tick runs at once, and then a
     * new interval is started, so the timer runs even when that first tick read overtime.
     */
    method StartCountdown(start: Option<string>, now: Instant, parse: string -> Option<Instant>)
      modifies this
      ensures state == old(state) && view == old(view)
      ensures var r := TickOf(start, now, parse);
              countdown == Countdown(true, start, CounterText(r), if r.NoStart? then old(countdown).overtime else r.Overtime?)
    {
      countdown := countdown.(running := false, start := start);
      Tick(now, parse);
      countdown := countdown.(running := true);
    }

    /**
     * `updateUIFromState`: the page redrawn from the state; the countdown stops when the card
     * is hidden or lunch has ended, and restarts from the lunch start while lunch is open.
     */
    method UpdateUI(now: Instant, parse: string -> Option<Instant>, localize: Instant -> string)
      modifies this
      ensures state == old(state)
      ensures view == NextView(old(view), state, parse, localize)
      ensures countdown == Redrawn(old(countdown), state, now, parse)
      ensures LunchCardHidden(state) || Truthy(state.lunchEndAt) ==>
                countdown == old(countdown).(running := false, text := "", overtime := false)
      ensures !LunchCardHidden(state) && !Truthy(state.lunchEndAt) && Truthy(state.lunchStartAt) ==>
                var r := TickOf(state.lunchStartAt, now, parse);
                countdown == Countdown(true, state.lunchStartAt, CounterText(r),
                                       if r.NoStart? then old(countdown).overtime else r.Overtime?)
      ensures !LunchCardHidden(state) && !Truthy(state.lunchEndAt) && !Truthy(state.lunchStartAt) ==>
                countdown == old(countdown)
    {
      view := NextView(view, state, parse, localize);
      if LunchCardHidden(state) || Truthy(state.lunchEndAt) {
        StopCountdown();
      } else if Truthy(state.lunchStartAt) {
        StartCountdown(state.lunchStartAt, now, parse);
      }
    }

    /** The key-copy loop: each key of `keys` present in `j` is copied into the state. */
    method MergeResponse(j: StatusJson, keys: seq<StateKey>)
      modifies this
      ensures state == MergeKeys(old(state), j, keys)
      ensures view == old(view) && countdown == old(countdown)
    {
      for i := 0 to |keys|
        invariant state == MergeKeys(old(state), j, keys[..i])
        invariant view == old(view) && countdown == old(countdown)
      {
        assert keys[..i + 1][..i] == keys[..i];
        state := CopyKey(state, j, keys[i]);
      }
      assert keys[..|keys|] == keys;
    }

    /**
     * `fetchStatus`: a readable response is merged key by key, repaired and drawn; `ok` says
     * whether it was. Anything else leaves the page as it was.
     */
    method FetchStatus(resp: StatusResponse, now: Instant, parse: string -> Option<Instant>, localize: Instant -> string)
      returns (ok: bool)
      modifies this
      ensures ok <==> resp.StatusBody? && resp.json.Some?
      ensures !ok ==> state == old(state) && view == old(view) && countdown == old(countdown)
      ensures ok ==> state == Repair(MergeKeys(old(state), resp.json.value, AllKeys), parse)
      ensures ok ==> view == NextView(old(view), state, parse, localize)
      ensures ok ==> countdown == Redrawn(old(countdown), state, now, parse)
    {
      if !(resp.StatusBody? && resp.json.Some?) {
        return false;
      }
      MergeResponse(resp.json.value, AllKeys);
      var inD, outD := ToDate(state.lastClockInAt, parse), ToDate(state.lastClockOutAt, parse);
      if inD.Some? && outD.Some? && outD.value < inD.value {
        state := state.(lastClockOutAt := None);
      }
      if !Truthy(state.lunchEndAt) {
        state := state.(lunchDurationMins := None, lunchOvertime := false);
      }
      UpdateUI(now, parse, localize);
      ok := true;
    }

    /**
     * `toggleAttendance`: refused locally when clocking out before the recorded clock-in;
     * otherwise the toggle reply is merged and the status is fetched again (`refresh`).
     */
    method Toggle(now: Instant, reply: PostReply, refresh: StatusResponse,
                  parse: string -> Option<Instant>, localize: Instant -> string)
      returns (outcome: ActionOutcome)
      modifies this
      ensures ToggleRefused(old(state), now, parse) ==>
                outcome == Refused && state == old(state) && view == old(view) && countdown == old(countdown)
      ensures !ToggleRefused(old(state), now, parse) && reply.PostFailed? ==>
                outcome == Failed(reply.code) && state == old(state) && view == old(view) && countdown == old(countdown)
      ensures !ToggleRefused(old(state), now, parse) && reply.PostOk? ==>
                var merged := if reply.json.Some? then MergeKeys(old(state), reply.json.value, AllKeys) else old(state);
                && outcome == Done
                && (refresh.StatusBody? && refresh.json.Some? ==>
                      && state == Repair(MergeKeys(merged, refresh.json.value, AllKeys), parse)
                      && view == NextView(old(view), state, parse, localize)
                      && countdown == Redrawn(old(countdown), state, now, parse))
                && (!(refresh.StatusBody? && refresh.json.Some?) ==>
                      state == merged && view == old(view) && countdown == old(countdown))
    {
      if ToggleRefused(state, now, parse) {
        return Refused;
      }
      if reply.PostFailed? {
        return Failed(reply.code);
      }
      if reply.json.Some? {
        MergeResponse(reply.json.value, AllKeys);
      }
      var _ := FetchStatus(refresh, now, parse, localize);
      outcome := Done;
    }

    /** `startLunch`: a successful reply sets the lunch start (when it carries one) and clears the rest of lunch. */
    method StartLunch(now: Instant, reply: PostReply, parse: string -> Option<Instant>, localize: Instant -> string)
      returns (outcome: ActionOutcome)
      modifies this
      ensures reply.PostFailed? ==>
                outcome == Failed(reply.code) && state == old(state) && view == old(view) && countdown == old(countdown)
      ensures reply.PostOk? ==>
                var given := reply.json.Some? && reply.json.value.lunchStartAt.Present? && Truthy(reply.json.value.lunchStartAt.value);
                && outcome == Done
                && state == old(state).(lunchStartAt := if given then reply.json.value.lunchStartAt.value else old(state).lunchStartAt,
                                        lunchEndAt := None, lunchDurationMins := None, lunchOvertime := false)
                && view == NextView(old(view), state, parse, localize)
                && countdown == Redrawn(old(countdown), state, now, parse)
    {
      if reply.PostFailed? {
        return Failed(reply.code);
      }
      if reply.json.Some? && reply.json.value.lunchStartAt.Present? && Truthy(reply.json.value.lunchStartAt.value) {
        state := state.(lunchStartAt := reply.json.value.lunchStartAt.value);
      }
      state := state.(lunchEndAt := None, lunchDurationMins := None, lunchOvertime := false);
      UpdateUI(now, parse, localize);
      outcome := Done;
    }

    /**
     * `endLunch`: refused locally without a lunch start or when the clock is behind it;
     * otherwise the reply's lunch keys are merged and the status is fetched again.
     */
    method EndLunch(now: Instant, reply: PostReply, refresh: StatusResponse,
                    parse: string -> Option<Instant>, localize: Instant -> string)
      returns (outcome: ActionOutcome)
      modifies this
      ensures EndLunchGuard(old(state), now, parse) != MayEnd ==>
                outcome == Refused && state == old(state) && view == old(view) && countdown == old(countdown)
      ensures EndLunchGuard(old(state), now, parse) == MayEnd && reply.PostFailed? ==>
                outcome == Failed(reply.code) && state == old(state) && view == old(view) && countdown == old(countdown)
      ensures EndLunchGuard(old(state), now, parse) == MayEnd && reply.PostOk? ==>
                var merged := if reply.json.Some? then MergeKeys(old(state), reply.json.value, LunchKeys) else old(state);
                && outcome == Done
                && (refresh.StatusBody? && refresh.json.Some? ==>
                      && state == Repair(MergeKeys(merged, refresh.json.value, AllKeys), parse)
                      && view == NextView(old(view), state, parse, localize)
                      && countdown == Redrawn(old(countdown), state, now, parse))
                && (!(refresh.StatusBody? && refresh.json.Some?) ==>
                      state == merged && view == old(view) && countdown == old(countdown))
    {
      if EndLunchGuard(state, now, parse) != MayEnd {
        return Refused;
      }
      if reply.PostFailed? {
        return Failed(reply.code);
      }
      if reply.json.Some? {
        MergeResponse(reply.json.value, LunchKeys);
      }
      var _ := FetchStatus(refresh, now, parse, localize);
      outcome := Done;
    }
  }

  /** A clock-out the toggle guard lets through is never earlier than the recorded clock-in. */
  lemma ToggleGuardMeaning(s: ClientState, now: Instant, parse: string -> Option<Instant>)
    requires LoggedIn(s) && ToDate(s.lastClockInAt, parse).Some?
    ensures !ToggleRefused(s, now, parse) <==> ToDate(s.lastClockInAt, parse).value <= now
  {
  }
}
