/** Values shared by every part of the attendance portal model. */
module Common {

  /** A value that may be absent: JavaScript's null/undefined on one side, a value on the other. */
  datatype Option<+T> = None | Some(value: T)

  /** A JavaScript string value is truthy when it is present and not empty. */
  predicate Truthy(s: Option<string>) {
    s.Some? && s.value != ""
  }

  /** JavaScript's `a || b` on two optional strings: the first truthy one, else `b`. */
  function Or(a: Option<string>, b: Option<string>): (r: Option<string>)
    ensures Truthy(r) <==> Truthy(a) || Truthy(b)
    ensures Truthy(a) ==> r == a
    ensures !Truthy(a) ==> r == b
  {
    if Truthy(a) then a else b
  }

  /** An instant, in milliseconds since the epoch (what `Date.getTime()` returns). */
  type Instant = int

  const MsPerMinute: int := 60000
  const MsPerHour: int := 3600000

  function Max(a: int, b: int): (m: int)
    ensures m >= a && m >= b && (m == a || m == b)
  {
    if a < b then b else a
  }

  /** `Math.round(ms / 60000)`: the whole number of minutes nearest to `ms`, halves rounded up. */
  function RoundMinutes(ms: int): (r: int)
    ensures r * MsPerMinute - 30000 <= ms < r * MsPerMinute + 30000
  {
    (ms + 30000) / MsPerMinute
  }

  /** `Math.floor(ms / 60000)`: the whole minutes elapsed in `ms`. */
  function FloorMinutes(ms: int): (r: int)
    ensures r * MsPerMinute <= ms < r * MsPerMinute + MsPerMinute
  {
    ms / MsPerMinute
  }

  /** The minute count is never negative for a non-negative span, and it is 0 exactly below 30 seconds. */
  lemma RoundMinutesNonNegative(ms: int)
    requires ms >= 0
    ensures RoundMinutes(ms) >= 0
    ensures RoundMinutes(ms) == 0 <==> ms < 30000
  {
  }
}
