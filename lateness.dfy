/**
 * The lateness rule both admin pages apply to a clock-in instant: on time up to and
 * including the deadline, otherwise late by the rounded number of minutes.
 */
module Lateness {
  import opened Common

  datatype Punctuality = OnTime | Late(minutes: int)

  /** `t <= deadline ? on time : late by Math.round((t - deadline) / 60000)`. */
  function Classify(t: Instant, deadline: Instant): (p: Punctuality)
    ensures p.OnTime? <==> t <= deadline
    ensures p.Late? ==> p.minutes >= 0
    ensures p.Late? ==> p.minutes * MsPerMinute - 30000 <= t - deadline < p.minutes * MsPerMinute + 30000
    ensures p.Late? ==> (p.minutes == 0 <==> t - deadline < 30000)
  {
    if t <= deadline then OnTime else Late(RoundMinutes(t - deadline))
  }

  /** Arriving later never looks better: the verdict is monotone in the arrival instant. */
  lemma ClassifyMonotone(t1: Instant, t2: Instant, deadline: Instant)
    requires t1 <= t2
    ensures Classify(t2, deadline).OnTime? ==> Classify(t1, deadline).OnTime?
    ensures Classify(t1, deadline).Late? ==> Classify(t2, deadline).Late?
                                             && Classify(t1, deadline).minutes <= Classify(t2, deadline).minutes
  {
    if t1 > deadline {
      var m1 := Classify(t1, deadline).minutes;
      var m2 := Classify(t2, deadline).minutes;
      assert m1 * MsPerMinute - 30000 <= t1 - deadline <= t2 - deadline < m2 * MsPerMinute + 30000;
    }
  }

  /** Moving the deadline by whole minutes moves every late count by the same amount. */
  lemma ClassifyShift(t: Instant, deadline: Instant, k: nat)
    requires t > deadline + k * MsPerMinute
    ensures Classify(t, deadline).Late? && Classify(t, deadline + k * MsPerMinute).Late?
    ensures Classify(t, deadline).minutes == Classify(t, deadline + k * MsPerMinute).minutes + k
  {
    var m1 := Classify(t, deadline).minutes;
    var m2 := Classify(t, deadline + k * MsPerMinute).minutes;
    assert (m2 + k) * MsPerMinute - 30000 <= t - deadline < (m2 + k) * MsPerMinute + 30000;
    RoundUnique(t - deadline, m1, m2 + k);
  }

  lemma RoundUnique(ms: int, a: int, b: int)
    requires a * MsPerMinute - 30000 <= ms < a * MsPerMinute + 30000
    requires b * MsPerMinute - 30000 <= ms < b * MsPerMinute + 30000
    ensures a == b
  {
    assert (a - b) * MsPerMinute < 60000 && (b - a) * MsPerMinute < 60000;
  }
}
