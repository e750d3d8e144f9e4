/**
 * The clamped meeting duration computed both by the statistics
 * reconciliation (models/Meeting.js:339-355) and by the log analytics
 * (routes/logs.js:145-215): whole seconds from start to end (or to now,
 * while the meeting has no end), floored, never below 0 and capped at two hours.
 */
module Duration {
  import opened Wrappers

  /** A JavaScript Date: a millisecond timestamp, or an invalid date whose getTime() is NaN. */
  datatype Instant = At(ms: int) | InvalidDate

  const MaxDurationSeconds: nat := 2 * 60 * 60

  /** `Math.max(0, x)` followed by the cap at two hours. */
  function ClampSeconds(x: int): nat {
    if x < 0 then 0 else if x > MaxDurationSeconds then MaxDurationSeconds else x
  }

  /** `endTime` when set, otherwise the current time. */
  function EffectiveEnd(end: Option<Instant>, nowMs: int): Instant {
    if end.Some? then end.value else At(nowMs)
  }

  /**
   * Duration in seconds: 0 without a valid start or with an invalid end;
   * otherwise floor((end - start) / 1000) clamped to [0, 7200]. Dafny's
   * division by a positive divisor rounds down, as `Math.floor` does.
   */
  function ElapsedSeconds(start: Option<Instant>, end: Option<Instant>, nowMs: int): (d: nat)
    ensures d <= MaxDurationSeconds
    ensures !(start.Some? && start.value.At?) ==> d == 0
    ensures EffectiveEnd(end, nowMs).InvalidDate? ==> d == 0
  {
    match start
    case None => 0
    case Some(InvalidDate) => 0
    case Some(At(s)) =>
      match EffectiveEnd(end, nowMs)
      case InvalidDate => 0
      case At(e) => ClampSeconds((e - s) / 1000)
  }

  /**
   * With valid instants the duration is the elapsed time in whole seconds,
   * rounded down, except that an end before the start gives 0 and anything
   * from two hours on gives 7200.
   */
  lemma ElapsedSecondsMeaning(s: int, end: Option<Instant>, nowMs: int)
    requires EffectiveEnd(end, nowMs).At?
    ensures var e := EffectiveEnd(end, nowMs).ms;
            var d := ElapsedSeconds(Some(At(s)), end, nowMs);
            && (e < s ==> d == 0)
            && (e - s >= MaxDurationSeconds * 1000 ==> d == MaxDurationSeconds)
            && (s <= e < s + MaxDurationSeconds * 1000 ==> d * 1000 <= e - s < d * 1000 + 1000)
  {
  }

  /** A later end never gives a shorter duration. */
  lemma ElapsedSecondsMonotone(s: int, e1: int, e2: int, nowMs: int)
    requires e1 <= e2
    ensures ElapsedSeconds(Some(At(s)), Some(At(e1)), nowMs) <= ElapsedSeconds(Some(At(s)), Some(At(e2)), nowMs)
  {
    assert (e1 - s) / 1000 <= (e2 - s) / 1000 by {
      DivMonotone(e1 - s, e2 - s, 1000);
    }
  }

  lemma DivMonotone(a: int, b: int, k: int)
    requires a <= b && k > 0
    ensures a / k <= b / k
  {
    if a / k > b / k {
      assert (a / k) * k >= (b / k + 1) * k by {
        assert a / k >= b / k + 1;
        MulMonotone(b / k + 1, a / k, k);
      }
    }
  }

  lemma MulMonotone(x: int, y: int, k: int)
    requires x <= y && k >= 0
    ensures x * k <= y * k
  {
  }
}
