/**
 * The arithmetic of statistics reconciliation (models/Meeting.js:359-434):
 * bucket sanitisation, the per-state and super-bucket sums, the drift
 * correction that scales recorded time down to the meeting duration, and
 * the average-attention percentage.
 */
module Reconcile {
  import opened States
  import opened Ingestion

  const MaxBucketSeconds: int := 24 * 60 * 60

  /** Negative values become 0 and values above a day become a day. */
  function SanitizeValue(v: int): (r: int)
    ensures 0 <= r <= MaxBucketSeconds
    ensures 0 <= v <= MaxBucketSeconds ==> r == v
    ensures v < 0 ==> r == 0
    ensures v > MaxBucketSeconds ==> r == MaxBucketSeconds
    ensures v >= 0 ==> r <= v
  {
    if v < 0 then 0 else if v > MaxBucketSeconds then MaxBucketSeconds else v
  }

  /** Every counter sanitised; counters already within a day pass unchanged. */
  function Sanitize(b: Buckets): (r: Buckets)
    ensures NonNegative(r) && AtMost(r, MaxBucketSeconds)
  {
    Buckets(SanitizeValue(b.attentive), SanitizeValue(b.active), SanitizeValue(b.lookingAway),
            SanitizeValue(b.drowsy), SanitizeValue(b.absent), SanitizeValue(b.darkness))
  }

  /** Counters already within [0, 86400] pass unchanged. */
  lemma SanitizeInRange(b: Buckets)
    requires NonNegative(b) && AtMost(b, MaxBucketSeconds)
    ensures Sanitize(b) == b
  {
  }

  /** Sanitising acts on each state's counter on its own. */
  lemma SanitizeEachState(b: Buckets, s: State)
    ensures Get(Sanitize(b), s) == SanitizeValue(Get(b, s))
  {
  }

  /** Every participant with its buckets sanitised, nothing else changed. */
  function SanitizeAll(ps: seq<Participant>): (r: seq<Participant>)
    ensures |r| == |ps|
    ensures forall i :: 0 <= i < |ps| ==> r[i] == ps[i].(attentionData := Sanitize(ps[i].attentionData))
    ensures forall i :: 0 <= i < |ps| ==>
      && r[i].userId == ps[i].userId && r[i].snapshots == ps[i].snapshots
      && NonNegative(r[i].attentionData) && AtMost(r[i].attentionData, MaxBucketSeconds)
  {
    seq(|ps|, i requires 0 <= i < |ps| => ps[i].(attentionData := Sanitize(ps[i].attentionData)))
  }

  /** `stateBreakdown`: the per-state sums over all participants. */
  function SumBuckets(ps: seq<Participant>): Buckets {
    if ps == [] then Zero else Plus(SumBuckets(ps[..|ps| - 1]), ps[|ps| - 1].attentionData)
  }

  lemma SumBucketsSnoc(ps: seq<Participant>, p: Participant)
    ensures SumBuckets(ps + [p]) == Plus(SumBuckets(ps), p.attentionData)
  {
    assert (ps + [p])[..|ps|] == ps;
  }

  /** Sums of non-negative buckets are non-negative. */
  lemma {:induction false} SumBucketsNonNegative(ps: seq<Participant>)
    requires forall i :: 0 <= i < |ps| ==> NonNegative(ps[i].attentionData)
    ensures NonNegative(SumBuckets(ps))
  {
    if ps != [] {
      SumBucketsNonNegative(ps[..|ps| - 1]);
    }
  }

  /** Sums of buckets capped at a day stay within a day per participant. */
  lemma {:induction false} SumBucketsCap(ps: seq<Participant>)
    requires forall i :: 0 <= i < |ps| ==> AtMost(ps[i].attentionData, MaxBucketSeconds)
    ensures AtMost(SumBuckets(ps), MaxBucketSeconds * |ps|)
  {
    if ps != [] {
      SumBucketsCap(ps[..|ps| - 1]);
      assert MaxBucketSeconds * (|ps| - 1) + MaxBucketSeconds == MaxBucketSeconds * |ps|;
    }
  }

  /** The accumulated figures of one reconciliation. */
  datatype Totals = Totals(breakdown: Buckets, attentive: int, distracted: int, absent: int, total: int)

  /** The figures accumulated from one breakdown. */
  function TotalsOf(b: Buckets): Totals {
    Totals(b, AttentiveTime(b), DistractedTime(b), AbsentTime(b), Total(b))
  }

  /** The figures the sanitising pass accumulates over a list of participants. */
  function RawTotals(clean: seq<Participant>): Totals {
    TotalsOf(SumBuckets(clean))
  }

  /**
   * The sanitising pass: sanitise each participant's buckets in place while
   * accumulating the per-state sums, the three super-buckets and the total.
   */
  method SanitizeAndSum(ps: seq<Participant>)
    returns (clean: seq<Participant>, breakdown: Buckets,
             attentiveTime: int, distractedTime: int, absentTime: int, totalTime: int)
    ensures clean == SanitizeAll(ps)
    ensures breakdown == SumBuckets(clean) && NonNegative(breakdown)
    ensures TotalsOf(breakdown) == Totals(breakdown, attentiveTime, distractedTime, absentTime, totalTime)
    ensures totalTime == attentiveTime + distractedTime + absentTime
  {
    clean := [];
    breakdown := Zero;
    attentiveTime, distractedTime, absentTime, totalTime := 0, 0, 0, 0;
    for i := 0 to |ps|
      invariant |clean| == i
      invariant forall k :: 0 <= k < i ==> clean[k] == ps[k].(attentionData := Sanitize(ps[k].attentionData))
      invariant breakdown == SumBuckets(clean)
      invariant attentiveTime == breakdown.attentive + breakdown.active
      invariant distractedTime == breakdown.lookingAway + breakdown.drowsy
      invariant absentTime == breakdown.absent + breakdown.darkness
      invariant totalTime == attentiveTime + distractedTime + absentTime
    {
      var p := ps[i].(attentionData := Sanitize(ps[i].attentionData));
      var data := p.attentionData;
      breakdown := Plus(breakdown, data);
      var participantAttentive := data.attentive + data.active;
      var participantDistracted := data.lookingAway + data.drowsy;
      var participantAbsent := data.absent + data.darkness;
      attentiveTime := attentiveTime + participantAttentive;
      distractedTime := distractedTime + participantDistracted;
      absentTime := absentTime + participantAbsent;
      totalTime := totalTime + participantAttentive + participantDistracted + participantAbsent;
      SumBucketsSnoc(clean, p);
      clean := clean + [p];
    }
    SumBucketsNonNegative(clean);
  }

  // ---------------------------------------------------------------------
  // Drift correction
  // ---------------------------------------------------------------------

  /** `Math.floor(x * (d / t))`, taken exactly: floor(x * d / t). */
  function Scale(x: int, d: nat, t: nat): int
    requires t > 0
  {
    x * d / t
  }

  function Rescale(b: Buckets, d: nat, t: nat): Buckets
    requires t > 0
  {
    Buckets(Scale(b.attentive, d, t), Scale(b.active, d, t), Scale(b.lookingAway, d, t),
            Scale(b.drowsy, d, t), Scale(b.absent, d, t), Scale(b.darkness, d, t))
  }

  lemma MulLe(a: int, b: int, c: int)
    requires a <= b && c >= 0
    ensures a * c <= b * c
  {
  }

  /** Floor-scaling by d/t with d <= t keeps a non-negative value non-negative and never raises it. */
  lemma ScaleBounds(x: int, d: nat, t: nat)
    requires x >= 0 && t > 0 && d <= t
    ensures 0 <= Scale(x, d, t) <= x
    ensures Scale(x, d, t) * t <= x * d < Scale(x, d, t) * t + t
  {
    var q := x * d / t;
    assert x * d >= 0 by { MulLe(0, x, d); }
    assert q * t + (x * d) % t == x * d;
    assert x * d <= x * t by { MulLe(d, t, x); }
    if q > x {
      MulLe(x + 1, q, t);
    }
  }

  /** Floor-scaling is monotone. */
  lemma ScaleMonotone(x: int, y: int, d: nat, t: nat)
    requires x <= y && t > 0
    ensures Scale(x, d, t) <= Scale(y, d, t)
  {
    MulLe(x, y, d);
    var a, b := x * d, y * d;
    if a / t > b / t {
      MulLe(b / t + 1, a / t, t);
    }
  }

  lemma SumOfProducts(a: int, b: int, c: int, e: int, f: int, g: int, k: int)
    ensures (a + b + c + e + f + g) * k == a * k + b * k + c * k + e * k + f * k + g * k
  {
  }

  /** From a * t <= b * t with t > 0, a <= b. */
  lemma CancelLe(a: int, b: int, t: int)
    requires t > 0 && a * t <= b * t
    ensures a <= b
  {
    if a > b {
      MulLe(b + 1, a, t);
    }
  }

  lemma SixGaps(p1: int, p2: int, p3: int, p4: int, p5: int, p6: int,
                e1: int, e2: int, e3: int, e4: int, e5: int, e6: int, t: int)
    requires p1 <= e1 < p1 + t && p2 <= e2 < p2 + t && p3 <= e3 < p3 + t
    requires p4 <= e4 < p4 + t && p5 <= e5 < p5 + t && p6 <= e6 < p6 + t
    ensures p1 + p2 + p3 + p4 + p5 + p6 <= e1 + e2 + e3 + e4 + e5 + e6 < p1 + p2 + p3 + p4 + p5 + p6 + 6 * t
  {
  }

  /** From a * t < b * t with t > 0, a < b. */
  lemma CancelLt(a: int, b: int, t: int)
    requires t > 0 && a * t < b * t
    ensures a < b
  {
    if a >= b {
      MulLe(b, a, t);
    }
  }

  lemma ShiftProduct(a: int, k: int, t: int)
    ensures (a - k) * t == t * a - k * t
  {
  }

  /**
   * Six non-negative parts of t, each floor-scaled by d/t, add up to d
   * short by at most five (one unit of rounding for each but one part).
   */
  lemma FloorSumNear(x1: int, x2: int, x3: int, x4: int, x5: int, x6: int, d: nat, t: nat)
    requires t > 0 && d <= t
    requires x1 >= 0 && x2 >= 0 && x3 >= 0 && x4 >= 0 && x5 >= 0 && x6 >= 0
    requires x1 + x2 + x3 + x4 + x5 + x6 == t
    ensures var q := Scale(x1, d, t) + Scale(x2, d, t) + Scale(x3, d, t) + Scale(x4, d, t) + Scale(x5, d, t) + Scale(x6, d, t);
            d - 5 <= q <= d
  {
    var q1, q2, q3 := Scale(x1, d, t), Scale(x2, d, t), Scale(x3, d, t);
    var q4, q5, q6 := Scale(x4, d, t), Scale(x5, d, t), Scale(x6, d, t);
    ScaleBounds(x1, d, t);
    ScaleBounds(x2, d, t);
    ScaleBounds(x3, d, t);
    ScaleBounds(x4, d, t);
    ScaleBounds(x5, d, t);
    ScaleBounds(x6, d, t);
    var q := q1 + q2 + q3 + q4 + q5 + q6;
    SumOfProducts(q1, q2, q3, q4, q5, q6, t);
    SumOfProducts(x1, x2, x3, x4, x5, x6, d);
    SixGaps(q1 * t, q2 * t, q3 * t, q4 * t, q5 * t, q6 * t, x1 * d, x2 * d, x3 * d, x4 * d, x5 * d, x6 * d, t);
    var qt, td := q * t, t * d;
    assert qt <= td < qt + 6 * t;
    CancelLe(q, d, t);
    ShiftProduct(d, 6, t);
    CancelLt(d - 6, q, t);
  }

  /**
   * After drift correction the six scaled buckets add up to the duration,
   * short by at most five seconds of floor rounding.
   */
  lemma RescaledTotalNearDuration(b: Buckets, d: nat)
    requires NonNegative(b) && 0 < d < Total(b)
    ensures var r := Rescale(b, d, Total(b));
            NonNegative(r) && d - 5 <= Total(r) <= d
  {
    FloorSumNear(b.attentive, b.active, b.lookingAway, b.drowsy, b.absent, b.darkness, d, Total(b));
    RescaleBounds(b, d, Total(b));
  }

  /** Rescaling by d/t with d <= t keeps every counter non-negative and never raises one. */
  lemma RescaleBounds(b: Buckets, d: nat, t: nat)
    requires NonNegative(b) && 0 < t && d <= t
    ensures NonNegative(Rescale(b, d, t)) && Below(Rescale(b, d, t), b)
  {
    ScaleBounds(b.attentive, d, t);
    ScaleBounds(b.active, d, t);
    ScaleBounds(b.lookingAway, d, t);
    ScaleBounds(b.drowsy, d, t);
    ScaleBounds(b.absent, d, t);
    ScaleBounds(b.darkness, d, t);
  }

  // ---------------------------------------------------------------------
  // Totals before and after drift correction
  // ---------------------------------------------------------------------


  /** Drift: a positive duration exceeded by the recorded time. */
  predicate Drifted(total: int, d: nat) {
    d > 0 && total > d
  }

  /** The figures after drift correction: each scaled by d/total and the total set to d. */
  function Corrected(t: Totals, d: nat): Totals {
    if Drifted(t.total, d) then
      Totals(Rescale(t.breakdown, d, t.total), Scale(t.attentive, d, t.total), Scale(t.distracted, d, t.total),
             Scale(t.absent, d, t.total), d)
    else t
  }

  /** Every participant's buckets scaled by d/t. */
  function RescaleAll(ps: seq<Participant>, d: nat, t: nat): (r: seq<Participant>)
    requires t > 0
    ensures |r| == |ps|
    ensures forall i :: 0 <= i < |ps| ==> r[i] == ps[i].(attentionData := Rescale(ps[i].attentionData, d, t))
  {
    seq(|ps|, i requires 0 <= i < |ps| => ps[i].(attentionData := Rescale(ps[i].attentionData, d, t)))
  }

  /**
   * Rescaling by d/t with d <= t keeps every participant's id, and leaves
   * non-negative buckets non-negative and no larger than before.
   */
  lemma RescaleAllBounds(ps: seq<Participant>, d: nat, t: nat)
    requires 0 < t && d <= t
    ensures forall i :: 0 <= i < |ps| ==> RescaleAll(ps, d, t)[i].userId == ps[i].userId
    ensures forall i :: 0 <= i < |ps| && NonNegative(ps[i].attentionData) ==>
      && NonNegative(RescaleAll(ps, d, t)[i].attentionData)
      && Below(RescaleAll(ps, d, t)[i].attentionData, ps[i].attentionData)
  {
    forall i | 0 <= i < |ps| && NonNegative(ps[i].attentionData)
      ensures NonNegative(RescaleAll(ps, d, t)[i].attentionData)
      ensures Below(RescaleAll(ps, d, t)[i].attentionData, ps[i].attentionData)
    {
      RescaleBounds(ps[i].attentionData, d, t);
    }
  }

  /** The participants as reconciliation writes them back. */
  function ReconciledParticipants(ps: seq<Participant>, d: nat): seq<Participant> {
    var clean := SanitizeAll(ps);
    var total := Total(SumBuckets(clean));
    if Drifted(total, d) then RescaleAll(clean, d, total) else clean
  }

  /**
   * Reconciled figures: all non-negative and no larger than before the
   * correction; the attentive part never exceeds the total; when the
   * recorded time exceeded the duration, the total becomes the duration and
   * the breakdown sums to it up to five seconds of rounding; otherwise
   * nothing is scaled.
   */
  lemma CorrectedSpec(b: Buckets, d: nat)
    requires NonNegative(b)
    ensures var raw := TotalsOf(b);
            var c := Corrected(raw, d);
            && NonNegative(c.breakdown)
            && Below(c.breakdown, b)
            && 0 <= c.attentive <= raw.attentive && 0 <= c.distracted <= raw.distracted && 0 <= c.absent <= raw.absent
            && c.attentive <= c.total
            && (Drifted(raw.total, d) ==> c.total == d && d - 5 <= Total(c.breakdown) <= d
                                          && c.attentive + c.distracted + c.absent <= d)
            && (!Drifted(raw.total, d) ==> c == raw && c.total == Total(c.breakdown))
  {
    var raw := TotalsOf(b);
    var t := raw.total;
    if Drifted(t, d) {
      RescaledTotalNearDuration(b, d);
      RescaleBounds(b, d, t);
      ScaleBounds(raw.attentive, d, t);
      ScaleBounds(raw.distracted, d, t);
      ScaleBounds(raw.absent, d, t);
      ScaleBounds(0, d, t);
      FloorSumNear(raw.attentive, raw.distracted, raw.absent, 0, 0, 0, d, t);
    }
  }

  /** The reconciled figures of a participant list, as the sanitising pass and drift correction produce them. */
  lemma {:induction false} ReconciledTotalsSpec(ps: seq<Participant>, d: nat)
    ensures var b := SumBuckets(SanitizeAll(ps));
            var c := Corrected(RawTotals(SanitizeAll(ps)), d);
            && NonNegative(b) && AtMost(b, MaxBucketSeconds * |ps|)
            && 0 <= c.attentive <= c.total
            && (Drifted(Total(b), d) ==> c.total == d && d - 5 <= Total(c.breakdown) <= d)
            && (!Drifted(Total(b), d) ==> c.breakdown == b && c.total == Total(b))
  {
    var clean := SanitizeAll(ps);
    SumBucketsNonNegative(clean);
    SumBucketsCap(clean);
    CorrectedSpec(SumBuckets(clean), d);
  }

  /** Reconciled buckets lie in [0, 86400] and never exceed the sanitised values; ids and other fields stay. */
  lemma ReconciledParticipantsSpec(ps: seq<Participant>, d: nat)
    ensures var r := ReconciledParticipants(ps, d);
            |r| == |ps|
            && forall i :: 0 <= i < |ps| ==>
                 && r[i] == ps[i].(attentionData := r[i].attentionData)
                 && NonNegative(r[i].attentionData) && AtMost(r[i].attentionData, MaxBucketSeconds)
                 && Below(r[i].attentionData, Sanitize(ps[i].attentionData))
  {
    var clean := SanitizeAll(ps);
    var total := Total(SumBuckets(clean));
    if Drifted(total, d) {
      forall i | 0 <= i < |ps|
        ensures NonNegative(Rescale(clean[i].attentionData, d, total))
        ensures Below(Rescale(clean[i].attentionData, d, total), clean[i].attentionData)
      {
        RescaleBounds(clean[i].attentionData, d, total);
      }
    }
  }

  // ---------------------------------------------------------------------
  // Average attention
  // ---------------------------------------------------------------------

  /**
   * `parseFloat(((part / whole) * 100).toFixed(2))` on exact rationals:
   * 100 * part / whole rounded half up to two decimals.
   */
  function RoundedPercent(part: int, whole: int): real
    requires whole > 0
  {
    ((20000 * part + whole) / (2 * whole)) as real / 100.0
  }

  /** `averageAttention`: 0 without recorded time. */
  function AverageAttention(attentive: int, total: int): real {
    if total > 0 then RoundedPercent(attentive, total) else 0.0
  }

  /** num / w <= k whenever num < (k + 1) * w. */
  lemma DivAtMost(num: int, w: int, k: int)
    requires w > 0 && num < (k + 1) * w
    ensures num / w <= k
  {
    var n := num / w;
    assert n * w + num % w == num;
    if n > k {
      MulLe(k + 1, n, w);
    }
  }

  /** The average lies in [0, 100] whenever the attentive time is part of the total. */
  lemma AverageAttentionRange(attentive: int, total: int)
    requires 0 <= attentive && (total > 0 ==> attentive <= total)
    ensures 0.0 <= AverageAttention(attentive, total) <= 100.0
  {
    if total > 0 {
      var w := 2 * total;
      var num := 20000 * attentive + total;
      assert 0 <= num < 10001 * w;
      DivAtMost(num, w, 10000);
      assert 0 <= num / w;
    }
  }

  /** The rounded percentage is within half a hundredth of the exact one. */
  lemma RoundedPercentAccuracy(part: int, whole: int)
    requires whole > 0
    ensures var exact := 100.0 * (part as real) / (whole as real);
            exact - 0.005 < RoundedPercent(part, whole) <= exact + 0.005
  {
    var w := 2 * whole;
    var num := 20000 * part + whole;
    var n := num / w;
    assert n * w <= num < n * w + w;
    var nr, wr, pr := n as real, whole as real, part as real;
    assert nr * 2.0 * wr <= 20000.0 * pr + wr;
    assert 20000.0 * pr + wr < (nr + 1.0) * 2.0 * wr;
    RoundedUpper(nr, pr, wr);
    RoundedLower(nr, pr, wr);
  }

  /** Rounding down to n/100 stays at most half a hundredth above the exact value. */
  lemma RoundedUpper(nr: real, pr: real, wr: real)
    requires wr > 0.0 && nr * 2.0 * wr <= 20000.0 * pr + wr
    ensures nr / 100.0 <= 100.0 * pr / wr + 0.005
  {
    var exact := 100.0 * pr / wr;
    assert exact * wr == 100.0 * pr;
    assert (nr / 100.0) * (200.0 * wr) == nr * 2.0 * wr;
    assert (exact + 0.005) * (200.0 * wr) == 20000.0 * pr + wr;
    RealDivLe(nr / 100.0, exact + 0.005, 200.0 * wr);
  }

  /** The next hundredth lies above the exact value less half a hundredth. */
  lemma RoundedLower(nr: real, pr: real, wr: real)
    requires wr > 0.0 && 20000.0 * pr + wr < (nr + 1.0) * 2.0 * wr
    ensures 100.0 * pr / wr - 0.005 < nr / 100.0
  {
    var exact := 100.0 * pr / wr;
    assert exact * wr == 100.0 * pr;
    assert (nr + 1.0) * 2.0 * wr == nr * 2.0 * wr + 2.0 * wr;
    assert (exact - 0.005) * (200.0 * wr) == 20000.0 * pr - wr;
    assert (nr / 100.0) * (200.0 * wr) == nr * 2.0 * wr;
    RealDivLt(exact - 0.005, nr / 100.0, 200.0 * wr);
  }

  lemma RealDivLe(a: real, b: real, c: real)
    requires c > 0.0 && a * c <= b * c
    ensures a <= b
  {
  }

  lemma RealDivLt(a: real, b: real, c: real)
    requires c > 0.0 && a * c < b * c
    ensures a < b
  {
  }

  // ---------------------------------------------------------------------
  // Scenario: twice as much recorded time as elapsed time
  // ---------------------------------------------------------------------

  /** The breakdown of one participant whose buckets need no sanitising is those buckets. */
  lemma SingleBreakdown(p: Participant)
    requires p.attentionData == Buckets(150, 0, 0, 50, 0, 0)
    ensures SanitizeAll([p]) == [p] && RawTotals([p]) == TotalsOf(Buckets(150, 0, 0, 50, 0, 0))
  {
    SanitizeInRange(p.attentionData);
    assert [p][..0] == [];
    assert SumBuckets([p]) == Plus(Zero, p.attentionData) == p.attentionData;
  }

  /** Scaling by 100/200 halves 150 and 50. */
  lemma HalveScales()
    ensures Scale(150, 100, 200) == 75 && Scale(50, 100, 200) == 25 && Scale(0, 100, 200) == 0
    ensures Rescale(Buckets(150, 0, 0, 50, 0, 0), 100, 200) == Buckets(75, 0, 0, 25, 0, 0)
  {
  }

  /** The figures of 150 s attentive and 50 s drowsy, corrected to a 100-second meeting. */
  lemma CorrectedHalf()
    ensures Corrected(TotalsOf(Buckets(150, 0, 0, 50, 0, 0)), 100) == Totals(Buckets(75, 0, 0, 25, 0, 0), 75, 25, 0, 100)
  {
    var b := Buckets(150, 0, 0, 50, 0, 0);
    HalveScales();
    assert TotalsOf(b) == Totals(b, 150, 50, 0, 200);
  }

  /** 200 recorded seconds in a 100-second meeting are halved: 150/50 become 75/25 and the total 100. */
  lemma DriftHalvesRecordedTime(p: Participant)
    requires p.attentionData == Buckets(150, 0, 0, 50, 0, 0)
    ensures var c := Corrected(RawTotals(SanitizeAll([p])), 100);
            c.breakdown == Buckets(75, 0, 0, 25, 0, 0) && c.total == 100 && c.attentive == 75
  {
    SingleBreakdown(p);
    CorrectedHalf();
  }

  /** The same participant is written back with its buckets halved and nothing else changed. */
  lemma DriftHalvesParticipant(p: Participant)
    requires p.attentionData == Buckets(150, 0, 0, 50, 0, 0)
    ensures ReconciledParticipants([p], 100) == [p.(attentionData := Buckets(75, 0, 0, 25, 0, 0))]
  {
    SingleBreakdown(p);
    HalveScales();
    assert RescaleAll([p], 100, 200)[0] == p.(attentionData := Buckets(75, 0, 0, 25, 0, 0));
  }
}
