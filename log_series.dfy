/**
 * The time series of the log analytics (routes/logs.js:231-273): logs are
 * grouped by the minute they fall in, each group's counts become one data
 * point of per-state percentages, and the points are sorted by time.
 */
module LogSeries {
  import opened States
  import opened LogPost
  import opened LogUsers
  import opened Sorting
  import opened Reconcile

  const MinuteMs: int := 60 * 1000

  /**
   * `setSeconds(0, 0)`: the start of the minute holding ts. The remainder
   * of a positive divisor is never negative in Dafny, so timestamps before
   * the epoch also round down to their minute.
   */
  function MinuteOf(ts: int): (m: int)
    ensures m % MinuteMs == 0
    ensures m <= ts < m + MinuteMs
  {
    ts - ts % MinuteMs
  }

  /** A value of `timeGroups`: the group's log count and its per-state counts. */
  datatype Group = Group(total: nat, counts: Buckets)

  /** One step of the grouping forEach: count the log in its minute's group, creating the group first. */
  function AddToGroups(m: map<int, Group>, log: LogEntry): map<int, Group> {
    var k := MinuteOf(log.timestamp);
    var m' := if k in m then m else m[k := Group(0, Zero)];
    m'[k := Group(m'[k].total + 1, Add(m'[k].counts, log.attentionState, 1))]
  }

  /** One step of the insertion order of `timeGroups`' keys. */
  function AddMinute(order: seq<int>, log: LogEntry): seq<int> {
    var k := MinuteOf(log.timestamp);
    if k in order then order else order + [k]
  }

  /** `timeGroups` after the given logs, keyed by minute. */
  function GroupTable(logs: seq<LogEntry>): map<int, Group> {
    if logs == [] then map[] else AddToGroups(GroupTable(logs[..|logs| - 1]), logs[|logs| - 1])
  }

  /** The keys of `timeGroups` in insertion order. */
  function MinuteOrder(logs: seq<LogEntry>): seq<int> {
    if logs == [] then [] else AddMinute(MinuteOrder(logs[..|logs| - 1]), logs[|logs| - 1])
  }

  /** Some log falls in minute k. */
  predicate HasMinute(logs: seq<LogEntry>, k: int) {
    exists i :: 0 <= i < |logs| && MinuteOf(logs[i].timestamp) == k
  }

  /** The logs that fall in minute k, in order. */
  function InMinute(logs: seq<LogEntry>, k: int): seq<LogEntry> {
    if logs == [] then []
    else
      var rest := InMinute(logs[..|logs| - 1], k);
      if MinuteOf(logs[|logs| - 1].timestamp) == k then rest + [logs[|logs| - 1]] else rest
  }

  /** The minutes in insertion order are distinct, and are exactly the minutes some log falls in. */
  lemma {:induction false} MinuteOrderSpec(logs: seq<LogEntry>)
    ensures forall i, j :: 0 <= i < j < |MinuteOrder(logs)| ==> MinuteOrder(logs)[i] != MinuteOrder(logs)[j]
    ensures forall k :: k in MinuteOrder(logs) <==> HasMinute(logs, k)
  {
    if logs != [] {
      var pre := logs[..|logs| - 1];
      MinuteOrderSpec(pre);
      forall k ensures HasMinute(logs, k) <==> HasMinute(pre, k) || MinuteOf(logs[|logs| - 1].timestamp) == k {
        if HasMinute(pre, k) {
          var i :| 0 <= i < |pre| && MinuteOf(pre[i].timestamp) == k;
          assert logs[i] == pre[i];
        }
        if HasMinute(logs, k) && MinuteOf(logs[|logs| - 1].timestamp) != k {
          var i :| 0 <= i < |logs| && MinuteOf(logs[i].timestamp) == k;
          assert pre[i] == logs[i];
        }
      }
    }
  }

  /** `timeGroups` has a key for exactly the minutes in the insertion order. */
  lemma {:induction false} GroupTableKeys(logs: seq<LogEntry>)
    ensures forall k :: k in GroupTable(logs) <==> k in MinuteOrder(logs)
  {
    if logs != [] {
      GroupTableKeys(logs[..|logs| - 1]);
    }
  }

  /** The tables after one more log are one grouping step from the tables before it. */
  lemma GroupStep(logs: seq<LogEntry>, i: nat)
    requires i < |logs|
    ensures GroupTable(logs[..i + 1]) == AddToGroups(GroupTable(logs[..i]), logs[i])
    ensures MinuteOrder(logs[..i + 1]) == AddMinute(MinuteOrder(logs[..i]), logs[i])
  {
    assert logs[..i + 1][..i] == logs[..i];
  }

  /** A minute no log falls in has no logs. */
  lemma {:induction false} InMinuteEmpty(logs: seq<LogEntry>, k: int)
    requires k !in MinuteOrder(logs)
    ensures InMinute(logs, k) == []
  {
    if logs != [] {
      InMinuteEmpty(logs[..|logs| - 1], k);
    }
  }

  /**
   * Each group counts the logs of its minute: its total is their number,
   * its counts are their per-state breakdown, and the total is the sum of
   * the six counts.
   */
  lemma {:induction false} GroupSpec(logs: seq<LogEntry>, k: int)
    requires k in MinuteOrder(logs)
    ensures k in GroupTable(logs)
    ensures GroupTable(logs)[k] == Group(|InMinute(logs, k)|, Breakdown(InMinute(logs, k)))
    ensures GroupTable(logs)[k].total == Total(GroupTable(logs)[k].counts) > 0
  {
    GroupTableKeys(logs);
    var pre := logs[..|logs| - 1];
    var log := logs[|logs| - 1];
    GroupTableKeys(pre);
    if MinuteOf(log.timestamp) == k {
      if k in MinuteOrder(pre) {
        GroupSpec(pre, k);
      } else {
        InMinuteEmpty(pre, k);
      }
      BreakdownSnoc(InMinute(pre, k), log);
    } else {
      GroupSpec(pre, k);
    }
    BreakdownTotal(InMinute(logs, k));
  }

  /** One element of `timeSeriesData`: the minute and its per-state percentages. */
  datatype DataPoint = DataPoint(
    timestamp: int,
    attentive: real,
    active: real,
    lookingAway: real,
    drowsy: real,
    absent: real,
    darkness: real)

  /** `Math.round(count / total * 100 * 100) / 100`, and 0 for an empty group. */
  function Share(count: int, total: nat): real {
    if total > 0 then RoundedPercent(count, total) else 0.0
  }

  function PointOf(k: int, g: Group): DataPoint {
    DataPoint(k, Share(g.counts.attentive, g.total), Share(g.counts.active, g.total),
              Share(g.counts.lookingAway, g.total), Share(g.counts.drowsy, g.total),
              Share(g.counts.absent, g.total), Share(g.counts.darkness, g.total))
  }

  function Timestamp(p: DataPoint): int {
    p.timestamp
  }

  /** The points of the groups, in the insertion order of their minutes. */
  function Points(logs: seq<LogEntry>): (r: seq<DataPoint>)
    ensures |r| == |MinuteOrder(logs)|
    ensures forall i :: 0 <= i < |r| ==>
      MinuteOrder(logs)[i] in GroupTable(logs)
      && r[i] == PointOf(MinuteOrder(logs)[i], GroupTable(logs)[MinuteOrder(logs)[i]])
    ensures forall i :: 0 <= i < |r| ==> HasMinute(logs, r[i].timestamp)
    ensures forall i, j :: 0 <= i < j < |r| ==> r[i].timestamp != r[j].timestamp
  {
    var order := MinuteOrder(logs);
    var groups := GroupTable(logs);
    GroupTableKeys(logs);
    MinuteOrderSpec(logs);
    seq(|order|, i requires 0 <= i < |order| => PointOf(order[i], groups[order[i]]))
  }

  /** `timeSeriesData` after the sort. */
  function TimeSeries(logs: seq<LogEntry>): seq<DataPoint> {
    SortByKey(Points(logs), Timestamp)
  }

  /**
   * The time series has one point per distinct minute, in ascending order
   * of time, and each point is the percentage breakdown of the logs of its
   * minute.
   */
  lemma TimeSeriesSpec(logs: seq<LogEntry>)
    ensures var r := TimeSeries(logs);
      && SortedBy(r, Timestamp)
      && |r| == |MinuteOrder(logs)|
      && (forall k :: HasMinute(logs, k) <==> exists i :: 0 <= i < |r| && r[i].timestamp == k)
      && forall i :: 0 <= i < |r| ==>
           && HasMinute(logs, r[i].timestamp)
           && r[i] == PointOf(r[i].timestamp, Group(|InMinute(logs, r[i].timestamp)|, Breakdown(InMinute(logs, r[i].timestamp))))
  {
    var points := Points(logs);
    var r := TimeSeries(logs);
    var order := MinuteOrder(logs);
    SortByKeySorted(points, Timestamp);
    MinuteOrderSpec(logs);
    forall i | 0 <= i < |r|
      ensures HasMinute(logs, r[i].timestamp)
      ensures r[i] == PointOf(r[i].timestamp, Group(|InMinute(logs, r[i].timestamp)|, Breakdown(InMinute(logs, r[i].timestamp))))
    {
      assert r[i] in multiset(points);
      var j :| 0 <= j < |points| && points[j] == r[i];
      GroupSpec(logs, order[j]);
    }
    forall k | HasMinute(logs, k)
      ensures exists i :: 0 <= i < |r| && r[i].timestamp == k
    {
      var j :| 0 <= j < |order| && order[j] == k;
      assert points[j] in multiset(r);
      var i :| 0 <= i < |r| && r[i] == points[j];
    }
  }

  /** Every percentage of a point lies in [0, 100]. */
  lemma PointSharesRange(k: int, g: Group)
    requires NonNegative(g.counts) && g.total == Total(g.counts)
    ensures var p := PointOf(k, g);
      && 0.0 <= p.attentive <= 100.0 && 0.0 <= p.active <= 100.0
      && 0.0 <= p.lookingAway <= 100.0 && 0.0 <= p.drowsy <= 100.0
      && 0.0 <= p.absent <= 100.0 && 0.0 <= p.darkness <= 100.0
  {
    AverageAttentionRange(g.counts.attentive, g.total);
    AverageAttentionRange(g.counts.active, g.total);
    AverageAttentionRange(g.counts.lookingAway, g.total);
    AverageAttentionRange(g.counts.drowsy, g.total);
    AverageAttentionRange(g.counts.absent, g.total);
    AverageAttentionRange(g.counts.darkness, g.total);
  }
}
