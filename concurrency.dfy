/**
 * Peak concurrency (models/Meeting.js:306-335): the join and leave
 * timestamps of the participants are sorted and swept with two pointers;
 * a join is taken before a leave at the same instant. When fewer leaves are
 * recorded than half the joins, the participant count is used instead.
 */
module Concurrency {
  import opened Wrappers
  import opened Sorting
  import opened Ingestion

  /** Timestamps are compared as plain numbers. */
  function Self(x: int): int { x }

  /**
   * How many are present at instant t: the joins at or before t minus the
   * leaves strictly before t (a leave at t has not yet been counted).
   */
  function Headcount(joins: seq<int>, leaves: seq<int>, t: int): int {
    CountAtMost(joins, Self, t) - CountBelow(leaves, Self, t)
  }

  /**
   * The order-free meaning of the sweep's result: the largest headcount at
   * any join instant, and 0 when no headcount is positive.
   */
  ghost predicate IsPeak(joins: seq<int>, leaves: seq<int>, m: int) {
    && m >= 0
    && (forall t :: t in joins ==> Headcount(joins, leaves, t) <= m)
    && (m == 0 || exists t :: t in joins && Headcount(joins, leaves, t) == m)
  }

  /** The running count just after the sweep takes the k-th join of the sorted joins. */
  function AtJoin(joins: seq<int>, leaves: seq<int>, k: nat): int
    requires k < |joins|
  {
    k + 1 - CountBelow(leaves, Self, joins[k])
  }

  /** The sweep's maximum after the first k joins. */
  function PrefixPeak(joins: seq<int>, leaves: seq<int>, k: nat): int
    requires k <= |joins|
  {
    if k == 0 then 0
    else
      var before := PrefixPeak(joins, leaves, k - 1);
      var here := AtJoin(joins, leaves, k - 1);
      if here > before then here else before
  }

  /**
   * The two-pointer sweep over sorted joins and leaves. Its result is the
   * peak headcount over the join instants, and lies in [0, number of joins].
   */
  method PeakConcurrency(joins: seq<int>, leaves: seq<int>) returns (maxConcurrent: int)
    requires SortedBy(joins, Self) && SortedBy(leaves, Self)
    ensures IsPeak(joins, leaves, maxConcurrent)
    ensures 0 <= maxConcurrent <= |joins|
  {
    var current := 0;
    maxConcurrent := 0;
    var i, j := 0, 0;
    while i < |joins| || j < |leaves|
      invariant 0 <= i <= |joins| && 0 <= j <= |leaves|
      invariant current == i - j
      invariant i < |joins| ==> forall x :: 0 <= x < j ==> leaves[x] < joins[i]
      invariant maxConcurrent == PrefixPeak(joins, leaves, i)
      decreases |joins| - i + |leaves| - j
    {
      if i >= |joins| || (j < |leaves| && joins[i] > leaves[j]) {
        current := current - 1;
        j := j + 1;
      } else {
        LeavesTakenBeforeJoin(leaves, joins[i], j);
        current := current + 1;
        maxConcurrent := if current > maxConcurrent then current else maxConcurrent;
        i := i + 1;
      }
    }
    PrefixPeakIsPeak(joins, leaves);
  }

  /** When the sweep takes a join, the leaves it has taken are exactly those strictly before it. */
  lemma LeavesTakenBeforeJoin(leaves: seq<int>, t: int, j: nat)
    requires SortedBy(leaves, Self)
    requires j <= |leaves|
    requires forall x :: 0 <= x < j ==> leaves[x] < t
    requires j == |leaves| || leaves[j] >= t
    ensures CountBelow(leaves, Self, t) == j
  {
    var taken, rest := leaves[..j], leaves[j..];
    assert leaves == taken + rest;
    forall x | 0 <= x < |taken| ensures Self(taken[x]) < t {
      assert taken[x] == leaves[x];
    }
    CountBelowAll(taken, Self, t);
    forall x | 0 <= x < |rest| ensures Self(rest[x]) >= t {
      assert rest[x] == leaves[j + x];
      if x > 0 {
        assert Self(leaves[j]) <= Self(leaves[j + x]);
      }
    }
    CountBelowNone(rest, Self, t);
    CountBelowAppend(taken, rest, Self, t);
  }

  lemma {:induction false} PrefixPeakBounds(joins: seq<int>, leaves: seq<int>, n: nat)
    requires n <= |joins|
    ensures PrefixPeak(joins, leaves, n) >= 0
    ensures forall k :: 0 <= k < n ==> AtJoin(joins, leaves, k) <= PrefixPeak(joins, leaves, n)
    ensures PrefixPeak(joins, leaves, n) == 0
            || exists k :: 0 <= k < n && AtJoin(joins, leaves, k) == PrefixPeak(joins, leaves, n)
  {
    if n > 0 {
      PrefixPeakBounds(joins, leaves, n - 1);
    }
  }

  /** The sweep's maximum over all joins is the order-free peak (joins sorted). */
  lemma PrefixPeakIsPeak(joins: seq<int>, leaves: seq<int>)
    requires SortedBy(joins, Self)
    ensures IsPeak(joins, leaves, PrefixPeak(joins, leaves, |joins|))
    ensures PrefixPeak(joins, leaves, |joins|) <= |joins|
  {
    var n := |joins|;
    var m := PrefixPeak(joins, leaves, n);
    PrefixPeakBounds(joins, leaves, n);
    forall t | t in joins ensures Headcount(joins, leaves, t) <= m {
      var x :| 0 <= x < n && joins[x] == t;
      SortedAtMostPrefix(joins, Self, t);
      var p := CountAtMost(joins, Self, t);
      assert x < p;
      assert joins[p - 1] == t;
      assert AtJoin(joins, leaves, p - 1) == Headcount(joins, leaves, t);
    }
    if m != 0 {
      var k :| 0 <= k < n && AtJoin(joins, leaves, k) == m;
      SortedAtMostPrefix(joins, Self, joins[k]);
      assert joins[k] in joins;
      assert Headcount(joins, leaves, joins[k]) == m;
      CountAtMostBound(joins, Self, joins[k]);
    }
  }

  /** At most one value meets the peak definition. */
  lemma PeakUnique(joins: seq<int>, leaves: seq<int>, m1: int, m2: int)
    requires IsPeak(joins, leaves, m1) && IsPeak(joins, leaves, m2)
    ensures m1 == m2
  {
    if m1 != 0 {
      var t :| t in joins && Headcount(joins, leaves, t) == m1;
    }
    if m2 != 0 {
      var t :| t in joins && Headcount(joins, leaves, t) == m2;
    }
  }

  /** Two people leave before a third joins: the peak is 2. */
  lemma TwoLeaveBeforeThirdJoins(m: int)
    requires IsPeak([0, 10, 100], [50, 60], m)
    ensures m == 2
  {
    var joins, leaves := [0, 10, 100], [50, 60];
    assert joins[1..] == [10, 100] && joins[2..] == [100] && joins[3..] == [];
    assert leaves[1..] == [60] && leaves[2..] == [];
    assert Headcount(joins, leaves, 0) == 1;
    assert Headcount(joins, leaves, 10) == 2;
    assert Headcount(joins, leaves, 100) == 1;
    assert 10 in joins;
  }

  /** A join and a leave at the same instant: the join is counted first, so the peak is 1, not 0. */
  lemma JoinCountedFirstOnTie(m: int)
    requires IsPeak([5], [5], m)
    ensures m == 1
  {
    assert [5][1..] == [];
    assert Headcount([5], [5], 5) == 1;
    assert 5 in [5];
  }

  // ---------------------------------------------------------------------
  // From participants
  // ---------------------------------------------------------------------

  /** `participants.filter(p => p.joinTime).map(p => p.joinTime)`, in participant order. */
  function JoinTimes(ps: seq<Participant>): seq<int> {
    if ps == [] then []
    else JoinTimes(ps[..|ps| - 1]) + (if ps[|ps| - 1].joinTime.Some? then [ps[|ps| - 1].joinTime.value] else [])
  }

  /** `participants.filter(p => p.leaveTime).map(p => p.leaveTime)`, in participant order. */
  function LeaveTimes(ps: seq<Participant>): seq<int> {
    if ps == [] then []
    else LeaveTimes(ps[..|ps| - 1]) + (if ps[|ps| - 1].leaveTime.Some? then [ps[|ps| - 1].leaveTime.value] else [])
  }

  lemma {:induction false} TimesBound(ps: seq<Participant>)
    ensures |JoinTimes(ps)| <= |ps| && |LeaveTimes(ps)| <= |ps|
  {
    if ps != [] {
      TimesBound(ps[..|ps| - 1]);
    }
  }

  /** The peak is a statement about the multisets of instants: sorting them does not change it. */
  lemma PeakOfSorted(joins: seq<int>, leaves: seq<int>, m: int)
    ensures IsPeak(SortByKey(joins, Self), SortByKey(leaves, Self), m) <==> IsPeak(joins, leaves, m)
  {
    SortByKeySorted(joins, Self);
    var sj, sl := SortByKey(joins, Self), SortByKey(leaves, Self);
    forall t ensures Headcount(sj, sl, t) == Headcount(joins, leaves, t) && (t in sj <==> t in joins) {
      SortKeepsCounts(joins, Self, t);
      SortKeepsCounts(leaves, Self, t);
      assert t in sj <==> t in multiset(sj);
    }
  }

  /**
   * `maxConcurrent`: the participant count when fewer leaves than half the
   * joins are recorded (`leaveTimes.length >= joinTimes.length / 2` fails),
   * otherwise the sweep over the sorted instants, which is the peak headcount.
   */
  method MaxConcurrentParticipants(ps: seq<Participant>) returns (maxConcurrent: int)
    ensures var joins, leaves := JoinTimes(ps), LeaveTimes(ps);
      && (2 * |leaves| < |joins| ==> maxConcurrent == |ps|)
      && (2 * |leaves| >= |joins| ==> IsPeak(joins, leaves, maxConcurrent))
    ensures 0 <= maxConcurrent <= |ps|
  {
    var joins := SortByKey(JoinTimes(ps), Self);
    var leaves := SortByKey(LeaveTimes(ps), Self);
    SortByKeySorted(JoinTimes(ps), Self);
    SortByKeySorted(LeaveTimes(ps), Self);
    TimesBound(ps);
    maxConcurrent := |ps|;
    if 2 * |leaves| >= |joins| {
      maxConcurrent := PeakConcurrency(joins, leaves);
      PeakOfSorted(JoinTimes(ps), LeaveTimes(ps), maxConcurrent);
    }
  }
}
