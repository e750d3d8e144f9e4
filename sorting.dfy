/**
 * The ascending sorts the source delegates to `Array.prototype.sort`
 * (join/leave timestamps, time-series points), as an insertion sort by an
 * integer key, with the counting facts the concurrency peak relies on.
 */
module Sorting {

  predicate SortedBy<T>(s: seq<T>, key: T -> int) {
    forall i, j :: 0 <= i < j < |s| ==> key(s[i]) <= key(s[j])
  }

  function Insert<T>(x: T, s: seq<T>, key: T -> int): seq<T> {
    if s == [] || key(x) <= key(s[0]) then [x] + s
    else [s[0]] + Insert(x, s[1..], key)
  }

  function SortByKey<T>(s: seq<T>, key: T -> int): seq<T> {
    if s == [] then [] else Insert(s[0], SortByKey(s[1..], key), key)
  }

  /** Number of elements whose key is at most t. */
  function CountAtMost<T>(s: seq<T>, key: T -> int, t: int): nat {
    if s == [] then 0 else (if key(s[0]) <= t then 1 else 0) + CountAtMost(s[1..], key, t)
  }

  /** Number of elements whose key is strictly below t. */
  function CountBelow<T>(s: seq<T>, key: T -> int, t: int): nat {
    if s == [] then 0 else (if key(s[0]) < t then 1 else 0) + CountBelow(s[1..], key, t)
  }

  /** Inserting keeps every key at or above a bound that x and all of s respect. */
  lemma {:induction false} InsertLowerBound<T>(x: T, s: seq<T>, key: T -> int, lo: int)
    requires key(x) >= lo && forall i :: 0 <= i < |s| ==> key(s[i]) >= lo
    ensures forall i :: 0 <= i < |Insert(x, s, key)| ==> key(Insert(x, s, key)[i]) >= lo
  {
    if s != [] && key(x) > key(s[0]) {
      InsertLowerBound(x, s[1..], key, lo);
    }
  }

  lemma {:induction false} InsertPermutes<T>(x: T, s: seq<T>, key: T -> int)
    ensures multiset(Insert(x, s, key)) == multiset(s) + multiset{x}
  {
    if s != [] && key(x) > key(s[0]) {
      InsertPermutes(x, s[1..], key);
      assert s == [s[0]] + s[1..];
    }
  }

  lemma {:induction false} InsertSorted<T>(x: T, s: seq<T>, key: T -> int)
    requires SortedBy(s, key)
    ensures var r := Insert(x, s, key);
            SortedBy(r, key) && multiset(r) == multiset(s) + multiset{x}
  {
    InsertPermutes(x, s, key);
    if s != [] && key(x) > key(s[0]) {
      var rest := Insert(x, s[1..], key);
      InsertSorted(x, s[1..], key);
      InsertLowerBound(x, s[1..], key, key(s[0]));
      assert Insert(x, s, key) == [s[0]] + rest;
    }
  }

  /** The sort returns its input in ascending key order. */
  lemma {:induction false} SortByKeySorted<T>(s: seq<T>, key: T -> int)
    ensures SortedBy(SortByKey(s, key), key)
    ensures multiset(SortByKey(s, key)) == multiset(s)
    ensures |SortByKey(s, key)| == |s|
  {
    if s != [] {
      SortByKeySorted(s[1..], key);
      InsertSorted(s[0], SortByKey(s[1..], key), key);
      assert s == [s[0]] + s[1..];
      assert |multiset(SortByKey(s, key))| == |s|;
    }
  }

  lemma {:induction false} InsertCounts<T>(x: T, s: seq<T>, key: T -> int, t: int)
    ensures CountAtMost(Insert(x, s, key), key, t) == CountAtMost(s, key, t) + (if key(x) <= t then 1 else 0)
    ensures CountBelow(Insert(x, s, key), key, t) == CountBelow(s, key, t) + (if key(x) < t then 1 else 0)
  {
    if s == [] || key(x) <= key(s[0]) {
      assert ([x] + s)[1..] == s;
    } else {
      InsertCounts(x, s[1..], key, t);
      assert ([s[0]] + Insert(x, s[1..], key))[1..] == Insert(x, s[1..], key);
    }
  }

  /** Sorting keeps how many elements lie at or below, and strictly below, any bound. */
  lemma {:induction false} SortKeepsCounts<T>(s: seq<T>, key: T -> int, t: int)
    ensures CountAtMost(SortByKey(s, key), key, t) == CountAtMost(s, key, t)
    ensures CountBelow(SortByKey(s, key), key, t) == CountBelow(s, key, t)
  {
    if s != [] {
      SortKeepsCounts(s[1..], key, t);
      InsertCounts(s[0], SortByKey(s[1..], key), key, t);
    }
  }

  lemma {:induction false} CountAtMostBound<T>(s: seq<T>, key: T -> int, t: int)
    ensures CountAtMost(s, key, t) <= |s|
  {
    if s != [] {
      CountAtMostBound(s[1..], key, t);
    }
  }

  /** In a sorted sequence the elements at or below t are exactly a prefix, as long as the count. */
  lemma {:induction false} SortedAtMostPrefix<T>(s: seq<T>, key: T -> int, t: int)
    requires SortedBy(s, key)
    ensures CountAtMost(s, key, t) <= |s|
    ensures forall x :: 0 <= x < CountAtMost(s, key, t) ==> key(s[x]) <= t
    ensures forall x :: CountAtMost(s, key, t) <= x < |s| ==> key(s[x]) > t
  {
    CountAtMostBound(s, key, t);
    if s != [] {
      SortedAtMostPrefix(s[1..], key, t);
      if key(s[0]) > t {
      } else {
        forall x | CountAtMost(s, key, t) <= x < |s| ensures key(s[x]) > t {
          assert s[x] == s[1..][x - 1];
        }
      }
    }
  }

  lemma {:induction false} CountBelowBound<T>(s: seq<T>, key: T -> int, t: int)
    ensures CountBelow(s, key, t) <= |s|
  {
    if s != [] {
      CountBelowBound(s[1..], key, t);
    }
  }

  /** In a sorted sequence the elements strictly below t are exactly a prefix, as long as the count. */
  lemma {:induction false} SortedBelowPrefix<T>(s: seq<T>, key: T -> int, t: int)
    requires SortedBy(s, key)
    ensures CountBelow(s, key, t) <= |s|
    ensures forall x :: 0 <= x < CountBelow(s, key, t) ==> key(s[x]) < t
    ensures forall x :: CountBelow(s, key, t) <= x < |s| ==> key(s[x]) >= t
  {
    CountBelowBound(s, key, t);
    if s != [] {
      SortedBelowPrefix(s[1..], key, t);
      if key(s[0]) >= t {
      } else {
        forall x | CountBelow(s, key, t) <= x < |s| ensures key(s[x]) >= t {
          assert s[x] == s[1..][x - 1];
        }
      }
    }
  }

  lemma {:induction false} CountBelowAppend<T>(a: seq<T>, b: seq<T>, key: T -> int, t: int)
    ensures CountBelow(a + b, key, t) == CountBelow(a, key, t) + CountBelow(b, key, t)
  {
    if a == [] {
      assert a + b == b;
    } else {
      assert (a + b)[1..] == a[1..] + b;
      CountBelowAppend(a[1..], b, key, t);
    }
  }

  lemma {:induction false} CountBelowAll<T>(s: seq<T>, key: T -> int, t: int)
    requires forall x :: 0 <= x < |s| ==> key(s[x]) < t
    ensures CountBelow(s, key, t) == |s|
  {
    if s != [] {
      assert forall x :: 0 <= x < |s[1..]| ==> s[1..][x] == s[x + 1];
      CountBelowAll(s[1..], key, t);
    }
  }

  lemma {:induction false} CountBelowNone<T>(s: seq<T>, key: T -> int, t: int)
    requires forall x :: 0 <= x < |s| ==> key(s[x]) >= t
    ensures CountBelow(s, key, t) == 0
  {
    if s != [] {
      assert forall x :: 0 <= x < |s[1..]| ==> s[1..][x] == s[x + 1];
      CountBelowNone(s[1..], key, t);
    }
  }
}
