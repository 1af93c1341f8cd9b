/** The midnights of a half-open stretch of time, and counting among them. */
module DayRange {
  import opened Numbers
  import opened Sorting

  predicate Aligned(t: int) { t % DAY_MS == 0 }

  /** The first midnight not before `t`. */
  function NextMidnight(t: int): (m: int)
    ensures Aligned(m) && t <= m < t + DAY_MS
  {
    t + (-t) % DAY_MS
  }

  /** The instants `from`, `from` + 1 day, ... before `end`. */
  function Days(from: int, end: int): seq<int>
    decreases end - from
  {
    if from >= end then [] else [from] + Days(from + DAY_MS, end)
  }

  lemma {:induction false} DaysMember(from: int, end: int, i: nat)
    requires Aligned(from) && i < |Days(from, end)|
    ensures Days(from, end)[i] == from + i * DAY_MS
    ensures from <= Days(from, end)[i] < end && Aligned(Days(from, end)[i])
    decreases i
  {
    if i == 0 {
    } else {
      DaysMember(from + DAY_MS, end, i - 1);
    }
  }

  lemma DaysDistinct(from: int, end: int)
    requires Aligned(from)
    ensures Distinct(Days(from, end))
  {
    var all := Days(from, end);
    forall i | 0 <= i < |all| ensures all[i] == from + i * DAY_MS { DaysMember(from, end, i); }
  }

  lemma {:induction false} DayListed(from: int, end: int, k: int)
    requires Aligned(from) && Aligned(k) && from <= k < end
    ensures k in Days(from, end)
    decreases k - from
  {
    if from >= k {
    } else {
      GapBetweenAligned(from, k);
      DayListed(from + DAY_MS, end, k);
    }
  }

  lemma GapBetweenAligned(a: int, b: int)
    requires Aligned(a) && Aligned(b) && a < b
    ensures a + DAY_MS <= b
  {}

  lemma {:induction false} DaysLength(from: int, n: nat)
    ensures |Days(from, from + n * DAY_MS)| == n
    decreases n
  {
    if n == 0 {
    } else {
      DaysLength(from + DAY_MS, n - 1);
      assert from + DAY_MS + (n - 1) * DAY_MS == from + n * DAY_MS;
    }
  }

  lemma {:induction false} DaysSplit(a: int, b: int, c: int)
    requires Aligned(a) && Aligned(b) && a <= b <= c
    ensures Days(a, c) == Days(a, b) + Days(b, c)
    decreases b - a
  {
    if a >= b {
    } else {
      GapBetweenAligned(a, b);
      DaysSplit(a + DAY_MS, b, c);
    }
  }

  /** A window of whole days holds that many midnights, wherever in the day it starts. */
  lemma WindowLength(since: int, n: nat)
    ensures |Days(NextMidnight(since), since + n * DAY_MS)| == n
  {
    var from := NextMidnight(since);
    DaysLength(from, n);
    if from > since {
      EndsBeforeNext(from, since + n * DAY_MS, n);
    }
  }

  lemma {:induction false} EndsBeforeNext(from: int, end: int, n: nat)
    requires end <= from + n * DAY_MS < end + DAY_MS
    ensures |Days(from, end)| == n
    decreases n
  {
    if n == 0 {
    } else {
      assert from + DAY_MS + (n - 1) * DAY_MS == from + n * DAY_MS;
      EndsBeforeNext(from + DAY_MS, end, n - 1);
    }
  }

  lemma {:induction false} CountSame(s: seq<int>, p: int -> bool, q: int -> bool)
    requires forall i :: 0 <= i < |s| ==> p(s[i]) == q(s[i])
    ensures CountIf(s, p) == CountIf(s, q)
  {
    if s == [] {
    } else {
      CountSame(s[1..], p, q);
    }
  }

  lemma {:induction false} CountComplement(s: seq<int>, p: int -> bool, q: int -> bool)
    requires forall i :: 0 <= i < |s| ==> p(s[i]) != q(s[i])
    ensures CountIf(s, p) + CountIf(s, q) == |s|
  {
    if s == [] {
    } else {
      CountComplement(s[1..], p, q);
    }
  }

  /** Counting a disjoint union. */
  lemma {:induction false} CountUnion(s: seq<int>, p: int -> bool, q: int -> bool, either: int -> bool)
    requires forall i :: 0 <= i < |s| ==> either(s[i]) == (p(s[i]) || q(s[i])) && !(p(s[i]) && q(s[i]))
    ensures CountIf(s, either) == CountIf(s, p) + CountIf(s, q)
  {
    if s == [] {
    } else {
      CountUnion(s[1..], p, q, either);
    }
  }

  /** Distinct members of `s` that satisfy `p` are at most as many as the count. */
  lemma DistinctWithin(xs: seq<int>, s: seq<int>, p: int -> bool)
    requires Distinct(xs) && forall x :: x in xs ==> x in s && p(x)
    ensures |xs| <= CountIf(s, p)
  {
    FilterProperties(s, p);
    FilterLength(s, p);
    DistinctSubset(xs, Filter(s, p));
  }

  lemma DistinctSubset(xs: seq<int>, ys: seq<int>)
    requires Distinct(xs) && forall x :: x in xs ==> x in ys
    ensures |xs| <= |ys|
  {
    forall x ensures multiset(xs)[x] <= multiset(ys)[x] { OncePerElement(xs, x); }
    assert multiset(xs) <= multiset(ys);
    assert |multiset(ys)| == |multiset(xs)| + |multiset(ys) - multiset(xs)|;
  }

  function Holds(keys: set<int>): int -> bool { (k: int) => k in keys }

  /** Counting a stretch's members of a set of day keys is the size of that part of the set. */
  lemma {:induction false} CountIsCardinality(from: int, end: int, keys: set<int>)
    requires Aligned(from) && forall k :: k in keys ==> Aligned(k)
    ensures CountIf(Days(from, end), Holds(keys)) == |set k | k in keys && from <= k < end|
    decreases end - from
  {
    var here := set k | k in keys && from <= k < end;
    if from < end {
      CountIsCardinality(from + DAY_MS, end, keys);
      var later := set k | k in keys && from + DAY_MS <= k < end;
      forall k | k in here && k != from ensures k in later { GapBetweenAligned(from, k); }
      if from in keys {
        assert here == later + {from};
      } else {
        assert here == later;
      }
    } else {
      assert here == {};
    }
  }
}
