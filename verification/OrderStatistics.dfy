/** `median` of packages/forecast/src/baseline.ts, and why values far above it cannot move it. */
module OrderStatistics {
  import opened Sorting

  function Ascending(): (real, real) -> bool { (a: real, b: real) => a <= b }

  function Median(values: seq<real>): real {
    if values == [] then 0.0
    else
      var sorted := Sort(values, Ascending());
      var mid := |sorted| / 2;
      if |sorted| % 2 == 1 then sorted[mid] else (sorted[mid - 1] + sorted[mid]) / 2.0
  }

  function Below(v: real): real -> bool { (x: real) => x < v }

  function AtMost(v: real): real -> bool { (x: real) => x <= v }

  lemma {:induction false} CountMonotone(s: seq<real>, p: real -> bool, q: real -> bool)
    requires forall x :: p(x) ==> q(x)
    ensures CountIf(s, p) <= CountIf(s, q) <= |s|
  {
    if s == [] {
    } else {
      CountMonotone(s[1..], p, q);
    }
  }

  lemma {:induction false} CountAll(s: seq<real>, p: real -> bool)
    requires forall i :: 0 <= i < |s| ==> p(s[i])
    ensures CountIf(s, p) == |s|
  {
    if s == [] {
    } else {
      CountAll(s[1..], p);
    }
  }

  lemma SortedSplit(sorted: seq<real>, k: nat)
    requires SortedBy(sorted, Ascending()) && k < |sorted|
    ensures forall i :: 0 <= i <= k ==> sorted[i] <= sorted[k]
    ensures forall i :: k <= i < |sorted| ==> sorted[i] >= sorted[k]
  {
    forall i | 0 <= i < k ensures sorted[i] <= sorted[k] { assert Ascending()(sorted[i], sorted[k]); }
    forall i | k < i < |sorted| ensures sorted[i] >= sorted[k] { assert Ascending()(sorted[k], sorted[i]); }
  }

  lemma RankInSorted(sorted: seq<real>, k: nat)
    requires SortedBy(sorted, Ascending()) && k < |sorted|
    ensures CountIf(sorted, Below(sorted[k])) <= k < CountIf(sorted, AtMost(sorted[k]))
  {
    var v, low, high := sorted[k], sorted[..k + 1], sorted[k..];
    SortedSplit(sorted, k);
    assert sorted == low + sorted[k + 1..];
    assert sorted == sorted[..k] + high;
    assert CountIf(sorted, AtMost(v)) > k by {
      CountAll(low, AtMost(v));
      CountIfConcat(low, sorted[k + 1..], AtMost(v));
    }
    assert CountIf(sorted, Below(v)) <= k by {
      CountNone(high, Below(v));
      CountIfConcat(sorted[..k], high, Below(v));
      CountMonotone(sorted[..k], Below(v), Below(v));
    }
  }

  /** The k-th smallest value is the one with at most `k` values below it and more than `k`
      values not above it. */
  lemma OrderStatistic(s: seq<real>, k: nat, v: real)
    requires k < |s|
    ensures Sort(s, Ascending())[k] == v <==> CountIf(s, Below(v)) <= k < CountIf(s, AtMost(v))
  {
    var sorted := Sort(s, Ascending());
    SortProperties(s, Ascending());
    var u := sorted[k];
    RankInSorted(sorted, k);
    CountIfPermutation(sorted, s, Below(u));
    CountIfPermutation(sorted, s, AtMost(u));
    if u < v { CountMonotone(s, AtMost(u), Below(v)); }
    if v < u { CountMonotone(s, AtMost(v), Below(u)); }
  }

  lemma MedianPermutation(a: seq<real>, b: seq<real>)
    requires multiset(a) == multiset(b)
    ensures Median(a) == Median(b)
  {
    assert |multiset(a)| == |multiset(b)|;
    forall k | 0 <= k < |a| ensures Sort(a, Ascending())[k] == Sort(b, Ascending())[k] {
      var v := Sort(a, Ascending())[k];
      OrderStatistic(a, k, v);
      OrderStatistic(b, k, v);
      CountIfPermutation(a, b, Below(v));
      CountIfPermutation(a, b, AtMost(v));
    }
  }

  predicate Positive(s: seq<real>) { forall i :: 0 <= i < |s| ==> s[i] > 0.0 }

  function Above(): real -> bool { (x: real) => x > 0.0 }

  lemma SamePositivity(s: seq<real>, t: seq<real>)
    requires multiset(s) == multiset(t) && Positive(s)
    ensures Positive(t)
  {
    CountAll(s, Above());
    CountIfPermutation(s, t, Above());
    if i :| 0 <= i < |t| && t[i] <= 0.0 {
      CountIfConcat(t[..i], t[i..], Above());
      assert t == t[..i] + t[i..];
      CountMonotone(t[..i], Above(), Above());
      CountMonotone(t[i..][1..], Above(), Above());
    }
    assert |multiset(s)| == |multiset(t)|;
  }

  lemma MiddlesBelowTwiceMedian(s: seq<real>)
    requires s != [] && Positive(s)
    ensures var sorted := Sort(s, Ascending()); var mid := |s| / 2;
      && sorted[mid] < 2.0 * Median(s)
      && (|s| % 2 == 0 ==> sorted[mid - 1] < 2.0 * Median(s))
      && Median(s) > 0.0
  {
    var sorted := Sort(s, Ascending());
    SortProperties(s, Ascending());
    var mid := |s| / 2;
    SamePositivity(s, sorted);
    if |s| % 2 == 0 { assert Ascending()(sorted[mid - 1], sorted[mid]); }
  }

  /** The lists agree, except where both are above `v`. */
  ghost predicate AgreeUpTo(a: seq<real>, b: seq<real>, v: real) {
    |a| == |b| && forall i :: 0 <= i < |a| ==> a[i] == b[i] || (a[i] > v && b[i] > v)
  }

  lemma {:induction false} CountsAgree(a: seq<real>, b: seq<real>, v: real)
    requires AgreeUpTo(a, b, v)
    ensures CountIf(a, Below(v)) == CountIf(b, Below(v))
    ensures CountIf(a, AtMost(v)) == CountIf(b, AtMost(v))
  {
    if a == [] {
    } else {
      CountsAgree(a[1..], b[1..], v);
    }
  }

  lemma MedianOfEqual(s: seq<real>, v: real)
    requires s != [] && forall i :: 0 <= i < |s| ==> s[i] == v
    ensures Median(s) == v
  {
    var sorted := Sort(s, Ascending());
    SortProperties(s, Ascending());
    forall i | 0 <= i < |sorted| ensures sorted[i] == v {
      assert sorted[i] in multiset(sorted);
      assert sorted[i] in multiset(s);
    }
  }

  /** Two values agree, or both reach a positive bound. */
  predicate AgreeOrReach(x: real, y: real, bound: real) { x == y || (x >= bound > 0.0 && y >= bound) }

  lemma StatisticStays(a: seq<real>, b: seq<real>, k: nat)
    requires k < |a| && AgreeUpTo(a, b, Sort(a, Ascending())[k])
    ensures Sort(b, Ascending())[k] == Sort(a, Ascending())[k]
  {
    var v := Sort(a, Ascending())[k];
    CountsAgree(a, b, v);
    OrderStatistic(a, k, v);
    OrderStatistic(b, k, v);
  }

  /** Values of at least twice the median can be replaced by any others of at least that: the median of
      positive values stays. */
  lemma MedianInsensitive(a: seq<real>, b: seq<real>)
    requires |a| == |b| && Positive(a)
    requires forall i :: 0 <= i < |a| ==> AgreeOrReach(a[i], b[i], 2.0 * Median(a))
    ensures Median(b) == Median(a)
  {
    if a != [] {
      MiddlesBelowTwiceMedian(a);
      var mid := |a| / 2;
      StatisticStays(a, b, mid);
      if |a| % 2 == 0 { StatisticStays(a, b, mid - 1); }
    }
  }

  // ---------------------------------------------------------------- what the median is

  /** The median is the mean of the two middle values, which are one value in an odd list. */
  lemma MedianIsMiddle(s: seq<real>)
    requires s != []
    ensures 2.0 * Median(s) == Sort(s, Ascending())[(|s| - 1) / 2] + Sort(s, Ascending())[|s| / 2]
  {
    hide Sort;
    var sorted, n := Sort(s, Ascending()), |s|;
    MiddleIndices(n);
    if n % 2 == 1 {
      assert Median(s) == sorted[n / 2];
    } else {
      assert Median(s) == (sorted[n / 2 - 1] + sorted[n / 2]) / 2.0;
    }
  }

  lemma MiddleIndices(n: nat)
    requires n > 0
    ensures (n - 1) / 2 == if n % 2 == 1 then n / 2 else n / 2 - 1
  {}

  /** At least half of the values are not above the median, and at least half not below it. */
  lemma MedianHalves(s: seq<real>)
    requires s != []
    ensures 2 * CountIf(s, Below(Median(s))) <= |s| <= 2 * CountIf(s, AtMost(Median(s)))
  {
    var low, high := Sort(s, Ascending())[(|s| - 1) / 2], Sort(s, Ascending())[|s| / 2];
    hide Sort, Median, CountIf;
    MiddlesAscend(s);
    MedianIsMiddle(s);
    OrderStatistic(s, (|s| - 1) / 2, low);
    OrderStatistic(s, |s| / 2, high);
    CountMonotone(s, AtMost(low), AtMost(Median(s)));
    CountMonotone(s, Below(Median(s)), Below(high));
  }

  lemma AgreeLower(a: seq<real>, b: seq<real>, v: real, w: real)
    requires AgreeUpTo(a, b, v) && w <= v
    ensures AgreeUpTo(a, b, w) && |a| == |b|
  {}

  lemma MiddlesAscend(s: seq<real>)
    requires s != []
    ensures Sort(s, Ascending())[(|s| - 1) / 2] <= Sort(s, Ascending())[|s| / 2]
  {
    SortProperties(s, Ascending());
    hide Sort;
    var sorted, low, high := Sort(s, Ascending()), (|s| - 1) / 2, |s| / 2;
    if low < high { assert Ascending()(sorted[low], sorted[high]); }
  }

  /** Values above the upper middle one can be replaced by any others above it. */
  lemma MedianIgnoresTop(a: seq<real>, b: seq<real>)
    requires a != [] && AgreeUpTo(a, b, Sort(a, Ascending())[|a| / 2])
    ensures Median(b) == Median(a)
  {
    hide Sort, Median, AgreeUpTo;
    var low, high := (|a| - 1) / 2, |a| / 2;
    MiddlesAscend(a);
    AgreeLower(a, b, Sort(a, Ascending())[high], Sort(a, Ascending())[low]);
    StatisticStays(a, b, low);
    StatisticStays(a, b, high);
    MedianIsMiddle(a);
    MedianIsMiddle(b);
  }

  /** Raising the upper middle value of an even list raises the median. */
  lemma MedianFollowsMiddle()
    ensures Median([0.0, 1.0, 3.0, 5.0]) == 2.0 && Median([0.0, 1.0, 4.0, 5.0]) == 2.5
  {
    var a, b := [0.0, 1.0, 3.0, 5.0], [0.0, 1.0, 4.0, 5.0];
    SortedStays(a);
    SortedStays(b);
  }

  lemma {:induction false} SortedStays(s: seq<real>)
    requires SortedBy(s, Ascending())
    ensures Sort(s, Ascending()) == s
  {
    if s == [] {
    } else {
      SortedStays(s[1..]);
      assert |s| > 1 ==> Ascending()(s[0], s[1]);
      assert s == [s[0]] + s[1..];
    }
  }
}
