/** The level fill of packages/forecast/src/transfers.ts: the highest common days of
    cover that the available units can lift every destination to. */
module CoverLevel {
  import opened Numbers
  import opened Sorting

  /** At or below this rate a destination has no measurable velocity. */
  const NO_RATE_EPSILON := 0.0001

  datatype Destination = Destination(locationId: string, onHand: real, runRate: real)

  type Candidate = d: Destination | d.runRate > NO_RATE_EPSILON
    witness Destination("", 0.0, 1.0)

  /** Units a destination is short of a cover level. */
  function Shortfall(d: Destination, level: real): real {
    Max(0.0, d.runRate * level - d.onHand)
  }

  function ShortfallAt(level: real): Candidate -> real {
    (d: Candidate) => Shortfall(d, level)
  }

  /** Units needed to lift every destination to `level`. */
  function Need(ds: seq<Candidate>, level: real): real {
    SumBy(ds, ShortfallAt(level))
  }

  /** The cover a destination starts with: above it, the destination needs stock. */
  function Breakpoint(d: Candidate): real { d.onHand / d.runRate }

  function ByBreakpoint(): (Candidate, Candidate) -> bool {
    (a: Candidate, b: Candidate) => Breakpoint(a) <= Breakpoint(b)
  }

  function RateOf(): Candidate -> real { (d: Candidate) => d.runRate }

  function OnHandOf(): Candidate -> real { (d: Candidate) => d.onHand }

  lemma BreakpointMeaning(d: Candidate, level: real)
    ensures Breakpoint(d) <= level ==> d.onHand <= d.runRate * level
    ensures Breakpoint(d) >= level ==> d.onHand >= d.runRate * level
  {
    var b := Breakpoint(d);
    assert b * d.runRate == d.onHand;
    if b <= level { assert d.runRate * (level - b) >= 0.0; }
    if b >= level { assert d.runRate * (b - level) >= 0.0; }
  }

  lemma {:induction false} NeedBelow(ds: seq<Candidate>, level: real)
    requires forall d :: d in ds ==> d.onHand <= d.runRate * level
    ensures Need(ds, level) == SumBy(ds, RateOf()) * level - SumBy(ds, OnHandOf())
  {
    if ds == [] {
    } else {
      NeedBelow(ds[1..], level);
      var rest := SumBy(ds[1..], RateOf());
      assert (ds[0].runRate + rest) * level == ds[0].runRate * level + rest * level;
    }
  }

  lemma {:induction false} NeedAbove(ds: seq<Candidate>, level: real)
    requires forall d :: d in ds ==> d.onHand >= d.runRate * level
    ensures Need(ds, level) == 0.0
  {
    if ds == [] {
    } else {
      NeedAbove(ds[1..], level);
    }
  }

  /** Between two breakpoints the total need is linear in the level. */
  lemma NeedOnSegment(low: seq<Candidate>, high: seq<Candidate>, level: real)
    requires forall d :: d in low ==> d.onHand <= d.runRate * level
    requires forall d :: d in high ==> d.onHand >= d.runRate * level
    ensures Need(low + high, level) == SumBy(low, RateOf()) * level - SumBy(low, OnHandOf())
  {
    NeedBelow(low, level);
    NeedAbove(high, level);
    SumByConcat(low, high, ShortfallAt(level));
  }

  lemma PrefixSum(s: seq<Candidate>, i: nat, f: Candidate -> real)
    requires i < |s|
    ensures SumBy(s[..i + 1], f) == SumBy(s[..i], f) + f(s[i])
  {
    SumByConcat(s[..i], [s[i]], f);
    assert s[..i + 1] == s[..i] + [s[i]];
  }

  lemma NonPositiveProduct(x: real, y: real)
    requires x <= 0.0 && y >= 0.0
    ensures x * y <= 0.0
  {}

  /** One step of the walk: the solved level spends everything and lies above the
      breakpoint just passed. */
  lemma SolvedLevel(total: real, rate: real, d: Candidate, level: real)
    requires rate >= 0.0 && total > Breakpoint(d) * rate
    requires rate + d.runRate > 0.0 && level == (total + d.onHand) / (rate + d.runRate)
    ensures level * (rate + d.runRate) == total + d.onHand
    ensures level > Breakpoint(d)
  {
    var b, r := Breakpoint(d), rate + d.runRate;
    assert b * d.runRate == d.onHand;
    assert b * r == b * rate + d.onHand;
    assert level * r - b * r == (level - b) * r;
    if level - b <= 0.0 { assert (level - b) * r <= 0.0 by { NonPositiveProduct(level - b, r); } }
  }

  lemma QuotientTimes(total: real, rate: real)
    requires rate > 0.0
    ensures total / rate * rate == total && rate * (total / rate) == total
  {}

  lemma QuotientAbove(total: real, rate: real, level: real, bound: real)
    requires rate > 0.0 && level == total / rate && level > bound
    ensures total > bound * rate
  {
    assert level * rate == total && (level - bound) * rate > 0.0;
  }

  /** The level at which the first `k` points together spend everything. */
  ghost function LevelAt(points: seq<Candidate>, k: nat, available: real): real
    requires 0 < k <= |points| && SumBy(points[..k], RateOf()) > 0.0
  {
    (available + SumBy(points[..k], OnHandOf())) / SumBy(points[..k], RateOf())
  }

  lemma {:induction false} PositiveRate(s: seq<Candidate>)
    ensures SumBy(s, RateOf()) >= 0.0 && (s != [] ==> SumBy(s, RateOf()) > 0.0)
  {
    if s == [] {
    } else {
      PositiveRate(s[1..]);
    }
  }

  /** While the solved level is above the next breakpoint, taking that point in keeps it
      above the breakpoint. */
  lemma LevelPassesPoint(points: seq<Candidate>, k: nat, available: real)
    requires k < |points| && available > 0.0
    requires SumBy(points[..k + 1], RateOf()) > 0.0
    requires k > 0 ==> SumBy(points[..k], RateOf()) > 0.0 && LevelAt(points, k, available) > Breakpoint(points[k])
    ensures LevelAt(points, k + 1, available) > Breakpoint(points[k])
  {
    PrefixSum(points, k, RateOf());
    PrefixSum(points, k, OnHandOf());
    PositiveRate(points[..k]);
    var rate, total := SumBy(points[..k], RateOf()), available + SumBy(points[..k], OnHandOf());
    if k > 0 {
      QuotientAbove(total, rate, LevelAt(points, k, available), Breakpoint(points[k]));
    }
    SolvedLevel(total, rate, points[k], LevelAt(points, k + 1, available));
  }

  lemma FirstFit(points: seq<Candidate>, i: nat, available: real)
    requires SortedBy(points, ByBreakpoint()) && i < |points|
    requires SumBy(points[..i + 1], RateOf()) > 0.0
    requires LevelAt(points, i + 1, available) > Breakpoint(points[i])
    requires i + 1 == |points| || LevelAt(points, i + 1, available) <= Breakpoint(points[i + 1])
    ensures Need(points, LevelAt(points, i + 1, available)) == available
  {
    hide Need, SumBy, Breakpoint;
    var level := LevelAt(points, i + 1, available);
    var low, high := points[..i + 1], points[i + 1..];
    forall d | d in low ensures d.onHand <= d.runRate * level {
      var j :| 0 <= j <= i && points[j] == d;
      assert j < i ==> ByBreakpoint()(points[j], points[i]);
      BreakpointMeaning(d, level);
    }
    forall d | d in high ensures d.onHand >= d.runRate * level {
      var j :| i + 1 <= j < |points| && points[j] == d;
      assert j > i + 1 ==> ByBreakpoint()(points[i + 1], points[j]);
      BreakpointMeaning(d, level);
    }
    NeedOnSegment(low, high, level);
    assert points == low + high;
    QuotientTimes(available + SumBy<Candidate>(low, OnHandOf()), SumBy<Candidate>(low, RateOf()));
  }

  lemma FirstFitFills(ds: seq<Candidate>, i: nat, available: real)
    requires var points := Sort(ds, ByBreakpoint());
      && i < |points| && SumBy(points[..i + 1], RateOf()) > 0.0
      && LevelAt(points, i + 1, available) > Breakpoint(points[i])
      && (i + 1 == |points| || LevelAt(points, i + 1, available) <= Breakpoint(points[i + 1]))
    ensures Need(ds, LevelAt(Sort(ds, ByBreakpoint()), i + 1, available)) == available
  {
    var points := Sort(ds, ByBreakpoint());
    SortProperties(ds, ByBreakpoint());
    FirstFit(points, i, available);
    SumByPermutation(points, ds, ShortfallAt(LevelAt(points, i + 1, available)));
  }

  /** Walks the breakpoints in order and solves the level on the first segment that fits:
      the shortfalls below it use up exactly the available units. The return after the loop
      is not reached: the last segment has no upper breakpoint. */
  method FillLevel(destinations: seq<Candidate>, available: real) returns (level: real)
    requires destinations != [] && available > 0.0
    ensures Need(destinations, level) == available
  {
    var points := Sort(destinations, ByBreakpoint());
    assert points != [] by { SortProperties(destinations, ByBreakpoint()); }
    var rate, onHand := 0.0, 0.0;
    for i := 0 to |points|
      invariant i < |points|
      invariant rate == SumBy(points[..i], RateOf())
      invariant onHand == SumBy(points[..i], OnHandOf())
      invariant i > 0 ==> rate > 0.0 && LevelAt(points, i, available) > Breakpoint(points[i])
    {
      PrefixSum(points, i, RateOf());
      PrefixSum(points, i, OnHandOf());
      PositiveRate(points[..i + 1]);
      rate := rate + points[i].runRate;
      onHand := onHand + points[i].onHand;
      level := (available + onHand) / rate;
      LevelPassesPoint(points, i, available);
      if i + 1 == |points| || level <= Breakpoint(points[i + 1]) {
        FirstFitFills(destinations, i, available);
        return level;
      }
    }
    assert false;
  }

  lemma NeedMonotone(ds: seq<Candidate>, low: real, high: real)
    requires low <= high
    ensures Need(ds, low) <= Need(ds, high)
    ensures low < high && Need(ds, low) > 0.0 ==> Need(ds, low) < Need(ds, high)
  {
    var f, g := ShortfallAt(low), ShortfallAt(high);
    forall d: Candidate ensures f(d) <= g(d) && (low < high && f(d) > 0.0 ==> f(d) < g(d)) {
      assert d.runRate * (high - low) >= 0.0;
      if low < high { assert d.runRate * (high - low) > 0.0; }
    }
    SumByMonotone(ds, f, g);
    if low < high && Need(ds, low) > 0.0 {
      SumByPositiveTerm(ds, f);
    }
  }

  /** The level the units pay for exactly is the highest affordable one: a common level can
      be afforded if and only if it is not above it. */
  lemma HighestCommonLevel(ds: seq<Candidate>, available: real, level: real, other: real)
    requires available > 0.0 && Need(ds, level) == available
    ensures Need(ds, other) <= available <==> other <= level
  {
    if other <= level {
      NeedMonotone(ds, other, level);
    } else {
      NeedMonotone(ds, level, other);
    }
  }

  function Total(xs: seq<real>): real {
    if xs == [] then 0.0 else xs[0] + Total(xs[1..])
  }

  function CoverWith(d: Candidate, x: real): real { (d.onHand + x) / d.runRate }

  lemma MoreCoverThanLevel(d: Candidate, x: real, level: real)
    requires x >= 0.0 && CoverWith(d, x) > level
    ensures x >= Shortfall(d, level)
    ensures Shortfall(d, level) > 0.0 ==> x > Shortfall(d, level)
  {
    var c := CoverWith(d, x);
    assert c * d.runRate == d.onHand + x;
    assert (c - level) * d.runRate > 0.0;
  }

  lemma {:induction false} AllocationCoversNeed(ds: seq<Candidate>, xs: seq<real>, level: real)
    requires |xs| == |ds|
    requires forall i :: 0 <= i < |xs| ==> xs[i] >= 0.0 && CoverWith(ds[i], xs[i]) > level
    ensures Total(xs) >= Need(ds, level)
    ensures Need(ds, level) > 0.0 ==> Total(xs) > Need(ds, level)
  {
    if ds == [] {
    } else {
      MoreCoverThanLevel(ds[0], xs[0], level);
      AllocationCoversNeed(ds[1..], xs[1..], level);
    }
  }

  /** Max-min optimality: no non-negative allocation of the same units leaves every
      destination with more cover than the level. */
  lemma MaxMinOptimal(ds: seq<Candidate>, available: real, level: real, xs: seq<real>)
    requires available > 0.0 && Need(ds, level) == available
    requires |xs| == |ds| && (forall i :: 0 <= i < |xs| ==> xs[i] >= 0.0) && Total(xs) <= available
    ensures exists i :: 0 <= i < |ds| && CoverWith(ds[i], xs[i]) <= level
  {
    if forall i :: 0 <= i < |ds| ==> CoverWith(ds[i], xs[i]) > level {
      AllocationCoversNeed(ds, xs, level);
    }
  }
}
