/** Spike damping: `dampedWindow` of packages/forecast/src/baseline.ts. */
module DampedWindow {
  import opened DaySeries
  import opened Numbers
  import opened OrderStatistics
  import opened Sorting

  const SPIKE_CAP_MULTIPLE := 2.0
  const MIN_SALE_DAYS_FOR_CAP := 5

  datatype Damped = Damped(units: real, saleDays: nat)

  /** Half-open in time; excluded day keys drop out. */
  function InWindow(since: int, asOf: int, excluded: set<int>): SalesPoint -> bool {
    (p: SalesPoint) => since <= p.date < asOf && DayKey(p.date) !in excluded
  }

  function WindowRows(history: seq<SalesPoint>, since: int, asOf: int, excluded: set<int>): seq<SalesPoint> {
    Filter(history, InWindow(since, asOf, excluded))
  }

  predicate HasCap(rows: seq<SalesPoint>) { |SaleDays(rows)| >= MIN_SALE_DAYS_FOR_CAP }

  function Cap(rows: seq<SalesPoint>): real { SPIKE_CAP_MULTIPLE * SaleMedian(rows) }

  function CapTo(hasCap: bool, cap: real, quantity: real): real { if hasCap then Min(quantity, cap) else quantity }

  function CappedOn(rows: seq<SalesPoint>, hasCap: bool, cap: real): int -> real {
    (key: int) => CapTo(hasCap, cap, Total(rows, key))
  }

  function Damp(rows: seq<SalesPoint>): Damped {
    Damped(SumBy(Keys(rows), CappedOn(rows, HasCap(rows), Cap(rows))), |SaleDays(rows)|)
  }

  // ---------------------------------------------------------------- the loops

  ghost predicate Bucketed(rows: seq<SalesPoint>, keys: seq<int>, byDay: map<int, real>) {
    && keys == Keys(rows)
    && byDay.Keys == (set k | k in keys)
    && (forall k :: k in byDay ==> byDay[k] == Total(rows, k))
  }

  lemma BucketStep(rows: seq<SalesPoint>, keys: seq<int>, byDay: map<int, real>, p: SalesPoint)
    requires Bucketed(rows, keys, byDay)
    ensures var key := DayKey(p.date);
      Bucketed(rows + [p], if key in byDay then keys else keys + [key],
               byDay[key := (if key in byDay then byDay[key] else 0.0) + p.quantity])
  {
    KeysStep(rows, p);
    if DayKey(p.date) !in keys { NoRowsNoTotal(rows, DayKey(p.date)); }
    forall k ensures Total(rows + [p], k) == Total(rows, k) + OnDay(k)(p) { SumStep(rows, p, OnDay(k)); }
  }

  lemma NothingBucketed(history: seq<SalesPoint>, since: int, asOf: int, excluded: set<int>)
    ensures Bucketed(WindowRows(history[..0], since, asOf, excluded), [], map[])
  {}

  lemma WindowStep(history: seq<SalesPoint>, i: nat, since: int, asOf: int, excluded: set<int>)
    requires i < |history|
    ensures WindowRows(history[..i + 1], since, asOf, excluded)
         == if InWindow(since, asOf, excluded)(history[i])
           then WindowRows(history[..i], since, asOf, excluded) + [history[i]]
            else WindowRows(history[..i], since, asOf, excluded)
  {
    assert history[..i + 1] == history[..i] + [history[i]];
    FilterConcat(history[..i], [history[i]], InWindow(since, asOf, excluded));
    assert [history[i]][1..] == [];
  }

  function Totals(keys: seq<int>, byDay: map<int, real>): seq<real>
    requires forall i :: 0 <= i < |keys| ==> keys[i] in byDay
  {
    if keys == [] then [] else [byDay[keys[0]]] + Totals(keys[1..], byDay)
  }

  lemma {:induction false} TotalsOfKeys(rows: seq<SalesPoint>, keys: seq<int>, byDay: map<int, real>)
    requires forall i :: 0 <= i < |keys| ==> keys[i] in byDay && byDay[keys[i]] == Total(rows, keys[i])
    ensures Totals(keys, byDay) == Map(keys, TotalOn(rows))
    ensures Filter(Totals(keys, byDay), Above()) == Map(Filter(keys, IsSaleDay(rows)), TotalOn(rows))
  {
    hide Total;
    if keys == [] {
    } else {
      TotalsOfKeys(rows, keys[1..], byDay);
      assert [TotalOn(rows)(keys[0])] + Map(keys[1..], TotalOn(rows)) == Map(keys, TotalOn(rows));
    }
    FilterOfMap(keys, TotalOn(rows), IsSaleDay(rows), Above());
  }

  lemma {:induction false} CapTotalsSum(rows: seq<SalesPoint>, keys: seq<int>, i: nat, hasCap: bool, cap: real)
    requires i < |keys|
    ensures SumBy(keys[..i + 1], CappedOn(rows, hasCap, cap))
         == SumBy(keys[..i], CappedOn(rows, hasCap, cap)) + CapTo(hasCap, cap, Total(rows, keys[i]))
  {
    assert keys[..i + 1] == keys[..i] + [keys[i]];
    SumByConcat(keys[..i], [keys[i]], CappedOn(rows, hasCap, cap));
    assert [keys[i]][1..] == [];
  }

  method BucketByDay(history: seq<SalesPoint>, since: int, asOf: int, excluded: set<int>)
    returns (keys: seq<int>, byDay: map<int, real>)
    ensures Bucketed(WindowRows(history, since, asOf, excluded), keys, byDay)
  {
    hide WindowRows, Bucketed, DayKey;
    NothingBucketed(history, since, asOf, excluded);
    keys, byDay := [], map[];
    for i := 0 to |history|
      invariant Bucketed(WindowRows(history[..i], since, asOf, excluded), keys, byDay)
    {
      var p := history[i];
      WindowStep(history, i, since, asOf, excluded);
      var key := DayKey(p.date);
      if since <= p.date < asOf && key !in excluded {
        BucketStep(WindowRows(history[..i], since, asOf, excluded), keys, byDay, p);
        keys := if key in byDay then keys else keys + [key];
        byDay := byDay[key := (if key in byDay then byDay[key] else 0.0) + p.quantity];
      }
    }
    assert history[..|history|] == history;
  }

  method SumCapped(ghost rows: seq<SalesPoint>, ghost keys: seq<int>, totals: seq<real>, hasCap: bool, cap: real)
    returns (units: real)
    requires totals == Map(keys, TotalOn(rows))
    ensures units == SumBy(keys, CappedOn(rows, hasCap, cap))
  {
    units := 0.0;
    for i := 0 to |totals|
      invariant units == SumBy(keys[..i], CappedOn(rows, hasCap, cap))
    {
      CapTotalsSum(rows, keys, i, hasCap, cap);
      units := units + CapTo(hasCap, cap, totals[i]);
    }
    assert keys[..|keys|] == keys;
  }

  /** Buckets the window by day and caps each day at twice the median sale day. */
  method ComputeDampedWindow(history: seq<SalesPoint>, since: int, asOf: int, excluded: set<int>) returns (r: Damped)
    ensures r == Damp(WindowRows(history, since, asOf, excluded))
  {
    var keys, byDay := BucketByDay(history, since, asOf, excluded);
    ghost var rows := WindowRows(history, since, asOf, excluded);
    TotalsOfKeys(rows, keys, byDay);
    var totals := Totals(keys, byDay);
    var sold := Filter(totals, Above());
    var hasCap := |sold| >= MIN_SALE_DAYS_FOR_CAP;
    var cap := SPIKE_CAP_MULTIPLE * Median(sold);
    var units := SumCapped(rows, keys, totals, hasCap, cap);
    r := Damped(units, |sold|);
  }

  // ---------------------------------------------------------------- what it depends on

  function IsBusyDay(rows: seq<SalesPoint>): int -> bool { (key: int) => Total(rows, key) != 0.0 }

  /** The capped sum only sees days with a total, so it does not depend on which days have rows
      or in which order they come. */
  lemma UnitsFromTotals(a: seq<SalesPoint>, b: seq<SalesPoint>, hasCap: bool, cap: real)
    requires cap >= 0.0
    requires forall k :: Total(a, k) == 0.0 <==> Total(b, k) == 0.0
    requires forall k :: CapTo(hasCap, cap, Total(a, k)) == CapTo(hasCap, cap, Total(b, k))
    ensures SumBy(Keys(a), CappedOn(a, hasCap, cap)) == SumBy(Keys(b), CappedOn(b, hasCap, cap))
  {
    BusySum(a, hasCap, cap);
    BusySum(b, hasCap, cap);
    var x, y := Filter(Keys(a), IsBusyDay(a)), Filter(Keys(b), IsBusyDay(b));
    forall k ensures k in x <==> k in y {
      assert Total(a, k) == 0.0 <==> Total(b, k) == 0.0;
    }
    DistinctSameElements(x, y);
    SumByPermutation(x, y, CappedOn(b, hasCap, cap));
    SumByCongruence(x, CappedOn(a, hasCap, cap), CappedOn(b, hasCap, cap));
  }

  lemma BusySum(rows: seq<SalesPoint>, hasCap: bool, cap: real)
    requires cap >= 0.0
    ensures var busy := Filter(Keys(rows), IsBusyDay(rows));
      && SumBy(busy, CappedOn(rows, hasCap, cap)) == SumBy(Keys(rows), CappedOn(rows, hasCap, cap))
      && Distinct(busy) && (forall k :: k in busy <==> Total(rows, k) != 0.0)
  {
    KeysProperties(rows);
    FilterProperties(Keys(rows), IsBusyDay(rows));
    forall k | Total(rows, k) != 0.0 ensures k in Keys(rows) {
      if k !in Keys(rows) { NoRowsNoTotal(rows, k); }
    }
    SumByFilter(Keys(rows), IsBusyDay(rows), CappedOn(rows, hasCap, cap));
  }

  lemma CapIsPositive(rows: seq<SalesPoint>)
    ensures Cap(rows) >= 0.0 && (HasCap(rows) ==> Cap(rows) > 0.0)
  {
    SaleTotalsPositive(rows);
    SaleMedianNonNegative(rows);
    assert HasCap(rows) ==> SaleTotals(rows) != [];
  }

  /** Both days are the same, or both reach the cap. */
  ghost predicate CapsAlike(rows: seq<SalesPoint>, x: real, y: real) {
    x == y || (HasCap(rows) && x >= Cap(rows) && y >= Cap(rows))
  }

  lemma CappedAlike(rows: seq<SalesPoint>, x: real, y: real)
    requires CapsAlike(rows, x, y)
    ensures AgreeOrReach(x, y, 2.0 * SaleMedian(rows))
    ensures CapTo(HasCap(rows), Cap(rows), x) == CapTo(HasCap(rows), Cap(rows), y)
    ensures x == 0.0 <==> y == 0.0
  {
    CapIsPositive(rows);
  }

  /** Spike damping sees only day totals, and of a day that reaches the cap only that it does: a day
      above the cap counts as a day exactly at it, so neither the units nor the sale-day count change. */
  lemma SpikeInsensitive(a: seq<SalesPoint>, b: seq<SalesPoint>)
    requires forall k :: CapsAlike(a, Total(a, k), Total(b, k))
    ensures Damp(a) == Damp(b)
  {
    hide Total, SaleDays, SaleMedian, Keys, SumBy, CapTo, CapsAlike, AgreeOrReach, HasCap, Cap;
    forall k
      ensures AgreeOrReach(Total(a, k), Total(b, k), 2.0 * SaleMedian(a))
      ensures CapTo(HasCap(a), Cap(a), Total(a, k)) == CapTo(HasCap(a), Cap(a), Total(b, k))
      ensures Total(a, k) == 0.0 <==> Total(b, k) == 0.0
    {
      assert CapsAlike(a, Total(a, k), Total(b, k));
      CappedAlike(a, Total(a, k), Total(b, k));
    }
    CapIsPositive(a);
    SaleMedianInsensitive(a, b);
    SameCap(a, b);
    UnitsFromTotals(a, b, HasCap(a), Cap(a));
  }

  lemma SameCap(a: seq<SalesPoint>, b: seq<SalesPoint>)
    requires SaleMedian(a) == SaleMedian(b) && |SaleDays(a)| == |SaleDays(b)|
    ensures Cap(a) == Cap(b) && HasCap(a) == HasCap(b)
  {}

  /** Row order does not matter, nor how a day's units are split over rows or channels. */
  lemma OnlyDayTotalsMatter(a: seq<SalesPoint>, b: seq<SalesPoint>)
    ensures (forall k :: Total(a, k) == Total(b, k)) ==> Damp(a) == Damp(b)
    ensures multiset(a) == multiset(b) ==> Damp(a) == Damp(b)
  {
    if multiset(a) == multiset(b) {
      forall k ensures Total(a, k) == Total(b, k) { SumByPermutation(a, b, OnDay(k)); }
    }
    if forall k :: Total(a, k) == Total(b, k) {
      hide Total;
      SpikeInsensitive(a, b);
    }
  }

  // ---------------------------------------------------------------- what damping removes

  /** What a day sold beyond a cap. */
  function Excess(rows: seq<SalesPoint>, cap: real): int -> real {
    (key: int) => if Total(rows, key) > cap then Total(rows, key) - cap else 0.0
  }

  lemma {:induction false} CappedAndExcess(rows: seq<SalesPoint>, keys: seq<int>, cap: real)
    ensures SumBy(keys, CappedOn(rows, true, cap)) + SumBy(keys, Excess(rows, cap)) == SumBy(keys, TotalOn(rows))
  {
    hide Total;
    if keys == [] {
    } else {
      CappedAndExcess(rows, keys[1..], cap);
    }
  }

  /** With fewer than five sale days the damped units are all units of the window; with five or more they
      fall short of those by exactly what each sale day sold beyond twice the median sale day. */
  lemma DampingRemovesExcess(rows: seq<SalesPoint>)
    ensures |SaleDays(rows)| < 5 ==> Damp(rows).units == SumBy(rows, QuantityOf())
    ensures |SaleDays(rows)| >= 5 ==>
      Damp(rows).units == SumBy(rows, QuantityOf()) - SumBy(SaleDays(rows), Excess(rows, 2.0 * SaleMedian(rows)))
  {
    var keys, cap := Keys(rows), Cap(rows);
    SaleMedianNonNegative(rows);
    TotalsAddUp(rows);
    if HasCap(rows) {
      CappedAndExcess(rows, keys, cap);
      forall k | !IsSaleDay(rows)(k) ensures Excess(rows, cap)(k) == 0.0 {}
      SumByFilter(keys, IsSaleDay(rows), Excess(rows, cap));
    } else {
      SumByCongruence(keys, CappedOn(rows, false, cap), TotalOn(rows));
    }
  }

  predicate AtMostTimes(x: real, best: real, n: nat) { x <= best * n as real }

  /** The damped units are at most the best day times the sale days; with no net returns they
      are not negative. */
  lemma UnitsBounds(rows: seq<SalesPoint>, best: real)
    requires best >= 0.0 && forall k :: Total(rows, k) <= best
    ensures AtMostTimes(Damp(rows).units, best, Damp(rows).saleDays)
    ensures (forall k :: Total(rows, k) >= 0.0) ==> Damp(rows).units >= 0.0
  {
    assert Cap(rows) >= 0.0 by { SaleTotalsPositive(rows); }
    CappedBounds(rows, HasCap(rows), Cap(rows), best);
  }

  lemma CappedBounds(rows: seq<SalesPoint>, hasCap: bool, cap: real, best: real)
    requires cap >= 0.0 && best >= 0.0 && forall k :: Total(rows, k) <= best
    ensures AtMostTimes(SumBy(Keys(rows), CappedOn(rows, hasCap, cap)), best, |SaleDays(rows)|)
    ensures (forall k :: Total(rows, k) >= 0.0) ==> SumBy(Keys(rows), CappedOn(rows, hasCap, cap)) >= 0.0
  {
    var f := CappedOn(rows, hasCap, cap);
    forall k ensures f(k) <= if IsSaleDay(rows)(k) then best else 0.0 { assert Total(rows, k) <= best; }
    CappedSumUpper(Keys(rows), IsSaleDay(rows), f, best);
    if forall k :: Total(rows, k) >= 0.0 {
      forall k ensures f(k) >= 0.0 { assert Total(rows, k) >= 0.0; }
      NonNegativeSum(Keys(rows), f);
    }
  }

  lemma {:induction false} CappedSumUpper(keys: seq<int>, counted: int -> bool, f: int -> real, best: real)
    requires forall k :: f(k) <= if counted(k) then best else 0.0
    ensures AtMostTimes(SumBy(keys, f), best, |Filter(keys, counted)|)
  {
    if keys == [] {
    } else {
      hide AtMostTimes;
      CappedSumUpper(keys[1..], counted, f, best);
      OneMore(SumBy(keys[1..], f), f(keys[0]), best, |Filter(keys[1..], counted)|);
    }
  }

  lemma OneMore(sum: real, x: real, best: real, n: nat)
    requires AtMostTimes(sum, best, n)
    ensures x <= best ==> AtMostTimes(x + sum, best, n + 1)
    ensures x <= 0.0 ==> AtMostTimes(x + sum, best, n)
  {
    assert best * (n + 1) as real == best * n as real + best;
  }

  lemma {:induction false} NonNegativeSum(keys: seq<int>, f: int -> real)
    requires forall k :: f(k) >= 0.0
    ensures SumBy(keys, f) >= 0.0
  {
    if keys == [] {
    } else {
      NonNegativeSum(keys[1..], f);
    }
  }

  /** Every day sells nothing or `best`. */
  ghost predicate EvenSales(rows: seq<SalesPoint>, best: real) {
    forall k :: Total(rows, k) == 0.0 || Total(rows, k) == best
  }

  lemma EvenMedian(rows: seq<SalesPoint>, best: real)
    requires best > 0.0 && EvenSales(rows, best) && SaleDays(rows) != []
    ensures SaleMedian(rows) == best
  {
    SaleTotalsPositive(rows);
    hide Total, SaleDays, Median;
    forall i | 0 <= i < |SaleTotals(rows)| ensures SaleTotals(rows)[i] == best {
      var k := SaleDays(rows)[i];
      assert k in SaleDays(rows);
      assert Total(rows, k) == 0.0 || Total(rows, k) == best;
    }
    MedianOfEqual(SaleTotals(rows), best);
  }

  lemma EvenCap(rows: seq<SalesPoint>, best: real)
    requires best > 0.0 && EvenSales(rows, best)
    ensures Cap(rows) >= 0.0 && (HasCap(rows) ==> Cap(rows) >= best)
  {
    SaleMedianNonNegative(rows);
    if SaleDays(rows) != [] { EvenMedian(rows, best); }
  }

  lemma CapSparesEven(hasCap: bool, cap: real, x: real, best: real)
    requires cap >= 0.0 && (hasCap ==> cap >= best) && (x == 0.0 || x == best)
    ensures CapTo(hasCap, cap, x) == x
  {}

  function Multiple(x: real, n: nat): real { x * n as real }

  /** Sales that are even are not damped: every sale day keeps its units. */
  lemma EvenUnits(rows: seq<SalesPoint>, best: real)
    requires best > 0.0 && EvenSales(rows, best)
    ensures Damp(rows).units == Multiple(best, Damp(rows).saleDays)
  {
    EvenCap(rows, best);
    var f := CappedOn(rows, HasCap(rows), Cap(rows));
    hide Total, SaleMedian, Keys, CapTo, HasCap, Cap, Multiple;
    forall k ensures f(k) == if IsSaleDay(rows)(k) then best else 0.0 {
      assert Total(rows, k) == 0.0 || Total(rows, k) == best;
      CapSparesEven(HasCap(rows), Cap(rows), Total(rows, k), best);
    }
    SumOfEven(Keys(rows), IsSaleDay(rows), f, best);
  }

  lemma {:induction false} SumOfEven(keys: seq<int>, counted: int -> bool, f: int -> real, best: real)
    requires forall k :: f(k) == if counted(k) then best else 0.0
    ensures SumBy(keys, f) == Multiple(best, |Filter(keys, counted)|)
  {
    if keys == [] {
    } else {
      hide Multiple;
      SumOfEven(keys[1..], counted, f, best);
      OneMoreTime(best, |Filter(keys[1..], counted)|);
    }
  }

  lemma OneMoreTime(best: real, n: nat)
    ensures Multiple(best, n + 1) == best + Multiple(best, n)
  {}
}
