/** The bulk-day cleaner of packages/forecast/src/big-buyer.ts. */
module BigBuyer {
  import opened DaySeries
  import opened Numbers
  import opened OrderStatistics
  import opened Sorting
  import opened Wrappers

  const BULK_MULT := 5.0
  const BULK_ABS_FLOOR := 6.0
  const BULK_CAP_MULT := 3.0

  datatype DebulkOptions = DebulkOptions(asOf: Option<int>, excludedDates: seq<int>)

  datatype BulkCap = BulkCap(date: int, original: real, capped: real, baseline: real, threshold: real, multiple: real)

  datatype DebulkResult = DebulkResult(series: seq<SalesPoint>, caps: seq<BulkCap>)

  // ---------------------------------------------------------------- specification

  predicate EligibleKey(opts: DebulkOptions, key: int) {
    && (opts.asOf.Some? ==> key < DayKey(opts.asOf.value))
    && key !in Map(opts.excludedDates, DayKey)
  }

  function Eligible(opts: DebulkOptions): SalesPoint -> bool {
    (p: SalesPoint) => EligibleKey(opts, DayKey(p.date))
  }

  function Threshold(baseline: real): real { Max(BULK_ABS_FLOOR, BULK_MULT * baseline) }

  function Target(baseline: real): real {
    Max(BULK_ABS_FLOOR - 1.0, Round(BULK_CAP_MULT * baseline) as real)
  }

  /** A bulk day among the eligible rows `days`. */
  predicate Flagged(days: seq<SalesPoint>, baseline: real, key: int) {
    baseline > 0.0 && Total(days, key) > Threshold(baseline)
  }

  function Capped(days: seq<SalesPoint>, baseline: real, key: int): real { Min(Total(days, key), Target(baseline)) }

  function Factor(days: seq<SalesPoint>, baseline: real, key: int): real {
    if Sold(days, key) > 0.0 then (Capped(days, baseline, key) - Returned(days, key)) / Sold(days, key) else 1.0
  }

  function FactorOn(days: seq<SalesPoint>, baseline: real): int -> real { (key: int) => Factor(days, baseline, key) }

  function IsFlagged(days: seq<SalesPoint>, baseline: real): int -> bool { (key: int) => Flagged(days, baseline, key) }

  /** Scales the positive rows of the days in `flagged`. */
  function Scaling(flagged: int -> bool, factor: int -> real): SalesPoint -> SalesPoint {
    (p: SalesPoint) =>
      var key := DayKey(p.date);
      if flagged(key) && p.quantity > 0.0 then p.(quantity := p.quantity * factor(key)) else p
  }

  function Rescale(days: seq<SalesPoint>, baseline: real): SalesPoint -> SalesPoint {
    Scaling(IsFlagged(days, baseline), FactorOn(days, baseline))
  }

  function MakeCap(key: int, total: real, baseline: real, threshold: real, target: real): BulkCap {
    BulkCap(key, total, Min(total, target), baseline, threshold,
            if baseline > 0.0 then Round(total / baseline * 10.0) as real / 10.0 else 0.0)
  }

  function CapFor(days: seq<SalesPoint>, baseline: real): int -> BulkCap {
    (key: int) => MakeCap(key, Total(days, key), baseline, Threshold(baseline), Target(baseline))
  }

  function ByDate(): (BulkCap, BulkCap) -> bool { (a: BulkCap, b: BulkCap) => a.date <= b.date }

  function EligibleRows(history: seq<SalesPoint>, opts: DebulkOptions): seq<SalesPoint> {
    Filter(history, Eligible(opts))
  }

  function Debulk(history: seq<SalesPoint>, opts: DebulkOptions): DebulkResult {
    var days := EligibleRows(history, opts);
    var baseline := SaleMedian(days);
    DebulkResult(Map(history, Rescale(days, baseline)),
                 Sort(Map(Filter(Keys(days), IsFlagged(days, baseline)), CapFor(days, baseline)), ByDate()))
  }

  // ---------------------------------------------------------------- the loops

  datatype Day = Day(total: real, positive: real, negative: real)

  function DayOf(rows: seq<SalesPoint>, key: int): Day {
    Day(Total(rows, key), Sold(rows, key), Returned(rows, key))
  }

  function AddRow(day: Day, quantity: real): Day {
    if quantity > 0.0 then Day(day.total + quantity, day.positive + quantity, day.negative)
    else Day(day.total + quantity, day.positive, day.negative + quantity)
  }

  function DayTotals(keys: seq<int>, days: map<int, Day>): seq<real>
    requires forall i :: 0 <= i < |keys| ==> keys[i] in days
  {
    if keys == [] then [] else [days[keys[0]].total] + DayTotals(keys[1..], days)
  }

  ghost predicate Tallied(rows: seq<SalesPoint>, keys: seq<int>, days: map<int, Day>) {
    && keys == Keys(rows)
    && days.Keys == (set k | k in keys)
    && (forall k :: k in days ==> days[k] == DayOf(rows, k))
  }

  lemma DayOfStep(rows: seq<SalesPoint>, p: SalesPoint, key: int)
    ensures DayOf(rows + [p], key)
      == if DayKey(p.date) == key then AddRow(DayOf(rows, key), p.quantity) else DayOf(rows, key)
  {
    SumStep(rows, p, OnDay(key));
    SumStep(rows, p, SoldOnDay(key));
    SumStep(rows, p, ReturnedOnDay(key));
  }

  lemma TallyStep(rows: seq<SalesPoint>, keys: seq<int>, days: map<int, Day>, p: SalesPoint)
    requires Tallied(rows, keys, days)
    ensures var key := DayKey(p.date);
      var day := if key in days then days[key] else Day(0.0, 0.0, 0.0);
      Tallied(rows + [p], if key in days then keys else keys + [key], days[key := AddRow(day, p.quantity)])
  {
    KeysStep(rows, p);
    if DayKey(p.date) !in keys { NoRowsNoTotal(rows, DayKey(p.date)); }
    forall k
      ensures DayOf(rows + [p], k) == if DayKey(p.date) == k then AddRow(DayOf(rows, k), p.quantity) else DayOf(rows, k)
    {
      DayOfStep(rows, p, k);
    }
  }

  lemma PositiveTotals(rows: seq<SalesPoint>, keys: seq<int>, days: map<int, Day>)
    requires forall i :: 0 <= i < |keys| ==> keys[i] in days && days[keys[i]] == DayOf(rows, keys[i])
    ensures Filter(DayTotals(keys, days), Above()) == Map(Filter(keys, IsSaleDay(rows)), TotalOn(rows))
  {
    DayTotalsMap(rows, keys, days);
    FilterOfMap(keys, TotalOn(rows), IsSaleDay(rows), Above());
  }

  lemma {:induction false} DayTotalsMap(rows: seq<SalesPoint>, keys: seq<int>, days: map<int, Day>)
    requires forall i :: 0 <= i < |keys| ==> keys[i] in days && days[keys[i]] == DayOf(rows, keys[i])
    ensures DayTotals(keys, days) == Map(keys, TotalOn(rows))
  {
    hide Total, Sold, Returned;
    if keys == [] {
    } else {
      DayTotalsMap(rows, keys[1..], days);
    }
  }

  lemma EligibleStep(history: seq<SalesPoint>, i: nat, opts: DebulkOptions)
    requires i < |history|
    ensures EligibleRows(history[..i + 1], opts)
         == if EligibleKey(opts, DayKey(history[i].date)) then EligibleRows(history[..i], opts) + [history[i]]
            else EligibleRows(history[..i], opts)
  {
    assert history[..i + 1] == history[..i] + [history[i]];
    FilterConcat(history[..i], [history[i]], Eligible(opts));
    assert [history[i]][1..] == [];
  }

  method DebulkSeries(history: seq<SalesPoint>, opts: DebulkOptions) returns (r: DebulkResult)
    ensures r == Debulk(history, opts)
  {
    var keys: seq<int>, days: map<int, Day> := [], map[];
    for i := 0 to |history|
      invariant Tallied(EligibleRows(history[..i], opts), keys, days)
    {
      var p := history[i];
      EligibleStep(history, i, opts);
      var key := DayKey(p.date);
      if EligibleKey(opts, key) {
        TallyStep(EligibleRows(history[..i], opts), keys, days, p);
        var day := if key in days then days[key] else Day(0.0, 0.0, 0.0);
        keys := if key in days then keys else keys + [key];
        days := days[key := AddRow(day, p.quantity)];
      }
    }
    assert history[..|history|] == history;
    ghost var rows := EligibleRows(history, opts);
    PositiveTotals(rows, keys, days);
    var baseline := Median(Filter(DayTotals(keys, days), Above()));
    var caps: seq<BulkCap>, factors: map<int, real> := [], map[];
    if baseline > 0.0 {
      caps, factors := CapDays(rows, keys, days, baseline);
    } else {
      NothingFlagged(rows, baseline, keys);
    }
    ScaledAsSpecified(history, rows, baseline, factors);
    r := DebulkResult(ApplyFactors(history, factors), Sort(caps, ByDate()));
  }

  lemma {:induction false} NothingFlagged(rows: seq<SalesPoint>, baseline: real, keys: seq<int>)
    requires baseline <= 0.0
    ensures Filter(keys, IsFlagged(rows, baseline)) == []
  {
    if keys == [] {
    } else {
      NothingFlagged(rows, baseline, keys[1..]);
    }
  }

  function ScaledPoint(p: SalesPoint, factors: map<int, real>): SalesPoint {
    var key := DayKey(p.date);
    p.(quantity := if key in factors && p.quantity > 0.0 then p.quantity * factors[key] else p.quantity)
  }

  function ApplyFactors(history: seq<SalesPoint>, factors: map<int, real>): seq<SalesPoint> {
    if history == [] then [] else [ScaledPoint(history[0], factors)] + ApplyFactors(history[1..], factors)
  }

  /** `factors` holds exactly the flagged days. */
  ghost predicate FactorsOf(factors: map<int, real>, flagged: int -> bool, factor: int -> real, keys: seq<int>) {
    && (forall k :: k in factors <==> k in keys && flagged(k))
    && (forall k :: k in factors ==> factors[k] == factor(k))
  }

  lemma ScaledAsSpecified(history: seq<SalesPoint>, rows: seq<SalesPoint>, baseline: real, factors: map<int, real>)
    requires FactorsOf(factors, IsFlagged(rows, baseline), FactorOn(rows, baseline), Keys(rows))
    ensures ApplyFactors(history, factors) == Map(history, Rescale(rows, baseline))
  {
    forall k | k !in Keys(rows) ensures !IsFlagged(rows, baseline)(k) { NoRowsNoTotal(rows, k); }
    FactorsScale(history, factors, IsFlagged(rows, baseline), FactorOn(rows, baseline));
  }

  lemma {:induction false} FactorsScale(history: seq<SalesPoint>, factors: map<int, real>, flagged: int -> bool,
                                        factor: int -> real)
    requires forall k :: k in factors <==> flagged(k)
    requires forall k :: k in factors ==> factors[k] == factor(k)
    ensures ApplyFactors(history, factors) == Map(history, Scaling(flagged, factor))
  {
    if history == [] {
    } else {
      FactorsScale(history[1..], factors, flagged, factor);
      var p := history[0];
      assert DayKey(p.date) in factors <==> flagged(DayKey(p.date));
      assert ScaledPoint(p, factors) == Scaling(flagged, factor)(p);
    }
  }

  lemma CapStep(keys: seq<int>, i: nat, flagged: int -> bool, cap: int -> BulkCap)
    requires i < |keys|
    ensures Map(Filter(keys[..i + 1], flagged), cap)
         == Map(Filter(keys[..i], flagged), cap) + if flagged(keys[i]) then [cap(keys[i])] else []
  {
    var key := keys[i];
    assert keys[..i + 1] == keys[..i] + [key];
    FilterConcat(keys[..i], [key], flagged);
    assert [key][1..] == [];
    MapConcat(Filter(keys[..i], flagged), Filter([key], flagged), cap);
  }

  /** What a tallied day says about its cap and its factor. */
  lemma TalliedDay(rows: seq<SalesPoint>, keys: seq<int>, days: map<int, Day>, baseline: real, key: int)
    requires Tallied(rows, keys, days) && key in keys
    ensures key in days
    ensures var day, target := days[key], Target(baseline);
      && (baseline > 0.0 ==> (IsFlagged(rows, baseline)(key) <==> day.total > Threshold(baseline)))
      && CapFor(rows, baseline)(key) == MakeCap(key, day.total, baseline, Threshold(baseline), target)
      && (IsFlagged(rows, baseline)(key) ==>
            && day.positive > 0.0
            && FactorOn(rows, baseline)(key) == (Min(day.total, target) - day.negative) / day.positive)
  {
    hide Total, Sold, Returned, MakeCap;
    TotalSplits(rows, key);
  }

  lemma NoFactors(flagged: int -> bool, factor: int -> real)
    ensures FactorsOf(map[], flagged, factor, [])
  {}

  lemma FactorStep(factors: map<int, real>, flagged: int -> bool, factor: int -> real, keys: seq<int>, key: int)
    requires FactorsOf(factors, flagged, factor, keys)
    ensures FactorsOf(if flagged(key) then factors[key := factor(key)] else factors, flagged, factor, keys + [key])
  {
  }

  /** The second loop: a cap and a factor for every bulk day. */
  method CapDays(ghost rows: seq<SalesPoint>, keys: seq<int>, days: map<int, Day>, baseline: real)
    returns (caps: seq<BulkCap>, factors: map<int, real>)
    requires Tallied(rows, keys, days) && baseline > 0.0
    ensures caps == Map(Filter(keys, IsFlagged(rows, baseline)), CapFor(rows, baseline))
    ensures FactorsOf(factors, IsFlagged(rows, baseline), FactorOn(rows, baseline), keys)
  {
    hide Tallied, IsFlagged, FactorOn, CapFor, MakeCap, Threshold, Target, FactorsOf;
    caps, factors := [], map[];
    NoFactors(IsFlagged(rows, baseline), FactorOn(rows, baseline));
    var threshold, target := Threshold(baseline), Target(baseline);
    for i := 0 to |keys|
      invariant caps == Map(Filter(keys[..i], IsFlagged(rows, baseline)), CapFor(rows, baseline))
      invariant FactorsOf(factors, IsFlagged(rows, baseline), FactorOn(rows, baseline), keys[..i])
    {
      var key := keys[i];
      TalliedDay(rows, keys, days, baseline, key);
      var day := days[key];
      CapStep(keys, i, IsFlagged(rows, baseline), CapFor(rows, baseline));
      FactorStep(factors, IsFlagged(rows, baseline), FactorOn(rows, baseline), keys[..i], key);
      assert keys[..i + 1] == keys[..i] + [key];
      if day.total > threshold {
        caps := caps + [MakeCap(key, day.total, baseline, threshold, target)];
        factors := factors[key := (Min(day.total, target) - day.negative) / day.positive];
      }
    }
    assert keys[..|keys|] == keys;
  }

  // ---------------------------------------------------------------- what capping keeps

  /** The cap lies above twice the median sale day and below the threshold. */
  lemma TargetBetween(baseline: real)
    requires baseline > 0.0
    ensures 2.0 * baseline < Target(baseline) < Threshold(baseline)
  {}

  lemma FlaggedDay(days: seq<SalesPoint>, baseline: real, key: int)
    requires Flagged(days, baseline, key)
    ensures Capped(days, baseline, key) == Target(baseline)
    ensures Sold(days, key) > 0.0 && 0.0 < Factor(days, baseline, key) < 1.0
    ensures Factor(days, baseline, key) * Sold(days, key) + Returned(days, key) == Target(baseline)
  {
    TargetBetween(baseline);
    TotalSplits(days, key);
    FractionOf(Target(baseline) - Returned(days, key), Sold(days, key));
  }

  lemma PositiveFactor(a: real, b: real)
    requires b > 0.0 && a * b > 0.0
    ensures a > 0.0
  {}

  lemma FractionOf(x: real, y: real)
    requires 0.0 < x < y
    ensures 0.0 < x / y < 1.0 && x / y * y == x
  {
    var q := x / y;
    assert q * y == x;
    PositiveFactor(q, y);
    assert (1.0 - q) * y == 1.0 * y - q * y;
    PositiveFactor(1.0 - q, y);
  }

  lemma {:induction false} ScaledTotal(rows: seq<SalesPoint>, flagged: int -> bool, factor: int -> real, key: int)
    ensures Total(Map(rows, Scaling(flagged, factor)), key)
         == if flagged(key) then factor(key) * Sold(rows, key) + Returned(rows, key) else Total(rows, key)
  {
    if rows == [] {
    } else {
      var scale := Scaling(flagged, factor);
      ScaledTotal(rows[1..], flagged, factor, key);
      assert Map(rows, scale)[1..] == Map(rows[1..], scale);
      var p := rows[0];
      if flagged(key) {
        assert OnDay(key)(scale(p)) == factor(key) * SoldOnDay(key)(p) + ReturnedOnDay(key)(p);
        assert factor(key) * Sold(rows, key) == factor(key) * SoldOnDay(key)(p) + factor(key) * Sold(rows[1..], key);
      }
    }
  }

  /** On a bulk day the cleaned rows add up to exactly the cap, every other day keeps its
      total. */
  lemma CappedTotals(days: seq<SalesPoint>, baseline: real, key: int)
    ensures Total(Map(days, Rescale(days, baseline)), key)
         == if Flagged(days, baseline, key) then Target(baseline) else Total(days, key)
  {
    hide Total, Sold, Returned, Target, Flagged, Factor, Capped;
    ScaledTotal(days, IsFlagged(days, baseline), FactorOn(days, baseline), key);
    if Flagged(days, baseline, key) { FlaggedDay(days, baseline, key); }
  }

  /** Capping leaves the median sale day where it was. */
  lemma MedianIsFixed(days: seq<SalesPoint>)
    ensures SaleMedian(Map(days, Rescale(days, SaleMedian(days)))) == SaleMedian(days)
  {
    var m := SaleMedian(days);
    var after := Map(days, Rescale(days, m));
    forall k ensures AgreeOrReach(Total(days, k), Total(after, k), 2.0 * m) {
      CappedTotals(days, m, k);
      if Flagged(days, m, k) { TargetBetween(m); }
    }
    SaleMedianInsensitive(days, after);
  }

  lemma NothingFlaggedTwice(days: seq<SalesPoint>, baseline: real, key: int)
    ensures !Flagged(Map(days, Rescale(days, baseline)), baseline, key)
  {
    CappedTotals(days, baseline, key);
    if Flagged(days, baseline, key) { TargetBetween(baseline); }
  }

  /** Cleaning a cleaned series finds no cap and changes nothing. */
  lemma DebulkIdempotent(history: seq<SalesPoint>, opts: DebulkOptions)
    ensures var once := Debulk(history, opts).series;
      Debulk(once, opts) == DebulkResult(once, [])
  {
    var days := EligibleRows(history, opts);
    var m := SaleMedian(days);
    var once := Debulk(history, opts).series;
    var again := EligibleRows(once, opts);
    FilterOfMap(history, Rescale(days, m), Eligible(opts), Eligible(opts));
    assert again == Map(days, Rescale(days, m));
    MedianIsFixed(days);
    forall k ensures !IsFlagged(again, m)(k) { NothingFlaggedTwice(days, m, k); }
    FilterNone(Keys(again), IsFlagged(again, m));
    UnflaggedUntouched(once, IsFlagged(again, m), FactorOn(again, m));
  }

  lemma UnflaggedUntouched(rows: seq<SalesPoint>, flagged: int -> bool, factor: int -> real)
    requires forall k :: !flagged(k)
    ensures Map(rows, Scaling(flagged, factor)) == rows
  {}

  /** What one cleaning does to the rows: order, date, revenue and channel stay; a positive
      row of an eligible bulk day shrinks but stays positive; every other row is untouched. */
  lemma RowsKept(history: seq<SalesPoint>, opts: DebulkOptions, i: nat)
    requires i < |history|
    ensures var days := EligibleRows(history, opts);
      var series, p := Debulk(history, opts).series, history[i];
      && |series| == |history|
      && series[i] == p.(quantity := series[i].quantity)
      && (if EligibleKey(opts, DayKey(p.date)) && Flagged(days, SaleMedian(days), DayKey(p.date)) && p.quantity > 0.0
          then Shrunk(series[i].quantity, p.quantity) else series[i] == p)
  {
    var days, p := EligibleRows(history, opts), history[i];
    var m, key := SaleMedian(days), DayKey(p.date);
    EligibleDayComplete(history, opts, m, key);
    ScaledRow(days, m, p);
  }

  /** Over the whole history a bulk day ends on exactly the cap and every other day on its own
      total, whether or not it is eligible. */
  lemma CappingConserves(history: seq<SalesPoint>, opts: DebulkOptions, key: int)
    ensures var days := EligibleRows(history, opts);
      var after := Total(Debulk(history, opts).series, key);
      if EligibleKey(opts, key) && Flagged(days, SaleMedian(days), key)
      then after == Target(SaleMedian(days)) < Total(history, key)
      else after == Total(history, key)
  {
    var days := EligibleRows(history, opts);
    EligibleDayComplete(history, opts, SaleMedian(days), key);
    HistoryTotal(history, days, SaleMedian(days), key);
  }

  lemma HistoryTotal(history: seq<SalesPoint>, days: seq<SalesPoint>, baseline: real, key: int)
    requires Flagged(days, baseline, key) ==>
      Total(days, key) == Total(history, key) && Sold(days, key) == Sold(history, key)
        && Returned(days, key) == Returned(history, key)
    ensures Total(Map(history, Rescale(days, baseline)), key)
         == if Flagged(days, baseline, key) then Target(baseline) else Total(history, key)
    ensures Flagged(days, baseline, key) ==> Target(baseline) < Total(history, key)
  {
    hide Sold, Returned, Target, Factor;
    ScaledTotal(history, IsFlagged(days, baseline), FactorOn(days, baseline), key);
    if Flagged(days, baseline, key) {
      FlaggedDay(days, baseline, key);
      TargetBetween(baseline);
    }
  }

  /** Smaller than before but still positive. */
  ghost predicate Shrunk(after: real, before: real) { 0.0 < after < before }

  lemma ScaledRow(days: seq<SalesPoint>, baseline: real, p: SalesPoint)
    ensures var q := Rescale(days, baseline)(p);
      && q == p.(quantity := q.quantity)
      && (if Flagged(days, baseline, DayKey(p.date)) && p.quantity > 0.0
          then Shrunk(q.quantity, p.quantity) else q == p)
  {
    var key := DayKey(p.date);
    if Flagged(days, baseline, key) { FlaggedDay(days, baseline, key); }
    ScalingShrinks(IsFlagged(days, baseline), FactorOn(days, baseline), p);
  }

  lemma ScalingShrinks(flagged: int -> bool, factor: int -> real, p: SalesPoint)
    requires flagged(DayKey(p.date)) ==> 0.0 < factor(DayKey(p.date)) < 1.0
    ensures var q := Scaling(flagged, factor)(p);
      && q == p.(quantity := q.quantity)
      && (if flagged(DayKey(p.date)) && p.quantity > 0.0 then Shrunk(q.quantity, p.quantity) else q == p)
  {
    var key := DayKey(p.date);
    if flagged(key) && p.quantity > 0.0 {
      var f := factor(key);
      assert Scaling(flagged, factor)(p) == p.(quantity := p.quantity * f);
      Shrinks(p.quantity, f);
    } else {
      assert Scaling(flagged, factor)(p) == p;
    }
  }

  lemma Shrinks(q: real, f: real)
    requires q > 0.0 && 0.0 < f < 1.0
    ensures Shrunk(q * f, q)
  {
    TimesMonotone(0.0, f, q);
    TimesMonotone(f, 1.0, q);
  }

  /** A day is eligible as a whole or not at all. */
  lemma EligibleDayComplete(history: seq<SalesPoint>, opts: DebulkOptions, baseline: real, key: int)
    ensures var days := EligibleRows(history, opts);
      if EligibleKey(opts, key)
      then Total(days, key) == Total(history, key) && Sold(days, key) == Sold(history, key)
        && Returned(days, key) == Returned(history, key)
      else !Flagged(days, baseline, key)
  {
    if EligibleKey(opts, key) {
      SumByFilter(history, Eligible(opts), OnDay(key));
      SumByFilter(history, Eligible(opts), SoldOnDay(key));
      SumByFilter(history, Eligible(opts), ReturnedOnDay(key));
    } else {
      var days := EligibleRows(history, opts);
      FilterProperties(history, Eligible(opts));
      forall i | 0 <= i < |days| ensures OnDay(key)(days[i]) == 0.0 { assert days[i] in days; }
      ZeroSum(days, OnDay(key));
    }
  }

  predicate HasBulkBuy(history: seq<SalesPoint>, opts: DebulkOptions) { Debulk(history, opts).caps != [] }

  /** There is a bulk buy exactly when some eligible day is flagged, and never after cleaning. */
  lemma BulkBuyIsFlaggedDay(history: seq<SalesPoint>, opts: DebulkOptions)
    ensures var days := EligibleRows(history, opts);
      HasBulkBuy(history, opts) <==> exists key :: Flagged(days, SaleMedian(days), key)
    ensures !HasBulkBuy(Debulk(history, opts).series, opts)
  {
    DebulkIdempotent(history, opts);
    var days := EligibleRows(history, opts);
    var flagged := Filter(Keys(days), IsFlagged(days, SaleMedian(days)));
    FilterProperties(Keys(days), IsFlagged(days, SaleMedian(days)));
    if key :| Flagged(days, SaleMedian(days), key) {
      if key !in Keys(days) { NoRowsNoTotal(days, key); }
      assert key in flagged;
    }
    if flagged != [] { assert flagged[0] in flagged; }
  }
}
