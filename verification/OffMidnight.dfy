/** Why the bound on the adjusted rate of packages/forecast/src/baseline.ts needs sales dated at
    midnight: a window that starts and ends during a day can hold one sale day more than days. */
module OffMidnight {
  import opened AdjustedRate
  import opened DampedWindow
  import opened DayRange
  import opened DaySeries
  import opened Numbers
  import opened Sorting

  /** One unit sold at one o'clock on day `i`. */
  function Afternoon(i: int): SalesPoint { SalesPoint(i * DAY_MS + 13 * HOUR_MS, 1.0, 0.0, "shop") }

  /** One unit sold at eleven on day `n`. */
  function LastMorning(n: int): SalesPoint { SalesPoint(n * DAY_MS + 11 * HOUR_MS, 1.0, 0.0, "shop") }

  function Afternoons(low: int, high: int): seq<SalesPoint>
    decreases high - low
  {
    if high <= low then [] else Afternoons(low, high - 1) + [Afternoon(high - 1)]
  }

  /** A sale every day from day 0 to day `n`, looked at on day `n` at noon. */
  function Daily(n: nat): seq<SalesPoint> { Afternoons(0, n) + [LastMorning(n)] }

  function Noon(n: nat): int { n * DAY_MS + 12 * HOUR_MS }

  /** The rows of the last `d` days before that noon. */
  function Recent(n: nat, d: nat): seq<SalesPoint> { Afternoons(n - d, n) + [LastMorning(n)] }

  lemma {:induction false} AfternoonsInWindow(n: nat, d: nat, m: nat)
    requires d <= n && m <= n
    ensures WindowRows(Afternoons(0, m), Noon(n) - d * DAY_MS, Noon(n), {}) == Afternoons(n - d, m)
  {
    if m == 0 {
    } else {
      var inWindow := InWindow(Noon(n) - d * DAY_MS, Noon(n), {});
      AfternoonsInWindow(n, d, m - 1);
      FilterConcat(Afternoons(0, m - 1), [Afternoon(m - 1)], inWindow);
      assert [Afternoon(m - 1)][1..] == [];
      assert inWindow(Afternoon(m - 1)) <==> m - 1 >= n - d;
      assert Afternoons(n - d, m - 1) + [] == Afternoons(n - d, m - 1);
    }
  }

  lemma WindowOfDaily(n: nat, d: nat)
    requires 1 <= d <= n
    ensures WindowRows(Daily(n), Noon(n) - d * DAY_MS, Noon(n), {}) == Recent(n, d)
  {
    var inWindow := InWindow(Noon(n) - d * DAY_MS, Noon(n), {});
    AfternoonsInWindow(n, d, n);
    FilterConcat(Afternoons(0, n), [LastMorning(n)], inWindow);
    assert [LastMorning(n)][1..] == [];
    assert inWindow(LastMorning(n));
  }

  lemma KeyOfHour(i: int, hour: int)
    requires 0 <= hour < 24
    ensures DayKey(i * DAY_MS + hour * HOUR_MS) == i * DAY_MS
  {}

  /** `key` is the midnight of one of the days from `low` to before `high`. */
  predicate DayAmong(key: int, low: int, high: int) { Aligned(key) && low * DAY_MS <= key < high * DAY_MS }

  lemma {:induction false} AfternoonTotals(low: int, high: int, key: int)
    requires low <= high
    ensures Total(Afternoons(low, high), key) == if DayAmong(key, low, high) then 1.0 else 0.0
    decreases high - low
  {
    if high == low {
    } else {
      AfternoonTotals(low, high - 1, key);
      SumStep(Afternoons(low, high - 1), Afternoon(high - 1), OnDay(key));
      KeyOfHour(high - 1, 13);
      OneMoreDay(key, low, high);
    }
  }

  lemma OneMoreDay(key: int, low: int, high: int)
    requires low < high
    ensures DayAmong(key, low, high) <==> DayAmong(key, low, high - 1) || key == (high - 1) * DAY_MS
    ensures !DayAmong((high - 1) * DAY_MS, low, high - 1)
  {}

  lemma RecentTotals(n: nat, d: nat, key: int)
    ensures Total(Recent(n, d), key) == if DayAmong(key, n - d, n + 1) then 1.0 else 0.0
  {
    AfternoonTotals(n - d, n, key);
    SumStep(Afternoons(n - d, n), LastMorning(n), OnDay(key));
    KeyOfHour(n, 11);
    OneMoreDay(key, n - d, n + 1);
  }

  function RecentDays(n: nat, d: nat): seq<int> { Days((n - d) * DAY_MS, (n - d) * DAY_MS + (d + 1) * DAY_MS) }

  lemma RecentSaleDay(n: nat, d: nat, i: nat)
    requires i <= d
    ensures |RecentDays(n, d)| == d + 1
    ensures RecentDays(n, d)[i] == (n - d) * DAY_MS + i * DAY_MS && RecentDays(n, d)[i] in SaleDays(Recent(n, d))
  {
    hide Recent, Total, Days, SaleDays;
    var from := (n - d) * DAY_MS;
    DaysLength(from, d + 1);
    DaysMember(from, from + (d + 1) * DAY_MS, i);
    RecentTotals(n, d, RecentDays(n, d)[i]);
    SaleTotalsPositive(Recent(n, d));
  }

  lemma RecentSaleDays(n: nat, d: nat)
    ensures |SaleDays(Recent(n, d))| >= d + 1
  {
    hide Recent, RecentDays, SaleDays;
    RecentSaleDay(n, d, 0);
    forall i: nat | i <= d
      ensures RecentDays(n, d)[i] == (n - d) * DAY_MS + i * DAY_MS && RecentDays(n, d)[i] in SaleDays(Recent(n, d))
    {
      RecentSaleDay(n, d, i);
    }
    DistinctSubset(RecentDays(n, d), SaleDays(Recent(n, d)));
  }

  lemma {:induction false} GapSumNonNegative(dates: seq<int>)
    ensures GapSum(dates, {}) >= 0
  {
    var n := |dates|;
    if n < 2 {
    } else {
      GapSumNonNegative(dates[..n - 1]);
      NoneExcluded({}, dates[n - 2], dates[n - 1]);
    }
  }

  lemma AtMostItsDays(history: seq<SalesPoint>, asOf: int, d: nat)
    requires d >= 1
    ensures 1 <= EffectiveDays(history, asOf, d, {}) <= d
  {
    var since := asOf - d * DAY_MS;
    GapSumNonNegative(Map(SortedRows(history, since, asOf), DateOf()));
    assert RoundDays(asOf - since) == d;
  }

  lemma EvenWindowRate(history: seq<SalesPoint>, asOf: int, days: nat, excluded: set<int>, best: real)
    requires best > 0.0 && EvenSales(WindowRows(history, asOf - days * DAY_MS, asOf, excluded), best)
    ensures var saleDays := |SaleDays(WindowRows(history, asOf - days * DAY_MS, asOf, excluded))|;
      WindowRate(history, asOf, days, excluded) <= best <==> saleDays <= EffectiveDays(history, asOf, days, excluded)
  {
    var rows := WindowRows(history, asOf - days * DAY_MS, asOf, excluded);
    hide SaleDays, WindowRows, Multiple, EvenSales;
    EvenUnits(rows, best);
    EvenQuotient(Damp(rows).units, best, |SaleDays(rows)|, EffectiveDays(history, asOf, days, excluded));
  }

  /** How many of the calendar days that a window touches sold nothing, a part of a day at its start
      included. */
  function IdleDays(history: seq<SalesPoint>, asOf: int, days: nat, excluded: set<int>): nat {
    var since := asOf - days * DAY_MS;
    CountIf(Days(DayKey(since), asOf), Not(IsSaleDay(WindowRows(history, since, asOf, excluded))))
  }

  /** The days subtracted from the window, and one more when it starts during a day. */
  function TakenDays(history: seq<SalesPoint>, asOf: int, days: nat, excluded: set<int>): int {
    var since := asOf - days * DAY_MS;
    GapDays(history, since, asOf, excluded) + |set k | k in excluded && since <= k < asOf|
    + if Aligned(since) then 0 else 1
  }

  lemma TouchedDays(since: int, days: nat)
    ensures |Days(DayKey(since), since + days * DAY_MS)| == days + if Aligned(since) then 0 else 1
  {
    var from, n := DayKey(since), days + if Aligned(since) then 0 else 1;
    assert Aligned(from) && from <= since < from + DAY_MS;
    assert n * DAY_MS == days * DAY_MS + if Aligned(since) then 0 else DAY_MS;
    EndsBeforeNext(from, since + days * DAY_MS, n);
  }

  lemma SaleDayHasRow(rows: seq<SalesPoint>, k: int)
    requires k in SaleDays(rows)
    ensures exists p :: p in rows && DayKey(p.date) == k
  {
    FilterProperties(Keys(rows), IsSaleDay(rows));
    KeysProperties(rows);
    var i :| 0 <= i < |rows| && DayKey(rows[i].date) == k;
    assert rows[i] in rows;
  }

  lemma SaleDayTouched(history: seq<SalesPoint>, since: int, asOf: int, excluded: set<int>, k: int)
    requires k in SaleDays(WindowRows(history, since, asOf, excluded))
    ensures k in Days(DayKey(since), asOf)
  {
    hide SaleDays;
    SaleDayHasRow(WindowRows(history, since, asOf, excluded), k);
    FilterProperties(history, InWindow(since, asOf, excluded));
    DayListed(DayKey(since), asOf, k);
  }

  /** Distinct days of a stretch that are exactly its days with some property are as many as those. */
  lemma ExactlyThose(xs: seq<int>, from: int, end: int, p: int -> bool)
    requires Aligned(from) && Distinct(xs)
    requires forall k :: k in xs ==> k in Days(from, end) && p(k)
    requires forall k :: k in Days(from, end) && p(k) ==> k in xs
    ensures |xs| == CountIf(Days(from, end), p)
  {
    var all := Days(from, end);
    DaysDistinct(from, end);
    hide Days;
    FilterProperties(all, p);
    FilterLength(all, p);
    DistinctWithin(xs, all, p);
    DistinctSubset(Filter(all, p), xs);
  }

  lemma SaleDaysTouched(history: seq<SalesPoint>, asOf: int, days: nat, excluded: set<int>)
    ensures var since := asOf - days * DAY_MS;
      |SaleDays(WindowRows(history, since, asOf, excluded))| + IdleDays(history, asOf, days, excluded)
      == |Days(DayKey(since), asOf)|
  {
    hide SaleDays, WindowRows, Total, Days;
    var since := asOf - days * DAY_MS;
    var rows := WindowRows(history, since, asOf, excluded);
    var all := Days(DayKey(since), asOf);
    SaleTotalsPositive(rows);
    forall k | k in SaleDays(rows) ensures k in all && IsSaleDay(rows)(k) {
      SaleDayTouched(history, since, asOf, excluded, k);
    }
    forall k | k in all && IsSaleDay(rows)(k) ensures k in SaleDays(rows) { assert Total(rows, k) > 0.0; }
    ExactlyThose(SaleDays(rows), DayKey(since), asOf, IsSaleDay(rows));
    CountComplement(all, IsSaleDay(rows), Not(IsSaleDay(rows)));
  }

  ghost predicate AtMost(rows: seq<SalesPoint>, best: real) { forall k :: Total(rows, k) <= best }

  /** At any time of day: the rate stays at or below the best day when the idle days cover what is taken,
      or a single day sold; with sale days that all sell as much as the best it does so only then. */
  lemma WindowRateExact(history: seq<SalesPoint>, asOf: int, days: nat, excluded: set<int>, best: real)
    requires best > 0.0 && AtMost(WindowRows(history, asOf - days * DAY_MS, asOf, excluded), best)
    ensures var rows := WindowRows(history, asOf - days * DAY_MS, asOf, excluded);
      var covered := TakenDays(history, asOf, days, excluded) <= IdleDays(history, asOf, days, excluded);
      && (covered || |SaleDays(rows)| <= 1 ==> WindowRate(history, asOf, days, excluded) <= best)
      && (EvenSales(rows, best) ==>
            (WindowRate(history, asOf, days, excluded) <= best <==> covered || |SaleDays(rows)| <= 1))
  {
    var rows := WindowRows(history, asOf - days * DAY_MS, asOf, excluded);
    hide SaleDays, WindowRows, EvenSales, GapDays, IdleDays, Days;
    SaleDaysTouched(history, asOf, days, excluded);
    TouchedDays(asOf - days * DAY_MS, days);
    if EvenSales(rows, best) { EvenWindowRate(history, asOf, days, excluded, best); }
    if |SaleDays(rows)| <= EffectiveDays(history, asOf, days, excluded) {
      UnitsBounds(rows, best);
      hide AtMostTimes;
      QuotientBetween(Damp(rows).units, best, |SaleDays(rows)|, EffectiveDays(history, asOf, days, excluded));
    }
  }

  /** With a sale of one unit every day, each window of whole days before noon has a rate above one. */
  lemma WindowExceeds(n: nat, d: nat)
    requires 1 <= d <= n
    ensures WindowRate(Daily(n), Noon(n), d, {}) > 1.0
  {
    var rows := Recent(n, d);
    WindowOfDaily(n, d);
    forall k ensures Total(rows, k) == 0.0 || Total(rows, k) == 1.0 { RecentTotals(n, d, k); }
    hide EffectiveDays, SaleDays, Recent, Daily, WindowRate;
    EvenWindowRate(Daily(n), Noon(n), d, {}, 1.0);
    RecentSaleDays(n, d);
    AtMostItsDays(Daily(n), Noon(n), d);
  }

  /** So the rate of a year of such sales is above the best day. */
  lemma OffMidnightRateExceedsBestDay()
    ensures BestDay(Daily(365), Noon(365) - 365 * DAY_MS, Noon(365), {}, 1.0)
    ensures WeightedRate(Daily(365), Noon(365), {}) > 1.0
  {
    forall k ensures Total(Daily(365), k) <= 1.0 { RecentTotals(365, 365, k); }
    WindowExceeds(365, 30);
    WindowExceeds(365, 90);
    WindowExceeds(365, 365);
    hide WindowRate, Daily, Total;
    BlendAbove(RATE_WINDOWS, WindowRateOn(Daily(365), Noon(365), {}), 30, 90, 365, 1.0);
  }

  lemma BlendAbove(windows: seq<RateWindow>, rate: nat -> real, x: nat, y: nat, z: nat, low: real)
    requires windows == [RateWindow(x, 0.5), RateWindow(y, 0.3), RateWindow(z, 0.2)]
    requires rate(x) > low && rate(y) > low && rate(z) > low
    ensures WeightedSum(windows, rate) > low
  {
    BlendOf(windows, rate, x, y, z);
  }
}
