/** The snapshot-truth rate, `weightedDailyRateCensored` of packages/forecast/src/baseline.ts, and the
    condition under which it stays at or below the best day. */
module CensoredRate {
  import opened AdjustedRate
  import opened BlockedDays
  import opened DampedWindow
  import opened DaySeries
  import opened Numbers
  import opened Sorting
  import opened WeeklyMedian
  import opened Wrappers

  /** Inferred gap days before the first snapshot. */
  function UncoveredGap(history: seq<SalesPoint>, since: int, asOf: int, snapshotsSince: Option<int>,
                        excluded: set<int>): int {
    if snapshotsSince.None? || snapshotsSince.value <= since then 0
    else GapDays(history, since, MinInt(snapshotsSince.value, asOf), excluded)
  }

  function BlockedCount(stockoutDates: seq<int>, excludedDates: seq<int>, since: int, asOf: int): nat {
    if excludedDates == [] then CountIf(stockoutDates, Within(since, asOf))
    else |DaysWithin(stockoutDates, since, asOf) + DaysWithin(excludedDates, since, asOf)|
  }

  /** What the days of one call are known from. */
  datatype Facts = Facts(stockoutDates: seq<int>, excludedDates: seq<int>, snapshotsSince: Option<int>)

  function Blocked(history: seq<SalesPoint>, since: int, asOf: int, f: Facts): int {
    BlockedCount(f.stockoutDates, f.excludedDates, since, asOf)
    + UncoveredGap(history, since, asOf, f.snapshotsSince, KeysOf(f.excludedDates))
  }

  function RowsIn(history: seq<SalesPoint>, asOf: int, days: nat, f: Facts): seq<SalesPoint> {
    WindowRows(history, asOf - days * DAY_MS, asOf, KeysOf(f.excludedDates))
  }

  function CensoredDays(history: seq<SalesPoint>, asOf: int, days: nat, f: Facts): int {
    var blocked := Blocked(history, asOf - days * DAY_MS, asOf, f);
    EffectiveWindowDays(days, blocked, Some(Signal(days - blocked, |SaleDays(RowsIn(history, asOf, days, f))|)))
  }

  function CensoredWindowRate(history: seq<SalesPoint>, asOf: int, days: nat, f: Facts): real
    requires days >= 1
  {
    Damp(RowsIn(history, asOf, days, f)).units / CensoredDays(history, asOf, days, f) as real
  }

  function CensoredRateOn(history: seq<SalesPoint>, asOf: int, f: Facts): nat -> real {
    (days: nat) => if days >= 1 then CensoredWindowRate(history, asOf, days, f) else 0.0
  }

  function Censored(history: seq<SalesPoint>, asOf: int, f: Facts): real {
    if history == [] then 0.0
    else if f.stockoutDates == [] && f.snapshotsSince.None? then WeightedRate(history, asOf, KeysOf(f.excludedDates))
    else WeightedSum(RATE_WINDOWS, CensoredRateOn(history, asOf, f))
  }

  method CensoredWindow(history: seq<SalesPoint>, asOf: int, days: nat, f: Facts) returns (rate: real)
    requires days >= 1
    ensures rate == CensoredWindowRate(history, asOf, days, f)
  {
    hide WindowRows, GapDays, DaysWithin, KeysOf, EffectiveWindowDays, SaleDays;
    var since := asOf - days * DAY_MS;
    var excluded := KeysOf(f.excludedDates);
    var damped := ComputeDampedWindow(history, since, asOf, excluded);
    var proven := BlockedDaysInWindow(f.stockoutDates, f.excludedDates, since, asOf);
    var inferred := 0;
    if f.snapshotsSince.Some? && f.snapshotsSince.value > since {
      inferred := ComputeGapDays(history, since, MinInt(f.snapshotsSince.value, asOf), excluded);
    }
    var blocked := proven + inferred;
    rate := damped.units / EffectiveWindowDays(days, blocked, Some(Signal(days - blocked, damped.saleDays))) as real;
  }

  method WeightedDailyRateCensored(history: seq<SalesPoint>, asOf: int, f: Facts) returns (weighted: real)
    ensures weighted == Censored(history, asOf, f)
  {
    weighted := 0.0;
    if history == [] {
      return;
    }
    if f.stockoutDates == [] && f.snapshotsSince.None? {
      weighted := WeightedDailyRateAdjusted(history, asOf, f.excludedDates);
      return;
    }
    hide WeightedSum, AddWeighted, CensoredWindowRate;
    var windows := RATE_WINDOWS;
    BlendOfNone(windows, CensoredRateOn(history, asOf, f));
    for i := 0 to |windows|
      invariant weighted == WeightedSum(windows[..i], CensoredRateOn(history, asOf, f))
    {
      var w := windows[i];
      var rate := CensoredWindow(history, asOf, w.days, f);
      WeightedStep(windows, i, CensoredRateOn(history, asOf, f));
      weighted := AddWeighted(weighted, rate, w.weight);
    }
    assert windows[..|windows|] == windows;
  }

  // ---------------------------------------------------------------- the best day

  /** A window whose sale days are at most its effective days has a rate of at most its best day. */
  lemma CensoredWindowBetween(history: seq<SalesPoint>, asOf: int, days: nat, f: Facts, best: real)
    requires days >= 1 && best >= 0.0
    requires forall k :: Total(RowsIn(history, asOf, days, f), k) <= best
    requires |SaleDays(RowsIn(history, asOf, days, f))| <= CensoredDays(history, asOf, days, f)
    ensures CensoredWindowRate(history, asOf, days, f) <= best
  {
    var rows := RowsIn(history, asOf, days, f);
    UnitsBounds(rows, best);
    hide AtMostTimes, EffectiveWindowDays, Blocked, SaleDays, RowsIn;
    QuotientBetween(Damp(rows).units, best, |SaleDays(rows)|, CensoredDays(history, asOf, days, f));
  }

  /** When every sale day sells `best` the rate stays at or below it only then. */
  lemma EvenWindowRate(history: seq<SalesPoint>, asOf: int, days: nat, f: Facts, best: real)
    requires days >= 1 && best > 0.0 && EvenSales(RowsIn(history, asOf, days, f), best)
    ensures Damp(RowsIn(history, asOf, days, f)).units == Multiple(best, |SaleDays(RowsIn(history, asOf, days, f))|)
    ensures CensoredWindowRate(history, asOf, days, f) <= best
       <==> |SaleDays(RowsIn(history, asOf, days, f))| <= CensoredDays(history, asOf, days, f)
  {
    var rows := RowsIn(history, asOf, days, f);
    hide EffectiveWindowDays, Blocked, SaleDays, RowsIn, Multiple, EvenSales;
    EvenUnits(rows, best);
    EvenQuotient(Damp(rows).units, best, |SaleDays(rows)|, CensoredDays(history, asOf, days, f));
  }

  /** A window whose days are all blocked counts as a week, whatever was sold: eight or more even sale
      days push its rate above the best day. */
  lemma MarkedOutWindowExceeds(history: seq<SalesPoint>, asOf: int, days: nat, f: Facts, best: real)
    requires days >= 7 && best > 0.0 && EvenSales(RowsIn(history, asOf, days, f), best)
    requires Blocked(history, asOf - days * DAY_MS, asOf, f) >= days
    ensures CensoredDays(history, asOf, days, f) == 7
    ensures CensoredWindowRate(history, asOf, days, f) <= best <==> |SaleDays(RowsIn(history, asOf, days, f))| <= 7
  {
    EvenWindowRate(history, asOf, days, f, best);
  }

  /** The blend stays at or below the best day when every window does. */
  lemma CensoredBetween(history: seq<SalesPoint>, asOf: int, f: Facts, best: real)
    requires best >= 0.0 && (f.stockoutDates != [] || f.snapshotsSince.Some?)
    requires forall days: nat :: days in {30, 90, 365} ==>
               && (forall k :: Total(RowsIn(history, asOf, days, f), k) <= best)
               && |SaleDays(RowsIn(history, asOf, days, f))| <= CensoredDays(history, asOf, days, f)
    ensures Censored(history, asOf, f) <= best
  {
    if history != [] {
      CensoredWindowBetween(history, asOf, 30, f, best);
      CensoredWindowBetween(history, asOf, 90, f, best);
      CensoredWindowBetween(history, asOf, 365, f, best);
      hide CensoredWindowRate, WeightedSum;
      BlendAtMost(RATE_WINDOWS, CensoredRateOn(history, asOf, f), 30, 90, 365, best);
    }
  }

  lemma BlendAtMost(windows: seq<RateWindow>, rate: nat -> real, x: nat, y: nat, z: nat, high: real)
    requires windows == [RateWindow(x, 0.5), RateWindow(y, 0.3), RateWindow(z, 0.2)]
    requires rate(x) <= high && rate(y) <= high && rate(z) <= high
    ensures WeightedSum(windows, rate) <= high
  {
    BlendOf(windows, rate, x, y, z);
  }
}
