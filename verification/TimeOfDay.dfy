/** The adjusted rate of packages/forecast/src/baseline.ts only sees how far apart instants are: with all
    sales at one time of day and no excluded days it is the rate of the same sales at midnight. */
module TimeOfDay {
  import opened AdjustedRate
  import opened DampedWindow
  import opened DayRange
  import opened DaySeries
  import opened Numbers
  import opened Sorting

  function Earlier(o: int): SalesPoint -> SalesPoint { (p: SalesPoint) => p.(date := p.date - o) }

  function EarlierDate(o: int): int -> int { (t: int) => t - o }

  /** Every sale is `o` past midnight. */
  ghost predicate AllAt(history: seq<SalesPoint>, o: int) {
    0 <= o < DAY_MS && forall p :: p in history ==> p.date % DAY_MS == o
  }

  // ---------------------------------------------------------------- the gap

  lemma {:induction false} InsertEarlier(x: SalesPoint, s: seq<SalesPoint>, o: int)
    ensures Insert(Earlier(o)(x), Map(s, Earlier(o)), ByDate()) == Map(Insert(x, s, ByDate()), Earlier(o))
  {
    if s == [] {
    } else {
      InsertEarlier(x, s[1..], o);
      assert Map(s, Earlier(o))[1..] == Map(s[1..], Earlier(o));
      assert ([x] + s)[1..] == s && ([s[0]] + Insert(x, s[1..], ByDate()))[1..] == Insert(x, s[1..], ByDate());
    }
  }

  lemma {:induction false} SortEarlier(s: seq<SalesPoint>, o: int)
    ensures Sort(Map(s, Earlier(o)), ByDate()) == Map(Sort(s, ByDate()), Earlier(o))
  {
    if s == [] {
    } else {
      SortEarlier(s[1..], o);
      assert Map(s, Earlier(o))[1..] == Map(s[1..], Earlier(o));
      InsertEarlier(s[0], Sort(s[1..], ByDate()), o);
    }
  }

  lemma SortedRowsEarlier(history: seq<SalesPoint>, since: int, asOf: int, o: int)
    ensures SortedRows(Map(history, Earlier(o)), since - o, asOf - o)
         == Map(SortedRows(history, since, asOf), Earlier(o))
  {
    FilterOfMap(history, Earlier(o), InSpan(since, asOf), InSpan(since - o, asOf - o));
    SortEarlier(Filter(history, InSpan(since, asOf)), o);
  }

  lemma {:induction false} QuantitiesEarlier(s: seq<SalesPoint>, o: int)
    ensures SumBy(Map(s, Earlier(o)), QuantityOf()) == SumBy(s, QuantityOf())
  {
    if s == [] {
    } else {
      QuantitiesEarlier(s[1..], o);
      assert Map(s, Earlier(o))[1..] == Map(s[1..], Earlier(o));
    }
  }

  lemma SpanEarlier(a: int, b: int, o: int)
    ensures Span(a - o, b - o, {}) == Span(a, b, {})
  {
    NoneExcluded({}, a, b);
    NoneExcluded({}, a - o, b - o);
    assert (b - o) - (a - o) == b - a;
  }

  lemma {:induction false} GapSumEarlier(dates: seq<int>, o: int)
    ensures GapSum(Map(dates, EarlierDate(o)), {}) == GapSum(dates, {})
  {
    var n, earlier := |dates|, Map(dates, EarlierDate(o));
    if n < 2 {
    } else {
      GapSumEarlier(dates[..n - 1], o);
      assert earlier[..n - 1] == Map(dates[..n - 1], EarlierDate(o));
      SpanEarlier(dates[n - 2], dates[n - 1], o);
    }
  }

  lemma GapEarlier(history: seq<SalesPoint>, since: int, asOf: int, o: int)
    ensures GapDays(Map(history, Earlier(o)), since - o, asOf - o, {}) == GapDays(history, since, asOf, {})
  {
    hide SortedRows, GapSum, SumBy;
    var rows, dates := SortedRows(history, since, asOf), Map(SortedRows(history, since, asOf), DateOf());
    SortedRowsEarlier(history, since, asOf, o);
    QuantitiesEarlier(rows, o);
    GapSumEarlier(dates, o);
    assert Map(Map(rows, Earlier(o)), DateOf()) == Map(dates, EarlierDate(o));
    assert (asOf - o) - (since - o) == asOf - since;
  }

  // ---------------------------------------------------------------- the sales

  lemma KeyEarlier(t: int, o: int)
    requires 0 <= o < DAY_MS && t % DAY_MS == o
    ensures DayKey(t - o) == DayKey(t) == t - o && Aligned(t - o)
  {}

  lemma WindowEarlier(history: seq<SalesPoint>, since: int, asOf: int, o: int)
    ensures WindowRows(Map(history, Earlier(o)), since - o, asOf - o, {})
         == Map(WindowRows(history, since, asOf, {}), Earlier(o))
  {
    FilterOfMap(history, Earlier(o), InWindow(since, asOf, {}), InWindow(since - o, asOf - o, {}));
  }

  lemma {:induction false} TotalEarlier(rows: seq<SalesPoint>, o: int, k: int)
    requires AllAt(rows, o)
    ensures Total(Map(rows, Earlier(o)), k) == Total(rows, k)
  {
    if rows == [] {
    } else {
      TotalEarlier(rows[1..], o, k);
      assert Map(rows, Earlier(o))[1..] == Map(rows[1..], Earlier(o));
      assert rows[0] in rows;
      KeyEarlier(rows[0].date, o);
    }
  }

  lemma DampEarlier(history: seq<SalesPoint>, since: int, asOf: int, o: int)
    requires AllAt(history, o)
    ensures Damp(WindowRows(Map(history, Earlier(o)), since - o, asOf - o, {}))
         == Damp(WindowRows(history, since, asOf, {}))
  {
    var rows := WindowRows(history, since, asOf, {});
    WindowEarlier(history, since, asOf, o);
    FilterProperties(history, InWindow(since, asOf, {}));
    assert AllAt(rows, o);
    hide Total, WindowRows, Damp, AllAt;
    forall k ensures Total(Map(rows, Earlier(o)), k) == Total(rows, k) { TotalEarlier(rows, o, k); }
    OnlyDayTotalsMatter(Map(rows, Earlier(o)), rows);
  }

  /** A window's rate is that of the same sales at midnight. */
  lemma WindowRateEarlier(history: seq<SalesPoint>, asOf: int, days: nat, o: int)
    requires AllAt(history, o)
    ensures WindowRate(Map(history, Earlier(o)), asOf - o, days, {}) == WindowRate(history, asOf, days, {})
    ensures EffectiveDays(Map(history, Earlier(o)), asOf - o, days, {}) == EffectiveDays(history, asOf, days, {})
  {
    hide GapDays, WindowRows, Damp, AllAt, Earlier;
    var since := asOf - days * DAY_MS;
    GapEarlier(history, since, asOf, o);
    DampEarlier(history, since, asOf, o);
    assert asOf - o - days * DAY_MS == since - o;
    NoneExcluded({}, since, asOf);
    NoneExcluded({}, since - o, asOf - o);
  }

  lemma EarlierIsAligned(history: seq<SalesPoint>, o: int)
    requires AllAt(history, o)
    ensures AlignedHistory(Map(history, Earlier(o)))
    ensures forall k :: Total(Map(history, Earlier(o)), k) == Total(history, k)
  {
    var earlier := Map(history, Earlier(o));
    forall i | 0 <= i < |earlier| ensures Aligned(earlier[i].date) {
      assert history[i] in history;
      KeyEarlier(history[i].date, o);
    }
    forall k ensures Total(earlier, k) == Total(history, k) { TotalEarlier(history, o, k); }
  }

  /** Then no window has more sale days than effective days. */
  lemma SameTimeOfDaySaleDays(history: seq<SalesPoint>, asOf: int, days: nat, o: int)
    requires AllAt(history, o)
    ensures |SaleDays(WindowRows(history, asOf - days * DAY_MS, asOf, {}))| <= EffectiveDays(history, asOf, days, {})
  {
    hide EffectiveDays, WindowRows, AllAt, AlignedHistory, SaleDays;
    var since := asOf - days * DAY_MS;
    EarlierIsAligned(history, o);
    DampEarlier(history, since, asOf, o);
    WindowRateEarlier(history, asOf, days, o);
    assert asOf - o - days * DAY_MS == since - o;
    SaleDaysWithinDenominator(Map(history, Earlier(o)), asOf - o, days, {});
  }

  /** With sales all at one time of day and none excluded the rate stays between nothing and the best day;
      the days are those whose sales fall into the year. */
  lemma SameTimeOfDayBetween(history: seq<SalesPoint>, asOf: int, o: int, best: real)
    requires AllAt(history, o)
    requires BestDay(history, asOf - o - 365 * DAY_MS, asOf - o, {}, best)
    ensures WeightedRate(history, asOf, {}) <= best
    ensures NoNetReturns(history) ==> WeightedRate(history, asOf, {}) >= 0.0
  {
    hide Total, WindowRate, AllAt, AlignedHistory, WeightedSum;
    var earlier := Map(history, Earlier(o));
    EarlierIsAligned(history, o);
    AdjustedRateBetween(earlier, asOf - o, {}, best);
    WindowRateEarlier(history, asOf, 30, o);
    WindowRateEarlier(history, asOf, 90, o);
    WindowRateEarlier(history, asOf, 365, o);
    BlendOf(RATE_WINDOWS, WindowRateOn(history, asOf, {}), 30, 90, 365);
    BlendOf(RATE_WINDOWS, WindowRateOn(earlier, asOf - o, {}), 30, 90, 365);
  }
}
