/** When the snapshot-truth rate of packages/forecast/src/baseline.ts stays at or below the best day it is
    computed from, in terms of the days listed and the days sold. */
module CensoredBound {
  import opened AdjustedRate
  import opened BlockedDays
  import opened CensoredRate
  import opened DampedWindow
  import opened DayRange
  import opened DaySeries
  import opened Numbers
  import opened Sorting
  import opened WeeklyMedian
  import opened Wrappers

  // ---------------------------------------------------------------- the days of a window

  /** The midnights of a window. */
  function WindowKeys(since: int, asOf: int): set<int> { set k | k in Days(NextMidnight(since), asOf) }

  /** The midnights of a window that are listed, as a stockout or as excluded. */
  function ListedKeys(since: int, asOf: int, f: Facts): set<int> {
    DaysWithin(f.stockoutDates, since, asOf) + DaysWithin(f.excludedDates, since, asOf)
  }

  function SoldKeys(history: seq<SalesPoint>, asOf: int, days: nat, f: Facts): set<int> {
    set k | k in SaleDays(RowsIn(history, asOf, days, f))
  }

  /** Days subtracted beyond the listed midnights: dates listed again, and gaps inferred before the first
      snapshot. */
  function Surplus(history: seq<SalesPoint>, since: int, asOf: int, f: Facts): int {
    Blocked(history, since, asOf, f) - |ListedKeys(since, asOf, f)|
  }

  /** The listed days that sold nevertheless, and what is subtracted beyond the listed days, are no more
      than the days that were neither listed nor sold anything. */
  ghost predicate SpareDays(history: seq<SalesPoint>, asOf: int, days: nat, f: Facts) {
    var since := asOf - days * DAY_MS;
    var sold, listed := SoldKeys(history, asOf, days, f), ListedKeys(since, asOf, f);
    |sold * listed| + Surplus(history, since, asOf, f) <= |WindowKeys(since, asOf) - sold - listed|
  }

  lemma WindowKeysCount(since: int, days: nat)
    ensures |WindowKeys(since, since + days * DAY_MS)| == days
  {
    var from, asOf := NextMidnight(since), since + days * DAY_MS;
    var all := Days(from, asOf);
    WindowLength(since, days);
    DaysDistinct(from, asOf);
    ElementsAtMostLength(all);
  }

  lemma InWindowKeys(since: int, asOf: int, k: int)
    requires Aligned(k) && since <= k < asOf
    ensures k in WindowKeys(since, asOf)
  {
    FirstMidnight(since, k);
    DayListed(NextMidnight(since), asOf, k);
  }

  lemma SoldIsMidnight(history: seq<SalesPoint>, asOf: int, days: nat, f: Facts, k: int)
    requires AlignedHistory(history) && k in SoldKeys(history, asOf, days, f)
    ensures Aligned(k) && asOf - days * DAY_MS <= k < asOf && k !in KeysOf(f.excludedDates) && Total(history, k) > 0.0
  {
    SaleTotalsPositive(RowsIn(history, asOf, days, f));
    WindowTotal(history, asOf - days * DAY_MS, asOf, KeysOf(f.excludedDates), k);
    HasRow(history, k);
  }

  lemma SoldInWindow(history: seq<SalesPoint>, asOf: int, days: nat, f: Facts)
    requires AlignedHistory(history)
    ensures SoldKeys(history, asOf, days, f) <= WindowKeys(asOf - days * DAY_MS, asOf)
  {
    hide SoldKeys, WindowKeys, Total, KeysOf;
    forall k | k in SoldKeys(history, asOf, days, f) ensures k in WindowKeys(asOf - days * DAY_MS, asOf) {
      SoldIsMidnight(history, asOf, days, f, k);
      InWindowKeys(asOf - days * DAY_MS, asOf, k);
    }
  }

  lemma ListedInWindow(since: int, asOf: int, f: Facts)
    ensures ListedKeys(since, asOf, f) <= WindowKeys(since, asOf)
  {
    hide WindowKeys;
    forall k | k in ListedKeys(since, asOf, f) ensures k in WindowKeys(since, asOf) { InWindowKeys(since, asOf, k); }
  }

  lemma SoldCount(history: seq<SalesPoint>, asOf: int, days: nat, f: Facts)
    requires AlignedHistory(history)
    ensures |SoldKeys(history, asOf, days, f)| == |SaleDays(RowsIn(history, asOf, days, f))| <= days
  {
    hide SaleDays, RowsIn, WindowKeys;
    SaleTotalsPositive(RowsIn(history, asOf, days, f));
    ElementsAtMostLength(SaleDays(RowsIn(history, asOf, days, f)));
    SoldInWindow(history, asOf, days, f);
    WindowKeysCount(asOf - days * DAY_MS, days);
    Subset(SoldKeys(history, asOf, days, f), WindowKeys(asOf - days * DAY_MS, asOf));
  }

  lemma Subset(a: set<int>, b: set<int>)
    requires a <= b
    ensures |a| <= |b|
  {
    assert |b| == |a| + |b - a|;
  }

  /** The sale days fit into the days left exactly when there are spare days enough. */
  lemma DaysLeft(history: seq<SalesPoint>, asOf: int, days: nat, f: Facts)
    requires AlignedHistory(history)
    ensures |SaleDays(RowsIn(history, asOf, days, f))| <= days - Blocked(history, asOf - days * DAY_MS, asOf, f)
       <==> SpareDays(history, asOf, days, f)
  {
    hide WindowKeys, ListedKeys, SoldKeys, SaleDays, RowsIn, Blocked;
    var since := asOf - days * DAY_MS;
    SoldInWindow(history, asOf, days, f);
    ListedInWindow(since, asOf, f);
    SoldCount(history, asOf, days, f);
    WindowKeysCount(since, days);
    Remaining(WindowKeys(since, asOf), SoldKeys(history, asOf, days, f), ListedKeys(since, asOf, f));
  }

  lemma Remaining(all: set<int>, a: set<int>, b: set<int>)
    requires a <= all && b <= all
    ensures |all - a - b| == |all| - |a| - |b| + |a * b|
  {
    assert all - a - b == all - (a + b);
    assert |all| == |a + b| + |all - (a + b)|;
  }

  /** The window's rate stays at or below the best day: there are spare days enough, or so few sale days
      that the floor of three or seven days covers them. */
  ghost predicate KeepsBest(history: seq<SalesPoint>, asOf: int, days: nat, f: Facts) {
    || SpareDays(history, asOf, days, f)
    || |SoldKeys(history, asOf, days, f)| <= 3
    || (Blocked(history, asOf - days * DAY_MS, asOf, f) >= days && |SoldKeys(history, asOf, days, f)| <= 7)
  }

  lemma EnoughDays(history: seq<SalesPoint>, asOf: int, days: nat, f: Facts)
    requires days >= 1 && AlignedHistory(history)
    ensures |SaleDays(RowsIn(history, asOf, days, f))| <= CensoredDays(history, asOf, days, f)
       <==> KeepsBest(history, asOf, days, f)
  {
    DaysLeft(history, asOf, days, f);
    SoldCount(history, asOf, days, f);
    hide SpareDays, SoldKeys, SaleDays, RowsIn, Blocked, Consistent;
    var n, blocked := |SaleDays(RowsIn(history, asOf, days, f))|, Blocked(history, asOf - days * DAY_MS, asOf, f);
    ConsistentMeans(Signal(days - blocked, n));
  }

  /** With sales dated at midnight: whatever was sold on them, the rate of a window that keeps its best
      day is at most that; and if every sale day sells as much as the best it is so only then. */
  lemma CensoredWindowExact(history: seq<SalesPoint>, asOf: int, days: nat, f: Facts, best: real)
    requires days >= 1 && AlignedHistory(history)
    requires best > 0.0 && forall k :: Total(RowsIn(history, asOf, days, f), k) <= best
    ensures KeepsBest(history, asOf, days, f) ==> CensoredWindowRate(history, asOf, days, f) <= best
    ensures EvenSales(RowsIn(history, asOf, days, f), best) ==>
      (CensoredWindowRate(history, asOf, days, f) <= best <==> KeepsBest(history, asOf, days, f))
  {
    hide KeepsBest, SaleDays, RowsIn, CensoredDays, CensoredWindowRate, EvenSales;
    EnoughDays(history, asOf, days, f);
    if KeepsBest(history, asOf, days, f) { CensoredWindowBetween(history, asOf, days, f, best); }
    if EvenSales(RowsIn(history, asOf, days, f), best) { EvenWindowRate(history, asOf, days, f, best); }
  }

  // ---------------------------------------------------------------- lists as the database keeps them

  ghost predicate Midnights(dates: seq<int>) { forall i :: 0 <= i < |dates| ==> Aligned(dates[i]) }

  /** No stockout is listed twice, unless excluded days make the count a set, and none before the first
      snapshot. */
  ghost predicate SnapshotFacts(f: Facts) {
    && (f.excludedDates == [] ==> Midnights(f.stockoutDates) && Distinct(f.stockoutDates))
    && (f.snapshotsSince.Some? ==> forall k :: k in KeysOf(f.stockoutDates) ==> f.snapshotsSince.value <= k)
  }

  lemma ListedOnce(since: int, asOf: int, f: Facts)
    requires SnapshotFacts(f)
    ensures BlockedCount(f.stockoutDates, f.excludedDates, since, asOf) == |ListedKeys(since, asOf, f)|
  {
    if f.excludedDates == [] {
      FilterProperties(f.stockoutDates, Within(since, asOf));
      StockoutCountIsDistinct(f.stockoutDates, since, asOf);
      assert DaysWithin([], since, asOf) == {};
      assert DaysWithin(f.stockoutDates, since, asOf) + {} == DaysWithin(f.stockoutDates, since, asOf);
    }
  }

  /** Of such lists only inferred gap days are surplus: none once the snapshots reach back past the window. */
  lemma SurplusIsInferred(history: seq<SalesPoint>, since: int, asOf: int, f: Facts)
    requires SnapshotFacts(f)
    ensures Surplus(history, since, asOf, f)
         == UncoveredGap(history, since, asOf, f.snapshotsSince, KeysOf(f.excludedDates))
    ensures f.snapshotsSince.None? || f.snapshotsSince.value <= since ==> Surplus(history, since, asOf, f) == 0
  {
    hide ListedKeys;
    ListedOnce(since, asOf, f);
  }

  /** Where the gaps before the first snapshot are inferred. */
  function GapEnd(asOf: int, f: Facts): int {
    if f.snapshotsSince.Some? then MinInt(f.snapshotsSince.value, asOf) else asOf
  }

  /** Silent before the first snapshot, and not excluded. */
  ghost function InferredOut(history: seq<SalesPoint>, since: int, asOf: int, f: Facts): int -> bool {
    if f.snapshotsSince.None? || f.snapshotsSince.value <= since then NoDay()
    else SilentOpen(Dates(history, since, GapEnd(asOf, f)), KeysOf(f.excludedDates))
  }

  lemma InferredGapCounts(history: seq<SalesPoint>, since: int, asOf: int, f: Facts)
    requires AlignedHistory(history) && since <= asOf
    ensures UncoveredGap(history, since, asOf, f.snapshotsSince, KeysOf(f.excludedDates))
         <= CountIf(Days(NextMidnight(since), asOf), InferredOut(history, since, asOf, f))
  {
    var end, excluded := GapEnd(asOf, f), KeysOf(f.excludedDates);
    assert AlignedKeys(excluded);
    hide KeysOf, CountIf, Days, SilentOpen;
    if f.snapshotsSince.Some? && f.snapshotsSince.value > since {
      GapIsAtMostSilence(history, since, end, asOf, excluded);
    }
  }

  lemma GapIsAtMostSilence(history: seq<SalesPoint>, since: int, end: int, asOf: int, excluded: set<int>)
    requires AlignedHistory(history) && AlignedKeys(excluded) && since <= end <= asOf
    ensures GapDays(history, since, end, excluded)
         <= CountIf(Days(NextMidnight(since), asOf), SilentOpen(Dates(history, since, end), excluded))
  {
    hide GapSum, CountIf, Days, SilentOpen;
    if InfersGaps(SortedRows(history, since, end), RoundDays(end - since)) {
      var dates := Dates(history, since, end);
      DatesInferred(history, since, end);
      DatesAscending(history, since, end);
      hide SortedRows, Silent, RoundDays, InfersGaps;
      assert dates[0] in dates && dates[|dates| - 1] in dates;
      FirstMidnight(since, dates[0]);
      WindowGapCounts(dates, NextMidnight(since), asOf, excluded);
    }
  }

  /** No day that sold something net is listed as a stockout. */
  ghost predicate Unmarked(history: seq<SalesPoint>, f: Facts) {
    forall k :: k in KeysOf(f.stockoutDates) ==> Total(history, k) <= 0.0
  }

  ghost function Unblocked(history: seq<SalesPoint>, since: int, asOf: int, f: Facts): int -> bool {
    (k: int) => k !in ListedKeys(since, asOf, f) && !InferredOut(history, since, asOf, f)(k)
  }

  /** Listed days and inferred gap days are different days, so what they leave are days of the window. */
  lemma UnblockedCount(history: seq<SalesPoint>, since: int, days: nat, f: Facts)
    requires AlignedHistory(history) && SnapshotFacts(f)
    ensures var asOf := since + days * DAY_MS;
      CountIf(Days(NextMidnight(since), asOf), Unblocked(history, since, asOf, f))
      <= days - Blocked(history, since, asOf, f)
  {
    hide ListedKeys, InferredOut, Blocked, Days, UncoveredGap, BlockedCount, SnapshotFacts;
    var asOf := since + days * DAY_MS;
    var from, listed := NextMidnight(since), ListedKeys(since, asOf, f);
    var all, gone, open := Days(from, asOf), InferredOut(history, since, asOf, f), Unblocked(history, since, asOf, f);
    ListedOnce(since, asOf, f);
    InferredGapCounts(history, since, asOf, f);
    forall k | gone(k) ensures k !in listed { InferredNotListed(history, since, asOf, f, k); }
    WindowLength(since, days);
    ListedCount(since, asOf, f);
    CountUnion(all, Holds(listed), gone, Not(open));
    CountComplement(all, open, Not(open));
    BlockedParts(history, since, asOf, f);
  }

  lemma ListedCount(since: int, asOf: int, f: Facts)
    ensures CountIf(Days(NextMidnight(since), asOf), Holds(ListedKeys(since, asOf, f))) == |ListedKeys(since, asOf, f)|
  {
    var from, listed := NextMidnight(since), ListedKeys(since, asOf, f);
    forall k | k in listed ensures Aligned(k) && from <= k < asOf { FirstMidnight(since, k); }
    CountIsCardinality(from, asOf, listed);
    assert listed == set k | k in listed && from <= k < asOf;
  }

  lemma BlockedParts(history: seq<SalesPoint>, since: int, asOf: int, f: Facts)
    ensures Blocked(history, since, asOf, f) == BlockedCount(f.stockoutDates, f.excludedDates, since, asOf)
            + UncoveredGap(history, since, asOf, f.snapshotsSince, KeysOf(f.excludedDates))
  {}

  lemma InferredNotListed(history: seq<SalesPoint>, since: int, asOf: int, f: Facts, k: int)
    requires AlignedHistory(history) && SnapshotFacts(f) && InferredOut(history, since, asOf, f)(k)
    ensures k !in ListedKeys(since, asOf, f)
  {
    var dates := Dates(history, since, GapEnd(asOf, f));
    hide SortedRows;
    DatesAscending(history, since, GapEnd(asOf, f));
    var i :| 0 <= i < |dates| - 1 && InGap(dates, i, k);
    assert dates[i + 1] in dates;
  }

  /** A sale day that is not listed is neither inferred to be out. */
  lemma SoldUnblocked(history: seq<SalesPoint>, asOf: int, days: nat, f: Facts, k: int)
    requires AlignedHistory(history) && Unmarked(history, f) && k in SoldKeys(history, asOf, days, f)
    ensures var since := asOf - days * DAY_MS;
      k in Days(NextMidnight(since), asOf) && Unblocked(history, since, asOf, f)(k)
  {
    var since := asOf - days * DAY_MS;
    SoldIsMidnight(history, asOf, days, f, k);
    FirstMidnight(since, k);
    DayListed(NextMidnight(since), asOf, k);
    if InferredOut(history, since, asOf, f)(k) {
      var dates := Dates(history, since, GapEnd(asOf, f));
      DatesAscending(history, since, GapEnd(asOf, f));
      HasRow(history, k);
      hide Total, SoldKeys, SortedRows, Dates, KeysOf;
      var i :| 0 <= i < |dates| - 1 && InGap(dates, i, k);
      assert dates[i] in dates && dates[i + 1] in dates;
      var j :| 0 <= j < |history| && history[j].date == k;
      DateListed(history, since, GapEnd(asOf, f), j);
      var m :| 0 <= m < |dates| && dates[m] == k;
      SaleDayNotSilent(dates, m);
    }
  }

  /** With no marked sale day the sale days fit into the days left, whatever was inferred before the
      first snapshot. */
  lemma UnmarkedSalesFit(history: seq<SalesPoint>, asOf: int, days: nat, f: Facts)
    requires AlignedHistory(history) && SnapshotFacts(f) && Unmarked(history, f)
    ensures |SaleDays(RowsIn(history, asOf, days, f))| <= days - Blocked(history, asOf - days * DAY_MS, asOf, f)
  {
    var since := asOf - days * DAY_MS;
    var sold := SaleDays(RowsIn(history, asOf, days, f));
    SaleTotalsPositive(RowsIn(history, asOf, days, f));
    hide Unblocked, Days, Blocked, SaleDays, RowsIn, Unmarked, SnapshotFacts;
    forall k | k in sold ensures k in Days(NextMidnight(since), asOf) && Unblocked(history, since, asOf, f)(k) {
      SoldUnblocked(history, asOf, days, f, k);
    }
    DistinctWithin(sold, Days(NextMidnight(since), asOf), Unblocked(history, since, asOf, f));
    UnblockedCount(history, since, days, f);
  }

  /** From sales dated at midnight and lists as the database keeps them, the rate is at most the best
      non-excluded day of the year as long as no sale day is marked as a stockout. */
  lemma CensoredRateBetween(history: seq<SalesPoint>, asOf: int, f: Facts, best: real)
    requires AlignedHistory(history) && SnapshotFacts(f) && Unmarked(history, f)
    requires BestDay(history, asOf - 365 * DAY_MS, asOf, KeysOf(f.excludedDates), best)
    ensures Censored(history, asOf, f) <= best
  {
    if f.stockoutDates == [] && f.snapshotsSince.None? {
      AdjustedRateBetween(history, asOf, KeysOf(f.excludedDates), best);
    } else {
      forall days: nat | days in {30, 90, 365}
        ensures (forall k :: Total(RowsIn(history, asOf, days, f), k) <= best)
        ensures |SaleDays(RowsIn(history, asOf, days, f))| <= CensoredDays(history, asOf, days, f)
      {
        forall k ensures Total(RowsIn(history, asOf, days, f), k) <= best {
          WindowTotal(history, asOf - days * DAY_MS, asOf, KeysOf(f.excludedDates), k);
        }
        UnmarkedSalesFit(history, asOf, days, f);
      }
      CensoredBetween(history, asOf, f, best);
    }
  }

  // ---------------------------------------------------------------- a month marked out

  function UnitSale(day: int): SalesPoint { SalesPoint(day, 1.0, 0.0, "shop") }

  function ToSale(): int -> SalesPoint { (day: int) => UnitSale(day) }

  /** A unit sold every day of a month. */
  function MonthOfSales(): seq<SalesPoint> { Map(Days(0, 30 * DAY_MS), ToSale()) }

  /** Every day of the month listed as a stockout. */
  function MonthOut(): Facts { Facts(Days(0, 30 * DAY_MS), [], None) }

  lemma {:induction false} UnitTotals(from: int, n: nat, k: int)
    requires Aligned(from)
    ensures Total(Map(Days(from, from + n * DAY_MS), ToSale()), k)
         == if Aligned(k) && from <= k < from + n * DAY_MS then 1.0 else 0.0
    decreases n
  {
    if n == 0 {
    } else {
      var end := from + n * DAY_MS;
      UnitTotals(from + DAY_MS, n - 1, k);
      assert from + DAY_MS + (n - 1) * DAY_MS == end;
      var rows := Map(Days(from, end), ToSale());
      assert rows[1..] == Map(Days(from + DAY_MS, end), ToSale());
      AlignedKeyIsDate(from);
      if Aligned(k) && from < k { GapBetweenAligned(from, k); }
    }
  }

  lemma MonthTotals(k: int)
    ensures Total(MonthOfSales(), k) == if Aligned(k) && 0 <= k < 30 * DAY_MS then 1.0 else 0.0
  {
    UnitTotals(0, 30, k);
  }

  lemma MonthFilter(days: nat)
    requires KeysOf([]) == {}
    ensures RowsIn(MonthOfSales(), 30 * DAY_MS, days, MonthOut())
         == Filter(MonthOfSales(), InWindow(30 * DAY_MS - days * DAY_MS, 30 * DAY_MS, {}))
  {}

  /** Every window holds the whole month. */
  lemma MonthRows(days: nat)
    requires days >= 30
    ensures RowsIn(MonthOfSales(), 30 * DAY_MS, days, MonthOut()) == MonthOfSales()
  {
    var sales := MonthOfSales();
    forall i | 0 <= i < |sales| ensures 0 <= sales[i].date < 30 * DAY_MS { DaysMember(0, 30 * DAY_MS, i); }
    hide Days, MonthOfSales, WindowRows;
    assert KeysOf([]) == {};
    var inWindow := InWindow(30 * DAY_MS - days * DAY_MS, 30 * DAY_MS, {});
    forall p | p in sales ensures inWindow(p) {
      var i :| 0 <= i < |sales| && sales[i] == p;
    }
    FilterAll(sales, inWindow);
    MonthFilter(days);
  }

  lemma MonthSaleDay(i: nat)
    requires i < 30
    ensures |Days(0, 30 * DAY_MS)| == 30
    ensures Days(0, 30 * DAY_MS)[i] == i * DAY_MS && Days(0, 30 * DAY_MS)[i] in SaleDays(MonthOfSales())
  {
    hide MonthOfSales, SaleDays, Days, Total;
    DaysLength(0, 30);
    DaysMember(0, 30 * DAY_MS, i);
    MonthTotals(Days(0, 30 * DAY_MS)[i]);
    SaleTotalsPositive(MonthOfSales());
  }

  lemma MonthSaleDays()
    ensures |SaleDays(MonthOfSales())| >= 30
  {
    hide MonthOfSales, SaleDays, Days;
    var all := Days(0, 30 * DAY_MS);
    MonthSaleDay(0);
    forall i: nat | i < 30 ensures all[i] == i * DAY_MS && all[i] in SaleDays(MonthOfSales()) { MonthSaleDay(i); }
    DistinctSubset(all, SaleDays(MonthOfSales()));
  }

  lemma MonthBlocked()
    ensures Blocked(MonthOfSales(), 0, 30 * DAY_MS, MonthOut()) == 30
  {
    var all := Days(0, 30 * DAY_MS);
    DaysLength(0, 30);
    forall i | 0 <= i < |all| ensures Within(0, 30 * DAY_MS)(all[i]) { DaysMember(0, 30 * DAY_MS, i); }
    FilterAll(all, Within(0, 30 * DAY_MS));
    FilterLength(all, Within(0, 30 * DAY_MS));
  }

  lemma MonthEven(days: nat)
    requires days >= 30
    ensures EvenSales(RowsIn(MonthOfSales(), 30 * DAY_MS, days, MonthOut()), 1.0)
    ensures |SaleDays(RowsIn(MonthOfSales(), 30 * DAY_MS, days, MonthOut()))| >= 30
  {
    hide MonthOfSales, RowsIn, SaleDays, Total;
    MonthRows(days);
    forall k ensures Total(MonthOfSales(), k) == 0.0 || Total(MonthOfSales(), k) == 1.0 { MonthTotals(k); }
    MonthSaleDays();
  }

  lemma MonthRate(days: nat)
    requires days >= 30
    ensures CensoredWindowRate(MonthOfSales(), 30 * DAY_MS, days, MonthOut()) >= 0.0
    ensures days == 30 ==> CensoredWindowRate(MonthOfSales(), 30 * DAY_MS, days, MonthOut()) > 4.2
  {
    hide MonthOfSales, SaleDays, Blocked, RowsIn, MonthOut, EffectiveWindowDays, EvenSales, Damp;
    MonthEven(days);
    EvenWindowRate(MonthOfSales(), 30 * DAY_MS, days, MonthOut(), 1.0);
    var n := |SaleDays(RowsIn(MonthOfSales(), 30 * DAY_MS, days, MonthOut()))|;
    MonthBlocked();
    if days == 30 { MarkedOutWindowExceeds(MonthOfSales(), 30 * DAY_MS, 30, MonthOut(), 1.0); }
    DivideMonotone(30.0, n as real, CensoredDays(MonthOfSales(), 30 * DAY_MS, days, MonthOut()) as real);
  }

  /** A unit sold on each of thirty days that are all listed as stockouts gives a rate above two a day. */
  lemma MarkedOutRateExceedsBestDay()
    ensures BestDay(MonthOfSales(), 30 * DAY_MS - 365 * DAY_MS, 30 * DAY_MS, {}, 1.0)
    ensures Censored(MonthOfSales(), 30 * DAY_MS, MonthOut()) > 2.0
  {
    forall k ensures Total(MonthOfSales(), k) <= 1.0 { MonthTotals(k); }
    DaysLength(0, 30);
    MonthRate(30);
    MonthRate(90);
    MonthRate(365);
    var rate := CensoredRateOn(MonthOfSales(), 30 * DAY_MS, MonthOut());
    hide MonthOfSales, CensoredWindowRate, Total;
    BlendOf(RATE_WINDOWS, rate, 30, 90, 365);
  }
}
