/** Stockout gaps inferred from sales and the rate they correct: `gapDaysInWindow` and
    `weightedDailyRateAdjusted` of packages/forecast/src/baseline.ts. */
module AdjustedRate {
  import opened DampedWindow
  import opened DayRange
  import opened DaySeries
  import opened Numbers
  import opened Sorting

  const MIN_GAP := 7

  /** `Math.round` of a time difference in days. */
  function RoundDays(ms: int): int { (2 * ms + DAY_MS) / (2 * DAY_MS) }

  function InSpan(since: int, asOf: int): SalesPoint -> bool { (p: SalesPoint) => since <= p.date < asOf }

  function ByDate(): (SalesPoint, SalesPoint) -> bool { (a: SalesPoint, b: SalesPoint) => a.date <= b.date }

  function DateOf(): SalesPoint -> int { (p: SalesPoint) => p.date }

  /** The rows of a window in date order. */
  function SortedRows(history: seq<SalesPoint>, since: int, asOf: int): seq<SalesPoint> {
    Sort(Filter(history, InSpan(since, asOf)), ByDate())
  }

  /** Below half a unit a day gaps are natural; without a whole day the quotient is infinite
      or not a number. */
  predicate LowPace(total: real, windowDays: int) {
    if windowDays == 0 then total < 0.0 else total / windowDays as real < 0.5
  }

  function InsideCount(excluded: set<int>, a: int, b: int): nat { |set k | k in excluded && a < k < b| }

  /** What one pair of neighbouring sales adds to the gap. */
  function Span(a: int, b: int, excluded: set<int>): int {
    if RoundDays(b - a) > MIN_GAP then RoundDays(b - a) - 1 - InsideCount(excluded, a, b) else 0
  }

  lemma NoneExcluded(excluded: set<int>, a: int, b: int)
    requires excluded == {}
    ensures InsideCount(excluded, a, b) == 0 && |set k | k in excluded && a <= k < b| == 0
  {
    assert (set k | k in excluded && a < k < b) == {} == (set k | k in excluded && a <= k < b);
  }

  function GapSum(dates: seq<int>, excluded: set<int>): int {
    var n := |dates|;
    if n < 2 then 0 else GapSum(dates[..n - 1], excluded) + Span(dates[n - 2], dates[n - 1], excluded)
  }

  predicate InfersGaps(rows: seq<SalesPoint>, windowDays: int) {
    |rows| >= 2 && !LowPace(SumBy(rows, QuantityOf()), windowDays)
  }

  /** Gaps are inferred between at least two rows that sold half a unit a day or more. */
  lemma InferenceMeans(rows: seq<SalesPoint>, windowDays: int)
    requires windowDays >= 0
    ensures InfersGaps(rows, windowDays) <==> |rows| >= 2 && 2.0 * SumBy(rows, QuantityOf()) >= windowDays as real
  {
    if windowDays >= 1 { HalfADay(SumBy(rows, QuantityOf()), windowDays as real); }
  }

  lemma HalfADay(total: real, days: real)
    requires days > 0.0
    ensures total / days < 0.5 <==> 2.0 * total < days
  {
    var q := total / days;
    assert q * days == total;
    if q < 0.5 { assert (0.5 - q) * days > 0.0; } else { assert (q - 0.5) * days >= 0.0; }
  }

  function GapDays(history: seq<SalesPoint>, since: int, asOf: int, excluded: set<int>): int {
    var rows := SortedRows(history, since, asOf);
    var windowDays := RoundDays(asOf - since);
    if !InfersGaps(rows, windowDays) then 0
    else
      var gap := GapSum(Map(rows, DateOf()), excluded);
      if gap <= windowDays - 1 then gap else windowDays - 1
  }

  method ComputeGapDays(history: seq<SalesPoint>, since: int, asOf: int, excluded: set<int>) returns (result: int)
    ensures result == GapDays(history, since, asOf, excluded)
  {
    var inWindow := SortedRows(history, since, asOf);
    if |inWindow| < 2 {
      return 0;
    }
    var windowDays := RoundDays(asOf - since);
    if LowPace(SumBy(inWindow, QuantityOf()), windowDays) {
      return 0;
    }
    var gap := 0;
    ghost var dates := Map(inWindow, DateOf());
    for i := 0 to |inWindow| - 1
      invariant gap == GapSum(dates[..i + 1], excluded)
    {
      var a, b := inWindow[i].date, inWindow[i + 1].date;
      var between := RoundDays(b - a);
      if between > MIN_GAP {
        var span := between - 1;
        span := span - InsideCount(excluded, a, b);
        gap := gap + span;
      }
      assert dates[..i + 2][..i + 1] == dates[..i + 1];
    }
    assert dates[..|dates|] == dates;
    result := if gap <= windowDays - 1 then gap else windowDays - 1;
  }

  // ---------------------------------------------------------------- silent days

  /** A midnight strictly inside a stretch of more than seven days between two sales. */
  ghost predicate Silent(dates: seq<int>, k: int) {
    exists i :: 0 <= i < |dates| - 1 && InGap(dates, i, k)
  }

  ghost predicate InGap(dates: seq<int>, i: int, k: int)
    requires 0 <= i < |dates| - 1
  {
    dates[i] < k < dates[i + 1] && dates[i + 1] - dates[i] > 7 * DAY_MS
  }

  ghost function SilentOpen(dates: seq<int>, excluded: set<int>): int -> bool {
    (k: int) => Silent(dates, k) && k !in excluded
  }

  ghost predicate AlignedAscending(dates: seq<int>) {
    && (forall i :: 0 <= i < |dates| ==> Aligned(dates[i]))
    && (forall i, j :: 0 <= i < j < |dates| ==> dates[i] <= dates[j])
  }

  ghost predicate AlignedKeys(keys: set<int>) { forall k :: k in keys ==> Aligned(k) }

  lemma RoundsExactly(a: int, b: int)
    requires Aligned(a) && Aligned(b)
    ensures RoundDays(b - a) * DAY_MS == b - a
    ensures RoundDays(b - a) > MIN_GAP <==> b - a > MIN_GAP * DAY_MS
  {
    var q := (b - a) / DAY_MS;
    assert b - a == q * DAY_MS;
    assert 2 * (b - a) + DAY_MS == q * (2 * DAY_MS) + DAY_MS;
  }

  function Outside(excluded: set<int>): int -> bool { (k: int) => k !in excluded }

  /** The span of one long gap is the number of its days that are not excluded. */
  lemma SpanCounts(a: int, b: int, excluded: set<int>)
    requires Aligned(a) && Aligned(b) && a < b && AlignedKeys(excluded)
    ensures RoundDays(b - a) > MIN_GAP ==> Span(a, b, excluded) == CountIf(Days(a + DAY_MS, b), Outside(excluded))
  {
    RoundsExactly(a, b);
    var n := RoundDays(b - a) - 1;
    GapBetweenAligned(a, b);
    assert a + DAY_MS + n * DAY_MS == b;
    DaysLength(a + DAY_MS, n);
    CountComplement(Days(a + DAY_MS, b), Outside(excluded), Holds(excluded));
    CountIsCardinality(a + DAY_MS, b, excluded);
    var inner, inside := set k | k in excluded && a + DAY_MS <= k < b, set k | k in excluded && a < k < b;
    forall k | k in inside ensures k in inner { GapBetweenAligned(a, k); }
    assert inner == inside;
  }

  /** The last pair of sales decides whether the days after the last but one are silent. */
  lemma SilentBeforeLast(dates: seq<int>, k: int)
    requires AlignedAscending(dates) && |dates| >= 2
    ensures var n := |dates|; var before := dates[..n - 1];
      && (k <= dates[n - 2] ==> Silent(dates, k) == Silent(before, k))
      && (dates[n - 2] < k < dates[n - 1] ==> (Silent(dates, k) <==> dates[n - 1] - dates[n - 2] > MIN_GAP * DAY_MS))
  {
    var n := |dates|;
    var before := dates[..n - 1];
    if Silent(before, k) {
      var i :| 0 <= i < |before| - 1 && InGap(before, i, k);
      assert InGap(dates, i, k);
    }
    if Silent(dates, k) {
      var i :| 0 <= i < |dates| - 1 && InGap(dates, i, k);
      if i < n - 2 { assert InGap(before, i, k); }
    }
    if dates[n - 2] < k < dates[n - 1] && dates[n - 1] - dates[n - 2] > MIN_GAP * DAY_MS {
      assert InGap(dates, n - 2, k);
    }
  }

  lemma SaleDayNotSilent(dates: seq<int>, j: nat)
    requires AlignedAscending(dates) && j < |dates|
    ensures !Silent(dates, dates[j])
  {}

  /** The accumulated gap is the number of silent days that are not excluded. */
  lemma {:induction false} GapSumCounts(dates: seq<int>, excluded: set<int>)
    requires AlignedAscending(dates) && AlignedKeys(excluded) && dates != []
    ensures GapSum(dates, excluded) == CountIf(Days(dates[0], dates[|dates| - 1]), SilentOpen(dates, excluded))
    decreases |dates|
  {
    var n := |dates|;
    if n < 2 {
    } else {
      var before, a, b := dates[..n - 1], dates[n - 2], dates[n - 1];
      GapSumCounts(before, excluded);
      DaysSplit(dates[0], a, b);
      var early, late := Days(dates[0], a), Days(a, b);
      CountIfConcat(early, late, SilentOpen(dates, excluded));
      forall i | 0 <= i < |early|
        ensures SilentOpen(before, excluded)(early[i]) == SilentOpen(dates, excluded)(early[i])
      {
        DaysMember(dates[0], a, i);
        SilentBeforeLast(dates, early[i]);
      }
      CountSame(early, SilentOpen(before, excluded), SilentOpen(dates, excluded));
      LastGapCounts(dates, excluded);
    }
  }

  lemma LastGapCounts(dates: seq<int>, excluded: set<int>)
    requires AlignedAscending(dates) && AlignedKeys(excluded) && |dates| >= 2
    ensures var a, b := dates[|dates| - 2], dates[|dates| - 1];
      Span(a, b, excluded) == CountIf(Days(a, b), SilentOpen(dates, excluded))
  {
    var a, b := dates[|dates| - 2], dates[|dates| - 1];
    RoundsExactly(a, b);
    if a < b {
      var inner := Days(a + DAY_MS, b);
      SaleDayNotSilent(dates, |dates| - 2);
      SpanCounts(a, b, excluded);
      forall i | 0 <= i < |inner|
        ensures SilentOpen(dates, excluded)(inner[i]) == (RoundDays(b - a) > MIN_GAP && Outside(excluded)(inner[i]))
      {
        DaysMember(a + DAY_MS, b, i);
        SilentBeforeLast(dates, inner[i]);
      }
      if RoundDays(b - a) > MIN_GAP {
        CountSame(inner, SilentOpen(dates, excluded), Outside(excluded));
      } else {
        CountNone(inner, SilentOpen(dates, excluded));
      }
    }
  }

  // ---------------------------------------------------------------- the denominator

  ghost predicate AlignedHistory(history: seq<SalesPoint>) {
    forall i :: 0 <= i < |history| ==> Aligned(history[i].date)
  }

  /** The sale dates of a window. */
  function Dates(history: seq<SalesPoint>, since: int, asOf: int): seq<int> {
    Map(SortedRows(history, since, asOf), DateOf())
  }

  /** A window day that counts towards the rate: not inside an inferred silence, not excluded. */
  ghost function CountsFor(history: seq<SalesPoint>, since: int, asOf: int, excluded: set<int>): int -> bool {
    (k: int) =>
      !(InfersGaps(SortedRows(history, since, asOf), RoundDays(asOf - since)) && Silent(Dates(history, since, asOf), k))
      && k !in excluded
  }

  lemma SortedRowsMembers(history: seq<SalesPoint>, since: int, asOf: int)
    ensures SortedBy(SortedRows(history, since, asOf), ByDate())
    ensures forall p :: p in SortedRows(history, since, asOf) <==> p in history && since <= p.date < asOf
  {
    var kept, rows := Filter(history, InSpan(since, asOf)), SortedRows(history, since, asOf);
    FilterProperties(history, InSpan(since, asOf));
    SortProperties(kept, ByDate());
    forall p ensures p in rows <==> p in kept {
      assert p in multiset(rows) <==> p in multiset(kept);
    }
  }

  lemma DatesAscending(history: seq<SalesPoint>, since: int, asOf: int)
    requires AlignedHistory(history)
    ensures AlignedAscending(Dates(history, since, asOf))
    ensures forall d :: d in Dates(history, since, asOf) ==> since <= d < asOf
  {
    var rows, dates := SortedRows(history, since, asOf), Dates(history, since, asOf);
    SortedRowsMembers(history, since, asOf);
    forall i | 0 <= i < |dates| ensures Aligned(dates[i]) && since <= dates[i] < asOf {
      assert rows[i] in rows;
      var j :| 0 <= j < |history| && history[j] == rows[i];
    }
    forall i, j | 0 <= i < j < |dates| ensures dates[i] <= dates[j] { assert ByDate()(rows[i], rows[j]); }
  }

  lemma DateListed(history: seq<SalesPoint>, since: int, asOf: int, i: nat)
    requires i < |history| && since <= history[i].date < asOf
    ensures history[i].date in Dates(history, since, asOf)
  {
    var rows := SortedRows(history, since, asOf);
    SortedRowsMembers(history, since, asOf);
    assert history[i] in rows;
    var j :| 0 <= j < |rows| && rows[j] == history[i];
    assert Dates(history, since, asOf)[j] == history[i].date;
  }

  /** The silent days of the whole window are those between its first and its last sale. */
  lemma WindowGapCounts(dates: seq<int>, from: int, end: int, excluded: set<int>)
    requires AlignedAscending(dates) && AlignedKeys(excluded) && dates != [] && Aligned(from)
    requires from <= dates[0] && dates[|dates| - 1] < end
    ensures GapSum(dates, excluded) == CountIf(Days(from, end), SilentOpen(dates, excluded))
  {
    var first, last := dates[0], dates[|dates| - 1];
    GapSumCounts(dates, excluded);
    DaysSplit(from, first, end);
    DaysSplit(first, last, end);
    var p := SilentOpen(dates, excluded);
    CountIfConcat(Days(from, first), Days(first, end), p);
    CountIfConcat(Days(first, last), Days(last, end), p);
    forall i | 0 <= i < |Days(from, first)| ensures !p(Days(from, first)[i]) { DaysMember(from, first, i); }
    forall i | 0 <= i < |Days(last, end)| ensures !p(Days(last, end)[i]) { DaysMember(last, end, i); }
    CountNone(Days(from, first), p);
    CountNone(Days(last, end), p);
  }

  /** Some sale dates of a window, in order. */
  ghost predicate DatesWithin(dates: seq<int>, since: int, asOf: int) {
    && (forall i :: 0 <= i < |dates| ==> since <= dates[i] < asOf)
    && (forall i, j :: 0 <= i < j < |dates| ==> dates[i] <= dates[j])
  }

  lemma RoundDaysAdds(x: int, y: int)
    requires x >= 0 && y >= 0
    ensures RoundDays(x) + RoundDays(y) <= RoundDays(x + y) + 1
    ensures 0 <= RoundDays(x) <= RoundDays(x + y)
  {}

  /** The spans of some dates fit between the first and the last of them, at any time of day. */
  lemma {:induction false} GapSumFits(dates: seq<int>, since: int, asOf: int, excluded: set<int>)
    requires DatesWithin(dates, since, asOf) && dates != []
    ensures GapSum(dates, excluded) <= MaxInt(0, RoundDays(dates[|dates| - 1] - dates[0]) - 1)
    ensures RoundDays(dates[|dates| - 1] - dates[0]) <= MIN_GAP ==> GapSum(dates, excluded) == 0
  {
    var n := |dates|;
    if n == 1 {
    } else {
      GapSumFits(dates[..n - 1], since, asOf, excluded);
      RoundDaysAdds(dates[n - 2] - dates[0], dates[n - 1] - dates[n - 2]);
      RoundDaysAdds(dates[n - 1] - dates[n - 2], dates[n - 2] - dates[0]);
    }
  }

  /** The clip to one less than the window bites if and only if the window rounds to no day at all. */
  lemma ClipNeverBites(dates: seq<int>, since: int, asOf: int, excluded: set<int>)
    requires DatesWithin(dates, since, asOf) && dates != []
    ensures GapSum(dates, excluded) <= RoundDays(asOf - since) - 1 <==> RoundDays(asOf - since) >= 1
  {
    var first, last := dates[0], dates[|dates| - 1];
    GapSumFits(dates, since, asOf, excluded);
    RoundDaysAdds(last - first, (asOf - since) - (last - first));
  }

  ghost function NoDay(): int -> bool { (k: int) => false }

  lemma DatesAreWithin(history: seq<SalesPoint>, since: int, asOf: int)
    requires AlignedHistory(history)
    ensures DatesWithin(Dates(history, since, asOf), since, asOf)
  {
    var dates := Dates(history, since, asOf);
    DatesAscending(history, since, asOf);
    hide Dates;
    forall i | 0 <= i < |dates| ensures since <= dates[i] < asOf { assert dates[i] in dates; }
  }

  /** In a window of whole days the clip drops out. */
  lemma GapDaysIsSum(history: seq<SalesPoint>, since: int, windowDays: nat, excluded: set<int>)
    requires AlignedHistory(history)
    ensures var asOf := since + windowDays * DAY_MS;
      GapDays(history, since, asOf, excluded)
      == if InfersGaps(SortedRows(history, since, asOf), windowDays)
         then GapSum(Dates(history, since, asOf), excluded) else 0
  {
    hide SortedRows, GapSum, SumBy, DatesWithin;
    var asOf := since + windowDays * DAY_MS;
    WholeDays(since, windowDays);
    DatesAreWithin(history, since, asOf);
    if InfersGaps(SortedRows(history, since, asOf), windowDays) {
      DatesInferred(history, since, asOf);
      hide RoundDays;
      ClipNeverBites(Dates(history, since, asOf), since, asOf, excluded);
      WholeWindow(history, since, windowDays);
    }
  }

  /** Two rows within the window make it at least a day long. */
  lemma WholeWindow(history: seq<SalesPoint>, since: int, windowDays: nat)
    requires Dates(history, since, since + windowDays * DAY_MS) != []
    requires DatesWithin(Dates(history, since, since + windowDays * DAY_MS), since, since + windowDays * DAY_MS)
    ensures windowDays >= 1
  {
    hide Dates;
    var date := Dates(history, since, since + windowDays * DAY_MS)[0];
    assert since <= date < since + windowDays * DAY_MS;
  }

  /** On midnight-aligned sales, the window length minus the gap minus the excluded days is the
      number of window days that are neither silent nor excluded: no day is subtracted twice. */
  lemma DenominatorCountsOpenDays(history: seq<SalesPoint>, since: int, windowDays: nat, excluded: set<int>)
    requires AlignedHistory(history) && AlignedKeys(excluded)
    ensures var asOf := since + windowDays * DAY_MS;
      windowDays - GapDays(history, since, asOf, excluded) - |set k | k in excluded && since <= k < asOf|
      == CountIf(Days(NextMidnight(since), asOf), CountsFor(history, since, asOf, excluded))
  {
    var asOf := since + windowDays * DAY_MS;
    var from, dates := NextMidnight(since), Dates(history, since, asOf);
    var days := Days(from, asOf);
    hide GapDays, RoundDays, GapSum, SortedRows, Dates, InfersGaps, Silent;
    GapDaysIsSum(history, since, windowDays, excluded);
    WholeDays(since, windowDays);
    WindowLength(since, windowDays);
    DatesAscending(history, since, asOf);
    var inferred := InfersGaps(SortedRows(history, since, asOf), windowDays);
    var gone := if inferred then SilentOpen(dates, excluded) else NoDay();
    var kept := CountsFor(history, since, asOf, excluded);
    if inferred {
      DatesInferred(history, since, asOf);
      assert dates[0] in dates && dates[|dates| - 1] in dates;
      FirstMidnight(since, dates[0]);
      WindowGapCounts(dates, from, asOf, excluded);
    } else {
      CountNone(days, gone);
    }
    CountIsCardinality(from, asOf, excluded);
    forall k | Aligned(k) ensures since <= k < asOf <==> from <= k < asOf { if since <= k { FirstMidnight(since, k); } }
    assert (set k | k in excluded && since <= k < asOf) == (set k | k in excluded && from <= k < asOf);
    CountUnion(days, gone, Holds(excluded), Not(kept));
    CountComplement(days, kept, Not(kept));
  }

  lemma WholeDays(since: int, windowDays: nat)
    ensures RoundDays((since + windowDays * DAY_MS) - since) == windowDays
  {}

  lemma DatesInferred(history: seq<SalesPoint>, since: int, asOf: int)
    ensures InfersGaps(SortedRows(history, since, asOf), RoundDays(asOf - since)) ==> |Dates(history, since, asOf)| >= 2
  {}

  function Not(p: int -> bool): int -> bool { (k: int) => !p(k) }

  lemma FirstMidnight(t: int, k: int)
    requires Aligned(k) && t <= k
    ensures NextMidnight(t) <= k
  {
    if k < NextMidnight(t) { GapBetweenAligned(k, NextMidnight(t)); }
  }

  // ---------------------------------------------------------------- the rate

  datatype RateWindow = RateWindow(days: nat, weight: real)

  const RATE_WINDOWS: seq<RateWindow> := [RateWindow(30, 0.5), RateWindow(90, 0.3), RateWindow(365, 0.2)]

  function EffectiveDays(history: seq<SalesPoint>, asOf: int, days: nat, excluded: set<int>): int {
    var since := asOf - days * DAY_MS;
    var n := days - GapDays(history, since, asOf, excluded) - |set k | k in excluded && since <= k < asOf|;
    if n >= 1 then n else 1
  }

  function WindowRate(history: seq<SalesPoint>, asOf: int, days: nat, excluded: set<int>): real {
    Damp(WindowRows(history, asOf - days * DAY_MS, asOf, excluded)).units
    / EffectiveDays(history, asOf, days, excluded) as real
  }

  function WindowRateOn(history: seq<SalesPoint>, asOf: int, excluded: set<int>): nat -> real {
    (days: nat) => WindowRate(history, asOf, days, excluded)
  }

  function AddWeighted(sum: real, rate: real, weight: real): real { sum + rate * weight }

  /** The blend of a rate over windows. */
  function WeightedSum(windows: seq<RateWindow>, rate: nat -> real): real {
    if windows == [] then 0.0
    else
      var last := windows[|windows| - 1];
      AddWeighted(WeightedSum(windows[..|windows| - 1], rate), rate(last.days), last.weight)
  }

  lemma BlendOfNone(windows: seq<RateWindow>, rate: nat -> real)
    ensures WeightedSum(windows[..0], rate) == 0.0
  {}

  lemma WeightedStep(windows: seq<RateWindow>, i: nat, rate: nat -> real)
    requires i < |windows|
    ensures WeightedSum(windows[..i + 1], rate)
         == AddWeighted(WeightedSum(windows[..i], rate), rate(windows[i].days), windows[i].weight)
  {
    assert windows[..i + 1][..i] == windows[..i];
  }

  lemma BlendOf(windows: seq<RateWindow>, rate: nat -> real, x: nat, y: nat, z: nat)
    requires windows == [RateWindow(x, 0.5), RateWindow(y, 0.3), RateWindow(z, 0.2)]
    ensures WeightedSum(windows, rate) == rate(x) * 0.5 + rate(y) * 0.3 + rate(z) * 0.2
  {
    WeightedStep(windows, 0, rate);
    WeightedStep(windows, 1, rate);
    WeightedStep(windows, 2, rate);
    assert windows[..0] == [] && windows[..3] == windows;
  }

  /** Three windows weighted 0.5, 0.3 and 0.2 blend to something between bounds they share. */
  lemma BlendBetween(windows: seq<RateWindow>, rate: nat -> real, x: nat, y: nat, z: nat, low: real, high: real)
    requires windows == [RateWindow(x, 0.5), RateWindow(y, 0.3), RateWindow(z, 0.2)]
    requires low <= rate(x) <= high && low <= rate(y) <= high && low <= rate(z) <= high
    ensures low <= WeightedSum(windows, rate) <= high
  {
    BlendOf(windows, rate, x, y, z);
  }

  function WeightedRate(history: seq<SalesPoint>, asOf: int, excluded: set<int>): real {
    WeightedSum(RATE_WINDOWS, WindowRateOn(history, asOf, excluded))
  }

  function KeysOf(dates: seq<int>): set<int> { set i | 0 <= i < |dates| :: DayKey(dates[i]) }

  method ComputeWindowRate(history: seq<SalesPoint>, asOf: int, days: nat, excluded: set<int>) returns (rate: real)
    ensures rate == WindowRate(history, asOf, days, excluded)
  {
    var since := asOf - days * DAY_MS;
    var damped := ComputeDampedWindow(history, since, asOf, excluded);
    var gap := ComputeGapDays(history, since, asOf, excluded);
    var excludedDays := |set k | k in excluded && since <= k < asOf|;
    var effectiveDays := if days - gap - excludedDays >= 1 then days - gap - excludedDays else 1;
    rate := damped.units / effectiveDays as real;
  }

  method WeightedDailyRateAdjusted(history: seq<SalesPoint>, asOf: int, excludedDates: seq<int>)
    returns (weighted: real)
    ensures weighted == if history == [] then 0.0 else WeightedRate(history, asOf, KeysOf(excludedDates))
  {
    weighted := 0.0;
    if history == [] {
      return;
    }
    var excluded := KeysOf(excludedDates);
    for i := 0 to |RATE_WINDOWS|
      invariant weighted == WeightedSum(RATE_WINDOWS[..i], WindowRateOn(history, asOf, excluded))
    {
      var w := RATE_WINDOWS[i];
      var rate := ComputeWindowRate(history, asOf, w.days, excluded);
      WeightedStep(RATE_WINDOWS, i, WindowRateOn(history, asOf, excluded));
      weighted := AddWeighted(weighted, rate, w.weight);
    }
    assert RATE_WINDOWS[..|RATE_WINDOWS|] == RATE_WINDOWS;
  }

  /** `best` bounds the total of every non-excluded day of the longest window. */
  ghost predicate BestDay(history: seq<SalesPoint>, since: int, asOf: int, excluded: set<int>, best: real) {
    best >= 0.0 && forall k :: since <= k < asOf && k !in excluded ==> Total(history, k) <= best
  }

  lemma AlignedKeyIsDate(t: int)
    requires Aligned(t)
    ensures DayKey(t) == t
  {}

  /** A window's rows on a day are all of the day's rows, or none. */
  lemma WindowTotal(history: seq<SalesPoint>, since: int, asOf: int, excluded: set<int>, k: int)
    requires AlignedHistory(history)
    ensures Total(WindowRows(history, since, asOf, excluded), k)
         == if since <= k < asOf && k !in excluded then Total(history, k) else 0.0
  {
    FilterProperties(history, InWindow(since, asOf, excluded));
    if since <= k < asOf && k !in excluded {
      forall p | p in history && !InWindow(since, asOf, excluded)(p) ensures OnDay(k)(p) == 0.0 {
        var i :| 0 <= i < |history| && history[i] == p;
      }
      SumByFilter(history, InWindow(since, asOf, excluded), OnDay(k));
    } else {
      var rows := WindowRows(history, since, asOf, excluded);
      forall i | 0 <= i < |rows| ensures OnDay(k)(rows[i]) == 0.0 {
        assert rows[i] in rows;
        var j :| 0 <= j < |history| && history[j] == rows[i];
      }
      ZeroSum(rows, OnDay(k));
    }
  }

  lemma SaleDayCounts(history: seq<SalesPoint>, since: int, asOf: int, excluded: set<int>, k: int)
    requires AlignedHistory(history) && Total(WindowRows(history, since, asOf, excluded), k) > 0.0
    ensures k in Days(NextMidnight(since), asOf) && CountsFor(history, since, asOf, excluded)(k)
  {
    WindowTotal(history, since, asOf, excluded, k);
    HasRow(history, k);
    FirstMidnight(since, k);
    DayListed(NextMidnight(since), asOf, k);
    var i :| 0 <= i < |history| && history[i].date == k;
    DateListed(history, since, asOf, i);
    var dates := Dates(history, since, asOf);
    DatesAscending(history, since, asOf);
    var j :| 0 <= j < |dates| && dates[j] == k;
    SaleDayNotSilent(dates, j);
  }

  /** Every sale day of the damped window is a day that counts, so there are at most as many as
      the denominator. */
  lemma SaleDaysWithinDenominator(history: seq<SalesPoint>, asOf: int, days: nat, excluded: set<int>)
    requires AlignedHistory(history) && AlignedKeys(excluded)
    ensures |SaleDays(WindowRows(history, asOf - days * DAY_MS, asOf, excluded))|
      <= EffectiveDays(history, asOf, days, excluded)
  {
    hide GapDays, CountsFor, Days, SaleDays, WindowRows;
    var since := asOf - days * DAY_MS;
    var rows := WindowRows(history, since, asOf, excluded);
    var open := CountsFor(history, since, asOf, excluded);
    SaleTotalsPositive(rows);
    forall k | k in SaleDays(rows) ensures k in Days(NextMidnight(since), asOf) && open(k) {
      SaleDayCounts(history, since, asOf, excluded, k);
    }
    DistinctWithin(SaleDays(rows), Days(NextMidnight(since), asOf), open);
    DenominatorCountsOpenDays(history, since, days, excluded);
  }

  lemma HasRow(history: seq<SalesPoint>, k: int)
    requires AlignedHistory(history) && Total(history, k) > 0.0
    ensures Aligned(k) && exists i :: 0 <= i < |history| && history[i].date == k
  {
    if forall i :: 0 <= i < |history| ==> history[i].date != k {
      ZeroSum(history, OnDay(k));
    }
  }

  lemma QuotientBetween(units: real, best: real, n: nat, days: int)
    requires AtMostTimes(units, best, n) && best >= 0.0 && n <= days && days >= 1
    ensures units / days as real <= best
    ensures units >= 0.0 ==> units / days as real >= 0.0
  {
    var d := days as real;
    TimesMonotone(n as real, d, best);
    DivideMonotone(units, best * d, d);
  }

  /** When every sale day sells `best`, the rate stays at or below it exactly when there are no more sale
      days than days. */
  lemma EvenQuotient(units: real, best: real, n: nat, days: int)
    requires units == Multiple(best, n) && best > 0.0 && days >= 1
    ensures units / days as real <= best <==> n <= days
  {
    var d := days as real;
    if n <= days {
      TimesMonotone(n as real, d, best);
      DivideMonotone(units, best * d, d);
    } else {
      MoreTimes(best, d, n as real);
      Exceeds(units, best, d);
    }
  }

  lemma MoreTimes(x: real, a: real, b: real)
    requires x > 0.0 && a < b
    ensures x * a < x * b
  {
    assert x * (b - a) > 0.0;
  }

  lemma Exceeds(units: real, best: real, d: real)
    requires d > 0.0 && units > best * d
    ensures units / d > best
  {
    var q := units / d;
    assert q * d == units;
    if q <= best { TimesMonotone(q, best, d); }
  }

  ghost predicate NoNetReturns(history: seq<SalesPoint>) { forall k :: Total(history, k) >= 0.0 }

  lemma WindowRateBetween(history: seq<SalesPoint>, asOf: int, days: nat, excluded: set<int>, best: real)
    requires AlignedHistory(history) && AlignedKeys(excluded)
    requires BestDay(history, asOf - days * DAY_MS, asOf, excluded, best)
    ensures WindowRate(history, asOf, days, excluded) <= best
    ensures NoNetReturns(history) ==> WindowRate(history, asOf, days, excluded) >= 0.0
  {
    hide Total, WindowRows, GapDays, AtMostTimes, SaleDays, AlignedHistory;
    var since := asOf - days * DAY_MS;
    var rows := WindowRows(history, since, asOf, excluded);
    forall k ensures Total(rows, k) <= best && (NoNetReturns(history) ==> Total(rows, k) >= 0.0) {
      WindowTotal(history, since, asOf, excluded, k);
    }
    UnitsBounds(rows, best);
    SaleDaysWithinDenominator(history, asOf, days, excluded);
    QuotientBetween(Damp(rows).units, best, |SaleDays(rows)|, EffectiveDays(history, asOf, days, excluded));
  }

  /** The adjusted rate never exceeds the best non-excluded day of the year, and is not negative
      when no day sold less than nothing. */
  lemma AdjustedRateBetween(history: seq<SalesPoint>, asOf: int, excluded: set<int>, best: real)
    requires AlignedHistory(history) && AlignedKeys(excluded)
    requires BestDay(history, asOf - 365 * DAY_MS, asOf, excluded, best)
    ensures WeightedRate(history, asOf, excluded) <= best
    ensures NoNetReturns(history) ==> WeightedRate(history, asOf, excluded) >= 0.0
  {
    WindowRateBetween(history, asOf, 30, excluded, best);
    WindowRateBetween(history, asOf, 90, excluded, best);
    WindowRateBetween(history, asOf, 365, excluded, best);
    var rate := WindowRateOn(history, asOf, excluded);
    BlendBetween(RATE_WINDOWS, rate, 30, 90, 365, Min(rate(30), Min(rate(90), rate(365))), best);
    if NoNetReturns(history) { BlendBetween(RATE_WINDOWS, rate, 30, 90, 365, 0.0, best); }
  }
}
