/** The weekly-median baseline: `weightedDailyRateMedianCensored` and `effectiveWindowDays` of
    packages/forecast/src/baseline.ts. */
module WeeklyMedian {
  import opened AdjustedRate
  import opened DampedWindow
  import opened DayRange
  import opened DaySeries
  import opened Numbers
  import opened OrderStatistics
  import opened Sorting
  import opened Wrappers

  const MEDIAN_BUCKET_DAYS := 7
  const MIN_WEEKS := 4
  const MIN_BUCKET_EXPOSURE := 3

  const MEDIAN_WINDOWS: seq<RateWindow> := [RateWindow(56, 0.5), RateWindow(182, 0.3), RateWindow(364, 0.2)]

  // ---------------------------------------------------------------- effective days

  datatype Signal = Signal(inStockDays: int, saleDays: int)

  /** At least two sale days, on at least 60% of the in-stock days. */
  predicate Consistent(signal: Option<Signal>) {
    && signal.Some? && signal.value.inStockDays > 0 && signal.value.saleDays >= 2
    && signal.value.saleDays as real / signal.value.inStockDays as real >= 0.6
  }

  /** The denominator is never below the in-stock days, and above them only up to a floor: a week, or
      three days when the in-stock days sold consistently, or the window if that is shorter. */
  function EffectiveWindowDays(windowDays: int, stockoutDays: int, signal: Option<Signal>): (days: int)
    ensures days >= windowDays - stockoutDays
    ensures windowDays >= 1 ==> days >= 1
    ensures windowDays >= 7 && !Consistent(signal) ==> days >= 7
    ensures windowDays >= 7 && Consistent(signal) ==> days >= 3
    ensures days > windowDays - stockoutDays ==> days <= windowDays && days <= if Consistent(signal) then 3 else 7
  {
    var inStock := windowDays - stockoutDays;
    MaxInt(inStock, MinInt(if Consistent(signal) then 3 else 7, windowDays))
  }

  /** The 60% rule without the division. */
  lemma ConsistentMeans(signal: Signal)
    ensures Consistent(Some(signal)) <==>
              signal.inStockDays > 0 && signal.saleDays >= 2 && 10 * signal.saleDays >= 6 * signal.inStockDays
  {
    if signal.inStockDays > 0 {
      var q, d := signal.saleDays as real / signal.inStockDays as real, signal.inStockDays as real;
      assert q * d == signal.saleDays as real;
      if q >= 0.6 { TimesMonotone(0.6, q, d); } else { TimesMonotone(q, 0.6, d); assert (0.6 - q) * d > 0.0; }
    }
  }

  // ---------------------------------------------------------------- open days

  /** What decides whether a day of a window is exposed: a non-excluded day that sold is; any
      other non-excluded day is unless a snapshot or an inferred silence says it was out. */
  datatype Evidence = Evidence(rows: seq<SalesPoint>, excluded: set<int>, stockouts: set<int>, silences: seq<int>)

  ghost function Exposed(e: Evidence): int -> bool {
    (k: int) => k !in e.excluded && (Total(e.rows, k) > 0.0 || (k !in e.stockouts && !Silent(e.silences, k)))
  }

  /** What `blocked` holds over `before`: the midnights strictly between two instants. */
  method BlockBetween(left: int, right: int, before: set<int>) returns (blocked: set<int>)
    requires Aligned(left) && Aligned(right) && left < right
    ensures forall k :: Aligned(k) ==> (k in blocked <==> k in before || left < k < right)
  {
    blocked := before;
    var key := left + DAY_MS;
    GapBetweenAligned(left, right);
    forall k | Aligned(k) && left < k < key ensures false { GapBetweenAligned(left, k); }
    while key < right
      invariant Aligned(key) && left < key <= right
      invariant forall k :: Aligned(k) ==> (k in blocked <==> k in before || left < k < key)
    {
      forall k | Aligned(k) && left < k < key + DAY_MS ensures left < k < key || k == key {
        if k > key { GapBetweenAligned(key, k); }
      }
      GapBetweenAligned(key, right);
      blocked := blocked + {key};
      key := key + DAY_MS;
    }
  }

  /** Taking in one more sale date adds the days since the date before it, if they are many. */
  lemma SilenceStep(dates: seq<int>, i: nat, k: int)
    requires AlignedAscending(dates) && 0 < i < |dates|
    ensures Silent(dates[..i + 1], k) <==>
              Silent(dates[..i], k) || (dates[i] - dates[i - 1] > MIN_GAP * DAY_MS && dates[i - 1] < k < dates[i])
  {
    var next, seen := dates[..i + 1], dates[..i];
    assert next[..i] == seen;
    SilentBeforeLast(next, k);
    SilentOnlyBetween(next, k);
    SilentOnlyBetween(seen, k);
  }

  /** Blocks the midnights strictly inside every silence of more than seven days. */
  method BlockSilences(dates: seq<int>, before: set<int>) returns (blocked: set<int>)
    requires AlignedAscending(dates) && dates != []
    ensures forall k :: Aligned(k) ==> (k in blocked <==> k in before || Silent(dates, k))
  {
    blocked := before;
    for i := 1 to |dates|
      invariant forall k :: Aligned(k) ==> (k in blocked <==> k in before || Silent(dates[..i], k))
    {
      var left, right := dates[i - 1], dates[i];
      ghost var seen, next := dates[..i], dates[..i + 1];
      forall k ensures Silent(next, k) <==> Silent(seen, k) || (right - left > MIN_GAP * DAY_MS && left < k < right) {
        SilenceStep(dates, i, k);
      }
      LongGap(left, right);
      if (right - left) / DAY_MS > MIN_GAP {
        blocked := BlockBetween(left, right, blocked);
      }
    }
    assert dates[..|dates|] == dates;
  }

  lemma LongGap(left: int, right: int)
    requires Aligned(left) && Aligned(right) && left <= right
    ensures (right - left) / DAY_MS > MIN_GAP <==> right - left > MIN_GAP * DAY_MS
    ensures (right - left) / DAY_MS > MIN_GAP ==> Aligned(left + DAY_MS) && left + DAY_MS <= right
  {}

  lemma SilentOnlyBetween(dates: seq<int>, k: int)
    requires AlignedAscending(dates)
    ensures Silent(dates, k) ==> dates != [] && dates[0] < k < dates[|dates| - 1]
  {}

  // ---------------------------------------------------------------- the weeks

  /** A bucket ends at `end` and is seven days long unless the window starts later. */
  function BucketStart(start: int, end: int): int { MaxInt(start, end - MEDIAN_BUCKET_DAYS * DAY_MS) }

  ghost function WeekRates(start: int, end: int, open: int -> bool, total: int -> real): seq<real>
    decreases end - start
  {
    if end <= start then []
    else
      var from := if start < end - 7 * DAY_MS then end - 7 * DAY_MS else start;
      (if CountIf(Days(from, end), open) >= 3 then [WeekRate(from, end, open, total)] else [])
      + WeekRates(start, from, open, total)
  }

  ghost function WeekRate(from: int, end: int, open: int -> bool, total: int -> real): real
    requires CountIf(Days(from, end), open) > 0
  {
    Average(SumBy(Filter(Days(from, end), open), total), CountIf(Days(from, end), open))
  }

  function Average(units: real, days: nat): real
    requires days > 0
  {
    Max(0.0, units / days as real)
  }

  lemma NoDays(from: int, open: int -> bool, total: int -> real)
    ensures CountIf(Days(from, from), open) == 0 && SumBy(Filter(Days(from, from), open), total) == 0.0
  {}

  lemma NextDay(from: int, key: int, open: int -> bool, total: int -> real)
    requires Aligned(from) && Aligned(key) && from <= key
    ensures CountIf(Days(from, key + DAY_MS), open) == CountIf(Days(from, key), open) + (if open(key) then 1 else 0)
    ensures SumBy(Filter(Days(from, key + DAY_MS), open), total)
         == SumBy(Filter(Days(from, key), open), total) + (if open(key) then total(key) else 0.0)
  {
    DaysSplit(from, key, key + DAY_MS);
    assert Days(key, key + DAY_MS) == [key] && [key][1..] == [];
    CountIfConcat(Days(from, key), [key], open);
    FilterConcat(Days(from, key), [key], open);
    SumByConcat(Filter(Days(from, key), open), Filter([key], open), total);
    assert open(key) ==> Filter([key], open) == [key];
  }

  /** One week: its exposed days and the units they sold. */
  method BucketTotals(from: int, end: int, blocked: set<int>, byDay: map<int, real>, ghost open: int -> bool,
                      ghost total: int -> real)
    returns (days: nat, units: real)
    requires Aligned(from) && Aligned(end) && from <= end
    requires forall k :: from <= k < end && Aligned(k) ==> (k !in blocked <==> open(k))
    requires forall k :: from <= k < end && Aligned(k) ==> total(k) == if k in byDay then byDay[k] else 0.0
    ensures days == CountIf(Days(from, end), open)
    ensures units == SumBy(Filter(Days(from, end), open), total)
  {
    NoDays(from, open, total);
    hide CountIf, Days, Filter, SumBy;
    days, units := 0, 0.0;
    var key := from;
    while key < end
      invariant Aligned(key) && from <= key <= end
      invariant days == CountIf(Days(from, key), open)
      invariant units == SumBy(Filter(Days(from, key), open), total)
    {
      NextDay(from, key, open, total);
      GapBetweenAligned(key, end);
      if key !in blocked {
        days := days + 1;
        units := units + if key in byDay then byDay[key] else 0.0;
      }
      key := key + DAY_MS;
    }
  }

  /** The seven-day buckets from the end of the window partition it. */
  method WeeklyRates(start: int, end: int, blocked: set<int>, byDay: map<int, real>, ghost open: int -> bool,
                     ghost total: int -> real)
    returns (weeks: seq<real>, exposure: nat)
    requires Aligned(start) && Aligned(end) && start <= end
    requires forall k :: start <= k < end && Aligned(k) ==> (k !in blocked <==> open(k))
    requires forall k :: start <= k < end && Aligned(k) ==> total(k) == if k in byDay then byDay[k] else 0.0
    ensures weeks == WeekRates(start, end, open, total)
    ensures exposure == CountIf(Days(start, end), open)
  {
    NoDays(start, open, total);
    hide CountIf, Days, Filter, SumBy;
    weeks, exposure := [], 0;
    var bucketEnd := end;
    while bucketEnd > start
      invariant Aligned(bucketEnd) && start <= bucketEnd <= end
      invariant weeks + WeekRates(start, bucketEnd, open, total) == WeekRates(start, end, open, total)
      invariant exposure + CountIf(Days(start, bucketEnd), open) == CountIf(Days(start, end), open)
    {
      var bucketStart := BucketStart(start, bucketEnd);
      var days, units := BucketTotals(bucketStart, bucketEnd, blocked, byDay, open, total);
      DaysSplit(start, bucketStart, bucketEnd);
      CountIfConcat(Days(start, bucketStart), Days(bucketStart, bucketEnd), open);
      exposure := exposure + days;
      if days >= MIN_BUCKET_EXPOSURE {
        ghost var week := [WeekRate(bucketStart, bucketEnd, open, total)];
        assert weeks + (week + WeekRates(start, bucketStart, open, total))
          == (weeks + week) + WeekRates(start, bucketStart, open, total);
        weeks := weeks + [Average(units, days)];
      } else {
        assert [] + WeekRates(start, bucketStart, open, total) == WeekRates(start, bucketStart, open, total);
      }
      bucketEnd := bucketStart;
    }
    assert weeks + [] == weeks;
  }

  // ---------------------------------------------------------------- one window

  function BeforeDay(asOf: int): SalesPoint -> bool {
    (p: SalesPoint) => p.date < asOf && DayKey(p.date) < DayKey(asOf)
  }

  /** The rows of completed days. */
  function ValidRows(history: seq<SalesPoint>, asOf: int): seq<SalesPoint> { Filter(history, BeforeDay(asOf)) }

  function KeyBetween(start: int, end: int): SalesPoint -> bool { (p: SalesPoint) => start <= DayKey(p.date) < end }

  function KeyOf(): SalesPoint -> int { (p: SalesPoint) => DayKey(p.date) }

  function UnknownRows(valid: seq<SalesPoint>, start: int, inferenceEnd: int): seq<SalesPoint> {
    Sort(Filter(valid, KeyBetween(start, inferenceEnd)), ByDate())
  }

  /** Snapshots end the stretch in which silences are inferred; so do proven stockouts. */
  function InferenceEnd(start: int, end: int, hasStockouts: bool, snapshotsSince: Option<int>): int {
    if snapshotsSince.Some? then MinInt(end, DayKey(snapshotsSince.value)) else if hasStockouts then start else end
  }

  /** At least two sales in the uncovered stretch, at half a unit a day or more. */
  predicate Infers(unknown: seq<SalesPoint>, unknownDays: int) {
    |unknown| >= 2 && unknownDays > 0 && SumBy(unknown, QuantityOf()) / unknownDays as real >= 0.5
  }

  lemma SilenceMeans(unknown: seq<SalesPoint>, unknownDays: int)
    ensures Infers(unknown, unknownDays) <==>
              |unknown| >= 2 && unknownDays >= 1 && 2.0 * SumBy(unknown, QuantityOf()) >= unknownDays as real
  {
    if unknownDays >= 1 { HalfADay(SumBy(unknown, QuantityOf()), unknownDays as real); }
  }

  /** The days with sales between which silences are inferred. */
  function SilenceDates(valid: seq<SalesPoint>, start: int, inferenceEnd: int): seq<int> {
    var unknown := UnknownRows(valid, start, inferenceEnd);
    if Infers(unknown, (inferenceEnd - start) / DAY_MS) then Map(unknown, KeyOf()) else []
  }

  function SpanDays(start: int, end: int): int { MaxInt(1, (end - start) / DAY_MS) }

  function MeanRate(damped: Damped, span: int, exposure: int): real
    requires span >= 1
  {
    Max(0.0, damped.units) / EffectiveWindowDays(span, span - exposure, Some(Signal(exposure, damped.saleDays))) as real
  }

  function ChooseRate(weeks: seq<real>, units: real, mean: real): real {
    if |weeks| >= MIN_WEEKS && (Median(weeks) > 0.0 || units <= 0.0) then Median(weeks) else mean
  }

  ghost function WindowBaseline(e: Evidence, start: int, end: int): real {
    var damped := Damp(WindowRows(e.rows, start, end, e.excluded));
    ChooseRate(WeekRates(start, end, Exposed(e), TotalOn(e.rows)), damped.units,
               MeanRate(damped, SpanDays(start, end), CountIf(Days(start, end), Exposed(e))))
  }

  lemma KeyBounds(t: int)
    ensures Aligned(DayKey(t)) && DayKey(t) <= t < DayKey(t) + DAY_MS
    ensures forall b :: Aligned(b) ==> (b <= DayKey(t) <==> b <= t) && (DayKey(t) < b <==> t < b)
  {
    forall b | Aligned(b) ensures (b <= DayKey(t) <==> b <= t) && (DayKey(t) < b <==> t < b) {
      if DayKey(t) < b { GapBetweenAligned(DayKey(t), b); }
    }
  }

  /** Between midnights a window holds whole days. */
  lemma MidnightWindowTotal(rows: seq<SalesPoint>, start: int, end: int, excluded: set<int>, k: int)
    requires Aligned(start) && Aligned(end)
    ensures Total(WindowRows(rows, start, end, excluded), k)
         == if start <= k < end && k !in excluded then Total(rows, k) else 0.0
  {
    forall p: SalesPoint ensures start <= DayKey(p.date) < end <==> start <= p.date < end { KeyBounds(p.date); }
    if start <= k < end && k !in excluded {
      SumByFilter(rows, InWindow(start, end, excluded), OnDay(k));
    } else {
      var kept := WindowRows(rows, start, end, excluded);
      FilterProperties(rows, InWindow(start, end, excluded));
      forall i | 0 <= i < |kept| ensures OnDay(k)(kept[i]) == 0.0 { assert kept[i] in kept; }
      ZeroSum(kept, OnDay(k));
    }
  }

  lemma UnknownRowsMembers(valid: seq<SalesPoint>, start: int, inferenceEnd: int)
    ensures SortedBy(UnknownRows(valid, start, inferenceEnd), ByDate())
    ensures forall p :: p in UnknownRows(valid, start, inferenceEnd)
              <==> p in valid && start <= DayKey(p.date) < inferenceEnd
  {
    var kept, unknown := Filter(valid, KeyBetween(start, inferenceEnd)), UnknownRows(valid, start, inferenceEnd);
    FilterProperties(valid, KeyBetween(start, inferenceEnd));
    SortProperties(kept, ByDate());
    forall p ensures p in unknown <==> p in kept { assert p in multiset(unknown) <==> p in multiset(kept); }
  }

  /** Silences are looked for among the valid rows of the window that no snapshot covers: those before the
      day of the first one or, without snapshots, all of them when no stockout is listed and none otherwise. */
  lemma UncoveredRows(valid: seq<SalesPoint>, start: int, end: int, hasStockouts: bool, snapshotsSince: Option<int>,
                      p: SalesPoint)
    ensures p in UnknownRows(valid, start, InferenceEnd(start, end, hasStockouts, snapshotsSince)) <==>
              && p in valid && start <= DayKey(p.date)
              && match snapshotsSince
                 case Some(t) => DayKey(p.date) < end && DayKey(p.date) < DayKey(t)
                 case None => !hasStockouts && DayKey(p.date) < end
  {
    hide UnknownRows, DayKey;
    UnknownRowsMembers(valid, start, InferenceEnd(start, end, hasStockouts, snapshotsSince));
  }

  lemma KeyMonotone(s: int, t: int)
    requires s <= t
    ensures DayKey(s) <= DayKey(t)
  {
    KeyBounds(s);
    KeyBounds(t);
  }

  lemma SilenceDatesAscending(valid: seq<SalesPoint>, start: int, inferenceEnd: int)
    ensures AlignedAscending(SilenceDates(valid, start, inferenceEnd))
    ensures forall d :: d in SilenceDates(valid, start, inferenceEnd) ==> start <= d < inferenceEnd
  {
    hide Infers, UnknownRows, DayKey;
    var unknown := UnknownRows(valid, start, inferenceEnd);
    UnknownRowsMembers(valid, start, inferenceEnd);
    var dates := Map(unknown, KeyOf());
    forall i | 0 <= i < |unknown| ensures Aligned(dates[i]) && start <= dates[i] < inferenceEnd {
      assert unknown[i] in unknown;
      KeyBounds(unknown[i].date);
    }
    forall i, j | 0 <= i < j < |unknown| ensures dates[i] <= dates[j] {
      assert ByDate()(unknown[i], unknown[j]);
      KeyMonotone(unknown[i].date, unknown[j].date);
    }
  }

  /** A day that sold something and is not excluded counts as exposed whatever a snapshot says. */
  method UnblockSold(keys: seq<int>, byDay: map<int, real>, excluded: set<int>, before: set<int>)
    returns (blocked: set<int>)
    requires byDay.Keys == set k | k in keys
    ensures forall k :: k in blocked <==> k in before && !(k in byDay && byDay[k] > 0.0 && k !in excluded)
  {
    blocked := before;
    for i := 0 to |keys|
      invariant forall k ::
        k in blocked <==> k in before && !(k in keys[..i] && k in byDay && byDay[k] > 0.0 && k !in excluded)
    {
      assert keys[..i + 1] == keys[..i] + [keys[i]];
      assert keys[i] in byDay.Keys;
      if byDay[keys[i]] > 0.0 && keys[i] !in excluded {
        blocked := blocked - {keys[i]};
      }
    }
    assert keys[..|keys|] == keys;
  }

  method BlockedDays(valid: seq<SalesPoint>, start: int, end: int, inferenceEnd: int, excluded: set<int>,
                     stockouts: set<int>)
    returns (blocked: set<int>, byDay: map<int, real>)
    requires Aligned(start) && Aligned(end)
    ensures var e := Evidence(valid, excluded, stockouts, SilenceDates(valid, start, inferenceEnd));
      forall k :: start <= k < end && Aligned(k) ==> (k !in blocked <==> Exposed(e)(k))
    ensures forall k :: start <= k < end ==> Total(valid, k) == if k in byDay then byDay[k] else 0.0
  {
    var keys;
    keys, byDay := BucketByDay(valid, start, end, {});
    ghost var rows := WindowRows(valid, start, end, {});
    forall k | start <= k < end ensures Total(valid, k) == if k in byDay then byDay[k] else 0.0 {
      MidnightWindowTotal(valid, start, end, {}, k);
      if k !in keys { NoRowsNoTotal(rows, k); }
    }
    blocked := excluded + stockouts;
    var unknown := UnknownRows(valid, start, inferenceEnd);
    SilenceDatesAscending(valid, start, inferenceEnd);
    if Infers(unknown, (inferenceEnd - start) / DAY_MS) {
      blocked := BlockSilences(Map(unknown, KeyOf()), blocked);
    }
    blocked := UnblockSold(keys, byDay, excluded, blocked);
  }

  // ---------------------------------------------------------------- the blend

  function FirstKey(rows: seq<SalesPoint>, end: int): int {
    if rows == [] then end else MinInt(FirstKey(rows[..|rows| - 1], end), DayKey(rows[|rows| - 1].date))
  }

  function WindowStart(first: int, end: int, days: nat): int { MaxInt(first, end - days * DAY_MS) }

  ghost function EvidenceFor(valid: seq<SalesPoint>, start: int, end: int, stockoutDates: seq<int>,
                             excludedDates: seq<int>, snapshotsSince: Option<int>): Evidence {
    Evidence(valid, KeysOf(excludedDates), KeysOf(stockoutDates),
             SilenceDates(valid, start, InferenceEnd(start, end, stockoutDates != [], snapshotsSince)))
  }

  ghost function BaselineFor(valid: seq<SalesPoint>, end: int, days: nat, stockoutDates: seq<int>,
                             excludedDates: seq<int>, snapshotsSince: Option<int>): real {
    var start := WindowStart(FirstKey(valid, end), end, days);
    WindowBaseline(EvidenceFor(valid, start, end, stockoutDates, excludedDates, snapshotsSince), start, end)
  }

  ghost function BaselineOn(valid: seq<SalesPoint>, end: int, stockoutDates: seq<int>, excludedDates: seq<int>,
                            snapshotsSince: Option<int>): nat -> real {
    (days: nat) => BaselineFor(valid, end, days, stockoutDates, excludedDates, snapshotsSince)
  }

  ghost function Blend(valid: seq<SalesPoint>, end: int, stockoutDates: seq<int>, excludedDates: seq<int>,
                       snapshotsSince: Option<int>): real {
    WeightedSum(MEDIAN_WINDOWS, BaselineOn(valid, end, stockoutDates, excludedDates, snapshotsSince))
  }

  method ComputeBaseline(valid: seq<SalesPoint>, first: int, end: int, days: nat, stockoutDates: seq<int>,
                         excludedDates: seq<int>, snapshotsSince: Option<int>)
    returns (rate: real)
    requires Aligned(end) && Aligned(first) && first <= end && first == FirstKey(valid, end)
    ensures rate == BaselineFor(valid, end, days, stockoutDates, excludedDates, snapshotsSince)
  {
    hide MeanRate, ChooseRate, SilenceDates, InferenceEnd, Damp, WindowRows, Total, Exposed, Silent, KeysOf;
    var start := WindowStart(first, end, days);
    var inferenceEnd := InferenceEnd(start, end, stockoutDates != [], snapshotsSince);
    var excluded, stockouts := KeysOf(excludedDates), KeysOf(stockoutDates);
    ghost var e := EvidenceFor(valid, start, end, stockoutDates, excludedDates, snapshotsSince);
    var blocked, byDay := BlockedDays(valid, start, end, inferenceEnd, excluded, stockouts);
    var weeks, exposure := WeeklyRates(start, end, blocked, byDay, Exposed(e), TotalOn(valid));
    var damped := ComputeDampedWindow(valid, start, end, excluded);
    rate := ChooseRate(weeks, damped.units, MeanRate(damped, SpanDays(start, end), exposure));
  }

  method FirstDay(rows: seq<SalesPoint>, end: int) returns (first: int)
    requires Aligned(end)
    ensures first == FirstKey(rows, end) && first <= end && Aligned(first)
  {
    first := end;
    for i := 0 to |rows|
      invariant first == FirstKey(rows[..i], end) && first <= end && Aligned(first)
    {
      KeyBounds(rows[i].date);
      assert rows[..i + 1][..i] == rows[..i];
      first := MinInt(first, DayKey(rows[i].date));
    }
    assert rows[..|rows|] == rows;
  }

  method WeightedDailyRateMedianCensored(history: seq<SalesPoint>, stockoutDates: seq<int>, asOf: int,
                                         excludedDates: seq<int>, snapshotsSince: Option<int>)
    returns (result: real)
    ensures var valid := ValidRows(history, asOf);
      result == if valid == [] then 0.0 else Blend(valid, DayKey(asOf), stockoutDates, excludedDates, snapshotsSince)
  {
    var end := DayKey(asOf);
    var valid := ValidRows(history, asOf);
    result := 0.0;
    if valid == [] {
      return;
    }
    KeyBounds(asOf);
    var first := FirstDay(valid, end);
    result := BlendWindows(valid, first, end, stockoutDates, excludedDates, snapshotsSince);
  }

  lemma BaselineAt(valid: seq<SalesPoint>, end: int, stockoutDates: seq<int>, excludedDates: seq<int>,
                   snapshotsSince: Option<int>, days: nat)
    ensures BaselineOn(valid, end, stockoutDates, excludedDates, snapshotsSince)(days)
         == BaselineFor(valid, end, days, stockoutDates, excludedDates, snapshotsSince)
  {}

  method BlendWindows(valid: seq<SalesPoint>, first: int, end: int, stockoutDates: seq<int>, excludedDates: seq<int>,
                      snapshotsSince: Option<int>)
    returns (result: real)
    requires Aligned(end) && Aligned(first) && first <= end && first == FirstKey(valid, end)
    ensures result == Blend(valid, end, stockoutDates, excludedDates, snapshotsSince)
  {
    hide WeightedSum, AddWeighted, BaselineFor, BaselineOn, FirstKey;
    result := 0.0;
    ghost var baseline := BaselineOn(valid, end, stockoutDates, excludedDates, snapshotsSince);
    var windows := MEDIAN_WINDOWS;
    BlendOfNone(windows, baseline);
    for i := 0 to |windows|
      invariant result == WeightedSum(windows[..i], baseline)
    {
      var w := windows[i];
      var rate := ComputeBaseline(valid, first, end, w.days, stockoutDates, excludedDates, snapshotsSince);
      BaselineAt(valid, end, stockoutDates, excludedDates, snapshotsSince, w.days);
      WeightedStep(windows, i, baseline);
      result := AddWeighted(result, rate, w.weight);
    }
    assert windows[..|windows|] == windows;
  }

  // ---------------------------------------------------------------- the bound

  lemma AverageBetween(units: real, days: nat, best: real)
    requires days > 0 && best >= 0.0 && AtMostTimes(units, best, days)
    ensures 0.0 <= Average(units, days) <= best
  {
    QuotientBetween(units, best, days, days);
  }

  lemma {:induction false} SumWithin(days: seq<int>, open: int -> bool, total: int -> real, best: real)
    requires forall i :: 0 <= i < |days| && open(days[i]) ==> total(days[i]) <= best
    ensures AtMostTimes(SumBy(Filter(days, open), total), best, CountIf(days, open))
  {
    if days == [] {
    } else {
      SumWithin(days[1..], open, total, best);
      var rest := Filter(days[1..], open);
      OneMore(SumBy(rest, total), total(days[0]), best, CountIf(days[1..], open));
      assert ([days[0]] + rest)[1..] == rest && [] + rest == rest;
    }
  }

  /** A weekly average never exceeds the best exposed day. */
  lemma {:induction false} WeekRatesBetween(start: int, end: int, open: int -> bool, total: int -> real, best: real)
    requires Aligned(start) && Aligned(end) && best >= 0.0
    requires forall k :: start <= k < end && open(k) ==> total(k) <= best
    ensures forall i ::
      0 <= i < |WeekRates(start, end, open, total)| ==> 0.0 <= WeekRates(start, end, open, total)[i] <= best
    decreases end - start
  {
    if start >= end {
    } else {
      var from := BucketStart(start, end);
      WeekRatesBetween(start, from, open, total, best);
      var days := Days(from, end);
      if CountIf(days, open) >= MIN_BUCKET_EXPOSURE {
        forall i | 0 <= i < |days| && open(days[i]) ensures total(days[i]) <= best { DaysMember(from, end, i); }
        SumWithin(days, open, total, best);
        AverageBetween(SumBy(Filter(days, open), total), CountIf(days, open), best);
      }
    }
  }

  lemma MedianBetween(s: seq<real>, best: real)
    requires best >= 0.0 && forall i :: 0 <= i < |s| ==> 0.0 <= s[i] <= best
    ensures 0.0 <= Median(s) <= best
  {
    var sorted := Sort(s, Ascending());
    forall k | 0 <= k < |s| ensures 0.0 <= sorted[k] <= best {
      OrderStatistic(s, k, sorted[k]);
      if sorted[k] < 0.0 { CountNone(s, AtMost(sorted[k])); }
      if sorted[k] > best { CountAll(s, Below(sorted[k])); }
    }
  }

  /** Every sale day of the damped window is exposed. */
  lemma SaleDaysExposed(e: Evidence, start: int, end: int)
    requires Aligned(start) && Aligned(end)
    ensures |SaleDays(WindowRows(e.rows, start, end, e.excluded))| <= CountIf(Days(start, end), Exposed(e))
  {
    var rows := WindowRows(e.rows, start, end, e.excluded);
    SaleTotalsPositive(rows);
    forall k | k in SaleDays(rows) ensures k in Days(start, end) && Exposed(e)(k) {
      MidnightWindowTotal(e.rows, start, end, e.excluded, k);
      TotalOnlyOnMidnights(e.rows, k);
      DayListed(start, end, k);
    }
    DistinctWithin(SaleDays(rows), Days(start, end), Exposed(e));
  }

  lemma TotalOnlyOnMidnights(rows: seq<SalesPoint>, k: int)
    requires Total(rows, k) != 0.0
    ensures Aligned(k)
  {
    if !Aligned(k) { ZeroSum(rows, OnDay(k)); }
  }

  lemma NonNegativePart(units: real, best: real, n: nat)
    requires best >= 0.0 && AtMostTimes(units, best, n)
    ensures AtMostTimes(Max(0.0, units), best, n)
  {
    assert best * n as real >= 0.0;
  }

  /** The exposure mean is at most the best day: no more sale days than exposed days. */
  lemma MeanBetween(damped: Damped, span: int, exposure: int, best: real)
    requires span >= 1 && best >= 0.0
    requires AtMostTimes(damped.units, best, damped.saleDays) && damped.saleDays <= exposure
    ensures 0.0 <= MeanRate(damped, span, exposure) <= best
  {
    var days := EffectiveWindowDays(span, span - exposure, Some(Signal(exposure, damped.saleDays)));
    assert days >= 1 && damped.saleDays <= exposure <= days;
    NonNegativePart(damped.units, best, damped.saleDays);
    hide AtMostTimes, EffectiveWindowDays;
    QuotientBetween(Max(0.0, damped.units), best, damped.saleDays, days);
  }

  lemma WindowBaselineBetween(e: Evidence, start: int, end: int, best: real)
    requires Aligned(start) && Aligned(end)
    requires BestDay(e.rows, start, end, e.excluded, best)
    ensures 0.0 <= WindowBaseline(e, start, end) <= best
  {
    var rows := WindowRows(e.rows, start, end, e.excluded);
    forall k ensures Total(rows, k) <= best { MidnightWindowTotal(e.rows, start, end, e.excluded, k); }
    UnitsBounds(rows, best);
    SaleDaysExposed(e, start, end);
    MeanBetween(Damp(rows), SpanDays(start, end), CountIf(Days(start, end), Exposed(e)), best);
    WeekRatesBetween(start, end, Exposed(e), TotalOn(e.rows), best);
    MedianBetween(WeekRates(start, end, Exposed(e), TotalOn(e.rows)), best);
  }

  lemma {:induction false} FirstKeyAligned(rows: seq<SalesPoint>, end: int)
    requires Aligned(end)
    ensures Aligned(FirstKey(rows, end)) && FirstKey(rows, end) <= end
  {
    if rows == [] {
    } else {
      FirstKeyAligned(rows[..|rows| - 1], end);
      KeyBounds(rows[|rows| - 1].date);
    }
  }

  lemma ValidTotal(history: seq<SalesPoint>, asOf: int, k: int)
    requires k < DayKey(asOf)
    ensures Total(ValidRows(history, asOf), k) == Total(history, k)
  {
    KeyBounds(asOf);
    forall p: SalesPoint | !BeforeDay(asOf)(p) ensures OnDay(k)(p) == 0.0 { KeyBounds(p.date); }
    SumByFilter(history, BeforeDay(asOf), OnDay(k));
  }

  lemma OneWindowBetween(history: seq<SalesPoint>, asOf: int, days: nat, stockoutDates: seq<int>,
                         excludedDates: seq<int>, snapshotsSince: Option<int>, best: real)
    requires BestDay(history, DayKey(asOf) - days * DAY_MS, DayKey(asOf), KeysOf(excludedDates), best)
    ensures
      var valid, end := ValidRows(history, asOf), DayKey(asOf);
      0.0 <= BaselineFor(valid, end, days, stockoutDates, excludedDates, snapshotsSince) <= best
  {
    hide Total, ValidRows, WindowBaseline, SilenceDates, InferenceEnd, DayKey;
    var valid, end := ValidRows(history, asOf), DayKey(asOf);
    KeyBounds(asOf);
    FirstKeyAligned(valid, end);
    var start := WindowStart(FirstKey(valid, end), end, days);
    forall k | start <= k < end && k !in KeysOf(excludedDates)
      ensures Total(valid, k) <= best
    {
      ValidTotal(history, asOf, k);
    }
    WindowBaselineBetween(EvidenceFor(valid, start, end, stockoutDates, excludedDates, snapshotsSince), start, end,
      best);
  }

  /** The weekly-median baseline lies between nothing and the best non-excluded day of its year. */
  lemma MedianBaselineBetween(history: seq<SalesPoint>, asOf: int, stockoutDates: seq<int>, excludedDates: seq<int>,
                              snapshotsSince: Option<int>, best: real)
    requires BestDay(history, DayKey(asOf) - 364 * DAY_MS, DayKey(asOf), KeysOf(excludedDates), best)
    ensures 0.0 <= Blend(ValidRows(history, asOf), DayKey(asOf), stockoutDates, excludedDates, snapshotsSince) <= best
  {
    var valid, end := ValidRows(history, asOf), DayKey(asOf);
    OneWindowBetween(history, asOf, 56, stockoutDates, excludedDates, snapshotsSince, best);
    OneWindowBetween(history, asOf, 182, stockoutDates, excludedDates, snapshotsSince, best);
    OneWindowBetween(history, asOf, 364, stockoutDates, excludedDates, snapshotsSince, best);
    BlendBetween(MEDIAN_WINDOWS, BaselineOn(valid, end, stockoutDates, excludedDates, snapshotsSince), 56, 182, 364,
      0.0, best);
  }

  // ---------------------------------------------------------------- which rate a window gets

  /** The days the exposure mean divides by: the exposed ones, but at least a week, or three days when the
      sale days are two or more and 60% of the exposed days, and at most the days of the window. */
  ghost function MeanDays(e: Evidence, start: int, end: int): int {
    var sold := |SaleDays(WindowRows(e.rows, start, end, e.excluded))|;
    FlooredDays(if start < end then |Days(start, end)| else 1, CountIf(Days(start, end), Exposed(e)), sold)
  }

  ghost function UnitsIn(e: Evidence, start: int, end: int): real {
    Damp(WindowRows(e.rows, start, end, e.excluded)).units
  }

  ghost function RatesIn(e: Evidence, start: int, end: int): seq<real> {
    WeekRates(start, end, Exposed(e), TotalOn(e.rows))
  }

  lemma {:induction false} WeekRatesNonNegative(start: int, end: int, open: int -> bool, total: int -> real)
    ensures forall i :: 0 <= i < |WeekRates(start, end, open, total)| ==> WeekRates(start, end, open, total)[i] >= 0.0
    decreases end - start
  {
    if end <= start {
    } else {
      WeekRatesNonNegative(start, BucketStart(start, end), open, total);
    }
  }

  lemma MedianNonNegative(s: seq<real>)
    requires forall i :: 0 <= i < |s| ==> s[i] >= 0.0
    ensures Median(s) >= 0.0
  {
    if s != [] && Median(s) < 0.0 {
      MedianHalves(s);
      CountNone(s, AtMost(Median(s)));
    }
  }

  /** A rate that comes to these units over some days. */
  predicate Spreads(rate: real, days: int, units: real) { rate * days as real == units }

  lemma MeanSpreads(units: real, days: int)
    requires days >= 1
    ensures Spreads(units / days as real, days, units) && Spreads(0.0, days, 0.0)
    ensures units > 0.0 ==> units / days as real > 0.0
  {}

  lemma ChosenRate(weeks: seq<real>, damped: Damped, span: int, exposure: int)
    requires span >= 1 && forall i :: 0 <= i < |weeks| ==> weeks[i] >= 0.0
    ensures var days := EffectiveWindowDays(span, span - exposure, Some(Signal(exposure, damped.saleDays)));
      var rate := ChooseRate(weeks, damped.units, MeanRate(damped, span, exposure));
      && (|weeks| < 4 || Median(weeks) <= 0.0 ==> Spreads(rate, days, Max(0.0, damped.units)))
      && (|weeks| >= 4 && Median(weeks) > 0.0 ==> rate == Median(weeks))
      && (damped.units > 0.0 ==> rate > 0.0)
  {
    hide Median, EffectiveWindowDays, Spreads, Consistent;
    MedianNonNegative(weeks);
    var days := EffectiveWindowDays(span, span - exposure, Some(Signal(exposure, damped.saleDays)));
    MeanSpreads(Max(0.0, damped.units), days);
  }

  lemma SpanIsDays(start: int, end: int)
    requires Aligned(start) && Aligned(end)
    ensures SpanDays(start, end) == if start < end then |Days(start, end)| else 1
  {
    if start < end {
      var n := (end - start) / DAY_MS;
      assert end == start + n * DAY_MS && n >= 1;
      DaysLength(start, n);
    }
  }

  /** At least the exposed days, and a floor of seven or three days within the window. */
  ghost function FlooredDays(span: int, exposed: int, sold: int): int {
    var floor := if exposed > 0 && sold >= 2 && 10 * sold >= 6 * exposed then 3 else 7;
    if exposed >= floor || exposed >= span then exposed else if floor <= span then floor else span
  }

  lemma FlooredDaysAreEffective(span: int, exposed: int, sold: int)
    ensures FlooredDays(span, exposed, sold) == EffectiveWindowDays(span, span - exposed, Some(Signal(exposed, sold)))
  {
    hide Consistent;
    ConsistentMeans(Signal(exposed, sold));
  }

  lemma MeanDaysAreEffective(e: Evidence, start: int, end: int)
    requires Aligned(start) && Aligned(end)
    ensures var span, exposed := SpanDays(start, end), CountIf(Days(start, end), Exposed(e));
      var sold := |SaleDays(WindowRows(e.rows, start, end, e.excluded))|;
      MeanDays(e, start, end) == EffectiveWindowDays(span, span - exposed, Some(Signal(exposed, sold)))
  {
    hide Days, CountIf, SaleDays, WindowRows, SpanDays, FlooredDays, EffectiveWindowDays, Exposed;
    var exposed, sold := CountIf(Days(start, end), Exposed(e)), |SaleDays(WindowRows(e.rows, start, end, e.excluded))|;
    SpanIsDays(start, end);
    FlooredDaysAreEffective(SpanDays(start, end), exposed, sold);
  }

  /** With at least four weeks and a positive median of them that is the baseline, and at least half of the
      weeks are on each side of it; otherwise the baseline spreads the damped units, none if negative, over
      the effective days. A window that sold something on balance never has a baseline of nothing. */
  lemma WindowBaselineMeans(e: Evidence, start: int, end: int)
    requires Aligned(start) && Aligned(end)
    ensures var weeks, units, rate := RatesIn(e, start, end), UnitsIn(e, start, end), WindowBaseline(e, start, end);
      && (|weeks| < 4 || Median(weeks) <= 0.0 ==> Spreads(rate, MeanDays(e, start, end), Max(0.0, units)))
      && (|weeks| >= 4 && Median(weeks) > 0.0 ==>
            rate == Median(weeks) && 2 * CountIf(weeks, Below(rate)) <= |weeks| <= 2 * CountIf(weeks, AtMost(rate)))
      && (units > 0.0 ==> rate > 0.0)
  {
    var weeks, rows := RatesIn(e, start, end), WindowRows(e.rows, start, end, e.excluded);
    WeekRatesNonNegative(start, end, Exposed(e), TotalOn(e.rows));
    assert Damp(rows).saleDays == |SaleDays(rows)|;
    MeanDaysAreEffective(e, start, end);
    hide MeanDays, Damp, WindowRows, WeekRates, SaleDays, CountIf, Median, EffectiveWindowDays, ChooseRate, MeanRate;
    hide Max, Spreads;
    ChosenRate(weeks, Damp(rows), SpanDays(start, end), CountIf(Days(start, end), Exposed(e)));
    if weeks != [] { MedianHalves(weeks); }
  }

  // ---------------------------------------------------------------- completed days only

  /** Sold before the day of `asOf` began. */
  function Completed(asOf: int): SalesPoint -> bool { (p: SalesPoint) => p.date < asOf - asOf % 86400000 }

  /** Sales of the day of `asOf` and of later days do not enter the baseline. */
  lemma OnlyCompletedDays(history: seq<SalesPoint>, asOf: int)
    ensures ValidRows(history, asOf) == Filter(history, Completed(asOf))
    ensures ValidRows(Filter(history, Completed(asOf)), asOf) == ValidRows(history, asOf)
  {
    forall p: SalesPoint ensures BeforeDay(asOf)(p) == Completed(asOf)(p) {
      KeyBounds(p.date);
      KeyBounds(asOf);
    }
    FilterSame(history, BeforeDay(asOf), Completed(asOf));
    FilterProperties(history, Completed(asOf));
    FilterAll(Filter(history, Completed(asOf)), BeforeDay(asOf));
  }
}
