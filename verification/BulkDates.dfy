/** The bulk-day cleaner of packages/forecast/src/big-buyer.ts in terms of calendar dates: which days take
    part, what they end on, and what each cap says. */
module BulkDates {
  import opened BigBuyer
  import opened DaySeries
  import opened Numbers
  import opened Sorting
  import opened Wrappers

  /** The number of an instant's calendar day. */
  function DayNumber(t: int): int { t / DAY_MS }

  /** Days that take part: completed before the day of `asOf`, and not the day of an excluded date. */
  predicate TakesPart(opts: DebulkOptions, day: int) {
    && (opts.asOf.Some? ==> day < DayNumber(opts.asOf.value))
    && (forall i :: 0 <= i < |opts.excludedDates| ==> DayNumber(opts.excludedDates[i]) != day)
  }

  function RowTakesPart(opts: DebulkOptions): SalesPoint -> bool {
    (p: SalesPoint) => TakesPart(opts, DayNumber(p.date))
  }

  lemma KeysAreDays(s: int, t: int)
    ensures DayKey(t) == DayNumber(t) * DAY_MS
    ensures DayKey(s) < DayKey(t) <==> DayNumber(s) < DayNumber(t)
    ensures DayKey(s) == DayKey(t) <==> DayNumber(s) == DayNumber(t)
  {}

  lemma EligibleMeansTakesPart(opts: DebulkOptions, t: int)
    ensures EligibleKey(opts, DayKey(t)) <==> TakesPart(opts, DayNumber(t))
  {
    var keys := Map(opts.excludedDates, DayKey);
    if opts.asOf.Some? { KeysAreDays(t, opts.asOf.value); }
    forall i | 0 <= i < |opts.excludedDates|
      ensures keys[i] == DayKey(t) <==> DayNumber(opts.excludedDates[i]) == DayNumber(t)
    {
      KeysAreDays(opts.excludedDates[i], t);
    }
  }

  lemma RowsThatTakePart(history: seq<SalesPoint>, opts: DebulkOptions)
    ensures EligibleRows(history, opts) == Filter(history, RowTakesPart(opts))
  {
    hide EligibleKey, TakesPart;
    forall p: SalesPoint ensures Eligible(opts)(p) == RowTakesPart(opts)(p) { EligibleMeansTakesPart(opts, p.date); }
    FilterSame(history, Eligible(opts), RowTakesPart(opts));
  }

  /** Rows of a day that does not take part come back as they were. */
  lemma OtherRowsKept(history: seq<SalesPoint>, opts: DebulkOptions, i: nat)
    requires i < |history| && !TakesPart(opts, DayNumber(history[i].date))
    ensures Debulk(history, opts).series[i] == history[i]
  {
    hide Flagged, SaleMedian, EligibleKey, TakesPart;
    EligibleMeansTakesPart(opts, history[i].date);
    RowsKept(history, opts, i);
  }

  /** Dropping the rows of such days beforehand changes no cap and none of the other rows. */
  lemma OtherRowsDoNotMatter(history: seq<SalesPoint>, opts: DebulkOptions)
    ensures var kept, all := Debulk(Filter(history, RowTakesPart(opts)), opts), Debulk(history, opts);
      kept.caps == all.caps && kept.series == Filter(all.series, RowTakesPart(opts))
  {
    var rows := Filter(history, RowTakesPart(opts));
    RowsThatTakePart(history, opts);
    RowsThatTakePart(rows, opts);
    FilterProperties(history, RowTakesPart(opts));
    FilterAll(rows, RowTakesPart(opts));
    hide TakesPart, SaleMedian, Rescale;
    FilterOfMap(history, Rescale(rows, SaleMedian(rows)), RowTakesPart(opts), RowTakesPart(opts));
  }

  // ---------------------------------------------------------------- what a bulk day is and ends on

  function OnCalendarDay(day: int): SalesPoint -> bool { (p: SalesPoint) => DayNumber(p.date) == day }

  /** What a calendar day sold, returns included. */
  function DaySum(history: seq<SalesPoint>, day: int): real {
    SumBy(Filter(history, OnCalendarDay(day)), QuantityOf())
  }

  /** The median sale day of the days that take part. */
  function TypicalDay(history: seq<SalesPoint>, opts: DebulkOptions): real {
    SaleMedian(Filter(history, RowTakesPart(opts)))
  }

  /** More than six units and more than five typical days. */
  predicate IsBulkDay(history: seq<SalesPoint>, opts: DebulkOptions, day: int) {
    && TakesPart(opts, day) && TypicalDay(history, opts) > 0.0
    && DaySum(history, day) > 6.0 && DaySum(history, day) > 5.0 * TypicalDay(history, opts)
  }

  /** Three typical days, rounded, but at least five units. */
  function CapUnits(typical: real): real {
    if Round(3.0 * typical) <= 5 then 5.0 else Round(3.0 * typical) as real
  }

  lemma {:induction false} TotalIsDaySum(history: seq<SalesPoint>, day: int)
    ensures Total(history, day * DAY_MS) == DaySum(history, day)
  {
    if history == [] {
    } else {
      TotalIsDaySum(history[1..], day);
      KeysAreDays(day * DAY_MS, history[0].date);
      assert DayNumber(day * DAY_MS) == day;
      var rest := Filter(history[1..], OnCalendarDay(day));
      assert ([history[0]] + rest)[1..] == rest && [] + rest == rest;
    }
  }

  lemma BulkDayIsFlagged(history: seq<SalesPoint>, opts: DebulkOptions, day: int)
    ensures var days, m := EligibleRows(history, opts), TypicalDay(history, opts);
      && m == SaleMedian(days) && Target(m) == CapUnits(m)
      && (Flagged(days, m, day * DAY_MS) <==> IsBulkDay(history, opts, day))
      && (IsBulkDay(history, opts, day) ==>
            EligibleKey(opts, day * DAY_MS) && Total(days, day * DAY_MS) == DaySum(history, day))
  {
    var m := TypicalDay(history, opts);
    RowsThatTakePart(history, opts);
    EligibleMeansTakesPart(opts, day * DAY_MS);
    assert DayKey(day * DAY_MS) == day * DAY_MS && DayNumber(day * DAY_MS) == day;
    EligibleDayComplete(history, opts, m, day * DAY_MS);
    TotalIsDaySum(history, day);
    hide Total, Sold, Returned, SaleMedian, EligibleKey, TakesPart, EligibleRows, DaySum;
    BulkNumbers(m, DaySum(history, day));
  }

  lemma BulkNumbers(m: real, x: real)
    ensures Target(m) == CapUnits(m) && Threshold(m) == if 5.0 * m > 6.0 then 5.0 * m else 6.0
    ensures x > Threshold(m) <==> x > 6.0 && x > 5.0 * m
  {}

  /** A bulk day ends on its cap, below what it sold, and every other calendar day on what it sold. */
  lemma BulkDayEndsOnCap(history: seq<SalesPoint>, opts: DebulkOptions, day: int)
    ensures var after := DaySum(Debulk(history, opts).series, day);
      if IsBulkDay(history, opts, day) then after == CapUnits(TypicalDay(history, opts)) < DaySum(history, day)
      else after == DaySum(history, day)
  {
    TotalIsDaySum(history, day);
    TotalIsDaySum(Debulk(history, opts).series, day);
    BulkDayIsFlagged(history, opts, day);
    CappingConserves(history, opts, day * DAY_MS);
    hide Total, Sold, Returned, SaleMedian, DaySum, EligibleRows, TakesPart, Threshold, Target, CapUnits, Debulk;
  }

  /** The cap reported for a day. */
  function CapOn(history: seq<SalesPoint>, opts: DebulkOptions, day: int): BulkCap {
    var typical, sold := TypicalDay(history, opts), DaySum(history, day);
    BulkCap(day * DAY_MS, sold, CapUnits(typical), typical, if 5.0 * typical > 6.0 then 5.0 * typical else 6.0,
            if typical > 0.0 then Round(sold / typical * 10.0) as real / 10.0 else 0.0)
  }

  lemma CapForDay(history: seq<SalesPoint>, opts: DebulkOptions, day: int)
    requires IsBulkDay(history, opts, day)
    ensures CapFor(EligibleRows(history, opts), TypicalDay(history, opts))(day * DAY_MS) == CapOn(history, opts, day)
  {
    BulkDayIsFlagged(history, opts, day);
    TargetBetween(TypicalDay(history, opts));
    BulkNumbers(TypicalDay(history, opts), 0.0);
    hide Total, SaleMedian, DaySum, EligibleRows, TakesPart, Target, CapUnits, TypicalDay, Flagged;
  }

  lemma FlaggedIsListed(history: seq<SalesPoint>, opts: DebulkOptions, key: int)
    ensures var days, m := EligibleRows(history, opts), TypicalDay(history, opts);
      key in Filter(Keys(days), IsFlagged(days, m))
      <==> key == DayNumber(key) * DAY_MS && IsBulkDay(history, opts, DayNumber(key))
  {
    var days, m := EligibleRows(history, opts), TypicalDay(history, opts);
    FilterProperties(Keys(days), IsFlagged(days, m));
    KeysProperties(days);
    BulkDayIsFlagged(history, opts, DayNumber(key));
    if Flagged(days, m, key) {
      if key !in Keys(days) { NoRowsNoTotal(days, key); }
      var i :| 0 <= i < |days| && DayKey(days[i].date) == key;
      KeysAreDays(key, days[i].date);
    }
  }

  lemma UnsortedCaps(history: seq<SalesPoint>, opts: DebulkOptions, caps: seq<BulkCap>)
    requires var days, m := EligibleRows(history, opts), TypicalDay(history, opts);
      caps == Map(Filter(Keys(days), IsFlagged(days, m)), CapFor(days, m))
    ensures forall c :: c in caps <==> exists day :: IsBulkDay(history, opts, day) && c == CapOn(history, opts, day)
    ensures forall i, j :: 0 <= i < j < |caps| ==> caps[i].date != caps[j].date
  {
    var days, m := EligibleRows(history, opts), TypicalDay(history, opts);
    var keys := Filter(Keys(days), IsFlagged(days, m));
    KeysProperties(days);
    FilterProperties(Keys(days), IsFlagged(days, m));
    hide EligibleRows, TypicalDay, IsBulkDay, CapFor, Flagged, CapOn, Filter;
    forall i | 0 <= i < |caps|
      ensures IsBulkDay(history, opts, DayNumber(keys[i])) && keys[i] == DayNumber(keys[i]) * DAY_MS
      ensures caps[i] == CapOn(history, opts, DayNumber(keys[i]))
    {
      assert keys[i] in keys;
      FlaggedIsListed(history, opts, keys[i]);
      CapForDay(history, opts, DayNumber(keys[i]));
    }
    forall i | 0 <= i < |caps| ensures caps[i].date == keys[i] { CapDate(history, opts, DayNumber(keys[i])); }
    forall day | IsBulkDay(history, opts, day) ensures CapOn(history, opts, day) in caps {
      assert DayNumber(day * DAY_MS) == day;
      FlaggedIsListed(history, opts, day * DAY_MS);
      var i :| 0 <= i < |keys| && keys[i] == day * DAY_MS;
      assert caps[i] == CapOn(history, opts, day);
    }
    forall c | c in caps ensures exists day :: IsBulkDay(history, opts, day) && c == CapOn(history, opts, day) {
      var i :| 0 <= i < |caps| && caps[i] == c;
      assert IsBulkDay(history, opts, DayNumber(keys[i]));
    }
  }

  lemma CapDate(history: seq<SalesPoint>, opts: DebulkOptions, day: int)
    ensures CapOn(history, opts, day).date == day * DAY_MS
  {}

  lemma SortedCaps(caps: seq<BulkCap>)
    requires forall i, j :: 0 <= i < j < |caps| ==> caps[i].date != caps[j].date
    ensures var sorted := Sort(caps, ByDate());
      && (forall c :: c in sorted <==> c in caps)
      && (forall i, j :: 0 <= i < j < |sorted| ==> sorted[i].date < sorted[j].date)
  {
    var sorted := Sort(caps, ByDate());
    SortProperties(caps, ByDate());
    forall c ensures c in sorted <==> c in caps { assert c in multiset(sorted) <==> c in multiset(caps); }
    forall i, j | 0 <= i < j < |sorted| ensures sorted[i].date < sorted[j].date {
      assert ByDate()(sorted[i], sorted[j]);
      if sorted[i] == sorted[j] {
        TwiceCounted(sorted, i, j);
        OncePerElement(caps, sorted[i]);
      } else {
        assert sorted[i] in caps && sorted[j] in caps;
      }
    }
  }

  /** There is one cap for each bulk day and no other, by date, and it says what the day sold and ends on,
      the typical day, the threshold and how many typical days were sold. */
  lemma CapsAreBulkDays(history: seq<SalesPoint>, opts: DebulkOptions)
    ensures var caps := Debulk(history, opts).caps;
      && (forall c :: c in caps <==> exists day :: IsBulkDay(history, opts, day) && c == CapOn(history, opts, day))
      && (forall i, j :: 0 <= i < j < |caps| ==> caps[i].date < caps[j].date)
  {
    var days, m := EligibleRows(history, opts), TypicalDay(history, opts);
    RowsThatTakePart(history, opts);
    hide TypicalDay, IsBulkDay, CapFor, IsFlagged, CapOn;
    var caps := Map(Filter(Keys(days), IsFlagged(days, m)), CapFor(days, m));
    CapsOfDebulk(history, opts);
    UnsortedCaps(history, opts, caps);
    SortedCaps(caps);
  }

  lemma CapsOfDebulk(history: seq<SalesPoint>, opts: DebulkOptions)
    ensures var days, m := EligibleRows(history, opts), TypicalDay(history, opts);
      Debulk(history, opts).caps == Sort(Map(Filter(Keys(days), IsFlagged(days, m)), CapFor(days, m)), ByDate())
  {
    RowsThatTakePart(history, opts);
  }
}
