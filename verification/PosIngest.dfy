/** The till feed: `ingestPosSales`, `rebuildDays` and `healPosRollup` of
    packages/pos/src/ingest.ts. The lookups may differ from call to call; the clock stays. */
module PosIngest {
  import opened Numbers
  import opened PosLines
  import opened PosPlan
  import opened PosRollup
  import opened PosTable
  import opened SalesHistory
  import opened Sorting
  import opened Wrappers

  const CHUNK := 500
  const SAMPLE := 10

  // ---------------------------------------------------------------- the state

  datatype State = State(ledger: seq<Sale>, history: seq<Row>)

  /** What a day's till rows should be: the fold of the day's stored physical receipts. */
  function DayRows(maps: Maps, clock: Clock, ledger: seq<Sale>, day: int): seq<Row> {
    Aggregate(LinesOf(maps, clock, ledger, SoldOn(clock, {day})))
  }

  function PosRows(history: seq<Row>, day: int): seq<Row> { Filter(history, RowOnDay(day)) }

  ghost predicate AgreesOn(maps: Maps, clock: Clock, st: State, day: int) {
    PosRows(st.history, day) == DayRows(maps, clock, st.ledger, day)
  }

  ghost predicate Agrees(maps: Maps, clock: Clock, st: State) {
    forall day :: AgreesOn(maps, clock, st, day)
  }

  function DayOf(clock: Clock): Sale -> int { (s: Sale) => LocalDay(clock, s.date) }

  function DaysSold(clock: Clock, sales: seq<Sale>): seq<int> { Map(sales, DayOf(clock)) }

  function WithIds(ids: set<string>): Sale -> bool { (s: Sale) => s.externalId in ids }

  function WithoutIds(ids: set<string>): Sale -> bool { (s: Sale) => s.externalId !in ids }

  /** Whole-day replacement from the complete ledger. */
  function Rebuild(maps: Maps, clock: Clock, st: State, dayKeys: seq<int>): State {
    if dayKeys == [] then st
    else
      var days := DaysOf(dayKeys);
      st.(history := Replace(st.history, POS, days, Aggregate(LinesOf(maps, clock, st.ledger, SoldOn(clock, days)))))
  }

  function IngestLedger(maps: Maps, ledger: seq<Sale>, sales: seq<SaleInput>): seq<Sale> {
    Filter(ledger, WithoutIds(Ids(sales))) + Plan(maps, sales)
  }

  /** The days of the receipts that leave and of those that come. */
  function TouchedDays(maps: Maps, clock: Clock, ledger: seq<Sale>, sales: seq<SaleInput>): seq<int> {
    DaysSold(clock, Filter(ledger, WithIds(Ids(sales)))) + DaysSold(clock, Plan(maps, sales))
  }

  function Ingest(maps: Maps, clock: Clock, st: State, sales: seq<SaleInput>): State {
    if sales == [] then st
    else Rebuild(maps, clock, State(IngestLedger(maps, st.ledger, sales), st.history),
      TouchedDays(maps, clock, st.ledger, sales))
  }

  predicate ValidTrailing(trailingDays: int) { 1 <= trailingDays <= 366 }

  /** The local days of the repair window. */
  function RecentDays(today: int, trailingDays: nat): seq<int> {
    if trailingDays == 0 then [] else RecentDays(today, trailingDays - 1) + [today - (trailingDays - 1)]
  }

  lemma {:induction false} RecentDaysMembers(today: int, trailingDays: nat, day: int)
    ensures day in RecentDays(today, trailingDays) <==> today - trailingDays < day <= today
  {
    if trailingDays <= 0 {
    } else {
      RecentDaysMembers(today, trailingDays - 1, day);
    }
  }

  function Heal(maps: Maps, clock: Clock, st: State, trailingDays: nat, now: int): State {
    Rebuild(maps, clock, st, RecentDays(LocalDay(clock, now), trailingDays))
  }

  /** A call with the lookups it reads. */
  datatype Op =
    | IngestOp(maps: Maps, sales: seq<SaleInput>)
    | HealOp(maps: Maps, trailingDays: nat, now: int)

  function Step(clock: Clock, st: State, op: Op): State {
    match op
    case IngestOp(maps, sales) => Ingest(maps, clock, st, sales)
    case HealOp(maps, trailingDays, now) =>
      if ValidTrailing(trailingDays) then Heal(maps, clock, st, trailingDays, now) else st
  }

  function Run(clock: Clock, st: State, ops: seq<Op>): State
    decreases |ops|
  {
    if ops == [] then st else Run(clock, Step(clock, st, ops[0]), ops[1..])
  }

  /** The call rebuilds the day: a receipt of it leaves or comes, or it is in the repair window. */
  predicate Touches(clock: Clock, st: State, op: Op, day: int) {
    match op
    case IngestOp(maps, sales) => day in TouchedDays(maps, clock, st.ledger, sales)
    case HealOp(_, trailingDays, now) =>
      ValidTrailing(trailingDays) && LocalDay(clock, now) - trailingDays < day <= LocalDay(clock, now)
  }

  /** The lookups of the last call of a run that rebuilds the day. */
  function LastLookups(clock: Clock, st: State, ops: seq<Op>, day: int): Option<Maps>
    decreases |ops|
  {
    if ops == [] then None
    else
      var later := LastLookups(clock, Step(clock, st, ops[0]), ops[1..], day);
      if later.Some? then later else if Touches(clock, st, ops[0], day) then Some(ops[0].maps) else None
  }

  // ---------------------------------------------------------------- the writer

  datatype IngestResult = IngestResult(salesIngested: nat, counts: Counts, historyRows: nat, unmatchedSkus: nat,
                                       sampleUnmatchedSkus: seq<string>)

  function CodeOf(): Unmatched -> string { (u: Unmatched) => u.sku }

  /** What a request answers about its payload. */
  ghost predicate Reports(maps: Maps, sales: seq<SaleInput>, result: IngestResult) {
    var unmatched := PlanQueue(maps, sales);
    && result.salesIngested == |Plan(maps, sales)| && Counted(maps, sales, Plan(maps, sales), result.counts)
    && result.unmatchedSkus == |unmatched|
    && result.sampleUnmatchedSkus == Map(unmatched[..if |unmatched| < 10 then |unmatched| else 10], CodeOf())
  }

  /** The first and the last of some days. */
  method FirstAndLast(days: seq<int>) returns (first: int, last: int)
    requires days != []
    ensures forall i :: 0 <= i < |days| ==> first <= days[i] <= last
  {
    first, last := days[0], days[0];
    for i := 1 to |days|
      invariant first <= last && forall j :: 0 <= j < i ==> first <= days[j] <= last
    {
      if days[i] < first { first := days[i]; }
      if days[i] > last { last := days[i]; }
    }
  }

  /** The padded read with the day filter selects exactly the physical receipts of the days. */
  lemma ReadIsComplete(clock: Clock, days: seq<int>, first: int, last: int, sale: Sale)
    requires RealClock(clock) && forall i :: 0 <= i < |days| ==> first <= days[i] <= last
    ensures ReadThenWanted(clock, Since(first), Until(last), DaysOf(days))(sale) == SoldOn(clock, DaysOf(days))(sale)
  {
    var day := LocalDay(clock, sale.date);
    if day in DaysOf(days) {
      assert day in days;
      var i :| 0 <= i < |days| && days[i] == day;
      PadMissesNothing(clock, sale.date, first, last);
      assert ReadPadded(Since(first), Until(last))(sale) <==> sale.channel == PHYSICAL;
    } else {
      assert !SoldOn(clock, DaysOf(days))(sale);
    }
  }

  class Feed {
    var ledger: seq<Sale>
    const table: Table

    constructor ()
      ensures ledger == [] && fresh(table) && table.rows == []
    {
      ledger := [];
      table := new Table();
    }

    ghost function StateOf(): State
      reads this, table
    {
      State(ledger, table.rows)
    }

    /** Whole-day replacement; the count is that of the days' till rows afterwards. */
    method RebuildDays(maps: Maps, clock: Clock, dayKeys: seq<int>) returns (count: nat)
      requires RealClock(clock)
      modifies table
      ensures StateOf() == Rebuild(maps, clock, old(StateOf()), dayKeys)
      ensures forall day :: day in dayKeys ==> DayHolds(maps, clock, ledger, table.rows, day)
      ensures count == |Filter(table.rows, On(POS, DaysOf(dayKeys)))|
    {
      if dayKeys == [] {
        FilterNone(table.rows, On(POS, DaysOf(dayKeys)));
        return 0;
      }
      var wanted := DaysOf(dayKeys);
      var first, last := FirstAndLast(dayKeys);
      var read := ReadThenWanted(clock, Since(first), Until(last), wanted);
      forall i | 0 <= i < |ledger| ensures read(ledger[i]) == SoldOn(clock, wanted)(ledger[i]) {
        ReadIsComplete(clock, dayKeys, first, last, ledger[i]);
      }
      SameSelection(maps, clock, ledger, read, SoldOn(clock, wanted));
      var rows := Aggregate(LinesOf(maps, clock, ledger, read));
      AggregateOnDays(maps, clock, ledger, wanted);
      ReplaceIsExact(table.rows, POS, wanted, rows);
      table.DeleteMany(POS, dayKeys);
      table.CreateInChunks(rows, CHUNK);
      RebuiltDaysHold(maps, clock, old(StateOf()), dayKeys);
      count := |rows|;
    }

    /** One feed request, in one transaction. Every receipt id of the payload is ingested or excluded,
        every stored line counted as one kind, the row count is that of the rebuilt days, and the codes
        without a product are counted and the ten with the most revenue shown. */
    method IngestPosSales(maps: Maps, clock: Clock, sales: seq<SaleInput>) returns (result: IngestResult)
      requires RealClock(clock)
      modifies this, table
      ensures StateOf() == Ingest(maps, clock, old(StateOf()), sales)
      ensures forall day :: day in TouchedDays(maps, clock, old(ledger), sales)
                ==> DayHolds(maps, clock, ledger, table.rows, day)
      ensures Reports(maps, sales, result)
      ensures result.historyRows
           == |Filter(table.rows, On(POS, DaysOf(TouchedDays(maps, clock, old(ledger), sales))))|
    {
      hide Plan, Filter, Rebuild, DaysSold, Ids, Counted, On, DaysOf, PlanQueue;
      if sales == [] {
        NothingToIngest(maps, clock, ledger, table.rows);
        return IngestResult(0, Counts(0, 0, 0, 0), 0, 0, []);
      }
      var planned, counts, unmatched := PlanSales(maps, sales);
      var previous := Filter(ledger, WithIds(Ids(sales)));
      ReplaceReceipts(Ids(sales), planned);
      var rebuilt := RebuildDays(maps, clock, DaysSold(clock, previous) + DaysSold(clock, planned));
      result := IngestResult(|planned|, counts, rebuilt, |unmatched|,
        Map(unmatched[..MinInt(SAMPLE, |unmatched|)], CodeOf()));
    }

    /** Deletes the receipts with these ids and writes the planned ones chunk by chunk. */
    method ReplaceReceipts(ids: set<string>, planned: seq<Sale>)
      modifies this`ledger
      ensures ledger == Filter(old(ledger), WithoutIds(ids)) + planned
    {
      ledger := Filter(ledger, WithoutIds(ids));
      ghost var kept := ledger;
      var i := 0;
      while i < |planned|
        invariant 0 <= i <= |planned|
        invariant ledger == kept + planned[..i]
      {
        var j := MinInt(i + CHUNK, |planned|);
        assert planned[..i] + planned[i..j] == planned[..j];
        ledger := ledger + planned[i..j];
        i := j;
      }
      assert planned[..|planned|] == planned;
    }

    /** Repairs every local day of the recent window and counts the till rows they then have; a window
        length out of range is refused. */
    method HealPosRollup(maps: Maps, clock: Clock, trailingDays: int, now: int) returns (result: Option<(nat, nat)>)
      requires RealClock(clock)
      modifies table
      ensures trailingDays < 1 || trailingDays > 366 ==> StateOf() == old(StateOf()) && result == None
      ensures 1 <= trailingDays <= 366 ==>
                && StateOf() == Heal(maps, clock, old(StateOf()), trailingDays, now)
                && (forall day :: day in RecentDays(LocalDay(clock, now), trailingDays)
                      ==> DayHolds(maps, clock, ledger, table.rows, day))
                && result
                  == Some((trailingDays,
                    |Filter(table.rows, On(POS, DaysOf(RecentDays(LocalDay(clock, now), trailingDays))))|))
    {
      if !ValidTrailing(trailingDays) {
        return None;
      }
      var today := LocalDay(clock, now);
      var rows := RebuildDays(maps, clock, RecentDays(today, trailingDays));
      result := Some((trailingDays, rows));
    }
  }

  lemma NothingToIngest(maps: Maps, clock: Clock, ledger: seq<Sale>, history: seq<Row>)
    ensures Plan(maps, []) == [] && Counted(maps, [], [], Counts(0, 0, 0, 0)) && PlanQueue(maps, []) == []
    ensures TouchedDays(maps, clock, ledger, []) == []
    ensures IngestLedger(maps, ledger, []) == ledger
    ensures Filter(history, On(POS, DaysOf(TouchedDays(maps, clock, ledger, [])))) == []
  {
    FilterNone(ledger, WithIds(Ids([])));
    FilterAll(ledger, WithoutIds(Ids([])));
    FilterNone(history, On(POS, DaysOf([])));
    assert ledger + [] == ledger;
  }

  // ---------------------------------------------------------------- rebuilt days agree

  lemma AggregateOnDays(maps: Maps, clock: Clock, ledger: seq<Sale>, days: set<int>)
    ensures AllOn(Aggregate(LinesOf(maps, clock, ledger, SoldOn(clock, days))), POS, days)
  {
    var lines := LinesOf(maps, clock, ledger, SoldOn(clock, days));
    LinesOnDays(maps, clock, ledger, days);
    BucketsOnDays(lines, days);
  }

  lemma {:induction false} LinesOnDays(maps: Maps, clock: Clock, ledger: seq<Sale>, days: set<int>)
    ensures forall l :: l in LinesOf(maps, clock, ledger, SoldOn(clock, days)) ==> l.day in days
  {
    if ledger == [] {
    } else {
      LinesOnDays(maps, clock, ledger[1..], days);
      MatchedOnDay(maps, LocalDay(clock, ledger[0].date), ledger[0], ledger[0].lines);
    }
  }

  lemma {:induction false} MatchedOnDay(maps: Maps, day: int, sale: Sale, lines: seq<StoredLine>)
    ensures forall l :: l in MatchedLines(maps, day, sale, lines) ==> l.day == day
  {
    if lines == [] {
    } else {
      MatchedOnDay(maps, day, sale, lines[1..]);
    }
  }

  lemma BucketsOnDays(lines: seq<PosLine>, days: set<int>)
    requires forall l :: l in lines ==> l.day in days
    ensures AllOn(Aggregate(lines), POS, days)
  {
    var aggs := Buckets(lines);
    BucketsHold(lines);
    forall i | 0 <= i < |aggs| ensures aggs[i].day in days {
      var mine := Filter(lines, InBucket(aggs[i].productId, aggs[i].day));
      assert Holds(aggs[i], lines);
      FilterProperties(lines, InBucket(aggs[i].productId, aggs[i].day));
      assert mine[0] in mine;
    }
  }

  /** A day's share of a rebuild over several days is the rebuild of that day alone. */
  lemma OneDayOfMany(maps: Maps, clock: Clock, ledger: seq<Sale>, days: set<int>, day: int)
    requires day in days
    ensures Filter(Aggregate(LinesOf(maps, clock, ledger, SoldOn(clock, days))), RowOnDay(day))
      == DayRows(maps, clock, ledger, day)
  {
    var lines := LinesOf(maps, clock, ledger, SoldOn(clock, days));
    RowsOfDay(Buckets(lines), day);
    DaysAreIndependent(lines, day);
    DayShare(maps, clock, ledger, days, day);
  }

  lemma {:induction false} DayShare(maps: Maps, clock: Clock, ledger: seq<Sale>, days: set<int>, day: int)
    requires day in days
    ensures Filter(LinesOf(maps, clock, ledger, SoldOn(clock, days)), OfDay(day))
      == LinesOf(maps, clock, ledger, SoldOn(clock, {day}))
  {
    if ledger == [] {
    } else {
      DayShare(maps, clock, ledger[1..], days, day);
      var own := LocalDay(clock, ledger[0].date);
      var head := MatchedLines(maps, own, ledger[0], ledger[0].lines);
      var first := if SoldOn(clock, days)(ledger[0]) then head else [];
      FilterConcat(first, LinesOf(maps, clock, ledger[1..], SoldOn(clock, days)), OfDay(day));
      MatchedOnDay(maps, own, ledger[0], ledger[0].lines);
      if own == day { FilterAll(head, OfDay(day)); } else { FilterNone(head, OfDay(day)); }
    }
  }

  /** A rebuild makes its days agree with the ledger, whatever they held, and leaves the till rows
      of every other day alone. */
  lemma RebuildAgrees(maps: Maps, clock: Clock, st: State, dayKeys: seq<int>, day: int)
    ensures day in dayKeys ==> AgreesOn(maps, clock, Rebuild(maps, clock, st, dayKeys), day)
    ensures day !in dayKeys ==> PosRows(Rebuild(maps, clock, st, dayKeys).history, day) == PosRows(st.history, day)
  {
    if dayKeys != [] {
      var days := DaysOf(dayKeys);
      var rows := Aggregate(LinesOf(maps, clock, st.ledger, SoldOn(clock, days)));
      var kept := Filter(st.history, Off(POS, days));
      AggregateOnDays(maps, clock, st.ledger, days);
      RowsMembers(rows, POS, days);
      FilterConcat(kept, rows, RowOnDay(day));
      if day in days {
        FilterProperties(st.history, Off(POS, days));
        FilterNone(kept, RowOnDay(day));
        OneDayOfMany(maps, clock, st.ledger, days, day);
        assert [] + Filter(rows, RowOnDay(day)) == Filter(rows, RowOnDay(day));
      } else {
        FilterNone(rows, RowOnDay(day));
        FilterTwice(st.history, Off(POS, days), RowOnDay(day), RowOnDay(day));
        assert PosRows(st.history, day) + [] == PosRows(st.history, day);
      }
    }
  }

  /** A day that agrees with the ledger has exactly the rows it should have: one for each product with a
      line that counts, with the units, the money and the location of those lines. */
  lemma AgreeingDayHolds(maps: Maps, clock: Clock, st: State, day: int)
    requires AgreesOn(maps, clock, st, day)
    ensures DayHolds(maps, clock, st.ledger, st.history, day)
  {
    var rows := DayRows(maps, clock, st.ledger, day);
    LinesOnDays(maps, clock, st.ledger, {day});
    FoldHolds(maps, clock, st.ledger, day, rows);
    FilterSame(st.history, RowOnDay(day), IsTillRow(day));
    FilterProperties(st.history, IsTillRow(day));
    FilterAll(rows, IsTillRow(day));
  }

  lemma RebuiltDaysHold(maps: Maps, clock: Clock, st: State, dayKeys: seq<int>)
    ensures var after := Rebuild(maps, clock, st, dayKeys);
      forall day :: day in dayKeys ==> DayHolds(maps, clock, after.ledger, after.history, day)
  {
    hide DayHolds, AgreesOn, Rebuild;
    var after := Rebuild(maps, clock, st, dayKeys);
    forall day | day in dayKeys
      ensures DayHolds(maps, clock, after.ledger, after.history, day)
    {
      RebuildAgrees(maps, clock, st, dayKeys, day);
      AgreeingDayHolds(maps, clock, after, day);
    }
  }

  // ---------------------------------------------------------------- an ingest agrees

  lemma GoneDay(clock: Clock, gone: seq<Sale>, sale: Sale, day: int)
    requires sale in gone && LocalDay(clock, sale.date) == day
    ensures day in DaysSold(clock, gone)
  {
    var j :| 0 <= j < |gone| && gone[j] == sale;
    assert DaysSold(clock, gone)[j] == day;
  }

  /** A day no leaving or coming receipt falls on keeps its lines, whatever lookups read them. */
  lemma UntouchedDayKeepsLines(maps: Maps, view: Maps, clock: Clock, ledger: seq<Sale>, sales: seq<SaleInput>, day: int)
    requires day !in TouchedDays(maps, clock, ledger, sales)
    ensures DayRows(view, clock, IngestLedger(maps, ledger, sales), day) == DayRows(view, clock, ledger, day)
  {
    var ids, planned, keep := Ids(sales), Plan(maps, sales), SoldOn(clock, {day});
    var kept := Filter(ledger, WithoutIds(ids));
    LinesOfConcat(view, clock, kept, planned, keep);
    FilterProperties(ledger, WithIds(ids));
    var gone := Filter(ledger, WithIds(ids));
    forall i | 0 <= i < |ledger| && keep(ledger[i]) ensures WithoutIds(ids)(ledger[i]) {
      if ledger[i].externalId in ids { GoneDay(clock, gone, ledger[i], day); }
    }
    LinesOfFilter(view, clock, ledger, WithoutIds(ids), keep);
    forall i | 0 <= i < |planned|
      ensures !keep(planned[i])
    {
      assert DaysSold(clock, planned)[i] == LocalDay(clock, planned[i].date);
    }
    NoLines(view, clock, planned, keep);
    assert LinesOf(view, clock, ledger, keep) + [] == LinesOf(view, clock, ledger, keep);
  }

  /** An ingest is always a rebuild of the touched days from the new ledger. */
  lemma IngestIsRebuild(maps: Maps, clock: Clock, st: State, sales: seq<SaleInput>)
    ensures Ingest(maps, clock, st, sales)
         == Rebuild(maps, clock, State(IngestLedger(maps, st.ledger, sales), st.history),
           TouchedDays(maps, clock, st.ledger, sales))
    ensures Ingest(maps, clock, st, sales).ledger == IngestLedger(maps, st.ledger, sales)
  {
    if sales == [] { NothingToIngest(maps, clock, st.ledger, st.history); }
  }

  /** After an ingest a day agrees with the ledger if it agreed before or was touched: re-sent,
      moved, or turned-online receipts included. */
  lemma IngestAgrees(maps: Maps, clock: Clock, st: State, sales: seq<SaleInput>, day: int)
    requires AgreesOn(maps, clock, st, day) || day in TouchedDays(maps, clock, st.ledger, sales)
    ensures AgreesOn(maps, clock, Ingest(maps, clock, st, sales), day)
  {
    StepOnDay(clock, st, IngestOp(maps, sales), maps, day);
  }

  /** A repair makes its window agree whatever it held, and keeps agreement elsewhere. */
  lemma HealAgrees(maps: Maps, clock: Clock, st: State, trailingDays: nat, now: int, day: int)
    requires AgreesOn(maps, clock, st, day) || LocalDay(clock, now) - trailingDays < day <= LocalDay(clock, now)
    ensures AgreesOn(maps, clock, Heal(maps, clock, st, trailingDays, now), day)
  {
    RecentDaysMembers(LocalDay(clock, now), trailingDays, day);
    RebuildAgrees(maps, clock, st, RecentDays(LocalDay(clock, now), trailingDays), day);
  }

  /** A call makes the days it touches agree with the ledger under its own lookups; of every other
      day it changes neither the till rows nor what any lookups would make of the ledger. */
  lemma StepOnDay(clock: Clock, st: State, op: Op, view: Maps, day: int)
    ensures Touches(clock, st, op, day) ==> AgreesOn(op.maps, clock, Step(clock, st, op), day)
    ensures !Touches(clock, st, op, day) ==>
              && PosRows(Step(clock, st, op).history, day) == PosRows(st.history, day)
              && DayRows(view, clock, Step(clock, st, op).ledger, day) == DayRows(view, clock, st.ledger, day)
  {
    match op
    case IngestOp(maps, sales) =>
      IngestIsRebuild(maps, clock, st, sales);
      var days := TouchedDays(maps, clock, st.ledger, sales);
      RebuildAgrees(maps, clock, State(IngestLedger(maps, st.ledger, sales), st.history), days, day);
      if day !in days { UntouchedDayKeepsLines(maps, view, clock, st.ledger, sales, day); }
    case HealOp(maps, trailingDays, now) =>
      if ValidTrailing(trailingDays) {
        RecentDaysMembers(LocalDay(clock, now), trailingDays, day);
        RebuildAgrees(maps, clock, st, RecentDays(LocalDay(clock, now), trailingDays), day);
      }
  }

  /** What a run of ingests and repairs leaves on a day, though products, prices, matches and ignore
      rules change between its calls: the fold of the day's stored physical receipts under the lookups
      of the last call that touched the day, or what was there before. */
  lemma {:induction false} RunFollowsLastLookups(clock: Clock, st: State, ops: seq<Op>, view: Maps, day: int)
    ensures var after, last := Run(clock, st, ops), LastLookups(clock, st, ops, day);
      if last.Some? then AgreesOn(last.value, clock, after, day)
      else
        && PosRows(after.history, day) == PosRows(st.history, day)
        && DayRows(view, clock, after.ledger, day) == DayRows(view, clock, st.ledger, day)
    decreases |ops|
  {
    if ops == [] {
    } else {
      var next := Step(clock, st, ops[0]);
      StepOnDay(clock, st, ops[0], view, day);
      RunFollowsLastLookups(clock, next, ops[1..], view, day);
      RunFollowsLastLookups(clock, next, ops[1..], ops[0].maps, day);
    }
  }

  ghost predicate AllWith(maps: Maps, ops: seq<Op>) { forall i :: 0 <= i < |ops| ==> ops[i].maps == maps }

  lemma {:induction false} OnlyLookups(maps: Maps, clock: Clock, st: State, ops: seq<Op>, day: int)
    requires AllWith(maps, ops)
    ensures LastLookups(clock, st, ops, day).Some? ==> LastLookups(clock, st, ops, day).value == maps
    decreases |ops|
  {
    if ops == [] {
    } else {
      OnlyLookups(maps, clock, Step(clock, st, ops[0]), ops[1..], day);
    }
  }

  /** While the lookups stay the same, over every run the till rows of every day stay the fold of the
      stored physical receipts of that day. */
  lemma RunAgrees(maps: Maps, clock: Clock, st: State, ops: seq<Op>)
    requires Agrees(maps, clock, st) && AllWith(maps, ops)
    ensures Agrees(maps, clock, Run(clock, st, ops))
    ensures var after := Run(clock, st, ops); forall day :: DayHolds(maps, clock, after.ledger, after.history, day)
  {
    var after := Run(clock, st, ops);
    forall day ensures DayHolds(maps, clock, after.ledger, after.history, day) {
      assert AgreesOn(maps, clock, st, day);
      OnlyLookups(maps, clock, st, ops, day);
      RunFollowsLastLookups(clock, st, ops, maps, day);
      AgreeingDayHolds(maps, clock, after, day);
    }
    forall day ensures AgreesOn(maps, clock, Run(clock, st, ops), day) {
      assert AgreesOn(maps, clock, st, day);
      OnlyLookups(maps, clock, st, ops, day);
      RunFollowsLastLookups(clock, st, ops, maps, day);
    }
  }

  /** An empty store agrees, so every run from it does. */
  lemma RunFromEmptyAgrees(maps: Maps, clock: Clock, ops: seq<Op>)
    requires AllWith(maps, ops)
    ensures Agrees(maps, clock, Run(clock, State([], []), ops))
    ensures var after := Run(clock, State([], []), ops);
      forall day :: DayHolds(maps, clock, after.ledger, after.history, day)
  {
    RunAgrees(maps, clock, State([], []), ops);
  }

  // ---------------------------------------------------------------- one receipt an id

  lemma {:induction false} DistinctFiltered(ledger: seq<Sale>, p: Sale -> bool)
    requires DistinctReceipts(ledger)
    ensures DistinctReceipts(Filter(ledger, p))
  {
    if ledger == [] {
    } else {
      var rest := Filter(ledger[1..], p);
      DistinctFiltered(ledger[1..], p);
      FilterProperties(ledger[1..], p);
      forall i | 0 <= i < |rest| ensures rest[i].externalId != ledger[0].externalId {
        assert rest[i] in rest && rest[i] in ledger[1..];
      }
    }
  }

  lemma IngestKeepsDistinct(maps: Maps, ledger: seq<Sale>, sales: seq<SaleInput>)
    requires DistinctReceipts(ledger)
    ensures DistinctReceipts(IngestLedger(maps, ledger, sales))
  {
    var kept, planned := Filter(ledger, WithoutIds(Ids(sales))), Plan(maps, sales);
    DistinctFiltered(ledger, WithoutIds(Ids(sales)));
    FilterProperties(ledger, WithoutIds(Ids(sales)));
    PlanKeepsLast(maps, sales);
    PlanIds(maps, sales);
    forall i, j | 0 <= i < |kept| && 0 <= j < |planned| ensures kept[i].externalId != planned[j].externalId {
      assert kept[i] in kept && planned[j] in planned;
    }
  }

  /** No run stores a receipt id twice, however often payloads repeat it: the unique key is never hit. */
  lemma {:induction false} RunNeverRepeatsAReceipt(clock: Clock, st: State, ops: seq<Op>)
    requires DistinctReceipts(st.ledger)
    ensures DistinctReceipts(Run(clock, st, ops).ledger)
    decreases |ops|
  {
    if ops == [] {
    } else {
      var op := ops[0];
      if op.IngestOp? {
        IngestIsRebuild(op.maps, clock, st, op.sales);
        IngestKeepsDistinct(op.maps, st.ledger, op.sales);
      }
      RunNeverRepeatsAReceipt(clock, Step(clock, st, op), ops[1..]);
    }
  }

  // ---------------------------------------------------------------- other channels

  function Elsewhere(): Row -> bool { (r: Row) => r.channel != POS }

  /** The rows of other channels are never touched. */
  lemma {:induction false} OtherChannelsUntouched(clock: Clock, st: State, ops: seq<Op>)
    ensures Filter(Run(clock, st, ops).history, Elsewhere()) == Filter(st.history, Elsewhere())
    decreases |ops|
  {
    if ops == [] {
    } else {
      match ops[0] {
        case IngestOp(maps, sales) =>
          IngestIsRebuild(maps, clock, st, sales);
          RebuildElsewhere(maps, clock, State(IngestLedger(maps, st.ledger, sales), st.history),
            TouchedDays(maps, clock, st.ledger, sales));
        case HealOp(maps, trailingDays, now) =>
          RebuildElsewhere(maps, clock, st, RecentDays(LocalDay(clock, now), trailingDays));
      }
      OtherChannelsUntouched(clock, Step(clock, st, ops[0]), ops[1..]);
    }
  }

  lemma RebuildElsewhere(maps: Maps, clock: Clock, st: State, dayKeys: seq<int>)
    ensures Filter(Rebuild(maps, clock, st, dayKeys).history, Elsewhere()) == Filter(st.history, Elsewhere())
  {
    if dayKeys != [] {
      var days := DaysOf(dayKeys);
      var rows := Aggregate(LinesOf(maps, clock, st.ledger, SoldOn(clock, days)));
      AggregateOnDays(maps, clock, st.ledger, days);
      RowsMembers(rows, POS, days);
      FilterConcat(Filter(st.history, Off(POS, days)), rows, Elsewhere());
      FilterNone(rows, Elsewhere());
      FilterTwice(st.history, Off(POS, days), Elsewhere(), Elsewhere());
      assert Filter(st.history, Elsewhere()) + [] == Filter(st.history, Elsewhere());
    }
  }
}
