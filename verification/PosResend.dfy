/** Payloads and repairs sent again: what `ingestPosSales` and `healPosRollup` of
    packages/pos/src/ingest.ts make of the same work done twice or in two parts. */
module PosResend {
  import opened Numbers
  import opened PosIngest
  import opened PosPlan
  import opened PosRollup
  import opened SalesHistory
  import opened Sorting
  import opened Wrappers

  /** Tables with the same till rows on every day and the same other rows hold the same rows. */
  lemma SameRows(a: seq<Row>, b: seq<Row>)
    requires forall day :: multiset(PosRows(a, day)) == multiset(PosRows(b, day))
    requires Filter(a, Elsewhere()) == Filter(b, Elsewhere())
    ensures multiset(a) == multiset(b)
  {
    forall r: Row ensures multiset(a)[r] == multiset(b)[r] {
      assert multiset(PosRows(a, r.day)) == multiset(PosRows(b, r.day));
      FilterCount(a, RowOnDay(r.day), r);
      FilterCount(b, RowOnDay(r.day), r);
      FilterCount(a, Elsewhere(), r);
      FilterCount(b, Elsewhere(), r);
    }
  }

  lemma IngestElsewhere(maps: Maps, clock: Clock, st: State, sales: seq<SaleInput>)
    ensures Filter(Ingest(maps, clock, st, sales).history, Elsewhere()) == Filter(st.history, Elsewhere())
  {
    IngestIsRebuild(maps, clock, st, sales);
    RebuildElsewhere(maps, clock, State(IngestLedger(maps, st.ledger, sales), st.history),
      TouchedDays(maps, clock, st.ledger, sales));
  }

  // ---------------------------------------------------------------- the same payload again

  /** The second request's receipts take the place of the first's, and are all that is replaced. */
  lemma SecondLedger(a: Maps, b: Maps, ledger: seq<Sale>, sales: seq<SaleInput>)
    ensures var kept, once := Filter(ledger, WithoutIds(Ids(sales))), IngestLedger(a, ledger, sales);
      && Filter(once, WithoutIds(Ids(sales))) == kept && IngestLedger(b, once, sales) == kept + Plan(b, sales)
      && Filter(once, WithIds(Ids(sales))) == Plan(a, sales)
  {
    var ids := Ids(sales);
    var kept, planned := Filter(ledger, WithoutIds(ids)), Plan(a, sales);
    PlanIds(a, sales);
    FilterProperties(ledger, WithoutIds(ids));
    FilterConcat(kept, planned, WithoutIds(ids));
    FilterConcat(kept, planned, WithIds(ids));
    FilterAll(kept, WithoutIds(ids));
    FilterNone(planned, WithoutIds(ids));
    FilterNone(kept, WithIds(ids));
    FilterAll(planned, WithIds(ids));
    assert kept + [] == kept && [] + planned == planned;
  }

  /** Sending a payload again leaves the ledger as it is and the sales table with the same rows, day by
      day in the same order, whatever the days held before. */
  lemma ReingestChangesNothing(maps: Maps, clock: Clock, st: State, sales: seq<SaleInput>)
    ensures var once := Ingest(maps, clock, st, sales); var twice := Ingest(maps, clock, once, sales);
      && twice.ledger == once.ledger
      && (forall day :: PosRows(twice.history, day) == PosRows(once.history, day))
      && multiset(twice.history) == multiset(once.history)
  {
    var once := Ingest(maps, clock, st, sales);
    var twice := Ingest(maps, clock, once, sales);
    IngestIsRebuild(maps, clock, st, sales);
    IngestIsRebuild(maps, clock, once, sales);
    SecondLedger(maps, maps, st.ledger, sales);
    forall day ensures PosRows(twice.history, day) == PosRows(once.history, day) {
      StepOnDay(clock, st, IngestOp(maps, sales), maps, day);
      StepOnDay(clock, once, IngestOp(maps, sales), maps, day);
    }
    IngestElsewhere(maps, clock, once, sales);
    SameRows(twice.history, once.history);
  }

  /** Repairing again leaves the whole store exactly as the first repair did. */
  lemma HealTwiceIsOnce(maps: Maps, clock: Clock, st: State, trailingDays: nat, now: int)
    ensures var once := Heal(maps, clock, st, trailingDays, now);
      Heal(maps, clock, once, trailingDays, now) == once
  {
    var days := DaysOf(RecentDays(LocalDay(clock, now), trailingDays));
    AggregateOnDays(maps, clock, st.ledger, days);
    ReplaceIdempotent(st.history, POS, days, Aggregate(LinesOf(maps, clock, st.ledger, SoldOn(clock, days))));
  }

  // ---------------------------------------------------------------- a payload in two parts

  lemma LastInParts(xs: seq<SaleInput>, ys: seq<SaleInput>, i: nat)
    requires i < |xs| + |ys|
    ensures IsLast(xs + ys, i) <==>
              if i < |xs| then IsLast(xs, i) && xs[i].externalId !in Ids(ys) else IsLast(ys, i - |xs|)
  {
    var all := xs + ys;
    if IsLast(all, i) {
      if i < |xs| {
        forall j | i < j < |xs| ensures xs[j].externalId != xs[i].externalId { assert all[j] == xs[j]; }
        forall j | 0 <= j < |ys| ensures ys[j].externalId != xs[i].externalId { assert all[|xs| + j] == ys[j]; }
      } else {
        forall j | i - |xs| < j < |ys|
          ensures ys[j].externalId != ys[i - |xs|].externalId
        {
          assert all[|xs| + j] == ys[j];
        }
      }
    }
    if i < |xs| && IsLast(xs, i) && xs[i].externalId !in Ids(ys) {
      forall j | i < j < |all| ensures all[j].externalId != all[i].externalId {
        if j >= |xs| { assert ys[j - |xs|] in ys; }
      }
    }
  }

  lemma PlanOfParts(maps: Maps, xs: seq<SaleInput>, ys: seq<SaleInput>, r: Sale)
    ensures r in Plan(maps, xs + ys) <==> r in Plan(maps, ys) || (r in Plan(maps, xs) && r.externalId !in Ids(ys))
  {
    var all := xs + ys;
    PlanKeepsLast(maps, all);
    PlanKeepsLast(maps, xs);
    PlanKeepsLast(maps, ys);
    if r in Plan(maps, all) {
      var i :| 0 <= i < |all| && IsLast(all, i) && !IsOnline(maps, all[i]) && SaleOf(maps, all[i]) == r;
      LastInParts(xs, ys, i);
      if i < |xs| { assert xs[i] == all[i]; } else { assert ys[i - |xs|] == all[i]; }
    }
    if r in Plan(maps, ys) {
      var i :| 0 <= i < |ys| && IsLast(ys, i) && !IsOnline(maps, ys[i]) && SaleOf(maps, ys[i]) == r;
      LastInParts(xs, ys, |xs| + i);
      assert all[|xs| + i] == ys[i];
    }
    if r in Plan(maps, xs) && r.externalId !in Ids(ys) {
      var i :| 0 <= i < |xs| && IsLast(xs, i) && !IsOnline(maps, xs[i]) && SaleOf(maps, xs[i]) == r;
      LastInParts(xs, ys, i);
      assert all[i] == xs[i];
    }
  }

  lemma DistinctReceiptsAreDistinct(ledger: seq<Sale>)
    requires DistinctReceipts(ledger)
    ensures Distinct(ledger)
  {}

  /** The plan of a whole payload is the plan of its tail and what the tail leaves of the head's. */
  lemma PlanPartsTogether(maps: Maps, xs: seq<SaleInput>, ys: seq<SaleInput>)
    ensures multiset(Plan(maps, xs + ys)) == multiset(IngestLedger(maps, Plan(maps, xs), ys))
  {
    var whole, parts := Plan(maps, xs + ys), IngestLedger(maps, Plan(maps, xs), ys);
    PlanKeepsLast(maps, xs + ys);
    PlanKeepsLast(maps, xs);
    IngestKeepsDistinct(maps, Plan(maps, xs), ys);
    FilterProperties(Plan(maps, xs), WithoutIds(Ids(ys)));
    forall r ensures r in whole <==> r in parts {
      PlanOfParts(maps, xs, ys, r);
    }
    DistinctReceiptsAreDistinct(whole);
    DistinctReceiptsAreDistinct(parts);
    DistinctSameElements(whole, parts);
  }

  lemma LedgerOfParts(maps: Maps, ledger: seq<Sale>, xs: seq<SaleInput>, ys: seq<SaleInput>)
    ensures multiset(IngestLedger(maps, ledger, xs + ys))
      == multiset(IngestLedger(maps, IngestLedger(maps, ledger, xs), ys))
  {
    var x, y := WithoutIds(Ids(xs)), WithoutIds(Ids(ys));
    assert Ids(xs + ys) == Ids(xs) + Ids(ys);
    FilterTwice(ledger, x, y, WithoutIds(Ids(xs + ys)));
    FilterConcat(Filter(ledger, x), Plan(maps, xs), y);
    PlanPartsTogether(maps, xs, ys);
  }

  /** Ledgers that hold the same receipts give the same rows. */
  lemma SameReceiptsSameRows(maps: Maps, clock: Clock, a: seq<Sale>, b: seq<Sale>, day: int)
    requires multiset(a) == multiset(b)
    ensures multiset(DayRows(maps, clock, a, day)) == multiset(DayRows(maps, clock, b, day))
  {
    LinesOfPermutation(maps, clock, a, b, SoldOn(clock, {day}));
    RowsIgnoreLineOrder(LinesOf(maps, clock, a, SoldOn(clock, {day})), LinesOf(maps, clock, b, SoldOn(clock, {day})));
  }

  lemma TouchedMeans(maps: Maps, clock: Clock, ledger: seq<Sale>, sales: seq<SaleInput>, day: int)
    ensures day in TouchedDays(maps, clock, ledger, sales) <==>
              exists r ::
                ((r in ledger && r.externalId in Ids(sales)) || r in Plan(maps, sales))
                  && LocalDay(clock, r.date) == day
  {
    var gone, planned := Filter(ledger, WithIds(Ids(sales))), Plan(maps, sales);
    FilterProperties(ledger, WithIds(Ids(sales)));
    var goneDays, comeDays := DaysSold(clock, gone), DaysSold(clock, planned);
    if day in goneDays {
      var i :| 0 <= i < |goneDays| && goneDays[i] == day;
      assert gone[i] in gone;
    }
    if day in comeDays {
      var i :| 0 <= i < |comeDays| && comeDays[i] == day;
      assert planned[i] in planned;
    }
    if r :| ((r in ledger && r.externalId in Ids(sales)) || r in planned) && LocalDay(clock, r.date) == day {
      if r in planned { GoneDay(clock, planned, r, day); } else { GoneDay(clock, gone, r, day); }
    }
  }

  /** The days a payload sent in two parts rebuilds. */
  function TouchedByParts(maps: Maps, clock: Clock, ledger: seq<Sale>, xs: seq<SaleInput>, ys: seq<SaleInput>)
    : seq<int> {
    TouchedDays(maps, clock, ledger, xs) + TouchedDays(maps, clock, IngestLedger(maps, ledger, xs), ys)
  }

  lemma PartsTouchMore(maps: Maps, clock: Clock, ledger: seq<Sale>, xs: seq<SaleInput>, ys: seq<SaleInput>, day: int)
    requires day in TouchedDays(maps, clock, ledger, xs + ys)
    ensures day in TouchedByParts(maps, clock, ledger, xs, ys)
  {
    TouchedMeans(maps, clock, ledger, xs + ys, day);
    TouchedMeans(maps, clock, ledger, xs, day);
    TouchedMeans(maps, clock, IngestLedger(maps, ledger, xs), ys, day);
    FilterProperties(ledger, WithoutIds(Ids(xs)));
    assert Ids(xs + ys) == Ids(xs) + Ids(ys);
    var r :| ((r in ledger && r.externalId in Ids(xs + ys)) || r in Plan(maps, xs + ys))
      && LocalDay(clock, r.date) == day;
    PlanOfParts(maps, xs, ys, r);
  }

  /** A payload in two parts leaves a day it touches in agreement and any other as it was. */
  lemma PartsOnDay(maps: Maps, clock: Clock, st: State, xs: seq<SaleInput>, ys: seq<SaleInput>, day: int)
    ensures var b := Ingest(maps, clock, Ingest(maps, clock, st, xs), ys);
      && b.ledger == IngestLedger(maps, IngestLedger(maps, st.ledger, xs), ys)
      && (if day in TouchedByParts(maps, clock, st.ledger, xs, ys) then AgreesOn(maps, clock, b, day)
          else PosRows(b.history, day) == PosRows(st.history, day))
  {
    var once := Ingest(maps, clock, st, xs);
    IngestIsRebuild(maps, clock, st, xs);
    IngestIsRebuild(maps, clock, once, ys);
    StepOnDay(clock, st, IngestOp(maps, xs), maps, day);
    StepOnDay(clock, once, IngestOp(maps, ys), maps, day);
  }

  /** Sending a payload and sending its head and then its tail end with the same receipts stored, and
      on every day with the same till rows, except a stale day: one that only the head's receipts fell
      on, until the tail took them back, and whose rows did not match the ledger before. */
  lemma PartsAgreeWithWhole(maps: Maps, clock: Clock, st: State, xs: seq<SaleInput>, ys: seq<SaleInput>, day: int)
    ensures var a := Ingest(maps, clock, st, xs + ys); var b := Ingest(maps, clock, Ingest(maps, clock, st, xs), ys);
      && multiset(a.ledger) == multiset(b.ledger)
      && (multiset(PosRows(a.history, day)) == multiset(PosRows(b.history, day)) <==>
            || day in TouchedDays(maps, clock, st.ledger, xs + ys)
            || day !in TouchedByParts(maps, clock, st.ledger, xs, ys)
            || multiset(PosRows(st.history, day)) == multiset(DayRows(maps, clock, st.ledger, day)))
  {
    var a, b := Ingest(maps, clock, st, xs + ys), Ingest(maps, clock, Ingest(maps, clock, st, xs), ys);
    IngestIsRebuild(maps, clock, st, xs + ys);
    LedgerOfParts(maps, st.ledger, xs, ys);
    PartsOnDay(maps, clock, st, xs, ys, day);
    SameReceiptsSameRows(maps, clock, a.ledger, b.ledger, day);
    StepOnDay(clock, st, IngestOp(maps, xs + ys), maps, day);
    if day in TouchedDays(maps, clock, st.ledger, xs + ys) { PartsTouchMore(maps, clock, st.ledger, xs, ys, day); }
  }

  /** A clock at UTC and lookups that know nothing. */
  function Utc(): Clock { (t: int) => 0 }

  function Blank(): Maps { Maps((s: string) => s, (s: string) => s, map[], {}, map[], map[]) }

  function ReceiptOn(day: int): SaleInput { SaleInput("receipt", day * DAY_MS, "till", "", "", []) }

  /** A till row on day 0 that no receipt stands behind. */
  function StaleStore(): State { State([], [Row("product", 0, POS, None, 1.0, 1.0)]) }

  lemma PlanOfOne(day: int)
    ensures Plan(Blank(), [ReceiptOn(day)]) == [Sale("receipt", day * DAY_MS, "", PHYSICAL, [])]
    ensures DaysSold(Utc(), Plan(Blank(), [ReceiptOn(day)])) == [day]
  {
    var r := ReceiptOn(day);
    assert [r][..0] == [] && [r][1..] == [];
    assert Dedupe([r]) == [r];
    assert !IsOnline(Blank(), r);
    assert Filter([r], Physical(Blank())) == [r];
    assert SaleOf(Blank(), r) == Sale("receipt", day * DAY_MS, "", PHYSICAL, []);
  }

  /** The second receipt takes the first one's place. */
  lemma PlanOfMoved()
    ensures Plan(Blank(), [ReceiptOn(0)] + [ReceiptOn(1)]) == Plan(Blank(), [ReceiptOn(1)])
  {
    var xs, ys := [ReceiptOn(0)], [ReceiptOn(1)];
    assert xs[..0] == [] == ys[..0] && xs[1..] == [] && (xs + ys)[..1] == xs;
    assert Dedupe(xs) == xs && Dedupe(ys) == ys && Dedupe(xs + ys) == ys;
  }

  lemma TouchedFromNothing(sales: seq<SaleInput>)
    ensures TouchedDays(Blank(), Utc(), [], sales) == DaysSold(Utc(), Plan(Blank(), sales))
  {
    assert DaysSold(Utc(), []) + DaysSold(Utc(), Plan(Blank(), sales)) == DaysSold(Utc(), Plan(Blank(), sales));
  }

  lemma StaleDayDisagrees()
    ensures multiset(PosRows(StaleStore().history, 0)) != multiset(DayRows(Blank(), Utc(), [], 0))
  {
    var row := Row("product", 0, POS, None, 1.0, 1.0);
    assert [row][1..] == [];
    assert RowOnDay(0)(row);
    FilterAll([row], RowOnDay(0));
    assert DayRows(Blank(), Utc(), [], 0) == [];
    assert row in multiset([row]);
  }

  /** The exception is real: a stale till row on the day of a receipt that the tail moves to the next day
      survives the whole payload and not its two parts. */
  lemma StaleDayTellsPartsApart()
    ensures var maps, clock, st, xs, ys := Blank(), Utc(), StaleStore(), [ReceiptOn(0)], [ReceiptOn(1)];
      var a := Ingest(maps, clock, st, xs + ys); var b := Ingest(maps, clock, Ingest(maps, clock, st, xs), ys);
      multiset(PosRows(a.history, 0)) != multiset(PosRows(b.history, 0))
  {
    hide Plan, Aggregate, LinesOf, Ingest, Rebuild, DaysSold, Filter;
    var xs, ys := [ReceiptOn(0)], [ReceiptOn(1)];
    PartsAgreeWithWhole(Blank(), Utc(), StaleStore(), xs, ys, 0);
    PlanOfOne(0);
    PlanOfOne(1);
    PlanOfMoved();
    TouchedFromNothing(xs);
    TouchedFromNothing(xs + ys);
    StaleDayDisagrees();
  }

  /** From a store that agrees with its ledger the two ways end with the same rows altogether. */
  lemma PartsAgreeAltogether(maps: Maps, clock: Clock, st: State, xs: seq<SaleInput>, ys: seq<SaleInput>)
    requires Agrees(maps, clock, st)
    ensures var a := Ingest(maps, clock, st, xs + ys); var b := Ingest(maps, clock, Ingest(maps, clock, st, xs), ys);
      multiset(a.ledger) == multiset(b.ledger) && multiset(a.history) == multiset(b.history)
  {
    var once := Ingest(maps, clock, st, xs);
    var a, b := Ingest(maps, clock, st, xs + ys), Ingest(maps, clock, once, ys);
    forall day ensures multiset(PosRows(a.history, day)) == multiset(PosRows(b.history, day)) {
      assert AgreesOn(maps, clock, st, day);
      PartsAgreeWithWhole(maps, clock, st, xs, ys, day);
    }
    PartsAgreeWithWhole(maps, clock, st, xs, ys, 0);
    IngestElsewhere(maps, clock, st, xs + ys);
    IngestElsewhere(maps, clock, st, xs);
    IngestElsewhere(maps, clock, once, ys);
    SameRows(a.history, b.history);
  }
}
