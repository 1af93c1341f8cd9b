/** The payload half of a till feed request: `planPosIngest` of packages/pos/src/aggregate.ts. */
module PosPlan {
  import opened PosLines
  import opened PosRollup
  import opened Sorting
  import opened Wrappers

  /** A receipt of the payload, its date already resolved to an instant. */
  datatype SaleInput = SaleInput(externalId: string, date: int, channel: string, createdBy: string, warehouse: string,
                                 lines: seq<LineInput>)

  /** An online receipt is already in the sales table through the shop sync. */
  predicate IsOnline(maps: Maps, s: SaleInput) {
    (maps.norm(s.channel) != "" && maps.norm(s.channel) in ONLINE_CHANNELS) || maps.norm(s.createdBy) == "shopify"
  }

  /** A receipt is online by any of five channel names or by its operator. */
  lemma OnlineMeans(maps: Maps, s: SaleInput)
    ensures IsOnline(maps, s) <==>
              || maps.norm(s.channel) in {"shopify", "online", "web", "ecommerce", "e-commerce"}
              || maps.norm(s.createdBy) == "shopify"
  {}

  function SaleOf(maps: Maps, s: SaleInput): Sale {
    Sale(s.externalId, s.date, s.warehouse, PHYSICAL, Map(s.lines, ToStoredLine(maps)))
  }

  /** A later receipt takes the place of an earlier one with the same id. */
  function PutSale(sales: seq<SaleInput>, s: SaleInput): seq<SaleInput> {
    if sales == [] then [s]
    else if sales[0].externalId == s.externalId then [s] + sales[1..]
    else [sales[0]] + PutSale(sales[1..], s)
  }

  function Dedupe(sales: seq<SaleInput>): seq<SaleInput> {
    if sales == [] then [] else PutSale(Dedupe(sales[..|sales| - 1]), sales[|sales| - 1])
  }

  function Physical(maps: Maps): SaleInput -> bool { (s: SaleInput) => !IsOnline(maps, s) }

  function ToSale(maps: Maps): SaleInput -> Sale { (s: SaleInput) => SaleOf(maps, s) }

  /** The receipts the ledger gets. */
  function Plan(maps: Maps, sales: seq<SaleInput>): seq<Sale> {
    Map(Filter(Dedupe(sales), Physical(maps)), ToSale(maps))
  }

  function Ids(sales: seq<SaleInput>): set<string> { set s | s in sales :: s.externalId }

  // ---------------------------------------------------------------- one receipt an id

  ghost predicate DistinctInputs(sales: seq<SaleInput>) {
    forall i, j :: 0 <= i < j < |sales| ==> sales[i].externalId != sales[j].externalId
  }

  ghost predicate DistinctReceipts(ledger: seq<Sale>) {
    forall i, j :: 0 <= i < j < |ledger| ==> ledger[i].externalId != ledger[j].externalId
  }

  /** No later receipt of the payload has the same id. */
  ghost predicate IsLast(sales: seq<SaleInput>, i: int)
    requires 0 <= i < |sales|
  {
    forall j :: i < j < |sales| ==> sales[j].externalId != sales[i].externalId
  }

  lemma {:induction false} PutSaleIsExact(sales: seq<SaleInput>, s: SaleInput)
    requires DistinctInputs(sales)
    ensures DistinctInputs(PutSale(sales, s))
    ensures forall x :: x in PutSale(sales, s) <==> x == s || (x in sales && x.externalId != s.externalId)
  {
    if sales == [] {
    } else {
      var rest := sales[1..];
      assert sales == [sales[0]] + rest;
      assert forall x :: x in rest ==> x.externalId != sales[0].externalId;
      PutSaleIsExact(rest, s);
      var put := PutSale(rest, s);
      assert forall i :: 0 <= i < |put| ==> put[i] in put;
    }
  }

  /** `x` is the last receipt of its id. */
  ghost predicate Survives(sales: seq<SaleInput>, x: SaleInput) {
    exists i :: 0 <= i < |sales| && sales[i] == x && IsLast(sales, i)
  }

  lemma SurvivesNext(sales: seq<SaleInput>, s: SaleInput, x: SaleInput)
    ensures Survives(sales + [s], x) <==> x == s || (Survives(sales, x) && x.externalId != s.externalId)
  {
    var next, n := sales + [s], |sales|;
    assert next[n] == s && IsLast(next, n);
    if Survives(next, x) && x != s {
      var i :| 0 <= i < |next| && next[i] == x && IsLast(next, i);
      assert sales[i] == x && next[n].externalId != x.externalId;
      forall j | i < j < n ensures sales[j].externalId != x.externalId { assert next[j] == sales[j]; }
      assert IsLast(sales, i);
    }
    if Survives(sales, x) && x.externalId != s.externalId {
      var i :| 0 <= i < n && sales[i] == x && IsLast(sales, i);
      assert next[i] == x && IsLast(next, i);
    }
  }

  /** Deduplication leaves exactly the last receipt of each id. */
  lemma {:induction false} DedupeKeepsLast(sales: seq<SaleInput>)
    ensures DistinctInputs(Dedupe(sales))
    ensures forall x :: x in Dedupe(sales) <==> Survives(sales, x)
  {
    if sales == [] {
    } else {
      var n := |sales| - 1;
      DedupeKeepsLast(sales[..n]);
      PutSaleIsExact(Dedupe(sales[..n]), sales[n]);
      assert sales == sales[..n] + [sales[n]];
      forall x ensures x in Dedupe(sales) <==> Survives(sales, x) {
        SurvivesNext(sales[..n], sales[n], x);
      }
    }
  }

  /** Every id of the payload has a last receipt. */
  lemma {:induction false} LastOfId(sales: seq<SaleInput>, id: string) returns (i: nat)
    requires id in Ids(sales)
    ensures i < |sales| && sales[i].externalId == id && IsLast(sales, i)
  {
    var n := |sales| - 1;
    if sales[n].externalId == id {
      i := n;
    } else {
      assert sales == sales[..n] + [sales[n]];
      i := LastOfId(sales[..n], id);
    }
  }

  lemma DedupeCountsIds(sales: seq<SaleInput>)
    ensures |Dedupe(sales)| == |Ids(sales)|
  {
    var kept := Dedupe(sales);
    DedupeKeepsLast(sales);
    forall id ensures id in Ids(sales) <==> id in Ids(kept) {
      if id in Ids(sales) {
        var i := LastOfId(sales, id);
        assert Survives(sales, sales[i]);
      }
      if id in Ids(kept) {
        var x :| x in kept && x.externalId == id;
        assert Survives(sales, x);
      }
    }
    assert Ids(kept) == Ids(sales);
    DistinctIdsCount(kept);
  }

  lemma {:induction false} DistinctIdsCount(sales: seq<SaleInput>)
    requires DistinctInputs(sales)
    ensures |Ids(sales)| == |sales|
  {
    if sales == [] {
    } else {
      var rest := sales[1..];
      DistinctIdsCount(rest);
      assert sales == [sales[0]] + rest;
      assert forall x :: x in rest ==> x.externalId != sales[0].externalId;
      assert Ids(sales) == Ids(rest) + {sales[0].externalId};
    }
  }

  /** The ledger gets exactly the last receipt of each id of the payload, if it is a physical one, and
      none of them twice. */
  lemma PlanKeepsLast(maps: Maps, sales: seq<SaleInput>)
    ensures DistinctReceipts(Plan(maps, sales))
    ensures forall r :: r in Plan(maps, sales) <==>
              exists i ::
                0 <= i < |sales| && IsLast(sales, i) && !IsOnline(maps, sales[i]) && SaleOf(maps, sales[i]) == r
  {
    var kept := Dedupe(sales);
    var chosen := Filter(kept, Physical(maps));
    DedupeKeepsLast(sales);
    FilterProperties(kept, Physical(maps));
    DistinctInputsFiltered(kept, Physical(maps));
    var plan := Plan(maps, sales);
    assert |plan| == |chosen| && forall i :: 0 <= i < |plan| ==> plan[i] == SaleOf(maps, chosen[i]);
    forall r ensures r in plan <==>
        exists i :: 0 <= i < |sales| && IsLast(sales, i) && !IsOnline(maps, sales[i]) && SaleOf(maps, sales[i]) == r
    {
      if r in plan {
        var k :| 0 <= k < |plan| && plan[k] == r;
        assert chosen[k] in chosen;
        assert Survives(sales, chosen[k]);
      }
      if i :| 0 <= i < |sales| && IsLast(sales, i) && !IsOnline(maps, sales[i]) && SaleOf(maps, sales[i]) == r {
        assert Survives(sales, sales[i]) && sales[i] in chosen;
        var k :| 0 <= k < |chosen| && chosen[k] == sales[i];
        assert plan[k] == r;
      }
    }
  }

  lemma {:induction false} DistinctInputsFiltered(sales: seq<SaleInput>, p: SaleInput -> bool)
    requires DistinctInputs(sales)
    ensures DistinctInputs(Filter(sales, p))
  {
    if sales == [] {
    } else {
      var rest := Filter(sales[1..], p);
      DistinctInputsFiltered(sales[1..], p);
      FilterProperties(sales[1..], p);
      forall i | 0 <= i < |rest| ensures rest[i].externalId != sales[0].externalId {
        assert rest[i] in rest && rest[i] in sales[1..];
      }
    }
  }

  lemma PlanIds(maps: Maps, sales: seq<SaleInput>)
    ensures forall r :: r in Plan(maps, sales) ==> r.externalId in Ids(sales) && r.channel == PHYSICAL
  {
    PlanKeepsLast(maps, sales);
    forall r | r in Plan(maps, sales) ensures r.externalId in Ids(sales) && r.channel == PHYSICAL {
      var i :| 0 <= i < |sales| && IsLast(sales, i) && !IsOnline(maps, sales[i]) && SaleOf(maps, sales[i]) == r;
      assert sales[i] in sales;
    }
  }

  // ---------------------------------------------------------------- the counts

  function CountLines(maps: Maps, sales: seq<SaleInput>, kind: LineKind): nat {
    if sales == [] then 0
    else CountLines(maps, sales[..|sales| - 1], kind) + CountIf(sales[|sales| - 1].lines, IsKind(maps, kind))
  }

  function StoredLineCount(ledger: seq<Sale>): nat {
    if ledger == [] then 0 else StoredLineCount(ledger[..|ledger| - 1]) + |ledger[|ledger| - 1].lines|
  }

  /** The lines of some receipts, in order. */
  function AllLines(sales: seq<SaleInput>): seq<LineInput> {
    if sales == [] then [] else AllLines(sales[..|sales| - 1]) + sales[|sales| - 1].lines
  }

  datatype Counts = Counts(excluded: nat, matched: nat, unmatched: nat, ignored: nat)

  /** The unmatched codes of a payload, most revenue first. */
  function PlanQueue(maps: Maps, sales: seq<SaleInput>): seq<Unmatched> {
    RankedQueue(maps, AllLines(Filter(Dedupe(sales), Physical(maps))))
  }

  /** What the loop over the receipts has planned, counted and queued after the receipts `seen`. */
  ghost predicate PlannedSoFar(maps: Maps, seen: seq<SaleInput>, planned: seq<Sale>, counts: Counts,
                               queue: seq<Unmatched>) {
    var physical := Filter(seen, Physical(maps));
    && queue == QueueOf(maps, AllLines(physical))
    && planned == Map(physical, ToSale(maps))
    && |planned| + counts.excluded == |seen|
    && counts.matched + counts.unmatched + counts.ignored == StoredLineCount(planned)
    && counts.matched == CountLines(maps, physical, Linked)
    && counts.ignored == CountLines(maps, physical, Ignored)
  }

  /** Every id of the payload is planned or excluded, and every stored line is of one kind. */
  ghost predicate Counted(maps: Maps, sales: seq<SaleInput>, planned: seq<Sale>, counts: Counts) {
    var physical := Filter(Dedupe(sales), Physical(maps));
    && |planned| + counts.excluded == |Ids(sales)|
    && counts.matched + counts.unmatched + counts.ignored == StoredLineCount(planned)
    && counts.matched == CountLines(maps, physical, Linked)
    && counts.ignored == CountLines(maps, physical, Ignored)
  }

  /** Plans every physical receipt once; each stored line is counted under one kind, none dropped, and
      the codes without a product are ranked by revenue. */
  method PlanSales(maps: Maps, sales: seq<SaleInput>)
    returns (planned: seq<Sale>, counts: Counts, unmatched: seq<Unmatched>)
    ensures planned == Plan(maps, sales) && Counted(maps, sales, planned, counts)
    ensures unmatched == PlanQueue(maps, sales)
  {
    hide PlannedSoFar, Counted, Plan, RankedQueue;
    var deduped := Dedupe(sales);
    var queue: seq<Unmatched> := [];
    planned, counts := [], Counts(0, 0, 0, 0);
    NothingPlanned(maps, deduped);
    for i := 0 to |deduped|
      invariant PlannedSoFar(maps, deduped[..i], planned, counts, queue)
    {
      planned, counts, queue := PlanReceipt(maps, deduped[..i], deduped[i], planned, counts, queue);
      assert deduped[..i + 1] == deduped[..i] + [deduped[i]];
    }
    assert deduped[..|deduped|] == deduped;
    AllPlanned(maps, sales, planned, counts, queue);
    unmatched := Sort(queue, ByRevenue());
  }

  lemma NothingPlanned(maps: Maps, deduped: seq<SaleInput>)
    ensures PlannedSoFar(maps, deduped[..0], [], Counts(0, 0, 0, 0), [])
  {}

  lemma AllPlanned(maps: Maps, sales: seq<SaleInput>, planned: seq<Sale>, counts: Counts, queue: seq<Unmatched>)
    requires PlannedSoFar(maps, Dedupe(sales), planned, counts, queue)
    ensures planned == Plan(maps, sales) && Counted(maps, sales, planned, counts)
    ensures Sort(queue, ByRevenue()) == PlanQueue(maps, sales)
  {
    DedupeCountsIds(sales);
  }

  /** One round of the loop over the receipts. */
  method PlanReceipt(maps: Maps, ghost seen: seq<SaleInput>, sale: SaleInput, before: seq<Sale>, counted: Counts,
                     queued: seq<Unmatched>)
    returns (planned: seq<Sale>, counts: Counts, queue: seq<Unmatched>)
    requires PlannedSoFar(maps, seen, before, counted, queued)
    ensures PlannedSoFar(maps, seen + [sale], planned, counts, queue)
  {
    if IsOnline(maps, sale) {
      OnlineSkipped(maps, seen, sale, before, counted, queued);
      return before, counted.(excluded := counted.excluded + 1), queued;
    }
    var stored: seq<StoredLine>, kinds: Counts;
    stored, kinds, queue := PlanLines(maps, sale.lines, AllLines(Filter(seen, Physical(maps))), queued);
    PhysicalPlanned(maps, seen, sale, before, counted, queued, stored, kinds, queue);
    planned := before + [Sale(sale.externalId, sale.date, sale.warehouse, PHYSICAL, stored)];
    counts := Counts(counted.excluded, counted.matched + kinds.matched, counted.unmatched + kinds.unmatched,
      counted.ignored + kinds.ignored);
  }

  lemma FilterNext(maps: Maps, seen: seq<SaleInput>, sale: SaleInput)
    ensures Filter(seen + [sale], Physical(maps))
         == if IsOnline(maps, sale) then Filter(seen, Physical(maps)) else Filter(seen, Physical(maps)) + [sale]
  {
    FilterConcat(seen, [sale], Physical(maps));
    assert [sale][1..] == [] && Filter(seen, Physical(maps)) + [] == Filter(seen, Physical(maps));
  }

  lemma OnlineSkipped(maps: Maps, seen: seq<SaleInput>, sale: SaleInput, planned: seq<Sale>, counts: Counts,
                      queue: seq<Unmatched>)
    requires PlannedSoFar(maps, seen, planned, counts, queue) && IsOnline(maps, sale)
    ensures PlannedSoFar(maps, seen + [sale], planned, counts.(excluded := counts.excluded + 1), queue)
  {
    FilterNext(maps, seen, sale);
  }

  lemma PhysicalPlanned(maps: Maps, seen: seq<SaleInput>, sale: SaleInput, planned: seq<Sale>, counts: Counts,
                        queued: seq<Unmatched>, stored: seq<StoredLine>, kinds: Counts, queue: seq<Unmatched>)
    requires PlannedSoFar(maps, seen, planned, counts, queued) && !IsOnline(maps, sale)
    requires LinesPlanned(maps, sale.lines, stored, kinds)
    requires queue == QueueOf(maps, AllLines(Filter(seen, Physical(maps))) + sale.lines)
    ensures PlannedSoFar(maps, seen + [sale],
                         planned + [Sale(sale.externalId, sale.date, sale.warehouse, PHYSICAL, stored)],
                         Counts(counts.excluded, counts.matched + kinds.matched, counts.unmatched + kinds.unmatched,
                                counts.ignored + kinds.ignored), queue)
  {
    var physical := Filter(seen, Physical(maps));
    var receipt := Sale(sale.externalId, sale.date, sale.warehouse, PHYSICAL, stored);
    FilterNext(maps, seen, sale);
    MapConcat(physical, [sale], ToSale(maps));
    assert (physical + [sale])[..|physical|] == physical;
    assert (planned + [receipt])[..|planned|] == planned;
    assert Map([sale], ToSale(maps)) == [receipt];
  }

  ghost predicate LinesPlanned(maps: Maps, lines: seq<LineInput>, stored: seq<StoredLine>, kinds: Counts) {
    && stored == Map(lines, ToStoredLine(maps))
    && kinds.matched == CountIf(lines, IsKind(maps, Linked))
    && kinds.ignored == CountIf(lines, IsKind(maps, Ignored))
    && kinds.matched + kinds.unmatched + kinds.ignored == |stored|
  }

  lemma LinesPlannedNext(maps: Maps, lines: seq<LineInput>, line: LineInput, stored: seq<StoredLine>, kinds: Counts)
    requires LinesPlanned(maps, lines, stored, kinds)
    ensures LinesPlanned(maps, lines + [line], stored + [StoredLineOf(maps, line)],
                         match KindOf(maps, line)
                         case Ignored => kinds.(ignored := kinds.ignored + 1)
                         case Unlinked => kinds.(unmatched := kinds.unmatched + 1)
                         case Linked => kinds.(matched := kinds.matched + 1))
  {
    MapConcat(lines, [line], ToStoredLine(maps));
    CountIfConcat(lines, [line], IsKind(maps, Linked));
    CountIfConcat(lines, [line], IsKind(maps, Ignored));
    hide KindOf, StoredLineOf;
    assert [line][1..] == [];
  }

  lemma NextLine(earlier: seq<LineInput>, lines: seq<LineInput>, i: nat)
    requires i < |lines|
    ensures lines[..i + 1] == lines[..i] + [lines[i]]
    ensures earlier + lines[..i + 1] == (earlier + lines[..i]) + [lines[i]]
  {}

  /** What the loop makes of one line. */
  lemma LineMeans(maps: Maps, line: LineInput, productId: Option<string>)
    requires var key := maps.norm(line.sku);
      productId == if key != "" && key in maps.skuToProductId then Some(maps.skuToProductId[key]) else None
    ensures StoredLineOf(maps, line)
         == StoredLine(line.sku, line.qty, line.price.GetOr(0.0), line.subtotal.GetOr(0.0), productId)
    ensures KindOf(maps, line) ==
      if maps.norm(line.sku) != "" && maps.norm(line.sku) in maps.ignoredSkus then Ignored
      else if productId.GetOr("") == "" then Unlinked else Linked
    ensures IsQueued(maps, line) <==> maps.norm(line.sku) != "" && KindOf(maps, line) == Unlinked
  {}

  /** The lines of one receipt as they are stored, every one of them counted under one kind. */
  method PlanLines(maps: Maps, lines: seq<LineInput>, ghost earlier: seq<LineInput>, queued: seq<Unmatched>)
    returns (stored: seq<StoredLine>, kinds: Counts, queue: seq<Unmatched>)
    requires queued == QueueOf(maps, earlier)
    ensures LinesPlanned(maps, lines, stored, kinds)
    ensures queue == QueueOf(maps, earlier + lines)
  {
    stored, kinds, queue := [], Counts(0, 0, 0, 0), queued;
    assert earlier + lines[..0] == earlier;
    assert LinesPlanned(maps, lines[..0], stored, kinds);
    hide LinesPlanned, QueueOf, PutEntry, EntryOf, KindOf, StoredLineOf, IsQueued;
    for i := 0 to |lines|
      invariant LinesPlanned(maps, lines[..i], stored, kinds)
      invariant queue == QueueOf(maps, earlier + lines[..i])
    {
      var line := lines[i];
      NextLine(earlier, lines, i);
      QueueNext(maps, earlier + lines[..i], line);
      LinesPlannedNext(maps, lines[..i], line, stored, kinds);
      var key := maps.norm(line.sku);
      var productId := if key != "" && key in maps.skuToProductId then Some(maps.skuToProductId[key]) else None;
      LineMeans(maps, line, productId);
      stored := stored + [StoredLine(line.sku, line.qty, line.price.GetOr(0.0), line.subtotal.GetOr(0.0), productId)];
      if key != "" && key in maps.ignoredSkus {
        kinds := kinds.(ignored := kinds.ignored + 1);
      } else if productId.GetOr("") == "" {
        kinds := kinds.(unmatched := kinds.unmatched + 1);
        if key != "" {
          queue := PutEntry(queue, EntryOf(maps, line));
        }
      } else {
        kinds := kinds.(matched := kinds.matched + 1);
      }
    }
    assert lines[..|lines|] == lines;
  }
}
