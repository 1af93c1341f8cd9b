/** What the till rows of a day say about the stored receipts, field by field: the promise of
    `aggregateStoredPosLines` in packages/pos/src/aggregate.ts, without its fold. */
module PosTable {
  import opened PosRollup
  import opened SalesHistory
  import opened Sorting
  import opened Wrappers

  /** A stored line with its receipt. */
  datatype Sold = Sold(sale: Sale, line: StoredLine)

  function WithSale(sale: Sale): StoredLine -> Sold { (l: StoredLine) => Sold(sale, l) }

  function AllSold(ledger: seq<Sale>): seq<Sold> {
    if ledger == [] then [] else Map(ledger[0].lines, WithSale(ledger[0])) + AllSold(ledger[1..])
  }

  /** The product a line was matched to by hand or, if by none, the one its code stands for now. */
  predicate IsFor(maps: Maps, line: StoredLine, productId: string) {
    line.productId == Some(productId)
    || (line.productId == None && maps.norm(line.sku) in maps.skuToProductId
        && maps.skuToProductId[maps.norm(line.sku)] == productId)
  }

  /** A line that counts for a product on a day: on a physical receipt of that local day, its code not
      ignored, the product in the catalogue. */
  function CountsFor(maps: Maps, clock: Clock, day: int, productId: string): Sold -> bool {
    (x: Sold) =>
      && x.sale.channel == "physical" && (x.sale.date + clock(x.sale.date)) / 86400000 == day
      && maps.norm(x.line.sku) !in maps.ignoredSkus
      && IsFor(maps, x.line, productId) && productId != "" && productId in maps.priceByProductId
  }

  /** The lines that count for a product on a day. */
  function LinesFor(maps: Maps, clock: Clock, ledger: seq<Sale>, day: int, productId: string): seq<Sold> {
    Filter(AllSold(ledger), CountsFor(maps, clock, day, productId))
  }

  function UnitsOf(): Sold -> real { (x: Sold) => x.line.qty }

  /** The subtotal, or else the till price, or else the catalogue price for each unit. */
  function MoneyOf(maps: Maps, productId: string): Sold -> real {
    (x: Sold) =>
      var price := if productId in maps.priceByProductId then maps.priceByProductId[productId] else 0.0;
      if x.line.subtotal > 0.0 then x.line.subtotal
      else if x.line.price > 0.0 then x.line.price * x.line.qty
      else if price > 0.0 then price * x.line.qty
      else 0.0
  }

  /** The receipt was rung up at a warehouse mapped to this location. */
  predicate SoldAt(maps: Maps, sale: Sale, location: string) {
    maps.norm(sale.warehouse) in maps.warehouseToLocationId
    && maps.warehouseToLocationId[maps.norm(sale.warehouse)] == location
  }

  /** A row holds the units and the money of the lines that count for its product and day, and their
      location when all were sold at one real one. */
  ghost predicate RowHolds(maps: Maps, clock: Clock, ledger: seq<Sale>, row: Row) {
    var mine := LinesFor(maps, clock, ledger, row.day, row.productId);
    && mine != []
    && row.quantity == SumBy(mine, UnitsOf()) && row.revenue == SumBy(mine, MoneyOf(maps, row.productId))
    && (forall l :: row.locationId == Some(l)
          <==> l != "" && l != " " && forall x :: x in mine ==> SoldAt(maps, x.sale, l))
  }

  function IsTillRow(day: int): Row -> bool { (r: Row) => r.channel == "pos" && r.day == day }

  /** A day has one till row for each product with a line that counts, and each row holds what it should. */
  ghost predicate DayHolds(maps: Maps, clock: Clock, ledger: seq<Sale>, history: seq<Row>, day: int) {
    var rows := Filter(history, IsTillRow(day));
    && (forall i, j :: 0 <= i < j < |rows| ==> rows[i].productId != rows[j].productId)
    && (forall r :: r in rows ==> RowHolds(maps, clock, ledger, r))
    && (forall productId :: LinesFor(maps, clock, ledger, day, productId) != []
          ==> exists r :: r in rows && r.productId == productId)
  }

  // ---------------------------------------------------------------- the fold gives such rows

  /** The line as the fold sees it. */
  function AsPosLine(maps: Maps, day: int, productId: string): Sold -> PosLine {
    (x: Sold) => PosLine(productId, day, x.line.qty, MoneyOf(maps, productId)(x), LocationOf(maps, x.sale.warehouse))
  }

  lemma OneLine(maps: Maps, clock: Clock, day: int, productId: string, sale: Sale, line: StoredLine)
    requires SoldOn(clock, {day})(sale)
    ensures Filter(Matched(maps, LocalDay(clock, sale.date), sale, line), InBucket(productId, day)) ==
            if CountsFor(maps, clock, day, productId)(Sold(sale, line))
            then [AsPosLine(maps, day, productId)(Sold(sale, line))] else []
  {
    var own, product := Matched(maps, LocalDay(clock, sale.date), sale, line), ProductOf(maps, line);
    assert LocalDay(clock, sale.date) == day;
    assert product == Some(productId) <==> IsFor(maps, line, productId);
    if own != [] {
      assert own[1..] == [] && own[0].productId == product.value;
      if product.value == productId {
        assert LineRevenue(line, maps.priceByProductId[productId]) == MoneyOf(maps, productId)(Sold(sale, line));
        assert own[0] == AsPosLine(maps, day, productId)(Sold(sale, line));
      }
    }
  }

  lemma {:induction false} LinesOfSale(maps: Maps, clock: Clock, day: int, productId: string, sale: Sale,
                                       lines: seq<StoredLine>)
    requires SoldOn(clock, {day})(sale)
    ensures Filter(MatchedLines(maps, LocalDay(clock, sale.date), sale, lines), InBucket(productId, day))
         == Map(Filter(Map(lines, WithSale(sale)), CountsFor(maps, clock, day, productId)),
                AsPosLine(maps, day, productId))
  {
    if lines == [] {
    } else {
      var p, q := InBucket(productId, day), CountsFor(maps, clock, day, productId);
      var head, rest := Matched(maps, LocalDay(clock, sale.date), sale, lines[0]), Map(lines[1..], WithSale(sale));
      LinesOfSale(maps, clock, day, productId, sale, lines[1..]);
      OneLine(maps, clock, day, productId, sale, lines[0]);
      FilterConcat(head, MatchedLines(maps, LocalDay(clock, sale.date), sale, lines[1..]), p);
      hide Matched, MatchedLines, CountsFor, AsPosLine;
      assert Map(lines, WithSale(sale)) == [Sold(sale, lines[0])] + rest;
      FilterCons(Sold(sale, lines[0]), rest, q);
      MapOfCons(Sold(sale, lines[0]), Filter(rest, q), AsPosLine(maps, day, productId));
    }
  }

  lemma MapOfCons<T, U>(x: T, rest: seq<T>, f: T -> U)
    ensures Map([x] + rest, f) == [f(x)] + Map(rest, f)
    ensures Map([] + rest, f) == [] + Map(rest, f)
  {
    assert ([x] + rest)[1..] == rest && [] + rest == rest;
  }

  lemma {:induction false} LinesOfLedger(maps: Maps, clock: Clock, ledger: seq<Sale>, day: int, productId: string)
    ensures Filter(LinesOf(maps, clock, ledger, SoldOn(clock, {day})), InBucket(productId, day))
         == Map(LinesFor(maps, clock, ledger, day, productId), AsPosLine(maps, day, productId))
  {
    if ledger == [] {
    } else {
      var keep, p, q := SoldOn(clock, {day}), InBucket(productId, day), CountsFor(maps, clock, day, productId);
      var sale := ledger[0];
      var head, rest := Map(sale.lines, WithSale(sale)), AllSold(ledger[1..]);
      var lines := if keep(sale) then MatchedLines(maps, LocalDay(clock, sale.date), sale, sale.lines) else [];
      LinesOfLedger(maps, clock, ledger[1..], day, productId);
      if keep(sale) {
        LinesOfSale(maps, clock, day, productId, sale, sale.lines);
      } else {
        forall x | x in head ensures !q(x) {
          var i :| 0 <= i < |head| && head[i] == x;
        }
        FilterNone(head, q);
      }
      hide MatchedLines, CountsFor, AsPosLine, SoldOn;
      FilterConcat(lines, LinesOf(maps, clock, ledger[1..], keep), p);
      FilterConcat(head, rest, q);
      MapConcat(Filter(head, q), Filter(rest, q), AsPosLine(maps, day, productId));
    }
  }

  lemma LocationHolds(maps: Maps, mine: seq<Sold>, day: int, productId: string, location: string)
    requires mine != []
    ensures OnlyLocation(LocationsIn(Map(mine, AsPosLine(maps, day, productId)))) == Some(location)
       <==> location != "" && location != " " && forall x :: x in mine ==> SoldAt(maps, x.sale, location)
  {
    var lines := Map(mine, AsPosLine(maps, day, productId));
    var locs := LocationsIn(lines);
    forall i | 0 <= i < |mine| ensures LocationOf(maps, mine[i].sale.warehouse) in locs {
      assert lines[i] in lines;
    }
    if location != "" && location != " " && forall x :: x in mine ==> SoldAt(maps, x.sale, location) {
      forall l | l in locs ensures l == location {
        var i :| 0 <= i < |lines| && lines[i].location == l;
        assert mine[i] in mine;
      }
      assert mine[0] in mine && locs == {location};
    }
    if OnlyLocation(locs) == Some(location) {
      forall x | x in mine ensures SoldAt(maps, x.sale, location) {
        var i :| 0 <= i < |mine| && mine[i] == x;
        OnlyElement(locs, LocationOf(maps, x.sale.warehouse), location);
      }
    }
  }

  lemma BucketRowHolds(maps: Maps, clock: Clock, ledger: seq<Sale>, day: int, a: Agg)
    requires a.day == day && Holds(a, LinesOf(maps, clock, ledger, SoldOn(clock, {day})))
    ensures RowHolds(maps, clock, ledger, RowOf()(a)) && IsTillRow(day)(RowOf()(a))
  {
    var mine := LinesFor(maps, clock, ledger, day, a.productId);
    LinesOfLedger(maps, clock, ledger, day, a.productId);
    hide LinesFor, LinesOf, OnlyLocation, SoldAt, MoneyOf, LocationOf;
    assert mine != [];
    SumByMap(mine, AsPosLine(maps, day, a.productId), QtyOf(), UnitsOf());
    SumByMap(mine, AsPosLine(maps, day, a.productId), RevenueOf(), MoneyOf(maps, a.productId));
    forall l ensures OnlyLocation(a.locs) == Some(l)
                <==> l != "" && l != " " && forall x :: x in mine ==> SoldAt(maps, x.sale, l) {
      LocationHolds(maps, mine, day, a.productId, l);
    }
  }

  /** The fold of a day's lines is the one table that holds what it should. */
  lemma FoldHolds(maps: Maps, clock: Clock, ledger: seq<Sale>, day: int, rows: seq<Row>)
    requires rows == Aggregate(LinesOf(maps, clock, ledger, SoldOn(clock, {day})))
    requires forall l :: l in LinesOf(maps, clock, ledger, SoldOn(clock, {day})) ==> l.day == day
    ensures DayHolds(maps, clock, ledger, rows, day)
  {
    var lines := LinesOf(maps, clock, ledger, SoldOn(clock, {day}));
    var aggs := Buckets(lines);
    BucketsHold(lines);
    forall i | 0 <= i < |aggs| ensures aggs[i].day == day {
      var p := InBucket(aggs[i].productId, aggs[i].day);
      FilterProperties(lines, p);
      assert Holds(aggs[i], lines);
      assert Filter(lines, p)[0] in Filter(lines, p);
    }
    forall i | 0 <= i < |rows| ensures RowHolds(maps, clock, ledger, rows[i]) && IsTillRow(day)(rows[i]) {
      BucketRowHolds(maps, clock, ledger, day, aggs[i]);
    }
    FilterAll(rows, IsTillRow(day));
    forall productId | LinesFor(maps, clock, ledger, day, productId) != []
      ensures exists r :: r in rows && r.productId == productId
    {
      LinesOfLedger(maps, clock, ledger, day, productId);
      FilterProperties(lines, InBucket(productId, day));
      var l := Filter(lines, InBucket(productId, day))[0];
      assert l in Filter(lines, InBucket(productId, day)) && HasBucket(aggs, l);
      var i :| 0 <= i < |aggs| && SameBucket(aggs[i], l);
      assert rows[i] in rows && rows[i].productId == productId;
    }
  }
}
