/** From stored till lines to derived sales rows: packages/pos/src/aggregate.ts and the reading
    half of `rebuildDays` in packages/pos/src/ingest.ts. */
module PosRollup {
  import opened Numbers
  import opened SalesHistory
  import opened Sorting
  import opened Wrappers

  const POS := "pos"
  const PHYSICAL := "physical"
  const ONLINE_CHANNELS := {"shopify", "online", "web", "ecommerce", "e-commerce"}
  /** Stands for "unattributed" in a day's set of locations. */
  const LOC_NULL := " "

  /** The lookups a rebuild works with; `norm` is the till-SKU normalisation, `trim` its first half. */
  datatype Maps = Maps(
    norm: string -> string,
    trim: string -> string,
    skuToProductId: map<string, string>,
    ignoredSkus: set<string>,
    priceByProductId: map<string, real>,
    warehouseToLocationId: map<string, string>)

  datatype StoredLine = StoredLine(sku: string, qty: real, price: real, subtotal: real, productId: Option<string>)

  /** A ledger receipt with its lines; `date` is the instant in milliseconds. */
  datatype Sale = Sale(externalId: string, date: int, warehouse: string, channel: string, lines: seq<StoredLine>)

  /** The tenant's clock: what to add to an instant to read its wall clock. */
  type Clock = int -> int

  ghost predicate RealClock(clock: Clock) {
    forall t :: -12 * HOUR_MS <= clock(t) <= 14 * HOUR_MS
  }

  /** The tenant-local day of an instant, as a day number. */
  function LocalDay(clock: Clock, t: int): int { (t + clock(t)) / DAY_MS }

  // ---------------------------------------------------------------- matched lines

  /** A matched line joined to its sale. */
  datatype PosLine = PosLine(productId: string, day: int, qty: real, revenue: real, location: string)

  function LineRevenue(line: StoredLine, productPrice: real): real {
    if line.subtotal > 0.0 then line.subtotal
    else if line.price > 0.0 then line.price * line.qty
    else if productPrice > 0.0 then productPrice * line.qty
    else 0.0
  }

  function LocationOf(maps: Maps, warehouse: string): string {
    var w := maps.norm(warehouse);
    if w in maps.warehouseToLocationId then maps.warehouseToLocationId[w] else LOC_NULL
  }

  /** An explicit match is kept; otherwise the current maps may recover one. */
  function ProductOf(maps: Maps, line: StoredLine): Option<string> {
    if line.productId.Some? then line.productId
    else
      var key := maps.norm(line.sku);
      if key in maps.skuToProductId then Some(maps.skuToProductId[key]) else None
  }

  /** The line as the rollup sees it: ignored, unmatched and unpriced lines are skipped. */
  function Matched(maps: Maps, day: int, sale: Sale, line: StoredLine): seq<PosLine> {
    var product := ProductOf(maps, line);
    if maps.norm(line.sku) in maps.ignoredSkus || product.None? || product.value == ""
      || product.value !in maps.priceByProductId then []
    else [PosLine(product.value, day, line.qty, LineRevenue(line, maps.priceByProductId[product.value]),
      LocationOf(maps, sale.warehouse))]
  }

  function MatchedLines(maps: Maps, day: int, sale: Sale, lines: seq<StoredLine>): seq<PosLine> {
    if lines == [] then [] else Matched(maps, day, sale, lines[0]) + MatchedLines(maps, day, sale, lines[1..])
  }

  /** All matched lines of the sales that `keep` selects. */
  function LinesOf(maps: Maps, clock: Clock, ledger: seq<Sale>, keep: Sale -> bool): seq<PosLine> {
    if ledger == [] then []
    else
      (if keep(ledger[0]) then MatchedLines(maps, LocalDay(clock, ledger[0].date), ledger[0], ledger[0].lines) else [])
      + LinesOf(maps, clock, ledger[1..], keep)
  }

  /** Physical receipts on the given local days. */
  function SoldOn(clock: Clock, days: set<int>): Sale -> bool {
    (s: Sale) => s.channel == PHYSICAL && LocalDay(clock, s.date) in days
  }

  /** What the database read selects: physical receipts within 36 hours of the days' markers. */
  function ReadPadded(since: int, until: int): Sale -> bool {
    (s: Sale) => s.channel == PHYSICAL && since <= s.date < until
  }

  /** The read followed by the day filter. */
  function ReadThenWanted(clock: Clock, since: int, until: int, days: set<int>): Sale -> bool {
    (s: Sale) => ReadPadded(since, until)(s) && LocalDay(clock, s.date) in days
  }

  lemma {:induction false} SameSelection(maps: Maps, clock: Clock, ledger: seq<Sale>, p: Sale -> bool, q: Sale -> bool)
    requires forall i :: 0 <= i < |ledger| ==> p(ledger[i]) == q(ledger[i])
    ensures LinesOf(maps, clock, ledger, p) == LinesOf(maps, clock, ledger, q)
  {
    if ledger == [] {
    } else {
      SameSelection(maps, clock, ledger[1..], p, q);
    }
  }

  lemma {:induction false} LinesOfConcat(maps: Maps, clock: Clock, a: seq<Sale>, b: seq<Sale>, keep: Sale -> bool)
    ensures LinesOf(maps, clock, a + b, keep) == LinesOf(maps, clock, a, keep) + LinesOf(maps, clock, b, keep)
  {
    if a == [] {
      assert a + b == b;
    } else {
      LinesOfConcat(maps, clock, a[1..], b, keep);
      assert (a + b)[1..] == a[1..] + b;
    }
  }

  /** Dropping sales that are not selected drops no line. */
  lemma {:induction false} LinesOfFilter(maps: Maps, clock: Clock, ledger: seq<Sale>, kept: Sale -> bool,
                                         keep: Sale -> bool)
    requires forall i :: 0 <= i < |ledger| && keep(ledger[i]) ==> kept(ledger[i])
    ensures LinesOf(maps, clock, Filter(ledger, kept), keep) == LinesOf(maps, clock, ledger, keep)
  {
    if ledger == [] {
    } else {
      LinesOfFilter(maps, clock, ledger[1..], kept, keep);
      var rest := Filter(ledger[1..], kept);
      assert ([ledger[0]] + rest)[1..] == rest && [] + rest == rest;
    }
  }

  lemma {:induction false} NoLines(maps: Maps, clock: Clock, ledger: seq<Sale>, keep: Sale -> bool)
    requires forall i :: 0 <= i < |ledger| ==> !keep(ledger[i])
    ensures LinesOf(maps, clock, ledger, keep) == []
  {
    if ledger == [] {
    } else {
      NoLines(maps, clock, ledger[1..], keep);
    }
  }

  // ---------------------------------------------------------------- aggregation

  datatype Agg = Agg(productId: string, day: int, quantity: real, revenue: real, locs: set<string>)

  function SameBucket(a: Agg, line: PosLine): bool { a.productId == line.productId && a.day == line.day }

  function AddTo(a: Agg, line: PosLine): Agg {
    a.(quantity := a.quantity + line.qty, revenue := a.revenue + line.revenue, locs := a.locs + {line.location})
  }

  /** One more line: into its (product, day) bucket, or a new bucket at the end. */
  function AddLine(aggs: seq<Agg>, line: PosLine): seq<Agg> {
    if aggs == [] then [Agg(line.productId, line.day, line.qty, line.revenue, {line.location})]
    else if SameBucket(aggs[0], line) then [AddTo(aggs[0], line)] + aggs[1..]
    else [aggs[0]] + AddLine(aggs[1..], line)
  }

  function Buckets(lines: seq<PosLine>): seq<Agg> {
    if lines == [] then [] else AddLine(Buckets(lines[..|lines| - 1]), lines[|lines| - 1])
  }

  lemma OnlyElement(locs: set<string>, x: string, y: string)
    requires |locs| == 1 && x in locs && y in locs
    ensures x == y
  {
    assert |locs - {x}| == 0;
  }

  /** Attributed only when every contributing sale came from one real location. */
  function OnlyLocation(locs: set<string>): Option<string> {
    if |locs| != 1 then None
    else
      assert locs != {};
      assert forall x, y :: x in locs && y in locs ==> x == y by {
        forall x, y | x in locs && y in locs ensures x == y { OnlyElement(locs, x, y); }
      }
      var loc :| loc in locs;
      if loc != "" && loc != LOC_NULL then Some(loc) else None
  }

  function RowOf(): Agg -> Row {
    (a: Agg) => Row(a.productId, a.day, POS, OnlyLocation(a.locs), a.quantity, a.revenue)
  }

  /** The derived rows of some matched lines. */
  function Aggregate(lines: seq<PosLine>): seq<Row> { Map(Buckets(lines), RowOf()) }

  function OfDay(day: int): PosLine -> bool { (l: PosLine) => l.day == day }

  function BucketOfDay(day: int): Agg -> bool { (a: Agg) => a.day == day }

  lemma {:induction false} AddLineAndDay(aggs: seq<Agg>, line: PosLine, day: int)
    ensures Filter(AddLine(aggs, line), BucketOfDay(day))
         == if line.day == day then AddLine(Filter(aggs, BucketOfDay(day)), line) else Filter(aggs, BucketOfDay(day))
  {
    var p := BucketOfDay(day);
    if aggs == [] {
      FilterCons(Agg(line.productId, line.day, line.qty, line.revenue, {line.location}), [], p);
    } else {
      var a, rest := aggs[0], aggs[1..];
      assert aggs == [a] + rest;
      FilterCons(a, rest, p);
      if SameBucket(a, line) {
        FilterCons(AddTo(a, line), rest, p);
      } else {
        FilterCons(a, AddLine(rest, line), p);
        AddLineAndDay(rest, line, day);
      }
    }
  }

  /** A day's buckets depend only on that day's lines. */
  lemma {:induction false} DaysAreIndependent(lines: seq<PosLine>, day: int)
    ensures Filter(Buckets(lines), BucketOfDay(day)) == Buckets(Filter(lines, OfDay(day)))
  {
    if lines == [] {
    } else {
      var n := |lines| - 1;
      DaysAreIndependent(lines[..n], day);
      AddLineAndDay(Buckets(lines[..n]), lines[n], day);
      assert lines == lines[..n] + [lines[n]];
      FilterConcat(lines[..n], [lines[n]], OfDay(day));
      var kept := Filter(lines[..n], OfDay(day));
      assert [lines[n]][1..] == [];
      assert (kept + [lines[n]])[..|kept|] == kept && kept + [] == kept;
    }
  }

  function RowOnDay(day: int): Row -> bool { On(POS, {day}) }

  lemma {:induction false} RowsOfDay(aggs: seq<Agg>, day: int)
    ensures Filter(Map(aggs, RowOf()), RowOnDay(day)) == Map(Filter(aggs, BucketOfDay(day)), RowOf())
  {
    if aggs == [] {
    } else {
      RowsOfDay(aggs[1..], day);
      assert Map(aggs, RowOf())[1..] == Map(aggs[1..], RowOf());
      var rest := Filter(aggs[1..], BucketOfDay(day));
      assert ([aggs[0]] + rest)[1..] == rest && [] + rest == rest;
    }
  }

  // ---------------------------------------------------------------- what a bucket holds

  function InBucket(productId: string, day: int): PosLine -> bool {
    (l: PosLine) => l.productId == productId && l.day == day
  }

  function QtyOf(): PosLine -> real { (l: PosLine) => l.qty }

  function RevenueOf(): PosLine -> real { (l: PosLine) => l.revenue }

  function LocationsIn(lines: seq<PosLine>): set<string> { set l | l in lines :: l.location }

  /** What a bucket should hold: the sums and locations of its lines. */
  ghost predicate Holds(a: Agg, lines: seq<PosLine>) {
    var mine := Filter(lines, InBucket(a.productId, a.day));
    mine != [] && a.quantity == SumBy(mine, QtyOf()) && a.revenue == SumBy(mine, RevenueOf())
      && a.locs == LocationsIn(mine)
  }

  ghost predicate DistinctBuckets(aggs: seq<Agg>) {
    forall i, j :: 0 <= i < j < |aggs| ==> aggs[i].productId != aggs[j].productId || aggs[i].day != aggs[j].day
  }

  ghost predicate HasBucket(aggs: seq<Agg>, line: PosLine) { exists i :: 0 <= i < |aggs| && SameBucket(aggs[i], line) }

  /** Where a line goes: its bucket's index, or the end. */
  function IndexOf(aggs: seq<Agg>, line: PosLine): (i: nat)
    ensures i <= |aggs| && (i < |aggs| ==> SameBucket(aggs[i], line))
    ensures forall j :: 0 <= j < i ==> !SameBucket(aggs[j], line)
  {
    if aggs == [] then 0 else if SameBucket(aggs[0], line) then 0 else 1 + IndexOf(aggs[1..], line)
  }

  function NewBucket(line: PosLine): Agg { Agg(line.productId, line.day, line.qty, line.revenue, {line.location}) }

  lemma {:induction false} AddLineAt(aggs: seq<Agg>, line: PosLine)
    ensures var i := IndexOf(aggs, line);
      AddLine(aggs, line) == if i < |aggs| then aggs[i := AddTo(aggs[i], line)] else aggs + [NewBucket(line)]
  {
    if aggs != [] && !SameBucket(aggs[0], line) {
      AddLineAt(aggs[1..], line);
      assert aggs == [aggs[0]] + aggs[1..];
    }
  }

  lemma StillHolds(a: Agg, lines: seq<PosLine>, line: PosLine)
    requires Holds(a, lines)
    ensures if SameBucket(a, line) then Holds(AddTo(a, line), lines + [line]) else Holds(a, lines + [line])
  {
    var p := InBucket(a.productId, a.day);
    FilterConcat(lines, [line], p);
    assert [line][1..] == [];
    var mine := Filter(lines, p);
    if SameBucket(a, line) {
      assert Filter(lines + [line], p) == mine + [line];
      SumByConcat(mine, [line], QtyOf());
      SumByConcat(mine, [line], RevenueOf());
      assert LocationsIn(mine + [line]) == LocationsIn(mine) + {line.location};
    } else {
      assert Filter(lines + [line], p) == mine + [] == mine;
    }
  }

  lemma NewBucketHolds(lines: seq<PosLine>, line: PosLine)
    requires forall l :: l in lines ==> !InBucket(line.productId, line.day)(l)
    ensures Holds(NewBucket(line), lines + [line])
  {
    var p := InBucket(line.productId, line.day);
    FilterConcat(lines, [line], p);
    FilterNone(lines, p);
    FilterCons(line, [], p);
    assert [line] + [] == [line] && [] + [line] == [line];
  }

  ghost predicate AllHold(aggs: seq<Agg>, lines: seq<PosLine>) {
    && DistinctBuckets(aggs)
    && (forall i :: 0 <= i < |aggs| ==> Holds(aggs[i], lines))
    && (forall l :: l in lines ==> HasBucket(aggs, l))
  }

  lemma HoldStep(aggs: seq<Agg>, lines: seq<PosLine>, line: PosLine)
    requires AllHold(aggs, lines)
    ensures AllHold(AddLine(aggs, line), lines + [line])
  {
    hide Holds;
    var i, r := IndexOf(aggs, line), AddLine(aggs, line);
    AddLineAt(aggs, line);
    forall j | 0 <= j < |aggs| ensures Holds(r[j], lines + [line]) {
      StillHolds(aggs[j], lines, line);
      assert j != i ==> !SameBucket(aggs[j], line);
    }
    if i == |aggs| {
      forall l | l in lines ensures !InBucket(line.productId, line.day)(l) {
        var j :| 0 <= j < |aggs| && SameBucket(aggs[j], l);
        assert !SameBucket(aggs[j], line);
      }
      NewBucketHolds(lines, line);
    }
    forall l | l in lines + [line] ensures HasBucket(r, l) {
      if l in lines {
        var j :| 0 <= j < |aggs| && SameBucket(aggs[j], l);
        assert SameBucket(r[j], l);
      } else {
        assert SameBucket(r[i], l);
      }
    }
  }

  /** The aggregation is exactly one bucket per (product, day) with a line, holding the sums of
      its lines and the set of their locations. */
  lemma {:induction false} BucketsHold(lines: seq<PosLine>)
    ensures AllHold(Buckets(lines), lines)
  {
    if lines == [] {
    } else {
      var n := |lines| - 1;
      BucketsHold(lines[..n]);
      HoldStep(Buckets(lines[..n]), lines[..n], lines[n]);
      assert lines == lines[..n] + [lines[n]];
    }
  }

  lemma HoldsInAnyOrder(x: Agg, a: seq<PosLine>, b: seq<PosLine>)
    requires multiset(a) == multiset(b) && Holds(x, a)
    ensures Holds(x, b)
  {
    var p := InBucket(x.productId, x.day);
    var mine, yours := Filter(a, p), Filter(b, p);
    FilterPermutation(a, b, p);
    SumByPermutation(mine, yours, QtyOf());
    SumByPermutation(mine, yours, RevenueOf());
    assert |multiset(mine)| == |multiset(yours)|;
    forall l ensures l in mine <==> l in yours { assert l in multiset(mine) <==> l in multiset(yours); }
  }

  lemma BucketListed(x: Agg, lines: seq<PosLine>)
    requires Holds(x, lines)
    ensures x in Buckets(lines)
  {
    var p, aggs := InBucket(x.productId, x.day), Buckets(lines);
    BucketsHold(lines);
    FilterProperties(lines, p);
    var l := Filter(lines, p)[0];
    assert l in Filter(lines, p);
    var j :| 0 <= j < |aggs| && SameBucket(aggs[j], l);
    assert Holds(aggs[j], lines);
  }

  /** The derived rows do not depend on the order in which the database returns the lines. */
  lemma RowsIgnoreLineOrder(a: seq<PosLine>, b: seq<PosLine>)
    requires multiset(a) == multiset(b)
    ensures multiset(Aggregate(a)) == multiset(Aggregate(b))
  {
    BucketsHold(a);
    BucketsHold(b);
    forall x ensures x in Buckets(a) <==> x in Buckets(b) {
      if x in Buckets(a) {
        HoldsInAnyOrder(x, a, b);
        BucketListed(x, b);
      }
      if x in Buckets(b) {
        HoldsInAnyOrder(x, b, a);
        BucketListed(x, a);
      }
    }
    DistinctSameElements(Buckets(a), Buckets(b));
    MapPermutation(Buckets(a), Buckets(b), RowOf());
  }

  // ---------------------------------------------------------------- the 36-hour pad

  /** A ledger read in another order gives the same lines in another order. */
  lemma {:induction false} LinesOfPermutation(maps: Maps, clock: Clock, a: seq<Sale>, b: seq<Sale>, keep: Sale -> bool)
    requires multiset(a) == multiset(b)
    ensures multiset(LinesOf(maps, clock, a, keep)) == multiset(LinesOf(maps, clock, b, keep))
  {
    if a == [] {
      assert |multiset(b)| == 0;
    } else {
      var i := SplitAtHead(a, b);
      var low, high := b[..i], b[i + 1..];
      LinesOfPermutation(maps, clock, a[1..], low + high, keep);
      LinesOfConcat(maps, clock, [a[0]], a[1..], keep);
      LinesOfConcat(maps, clock, low + [a[0]], high, keep);
      LinesOfConcat(maps, clock, low, [a[0]], keep);
      LinesOfConcat(maps, clock, low, high, keep);
      assert a == [a[0]] + a[1..] && b == (low + [a[0]]) + high;
    }
  }

  function Since(firstDay: int): int { firstDay * DAY_MS - 36 * HOUR_MS }

  function Until(lastDay: int): int { lastDay * DAY_MS + 36 * HOUR_MS }

  /** The padded read misses no receipt of a wanted day. */
  lemma PadMissesNothing(clock: Clock, t: int, first: int, last: int)
    requires RealClock(clock) && first <= LocalDay(clock, t) <= last
    ensures Since(first) <= t < Until(last)
  {
    var d := LocalDay(clock, t);
    assert d * DAY_MS <= t + clock(t) < d * DAY_MS + DAY_MS;
  }

  predicate PadCovers(offset: int, t: int) {
    var d := (t + offset) / DAY_MS;
    Since(d) <= t < Until(d)
  }

  /** For a fixed offset the pad is enough exactly from 12 hours behind to 36 hours ahead of UTC. */
  lemma PadIsExact(offset: int)
    ensures (forall t :: PadCovers(offset, t)) <==> -12 * HOUR_MS <= offset <= 36 * HOUR_MS
  {
    if -12 * HOUR_MS <= offset <= 36 * HOUR_MS {
      forall t ensures PadCovers(offset, t) {
        var d := (t + offset) / DAY_MS;
        assert d * DAY_MS <= t + offset < d * DAY_MS + DAY_MS;
      }
    } else {
      var t := if offset < -12 * HOUR_MS then DAY_MS - 1 - offset else -offset;
      assert (t + offset) / DAY_MS == 0;
      assert !PadCovers(offset, t);
    }
  }
}
