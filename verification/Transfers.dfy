/** `sizeTransfers` of packages/forecast/src/transfers.ts: level fill, rounding, the drain of
    the surplus and the small-move filter. */
module Transfers {
  import opened CoverLevel
  import opened Numbers
  import opened Rounding
  import opened Sorting
  import opened Text
  import opened Wrappers

  const DRAIN_COVER_DAYS := 21.0
  const MIN_TRANSFER_UNITS := 3

  datatype Options = Options(drain: Option<bool>, drainCoverDays: Option<real>, minTransfer: Option<int>)

  datatype Line = Line(toLocationId: string, qty: int, toOnHand: real, toRunRate: real,
                       toDaysCoverBefore: real, toDaysCoverAfter: real)

  /** To one decimal, halves up. */
  function RoundTo1(x: real): (r: real)
    ensures r * 10.0 == (r * 10.0).Floor as real && r * 10.0 - 0.5 <= x * 10.0 < r * 10.0 + 0.5
  {
    (x * 10.0 + 0.5).Floor as real / 10.0
  }

  function CoverOf(d: Candidate, plan: Plan): real
    requires d.locationId in plan
  {
    CoverWith(d, plan[d.locationId] as real)
  }

  // ---------------------------------------------------------------- drain

  function Abs(x: real): real { if x < 0.0 then -x else x }

  /** The scan replaces its best so far by `d`. */
  predicate Replaces(d: Candidate, best: Candidate, plan: Plan)
    requires d.locationId in plan && best.locationId in plan
  {
    || CoverOf(d, plan) < CoverOf(best, plan) - SLACK
    || (Abs(CoverOf(d, plan) - CoverOf(best, plan)) < SLACK &&
        (d.runRate > best.runRate + SLACK ||
         (Abs(d.runRate - best.runRate) < SLACK && d.locationId != best.locationId
           && LexLe(d.locationId, best.locationId))))
  }

  predicate Open(d: Candidate, plan: Plan, drainCoverDays: real)
    requires d.locationId in plan
  {
    CoverOf(d, plan) < drainCoverDays
  }

  /** Lowest cover first, the faster seller on a tie, then the smaller location id. */
  ghost predicate DrainsBefore(a: Candidate, b: Candidate, plan: Plan)
    requires a.locationId in plan && b.locationId in plan
  {
    || CoverOf(a, plan) < CoverOf(b, plan)
    || (CoverOf(a, plan) == CoverOf(b, plan) &&
        (a.runRate > b.runRate || (a.runRate == b.runRate && LexLe(a.locationId, b.locationId))))
  }

  /** Covers and rates are equal or more than the comparison slack apart. */
  ghost predicate Separated(ds: seq<Candidate>, plan: Plan)
    requires Covers(plan, ds)
  {
    forall a, b :: a in ds && b in ds ==>
      && (CoverOf(a, plan) == CoverOf(b, plan) || Abs(CoverOf(a, plan) - CoverOf(b, plan)) > SLACK)
      && (a.runRate == b.runRate || Abs(a.runRate - b.runRate) > SLACK)
  }

  lemma ReplacesWhenSeparated(d: Candidate, best: Candidate, plan: Plan)
    requires d.locationId in plan && best.locationId in plan
    requires Separated([d, best], plan)
    ensures Replaces(d, best, plan) ==> DrainsBefore(d, best, plan)
    ensures !Replaces(d, best, plan) ==> DrainsBefore(best, d, plan)
  {
    assert d in [d, best] && best in [d, best];
    LexTotal(d.locationId, best.locationId);
  }

  lemma DrainsBeforeTransitive(a: Candidate, b: Candidate, c: Candidate, plan: Plan)
    requires a.locationId in plan && b.locationId in plan && c.locationId in plan
    requires DrainsBefore(a, b, plan) && DrainsBefore(b, c, plan)
    ensures DrainsBefore(a, c, plan)
  {
    if LexLe(a.locationId, b.locationId) && LexLe(b.locationId, c.locationId) {
      LexTransitive(a.locationId, b.locationId, c.locationId);
    }
  }

  /** Every open candidate scanned so far has at least the cover of the best one, up to one
      comparison slack per candidate scanned. */
  ghost predicate Lowest(scanned: seq<Candidate>, best: Candidate, plan: Plan, drainCoverDays: real)
    requires Covers(plan, scanned) && best.locationId in plan
  {
    forall d :: d in scanned && Open(d, plan, drainCoverDays) ==>
      CoverOf(best, plan) <= CoverOf(d, plan) + |scanned| as real * SLACK
  }

  ghost predicate First(scanned: seq<Candidate>, best: Candidate, plan: Plan, drainCoverDays: real)
    requires Covers(plan, scanned) && best.locationId in plan
  {
    forall d :: d in scanned && Open(d, plan, drainCoverDays) ==> DrainsBefore(best, d, plan)
  }

  lemma ScanStep(scanned: seq<Candidate>, d: Candidate, best: Candidate, plan: Plan, drainCoverDays: real)
    requires Covers(plan, scanned) && d.locationId in plan && best.locationId in plan
    requires Lowest(scanned, best, plan, drainCoverDays)
    ensures !Open(d, plan, drainCoverDays) || !Replaces(d, best, plan)
      ==> Lowest(scanned + [d], best, plan, drainCoverDays)
    ensures Replaces(d, best, plan) ==> Lowest(scanned + [d], d, plan, drainCoverDays)
  {
    var n := |scanned| as real * SLACK;
    assert |scanned + [d]| as real * SLACK == n + SLACK;
    assert n >= 0.0;
    assert forall x :: x in scanned + [d] ==> x == d || x in scanned;
    if Replaces(d, best, plan) {
      assert CoverOf(d, plan) < CoverOf(best, plan) + SLACK;
    } else {
      assert CoverOf(best, plan) <= CoverOf(d, plan) + SLACK;
    }
  }

  lemma FirstStep(scanned: seq<Candidate>, d: Candidate, best: Candidate, plan: Plan, drainCoverDays: real)
    requires Covers(plan, scanned) && d.locationId in plan && best in scanned
    requires Separated(scanned + [d], plan) && First(scanned, best, plan, drainCoverDays)
    ensures !Open(d, plan, drainCoverDays) || !Replaces(d, best, plan)
      ==> First(scanned + [d], best, plan, drainCoverDays)
    ensures Replaces(d, best, plan) ==> First(scanned + [d], d, plan, drainCoverDays)
  {
    assert d in scanned + [d] && best in scanned + [d];
    ReplacesWhenSeparated(d, best, plan);
    forall x | x in scanned && Open(x, plan, drainCoverDays) && Replaces(d, best, plan)
      ensures DrainsBefore(d, x, plan)
    {
      DrainsBeforeTransitive(d, best, x, plan);
    }
    assert DrainsBefore(d, d, plan) by { LexTotal(d.locationId, d.locationId); }
  }

  /** The inner loop of the drain: the open destination to feed next, if any is open. */
  method PickBest(candidates: seq<Candidate>, plan: Plan, drainCoverDays: real) returns (best: Option<Candidate>)
    requires Covers(plan, candidates)
    ensures best.None? <==> forall d :: d in candidates ==> CoverOf(d, plan) >= drainCoverDays
    ensures best.Some? ==> best.value in candidates && Open(best.value, plan, drainCoverDays)
    ensures best.Some? ==> Lowest(candidates, best.value, plan, drainCoverDays)
    ensures best.Some? && Separated(candidates, plan) ==> First(candidates, best.value, plan, drainCoverDays)
  {
    best := None;
    for i := 0 to |candidates|
      invariant best.None? ==> forall d :: d in candidates[..i] ==> !Open(d, plan, drainCoverDays)
      invariant best.Some? ==> best.value in candidates[..i] && Open(best.value, plan, drainCoverDays)
      invariant best.Some? ==> Lowest(candidates[..i], best.value, plan, drainCoverDays)
      invariant best.Some? && Separated(candidates, plan) ==> First(candidates[..i], best.value, plan, drainCoverDays)
    {
      var d := candidates[i];
      assert candidates[..i + 1] == candidates[..i] + [d];
      if best.Some? {
        ScanStep(candidates[..i], d, best.value, plan, drainCoverDays);
        if Separated(candidates, plan) {
          FirstStep(candidates[..i], d, best.value, plan, drainCoverDays);
        }
      } else {
        LexTotal(d.locationId, d.locationId);
      }
      if Open(d, plan, drainCoverDays) && (best.None? || Replaces(d, best.value, plan)) {
        best := Some(d);
      }
    }
    assert candidates[..|candidates|] == candidates;
  }

  /** What the drain has done to the plan it started from. */
  ghost predicate Drained(candidates: seq<Candidate>, before: Plan, after: Plan, drainCoverDays: real)
    requires Covers(before, candidates)
  {
    && after.Keys == before.Keys
    && forall d :: d in candidates ==>
         && after[d.locationId] >= before[d.locationId]
         && (after[d.locationId] > before[d.locationId] ==>
               CoverOf(d, after) < drainCoverDays + 1.0 / d.runRate && FedLowest(candidates, d, after))
  }

  /** Before its last unit `d` had, up to the comparison slack, no more cover than any
      destination ends with. */
  ghost predicate FedLowest(candidates: seq<Candidate>, d: Candidate, after: Plan)
    requires d.locationId in after
  {
    forall c :: c in candidates && c.locationId in after ==>
      CoverWith(d, (after[d.locationId] - 1) as real) <= CoverOf(c, after) + |candidates| as real * SLACK
  }

  lemma OneMoreUnit(d: Candidate, plan: Plan, drainCoverDays: real)
    requires d.locationId in plan && Open(d, plan, drainCoverDays)
    ensures CoverOf(d, AddUnit(plan, d)) < drainCoverDays + 1.0 / d.runRate
  {
    var q := plan[d.locationId];
    SplitQuotient(d.onHand + q as real, 1.0, d.runRate);
    assert d.onHand + (q + 1) as real == (d.onHand + q as real) + 1.0;
  }

  lemma SplitQuotient(a: real, b: real, r: real)
    requires r > 0.0
    ensures (a + b) / r == a / r + b / r
  {}

  lemma DrainStep(candidates: seq<Candidate>, before: Plan, plan: Plan, d: Candidate, drainCoverDays: real)
    requires DistinctLocations(candidates) && Covers(before, candidates) && d in candidates
    requires Drained(candidates, before, plan, drainCoverDays) && Open(d, plan, drainCoverDays)
    requires Lowest(candidates, d, plan, drainCoverDays)
    ensures Drained(candidates, before, AddUnit(plan, d), drainCoverDays)
    ensures Units(candidates, AddUnit(plan, d)) == Units(candidates, plan) + 1
  {
    OneMoreUnit(d, plan, drainCoverDays);
    UnitsUpdate(candidates, plan, d, plan[d.locationId] + 1);
    var after := AddUnit(plan, d);
    forall c | c in candidates && c != d ensures after[c.locationId] == plan[c.locationId] {
      if c.locationId == d.locationId { SameLocationSameCandidate(candidates, c, d); }
    }
    MoreUnitsMoreCover(d, plan);
    var slack := |candidates| as real * SLACK;
    assert slack >= 0.0;
    forall c | c in candidates && after[c.locationId] > before[c.locationId] ensures FedLowest(candidates, c, after) {
      if c == d {
        forall e | e in candidates ensures CoverWith(d, plan[d.locationId] as real) <= CoverOf(e, after) + slack {
          assert CoverOf(e, plan) <= CoverOf(e, after);
        }
      } else {
        assert FedLowest(candidates, c, plan);
        forall e | e in candidates ensures CoverWith(c, (plan[c.locationId] - 1) as real) <= CoverOf(e, after) + slack {
          assert CoverOf(e, plan) <= CoverOf(e, after);
        }
      }
    }
  }

  lemma MoreUnitsMoreCover(d: Candidate, plan: Plan)
    requires d.locationId in plan
    ensures CoverOf(d, plan) <= CoverOf(d, AddUnit(plan, d))
  {
    var q := plan[d.locationId];
    SplitQuotient(d.onHand + q as real, 1.0, d.runRate);
    assert d.onHand + (q + 1) as real == (d.onHand + q as real) + 1.0;
  }

  /** Surplus goes out one unit at a time until the source is empty or every destination
      has `drainCoverDays`. */
  method Drain(candidates: seq<Candidate>, before: Plan, surplus: nat, drainCoverDays: real) returns (plan: Plan)
    requires DistinctLocations(candidates) && Covers(before, candidates)
    ensures Drained(candidates, before, plan, drainCoverDays)
    ensures Units(candidates, before) <= Units(candidates, plan) <= Units(candidates, before) + surplus
    ensures Units(candidates, plan) == Units(candidates, before) + surplus
         || forall d :: d in candidates ==> CoverOf(d, plan) >= drainCoverDays
  {
    plan := before;
    var left := surplus;
    while left > 0
      invariant 0 <= left <= surplus
      invariant Drained(candidates, before, plan, drainCoverDays)
      invariant Units(candidates, plan) == Units(candidates, before) + surplus - left
    {
      var best := PickBest(candidates, plan, drainCoverDays);
      if best.None? {
        return;
      }
      DrainStep(candidates, before, plan, best.value, drainCoverDays);
      plan := AddUnit(plan, best.value);
      left := left - 1;
    }
  }

  // ---------------------------------------------------------------- sizing

  function Candidates(ds: seq<Destination>): seq<Candidate> {
    if ds == [] then []
    else (if ds[0].runRate > NO_RATE_EPSILON then [ds[0]] else []) + Candidates(ds[1..])
  }

  ghost predicate DistinctIds(ds: seq<Destination>) {
    forall i, j :: 0 <= i < j < |ds| ==> ds[i].locationId != ds[j].locationId
  }

  lemma {:induction false} CandidatesProperties(ds: seq<Destination>)
    ensures forall d :: d in Candidates(ds) <==> d in ds && d.runRate > 0.0001
    ensures DistinctIds(ds) ==> DistinctLocations(Candidates(ds))
  {
    if ds == [] {
    } else {
      CandidatesProperties(ds[1..]);
      assert ds == [ds[0]] + ds[1..];
    }
  }

  /** The destinations short of `level`, with what each wants. */
  function Wants(ds: seq<Candidate>, level: real): seq<Want> {
    if ds == [] then []
    else
      var want := Shortfall(ds[0], level);
      (if want > 0.0 then [Want(ds[0], want)] else []) + Wants(ds[1..], level)
  }

  lemma {:induction false} WantsProperties(ds: seq<Candidate>, level: real)
    requires DistinctLocations(ds)
    ensures WantsOf(Wants(ds, level), ds)
    ensures forall w :: w in Wants(ds, level) <==> w.d in ds && w.want == Shortfall(w.d, level) > 0.0
  {
    if ds == [] {
    } else {
      WantsProperties(ds[1..], level);
      assert ds == [ds[0]] + ds[1..];
    }
  }

  lemma {:induction false} WantsSum(ds: seq<Candidate>, level: real)
    ensures SumBy(Wants(ds, level), WantOf()) == Need(ds, level)
  {
    if ds == [] {
    } else {
      WantsSum(ds[1..], level);
      var w, rest := Want(ds[0], Shortfall(ds[0], level)), Wants(ds[1..], level);
      assert ([w] + rest)[1..] == rest && [] + rest == rest;
    }
  }

  function LineFor(d: Candidate, planned: int, coverDays: real, minTransfer: int): Line {
    var qty := if 0 < planned < minTransfer && d.onHand / d.runRate >= coverDays then 0 else planned;
    Line(d.locationId, qty, d.onHand, d.runRate,
         RoundTo1(Max(0.0, d.onHand) / d.runRate), RoundTo1(Max(0.0, d.onHand + qty as real) / d.runRate))
  }

  function Lines(ds: seq<Candidate>, plan: Plan, coverDays: real, minTransfer: int): seq<Line>
    requires Covers(plan, ds)
  {
    if ds == [] then []
    else
      var line := LineFor(ds[0], plan[ds[0].locationId], coverDays, minTransfer);
      (if line.qty > 0 then [line] else []) + Lines(ds[1..], plan, coverDays, minTransfer)
  }

  function Shipped(lines: seq<Line>): int {
    if lines == [] then 0 else lines[0].qty + Shipped(lines[1..])
  }

  /** The quantity planned for a location: zero when it has no line. */
  function ShippedTo(lines: seq<Line>, id: string): int {
    if lines == [] then 0
    else (if lines[0].toLocationId == id then lines[0].qty else 0) + ShippedTo(lines[1..], id)
  }

  ghost predicate NonNegative(ds: seq<Candidate>, plan: Plan)
    requires Covers(plan, ds)
  {
    forall d :: d in ds ==> plan[d.locationId] >= 0
  }

  /** Every line is a positive number of units for one of the destinations. */
  ghost predicate PositiveLines(lines: seq<Line>, ds: seq<Candidate>) {
    forall l :: l in lines ==> l.qty > 0 && exists d :: d in ds && d.locationId == l.toLocationId
  }

  lemma {:induction false} LinesPositive(ds: seq<Candidate>, plan: Plan, coverDays: real, minTransfer: int)
    requires Covers(plan, ds)
    ensures PositiveLines(Lines(ds, plan, coverDays, minTransfer), ds)
  {
    if ds == [] {
    } else {
      LinesPositive(ds[1..], plan, coverDays, minTransfer);
      assert ds == [ds[0]] + ds[1..];
    }
  }

  lemma {:induction false} LinesTotal(ds: seq<Candidate>, plan: Plan, coverDays: real, minTransfer: int)
    requires Covers(plan, ds) && NonNegative(ds, plan)
    ensures 0 <= Shipped(Lines(ds, plan, coverDays, minTransfer)) <= Units(ds, plan)
  {
    if ds == [] {
    } else {
      LinesTotal(ds[1..], plan, coverDays, minTransfer);
      FirstLine(ds, plan, coverDays, minTransfer);
    }
  }

  lemma {:induction false} NoLineElsewhere(ds: seq<Candidate>, plan: Plan, coverDays: real, minTransfer: int,
                                           id: string)
    requires Covers(plan, ds) && forall d :: d in ds ==> d.locationId != id
    ensures ShippedTo(Lines(ds, plan, coverDays, minTransfer), id) == 0
  {
    if ds == [] {
    } else {
      NoLineElsewhere(ds[1..], plan, coverDays, minTransfer, id);
      FirstLine(ds, plan, coverDays, minTransfer);
    }
  }

  lemma FirstLine(ds: seq<Candidate>, plan: Plan, coverDays: real, minTransfer: int)
    requires Covers(plan, ds) && ds != []
    ensures var rest := Lines(ds[1..], plan, coverDays, minTransfer);
      var line := LineFor(ds[0], plan[ds[0].locationId], coverDays, minTransfer);
      var all := Lines(ds, plan, coverDays, minTransfer);
      if line.qty > 0 then all != [] && all[0] == line && all[1..] == rest else all == rest
  {}

  lemma {:induction false} LineOfDestination(ds: seq<Candidate>, plan: Plan, coverDays: real, minTransfer: int,
                                             d: Candidate)
    requires Covers(plan, ds) && DistinctLocations(ds) && NonNegative(ds, plan) && d in ds
    ensures ShippedTo(Lines(ds, plan, coverDays, minTransfer), d.locationId)
         == LineFor(d, plan[d.locationId], coverDays, minTransfer).qty
  {
    FirstLine(ds, plan, coverDays, minTransfer);
    if d == ds[0] {
      NoLineElsewhere(ds[1..], plan, coverDays, minTransfer, d.locationId);
    } else {
      assert d in ds[1..];
      LineOfDestination(ds[1..], plan, coverDays, minTransfer, d);
    }
  }

  /** The line shows the destination's stock and rate, and its cover before and after the move. */
  predicate Describes(l: Line, d: Candidate) {
    && l.toLocationId == d.locationId && l.toOnHand == d.onHand && l.toRunRate == d.runRate
    && l.toDaysCoverBefore == RoundTo1(Max(0.0, d.onHand) / d.runRate)
    && l.toDaysCoverAfter == RoundTo1(Max(0.0, d.onHand + l.qty as real) / d.runRate)
  }

  function LineLocation(): Line -> string { (l: Line) => l.toLocationId }

  function LocationId(): Candidate -> string { (d: Candidate) => d.locationId }

  /** The destination gets a line: units are planned for it, and more than a small move. */
  ghost function Ships(plan: Plan, coverDays: real, minTransfer: int): Candidate -> bool {
    (d: Candidate) => d.locationId in plan && plan[d.locationId] > 0
      && !SmallMove(d, plan[d.locationId], coverDays, minTransfer)
  }

  ghost predicate AllDescribe(lines: seq<Line>, ds: seq<Candidate>) {
    forall l, d :: l in lines && d in ds && l.toLocationId == d.locationId ==> Describes(l, d)
  }

  ghost predicate OneLineEach(lines: seq<Line>) {
    forall i, j :: 0 <= i < j < |lines| ==> lines[i].toLocationId != lines[j].toLocationId
  }

  /** Each line describes its destination, no destination has two, and the lines are those of the
      destinations that get one, in their order. */
  ghost predicate OrderedLines(lines: seq<Line>, ds: seq<Candidate>, plan: Plan, coverDays: real, minTransfer: int) {
    && AllDescribe(lines, ds) && OneLineEach(lines)
    && Map(lines, LineLocation()) == Map(Filter(ds, Ships(plan, coverDays, minTransfer)), LocationId())
  }

  lemma LineDescribes(d: Candidate, planned: int, coverDays: real, minTransfer: int)
    ensures Describes(LineFor(d, planned, coverDays, minTransfer), d)
  {}

  lemma {:induction false} LinesInOrder(ds: seq<Candidate>, plan: Plan, coverDays: real, minTransfer: int)
    requires Covers(plan, ds) && DistinctLocations(ds)
    ensures OrderedLines(Lines(ds, plan, coverDays, minTransfer), ds, plan, coverDays, minTransfer)
  {
    if ds == [] {
    } else {
      hide LineFor, Describes, Ships;
      var rest := Lines(ds[1..], plan, coverDays, minTransfer);
      LinesInOrder(ds[1..], plan, coverDays, minTransfer);
      LineDescribes(ds[0], plan[ds[0].locationId], coverDays, minTransfer);
      LinesPositive(ds[1..], plan, coverDays, minTransfer);
      FirstLine(ds, plan, coverDays, minTransfer);
      OthersElsewhere(ds, rest);
      LocationsInOrder(ds, plan, coverDays, minTransfer);
      hide Lines, Filter;
      LineBefore(ds, LineFor(ds[0], plan[ds[0].locationId], coverDays, minTransfer), rest);
      assert Lines(ds, plan, coverDays, minTransfer) == rest
          || Lines(ds, plan, coverDays, minTransfer)
             == [LineFor(ds[0], plan[ds[0].locationId], coverDays, minTransfer)] + rest;
    }
  }

  lemma LineBefore(ds: seq<Candidate>, line: Line, rest: seq<Line>)
    requires ds != [] && Describes(line, ds[0]) && AllDescribe(rest, ds[1..]) && OneLineEach(rest)
    requires forall l :: l in rest ==> l.toLocationId != ds[0].locationId
    requires forall d :: d in ds[1..] ==> d.locationId != ds[0].locationId
    ensures AllDescribe(rest, ds) && AllDescribe([line] + rest, ds) && OneLineEach([line] + rest)
  {
    assert ds == [ds[0]] + ds[1..];
    hide Describes;
    assert forall i :: 0 <= i < |rest| ==> rest[i] in rest;
  }

  lemma OthersElsewhere(ds: seq<Candidate>, rest: seq<Line>)
    requires ds != [] && DistinctLocations(ds) && PositiveLines(rest, ds[1..])
    ensures forall l :: l in rest ==> l.toLocationId != ds[0].locationId
    ensures forall d :: d in ds[1..] ==> d.locationId != ds[0].locationId
  {}

  lemma LocationsInOrder(ds: seq<Candidate>, plan: Plan, coverDays: real, minTransfer: int)
    requires Covers(plan, ds) && ds != []
    requires Map(Lines(ds[1..], plan, coverDays, minTransfer), LineLocation())
          == Map(Filter(ds[1..], Ships(plan, coverDays, minTransfer)), LocationId())
    ensures Map(Lines(ds, plan, coverDays, minTransfer), LineLocation())
      == Map(Filter(ds, Ships(plan, coverDays, minTransfer)), LocationId())
  {
    var line := LineFor(ds[0], plan[ds[0].locationId], coverDays, minTransfer);
    var rest := Lines(ds[1..], plan, coverDays, minTransfer);
    var others := Filter(ds[1..], Ships(plan, coverDays, minTransfer));
    assert ds[0] in ds;
    assert line.qty > 0 <==> Ships(plan, coverDays, minTransfer)(ds[0]);
    assert ([line] + rest)[1..] == rest && ([ds[0]] + others)[1..] == others;
    assert [] + rest == rest && [] + others == others;
  }

  /** `level` is the target when the source can afford it, otherwise the affordable level,
      which is below the target. */
  ghost predicate CommonLevel(ds: seq<Candidate>, units: int, coverDays: real, level: real) {
    if Need(ds, coverDays) <= units as real then level == coverDays
    else Need(ds, level) == units as real && level < coverDays
  }

  /** Each shortfall at the level is rounded down or up; together they make the budget, and
      nothing rounded down has a claim before what is rounded up. */
  ghost predicate RoundedTo(collate: Collation, ds: seq<Candidate>, units: int, level: real, plan: Plan) {
    && Covers(plan, ds)
    && (forall d :: d in ds ==> Shortfall(d, level).Floor <= plan[d.locationId] <= Ceil(Shortfall(d, level)))
    && Units(ds, plan) == MinInt(units, (Need(ds, level) + 0.000000001).Floor) <= units
    && (forall c, d :: c in ds && d in ds && RoundedUp(c, level, plan) && RoundedDown(d, level, plan) ==>
          NoClaimBefore(collate, Want(d, Shortfall(d, level)), Want(c, Shortfall(c, level))))
  }

  ghost predicate RoundedUp(d: Candidate, level: real, plan: Plan)
    requires d.locationId in plan
  {
    plan[d.locationId] == Shortfall(d, level).Floor + 1
  }

  ghost predicate RoundedDown(d: Candidate, level: real, plan: Plan)
    requires d.locationId in plan
  {
    Shortfall(d, level) > 0.0 && plan[d.locationId] == Shortfall(d, level).Floor
  }

  /** After the drain the source is empty, or every destination has its drain cover. */
  ghost predicate DrainedTo(ds: seq<Candidate>, units: int, drain: bool, drainCover: real, before: Plan, after: Plan)
    requires Covers(before, ds)
  {
    && Drained(ds, before, after, drainCover)
    && Units(ds, before) <= Units(ds, after) <= units
    && (if drain then Units(ds, after) == units || forall d :: d in ds ==> CoverOf(d, after) >= drainCover
        else after == before)
  }

  /** A small top-up of a destination already at the target is dropped; nothing else is. */
  ghost predicate SmallMove(d: Candidate, planned: int, coverDays: real, minTransfer: int) {
    0 < planned < minTransfer && d.onHand / d.runRate >= coverDays
  }

  ghost predicate LinesOf(ds: seq<Candidate>, plan: Plan, coverDays: real, minTransfer: int, lines: seq<Line>) {
    && Covers(plan, ds)
    && forall d :: d in ds ==>
         var sent := ShippedTo(lines, d.locationId);
         sent == if SmallMove(d, plan[d.locationId], coverDays, minTransfer) then 0 else plan[d.locationId]
  }

  /** A destination below the target ships at least the whole part of what it is short. */
  ghost predicate ShortfallsShip(ds: seq<Candidate>, level: real, coverDays: real, lines: seq<Line>) {
    forall d :: d in ds && Breakpoint(d) < coverDays ==> ShippedTo(lines, d.locationId) >= Shortfall(d, level).Floor
  }

  lemma LinesFromPlan(collate: Collation, ds: seq<Candidate>, units: int, level: real, rounded: Plan, plan: Plan,
                      drainCover: real, coverDays: real, minTransfer: int)
    requires DistinctLocations(ds) && RoundedTo(collate, ds, units, level, rounded)
      && Drained(ds, rounded, plan, drainCover)
    requires Units(ds, plan) <= units
    ensures var lines := Lines(ds, plan, coverDays, minTransfer);
      && PositiveLines(lines, ds)
      && OrderedLines(lines, ds, plan, coverDays, minTransfer)
      && 0 <= Shipped(lines) <= units
      && LinesOf(ds, plan, coverDays, minTransfer, lines)
      && ShortfallsShip(ds, level, coverDays, lines)
  {
    LinesPositive(ds, plan, coverDays, minTransfer);
    LinesInOrder(ds, plan, coverDays, minTransfer);
    LinesTotal(ds, plan, coverDays, minTransfer);
    var lines := Lines(ds, plan, coverDays, minTransfer);
    forall d | d in ds
      ensures var sent := ShippedTo(lines, d.locationId);
        sent == if SmallMove(d, plan[d.locationId], coverDays, minTransfer) then 0 else plan[d.locationId]
    {
      LineOfDestination(ds, plan, coverDays, minTransfer, d);
    }
  }

  /** What the sizing makes of some units: a common level, its shortfalls rounded, the surplus drained, and
      the lines of what is then planned but for small moves. */
  ghost predicate Sized(collate: Collation, ds: seq<Candidate>, units: int, coverDays: real, minTransfer: int,
                        drain: bool, drainCover: real, level: real, rounded: Plan, drained: Plan, lines: seq<Line>) {
    && CommonLevel(ds, units, coverDays, level)
    && RoundedTo(collate, ds, units, level, rounded)
    && DrainedTo(ds, units, drain, drainCover, rounded, drained)
    && LinesOf(ds, drained, coverDays, minTransfer, lines)
    && OrderedLines(lines, ds, drained, coverDays, minTransfer)
    && ShortfallsShip(ds, level, coverDays, lines)
  }

  lemma SizedByStages(collate: Collation, ds: seq<Candidate>, units: int, coverDays: real, minTransfer: int,
                      drain: bool, drainCover: real, level: real, rounded: Plan, drained: Plan, lines: seq<Line>)
    requires DistinctLocations(ds) && CommonLevel(ds, units, coverDays, level)
    requires RoundedTo(collate, ds, units, level, rounded)
    requires DrainedTo(ds, units, drain, drainCover, rounded, drained)
    requires lines == Lines(ds, drained, coverDays, minTransfer)
    ensures Sized(collate, ds, units, coverDays, minTransfer, drain, drainCover, level, rounded, drained, lines)
    ensures PositiveLines(lines, ds) && 0 <= Shipped(lines) <= units
  {
    hide RoundedTo, CommonLevel, LinesOf, OrderedLines, ShortfallsShip, Lines, PositiveLines, Shipped, Drained;
    LinesFromPlan(collate, ds, units, level, rounded, drained, drainCover, coverDays, minTransfer);
  }

  /** The target when the units afford it, else the level that spends them. */
  method CommonCover(candidates: seq<Candidate>, units: int, coverDays: real, needAtTarget: real) returns (cover: real)
    requires candidates != [] && units > 0 && needAtTarget == Need(candidates, coverDays)
    ensures CommonLevel(candidates, units, coverDays, cover)
  {
    cover := coverDays;
    if needAtTarget > units as real {
      cover := FillLevel(candidates, units as real);
      HighestCommonLevel(candidates, units as real, cover, coverDays);
    }
  }

  /** Sizes one product's moves. `rounded` is the plan after rounding and `drained` the plan
      after the drain. */
  method SizeTransfers(collate: Collation, available: real, destinations: seq<Destination>, coverDays: real,
                       options: Options)
    returns (lines: seq<Line>, ghost level: real, ghost rounded: Plan, ghost drained: Plan)
    requires DistinctIds(destinations) && TotalPreorder(collate)
    ensures PositiveLines(lines, Candidates(destinations))
    ensures 0.0 <= Shipped(lines) as real <= Max(0.0, available)
    ensures var ds := Candidates(destinations);
            var units := Max(0.0, available).Floor;
            var asked := options.minTransfer.GetOr(3);
            if units <= 0 || ds == [] then lines == []
            else Sized(collate, ds, units, coverDays, if asked < 1 then 1 else asked, options.drain.GetOr(true),
                       options.drainCoverDays.GetOr(21.0), level, rounded, drained, lines)
  {
    hide Sized, RoundedTo, AreShortfalls, SpareByRemainder, Drained, Lines, Wants, CommonLevel;
    var units := Max(0.0, available).Floor;
    var candidates := Candidates(destinations);
    level, rounded, drained := coverDays, map[], map[];
    if units <= 0 || candidates == [] {
      return [], level, rounded, drained;
    }
    CandidatesProperties(destinations);
    var needAtTarget := Need(candidates, coverDays);
    var cover := CommonCover(candidates, units, coverDays, needAtTarget);
    level := cover;
    var wants := if needAtTarget > 0.0 then Wants(candidates, cover) else [];
    WantsAtLevel(candidates, units, coverDays, cover);
    var plan, budget := RoundWants(collate, candidates, wants, units);
    rounded := plan;
    RoundedAtLevel(collate, candidates, wants, units, cover, rounded);
    var drain, drainCover := options.drain.GetOr(true), options.drainCoverDays.GetOr(DRAIN_COVER_DAYS);
    DrainedByNothing(candidates, plan, drainCover);
    if drain {
      plan := Drain(candidates, plan, units - budget, drainCover);
    }
    drained := plan;
    var minTransfer := MinTransfer(options);
    lines := Lines(candidates, plan, coverDays, minTransfer);
    SizedByStages(collate, candidates, units, coverDays, minTransfer, drain, drainCover, level, rounded, drained,
      lines);
  }

  lemma DrainedByNothing(ds: seq<Candidate>, plan: Plan, drainCover: real)
    requires Covers(plan, ds)
    ensures Drained(ds, plan, plan, drainCover)
  {}

  function MinTransfer(options: Options): int {
    var m := options.minTransfer.GetOr(MIN_TRANSFER_UNITS);
    if m >= 1 then m else 1
  }

  /** Whether or not the target needs anything, the wants are the positive shortfalls. */
  lemma WantsAtLevel(ds: seq<Candidate>, units: int, coverDays: real, level: real)
    requires DistinctLocations(ds) && units > 0 && CommonLevel(ds, units, coverDays, level)
    ensures var wants := if Need(ds, coverDays) > 0.0 then Wants(ds, level) else [];
      WantsOf(wants, ds) && SumBy(wants, WantOf()) <= units as real && AreShortfalls(ds, level, wants)
  {
    WantsProperties(ds, level);
    WantsSum(ds, level);
    NoNeedNoShortfall(ds, coverDays);
  }

  ghost predicate AreShortfalls(ds: seq<Candidate>, level: real, wants: seq<Want>) {
    && (forall d: Candidate :: d in ds && Shortfall(d, level) > 0.0 ==> Want(d, Shortfall(d, level)) in wants)
    && (forall w :: w in wants ==> w.want == Shortfall(w.d, level))
    && SumBy(wants, WantOf()) == Need(ds, level)
  }

  lemma {:induction false} NoNeedNoShortfall(ds: seq<Candidate>, level: real)
    ensures Need(ds, level) >= 0.0
    ensures Need(ds, level) == 0.0 ==> forall d :: d in ds ==> Shortfall(d, level) == 0.0
  {
    if ds == [] {
    } else {
      NoNeedNoShortfall(ds[1..], level);
      assert ds == [ds[0]] + ds[1..];
    }
  }

  lemma RoundedUpIsShort(ds: seq<Candidate>, wants: seq<Want>, level: real, plan: Plan, c: Candidate)
    requires Covers(plan, ds) && WantsOf(wants, ds) && AreShortfalls(ds, level, wants) && c in ds
    requires forall d :: d in ds && d !in Destinations(wants) ==> plan[d.locationId] == 0
    ensures RoundedUp(c, level, plan) ==> Shortfall(c, level) > 0.0
  {
    assert c in Destinations(wants) || plan[c.locationId] == 0;
    if c in Destinations(wants) {
      var w :| w in wants && w.d == c;
    }
  }

  lemma RoundedAtLevel(collate: Collation, ds: seq<Candidate>, wants: seq<Want>, units: int, level: real, plan: Plan)
    requires Covers(plan, ds) && WantsOf(wants, ds) && Quota(wants, plan) && AreShortfalls(ds, level, wants)
    requires SpareByRemainder(collate, wants, plan)
    requires Units(ds, plan) == Budget(wants, units) <= units
    requires forall d :: d in ds && d !in Destinations(wants) ==> plan[d.locationId] == 0
    ensures RoundedTo(collate, ds, units, level, plan)
  {
    forall d | d in ds ensures Shortfall(d, level).Floor <= plan[d.locationId] <= Ceil(Shortfall(d, level)) {
      if Shortfall(d, level) > 0.0 {
        assert Want(d, Shortfall(d, level)) in wants;
      } else {
        assert d !in Destinations(wants);
      }
    }
    forall c, d | c in ds && d in ds && RoundedUp(c, level, plan) && RoundedDown(d, level, plan)
      ensures NoClaimBefore(collate, Want(d, Shortfall(d, level)), Want(c, Shortfall(c, level)))
    {
      RoundedUpIsShort(ds, wants, level, plan, c);
      var v, w := Want(c, Shortfall(c, level)), Want(d, Shortfall(d, level));
      assert v in wants && w in wants && GotSpare(plan, v) && !GotSpare(plan, w);
    }
  }
}
