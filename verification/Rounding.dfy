/** The largest-remainder rounding of packages/forecast/src/transfers.ts: fractional wants
    become whole units without losing or inventing one. */
module Rounding {
  import opened CoverLevel
  import opened Numbers
  import opened Sorting

  /** Allowance on the summed wants only, so that a float sum such as 3.999999 still counts as 4. */
  const SLACK := 0.000000001

  /** `qtyByLocation`: whole units per location id. */
  type Plan = map<string, int>

  datatype Want = Want(d: Candidate, want: real)

  ghost predicate DistinctLocations(ds: seq<Candidate>) {
    forall i, j :: 0 <= i < j < |ds| ==> ds[i].locationId != ds[j].locationId
  }

  ghost predicate Covers(plan: Plan, ds: seq<Candidate>) {
    forall d :: d in ds ==> d.locationId in plan
  }

  function Units(ds: seq<Candidate>, plan: Plan): int
    requires Covers(plan, ds)
  {
    if ds == [] then 0 else plan[ds[0].locationId] + Units(ds[1..], plan)
  }

  function AddUnit(plan: Plan, d: Destination): Plan
    requires d.locationId in plan
  {
    plan[d.locationId := plan[d.locationId] + 1]
  }

  lemma {:induction false} UnitsUnaffected(ds: seq<Candidate>, plan: Plan, id: string, v: int)
    requires Covers(plan, ds) && forall d :: d in ds ==> d.locationId != id
    ensures Units(ds, plan[id := v]) == Units(ds, plan)
  {
    if ds == [] {
    } else {
      UnitsUnaffected(ds[1..], plan, id, v);
    }
  }

  lemma {:induction false} UnitsUpdate(ds: seq<Candidate>, plan: Plan, d: Candidate, v: int)
    requires DistinctLocations(ds) && Covers(plan, ds) && d in ds
    ensures Units(ds, plan[d.locationId := v]) == Units(ds, plan) - plan[d.locationId] + v
  {
    if ds[0] == d {
      UnitsUnaffected(ds[1..], plan, d.locationId, v);
    } else {
      assert d in ds[1..];
      UnitsUpdate(ds[1..], plan, d, v);
    }
  }

  lemma {:induction false} UnitsOfZeros(ds: seq<Candidate>, plan: Plan)
    requires Covers(plan, ds) && forall d :: d in ds ==> plan[d.locationId] == 0
    ensures Units(ds, plan) == 0
  {
    if ds == [] {
    } else {
      UnitsOfZeros(ds[1..], plan);
    }
  }

  // ---------------------------------------------------------------- wants

  ghost predicate WantsOf(wants: seq<Want>, ds: seq<Candidate>) {
    && (forall w :: w in wants ==> w.want > 0.0 && w.d in ds)
    && (forall i, j :: 0 <= i < j < |wants| ==> wants[i].d.locationId != wants[j].d.locationId)
  }

  function WantOf(): Want -> real { (w: Want) => w.want }

  function Fraction(w: Want): real { w.want - w.want.Floor as real }

  function HasFraction(): Want -> bool { (w: Want) => Fraction(w) > 0.0 }

  function FloorTotal(wants: seq<Want>): int {
    if wants == [] then 0 else wants[0].want.Floor + FloorTotal(wants[1..])
  }

  /** How `localeCompare` orders location ids: any total order up to ties. */
  type Collation = (string, string) -> bool

  /** Larger fraction first, then the faster seller, then the location id. */
  function ByRemainder(collate: Collation): (Want, Want) -> bool {
    (a: Want, b: Want) =>
      Fraction(a) > Fraction(b) ||
      (Fraction(a) == Fraction(b) &&
        (a.d.runRate > b.d.runRate ||
          (a.d.runRate == b.d.runRate && collate(a.d.locationId, b.d.locationId))))
  }

  lemma ByRemainderIsOrder(collate: Collation)
    requires TotalPreorder(collate)
    ensures TotalPreorder(ByRemainder(collate))
  {
    var le := ByRemainder(collate);
    forall x: Want, y: Want ensures le(x, y) || le(y, x) {
      assert collate(x.d.locationId, y.d.locationId) || collate(y.d.locationId, x.d.locationId);
    }
    forall x: Want, y: Want, z: Want | le(x, y) && le(y, z) ensures le(x, z) {
      var a, b, c := x.d.locationId, y.d.locationId, z.d.locationId;
      assert collate(a, b) && collate(b, c) ==> collate(a, c);
    }
  }

  lemma FloorTotalStep(wants: seq<Want>, i: nat)
    requires i < |wants|
    ensures FloorTotal(wants[..i + 1]) == FloorTotal(wants[..i]) + wants[i].want.Floor
  {
    if i == 0 {
      assert wants[..1] == [wants[0]];
    } else {
      FloorTotalStep(wants[1..], i - 1);
      assert wants[1..][..i] == wants[..i + 1][1..];
      assert wants[1..][..i - 1] == wants[..i][1..];
    }
  }

  /** The fractional parts add up to less than the number of wants that have one. */
  lemma {:induction false} FractionsBelowCount(wants: seq<Want>)
    ensures FloorTotal(wants) as real <= SumBy(wants, WantOf())
    ensures SumBy(wants, WantOf()) <= (FloorTotal(wants) + CountIf(wants, HasFraction())) as real
  {
    if wants == [] {
    } else {
      FractionsBelowCount(wants[1..]);
      assert 0.0 <= Fraction(wants[0]) < 1.0;
    }
  }

  ghost predicate Planned(wants: seq<Want>, plan: Plan) {
    forall w :: w in wants ==> w.d.locationId in plan
  }

  /** Every want is rounded down or up, never further. */
  ghost predicate Quota(wants: seq<Want>, plan: Plan)
    requires Planned(wants, plan)
  {
    forall w :: w in wants ==> w.want.Floor <= plan[w.d.locationId] <= Ceil(w.want)
  }

  /** `w` has no claim before `v`: its fraction is not larger, at the same fraction it does not sell faster,
      and at the same rate too its id does not come strictly before. */
  ghost predicate NoClaimBefore(collate: Collation, w: Want, v: Want) {
    var a, b := v.want - v.want.Floor as real, w.want - w.want.Floor as real;
    && b <= a
    && (a == b ==> w.d.runRate <= v.d.runRate)
    && (a == b && v.d.runRate == w.d.runRate ==> collate(v.d.locationId, w.d.locationId))
  }

  lemma RemainderOrderMeans(collate: Collation, v: Want, w: Want)
    ensures ByRemainder(collate)(v, w) ==> NoClaimBefore(collate, w, v)
  {
    var a, b := Fraction(v), Fraction(w);
    assert ByRemainder(collate)(v, w) ==> b <= a;
  }

  /** No want without a spare unit has a claim before one that got one. */
  ghost predicate SpareByRemainder(collate: Collation, wants: seq<Want>, plan: Plan)
    requires Planned(wants, plan)
  {
    forall v, w :: v in wants && w in wants && GotSpare(plan, v) && !GotSpare(plan, w) ==> NoClaimBefore(collate, w, v)
  }

  /** The whole units to ship. */
  function Budget(wants: seq<Want>, units: int): int {
    MinInt(units, (SumBy(wants, WantOf()) + SLACK).Floor)
  }

  /** What the budget leaves over the floors is never negative and never more than the number
      of wants with a fraction. */
  lemma SpareBounds(wants: seq<Want>, units: int)
    requires SumBy(wants, WantOf()) <= units as real
    ensures var budget := Budget(wants, units);
      FloorTotal(wants) <= budget <= FloorTotal(wants) + CountIf(wants, HasFraction())
  {
    FractionsBelowCount(wants);
    assert FloorTotal(wants) as real <= units as real;
  }

  lemma LargerFractionFirst(collate: Collation, v: Want, w: Want)
    ensures ByRemainder(collate)(v, w) ==> Fraction(v) >= Fraction(w)
  {}

  /** In remainder order the wants with a fraction come first. */
  lemma FractionPrefix(collate: Collation, sorted: seq<Want>, i: nat)
    requires SortedBy(sorted, ByRemainder(collate)) && i < CountIf(sorted, HasFraction()) && i < |sorted|
    ensures Fraction(sorted[i]) > 0.0
  {
    hide ByRemainder, Fraction;
    if Fraction(sorted[i]) <= 0.0 {
      forall j | i < j < |sorted| ensures !HasFraction()(sorted[j]) {
        LargerFractionFirst(collate, sorted[i], sorted[j]);
      }
      CountIfConcat(sorted[..i], sorted[i..], HasFraction());
      assert sorted == sorted[..i] + sorted[i..];
      CountNone(sorted[i..], HasFraction());
      CountAtMostLength(sorted[..i]);
    }
  }

  lemma {:induction false} CountAtMostLength(s: seq<Want>)
    ensures CountIf(s, HasFraction()) <= |s|
  {
    if s == [] {
    } else {
      CountAtMostLength(s[1..]);
    }
  }

  ghost predicate GotSpare(plan: Plan, w: Want)
    requires w.d.locationId in plan
  {
    plan[w.d.locationId] == w.want.Floor + 1
  }

  lemma SameLocationSameCandidate(ds: seq<Candidate>, c: Candidate, d: Candidate)
    requires DistinctLocations(ds) && c in ds && d in ds && c.locationId == d.locationId
    ensures c == d
  {}

  /** The first `i` wants are floored and nothing else is planned. */
  ghost predicate Floored(candidates: seq<Candidate>, wants: seq<Want>, i: nat, plan: Plan)
    requires i <= |wants| && WantsOf(wants, candidates)
  {
    && plan.Keys == (set d | d in candidates :: d.locationId)
    && (forall j :: 0 <= j < i ==> plan[wants[j].d.locationId] == wants[j].want.Floor)
    && (forall d :: d in candidates && d !in Destinations(wants[..i]) ==> plan[d.locationId] == 0)
    && Units(candidates, plan) == FloorTotal(wants[..i])
  }

  function Destinations(wants: seq<Want>): set<Destination> { set w | w in wants :: w.d }

  lemma FloorStep(candidates: seq<Candidate>, wants: seq<Want>, i: nat, plan: Plan)
    requires DistinctLocations(candidates) && WantsOf(wants, candidates)
    requires i < |wants| && Floored(candidates, wants, i, plan)
    ensures Floored(candidates, wants, i + 1, plan[wants[i].d.locationId := wants[i].want.Floor])
  {
    hide Units, FloorTotal;
    var w := wants[i];
    assert w.d !in Destinations(wants[..i]);
    UnitsUpdate(candidates, plan, w.d, w.want.Floor);
    FloorTotalStep(wants, i);
    assert wants[..i + 1] == wants[..i] + [w];
    forall d | d in candidates && d !in Destinations(wants[..i + 1]) ensures d.locationId != w.d.locationId {
      if d.locationId == w.d.locationId { SameLocationSameCandidate(candidates, d, w.d); }
    }
  }

  /** Floors every want, then hands the spare units out by largest remainder. */
  method RoundWants(collate: Collation, candidates: seq<Candidate>, wants: seq<Want>, units: nat)
    returns (plan: Plan, budget: int)
    requires TotalPreorder(collate)
    requires DistinctLocations(candidates) && WantsOf(wants, candidates)
    requires SumBy(wants, WantOf()) <= units as real
    ensures plan.Keys == set d | d in candidates :: d.locationId
    ensures budget == Budget(wants, units)
    ensures Units(candidates, plan) == budget <= units
    ensures Quota(wants, plan)
    ensures forall d :: d in candidates && d !in Destinations(wants) ==> plan[d.locationId] == 0
    ensures SpareByRemainder(collate, wants, plan)
  {
    budget := Budget(wants, units);
    plan := map d | d in candidates :: d.locationId := 0;
    UnitsOfZeros(candidates, plan);
    for i := 0 to |wants|
      invariant Floored(candidates, wants, i, plan)
    {
      FloorStep(candidates, wants, i, plan);
      plan := plan[wants[i].d.locationId := wants[i].want.Floor];
    }
    assert wants[..|wants|] == wants;
    plan := HandOutSpare(collate, candidates, wants, plan, budget, units);
  }

  /** The first `i` wants in remainder order have one unit over their floor. */
  ghost predicate Handed(candidates: seq<Candidate>, sorted: seq<Want>, i: nat, floors: Plan, plan: Plan)
    requires i <= |sorted| && WantsOf(sorted, candidates) && Covers(floors, candidates)
  {
    && plan.Keys == floors.Keys
    && Units(candidates, plan) == Units(candidates, floors) + i
    && (forall j :: 0 <= j < i ==> GotSpare(plan, sorted[j]) && Fraction(sorted[j]) > 0.0)
    && (forall j :: i <= j < |sorted| ==> plan[sorted[j].d.locationId] == sorted[j].want.Floor)
    && (forall d :: d in candidates && d !in Destinations(sorted) ==> plan[d.locationId] == floors[d.locationId])
  }

  lemma HandStep(candidates: seq<Candidate>, sorted: seq<Want>, i: nat, floors: Plan, plan: Plan)
    requires DistinctLocations(candidates) && WantsOf(sorted, candidates) && Covers(floors, candidates)
    requires i < |sorted| && Fraction(sorted[i]) > 0.0
    requires Handed(candidates, sorted, i, floors, plan)
    ensures Handed(candidates, sorted, i + 1, floors, AddUnit(plan, sorted[i].d))
  {
    var w := sorted[i];
    UnitsUpdate(candidates, plan, w.d, plan[w.d.locationId] + 1);
    forall d | d in candidates && d !in Destinations(sorted) ensures d.locationId != w.d.locationId {
      if d.locationId == w.d.locationId { SameLocationSameCandidate(candidates, d, w.d); }
    }
  }

  lemma RemainderOrder(collate: Collation, candidates: seq<Candidate>, wants: seq<Want>)
    requires TotalPreorder(collate)
    requires WantsOf(wants, candidates)
    ensures var sorted := Sort(wants, ByRemainder(collate));
      && SortedBy(sorted, ByRemainder(collate)) && WantsOf(sorted, candidates)
      && (forall w :: w in wants <==> w in sorted)
      && CountIf(sorted, HasFraction()) == CountIf(wants, HasFraction()) <= |sorted|
  {
    var sorted := Sort(wants, ByRemainder(collate));
    ByRemainderIsOrder(collate);
    SortProperties(wants, ByRemainder(collate));
    CountIfPermutation(sorted, wants, HasFraction());
    SortedWantsDistinct(wants, sorted);
    CountAtMostLength(sorted);
  }

  ghost predicate AtFloors(wants: seq<Want>, plan: Plan)
    requires Planned(wants, plan)
  {
    forall w :: w in wants ==> plan[w.d.locationId] == w.want.Floor
  }

  lemma HandStart(collate: Collation, candidates: seq<Candidate>, wants: seq<Want>, floors: Plan)
    requires TotalPreorder(collate)
    requires WantsOf(wants, candidates) && Covers(floors, candidates) && AtFloors(wants, floors)
    ensures WantsOf(Sort(wants, ByRemainder(collate)), candidates)
    ensures Handed(candidates, Sort(wants, ByRemainder(collate)), 0, floors, floors)
  {
    RemainderOrder(collate, candidates, wants);
  }

  lemma HandEnd(collate: Collation, candidates: seq<Candidate>, wants: seq<Want>, k: nat, floors: Plan, plan: Plan)
    requires TotalPreorder(collate)
    requires WantsOf(wants, candidates) && Covers(floors, candidates) && Planned(wants, plan)
    requires var sorted := Sort(wants, ByRemainder(collate));
      WantsOf(sorted, candidates) && k <= |sorted| && Handed(candidates, sorted, k, floors, plan)
    ensures Quota(wants, plan) && SpareByRemainder(collate, wants, plan)
    ensures forall d :: d in candidates && d !in Destinations(wants) ==> plan[d.locationId] == floors[d.locationId]
  {
    var sorted := Sort(wants, ByRemainder(collate));
    RemainderOrder(collate, candidates, wants);
    ExtraGoesToPrefix(collate, wants, sorted, plan, k);
    forall d | d in candidates && d !in Destinations(wants) ensures d !in Destinations(sorted) {}
  }

  /** The spare loop: one more unit to each of the first wants in remainder order. */
  method HandOutSpare(collate: Collation, candidates: seq<Candidate>, wants: seq<Want>, floors: Plan, budget: int,
                      ghost units: nat) returns (plan: Plan)
    requires TotalPreorder(collate)
    requires DistinctLocations(candidates) && WantsOf(wants, candidates) && Covers(floors, candidates)
    requires SumBy(wants, WantOf()) <= units as real
    requires budget == Budget(wants, units)
    requires Planned(wants, floors) && AtFloors(wants, floors) && Units(candidates, floors) == FloorTotal(wants)
    ensures plan.Keys == floors.Keys && Units(candidates, plan) == budget
    ensures Quota(wants, plan)
    ensures forall d :: d in candidates && d !in Destinations(wants) ==> plan[d.locationId] == floors[d.locationId]
    ensures SpareByRemainder(collate, wants, plan)
  {
    plan := floors;
    var spare := budget - Units(candidates, plan);
    var byRemainder := Sort(wants, ByRemainder(collate));
    SpareBounds(wants, units);
    HandStart(collate, candidates, wants, floors);
    assert CountIf(byRemainder, HasFraction()) >= spare && |byRemainder| >= spare by {
      RemainderOrder(collate, candidates, wants);
    }
    ghost var given := spare;
    for i := 0 to |byRemainder|
      invariant 0 <= spare == given - i
      invariant Handed(candidates, byRemainder, i, floors, plan)
    {
      if spare <= 0 {
        HandEnd(collate, candidates, wants, i, floors, plan);
        return;
      }
      assert Fraction(byRemainder[i]) > 0.0 by {
        RemainderOrder(collate, candidates, wants);
        FractionPrefix(collate, byRemainder, i);
      }
      HandStep(candidates, byRemainder, i, floors, plan);
      plan := AddUnit(plan, byRemainder[i].d);
      spare := spare - 1;
    }
    HandEnd(collate, candidates, wants, |byRemainder|, floors, plan);
  }

  lemma SortedWantsDistinct(wants: seq<Want>, sorted: seq<Want>)
    requires multiset(wants) == multiset(sorted)
    requires forall i, j :: 0 <= i < j < |wants| ==> wants[i].d.locationId != wants[j].d.locationId
    ensures forall w :: w in wants <==> w in sorted
    ensures forall i, j :: 0 <= i < j < |sorted| ==> sorted[i].d.locationId != sorted[j].d.locationId
  {
    assert forall w :: w in wants <==> w in multiset(wants);
    assert forall w :: w in sorted <==> w in multiset(sorted);
    forall i, j | 0 <= i < j < |sorted| ensures sorted[i].d.locationId != sorted[j].d.locationId {
      if sorted[i] == sorted[j] {
        TwiceCounted(sorted, i, j);
        DistinctOnce(wants, sorted[i]);
      } else {
        assert sorted[i] in wants && sorted[j] in wants;
      }
    }
  }

  lemma {:induction false} DistinctOnce(s: seq<Want>, w: Want)
    requires forall i, j :: 0 <= i < j < |s| ==> s[i].d.locationId != s[j].d.locationId
    ensures multiset(s)[w] <= 1
  {
    if s == [] {
    } else {
      DistinctOnce(s[1..], w);
      assert s == [s[0]] + s[1..];
      if s[0] == w {
        assert w !in s[1..];
      }
    }
  }

  lemma ExtraGoesToPrefix(collate: Collation, wants: seq<Want>, sorted: seq<Want>, plan: Plan, k: nat)
    requires SortedBy(sorted, ByRemainder(collate)) && k <= |sorted|
    requires forall w :: w in wants <==> w in sorted
    requires Planned(wants, plan)
    requires forall j :: 0 <= j < k ==> GotSpare(plan, sorted[j]) && Fraction(sorted[j]) > 0.0
    requires forall j :: k <= j < |sorted| ==> plan[sorted[j].d.locationId] == sorted[j].want.Floor
    ensures Quota(wants, plan)
    ensures SpareByRemainder(collate, wants, plan)
  {
    forall w | w in wants ensures w.want.Floor <= plan[w.d.locationId] <= Ceil(w.want) {
      var j :| 0 <= j < |sorted| && sorted[j] == w;
    }
    forall v, w | v in wants && w in wants && GotSpare(plan, v) && !GotSpare(plan, w)
      ensures NoClaimBefore(collate, w, v)
    {
      var i :| 0 <= i < |sorted| && sorted[i] == v;
      var j :| 0 <= j < |sorted| && sorted[j] == w;
      assert i < k <= j;
      RemainderOrderMeans(collate, v, w);
    }
  }
}
