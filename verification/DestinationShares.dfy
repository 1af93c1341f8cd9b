/** How packages/forecast/src/transfers.ts splits a product's rate over the branches. */
module DestinationShares {
  import opened Sorting

  datatype Basis = Attributed | Allocated | Even

  datatype Branch = Branch(locationId: string, onHand: real, attributedUnits: real)

  function Positive(x: real): real { if x > 0.0 then x else 0.0 }

  /** What a branch's share is proportional to. */
  function Weight(basis: Basis): Branch -> real {
    (d: Branch) =>
      match basis
      case Attributed => Positive(d.attributedUnits)
      case Allocated => Positive(d.onHand)
      case Even => 1.0
  }

  function TotalWeight(branches: seq<Branch>, basis: Basis): real { SumBy(branches, Weight(basis)) }

  function BasisOf(branches: seq<Branch>): Basis {
    if TotalWeight(branches, Attributed) > 0.0 then Attributed
    else if TotalWeight(branches, Allocated) > 0.0 then Allocated
    else Even
  }

  function Share(branches: seq<Branch>, basis: Basis): Branch -> real {
    (d: Branch) => if TotalWeight(branches, basis) != 0.0 then Weight(basis)(d) / TotalWeight(branches, basis) else 0.0
  }

  ghost predicate DistinctLocations(branches: seq<Branch>) {
    forall i, j :: 0 <= i < j < |branches| ==> branches[i].locationId != branches[j].locationId
  }

  method Total(branches: seq<Branch>, basis: Basis) returns (total: real)
    ensures total == TotalWeight(branches, basis)
  {
    total := 0.0;
    for i := 0 to |branches|
      invariant total == TotalWeight(branches[..i], basis)
    {
      assert branches[..i + 1] == branches[..i] + [branches[i]];
      SumByConcat(branches[..i], [branches[i]], Weight(basis));
      total := total + Weight(basis)(branches[i]);
    }
    assert branches[..|branches|] == branches;
  }

  method SplitRate(branches: seq<Branch>) returns (basis: Basis, shares: map<string, real>)
    requires DistinctLocations(branches)
    ensures basis == BasisOf(branches)
    ensures forall i ::
      0 <= i < |branches|
      ==> branches[i].locationId in shares && shares[branches[i].locationId] == Share(branches, basis)(branches[i])
    ensures forall id :: id in shares ==> exists i :: 0 <= i < |branches| && branches[i].locationId == id
  {
    var attributed := Total(branches, Attributed);
    if attributed > 0.0 {
      shares := ShareOut(branches, Attributed, attributed);
      return Attributed, shares;
    }
    var stocked := Total(branches, Allocated);
    if stocked > 0.0 {
      shares := ShareOut(branches, Allocated, stocked);
      return Allocated, shares;
    }
    EvenWeight(branches);
    shares := ShareOut(branches, Even, |branches| as real);
    return Even, shares;
  }

  lemma {:induction false} EvenWeight(branches: seq<Branch>)
    ensures TotalWeight(branches, Even) == |branches| as real
  {
    if branches == [] {
    } else {
      EvenWeight(branches[1..]);
    }
  }

  method ShareOut(branches: seq<Branch>, basis: Basis, total: real) returns (shares: map<string, real>)
    requires DistinctLocations(branches) && total == TotalWeight(branches, basis) && (total == 0.0 ==> branches == [])
    ensures forall i ::
      0 <= i < |branches|
      ==> branches[i].locationId in shares && shares[branches[i].locationId] == Share(branches, basis)(branches[i])
    ensures forall id :: id in shares ==> exists i :: 0 <= i < |branches| && branches[i].locationId == id
  {
    hide TotalWeight;
    shares := map[];
    for i := 0 to |branches|
      invariant forall j ::
        0 <= j < i
        ==> branches[j].locationId in shares && shares[branches[j].locationId] == Share(branches, basis)(branches[j])
      invariant forall id :: id in shares ==> exists j :: 0 <= j < i && branches[j].locationId == id
    {
      shares := shares[branches[i].locationId := Weight(basis)(branches[i]) / total];
    }
  }

  lemma {:induction false} SomeWeight(branches: seq<Branch>, basis: Basis)
    ensures TotalWeight(branches, basis) >= 0.0
    ensures TotalWeight(branches, basis) > 0.0 <==> exists i :: 0 <= i < |branches| && Weight(basis)(branches[i]) > 0.0
  {
    if branches == [] {
    } else {
      var rest := branches[1..];
      SomeWeight(rest, basis);
      if i :| 0 <= i < |branches| && Weight(basis)(branches[i]) > 0.0 {
        if i > 0 { assert rest[i - 1] == branches[i]; }
      }
      if i :| 0 <= i < |rest| && Weight(basis)(rest[i]) > 0.0 { assert branches[i + 1] == rest[i]; }
    }
  }

  /** The strongest evidence there is decides: sales at any branch, else stock at any, else nothing. */
  lemma BasisByEvidence(branches: seq<Branch>)
    ensures BasisOf(branches).Attributed? <==> exists i :: 0 <= i < |branches| && branches[i].attributedUnits > 0.0
    ensures BasisOf(branches).Even?
      <==> forall i :: 0 <= i < |branches| ==> branches[i].attributedUnits <= 0.0 && branches[i].onHand <= 0.0
  {
    SomeWeight(branches, Attributed);
    SomeWeight(branches, Allocated);
    forall i | 0 <= i < |branches|
      ensures branches[i].attributedUnits > 0.0 <==> Weight(Attributed)(branches[i]) > 0.0
      ensures branches[i].onHand > 0.0 <==> Weight(Allocated)(branches[i]) > 0.0
    {}
  }

  lemma {:induction false} Scaled(branches: seq<Branch>, f: Branch -> real, g: Branch -> real, total: real)
    requires total > 0.0 && forall d :: d in branches ==> g(d) * total == f(d)
    ensures SumBy(branches, g) * total == SumBy(branches, f)
  {
    if branches == [] {
    } else {
      Scaled(branches[1..], f, g, total);
      assert (g(branches[0]) + SumBy(branches[1..], g)) * total
        == g(branches[0]) * total + SumBy(branches[1..], g) * total;
    }
  }

  /** Every rate is handed out whole: the shares are never negative and add up to one. */
  lemma SharesAreAWhole(branches: seq<Branch>)
    requires branches != []
    ensures SumBy(branches, Share(branches, BasisOf(branches))) == 1.0
    ensures forall i :: 0 <= i < |branches| ==> 0.0 <= Share(branches, BasisOf(branches))(branches[i])
  {
    var basis := BasisOf(branches);
    WeightIsPositive(branches);
    SharesOfTotal(branches, basis);
    hide TotalWeight, BasisOf, Share, Weight;
    OnlyOne(SumBy(branches, Share(branches, basis)), TotalWeight(branches, basis));
    forall i | 0 <= i < |branches| ensures 0.0 <= Share(branches, basis)(branches[i]) {
      ShareOf(branches, basis, branches[i]);
    }
  }

  lemma SharesOfTotal(branches: seq<Branch>, basis: Basis)
    requires TotalWeight(branches, basis) > 0.0
    ensures SumBy(branches, Share(branches, basis)) * TotalWeight(branches, basis) == TotalWeight(branches, basis)
  {
    hide TotalWeight, Share, Weight;
    forall d: Branch ensures Share(branches, basis)(d) * TotalWeight(branches, basis) == Weight(basis)(d) {
      ShareOf(branches, basis, d);
    }
    Scaled(branches, Weight(basis), Share(branches, basis), TotalWeight(branches, basis));
    SumOfWeights(branches, basis);
    assert SumBy(branches, Share(branches, basis)) * TotalWeight(branches, basis) == SumBy(branches, Weight(basis));
  }

  lemma WeightIsPositive(branches: seq<Branch>)
    requires branches != []
    ensures TotalWeight(branches, BasisOf(branches)) > 0.0
  {
    EvenWeight(branches);
  }

  lemma SumOfWeights(branches: seq<Branch>, basis: Basis)
    ensures SumBy(branches, Weight(basis)) == TotalWeight(branches, basis)
  {}

  lemma ShareOf(branches: seq<Branch>, basis: Basis, d: Branch)
    requires TotalWeight(branches, basis) > 0.0
    ensures Share(branches, basis)(d) * TotalWeight(branches, basis) == Weight(basis)(d)
      && Share(branches, basis)(d) >= 0.0
  {
    hide TotalWeight;
    Quotient(Weight(basis)(d), TotalWeight(branches, basis));
  }

  lemma Quotient(a: real, b: real)
    requires a >= 0.0 && b > 0.0
    ensures a / b * b == a && a / b >= 0.0
  {}

  lemma OnlyOne(x: real, total: real)
    requires total > 0.0 && x * total == total
    ensures x == 1.0
  {
    assert (x - 1.0) * total == 0.0;
  }
}
