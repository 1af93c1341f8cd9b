/** The ABC classes of packages/forecast/src/abc.ts: a Pareto cut on revenue, then demotions. */
module Abc {
  import opened Sorting
  import opened Wrappers

  const A_SHARE := 0.7
  const B_SHARE := 0.9
  const MIN_RUN_RATE_FOR_A := 0.4
  const MIN_RUN_RATE_FOR_B := 0.1
  const MIN_SALE_SPAN_DAYS_FOR_A := 14.0

  datatype Item = Item(id: string, revenue: real, runRate: Option<real>, saleSpanDays: Option<real>)

  datatype Class = A | B | C

  function Revenue(): Item -> real { (p: Item) => p.revenue }

  function ByRevenue(): (Item, Item) -> bool { (a: Item, b: Item) => a.revenue >= b.revenue }

  function Total(items: seq<Item>): real { SumBy(items, Revenue()) }

  /** What the first `n` of the ranking hold. */
  function Held(ranked: seq<Item>, n: nat): real
    requires n <= |ranked|
  {
    Total(ranked[..n])
  }

  function Cut(above: real): Class { if above < A_SHARE then A else if above < B_SHARE then B else C }

  /** The class by the share of revenue ranked above the item. */
  function RevenueClass(ranked: seq<Item>, i: nat): Class
    requires i < |ranked|
  {
    Cut(if Total(ranked) > 0.0 then Held(ranked, i) / Total(ranked) else 1.0)
  }

  function Demoted(p: Item, cls: Class): Class {
    var slow := if p.runRate.None? then cls
                else
                  var first := if cls.A? && p.runRate.value < MIN_RUN_RATE_FOR_A then B else cls;
                  if first.B? && p.runRate.value < MIN_RUN_RATE_FOR_B then C else first;
    if slow.A? && p.saleSpanDays.Some? && p.saleSpanDays.value < MIN_SALE_SPAN_DAYS_FOR_A then B else slow
  }

  /** Among the first `n` of the ranking position `i` is the last with its id. */
  ghost predicate LastOfId(ranked: seq<Item>, i: nat, n: nat)
    requires i < n <= |ranked|
  {
    forall j :: i < j < n ==> ranked[j].id != ranked[i].id
  }

  ghost predicate Filed(ranked: seq<Item>, classes: map<string, Class>, i: nat)
    requires i < |ranked|
  {
    ranked[i].id in classes && classes[ranked[i].id] == Demoted(ranked[i], RevenueClass(ranked, i))
  }

  /** Every id is filed by its last item in the ranking. */
  ghost predicate AllFiled(items: seq<Item>, classes: map<string, Class>) {
    forall i :: 0 <= i < |items| && LastOfId(Sort(items, ByRevenue()), i, |items|)
      ==> Filed(Sort(items, ByRevenue()), classes, i)
  }

  lemma HeldStep(ranked: seq<Item>, i: nat)
    requires i < |ranked|
    ensures Held(ranked, i + 1) == Held(ranked, i) + ranked[i].revenue
  {
    assert ranked[..i + 1] == ranked[..i] + [ranked[i]];
    SumByConcat(ranked[..i], [ranked[i]], Revenue());
  }

  method AssignAbc(items: seq<Item>) returns (classes: map<string, Class>)
    ensures classes.Keys == set p | p in items :: p.id
    ensures AllFiled(items, classes)
  {
    hide Held, Total, RevenueClass;
    var sorted := Sort(items, ByRevenue());
    var total := Sum(sorted);
    var cumulative := 0.0;
    HeldNone(sorted);
    classes := map[];
    for i := 0 to |sorted|
      invariant cumulative == Held(sorted, i)
      invariant classes.Keys == set p | p in sorted[..i] :: p.id
      invariant forall j :: 0 <= j < i && LastOfId(sorted, j, i) ==> Filed(sorted, classes, j)
    {
      var p := sorted[i];
      var above := if total > 0.0 then cumulative / total else 1.0;
      HeldStep(sorted, i);
      assert sorted[..i + 1] == sorted[..i] + [p];
      cumulative := cumulative + p.revenue;
      var cls := if above < A_SHARE then A else if above < B_SHARE then B else C;
      ghost var cut := cls;
      if p.runRate.Some? {
        if cls.A? && p.runRate.value < MIN_RUN_RATE_FOR_A { cls := B; }
        if cls.B? && p.runRate.value < MIN_RUN_RATE_FOR_B { cls := C; }
      }
      if cls.A? && p.saleSpanDays.Some? && p.saleSpanDays.value < MIN_SALE_SPAN_DAYS_FOR_A { cls := B; }
      assert cut == RevenueClass(sorted, i) by { CutAt(sorted, i, above); }
      assert cls == Demoted(p, cut);
      ghost var before := classes;
      classes := classes[p.id := cls];
      forall j | 0 <= j < i + 1 && LastOfId(sorted, j, i + 1) ensures Filed(sorted, classes, j) {
        if j < i {
          assert LastOfId(sorted, j, i);
          assert Filed(sorted, before, j);
        }
      }
    }
    assert sorted[..|sorted|] == sorted;
    SameMembers(items);
  }

  lemma HeldNone(ranked: seq<Item>)
    ensures Held(ranked, 0) == 0.0
  {}

  lemma CutAt(ranked: seq<Item>, i: nat, above: real)
    requires i < |ranked|
    requires above == if Total(ranked) > 0.0 then Held(ranked, i) / Total(ranked) else 1.0
    ensures RevenueClass(ranked, i) == Cut(above)
  {}

  lemma SameMembers(items: seq<Item>)
    ensures forall p :: p in items <==> p in Sort(items, ByRevenue())
  {
    SortProperties(items, ByRevenue());
    forall p ensures p in items <==> p in Sort(items, ByRevenue()) {
      assert p in multiset(items) <==> p in multiset(Sort(items, ByRevenue()));
    }
  }

  method Sum(items: seq<Item>) returns (total: real)
    ensures total == Total(items)
  {
    total := 0.0;
    for i := 0 to |items|
      invariant total == Held(items, i)
    {
      HeldStep(items, i);
      total := total + items[i].revenue;
    }
    assert items[..|items|] == items;
  }

  // ---------------------------------------------------------------- the cuts

  lemma RankedProperties(items: seq<Item>)
    ensures var ranked := Sort(items, ByRevenue());
      SortedBy(ranked, ByRevenue()) && multiset(ranked) == multiset(items) && Total(ranked) == Total(items)
  {
    SortProperties(items, ByRevenue());
    SumByPermutation(Sort(items, ByRevenue()), items, Revenue());
  }

  lemma {:induction false} LossesOnly(items: seq<Item>)
    requires forall i :: 0 <= i < |items| ==> items[i].revenue <= 0.0
    ensures Total(items) <= 0.0
  {
    if items == [] {
    } else {
      LossesOnly(items[1..]);
    }
  }

  lemma Shares(part: real, whole: real, share: real)
    requires whole > 0.0
    ensures part / whole < share <==> part < share * whole
  {
    var q := part / whole;
    assert q * whole == part;
    if q < share { assert (share - q) * whole > 0.0; } else { assert (q - share) * whole >= 0.0; }
  }

  ghost predicate Reaches(ranked: seq<Item>, share: real, n: nat)
    requires n <= |ranked|
  {
    Held(ranked, n) >= share * Total(ranked)
  }

  /** Where the ranking has turned to losses, its leading part already holds more than everything. */
  lemma LossesFollow(ranked: seq<Item>, m: nat)
    requires SortedBy(ranked, ByRevenue()) && 0 < m <= |ranked| && ranked[m - 1].revenue < 0.0
    ensures Held(ranked, m) >= Total(ranked)
  {
    forall i | m <= i < |ranked| ensures ranked[i].revenue <= 0.0 {
      assert ByRevenue()(ranked[m - 1], ranked[i]);
    }
    LossesOnly(ranked[m..]);
    assert ranked == ranked[..m] + ranked[m..];
    SumByConcat(ranked[..m], ranked[m..], Revenue());
  }

  lemma AtMostWhole(share: real, whole: real)
    requires whole > 0.0 && share <= 1.0
    ensures share * whole <= whole
  {
    assert (1.0 - share) * whole >= 0.0;
  }

  /** Once a share up to the whole is reached it stays reached, even past items that lost money. */
  lemma {:induction false} StaysReached(ranked: seq<Item>, share: real, n: nat, m: nat)
    requires SortedBy(ranked, ByRevenue()) && Total(ranked) > 0.0 && share <= 1.0
    requires n <= m <= |ranked| && Reaches(ranked, share, n)
    ensures Reaches(ranked, share, m)
  {
    hide Held, Total;
    if n >= m {
    } else {
      StaysReached(ranked, share, n, m - 1);
      HeldStep(ranked, m - 1);
      if ranked[m - 1].revenue < 0.0 {
        LossesFollow(ranked, m);
        AtMostWhole(share, Total(ranked));
      }
    }
  }

  /** `n` is the length of the smallest leading part of the ranking holding `share` of the revenue. */
  ghost predicate SmallestReaching(ranked: seq<Item>, share: real, n: nat)
    requires n <= |ranked|
  {
    Reaches(ranked, share, n) && forall m: nat :: m < n ==> !Reaches(ranked, share, m)
  }

  lemma FindSmallest(ranked: seq<Item>, share: real) returns (n: nat)
    requires Total(ranked) > 0.0 && 0.0 < share <= 1.0
    ensures 0 < n <= |ranked| && SmallestReaching(ranked, share, n)
  {
    n := 0;
    assert share * Total(ranked) > 0.0;
    AtMostWhole(share, Total(ranked));
    assert ranked[..|ranked|] == ranked;
    while !Reaches(ranked, share, n)
      invariant n <= |ranked| && forall m: nat :: m < n ==> !Reaches(ranked, share, m)
      decreases |ranked| - n
    {
      n := n + 1;
    }
  }

  /** Before demotion class A is the smallest leading part of the ranking that holds 70% of the
      revenue, A and B together the smallest that holds 90%, and the top earner is in A. */
  lemma CutsAreSmallest(ranked: seq<Item>) returns (a: nat, b: nat)
    requires SortedBy(ranked, ByRevenue()) && Total(ranked) > 0.0
    ensures 0 < a <= b <= |ranked|
    ensures SmallestReaching(ranked, 0.7, a) && SmallestReaching(ranked, 0.9, b)
    ensures forall i :: 0 <= i < |ranked| ==> RevenueClass(ranked, i) == if i < a then A else if i < b then B else C
  {
    hide Held, RevenueClass, Total;
    a := FindSmallest(ranked, A_SHARE);
    b := FindSmallest(ranked, B_SHARE);
    assert b >= a by { LargerShare(ranked, b); }
    forall i | 0 <= i < |ranked| ensures RevenueClass(ranked, i) == if i < a then A else if i < b then B else C {
      ClassByReach(ranked, i);
      if i >= a { StaysReached(ranked, A_SHARE, a, i); }
      if i >= b { StaysReached(ranked, B_SHARE, b, i); }
    }
  }

  lemma LargerShare(ranked: seq<Item>, n: nat)
    requires n <= |ranked| && Total(ranked) > 0.0 && Reaches(ranked, B_SHARE, n)
    ensures Reaches(ranked, A_SHARE, n)
  {}

  lemma ClassByReach(ranked: seq<Item>, i: nat)
    requires i < |ranked| && Total(ranked) > 0.0
    ensures RevenueClass(ranked, i) ==
      if !Reaches(ranked, A_SHARE, i) then A else if !Reaches(ranked, B_SHARE, i) then B else C
  {
    hide Held, Total;
    CutByShares(Held(ranked, i), Total(ranked));
  }

  lemma CutByShares(part: real, whole: real)
    requires whole > 0.0
    ensures Cut(part / whole) == if part < A_SHARE * whole then A else if part < B_SHARE * whole then B else C
  {
    Shares(part, whole, A_SHARE);
    Shares(part, whole, B_SHARE);
  }

  /** No selection of as many items earns more than the top of the ranking. */
  lemma {:induction false} TopEarnsMost(ranked: seq<Item>, chosen: seq<Item>)
    requires SortedBy(ranked, ByRevenue()) && multiset(chosen) <= multiset(ranked)
    ensures |chosen| <= |ranked|
    ensures Total(chosen) <= Held(ranked, |chosen|)
  {
    if chosen == [] {
    } else {
      Included(chosen, ranked);
      var top, rest := ranked[0], ranked[1..];
      assert ranked == [top] + rest;
      var others, out := SetAside(chosen, top, rest);
      TopEarnsMost(rest, others);
      assert ranked[..|chosen|] == [top] + rest[..|others|];
      assert out in multiset(ranked);
      assert ByRevenue()(top, out);
    }
  }

  lemma Included(chosen: seq<Item>, ranked: seq<Item>)
    requires chosen != [] && multiset(chosen) <= multiset(ranked)
    ensures ranked != []
  {
    assert chosen[0] in multiset(chosen);
    assert chosen[0] in multiset(ranked);
  }

  /** Leaves out one chosen item, the top one when it was chosen. */
  lemma SetAside(chosen: seq<Item>, top: Item, rest: seq<Item>) returns (others: seq<Item>, out: Item)
    requires chosen != [] && multiset(chosen) <= multiset([top] + rest)
    ensures |others| + 1 == |chosen| && out in chosen && Total(chosen) == out.revenue + Total(others)
    ensures multiset(others) <= multiset(rest)
  {
    hide Total;
    var i: nat := 0;
    if top in chosen {
      i :| 0 <= i < |chosen| && chosen[i] == top;
    }
    out := chosen[i];
    others := chosen[..i] + chosen[i + 1..];
    TakeOut(chosen, i);
    assert multiset([top] + rest) == multiset{top} + multiset(rest);
    Without(multiset(chosen), multiset(others), top, out, multiset(rest));
  }

  lemma TakeOut(items: seq<Item>, i: nat)
    requires i < |items|
    ensures var others := items[..i] + items[i + 1..];
      Total(items) == items[i].revenue + Total(others) && multiset(items) == multiset(others) + multiset{items[i]}
  {
    assert items == items[..i] + ([items[i]] + items[i + 1..]);
    SumByConcat(items[..i], [items[i]] + items[i + 1..], Revenue());
    SumByConcat([items[i]], items[i + 1..], Revenue());
    SumByConcat(items[..i], items[i + 1..], Revenue());
  }

  lemma Without(chosen: multiset<Item>, others: multiset<Item>, top: Item, out: Item, rest: multiset<Item>)
    requires chosen == others + multiset{out} && chosen <= multiset{top} + rest
    requires out == top || top !in chosen
    ensures others <= rest
  {
    forall x ensures others[x] <= rest[x] {
      assert chosen[x] <= (multiset{top} + rest)[x];
    }
  }

  /** The classes are as small as they can be: whatever items together hold 70% of the revenue are at
      least as many as class A, and 90% at least as many as A and B. */
  lemma FewestItems(ranked: seq<Item>, share: real, n: nat, chosen: seq<Item>)
    requires SortedBy(ranked, ByRevenue()) && n <= |ranked| && SmallestReaching(ranked, share, n)
    requires multiset(chosen) <= multiset(ranked) && Total(chosen) >= share * Total(ranked)
    ensures |chosen| >= n
  {
    TopEarnsMost(ranked, chosen);
    assert Reaches(ranked, share, |chosen|);
  }

  /** Without revenue to share out, everything is C. */
  lemma NoRevenueIsAllC(ranked: seq<Item>, i: nat)
    requires i < |ranked| && Total(ranked) <= 0.0
    ensures RevenueClass(ranked, i) == C && Demoted(ranked[i], RevenueClass(ranked, i)) == C
  {}

  // ---------------------------------------------------------------- the demotions

  predicate Slow(p: Item, limit: real) { p.runRate.Some? && p.runRate.value < limit }

  predicate Brief(p: Item) { p.saleSpanDays.Some? && p.saleSpanDays.value < 14.0 }

  function Rank(cls: Class): nat { match cls case A => 0 case B => 1 case C => 2 }

  /** The velocity and sale-span rules only ever demote; what is left in A earned it and moves, fast
      and for long enough, and C takes just the tail and the slowest. */
  lemma OnlyDemotes(p: Item, cls: Class)
    ensures Rank(Demoted(p, cls)) >= Rank(cls)
    ensures Demoted(p, cls).A? <==> cls.A? && !Slow(p, 0.4) && !Brief(p)
    ensures Demoted(p, cls).C? <==> cls.C? || Slow(p, 0.1)
  {}

  /** End to end: in the classes that are assigned, an id is in A exactly when less than 70% of the
      revenue is ranked above its last item and neither rule applies to that item. */
  lemma FiledUnderA(items: seq<Item>, classes: map<string, Class>, i: nat)
    requires i < |items| && Total(items) > 0.0
    requires AllFiled(items, classes) && LastOfId(Sort(items, ByRevenue()), i, |items|)
    ensures var ranked := Sort(items, ByRevenue());
      && ranked[i].id in classes
      && (classes[ranked[i].id].A?
          <==> Held(ranked, i) < 0.7 * Total(items) && !Slow(ranked[i], 0.4) && !Brief(ranked[i]))
  {
    var ranked := Sort(items, ByRevenue());
    RankedProperties(items);
    assert Filed(ranked, classes, i);
    hide Held, Total, RevenueClass, Demoted;
    ClassByReach(ranked, i);
    OnlyDemotes(ranked[i], RevenueClass(ranked, i));
  }

  /** And it is in C exactly when 90% is ranked above, or the item is one of the slowest. */
  lemma FiledUnderC(items: seq<Item>, classes: map<string, Class>, i: nat)
    requires i < |items| && Total(items) > 0.0
    requires AllFiled(items, classes) && LastOfId(Sort(items, ByRevenue()), i, |items|)
    ensures var ranked := Sort(items, ByRevenue());
      && ranked[i].id in classes
      && (classes[ranked[i].id].C?
        <==> Held(ranked, i) >= 0.9 * Total(items) || Slow(ranked[i], 0.1))
  {
    var ranked := Sort(items, ByRevenue());
    RankedProperties(items);
    assert Filed(ranked, classes, i);
    if Reaches(ranked, B_SHARE, i) { LargerShare(ranked, i); }
    hide Held, Total, RevenueClass, Demoted;
    ClassByReach(ranked, i);
    OnlyDemotes(ranked[i], RevenueClass(ranked, i));
  }
}
