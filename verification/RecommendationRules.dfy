/** The idle-stock rules of packages/forecast/src/recommendations.ts and overstock.ts. */
module RecommendationRules {
  import opened Numbers
  import opened Sorting
  import opened Wrappers

  const OVERSTOCK_COVER_DAYS := 90.0
  const MIN_PRICE_OVER_COST := 1.05
  const MIN_DISCOUNT_PCT := 10

  datatype Action = StopReorder | Discount | Bundle | Clear

  datatype Product = Product(productId: string, abc: Option<string>, category: Option<string>, onHand: real,
                             costKes: real, priceKes: real, runRate: real, dead: bool,
                             daysSinceSale: Option<int>, plannedQty: int)

  datatype Payload = Planned(qty: int) | Units(units: int) | PairWith(productId: string)
                   | PriceCut(pct: int, newPriceKes: int, priceKes: int)

  datatype Recommendation = Recommendation(productId: string, action: Action, cashKes: real, idleUnits: int,
                                           payload: Payload)

  // ---------------------------------------------------------------- discounts

  function TargetPct(p: Product, windowDays: int): int {
    if !p.dead then 10
    else if p.daysSinceSale.None? || p.daysSinceSale.value as real >= windowDays as real * 1.5 then 30
    else 20
  }

  /** The percentage the margin over the minimum price allows. */
  function MaxByMargin(p: Product, target: int): real
    requires p.priceKes > 0.0
  {
    if p.costKes > 0.0 then (1.0 - p.costKes * MIN_PRICE_OVER_COST / p.priceKes) * 100.0 else target as real
  }

  function SuggestedDiscountPct(p: Product, windowDays: int): Option<int> {
    if p.priceKes <= 0.0 then None
    else
      var target := TargetPct(p, windowDays);
      var pct := (Min(target as real, MaxByMargin(p, target)) / 5.0).Floor * 5;
      if pct >= MIN_DISCOUNT_PCT then Some(pct) else None
  }

  function DiscountedPrice(p: Product, pct: int): real { p.priceKes * (1.0 - pct as real / 100.0) }

  /** A price after a cut of `pct` percent still clears the minimum over cost. */
  predicate ClearsCost(p: Product, pct: int) {
    p.costKes <= 0.0 || DiscountedPrice(p, pct) >= p.costKes * MIN_PRICE_OVER_COST
  }

  lemma MarginMeaning(p: Product, target: int, pct: int)
    requires p.priceKes > 0.0 && p.costKes > 0.0
    ensures pct as real <= MaxByMargin(p, target) <==> ClearsCost(p, pct)
  {
    var c, x := p.costKes * MIN_PRICE_OVER_COST, p.priceKes;
    var q := c / x;
    assert q * x == c;
    var f := 1.0 - pct as real / 100.0;
    assert pct as real <= MaxByMargin(p, target) <==> q <= f;
    CompareScaled(q, f, x);
    assert f * x == x * f == DiscountedPrice(p, pct);
  }

  lemma CompareScaled(a: real, b: real, x: real)
    requires x > 0.0
    ensures a <= b <==> a * x <= b * x
  {
    if a <= b { assert a * x <= b * x; } else { assert b * x < a * x; }
  }

  /** A multiple of five that is at most some bounds is at most the floored step. */
  lemma FiveSteps(bound: real, n: int)
    ensures (bound / 5.0).Floor as real * 5.0 <= bound
    ensures (n * 5) as real <= bound <==> n <= (bound / 5.0).Floor
  {}

  lemma Affordable(p: Product, target: int, pct: int)
    requires p.priceKes > 0.0
    ensures pct as real <= Min(target as real, MaxByMargin(p, target)) <==> pct <= target && ClearsCost(p, pct)
  {
    if p.costKes > 0.0 { MarginMeaning(p, target, pct); }
  }

  lemma TargetIsWorthwhile(p: Product, windowDays: int)
    ensures TargetPct(p, windowDays) >= MIN_DISCOUNT_PCT
  {}

  /** The suggested discount is the largest multiple of five within the target that still clears
      the minimum price over cost, and there is one exactly when ten percent does. */
  lemma DiscountIsLargestAffordable(p: Product, windowDays: int, n: int)
    requires p.priceKes > 0.0
    ensures var s := SuggestedDiscountPct(p, windowDays); var target := TargetPct(p, windowDays);
      && (s.Some? <==> ClearsCost(p, MIN_DISCOUNT_PCT))
      && (s.Some? ==> 10 <= s.value <= target && s.value % 5 == 0 && ClearsCost(p, s.value))
      && (s.Some? && n * 5 <= target && ClearsCost(p, n * 5) ==> n * 5 <= s.value)
  {
    hide TargetPct, MaxByMargin, ClearsCost, Min;
    TargetIsWorthwhile(p, windowDays);
    var target := TargetPct(p, windowDays);
    var bound := Min(target as real, MaxByMargin(p, target));
    var k := (bound / 5.0).Floor;
    FiveSteps(bound, 2);
    FiveSteps(bound, n);
    FiveSteps(bound, k);
    Affordable(p, target, 10);
    Affordable(p, target, k * 5);
    Affordable(p, target, n * 5);
  }

  /** The whole-number price on the tag is within half a unit of the discounted price. So it never
      falls below a cost that is a whole number or at least ten; in general it covers the cost exactly
      when the discounted price is no more than half a unit short of the cost rounded up. */
  lemma TagPrice(p: Product, windowDays: int)
    requires SuggestedDiscountPct(p, windowDays).Some? && p.costKes > 0.0
    ensures var price := DiscountedPrice(p, SuggestedDiscountPct(p, windowDays).value); var tag := Round(price);
      && tag as real > p.costKes * MIN_PRICE_OVER_COST - 0.5
      && (p.costKes == p.costKes.Floor as real || p.costKes >= 10.0 ==> tag as real >= p.costKes)
      && (tag as real >= p.costKes <==> price >= Ceil(p.costKes) as real - 0.5)
  {
    DiscountIsLargestAffordable(p, windowDays, 2);
    hide SuggestedDiscountPct, DiscountedPrice;
    RoundedPrice(DiscountedPrice(p, SuggestedDiscountPct(p, windowDays).value), p.costKes);
  }

  lemma RoundedPrice(price: real, cost: real)
    requires price >= cost * MIN_PRICE_OVER_COST && cost > 0.0
    ensures Round(price) as real > cost * MIN_PRICE_OVER_COST - 0.5
    ensures cost == cost.Floor as real || cost >= 10.0 ==> Round(price) as real >= cost
    ensures Round(price) as real >= cost <==> price >= Ceil(cost) as real - 0.5
  {}

  /** With cents in the cost it can: 1.65 cut by ten percent is tagged 1, under the cost of 1.40. */
  lemma TagPriceBelowFractionalCost()
    ensures var p := Product("p", None, None, 1.0, 1.4, 1.65, 0.0, true, None, 0);
      SuggestedDiscountPct(p, 90) == Some(10) && Round(DiscountedPrice(p, 10)) as real < p.costKes
  {
    var p := Product("p", None, None, 1.0, 1.4, 1.65, 0.0, true, None, 0);
    var q := p.costKes * MIN_PRICE_OVER_COST / p.priceKes;
    assert q * 1.65 == 1.47;
    assert 0.89 < q < 0.9;
    assert 10.0 < MaxByMargin(p, 30) < 11.0;
    assert DiscountedPrice(p, 10) == 1.485;
  }

  // ---------------------------------------------------------------- idle stock

  predicate IsOverstock(p: Product) { p.runRate > 0.0 && p.onHand / p.runRate > OVERSTOCK_COVER_DAYS }

  predicate IsIdle(p: Product) { p.onHand > 0.0 && (p.dead || IsOverstock(p)) && IdleUnits(p) > 0 }

  function IdleUnits(p: Product): int {
    if p.dead then p.onHand.Floor else (p.onHand - OVERSTOCK_COVER_DAYS * p.runRate).Floor
  }

  /** Can anchor a bundle: a live A product with stock and a category. */
  predicate IsAnchor(p: Product) {
    p.category.Some? && p.category.value != "" && p.abc == Some("A") && p.onHand > 0.0 && !p.dead
  }

  predicate Anchors(p: Product, category: string) { IsAnchor(p) && p.category == Some(category) }

  /** Product `i` sells most of the anchors in its category, and is the first to. */
  ghost predicate BestAnchor(products: seq<Product>, category: string, i: int)
    requires 0 <= i < |products|
  {
    && Anchors(products[i], category)
    && (forall j ::
      0 <= j < |products| && Anchors(products[j], category) ==> products[j].runRate <= products[i].runRate)
    && (forall j :: 0 <= j < i && Anchors(products[j], category) ==> products[j].runRate < products[i].runRate)
  }

  ghost predicate AnchorsOf(products: seq<Product>, anchors: map<string, Product>) {
    && (forall j :: 0 <= j < |products| && IsAnchor(products[j]) ==> products[j].category.value in anchors)
    && (forall c ::
      c in anchors ==> exists i :: 0 <= i < |products| && anchors[c] == products[i] && BestAnchor(products, c, i))
  }

  /** The best seller of each category, the first one on a tie. */
  method FindAnchors(products: seq<Product>) returns (anchors: map<string, Product>)
    ensures AnchorsOf(products, anchors)
  {
    anchors := map[];
    for i := 0 to |products|
      invariant AnchorsOf(products[..i], anchors)
    {
      var p := products[i];
      ghost var was := anchors;
      if IsAnchor(p) {
        var c := p.category.value;
        if c !in anchors || p.runRate > anchors[c].runRate {
          anchors := anchors[c := p];
        }
      }
      AnchorStep(products, i, was, anchors);
    }
    assert products[..|products|] == products;
  }

  lemma AnchorStep(products: seq<Product>, i: nat, before: map<string, Product>, after: map<string, Product>)
    requires i < |products| && AnchorsOf(products[..i], before)
    requires var p := products[i];
      after == if IsAnchor(p) && (p.category.value !in before || p.runRate > before[p.category.value].runRate)
               then before[p.category.value := p] else before
    ensures AnchorsOf(products[..i + 1], after)
  {
    var p, seen, next := products[i], products[..i], products[..i + 1];
    assert next == seen + [p];
    forall c | c in after ensures exists k :: 0 <= k < |next| && after[c] == next[k] && BestAnchor(next, c, k) {
      if after != before && p.category == Some(c) {
        assert next[i] == p;
        NewAnchorIsBest(seen, p, before, c);
      } else {
        var k :| 0 <= k < |seen| && before[c] == seen[k] && BestAnchor(seen, c, k);
        assert next[k] == seen[k];
        OldAnchorStaysBest(seen, p, c, k);
      }
    }
  }

  lemma OldAnchorStaysBest(seen: seq<Product>, p: Product, c: string, k: nat)
    requires k < |seen| && BestAnchor(seen, c, k)
    requires Anchors(p, c) ==> p.runRate <= seen[k].runRate
    ensures BestAnchor(seen + [p], c, k)
  {}

  lemma NewAnchorIsBest(seen: seq<Product>, p: Product, anchors: map<string, Product>, c: string)
    requires AnchorsOf(seen, anchors) && Anchors(p, c)
    requires c in anchors ==> p.runRate > anchors[c].runRate
    ensures BestAnchor(seen + [p], c, |seen|)
  {
    forall j | 0 <= j < |seen| && Anchors(seen[j], c) ensures seen[j].runRate < p.runRate {
      var k :| 0 <= k < |seen| && anchors[c] == seen[k] && BestAnchor(seen, c, k);
    }
  }

  // ---------------------------------------------------------------- the rules

  function Cash(p: Product): real { IdleUnits(p) as real * Max(0.0, p.costKes) }

  function StopRule(p: Product): seq<Recommendation> {
    if p.plannedQty > 0
    then [Recommendation(p.productId, StopReorder, p.plannedQty as real * Max(0.0, p.costKes), IdleUnits(p),
      Planned(p.plannedQty))]
    else []
  }

  predicate LongDead(p: Product, windowDays: int) {
    p.dead && (p.daysSinceSale.None? || p.daysSinceSale.value >= windowDays * 2)
  }

  /** One way to turn the stock into cash. */
  function CashRule(p: Product, anchors: map<string, Product>, windowDays: int): seq<Recommendation> {
    var pct := SuggestedDiscountPct(p, windowDays);
    if LongDead(p, windowDays) && pct.None? then
      [Recommendation(p.productId, Clear, Cash(p), IdleUnits(p), Units(IdleUnits(p)))]
    else if pct.Some? then
      [Recommendation(p.productId, Discount, Cash(p), IdleUnits(p),
        PriceCut(pct.value, Round(DiscountedPrice(p, pct.value)), Round(p.priceKes)))]
    else if p.category.Some? && p.category.value in anchors && anchors[p.category.value].productId != p.productId then
      [Recommendation(p.productId, Bundle, Cash(p), IdleUnits(p), PairWith(anchors[p.category.value].productId))]
    else []
  }

  function RulesFor(p: Product, anchors: map<string, Product>, windowDays: int): seq<Recommendation> {
    if IsIdle(p) then StopRule(p) + CashRule(p, anchors, windowDays) else []
  }

  predicate Does(recs: seq<Recommendation>, action: Action) { exists i :: 0 <= i < |recs| && recs[i].action == action }

  predicate HasPartner(p: Product, anchors: map<string, Product>) {
    p.category.Some? && p.category.value in anchors && anchors[p.category.value].productId != p.productId
  }

  /** What an idle product gets: a stop exactly when the plan would buy more, and one way to cash, in
      this order: a discount exactly when ten percent off still clears the cost, otherwise clearing it
      out exactly when it has been dead for long, otherwise a bundle exactly when its category has
      another best seller. A product that is not idle gets nothing. */
  lemma ActionsOf(p: Product, anchors: map<string, Product>, windowDays: int)
    ensures var recs := RulesFor(p, anchors, windowDays);
      var affordable := p.priceKes > 0.0 && ClearsCost(p, MIN_DISCOUNT_PCT);
      && |recs| <= 2
      && (Does(recs, StopReorder) <==> IsIdle(p) && p.plannedQty > 0)
      && (Does(recs, Discount) <==> IsIdle(p) && affordable)
      && (Does(recs, Clear) <==> IsIdle(p) && !affordable && LongDead(p, windowDays))
      && (Does(recs, Bundle) <==> IsIdle(p) && !affordable && !LongDead(p, windowDays) && HasPartner(p, anchors))
  {
    if p.priceKes > 0.0 { DiscountIsLargestAffordable(p, windowDays, 2); }
    hide SuggestedDiscountPct, ClearsCost, LongDead, IsIdle, IdleUnits, Cash;
    OneCashRule(p, anchors, windowDays);
    var stop, cash := StopRule(p), CashRule(p, anchors, windowDays);
    if |stop| == 1 { assert (stop + cash)[0] == stop[0]; }
    if |cash| == 1 { assert (stop + cash)[|stop|] == cash[0]; }
  }

  lemma OneCashRule(p: Product, anchors: map<string, Product>, windowDays: int)
    ensures |StopRule(p)| <= 1 && |CashRule(p, anchors, windowDays)| <= 1
  {}

  function AllRules(products: seq<Product>, anchors: map<string, Product>, windowDays: int): seq<Recommendation> {
    if products == [] then []
    else
      AllRules(products[..|products| - 1], anchors, windowDays)
      + RulesFor(products[|products| - 1], anchors, windowDays)
  }

  /** Most cash first, then most units. */
  function ByCash(): (Recommendation, Recommendation) -> bool {
    (a: Recommendation, b: Recommendation) =>
      a.cashKes > b.cashKes || (a.cashKes == b.cashKes && a.idleUnits >= b.idleUnits)
  }

  ghost predicate DistinctProducts(products: seq<Product>) {
    forall i, j :: 0 <= i < j < |products| ==> products[i].productId != products[j].productId
  }

  /** No product gets the same action twice. */
  ghost predicate DistinctKeys(recs: seq<Recommendation>) {
    forall i, j :: 0 <= i < j < |recs| ==> recs[i].productId != recs[j].productId || recs[i].action != recs[j].action
  }

  method RecommendFor(products: seq<Product>, windowDays: int)
    returns (out: seq<Recommendation>, ghost anchors: map<string, Product>)
    ensures AnchorsOf(products, anchors)
    ensures multiset(out) == multiset(AllRules(products, anchors, windowDays))
    ensures SortedBy(out, ByCash())
    ensures DistinctProducts(products) ==> DistinctKeys(out)
  {
    var found := FindAnchors(products);
    anchors := found;
    out := [];
    for i := 0 to |products|
      invariant out == AllRules(products[..i], anchors, windowDays)
    {
      assert products[..i + 1][..i] == products[..i];
      out := out + RulesFor(products[i], found, windowDays);
    }
    assert products[..|products|] == products;
    SortProperties(out, ByCash());
    if DistinctProducts(products) {
      RulesHaveDistinctKeys(products, anchors, windowDays);
      DistinctKeysPermuted(out, Sort(out, ByCash()));
    }
    out := Sort(out, ByCash());
  }

  lemma RulesOfOne(p: Product, anchors: map<string, Product>, windowDays: int)
    ensures DistinctKeys(RulesFor(p, anchors, windowDays))
    ensures forall i ::
      0 <= i < |RulesFor(p, anchors, windowDays)| ==> RulesFor(p, anchors, windowDays)[i].productId == p.productId
  {}

  lemma {:induction false} RulesOfKnownProducts(products: seq<Product>, anchors: map<string, Product>, windowDays: int)
    ensures forall r ::
      r in AllRules(products, anchors, windowDays)
      ==> exists i :: 0 <= i < |products| && products[i].productId == r.productId
  {
    if products == [] {
    } else {
      var n := |products| - 1;
      RulesOfKnownProducts(products[..n], anchors, windowDays);
      RulesOfOne(products[n], anchors, windowDays);
      hide RulesFor;
      forall r | r in AllRules(products, anchors, windowDays)
        ensures exists i :: 0 <= i < |products| && products[i].productId == r.productId
      {
        if r in AllRules(products[..n], anchors, windowDays) {
          var i :| 0 <= i < n && products[..n][i].productId == r.productId;
          assert products[i].productId == r.productId;
        } else {
          assert r in RulesFor(products[n], anchors, windowDays);
          assert products[n].productId == r.productId;
        }
      }
    }
  }

  /** The rules emit at most a stop and one other action a product, so no key comes twice. */
  lemma {:induction false} RulesHaveDistinctKeys(products: seq<Product>, anchors: map<string, Product>, windowDays: int)
    requires DistinctProducts(products)
    ensures DistinctKeys(AllRules(products, anchors, windowDays))
  {
    if products == [] {
    } else {
      var n := |products| - 1;
      RulesHaveDistinctKeys(products[..n], anchors, windowDays);
      RulesOfKnownProducts(products[..n], anchors, windowDays);
      RulesOfOne(products[n], anchors, windowDays);
      hide RulesFor;
      KeysOfTwoParts(AllRules(products[..n], anchors, windowDays), RulesFor(products[n], anchors, windowDays),
        products);
    }
  }

  /** Recommendations for other products than the last one's leave its keys distinct. */
  lemma KeysOfTwoParts(before: seq<Recommendation>, last: seq<Recommendation>, products: seq<Product>)
    requires DistinctKeys(before) && DistinctKeys(last) && products != [] && DistinctProducts(products)
    requires forall r :: r in before ==> exists i :: 0 <= i < |products| - 1 && products[i].productId == r.productId
    requires forall i :: 0 <= i < |last| ==> last[i].productId == products[|products| - 1].productId
    ensures DistinctKeys(before + last)
  {
    forall i, j | 0 <= i < |before| && 0 <= j < |last| ensures before[i].productId != last[j].productId {
      assert before[i] in before;
    }
  }

  lemma DistinctKeysPermuted(a: seq<Recommendation>, b: seq<Recommendation>)
    requires multiset(a) == multiset(b) && DistinctKeys(a)
    ensures DistinctKeys(b)
  {
    forall i, j | 0 <= i < j < |b| ensures b[i].productId != b[j].productId || b[i].action != b[j].action {
      if b[i] == b[j] {
        TwiceCounted(b, i, j);
        OncePerElement(a, b[i]);
      } else {
        assert b[i] in multiset(b) && b[j] in multiset(b);
        assert b[i] in a && b[j] in a;
      }
    }
  }
}
