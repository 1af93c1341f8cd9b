/** What each recommendation of packages/forecast/src/recommendations.ts says about its product: the units,
    the cash and the numbers its sentence is built from. */
module RecommendationFacts {
  import opened Numbers
  import opened RecommendationRules
  import opened Sorting
  import opened Wrappers

  /** Whole units on the shelf: all of them when it is dead, else those beyond ninety days of sales. */
  ghost predicate IdleCount(p: Product, units: int) {
    var idle := if p.dead then p.onHand else p.onHand - 90.0 * p.runRate;
    units as real <= idle < units as real + 1.0
  }

  /** Held, with whole idle units: dead, or selling with more than ninety days of cover. */
  ghost predicate HoldsIdle(p: Product, units: int) {
    && p.onHand > 0.0 && units >= 1 && IdleCount(p, units)
    && (p.dead || (p.runRate > 0.0 && p.onHand > 90.0 * p.runRate))
  }

  /** No sale for so many windows, or never. */
  predicate Stale(p: Product, windowDays: int, windows: real) {
    p.daysSinceSale.None? || p.daysSinceSale.value as real >= windowDays as real * windows
  }

  /** How far the price may be cut for staleness. */
  function DeepestCut(p: Product, windowDays: int): int {
    if !p.dead then 10 else if Stale(p, windowDays, 1.5) then 30 else 20
  }

  /** After a cut of so many percent the price is still 1.05 times the cost. */
  predicate Funds(p: Product, pct: int) {
    p.costKes <= 0.0 || p.priceKes * (100 - pct) as real >= 105.0 * p.costKes
  }

  /** The largest multiple of five, of ten or more, that is not too deep and that the margin funds. */
  ghost predicate IsBestCut(p: Product, windowDays: int, pct: int) {
    && p.priceKes > 0.0 && 10 <= pct <= DeepestCut(p, windowDays) && pct % 5 == 0 && Funds(p, pct)
    && (forall n :: pct < n <= DeepestCut(p, windowDays) && n % 5 == 0 ==> !Funds(p, n))
  }

  /** The shelf price rounded to a whole number. */
  predicate IsWhole(tag: int, price: real) { tag as real - 0.5 <= price < tag as real + 0.5 }

  /** The anchor of the product's category, when that is another product. */
  function PartnerOf(p: Product, anchors: map<string, Product>): Option<string> {
    match p.category
    case None => None
    case Some(category) =>
      if category !in anchors then None
      else if anchors[category].productId == p.productId then None
      else Some(anchors[category].productId)
  }

  /** The numbers of one recommendation. */
  ghost predicate Says(p: Product, anchors: map<string, Product>, windowDays: int, r: Recommendation) {
    && r.productId == p.productId && HoldsIdle(p, r.idleUnits)
    && (r.action != StopReorder ==> r.cashKes == r.idleUnits as real * Max(0.0, p.costKes))
    && match r.action
       case StopReorder =>
         && p.plannedQty > 0 && r.payload == Planned(p.plannedQty)
         && r.cashKes == p.plannedQty as real * Max(0.0, p.costKes)
       case Discount =>
         && r.payload.PriceCut? && IsBestCut(p, windowDays, r.payload.pct)
         && IsWhole(r.payload.newPriceKes, p.priceKes * (100 - r.payload.pct) as real / 100.0)
         && IsWhole(r.payload.priceKes, p.priceKes)
       case Clear => p.dead && Stale(p, windowDays, 2.0) && r.payload == Units(r.idleUnits)
       case Bundle =>
         PartnerOf(p, anchors).Some? && r.payload == PairWith(PartnerOf(p, anchors).value)
  }

  lemma IdleMeans(p: Product)
    ensures IsIdle(p) <==> HoldsIdle(p, IdleUnits(p))
  {
    if p.runRate > 0.0 { CoverMeans(p.onHand, p.runRate); }
  }

  lemma CoverMeans(held: real, rate: real)
    requires rate > 0.0
    ensures held / rate > 90.0 <==> held > 90.0 * rate
  {
    var q := held / rate;
    assert q * rate == held;
    if q > 90.0 { assert (q - 90.0) * rate > 0.0; } else { assert (90.0 - q) * rate >= 0.0; }
  }

  lemma CutMeans(p: Product, pct: int)
    ensures ClearsCost(p, pct) <==> Funds(p, pct)
    ensures DiscountedPrice(p, pct) == p.priceKes * (100 - pct) as real / 100.0
  {
    assert p.priceKes * (1.0 - pct as real / 100.0) * 100.0 == p.priceKes * (100 - pct) as real;
  }

  lemma TargetMeans(p: Product, windowDays: int)
    ensures TargetPct(p, windowDays) == DeepestCut(p, windowDays)
  {}

  lemma BestCut(p: Product, windowDays: int)
    ensures var s := SuggestedDiscountPct(p, windowDays);
      s.Some? ==> IsBestCut(p, windowDays, s.value)
  {
    var s := SuggestedDiscountPct(p, windowDays);
    if s.Some? {
      TargetMeans(p, windowDays);
      DiscountIsLargestAffordable(p, windowDays, 2);
      CutMeans(p, s.value);
      hide SuggestedDiscountPct, ClearsCost, Funds;
      forall n | s.value < n <= DeepestCut(p, windowDays) && n % 5 == 0 ensures !Funds(p, n) {
        DiscountIsLargestAffordable(p, windowDays, n / 5);
        CutMeans(p, n);
      }
    }
  }

  /** The rules' own numbers. */
  lemma RulesSay(p: Product, anchors: map<string, Product>, windowDays: int)
    ensures forall r :: r in RulesFor(p, anchors, windowDays) ==> Says(p, anchors, windowDays, r)
  {
    IdleMeans(p);
    BestCut(p, windowDays);
    var s := SuggestedDiscountPct(p, windowDays);
    if s.Some? { CutMeans(p, s.value); }
    hide SuggestedDiscountPct, DiscountedPrice, IsBestCut, HoldsIdle, IsIdle, IdleUnits;
  }

  /** Every recommendation is for one of the products and says these numbers about it. */
  lemma {:induction false} AllRulesSay(products: seq<Product>, anchors: map<string, Product>, windowDays: int)
    ensures forall r :: r in AllRules(products, anchors, windowDays)
              ==> exists i :: 0 <= i < |products| && Says(products[i], anchors, windowDays, r)
  {
    if products == [] {
    } else {
      var n := |products| - 1;
      AllRulesSay(products[..n], anchors, windowDays);
      RulesSay(products[n], anchors, windowDays);
      hide RulesFor, Says;
      forall r | r in AllRules(products, anchors, windowDays)
        ensures exists i :: 0 <= i < |products| && Says(products[i], anchors, windowDays, r)
      {
        if r in AllRules(products[..n], anchors, windowDays) {
          var i :| 0 <= i < n && Says(products[..n][i], anchors, windowDays, r);
          assert Says(products[i], anchors, windowDays, r);
        }
      }
    }
  }

  /** A live A product on the shelf with a category can partner others of it. */
  predicate CanPartner(p: Product, category: string) {
    p.category == Some(category) && category != "" && p.abc == Some("A") && p.onHand > 0.0 && p.dead == false
  }

  /** The anchors are the fastest sellers of their categories among such products, the first of them where
      several sell as fast, and every category with such a product has one. */
  lemma AnchorsAreBestSellers(products: seq<Product>, anchors: map<string, Product>, category: string)
    requires AnchorsOf(products, anchors)
    ensures category in anchors <==> exists p :: p in products && CanPartner(p, category)
    ensures category in anchors ==>
      exists i :: 0 <= i < |products| && products[i] == anchors[category] && IsBestPartner(products, category, i)
  {
    hide IsBestPartner, BestAnchor;
    if category in anchors {
      var i :| 0 <= i < |products| && anchors[category] == products[i] && BestAnchor(products, category, i);
      BestMeans(products, category, i);
      assert products[i] in products && CanPartner(products[i], category);
    }
    if p :| p in products && CanPartner(p, category) {
      var j :| 0 <= j < |products| && products[j] == p;
      assert IsAnchor(products[j]);
    }
  }

  ghost predicate IsBestPartner(products: seq<Product>, category: string, i: int)
    requires 0 <= i < |products|
  {
    && CanPartner(products[i], category)
    && (forall j :: 0 <= j < |products| && CanPartner(products[j], category) ==>
          products[j].runRate <= products[i].runRate && (j < i ==> products[j].runRate < products[i].runRate))
  }

  lemma BestMeans(products: seq<Product>, category: string, i: nat)
    requires i < |products| && BestAnchor(products, category, i)
    ensures IsBestPartner(products, category, i) && CanPartner(products[i], category)
  {
    forall p: Product ensures Anchors(p, category) <==> CanPartner(p, category) {}
  }

  /** A cut of ten percent at least is funded. */
  predicate CanCut(p: Product) { p.priceKes > 0.0 && Funds(p, 10) }

  /** Which kinds a product gets: only with idle units; a stop when more is planned, and then the first that
      applies of a cut the margin funds, clearing when it is dead for two windows, and a bundle. */
  lemma KindsOf(p: Product, anchors: map<string, Product>, windowDays: int)
    ensures var recs := RulesFor(p, anchors, windowDays); var idle := exists units :: HoldsIdle(p, units);
      var longDead := p.dead && Stale(p, windowDays, 2.0);
      && (Does(recs, StopReorder) <==> idle && p.plannedQty > 0)
      && (Does(recs, Discount) <==> idle && CanCut(p))
      && (Does(recs, Clear) <==> idle && !CanCut(p) && longDead)
      && (Does(recs, Bundle) <==> idle && !CanCut(p) && !longDead && PartnerOf(p, anchors) != None)
  {
    ActionsOf(p, anchors, windowDays);
    IdleMeans(p);
    CutMeans(p, 10);
    forall units | HoldsIdle(p, units) ensures units == IdleUnits(p) {}
    assert LongDead(p, windowDays) <==> p.dead && Stale(p, windowDays, 2.0);
    hide RulesFor, HoldsIdle, IsIdle, IdleUnits, LongDead, ClearsCost, Funds, Stale, Does;
  }

  /** Most cash first; with equal cash most idle units first. */
  ghost predicate MostCashFirst(recs: seq<Recommendation>) {
    forall i, j :: 0 <= i < j < |recs| ==>
      || recs[i].cashKes > recs[j].cashKes
      || (recs[i].cashKes == recs[j].cashKes && recs[i].idleUnits >= recs[j].idleUnits)
  }

  /** The list that is emitted: most cash first, each entry for one of the products with these numbers. */
  lemma EmittedListSays(products: seq<Product>, anchors: map<string, Product>, windowDays: int,
                        out: seq<Recommendation>)
    requires multiset(out) == multiset(AllRules(products, anchors, windowDays)) && SortedBy(out, ByCash())
    ensures MostCashFirst(out)
    ensures forall r :: r in out ==> exists i :: 0 <= i < |products| && Says(products[i], anchors, windowDays, r)
  {
    AllRulesSay(products, anchors, windowDays);
    forall r | r in out ensures r in AllRules(products, anchors, windowDays) { assert r in multiset(out); }
    assert forall i, j :: 0 <= i < j < |out| ==> ByCash()(out[i], out[j]);
  }
}
