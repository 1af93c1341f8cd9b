/** A product's stock and on-order figures in terms of the pull itself: what `syncLocationsAndInventory` of
    apps/worker/src/shopify-sync.ts adds up, at which locations. */
module StockFigures {
  import opened InventorySync
  import opened Wrappers

  /** A level of the pull with its location. */
  datatype Placed = Placed(location: LocationNode, level: LevelNode)

  function LevelsAt(location: LocationNode, levels: seq<LevelNode>): seq<Placed> {
    if levels == [] then [] else LevelsAt(location, levels[..|levels| - 1]) + [Placed(location, levels[|levels| - 1])]
  }

  function AllLevels(pull: seq<LocationNode>): seq<Placed> {
    if pull == [] then []
    else AllLevels(pull[..|pull| - 1]) + LevelsAt(pull[|pull| - 1], pull[|pull| - 1].levels)
  }

  function Sum(levels: seq<Placed>, f: Placed -> int): int {
    if levels == [] then 0 else Sum(levels[..|levels| - 1], f) + f(levels[|levels| - 1])
  }

  /** The level's variant belongs to the product. */
  predicate Names(lookups: Lookups, level: LevelNode, productId: string) {
    level.variant.Some? && level.variant.value in lookups.productIdByVariant && productId != ""
    && lookups.productIdByVariant[level.variant.value] == productId
  }

  /** What a location does: what its owner confirmed, an unset type selling; otherwise the guess. */
  predicate Does(lookups: Lookups, locations: map<string, Location>, location: LocationNode, role: Role) {
    if location.id in locations && locations[location.id].confirmed then
      match locations[location.id].locationType
      case None => role == Sells
      case Some(Branch) => role == Sells
      case Some(Warehouse) => role == Holds
      case Some(EnrouteType) => role == Enroute
      case Some(Virtual) => role == Ignore
    else lookups.guess(location.name) == role
  }

  /** What the shop can sell of a level: the available units or, where these are not given, all on hand. */
  function CanSell(level: LevelNode): int {
    match level.available
    case Some(units) => units
    case None => if level.onHand.Some? then level.onHand.value else 0
  }

  /** Units a level adds to its product's stock. */
  function StockOf(lookups: Lookups, locations: map<string, Location>, productId: string): Placed -> int {
    (x: Placed) =>
      if Names(lookups, x.level, productId) && Does(lookups, locations, x.location, Sells)
      then CanSell(x.level) else 0
  }

  /** Units it adds to what is on order: all that is on its way there, and what an en-route location holds. */
  function OrderOf(lookups: Lookups, locations: map<string, Location>, productId: string): Placed -> int {
    (x: Placed) =>
      if !Names(lookups, x.level, productId) || Does(lookups, locations, x.location, Ignore) then 0
      else
        (if x.level.incoming.Some? then x.level.incoming.value else 0)
        + if Does(lookups, locations, x.location, Enroute) && x.level.onHand.Some? then x.level.onHand.value else 0
  }

  ghost predicate IsSeen(lookups: Lookups, pull: seq<LocationNode>, productId: string) {
    exists x :: x in AllLevels(pull) && Names(lookups, x.level, productId)
  }

  // ---------------------------------------------------------------- the sums are these

  lemma RoleDoes(lookups: Lookups, locations: map<string, Location>, location: LocationNode, role: Role)
    ensures RoleFor(lookups, locations, location) == role <==> Does(lookups, locations, location, role)
  {}

  lemma {:induction false} SumConcat(a: seq<Placed>, b: seq<Placed>, f: Placed -> int)
    ensures Sum(a + b, f) == Sum(a, f) + Sum(b, f)
  {
    if b == [] {
      assert a + b == a;
    } else {
      SumConcat(a, b[..|b| - 1], f);
      assert (a + b)[..|a + b| - 1] == a + b[..|b| - 1];
    }
  }

  ghost predicate SumsAgree(lookups: Lookups, locations: map<string, Location>, entries: seq<Entry>,
                            levels: seq<Placed>, p: string) {
    && SellsSum(entries, p) == Sum(levels, StockOf(lookups, locations, p))
    && EnrouteSum(entries, p) + IncomingSum(entries, p) == Sum(levels, OrderOf(lookups, locations, p))
    && (p in Seen(entries) <==> exists x :: x in levels && Names(lookups, x.level, p))
  }

  lemma EntryAgrees(lookups: Lookups, locations: map<string, Location>, location: LocationNode, level: LevelNode,
                    p: string, entries: seq<Entry>, levels: seq<Placed>)
    requires SumsAgree(lookups, locations, entries, levels, p)
    ensures var e := EntryOf(lookups, location.id, RoleFor(lookups, locations, location), level);
      SumsAgree(lookups, locations, entries + if e.Some? then [e.value] else [], levels + [Placed(location, level)], p)
  {
    hide EntryOf, RoleFor, StockOf, OrderOf, Names, SellableUnits, Seen;
    var e := EntryOf(lookups, location.id, RoleFor(lookups, locations, location), level);
    var x := Placed(location, level);
    LevelAdds(lookups, locations, location, level, p);
    NextSum(levels, x, StockOf(lookups, locations, p));
    NextSum(levels, x, OrderOf(lookups, locations, p));
    if e.Some? { NextEntry(entries, e.value, p); } else { assert entries + [] == entries; }
    SeenOne(if e.Some? then [e.value] else [], p);
    SeenNext(lookups, entries, if e.Some? then [e.value] else [], levels, x, p);
  }

  lemma NextSum(levels: seq<Placed>, x: Placed, f: Placed -> int)
    ensures Sum(levels + [x], f) == Sum(levels, f) + f(x)
  {
    assert (levels + [x])[..|levels|] == levels;
  }

  lemma NextEntry(entries: seq<Entry>, e: Entry, p: string)
    ensures SellsSum(entries + [e], p)
         == SellsSum(entries, p) + if e.key.productId == p && e.role == Sells then SellableUnits(e.level) else 0
    ensures EnrouteSum(entries + [e], p)
         == EnrouteSum(entries, p) + if e.key.productId == p && e.role == Enroute then e.level.onHand else 0
    ensures IncomingSum(entries + [e], p)
         == IncomingSum(entries, p) + if e.key.productId == p && e.role != Ignore then e.level.incoming else 0
  {
    assert (entries + [e])[..|entries|] == entries;
  }

  lemma SeenOne(entries: seq<Entry>, p: string)
    requires |entries| <= 1
    ensures p in Seen(entries) <==> entries != [] && entries[0].key.productId == p
  {}

  /** What one level adds to either side. */
  lemma LevelAdds(lookups: Lookups, locations: map<string, Location>, location: LocationNode, level: LevelNode,
                  p: string)
    ensures var e := EntryOf(lookups, location.id, RoleFor(lookups, locations, location), level);
      var x := Placed(location, level); var mine := e.Some? && e.value.key.productId == p;
      && (mine <==> Names(lookups, level, p))
      && StockOf(lookups, locations, p)(x)
         == (if mine && e.value.role == Sells then SellableUnits(e.value.level) else 0)
      && OrderOf(lookups, locations, p)(x)
         == (if mine && e.value.role == Enroute then e.value.level.onHand else 0)
            + (if mine && e.value.role != Ignore then e.value.level.incoming else 0)
  {
    RoleDoes(lookups, locations, location, Sells);
    RoleDoes(lookups, locations, location, Ignore);
    RoleDoes(lookups, locations, location, Enroute);
    hide RoleFor, Does;
  }

  lemma SeenNext(lookups: Lookups, entries: seq<Entry>, more: seq<Entry>, levels: seq<Placed>, x: Placed, p: string)
    requires p in Seen(entries) <==> exists y :: y in levels && Names(lookups, y.level, p)
    requires p in Seen(more) <==> Names(lookups, x.level, p)
    ensures p in Seen(entries + more) <==> exists y :: y in levels + [x] && Names(lookups, y.level, p)
  {
    if Names(lookups, x.level, p) { assert x in levels + [x]; }
  }

  lemma Reassociate<T>(a: seq<T>, b: seq<T>, c: seq<T>)
    ensures a + (b + c) == (a + b) + c
  {}

  lemma {:induction false} LocationAgrees(lookups: Lookups, locations: map<string, Location>, location: LocationNode,
                                          nodes: seq<LevelNode>, p: string, entries: seq<Entry>, levels: seq<Placed>)
    requires SumsAgree(lookups, locations, entries, levels, p)
    ensures SumsAgree(lookups, locations,
                      entries + NodeEntries(lookups, location.id, RoleFor(lookups, locations, location), nodes),
                      levels + LevelsAt(location, nodes), p)
  {
    var role := RoleFor(lookups, locations, location);
    if nodes == [] {
      assert entries + [] == entries && levels + [] == levels;
    } else {
      var n := |nodes| - 1;
      var e := EntryOf(lookups, location.id, role, nodes[n]);
      var before := NodeEntries(lookups, location.id, role, nodes[..n]);
      LocationAgrees(lookups, locations, location, nodes[..n], p, entries, levels);
      hide SumsAgree, RoleFor, EntryOf;
      EntryAgrees(lookups, locations, location, nodes[n], p, entries + before, levels + LevelsAt(location, nodes[..n]));
      Reassociate(entries, before, if e.Some? then [e.value] else []);
      Reassociate(levels, LevelsAt(location, nodes[..n]), [Placed(location, nodes[n])]);
    }
  }

  lemma {:induction false} PullAgrees(lookups: Lookups, locations: map<string, Location>, pull: seq<LocationNode>,
                                      p: string)
    ensures SumsAgree(lookups, locations, Entries(lookups, locations, pull), AllLevels(pull), p)
  {
    if pull == [] {
    } else {
      var node := pull[|pull| - 1];
      PullAgrees(lookups, locations, pull[..|pull| - 1], p);
      hide SumsAgree;
      LocationAgrees(lookups, locations, node, node.levels, p,
        Entries(lookups, locations, pull[..|pull| - 1]), AllLevels(pull[..|pull| - 1]));
    }
  }

  /** After a pull a stored product that the pull names has as stock the units its selling locations can
      sell, and on order what is coming to any location that counts or stands at one en route; a product
      the pull does not name keeps its figures. */
  lemma ProductFigures(lookups: Lookups, locations: map<string, Location>, products: map<string, Figures>,
                       pull: seq<LocationNode>, p: string)
    requires p in products
    ensures var after := Rewritten(products, Entries(lookups, locations, pull));
      && p in after
      && after[p] == if IsSeen(lookups, pull, p)
           then Figures(Sum(AllLevels(pull), StockOf(lookups, locations, p)),
                        Sum(AllLevels(pull), OrderOf(lookups, locations, p)))
           else products[p]
  {
    PullAgrees(lookups, locations, pull, p);
  }
}
