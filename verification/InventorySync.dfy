/** `syncLocationsAndInventory` of apps/worker/src/shopify-sync.ts, with the role mapping of
    packages/db/src/roles.ts and the sellable quantity of packages/db/src/inventory.ts. */
module InventorySync {
  import opened Wrappers

  // ---------------------------------------------------------------- rows

  datatype Role = Sells | Holds | Enroute | Ignore

  datatype LocationType = Branch | Warehouse | EnrouteType | Virtual

  /** A location without a type sells. */
  function RoleOfType(t: Option<LocationType>): Role {
    match t
    case Some(Warehouse) => Holds
    case Some(EnrouteType) => Enroute
    case Some(Virtual) => Ignore
    case _ => Sells
  }

  function TypeOfRole(r: Role): LocationType {
    match r
    case Holds => Warehouse
    case Enroute => EnrouteType
    case Ignore => Virtual
    case Sells => Branch
  }

  datatype Location = Location(name: string, locationType: Option<LocationType>, confirmed: bool)

  datatype Level = Level(onHand: int, available: Option<int>, incoming: int)

  datatype Figures = Figures(currentStock: int, onOrder: int)

  /** A level's key: its location, named by the shop's id for it, and the product. */
  datatype Key = Key(location: string, productId: string)

  // ---------------------------------------------------------------- the pull

  datatype LevelNode = LevelNode(variant: Option<string>, onHand: Option<int>, available: Option<int>,
                                 incoming: Option<int>)

  datatype LocationNode = LocationNode(id: string, name: Option<string>, levels: seq<LevelNode>)

  function NameOf(node: LocationNode): string { if node.name.Some? then node.name.value else "(unnamed)" }

  /** What the pull and the stored tables are read with; `guess` names a role from a name. */
  datatype Lookups = Lookups(productIdByVariant: map<string, string>, guess: Option<string> -> Role)

  datatype Entry = Entry(key: Key, level: Level, role: Role)

  /** The upsert: a confirmed role is kept, any other is guessed from the name. */
  function Upserted(lookups: Lookups, locations: map<string, Location>, node: LocationNode): Location {
    if node.id in locations && locations[node.id].confirmed then locations[node.id].(name := NameOf(node))
    else Location(NameOf(node), Some(TypeOfRole(lookups.guess(node.name))), false)
  }

  function RoleFor(lookups: Lookups, locations: map<string, Location>, node: LocationNode): Role {
    if node.id in locations && locations[node.id].confirmed then RoleOfType(locations[node.id].locationType)
    else lookups.guess(node.name)
  }

  function OrZero(q: Option<int>): int { if q.Some? then q.value else 0 }

  /** The entry of a level whose variant is in the catalogue. */
  function EntryOf(lookups: Lookups, location: string, role: Role, node: LevelNode): Option<Entry> {
    if node.variant.None? || node.variant.value !in lookups.productIdByVariant
      || lookups.productIdByVariant[node.variant.value] == "" then None
    else Some(Entry(Key(location, lookups.productIdByVariant[node.variant.value]),
                    Level(OrZero(node.onHand), node.available, OrZero(node.incoming)), role))
  }

  function NodeEntries(lookups: Lookups, location: string, role: Role, levels: seq<LevelNode>): seq<Entry> {
    if levels == [] then []
    else
      var e := EntryOf(lookups, location, role, levels[|levels| - 1]);
      NodeEntries(lookups, location, role, levels[..|levels| - 1]) + if e.Some? then [e.value] else []
  }

  /** The levels of the pull that count, in order; roles come from the stored locations. */
  function Entries(lookups: Lookups, locations: map<string, Location>, pull: seq<LocationNode>): seq<Entry> {
    if pull == [] then []
    else
      var node := pull[|pull| - 1];
      Entries(lookups, locations, pull[..|pull| - 1])
        + NodeEntries(lookups, node.id, RoleFor(lookups, locations, node), node.levels)
  }

  // ---------------------------------------------------------------- level writes

  predicate Moved(prior: map<Key, Level>, e: Entry) { e.key !in prior || prior[e.key] != e.level }

  /** Only new or changed levels are written. */
  function WriteMoved(prior: map<Key, Level>, entries: seq<Entry>): map<Key, Level> {
    if entries == [] then prior
    else
      var e := entries[|entries| - 1];
      var before := WriteMoved(prior, entries[..|entries| - 1]);
      if Moved(prior, e) then before[e.key := e.level] else before
  }

  /** The unconditional rewrite. */
  function WriteAll(prior: map<Key, Level>, entries: seq<Entry>): map<Key, Level> {
    if entries == [] then prior
    else
      var e := entries[|entries| - 1];
      WriteAll(prior, entries[..|entries| - 1])[e.key := e.level]
  }

  function CountMoved(prior: map<Key, Level>, entries: seq<Entry>): nat {
    if entries == [] then 0
    else CountMoved(prior, entries[..|entries| - 1]) + if Moved(prior, entries[|entries| - 1]) then 1 else 0
  }

  // ---------------------------------------------------------------- product figures

  function SellableUnits(level: Level): int { if level.available.Some? then level.available.value else level.onHand }

  function SellsSum(entries: seq<Entry>, p: string): int {
    if entries == [] then 0
    else
      var e := entries[|entries| - 1];
      SellsSum(entries[..|entries| - 1], p)
      + if e.key.productId == p && e.role == Sells then SellableUnits(e.level) else 0
  }

  function EnrouteSum(entries: seq<Entry>, p: string): int {
    if entries == [] then 0
    else
      var e := entries[|entries| - 1];
      EnrouteSum(entries[..|entries| - 1], p) + if e.key.productId == p && e.role == Enroute then e.level.onHand else 0
  }

  function IncomingSum(entries: seq<Entry>, p: string): int {
    if entries == [] then 0
    else
      var e := entries[|entries| - 1];
      IncomingSum(entries[..|entries| - 1], p)
      + if e.key.productId == p && e.role != Ignore then e.level.incoming else 0
  }

  function Seen(entries: seq<Entry>): set<string> { set e | e in entries :: e.key.productId }

  /** What a seen product's row should hold. */
  function FiguresOf(entries: seq<Entry>, p: string): Figures {
    Figures(SellsSum(entries, p), EnrouteSum(entries, p) + IncomingSum(entries, p))
  }

  /** The unconditional rewrite of every seen product that has a row. */
  function Rewritten(products: map<string, Figures>, entries: seq<Entry>): map<string, Figures> {
    map p | p in products :: if p in Seen(entries) then FiguresOf(entries, p) else products[p]
  }

  function UpsertAll(lookups: Lookups, locations: map<string, Location>, pull: seq<LocationNode>)
    : map<string, Location> {
    if pull == [] then locations
    else
      var node := pull[|pull| - 1];
      var before := UpsertAll(lookups, locations, pull[..|pull| - 1]);
      before[node.id := Upserted(lookups, before, node)]
  }

  // ---------------------------------------------------------------- the writer

  datatype Tally = Tally(sells: map<string, int>, enroute: map<string, int>, incoming: map<string, int>,
                         seen: set<string>, levels: nat, changed: nat)

  function At(m: map<string, int>, p: string): int { if p in m then m[p] else 0 }

  ghost predicate Tallied(t: Tally, prior: map<Key, Level>, entries: seq<Entry>) {
    && (forall p :: At(t.sells, p) == SellsSum(entries, p))
    && (forall p :: At(t.enroute, p) == EnrouteSum(entries, p))
    && (forall p :: At(t.incoming, p) == IncomingSum(entries, p))
    && t.seen == Seen(entries) && t.levels == |entries| && t.changed == CountMoved(prior, entries)
  }

  function AddEntry(t: Tally, e: Entry, moved: bool): Tally {
    var p := e.key.productId;
    t.(sells := if e.role == Sells then t.sells[p := At(t.sells, p) + SellableUnits(e.level)] else t.sells,
       enroute := if e.role == Enroute then t.enroute[p := At(t.enroute, p) + e.level.onHand] else t.enroute,
       incoming := if e.role != Ignore then t.incoming[p := At(t.incoming, p) + e.level.incoming] else t.incoming,
       seen := t.seen + {p}, levels := t.levels + 1, changed := t.changed + if moved then 1 else 0)
  }

  lemma TallyStep(t: Tally, prior: map<Key, Level>, entries: seq<Entry>, e: Entry)
    requires Tallied(t, prior, entries)
    ensures Tallied(AddEntry(t, e, Moved(prior, e)), prior, entries + [e])
  {
    assert (entries + [e])[..|entries|] == entries;
  }

  /** The level table and the tally after the entries `all`. */
  ghost predicate Synced(levels: map<Key, Level>, t: Tally, prior: map<Key, Level>, all: seq<Entry>) {
    levels == WriteMoved(prior, all) && Tallied(t, prior, all)
  }

  lemma SyncStep(levels: map<Key, Level>, t: Tally, prior: map<Key, Level>, all: seq<Entry>, e: Entry)
    requires Synced(levels, t, prior, all)
    ensures Synced(if Moved(prior, e) then levels[e.key := e.level] else levels,
                   AddEntry(t, e, Moved(prior, e)), prior, all + [e])
  {
    TallyStep(t, prior, all, e);
    assert (all + [e])[..|all|] == all;
  }

  lemma NextNode(lookups: Lookups, location: string, role: Role, nodes: seq<LevelNode>, i: nat, done: seq<Entry>)
    requires i < |nodes|
    ensures var all := done + NodeEntries(lookups, location, role, nodes[..i]);
      var e := EntryOf(lookups, location, role, nodes[i]);
      done + NodeEntries(lookups, location, role, nodes[..i + 1]) == if e.Some? then all + [e.value] else all
  {
    assert nodes[..i + 1][..i] == nodes[..i];
  }

  class Inventory {
    var locations: map<string, Location>
    var levels: map<Key, Level>
    var products: map<string, Figures>

    /** One location's levels. */
    method SyncLevels(lookups: Lookups, location: string, role: Role, nodes: seq<LevelNode>, prior: map<Key, Level>,
                      before: Tally, ghost done: seq<Entry>)
      returns (t: Tally)
      requires Synced(levels, before, prior, done)
      modifies this`levels
      ensures Synced(levels, t, prior, done + NodeEntries(lookups, location, role, nodes))
    {
      t := before;
      assert done + NodeEntries(lookups, location, role, nodes[..0]) == done;
      for i := 0 to |nodes|
        invariant Synced(levels, t, prior, done + NodeEntries(lookups, location, role, nodes[..i]))
      {
        NextNode(lookups, location, role, nodes, i, done);
        var entry := EntryOf(lookups, location, role, nodes[i]);
        if entry.Some? {
          var e := entry.value;
          SyncStep(levels, t, prior, done + NodeEntries(lookups, location, role, nodes[..i]), e);
          var moved := Moved(prior, e);
          if moved {
            levels := levels[e.key := e.level];
          }
          t := AddEntry(t, e, moved);
        }
      }
      assert nodes[..|nodes|] == nodes;
    }

    /** Writes only the seen products whose figures moved; `written` counts the row writes. */
    method UpdateProducts(t: Tally, ghost prior: map<Key, Level>, ghost entries: seq<Entry>) returns (written: nat)
      requires Tallied(t, prior, entries)
      modifies this`products
      ensures products == Rewritten(old(products), entries)
      ensures written == 0 <==> products == old(products)
    {
      written := 0;
      var current := products;
      var todo := t.seen;
      while todo != {}
        invariant todo <= t.seen
        invariant products.Keys == current.Keys
        invariant forall p ::
          p in current ==> products[p] == if p in t.seen && p !in todo then FiguresOf(entries, p) else current[p]
        invariant written == 0 <==> products == current
        invariant forall p :: p in current && products[p] != current[p] ==> written > 0
        decreases todo
      {
        var p :| p in todo;
        var next := Figures(At(t.sells, p), At(t.enroute, p) + At(t.incoming, p));
        assert next == FiguresOf(entries, p);
        if p in current && current[p] != next {
          products := products[p := next];
          written := written + 1;
          assert products[p] != current[p];
        }
        todo := todo - {p};
      }
    }

    method SyncLocationsAndInventory(lookups: Lookups, pull: seq<LocationNode>)
      returns (seen: nat, changed: nat, written: nat)
      modifies this
      ensures var entries := Entries(lookups, old(locations), pull);
        && locations == UpsertAll(lookups, old(locations), pull)
        && levels == WriteMoved(old(levels), entries)
        && products == Rewritten(old(products), entries)
        && seen == |entries| && changed == CountMoved(old(levels), entries)
        && (written == 0 <==> products == old(products))
    {
      var prior := levels;
      var t := Tally(map[], map[], map[], {}, 0, 0);
      ghost var first := locations;
      for i := 0 to |pull|
        invariant locations == UpsertAll(lookups, first, pull[..i])
        invariant Synced(levels, t, prior, Entries(lookups, first, pull[..i]))
        invariant products == old(products)
      {
        var node := pull[i];
        assert pull[..i + 1][..i] == pull[..i];
        RoleIsStable(lookups, first, pull[..i], node);
        var row := Upserted(lookups, locations, node);
        locations := locations[node.id := row];
        var role := RoleOfType(row.locationType);
        t := SyncLevels(lookups, node.id, role, node.levels, prior, t, Entries(lookups, first, pull[..i]));
      }
      assert pull[..|pull|] == pull;
      written := UpdateProducts(t, prior, Entries(lookups, first, pull));
      seen, changed := t.levels, t.changed;
    }
  }

  // ---------------------------------------------------------------- roles

  lemma RoleRoundTrip(r: Role)
    ensures RoleOfType(Some(TypeOfRole(r))) == r
  {}

  /** Upserting never changes which locations are confirmed, nor a confirmed type: a role is what
      the owner confirmed, or the guess from the name. */
  lemma {:induction false} ConfirmedStays(lookups: Lookups, locations: map<string, Location>, pull: seq<LocationNode>,
                                          id: string)
    ensures var after := UpsertAll(lookups, locations, pull);
      && (id in locations && locations[id].confirmed ==>
            id in after && after[id].confirmed && after[id].locationType == locations[id].locationType)
      && (id in after && after[id].confirmed ==> id in locations && locations[id].confirmed)
  {
    if pull == [] {
    } else {
      ConfirmedStays(lookups, locations, pull[..|pull| - 1], id);
    }
  }

  lemma RoleIsStable(lookups: Lookups, locations: map<string, Location>, pull: seq<LocationNode>, node: LocationNode)
    ensures var after := UpsertAll(lookups, locations, pull);
      && RoleFor(lookups, after, node) == RoleFor(lookups, locations, node)
      && RoleOfType(Upserted(lookups, after, node).locationType) == RoleFor(lookups, locations, node)
  {
    ConfirmedStays(lookups, locations, pull, node.id);
    RoleRoundTrip(lookups.guess(node.name));
  }

  /** The same pull read after a sync has the same entries. */
  lemma {:induction false} EntriesAreStable(lookups: Lookups, locations: map<string, Location>,
                                            done: seq<LocationNode>, pull: seq<LocationNode>)
    ensures Entries(lookups, UpsertAll(lookups, locations, done), pull) == Entries(lookups, locations, pull)
  {
    if pull == [] {
    } else {
      EntriesAreStable(lookups, locations, done, pull[..|pull| - 1]);
      RoleIsStable(lookups, locations, done, pull[|pull| - 1]);
    }
  }

  // ---------------------------------------------------------------- skipping is safe

  function LevelAt(m: map<Key, Level>, k: Key): Option<Level> { if k in m then Some(m[k]) else None }

  /** The last entry of the pull for a key. */
  function LastFor(entries: seq<Entry>, k: Key): Option<Level> {
    if entries == [] then None
    else if entries[|entries| - 1].key == k then Some(entries[|entries| - 1].level)
    else LastFor(entries[..|entries| - 1], k)
  }

  ghost predicate SomeMoved(prior: map<Key, Level>, entries: seq<Entry>, k: Key) {
    exists i :: 0 <= i < |entries| && entries[i].key == k && Moved(prior, entries[i])
  }

  /** A key written back to its prior value after a different one: the only way skipping differs. */
  ghost predicate Reverts(prior: map<Key, Level>, entries: seq<Entry>, k: Key) {
    k in prior && LastFor(entries, k) == Some(prior[k]) && SomeMoved(prior, entries, k)
  }

  lemma {:induction false} WriteAllAt(prior: map<Key, Level>, entries: seq<Entry>, k: Key)
    ensures LevelAt(WriteAll(prior, entries), k)
      == if LastFor(entries, k).Some? then LastFor(entries, k) else LevelAt(prior, k)
  {
    if entries == [] {
    } else {
      WriteAllAt(prior, entries[..|entries| - 1], k);
    }
  }

  /** The elided table holds the prior value exactly at keys no entry moved. */
  lemma {:induction false} WriteMovedAt(prior: map<Key, Level>, entries: seq<Entry>, k: Key)
    ensures SomeMoved(prior, entries, k) <==> LevelAt(WriteMoved(prior, entries), k) != LevelAt(prior, k)
  {
    if entries == [] {
    } else {
      var n := |entries| - 1;
      WriteMovedAt(prior, entries[..n], k);
      var e := entries[n];
      assert e.key == k && Moved(prior, e) ==> SomeMoved(prior, entries, k);
      if SomeMoved(prior, entries[..n], k) {
        var i :| 0 <= i < n && entries[..n][i].key == k && Moved(prior, entries[..n][i]);
        assert entries[i].key == k && Moved(prior, entries[i]);
      }
      if SomeMoved(prior, entries, k) && !(e.key == k && Moved(prior, e)) {
        var i :| 0 <= i <= n && entries[i].key == k && Moved(prior, entries[i]);
        assert entries[..n][i].key == k;
      }
    }
  }

  lemma {:induction false} LastMovedWins(prior: map<Key, Level>, entries: seq<Entry>, k: Key)
    requires LastFor(entries, k).Some? && LastFor(entries, k) != LevelAt(prior, k)
    ensures LevelAt(WriteMoved(prior, entries), k) == LastFor(entries, k)
  {
    if entries[|entries| - 1].key == k {
    } else {
      LastMovedWins(prior, entries[..|entries| - 1], k);
    }
  }

  /** Skipping unchanged writes leaves a key as an unconditional rewrite would, if and only if the
      pull does not move the key and then put it back. */
  lemma SkippingIsExact(prior: map<Key, Level>, entries: seq<Entry>, k: Key)
    ensures LevelAt(WriteMoved(prior, entries), k) == LevelAt(WriteAll(prior, entries), k)
      <==> !Reverts(prior, entries, k)
  {
    WriteAllAt(prior, entries, k);
    WriteMovedAt(prior, entries, k);
    if LastFor(entries, k).Some? && LastFor(entries, k) != LevelAt(prior, k) {
      LastMovedWins(prior, entries, k);
    }
    NoEntryNotMoved(prior, entries, k);
  }

  lemma {:induction false} NoEntryNotMoved(prior: map<Key, Level>, entries: seq<Entry>, k: Key)
    ensures LastFor(entries, k).None? <==> forall i :: 0 <= i < |entries| ==> entries[i].key != k
  {
    if entries == [] {
    } else {
      var n := |entries| - 1;
      NoEntryNotMoved(prior, entries[..n], k);
      assert forall i :: 0 <= i < n ==> entries[..n][i] == entries[i];
    }
  }

  /** The pull names each (location, product) once. */
  ghost predicate NamedOnce(entries: seq<Entry>) {
    forall i, j :: 0 <= i < j < |entries| ==> entries[i].key != entries[j].key
  }

  lemma {:induction false} LastForIndex(entries: seq<Entry>, i: nat)
    requires NamedOnce(entries) && i < |entries|
    ensures LastFor(entries, entries[i].key) == Some(entries[i].level)
  {
    if i >= |entries| - 1 {
    } else {
      LastForIndex(entries[..|entries| - 1], i);
    }
  }

  /** For such a pull the tables end exactly as after a full rewrite. */
  lemma SkippingIsRefinement(prior: map<Key, Level>, entries: seq<Entry>)
    requires NamedOnce(entries)
    ensures WriteMoved(prior, entries) == WriteAll(prior, entries)
  {
    forall k ensures LevelAt(WriteMoved(prior, entries), k) == LevelAt(WriteAll(prior, entries), k) {
      SkippingIsExact(prior, entries, k);
      if Reverts(prior, entries, k) {
        var i :| 0 <= i < |entries| && entries[i].key == k && Moved(prior, entries[i]);
        LastForIndex(entries, i);
      }
    }
    SameLevels(WriteMoved(prior, entries), WriteAll(prior, entries));
  }

  lemma SameLevels(a: map<Key, Level>, b: map<Key, Level>)
    requires forall k :: LevelAt(a, k) == LevelAt(b, k)
    ensures a == b
  {
    forall k ensures k in a <==> k in b { assert LevelAt(a, k) == LevelAt(b, k); }
    forall k | k in a ensures a[k] == b[k] { assert LevelAt(a, k) == LevelAt(b, k); }
  }

  /** Naming a level twice can go wrong: a value that is moved and put back stays moved. */
  lemma RevertedLevelStaysMoved(k: Key, a: Level, b: Level, role: Role)
    requires a != b
    ensures var entries := [Entry(k, b, role), Entry(k, a, role)];
      WriteMoved(map[k := a], entries) == map[k := b] && WriteAll(map[k := a], entries) == map[k := a]
  {
    var entries := [Entry(k, b, role), Entry(k, a, role)];
    var one := entries[..1];
    assert one == [entries[0]] && one[..0] == [];
    assert WriteMoved(map[k := a], one) == map[k := b] && WriteAll(map[k := a], one) == map[k := b];
  }

  // ---------------------------------------------------------------- a second, identical pull

  lemma {:induction false} NothingMoved(prior: map<Key, Level>, entries: seq<Entry>)
    requires forall i :: 0 <= i < |entries| ==> !Moved(prior, entries[i])
    ensures CountMoved(prior, entries) == 0 && WriteMoved(prior, entries) == prior
  {
    if entries == [] {
    } else {
      NothingMoved(prior, entries[..|entries| - 1]);
    }
  }

  /** A second identical pull finds no moved level, writes none and reports no change; and it
      leaves every product row as the first pull left it. */
  lemma SecondPullIsQuiet(lookups: Lookups, locations: map<string, Location>, levels: map<Key, Level>,
                          products: map<string, Figures>, pull: seq<LocationNode>)
    requires NamedOnce(Entries(lookups, locations, pull))
    ensures var entries := Entries(lookups, locations, pull);
      var after := WriteMoved(levels, entries);
      var again := Entries(lookups, UpsertAll(lookups, locations, pull), pull);
      && CountMoved(after, again) == 0 && WriteMoved(after, again) == after
      && Rewritten(Rewritten(products, entries), again) == Rewritten(products, entries)
  {
    var entries := Entries(lookups, locations, pull);
    EntriesAreStable(lookups, locations, pull, pull);
    SkippingIsRefinement(levels, entries);
    var after := WriteMoved(levels, entries);
    forall i | 0 <= i < |entries| ensures !Moved(after, entries[i]) {
      WriteAllAt(levels, entries, entries[i].key);
      LastForIndex(entries, i);
    }
    NothingMoved(after, entries);
  }
}
