/** The lines of a till payload: how each is stored, and the queue of codes nobody has matched yet, as
    packages/pos/src/aggregate.ts rolls them up. */
module PosLines {
  import opened PosRollup
  import opened Sorting
  import opened Wrappers

  datatype LineInput = LineInput(sku: string, name: Option<string>, qty: real, price: Option<real>,
                                 subtotal: Option<real>)

  function StoredLineOf(maps: Maps, l: LineInput): StoredLine {
    var key := maps.norm(l.sku);
    StoredLine(l.sku, l.qty, l.price.GetOr(0.0), l.subtotal.GetOr(0.0),
               if key != "" && key in maps.skuToProductId then Some(maps.skuToProductId[key]) else None)
  }

  function ToStoredLine(maps: Maps): LineInput -> StoredLine { (l: LineInput) => StoredLineOf(maps, l) }

  datatype LineKind = Ignored | Unlinked | Linked

  /** Ignored codes first; then a line counts as matched exactly when it is stored with a product. */
  function KindOf(maps: Maps, l: LineInput): LineKind {
    var key := maps.norm(l.sku);
    if key != "" && key in maps.ignoredSkus then Ignored
    else if StoredLineOf(maps, l).productId.GetOr("") == "" then Unlinked
    else Linked
  }

  function IsKind(maps: Maps, kind: LineKind): LineInput -> bool { (l: LineInput) => KindOf(maps, l) == kind }

  // ---------------------------------------------------------------- the unmatched queue

  /** One till code of the queue: as first typed, with its units and revenue. */
  datatype Unmatched = Unmatched(key: string, sku: string, productName: string, units: real, revenue: real)

  /** An unmatched line with a code goes to the queue. */
  predicate IsQueued(maps: Maps, l: LineInput) { maps.norm(l.sku) != "" && KindOf(maps, l) == Unlinked }

  /** What an unmatched line earned, with no catalogue price to fall back on. */
  function QueueRevenue(maps: Maps, l: LineInput): real { LineRevenue(StoredLineOf(maps, l), 0.0) }

  function EntryOf(maps: Maps, l: LineInput): Unmatched {
    Unmatched(maps.norm(l.sku), maps.trim(l.sku), l.name.GetOr(""), l.qty, QueueRevenue(maps, l))
  }

  function Merge(entry: Unmatched, more: Unmatched): Unmatched {
    entry.(units := entry.units + more.units, revenue := entry.revenue + more.revenue)
  }

  /** Added to its code's entry, or a new entry at the end. */
  function PutEntry(queue: seq<Unmatched>, e: Unmatched): seq<Unmatched> {
    if queue == [] then [e]
    else if queue[0].key == e.key then [Merge(queue[0], e)] + queue[1..]
    else [queue[0]] + PutEntry(queue[1..], e)
  }

  function QueueOf(maps: Maps, lines: seq<LineInput>): seq<Unmatched> {
    if lines == [] then []
    else
      var before, l := QueueOf(maps, lines[..|lines| - 1]), lines[|lines| - 1];
      if IsQueued(maps, l) then PutEntry(before, EntryOf(maps, l)) else before
  }

  function ByRevenue(): (Unmatched, Unmatched) -> bool { (a: Unmatched, b: Unmatched) => a.revenue >= b.revenue }

  /** The queue as it is reported: most revenue first. */
  function RankedQueue(maps: Maps, lines: seq<LineInput>): seq<Unmatched> { Sort(QueueOf(maps, lines), ByRevenue()) }

  lemma QueueNext(maps: Maps, lines: seq<LineInput>, l: LineInput)
    ensures QueueOf(maps, lines + [l])
         == if IsQueued(maps, l) then PutEntry(QueueOf(maps, lines), EntryOf(maps, l)) else QueueOf(maps, lines)
  {
    assert (lines + [l])[..|lines|] == lines;
  }

  function Coded(maps: Maps, key: string): LineInput -> bool {
    (l: LineInput) => IsQueued(maps, l) && maps.norm(l.sku) == key
  }

  function Units(): LineInput -> real { (l: LineInput) => l.qty }

  function Revenue(maps: Maps): LineInput -> real { (l: LineInput) => QueueRevenue(maps, l) }

  /** An entry holds the sums of its code's queued lines, and the code as its first line writes it. */
  ghost predicate HoldsCode(maps: Maps, e: Unmatched, lines: seq<LineInput>) {
    var mine := Filter(lines, Coded(maps, e.key));
    && mine != [] && e.units == SumBy(mine, Units()) && e.revenue == SumBy(mine, Revenue(maps))
    && e.sku == maps.trim(mine[0].sku) && e.productName == mine[0].name.GetOr("")
  }

  predicate HasEntry(queue: seq<Unmatched>, key: string) { exists i :: 0 <= i < |queue| && queue[i].key == key }

  /** One entry for each code with a queued line, holding those lines. */
  ghost predicate QueueHolds(maps: Maps, queue: seq<Unmatched>, lines: seq<LineInput>) {
    && (forall i, j :: 0 <= i < j < |queue| ==> queue[i].key != queue[j].key)
    && (forall i :: 0 <= i < |queue| ==> HoldsCode(maps, queue[i], lines))
    && (forall l :: l in lines && IsQueued(maps, l) ==> HasEntry(queue, maps.norm(l.sku)))
  }

  function IndexOfKey(queue: seq<Unmatched>, key: string): (i: nat)
    ensures i <= |queue| && (i < |queue| ==> queue[i].key == key)
    ensures forall j :: 0 <= j < i ==> queue[j].key != key
  {
    if queue == [] || queue[0].key == key then 0 else 1 + IndexOfKey(queue[1..], key)
  }

  lemma {:induction false} PutEntryAt(queue: seq<Unmatched>, e: Unmatched)
    ensures var i := IndexOfKey(queue, e.key);
      PutEntry(queue, e) == if i < |queue| then queue[i := Merge(queue[i], e)] else queue + [e]
  {
    if queue == [] || queue[0].key == e.key {
    } else {
      PutEntryAt(queue[1..], e);
      assert queue == [queue[0]] + queue[1..];
    }
  }

  /** One more line leaves the entries of other codes and extends that of its own. */
  lemma CodeNext(maps: Maps, e: Unmatched, lines: seq<LineInput>, l: LineInput)
    requires HoldsCode(maps, e, lines)
    ensures HoldsCode(maps, if Coded(maps, e.key)(l) then Merge(e, EntryOf(maps, l)) else e, lines + [l])
  {
    var mine := Filter(lines, Coded(maps, e.key));
    FilterConcat(lines, [l], Coded(maps, e.key));
    assert [l][1..] == [] && mine + [] == mine;
    if Coded(maps, e.key)(l) {
      assert Filter([l], Coded(maps, e.key)) == [l];
      SumByConcat(mine, [l], Units());
      SumByConcat(mine, [l], Revenue(maps));
      assert SumBy([l], Units()) == l.qty && SumBy([l], Revenue(maps)) == QueueRevenue(maps, l);
      assert (mine + [l])[0] == mine[0];
    }
  }

  lemma NewCode(maps: Maps, lines: seq<LineInput>, l: LineInput)
    requires IsQueued(maps, l) && forall x :: x in lines ==> !Coded(maps, maps.norm(l.sku))(x)
    ensures HoldsCode(maps, EntryOf(maps, l), lines + [l])
  {
    var p := Coded(maps, maps.norm(l.sku));
    FilterConcat(lines, [l], p);
    FilterNone(lines, p);
    assert [l][1..] == [] && [] + [l] == [l];
  }

  lemma QueueStep(maps: Maps, queue: seq<Unmatched>, lines: seq<LineInput>, l: LineInput)
    requires QueueHolds(maps, queue, lines)
    ensures QueueHolds(maps, if IsQueued(maps, l) then PutEntry(queue, EntryOf(maps, l)) else queue, lines + [l])
  {
    hide HoldsCode, IsQueued;
    var e := EntryOf(maps, l);
    forall i | 0 <= i < |queue|
      ensures HoldsCode(maps, if Coded(maps, queue[i].key)(l) then Merge(queue[i], e) else queue[i], lines + [l])
    {
      CodeNext(maps, queue[i], lines, l);
    }
    if IsQueued(maps, l) {
      var i, r := IndexOfKey(queue, e.key), PutEntry(queue, e);
      PutEntryAt(queue, e);
      forall j | 0 <= j < |queue| ensures HoldsCode(maps, r[j], lines + [l]) {
        assert j != i ==> queue[j].key != e.key;
      }
      if i == |queue| {
        forall x | x in lines ensures !Coded(maps, e.key)(x) {
          assert IsQueued(maps, x) ==> HasEntry(queue, maps.norm(x.sku));
        }
        NewCode(maps, lines, l);
      }
      forall x | x in lines + [l] && IsQueued(maps, x) ensures HasEntry(r, maps.norm(x.sku)) {
        if x in lines {
          var j :| 0 <= j < |queue| && queue[j].key == maps.norm(x.sku);
          assert r[j].key == maps.norm(x.sku);
        } else {
          assert r[i].key == e.key;
        }
      }
    }
  }

  /** The queue has one entry for each unmatched code, with the units and revenue of all its lines. */
  lemma {:induction false} QueueIsExact(maps: Maps, lines: seq<LineInput>)
    ensures QueueHolds(maps, QueueOf(maps, lines), lines)
  {
    if lines == [] {
    } else {
      var n := |lines| - 1;
      QueueIsExact(maps, lines[..n]);
      QueueStep(maps, QueueOf(maps, lines[..n]), lines[..n], lines[n]);
      assert lines == lines[..n] + [lines[n]];
    }
  }

  /** Ranking keeps the entries and puts the most revenue first. */
  lemma RankedQueueIsExact(maps: Maps, lines: seq<LineInput>)
    ensures var ranked := RankedQueue(maps, lines);
      && multiset(ranked) == multiset(QueueOf(maps, lines)) && SortedBy(ranked, ByRevenue())
      && QueueHolds(maps, ranked, lines)
  {
    var queue, ranked := QueueOf(maps, lines), RankedQueue(maps, lines);
    QueueIsExact(maps, lines);
    SortProperties(queue, ByRevenue());
    hide HoldsCode, IsQueued, QueueOf, RankedQueue;
    QueueInAnyOrder(maps, queue, ranked, lines);
  }

  lemma QueueInAnyOrder(maps: Maps, a: seq<Unmatched>, b: seq<Unmatched>, lines: seq<LineInput>)
    requires multiset(a) == multiset(b) && QueueHolds(maps, a, lines)
    ensures QueueHolds(maps, b, lines)
  {
    hide HoldsCode, IsQueued;
    forall i | 0 <= i < |b| ensures b[i] in a && HoldsCode(maps, b[i], lines) { assert b[i] in multiset(a); }
    forall l | l in lines && IsQueued(maps, l) ensures HasEntry(b, maps.norm(l.sku)) {
      var i :| 0 <= i < |a| && a[i].key == maps.norm(l.sku);
      assert a[i] in multiset(b);
      var j :| 0 <= j < |b| && b[j] == a[i];
    }
    forall i, j | 0 <= i < j < |b| ensures b[i].key != b[j].key {
      if b[i] == b[j] {
        TwiceCounted(b, i, j);
        OncePerElement(a, b[i]);
      } else {
        assert b[i] in a && b[j] in a;
      }
    }
  }
}
