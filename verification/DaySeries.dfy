/** Sales rows bucketed by UTC day, as the day maps of packages/forecast/src/baseline.ts and
    big-buyer.ts hold them. Instants are milliseconds since the epoch. */
module DaySeries {
  import opened Numbers
  import opened OrderStatistics
  import opened Sorting

  datatype SalesPoint = SalesPoint(date: int, quantity: real, revenueKes: real, channel: string)

  /** UTC midnight of an instant's day. */
  function DayKey(date: int): int { date - date % DAY_MS }

  /** The keys of a day map filled from `rows`, in insertion order. */
  function Keys(rows: seq<SalesPoint>): seq<int> {
    if rows == [] then []
    else
      var before := Keys(rows[..|rows| - 1]);
      var key := DayKey(rows[|rows| - 1].date);
      if key in before then before else before + [key]
  }

  function OnDay(key: int): SalesPoint -> real {
    (p: SalesPoint) => if DayKey(p.date) == key then p.quantity else 0.0
  }

  function SoldOnDay(key: int): SalesPoint -> real {
    (p: SalesPoint) => if DayKey(p.date) == key && p.quantity > 0.0 then p.quantity else 0.0
  }

  function ReturnedOnDay(key: int): SalesPoint -> real {
    (p: SalesPoint) => if DayKey(p.date) == key && p.quantity <= 0.0 then p.quantity else 0.0
  }

  function Total(rows: seq<SalesPoint>, key: int): real { SumBy(rows, OnDay(key)) }

  function Sold(rows: seq<SalesPoint>, key: int): real { SumBy(rows, SoldOnDay(key)) }

  function Returned(rows: seq<SalesPoint>, key: int): real { SumBy(rows, ReturnedOnDay(key)) }

  function TotalOn(rows: seq<SalesPoint>): int -> real { (key: int) => Total(rows, key) }

  function IsSaleDay(rows: seq<SalesPoint>): int -> bool { (key: int) => Total(rows, key) > 0.0 }

  /** The days that sold something net, and their totals. */
  function SaleDays(rows: seq<SalesPoint>): seq<int> { Filter(Keys(rows), IsSaleDay(rows)) }

  function SaleTotals(rows: seq<SalesPoint>): seq<real> { Map(SaleDays(rows), TotalOn(rows)) }

  function SaleMedian(rows: seq<SalesPoint>): real { Median(SaleTotals(rows)) }

  lemma {:induction false} KeysProperties(rows: seq<SalesPoint>)
    ensures Distinct(Keys(rows))
    ensures forall i :: 0 <= i < |rows| ==> DayKey(rows[i].date) in Keys(rows)
    ensures forall k :: k in Keys(rows) ==> exists i :: 0 <= i < |rows| && DayKey(rows[i].date) == k
  {
    if rows == [] {
    } else {
      var n := |rows| - 1;
      KeysProperties(rows[..n]);
      assert forall i :: 0 <= i < n ==> rows[..n][i] == rows[i];
      forall k | k in Keys(rows) ensures exists i :: 0 <= i < |rows| && DayKey(rows[i].date) == k {
        if k in Keys(rows[..n]) {
          var i :| 0 <= i < n && DayKey(rows[..n][i].date) == k;
        } else {
          assert DayKey(rows[n].date) == k;
        }
      }
    }
  }

  lemma KeysStep(rows: seq<SalesPoint>, p: SalesPoint)
    ensures Keys(rows + [p]) == if DayKey(p.date) in Keys(rows) then Keys(rows) else Keys(rows) + [DayKey(p.date)]
  {
    assert (rows + [p])[..|rows|] == rows;
  }

  lemma SumStep(rows: seq<SalesPoint>, p: SalesPoint, f: SalesPoint -> real)
    ensures SumBy(rows + [p], f) == SumBy(rows, f) + f(p)
  {
    SumByConcat(rows, [p], f);
    assert [p][1..] == [];
  }

  function QuantityOf(): SalesPoint -> real { (p: SalesPoint) => p.quantity }

  lemma {:induction false} SumWithout(keys: seq<int>, rows: seq<SalesPoint>, p: SalesPoint)
    requires Distinct(keys)
    ensures SumBy(keys, TotalOn(rows + [p]))
         == SumBy(keys, TotalOn(rows)) + if DayKey(p.date) in keys then p.quantity else 0.0
  {
    if keys == [] {
    } else {
      SumWithout(keys[1..], rows, p);
      SumStep(rows, p, OnDay(keys[0]));
      assert keys == [keys[0]] + keys[1..];
      hide Total;
    }
  }

  /** The day totals add up to all quantities. */
  lemma {:induction false} TotalsAddUp(rows: seq<SalesPoint>)
    ensures SumBy(Keys(rows), TotalOn(rows)) == SumBy(rows, QuantityOf())
  {
    if rows == [] {
    } else {
      var n := |rows| - 1;
      var before, p := rows[..n], rows[n];
      assert rows == before + [p];
      TotalsAddUp(before);
      KeysProperties(before);
      SumStep(before, p, QuantityOf());
      SumWithout(Keys(before), before, p);
      KeysStep(before, p);
      if DayKey(p.date) !in Keys(before) {
        NoRowsNoTotal(before, DayKey(p.date));
        SumStep(before, p, OnDay(DayKey(p.date)));
        SumByConcat(Keys(before), [DayKey(p.date)], TotalOn(rows));
        assert [DayKey(p.date)][1..] == [];
      }
    }
  }

  /** A day without rows has no total, so a day with one has a key. */
  lemma {:induction false} NoRowsNoTotal(rows: seq<SalesPoint>, key: int)
    requires key !in Keys(rows)
    ensures Total(rows, key) == 0.0 && Sold(rows, key) == 0.0 && Returned(rows, key) == 0.0
  {
    KeysProperties(rows);
    ZeroSum(rows, OnDay(key));
    ZeroSum(rows, SoldOnDay(key));
    ZeroSum(rows, ReturnedOnDay(key));
  }

  lemma {:induction false} ZeroSum(rows: seq<SalesPoint>, f: SalesPoint -> real)
    requires forall i :: 0 <= i < |rows| ==> f(rows[i]) == 0.0
    ensures SumBy(rows, f) == 0.0
  {
    if rows == [] {
    } else {
      ZeroSum(rows[1..], f);
    }
  }

  lemma {:induction false} TotalSplits(rows: seq<SalesPoint>, key: int)
    ensures Total(rows, key) == Sold(rows, key) + Returned(rows, key)
    ensures Sold(rows, key) >= 0.0 >= Returned(rows, key)
  {
    if rows == [] {
    } else {
      TotalSplits(rows[1..], key);
    }
  }

  lemma SaleTotalsPositive(rows: seq<SalesPoint>)
    ensures Positive(SaleTotals(rows)) && Distinct(SaleDays(rows))
    ensures forall k :: k in SaleDays(rows) <==> Total(rows, k) > 0.0
    ensures SaleTotals(rows) != [] ==> SaleMedian(rows) > 0.0
  {
    KeysProperties(rows);
    FilterProperties(Keys(rows), IsSaleDay(rows));
    forall k | Total(rows, k) > 0.0 ensures k in Keys(rows) {
      if k !in Keys(rows) { NoRowsNoTotal(rows, k); }
    }
    forall i | 0 <= i < |SaleDays(rows)| ensures SaleTotals(rows)[i] > 0.0 {
      assert SaleDays(rows)[i] in SaleDays(rows);
    }
    if SaleTotals(rows) != [] { MiddlesBelowTwiceMedian(SaleTotals(rows)); }
  }

  lemma SaleMedianNonNegative(rows: seq<SalesPoint>)
    ensures SaleMedian(rows) >= 0.0
  {
    SaleTotalsPositive(rows);
  }

  lemma MedianInAnyOrder(x: seq<int>, y: seq<int>, g: int -> real)
    requires multiset(x) == multiset(y)
    ensures Median(Map(x, g)) == Median(Map(y, g))
  {
    hide Median;
    var t, u := Map(x, g), Map(y, g);
    MapPermutation(x, y, g);
    assert multiset(t) == multiset(u);
    MedianPermutation(t, u);
  }

  /** The median sale day does not move when days that reach twice it change to other totals that
      reach twice it: the list order of the rows and how a day is split into rows do not matter. */
  lemma SaleMedianInsensitive(a: seq<SalesPoint>, b: seq<SalesPoint>)
    requires forall k :: AgreeOrReach(Total(a, k), Total(b, k), 2.0 * SaleMedian(a))
    ensures SaleMedian(a) == SaleMedian(b)
    ensures multiset(SaleDays(a)) == multiset(SaleDays(b)) && |SaleDays(a)| == |SaleDays(b)|
  {
    SaleMedianNonNegative(a);
    SaleTotalsPositive(a);
    SaleTotalsPositive(b);
    hide SaleDays, Total, Median;
    forall k ensures k in SaleDays(a) <==> k in SaleDays(b) {
      assert AgreeOrReach(Total(a, k), Total(b, k), 2.0 * SaleMedian(a));
    }
    DistinctSameElements(SaleDays(a), SaleDays(b));
    assert |multiset(SaleDays(a))| == |multiset(SaleDays(b))|;
    var t := Map(SaleDays(a), TotalOn(b));
    forall i | 0 <= i < |t| ensures AgreeOrReach(SaleTotals(a)[i], t[i], 2.0 * SaleMedian(a)) {
      var k := SaleDays(a)[i];
      assert AgreeOrReach(Total(a, k), Total(b, k), 2.0 * SaleMedian(a));
    }
    MedianInsensitive(SaleTotals(a), t);
    MedianInAnyOrder(SaleDays(a), SaleDays(b), TotalOn(b));
  }
}
