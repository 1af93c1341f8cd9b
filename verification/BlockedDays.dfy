/** Counting the days of a window that a shop could not sell: `blockedDaysInWindow` and
    `censoredDaysInWindow` of packages/forecast/src/baseline.ts. */
module BlockedDays {
  import opened Numbers
  import opened Sorting
  import opened DaySeries
  import opened DayRange
  import opened AdjustedRate

  function Within(since: int, asOf: int): int -> bool { (t: int) => since <= t < asOf }

  /** The days of `dates` whose midnight lies in the window. */
  function DaysWithin(dates: seq<int>, since: int, asOf: int): set<int> {
    set k | k in KeysOf(dates) && since <= k < asOf
  }

  method CensoredDaysInWindow(stockoutDates: seq<int>, since: int, asOf: int) returns (n: nat)
    ensures n == CountIf(stockoutDates, Within(since, asOf))
  {
    n := 0;
    for i := 0 to |stockoutDates|
      invariant n == CountIf(stockoutDates[..i], Within(since, asOf))
    {
      assert stockoutDates[..i + 1] == stockoutDates[..i] + [stockoutDates[i]];
      CountIfConcat(stockoutDates[..i], [stockoutDates[i]], Within(since, asOf));
      if since <= stockoutDates[i] < asOf {
        n := n + 1;
      }
    }
    assert stockoutDates[..|stockoutDates|] == stockoutDates;
  }

  /** With excluded days, each blocked day counts once; without any, each stockout date does. */
  method BlockedDaysInWindow(stockoutDates: seq<int>, excludedDates: seq<int>, since: int, asOf: int) returns (n: nat)
    ensures excludedDates != []
      ==> n == |DaysWithin(stockoutDates, since, asOf) + DaysWithin(excludedDates, since, asOf)|
    ensures excludedDates == [] ==> n == CountIf(stockoutDates, Within(since, asOf))
  {
    if excludedDates == [] {
      n := CensoredDaysInWindow(stockoutDates, since, asOf);
      return;
    }
    var seen := AddKeys(stockoutDates, since, asOf, {});
    seen := AddKeys(excludedDates, since, asOf, seen);
    assert seen == DaysWithin(stockoutDates, since, asOf) + DaysWithin(excludedDates, since, asOf);
    n := |seen|;
  }

  method AddKeys(dates: seq<int>, since: int, asOf: int, before: set<int>) returns (seen: set<int>)
    ensures seen == before + DaysWithin(dates, since, asOf)
  {
    seen := before;
    for i := 0 to |dates|
      invariant seen == before + DaysWithin(dates[..i], since, asOf)
    {
      var k := DayKey(dates[i]);
      KeysStepOf(dates, i);
      if since <= k < asOf {
        seen := seen + {k};
      }
    }
    assert dates[..|dates|] == dates;
  }

  lemma KeysStepOf(dates: seq<int>, i: nat)
    requires i < |dates|
    ensures KeysOf(dates[..i + 1]) == KeysOf(dates[..i]) + {DayKey(dates[i])}
  {
    var next, seen := dates[..i + 1], dates[..i];
    forall k ensures k in KeysOf(next) <==> k in KeysOf(seen) + {DayKey(dates[i])} {
      if k in KeysOf(seen) {
        var j :| 0 <= j < |seen| && DayKey(seen[j]) == k;
        assert next[j] == seen[j];
      }
      if k in KeysOf(next) {
        var j :| 0 <= j < |next| && DayKey(next[j]) == k;
        assert j < i ==> seen[j] == next[j];
      }
      assert next[i] == dates[i];
    }
  }

  /** The set count is the number of the window's calendar days that are blocked. */
  lemma BlockedDaysAreCalendarDays(stockoutDates: seq<int>, excludedDates: seq<int>, since: int, asOf: int)
    ensures |DaysWithin(stockoutDates, since, asOf) + DaysWithin(excludedDates, since, asOf)|
         == CountIf(Days(NextMidnight(since), asOf), Holds(KeysOf(stockoutDates) + KeysOf(excludedDates)))
  {
    var from, keys := NextMidnight(since), KeysOf(stockoutDates) + KeysOf(excludedDates);
    forall k | k in keys ensures Aligned(k) {}
    CountIsCardinality(from, asOf, keys);
    forall k | k in keys && since <= k ensures from <= k { FirstMidnight(since, k); }
    assert DaysWithin(stockoutDates, since, asOf) + DaysWithin(excludedDates, since, asOf)
      == set k | k in keys && from <= k < asOf;
  }

  lemma {:induction false} ElementsAtMostLength(s: seq<int>)
    ensures |set x | x in s| <= |s|
    ensures |set x | x in s| == |s| <==> Distinct(s)
  {
    if s == [] {
    } else {
      var rest, all := set x | x in s[1..], set x | x in s;
      ElementsAtMostLength(s[1..]);
      assert all == rest + {s[0]};
      if s[0] in s[1..] {
        assert all == rest;
        var j :| 0 <= j < |s[1..]| && s[1..][j] == s[0];
        assert s[j + 1] == s[0];
      } else {
        assert Distinct(s) <==> Distinct(s[1..]) by {
          assert forall j :: 0 < j < |s| ==> s[j] == s[1..][j - 1] && s[j] in s[1..];
        }
      }
    }
  }

  lemma KeysMembers(dates: seq<int>)
    ensures forall k :: k in KeysOf(dates) <==> exists i :: 0 <= i < |dates| && DayKey(dates[i]) == k
  {}

  /** The stockout-only path counts dates, not days: on midnights it gives the distinct count exactly
      when no stockout day of the window is listed twice. */
  lemma StockoutCountIsDistinct(dates: seq<int>, since: int, asOf: int)
    requires forall i :: 0 <= i < |dates| ==> Aligned(dates[i])
    ensures CountIf(dates, Within(since, asOf)) >= |DaysWithin(dates, since, asOf)|
    ensures CountIf(dates, Within(since, asOf)) == |DaysWithin(dates, since, asOf)|
      <==> Distinct(Filter(dates, Within(since, asOf)))
  {
    hide CountIf, Filter, KeysOf;
    var kept := Filter(dates, Within(since, asOf));
    KeysMembers(dates);
    FilterLength(dates, Within(since, asOf));
    FilterProperties(dates, Within(since, asOf));
    ElementsAtMostLength(kept);
    forall k ensures k in DaysWithin(dates, since, asOf) <==> k in kept {
      if k in kept {
        var i :| 0 <= i < |dates| && dates[i] == k;
        AlignedKeyIsDate(k);
      }
      if k in DaysWithin(dates, since, asOf) {
        var i :| 0 <= i < |dates| && DayKey(dates[i]) == k;
        AlignedKeyIsDate(dates[i]);
      }
    }
    assert DaysWithin(dates, since, asOf) == set x | x in kept;
  }

  /** A day listed twice is counted twice, until there is an excluded day somewhere. */
  lemma ListedTwiceCountsTwice(day: int)
    requires Aligned(day)
    ensures CountIf([day, day], Within(day, day + DAY_MS)) == 2 && DaysWithin([day, day], day, day + DAY_MS) == {day}
  {
    AlignedKeyIsDate(day);
    assert CountIf([day], Within(day, day + DAY_MS)) == 1 by { assert [day][1..] == []; }
    assert [day, day][1..] == [day];
    assert [day, day][0] == day;
  }
}
