/** The period lists of apps/worker/src/owner-report.ts built on the week keys. */
module OwnerReport {
  import opened Calendar
  import opened Decimal
  import opened IsoWeeks
  import opened Text
  import opened Wrappers

  function WeekKeyOf(): int -> string { (day: int) => IsoWeekKey(day) }

  /** `monday` minus `count` weeks up to `monday` minus one week. */
  function WeeksBefore(monday: int, count: int): seq<int> {
    if count <= 0 then [] else [monday - 7 * count] + WeeksBefore(monday, count - 1)
  }

  /** `monday`, one week before it, ... `n` weeks in all. */
  function WeeksBack(monday: int, n: nat): seq<int> {
    if n == 0 then [] else WeeksBack(monday, n - 1) + [monday - 7 * (n - 1)]
  }

  function KeysOf(days: seq<int>, key: int -> string): seq<string> {
    if days == [] then [] else [key(days[0])] + KeysOf(days[1..], key)
  }

  lemma {:induction false} KeysOfStep(days: seq<int>, day: int, key: int -> string)
    ensures KeysOf(days + [day], key) == KeysOf(days, key) + [key(day)]
  {
    if days == [] {
      assert [day][1..] == [] && days + [day] == [day];
    } else {
      KeysOfStep(days[1..], day, key);
      assert (days + [day])[1..] == days[1..] + [day];
    }
  }

  /** The last `count` completed week keys, oldest first. */
  method CompletedWeeks(now: int, count: int) returns (out: seq<string>)
    ensures out == KeysOf(WeeksBefore(MondayOf(Rebuilt(now)), count), WeekKeyOf())
  {
    out := PushBefore(MondayOf(Rebuilt(now)), count, WeekKeyOf());
  }

  method PushBefore(monday: int, count: int, key: int -> string) returns (out: seq<string>)
    ensures out == KeysOf(WeeksBefore(monday, count), key)
  {
    out := [];
    var i := count;
    while i >= 1
      invariant out + KeysOf(WeeksBefore(monday, i), key) == KeysOf(WeeksBefore(monday, count), key)
    {
      var k := key(monday - 7 * i);
      PeelFirst(monday, i, key);
      assert out + ([k] + KeysOf(WeeksBefore(monday, i - 1), key))
        == (out + [k]) + KeysOf(WeeksBefore(monday, i - 1), key);
      out := out + [k];
      i := i - 1;
    }
    assert out + [] == out;
  }

  lemma PeelFirst(monday: int, i: int, key: int -> string)
    requires i >= 1
    ensures KeysOf(WeeksBefore(monday, i), key) == [key(monday - 7 * i)] + KeysOf(WeeksBefore(monday, i - 1), key)
  {
    assert ([monday - 7 * i] + WeeksBefore(monday, i - 1))[1..] == WeeksBefore(monday, i - 1);
  }

  /** The number of weeks a trailing window covers. */
  function Buckets(windowDays: int): (n: nat)
    ensures n >= 1
  {
    var n := CeilDiv(windowDays, 7);
    if n >= 1 then n else 1
  }

  /** The key printed for a date that is none. */
  const NO_WEEK := "NaN-WNaN"

  /** The week keys of the trailing window that ends with the week `period`; a period that is no date
      leaves one key that matches no week. */
  method TrailingWeekKeys(period: string, windowDays: int) returns (keys: set<string>)
    ensures PeriodStart(period).Some? ==>
      keys == set k | k in KeysOf(WeeksBack(PeriodStart(period).value, Buckets(windowDays)), WeekKeyOf())
    ensures PeriodStart(period).None? ==> keys == {"NaN-WNaN"}
  {
    keys := AddBack(PeriodStart(period), Buckets(windowDays), WeekKeyOf());
  }

  method AddBack(start: Option<int>, buckets: nat, key: int -> string) returns (keys: set<string>)
    requires buckets >= 1
    ensures start.Some? ==> keys == set k | k in KeysOf(WeeksBack(start.value, buckets), key)
    ensures start.None? ==> keys == {NO_WEEK}
  {
    keys := {};
    for i := 0 to buckets
      invariant start.Some? ==> keys == set k | k in KeysOf(WeeksBack(start.value, i), key)
      invariant start.None? ==> keys == if i == 0 then {} else {NO_WEEK}
    {
      if start.Some? {
        KeysOfStep(WeeksBack(start.value, i), start.value - 7 * i, key);
        keys := keys + {key(start.value - 7 * i)};
      } else {
        keys := keys + {NO_WEEK};
      }
    }
  }

  /** Whether the product sold in a period not after `p`. */
  method SoldEverBy(periods: seq<string>, p: string) returns (sold: bool)
    ensures sold <==> exists i :: 0 <= i < |periods| && LexLe(periods[i], p)
  {
    for i := 0 to |periods|
      invariant forall j :: 0 <= j < i ==> !LexLe(periods[j], p)
    {
      if LexLe(periods[i], p) {
        return true;
      }
    }
    sold := false;
  }

  // ---------------------------------------------------------------- what the lists are

  lemma WeekBefore(monday: int, i: int)
    requires (monday + 3) % 7 == 0
    ensures MondayOf(monday - 7 * i) == monday - 7 * i
  {
    MondayUnique(monday - 7 * i, monday - 7 * i);
  }

  lemma {:induction false} KeysOfAt(days: seq<int>, key: int -> string, j: nat)
    ensures |KeysOf(days, key)| == |days|
    ensures j < |days| ==> KeysOf(days, key)[j] == key(days[j])
    decreases days
  {
    if days != [] { KeysOfAt(days[1..], key, if j > 0 then j - 1 else 0); }
  }

  lemma {:induction false} WeeksBeforeAt(monday: int, count: nat, j: nat)
    ensures |WeeksBefore(monday, count)| == count
    ensures j < count ==> WeeksBefore(monday, count)[j] == monday - 7 * (count - j)
  {
    if count > 0 { WeeksBeforeAt(monday, count - 1, if j > 0 then j - 1 else 0); }
  }

  lemma {:induction false} WeeksBackAt(monday: int, n: nat, j: nat)
    ensures |WeeksBack(monday, n)| == n
    ensures j < n ==> WeeksBack(monday, n)[j] == monday - 7 * j
  {
    if n == 0 {
    } else {
      WeeksBackAt(monday, n - 1, j);
    }
  }

  /** The key of a Monday reads back as that Monday, except in the years 0 to 99. */
  lemma MondayReadsBack(start: int, i: int)
    requires (start + 3) % 7 == 0
    ensures PeriodStart(WeekKeyOf()(start - 7 * i)) == Some(start - 7 * i) <==> !TwoDigit(YearOf(start - 7 * i))
  {
    hide YearOf, PeriodStart, IsoWeekKey, MondayOf;
    DateRoundTrip(start - 7 * i);
    WeekBefore(start, i);
  }

  /** Seen from a day of the years 0 to 99, whose week starts in the twentieth century, no week before it
      reads back as itself. */
  lemma NeverReadsBack(now: int, i: nat)
    requires TwoDigit(YearOf(now))
    ensures PeriodStart(WeekKeyOf()(MondayOf(Rebuilt(now)) - 7 * i)) != Some(MondayOf(now) - 7 * i)
  {
    hide YearOf, Jan1, MondayOf, DateUtc, PeriodStart, WeekKey;
    var rebuilt := Rebuilt(now);
    var day := MondayOf(rebuilt) - 7 * i;
    RebuiltDate(now);
    MondayProperties(now);
    MondayProperties(rebuilt);
    MondayReadsBack(MondayOf(rebuilt), i);
    if TwoDigit(YearOf(day)) {
      RebuiltDate(day);
      MondayProperties(Rebuilt(day));
      WeekKeyReadsBack(Rebuilt(day));
    }
  }

  /** The completed periods are `count`; each reads back as its Monday, `count` - `j` weeks before this
      one, exactly when neither today nor that Monday lies in the years 0 to 99. */
  lemma CompletedWeeksAreConsecutive(now: int, count: nat, j: nat)
    requires j < count
    ensures var out := KeysOf(WeeksBefore(MondayOf(Rebuilt(now)), count), WeekKeyOf());
      var monday := MondayOf(now) - 7 * (count - j);
      |out| == count && (PeriodStart(out[j]) == Some(monday) <==> !TwoDigit(YearOf(now)) && !TwoDigit(YearOf(monday)))
  {
    hide YearOf, MondayOf, Rebuilt, PeriodStart, WeeksBefore, KeysOf, WeekKeyOf, TwoDigit;
    var start := MondayOf(Rebuilt(now));
    WeeksBeforeAt(start, count, j);
    KeysOfAt(WeeksBefore(start, count), WeekKeyOf(), j);
    if TwoDigit(YearOf(now)) {
      NeverReadsBack(now, count - j);
    } else {
      NotRebuilt(now);
      MondayProperties(now);
      MondayReadsBack(start, count - j);
    }
  }

  lemma NotRebuilt(now: int)
    requires !TwoDigit(YearOf(now))
    ensures Rebuilt(now) == now
  {
    RebuiltDate(now);
  }

  /** The start of a period is a Monday. */
  lemma PeriodStartIsMonday(period: string)
    ensures PeriodStart(period).Some? ==> (PeriodStart(period).value + 3) % 7 == 0
  {
    hide WeekMonday, Read, FindSeparator;
    forall year, week ensures (WeekMonday(year, week) + 3) % 7 == 0 {
      WeekMondayIsMonday(year, week);
    }
  }

  lemma WeekMondayIsMonday(year: int, week: int)
    ensures (WeekMonday(year, week) + 3) % 7 == 0
  {
    hide MondayOf, FourthOfYear;
    MondayProperties(FourthOfYear(year));
  }

  /** Reads a list of week starts back from keys that read back one by one. */
  lemma {:induction false} DistinctByReading(days: seq<int>, key: int -> string)
    requires forall i :: 0 <= i < |days| ==> PeriodStart(key(days[i])) == Some(days[i])
    requires forall i, j :: 0 <= i < j < |days| ==> days[i] != days[j]
    ensures |set k | k in KeysOf(days, key)| == |days|
  {
    if days == [] {
    } else {
      var rest := KeysOf(days[1..], key);
      DistinctByReading(days[1..], key);
      assert (set k | k in KeysOf(days, key)) == {key(days[0])} + set k | k in rest;
      if key(days[0]) in rest {
        var j :| 0 <= j < |rest| && rest[j] == key(days[0]);
        KeysOfAt(days[1..], key, j);
      }
    }
  }

  /** No week of the trailing window starts in the years 0 to 99. */
  ghost predicate NoTwoDigitWeek(start: int, n: nat) { forall i :: 0 <= i < n ==> !TwoDigit(YearOf(start - 7 * i)) }

  /** A trailing window lists a key for each of its weeks, the period's own and those just before it. Each
      reads back as its Monday exactly when that is not in the years 0 to 99, and if none is the keys are
      as many as the weeks. */
  lemma TrailingWeeksAreDistinct(period: string, windowDays: int)
    requires PeriodStart(period).Some?
    ensures var start, n := PeriodStart(period).value, Buckets(windowDays);
      var keys := KeysOf(WeeksBack(start, n), WeekKeyOf());
      && |keys| == n
      && (forall i :: 0 <= i < n ==>
            (PeriodStart(keys[i]) == Some(start - 7 * i) <==> !TwoDigit(YearOf(start - 7 * i))))
      && (NoTwoDigitWeek(start, n) ==> |set k | k in keys| == n)
  {
    hide YearOf, PeriodStart, WeeksBack, KeysOf, WeekKeyOf, Buckets, TwoDigit;
    PeriodStartIsMonday(period);
    DistinctWeeksBack(PeriodStart(period).value, Buckets(windowDays));
  }

  lemma DistinctWeeksBack(start: int, n: nat)
    requires (start + 3) % 7 == 0
    ensures var keys := KeysOf(WeeksBack(start, n), WeekKeyOf());
      && |keys| == n
      && (forall i :: 0 <= i < n ==>
            (PeriodStart(keys[i]) == Some(start - 7 * i) <==> !TwoDigit(YearOf(start - 7 * i))))
      && (NoTwoDigitWeek(start, n) ==> |set k | k in keys| == n)
  {
    hide YearOf, PeriodStart, WeeksBack, KeysOf, WeekKeyOf, TwoDigit;
    var days := WeeksBack(start, n);
    WeeksBackAt(start, n, 0);
    KeysOfAt(days, WeekKeyOf(), 0);
    forall i | 0 <= i < n
      ensures days[i] == start - 7 * i && KeysOf(days, WeekKeyOf())[i] == WeekKeyOf()(days[i])
      ensures PeriodStart(WeekKeyOf()(days[i])) == Some(days[i]) <==> !TwoDigit(YearOf(start - 7 * i))
    {
      WeeksBackAt(start, n, i);
      KeysOfAt(days, WeekKeyOf(), i);
      MondayReadsBack(start, i);
    }
    if NoTwoDigitWeek(start, n) { DistinctByReading(days, WeekKeyOf()); }
  }

  /** In four-digit ISO years, having sold by a week means having sold in a week that started no
      later: text order of the keys decides it correctly. */
  lemma SoldEverByIsChronological(days: seq<int>, p: int)
    requires FourDigitWeek(p) && forall i :: 0 <= i < |days| ==> FourDigitWeek(days[i])
    ensures (exists i :: 0 <= i < |days| && LexLe(IsoWeekKey(days[i]), IsoWeekKey(p)))
       <==> (exists i :: 0 <= i < |days| && MondayOf(days[i]) <= MondayOf(p))
  {
    forall i | 0 <= i < |days| ensures LexLe(IsoWeekKey(days[i]), IsoWeekKey(p)) <==> MondayOf(days[i]) <= MondayOf(p) {
      KeyOrderIsChronological(days[i], p);
    }
  }
}
