/** The ISO-week period keys of apps/worker/src/owner-report.ts. Dates are UTC day numbers. */
module IsoWeeks {
  import opened Calendar
  import opened Decimal
  import opened Text
  import opened Wrappers

  function CeilDiv(a: int, n: int): int
    requires n > 0
  {
    -((-a) / n)
  }

  function KeyOf(isoYear: int, week: int): string { Print(isoYear) + "-W" + Pad(week) }

  /** The date rebuilt at UTC midnight from its own year, month and day. */
  function Rebuilt(day: int): int {
    var c := CivilOf(day);
    DateUtc(c.year, c.month, c.date)
  }

  /** The Thursday decides the ISO year. */
  function ThursdayOf(day: int): int { day + 4 - IsoDay(day) }

  function WeekNumber(thursday: int, jan1: int): int { CeilDiv(thursday - jan1 + 1, 7) }

  function FirstOfYear(year: int): int { DateUtc(year, 0, 1) }

  function WeekKey(midnight: int): string {
    var thursday := ThursdayOf(midnight);
    var isoYear := YearOf(thursday);
    KeyOf(isoYear, WeekNumber(thursday, FirstOfYear(isoYear)))
  }

  function IsoWeekKey(day: int): string { WeekKey(Rebuilt(day)) }

  // ---------------------------------------------------------------- parsing

  /** Where the first "-W" starts, or the length when there is none. */
  function FindSeparator(s: string): (i: nat)
    ensures i <= |s| && (i < |s| ==> i + 2 <= |s|)
  {
    if |s| < 2 then |s| else if s[0] == '-' && s[1] == 'W' then 0 else 1 + FindSeparator(s[1..])
  }

  /** The Monday of an ISO week: 4 January is always in week 1. */
  function WeekMonday(isoYear: int, week: int): int {
    MondayOf(FourthOfYear(isoYear)) + (week - 1) * 7
  }

  function FourthOfYear(year: int): int { DateUtc(year, 0, 4) }

  /** The start of a week key; None stands for an invalid date. */
  function PeriodStart(period: string): Option<int> {
    var i := FindSeparator(period);
    var year := Read(period[..i]);
    var week := if i == |period| then Some(1) else Read(period[i + 2..][..FindSeparator(period[i + 2..])]);
    if year.Some? && week.Some? then Some(WeekMonday(year.value, week.value)) else None
  }

  predicate NoW(s: string) { forall i :: 0 <= i < |s| ==> s[i] != 'W' }

  lemma {:induction false} SeparatorAfter(a: string, b: string)
    requires NoW(a) && |b| >= 2 && b[0] == '-' && b[1] == 'W'
    ensures FindSeparator(a + b) == |a|
  {
    if a == [] {
      assert a + b == b;
    } else {
      SeparatorAfter(a[1..], b);
      assert (a + b)[1..] == a[1..] + b;
      assert (a + b)[1] == if |a| > 1 then a[1] else b[0];
    }
  }

  lemma {:induction false} NoSeparator(a: string)
    requires NoW(a)
    ensures FindSeparator(a) == |a|
  {
    if |a| < 2 {
    } else {
      NoSeparator(a[1..]);
    }
  }

  lemma PrintedHasNoW(n: int)
    ensures NoW(Print(n)) && NoW(Pad(n))
  {
    ReadsBackDigits(if n < 0 then -n else n);
  }

  lemma KeyParts(isoYear: int, week: int)
    ensures var key := KeyOf(isoYear, week); var i := FindSeparator(key);
      i == |Print(isoYear)| && key[..i] == Print(isoYear) && key[i + 2..] == Pad(week)
  {
    PrintedHasNoW(isoYear);
    SeparatorAfter(Print(isoYear), "-W" + Pad(week));
    assert KeyOf(isoYear, week) == Print(isoYear) + ("-W" + Pad(week));
  }

  /** Reading a printed key gives the Monday of its year and week. */
  lemma KeyReadsBack(isoYear: int, week: int)
    ensures PeriodStart(KeyOf(isoYear, week)) == Some(WeekMonday(isoYear, week))
  {
    KeyParts(isoYear, week);
    PrintedHasNoW(week);
    NoSeparator(Pad(week));
    ReadsBack(isoYear);
    ReadsBack(week);
    assert Pad(week)[..|Pad(week)|] == Pad(week);
  }

  lemma KeyDeterminesYear(y: int, v: int, z: int, w: int)
    requires KeyOf(y, v) == KeyOf(z, w)
    ensures y == z
  {
    KeyParts(y, v);
    KeyParts(z, w);
    ReadsBack(y);
    ReadsBack(z);
  }

  // ---------------------------------------------------------------- round trips

  /** Counting Thursdays from a 1 January is undone by stepping from the Monday of its 4 January. */
  lemma CountedWeek(jan1: int, thursday: int)
    requires thursday % 7 == 0
    ensures MondayOf(jan1 + 3) + (WeekNumber(thursday, jan1) - 1) * 7 == thursday - 3
  {
    MondayProperties(jan1 + 3);
  }

  lemma FourthOfJanuary(year: int)
    ensures FirstOfYear(year) == Jan1(FullYear(year)) && FourthOfYear(year) == Jan1(FullYear(year)) + 3
  {
    MonthInYear(year, 0, 1);
    MonthInYear(year, 0, 4);
  }

  lemma ThursdayProperties(day: int)
    ensures ThursdayOf(day) == MondayOf(day) + 3 && ThursdayOf(day) % 7 == 0
  {}

  lemma WeekKeyReadsBack(midnight: int)
    ensures PeriodStart(WeekKey(midnight)) == Some(MondayOf(midnight))
  {
    hide PeriodStart, YearOf, MondayOf, ThursdayOf, WeekNumber, KeyOf, Jan1, FullYear, FirstOfYear, FourthOfYear;
    var thursday := ThursdayOf(midnight);
    var isoYear := YearOf(thursday);
    FourthOfJanuary(isoYear);
    ThursdayProperties(midnight);
    CountedWeek(Jan1(FullYear(isoYear)), thursday);
    KeyReadsBack(isoYear, WeekNumber(thursday, FirstOfYear(isoYear)));
  }

  /** A date's key reads back as the Monday of its week, except in the years 0 to 99, which
      `Date.UTC` moves to the twentieth century. */
  lemma DateRoundTrip(day: int)
    ensures PeriodStart(IsoWeekKey(day)) == Some(MondayOf(day)) <==> !(0 <= YearOf(day) <= 99)
  {
    WeekKeyReadsBack(Rebuilt(day));
    RebuiltDate(day);
    MondayProperties(day);
    MondayProperties(Rebuilt(day));
  }

  /** The Thursday of a week counted from a 1 January. */
  function WeekThursday(first: int, week: int): int { MondayOf(first + 3) + 3 + (week - 1) * 7 }

  function ThursdayCount(first: int, next: int): int { CeilDiv(next - WeekThursday(first, 1), 7) }

  /** The ISO weeks of a year: its Thursdays. */
  function WeeksIn(year: int): int { ThursdayCount(Jan1(year), Jan1(year + 1)) }

  /** A year has 53 weeks when 1 January is a Thursday, or a Wednesday of a leap year. */
  lemma WeeksInYear(year: int)
    ensures WeeksIn(year) == if IsoDay(Jan1(year)) == 4 || (Leap(year) && IsoDay(Jan1(year)) == 3) then 53 else 52
  {
    YearLength(year);
    ThursdaysBetween(Jan1(year), YearDays(year));
  }

  /** The Thursdays of a stretch of 365 or 366 days. */
  lemma ThursdaysBetween(first: int, days: int)
    requires days == 365 || days == 366
    ensures ThursdayCount(first, first + days)
         == if IsoDay(first) == 4 || (days == 366 && IsoDay(first) == 3) then 53 else 52
  {}

  lemma ThursdayNumbers(first: int, next: int, week: int)
    requires 1 <= week <= ThursdayCount(first, next)
    ensures var thursday := WeekThursday(first, week);
      thursday % 7 == 0 && first <= thursday < next && WeekNumber(thursday, first) == week
  {
    MondayProperties(first + 3);
  }

  lemma ThursdayOfWeek(year: int, week: int)
    requires 1 <= week <= WeeksIn(year)
    ensures YearOf(WeekThursday(Jan1(year), week)) == year
    ensures WeekNumber(WeekThursday(Jan1(year), week), Jan1(year)) == week
  {
    ThursdayNumbers(Jan1(year), Jan1(year + 1), week);
    YearUnique(WeekThursday(Jan1(year), week), year);
  }

  /** The key of a valid week's Monday, seen as a midnight. */
  lemma KeyOfWeekMonday(year: int, week: int)
    requires 1 <= week <= WeeksIn(FullYear(year))
    ensures WeekKey(WeekMonday(year, week)) == KeyOf(FullYear(year), week)
  {
    var full := FullYear(year);
    ThursdayOfWeek(full, week);
    ThursdayOfWeekMonday(year, week);
    assert FirstOfYear(full) == Jan1(full) by { FourthOfJanuary(full); }
  }

  lemma ThursdayOfWeekMonday(year: int, week: int)
    ensures ThursdayOf(WeekMonday(year, week)) == WeekThursday(Jan1(FullYear(year)), week)
  {
    FourthOfJanuary(year);
    ThursdayAfterWeeks(Jan1(FullYear(year)), week);
  }

  lemma ThursdayAfterWeeks(first: int, week: int)
    ensures ThursdayOf(MondayOf(first + 3) + (week - 1) * 7) == WeekThursday(first, week)
  {}

  /** A valid key comes back from its own Monday, unless its year or the year of that Monday is
      one of 0 to 99. */
  lemma KeyRoundTrip(year: int, week: int)
    requires 1 <= week <= WeeksIn(FullYear(year))
    ensures IsoWeekKey(WeekMonday(year, week)) == KeyOf(year, week) <==>
              !TwoDigit(year) && !TwoDigit(YearOf(WeekMonday(year, week)))
  {
    var monday := WeekMonday(year, week);
    RebuiltDate(monday);
    if TwoDigit(YearOf(monday)) {
      WeekKeyReadsBack(Rebuilt(monday));
      KeyReadsBack(year, week);
      MondayProperties(Rebuilt(monday));
    } else {
      KeyOfWeekMonday(year, week);
      if TwoDigit(year) && KeyOf(FullYear(year), week) == KeyOf(year, week) {
        KeyDeterminesYear(FullYear(year), week, year, week);
      }
    }
  }

  // ---------------------------------------------------------------- order

  lemma KeyOrder(y: int, v: int, z: int, w: int)
    requires 1000 <= y <= 9999 && 1000 <= z <= 9999 && 0 <= v <= 99 && 0 <= w <= 99
    ensures LexLe(KeyOf(y, v), KeyOf(z, w)) <==> y < z || (y == z && v <= w)
  {
    FourDigits(y);
    FourDigits(z);
    DigitsOrder(y, z);
    PadOrder(v, w);
    LexConcat(Print(y), Print(z), "-W" + Pad(v), "-W" + Pad(w));
    LexConcat("-W", "-W", Pad(v), Pad(w));
    assert KeyOf(y, v) == Print(y) + ("-W" + Pad(v)) && KeyOf(z, w) == Print(z) + ("-W" + Pad(w));
  }

  lemma FourDigits(y: int)
    requires 1000 <= y <= 9999
    ensures |Digits(y)| == 4
  {
    assert Digits(y / 1000) == [Digit(y / 1000)];
    assert y / 10 / 10 / 10 == y / 1000;
    assert |Digits(y / 10 / 10)| == 2;
    assert |Digits(y / 10)| == 3;
  }

  /** A week of a four-digit ISO year, dated outside the years 0 to 99. */
  ghost predicate FourDigitWeek(day: int) {
    !TwoDigit(YearOf(day)) && 1000 <= YearOf(ThursdayOf(day)) <= 9999
  }

  lemma WeekOfDate(day: int)
    requires FourDigitWeek(day)
    ensures var thursday := ThursdayOf(day); var y := YearOf(thursday);
      && IsoWeekKey(day) == WeekKey(day) == KeyOf(y, WeekNumber(thursday, Jan1(y)))
      && 1 <= WeekNumber(thursday, Jan1(y)) <= 53
  {
    var thursday := ThursdayOf(day);
    var y := YearOf(thursday);
    RebuiltDate(day);
    FourthOfJanuary(y);
    YearLength(y);
  }

  lemma SameYearWeeks(first: int, s: int, t: int)
    requires s % 7 == 0 && t % 7 == 0
    ensures WeekNumber(s, first) <= WeekNumber(t, first) <==> s <= t
  {}

  /** String order of week keys is chronological. */
  lemma KeyOrderIsChronological(d: int, e: int)
    requires FourDigitWeek(d) && FourDigitWeek(e)
    ensures LexLe(IsoWeekKey(d), IsoWeekKey(e)) <==> MondayOf(d) <= MondayOf(e)
    ensures IsoWeekKey(d) == IsoWeekKey(e) <==> MondayOf(d) == MondayOf(e)
  {
    hide YearOf, Jan1, MondayOf, ThursdayOf, WeekNumber, WeekKey, IsoWeekKey, KeyOf, LexLe, PeriodStart;
    WeekOfDate(d);
    WeekOfDate(e);
    var s, t := ThursdayOf(d), ThursdayOf(e);
    var y, z := YearOf(s), YearOf(t);
    ThursdayProperties(d);
    ThursdayProperties(e);
    KeyOrder(y, WeekNumber(s, Jan1(y)), z, WeekNumber(t, Jan1(z)));
    if y < z { Jan1Monotone(y + 1, z); }
    if z < y { Jan1Monotone(z + 1, y); }
    if y == z { SameYearWeeks(Jan1(y), s, t); }
    WeekKeyReadsBack(d);
    WeekKeyReadsBack(e);
    if MondayOf(d) == MondayOf(e) { assert s == t; }
  }
}
