/** The proleptic Gregorian calendar of `Date`, on day numbers from 1970-01-01. */
module Calendar {

  predicate Leap(y: int) { y % 4 == 0 && (y % 100 != 0 || y % 400 == 0) }

  function YearDays(y: int): int { if Leap(y) then 366 else 365 }

  /** The day number of 1 January. */
  function Jan1(y: int): int
    decreases if y >= 1970 then y - 1970 else 1970 - y
  {
    if y == 1970 then 0 else if y > 1970 then Jan1(y - 1) + YearDays(y - 1) else Jan1(y + 1) - YearDays(y)
  }

  lemma YearLength(y: int)
    ensures Jan1(y + 1) == Jan1(y) + YearDays(y)
  {}

  lemma FourthStep(x: int)
    ensures (x + 1) / 4 == x / 4 + if (x + 1) % 4 == 0 then 1 else 0
  {}

  lemma HundredthStep(x: int)
    ensures (x + 1) / 100 == x / 100 + if (x + 1) % 100 == 0 then 1 else 0
  {}

  lemma FourHundredthStep(x: int)
    ensures (x + 1) / 400 == x / 400 + if (x + 1) % 400 == 0 then 1 else 0
  {}

  /** `DayFromYear` of ECMA-262, section 21.4.1.3. */
  function DayFromYear(y: int): int { 365 * (y - 1970) + (y - 1969) / 4 - (y - 1901) / 100 + (y - 1601) / 400 }

  lemma FourthYears(y: int)
    ensures (y - 1968) % 4 == y % 4
  {}

  lemma HundredthYears(y: int)
    ensures (y - 1900) % 100 == y % 100 && (y % 100 == 0 ==> y % 4 == 0)
  {}

  lemma FourHundredthYears(y: int)
    ensures (y - 1600) % 400 == y % 400 && (y % 400 == 0 ==> y % 100 == 0)
  {}

  lemma YearStep(y: int)
    ensures DayFromYear(y + 1) == DayFromYear(y) + YearDays(y)
  {
    FourthStep(y - 1969);
    HundredthStep(y - 1901);
    FourHundredthStep(y - 1601);
    FourthYears(y);
    HundredthYears(y);
    FourHundredthYears(y);
  }

  /** Where a year starts, in closed form. */
  lemma {:induction false} YearStart(y: int)
    ensures Jan1(y) == DayFromYear(y)
    decreases if y >= 1970 then y - 1970 else 1970 - y
  {
    hide DayFromYear, YearDays;
    if y == 1970 {
      assert DayFromYear(1970) == 0 by { FirstYear(); }
    } else if y > 1970 {
      YearStart(y - 1);
      YearStep(y - 1);
    } else {
      YearStart(y + 1);
      YearStep(y);
    }
  }

  lemma FirstYear()
    ensures DayFromYear(1970) == 0
  {}

  /** The year of a day, found from a guess. */
  function YearFrom(y: int, day: int): (r: int)
    ensures Jan1(r) <= day < Jan1(r + 1)
    decreases if day < Jan1(y) then Jan1(y) - day else if day >= Jan1(y + 1) then day - Jan1(y) else 0
  {
    YearLength(y);
    YearLength(y - 1);
    if day < Jan1(y) then YearFrom(y - 1, day)
    else if day >= Jan1(y + 1) then YearFrom(y + 1, day)
    else y
  }

  function YearOf(day: int): (r: int)
    ensures Jan1(r) <= day < Jan1(r + 1)
  {
    YearFrom(1970, day)
  }

  lemma {:induction false} Jan1Monotone(a: int, b: int)
    requires a <= b
    ensures Jan1(b) - Jan1(a) >= 365 * (b - a)
    decreases b - a
  {
    if a >= b {
    } else {
      YearLength(b - 1);
      Jan1Monotone(a, b - 1);
    }
  }

  lemma YearUnique(day: int, y: int)
    requires Jan1(y) <= day < Jan1(y + 1)
    ensures YearOf(day) == y
  {
    var r := YearOf(day);
    if r < y { Jan1Monotone(r + 1, y); }
    if y < r { Jan1Monotone(y + 1, r); }
  }

  // ---------------------------------------------------------------- months

  /** Days of the year before a month, months counted from 0. */
  function DaysBeforeMonth(m: int, leap: bool): int
    requires 0 <= m <= 12
  {
    (if m == 0 then 0 else if m == 1 then 31 else if m == 2 then 59 else if m == 3 then 90
     else if m == 4 then 120 else if m == 5 then 151 else if m == 6 then 181 else if m == 7 then 212
     else if m == 8 then 243 else if m == 9 then 273 else if m == 10 then 304 else if m == 11 then 334
     else 365)
    + if leap && m >= 2 then 1 else 0
  }

  const MONTH_DAYS := [31, 28, 31, 30, 31, 30, 31, 31, 30, 31, 30, 31]

  /** The months have their lengths, February one more in a leap year. */
  lemma MonthLengths(m: int, leap: bool)
    requires 0 <= m < 12
    ensures DaysBeforeMonth(0, leap) == 0
    ensures DaysBeforeMonth(m + 1, leap) - DaysBeforeMonth(m, leap) == MONTH_DAYS[m] + if leap && m == 1 then 1 else 0
  {}

  function MonthFrom(m: int, dayOfYear: int, leap: bool): (r: int)
    requires 0 <= m < 12 && DaysBeforeMonth(m, leap) <= dayOfYear < DaysBeforeMonth(12, leap)
    ensures 0 <= r < 12 && DaysBeforeMonth(r, leap) <= dayOfYear < DaysBeforeMonth(r + 1, leap)
    decreases 12 - m
  {
    if dayOfYear < DaysBeforeMonth(m + 1, leap) then m else MonthFrom(m + 1, dayOfYear, leap)
  }

  datatype Civil = Civil(year: int, month: int, date: int)

  /** The UTC year, month (from 0) and day of the month. */
  function CivilOf(day: int): (c: Civil)
    ensures 0 <= c.month < 12 && c.year == YearOf(day)
    ensures Jan1(c.year) + DaysBeforeMonth(c.month, Leap(c.year)) + c.date - 1 == day
    ensures 1 <= c.date <= 31
  {
    var y := YearOf(day);
    YearLength(y);
    var m := MonthFrom(0, day - Jan1(y), Leap(y));
    Civil(y, m, day - Jan1(y) - DaysBeforeMonth(m, Leap(y)) + 1)
  }

  predicate TwoDigit(y: int) { 0 <= y <= 99 }

  /** `Date.UTC` reads a year from 0 to 99 as 1900 to 1999. */
  function FullYear(y: int): int { if TwoDigit(y) then 1900 + y else y }

  /** `Date.UTC(year, month, date)` as a day number. */
  function DateUtc(year: int, month: int, date: int): int
    requires 0 <= month < 12
  {
    Jan1(FullYear(year)) + DaysBeforeMonth(month, Leap(FullYear(year))) + date - 1
  }

  lemma MonthInYear(year: int, month: int, date: int)
    requires 0 <= month < 12 && date >= 1
    ensures DateUtc(year, month, date) == Jan1(FullYear(year)) + DaysBeforeMonth(month, Leap(FullYear(year))) + date - 1
    ensures DateUtc(year, month, date) >= Jan1(FullYear(year))
  {
  }

  /** A date rebuilt from its own parts is itself, unless its year has one or two digits: then it
      lands in the twentieth century. */
  lemma RebuiltDate(day: int)
    ensures var c := CivilOf(day); var rebuilt := DateUtc(c.year, c.month, c.date);
      && (!TwoDigit(c.year) ==> rebuilt == day)
      && (TwoDigit(c.year) ==> rebuilt >= Jan1(1900) > day + 7)
  {
    var c := CivilOf(day);
    MonthInYear(c.year, c.month, c.date);
    if TwoDigit(c.year) {
      Jan1Monotone(c.year + 1, 1900);
      Jan1Monotone(1900, 1900 + c.year);
    }
  }

  // ---------------------------------------------------------------- weekdays

  /** Monday is 1, Sunday is 7: `getUTCDay() || 7`. Day 0 was a Thursday. */
  function IsoDay(day: int): (d: int)
    ensures 1 <= d <= 7
  {
    var utcDay := (day + 4) % 7;
    if utcDay == 0 then 7 else utcDay
  }

  function MondayOf(day: int): int { day - (IsoDay(day) - 1) }

  lemma MondayProperties(day: int)
    ensures IsoDay(MondayOf(day)) == 1 && MondayOf(day) <= day < MondayOf(day) + 7
    ensures (MondayOf(day) + 3) % 7 == 0
  {}

  lemma MondayUnique(day: int, monday: int)
    requires (monday + 3) % 7 == 0 && monday <= day < monday + 7
    ensures MondayOf(day) == monday
  {}
}
