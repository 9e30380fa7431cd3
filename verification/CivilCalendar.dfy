/** The proleptic Gregorian calendar of JavaScript dates, on day numbers counted from 1970-01-01. */
module CivilCalendar {

  datatype Civil = Civil(year: int, month: int, day: int)

  predicate IsLeap(y: int) { y % 4 == 0 && (y % 100 != 0 || y % 400 == 0) }

  function MonthDays(leap: bool, m: int): int
    requires 1 <= m <= 12
  {
    if m == 2 then (if leap then 29 else 28)
    else if m == 4 || m == 6 || m == 9 || m == 11 then 30
    else 31
  }

  function MonthLength(y: int, m: int): int
    requires 1 <= m <= 12
  {
    MonthDays(IsLeap(y), m)
  }

  predicate ValidDate(c: Civil) {
    1 <= c.month <= 12 && 1 <= c.day <= MonthLength(c.year, c.month)
  }

  // ---- Day arithmetic ----

  function YearDays(y: int): int { if IsLeap(y) then 366 else 365 }

  /** The day number of 1 January, counted year by year. */
  function DayFromYear(y: int): int
    decreases if y >= 1970 then y - 1970 else 1970 - y
  {
    if y == 1970 then 0
    else if y > 1970 then DayFromYear(y - 1) + YearDays(y - 1)
    else DayFromYear(y + 1) - YearDays(y)
  }

  /** The closed form of ECMAScript's DayFromYear. Division rounds down, as its floor does. */
  function DayFromYearFormula(y: int): int {
    365 * (y - 1970) + (y - 1969) / 4 - (y - 1901) / 100 + (y - 1601) / 400
  }

  /** Days of the year before the month with this index, for indices 0 to 12. */
  function DaysBefore(leap: bool, monthIndex: int): int
    requires 0 <= monthIndex <= 12
    decreases monthIndex
  {
    if monthIndex == 0 then 0 else DaysBefore(leap, monthIndex - 1) + MonthDays(leap, monthIndex)
  }

  /** The day number of the first of a month, by the index of the month. */
  function FirstOfMonth(y: int, monthIndex: int): int
    requires 0 <= monthIndex <= 12
  {
    DayFromYear(y) + DaysBefore(IsLeap(y), monthIndex)
  }

  /** `Date.UTC(year, monthIndex, day)` in days: month indices and days may overflow either way. */
  function MakeDay(year: int, monthIndex: int, day: int): int
    decreases if monthIndex < 0 then 1 - monthIndex else if monthIndex > 11 then monthIndex else 0
  {
    if monthIndex < 0 then MakeDay(year - 1, monthIndex + 12, day)
    else if monthIndex > 11 then MakeDay(year + 1, monthIndex - 12, day)
    else FirstOfMonth(year, monthIndex) + day - 1
  }

  /** The days before each month of a common and of a leap year. */
  lemma MonthStarts(leap: bool)
    ensures var l := if leap then 1 else 0;
      && DaysBefore(leap, 0) == 0 && DaysBefore(leap, 1) == 31
      && DaysBefore(leap, 2) == 59 + l && DaysBefore(leap, 3) == 90 + l && DaysBefore(leap, 4) == 120 + l
      && DaysBefore(leap, 5) == 151 + l && DaysBefore(leap, 6) == 181 + l && DaysBefore(leap, 7) == 212 + l
      && DaysBefore(leap, 8) == 243 + l && DaysBefore(leap, 9) == 273 + l && DaysBefore(leap, 10) == 304 + l
      && DaysBefore(leap, 11) == 334 + l && DaysBefore(leap, 12) == 365 + l
  {
    assert DaysBefore(leap, 2) == 31 + MonthDays(leap, 2);
    assert DaysBefore(leap, 4) == DaysBefore(leap, 2) + 61;
    assert DaysBefore(leap, 6) == DaysBefore(leap, 4) + 61;
    assert DaysBefore(leap, 8) == DaysBefore(leap, 6) + 62;
    assert DaysBefore(leap, 10) == DaysBefore(leap, 8) + 61;
  }

  /** The year a day falls in: the last one that starts on or before it. */
  function YearOf(n: int): int {
    if n >= DayFromYear(1970) then YearUp(n, 1970) else YearDown(n, 1969)
  }

  function YearUp(n: int, y: int): int
    requires DayFromYear(y) <= n
    decreases n - DayFromYear(y)
  {
    YearLength(y);
    if n < DayFromYear(y + 1) then y else YearUp(n, y + 1)
  }

  function YearDown(n: int, y: int): int
    requires n < DayFromYear(y + 1)
    decreases DayFromYear(y + 1) - n
  {
    YearLength(y);
    if DayFromYear(y) <= n then y else YearDown(n, y - 1)
  }

  /** The index of the month that the `k`-th day of the year falls in. */
  function MonthIndexOf(leap: bool, k: int, m: int): (r: int)
    requires 0 <= m <= 11
    ensures 0 <= r <= 11
    decreases 11 - m
  {
    if m == 11 || k < DaysBefore(leap, m + 1) then m else MonthIndexOf(leap, k, m + 1)
  }

  /** Month and day of the `k`-th day of a year. */
  function MonthAndDay(y: int, leap: bool, k: int): Civil {
    var m := MonthIndexOf(leap, k, 0);
    Civil(y, m + 1, k - DaysBefore(leap, m) + 1)
  }

  /** Year, month and day of a day number. */
  function CivilOf(n: int): Civil {
    var y := YearOf(n);
    MonthAndDay(y, IsLeap(y), n - DayFromYear(y))
  }

  /** The day number of a date. */
  function DayOf(c: Civil): int
    requires 1 <= c.month <= 12
  {
    FirstOfMonth(c.year, c.month - 1) + c.day - 1
  }

  /** `Date.UTC(year, month, 0)`: the day before the first of the next month, and its day of the month. */
  function DaysInMonth(year: int, month: int): int {
    CivilOf(MakeDay(year, month, 0)).day
  }

  // ---- The calendar is consistent ----

  /** A year is as long as its months. */
  lemma YearLength(y: int)
    ensures DayFromYear(y + 1) - DayFromYear(y) == YearDays(y) == DaysBefore(IsLeap(y), 12)
  {
    YearIsItsMonths(IsLeap(y));
  }

  lemma YearIsItsMonths(leap: bool)
    ensures DaysBefore(leap, 12) == if leap then 366 else 365
  {
    assert DaysBefore(leap, 2) == 31 + MonthDays(leap, 2);
    assert DaysBefore(leap, 4) == DaysBefore(leap, 2) + 61;
    assert DaysBefore(leap, 6) == DaysBefore(leap, 4) + 61;
    assert DaysBefore(leap, 8) == DaysBefore(leap, 6) + 62;
    assert DaysBefore(leap, 10) == DaysBefore(leap, 8) + 61;
    assert DaysBefore(leap, 12) == DaysBefore(leap, 10) + 61;
  }

  lemma {:induction false} YearsAreOrdered(y: int, z: int)
    requires y < z
    ensures DayFromYear(y + 1) <= DayFromYear(z)
    decreases z - y
  {
    if y + 1 < z {
      YearsAreOrdered(y, z - 1);
      YearLength(z - 1);
    }
  }

  lemma {:induction false} YearUpIsRight(n: int, y: int)
    requires DayFromYear(y) <= n
    ensures DayFromYear(YearUp(n, y)) <= n < DayFromYear(YearUp(n, y) + 1)
    decreases n - DayFromYear(y)
  {
    YearLength(y);
    if n >= DayFromYear(y + 1) {
      YearUpIsRight(n, y + 1);
    }
  }

  lemma {:induction false} YearDownIsRight(n: int, y: int)
    requires n < DayFromYear(y + 1)
    ensures DayFromYear(YearDown(n, y)) <= n < DayFromYear(YearDown(n, y) + 1)
    decreases DayFromYear(y + 1) - n
  {
    YearLength(y);
    if DayFromYear(y) > n {
      YearDownIsRight(n, y - 1);
    }
  }

  /** The year of a day is the one year that holds it. */
  lemma YearOfIsRight(n: int)
    ensures DayFromYear(YearOf(n)) <= n < DayFromYear(YearOf(n) + 1)
  {
    if n >= DayFromYear(1970) {
      YearUpIsRight(n, 1970);
    } else {
      YearDownIsRight(n, 1969);
    }
  }

  lemma YearIsUnique(n: int, y: int)
    requires DayFromYear(y) <= n < DayFromYear(y + 1)
    ensures YearOf(n) == y
  {
    YearOfIsRight(n);
    OneYear(n, y, YearOf(n));
  }

  lemma OneYear(n: int, y: int, z: int)
    requires DayFromYear(y) <= n < DayFromYear(y + 1) && DayFromYear(z) <= n < DayFromYear(z + 1)
    ensures y == z
  {
    if z < y {
      YearsAreOrdered(z, y);
    } else if y < z {
      YearsAreOrdered(y, z);
    }
  }

  lemma {:induction false} MonthsAreOrdered(leap: bool, m: int, k: int)
    requires 0 <= m < k <= 12
    ensures 0 <= DaysBefore(leap, m) && DaysBefore(leap, m + 1) <= DaysBefore(leap, k)
  {
    if m + 1 < k {
      MonthsAreOrdered(leap, m, k - 1);
    } else if m > 0 {
      MonthsAreOrdered(leap, m - 1, m);
    }
  }

  lemma {:induction false} MonthIndexIsRight(leap: bool, k: int, m: int)
    requires 0 <= m <= 11 && DaysBefore(leap, m) <= k < DaysBefore(leap, 12)
    ensures var r := MonthIndexOf(leap, k, m); DaysBefore(leap, r) <= k < DaysBefore(leap, r + 1)
    decreases 11 - m
  {
    if m < 11 && k >= DaysBefore(leap, m + 1) {
      MonthIndexIsRight(leap, k, m + 1);
    }
  }

  /** The `k`-th day of a year has a valid month and day that count back to `k`. */
  lemma MonthAndDayIsRight(y: int, leap: bool, k: int)
    requires 0 <= k < DaysBefore(leap, 12)
    ensures var c := MonthAndDay(y, leap, k);
      && c.year == y && 1 <= c.month <= 12 && 1 <= c.day <= MonthDays(leap, c.month)
      && DaysBefore(leap, c.month - 1) + c.day - 1 == k
  {
    MonthIndexIsRight(leap, k, 0);
  }

  /** Within a year, a day has one month and one day of the month. */
  lemma MonthAndDayIsUnique(c: Civil, leap: bool)
    requires 1 <= c.month <= 12 && 1 <= c.day <= MonthDays(leap, c.month)
    ensures var k := DaysBefore(leap, c.month - 1) + c.day - 1;
      0 <= k < DaysBefore(leap, 12) && MonthAndDay(c.year, leap, k) == c
  {
    MonthsAreOrdered(leap, c.month - 1, 12);
    MonthIndexIsUnique(leap, DaysBefore(leap, c.month - 1) + c.day - 1, c.month - 1);
  }

  lemma MonthIndexIsUnique(leap: bool, k: int, m: int)
    requires 0 <= m <= 11 && 0 <= k < DaysBefore(leap, 12) && DaysBefore(leap, m) <= k < DaysBefore(leap, m + 1)
    ensures MonthIndexOf(leap, k, 0) == m
  {
    MonthIndexIsRight(leap, k, 0);
    var r := MonthIndexOf(leap, k, 0);
    if r < m {
      MonthsAreOrdered(leap, r, m);
    } else if m < r {
      MonthsAreOrdered(leap, m, r);
    }
  }

  /** The date of the `k`-th day of a year. */
  lemma CivilInYear(n: int, y: int, k: int)
    requires n == DayFromYear(y) + k && 0 <= k < DaysBefore(IsLeap(y), 12)
    ensures YearOf(n) == y && CivilOf(n) == MonthAndDay(y, IsLeap(y), k)
  {
    YearLength(y);
    YearIsUnique(n, y);
  }

  /** Every day has a valid date that leads back to it. */
  lemma DayOfCivilOf(n: int)
    ensures ValidDate(CivilOf(n)) && DayOf(CivilOf(n)) == n
  {
    YearOfIsRight(n);
    DateInYear(YearOf(n), n - DayFromYear(YearOf(n)));
  }

  lemma DateInYear(y: int, k: int)
    requires 0 <= k < DayFromYear(y + 1) - DayFromYear(y)
    ensures var c := MonthAndDay(y, IsLeap(y), k); ValidDate(c) && DayOf(c) == DayFromYear(y) + k
  {
    YearLength(y);
    MonthAndDayIsRight(y, IsLeap(y), k);
  }

  /** Every valid date is the date of its day: no two valid dates share one. */
  lemma CivilOfDayOf(c: Civil)
    requires ValidDate(c)
    ensures CivilOf(DayOf(c)) == c
  {
    var k := DaysBefore(IsLeap(c.year), c.month - 1) + c.day - 1;
    MonthAndDayIsUnique(c, IsLeap(c.year));
    CivilInYear(DayOf(c), c.year, k);
  }

  lemma Step4(y: int)
    ensures (y + 1 - 1969) / 4 - (y - 1969) / 4 == if y % 4 == 0 then 1 else 0
  {
  }

  lemma Step100(y: int)
    ensures (y + 1 - 1901) / 100 - (y - 1901) / 100 == if y % 100 == 0 then 1 else 0
  {
  }

  lemma Step400(y: int)
    ensures (y + 1 - 1601) / 400 - (y - 1601) / 400 == if y % 400 == 0 then 1 else 0
  {
  }

  lemma Hundreds(y: int)
    ensures y % 100 == 0 ==> y % 4 == 0
  {
    assert y == 100 * (y / 100) + y % 100;
    assert 100 * (y / 100) == 4 * (25 * (y / 100));
  }

  lemma FourHundreds(y: int)
    ensures y % 400 == 0 ==> y % 100 == 0
  {
    assert y == 400 * (y / 400) + y % 400;
    assert 400 * (y / 400) == 100 * (4 * (y / 400));
  }

  lemma FormulaStep(y: int)
    ensures DayFromYearFormula(y + 1) - DayFromYearFormula(y) == YearDays(y)
  {
    Step4(y);
    Step100(y);
    Step400(y);
    Hundreds(y);
    FourHundreds(y);
  }

  /** Counting year by year gives the closed form, before and after 1970. */
  lemma {:induction false} DayFromYearIsFormula(y: int)
    ensures DayFromYear(y) == DayFromYearFormula(y)
    decreases if y >= 1970 then y - 1970 else 1970 - y
  {
    if y > 1970 {
      DayFromYearIsFormula(y - 1);
      FormulaStep(y - 1);
    } else if y < 1970 {
      DayFromYearIsFormula(y + 1);
      FormulaStep(y);
    }
  }

  /** The first days of consecutive months are a month length apart, also over the turn of the year. */
  lemma NextMonth(y: int, m: int)
    requires 0 <= m <= 11
    ensures FirstOfMonth(y, m + 1) - FirstOfMonth(y, m) == MonthLength(y, m + 1)
    ensures FirstOfMonth(y, 12) == FirstOfMonth(y + 1, 0)
  {
    YearLength(y);
  }

  /** The month-length helper gives the length of the month, for any month from 1 to 12. */
  lemma DaysInMonthIsLength(year: int, month: int)
    requires 1 <= month <= 12
    ensures DaysInMonth(year, month) == MonthLength(year, month)
  {
    NextMonth(year, month - 1);
    var last := Civil(year, month, MonthLength(year, month));
    assert MakeDay(year, month, 0) == DayOf(last);
    CivilOfDayOf(last);
  }
}
