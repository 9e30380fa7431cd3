/** Reporting periods around an anchor day, and the comparison period of a report to date. */
module AnalyticsRange {
  import opened CivilCalendar

  /** Full periods as day numbers, the end exclusive; the previous period ends where this one starts. */
  datatype DayRange = DayRange(start: int, end: int, previousStart: int)

  /** Sunday is 0; 1 January 1970 was a Thursday. */
  function Weekday(n: int): int { (n + 4) % 7 }

  function MonthKey(year: int, monthIndex: int): int { MakeDay(year, monthIndex, 1) }

  /** Any name but the other three stands for the daily default. */
  datatype Period = Daily | Weekly | Monthly | Yearly

  function WeekRange(anchor: int): DayRange {
    var daysSinceMonday := (Weekday(anchor) + 6) % 7;
    var weekStart := anchor - daysSinceMonday;
    DayRange(weekStart, weekStart + 7, weekStart - 7)
  }

  function MonthRange(year: int, month: int): DayRange {
    DayRange(MonthKey(year, month - 1), MonthKey(year, month), MonthKey(year, month - 2))
  }

  function YearRange(year: int): DayRange {
    DayRange(MonthKey(year, 0), MonthKey(year + 1, 0), MonthKey(year - 1, 0))
  }

  function RangeOf(period: Period, anchor: int): DayRange {
    match period
    case Daily => DayRange(anchor, anchor + 1, anchor - 1)
    case Weekly => WeekRange(anchor)
    case Monthly => var c := CivilOf(anchor); MonthRange(c.year, c.month)
    case Yearly => YearRange(CivilOf(anchor).year)
  }

  // ---- Months and years as ranges of days ----

  /** A day lies between the first of its month and the first of the next. */
  lemma MonthHolds(n: int)
    ensures var c := CivilOf(n);
      ValidDate(c) && FirstOfMonth(c.year, c.month - 1) <= n < FirstOfMonth(c.year, c.month) && n == DayOf(c)
  {
    DayOfCivilOf(n);
    NextMonth(CivilOf(n).year, CivilOf(n).month - 1);
  }

  /** The days from the first of a month on have dates in that month. */
  lemma HoldsMonth(y: int, m: int, k: int)
    requires 1 <= m <= 12 && FirstOfMonth(y, m - 1) <= k < FirstOfMonth(y, m)
    ensures CivilOf(k) == Civil(y, m, k - FirstOfMonth(y, m - 1) + 1)
  {
    NextMonth(y, m - 1);
    DateOfDay(Civil(y, m, k - FirstOfMonth(y, m - 1) + 1), k);
  }

  lemma DateOfDay(c: Civil, k: int)
    requires ValidDate(c) && k == DayOf(c)
    ensures CivilOf(k) == c
  {
    CivilOfDayOf(c);
  }

  /** The month before, in the same year or the one before. */
  function MonthBefore(y: int, m: int): Civil { if m == 1 then Civil(y - 1, 12, 1) else Civil(y, m - 1, 1) }

  /** What the month keys around a month are, whether or not their index overflows. */
  lemma MonthKeys(y: int, m: int)
    requires 1 <= m <= 12
    ensures var r, p := MonthRange(y, m), MonthBefore(y, m);
      && r.start == FirstOfMonth(y, m - 1) && r.end == FirstOfMonth(y, m)
      && r.previousStart == FirstOfMonth(p.year, p.month - 1) && r.start == FirstOfMonth(p.year, p.month)
  {
    if m == 12 {
      DecemberTurns(y);
    } else if m == 1 {
      DecemberTurns(y - 1);
      assert MakeDay(y, -1, 1) == MakeDay(y - 1, 11, 1);
    }
  }

  lemma DecemberTurns(y: int)
    ensures FirstOfMonth(y, 12) == FirstOfMonth(y + 1, 0)
  {
    NextMonth(y, 11);
  }

  lemma YearHolds(n: int)
    ensures var y := CivilOf(n).year; FirstOfMonth(y, 0) <= n < FirstOfMonth(y + 1, 0)
  {
    YearOfIsRight(n);
  }

  lemma HoldsYear(y: int, k: int)
    requires FirstOfMonth(y, 0) <= k < FirstOfMonth(y + 1, 0)
    ensures CivilOf(k).year == y
  {
    YearIsUnique(k, y);
  }

  lemma WeekOf(n: int, k: int)
    requires var start := n - (Weekday(n) + 6) % 7; start <= k < start + 7
    ensures k - (Weekday(k) + 6) % 7 == n - (Weekday(n) + 6) % 7
    ensures Weekday(n - (Weekday(n) + 6) % 7) == 1
  {
    MondayOffset(n);
    MondayOffset(k);
    var a, b := n + 3, k + 3;
    assert a == 7 * (a / 7) + a % 7 && b == 7 * (b / 7) + b % 7;
  }

  /** Days since Monday: 1 January 1970 is three days after one. */
  lemma MondayOffset(n: int)
    ensures (Weekday(n) + 6) % 7 == (n + 3) % 7
  {
    var q := (n + 4) / 7;
    assert n + 4 == 7 * q + Weekday(n);
  }

  // ---- The ranges partition the days ----

  /** Every day is in its own range. */
  lemma OwnRange(period: Period, n: int)
    ensures var r := RangeOf(period, n); r.start <= n < r.end
  {
    match period
    case Daily =>
    case Weekly =>
    case Monthly =>
      MonthHolds(n);
      MonthKeys(CivilOf(n).year, CivilOf(n).month);
    case Yearly =>
      YearHolds(n);
  }

  /** A day of a range has that very range: two ranges are equal or disjoint. */
  lemma SameRange(period: Period, n: int, k: int)
    requires var r := RangeOf(period, n); r.start <= k < r.end
    ensures RangeOf(period, k) == RangeOf(period, n)
  {
    match period
    case Daily =>
    case Weekly =>
      WeekOf(n, k);
    case Monthly =>
      MonthHolds(n);
      MonthKeys(CivilOf(n).year, CivilOf(n).month);
      HoldsMonth(CivilOf(n).year, CivilOf(n).month, k);
    case Yearly =>
      HoldsYear(CivilOf(n).year, k);
  }

  /** A week starts on a Monday. */
  lemma WeekStartsOnMonday(n: int)
    ensures Weekday(WeekRange(n).start) == 1
  {
    WeekOf(n, n);
  }

  /** The range of the day before a range starts where the previous range does and ends where the range starts. */
  ghost predicate MeetsPrevious(period: Period, n: int) {
    var r, p := RangeOf(period, n), RangeOf(period, RangeOf(period, n).start - 1);
    p.start == r.previousStart && p.end == r.start
  }

  /** The previous range is the range of the day before, and it ends where the current one starts. */
  lemma PreviousIsRange(period: Period, n: int)
    ensures MeetsPrevious(period, n)
  {
    match period
    case Daily =>
    case Weekly =>
      PreviousWeek(n);
    case Monthly =>
      BeforeMonth(n);
    case Yearly =>
      BeforeYear(n);
  }

  lemma BeforeMonth(n: int)
    ensures MeetsPrevious(Monthly, n)
  {
    var c := CivilOf(n);
    DateIsValid(n);
    MonthlyRange(n, c.year, c.month);
    var p := MonthBefore(c.year, c.month);
    DayBeforeMonth(c.year, c.month);
    MonthlyRange(MonthRange(c.year, c.month).start - 1, p.year, p.month);
    PreviousIsMonth(c.year, c.month);
  }

  lemma MonthlyRange(k: int, y: int, m: int)
    requires CivilOf(k).year == y && CivilOf(k).month == m
    ensures RangeOf(Monthly, k) == MonthRange(y, m)
  {
  }

  lemma DayBeforeMonth(y: int, m: int)
    requires 1 <= m <= 12
    ensures var c, p := CivilOf(MonthRange(y, m).start - 1), MonthBefore(y, m); c.year == p.year && c.month == p.month
  {
    PreviousMonth(y, m);
  }

  lemma BeforeYear(n: int)
    ensures MeetsPrevious(Yearly, n)
  {
    var y := CivilOf(n).year;
    YearlyRange(n, y);
    PreviousYear(y, YearRange(y).start);
    YearlyRange(YearRange(y).start - 1, y - 1);
    YearsMeet(y);
  }

  lemma YearlyRange(k: int, y: int)
    requires CivilOf(k).year == y
    ensures RangeOf(Yearly, k) == YearRange(y)
  {
  }

  lemma YearsMeet(y: int)
    ensures YearRange(y - 1).start == YearRange(y).previousStart && YearRange(y - 1).end == YearRange(y).start
  {
  }

  lemma PreviousWeek(n: int)
    ensures var r := WeekRange(n); WeekRange(r.start - 1).start == r.previousStart
  {
    var start := WeekRange(n).start;
    MondayOffset(n);
    MondayOffset(start - 1);
    var a := n + 3;
    assert a == 7 * (a / 7) + a % 7;
  }

  /** The range before a month is the range of the month before. */
  lemma PreviousIsMonth(y: int, m: int)
    requires 1 <= m <= 12
    ensures var r, p := MonthRange(y, m), MonthBefore(y, m);
      MonthRange(p.year, p.month).start == r.previousStart && MonthRange(p.year, p.month).end == r.start
  {
    MonthKeys(y, m);
    var p := MonthBefore(y, m);
    MonthKeys(p.year, p.month);
  }

  /** The day before a month is the last of the month before. */
  lemma PreviousMonth(y: int, m: int)
    requires 1 <= m <= 12
    ensures var r, p := MonthRange(y, m), MonthBefore(y, m);
      && CivilOf(r.start - 1) == Civil(p.year, p.month, MonthLength(p.year, p.month))
      && CivilOf(r.previousStart) == p
      && r.start - r.previousStart == MonthLength(p.year, p.month)
  {
    var r, p := MonthRange(y, m), MonthBefore(y, m);
    PreviousBounds(y, m);
    LastOfMonth(p.year, p.month, r.previousStart, r.start);
  }

  lemma PreviousBounds(y: int, m: int)
    requires 1 <= m <= 12
    ensures var r, p := MonthRange(y, m), MonthBefore(y, m);
      && 1 <= p.month <= 12
      && r.previousStart == FirstOfMonth(p.year, p.month - 1) && r.start == FirstOfMonth(p.year, p.month)
  {
    MonthKeys(y, m);
  }

  lemma DateIsValid(n: int)
    ensures ValidDate(CivilOf(n))
  {
    DayOfCivilOf(n);
  }

  lemma LastOfMonth(y: int, m: int, first: int, next: int)
    requires 1 <= m <= 12 && first == FirstOfMonth(y, m - 1) && next == FirstOfMonth(y, m)
    ensures next - first == MonthLength(y, m)
    ensures CivilOf(next - 1) == Civil(y, m, MonthLength(y, m)) && CivilOf(first) == Civil(y, m, 1)
  {
    NextMonth(y, m - 1);
    HoldsMonth(y, m, next - 1);
    HoldsMonth(y, m, first);
  }

  lemma PreviousYear(y: int, start: int)
    requires start == YearRange(y).start
    ensures CivilOf(start - 1).year == y - 1
  {
    YearLength(y - 1);
    HoldsYear(y - 1, start - 1);
  }

  // ---- The comparison of a report to date ----

  function Min(a: int, b: int): int { if a <= b then a else b }

  function MonthlyComparisonDay(c: Civil): int
    requires 1 <= c.month <= 12
  {
    var p := CivilOf(MakeDay(c.year, c.month - 2, 1));
    MakeDay(p.year, p.month - 1, Min(c.day, DaysInMonth(p.year, p.month)))
  }

  function YearlyComparisonDay(c: Civil): int
    requires 1 <= c.month <= 12
  {
    MakeDay(c.year - 1, c.month - 1, Min(c.day, DaysInMonth(c.year - 1, c.month)))
  }

  /** The day that a partial period is compared up to. */
  function ComparisonDay(period: Period, anchor: int): int {
    match period
    case Daily => anchor - 1
    case Weekly => anchor - 7
    case Monthly => MonthlyComparisonDay(CivilOf(anchor))
    case Yearly => YearlyComparisonDay(CivilOf(anchor))
  }

  /** The previous month is too short for the anchor's day. */
  predicate ClipsAtPreviousMonthEnd(period: Period, anchor: int) {
    var c := CivilOf(anchor);
    var p := CivilOf(MakeDay(c.year, c.month - 2, 1));
    period.Monthly? && c.day > DaysInMonth(p.year, p.month)
  }

  /** The comparison day is in the previous range. */
  lemma ComparisonStaysInPrevious(period: Period, n: int)
    ensures var r := RangeOf(period, n); r.previousStart <= ComparisonDay(period, n) < r.start
  {
    match period
    case Daily =>
    case Weekly =>
      OwnRange(period, n);
    case Monthly =>
      MonthHolds(n);
      MonthlyComparison(CivilOf(n));
    case Yearly =>
      DayOfCivilOf(n);
      YearlyComparison(CivilOf(n));
  }

  /** Monthly: the same day of the previous month, or its last day when that month is shorter. */
  lemma MonthlyComparison(c: Civil)
    requires ValidDate(c)
    ensures var r, k, p := MonthRange(c.year, c.month), MonthlyComparisonDay(c), MonthBefore(c.year, c.month);
      && r.previousStart <= k < r.start
      && k == r.previousStart + Min(c.day, r.start - r.previousStart) - 1
  {
    PreviousLength(c.year, c.month);
    var p := MonthBefore(c.year, c.month);
    MonthlyComparisonDayIs(c, p);
  }

  lemma PreviousLength(y: int, m: int)
    requires 1 <= m <= 12
    ensures var r, p := MonthRange(y, m), MonthBefore(y, m);
      CivilOf(r.previousStart) == p && DaysInMonth(p.year, p.month) == r.start - r.previousStart >= 28
  {
    PreviousMonth(y, m);
    DaysInMonthIsLength(MonthBefore(y, m).year, MonthBefore(y, m).month);
  }

  lemma MonthlyComparisonDayIs(c: Civil, p: Civil)
    requires ValidDate(c) && p == MonthBefore(c.year, c.month)
    requires CivilOf(MonthRange(c.year, c.month).previousStart) == p
    ensures MonthlyComparisonDay(c)
         == MonthRange(c.year, c.month).previousStart + Min(c.day, DaysInMonth(p.year, p.month)) - 1
  {
    PreviousStart(c.year, c.month, Min(c.day, DaysInMonth(p.year, p.month)));
  }

  lemma PreviousStart(y: int, m: int, day: int)
    requires 1 <= m <= 12
    ensures var p := MonthBefore(y, m); MakeDay(p.year, p.month - 1, day) == MonthRange(y, m).previousStart + day - 1
  {
    MonthKeys(y, m);
  }

  /**
   * Monthly, against the anchor: without clipping the comparison sits at the same offset in its month; it
   * clips exactly when the day does not exist there, and then the whole previous month is compared.
   */
  lemma MonthlyComparisonKeepsPosition(n: int)
    ensures var r, k := RangeOf(Monthly, n), ComparisonDay(Monthly, n);
      && (ClipsAtPreviousMonthEnd(Monthly, n) <==> n - r.start >= r.start - r.previousStart)
      && (ClipsAtPreviousMonthEnd(Monthly, n) ==> k == r.start - 1)
      && (!ClipsAtPreviousMonthEnd(Monthly, n) ==> k - r.previousStart == n - r.start)
  {
    var c := CivilOf(n);
    MonthHolds(n);
    MonthKeys(c.year, c.month);
    PreviousLength(c.year, c.month);
    MonthlyComparison(c);
  }

  /** Yearly: the same date a year before, but 28 February for 29 February. */
  lemma YearlyComparison(c: Civil)
    requires ValidDate(c)
    ensures var r, k := YearRange(c.year), YearlyComparisonDay(c);
      && r.previousStart <= k < r.start
      && CivilOf(k) == Civil(c.year - 1, c.month, if c.month == 2 && c.day == 29 then 28 else c.day)
  {
    var d := Civil(c.year - 1, c.month, if c.month == 2 && c.day == 29 then 28 else c.day);
    SameDateAYearBefore(c);
    DateInYear(d);
  }

  lemma SameDateAYearBefore(c: Civil)
    requires ValidDate(c)
    ensures var d := Civil(c.year - 1, c.month, if c.month == 2 && c.day == 29 then 28 else c.day);
      ValidDate(d) && YearlyComparisonDay(c) == DayOf(d)
  {
    DaysInMonthIsLength(c.year - 1, c.month);
    LeapYearsApart(c.year);
  }

  lemma DateInYear(d: Civil)
    requires ValidDate(d)
    ensures CivilOf(DayOf(d)) == d && FirstOfMonth(d.year, 0) <= DayOf(d) < FirstOfMonth(d.year + 1, 0)
  {
    CivilOfDayOf(d);
    YearHolds(DayOf(d));
  }

  lemma LeapYearsApart(y: int)
    ensures !(IsLeap(y) && IsLeap(y - 1))
  {
  }

  // ---- Instants ----

  const DAY_MS := 86_400_000

  /** Local day and millisecond of the day to UTC. */
  type Zone = (int, int) -> int

  /** Every local time of the day falls between its start and the start of the next day. */
  ghost predicate KeepsDay(zone: Zone, d: int) {
    forall t: int :: 0 <= t < DAY_MS ==> zone(d, 0) <= zone(d, t) < zone(d + 1, 0)
  }

  ghost predicate KeepsDays(zone: Zone) {
    forall d: int :: KeepsDay(zone, d)
  }

  ghost predicate MidnightsInOrder(zone: Zone) {
    forall d: int :: zone(d, 0) <= zone(d + 1, 0)
  }

  /** `zonedTimeToUtc`: local time is taken for UTC to guess the offset, and the offset found there is applied. */
  function ZonedTimeToUtc(offset: int -> int, local: int): int {
    local - offset(local - offset(local))
  }

  /** `localDateTimeToUtc`: the milliseconds are put back after the conversion. */
  function LocalToUtc(offset: int -> int): Zone {
    (d: int, t: int) => ZonedTimeToUtc(offset, d * DAY_MS + t - t % 1000) + t % 1000
  }

  /** Around the day, the offset changes from `before` to `after` at the instant `change` and nowhere else. */
  ghost predicate ChangesOnce(offset: int -> int, d: int, before: int, after: int, change: int) {
    && before % 1000 == after % 1000 == change % 1000 == 0
    && -DAY_MS <= before <= DAY_MS && -DAY_MS <= after <= DAY_MS
    && forall u: int :: (d - 1) * DAY_MS <= u <= (d + 3) * DAY_MS ==> offset(u) == if u < change then before else after
  }

  /** The local time from which the conversion applies the later offset. West of UTC it is the time at which the
      clocks change, east of UTC the time they then show. */
  function SwitchTime(before: int, after: int, change: int): int {
    if before < 0 then change + before else if after > 0 then change + after else change
  }

  lemma ConversionSwitches(offset: int -> int, d: int, before: int, after: int, change: int, local: int)
    requires ChangesOnce(offset, d, before, after, change) && !(before < 0 < after)
    requires d * DAY_MS <= local <= (d + 1) * DAY_MS
    ensures ZonedTimeToUtc(offset, local) == local - if local < SwitchTime(before, after, change) then before else after
  {
    var first := if local < change then before else after;
    assert offset(local) == first;
    assert offset(local - first) == if local - first < change then before else after;
  }

  lemma LocalTimeSwitches(offset: int -> int, d: int, before: int, after: int, change: int, t: int)
    requires ChangesOnce(offset, d, before, after, change) && !(before < 0 < after)
    requires 0 <= t <= DAY_MS
    ensures LocalToUtc(offset)(d, t)
         == d * DAY_MS + t - if d * DAY_MS + t < SwitchTime(before, after, change) then before else after
  {
    var switch := SwitchTime(before, after, change);
    SwitchIsWholeSecond(before, after, change);
    WholeSeconds(d, t, switch);
    ConversionSwitches(offset, d, before, after, change, d * DAY_MS + t - t % 1000);
  }

  lemma SwitchIsWholeSecond(before: int, after: int, change: int)
    requires before % 1000 == after % 1000 == change % 1000 == 0
    ensures SwitchTime(before, after, change) % 1000 == 0
  {
  }

  lemma WholeSeconds(d: int, t: nat, switch: int)
    requires switch % 1000 == 0 && t <= DAY_MS
    ensures d * DAY_MS + t - t % 1000 < switch <==> d * DAY_MS + t < switch
    ensures 0 <= t - t % 1000 <= DAY_MS
  {
    var day, second := d * 86_400, t / 1000;
    assert t == 1000 * second + t % 1000 && switch == 1000 * (switch / 1000);
    assert d * DAY_MS == 1000 * day;
  }

  /** The conversion keeps the local times of a day within it exactly when the clocks do not go forward further than
      the switch is from either midnight of the day. They do where they go forward at midnight west of UTC: the last
      hour of the day before then falls after its end. Midnights are out of order only where a day is skipped. */
  lemma DayIsKeptIff(offset: int -> int, d: int, before: int, after: int, change: int)
    requires ChangesOnce(offset, d, before, after, change) && !(before < 0 < after)
    ensures var switch := SwitchTime(before, after, change);
      KeepsDay(LocalToUtc(offset), d) <==>
        (d * DAY_MS < switch <= (d + 1) * DAY_MS ==>
          after - before <= switch - d * DAY_MS && after - before <= (d + 1) * DAY_MS - switch)
    ensures var switch := SwitchTime(before, after, change);
      LocalToUtc(offset)(d, 0) <= LocalToUtc(offset)(d + 1, 0) <==>
        (d * DAY_MS < switch <= (d + 1) * DAY_MS ==> after - before <= DAY_MS)
  {
    var zone, switch := LocalToUtc(offset), SwitchTime(before, after, change);
    LocalTimeSwitches(offset, d, before, after, change, 0);
    LocalTimeSwitches(offset, d, before, after, change, DAY_MS);
    assert zone(d, DAY_MS) == zone(d + 1, 0);
    forall t: int | 0 <= t < DAY_MS
      ensures zone(d, t) == d * DAY_MS + t - if d * DAY_MS + t < switch then before else after
    {
      LocalTimeSwitches(offset, d, before, after, change, t);
    }
    if d * DAY_MS < switch <= (d + 1) * DAY_MS {
      var last := switch - 1 - d * DAY_MS;
      assert zone(d, last) == switch - 1 - before;
      if switch < (d + 1) * DAY_MS {
        assert zone(d, last + 1) == switch - after;
      }
    }
  }

  lemma {:induction false} DaysAreOrdered(zone: Zone, d: int, e: int)
    requires MidnightsInOrder(zone) && d <= e
    ensures zone(d, 0) <= zone(e, 0)
    decreases e - d
  {
    if d < e {
      DaysAreOrdered(zone, d, e - 1);
      assert zone(e - 1, 0) <= zone(e - 1 + 1, 0);
    }
  }

  datatype Range = Range(start: int, end: int, previousStart: int, previousEnd: int)

  function DateRange(zone: Zone, period: Period, anchor: int): Range {
    var r := RangeOf(period, anchor);
    Range(zone(r.start, 0), zone(r.end, 0), zone(r.previousStart, 0), zone(r.start, 0))
  }

  /** `now` falls on local day `day` at `clock` milliseconds. */
  function ToDateRange(zone: Zone, period: Period, now: int, day: int, clock: int): Range {
    var full := DateRange(zone, period, day);
    Range(full.start, now, full.previousStart,
          if ClipsAtPreviousMonthEnd(period, day) then full.previousEnd else zone(ComparisonDay(period, day), clock))
  }

  /** Every local time of a day is an instant of the day's range, and every one of the day before the range an instant
      of the previous range. */
  lemma InstantInOwnRange(zone: Zone, period: Period, n: int, t: int)
    requires KeepsDays(zone) && 0 <= t < DAY_MS
    ensures var r := DateRange(zone, period, n); r.start <= zone(n, t) < r.end
    ensures var r, k := DateRange(zone, period, n), RangeOf(period, n).start - 1;
      r.previousStart <= zone(k, t) < r.previousEnd == r.start
  {
    OwnRange(period, n);
    PreviousHolds(period, n);
    InstantWithin(zone, RangeOf(period, n), n, t);
  }

  lemma PreviousHolds(period: Period, n: int)
    ensures RangeOf(period, n).previousStart <= RangeOf(period, n).start - 1
  {
    PreviousIsRange(period, n);
    OwnRange(period, RangeOf(period, n).start - 1);
  }

  lemma InstantWithin(zone: Zone, r: DayRange, n: int, t: int)
    requires KeepsDays(zone) && 0 <= t < DAY_MS && r.start <= n < r.end && r.previousStart <= r.start - 1
    ensures zone(r.start, 0) <= zone(n, t) < zone(r.end, 0)
    ensures zone(r.previousStart, 0) <= zone(r.start - 1, t) < zone(r.start, 0)
  {
    var k := r.start - 1;
    assert KeepsDay(zone, n) && KeepsDay(zone, k) && k + 1 == r.start;
    KeptDaysAreInOrder(zone);
    DaysAreOrdered(zone, r.start, n);
    DaysAreOrdered(zone, n + 1, r.end);
    DaysAreOrdered(zone, r.previousStart, k);
  }

  lemma KeptDaysAreInOrder(zone: Zone)
    requires KeepsDays(zone)
    ensures MidnightsInOrder(zone)
  {
    forall d: int
      ensures zone(d, 0) <= zone(d + 1, 0)
    {
      assert KeepsDay(zone, d);
    }
  }

  /** As intervals of instants, the ranges of two days are equal or do not overlap. */
  lemma InstantRangesPartition(zone: Zone, period: Period, n: int, k: int)
    requires MidnightsInOrder(zone)
    ensures var a, b := DateRange(zone, period, n), DateRange(zone, period, k);
      a == b || a.end <= b.start || b.end <= a.start
  {
    var r, q := RangeOf(period, n), RangeOf(period, k);
    OwnRange(period, n);
    OwnRange(period, k);
    if r.start <= q.start < r.end {
      SameRange(period, n, q.start);
      SameRange(period, k, q.start);
    } else if q.start <= r.start < q.end {
      SameRange(period, n, r.start);
      SameRange(period, k, r.start);
    } else if r.end <= q.start {
      DaysAreOrdered(zone, r.end, q.start);
    } else {
      DaysAreOrdered(zone, q.end, r.start);
    }
  }

  /** The period runs from the start of the current range to now; the comparison period starts with the previous range
      and ends within it: at its very end when it is clipped, and before otherwise. */
  predicate StaysInPrevious(zone: Zone, period: Period, now: int, day: int, clock: int) {
    var full, r := DateRange(zone, period, day), ToDateRange(zone, period, now, day, clock);
    && r.start == full.start && r.end == now
    && r.previousStart == full.previousStart <= r.previousEnd
    && if ClipsAtPreviousMonthEnd(period, day) then r.previousEnd == full.previousEnd
       else r.previousEnd < full.previousEnd
  }

  /** In a zone, the comparison stays within the previous range for every period, anchor and time of day exactly when
      the zone keeps local times within their day. */
  lemma ComparisonNeverLeavesPreviousIff(zone: Zone)
    ensures (forall period, now, day, clock :: 0 <= clock < DAY_MS ==> StaysInPrevious(zone, period, now, day, clock))
        <==> KeepsDays(zone)
  {
    if KeepsDays(zone) {
      forall period, now, day, clock | 0 <= clock < DAY_MS
        ensures StaysInPrevious(zone, period, now, day, clock)
      {
        ComparisonStays(zone, period, now, day, clock);
      }
    }
    if forall period, now, day, clock :: 0 <= clock < DAY_MS ==> StaysInPrevious(zone, period, now, day, clock) {
      forall d: int, t: int | 0 <= t < DAY_MS
        ensures zone(d, 0) <= zone(d, t) < zone(d + 1, 0)
      {
        assert StaysInPrevious(zone, Daily, 0, d + 1, t);
      }
      assert forall d :: KeepsDay(zone, d);
    }
  }

  lemma ComparisonStays(zone: Zone, period: Period, now: int, day: int, clock: int)
    requires KeepsDays(zone) && 0 <= clock < DAY_MS
    ensures StaysInPrevious(zone, period, now, day, clock)
  {
    ComparisonStaysInPrevious(period, day);
    DayStaysWithin(zone, RangeOf(period, day), ComparisonDay(period, day), clock);
  }

  lemma DayStaysWithin(zone: Zone, r: DayRange, k: int, clock: int)
    requires KeepsDays(zone) && r.previousStart <= k < r.start && 0 <= clock < DAY_MS
    ensures zone(r.previousStart, 0) <= zone(k, clock) < zone(r.start, 0)
  {
    assert KeepsDay(zone, k);
    KeptDaysAreInOrder(zone);
    DaysAreOrdered(zone, r.previousStart, k);
    DaysAreOrdered(zone, k + 1, r.start);
  }
}
