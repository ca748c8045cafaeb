/**
 * Local calendar dates as (year, month, day) triples in the proleptic
 * Gregorian calendar, the way JavaScript's Date reports them through
 * getFullYear(), getMonth() + 1 and getDate(). Months are 1-based here;
 * the application's `new Date(y, m, d)` calls use 0-based months.
 */
module Dates {

  datatype CivilDate = CivilDate(year: int, month: int, day: int)

  predicate IsLeapYear(y: int) {
    y % 4 == 0 && (y % 100 != 0 || y % 400 == 0)
  }

  function YearLength(y: int): int {
    if IsLeapYear(y) then 366 else 365
  }

  function DaysInMonth(y: int, m: int): (n: int)
    requires 1 <= m <= 12
    ensures 28 <= n <= 31
    ensures n == 29 <==> m == 2 && IsLeapYear(y)
  {
    if m == 2 then (if IsLeapYear(y) then 29 else 28)
    else if m == 4 || m == 6 || m == 9 || m == 11 then 30
    else 31
  }

  predicate IsValid(d: CivilDate) {
    1 <= d.month <= 12 && 1 <= d.day <= DaysInMonth(d.year, d.month)
  }

  /** A day that exists: a JavaScript Date always denotes one (it normalises out-of-range fields). */
  type Date = d: CivilDate | IsValid(d) witness CivilDate(1970, 1, 1)

  /** Days from 0001-01-01 to January 1st of year `y`. */
  function DaysBeforeYear(y: int): int {
    365 * (y - 1) + (y - 1) / 4 - (y - 1) / 100 + (y - 1) / 400
  }

  /** Days from January 1st of year `y` to the first of month `m`. */
  function DaysBeforeMonth(y: int, m: int): int
    requires 1 <= m <= 12
  {
    [0, 31, 59, 90, 120, 151, 181, 212, 243, 273, 304, 334][m - 1]
    + (if IsLeapYear(y) && m > 2 then 1 else 0)
  }

  /** Day number of `d` counted from 1970-01-01, the day JavaScript's Date.UTC maps to 0. */
  function EpochDay(d: Date): int {
    DaysBeforeYear(d.year) + DaysBeforeMonth(d.year, d.month) + d.day - 1 - 719162
  }

  /** Day of the week as Date.getDay() gives it: 0 is Sunday, 1970-01-01 was a Thursday. */
  function Weekday(d: Date): (w: int)
    ensures 0 <= w < 7
  {
    (EpochDay(d) + 4) % 7
  }

  function FirstOfMonth(y: int, m: int): Date
    requires 1 <= m <= 12
  {
    CivilDate(y, m, 1)
  }

  function LastOfMonth(y: int, m: int): Date
    requires 1 <= m <= 12
  {
    CivilDate(y, m, DaysInMonth(y, m))
  }

  /** The calendar day after `d`, rolling over month and year ends. */
  function NextDay(d: Date): Date {
    if d.day < DaysInMonth(d.year, d.month) then CivilDate(d.year, d.month, d.day + 1)
    else if d.month < 12 then CivilDate(d.year, d.month + 1, 1)
    else CivilDate(d.year + 1, 1, 1)
  }

  /** `d` moved forward by `n` days. */
  function AddDays(d: Date, n: nat): Date
    decreases n
  {
    if n == 0 then d else AddDays(NextDay(d), n - 1)
  }

  /** Day 1 of the month before `d`'s: `new Date(y, m - 1, 1)`, wrapping January to December. */
  function PreviousMonthStart(d: Date): (r: Date)
    ensures r.day == 1
  {
    if d.month == 1 then CivilDate(d.year - 1, 12, 1) else CivilDate(d.year, d.month - 1, 1)
  }

  /** Day 1 of the month after `d`'s: `new Date(y, m + 1, 1)`, wrapping December to January. */
  function NextMonthStart(d: Date): (r: Date)
    ensures r.day == 1
  {
    if d.month == 12 then CivilDate(d.year + 1, 1, 1) else CivilDate(d.year, d.month + 1, 1)
  }

  /** Strict chronological order on triples. */
  predicate Before(a: CivilDate, b: CivilDate) {
    a.year < b.year
    || (a.year == b.year && a.month < b.month)
    || (a.year == b.year && a.month == b.month && a.day < b.day)
  }

  // ---------------------------------------------------------------------------
  // Day-number arithmetic

  lemma FloorSteps(x: int)
    ensures x / 4 - (x - 1) / 4 == if x % 4 == 0 then 1 else 0
    ensures x / 100 - (x - 1) / 100 == if x % 100 == 0 then 1 else 0
    ensures x / 400 - (x - 1) / 400 == if x % 400 == 0 then 1 else 0
  {
  }

  /** Consecutive years are YearLength apart in the day numbering. */
  lemma YearStep(y: int)
    ensures DaysBeforeYear(y + 1) == DaysBeforeYear(y) + YearLength(y)
  {
    FloorSteps(y);
  }

  lemma MonthStep(y: int, m: int)
    requires 1 <= m < 12
    ensures DaysBeforeMonth(y, m + 1) == DaysBeforeMonth(y, m) + DaysInMonth(y, m)
  {
  }

  lemma YearEnd(y: int)
    ensures DaysBeforeMonth(y, 12) + DaysInMonth(y, 12) == YearLength(y)
  {
  }

  /** NextDay is exactly one day later. */
  lemma {:induction false} NextDayIsNextEpochDay(d: Date)
    ensures EpochDay(NextDay(d)) == EpochDay(d) + 1
  {
    if d.day < DaysInMonth(d.year, d.month) {
    } else if d.month < 12 {
      MonthStep(d.year, d.month);
    } else {
      YearStep(d.year);
      YearEnd(d.year);
    }
  }

  lemma {:induction false} AddDaysIsEpochShift(d: Date, n: nat)
    ensures EpochDay(AddDays(d, n)) == EpochDay(d) + n
    decreases n
  {
    if n > 0 {
      NextDayIsNextEpochDay(d);
      AddDaysIsEpochShift(NextDay(d), n - 1);
    }
  }

  lemma ModSevenSucc(e: int)
    ensures (e + 1) % 7 == (e % 7 + 1) % 7
  {
  }

  lemma {:induction false} WeekdayAdvances(d: Date)
    ensures Weekday(NextDay(d)) == (Weekday(d) + 1) % 7
  {
    NextDayIsNextEpochDay(d);
    ModSevenSucc(EpochDay(d) + 4);
  }

  /** The last day of a month is followed by day 1 of the next month. */
  lemma {:induction false} MonthBoundary(d: Date)
    ensures NextDay(LastOfMonth(d.year, d.month)) == NextMonthStart(d)
    ensures EpochDay(NextMonthStart(d)) == EpochDay(LastOfMonth(d.year, d.month)) + 1
  {
    NextDayIsNextEpochDay(LastOfMonth(d.year, d.month));
  }

  /** Previous and next month starts undo each other. */
  lemma MonthNavigationInverse(d: Date)
    ensures NextMonthStart(PreviousMonthStart(d)) == FirstOfMonth(d.year, d.month)
    ensures PreviousMonthStart(NextMonthStart(d)) == FirstOfMonth(d.year, d.month)
  {
  }

  lemma {:induction false} DaysBeforeMonthBound(y: int, m: int, k: int)
    requires 1 <= m < k <= 12
    ensures DaysBeforeMonth(y, m) + DaysInMonth(y, m) <= DaysBeforeMonth(y, k)
    decreases k - m
  {
    MonthStep(y, m);
    if m + 1 < k {
      DaysBeforeMonthBound(y, m + 1, k);
    }
  }

  lemma MonthFitsInYear(y: int, m: int)
    requires 1 <= m <= 12
    ensures DaysBeforeMonth(y, m) + DaysInMonth(y, m) <= YearLength(y)
  {
    YearEnd(y);
    if m < 12 {
      DaysBeforeMonthBound(y, m, 12);
    }
  }

  lemma {:induction false} DaysBeforeYearGrows(y: int, z: int)
    requires y < z
    ensures DaysBeforeYear(y) + YearLength(y) <= DaysBeforeYear(z)
    decreases z - y
  {
    YearStep(y);
    if y + 1 < z {
      DaysBeforeYearGrows(y + 1, z);
    }
  }

  /** Chronological order and the day numbering agree. */
  lemma {:induction false} EpochDayMonotone(a: Date, b: Date)
    requires Before(a, b)
    ensures EpochDay(a) < EpochDay(b)
  {
    if a.year < b.year {
      MonthFitsInYear(a.year, a.month);
      DaysBeforeYearGrows(a.year, b.year);
    } else if a.month < b.month {
      DaysBeforeMonthBound(a.year, a.month, b.month);
    }
  }

  /** Two dates with the same day number are the same date. */
  lemma EpochDayInjective(a: Date, b: Date)
    ensures EpochDay(a) == EpochDay(b) <==> a == b
  {
    if a != b {
      if Before(a, b) { EpochDayMonotone(a, b); } else { EpochDayMonotone(b, a); }
    }
  }

  /** Chronological order is exactly the order of day numbers. */
  lemma EpochDayOrder(a: Date, b: Date)
    ensures Before(a, b) <==> EpochDay(a) < EpochDay(b)
  {
    if Before(a, b) {
      EpochDayMonotone(a, b);
    } else if a != b {
      EpochDayMonotone(b, a);
    }
  }

  lemma BeforeTransitive(a: CivilDate, b: CivilDate, c: CivilDate)
    requires Before(a, b) && Before(b, c)
    ensures Before(a, c)
  {
  }

  lemma EpochOrigin()
    ensures EpochDay(CivilDate(1970, 1, 1)) == 0
    ensures Weekday(CivilDate(1970, 1, 1)) == 4
  {
    assert DaysBeforeYear(1970) == 719162;
  }
}
