/**
 * The proleptic Gregorian calendar as JavaScript's Date sees it in a time
 * zone with fixed 24-hour days: dates, a day number for each date, the
 * day-by-day successor and the overflow rule of Date.prototype.setMonth.
 */
module Calendar {

  datatype Date = Date(year: int, month: int, day: int)

  predicate IsLeapYear(y: int) {
    y % 4 == 0 && (y % 100 != 0 || y % 400 == 0)
  }

  /** Length of month `m` (1 = January) of year `y`. */
  function DaysInMonth(y: int, m: int): (n: int)
    ensures 28 <= n <= 31
    ensures n == 29 <==> m == 2 && IsLeapYear(y)
  {
    if m == 2 then (if IsLeapYear(y) then 29 else 28)
    else if m == 4 || m == 6 || m == 9 || m == 11 then 30
    else 31
  }

  function YearLength(y: int): int {
    if IsLeapYear(y) then 366 else 365
  }

  /** Calendar fields in range, counting years from 1. */
  predicate WellFormed(d: Date) {
    d.year >= 1 && 1 <= d.month <= 12 && 1 <= d.day <= DaysInMonth(d.year, d.month)
  }

  /** A date written `YYYY-MM-DD`, the form the date pickers hand to the reports. */
  predicate IsInputDate(d: Date) {
    WellFormed(d) && 1000 <= d.year <= 9999
  }

  function DaysBeforeYear(y: int): int
    decreases y
  {
    if y <= 1 then 0 else DaysBeforeYear(y - 1) + YearLength(y - 1)
  }

  function DaysBeforeMonth(y: int, m: int): int {
    if 1 <= m <= 12 then
      [0, 31, 59, 90, 120, 151, 181, 212, 243, 273, 304, 334][m - 1]
      + (if m > 2 && IsLeapYear(y) then 1 else 0)
    else 0
  }

  /** Day number of the first day of month `m` of year `y`. */
  function MonthStart(y: int, m: int): int {
    DaysBeforeYear(y) + DaysBeforeMonth(y, m)
  }

  /** Day number: 0 for 1 January of year 1, one more for every following day. */
  function Ord(d: Date): int {
    MonthStart(d.year, d.month) + d.day - 1
  }

  /** Months counted from January of year 0; consecutive months have consecutive indices. */
  function MonthIndex(y: int, m: int): int {
    12 * y + m - 1
  }

  /** The first day of the month after month `m` of year `y`. */
  function FirstOfNextMonth(y: int, m: int): Date {
    if m == 12 then Date(y + 1, 1, 1) else Date(y, m + 1, 1)
  }

  /** The following calendar day. */
  function NextDay(d: Date): (r: Date)
    requires WellFormed(d)
    ensures WellFormed(r) && Ord(r) == Ord(d) + 1
  {
    if d.day < DaysInMonth(d.year, d.month) then Date(d.year, d.month, d.day + 1)
    else if d.month < 12 then Date(d.year, d.month + 1, 1)
    else Date(d.year + 1, 1, 1)
  }

  /** The date `k` days after `d`, reached one day at a time. */
  function AddDays(d: Date, k: nat): (r: Date)
    requires WellFormed(d)
    ensures WellFormed(r) && Ord(r) == Ord(d) + k
    decreases k
  {
    if k == 0 then d else AddDays(NextDay(d), k - 1)
  }

  lemma {:induction false} AddDaysSucc(d: Date, k: nat)
    requires WellFormed(d)
    ensures AddDays(d, k + 1) == NextDay(AddDays(d, k))
    decreases k
  {
    if k > 0 {
      AddDaysSucc(NextDay(d), k - 1);
    }
  }

  /** Within one month, adding days only moves the day of the month. */
  lemma {:induction false} AddDaysInMonth(y: int, m: int, k: nat)
    requires WellFormed(Date(y, m, 1)) && k < DaysInMonth(y, m)
    ensures AddDays(Date(y, m, 1), k) == Date(y, m, 1 + k)
    decreases k
  {
    if k > 0 {
      AddDaysInMonth(y, m, k - 1);
      AddDaysSucc(Date(y, m, 1), k - 1);
    }
  }

  /** The first day of the next month lies DaysInMonth days after the first day of this one. */
  lemma MonthStartNext(y: int, m: int)
    requires y >= 1 && 1 <= m <= 12
    ensures var f := FirstOfNextMonth(y, m);
      WellFormed(f) && Ord(f) == MonthStart(y, m) + DaysInMonth(y, m)
  {
  }

  /** Date.prototype.setMonth(month + 1) keeps the day of the month and lets a day past the end of the new month overflow into the month after it. */
  function SetNextMonth(d: Date): (r: Date)
    requires WellFormed(d)
    ensures WellFormed(r)
  {
    AddDays(FirstOfNextMonth(d.year, d.month), d.day - 1)
  }

  /** Date.prototype.setDate(1). */
  function SetFirstDay(d: Date): (r: Date)
    requires WellFormed(d)
    ensures WellFormed(r)
  {
    Date(d.year, d.month, 1)
  }

  /** The monthly step of the sales chart: setMonth(month + 1), then setDate(1). */
  function MonthStep(d: Date): (r: Date)
    requires WellFormed(d)
    ensures WellFormed(r)
  {
    SetFirstDay(SetNextMonth(d))
  }

  /**
   * The overflow rule spelled out: the step lands on the first day of the next
   * month when that month has the starting day, and on the first day of the
   * month after it otherwise.
   */
  lemma MonthStepCases(d: Date)
    requires WellFormed(d)
    ensures var f1 := FirstOfNextMonth(d.year, d.month);
      && (d.day <= DaysInMonth(f1.year, f1.month) ==> MonthStep(d) == f1)
      && (d.day > DaysInMonth(f1.year, f1.month) ==> MonthStep(d) == FirstOfNextMonth(f1.year, f1.month))
  {
    var f1 := FirstOfNextMonth(d.year, d.month);
    var n1 := DaysInMonth(f1.year, f1.month);
    if d.day <= n1 {
      AddDaysInMonth(f1.year, f1.month, d.day - 1);
    } else {
      OverflowLandsInFollowingMonth(f1, d.day - 1 - n1);
    }
  }

  /** A whole month of days after the first of a month is the first of the next month. */
  lemma AddDaysWholeMonth(f1: Date)
    requires WellFormed(f1) && f1.day == 1
    ensures AddDays(f1, DaysInMonth(f1.year, f1.month)) == FirstOfNextMonth(f1.year, f1.month)
  {
    var n1 := DaysInMonth(f1.year, f1.month);
    AddDaysInMonth(f1.year, f1.month, n1 - 1);
    AddDaysSucc(f1, n1 - 1);
  }

  /** Adding a full month of days and then `extra` more lands in the following month. */
  lemma OverflowLandsInFollowingMonth(f1: Date, extra: nat)
    requires WellFormed(f1) && f1.day == 1
    requires var f2 := FirstOfNextMonth(f1.year, f1.month); extra < DaysInMonth(f2.year, f2.month)
    ensures var n1 := DaysInMonth(f1.year, f1.month);
      var f2 := FirstOfNextMonth(f1.year, f1.month);
      AddDays(f1, n1 + extra) == Date(f2.year, f2.month, 1 + extra)
  {
    var n1 := DaysInMonth(f1.year, f1.month);
    var f2 := FirstOfNextMonth(f1.year, f1.month);
    AddDaysWholeMonth(f1);
    AddDaysSplit(f1, n1, extra);
    AddDaysInMonth(f2.year, f2.month, extra);
  }

  lemma {:induction false} AddDaysSplit(d: Date, a: nat, b: nat)
    requires WellFormed(d)
    ensures AddDays(d, a + b) == AddDays(AddDays(d, a), b)
    decreases b
  {
    if b == 0 {
      assert AddDays(AddDays(d, a), 0) == AddDays(d, a);
    } else {
      AddDaysSplit(d, a, b - 1);
      AddDaysSucc(d, a + b - 1);
      AddDaysSucc(AddDays(d, a), b - 1);
    }
  }

  /** A date lies within its own month: between the month's first day and the next month's first day. */
  lemma OrdInMonth(d: Date)
    requires WellFormed(d)
    ensures MonthStart(d.year, d.month) <= Ord(d) < MonthStart(d.year, d.month) + DaysInMonth(d.year, d.month)
  {
  }

  /** Later months start later: every day of an earlier month comes before the start of a later one. */
  lemma {:induction false} MonthStartMonotone(y: int, m: int, y2: int, m2: int)
    requires y >= 1 && 1 <= m <= 12 && 1 <= m2 <= 12
    requires MonthIndex(y, m) < MonthIndex(y2, m2)
    ensures MonthStart(y, m) + DaysInMonth(y, m) <= MonthStart(y2, m2)
    decreases MonthIndex(y2, m2) - MonthIndex(y, m)
  {
    MonthStartNext(y, m);
    var f := FirstOfNextMonth(y, m);
    if MonthIndex(f.year, f.month) < MonthIndex(y2, m2) {
      MonthStartMonotone(f.year, f.month, y2, m2);
    } else {
      assert f.year == y2 && f.month == m2;
    }
  }

  /** Each step of the monthly walk moves forward by one month, or by two when the day overflows. */
  lemma MonthStepAdvance(d: Date)
    requires WellFormed(d)
    ensures var r := MonthStep(d);
      && r.day == 1
      && Ord(d) < Ord(r)
      && (d.day == 1 ==> MonthIndex(r.year, r.month) == MonthIndex(d.year, d.month) + 1)
      && MonthIndex(d.year, d.month) < MonthIndex(r.year, r.month) <= MonthIndex(d.year, d.month) + 2
  {
    MonthStepCases(d);
    var f1 := FirstOfNextMonth(d.year, d.month);
    MonthStartNext(d.year, d.month);
    if d.day > DaysInMonth(f1.year, f1.month) {
      MonthStartNext(f1.year, f1.month);
    }
  }

  /**
   * The monthly step with the two calls the other way round, setDate(1) and
   * then setMonth(month + 1): the first day of the next month, whatever the
   * day of the month.
   */
  function IntendedMonthStep(d: Date): (r: Date)
    requires WellFormed(d)
    ensures WellFormed(r) && r.day == 1
    ensures MonthIndex(r.year, r.month) == MonthIndex(d.year, d.month) + 1
  {
    FirstOfNextMonth(d.year, d.month)
  }

  /** The cursor after i intended monthly steps. */
  function IntendedCursorAt(d: Date, i: nat): (r: Date)
    requires WellFormed(d)
    ensures WellFormed(r)
  {
    if i == 0 then d else IntendedMonthStep(IntendedCursorAt(d, i - 1))
  }

  /** The intended walk visits every month in turn: after i steps it is i months on, from any starting day. */
  lemma {:induction false} IntendedWalkVisitsEveryMonth(d: Date, i: nat)
    requires WellFormed(d)
    ensures var c := IntendedCursorAt(d, i);
      MonthIndex(c.year, c.month) == MonthIndex(d.year, d.month) + i
  {
    if i > 0 {
      IntendedWalkVisitsEveryMonth(d, i - 1);
    }
  }

  /** From the first of a month the step as written and the intended step agree; they differ only past a missing day. */
  lemma MonthStepIntendedFromFirst(d: Date)
    requires WellFormed(d)
    ensures MonthStep(d) == IntendedMonthStep(d) <==> d.day <= DaysInMonth(IntendedMonthStep(d).year, IntendedMonthStep(d).month)
  {
    MonthStepCases(d);
    MonthStepAdvance(d);
  }

  /** A date between two others, by day number, has a year between theirs. */
  lemma YearBetween(lo: Date, d: Date, hi: Date)
    requires WellFormed(lo) && WellFormed(d) && WellFormed(hi)
    requires Ord(lo) <= Ord(d) <= Ord(hi)
    ensures lo.year <= d.year <= hi.year
  {
    OrdInMonth(lo);
    OrdInMonth(d);
    OrdInMonth(hi);
    if d.year < lo.year {
      MonthStartMonotone(d.year, d.month, lo.year, lo.month);
    }
    if hi.year < d.year {
      MonthStartMonotone(hi.year, hi.month, d.year, d.month);
    }
  }
}
