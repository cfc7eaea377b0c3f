/**
 * Calendar arithmetic of the birthday app.
 *
 * The day buckets always use a 366-day year (February has 29 days), and the
 * day stepping used by the nearest-birthday search applies the simplified leap
 * rule "year % 4 == 0" with no century exception.
 */
module Calendar {

  /** Month lengths of the 366-day bucket calendar, January first. */
  const MonthLengths: seq<int> := [31, 29, 31, 30, 31, 30, 31, 31, 30, 31, 30, 31]

  /** A (day, month, year) triple; month is 1-based, as in the source. */
  datatype Date = Date(day: int, month: int, year: int)

  /** A 0-based month index with a 1-based day, as get_month_and_day returns it. */
  datatype MonthDay = MonthDay(month: int, day: int)

  datatype Option<T> = None | Some(value: T)

  /** Number of days of the 366-day calendar before month index i (0-based). */
  function StartOfMonth(i: nat): int
    requires i <= 12
  {
    if i == 0 then 0 else StartOfMonth(i - 1) + MonthLengths[i - 1]
  }

  lemma StartOfMonthBounds(i: nat)
    requires i <= 12
    ensures i < 12 ==> StartOfMonth(i) + MonthLengths[i] <= 366
    ensures StartOfMonth(i) >= 0
    ensures StartOfMonth(12) == 366
  {
    StartOfMonthTable();
  }

  /** Whether the simplified rule makes `year` a leap year. */
  predicate IsLeap(year: int) {
    year % 4 == 0
  }

  /** Length of a 1-based month in the given year under the simplified rule. */
  function MonthLen(month: int, year: int): int
    requires 1 <= month <= 12
  {
    if month == 2 && !IsLeap(year) then 28 else MonthLengths[month - 1]
  }

  predicate ValidDate(d: Date) {
    1 <= d.month <= 12 && 1 <= d.day <= MonthLen(d.month, d.year)
  }

  /** add_day: the date after `d`. */
  function AddDay(d: Date): (r: Date)
    requires 1 <= d.month <= 12
    ensures ValidDate(d) ==> ValidDate(r)
    ensures ValidDate(d) ==> (r.year != d.year <==> d.month == 12 && d.day == 31)
    ensures r.year != d.year ==> r == Date(1, 1, d.year + 1)
  {
    if d.day == 28 && d.month == 2 && d.year % 4 != 0 then
      Date(1, 3, d.year)
    else if d.day < MonthLengths[d.month - 1] then
      Date(d.day + 1, d.month, d.year)
    else if d.month < 12 then
      Date(1, d.month + 1, d.year)
    else
      Date(1, 1, d.year + 1)
  }

  /** subtract_day: the date before `d`. */
  function SubtractDay(d: Date): (r: Date)
    requires 1 <= d.month <= 12
    ensures ValidDate(d) ==> ValidDate(r)
    ensures ValidDate(d) ==> (r.year != d.year <==> d.month == 1 && d.day == 1)
    ensures r.year != d.year ==> r == Date(31, 12, d.year - 1)
  {
    if d.day == 1 && d.month == 3 && d.year % 4 != 0 then
      Date(28, 2, d.year)
    else if d.day > 1 then
      Date(d.day - 1, d.month, d.year)
    else if d.month > 1 then
      Date(MonthLengths[d.month - 2], d.month - 1, d.year)
    else
      Date(31, 12, d.year - 1)
  }

  /**
   * Position of a date on a day line of the simplified calendar: 365 days per
   * year plus one for every year divisible by 4 before it.
   */
  function DayNumber(d: Date): int
    requires 1 <= d.month <= 12
  {
    YearStart(d.year)
      + StartOfMonth(d.month - 1) - (if d.month > 2 && !IsLeap(d.year) then 1 else 0)
      + d.day - 1
  }

  /** Day number of January 1 of a year: 365 days per year, plus the leap days before it. */
  function YearStart(year: int): int {
    365 * year + (year + 3) / 4
  }

  /** A year is 366 days long when it is a leap year and 365 otherwise. */
  lemma YearLength(year: int)
    ensures YearStart(year + 1) == YearStart(year) + (if IsLeap(year) then 366 else 365)
  {
  }

  /** The first day of each month of the 366-day calendar. */
  lemma StartOfMonthTable()
    ensures StartOfMonth(0) == 0 && StartOfMonth(1) == 31 && StartOfMonth(2) == 60
    ensures StartOfMonth(3) == 91 && StartOfMonth(4) == 121 && StartOfMonth(5) == 152
    ensures StartOfMonth(6) == 182 && StartOfMonth(7) == 213 && StartOfMonth(8) == 244
    ensures StartOfMonth(9) == 274 && StartOfMonth(10) == 305 && StartOfMonth(11) == 335
    ensures StartOfMonth(12) == 366
  {
  }

  lemma AddDayIsSuccessor(d: Date)
    requires ValidDate(d)
    ensures DayNumber(AddDay(d)) == DayNumber(d) + 1
  {
    if d.day == 28 && d.month == 2 && !IsLeap(d.year) {
      StartOfMonthTable();
    } else if d.day < MonthLengths[d.month - 1] {
    } else if d.month < 12 {
      assert StartOfMonth(d.month) == StartOfMonth(d.month - 1) + MonthLengths[d.month - 1];
    } else {
      StartOfMonthTable();
      YearLength(d.year);
    }
  }

  lemma SubtractDayIsPredecessor(d: Date)
    requires ValidDate(d)
    ensures DayNumber(SubtractDay(d)) == DayNumber(d) - 1
  {
    if d.day == 1 && d.month == 3 && !IsLeap(d.year) {
      StartOfMonthTable();
    } else if d.day > 1 {
    } else if d.month > 1 {
      assert StartOfMonth(d.month - 1) == StartOfMonth(d.month - 2) + MonthLengths[d.month - 2];
    } else {
      StartOfMonthTable();
      YearLength(d.year - 1);
    }
  }

  lemma SubtractUndoesAdd(d: Date)
    requires ValidDate(d)
    ensures SubtractDay(AddDay(d)) == d
  {
  }

  lemma AddUndoesSubtract(d: Date)
    requires ValidDate(d)
    ensures AddDay(SubtractDay(d)) == d
  {
  }

  /** The February 28/29 and March 1 boundaries under the simplified leap rule. */
  lemma LeapBoundaries(year: int)
    ensures AddDay(Date(28, 2, year)) == if year % 4 != 0 then Date(1, 3, year) else Date(29, 2, year)
    ensures SubtractDay(Date(1, 3, year)) == if year % 4 != 0 then Date(28, 2, year) else Date(29, 2, year)
    ensures AddDay(Date(31, 12, year)) == Date(1, 1, year + 1)
    ensures SubtractDay(Date(1, 1, year)) == Date(31, 12, year - 1)
  {
  }

  /** A slot of the 366-day bucket calendar: 0-based month, 1-based day. */
  predicate IsSlot(month: int, day: int) {
    0 <= month < 12 && 1 <= day <= MonthLengths[month]
  }

  /** Day-of-year index (0-based) of a 0-based month and 1-based day in the 366-day calendar. */
  function DayIndex(month: int, day: int): (n: int)
    requires IsSlot(month, day)
    ensures 0 <= n < 366
  {
    StartOfMonthBounds(month);
    StartOfMonth(month) + day - 1
  }

  /** Distinct calendar slots have distinct day-of-year indices. */
  lemma {:induction false} DayIndexInjective(m1: int, d1: int, m2: int, d2: int)
    requires IsSlot(m1, d1) && IsSlot(m2, d2)
    requires DayIndex(m1, d1) == DayIndex(m2, d2)
    ensures m1 == m2 && d1 == d2
  {
    if m1 < m2 {
      StartOfMonthGrows(m1 + 1, m2);
    } else if m2 < m1 {
      StartOfMonthGrows(m2 + 1, m1);
    }
  }

  lemma {:induction false} StartOfMonthGrows(i: nat, j: nat)
    requires 1 <= i <= j <= 12
    ensures StartOfMonth(j) >= StartOfMonth(i - 1) + MonthLengths[i - 1]
  {
    if j > i {
      StartOfMonthGrows(i, j - 1);
    }
  }

  /**
   * get_month_and_day: walks the month lengths, subtracting each month that
   * the remaining day count passes. Falls through with no result once the
   * index is beyond the 366-day calendar.
   */
  method GetMonthAndDay(dayOfYear: int) returns (r: Option<MonthDay>)
    ensures r.None? <==> dayOfYear >= 366
    ensures dayOfYear < 0 ==> r == Some(MonthDay(0, dayOfYear + 1))
    ensures 0 <= dayOfYear < 366 ==>
      && r.Some?
      && IsSlot(r.value.month, r.value.day)
      && DayIndex(r.value.month, r.value.day) == dayOfYear
  {
    var day := dayOfYear + 1;
    var i := 0;
    while i < 12
      invariant 0 <= i <= 12
      invariant day == dayOfYear + 1 - StartOfMonth(i)
      invariant i > 0 ==> day >= 1
    {
      if day <= MonthLengths[i] {
        StartOfMonthBounds(i);
        return Some(MonthDay(i, day));
      }
      day := day - MonthLengths[i];
      i := i + 1;
    }
    StartOfMonthBounds(12);
    return None;
  }
}
