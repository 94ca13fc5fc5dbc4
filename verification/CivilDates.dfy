/** Civil dates without a zone.

A date is a day number counted from 1970-01-01; a month is the index
12 * year + (month - 1) of the proleptic Gregorian calendar. */
module CivilDates {

  const EPOCH_MONTH := 12 * 1970

  predicate LeapYear(year: int) {
    year % 4 == 0 && (year % 100 != 0 || year % 400 == 0)
  }

  /** The number of days of a month, which is also its last day. */
  function MonthLength(index: int): (days: int)
    ensures 28 <= days <= 31
  {
    var month := index % 12;
    if month == 1 then if LeapYear(index / 12) then 29 else 28
    else if month == 3 || month == 5 || month == 8 || month == 10 then 30
    else 31
  }

  /** The first day of a month, counted month by month from the epoch. */
  function MonthStart(index: int): int
    decreases if index < EPOCH_MONTH then EPOCH_MONTH - index else index - EPOCH_MONTH
  {
    if index == EPOCH_MONTH then 0
    else if EPOCH_MONTH < index then MonthStart(index - 1) + MonthLength(index - 1)
    else MonthStart(index + 1) - MonthLength(index)
  }

  lemma NextMonth(index: int)
    ensures MonthStart(index + 1) == MonthStart(index) + MonthLength(index)
  {
  }

  /** The month holding a day: the one place where a day number becomes a year and a month. */
  function MonthOf(day: int): (index: int)
    ensures MonthStart(index) <= day < MonthStart(index + 1)
  {
    SeekMonth(day, EPOCH_MONTH)
  }

  function SeekMonth(day: int, index: int): (found: int)
    ensures MonthStart(found) <= day < MonthStart(found + 1)
    decreases if day < MonthStart(index) then MonthStart(index) - day
              else day - MonthStart(index)
  {
    NextMonth(index);
    NextMonth(index - 1);
    if day < MonthStart(index) then
      if MonthStart(index - 1) <= day then index - 1 else SeekMonth(day, index - 1)
    else if day < MonthStart(index + 1) then index
    else SeekMonth(day, index + 1)
  }

  lemma {:induction false} MonthStartsIncrease(a: int, b: int)
    requires a <= b
    ensures MonthStart(a) <= MonthStart(b)
    decreases b - a
  {
    if a < b {
      NextMonth(a);
      MonthStartsIncrease(a + 1, b);
    }
  }

  /** A day belongs to exactly one month. */
  lemma {:induction false} MonthOfIsUnique(day: int, index: int)
    requires MonthStart(index) <= day < MonthStart(index + 1)
    ensures MonthOf(day) == index
  {
    var found := MonthOf(day);
    if found < index {
      MonthStartsIncrease(found + 1, index);
    } else if index < found {
      MonthStartsIncrease(index + 1, found);
    }
  }

  // ---- The proleptic Gregorian calendar, in closed form ----

  /** Leap days from the first of January of year one to that of `year`. */
  function LeapDays(year: int): int {
    (year - 1) / 4 - (year - 1) / 100 + (year - 1) / 400
  }

  /** Days from the epoch to the first of January; 477 leap days came before the epoch. */
  function YearStart(year: int): int {
    365 * (year - 1970) + LeapDays(year) - 477
  }

  /** Days from the first of January to the first of month `month`, counted from zero. */
  function DaysBefore(year: int, month: int): int
    requires 0 <= month < 12
  {
    [0, 31, 59, 90, 120, 151, 181, 212, 243, 273, 304, 334][month]
    + if 2 <= month then YearStart(year + 1) - YearStart(year) - 365 else 0
  }

  function FirstOf(year: int, month: int): int
    requires 0 <= month < 12
  {
    YearStart(year) + DaysBefore(year, month)
  }

  /** Passing a multiple counts one more of them. */
  lemma Passing(year: int)
    ensures year / 4 - (year - 1) / 4 == if year % 4 == 0 then 1 else 0
    ensures year / 100 - (year - 1) / 100 == if year % 100 == 0 then 1 else 0
  {
  }

  lemma PassingCycle(year: int)
    ensures year / 400 - (year - 1) / 400 == if year % 400 == 0 then 1 else 0
  {
  }

  lemma CyclesNest(year: int)
    ensures year % 400 == 0 ==> year % 100 == 0
    ensures year % 100 == 0 ==> year % 4 == 0
  {
    if year % 400 == 0 {
      HundredsDivide(year, 4 * (year / 400));
    }
    if year % 100 == 0 {
      FoursDivide(year, 25 * (year / 100));
    }
  }

  lemma HundredsDivide(year: int, n: int)
    requires year == 100 * n
    ensures year % 100 == 0
  {
  }

  lemma FoursDivide(year: int, n: int)
    requires year == 4 * n
    ensures year % 4 == 0
  {
  }

  lemma LeapYearsAreLonger(year: int)
    ensures YearStart(year + 1) - YearStart(year) == if LeapYear(year) then 366 else 365
  {
    Passing(year);
    PassingCycle(year);
    CyclesNest(year);
    var (a, b, c) := (year / 4 - (year - 1) / 4, year / 100 - (year - 1) / 100, year / 400 - (year - 1) / 400);
    assert YearStart(year + 1) - YearStart(year) == 365 + a - b + c;
  }

  lemma MonthLengthsAgree(year: int, month: int)
    requires 0 <= month < 12
    ensures MonthLength(12 * year + month) == (if month < 11 then FirstOf(year, month + 1) else YearStart(year + 1)) - FirstOf(year, month)
  {
    LeapYearsAreLonger(year);
    hide YearStart, LeapYear;
    assert (12 * year + month) % 12 == month && (12 * year + month) / 12 == year;
  }

  /** Every month, of every year before or after the epoch, starts on its day of the Gregorian calendar. */
  lemma {:induction false} MonthStartIsGregorian(year: int, month: int)
    requires 0 <= month < 12
    ensures MonthStart(12 * year + month) == FirstOf(year, month)
    decreases if year < 1970 then 12 * (1970 - year) - month else 12 * (year - 1970) + month
  {
    var index := 12 * year + month;
    hide YearStart, MonthLength;
    if index == EPOCH_MONTH {
      assert YearStart(1970) == 0 by { EpochIsZero(); }
    } else if EPOCH_MONTH < index {
      var (y, m) := if month == 0 then (year - 1, 11) else (year, month - 1);
      MonthLengthsAgree(y, m);
      MonthStartIsGregorian(y, m);
    } else {
      var (y, m) := if month == 11 then (year + 1, 0) else (year, month + 1);
      MonthLengthsAgree(year, month);
      MonthStartIsGregorian(y, m);
    }
  }

  lemma EpochIsZero()
    ensures YearStart(1970) == 0
  {
  }
}
