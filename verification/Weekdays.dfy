/**
 Weekdays and years: the calendar repeats after 400 years, a whole number of weeks,
 and every date of the calendar falls on every weekday again and again.
 */
module Weekdays {
  import opened Calendar

  // Some year of a cycle is the given number of years, 27 at most, after its first one.
  lemma YearInCycle(cycle: int, j: int)
    requires 0 <= j < 28
    ensures DaysBeforeYear(400 * cycle + 1 + j) == 146097 * cycle + 365 * j + j / 4
    ensures IsLeap(400 * cycle + 1 + j) <==> j % 4 == 3
  {
    var y := 400 * cycle + j;
    QuotientAndRemainder(y, 4, 100 * cycle + j / 4, j % 4);
    QuotientAndRemainder(y, 100, 4 * cycle, j);
    QuotientAndRemainder(y, 400, cycle, j);
    QuotientAndRemainder(y + 1, 100, 4 * cycle, j + 1);
    if j % 4 == 3 {
      QuotientAndRemainder(y + 1, 4, 100 * cycle + j / 4 + 1, 0);
    } else {
      QuotientAndRemainder(y + 1, 4, 100 * cycle + j / 4, j % 4 + 1);
    }
  }

  // A leap day moves the months after February by one day.
  lemma {:induction false} MonthInLeapYear(year: int, other: int, month: int)
    requires 1 <= month <= 13 && IsLeap(year) && !IsLeap(other)
    ensures DaysBeforeMonth(year, month) == DaysBeforeMonth(other, month) + if month > 2 then 1 else 0
  {
    hide IsLeap;
    if month > 1 { MonthInLeapYear(year, other, month - 1); }
  }

  lemma {:induction false} MonthInLikeYear(year: int, other: int, month: int)
    requires 1 <= month <= 13 && (IsLeap(year) <==> IsLeap(other))
    ensures DaysBeforeMonth(year, month) == DaysBeforeMonth(other, month)
  {
    hide IsLeap;
    if month > 1 { MonthInLikeYear(year, other, month - 1); }
  }

  // How many days later in the week a date is j years into a cycle.
  function Shift(month: int, j: int): int {
    365 * j + j / 4 + if month > 2 && j % 4 == 3 then 1 else 0
  }

  lemma DayInCycle(cycle: int, j: int, month: int, day: int)
    requires 0 <= j < 28 && 1 <= month <= 12
    ensures DayNumber(400 * cycle + 1 + j, month, day) == 146097 * cycle + DayNumber(1, month, day) + Shift(month, j)
  {
    YearInCycle(cycle, j);
    assert DaysBeforeYear(1) == 0 && !IsLeap(1);
    hide IsLeap, DaysBeforeYear;
    if j % 4 == 3 {
      MonthInLeapYear(400 * cycle + 1 + j, 1, month);
    } else {
      MonthInLikeYear(400 * cycle + 1 + j, 1, month);
    }
  }

  // The cycle is a whole number of weeks.
  lemma WeekdayInCycle(cycle: int, j: int, month: int, day: int)
    requires 0 <= j < 28 && 1 <= month <= 12
    ensures Weekday(DayNumber(400 * cycle + 1 + j, month, day)) == (Weekday(DayNumber(1, month, day)) + Shift(month, j)) % 7
  {
    DayInCycle(cycle, j, month, day);
    var n, s := DayNumber(1, month, day) + 1, Shift(month, j);
    var q, r := (n % 7 + s) / 7, (n % 7 + s) % 7;
    hide DayNumber;
    QuotientAndRemainder(n + s + 146097 * cycle, 7, q + n / 7 + 20871 * cycle, r);
  }

  // The number of years into a cycle after which a date has moved on by w days of the week.
  function YearsFor(month: int, day: int, w: int): (j: int)
    requires 0 <= w < 7
    ensures 0 <= j < 28
    ensures month == 2 && day == 29 ==> j % 4 == 3
  {
    if month == 2 && day == 29 then
      // From the first leap year of the cycle on, every leap day is five days later in the week.
      var leaps := [0, 3, 6, 2, 5, 1, 4];
      4 * leaps[w] + 3
    else if month > 2 then [0, 1, 2, 8, 3, 4, 5][w]
    else [0, 1, 2, 3, 9, 4, 5][w]
  }

  // A leap day is counted from the first leap year of the cycle.
  function FirstShift(month: int, day: int): int {
    if month == 2 && day == 29 then Shift(month, 3) else 0
  }

  lemma ShiftReaches(month: int, day: int, w: int)
    requires 0 <= w < 7
    ensures Shift(month, YearsFor(month, day, w)) % 7 == (FirstShift(month, day) + w) % 7
  {
  }

  lemma DateInYear(month: int, day: int, year: int)
    requires IsDate(Date(4, month, day)) && (month == 2 && day == 29 ==> IsLeap(year))
    ensures IsDate(Date(year, month, day))
  {
  }

  // A date falls on every weekday in some later year.
  lemma EveryWeekday(month: int, day: int, w: int, from: int) returns (year: int)
    requires IsDate(Date(4, month, day)) && 0 <= w < 7
    ensures year > from && IsDate(Date(year, month, day)) && Weekday(DayNumber(year, month, day)) == w
  {
    var cycle := from / 400 + 1;
    assert 400 * cycle > from;
    assert 1 <= month <= 12;
    hide DayNumber, IsLeap, DaysBeforeYear, IsDate, MonthLength, Shift, YearsFor, FirstShift;
    var base, first := Weekday(DayNumber(1, month, day)), FirstShift(month, day);
    assert 0 <= base < 7;
    hide Weekday;
    var away := (w - base - first) % 7;
    var j := YearsFor(month, day, away);
    year := 400 * cycle + 1 + j;
    YearInCycle(cycle, j);
    DateInYear(month, day, year);
    ShiftReaches(month, day, away);
    WeekdayInCycle(cycle, j, month, day);
    WeekArithmetic(base, Shift(month, j), first, w);
  }

  lemma WeekArithmetic(base: int, shift: int, first: int, w: int)
    requires 0 <= base < 7 && 0 <= w < 7 && shift % 7 == (first + (w - base - first) % 7) % 7
    ensures (base + shift) % 7 == w
  {
    var a := (w - base - first) / 7;
    var r := (w - base - first) % 7;
    var b := (first + r) / 7;
    var c := shift / 7;
    assert shift == 7 * c + (first + r - 7 * b);
    QuotientAndRemainder(base + shift, 7, c - b - a, w);
  }
}
