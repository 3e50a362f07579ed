/**
 The proleptic Gregorian calendar. Day 0 is Monday, 1 January of year 1; minutes
 are counted from midnight of that day in a zone with a constant offset.
 */
module Calendar {

  datatype Date = Date(year: int, month: int, day: int)

  predicate IsLeap(year: int) {
    year % 4 == 0 && (year % 100 != 0 || year % 400 == 0)
  }

  function YearLength(year: int): int {
    if IsLeap(year) then 366 else 365
  }

  function MonthLength(year: int, month: int): (n: int)
    ensures 28 <= n <= 31
  {
    if month == 2 then (if IsLeap(year) then 29 else 28)
    else if month == 4 || month == 6 || month == 9 || month == 11 then 30
    else 31
  }

  predicate IsDate(d: Date) {
    1 <= d.month <= 12 && 1 <= d.day <= MonthLength(d.year, d.month)
  }

  function DaysBeforeYear(year: int): int {
    var y := year - 1;
    365 * y + y / 4 - y / 100 + y / 400
  }

  function DaysBeforeMonth(year: int, month: int): (n: int)
    requires 1 <= month <= 13
    ensures 28 * (month - 1) <= n <= 31 * (month - 1)
    decreases month
  {
    if month == 1 then 0 else DaysBeforeMonth(year, month - 1) + MonthLength(year, month - 1)
  }

  // The day number of a year, a month from 1 to 13 and any day, carrying over into the next month or year.
  function DayNumber(year: int, month: int, day: int): int
    requires 1 <= month <= 13
  {
    DaysBeforeYear(year) + DaysBeforeMonth(year, month) + day - 1
  }

  // ---------- From day numbers to dates ----------

  function YearFrom(year: int, days: nat): int
    decreases days
  {
    if days < YearLength(year) then year else YearFrom(year + 1, days - YearLength(year))
  }

  // The year of a day, counted on from the start of its 400-year cycle.
  function YearOf(day: int): int {
    YearFrom(400 * (day / 146097) + 1, day % 146097)
  }

  function MonthFrom(year: int, month: int, days: nat): int
    requires 1 <= month <= 12
    decreases 12 - month
  {
    if month == 12 || days < MonthLength(year, month) then month
    else MonthFrom(year, month + 1, days - MonthLength(year, month))
  }

  // Sunday is 0.
  function Weekday(day: int): int {
    (day + 1) % 7
  }

  // ---------- The two directions agree ----------

  // Counting one further passes a multiple of m exactly when it lands on one.
  lemma OneFurther(y: int, m: int)
    requires m > 1
    ensures (y + 1) / m == y / m + if (y + 1) % m == 0 then 1 else 0
  {
    var q, r := y / m, y % m;
    if r == m - 1 {
      QuotientAndRemainder(y + 1, m, q + 1, 0);
    } else {
      QuotientAndRemainder(y + 1, m, q, r + 1);
    }
  }

  lemma QuotientAndRemainder(n: int, m: int, q: int, r: int)
    requires 0 <= r < m && n == m * q + r
    ensures n / m == q && n % m == r
  {
    var d := n / m - q;
    assert m * d == r - n % m;
    assert -m < m * d < m;
    assert d >= 1 ==> m * d >= m;
    assert d <= -1 ==> m * d <= -m;
  }

  lemma LeapDivisors(year: int)
    ensures year % 400 == 0 ==> year % 100 == 0
    ensures year % 100 == 0 ==> year % 4 == 0
  {
    if year % 400 == 0 {
      QuotientAndRemainder(year, 100, 4 * (year / 400), 0);
    }
    if year % 100 == 0 {
      QuotientAndRemainder(year, 4, 25 * (year / 100), 0);
    }
  }

  lemma NextYear(year: int)
    ensures DaysBeforeYear(year + 1) == DaysBeforeYear(year) + YearLength(year)
  {
    OneFurther(year - 1, 4);
    OneFurther(year - 1, 100);
    OneFurther(year - 1, 400);
    LeapDivisors(year);
  }

  lemma CycleStart(cycle: int)
    ensures DaysBeforeYear(400 * cycle + 1) == 146097 * cycle
  {
    assert (400 * cycle) / 4 == 100 * cycle;
    assert (400 * cycle) / 100 == 4 * cycle;
    assert (400 * cycle) / 400 == cycle;
  }

  lemma {:induction false} YearsGrow(year: int, year': int)
    requires year <= year'
    ensures DaysBeforeYear(year) <= DaysBeforeYear(year')
    ensures year < year' ==> DaysBeforeYear(year + 1) <= DaysBeforeYear(year')
    decreases year' - year
  {
    if year < year' {
      YearsGrow(year + 1, year');
      NextYear(year);
    }
  }

  lemma {:induction false} YearFromBounds(year: int, days: nat)
    ensures var y := YearFrom(year, days);
            DaysBeforeYear(y) <= DaysBeforeYear(year) + days < DaysBeforeYear(y + 1)
    decreases days
  {
    NextYear(year);
    assert YearLength(year) > 0;
    hide DaysBeforeYear, YearLength;
    if days >= YearLength(year) {
      YearFromBounds(year + 1, days - YearLength(year));
    }
  }

  lemma YearOfBounds(day: int)
    ensures DaysBeforeYear(YearOf(day)) <= day < DaysBeforeYear(YearOf(day) + 1)
  {
    CycleStart(day / 146097);
    YearFromBounds(400 * (day / 146097) + 1, day % 146097);
  }

  lemma MonthsFillYear(year: int)
    ensures DaysBeforeMonth(year, 13) == YearLength(year)
  {
    assert DaysBeforeMonth(year, 2) == 31;
    assert DaysBeforeMonth(year, 4) == DaysBeforeMonth(year, 3) + 31;
    assert DaysBeforeMonth(year, 6) == DaysBeforeMonth(year, 5) + 31;
    assert DaysBeforeMonth(year, 8) == DaysBeforeMonth(year, 7) + 31;
    assert DaysBeforeMonth(year, 10) == DaysBeforeMonth(year, 9) + 30;
    assert DaysBeforeMonth(year, 12) == DaysBeforeMonth(year, 11) + 30;
  }

  lemma {:induction false} MonthFromBounds(year: int, month: int, days: nat, yearDays: int)
    requires 1 <= month <= 12 && days < yearDays - DaysBeforeMonth(year, month)
    requires forall last :: last == 12 ==> yearDays == DaysBeforeMonth(year, last) + MonthLength(year, last)
    ensures var m := MonthFrom(year, month, days);
            && month <= m <= 12
            && DaysBeforeMonth(year, m) <= DaysBeforeMonth(year, month) + days
            && DaysBeforeMonth(year, month) + days < DaysBeforeMonth(year, m) + MonthLength(year, m)
    decreases 12 - month
  {
    hide MonthLength;
    if month < 12 && days >= MonthLength(year, month) {
      MonthEnds(year, month);
      MonthFromBounds(year, month + 1, days - MonthLength(year, month), yearDays);
    }
  }

  lemma DateParts(day: int)
    ensures var y := YearOf(day);
            && 0 <= day - DaysBeforeYear(y)
            && var m := MonthFrom(y, 1, day - DaysBeforeYear(y));
               && 1 <= m <= 12
               && 0 <= day - DaysBeforeYear(y) - DaysBeforeMonth(y, m) < MonthLength(y, m)
  {
    var y := YearOf(day);
    YearOfBounds(day);
    NextYear(y);
    MonthsFillYear(y);
    assert YearLength(y) == DaysBeforeMonth(y, 12) + MonthLength(y, 12);
    hide MonthLength, YearLength, DaysBeforeYear, YearOf;
    MonthFromBounds(y, 1, day - DaysBeforeYear(y), YearLength(y));
  }

  // The date of a day; it leads back to the day.
  function DateOf(day: int): (d: Date)
    ensures IsDate(d) && DayNumber(d.year, d.month, d.day) == day
  {
    DateParts(day);
    var y := YearOf(day);
    var m := MonthFrom(y, 1, day - DaysBeforeYear(y));
    Date(y, m, day - DaysBeforeYear(y) - DaysBeforeMonth(y, m) + 1)
  }

  lemma MonthEnds(year: int, month: int)
    requires 1 <= month <= 12
    ensures DaysBeforeMonth(year, month + 1) == DaysBeforeMonth(year, month) + MonthLength(year, month)
  {
  }

  lemma {:induction false} MonthsGrow(year: int, month: int, month': int)
    requires 1 <= month <= month' <= 13
    ensures DaysBeforeMonth(year, month) <= DaysBeforeMonth(year, month')
    decreases month' - month
  {
    if month < month' {
      MonthsGrow(year, month, month' - 1);
    }
  }

  lemma DayInYear(d: Date)
    requires IsDate(d)
    ensures DaysBeforeYear(d.year) <= DayNumber(d.year, d.month, d.day) < DaysBeforeYear(d.year + 1)
  {
    NextYear(d.year);
    MonthsFillYear(d.year);
    MonthsGrow(d.year, d.month + 1, 13);
    MonthEnds(d.year, d.month);
  }

  predicate Before(d: Date, e: Date) {
    d.year < e.year || (d.year == e.year && (d.month < e.month || (d.month == e.month && d.day < e.day)))
  }

  lemma DayInMonth(d: Date)
    requires IsDate(d)
    ensures DayNumber(d.year, d.month, 1) <= DayNumber(d.year, d.month, d.day) < DayNumber(d.year, d.month + 1, 1)
  {
    MonthEnds(d.year, d.month);
  }

  // Day numbers follow the order of dates.
  lemma DaysFollowDates(d: Date, e: Date)
    requires IsDate(d) && IsDate(e) && Before(d, e)
    ensures DayNumber(d.year, d.month, d.day) < DayNumber(e.year, e.month, e.day)
  {
    hide MonthLength, DaysBeforeMonth;
    if d.year < e.year {
      DayInYear(d);
      DayInYear(e);
      hide DaysBeforeYear, DayNumber;
      YearsGrow(d.year, e.year);
    } else if d.month < e.month {
      DayInMonth(d);
      DayInMonth(e);
      MonthsGrow(d.year, d.month + 1, e.month);
    }
  }

  // A day number belongs to one date only.
  lemma DatesAreUnique(d: Date, e: Date)
    requires IsDate(d) && IsDate(e) && DayNumber(d.year, d.month, d.day) == DayNumber(e.year, e.month, e.day)
    ensures d == e
  {
    hide DayNumber, MonthLength;
    if Before(d, e) {
      DaysFollowDates(d, e);
    } else if Before(e, d) {
      DaysFollowDates(e, d);
    }
  }

  // The month lengths of a common year, and of a leap year.
  const COMMON := [31, 28, 31, 30, 31, 30, 31, 31, 30, 31, 30, 31]
  const LEAP := [31, 29, 31, 30, 31, 30, 31, 31, 30, 31, 30, 31]

  // The next day is the next one of the same month, the first of the next month, or New Year.
  lemma NextDay(day: int)
    ensures var d := DateOf(day);
            && 1 <= d.month <= 12
            && var months := if d.year % 400 == 0 || (d.year % 4 == 0 && d.year % 100 != 0) then LEAP else COMMON;
               && DateOf(day + 1) == if d.day < months[d.month - 1] then Date(d.year, d.month, d.day + 1)
                                     else if d.month < 12 then Date(d.year, d.month + 1, 1)
                                     else Date(d.year + 1, 1, 1)
  {
    hide DayNumber, DaysBeforeYear, DaysBeforeMonth, MonthLength;
    var d := DateOf(day);
    var months := if d.year % 400 == 0 || (d.year % 4 == 0 && d.year % 100 != 0) then LEAP else COMMON;
    MonthTable(d.year, d.month);
    var next := if d.day < months[d.month - 1] then Date(d.year, d.month, d.day + 1)
                else if d.month < 12 then Date(d.year, d.month + 1, 1)
                else Date(d.year + 1, 1, 1);
    NextNumber(d);
    DatesAreUnique(DateOf(day + 1), next);
  }

  lemma MonthTable(year: int, month: int)
    requires 1 <= month <= 12
    ensures MonthLength(year, month) ==
              (if year % 400 == 0 || (year % 4 == 0 && year % 100 != 0) then LEAP else COMMON)[month - 1]
  {
    LeapDivisors(year);
  }

  lemma NextNumber(d: Date)
    requires IsDate(d)
    ensures var next := if d.day < MonthLength(d.year, d.month) then Date(d.year, d.month, d.day + 1)
                        else if d.month < 12 then Date(d.year, d.month + 1, 1)
                        else Date(d.year + 1, 1, 1);
            IsDate(next) && DayNumber(next.year, next.month, next.day) == DayNumber(d.year, d.month, d.day) + 1
  {
    MonthEnds(d.year, d.month);
    MonthsFillYear(d.year);
    NextYear(d.year);
    MonthEnds(d.year, 12);
    assert DaysBeforeMonth(d.year + 1, 1) == 0;
    hide MonthLength, YearLength, DaysBeforeYear, DaysBeforeMonth;
  }

  // 1 January 1970 was a Thursday, and the weekdays take turns.
  lemma KnownDay(day: int)
    ensures DateOf(719162) == Date(1970, 1, 1) && Weekday(719162) == 4
    ensures 0 <= Weekday(day) <= 6 && Weekday(day + 1) == if Weekday(day) == 6 then 0 else Weekday(day) + 1
  {
    hide DateOf, YearOf, YearFrom, MonthFrom, IsLeap;
    assert DaysBeforeMonth(1970, 1) == 0 && DaysBeforeYear(1970) == 719162;
    DatesAreUnique(DateOf(719162), Date(1970, 1, 1));
  }

  // The days from one day to the end of its month share its year and month.
  lemma SameMonth(day: int, day': int)
    requires day <= day' < DayNumber(DateOf(day).year, DateOf(day).month + 1, 1)
    ensures DateOf(day').year == DateOf(day).year && DateOf(day').month == DateOf(day).month
  {
    var d := DateOf(day);
    var e := Date(d.year, d.month, d.day + day' - day);
    MonthEnds(d.year, d.month);
    DatesAreUnique(DateOf(day'), e);
  }

  // ---------- Minutes ----------

  const MINUTES_PER_DAY := 1440

  function DayOf(t: int): int { t / MINUTES_PER_DAY }

  function HourOf(t: int): int { t % MINUTES_PER_DAY / 60 }

  function MinuteOf(t: int): int { t % 60 }

  function Midnight(day: int): int { day * MINUTES_PER_DAY }

  // The same wall clock some years later; a missing 29 February carries over to 1 March.
  function AddYears(t: int, years: int): int
  {
    var d := DateOf(DayOf(t));
    Midnight(DayNumber(d.year + years, d.month, d.day)) + t % MINUTES_PER_DAY
  }

  // Adding five years goes forward.
  lemma FiveYearsForward(t: int)
    ensures AddYears(t, 5) > t
  {
    var d := DateOf(DayOf(t));
    DayInYear(d);
    YearsGrow(d.year + 1, d.year + 5);
    assert DayNumber(d.year + 5, d.month, d.day) >= DaysBeforeYear(d.year + 5);
    assert DayNumber(d.year + 5, d.month, d.day) > DayOf(t);
  }
}
