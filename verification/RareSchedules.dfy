/**
 Two expressions the search can miss, read from their texts, with the exact
 condition of each: one that only asks for leap days, and one whose weekday field
 starts with a star and still asks for Sundays only.
 */
module RareSchedules {
  import opened Wrappers
  import opened Texts
  import opened Calendar
  import opened CronSearch
  import opened CronText
  import opened CronMeaning
  import opened MissedMatches

  function Single(n: nat): List {
    [Entry(One(n), None)]
  }

  function Starred(step: Option<nat>): List {
    [Entry(Every, step)]
  }

  lemma SingleText(n: nat)
    ensures ListText(Single(n)) == Decimal(n)
  {
    assert EntryTexts(Single(n)) == [Decimal(n)];
  }

  lemma StarText(step: Option<nat>)
    ensures ListText(Starred(step)) == if step.Some? then "*" + ['/'] + Decimal(step.value) else "*"
  {
    assert EntryTexts(Starred(step)) == [EntryText(Starred(step)[0])];
  }

  // The five fields of an expression for midnight on one date, with a starred weekday field.
  function MidnightOn(day: nat, month: nat, step: Option<nat>): seq<List> {
    [Single(0), Single(0), Single(day), Single(month), Starred(step)]
  }

  lemma JoinedFields(a: string, b: string, c: string, d: string, e: string)
    ensures Join([a, b, c, d, e], ' ') == a + [' '] + b + [' '] + c + [' '] + d + [' '] + e
  {
    assert [a, b, c, d, e][1..] == [b, c, d, e] && [b, c, d, e][1..] == [c, d, e] && [c, d, e][1..] == [d, e] && [d, e][1..] == [e];
    assert Join([d, e], ' ') == d + [' '] + e;
    assert Join([c, d, e], ' ') == c + [' '] + (d + [' '] + e);
    assert Join([b, c, d, e], ' ') == b + [' '] + (c + [' '] + (d + [' '] + e));
  }

  lemma MidnightText(day: nat, month: nat, step: Option<nat>)
    ensures ScheduleText(MidnightOn(day, month, step)) ==
            Decimal(0) + [' '] + Decimal(0) + [' '] + Decimal(day) + [' '] + Decimal(month) + [' '] + ListText(Starred(step))
  {
    SingleText(0);
    SingleText(day);
    SingleText(month);
    hide Decimal, ListText, Single, Starred, Join;
    var lists := MidnightOn(day, month, step);
    assert ListTexts(lists) == [Decimal(0), Decimal(0), Decimal(day), Decimal(month), ListText(Starred(step))];
    JoinedFields(Decimal(0), Decimal(0), Decimal(day), Decimal(month), ListText(Starred(step)));
  }

  // Which values the fields have.
  lemma MidnightHas(day: nat, month: nat, step: Option<nat>, field: nat, v: int)
    requires field < FIELDS
    ensures field < 4 ==> (Has(MidnightOn(day, month, step), field, v) <==> v == [0, 0, day, month][field])
    ensures field == 4 ==> (Has(MidnightOn(day, month, step), field, v) <==> Says(Entry(Every, step), 0, 7, v))
  {
    var list := MidnightOn(day, month, step)[field];
    assert |list| == 1;
    assert Has(MidnightOn(day, month, step), field, v) <==> Says(list[0], LowOf(field), HighOf(field), v);
  }

  lemma MidnightLegal(day: nat, month: nat, step: Option<nat>)
    requires 1 <= day <= 31 && 1 <= month <= 12 && (step.Some? ==> 1 <= step.value <= 7)
    ensures forall i :: 0 <= i < FIELDS ==> FieldLegal(MidnightOn(day, month, step), i) && FieldFaithful(MidnightOn(day, month, step), i)
  {
  }

  lemma MidnightParses(day: nat, month: nat, step: Option<nat>, dow: set<int>)
    requires 1 <= day <= 31 && 1 <= month <= 12 && (step.Some? ==> 1 <= step.value <= 7)
    requires forall v :: v in dow <==> v != 7 && (Says(Entry(Every, step), 0, 7, v) || (v == 0 && Says(Entry(Every, step), 0, 7, 7)))
    ensures ParsedCron(ScheduleText(MidnightOn(day, month, step))) == Parsed(Cron({0}, {0}, {day}, {month}, dow, true, false))
  {
    var lists := MidnightOn(day, month, step);
    MidnightLegal(day, month, step);
    MidnightFields(day, month, step, dow);
    hide ParsedCron, ScheduleText, FieldLegal, FieldFaithful, MidnightOn, FieldsAre;
    ScheduleFields(lists);
    SameFields(lists, ParsedCron(ScheduleText(lists)).cron, Cron({0}, {0}, {day}, {month}, dow, true, false));
  }

  lemma MidnightFields(day: nat, month: nat, step: Option<nat>, dow: set<int>)
    requires forall v :: v in dow <==> v != 7 && (Says(Entry(Every, step), 0, 7, v) || (v == 0 && Says(Entry(Every, step), 0, 7, 7)))
    ensures FieldsAre(Cron({0}, {0}, {day}, {month}, dow, true, false), MidnightOn(day, month, step))
  {
    var lists := MidnightOn(day, month, step);
    assert Restricted(lists[2]) && !Restricted(lists[4]);
    forall v
      ensures Has(lists, 0, v) <==> v == 0
      ensures Has(lists, 1, v) <==> v == 0
      ensures Has(lists, 2, v) <==> v == day
      ensures Has(lists, 3, v) <==> v == month
      ensures Has(lists, 4, v) <==> Says(Entry(Every, step), 0, 7, v)
    {
      MidnightHas(day, month, step, 0, v);
      MidnightHas(day, month, step, 1, v);
      MidnightHas(day, month, step, 2, v);
      MidnightHas(day, month, step, 3, v);
      MidnightHas(day, month, step, 4, v);
    }
    hide Has, Says, Restricted, MidnightOn;
  }

  // The lists determine the parsed schedule.
  lemma SameFields(lists: seq<List>, c: Cron, c': Cron)
    requires |lists| == FIELDS && FieldsAre(c, lists) && FieldsAre(c', lists)
    ensures c == c'
  {
    hide Has, Restricted;
    forall v
      ensures v in c.minute <==> v in c'.minute
      ensures v in c.hour <==> v in c'.hour
      ensures v in c.dom <==> v in c'.dom
      ensures v in c.month <==> v in c'.month
      ensures v in c.dow <==> v in c'.dow
    {
    }
    assert c.minute == c'.minute && c.hour == c'.hour && c.dom == c'.dom && c.month == c'.month && c.dow == c'.dow;
  }

  lemma ShortTexts()
    ensures Decimal(0) == "0" && Decimal(1) == "1" && Decimal(2) == "2" && Decimal(7) == "7" && Decimal(29) == "29"
  {
    assert Decimal(29) == Decimal(2) + [Digit(9)];
  }

  // ---------- Midnight of one date ----------

  lemma MidnightAsks(c: Cron, month: int, day: int)
    requires c.minute == {0} && c.hour == {0} && c.dom == {day} && c.month == {month} && IsDate(Date(4, month, day))
    ensures HasTime(c) && HasDate(c) && forall m, d :: AsksDate(c, m, d) <==> m == month && d == day
    ensures forall time :: AsksTime(c, time) <==> time == 0
  {
    assert AsksTime(c, 0);
    assert AsksDate(c, month, day);
  }

  // From the first minute after midnight of a day on, that day is no longer looked at.
  lemma AfterMidnight(c: Cron, day: int, after: int)
    requires after == Midnight(day) * NANOS_PER_MINUTE && forall time :: AsksTime(c, time) <==> time == 0
    ensures CandidateYear(after) == DateOf(day).year && FirstDay(c, after) == day + 1
  {
    hide DateOf;
    assert FirstCandidate(after) == Midnight(day) + 1;
    TimeOfDay(day, 1);
    hide AsksTime, FirstCandidate, DayOf, Limit;
  }

  lemma MidnightMatches(c: Cron, day: int)
    requires AsksTime(c, 0) && AsksDay(c, day)
    ensures Matches(c, Midnight(day))
  {
    hide AsksDay, AsksTime, Matches;
    TimeOfDay(day, 0);
    MatchesMeans(c, Midnight(day));
  }

  // ---------- 29 February ----------

  // Midnight of 29 February, on any weekday.
  const LEAP_DAY := Cron({0}, {0}, {29}, {2}, {0, 1, 2, 3, 4, 5, 6}, true, false)

  lemma EveryWeekdaySaid()
    ensures forall v :: v in {0, 1, 2, 3, 4, 5, 6} <==>
                          v != 7 && (Says(Entry(Every, None), 0, 7, v) || (v == 0 && Says(Entry(Every, None), 0, 7, 7)))
  {
  }

  lemma LeapDayText()
    ensures ParsedCron("0 0 29 2 *") == Parsed(LEAP_DAY)
  {
    StarText(None);
    MidnightText(29, 2, None);
    ShortTexts();
    hide Decimal, ScheduleText, ListText, MidnightOn, Starred, ParsedCron;
    assert ScheduleText(MidnightOn(29, 2, None)) == "0 0 29 2 *";
    EveryWeekdaySaid();
    hide Says;
    MidnightParses(29, 2, None, {0, 1, 2, 3, 4, 5, 6});
  }

  lemma LeapDayFields()
    ensures var c := LEAP_DAY; CanMatch(c) && !EitherDay(c) && AnyWeekday(c) && HasDate(c) && OnlyLeapDay(c)
  {
    MidnightAsks(LEAP_DAY, 2, 29);
    assert 0 in LEAP_DAY.dow;
  }

  // It is missed exactly after an instant from which no leap day is looked at.
  lemma LeapDayMissedExactly(after: int)
    ensures IsMissed(LEAP_DAY, after) <==>
            forall y :: CandidateYear(after) <= y <= CandidateYear(after) + 5 ==> !LeapDaySearched(LEAP_DAY, after, y)
  {
    LeapDayFields();
    hide LeapDaySearched, IsMissed, CandidateYear, CanMatch, EitherDay, AnyWeekday, OnlyLeapDay;
    MissedExactly(LEAP_DAY, after);
  }

  // Around a missing leap year the leap years are eight years apart.
  lemma LeapYearGap(year: int, z: int)
    requires IsLeap(year) && !IsLeap(year + 4)
    ensures IsLeap(year + 8)
    ensures year < z <= year + 5 ==> !IsLeap(z)
  {
    var q := year / 4;
    assert year == 4 * q && year + 4 == 4 * (q + 1);
    assert (year + 4) % 4 == 0;
    var h := (year + 4) / 100;
    assert year + 8 == 100 * h + 4;
    QuotientAndRemainder(year + 8, 100, h, 4);
    QuotientAndRemainder(year + 8, 4, q + 2, 0);
    if year < z <= year + 5 && z != year + 4 {
      var i := z - year;
      QuotientAndRemainder(z, 4, if i == 5 then q + 1 else q, if i == 5 then 1 else i);
    }
  }

  lemma NoLeapYears(year: int)
    requires IsLeap(year) && !IsLeap(year + 4)
    ensures forall y :: year < y <= year + 5 ==> !IsLeap(y)
  {
    forall y | year < y <= year + 5 ensures !IsLeap(y) {
      LeapYearGap(year, y);
    }
  }

  lemma NoLeapDaySearched(year: int, day: int)
    requires IsDate(Date(year, 2, 29)) && day == DayNumber(year, 2, 29)
    requires forall y :: year < y <= year + 5 ==> !IsLeap(y)
    ensures IsMissed(LEAP_DAY, Midnight(day) * NANOS_PER_MINUTE)
  {
    MidnightAsks(LEAP_DAY, 2, 29);
    hide DateOf, DayNumber, IsMissed, CandidateYear, FirstDay, LastDay, FirstCandidate, DayOf, IsDate, AsksTime, IsLeap;
    DateOfDay(year, 2, 29);
    var after := Midnight(day) * NANOS_PER_MINUTE;
    AfterMidnight(LEAP_DAY, day, after);
    assert !LeapDaySearched(LEAP_DAY, after, year);
    LeapDayMissedExactly(after);
  }

  lemma LeapDaysGrow(year: int)
    ensures DayNumber(year, 2, 29) < DayNumber(year + 8, 2, 29)
  {
    AfterFebruary(year);
    YearsGrow(year + 1, year + 8);
    hide DaysBeforeYear;
  }

  // The search window closes between leap days eight years apart: after such a leap day the search
  // finds nothing, although the leap day eight years later matches.
  lemma LeapDayMissed(year: int, day: int, later: int)
    requires IsLeap(year) && !IsLeap(year + 4)
    requires day == DayNumber(year, 2, 29) && later == DayNumber(year + 8, 2, 29)
    ensures NextRun(LEAP_DAY, Midnight(day) * NANOS_PER_MINUTE) == None
    ensures day < later && Matches(LEAP_DAY, Midnight(later))
  {
    hide DateOf, DayNumber, Weekday, Matches, NextRun, HasDate, OnlyLeapDay, CanMatch, AnyWeekday;
    LeapYearGap(year, year);
    NoLeapYears(year);
    assert IsDate(Date(year, 2, 29));
    hide IsLeap;
    NoLeapDaySearched(year, day);
    LeapDaysGrow(year);
    LeapDayFields();
    LeapDayAsked(LEAP_DAY, year + 8);
    assert AsksTime(LEAP_DAY, 0);
    hide AsksDay, AsksTime;
    MidnightMatches(LEAP_DAY, later);
  }

  // ---------- A Sunday on 1 January ----------

  // The weekday field reads */7: a step of 7 from 0 to 7 is Sunday twice, and its star makes it a condition
  // on the date instead of an alternative to it.
  const NEW_YEAR_SUNDAY := Cron({0}, {0}, {1}, {1}, {0}, true, false)

  lemma NewYearSundayText()
    ensures ParsedCron("0 0 1 1 */7") == Parsed(NEW_YEAR_SUNDAY)
  {
    StarText(Some(7));
    MidnightText(1, 1, Some(7));
    ShortTexts();
    hide Decimal, ScheduleText, ListText, MidnightOn, Starred, ParsedCron;
    assert ScheduleText(MidnightOn(1, 1, Some(7))) == "0 0 1 1 */7";
    SundaySaid();
    hide Says;
    MidnightParses(1, 1, Some(7), {0});
  }

  lemma SundaySaid()
    ensures forall v :: v in {0} <==>
                          v != 7 && (Says(Entry(Every, Some(7)), 0, 7, v) || (v == 0 && Says(Entry(Every, Some(7)), 0, 7, 7)))
  {
  }

  // A 1 January that is looked at and is a Sunday.
  ghost predicate NewYearSundaySearched(after: int, year: int) {
    Searched(NEW_YEAR_SUNDAY, after, DayNumber(year, 1, 1)) && Weekday(DayNumber(year, 1, 1)) == 0
  }

  lemma NewYearSundayFields()
    ensures var c := NEW_YEAR_SUNDAY; CanMatch(c) && !EitherDay(c) && !AnyWeekday(c)
  {
    MidnightAsks(NEW_YEAR_SUNDAY, 1, 1);
    assert 0 in NEW_YEAR_SUNDAY.dow && 1 !in NEW_YEAR_SUNDAY.dow;
  }

  lemma NewYearSundayDates(after: int, year: int, month: int, day: int)
    ensures DateSearched(NEW_YEAR_SUNDAY, after, year, month, day) <==> month == 1 && day == 1 && NewYearSundaySearched(after, year)
  {
    MidnightAsks(NEW_YEAR_SUNDAY, 1, 1);
    assert IsDate(Date(year, 1, 1));
    assert 0 <= Weekday(DayNumber(year, 1, 1)) < 7;
    hide Searched, DayNumber, Weekday, AsksDate;
  }

  // It is missed exactly after an instant from which no 1 January that is looked at is a Sunday.
  lemma NewYearSundayMissedExactly(after: int)
    ensures IsMissed(NEW_YEAR_SUNDAY, after) <==>
            forall y :: CandidateYear(after) <= y <= CandidateYear(after) + 5 ==> !NewYearSundaySearched(after, y)
  {
    NewYearSundayFields();
    hide IsMissed, CandidateYear, CanMatch, EitherDay, AnyWeekday, DateSearched, NewYearSundaySearched;
    MissedExactly(NEW_YEAR_SUNDAY, after);
    forall y, m, d
      ensures DateSearched(NEW_YEAR_SUNDAY, after, y, m, d) <==> m == 1 && d == 1 && NewYearSundaySearched(after, y)
    {
      NewYearSundayDates(after, y, m, d);
    }
    assert forall y :: NewYearSundaySearched(after, y) ==> DateSearched(NEW_YEAR_SUNDAY, after, y, 1, 1);
  }

  // A 1 January without a Sunday on the next five ones.
  lemma NewYearSundayMissedAfter(day: int, year: int)
    requires day == DayNumber(year, 1, 1) && forall y :: year < y <= year + 5 ==> Weekday(DayNumber(y, 1, 1)) != 0
    ensures IsMissed(NEW_YEAR_SUNDAY, Midnight(day) * NANOS_PER_MINUTE)
  {
    assert IsDate(Date(year, 1, 1));
    MidnightAsks(NEW_YEAR_SUNDAY, 1, 1);
    DateOfDay(year, 1, 1);
    hide DateOf, IsMissed, CandidateYear, FirstDay, LastDay, DayNumber, AsksTime, Weekday, FirstCandidate, DayOf, IsDate;
    var after := Midnight(day) * NANOS_PER_MINUTE;
    AfterMidnight(NEW_YEAR_SUNDAY, day, after);
    assert !Searched(NEW_YEAR_SUNDAY, after, day);
    NewYearSundayMissedExactly(after);
  }

  // After 1 January 2023, a Sunday, the next such day is eleven years away and the search finds nothing.
  lemma NewYearSundayMissed(day: int, later: int)
    requires day == DayNumber(2023, 1, 1) && later == DayNumber(2034, 1, 1)
    ensures NextRun(NEW_YEAR_SUNDAY, Midnight(day) * NANOS_PER_MINUTE) == None
    ensures day < later && Matches(NEW_YEAR_SUNDAY, Midnight(later))
  {
    hide DateOf, DayNumber, Weekday, Matches, NextRun;
    NewYearSundays();
    DateOfDay(2034, 1, 1);
    NewYearSundayMissedAfter(day, 2023);
    assert AsksDay(NEW_YEAR_SUNDAY, later);
    assert AsksTime(NEW_YEAR_SUNDAY, 0);
    hide AsksDay, AsksTime;
    MidnightMatches(NEW_YEAR_SUNDAY, later);
  }

  lemma NewYearSundays()
    ensures forall y :: 2024 <= y <= 2028 ==> Weekday(DayNumber(y, 1, 1)) != 0
    ensures Weekday(DayNumber(2034, 1, 1)) == 0 && DayNumber(2023, 1, 1) < DayNumber(2034, 1, 1)
  {
  }
}
