/**
 When the search finds nothing although the schedule matches later: exactly which
 schedules, and after which instants. The search looks five years ahead; a schedule
 whose dates are rare, or rarely fall on a weekday it asks for, can match after that.
 */
module MissedMatches {
  import opened Wrappers
  import opened Calendar
  import opened Weekdays
  import opened CronSearch

  // ---------- What the fields ask for ----------

  predicate AsksTime(c: Cron, time: int) {
    0 <= time < MINUTES_PER_DAY && time / 60 in c.hour && time % 60 in c.minute
  }

  ghost predicate HasTime(c: Cron) {
    exists time :: AsksTime(c, time)
  }

  predicate AsksDay(c: Cron, day: int) {
    DateOf(day).month in c.month && DayMatches(c, day)
  }

  // A month and a day of the month that are both asked for and exist in leap years at least.
  predicate AsksDate(c: Cron, month: int, day: int) {
    month in c.month && day in c.dom && IsDate(Date(4, month, day))
  }

  ghost predicate HasDate(c: Cron) {
    exists month, day :: AsksDate(c, month, day)
  }

  ghost predicate HasMonth(c: Cron) {
    exists month :: 1 <= month <= 12 && month in c.month
  }

  ghost predicate HasWeekday(c: Cron) {
    exists w :: 0 <= w < 7 && w in c.dow
  }

  predicate AnyWeekday(c: Cron) {
    forall w :: 0 <= w < 7 ==> w in c.dow
  }

  ghost predicate OnlyLeapDay(c: Cron) {
    forall month, day :: AsksDate(c, month, day) ==> month == 2 && day == 29
  }

  // When both day fields are restricted a day matches either one.
  predicate EitherDay(c: Cron) {
    c.domRestricted && c.dowRestricted
  }

  // Whether a schedule ever matches can be read off its fields.
  ghost predicate CanMatch(c: Cron) {
    && HasTime(c)
    && if EitherDay(c) then HasDate(c) || (HasMonth(c) && HasWeekday(c)) else HasDate(c) && HasWeekday(c)
  }

  // ---------- The days the search looks at ----------

  function CandidateYear(after: int): int {
    DateOf(DayOf(FirstCandidate(after))).year
  }

  // The day of the first candidate counts if a time asked for is still to come on it, and the day of the
  // limit, which has the same time of day, if one comes before it.
  ghost function FirstDay(c: Cron, after: int): int {
    var t := FirstCandidate(after);
    if exists time :: AsksTime(c, time) && time >= t % MINUTES_PER_DAY then DayOf(t) else DayOf(t) + 1
  }

  ghost function LastDay(c: Cron, after: int): int {
    var t := FirstCandidate(after);
    if exists time :: AsksTime(c, time) && time < t % MINUTES_PER_DAY then DayOf(Limit(after)) else DayOf(Limit(after)) - 1
  }

  ghost predicate Searched(c: Cron, after: int, day: int) {
    FirstDay(c, after) <= day <= LastDay(c, after)
  }

  // A 29 February the search looks at.
  ghost predicate LeapDaySearched(c: Cron, after: int, year: int) {
    IsLeap(year) && Searched(c, after, DayNumber(year, 2, 29))
  }

  // A date asked for that exists in a year, is looked at and falls on a weekday asked for.
  ghost predicate DateSearched(c: Cron, after: int, year: int, month: int, day: int) {
    && AsksDate(c, month, day) && IsDate(Date(year, month, day))
    && Searched(c, after, DayNumber(year, month, day)) && Weekday(DayNumber(year, month, day)) in c.dow
  }

  // ---------- The exact condition ----------

  // Nothing is found, although the schedule matches later.
  ghost predicate IsMissed(c: Cron, after: int) {
    NextRun(c, after).None? && exists t :: t * NANOS_PER_MINUTE > after && Matches(c, t)
  }

  // A schedule that asks for weekdays as an alternative is never missed. One that does not depend on the
  // weekday is missed if 29 February is its only date and none is looked at; any other one is missed if in
  // the six years at most that the search looks at, no date asked for falls on a weekday asked for.
  ghost predicate MissCondition(c: Cron, after: int) {
    && CanMatch(c)
    && !(EitherDay(c) && HasWeekday(c))
    && var year := CandidateYear(after);
       if EitherDay(c) || AnyWeekday(c) then
         OnlyLeapDay(c) && forall y :: year <= y <= year + 5 ==> !LeapDaySearched(c, after, y)
       else
         forall y, month, day :: year <= y <= year + 5 ==> !DateSearched(c, after, y, month, day)
  }

  // ---------- Days and times ----------

  lemma MatchesMeans(c: Cron, t: int)
    ensures Matches(c, t) <==> AsksDay(c, DayOf(t)) && AsksTime(c, t % MINUTES_PER_DAY)
  {
    hide DateOf, DayMatches;
    QuotientAndRemainder(t, 60, 24 * (t / MINUTES_PER_DAY) + t % MINUTES_PER_DAY / 60, t % MINUTES_PER_DAY % 60);
  }

  lemma TimeOfDay(day: int, time: int)
    requires 0 <= time < MINUTES_PER_DAY
    ensures DayOf(Midnight(day) + time) == day && (Midnight(day) + time) % MINUTES_PER_DAY == time
  {
    QuotientAndRemainder(Midnight(day) + time, MINUTES_PER_DAY, day, time);
  }

  // The limit has the time of day of the first candidate, on the same date of the fifth year after it.
  lemma LimitMeans(after: int)
    ensures var t := FirstCandidate(after);
            var d := DateOf(DayOf(t));
            && DayOf(Limit(after)) == DayNumber(d.year + 5, d.month, d.day)
            && Limit(after) % MINUTES_PER_DAY == t % MINUTES_PER_DAY
            && DayOf(t) < DayOf(Limit(after))
  {
    var t := FirstCandidate(after);
    FiveYearsForward(t);
    var d := DateOf(DayOf(t));
    hide DateOf, DayNumber, FirstCandidate;
    TimeOfDay(DayNumber(d.year + 5, d.month, d.day), t % MINUTES_PER_DAY);
  }

  lemma SearchedTime(c: Cron, after: int, t: int)
    requires FirstCandidate(after) <= t < Limit(after) && AsksTime(c, t % MINUTES_PER_DAY)
    ensures Searched(c, after, DayOf(t))
  {
    LimitMeans(after);
    hide DateOf, DayNumber, Limit, FirstCandidate;
    var first := FirstCandidate(after);
    if DayOf(t) == DayOf(first) {
      assert t % MINUTES_PER_DAY >= first % MINUTES_PER_DAY;
    }
    if DayOf(t) == DayOf(Limit(after)) {
      assert t % MINUTES_PER_DAY < first % MINUTES_PER_DAY;
    }
  }

  lemma SearchedDay(c: Cron, after: int, day: int) returns (t: int)
    requires HasTime(c) && Searched(c, after, day)
    ensures FirstCandidate(after) <= t < Limit(after) && DayOf(t) == day && AsksTime(c, t % MINUTES_PER_DAY)
  {
    LimitMeans(after);
    hide DateOf, DayNumber, Limit, FirstCandidate, AsksTime;
    var first := FirstCandidate(after);
    var time: int;
    if day == DayOf(first) {
      time :| AsksTime(c, time) && time >= first % MINUTES_PER_DAY;
    } else if day == DayOf(Limit(after)) {
      time :| AsksTime(c, time) && time < first % MINUTES_PER_DAY;
    } else {
      time :| AsksTime(c, time);
    }
    assert 0 <= time < MINUTES_PER_DAY by { TimeInDay(c, time); }
    t := Midnight(day) + time;
    TimeOfDay(day, time);
  }

  lemma TimeInDay(c: Cron, time: int)
    requires AsksTime(c, time)
    ensures 0 <= time < MINUTES_PER_DAY
  {
  }

  // The search finds nothing exactly when no day it looks at is asked for.
  lemma NothingFound(c: Cron, after: int)
    requires HasTime(c)
    ensures NextRun(c, after).None? <==> forall day :: Searched(c, after, day) ==> !AsksDay(c, day)
  {
    NextRunMeans(c, after);
    hide NextRun, Searched, AsksDay, Matches, Limit, FirstCandidate, AsksTime, HasTime, DayOf;
    if NoneBefore(c, FirstCandidate(after), Limit(after)) {
      forall day | Searched(c, after, day) ensures !AsksDay(c, day) {
        var t := SearchedDay(c, after, day);
        MatchesMeans(c, t);
      }
    }
    if forall day :: Searched(c, after, day) ==> !AsksDay(c, day) {
      forall t | FirstCandidate(after) <= t < Limit(after) ensures !Matches(c, t) {
        MatchesMeans(c, t);
        if AsksTime(c, t % MINUTES_PER_DAY) {
          SearchedTime(c, after, t);
        }
      }
    }
  }

  // ---------- Days and years ----------

  lemma AfterFebruary(year: int)
    ensures DayNumber(year, 2, 29) < DaysBeforeYear(year + 1)
  {
    NextYear(year);
    hide DaysBeforeYear;
  }

  lemma DateOfDay(year: int, month: int, day: int)
    requires IsDate(Date(year, month, day))
    ensures DateOf(DayNumber(year, month, day)) == Date(year, month, day)
  {
    hide DateOf, DayNumber;
    DatesAreUnique(DateOf(DayNumber(year, month, day)), Date(year, month, day));
  }

  lemma LaterYear(after: int, d: Date)
    requires IsDate(d) && d.year > CandidateYear(after)
    ensures DayNumber(d.year, d.month, d.day) > DayOf(FirstCandidate(after))
  {
    hide DateOf, DayNumber, FirstCandidate, DayOf;
    DaysFollowDates(DateOf(DayOf(FirstCandidate(after))), d);
  }

  lemma LimitYear(after: int)
    ensures var year := CandidateYear(after) + 5;
            DaysBeforeYear(year) <= DayOf(Limit(after)) < DaysBeforeYear(year + 1)
  {
    LimitMeans(after);
    var d := DateOf(DayOf(FirstCandidate(after)));
    hide DateOf, FirstCandidate, DayOf, Limit, DaysBeforeYear;
    if d.month == 2 && d.day == 29 {
      AfterFebruary(d.year + 5);
    } else {
      DayInYear(Date(d.year + 5, d.month, d.day));
    }
  }

  // Every day of the four years after that of the first candidate is looked at.
  lemma WholeYears(c: Cron, after: int, d: Date)
    requires IsDate(d) && CandidateYear(after) < d.year < CandidateYear(after) + 5
    ensures Searched(c, after, DayNumber(d.year, d.month, d.day))
  {
    hide DateOf, DayNumber, FirstCandidate, DayOf, Limit, DaysBeforeYear, CandidateYear, IsDate, AsksTime, MonthLength;
    LaterYear(after, d);
    LimitYear(after);
    DayInYear(d);
    YearsGrow(d.year + 1, CandidateYear(after) + 5);
  }

  lemma YearWithin(d: Date, day: int, first: int, last: int)
    requires DaysBeforeYear(d.year) <= day < DaysBeforeYear(d.year + 1)
    requires DaysBeforeYear(first) <= day < DaysBeforeYear(last + 1)
    ensures first <= d.year <= last
  {
    hide DaysBeforeYear;
    if d.year < first {
      YearsGrow(d.year + 1, first);
    } else if d.year > last {
      YearsGrow(last + 1, d.year);
    }
  }

  lemma CandidateInYear(after: int)
    ensures DaysBeforeYear(CandidateYear(after)) <= DayOf(FirstCandidate(after))
  {
    hide DateOf, DayOf, DayNumber, FirstCandidate, IsDate, MonthLength, DaysBeforeYear;
    DayInYear(DateOf(DayOf(FirstCandidate(after))));
  }

  lemma SearchedIsLater(c: Cron, after: int, day: int)
    requires Searched(c, after, day)
    ensures DayOf(FirstCandidate(after)) <= day <= DayOf(Limit(after))
  {
    hide Limit, FirstCandidate, AsksTime;
  }

  // No day outside the six years from that of the first candidate is looked at.
  lemma SearchedYears(c: Cron, after: int, day: int)
    requires Searched(c, after, day)
    ensures CandidateYear(after) <= DateOf(day).year <= CandidateYear(after) + 5
  {
    hide DateOf, DayOf, DayNumber, FirstCandidate, IsDate, MonthLength, DaysBeforeYear, Limit, Searched, CandidateYear;
    LimitYear(after);
    CandidateInYear(after);
    SearchedIsLater(c, after, day);
    DayInYear(DateOf(day));
    YearWithin(DateOf(day), day, CandidateYear(after), CandidateYear(after) + 5);
  }

  // One of the first seven days of a month falls on a weekday.
  lemma WeekdayInMonth(year: int, month: int, w: int) returns (d: Date)
    requires 1 <= month <= 12 && 0 <= w < 7
    ensures IsDate(d) && d.year == year && d.month == month && Weekday(DayNumber(year, month, d.day)) == w
  {
    var first := DayNumber(year, month, 1);
    var away := (w - Weekday(first)) % 7;
    d := Date(year, month, 1 + away);
    assert DayNumber(year, month, d.day) == first + away;
    hide DayNumber;
    var q := (first + 1) / 7 + (w - Weekday(first)) / 7;
    QuotientAndRemainder(first + away + 1, 7, (first + 1) / 7 - (w - Weekday(first)) / 7, w);
  }

  // ---------- Whether it ever matches ----------

  lemma DateInLeapYear(d: Date)
    requires IsDate(d)
    ensures IsDate(Date(4, d.month, d.day)) && (d.month == 2 && d.day == 29 ==> IsLeap(d.year))
  {
    assert IsLeap(4);
  }

  lemma MatchingMeansAsked(c: Cron, t: int)
    requires Matches(c, t)
    ensures CanMatch(c)
  {
    MatchesMeans(c, t);
    var d := DateOf(DayOf(t));
    DateInLeapYear(d);
    assert 0 <= Weekday(DayOf(t)) < 7;
    assert 1 <= d.month <= 12;
    hide DateOf, Matches, DayOf, AsksTime, IsDate, Weekday;
    assert d.day in c.dom ==> AsksDate(c, d.month, d.day);
  }

  lemma DateAsked(c: Cron, d: Date)
    requires IsDate(d) && AsksDate(c, d.month, d.day)
    requires EitherDay(c) || Weekday(DayNumber(d.year, d.month, d.day)) in c.dow
    ensures AsksDay(c, DayNumber(d.year, d.month, d.day))
  {
    DateOfDay(d.year, d.month, d.day);
    hide DateOf, DayNumber, IsDate, Weekday;
  }

  // A day of a later year that is asked for.
  lemma LaterDay(c: Cron, from: int) returns (d: Date)
    requires CanMatch(c)
    ensures IsDate(d) && d.year > from && AsksDay(c, DayNumber(d.year, d.month, d.day))
  {
    hide AsksTime, HasTime, DateOf, DayNumber, Weekday, IsDate;
    if HasDate(c) {
      var month, day :| AsksDate(c, month, day);
      var w := 0;
      if HasWeekday(c) {
        w :| 0 <= w < 7 && w in c.dow;
      }
      var year := EveryWeekday(month, day, w, from);
      d := Date(year, month, day);
      DateAsked(c, d);
    } else {
      var month :| 1 <= month <= 12 && month in c.month;
      d := WeekdayAsked(c, from + 1, month);
    }
  }

  lemma WeekdayAsked(c: Cron, year: int, month: int) returns (d: Date)
    requires EitherDay(c) && HasWeekday(c) && 1 <= month <= 12 && month in c.month
    ensures IsDate(d) && d.year == year && AsksDay(c, DayNumber(d.year, d.month, d.day))
  {
    var w :| 0 <= w < 7 && w in c.dow;
    d := WeekdayInMonth(year, month, w);
    DateOfDay(year, month, d.day);
    hide DateOf, DayNumber, IsDate, Weekday;
  }

  // A schedule matches after an instant exactly when its fields can match at all.
  lemma MatchesLaterExactly(c: Cron, after: int)
    ensures CanMatch(c) <==> exists t :: t * NANOS_PER_MINUTE > after && Matches(c, t)
  {
    hide AsksDay, Matches, DateOf, DayNumber, FirstCandidate, MonthLength, AsksTime, HasDate, HasMonth, HasWeekday;
    if t :| t * NANOS_PER_MINUTE > after && Matches(c, t) {
      MatchingMeansAsked(c, t);
    }
    if CanMatch(c) {
      var d := LaterDay(c, CandidateYear(after));
      LaterYear(after, d);
      var day := DayNumber(d.year, d.month, d.day);
      var time :| AsksTime(c, time);
      TimeInDay(c, time);
      TimeOfDay(day, time);
      MatchesMeans(c, Midnight(day) + time);
      AfterCandidate(after, Midnight(day) + time);
    }
  }

  lemma AfterCandidate(after: int, t: int)
    requires DayOf(t) > DayOf(FirstCandidate(after))
    ensures t * NANOS_PER_MINUTE > after
  {
  }

  // ---------- When it is missed ----------

  // Asking for weekdays as an alternative finds a day in the month asked for of the very next year.
  lemma AlternativeFound(c: Cron, after: int)
    requires CanMatch(c) && EitherDay(c) && HasWeekday(c)
    ensures NextRun(c, after).Some?
  {
    assert HasMonth(c) by {
      if HasDate(c) {
        var month, day :| AsksDate(c, month, day);
        assert 1 <= month <= 12 && month in c.month;
      }
    }
    hide AsksDay, DateOf, DayNumber, IsDate, AsksTime, HasTime, Searched, NextRun, HasWeekday, DayMatches;
    var month :| 1 <= month <= 12 && month in c.month;
    var d := WeekdayAsked(c, CandidateYear(after) + 1, month);
    WholeYears(c, after, d);
    NothingFound(c, after);
  }

  // What asking for a day means when weekdays are no alternative.
  lemma AsksDayMeans(c: Cron, day: int)
    requires !(EitherDay(c) && HasWeekday(c))
    ensures var d := DateOf(day);
            AsksDay(c, day) <==> AsksDate(c, d.month, d.day) && (EitherDay(c) || Weekday(day) in c.dow)
  {
    DateInLeapYear(DateOf(day));
    assert 0 <= Weekday(day) < 7;
    hide DateOf, DayNumber, IsDate, Weekday;
  }

  lemma DatesDecide(c: Cron, after: int)
    requires CanMatch(c) && !(EitherDay(c) && HasWeekday(c)) && (EitherDay(c) || AnyWeekday(c))
    ensures NextRun(c, after).None? <==>
            OnlyLeapDay(c) && forall y :: CandidateYear(after) <= y <= CandidateYear(after) + 5 ==> !LeapDaySearched(c, after, y)
  {
    hide DateOf, DayNumber, IsDate, AsksTime, HasTime, Searched, NextRun, HasWeekday, DayMatches,
         AsksDay, AsksDate, HasMonth, CandidateYear;
    NothingFound(c, after);
    var year := CandidateYear(after);
    if !OnlyLeapDay(c) {
      var month, day :| AsksDate(c, month, day) && !(month == 2 && day == 29);
      OrdinaryDateFound(c, after, Date(year + 1, month, day));
    } else {
      if day :| Searched(c, after, day) && AsksDay(c, day) {
        LeapDayFound(c, after, day);
      }
      if y :| year <= y <= year + 5 && LeapDaySearched(c, after, y) {
        LeapDayAsked(c, y);
      }
    }
  }

  lemma OrdinaryDateFound(c: Cron, after: int, d: Date)
    requires AsksDate(c, d.month, d.day) && !(d.month == 2 && d.day == 29) && d.year == CandidateYear(after) + 1
    requires EitherDay(c) || AnyWeekday(c)
    ensures Searched(c, after, DayNumber(d.year, d.month, d.day)) && AsksDay(c, DayNumber(d.year, d.month, d.day))
  {
    DateInYear(d.month, d.day, d.year);
    hide DateOf, DayNumber, IsDate, AsksTime, Searched, AsksDay, CandidateYear;
    WholeYears(c, after, d);
    assert 0 <= Weekday(DayNumber(d.year, d.month, d.day)) < 7;
    DateAsked(c, d);
  }

  lemma LeapDayFound(c: Cron, after: int, day: int)
    requires Searched(c, after, day) && AsksDay(c, day) && OnlyLeapDay(c) && !(EitherDay(c) && HasWeekday(c))
    ensures CandidateYear(after) <= DateOf(day).year <= CandidateYear(after) + 5
    ensures LeapDaySearched(c, after, DateOf(day).year)
  {
    SearchedYears(c, after, day);
    AsksDayMeans(c, day);
    var d := DateOf(day);
    DateInLeapYear(d);
    hide DateOf, DayNumber, IsDate, AsksTime, Searched, AsksDay, CandidateYear, AsksDate, IsLeap;
    assert d.month == 2 && d.day == 29;
  }

  lemma LeapDayAsked(c: Cron, year: int)
    requires IsLeap(year) && HasDate(c) && OnlyLeapDay(c) && (EitherDay(c) || AnyWeekday(c))
    ensures AsksDay(c, DayNumber(year, 2, 29))
  {
    var month, day :| AsksDate(c, month, day);
    assert AsksDate(c, 2, 29);
    assert IsDate(Date(year, 2, 29));
    hide DateOf, DayNumber, IsDate, AsksDay, OnlyLeapDay;
    assert 0 <= Weekday(DayNumber(year, 2, 29)) < 7;
    DateAsked(c, Date(year, 2, 29));
  }

  lemma WeekdaysDecide(c: Cron, after: int)
    requires CanMatch(c) && !EitherDay(c)
    ensures NextRun(c, after).None? <==>
            forall y, month, day :: CandidateYear(after) <= y <= CandidateYear(after) + 5 ==> !DateSearched(c, after, y, month, day)
  {
    hide DateOf, DayNumber, MonthLength, AsksTime, HasTime, Searched, NextRun, HasWeekday, HasDate, DayMatches, AsksDay,
         AsksDate, HasMonth, CandidateYear, Weekday;
    NothingFound(c, after);
    var year := CandidateYear(after);
    if day :| Searched(c, after, day) && AsksDay(c, day) {
      var d := DateOf(day);
      SearchedYears(c, after, day);
      AsksDayMeans(c, day);
      assert DayNumber(d.year, d.month, d.day) == day && IsDate(d);
      assert DateSearched(c, after, d.year, d.month, d.day);
    }
    if y, month, day :| year <= y <= year + 5 && DateSearched(c, after, y, month, day) {
      DateAsked(c, Date(y, month, day));
    }
  }

  // Exactly when the search finds nothing although the schedule matches later.
  lemma MissedExactly(c: Cron, after: int)
    ensures IsMissed(c, after) <==> MissCondition(c, after)
  {
    MatchesLaterExactly(c, after);
    hide HasTime, HasDate, HasMonth, OnlyLeapDay, CandidateYear, LeapDaySearched, DateSearched, NextRun, Matches, AnyWeekday;
    if CanMatch(c) {
      hide CanMatch;
      if EitherDay(c) && HasWeekday(c) {
        AlternativeFound(c, after);
      } else if EitherDay(c) || AnyWeekday(c) {
        DatesDecide(c, after);
      } else {
        WeekdaysDecide(c, after);
      }
    }
  }

  // So the search finds nothing for two reasons only: the fields can never match, or the match is missed.
  lemma NothingFoundExactly(c: Cron, after: int)
    ensures NextRun(c, after).None? <==> !CanMatch(c) || MissCondition(c, after)
    ensures !CanMatch(c) <==> forall t :: t * NANOS_PER_MINUTE > after ==> !Matches(c, t)
  {
    hide CanMatch, MissCondition, NextRun, Matches;
    MissedExactly(c, after);
    MatchesLaterExactly(c, after);
    if NextRun(c, after).Some? {
      NextRunMeans(c, after);
      assert IsNext(c, after, NextRun(c, after).value);
    }
  }
}
