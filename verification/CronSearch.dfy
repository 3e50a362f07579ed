/**
 The search for the next minute a cron schedule matches: it skips whole months,
 days and hours that cannot match, and returns the first match all the same.
 Times are local, in a zone with a constant whole-minute offset.
 */
module CronSearch {
  import opened Wrappers
  import opened Calendar

  // The bit sets of the five fields; a day field is restricted unless its text starts with a star.
  datatype Cron = Cron(minute: set<int>, hour: set<int>, dom: set<int>, month: set<int>, dow: set<int>,
                       domRestricted: bool, dowRestricted: bool)

  const NANOS_PER_MINUTE := 60_000_000_000
  const SEARCH_YEARS := 5

  // When both day fields are restricted a day matches either one.
  predicate DayMatches(c: Cron, day: int) {
    var dom, dow := DateOf(day).day in c.dom, Weekday(day) in c.dow;
    if c.domRestricted && c.dowRestricted then dom || dow else dom && dow
  }

  predicate Matches(c: Cron, t: int) {
    && DateOf(DayOf(t)).month in c.month
    && DayMatches(c, DayOf(t))
    && HourOf(t) in c.hour
    && MinuteOf(t) in c.minute
  }

  // The first whole minute strictly after an instant.
  function FirstCandidate(after: int): int {
    after / NANOS_PER_MINUTE + 1
  }

  function Limit(after: int): int {
    AddYears(FirstCandidate(after), SEARCH_YEARS)
  }

  // t is the least minute strictly after an instant that matches, and it comes before the search limit.
  ghost predicate IsNext(c: Cron, after: int, t: int) {
    && t * NANOS_PER_MINUTE > after && t < Limit(after) && Matches(c, t)
    && forall u :: u * NANOS_PER_MINUTE > after && u < t ==> !Matches(c, u)
  }

  ghost predicate NoneBefore(c: Cron, lo: int, hi: int) {
    forall u :: lo <= u < hi ==> !Matches(c, u)
  }

  // ---------- What may be skipped ----------

  function NextMonthStart(t: int): int {
    var d := DateOf(DayOf(t));
    Midnight(DayNumber(d.year, d.month + 1, 1))
  }

  function NextDayStart(t: int): int {
    Midnight(DayOf(t) + 1)
  }

  function NextHourStart(t: int): int {
    Midnight(DayOf(t)) + (HourOf(t) + 1) * 60
  }

  lemma MonthSkip(c: Cron, t: int)
    requires DateOf(DayOf(t)).month !in c.month
    ensures t < NextMonthStart(t) && NoneBefore(c, t, NextMonthStart(t))
  {
    var day := DayOf(t);
    var d := DateOf(day);
    MonthEnds(d.year, d.month);
    var next := DayNumber(d.year, d.month + 1, 1);
    hide DayNumber, DateOf, MonthLength;
    assert day < next;
    forall u | t <= u < Midnight(next) ensures !Matches(c, u) {
      assert day <= DayOf(u) < next;
      SameMonth(day, DayOf(u));
    }
  }

  lemma DaySkip(c: Cron, t: int)
    requires !DayMatches(c, DayOf(t))
    ensures t < NextDayStart(t) && NoneBefore(c, t, NextDayStart(t))
  {
    hide DayMatches, DateOf;
    forall u | t <= u < NextDayStart(t) ensures !Matches(c, u) {
      assert DayOf(u) == DayOf(t);
    }
  }

  // Splitting a minute count into its day and the minutes since midnight.
  lemma WallClock(day: int, minutes: int)
    requires 0 <= minutes < MINUTES_PER_DAY
    ensures DayOf(Midnight(day) + minutes) == day && HourOf(Midnight(day) + minutes) == minutes / 60
  {
    assert (Midnight(day) + minutes) % MINUTES_PER_DAY == minutes;
  }

  lemma HourSkip(c: Cron, t: int)
    requires HourOf(t) !in c.hour
    ensures t < NextHourStart(t) && NoneBefore(c, t, NextHourStart(t))
  {
    hide DayMatches, DateOf;
    var day, hour := DayOf(t), HourOf(t);
    var minutes := t - Midnight(day);
    WallClock(day, minutes);
    assert hour * 60 <= minutes < (hour + 1) * 60 <= MINUTES_PER_DAY;
    forall u | t <= u < NextHourStart(t) ensures !Matches(c, u) {
      WallClock(day, u - Midnight(day));
    }
  }

  // ---------- The search ----------

  method Next(c: Cron, after: int) returns (r: Option<int>)
    ensures r == NextRun(c, after)
  {
    NextRunMeans(c, after);
    hide NextRun, IsNext;
    hide Matches, DateOf, DayMatches, HourOf, NoneBefore, AddYears;
    var t := FirstCandidate(after);
    var limit := AddYears(t, SEARCH_YEARS);
    Nothing(c, t);
    while t < limit
      invariant FirstCandidate(after) <= t
      invariant NoneBefore(c, FirstCandidate(after), t)
      decreases limit - t
    {
      ghost var from := t;
      if DateOf(DayOf(t)).month !in c.month {
        MonthSkip(c, t);
        t := NextMonthStart(t);
      } else if !DayMatches(c, DayOf(t)) {
        DaySkip(c, t);
        t := NextDayStart(t);
      } else if HourOf(t) !in c.hour {
        HourSkip(c, t);
        t := NextHourStart(t);
      } else if MinuteOf(t) !in c.minute {
        MinuteSkip(c, t);
        t := t + 1;
      } else {
        Found(c, after, t);
        return Some(t);
      }
      Joined(c, FirstCandidate(after), from, t);
    }
    Shortened(c, FirstCandidate(after), limit, t);
    return None;
  }

  lemma Nothing(c: Cron, t: int)
    ensures NoneBefore(c, t, t)
  {
  }

  lemma MinuteSkip(c: Cron, t: int)
    requires MinuteOf(t) !in c.minute
    ensures NoneBefore(c, t, t + 1)
  {
    hide DateOf, DayMatches;
  }

  lemma Joined(c: Cron, lo: int, mid: int, hi: int)
    requires NoneBefore(c, lo, mid) && NoneBefore(c, mid, hi)
    ensures NoneBefore(c, lo, hi)
  {
    hide Matches;
  }

  lemma Shortened(c: Cron, lo: int, hi: int, hi': int)
    requires NoneBefore(c, lo, hi') && hi <= hi'
    ensures NoneBefore(c, lo, hi)
  {
    hide Matches;
  }

  lemma Found(c: Cron, after: int, t: int)
    requires FirstCandidate(after) <= t < Limit(after)
    requires DateOf(DayOf(t)).month in c.month && DayMatches(c, DayOf(t)) && HourOf(t) in c.hour && MinuteOf(t) in c.minute
    requires NoneBefore(c, FirstCandidate(after), t)
    ensures IsNext(c, after, t)
  {
    hide DateOf, DayMatches, AddYears;
  }

  // The same search as a function: the least match from a minute on, before a limit.
  ghost function NextMatch(c: Cron, from: int, limit: int): Option<int>
    decreases limit - from
  {
    if from >= limit then None else if Matches(c, from) then Some(from) else NextMatch(c, from + 1, limit)
  }

  lemma {:induction false} NextMatchMeans(c: Cron, from: int, limit: int)
    ensures var r := NextMatch(c, from, limit);
            && (r.Some? ==> from <= r.value < limit && Matches(c, r.value) && NoneBefore(c, from, r.value))
            && (r.None? <==> NoneBefore(c, from, limit))
    decreases limit - from
  {
    hide Matches;
    if from < limit && !Matches(c, from) {
      NextMatchMeans(c, from + 1, limit);
    }
  }

  // The next run after an instant, if the schedule has one within the search limit.
  ghost function NextRun(c: Cron, after: int): Option<int> {
    NextMatch(c, FirstCandidate(after), Limit(after))
  }

  // It is the least matching minute strictly after the instant, and it is missing exactly when no
  // minute matches within the limit.
  lemma NextRunMeans(c: Cron, after: int)
    ensures NextRun(c, after).None? <==> NoneBefore(c, FirstCandidate(after), Limit(after))
    ensures forall t :: IsNext(c, after, t) <==> NextRun(c, after) == Some(t)
  {
    hide Matches, AddYears;
    NextMatchMeans(c, FirstCandidate(after), Limit(after));
  }
}
