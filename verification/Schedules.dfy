/**
 Schedules fire when a match of their cron expression has passed. The scheduler
 keeps one next run per schedule; firing and editing both compute it afresh from
 the current time, so a backlog fires once and never as a burst.
 */
module Schedules {
  import opened Wrappers
  import opened Calendar
  import opened CronSearch
  import opened CronText
  import opened CronMeaning
  import opened MissedMatches
  import RareSchedules

  type ScheduleId = string

  datatype Parsing = Parsing(text: string, cron: Cron)

  // An expression as it is stored, with what its text parses to.
  type Expression = e: Parsing | ParsedCron(e.text) == Parsed(e.cron) witness LeapDays()

  function LeapDays(): (e: Parsing)
    ensures ParsedCron(e.text) == Parsed(e.cron)
  {
    RareSchedules.LeapDayText();
    Parsing("0 0 29 2 *", RareSchedules.LEAP_DAY)
  }

  // The expression that is stored for a text, if the text is one.
  ghost function ReadExpression(text: string): Option<Expression> {
    match ParsedCron(NormalizedCron(text))
    case Parsed(cron) => Some(Parsing(NormalizedCron(text), cron))
    case _ => None
  }

  // The requested changes of an edit; details stands for the name, the kind and the scope.
  datatype Change = Change(expression: Option<Expression>, enabled: Option<bool>, details: Option<string>)

  datatype Request = Request(text: Option<string>, enabled: Option<bool>, details: Option<string>)

  ghost predicate IsReadable(request: Request) {
    request.text.Some? ==> ReadExpression(request.text.value).Some?
  }

  ghost function ChangeOf(request: Request): Change
    requires IsReadable(request)
  {
    Change(if request.text.Some? then ReadExpression(request.text.value) else None, request.enabled, request.details)
  }

  // A schedule row. since is when next was last computed: at creation, an edit or a firing.
  datatype Schedule = Schedule(expression: Expression, details: string, enabled: bool, next: Option<int>, last: Option<int>,
                               version: nat, since: int)

  const MAX_DUE_PER_PASS := 20

  // The stored next run has come: a match t stands for the instant t * NANOS_PER_MINUTE.
  predicate Due(sc: Schedule, now: int) {
    sc.enabled && sc.next.Some? && sc.next.value * NANOS_PER_MINUTE <= now
  }

  function DueIds(table: map<ScheduleId, Schedule>, now: int): set<ScheduleId> {
    set id | id in table && Due(table[id], now)
  }

  ghost function Fired(sc: Schedule, now: int): Schedule {
    sc.(next := NextRun(sc.expression.cron, now), last := Some(now), since := now)
  }

  ghost function FiredAll(table: map<ScheduleId, Schedule>, ids: set<ScheduleId>, now: int): map<ScheduleId, Schedule> {
    map id | id in table :: if id in ids then Fired(table[id], now) else table[id]
  }

  lemma NoneFired(table: map<ScheduleId, Schedule>, now: int)
    ensures FiredAll(table, IdsOf([]), now) == table
  {
  }

  // Firing one more schedule.
  lemma FireOne(table: map<ScheduleId, Schedule>, ids: seq<ScheduleId>, id: ScheduleId, now: int)
    requires id in table && id !in ids
    ensures id in FiredAll(table, IdsOf(ids), now) && FiredAll(table, IdsOf(ids), now)[id] == table[id]
    ensures FiredAll(table, IdsOf(ids + [id]), now) == FiredAll(table, IdsOf(ids), now)[id := Fired(table[id], now)]
  {
    hide Fired;
  }

  function IdsOf(ids: seq<ScheduleId>): set<ScheduleId> {
    set id | id in ids
  }

  // An enabled schedule whose next run is at or before now.
  predicate IsDue(sc: Schedule, now: int) {
    sc.enabled && sc.next.Some? && sc.next.value * NANOS_PER_MINUTE <= now
  }

  lemma DueMeans(now: int)
    ensures forall sc: Schedule :: Due(sc, now) <==> IsDue(sc, now)
  {
    hide ParsedCron;
  }

  lemma FiredRows(table: map<ScheduleId, Schedule>, ids: seq<ScheduleId>, now: int)
    ensures var fired := FiredAll(table, IdsOf(ids), now);
            && fired.Keys == table.Keys
            && forall id :: id in fired ==>
                 fired[id] == if id in ids then table[id].(next := NextRun(table[id].expression.cron, now), last := Some(now), since := now)
                              else table[id]
  {
    hide NextRun, ParsedCron;
  }

  datatype Outcome = Saved | Invalid | Missing | Stale | Rejected | NeverMatches

  class Scheduler {
    var table: map<ScheduleId, Schedule>
    // Every firing so far, in order.
    var firings: seq<(ScheduleId, int)>

    constructor ()
      ensures table == map[] && firings == []
    {
      table, firings := map[], [];
    }

    // Picks the due schedule with the earliest next run.
    method Earliest(ids: set<ScheduleId>, now: int) returns (first: ScheduleId)
      requires ids != {} && forall id :: id in ids ==> id in table && Due(table[id], now)
      ensures first in ids && first in table && table[first].next.Some?
      ensures forall id :: id in ids ==> id in table && table[id].next.Some? && table[first].next.value <= table[id].next.value
    {
      first :| first in ids;
      var rest := ids - {first};
      while rest != {}
        invariant first in ids && rest <= ids
        invariant forall id :: id in ids - rest ==> table[first].next.value <= table[id].next.value
        decreases rest
      {
        var id :| id in rest;
        if table[id].next.value < table[first].next.value {
          first := id;
        }
        rest := rest - {id};
      }
    }

    // Reads the due schedules that no other transaction has locked, earliest first, at most twenty.
    method SelectDue(now: int, locked: set<ScheduleId>) returns (dues: seq<ScheduleId>)
      ensures forall i, j :: 0 <= i < j < |dues| ==> dues[i] != dues[j]
      ensures forall id :: id in dues ==> id in table && Due(table[id], now) && id !in locked
      ensures |dues| <= MAX_DUE_PER_PASS
      ensures |dues| < MAX_DUE_PER_PASS ==> forall id :: id in table && Due(table[id], now) && id !in locked ==> id in dues
      ensures forall id, o :: id in dues && o in DueIds(table, now) - locked && o !in dues ==>
                table[id].next.value <= table[o].next.value
    {
      dues := [];
      var rest := DueIds(table, now) - locked;
      while rest != {} && |dues| < MAX_DUE_PER_PASS
        invariant rest <= DueIds(table, now) - locked
        invariant forall id :: id in DueIds(table, now) - locked ==> (id in rest <==> id !in dues)
        invariant forall id :: id in dues ==> id in DueIds(table, now) - locked
        invariant forall i, j :: 0 <= i < j < |dues| ==> dues[i] != dues[j]
        invariant |dues| <= MAX_DUE_PER_PASS
        invariant forall id, o :: id in dues && o in rest ==> table[id].next.value <= table[o].next.value
        decreases rest
      {
        var id := Earliest(rest, now);
        dues, rest := dues + [id], rest - {id};
      }
    }

    // One pass of the scheduler: every selected schedule fires once and gets its next run. failing are the
    // schedules whose items cannot be queued; one of them undoes the whole pass.
    method RunDueSchedules(now: int, locked: set<ScheduleId>, failing: set<ScheduleId>) returns (dues: seq<ScheduleId>, ok: bool)
      modifies this
      ensures ok <==> forall id :: id in dues ==> id !in failing
      ensures ok ==>
                && table == FiredAll(old(table), IdsOf(dues), now)
                && firings == old(firings) + seq(|dues|, i requires 0 <= i < |dues| => (dues[i], now))
                && table.Keys == old(table.Keys)
                && forall id :: id in table ==>
                     table[id] == if id in dues then old(table)[id].(next := NextRun(old(table)[id].expression.cron, now),
                                                                     last := Some(now), since := now)
                                  else old(table)[id]
      ensures !ok ==> table == old(table) && firings == old(firings)
      ensures forall id :: id in dues ==> id in old(table) && IsDue(old(table)[id], now) && id !in locked
      ensures |dues| < 20 ==> forall id :: id in old(table) && IsDue(old(table)[id], now) && id !in locked ==> id in dues
    {
      hide NextRun, Due, FiredAll, IdsOf, ParsedCron;
      NoneFired(table, now);
      dues := SelectDue(now, locked);
      var before, log := table, firings;
      assert dues[..0] == [];
      for i := 0 to |dues|
        invariant table == FiredAll(before, IdsOf(dues[..i]), now)
        invariant firings == log + seq(i, j requires 0 <= j < i => (dues[j], now))
        invariant forall j :: 0 <= j < i ==> dues[j] !in failing
      {
        var id := dues[i];
        assert id !in dues[..i];
        assert dues[..i + 1] == dues[..i] + [id];
        FireOne(before, dues[..i], id, now);
        var sc := table[id];
        var next := Next(sc.expression.cron, now);
        if id in failing {
          table, firings := before, log;
          DueMeans(now);
          return dues, false;
        }
        table := table[id := sc.(next := next, last := Some(now), since := now)];
        firings := firings + [(id, now)];
      }
      assert dues[..|dues|] == dues;
      FiredRows(before, dues, now);
      DueMeans(now);
      return dues, true;
    }

    // The expression of a text, as it is stored.
    static method Read(text: string) returns (r: Option<Expression>)
      ensures r == ReadExpression(text)
    {
      hide ParsedCron;
      var parsed := ParseCron(NormalizedCron(text));
      if parsed.Parsed? {
        return Some(Parsing(NormalizedCron(text), parsed.cron));
      }
      return None;
    }

    // A new schedule is refused when its text is no expression or has no next run. rejected stands for a
    // constraint of the table, such as a name that is taken.
    method CreateSchedule(id: ScheduleId, text: string, details: string, enabled: bool, now: int, rejected: bool)
      returns (r: Outcome)
      requires id !in table
      modifies this`table
      ensures r == CreateOutcome(text, now, rejected)
      ensures r != Saved ==> table == old(table)
      ensures r == Saved ==> ReadExpression(text).Some?
                             && table == old(table)[id := Created(ReadExpression(text).value, details, enabled, now)]
                             && id in table
                             && var sc := table[id];
                                && sc.expression == ReadExpression(text).value && sc.details == details && sc.enabled == enabled
                                && sc.next == (if enabled then NextRun(sc.expression.cron, now) else None)
                                && sc.last == None && sc.version == 1 && sc.since == now
    {
      hide NextRun, ReadExpression;
      var expression := Read(text);
      if expression.None? {
        return Invalid;
      }
      var next := Next(expression.value.cron, now);
      if next.None? {
        return NeverMatches;
      }
      if rejected {
        return Rejected;
      }
      table := table[id := Schedule(expression.value, details, enabled, if enabled then next else None, None, 1, now)];
      return Saved;
    }

    // A versioned edit; a changed row gets its next run from the current time, or the edit is undone.
    method EditSchedule(id: ScheduleId, version: nat, request: Request, now: int, rejected: bool) returns (r: Outcome)
      modifies this`table
      ensures r == Invalid <==> !IsReadable(request)
      ensures r != Invalid ==> IsReadable(request) && r == EditOutcome(old(table), id, version, ChangeOf(request), now, rejected)
      ensures r != Saved ==> table == old(table)
      ensures r == Saved ==> id in old(table) && table == Edited(old(table), id, ChangeOf(request), now)
      ensures r == Saved ==> IsReadable(request) && SavedAs(old(table), id, request, now, table)
    {
      hide NextRun, ReadExpression;
      var expression: Option<Expression> := None;
      if request.text.Some? {
        expression := Read(request.text.value);
        if expression.None? {
          return Invalid;
        }
        var next := Next(expression.value.cron, now);
        if next.None? {
          return NeverMatches;
        }
      }
      var change := Change(expression, request.enabled, request.details);
      hide SavedAs, ParsedCron;
      if id in table {
        EditedMeans(table, id, request, now);
      }
      if id !in table {
        return Missing;
      }
      var sc := table[id];
      if sc.version != version {
        return Stale;
      }
      if !Changes(sc, change) {
        return Saved;
      }
      if rejected {
        return Rejected;
      }
      var sc' := Updated(sc, change);
      var next := None;
      if sc'.enabled {
        next := Next(sc'.expression.cron, now);
        if next.None? {
          return NeverMatches;
        }
      }
      table := table[id := sc'.(next := next, since := now)];
      return Saved;
    }
  }

  // What a saved edit leaves: the requested columns, or the old ones where nothing was requested, and unless
  // nothing changed the next version with a next run computed from the new columns.
  ghost predicate SavedAs(table: map<ScheduleId, Schedule>, id: ScheduleId, request: Request, now: int,
                          table': map<ScheduleId, Schedule>)
    requires id in table && IsReadable(request)
  {
    && id in table' && table' == table[id := table'[id]]
    && var sc, sc' := table[id], table'[id];
       && (request.text.Some? ==> sc'.expression == ReadExpression(request.text.value).value)
       && (request.text.None? ==> sc'.expression == sc.expression)
       && (request.enabled.Some? ==> sc'.enabled == request.enabled.value)
       && (request.enabled.None? ==> sc'.enabled == sc.enabled)
       && (request.details.Some? ==> sc'.details == request.details.value)
       && (request.details.None? ==> sc'.details == sc.details)
       && sc'.last == sc.last
       && if sc'.expression == sc.expression && sc'.enabled == sc.enabled && sc'.details == sc.details then sc' == sc
          else sc'.version == sc.version + 1 && sc'.since == now
               && sc'.next == if sc'.enabled then NextRun(sc'.expression.cron, now) else None
  }

  lemma EditedMeans(table: map<ScheduleId, Schedule>, id: ScheduleId, request: Request, now: int)
    requires id in table && IsReadable(request)
    ensures SavedAs(table, id, request, now, Edited(table, id, ChangeOf(request), now))
  {
    hide NextRun, ReadExpression, ParsedCron;
  }

  ghost function CreateOutcome(text: string, now: int, rejected: bool): Outcome {
    match ReadExpression(text)
    case None => Invalid
    case Some(e) => if NextRun(e.cron, now).None? then NeverMatches else if rejected then Rejected else Saved
  }

  ghost function Created(expression: Expression, details: string, enabled: bool, now: int): Schedule {
    Schedule(expression, details, enabled, if enabled then NextRun(expression.cron, now) else None, None, 1, now)
  }

  function Requested<T>(stored: T, requested: Option<T>): T {
    if requested.Some? then requested.value else stored
  }

  // The edited columns with the next version.
  function Updated(sc: Schedule, change: Change): Schedule {
    sc.(expression := Requested(sc.expression, change.expression), enabled := Requested(sc.enabled, change.enabled),
        details := Requested(sc.details, change.details), version := sc.version + 1)
  }

  predicate Changes(sc: Schedule, change: Change) {
    Updated(sc, change) != sc.(version := sc.version + 1)
  }

  ghost function EditOutcome(table: map<ScheduleId, Schedule>, id: ScheduleId, version: nat, change: Change, now: int,
                             rejected: bool): Outcome {
    if change.expression.Some? && NextRun(change.expression.value.cron, now).None? then NeverMatches
    else if id !in table then Missing
    else if table[id].version != version then Stale
    else if Changes(table[id], change) && rejected then Rejected
    else if Changes(table[id], change) && Updated(table[id], change).enabled
            && NextRun(Updated(table[id], change).expression.cron, now).None? then NeverMatches
    else Saved
  }

  // The table after an accepted edit; an edit that changes nothing leaves the row alone.
  ghost function Edited(table: map<ScheduleId, Schedule>, id: ScheduleId, change: Change, now: int): map<ScheduleId, Schedule>
    requires id in table
  {
    if !Changes(table[id], change) then table
    else
      var sc := Updated(table[id], change);
      table[id := sc.(next := if sc.enabled then NextRun(sc.expression.cron, now) else None, since := now)]
  }

  // ---------- Whole runs ----------

  datatype Event =
    | Pass(now: int, dues: set<ScheduleId>)
    | Create(id: ScheduleId, expression: Expression, details: string, enabled: bool, now: int)
    | Edit(id: ScheduleId, version: nat, change: Change, now: int)

  ghost predicate Allowed(table: map<ScheduleId, Schedule>, e: Event) {
    match e
    case Pass(now, dues) => dues <= DueIds(table, now)
    case Create(id, expression, _, _, now) => id !in table && NextRun(expression.cron, now).Some?
    case Edit(id, version, change, now) => EditOutcome(table, id, version, change, now, false) == Saved
  }

  ghost function After(table: map<ScheduleId, Schedule>, e: Event): map<ScheduleId, Schedule>
    requires Allowed(table, e)
  {
    match e
    case Pass(now, dues) => FiredAll(table, dues, now)
    case Create(id, expression, details, enabled, now) => table[id := Created(expression, details, enabled, now)]
    case Edit(id, version, change, now) => Edited(table, id, change, now)
  }

  // Tables joined by events whose times never go back, from an empty table.
  datatype History = History(tables: seq<map<ScheduleId, Schedule>>, events: seq<Event>) {
    ghost predicate Valid() {
      && |tables| == |events| + 1 && tables[0] == map[]
      && (forall i :: 0 <= i < |events| ==> Allowed(tables[i], events[i]) && tables[i + 1] == After(tables[i], events[i]))
      && (forall i, j :: 0 <= i < j < |events| ==> events[i].now <= events[j].now)
    }
  }

  // The next run of an enabled schedule is the one its expression gives from the last time it was computed.
  ghost predicate RowOk(sc: Schedule, clock: int) {
    && sc.next == (if sc.enabled then NextRun(sc.expression.cron, sc.since) else None)
    && sc.since <= clock
    && (sc.last.Some? ==> sc.last.value <= sc.since)
  }

  ghost predicate TableOk(table: map<ScheduleId, Schedule>, clock: int) {
    forall id :: id in table ==> RowOk(table[id], clock)
  }

  lemma EventKeepsTable(table: map<ScheduleId, Schedule>, e: Event, clock: int)
    requires TableOk(table, clock) && Allowed(table, e) && clock <= e.now
    ensures TableOk(After(table, e), e.now)
  {
    hide NextRun;
  }

  function ClockAt(h: History, i: nat): int
    requires i <= |h.events| && |h.events| > 0
  {
    if i == 0 then h.events[0].now else h.events[i - 1].now
  }

  lemma {:induction false} HistoryOk(h: History, i: nat)
    requires h.Valid() && |h.events| > 0 && i <= |h.events|
    ensures TableOk(h.tables[i], ClockAt(h, i))
    decreases i
  {
    if i > 0 {
      HistoryOk(h, i - 1);
      hide TableOk, After, Allowed;
      EventKeepsTable(h.tables[i - 1], h.events[i - 1], ClockAt(h, i - 1));
    }
  }

  ghost predicate FiresAt(h: History, i: nat, id: ScheduleId)
    requires i < |h.events|
  {
    h.events[i].Pass? && id in h.events[i].dues
  }

  // Between a firing and the next one only edits touch the row, and they keep the time of the firing.
  lemma {:induction false} LastFiring(h: History, i: nat, k: nat, id: ScheduleId)
    requires h.Valid() && i < k < |h.tables| && FiresAt(h, i, id)
    requires forall j :: i < j < k ==> !FiresAt(h, j, id)
    ensures id in h.tables[k] && h.tables[k][id].last == Some(h.events[i].now)
    decreases k - i
  {
    hide After, Allowed, ParsedCron;
    assert Allowed(h.tables[k - 1], h.events[k - 1]) && h.tables[k] == After(h.tables[k - 1], h.events[k - 1]);
    if i + 1 < k {
      LastFiring(h, i, k - 1, id);
      assert !FiresAt(h, k - 1, id);
      EventKeepsLast(h.tables[k - 1], h.events[k - 1], id);
    } else {
      FiringSetsLast(h.tables[i], h.events[i], id);
    }
  }

  lemma EventKeepsLast(table: map<ScheduleId, Schedule>, e: Event, id: ScheduleId)
    requires Allowed(table, e) && id in table && !(e.Pass? && id in e.dues)
    ensures id in After(table, e) && After(table, e)[id].last == table[id].last
  {
    hide NextRun;
  }

  lemma FiringSetsLast(table: map<ScheduleId, Schedule>, e: Event, id: ScheduleId)
    requires Allowed(table, e) && e.Pass? && id in e.dues
    ensures id in After(table, e) && After(table, e)[id].last == Some(e.now)
  {
    hide NextRun;
  }

  // A match of the expression lies after one instant and not after another.
  ghost predicate MatchWithin(c: Cron, after: int, upTo: int) {
    exists t :: after < t * NANOS_PER_MINUTE <= upTo && Matches(c, t)
  }

  // A due row has a match between the last time its next run was computed and now.
  lemma DueMeansMatch(sc: Schedule, clock: int, now: int)
    requires RowOk(sc, clock) && Due(sc, now)
    ensures Matches(sc.expression.cron, sc.next.value) && sc.since < sc.next.value * NANOS_PER_MINUTE <= now
  {
    NextRunMeans(sc.expression.cron, sc.since);
    assert IsNext(sc.expression.cron, sc.since, sc.next.value);
  }

  // Two consecutive firings of a schedule are separated by a match of its current expression, however
  // the schedule was edited between them and however long the scheduler was down.
  lemma FiringsAreSeparatedByMatches(h: History, i: nat, k: nat, id: ScheduleId)
    requires h.Valid() && i < k < |h.events| && FiresAt(h, i, id) && FiresAt(h, k, id)
    requires forall j :: i < j < k ==> !FiresAt(h, j, id)
    ensures id in h.tables[k] && h.events[i].now < h.events[k].now
    ensures MatchWithin(h.tables[k][id].expression.cron, h.events[i].now, h.events[k].now)
  {
    LastFiring(h, i, k, id);
    HistoryOk(h, k);
    hide NextRun, After;
    var sc := h.tables[k][id];
    assert Allowed(h.tables[k], h.events[k]);
    assert RowOk(sc, ClockAt(h, k));
    DueMeansMatch(sc, ClockAt(h, k), h.events[k].now);
  }

  // At every time the stored next run of a schedule matches its stored expression.
  lemma NextRunAlwaysMatches(h: History, i: nat, id: ScheduleId)
    requires h.Valid() && |h.events| > 0 && i <= |h.events| && id in h.tables[i] && h.tables[i][id].next.Some?
    ensures h.tables[i][id].enabled && Matches(h.tables[i][id].expression.cron, h.tables[i][id].next.value)
  {
    HistoryOk(h, i);
    var sc := h.tables[i][id];
    assert RowOk(sc, ClockAt(h, i));
    hide TableOk, After, Allowed;
    NextRunMeans(sc.expression.cron, sc.since);
    assert IsNext(sc.expression.cron, sc.since, sc.next.value);
  }

  // No match is missed: an enabled schedule is due exactly when a match has passed since its next run
  // was computed, as long as that match lies within the search limit.
  lemma DueExactlyAfterMatch(h: History, i: nat, id: ScheduleId, now: int)
    requires h.Valid() && |h.events| > 0 && i <= |h.events| && id in h.tables[i] && h.tables[i][id].enabled
    ensures var sc := h.tables[i][id];
            Due(sc, now) <==> exists t :: sc.since < t * NANOS_PER_MINUTE <= now && t < Limit(sc.since) && Matches(sc.expression.cron, t)
  {
    HistoryOk(h, i);
    hide ParsedCron;
    var sc := h.tables[i][id];
    assert RowOk(sc, ClockAt(h, i));
    hide TableOk, After, Allowed, Limit, Matches;
    NextRunMeans(sc.expression.cron, sc.since);
    if Due(sc, now) {
      assert IsNext(sc.expression.cron, sc.since, sc.next.value);
    }
    if t :| sc.since < t * NANOS_PER_MINUTE <= now && t < Limit(sc.since) && Matches(sc.expression.cron, t) {
      assert FirstCandidate(sc.since) <= t;
      assert sc.next.Some?;
      assert IsNext(sc.expression.cron, sc.since, sc.next.value);
    }
  }

  // ---------- Schedules that never fire again ----------

  // The refusal of a new schedule says that it never matches. That is true exactly when it is not missed.
  lemma RefusalIsHonestExactly(text: string, now: int, rejected: bool)
    requires CreateOutcome(text, now, rejected) == NeverMatches
    ensures ReadExpression(text).Some?
    ensures var c := ReadExpression(text).value.cron;
            (forall t :: t * NANOS_PER_MINUTE > now ==> !Matches(c, t)) <==> !MissCondition(c, now)
  {
    hide ParsedCron, NextRun, CanMatch, MissCondition, Matches;
    var c := ReadExpression(text).value.cron;
    NothingFoundExactly(c, now);
    if MissCondition(c, now) {
      MissedCanMatch(c, now);
    }
  }

  lemma MissedCanMatch(c: Cron, now: int)
    requires MissCondition(c, now)
    ensures CanMatch(c)
  {
  }

  lemma EventKeepsSilent(table: map<ScheduleId, Schedule>, e: Event, id: ScheduleId)
    requires Allowed(table, e) && id in table && table[id].next.None? && !(e.Edit? && e.id == id)
    ensures id in After(table, e) && After(table, e)[id] == table[id]
    ensures !(e.Pass? && id in e.dues)
  {
    hide NextRun, ParsedCron;
    assert id !in DueIds(table, e.now);
  }

  // A row whose next run is missing, by a firing after which the match is missed or by being disabled, is
  // left alone by every pass until the next edit of it.
  lemma {:induction false} SilentUntilEdited(h: History, i: nat, k: nat, id: ScheduleId)
    requires h.Valid() && i <= k < |h.tables| && id in h.tables[i] && h.tables[i][id].next.None?
    requires forall j :: i <= j < k ==> !(h.events[j].Edit? && h.events[j].id == id)
    ensures id in h.tables[k] && h.tables[k][id] == h.tables[i][id]
    ensures forall j :: i <= j < k ==> !FiresAt(h, j, id)
    decreases k - i
  {
    hide NextRun, ParsedCron, After, Allowed;
    if i < k {
      SilentUntilEdited(h, i, k - 1, id);
      var table, e := h.tables[k - 1], h.events[k - 1];
      assert Allowed(table, e) && h.tables[k] == After(table, e);
      assert !(e.Edit? && e.id == id);
      EventKeepsSilent(table, e, id);
    }
  }

  // A firing leaves an enabled schedule without a next run exactly when it can never match or its next match
  // is missed; in the second case it matches later and does not fire.
  lemma FiringSilencesExactly(h: History, i: nat, id: ScheduleId)
    requires h.Valid() && i < |h.events| && FiresAt(h, i, id)
    ensures id in h.tables[i + 1] && h.tables[i + 1][id].enabled
    ensures var sc, now := h.tables[i + 1][id], h.events[i].now;
            && (sc.next.None? <==> !CanMatch(sc.expression.cron) || MissCondition(sc.expression.cron, now))
            && (MissCondition(sc.expression.cron, now) ==>
                  exists t :: t * NANOS_PER_MINUTE > now && Matches(sc.expression.cron, t))
  {
    assert Allowed(h.tables[i], h.events[i]) && h.tables[i + 1] == After(h.tables[i], h.events[i]);
    hide NextRun, CanMatch, MissCondition, Matches;
    var sc, now := h.tables[i + 1][id], h.events[i].now;
    NothingFoundExactly(sc.expression.cron, now);
    if MissCondition(sc.expression.cron, now) {
      MissedCanMatch(sc.expression.cron, now);
    }
  }
}
