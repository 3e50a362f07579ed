/**
 One device task from beginning to end, as the worker's code goes through it while
 its lease holds and its checkpoints are acknowledged. Every write is a step of
 the release protocol; what this module adds is where each answer of the switch
 leads: the exact final status, the observation kept and the commands sent.
 */
module DeviceTask {
  import opened Wrappers
  import opened Evidence
  import opened ReleaseState
  import opened ReleaseInvariant
  import opened ReleaseSteps
  import opened ReleaseRuns
  import opened ReleasePins
  import opened ReleaseStore

  // What one conversation with the switch came to.
  datatype Answer<T> = Gives(value: T) | Breaks(timedOut: bool)

  // Everything the outside does to a device task. setsUp says whether the settings, the commands and the
  // session could be built.
  datatype World = World(setsUp: bool, connection: Answer<()>, before: Answer<Reading>, release: Answer<Reply>,
                         after: Answer<Reading>)

  // Nothing but the executor and the row of its job has changed.
  ghost predicate OnlyOwn(jobs: map<JobId, Job>, execs: map<Token, Exec>, jobs': map<JobId, Job>, execs': map<Token, Exec>, t: Token) {
    && t in execs && t in execs' && execs'[t].job == execs[t].job && execs'[t].pin == execs[t].pin
    && execs[t].job in jobs && execs[t].job in jobs'
    && jobs' == jobs[execs[t].job := jobs'[execs[t].job]] && execs' == execs[t := execs'[t]]
    && jobs'[execs[t].job].pin == jobs[execs[t].job].pin
  }

  lemma OnlyOwnTwice(jobs: map<JobId, Job>, execs: map<Token, Exec>, jobs': map<JobId, Job>, execs': map<Token, Exec>,
                     jobs'': map<JobId, Job>, execs'': map<Token, Exec>, t: Token)
    requires OnlyOwn(jobs, execs, jobs', execs', t) && OnlyOwn(jobs', execs', jobs'', execs'', t)
    ensures OnlyOwn(jobs, execs, jobs'', execs'', t)
  {
  }

  // The executor is where it is, with this row.
  ghost predicate At(jobs: map<JobId, Job>, execs: map<Token, Exec>, t: Token, e: Exec, row: Job) {
    t in execs && execs[t] == e && e.job in jobs && jobs[e.job] == row
  }

  method Act(store: Store, t: Token, act: ReleaseState.Act, ghost e: Exec, ghost row: Job)
    requires store.Valid() && At(store.jobs, store.execs, t, e, row) && Advance(e, act).Some?
    modifies store`execs
    ensures store.Valid() && At(store.jobs, store.execs, t, Advance(e, act).value, row)
    ensures OnlyOwn(old(store.jobs), old(store.execs), store.jobs, store.execs, t)
  {
    hide Inv, Took, Enabled, Apply, Advance;
    AdvanceFrame(e, act);
    var possible := store.Proceed(t, act);
  }

  // What an acknowledged checkpoint leaves.
  function SavedRow(row: Job, w: Write, t: Token, at: int): (row': Job)
    ensures row'.status == w.status && row'.pin == row.pin
    ensures row'.before == (if w.before.Some? then w.before else row.before)
    ensures row'.lease == if w.status == Running then Some(Lease(t, at + 90)) else None
  {
    row.(status := w.status, before := if w.before.Some? then w.before else row.before,
         lease := if w.status == Running then Some(Lease(t, at + 90)) else None)
  }

  ghost predicate RowHolds(row: Job, t: Token, at: int) {
    row.status == Running && row.lease.Some? && row.lease.value.token == t && row.lease.value.until > at
  }

  method Save(store: Store, t: Token, at: int, ghost e: Exec, ghost row: Job)
    requires store.Valid() && at <= store.now && At(store.jobs, store.execs, t, e, row) && RowHolds(row, t, at) && e.pc.Saving?
    modifies store`jobs, store`execs, store`events
    ensures store.Valid() && At(store.jobs, store.execs, t, e.(pc := e.pc.next), SavedRow(row, e.pc.write, t, at))
    ensures OnlyOwn(old(store.jobs), old(store.execs), store.jobs, store.execs, t)
  {
    hide Inv, Took, Enabled, Apply, Advance;
    var ok := store.Checkpoint(t, at, true);
  }

  // One act of the executor and the acknowledged checkpoint it asks for.
  method ActAndSave(store: Store, t: Token, act: ReleaseState.Act, at: int, ghost e: Exec, ghost row: Job)
    requires store.Valid() && at <= store.now && At(store.jobs, store.execs, t, e, row) && RowHolds(row, t, at)
    requires Advance(e, act).Some? && Advance(e, act).value.pc.Saving?
    modifies store`jobs, store`execs, store`events
    ensures var e' := Advance(e, act).value;
            store.Valid() && At(store.jobs, store.execs, t, e'.(pc := e'.pc.next), SavedRow(row, e'.pc.write, t, at))
    ensures OnlyOwn(old(store.jobs), old(store.execs), store.jobs, store.execs, t)
  {
    hide Inv, Advance, At, RowHolds, OnlyOwn;
    Act(store, t, act, e, row);
    ghost var jobs, execs := store.jobs, store.execs;
    Save(store, t, at, Advance(e, act).value, row);
    OnlyOwnTwice(old(store.jobs), old(store.execs), jobs, execs, store.jobs, store.execs, t);
  }

  // ---------- What the executor does next ----------

  function ToSave(e: Exec, status: Status, before: Option<EntryType>, next: Pc): Exec {
    e.(pc := Saving(Write(status, before), next, Handling(false)))
  }

  lemma AtMeans(jobs: map<JobId, Job>, execs: map<Token, Exec>, t: Token, e: Exec, row: Job)
    requires At(jobs, execs, t, e, row)
    ensures t in execs && execs[t] == e && e.job in jobs && jobs[e.job] == row
  {
  }

  lemma WhenLoaded(e: Exec)
    requires JustLoaded(e)
    ensures DependenciesFit(e) ==> Advance(e, CheckDependencies) == Some(e.(pc := Preparing, deviceStarted := true))
    ensures !DependenciesFit(e) ==>
              Advance(e, CheckDependencies) == Some(e.(pc := Saving(Write(Failed, None), Done, Giving)))
    ensures e.sent == 0 && !e.mayHaveRun
  {
  }

  lemma WhenPreparing(e: Exec)
    requires e.pc == Preparing
    ensures Advance(e, BuildFails) == Some(e.(pc := Saving(Write(Failed, None), Done, Giving)))
    ensures Advance(e, BuildSession) == Some(e.(pc := Opening, reached := true))
  {
  }

  // A reading to speak of where there is none.
  ghost function NoReading(): Reading {
    Reading("", NotTexts, NotTexts, NoExpression, NotAList)
  }

  lemma WhenOpening(e: Exec, timedOut: bool)
    requires e.pc == Opening
    ensures Advance(e, Connect) == Some(ToSave(e, Running, None, Querying))
    ensures Advance(e, ConnectFails(timedOut)) == Some(e.(pc := Handling(timedOut)))
  {
  }

  lemma WhenQuerying(e: Exec, timedOut: bool, reading: Reading)
    requires e.pc == Querying
    ensures Advance(e, QueryFails(timedOut)) == Some(e.(pc := Handling(timedOut)))
    ensures Parse(reading).Raised? ==> Advance(e, QueryReturns(reading)) == Some(e.(pc := Handling(false)))
    ensures Parse(reading).Ok? ==>
              var entry := Some(Parse(reading).value.entry);
              Advance(e, QueryReturns(reading)) == Some(ToSave(e.(before := entry), Running, entry, Deciding))
  {
    hide Parse;
  }

  lemma WhenDeciding(e: Exec)
    requires e.pc == Deciding && e.before.Some?
    ensures var entry, query := e.before.value, e.pin.kind == Query;
            var allowed := entry == Static || (entry == Missing && e.pin.force);
            Advance(e, Decide) == Some(
              if entry == Unknown then ToSave(e, NeedsManual, None, Done)
              else if !allowed then ToSave(e, Cancelled, None, Done)
              else if query then ToSave(e, WaitingConfirmation, None, Done)
              else ToSave(e, Running, None, Ready))
  {
  }

  lemma WhenSending(e: Exec, timedOut: bool, reply: Reply)
    requires e.pc == Ready
    ensures var sent := e.(pc := Sending, mayHaveRun := true, sent := e.sent + 1);
            && Advance(e, Send) == Some(sent)
            && Advance(sent, SendFails(timedOut)) == Some(sent.(pc := Handling(timedOut)))
            && Advance(sent, SendReturns(reply)) == Some(ToSave(sent.(reply := Some(reply)), Running, None, QueryingAfter))
  {
  }

  lemma WhenFollowingUp(e: Exec, timedOut: bool, reading: Reading)
    requires e.pc == QueryingAfter
    ensures Advance(e, AfterFails(timedOut)) == Some(e.(pc := Handling(timedOut)))
    ensures Advance(e, AfterReturns(reading)) == Some(ToSave(e.(after := Some(reading)), Running, None, Classifying))
  {
  }

  // Both answers came, and neither the parser nor the patterns raised on them.
  predicate IsClassified(release: Answer<Reply>, after: Answer<Reading>) {
    && release.Gives? && after.Gives? && Parse(after.value).Ok?
    && Evidence.Classify(release.value, Parse(after.value).value.entry).Ok?
  }

  lemma WhenClassifying(e: Exec)
    requires e.pc == Classifying && e.reply.Some? && e.after.Some?
    ensures var release, after := e.reply.value, e.after.value;
            var next := Advance(e, ReleaseState.Act.Classify);
            if IsClassified(Gives(release), Gives(after)) then
              exists status :: next == Some(ToSave(e, status, None, Done)) && StatusFits(release, after, status)
            else next == Some(e.(pc := Handling(false)))
  {
    var release, after := e.reply.value, e.after.value;
    hide Parse, MatchesAny, HasRow;
    if IsClassified(Gives(release), Gives(after)) {
      ClassifyMeans(release, after);
      ClassifyIsSome(release, Parse(after).value.entry);
      var status := StatusOf(Evidence.Classify(release, Parse(after).value.entry).value);
      hide Evidence.Classify, ErrorSeen, MissingSeen;
      assert StatusFits(release, after, status);
      assert Advance(e, ReleaseState.Act.Classify) == Some(ToSave(e, status, None, Done));
    }
  }

  lemma ClassifyIsSome(release: Reply, entry: EntryType)
    requires Evidence.Classify(release, entry).Ok?
    ensures StatusOf(Evidence.Classify(release, entry).value) in {Failed, Succeeded, NeedsManual}
  {
    hide MatchesAny;
  }

  // The final status the evidence calls for.
  ghost predicate StatusFits(release: Reply, after: Reading, status: Status) {
    && (status == Failed <==> ErrorSeen(release) || HasRow(after, Static))
    && (status == Succeeded <==>
          && !ErrorSeen(release) && !HasRow(after, Static) && !HasRow(after, Unknown)
          && (HasRow(after, Dynamic) || MissingSeen(after)))
    && status in {Failed, Succeeded, NeedsManual}
  }

  // The executor has just read its dependencies.
  predicate JustLoaded(e: Exec) {
    e.pc == Loaded && e.sent == 0 && !e.mayHaveRun
  }

  // The pinned revision of an enabled switch with an active credential and command profile.
  predicate DependenciesFit(e: Exec) {
    && e.dep.Some?
    && var d := e.dep.value;
       && d.switchColumns.enabled && d.credentialActive && d.profileColumns.active
       && d.switchVersion == e.pin.switchVersion && d.profileVersion == e.pin.profileVersion
  }

  // The rest of an executor's life when its writes fail: what it falls back to, and what that writes.
  lemma WhenGiving(e: Exec)
    requires e.pc == Giving
    ensures Advance(e, GiveUp) ==
            Some(e.(pc := Saving(Write(if e.deviceStarted then NeedsManual else Failed, None), Done, Done)))
  {
  }

  lemma WhenClaimed(e: Exec)
    requires e.pc == Claimed
    ensures Advance(e, LoadFails) == Some(e.(pc := Giving))
  {
  }

  // ---------- The phases of a task ----------

  // An executor that could not write falls back on one last checkpoint: uncertain once its device task was
  // started, otherwise a failure.
  method GiveUpTask(store: Store, t: Token, at: int, ghost e: Exec, ghost row: Job) returns (ghost e': Exec, ghost row': Job)
    requires store.Valid() && at <= store.now && At(store.jobs, store.execs, t, e, row) && RowHolds(row, t, at) && e.pc == Giving
    modifies store`jobs, store`execs, store`events
    ensures store.Valid() && At(store.jobs, store.execs, t, e', row')
    ensures OnlyOwn(old(store.jobs), old(store.execs), store.jobs, store.execs, t)
    ensures e' == e.(pc := Done) && row'.before == row.before
    ensures row'.status == if e.deviceStarted then NeedsManual else Failed
  {
    hide Inv, At, OnlyOwn, Advance;
    WhenGiving(e);
    ActAndSave(store, t, GiveUp, at, e, row);
    ghost var next := Advance(e, GiveUp).value;
    e', row' := e.(pc := Done), SavedRow(row, next.pc.write, t, at);
  }

  // A task that ended without having sent a command.
  ghost predicate EndsUnsent(e: Exec, row: Job, status: Status, before: Option<EntryType>) {
    e.pc == Done && e.sent == 0 && row.status == status && row.before == before
  }

  // A failure in a device task: uncertain once the command may have run, otherwise a timeout or a failure.
  method HandleFailure(store: Store, t: Token, at: int, ghost e: Exec, ghost row: Job) returns (ghost e': Exec, ghost row': Job)
    requires store.Valid() && at <= store.now && At(store.jobs, store.execs, t, e, row) && RowHolds(row, t, at) && e.pc.Handling?
    modifies store`jobs, store`execs, store`events
    ensures store.Valid() && At(store.jobs, store.execs, t, e', row')
    ensures OnlyOwn(old(store.jobs), old(store.execs), store.jobs, store.execs, t)
    ensures e'.pc == Done && e'.sent == e.sent && row'.before == row.before
    ensures row'.status == if e.mayHaveRun then NeedsManual else if e.pc.timedOut then Timeout else Failed
  {
    hide Inv, At, OnlyOwn;
    ghost var next := Advance(e, Handle).value;
    ActAndSave(store, t, Handle, at, e, row);
    e', row' := next.(pc := next.pc.next), SavedRow(row, next.pc.write, t, at);
  }

  // Doing something that fails, and handling it.
  method FailAt(store: Store, t: Token, act: ReleaseState.Act, at: int, ghost e: Exec, ghost row: Job)
    returns (ghost e': Exec, ghost row': Job)
    requires store.Valid() && at <= store.now && At(store.jobs, store.execs, t, e, row) && RowHolds(row, t, at)
    requires Advance(e, act).Some? && Advance(e, act).value.pc.Handling?
    modifies store`jobs, store`execs, store`events
    ensures store.Valid() && At(store.jobs, store.execs, t, e', row')
    ensures OnlyOwn(old(store.jobs), old(store.execs), store.jobs, store.execs, t)
    ensures var failed := Advance(e, act).value;
            && e'.pc == Done && e'.sent == failed.sent && row'.before == row.before
            && row'.status == if failed.mayHaveRun then NeedsManual else if failed.pc.timedOut then Timeout else Failed
  {
    hide Inv, At, OnlyOwn, Advance, RowHolds;
    Act(store, t, act, e, row);
    ghost var jobs, execs := store.jobs, store.execs;
    e', row' := HandleFailure(store, t, at, Advance(e, act).value, row);
    OnlyOwnTwice(old(store.jobs), old(store.execs), jobs, execs, store.jobs, store.execs, t);
  }

  // The dependencies are checked before anything is sent to the switch, and the session is built.
  method CheckAndSetUp(store: Store, t: Token, setsUp: bool, at: int, ghost e: Exec, ghost row: Job)
    returns (ok: bool, ghost e': Exec, ghost row': Job)
    requires store.Valid() && at <= store.now && At(store.jobs, store.execs, t, e, row) && RowHolds(row, t, at) && JustLoaded(e)
    modifies store`jobs, store`execs, store`events
    ensures store.Valid() && At(store.jobs, store.execs, t, e', row')
    ensures OnlyOwn(old(store.jobs), old(store.execs), store.jobs, store.execs, t)
    ensures ok <==> DependenciesFit(e) && setsUp
    ensures ok ==> row' == row && e' == e.(pc := Opening, deviceStarted := true, reached := true)
    ensures !ok ==> EndsUnsent(e', row', Failed, row.before)
  {
    hide Inv, At, OnlyOwn, Advance, RowHolds, DependenciesFit;
    WhenLoaded(e);
    AtMeans(store.jobs, store.execs, t, e, row);
    if !DependenciesFit(store.execs[t]) {
      ActAndSave(store, t, CheckDependencies, at, e, row);
      ghost var next := Advance(e, CheckDependencies).value;
      return false, next.(pc := Done), SavedRow(row, next.pc.write, t, at);
    }
    Act(store, t, CheckDependencies, e, row);
    ghost var jobs, execs := store.jobs, store.execs;
    ghost var preparing := Advance(e, CheckDependencies).value;
    WhenPreparing(preparing);
    if !setsUp {
      ActAndSave(store, t, BuildFails, at, preparing, row);
      ghost var next := Advance(preparing, BuildFails).value;
      ok, e', row' := false, next.(pc := Done), SavedRow(row, next.pc.write, t, at);
    } else {
      Act(store, t, BuildSession, preparing, row);
      ok, e', row' := true, Advance(preparing, BuildSession).value, row;
    }
    OnlyOwnTwice(old(store.jobs), old(store.execs), jobs, execs, store.jobs, store.execs, t);
  }

  // The session is opened.
  method OpenSession(store: Store, t: Token, connection: Answer<()>, at: int, ghost e: Exec, ghost row: Job)
    returns (ok: bool, ghost e': Exec, ghost row': Job)
    requires store.Valid() && at <= store.now && At(store.jobs, store.execs, t, e, row) && RowHolds(row, t, at)
    requires e.pc == Opening && e.sent == 0 && !e.mayHaveRun
    modifies store`jobs, store`execs, store`events
    ensures store.Valid() && At(store.jobs, store.execs, t, e', row')
    ensures OnlyOwn(old(store.jobs), old(store.execs), store.jobs, store.execs, t)
    ensures ok <==> connection.Gives?
    ensures ok ==> e' == e.(pc := Querying) && row'.before == row.before && row'.pin == row.pin && RowHolds(row', t, at)
    ensures !ok ==> EndsUnsent(e', row', if connection.timedOut then Timeout else Failed, row.before)
  {
    hide Inv, At, OnlyOwn, Advance;
    WhenOpening(e, connection.Breaks? && connection.timedOut);
    if connection.Breaks? {
      e', row' := FailAt(store, t, ConnectFails(connection.timedOut), at, e, row);
      return false, e', row';
    }
    ActAndSave(store, t, Connect, at, e, row);
    return true, e.(pc := Querying), SavedRow(row, Write(Running, None), t, at);
  }

  // The entry is observed and kept.
  method Observe(store: Store, t: Token, before: Answer<Reading>, at: int, ghost e: Exec, ghost row: Job)
    returns (ok: bool, ghost e': Exec, ghost row': Job)
    requires store.Valid() && at <= store.now && At(store.jobs, store.execs, t, e, row) && RowHolds(row, t, at)
    requires e.pc == Querying && e.sent == 0 && !e.mayHaveRun
    modifies store`jobs, store`execs, store`events
    ensures store.Valid() && At(store.jobs, store.execs, t, e', row')
    ensures OnlyOwn(old(store.jobs), old(store.execs), store.jobs, store.execs, t)
    ensures ok <==> before.Gives? && Parse(before.value).Ok?
    ensures ok ==>
              var entry := Some(Parse(before.value).value.entry);
              e' == e.(before := entry, pc := Deciding) && row'.before == entry && row'.pin == row.pin && RowHolds(row', t, at)
    ensures !ok ==> EndsUnsent(e', row', if before.Breaks? && before.timedOut then Timeout else Failed, row.before)
  {
    hide Inv, At, OnlyOwn, Advance, Parse;
    if before.Breaks? {
      WhenQuerying(e, before.timedOut, NoReading());
      e', row' := FailAt(store, t, QueryFails(before.timedOut), at, e, row);
      return false, e', row';
    }
    WhenQuerying(e, false, before.value);
    var observation := Parse(before.value);
    if observation.Raised? {
      e', row' := FailAt(store, t, QueryReturns(before.value), at, e, row);
      return false, e', row';
    }
    ActAndSave(store, t, QueryReturns(before.value), at, e, row);
    ghost var entry := Some(observation.value.entry);
    return true, e.(before := entry, pc := Deciding), SavedRow(row, Write(Running, entry), t, at);
  }

  // What follows from the entry the session observed: a query ends, a release goes on or ends.
  method DecideOnEntry(store: Store, t: Token, at: int, ghost e: Exec, ghost row: Job)
    returns (goesOn: bool, ghost e': Exec, ghost row': Job)
    requires store.Valid() && at <= store.now && At(store.jobs, store.execs, t, e, row) && RowHolds(row, t, at)
    requires e.pc == Deciding && e.before.Some? && e.sent == 0
    modifies store`jobs, store`execs, store`events
    ensures store.Valid() && At(store.jobs, store.execs, t, e', row')
    ensures OnlyOwn(old(store.jobs), old(store.execs), store.jobs, store.execs, t)
    ensures row'.before == row.before && e'.sent == 0
    ensures goesOn <==> e.pin.kind == Release && (e.before == Some(Static) || (e.before == Some(Missing) && e.pin.force))
    ensures goesOn ==> e' == e.(pc := Ready) && row'.pin == row.pin && RowHolds(row', t, at)
    ensures !goesOn ==> e'.pc == Done
    ensures e.before == Some(Unknown) ==> row'.status == NeedsManual
    ensures e.before == Some(Dynamic) ==> row'.status == Cancelled
    ensures e.before == Some(Missing) && !e.pin.force ==> row'.status == Cancelled
    ensures e.pin.kind == Query && e.before == Some(Static) ==> row'.status == WaitingConfirmation
    ensures e.pin.kind == Query && e.before == Some(Missing) && e.pin.force ==> row'.status == WaitingConfirmation
  {
    hide Inv, At, OnlyOwn, Advance;
    WhenDeciding(e);
    ActAndSave(store, t, Decide, at, e, row);
    ghost var next := Advance(e, Decide).value;
    e', row' := next.(pc := next.pc.next), SavedRow(row, next.pc.write, t, at);
    AtMeans(store.jobs, store.execs, t, e', row');
    goesOn := store.execs[t].pc == Ready;
  }

  // The query after an answered command, and the classification.
  method FollowUp(store: Store, t: Token, after: Answer<Reading>, at: int, ghost e: Exec, ghost row: Job)
    returns (ghost e': Exec, ghost row': Job)
    requires store.Valid() && at <= store.now && At(store.jobs, store.execs, t, e, row) && RowHolds(row, t, at)
    requires e.pc == QueryingAfter && e.reply.Some? && e.mayHaveRun
    modifies store`jobs, store`execs, store`events
    ensures store.Valid() && At(store.jobs, store.execs, t, e', row')
    ensures OnlyOwn(old(store.jobs), old(store.execs), store.jobs, store.execs, t)
    ensures e'.pc == Done && e'.sent == e.sent && row'.before == row.before
    ensures IsClassified(Gives(e.reply.value), after) ==> StatusFits(e.reply.value, after.value, row'.status)
    ensures !IsClassified(Gives(e.reply.value), after) ==> row'.status == NeedsManual
  {
    hide Inv, At, OnlyOwn, Advance, IsClassified, StatusFits;
    if after.Breaks? {
      WhenFollowingUp(e, after.timedOut, NoReading());
      NotClassified(Gives(e.reply.value), after);
      e', row' := FailAt(store, t, AfterFails(after.timedOut), at, e, row);
      return;
    }
    WhenFollowingUp(e, false, after.value);
    ActAndSave(store, t, AfterReturns(after.value), at, e, row);
    ghost var jobs, execs := store.jobs, store.execs;
    ghost var last, row1 := e.(after := Some(after.value), pc := Classifying), SavedRow(row, Write(Running, None), t, at);
    WhenClassifying(last);
    AtMeans(store.jobs, store.execs, t, last, row1);
    var reply := store.execs[t].reply.value;
    var classified := MustClassify(reply, after.value);
    if classified {
      ActAndSave(store, t, ReleaseState.Act.Classify, at, last, row1);
      ghost var next := Advance(last, ReleaseState.Act.Classify).value;
      e', row' := next.(pc := Done), SavedRow(row1, next.pc.write, t, at);
    } else {
      e', row' := FailAt(store, t, ReleaseState.Act.Classify, at, last, row1);
    }
    OnlyOwnTwice(old(store.jobs), old(store.execs), jobs, execs, store.jobs, store.execs, t);
  }

  lemma NotClassified(release: Answer<Reply>, after: Answer<Reading>)
    requires release.Breaks? || after.Breaks?
    ensures !IsClassified(release, after)
  {
  }

  // Whether the parser and the patterns come to an answer.
  method MustClassify(release: Reply, after: Reading) returns (ok: bool)
    ensures ok <==> IsClassified(Gives(release), Gives(after))
  {
    hide Parse, Evidence.Classify;
    var observation := Parse(after);
    ok := observation.Ok? && Evidence.Classify(release, observation.value.entry).Ok?;
  }

  // The command is sent once, and its outcome classified from its own answer and the query after it.
  method SendAndClassify(store: Store, t: Token, release: Answer<Reply>, after: Answer<Reading>, at: int, ghost e: Exec, ghost row: Job)
    returns (ghost e': Exec, ghost row': Job)
    requires store.Valid() && at <= store.now && At(store.jobs, store.execs, t, e, row) && RowHolds(row, t, at)
    requires e.pc == Ready && e.sent == 0
    modifies store`jobs, store`execs, store`events
    ensures store.Valid() && At(store.jobs, store.execs, t, e', row')
    ensures OnlyOwn(old(store.jobs), old(store.execs), store.jobs, store.execs, t)
    ensures e'.pc == Done && e'.sent == 1 && row'.before == row.before
    ensures IsClassified(release, after) ==> StatusFits(release.value, after.value, row'.status)
    ensures !IsClassified(release, after) ==> row'.status == NeedsManual
  {
    hide Inv, At, OnlyOwn, Advance, IsClassified, StatusFits;
    WhenSending(e, release.Breaks? && release.timedOut, if release.Gives? then release.value else Reply([], []));
    Act(store, t, Send, e, row);
    ghost var jobs, execs := store.jobs, store.execs;
    ghost var sending := e.(pc := Sending, mayHaveRun := true, sent := e.sent + 1);
    if release.Breaks? {
      NotClassified(release, after);
      e', row' := FailAt(store, t, SendFails(release.timedOut), at, sending, row);
    } else {
      ActAndSave(store, t, SendReturns(release.value), at, sending, row);
      ghost var jobs1, execs1 := store.jobs, store.execs;
      ghost var row1 := SavedRow(row, Write(Running, None), t, at);
      e', row' := FollowUp(store, t, after, at, sending.(reply := Some(release.value), pc := QueryingAfter), row1);
      OnlyOwnTwice(jobs, execs, jobs1, execs1, store.jobs, store.execs, t);
    }
    OnlyOwnTwice(old(store.jobs), old(store.execs), jobs, execs, store.jobs, store.execs, t);
  }

  // ---------- A whole task ----------

  // The dependencies fit, the session is built and opened, and its query is parsed.
  ghost predicate Observes(e: Exec, w: World) {
    DependenciesFit(e) && w.setsUp && w.connection.Gives? && w.before.Gives? && Parse(w.before.value).Ok?
  }

  // How a task ends that observes nothing.
  ghost predicate EndsUnobserved(e: Exec, w: World, e': Exec, row: Job, row': Job) {
    if !(DependenciesFit(e) && w.setsUp) then EndsUnsent(e', row', Failed, row.before)
    else if w.connection.Breaks? then EndsUnsent(e', row', if w.connection.timedOut then Timeout else Failed, row.before)
    else EndsUnsent(e', row', if w.before.Breaks? && w.before.timedOut then Timeout else Failed, row.before)
  }

  // How a task ends that observed this entry.
  ghost predicate EndsObserved(pin: Pin, w: World, entry: EntryType, e': Exec, row': Job) {
    var allowed := entry == Static || (entry == Missing && pin.force);
    && e'.pc == Done && row'.before == Some(entry)
    && (entry == Unknown ==> row'.status == NeedsManual && e'.sent == 0)
    && (entry == Dynamic || (entry == Missing && !pin.force) ==> row'.status == Cancelled && e'.sent == 0)
    && (pin.kind == Query && allowed ==> row'.status == WaitingConfirmation && e'.sent == 0)
    && (pin.kind == Release && allowed ==>
          && e'.sent == 1
          && (IsClassified(w.release, w.after) ==> StatusFits(w.release.value, w.after.value, row'.status))
          && (!IsClassified(w.release, w.after) ==> row'.status == NeedsManual))
  }

  method UpToObservation(store: Store, t: Token, w: World, at: int, ghost e: Exec, ghost row: Job)
    returns (ok: bool, ghost e': Exec, ghost row': Job)
    requires store.Valid() && at <= store.now && At(store.jobs, store.execs, t, e, row) && RowHolds(row, t, at) && JustLoaded(e)
    modifies store`jobs, store`execs, store`events
    ensures store.Valid() && At(store.jobs, store.execs, t, e', row')
    ensures OnlyOwn(old(store.jobs), old(store.execs), store.jobs, store.execs, t)
    ensures ok <==> Observes(e, w)
    ensures ok ==>
              var entry := Some(Parse(w.before.value).value.entry);
              && e'.pc == Deciding && e'.before == entry && e'.sent == 0 && e'.pin == e.pin
              && row'.before == entry && RowHolds(row', t, at)
    ensures !ok ==> EndsUnobserved(e, w, e', row, row')
  {
    hide Inv, Advance, RowHolds, DependenciesFit, Parse, At, OnlyOwn, EndsUnsent;
    WhenLoaded(e);
    hide JustLoaded, NewExec;
    ghost var jobs0, execs0 := store.jobs, store.execs;
    ok, e', row' := CheckAndSetUp(store, t, w.setsUp, at, e, row);
    if !ok {
      return;
    }
    ghost var jobs1, execs1, row1 := store.jobs, store.execs, row';
    ok, e', row' := OpenSession(store, t, w.connection, at, e', row');
    ghost var jobs2, execs2 := store.jobs, store.execs;
    OnlyOwnTwice(jobs0, execs0, jobs1, execs1, jobs2, execs2, t);
    if !ok {
      return;
    }
    ok, e', row' := Observe(store, t, w.before, at, e', row');
    OnlyOwnTwice(jobs0, execs0, jobs2, execs2, store.jobs, store.execs, t);
  }

  method UntilTheEnd(store: Store, t: Token, w: World, at: int, ghost e: Exec, ghost row: Job)
    returns (ghost e': Exec, ghost row': Job)
    requires store.Valid() && at <= store.now && At(store.jobs, store.execs, t, e, row) && RowHolds(row, t, at)
    requires e.pc == Deciding && e.before.Some? && e.sent == 0 && row.before == e.before
    modifies store`jobs, store`execs, store`events
    ensures store.Valid() && At(store.jobs, store.execs, t, e', row')
    ensures OnlyOwn(old(store.jobs), old(store.execs), store.jobs, store.execs, t)
    ensures EndsObserved(e.pin, w, e.before.value, e', row')
  {
    hide Inv, Advance, RowHolds, At, OnlyOwn, IsClassified, StatusFits;
    ghost var jobs0, execs0 := store.jobs, store.execs;
    var goesOn;
    goesOn, e', row' := DecideOnEntry(store, t, at, e, row);
    if !goesOn {
      return;
    }
    ghost var jobs1, execs1 := store.jobs, store.execs;
    e', row' := SendAndClassify(store, t, w.release, w.after, at, e', row');
    OnlyOwnTwice(jobs0, execs0, jobs1, execs1, store.jobs, store.execs, t);
  }

  // Where the answers of the outside lead.
  ghost predicate EndsAs(e: Exec, w: World, e': Exec, row: Job, row': Job) {
    if Observes(e, w) then EndsObserved(e.pin, w, Parse(w.before.value).value.entry, e', row')
    else EndsUnobserved(e, w, e', row, row')
  }

  lemma EndsWithEntry(e: Exec, w: World, entry: Option<EntryType>, e': Exec, row: Job, row': Job)
    requires Observes(e, w) && entry == Some(Parse(w.before.value).value.entry)
    requires EndsObserved(e.pin, w, entry.value, e', row')
    ensures EndsAs(e, w, e', row, row')
  {
  }

  lemma EndsWithoutEntry(e: Exec, w: World, e': Exec, row: Job, row': Job)
    requires !Observes(e, w) && EndsUnobserved(e, w, e', row, row')
    ensures EndsAs(e, w, e', row, row')
  {
  }

  // A whole task: where the answers of the outside lead. The final status of the job, the observation kept in
  // its row before the release and the number of commands sent are all determined.
  method RunDeviceTask(store: Store, t: Token, w: World, at: int, ghost e: Exec, ghost row: Job)
    returns (ghost e': Exec, ghost row': Job)
    requires store.Valid() && at <= store.now && At(store.jobs, store.execs, t, e, row) && RowHolds(row, t, at) && JustLoaded(e)
    modifies store`jobs, store`execs, store`events
    ensures store.Valid() && At(store.jobs, store.execs, t, e', row')
    ensures OnlyOwn(old(store.jobs), old(store.execs), store.jobs, store.execs, t)
    ensures EndsAs(e, w, e', row, row')
  {
    hide Inv, RowHolds, JustLoaded, Observes, EndsUnobserved, EndsObserved, EndsAs, Parse, At, OnlyOwn, Advance;
    ghost var jobs0, execs0 := store.jobs, store.execs;
    var ok, e1, row1 := UpToObservation(store, t, w, at, e, row);
    if !ok {
      EndsWithoutEntry(e, w, e1, row, row1);
      e', row' := e1, row1;
    } else {
      ghost var jobs1, execs1 := store.jobs, store.execs;
      e', row' := UntilTheEnd(store, t, w, at, e1, row1);
      OnlyOwnTwice(jobs0, execs0, jobs1, execs1, store.jobs, store.execs, t);
      EndsWithEntry(e, w, e1.before, e', row, row');
    }
  }

  // ---------- A prepared query ----------

  lemma LoadedIsFresh(s: State, t: Token)
    requires Inv(s) && t in s.execs && s.execs[t].pc == Loaded
    ensures JustLoaded(s.execs[t])
  {
    ExecHolds(s, t);
    hide Inv, RowOk, PlaceOk;
  }

  // A prepared or retried query whose assets are not edited before its executor loads them is ready to run.
  lemma PreparedQueryIsReady(r: Run, i: nat, k: nat, id: JobId, switchId: AssetId, t: Token)
    requires r.Valid() && i < k < |r.steps| && Queues(r.steps[i], id, switchId)
    requires r.steps[k] == LoadDependencies(t) && t in r.states[k].execs && r.states[k].execs[t].job == id
    requires switchId in r.states[i].assets.switches
    requires var c := r.states[i].assets.switches[switchId].columns;
             forall m :: i < m < k ==> !Edits(r.steps[m], switchId, c.profileId, c.credentialId)
    ensures Inv(r.states[k + 1]) && t in r.states[k + 1].execs
    ensures var e := r.states[k + 1].execs[t];
            JustLoaded(e) && DependenciesFit(e) && e.job == id && id in r.states[i + 1].jobs && e.pin == r.states[i + 1].jobs[id].pin
            && e.pin.kind == Query
  {
    hide Inv, Enabled, Apply, Load, Advance, Edits;
    UneditedQueryPasses(r, i, k, id, switchId, t);
    StepOf(r, i);
    StepOf(r, k);
    QueuesMeans(r.states[i], r.steps[i], id, switchId);
    LoadMeans(r.states[k], t);
    RunInv(r, k);
    RunInv(r, k + 1);
    RunLater(r, i + 1, k);
    ExecPin(r.states[k], t);
    LoadedIsFresh(r.states[k + 1], t);
  }

  // So a row for its address that reads static takes it to waiting for a confirmation.
  lemma StaticQueryWaits(e: Exec, w: World, e': Exec, row: Job, row': Job)
    requires DependenciesFit(e) && e.pin.kind == Query && w.setsUp && w.connection.Gives? && w.before.Gives?
    requires Parse(w.before.value).Ok? && exists line :: ForTarget(w.before.value, line) && ReadsStatic(w.before.value, line)
    requires EndsAs(e, w, e', row, row')
    ensures row'.status == WaitingConfirmation && row'.before == Some(Static) && e'.sent == 0
  {
    hide Parse, ForTarget, ReadsStatic;
    ParseReads(w.before.value);
  }
}
