/**
 What the release workflow guarantees over whole runs, for any interleaving of
 claimants, executors, sweeps, confirmations, retries and asset edits.
 */
module ReleaseRuns {
  import opened Wrappers
  import opened Resolution
  import opened Evidence
  import opened ReleaseState
  import opened ReleaseInvariant
  import opened ReleaseSteps

  // A run: states joined by steps, from a state without jobs.
  datatype Run = Run(states: seq<State>, steps: seq<Step>) {
    ghost predicate Valid() {
      && |states| == |steps| + 1 && Init(states[0])
      && forall i :: 0 <= i < |steps| ==> Enabled(states[i], steps[i]) && states[i + 1] == Apply(states[i], steps[i])
    }
  }

  // One step of a run.
  lemma StepOf(r: Run, i: nat)
    requires r.Valid() && i < |r.steps|
    ensures Enabled(r.states[i], r.steps[i]) && r.states[i + 1] == Apply(r.states[i], r.steps[i])
  {
    hide Enabled, Apply;
  }

  lemma {:induction false} RunInv(r: Run, i: nat)
    requires r.Valid() && i < |r.states|
    ensures Inv(r.states[i])
  {
    hide Inv, Enabled, Apply;
    if i == 0 {
      InitInv(r.states[0]);
    } else {
      RunInv(r, i - 1);
      StepOf(r, i - 1);
      StepKeepsInv(r.states[i - 1], r.steps[i - 1]);
    }
  }

  // ---------- What the invariant says of one executor or one release ----------

  lemma ExecHolds(s: State, t: Token)
    requires Inv(s) && t in s.execs
    ensures var e := s.execs[t];
            && e.job in s.jobs && ExecOk(e, s.jobs[e.job]) && ReadOk(e, s.assets) && e.pin == s.jobs[e.job].pin
            && e.job in s.claimedBy && s.claimedBy[e.job] == t
  {
    hide LeasesOk, ClaimsOk, RechecksHold, OneBlocking, QueriesOk, ReleasesOk, HistoryOk, RecordOk, PlaceOk, ReadOk;
  }

  lemma ReleaseHolds(s: State, j: JobId)
    requires Inv(s) && j in s.jobs && s.jobs[j].pin.kind == Release
    ensures s.jobs[j].prep.Some? && s.jobs[j].prep.value in s.jobs && j in s.confirmations
    ensures Confirms(s.jobs[j], s.jobs[s.jobs[j].prep.value], s.confirmations[j])
    ensures forall k :: k in s.jobs && s.jobs[k].prep == s.jobs[j].prep ==> k == j
  {
    hide LeasesOk, ClaimsOk, RechecksHold, OneBlocking, QueriesOk, HistoryOk, ExecsOk, ReadsOk, ClaimedOnce, Confirms;
  }

  // A job that has left the queue has an executor.
  lemma TakenHolds(s: State, j: JobId)
    requires Inv(s) && j in s.jobs && s.jobs[j].status != Queued
    ensures j in s.claimedBy && s.claimedBy[j] in s.execs && s.execs[s.claimedBy[j]].job == j
  {
    hide LeasesOk, ClaimsOk, RechecksHold, OneBlocking, QueriesOk, ReleasesOk, HistoryOk, ExecsOk, ReadsOk;
  }

  lemma OneBlockingHolds(s: State, j: JobId, k: JobId)
    requires Inv(s) && j in s.jobs && k in s.jobs && s.jobs[j].pin.ip == s.jobs[k].pin.ip
    requires Blocking(s.jobs[j]) && Blocking(s.jobs[k])
    ensures j == k
  {
    hide LeasesOk, ClaimsOk, RechecksHold, QueriesOk, ReleasesOk, HistoryOk, ExecsOk, ReadsOk, ClaimedOnce, Blocking;
  }

  // ---------- What no step changes ----------

  predicate Final(status: Status) {
    status != Queued && status != Running
  }

  // What a later state keeps of an earlier one: creation columns, finished rows, executors and their counts.
  ghost predicate Later(s: State, s': State) {
    && (forall j :: j in s.jobs ==>
          && j in s'.jobs && s'.jobs[j].pin == s.jobs[j].pin && s'.jobs[j].actor == s.jobs[j].actor
          && s'.jobs[j].prep == s.jobs[j].prep
          && (Final(s.jobs[j].status) ==> s'.jobs[j] == s.jobs[j])
          && (s.jobs[j].status == Running ==> s'.jobs[j].status != Queued))
    && (forall t :: t in s.execs ==> t in s'.execs && s'.execs[t].job == s.execs[t].job && s.execs[t].sent <= s'.execs[t].sent)
  }

  lemma LaterRow(s: State, j: JobId, job: Job)
    requires j in s.jobs && s.jobs[j].status == Running && job.status != Queued
    requires job.pin == s.jobs[j].pin && job.actor == s.jobs[j].actor && job.prep == s.jobs[j].prep
    ensures Later(s, WithJob(s, j, job))
  {
  }

  lemma LaterRecord(s: State, t: Token, e: Exec)
    requires t in s.execs && e.job == s.execs[t].job && s.execs[t].sent <= e.sent
    ensures Later(s, WithExec(s, t, e))
  {
  }

  lemma LaterTransitive(s: State, s': State, s'': State)
    requires Later(s, s') && Later(s', s'')
    ensures Later(s, s'')
  {
    forall j | j in s.jobs
      ensures && j in s''.jobs && s''.jobs[j].pin == s.jobs[j].pin && s''.jobs[j].actor == s.jobs[j].actor
              && s''.jobs[j].prep == s.jobs[j].prep
              && (Final(s.jobs[j].status) ==> s''.jobs[j] == s.jobs[j])
              && (s.jobs[j].status == Running ==> s''.jobs[j].status != Queued)
    {
      assert j in s'.jobs;
    }
  }

  lemma AdvanceSent(e: Exec, act: Act)
    requires Advance(e, act).Some?
    ensures Advance(e, act).value.sent == if e.pc == Ready then e.sent + 1 else e.sent
  {
    hide Parse, DependencyProblem;
  }

  // A write that the fence lets through never queues its job again.
  lemma PermittedWrites(s: State, t: Token, w: Write)
    requires Inv(s) && t in s.execs && ((s.execs[t].pc.Saving? && w == s.execs[t].pc.write) || w in s.execs[t].late)
    ensures w.status != Queued
  {
    hide Inv, RecordOk, ReadOk, SuccessProved, FailureProved, Permitted;
    ExecHolds(s, t);
    assert Permitted(s.execs[t], w.status);
    NeverQueued(s.execs[t], w.status);
  }

  lemma NeverQueued(e: Exec, status: Status)
    requires Permitted(e, status)
    ensures status != Queued
  {
  }

  lemma WrittenLater(s: State, t: Token, e: Exec, w: Write, at: int)
    requires t in s.execs && e.job == s.execs[t].job && e.sent == s.execs[t].sent
    requires e.job in s.jobs && FenceOpen(s.jobs[e.job], t, at) && w.status != Queued
    ensures Later(s, WithJob(WithExec(s, t, e), e.job, Written(s.jobs[e.job], w, t, at)))
  {
    var s1 := WithExec(s, t, e);
    LaterRecord(s, t, e);
    LaterRow(s1, e.job, Written(s.jobs[e.job], w, t, at));
    LaterTransitive(s, s1, WithJob(s1, e.job, Written(s.jobs[e.job], w, t, at)));
  }

  lemma CommitLater(s: State, c: Claimant, token: Token, until: int)
    requires Inv(s) && token !in s.execs && MayCommit(s.jobs, s.claims, c)
    ensures var j := s.claims[c].job;
            Later(s, s.(claims := s.claims - {c}, jobs := s.jobs[j := TakenJob(s.jobs[j], token, until)],
                        execs := s.execs[token := NewExec(j, s.jobs[j].pin)], claimedBy := s.claimedBy[j := token]))
  {
    ClaimHoldsQueued(s, c);
    hide Inv, MayCommit;
    var j := s.claims[c].job;
    var s1 := s.(jobs := s.jobs[j := TakenJob(s.jobs[j], token, until)]);
    LaterTaken(s, j, token, until);
    NewExecLater(s1, token, NewExec(j, s.jobs[j].pin));
    hide Later;
    var s2 := s1.(execs := s1.execs[token := NewExec(j, s.jobs[j].pin)]);
    LaterTransitive(s, s1, s2);
    var s3 := s2.(claims := s.claims - {c}, claimedBy := s.claimedBy[j := token]);
    SameTablesLater(s2, s3);
    LaterTransitive(s, s2, s3);
  }

  // A claimed job is still queued.
  lemma ClaimHoldsQueued(s: State, c: Claimant)
    requires Inv(s) && c in s.claims
    ensures s.claims[c].job in s.jobs && s.jobs[s.claims[c].job].status == Queued
  {
    hide ClaimedOnce, LeasesOk, RechecksHold, OneBlocking, ExecsOk, ReadsOk, QueriesOk, ReleasesOk, HistoryOk;
  }

  lemma LaterTaken(s: State, j: JobId, token: Token, until: int)
    requires j in s.jobs && s.jobs[j].status == Queued
    ensures Later(s, s.(jobs := s.jobs[j := TakenJob(s.jobs[j], token, until)]))
  {
  }

  lemma NewExecLater(s: State, token: Token, e: Exec)
    requires token !in s.execs
    ensures Later(s, s.(execs := s.execs[token := e]))
  {
  }

  lemma SweepLater(s: State, at: int)
    ensures Later(s, s.(jobs := SweptJobs(s.jobs, at)))
  {
  }

  lemma InsertLater(s: State, id: JobId, job: Job, confirmations: map<JobId, Confirmation>)
    requires id !in s.jobs
    ensures Later(s, WithJob(s, id, job).(confirmations := confirmations))
  {
  }

  lemma SameTablesLater(s: State, s': State)
    requires s'.jobs == s.jobs && s'.execs == s.execs
    ensures Later(s, s')
  {
  }

  lemma ExecutingLater(s: State, step: Step)
    requires Inv(s) && Enabled(s, step) && IsExecuting(step)
    ensures Later(s, Apply(s, step))
  {
    hide Inv, Later, Blocked, Advance, ConfirmOutcomeOf, Usable, AddressLocked, FenceOpen, Written, SweptJobs,
         Load, RetryTarget, Retryable, QueryJob, ReleaseJob, EditedSwitch, EditedProfile, MayCommit,
         AfterFailedSave;
    match step {
      case LoadDependencies(t) => LaterRecord(s, t, s.execs[t].(pc := Loaded, dep := Load(s.assets, s.execs[t].pin)));
      case Progress(t, act) =>
        AdvanceFrame(s.execs[t], act);
        AdvanceSent(s.execs[t], act);
        LaterRecord(s, t, Advance(s.execs[t], act).value);
      case SaveCommits(t, at, acknowledged) =>
        var e := s.execs[t];
        PermittedWrites(s, t, e.pc.write);
        WrittenLater(s, t, e.(pc := if acknowledged then e.pc.next else e.pc.failing), e.pc.write, at);
      case SaveRefused(t, at) => FailedSaveLater(s, t, false);
      case SaveLost(t) => FailedSaveLater(s, t, true);
      case LateCommits(t, w, at) =>
        PermittedWrites(s, t, w);
        WrittenLater(s, t, s.execs[t].(late := s.execs[t].late - {w}), w, at);
      case LateRefused(t, w, at) => LaterRecord(s, t, s.execs[t].(late := s.execs[t].late - {w}));
      case Heartbeat(t, at) => HeartbeatLater(s, t, at);
    }
  }

  lemma OtherwiseLater(s: State, step: Step)
    requires Inv(s) && Enabled(s, step) && !IsExecuting(step)
    ensures Later(s, Apply(s, step))
  {
    hide Inv, Later, Blocked, Advance, ConfirmOutcomeOf, Usable, AddressLocked, FenceOpen, Written, SweptJobs,
         Load, RetryTarget, Retryable, QueryJob, ReleaseJob, EditedSwitch, EditedProfile, MayCommit,
         AfterFailedSave;
    match step {
      case Sweep(at) => SweepLater(s, at);
      case CommitClaim(c, token, at) => CommitLater(s, c, token, at + LEASE_SECONDS);
      case Prepare(id, ip, force, actor, switchId, network) =>
        InsertLater(s, id, QueryJob(s.assets, ip, force, actor, switchId, network, None), s.confirmations);
      case Confirm(id, c) =>
        ConfirmableMeans(s, c);
        InsertLater(s, id, ReleaseJob(c.prep, s.jobs[c.prep], c.force),
                    s.confirmations[id := Confirmation(c.actor, c.admin, c.force)]);
      case Retry(id, original, actor, admin, switchId, network) =>
        var j := s.jobs[original];
        InsertLater(s, id, QueryJob(s.assets, j.pin.ip, j.pin.force, actor, switchId, network, Some(original)), s.confirmations);
      case Tick(_) | PickJob(_, _) | LockAddress(_) | Recheck(_) | AbortClaim(_) => SameTablesLater(s, Apply(s, step));
      case EditSwitch(_, _) | EditProfile(_, _) | EditCredential(_, _) | EditNetworks(_) => SameTablesLater(s, Apply(s, step));
    }
  }

  lemma StepLater(s: State, step: Step)
    requires Inv(s) && Enabled(s, step)
    ensures Later(s, Apply(s, step))
  {
    hide Inv, Later, Enabled, Apply;
    if IsExecuting(step) {
      ExecutingLater(s, step);
    } else {
      OtherwiseLater(s, step);
    }
  }

  lemma FailedSaveLater(s: State, t: Token, lost: bool)
    requires t in s.execs && s.execs[t].pc.Saving?
    ensures Later(s, WithExec(s, t, AfterFailedSave(s.execs[t], lost)))
  {
    LaterRecord(s, t, AfterFailedSave(s.execs[t], lost));
  }

  lemma HeartbeatLater(s: State, t: Token, at: int)
    requires t in s.execs && s.execs[t].job in s.jobs && FenceOpen(s.jobs[s.execs[t].job], t, at)
    ensures var j := s.execs[t].job;
            Later(s, WithJob(s, j, s.jobs[j].(lease := Some(Lease(t, at + LEASE_SECONDS)))))
  {
    var j := s.execs[t].job;
    LaterRow(s, j, s.jobs[j].(lease := Some(Lease(t, at + LEASE_SECONDS))));
  }

  // A finished job never changes again, creation columns never change, executors are never forgotten.
  lemma {:induction false} RunLater(r: Run, i: nat, k: nat)
    requires r.Valid() && i <= k < |r.states|
    ensures Later(r.states[i], r.states[k])
    decreases k - i
  {
    hide Inv, Enabled, Apply, Later;
    if i == k {
      SameTablesLater(r.states[i], r.states[i]);
    } else {
      RunLater(r, i, k - 1);
      RunInv(r, k - 1);
      StepOf(r, k - 1);
      StepLater(r.states[k - 1], r.steps[k - 1]);
      LaterTransitive(r.states[i], r.states[k - 1], r.states[k]);
    }
  }

  // ---------- Commands of one address ----------

  // The evidence the executor has shows what became of its command.
  ghost predicate OutcomeProved(e: Exec) {
    FailureProved(e.reply, e.after) || SuccessProved(e.reply, e.after)
  }

  // The executor is about to send its release command, or has sent it and nothing proves its outcome yet:
  // it may still be executing, whether or not the executor waits for an answer.
  ghost predicate InWindow(e: Exec) {
    e.pc == Ready || (e.sent > 0 && !OutcomeProved(e))
  }

  // In the command window the executor's own job is running or uncertain, even if its lease is long gone.
  lemma WindowBlocks(s: State, t: Token)
    requires Inv(s) && t in s.execs && InWindow(s.execs[t])
    ensures s.execs[t].job in s.jobs && Blocking(s.jobs[s.execs[t].job])
    ensures s.jobs[s.execs[t].job].pin.kind == Release
            && (s.jobs[s.execs[t].job].status == Running || s.jobs[s.execs[t].job].status == NeedsManual)
    ensures s.jobs[s.execs[t].job].pin == s.execs[t].pin
  {
    hide Inv, SuccessProved, FailureProved, WriteOk;
    ExecHolds(s, t);
  }

  // Release commands for one address never overlap.
  lemma CommandsNeverOverlap(r: Run, i: nat, t: Token, u: Token)
    requires r.Valid() && i < |r.states|
    requires t in r.states[i].execs && u in r.states[i].execs && t != u
    requires InWindow(r.states[i].execs[t]) && InWindow(r.states[i].execs[u])
    ensures r.states[i].execs[t].pin.ip != r.states[i].execs[u].pin.ip
  {
    hide Inv, Enabled, Apply, ExecOk;
    var s := r.states[i];
    RunInv(r, i);
    WindowBlocks(s, t);
    WindowBlocks(s, u);
    ExecHolds(s, t);
    ExecHolds(s, u);
    if s.execs[t].pin.ip == s.execs[u].pin.ip {
      OneBlockingHolds(s, s.execs[t].job, s.execs[u].job);
    }
  }

  // At most one release job of an address is running or uncertain, in every reachable state.
  lemma OneReleasePerAddress(r: Run, i: nat, j: JobId, k: JobId)
    requires r.Valid() && i < |r.states| && j in r.states[i].jobs && k in r.states[i].jobs
    requires r.states[i].jobs[j].pin.kind == Release && r.states[i].jobs[k].pin.kind == Release
    requires r.states[i].jobs[j].status == Running || r.states[i].jobs[j].status == NeedsManual
    requires r.states[i].jobs[k].status == Running || r.states[i].jobs[k].status == NeedsManual
    requires r.states[i].jobs[j].pin.ip == r.states[i].jobs[k].pin.ip
    ensures j == k
  {
    hide Inv, Enabled, Apply;
    RunInv(r, i);
    OneBlockingHolds(r.states[i], j, k);
  }

  // The executor has sent its command, will not look at its outcome any more and has no proof of it.
  ghost predicate Abandoned(e: Exec) {
    e.sent > 0 && !AfterSending(e.pc) && !OutcomeProved(e)
  }

  // An answer that fails or times out leaves the command abandoned.
  lemma FailedAnswerAbandons(s: State, t: Token, timedOut: bool)
    requires Inv(s) && t in s.execs && s.execs[t].pc == Sending
    ensures var next := Advance(s.execs[t], SendFails(timedOut)); next.Some? && Abandoned(next.value)
  {
    hide Inv, RowOk, PlaceOk, ReadOk, DependencyProblem;
    ExecHolds(s, t);
  }

  lemma AdvanceStaysAbandoned(e: Exec, act: Act)
    requires RecordOk(e) && PlaceOk(e) && Abandoned(e) && Advance(e, act).Some?
    ensures Abandoned(Advance(e, act).value)
  {
    hide Parse, DependencyProblem, SuccessProved, FailureProved, WriteOk;
  }

  // What a step that is not the executor's own progress can do to it: it reads its dependencies, its
  // checkpoint ends, or a lost answer is settled.
  ghost predicate Moved(e: Exec, e': Exec) {
    && e'.reply == e.reply && e'.after == e.after && e'.sent == e.sent
    && (e'.pc == e.pc || e.pc == Claimed || (e.pc.Saving? && (e'.pc == e.pc.next || e'.pc == e.pc.failing)))
  }

  lemma ExecutingMoves(s: State, step: Step, t: Token)
    requires Enabled(s, step) && t in s.execs && IsExecuting(step) && !(step.Progress? && step.t == t)
    ensures t in Apply(s, step).execs && Moved(s.execs[t], Apply(s, step).execs[t])
  {
    hide Advance, Blocked, ConfirmOutcomeOf, Usable, AddressLocked, FenceOpen, Written, SweptJobs, Load, RetryTarget,
         Retryable, QueryJob, ReleaseJob, EditedSwitch, EditedProfile;
  }

  lemma StepMoves(s: State, step: Step, t: Token)
    requires Enabled(s, step) && t in s.execs && !(step.Progress? && step.t == t)
    ensures t in Apply(s, step).execs && Moved(s.execs[t], Apply(s, step).execs[t])
  {
    if IsExecuting(step) {
      ExecutingMoves(s, step, t);
    } else {
      hide Advance, Blocked, ConfirmOutcomeOf, Usable, AddressLocked, FenceOpen, Written, SweptJobs, Load, RetryTarget,
           Retryable, QueryJob, ReleaseJob, EditedSwitch, EditedProfile;
      assert Apply(s, step).execs == s.execs || step.CommitClaim?;
    }
  }

  lemma MovedStaysAbandoned(e: Exec, e': Exec)
    requires RecordOk(e) && PlaceOk(e) && Abandoned(e) && Moved(e, e')
    ensures Abandoned(e')
  {
    hide OutcomeProved, WriteOk, DependencyProblem;
    assert OutcomeProved(e') == OutcomeProved(e) by { SameEvidence(e, e'); }
  }

  lemma SameEvidence(e: Exec, e': Exec)
    requires e'.reply == e.reply && e'.after == e.after
    ensures OutcomeProved(e') == OutcomeProved(e)
  {
  }

  lemma StepStaysAbandoned(s: State, step: Step, t: Token)
    requires Inv(s) && Enabled(s, step) && t in s.execs && Abandoned(s.execs[t])
    ensures t in Apply(s, step).execs && Abandoned(Apply(s, step).execs[t])
  {
    hide Inv, RowOk, RecordOk, PlaceOk, ReadOk, Abandoned, Moved, Advance, Enabled, Apply;
    ExecHolds(s, t);
    if step.Progress? && step.t == t {
      ProgressMeans(s, t, step.act);
      AdvanceStaysAbandoned(s.execs[t], step.act);
    } else {
      StepMoves(s, step, t);
      MovedStaysAbandoned(s.execs[t], Apply(s, step).execs[t]);
    }
  }

  lemma ProgressMeans(s: State, t: Token, act: Act)
    requires Enabled(s, Progress(t, act))
    ensures t in s.execs && Advance(s.execs[t], act).Some?
    ensures Apply(s, Progress(t, act)) == WithExec(s, t, Advance(s.execs[t], act).value)
  {
    hide Advance;
  }

  // A command whose outcome will not be proved keeps its job running or uncertain for ever, and no command
  // for its address is started any more.
  lemma {:induction false} AbandonedBlocksForEver(r: Run, i: nat, k: nat, t: Token)
    requires r.Valid() && i <= k < |r.states| && t in r.states[i].execs && Abandoned(r.states[i].execs[t])
    ensures var s := r.states[k];
            && t in s.execs && Abandoned(s.execs[t]) && s.execs[t].job == r.states[i].execs[t].job
            && s.execs[t].pin == r.states[i].execs[t].pin
            && s.execs[t].job in s.jobs && s.jobs[s.execs[t].job].pin.kind == Release
            && (s.jobs[s.execs[t].job].status == Running || s.jobs[s.execs[t].job].status == NeedsManual)
    ensures k < |r.steps| ==> forall u :: r.steps[k] == Progress(u, Send) ==>
                                u in r.states[k].execs && r.states[k].execs[u].pin.ip != r.states[i].execs[t].pin.ip
    decreases k - i
  {
    hide Inv, Enabled, Apply, Abandoned;
    if i < k {
      AbandonedBlocksForEver(r, i, k - 1, t);
      RunInv(r, k - 1);
      StepOf(r, k - 1);
      StepStaysAbandoned(r.states[k - 1], r.steps[k - 1], t);
    }
    RunInv(r, k);
    RunLater(r, i, k);
    PinsStay(r, i, k, t);
    AbandonedInWindow(r.states[k].execs[t]);
    hide InWindow;
    WindowBlocks(r.states[k], t);
    if k < |r.steps| && r.steps[k].Progress? && r.steps[k].act == Send {
      var u := r.steps[k].t;
      StepOf(r, k);
      SendMeans(r.states[k], u);
      AbandonedIsNotReady(r.states[k], t);
      assert InWindow(r.states[k].execs[u]) by { ReadyInWindow(r.states[k].execs[u]); }
      CommandsNeverOverlap(r, k, t, u);
    }
  }

  lemma PinsStay(r: Run, i: nat, k: nat, t: Token)
    requires r.Valid() && i <= k < |r.states| && t in r.states[i].execs && t in r.states[k].execs
    ensures r.states[k].execs[t].job == r.states[i].execs[t].job && r.states[k].execs[t].pin == r.states[i].execs[t].pin
  {
    hide Inv, Enabled, Apply, ExecOk, ReadOk;
    RunInv(r, i);
    RunInv(r, k);
    RunLater(r, i, k);
    ExecHolds(r.states[i], t);
    ExecHolds(r.states[k], t);
  }

  lemma AbandonedInWindow(e: Exec)
    requires Abandoned(e)
    ensures InWindow(e)
  {
  }

  lemma ReadyInWindow(e: Exec)
    requires e.pc == Ready
    ensures InWindow(e)
  {
  }

  lemma AbandonedIsNotReady(s: State, t: Token)
    requires Inv(s) && t in s.execs && Abandoned(s.execs[t])
    ensures s.execs[t].pc != Ready
  {
    hide Inv, RowOk, PlaceOk, OutcomeProved, DependencyProblem;
    ExecHolds(s, t);
  }

  // A command is sent by an executor that is ready to, and is counted.
  lemma SendMeans(s: State, t: Token)
    requires Enabled(s, Progress(t, Send))
    ensures t in s.execs && s.execs[t].pc == Ready
    ensures var s' := Apply(s, Progress(t, Send));
            t in s'.execs && s'.execs[t].sent == s.execs[t].sent + 1 && s'.execs[t].job == s.execs[t].job
  {
  }

  // Once a release is uncertain, no other job ever starts a command for its address.
  lemma UncertainBlocksForEver(r: Run, i: nat, k: nat, j: JobId, t: Token)
    requires r.Valid() && i <= k < |r.steps| && r.steps[k] == Progress(t, Send)
    requires j in r.states[i].jobs && r.states[i].jobs[j].pin.kind == Release && r.states[i].jobs[j].status == NeedsManual
    requires t in r.states[k].execs && r.states[k].execs[t].pin.ip == r.states[i].jobs[j].pin.ip
    ensures r.states[k].execs[t].job == j
  {
    hide Inv, Enabled, Apply;
    var s := r.states[k];
    RunInv(r, k);
    RunLater(r, i, k);
    StepOf(r, k);
    SendMeans(s, t);
    WindowBlocks(s, t);
    OneBlockingHolds(s, s.execs[t].job, j);
  }

  // ---------- Fencing ----------

  // A claim takes a queued job and leaves it running.
  lemma CommitMeans(s: State, c: Claimant, token: Token, at: int)
    requires Inv(s) && Enabled(s, CommitClaim(c, token, at))
    ensures c in s.claims && s.claims[c].job in s.jobs && s.jobs[s.claims[c].job].status == Queued
    ensures var s' := Apply(s, CommitClaim(c, token, at));
            s.claims[c].job in s'.jobs && s'.jobs[s.claims[c].job].status == Running
  {
    ClaimHoldsQueued(s, c);
    hide Inv;
  }

  // A job is claimed at most once in a run.
  lemma ClaimedAtMostOnce(r: Run, i: nat, k: nat, c: Claimant, d: Claimant, token: Token, token': Token, at: int, at': int)
    requires r.Valid() && i < k < |r.steps|
    requires r.steps[i] == CommitClaim(c, token, at) && r.steps[k] == CommitClaim(d, token', at')
    ensures c in r.states[i].claims && d in r.states[k].claims
    ensures r.states[i].claims[c].job != r.states[k].claims[d].job
  {
    hide Inv, Enabled, Apply;
    RunInv(r, i);
    StepOf(r, i);
    CommitMeans(r.states[i], c, token, at);
    RunLater(r, i + 1, k);
    RunInv(r, k);
    StepOf(r, k);
    CommitMeans(r.states[k], d, token', at');
  }

  // A job sends at most one release command in a run.
  lemma SendsAtMostOnce(r: Run, i: nat, k: nat, t: Token, u: Token)
    requires r.Valid() && i < k < |r.steps|
    requires r.steps[i] == Progress(t, Send) && r.steps[k] == Progress(u, Send)
    ensures t in r.states[i].execs && u in r.states[k].execs
    ensures r.states[i].execs[t].job != r.states[k].execs[u].job
  {
    hide Inv, Enabled, Apply, PlaceOk, RowOk;
    var s := r.states[k];
    RunInv(r, k);
    StepOf(r, i);
    SendMeans(r.states[i], t);
    StepOf(r, k);
    SendMeans(s, u);
    RunLater(r, i + 1, k);
    ExecHolds(s, t);
    ExecHolds(s, u);
  }

  // The step writes the row of the executor's job in a transaction that started at this time: a checkpoint,
  // a late checkpoint or a heartbeat.
  predicate WritesRow(step: Step, t: Token, at: int) {
    match step
    case SaveCommits(u, a, _) => u == t && a == at
    case LateCommits(u, _, a) => u == t && a == at
    case Heartbeat(u, a) => u == t && a == at
    case _ => false
  }

  // The row is running under an unexpired lease with this token.
  predicate LeaseHeld(job: Job, t: Token, at: int) {
    job.status == Running && job.lease.Some? && job.lease.value.token == t && at < job.lease.value.until
  }

  lemma WritesNeedLease(s: State, step: Step, t: Token, at: int)
    requires Enabled(s, step) && WritesRow(step, t, at)
    ensures t in s.execs && s.execs[t].job in s.jobs && LeaseHeld(s.jobs[s.execs[t].job], t, at)
  {
  }

  // Whoever writes under a token holds an unexpired lease: the job is running, was claimed with that token,
  // and its lease ends after the writing transaction started.
  lemma WritersHoldTheLease(r: Run, i: nat, t: Token, at: int)
    requires r.Valid() && i < |r.steps| && WritesRow(r.steps[i], t, at)
    ensures var s := r.states[i];
            && t in s.execs && s.execs[t].job in s.jobs
            && s.jobs[s.execs[t].job].status == Running
            && s.jobs[s.execs[t].job].lease.Some? && s.jobs[s.execs[t].job].lease.value.token == t
            && s.jobs[s.execs[t].job].lease.value.until > at
            && s.execs[t].job in s.claimedBy && s.claimedBy[s.execs[t].job] == t
  {
    hide Inv, Enabled, Apply, ExecOk;
    RunInv(r, i);
    StepOf(r, i);
    WritesNeedLease(r.states[i], r.steps[i], t, at);
    ExecHolds(r.states[i], t);
  }

  // Without an unexpired lease no write of the executor is possible; its checkpoint is refused, and that
  // leaves every row alone. With one, a checkpoint and a heartbeat are possible.
  lemma WritesNeedLeaseExactly(s: State, t: Token, at: int)
    requires t in s.execs && s.execs[t].job in s.jobs && at <= s.now
    ensures var held := s.jobs[s.execs[t].job].status == Running && s.jobs[s.execs[t].job].lease.Some?
                        && s.jobs[s.execs[t].job].lease.value.token == t && s.jobs[s.execs[t].job].lease.value.until > at;
            && (Enabled(s, Heartbeat(t, at)) <==> held)
            && (s.execs[t].pc.Saving? ==>
                  && (forall acknowledged :: Enabled(s, SaveCommits(t, at, acknowledged)) <==> held)
                  && (Enabled(s, SaveRefused(t, at)) <==> !held)
                  && (!held ==> Apply(s, SaveRefused(t, at)).jobs == s.jobs))
            && (forall w :: w in s.execs[t].late ==>
                  && (Enabled(s, LateCommits(t, w, at)) <==> held)
                  && (Enabled(s, LateRefused(t, w, at)) <==> !held)
                  && (!held ==> Apply(s, LateRefused(t, w, at)).jobs == s.jobs))
  {
  }

  lemma SweepMeans(s: State, at: int, j: JobId)
    requires Enabled(s, Sweep(at)) && j in s.jobs
    ensures var s' := Apply(s, Sweep(at));
            && j in s'.jobs
            && s'.jobs[j] == if s.jobs[j].status == Running && s.jobs[j].lease.Some? && s.jobs[j].lease.value.until < at
                             then s.jobs[j].(status := NeedsManual, lease := None) else s.jobs[j]
  {
  }

  // Once a sweep has revoked an expired lease, nothing of its executor is ever written again.
  lemma SweptLeaseIsDead(r: Run, i: nat, k: nat, j: JobId, at: int, t: Token)
    requires r.Valid() && i < k < |r.steps| && r.steps[i] == Sweep(at)
    requires j in r.states[i].jobs && r.states[i].jobs[j].status == Running
    requires r.states[i].jobs[j].lease.Some? && r.states[i].jobs[j].lease.value.until < at
    requires t in r.states[i].execs && r.states[i].execs[t].job == j
    ensures j in r.states[k].jobs && r.states[k].jobs[j] == r.states[i].jobs[j].(status := NeedsManual, lease := None)
    ensures forall time :: !WritesRow(r.steps[k], t, time)
  {
    hide Inv, Enabled, Apply, WritesRow;
    StepOf(r, i);
    SweepMeans(r.states[i], at, j);
    RunLater(r, i + 1, k);
    RunLater(r, i, k);
    if time :| WritesRow(r.steps[k], t, time) {
      WritersHoldTheLease(r, k, t, time);
      assert false;
    }
  }

  // A query, and so every retry, never sends a command.
  lemma QueriesNeverSend(r: Run, i: nat, t: Token)
    requires r.Valid() && i < |r.states| && t in r.states[i].execs && r.states[i].execs[t].pin.kind == Query
    ensures r.states[i].execs[t].sent == 0 && r.states[i].execs[t].pc != Sending
  {
    hide Inv, Enabled, Apply, RowOk;
    RunInv(r, i);
    ExecHolds(r.states[i], t);
  }

  lemma RetryMeans(s: State, id: JobId, original: JobId, actor: ActorId, admin: bool, switchId: AssetId, network: Option<string>)
    requires Enabled(s, Retry(id, original, actor, admin, switchId, network))
    ensures var s' := Apply(s, Retry(id, original, actor, admin, switchId, network));
            && original in s.jobs && Final(s.jobs[original].status) && id !in s.jobs
            && s'.jobs.Keys == s.jobs.Keys + {id} && (forall j :: j in s.jobs ==> s'.jobs[j] == s.jobs[j])
            && s'.execs == s.execs
            && s'.jobs[id].pin.kind == Query && s'.jobs[id].status == Queued && s'.jobs[id].retryOf == Some(original)
            && s'.jobs[id].pin.ip == s.jobs[original].pin.ip && s'.jobs[id].pin.force == s.jobs[original].pin.force
            && (s.jobs[original].pin.force ==> admin)
            && (s.jobs[original].network.None? ==> s'.jobs[id].pin.switchId == s.jobs[original].pin.switchId)
  {
    hide Usable, ResolveNow;
  }

  // A retry adds one queued query that repeats the address and force of a failed, timed out or uncertain
  // job. At no later time of the run has that job changed, or has the new one sent a command.
  lemma RetryAddsOneQuery(r: Run, i: nat, k: nat, id: JobId, original: JobId, actor: ActorId, admin: bool, switchId: AssetId,
                          network: Option<string>)
    requires r.Valid() && i < k < |r.states| && r.steps[i] == Retry(id, original, actor, admin, switchId, network)
    ensures var s, s' := r.states[i], r.states[i + 1];
            && original in s.jobs && id !in s.jobs
            && s'.jobs.Keys == s.jobs.Keys + {id} && (forall j :: j in s.jobs ==> s'.jobs[j] == s.jobs[j])
            && s'.execs == s.execs
            && s'.jobs[id].status == Queued && s'.jobs[id].retryOf == Some(original)
            && s'.jobs[id].pin.ip == s.jobs[original].pin.ip && s'.jobs[id].pin.force == s.jobs[original].pin.force
            && (s.jobs[original].pin.force ==> admin)
            && (s.jobs[original].network.None? ==> s'.jobs[id].pin.switchId == s.jobs[original].pin.switchId)
    ensures var later := r.states[k];
            && original in later.jobs && later.jobs[original] == r.states[i].jobs[original]
            && id in later.jobs && later.jobs[id].pin == r.states[i + 1].jobs[id].pin
            && forall t :: t in later.execs && later.execs[t].job == id ==> later.execs[t].sent == 0
  {
    hide Inv, Enabled, Apply;
    StepOf(r, i);
    RetryMeans(r.states[i], id, original, actor, admin, switchId, network);
    RunLater(r, i, k);
    RunLater(r, i + 1, k);
    RunInv(r, k);
    forall t | t in r.states[k].execs && r.states[k].execs[t].job == id ensures r.states[k].execs[t].sent == 0 {
      ExecPin(r.states[k], t);
      QueriesNeverSend(r, k, t);
    }
  }

  lemma ExecPin(s: State, t: Token)
    requires Inv(s) && t in s.execs
    ensures s.execs[t].job in s.jobs && s.execs[t].pin == s.jobs[s.execs[t].job].pin
  {
    hide Inv, ExecOk, ReadOk;
    ExecHolds(s, t);
  }

  // ---------- Final statuses ----------

  // The final status of a job never hides a sent command.
  lemma FinalStatusIsHonest(r: Run, i: nat, j: JobId)
    requires r.Valid() && i < |r.states| && j in r.states[i].jobs && Final(r.states[i].jobs[j].status)
    ensures var s := r.states[i];
            && j in s.claimedBy && s.claimedBy[j] in s.execs
            && var e := s.execs[s.claimedBy[j]];
               && e.job == j && e.sent <= 1
               && (s.jobs[j].status == Cancelled || s.jobs[j].status == Timeout ==> e.sent == 0)
               && (s.jobs[j].status == Failed && e.sent == 1 ==> FailureProved(e.reply, e.after))
               && (s.jobs[j].status == Succeeded ==> e.sent == 1 && SuccessProved(e.reply, e.after))
               && (s.jobs[j].status == WaitingConfirmation ==> e.sent == 0 && s.jobs[j].pin.kind == Query && Allowed(e))
  {
    hide Inv, Enabled, Apply, PlaceOk, DependencyProblem, SuccessProved, FailureProved;
    RunInv(r, i);
    TakenHolds(r.states[i], j);
    ExecHolds(r.states[i], r.states[i].claimedBy[j]);
  }

  // ---------- Authority and assets ----------

  // Everything a sent command rests on: its own confirmed preparation, the same actor and pins, and a
  // fresh observation in the sending session.
  ghost predicate Authorised(s: State, t: Token)
    requires t in s.execs
  {
    var e := s.execs[t];
    && e.job in s.jobs && e.job in s.confirmations
    && var job, c := s.jobs[e.job], s.confirmations[e.job];
       && job.pin == e.pin && e.pin.kind == Release && job.prep.Some? && job.prep.value in s.jobs && job.prep.value != e.job
       && var p := s.jobs[job.prep.value];
          && p.pin.kind == Query && Final(p.status) && SamePins(e.pin, p.pin)
          && p.actor == job.actor == c.actor
          && (if e.pin.force then p.before == Some(Missing) && c.admin else p.before == Some(Static))
          && (e.before == Some(Static) || (e.before == Some(Missing) && e.pin.force))
          && (forall k :: k in s.jobs && s.jobs[k].prep == job.prep ==> k == e.job)
  }

  // Every command sent in a run was authorised, in every state from the moment it is about to be sent.
  lemma EveryCommandIsAuthorised(r: Run, i: nat, t: Token)
    requires r.Valid() && i < |r.states| && t in r.states[i].execs
    requires r.states[i].execs[t].sent > 0 || r.states[i].execs[t].pc == Ready
    ensures Authorised(r.states[i], t)
  {
    hide Inv, Enabled, Apply, RowOk, DependencyProblem;
    RunInv(r, i);
    ExecHolds(r.states[i], t);
    ReleaseHolds(r.states[i], r.states[i].execs[t].job);
  }

  // An executor that reached its switch read the revision its job is pinned to.
  lemma ReachedMeans(s: State, t: Token)
    requires Inv(s) && t in s.execs && s.execs[t].reached
    ensures var e := s.execs[t];
            && e.dep.Some?
            && var d := e.dep.value;
               && d.switchColumns.enabled && d.profileColumns.active && d.credentialActive
               && (e.pin.switchId, e.pin.switchVersion) in s.assets.switchHistory
               && d.switchColumns == s.assets.switchHistory[(e.pin.switchId, e.pin.switchVersion)]
               && d.switchColumns.profileId == e.pin.profileId
               && (e.pin.profileId, e.pin.profileVersion) in s.assets.profileHistory
               && d.profileColumns == s.assets.profileHistory[(e.pin.profileId, e.pin.profileVersion)]
  {
    ExecHolds(s, t);
    hide Inv, RowOk, PlaceOk;
  }

  // The preparation of a release was taken by an executor that reached the switch.
  lemma PreparationReached(s: State, j: JobId)
    requires Inv(s) && j in s.jobs && s.jobs[j].pin.kind == Release
    ensures s.jobs[j].prep.Some? && s.jobs[j].prep.value in s.jobs
    ensures var p := s.jobs[j].prep.value;
            && p in s.claimedBy && s.claimedBy[p] in s.execs
            && var q := s.execs[s.claimedBy[p]];
               q.job == p && q.reached && SamePins(s.jobs[j].pin, q.pin)
  {
    ReleaseHolds(s, j);
    var p := s.jobs[j].prep.value;
    TakenHolds(s, p);
    ExecHolds(s, s.claimedBy[p]);
    hide Inv, RecordOk, PlaceOk;
  }

  // Whenever a release reaches its switch, it read the same edited columns of the switch and of the
  // profile as the executor of its preparation did.
  lemma SameAssetsAsPreparation(r: Run, i: nat, t: Token)
    requires r.Valid() && i < |r.states| && t in r.states[i].execs
    requires r.states[i].execs[t].reached && r.states[i].execs[t].pin.kind == Release
    ensures var s := r.states[i];
            && s.execs[t].job in s.jobs && s.jobs[s.execs[t].job].prep.Some?
            && var p := s.jobs[s.execs[t].job].prep.value;
               && p in s.claimedBy && s.claimedBy[p] in s.execs
               && var e, q := s.execs[t], s.execs[s.claimedBy[p]];
                  && q.job == p && q.reached && e.dep.Some? && q.dep.Some?
                  && e.dep.value.switchColumns == q.dep.value.switchColumns
                  && e.dep.value.profileColumns == q.dep.value.profileColumns
  {
    hide Inv, Enabled, Apply, ExecOk, ReadOk;
    var s := r.states[i];
    RunInv(r, i);
    ExecHolds(s, t);
    PreparationReached(s, s.execs[t].job);
    ReachedMeans(s, t);
    ReachedMeans(s, s.claimedBy[s.jobs[s.execs[t].job].prep.value]);
  }

  // ---------- Confirmation ----------

  // What a confirmation finds once its release exists.
  lemma ConfirmsAgain(s: State, id: JobId, c: ConfirmInput)
    requires ReleasesOf(s.jobs, c.prep, id) && s.jobs[id].pin.force == c.force && c.prep in s.jobs
    requires forall other :: ReleasesOf(s.jobs, c.prep, other) ==> other == id
    requires var p := s.jobs[c.prep];
             && p.pin.kind == Query && p.actor == c.actor && CanConfirm(p.before, c.force, c.admin)
             && (p.status == WaitingConfirmation || (p.status == Cancelled && p.before == Some(Missing)))
    ensures ConfirmOutcomeOf(s, c) == Existing(id)
  {
    hide Blocked, PinCurrent;
  }

  lemma ConfirmMeans(s: State, id: JobId, c: ConfirmInput)
    requires Enabled(s, Confirm(id, c))
    ensures ConfirmOutcomeOf(s, c) == Confirmable && id !in s.jobs && c.prep in s.jobs
    ensures var s' := Apply(s, Confirm(id, c)); s'.jobs == s.jobs[id := ReleaseJob(c.prep, s.jobs[c.prep], c.force)]
  {
    ConfirmableMeans(s, c);
    hide ConfirmOutcomeOf;
  }

  // Confirming again, at any later time, finds the release the first confirmation created.
  lemma ConfirmationIsIdempotent(r: Run, i: nat, k: nat, id: JobId, c: ConfirmInput)
    requires r.Valid() && i < k < |r.states| && r.steps[i] == Confirm(id, c)
    ensures ConfirmOutcomeOf(r.states[k], c) == Existing(id)
  {
    hide Inv, Enabled, Apply, ConfirmOutcomeOf, PinCurrent, Blocked, CanConfirm, Confirms;
    StepOf(r, i);
    ConfirmMeans(r.states[i], id, c);
    ConfirmableMeans(r.states[i], c);
    var s, s' := r.states[i + 1], r.states[k];
    RunLater(r, i + 1, k);
    RunInv(r, k);
    ReleaseHolds(s', id);
    assert s'.jobs[c.prep] == r.states[i].jobs[c.prep];
    assert ReleasesOf(s'.jobs, c.prep, id);
    ConfirmsAgain(s', id, c);
  }
}
