/**
 Every step of the release workflow keeps the invariant. Steps are grouped by what
 they write: one executor's record, one fenced job row, expired rows, claims, a
 new job, or the asset tables.
 */
module ReleaseSteps {
  import opened Wrappers
  import opened Resolution
  import opened Evidence
  import opened ReleaseState
  import opened ReleaseInvariant

  // ---------- One executor's record ----------

  lemma RecordStep(s: State, t: Token, e: Exec)
    requires Inv(s) && t in s.execs && e.job == s.execs[t].job
    requires ExecOk(e, s.jobs[e.job]) && ReadOk(e, s.assets)
    ensures Inv(WithExec(s, t, e))
  {
    hide ExecOk, ReadOk, LeasesOk, ClaimsOk, RechecksHold, OneBlocking, QueriesOk, ReleasesOk, HistoryOk;
  }

  lemma LoadReads(a: Assets, e: Exec)
    requires HistoryOk(a)
    ensures ReadOk(e.(pc := Loaded, dep := Load(a, e.pin)), a)
  {
  }

  lemma LoadKeepsExec(e: Exec, job: Job, dep: Option<Dependencies>)
    requires ExecOk(e, job) && e.pc == Claimed
    ensures ExecOk(e.(pc := Loaded, dep := dep), job)
  {
    hide DependencyProblem, SuccessProved, FailureProved;
  }

  lemma LoadStep(s: State, t: Token)
    requires Inv(s) && t in s.execs && s.execs[t].pc == Claimed
    ensures Inv(WithExec(s, t, s.execs[t].(pc := Loaded, dep := Load(s.assets, s.execs[t].pin))))
  {
    hide ExecOk, ReadOk, Load;
    var e := s.execs[t];
    LoadReads(s.assets, e);
    LoadKeepsExec(e, s.jobs[e.job], Load(s.assets, e.pin));
    RecordStep(s, t, e.(pc := Loaded, dep := Load(s.assets, e.pin)));
  }

  lemma ProgressStep(s: State, t: Token, act: Act)
    requires Inv(s) && t in s.execs && Advance(s.execs[t], act).Some?
    ensures Inv(WithExec(s, t, Advance(s.execs[t], act).value))
  {
    hide RecordOk, PlaceOk, RowOk, Advance;
    var e := s.execs[t];
    AdvanceKeepsRecord(e, act);
    AdvanceKeepsPlace(e, act);
    AdvanceKeepsRow(e, s.jobs[e.job], act);
    AdvanceFrame(e, act);
    RecordStep(s, t, Advance(e, act).value);
  }

  lemma AdvanceFrame(e: Exec, act: Act)
    requires Advance(e, act).Some?
    ensures var e' := Advance(e, act).value;
            e'.job == e.job && e'.pin == e.pin && e'.dep == e.dep && e'.late == e.late
  {
    hide Parse, DependencyProblem;
  }

  lemma FailedSaveKeepsExec(e: Exec, job: Job, lost: bool)
    requires ExecOk(e, job) && e.pc.Saving?
    ensures ExecOk(AfterFailedSave(e, lost), job)
  {
    hide DependencyProblem, SuccessProved, FailureProved;
  }

  lemma FailedSaveStep(s: State, t: Token, lost: bool)
    requires Inv(s) && AtSave(s, t)
    ensures Inv(WithExec(s, t, AfterFailedSave(s.execs[t], lost)))
  {
    hide ExecOk;
    FailedSaveKeepsExec(s.execs[t], s.jobs[s.execs[t].job], lost);
    RecordStep(s, t, AfterFailedSave(s.execs[t], lost));
  }

  lemma ForgetLateKeepsExec(e: Exec, job: Job, w: Write)
    requires ExecOk(e, job)
    ensures ExecOk(e.(late := e.late - {w}), job)
  {
    hide DependencyProblem, SuccessProved, FailureProved;
  }

  lemma LateRefusedStep(s: State, t: Token, w: Write)
    requires Inv(s) && t in s.execs
    ensures Inv(WithExec(s, t, s.execs[t].(late := s.execs[t].late - {w})))
  {
    hide ExecOk;
    var e := s.execs[t];
    ForgetLateKeepsExec(e, s.jobs[e.job], w);
    RecordStep(s, t, e.(late := e.late - {w}));
  }

  // ---------- One fenced row ----------

  // A running row that changes its status, lease or observation in place.
  predicate RowChange(job: Job, job': Job, token: Token) {
    && job.status == Running && job.lease.Some? && job.lease.value.token == token && job'.status != Queued
    && job'.pin == job.pin && job'.actor == job.actor && job'.prep == job.prep
    && (job'.lease.Some? <==> job'.status == Running)
    && (job'.lease.Some? ==> job'.lease.value.token == token)
  }

  lemma RowChangeKeepsLeases(jobs: map<JobId, Job>, claimedBy: map<JobId, Token>, j: JobId, job: Job, token: Token)
    requires LeasesOk(jobs, claimedBy) && QueriesOk(jobs, claimedBy) && j in jobs && RowChange(jobs[j], job, token)
    ensures LeasesOk(jobs[j := job], claimedBy) && QueriesOk(jobs[j := job], claimedBy)
  {
  }

  lemma RowChangeKeepsClaims(jobs: map<JobId, Job>, claims: map<Claimant, Claim>, j: JobId, job: Job, token: Token)
    requires ClaimsOk(jobs, claims) && RechecksHold(jobs, claims) && j in jobs && RowChange(jobs[j], job, token)
    ensures ClaimsOk(jobs[j := job], claims) && RechecksHold(jobs[j := job], claims)
  {
    assert Blocking(job) ==> Blocking(jobs[j]);
  }

  lemma RowChangeKeepsBlocking(jobs: map<JobId, Job>, j: JobId, job: Job, token: Token)
    requires OneBlocking(jobs) && j in jobs && RowChange(jobs[j], job, token)
    ensures OneBlocking(jobs[j := job])
  {
    assert Blocking(job) ==> Blocking(jobs[j]);
  }

  lemma RowChangeKeepsReleases(jobs: map<JobId, Job>, confirmations: map<JobId, Confirmation>, j: JobId, job: Job, token: Token)
    requires ReleasesOk(jobs, confirmations) && j in jobs && RowChange(jobs[j], job, token)
    ensures ReleasesOk(jobs[j := job], confirmations)
  {
  }

  // An executor's record and its job row replaced together.
  lemma RecordAndRow(s: State, t: Token, e: Exec, job: Job)
    requires ClaimedOnce(s.jobs, s.execs, s.claimedBy) && ExecsOk(s.jobs, s.execs)
    requires t in s.execs && e.job == s.execs[t].job && ExecOk(e, job)
    requires s.jobs[e.job].status != Queued && job.status != Queued
    ensures ClaimedOnce(s.jobs[e.job := job], s.execs[t := e], s.claimedBy)
    ensures ExecsOk(s.jobs[e.job := job], s.execs[t := e])
  {
    hide ExecOk;
  }

  lemma RecordReads(execs: map<Token, Exec>, assets: Assets, t: Token, e: Exec)
    requires ReadsOk(execs, assets) && t in execs && e.dep == execs[t].dep && e.pin == execs[t].pin
    ensures ReadsOk(execs[t := e], assets)
  {
    assert ReadOk(execs[t], assets);
  }

  // A fenced write of an executor to its own job row.
  lemma RowStep(s: State, t: Token, e: Exec, job: Job)
    requires Inv(s) && t in s.execs && e.job == s.execs[t].job && e.dep == s.execs[t].dep && e.pin == s.execs[t].pin
    requires RowChange(s.jobs[e.job], job, t) && ExecOk(e, job)
    ensures Inv(WithJob(WithExec(s, t, e), e.job, job))
  {
    LeavesQueued(s.jobs[e.job], job, t);
    hide ExecOk, ClaimedOnce, ReadsOk, LeasesOk, ClaimsOk, RechecksHold, OneBlocking, QueriesOk, ReleasesOk, HistoryOk, RowChange;
    RowChangeKeepsLeases(s.jobs, s.claimedBy, e.job, job, t);
    RowChangeKeepsClaims(s.jobs, s.claims, e.job, job, t);
    RowChangeKeepsBlocking(s.jobs, e.job, job, t);
    RowChangeKeepsReleases(s.jobs, s.confirmations, e.job, job, t);
    RecordAndRow(s, t, e, job);
    RecordReads(s.execs, s.assets, t, e);
  }

  lemma LeavesQueued(job: Job, job': Job, token: Token)
    requires RowChange(job, job', token)
    ensures job.status != Queued && job'.status != Queued
  {
  }

  lemma SaveCommitsKeepsExec(e: Exec, job: Job, token: Token, at: int, acknowledged: bool)
    requires ExecOk(e, job) && e.pc.Saving? && FenceOpen(job, token, at)
    ensures RowChange(job, Written(job, e.pc.write, token, at), token)
    ensures ExecOk(e.(pc := if acknowledged then e.pc.next else e.pc.failing), Written(job, e.pc.write, token, at))
  {
    hide DependencyProblem, SuccessProved, FailureProved;
  }

  lemma SaveCommitsStep(s: State, t: Token, at: int, acknowledged: bool)
    requires Inv(s) && AtSave(s, t) && FenceOpen(s.jobs[s.execs[t].job], t, at)
    ensures var e := s.execs[t];
            Inv(WithJob(WithExec(s, t, e.(pc := if acknowledged then e.pc.next else e.pc.failing)),
                        e.job, Written(s.jobs[e.job], e.pc.write, t, at)))
  {
    hide ExecOk, Written, FenceOpen, RowChange;
    var e := s.execs[t];
    SaveCommitsKeepsExec(e, s.jobs[e.job], t, at, acknowledged);
    RowStep(s, t, e.(pc := if acknowledged then e.pc.next else e.pc.failing), Written(s.jobs[e.job], e.pc.write, t, at));
  }

  lemma LateCommitKeepsExec(e: Exec, job: Job, w: Write, token: Token, at: int)
    requires ExecOk(e, job) && w in e.late && FenceOpen(job, token, at)
    ensures RowChange(job, Written(job, w, token, at), token)
    ensures ExecOk(e.(late := e.late - {w}), Written(job, w, token, at))
  {
    hide DependencyProblem, SuccessProved, FailureProved;
  }

  lemma LateCommitsStep(s: State, t: Token, w: Write, at: int)
    requires Inv(s) && t in s.execs && w in s.execs[t].late
    requires s.execs[t].job in s.jobs && FenceOpen(s.jobs[s.execs[t].job], t, at)
    ensures var e := s.execs[t];
            Inv(WithJob(WithExec(s, t, e.(late := e.late - {w})), e.job, Written(s.jobs[e.job], w, t, at)))
  {
    hide ExecOk, Written, FenceOpen, RowChange;
    var e := s.execs[t];
    LateCommitKeepsExec(e, s.jobs[e.job], w, t, at);
    RowStep(s, t, e.(late := e.late - {w}), Written(s.jobs[e.job], w, t, at));
  }

  lemma HeartbeatKeepsExec(e: Exec, job: Job, token: Token, at: int)
    requires ExecOk(e, job) && FenceOpen(job, token, at)
    ensures var job' := job.(lease := Some(Lease(token, at + LEASE_SECONDS)));
            RowChange(job, job', token) && ExecOk(e, job')
  {
    hide RecordOk, PlaceOk, WriteOk;
  }

  lemma HeartbeatStep(s: State, t: Token, at: int)
    requires Inv(s) && t in s.execs && s.execs[t].job in s.jobs && FenceOpen(s.jobs[s.execs[t].job], t, at)
    ensures var j := s.execs[t].job;
            Inv(WithJob(s, j, s.jobs[j].(lease := Some(Lease(t, at + LEASE_SECONDS)))))
  {
    hide ExecOk, FenceOpen, RowChange;
    var e := s.execs[t];
    HeartbeatKeepsExec(e, s.jobs[e.job], t, at);
    assert s.execs[t := e] == s.execs;
    RowStep(s, t, e, s.jobs[e.job].(lease := Some(Lease(t, at + LEASE_SECONDS))));
  }

  // ---------- Expired rows ----------

  lemma SweptKeepsExec(e: Exec, job: Job, job': Job)
    requires ExecOk(e, job) && RowSwept(job, job')
    ensures ExecOk(e, job')
  {
    hide RecordOk, PlaceOk, WriteOk;
  }

  // What sweeping leaves of every row.
  ghost predicate RowSwept(job: Job, job': Job) {
    && job'.pin == job.pin && job'.actor == job.actor && job'.prep == job.prep && job'.before == job.before
    && (job' == job || (job.status == Running && job'.status == NeedsManual && job'.lease.None?))
  }

  lemma SweptRows(jobs: map<JobId, Job>, at: int)
    ensures SweptJobs(jobs, at).Keys == jobs.Keys
    ensures forall j :: j in jobs ==> RowSwept(jobs[j], SweptJobs(jobs, at)[j])
  {
  }

  // A sweep keeps who is queued and what was pinned, and every lease it leaves belongs to a running job.
  lemma SweptColumns(jobs: map<JobId, Job>, at: int)
    requires forall j :: j in jobs ==> (jobs[j].lease.Some? <==> jobs[j].status == Running)
    ensures var swept := SweptJobs(jobs, at);
            && swept.Keys == jobs.Keys
            && forall j :: j in jobs ==>
                 && (swept[j].status == Queued <==> jobs[j].status == Queued)
                 && (swept[j].lease.Some? <==> swept[j].status == Running)
                 && (swept[j].lease.Some? ==> swept[j].lease == jobs[j].lease)
                 && swept[j].pin == jobs[j].pin && swept[j].prep == jobs[j].prep && swept[j].before == jobs[j].before
  {
    SweptRows(jobs, at);
    var swept := SweptJobs(jobs, at);
    hide SweptJobs;
    forall j | j in jobs
      ensures swept[j].status == Queued <==> jobs[j].status == Queued
      ensures swept[j].lease.Some? <==> swept[j].status == Running
      ensures swept[j].lease.Some? ==> swept[j].lease == jobs[j].lease
      ensures swept[j].pin == jobs[j].pin && swept[j].prep == jobs[j].prep && swept[j].before == jobs[j].before
    {
      assert RowSwept(jobs[j], swept[j]);
    }
  }

  lemma SweepKeepsLeases(jobs: map<JobId, Job>, execs: map<Token, Exec>, claimedBy: map<JobId, Token>, at: int)
    requires ClaimedOnce(jobs, execs, claimedBy) && LeasesOk(jobs, claimedBy) && QueriesOk(jobs, claimedBy)
    ensures ClaimedOnce(SweptJobs(jobs, at), execs, claimedBy)
    ensures LeasesOk(SweptJobs(jobs, at), claimedBy) && QueriesOk(SweptJobs(jobs, at), claimedBy)
  {
    SweptColumns(jobs, at);
    hide SweptJobs;
  }

  lemma SweepKeepsClaims(jobs: map<JobId, Job>, claims: map<Claimant, Claim>, at: int)
    requires ClaimsOk(jobs, claims) && RechecksHold(jobs, claims) && OneBlocking(jobs)
    ensures ClaimsOk(SweptJobs(jobs, at), claims) && RechecksHold(SweptJobs(jobs, at), claims)
    ensures OneBlocking(SweptJobs(jobs, at))
  {
    SweptRows(jobs, at);
    var swept := SweptJobs(jobs, at);
    hide SweptJobs;
    forall j | j in jobs
      ensures Blocking(swept[j]) == Blocking(jobs[j]) && swept[j].pin == jobs[j].pin
      ensures swept[j].status == Queued <==> jobs[j].status == Queued
    {
      assert RowSwept(jobs[j], swept[j]);
    }
    hide Blocking, RowSwept;
  }

  lemma SweepKeepsReleases(jobs: map<JobId, Job>, confirmations: map<JobId, Confirmation>, at: int)
    requires ReleasesOk(jobs, confirmations)
    ensures ReleasesOk(SweptJobs(jobs, at), confirmations)
  {
    SweptRows(jobs, at);
    hide SweptJobs, CanConfirm, SamePins;
    var swept := SweptJobs(jobs, at);
    forall j | j in swept && swept[j].pin.kind == Release
      ensures swept[j].prep.Some? && swept[j].prep.value in swept && j in confirmations
      ensures Confirms(swept[j], swept[swept[j].prep.value], confirmations[j])
    {
      assert RowSwept(jobs[j], swept[j]);
      assert RowSwept(jobs[jobs[j].prep.value], swept[jobs[j].prep.value]);
    }
    hide Confirms, RowSwept;
    assert forall j :: j in jobs ==> swept[j].prep == jobs[j].prep by {
      forall j | j in jobs ensures swept[j].prep == jobs[j].prep { SweptPrep(jobs[j], swept[j]); }
    }
  }

  lemma SweptPrep(job: Job, job': Job)
    requires RowSwept(job, job')
    ensures job'.prep == job.prep
  {
  }

  lemma SweepKeepsExecs(jobs: map<JobId, Job>, execs: map<Token, Exec>, at: int)
    requires ExecsOk(jobs, execs)
    ensures ExecsOk(SweptJobs(jobs, at), execs)
  {
    SweptRows(jobs, at);
    hide SweptJobs, ExecOk;
    forall t | t in execs ensures ExecOk(execs[t], SweptJobs(jobs, at)[execs[t].job]) {
      assert RowSwept(jobs[execs[t].job], SweptJobs(jobs, at)[execs[t].job]);
      SweptKeepsExec(execs[t], jobs[execs[t].job], SweptJobs(jobs, at)[execs[t].job]);
    }
  }

  lemma SweepStep(s: State, at: int)
    requires Inv(s)
    ensures Inv(s.(jobs := SweptJobs(s.jobs, at)))
  {
    hide ClaimedOnce, LeasesOk, ClaimsOk, RechecksHold, OneBlocking, ExecsOk, ReadsOk, QueriesOk, ReleasesOk, HistoryOk, SweptJobs;
    SweepKeepsLeases(s.jobs, s.execs, s.claimedBy, at);
    SweepKeepsClaims(s.jobs, s.claims, at);
    SweepKeepsReleases(s.jobs, s.confirmations, at);
    SweepKeepsExecs(s.jobs, s.execs, at);
  }

  // ---------- Claims ----------

  // A change to the claims alone.
  lemma ClaimsStep(s: State, claims: map<Claimant, Claim>)
    requires Inv(s) && ClaimsOk(s.jobs, claims) && RechecksHold(s.jobs, claims)
    ensures Inv(s.(claims := claims))
  {
    hide ClaimedOnce, LeasesOk, ClaimsOk, RechecksHold, OneBlocking, ExecsOk, ReadsOk, QueriesOk, ReleasesOk, HistoryOk;
  }

  lemma PickStep(s: State, c: Claimant, j: JobId)
    requires Inv(s) && c !in s.claims && j in s.jobs && s.jobs[j].status == Queued
    requires forall d :: d in s.claims ==> s.claims[d].job != j
    ensures Inv(s.(claims := s.claims[c := Claim(j, Picked)]))
  {
    hide ClaimedOnce, LeasesOk, OneBlocking, ExecsOk, ReadsOk, QueriesOk, ReleasesOk, HistoryOk, Blocking;
    ClaimsStep(s, s.claims[c := Claim(j, Picked)]);
  }

  lemma LockStep(s: State, c: Claimant)
    requires Inv(s) && ClaimHolds(s, c, Picked) && s.jobs[s.claims[c].job].pin.kind == Release
    requires !AddressLocked(s, s.jobs[s.claims[c].job].pin.ip, c)
    ensures Inv(s.(claims := s.claims[c := s.claims[c].(stage := Locked)]))
  {
    hide ClaimedOnce, LeasesOk, OneBlocking, ExecsOk, ReadsOk, QueriesOk, ReleasesOk, HistoryOk;
    var ip := s.jobs[s.claims[c].job].pin.ip;
    forall d | d in s.claims && d != c && s.claims[d].stage != Picked
      ensures s.jobs[s.claims[d].job].pin.ip != ip
    {
    }
    ClaimsStep(s, s.claims[c := s.claims[c].(stage := Locked)]);
  }

  lemma DropStep(s: State, c: Claimant)
    requires Inv(s)
    ensures Inv(s.(claims := s.claims - {c}))
  {
    hide ClaimedOnce, LeasesOk, OneBlocking, ExecsOk, ReadsOk, QueriesOk, ReleasesOk, HistoryOk;
    ClaimsStep(s, s.claims - {c});
  }

  lemma RecheckStep(s: State, c: Claimant)
    requires Inv(s) && ClaimHolds(s, c, Locked)
    requires !Blocked(s.jobs, s.jobs[s.claims[c].job].pin.ip, Some(s.claims[c].job))
    ensures Inv(s.(claims := s.claims[c := s.claims[c].(stage := Rechecked)]))
  {
    hide ClaimedOnce, LeasesOk, OneBlocking, ExecsOk, ReadsOk, QueriesOk, ReleasesOk, HistoryOk;
    var job := s.claims[c].job;
    forall j | j in s.jobs && j != job && s.jobs[j].pin.ip == s.jobs[job].pin.ip
      ensures !Blocking(s.jobs[j])
    {
    }
    ClaimsStep(s, s.claims[c := s.claims[c].(stage := Rechecked)]);
  }

  lemma CommitKeepsClaims(jobs: map<JobId, Job>, claims: map<Claimant, Claim>, c: Claimant, token: Token, until: int)
    requires ClaimsOk(jobs, claims) && RechecksHold(jobs, claims) && OneBlocking(jobs) && MayCommit(jobs, claims, c)
    ensures var jobs' := jobs[claims[c].job := TakenJob(jobs[claims[c].job], token, until)];
            ClaimsOk(jobs', claims - {c}) && RechecksHold(jobs', claims - {c}) && OneBlocking(jobs')
  {
  }

  // A new executor and the row it has just taken.
  lemma NewExecOk(j: JobId, job: Job, token: Token, until: int)
    requires job.pin.kind == Query ==> job.before.None?
    ensures ExecOk(NewExec(j, job.pin), TakenJob(job, token, until))
  {
  }

  lemma CommitKeepsExecs(jobs: map<JobId, Job>, execs: map<Token, Exec>, j: JobId, token: Token, until: int)
    requires ExecsOk(jobs, execs) && j in jobs && token !in execs
    requires jobs[j].pin.kind == Query ==> jobs[j].before.None?
    requires forall t :: t in execs ==> execs[t].job != j
    ensures ExecsOk(jobs[j := TakenJob(jobs[j], token, until)], execs[token := NewExec(j, jobs[j].pin)])
  {
    NewExecOk(j, jobs[j], token, until);
    hide ExecOk;
  }

  lemma CommitKeepsOnce(jobs: map<JobId, Job>, execs: map<Token, Exec>, claimedBy: map<JobId, Token>, j: JobId,
                        token: Token, until: int)
    requires ClaimedOnce(jobs, execs, claimedBy) && j in jobs && jobs[j].status == Queued && token !in execs
    ensures forall t :: t in execs ==> execs[t].job != j
    ensures ClaimedOnce(jobs[j := TakenJob(jobs[j], token, until)], execs[token := NewExec(j, jobs[j].pin)], claimedBy[j := token])
  {
    assert j !in claimedBy;
  }

  lemma CommitKeepsLeases(s: State, j: JobId, token: Token, until: int)
    requires LeasesOk(s.jobs, s.claimedBy) && QueriesOk(s.jobs, s.claimedBy)
    requires j in s.jobs && s.jobs[j].status == Queued && j !in s.claimedBy
    ensures var jobs := s.jobs[j := TakenJob(s.jobs[j], token, until)];
            LeasesOk(jobs, s.claimedBy[j := token]) && QueriesOk(jobs, s.claimedBy[j := token])
  {
  }

  lemma CommitKeepsReads(execs: map<Token, Exec>, assets: Assets, token: Token, j: JobId, pin: Pin)
    requires ReadsOk(execs, assets) && token !in execs
    ensures ReadsOk(execs[token := NewExec(j, pin)], assets)
  {
    assert ReadOk(NewExec(j, pin), assets);
  }

  lemma CommitKeepsReleases(jobs: map<JobId, Job>, confirmations: map<JobId, Confirmation>, j: JobId, token: Token, until: int)
    requires ReleasesOk(jobs, confirmations) && j in jobs && jobs[j].status == Queued
    ensures ReleasesOk(jobs[j := TakenJob(jobs[j], token, until)], confirmations)
  {
  }

  lemma CommitStep(s: State, c: Claimant, token: Token, until: int)
    requires Inv(s) && token !in s.execs && MayCommit(s.jobs, s.claims, c)
    ensures var j := s.claims[c].job;
            Inv(s.(claims := s.claims - {c}, jobs := s.jobs[j := TakenJob(s.jobs[j], token, until)],
                   execs := s.execs[token := NewExec(j, s.jobs[j].pin)], claimedBy := s.claimedBy[j := token]))
  {
    var j := s.claims[c].job;
    assert s.jobs[j].status == Queued && j !in s.claimedBy;
    assert s.jobs[j].pin.kind == Query ==> s.jobs[j].before.None?;
    hide ClaimedOnce, LeasesOk, ClaimsOk, RechecksHold, OneBlocking, ExecsOk, ReadsOk, QueriesOk, ReleasesOk, HistoryOk, MayCommit;
    CommitKeepsClaims(s.jobs, s.claims, c, token, until);
    CommitKeepsOnce(s.jobs, s.execs, s.claimedBy, j, token, until);
    CommitKeepsExecs(s.jobs, s.execs, j, token, until);
    CommitKeepsLeases(s, j, token, until);
    CommitKeepsReads(s.execs, s.assets, token, j, s.jobs[j].pin);
    CommitKeepsReleases(s.jobs, s.confirmations, j, token, until);
  }

  // ---------- New jobs ----------

  // A row as it is inserted.
  predicate Fresh(job: Job) {
    && job.status == Queued && job.lease.None?
    && (job.pin.kind == Query ==> job.prep.None? && job.before.None?)
  }

  lemma InsertKeepsTables(s: State, id: JobId, job: Job)
    requires Inv(s) && id !in s.jobs && Fresh(job)
    ensures var jobs := s.jobs[id := job];
            && ClaimedOnce(jobs, s.execs, s.claimedBy) && LeasesOk(jobs, s.claimedBy) && QueriesOk(jobs, s.claimedBy)
            && ExecsOk(jobs, s.execs)
  {
    hide ClaimsOk, RechecksHold, OneBlocking, ReadsOk, ReleasesOk, HistoryOk, ExecOk;
  }

  lemma InsertKeepsClaims(jobs: map<JobId, Job>, claims: map<Claimant, Claim>, id: JobId, job: Job)
    requires ClaimsOk(jobs, claims) && RechecksHold(jobs, claims) && OneBlocking(jobs) && id !in jobs && Fresh(job)
    ensures ClaimsOk(jobs[id := job], claims) && RechecksHold(jobs[id := job], claims) && OneBlocking(jobs[id := job])
  {
  }

  lemma InsertStep(s: State, id: JobId, job: Job, confirmations: map<JobId, Confirmation>)
    requires Inv(s) && id !in s.jobs && Fresh(job) && ReleasesOk(s.jobs[id := job], confirmations)
    ensures Inv(WithJob(s, id, job).(confirmations := confirmations))
  {
    InsertKeepsTables(s, id, job);
    InsertKeepsClaims(s.jobs, s.claims, id, job);
    hide ClaimedOnce, LeasesOk, ClaimsOk, RechecksHold, OneBlocking, ExecsOk, ReadsOk, QueriesOk, ReleasesOk, HistoryOk;
  }

  lemma QueryKeepsReleases(jobs: map<JobId, Job>, confirmations: map<JobId, Confirmation>, id: JobId, job: Job)
    requires ReleasesOk(jobs, confirmations) && id !in jobs && job.pin.kind == Query && job.prep.None?
    ensures ReleasesOk(jobs[id := job], confirmations)
  {
  }

  lemma NewQueryStep(s: State, id: JobId, ip: nat, force: bool, actor: ActorId, switchId: AssetId, network: Option<string>,
                     retryOf: Option<JobId>)
    requires Inv(s) && id !in s.jobs && Usable(s.assets, switchId)
    ensures Inv(WithJob(s, id, QueryJob(s.assets, ip, force, actor, switchId, network, retryOf)))
  {
    var job := QueryJob(s.assets, ip, force, actor, switchId, network, retryOf);
    hide ReleasesOk;
    QueryKeepsReleases(s.jobs, s.confirmations, id, job);
    InsertStep(s, id, job, s.confirmations);
  }

  // What a confirmation has checked when it creates a release.
  lemma ConfirmableMeans(s: State, c: ConfirmInput)
    requires ConfirmOutcomeOf(s, c) == Confirmable
    ensures c.prep in s.jobs
    ensures var p := s.jobs[c.prep];
            && p.pin.kind == Query && p.actor == c.actor && CanConfirm(p.before, c.force, c.admin)
            && (p.status == WaitingConfirmation || (p.status == Cancelled && p.before == Some(Missing)))
            && PinCurrent(s.assets, p) && !Blocked(s.jobs, p.pin.ip, None)
    ensures forall j :: j in s.jobs ==> s.jobs[j].prep != Some(c.prep)
  {
    hide PinCurrent, Blocked;
    forall j | j in s.jobs ensures s.jobs[j].prep != Some(c.prep) {
      assert !ReleasesOf(s.jobs, c.prep, j);
    }
  }

  lemma ConfirmKeepsReleases(s: State, id: JobId, c: ConfirmInput)
    requires ReleasesOk(s.jobs, s.confirmations) && id !in s.jobs && ConfirmOutcomeOf(s, c) == Confirmable
    ensures c.prep in s.jobs
    ensures ReleasesOk(s.jobs[id := ReleaseJob(c.prep, s.jobs[c.prep], c.force)],
                       s.confirmations[id := Confirmation(c.actor, c.admin, c.force)])
  {
    ConfirmableMeans(s, c);
    hide ConfirmOutcomeOf, CanConfirm;
  }

  lemma ConfirmStep(s: State, id: JobId, c: ConfirmInput)
    requires Inv(s) && id !in s.jobs && ConfirmOutcomeOf(s, c) == Confirmable
    ensures c.prep in s.jobs
    ensures Inv(WithJob(s, id, ReleaseJob(c.prep, s.jobs[c.prep], c.force))
                .(confirmations := s.confirmations[id := Confirmation(c.actor, c.admin, c.force)]))
  {
    hide ConfirmOutcomeOf, ReleasesOk;
    ConfirmKeepsReleases(s, id, c);
    InsertStep(s, id, ReleaseJob(c.prep, s.jobs[c.prep], c.force), s.confirmations[id := Confirmation(c.actor, c.admin, c.force)]);
  }

  // ---------- Assets ----------

  // The histories only grow, so every earlier read stays explained.
  lemma AssetsStep(s: State, a: Assets)
    requires Inv(s) && HistoryOk(a)
    requires forall k :: k in s.assets.switchHistory ==>
                           k in a.switchHistory && a.switchHistory[k] == s.assets.switchHistory[k]
    requires forall k :: k in s.assets.profileHistory ==>
                           k in a.profileHistory && a.profileHistory[k] == s.assets.profileHistory[k]
    ensures Inv(s.(assets := a))
  {
    hide ClaimedOnce, LeasesOk, ClaimsOk, RechecksHold, OneBlocking, ExecsOk, QueriesOk, ReleasesOk, HistoryOk;
    forall t | t in s.execs ensures ReadOk(s.execs[t], a) {
      assert ReadOk(s.execs[t], s.assets);
    }
  }

  lemma EditSwitchKeepsHistory(a: Assets, id: AssetId, columns: SwitchColumns)
    requires HistoryOk(a)
    ensures HistoryOk(EditedSwitch(a, id, columns))
    ensures (id, NextVersion(a.switches, id, columns).version) !in a.switchHistory
  {
  }

  lemma EditProfileKeepsHistory(a: Assets, id: AssetId, columns: ProfileColumns)
    requires HistoryOk(a)
    ensures HistoryOk(EditedProfile(a, id, columns))
    ensures (id, NextVersion(a.profiles, id, columns).version) !in a.profileHistory
  {
  }

  lemma EditSwitchStep(s: State, id: AssetId, columns: SwitchColumns)
    requires Inv(s)
    ensures Inv(s.(assets := EditedSwitch(s.assets, id, columns)))
  {
    EditSwitchKeepsHistory(s.assets, id, columns);
    hide Inv, HistoryOk, NextVersion;
    AssetsStep(s, EditedSwitch(s.assets, id, columns));
  }

  lemma EditProfileStep(s: State, id: AssetId, columns: ProfileColumns)
    requires Inv(s)
    ensures Inv(s.(assets := EditedProfile(s.assets, id, columns)))
  {
    EditProfileKeepsHistory(s.assets, id, columns);
    hide Inv, HistoryOk, NextVersion;
    AssetsStep(s, EditedProfile(s.assets, id, columns));
  }

  lemma UnpinnedStep(s: State, credentials: map<AssetId, bool>, networks: seq<NetworkRow>)
    requires Inv(s)
    ensures Inv(s.(assets := s.assets.(credentials := credentials, networks := networks)))
  {
    AssetsStep(s, s.assets.(credentials := credentials, networks := networks));
  }

  // ---------- Every step ----------

  lemma TickStep(s: State, to: int)
    requires Inv(s)
    ensures Inv(s.(now := to))
  {
  }

  // The steps of the clock, the sweep and the claimants.
  predicate IsClaiming(step: Step) {
    step.Tick? || step.Sweep? || step.PickJob? || step.LockAddress? || step.Recheck? || step.CommitClaim? || step.AbortClaim?
  }

  // The steps of an executor and of its writes.
  predicate IsExecuting(step: Step) {
    || step.LoadDependencies? || step.Progress? || step.SaveCommits? || step.SaveRefused? || step.SaveLost?
    || step.LateCommits? || step.LateRefused? || step.Heartbeat?
  }

  lemma ClaimingKeepsInv(s: State, step: Step)
    requires Inv(s) && Enabled(s, step) && IsClaiming(step)
    ensures Inv(Apply(s, step))
  {
    hide Inv, Blocked, Advance, ConfirmOutcomeOf, Usable, AddressLocked, FenceOpen, Written, SweptJobs, Load,
         RetryTarget, Retryable, QueryJob, ReleaseJob, EditedSwitch, EditedProfile, MayCommit, AfterFailedSave;
    match step {
      case Tick(to) => TickStep(s, to);
      case Sweep(at) => SweepStep(s, at);
      case PickJob(c, j) => PickStep(s, c, j);
      case LockAddress(c) => LockStep(s, c);
      case Recheck(c) =>
        if Blocked(s.jobs, s.jobs[s.claims[c].job].pin.ip, Some(s.claims[c].job)) {
          DropStep(s, c);
        } else {
          RecheckStep(s, c);
        }
      case CommitClaim(c, token, at) => CommitStep(s, c, token, at + LEASE_SECONDS);
      case AbortClaim(c) => DropStep(s, c);
    }
  }

  lemma ExecutingKeepsInv(s: State, step: Step)
    requires Inv(s) && Enabled(s, step) && IsExecuting(step)
    ensures Inv(Apply(s, step))
  {
    hide Inv, Blocked, Advance, ConfirmOutcomeOf, Usable, AddressLocked, FenceOpen, Written, SweptJobs, Load,
         RetryTarget, Retryable, QueryJob, ReleaseJob, EditedSwitch, EditedProfile, MayCommit, AfterFailedSave;
    match step {
      case LoadDependencies(t) => LoadStep(s, t);
      case Progress(t, act) => ProgressStep(s, t, act);
      case SaveCommits(t, at, acknowledged) => SaveCommitsStep(s, t, at, acknowledged);
      case SaveRefused(t, at) => FailedSaveStep(s, t, false);
      case SaveLost(t) => FailedSaveStep(s, t, true);
      case LateCommits(t, w, at) => LateCommitsStep(s, t, w, at);
      case LateRefused(t, w, at) => LateRefusedStep(s, t, w);
      case Heartbeat(t, at) => HeartbeatStep(s, t, at);
    }
  }

  lemma AskingKeepsInv(s: State, step: Step)
    requires Inv(s) && Enabled(s, step) && !IsClaiming(step) && !IsExecuting(step)
    ensures Inv(Apply(s, step))
  {
    hide Inv, Blocked, Advance, ConfirmOutcomeOf, Usable, AddressLocked, FenceOpen, Written, SweptJobs, Load,
         RetryTarget, Retryable, QueryJob, ReleaseJob, EditedSwitch, EditedProfile, MayCommit, AfterFailedSave;
    match step {
      case Prepare(id, ip, force, actor, switchId, network) =>
        NewQueryStep(s, id, ip, force, actor, switchId, network, None);
      case Confirm(id, c) => ConfirmStep(s, id, c);
      case Retry(id, original, actor, admin, switchId, network) =>
        NewQueryStep(s, id, s.jobs[original].pin.ip, s.jobs[original].pin.force, actor, switchId, network, Some(original));
      case EditSwitch(id, columns) => EditSwitchStep(s, id, columns);
      case EditProfile(id, columns) => EditProfileStep(s, id, columns);
      case EditCredential(id, active) => UnpinnedStep(s, s.assets.credentials[id := active], s.assets.networks);
      case EditNetworks(networks) => UnpinnedStep(s, s.assets.credentials, networks);
    }
  }

  lemma StepKeepsInv(s: State, step: Step)
    requires Inv(s) && Enabled(s, step)
    ensures Inv(Apply(s, step))
  {
    hide Inv, Enabled, Apply;
    if IsClaiming(step) {
      ClaimingKeepsInv(s, step);
    } else if IsExecuting(step) {
      ExecutingKeepsInv(s, step);
    } else {
      AskingKeepsInv(s, step);
    }
  }
}
