/**
 What the pinned revision of a job is for: without an edit a prepared query passes
 its dependency check, and a confirmation is refused as changed exactly when an
 edit since the pre-query matters.
 */
module ReleasePins {
  import opened Wrappers
  import opened Resolution
  import opened Evidence
  import opened ReleaseState
  import opened ReleaseInvariant
  import opened ReleaseSteps
  import opened ReleaseRuns

  // ---------- From a preparation to the dependency check ----------

  // The step edits one of these rows.
  predicate Edits(step: Step, switchId: AssetId, profileId: AssetId, credentialId: AssetId) {
    match step
    case EditSwitch(asset, _) => asset == switchId
    case EditProfile(asset, _) => asset == profileId
    case EditCredential(asset, _) => asset == credentialId
    case _ => false
  }

  // These three rows are the same.
  predicate SameRows(a: Assets, b: Assets, switchId: AssetId, profileId: AssetId, credentialId: AssetId) {
    && switchId in a.switches && switchId in b.switches && b.switches[switchId] == a.switches[switchId]
    && profileId in a.profiles && profileId in b.profiles && b.profiles[profileId] == a.profiles[profileId]
    && credentialId in a.credentials && credentialId in b.credentials && b.credentials[credentialId] == a.credentials[credentialId]
  }

  lemma ExecutingKeepsAssets(s: State, step: Step)
    requires Enabled(s, step) && IsExecuting(step)
    ensures Apply(s, step).assets == s.assets
  {
    hide Advance, Blocked, ConfirmOutcomeOf, Usable, AddressLocked, FenceOpen, Written, SweptJobs, Load, RetryTarget,
         Retryable, QueryJob, ReleaseJob, EditedSwitch, EditedProfile, TakenJob, MayCommit, AfterFailedSave;
  }

  lemma ClaimingKeepsAssets(s: State, step: Step)
    requires Enabled(s, step) && IsClaiming(step)
    ensures Apply(s, step).assets == s.assets
  {
    hide Advance, Blocked, ConfirmOutcomeOf, Usable, AddressLocked, FenceOpen, Written, SweptJobs, Load, RetryTarget,
         Retryable, QueryJob, ReleaseJob, EditedSwitch, EditedProfile, TakenJob, MayCommit, AfterFailedSave;
  }

  lemma AskingKeepsAssets(s: State, step: Step)
    requires Enabled(s, step) && (step.Prepare? || step.Confirm? || step.Retry?)
    ensures Apply(s, step).assets == s.assets
  {
    hide Advance, Blocked, ConfirmOutcomeOf, Usable, AddressLocked, FenceOpen, Written, SweptJobs, Load, RetryTarget,
         Retryable, QueryJob, ReleaseJob, EditedSwitch, EditedProfile, TakenJob, MayCommit, AfterFailedSave;
  }

  lemma EditKeepsRows(s: State, step: Step, switchId: AssetId, profileId: AssetId, credentialId: AssetId)
    requires Enabled(s, step) && !Edits(step, switchId, profileId, credentialId)
    requires step.EditSwitch? || step.EditProfile? || step.EditCredential? || step.EditNetworks?
    requires switchId in s.assets.switches && profileId in s.assets.profiles && credentialId in s.assets.credentials
    ensures SameRows(s.assets, Apply(s, step).assets, switchId, profileId, credentialId)
  {
    hide Advance, Blocked, ConfirmOutcomeOf, Usable, AddressLocked, FenceOpen, Written, SweptJobs, Load, RetryTarget,
         Retryable, QueryJob, ReleaseJob, TakenJob, MayCommit, AfterFailedSave, Expired;
  }

  lemma StepKeepsRows(s: State, step: Step, switchId: AssetId, profileId: AssetId, credentialId: AssetId)
    requires Enabled(s, step) && !Edits(step, switchId, profileId, credentialId)
    requires switchId in s.assets.switches && profileId in s.assets.profiles && credentialId in s.assets.credentials
    ensures SameRows(s.assets, Apply(s, step).assets, switchId, profileId, credentialId)
  {
    hide Enabled, Apply;
    if IsExecuting(step) {
      ExecutingKeepsAssets(s, step);
    } else if IsClaiming(step) {
      ClaimingKeepsAssets(s, step);
    } else if step.Prepare? || step.Confirm? || step.Retry? {
      AskingKeepsAssets(s, step);
    } else {
      EditKeepsRows(s, step, switchId, profileId, credentialId);
    }
  }

  lemma {:induction false} UneditedRows(r: Run, i: nat, k: nat, switchId: AssetId, profileId: AssetId, credentialId: AssetId)
    requires r.Valid() && i <= k < |r.states|
    requires var a := r.states[i].assets; switchId in a.switches && profileId in a.profiles && credentialId in a.credentials
    requires forall m :: i <= m < k ==> !Edits(r.steps[m], switchId, profileId, credentialId)
    ensures SameRows(r.states[i].assets, r.states[k].assets, switchId, profileId, credentialId)
    decreases k - i
  {
    hide Enabled, Apply;
    if i < k {
      UneditedRows(r, i, k - 1, switchId, profileId, credentialId);
      StepOf(r, k - 1);
      StepKeepsRows(r.states[k - 1], r.steps[k - 1], switchId, profileId, credentialId);
    }
  }

  // The step queues this job as a pre-query for a switch.
  predicate Queues(step: Step, id: JobId, switchId: AssetId) {
    || (step.Prepare? && step.id == id && step.switchId == switchId)
    || (step.Retry? && step.id == id && step.switchId == switchId)
  }

  lemma QueuesMeans(s: State, step: Step, id: JobId, switchId: AssetId)
    requires Enabled(s, step) && Queues(step, id, switchId)
    ensures switchId in s.assets.switches
    ensures var c := s.assets.switches[switchId].columns;
            && c.enabled && c.profileId in s.assets.profiles && s.assets.profiles[c.profileId].columns.active
            && c.credentialId in s.assets.credentials && s.assets.credentials[c.credentialId]
    ensures var s' := Apply(s, step);
            && s'.assets == s.assets && id in s'.jobs
            && var pin, sw := s'.jobs[id].pin, s.assets.switches[switchId];
               && pin.kind == Query && pin.switchId == switchId && pin.profileId == sw.columns.profileId && pin.switchVersion == sw.version
               && pin.profileVersion == s.assets.profiles[sw.columns.profileId].version
  {
    hide RetryTarget, Retryable;
  }

  lemma LoadMeans(s: State, t: Token)
    requires Enabled(s, LoadDependencies(t))
    ensures t in s.execs
    ensures var s' := Apply(s, LoadDependencies(t));
            && s'.execs == s.execs[t := s.execs[t].(pc := Loaded, dep := Load(s.assets, s.execs[t].pin))]
            && s'.jobs == s.jobs
  {
    hide Load;
  }

  lemma LoadFinds(a: Assets, pin: Pin)
    requires pin.switchId in a.switches && pin.profileId in a.profiles
    requires var c := a.switches[pin.switchId].columns; c.profileId == pin.profileId && c.credentialId in a.credentials
    ensures var d, sw, p := Load(a, pin), a.switches[pin.switchId], a.profiles[pin.profileId];
            && d.Some? && d.value.switchColumns == sw.columns && d.value.switchVersion == sw.version
            && d.value.profileColumns == p.columns && d.value.profileVersion == p.version
            && d.value.credentialActive == a.credentials[sw.columns.credentialId]
  {
  }

  // A prepared or retried query whose switch, command profile and credential are not edited before its
  // executor reads them reads an enabled switch with active assets at the pinned versions, so it passes the
  // dependency check.
  lemma UneditedQueryPasses(r: Run, i: nat, k: nat, id: JobId, switchId: AssetId, t: Token)
    requires r.Valid() && i < k < |r.steps| && Queues(r.steps[i], id, switchId)
    requires r.steps[k] == LoadDependencies(t) && t in r.states[k].execs && r.states[k].execs[t].job == id
    requires switchId in r.states[i].assets.switches
    requires var c := r.states[i].assets.switches[switchId].columns;
             forall m :: i < m < k ==> !Edits(r.steps[m], switchId, c.profileId, c.credentialId)
    ensures t in r.states[k + 1].execs
    ensures var e := r.states[k + 1].execs[t];
            && Advance(e, CheckDependencies).Some? && Advance(e, CheckDependencies).value.pc == Preparing
            && e.dep.Some?
            && var d := e.dep.value;
               && d.switchColumns.enabled && d.profileColumns.active && d.credentialActive
               && d.switchVersion == e.pin.switchVersion && d.profileVersion == e.pin.profileVersion
  {
    hide Inv, Enabled, Apply, Load;
    StepOf(r, i);
    StepOf(r, k);
    QueuesMeans(r.states[i], r.steps[i], id, switchId);
    var c := r.states[i].assets.switches[switchId].columns;
    UneditedRows(r, i + 1, k, switchId, c.profileId, c.credentialId);
    RunLater(r, i + 1, k);
    RunInv(r, k);
    ExecPin(r.states[k], t);
    LoadMeans(r.states[k], t);
    LoadFinds(r.states[k].assets, r.states[k].execs[t].pin);
  }

  // ---------- What a confirmation answers ----------

  // The evidence of a finished pre-query admits a release with these rights.
  predicate Admits(p: Job, c: ConfirmInput) {
    && p.pin.kind == Query
    && ((p.before == Some(Static) && !c.force && p.status == WaitingConfirmation)
        || (p.before == Some(Missing) && c.force && c.admin && (p.status == WaitingConfirmation || p.status == Cancelled)))
  }

  // An edit since the pre-query matters: the switch or the command profile has another version, the
  // credential is no longer active, or the address no longer belongs to the switch alone.
  ghost predicate EditedSince(a: Assets, p: Job)
    requires p.pin.switchId in a.switches && p.pin.profileId in a.profiles
  {
    var sw := a.switches[p.pin.switchId];
    || sw.version != p.pin.switchVersion
    || a.profiles[p.pin.profileId].version != p.pin.profileVersion
    || !(sw.columns.credentialId in a.credentials && a.credentials[sw.columns.credentialId])
    || (p.network.Some? && !OwnsAlone(ActiveNetworks(a, a.networks), p.pin.ip, p.pin.switchId))
  }

  // While the versions are the pinned ones, an observed pre-query's switch and profile are as it found them.
  lemma PinnedRowsHold(s: State, j: JobId)
    requires Inv(s) && j in s.jobs && s.jobs[j].pin.kind == Query && s.jobs[j].before.Some?
    ensures var a, pin := s.assets, s.jobs[j].pin;
            && pin.switchId in a.switches && pin.profileId in a.profiles
            && (a.switches[pin.switchId].version == pin.switchVersion ==>
                  a.switches[pin.switchId].columns.enabled && a.switches[pin.switchId].columns.profileId == pin.profileId)
            && (a.profiles[pin.profileId].version == pin.profileVersion ==> a.profiles[pin.profileId].columns.active)
  {
    hide Inv, ExecOk;
    ObservedQuery(s, j);
    ReachedMeans(s, s.claimedBy[j]);
    HistoryHolds(s);
  }

  lemma HistoryHolds(s: State)
    requires Inv(s)
    ensures HistoryOk(s.assets)
  {
    hide LeasesOk, ClaimsOk, RechecksHold, OneBlocking, QueriesOk, ReleasesOk, HistoryOk, ReadsOk, ClaimedOnce, ExecsOk;
  }

  lemma ObservedQuery(s: State, j: JobId)
    requires Inv(s) && j in s.jobs && s.jobs[j].pin.kind == Query && s.jobs[j].before.Some?
    ensures j in s.claimedBy && s.claimedBy[j] in s.execs
    ensures var e := s.execs[s.claimedBy[j]]; e.job == j && e.reached && e.pin == s.jobs[j].pin
  {
    assert j in s.claimedBy by {
      hide LeasesOk, ClaimsOk, RechecksHold, OneBlocking, ReleasesOk, HistoryOk, ReadsOk, ClaimedOnce, ExecsOk;
    }
    assert s.claimedBy[j] in s.execs && s.execs[s.claimedBy[j]].job == j by {
      hide LeasesOk, ClaimsOk, RechecksHold, OneBlocking, ReleasesOk, HistoryOk, ReadsOk, QueriesOk, ExecsOk;
    }
    hide Inv, RecordOk, PlaceOk, ReadOk;
    ExecHolds(s, s.claimedBy[j]);
  }

  lemma OwnerMeans(a: Assets, ip: nat, switchId: AssetId)
    ensures OwnsAlone(ActiveNetworks(a, a.networks), ip, switchId) <==>
            ResolveNow(a, ip).Resolved? && ResolveNow(a, ip).network.switchId == switchId
  {
    ResolveMeetsSpec(ip, ActiveNetworks(a, a.networks));
    hide OwnsAlone, Resolve, ActiveNetworks;
  }

  lemma PinCurrentExactly(s: State, j: JobId)
    requires Inv(s) && j in s.jobs && s.jobs[j].pin.kind == Query && s.jobs[j].before.Some?
    ensures s.jobs[j].pin.switchId in s.assets.switches && s.jobs[j].pin.profileId in s.assets.profiles
    ensures PinCurrent(s.assets, s.jobs[j]) <==> !EditedSince(s.assets, s.jobs[j])
  {
    hide Inv, OwnsAlone, ResolveNow, ActiveNetworks;
    PinnedRowsHold(s, j);
    OwnerMeans(s.assets, s.jobs[j].pin.ip, s.jobs[j].pin.switchId);
  }

  lemma AdmittedOutcome(s: State, c: ConfirmInput)
    requires c.prep in s.jobs && s.jobs[c.prep].actor == c.actor && Admits(s.jobs[c.prep], c)
    requires forall id, other :: ReleasesOf(s.jobs, c.prep, id) && ReleasesOf(s.jobs, c.prep, other) ==> id == other
    ensures var r, p := ConfirmOutcomeOf(s, c), s.jobs[c.prep];
            if exists id :: ReleasesOf(s.jobs, c.prep, id) then
              forall id :: ReleasesOf(s.jobs, c.prep, id) ==>
                r == if s.jobs[id].pin.force == c.force then Existing(id) else ConfirmConflict
            else
              r == if Blocked(s.jobs, p.pin.ip, None) then ConfirmConflict
                   else if PinCurrent(s.assets, p) then Confirmable else ConfirmChanged
  {
    hide Blocked, PinCurrent;
  }

  lemma RefusedOutcome(s: State, c: ConfirmInput)
    requires c.prep in s.jobs && s.jobs[c.prep].actor == c.actor && !Admits(s.jobs[c.prep], c)
    ensures ConfirmOutcomeOf(s, c) == ConfirmConflict
  {
    hide Blocked, PinCurrent, ReleasesOf;
  }

  ghost predicate NotYetConfirmed(jobs: map<JobId, Job>, prep: JobId) {
    forall id :: id in jobs ==> jobs[id].prep != Some(prep)
  }

  ghost predicate ConfirmedWith(jobs: map<JobId, Job>, prep: JobId, force: bool) {
    exists id :: id in jobs && jobs[id].prep == Some(prep) && jobs[id].pin.force == force
  }

  // Every answer of a confirmation by the owner of a pre-query, with exactly when it is given.
  lemma ConfirmationExactly(s: State, c: ConfirmInput)
    requires Inv(s)
    ensures ConfirmOutcomeOf(s, c) == ConfirmNotFound <==> !(c.prep in s.jobs && s.jobs[c.prep].actor == c.actor)
    ensures c.prep in s.jobs && s.jobs[c.prep].actor == c.actor ==>
              var r, p := ConfirmOutcomeOf(s, c), s.jobs[c.prep];
              if !Admits(p, c) then r == ConfirmConflict
              else
                && p.pin.switchId in s.assets.switches && p.pin.profileId in s.assets.profiles
                && (r.Existing? <==> ConfirmedWith(s.jobs, c.prep, c.force))
                && (r == Confirmable <==>
                      NotYetConfirmed(s.jobs, c.prep) && AddressFree(s.jobs, p.pin.ip) && !EditedSince(s.assets, p))
                && (r == ConfirmChanged <==>
                      NotYetConfirmed(s.jobs, c.prep) && AddressFree(s.jobs, p.pin.ip) && EditedSince(s.assets, p))
  {
    hide Inv, Blocked, PinCurrent, EditedSince, AddressFree;
    if c.prep in s.jobs && s.jobs[c.prep].actor == c.actor {
      if Admits(s.jobs[c.prep], c) {
        PinCurrentExactly(s, c.prep);
        FreeMeans(s.jobs, s.jobs[c.prep].pin.ip);
        forall id, other | ReleasesOf(s.jobs, c.prep, id) && ReleasesOf(s.jobs, c.prep, other) ensures id == other {
          OneRelease(s, id, other);
        }
        AdmittedOutcome(s, c);
        hide ConfirmOutcomeOf, Admits;
        assert forall id :: ReleasesOf(s.jobs, c.prep, id) <==> id in s.jobs && s.jobs[id].prep == Some(c.prep);
      } else {
        RefusedOutcome(s, c);
      }
    }
  }

  // No release of the address is running or needs manual confirmation.
  ghost predicate AddressFree(jobs: map<JobId, Job>, ip: nat) {
    forall k :: k in jobs && jobs[k].pin.ip == ip && jobs[k].pin.kind == Release ==>
      jobs[k].status != Running && jobs[k].status != NeedsManual
  }

  lemma FreeMeans(jobs: map<JobId, Job>, ip: nat)
    ensures AddressFree(jobs, ip) <==> !Blocked(jobs, ip, None)
  {
  }

  lemma OneRelease(s: State, id: JobId, other: JobId)
    requires Inv(s) && id in s.jobs && other in s.jobs && s.jobs[id].prep.Some? && s.jobs[id].prep == s.jobs[other].prep
    ensures id == other
  {
    hide LeasesOk, ClaimsOk, RechecksHold, OneBlocking, QueriesOk, HistoryOk, ExecsOk, ReadsOk, ClaimedOnce, Confirms;
  }
}
