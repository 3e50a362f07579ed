/**
 What every step of the release workflow keeps. The invariant is a conjunction of
 parts; most parts speak of one executor and its job row, so that a step only has
 to be looked at where it writes.
 */
module ReleaseInvariant {
  import opened Wrappers
  import opened Resolution
  import opened Evidence
  import opened ReleaseState

  // ---------- One executor and its job row ----------

  // A checkpoint that is not the last one leads back to the main line of the executor.
  predicate MainLine(pc: Pc) {
    match pc
    case Saving(_, next, _) => next != Done
    case Handling(_) => false
    case Giving => false
    case Done => false
    case _ => true
  }

  // Where the executor is, or where its checkpoint leads.
  function Ahead(pc: Pc): Pc {
    if pc.Saving? then pc.next else pc
  }

  // The main line before the release command is sent.
  predicate BeforeSending(pc: Pc) {
    var p := Ahead(pc);
    p == Claimed || p == Loaded || p == Preparing || p == Opening || p == Querying || p == Deciding || p == Ready
  }

  // The command has been sent and may still be running, or was answered and is being followed up.
  predicate AfterSending(pc: Pc) {
    var p := Ahead(pc);
    p == Sending || p == QueryingAfter || p == Classifying
  }

  // The session's own query saw what allows a release: a static entry, or none when the release is forced.
  predicate Allowed(e: Exec) {
    e.before == Some(Static) || (e.before == Some(Missing) && e.pin.force)
  }

  // An error pattern matched the command's output, or the address still showed a static entry afterwards.
  ghost predicate FailureProved(reply: Option<Reply>, after: Option<Reading>) {
    && reply.Some? && after.Some?
    && (ErrorSeen(reply.value) || HasRow(after.value, Static))
  }

  // No error pattern matched, and afterwards the address showed no static and no unclassified entry.
  ghost predicate SuccessProved(reply: Option<Reply>, after: Option<Reading>) {
    && reply.Some? && after.Some?
    && (forall i :: 0 <= i < |reply.value.errors| ==> reply.value.errors[i] == Miss)
    && !HasRow(after.value, Static) && !HasRow(after.value, Unknown)
  }

  // The statuses an executor may write, given what it has done and seen.
  ghost predicate Permitted(e: Exec, status: Status) {
    match status
    case Queued => false
    case Running => true
    case NeedsManual => true
    case WaitingConfirmation => e.pin.kind == Query && Allowed(e)
    case Cancelled => e.sent == 0 && (e.before == Some(Dynamic) || (e.before == Some(Missing) && !e.pin.force))
    case Timeout => e.sent == 0
    case Failed => e.sent == 0 || FailureProved(e.reply, e.after)
    case Succeeded => e.sent == 1 && SuccessProved(e.reply, e.after)
  }

  ghost predicate WriteOk(e: Exec, w: Write) {
    Permitted(e, w.status) && (w.before.Some? ==> e.reached && e.before == w.before)
  }

  // The executor's own record is consistent with where it stands.
  ghost predicate RecordOk(e: Exec) {
    && (e.mayHaveRun <==> e.sent == 1) && e.sent <= 1
    && (BeforeSending(e.pc) ==> e.sent == 0)
    && (AfterSending(e.pc) ==> e.sent == 1)
    && (BeforeSending(e.pc) || e.pc == Sending ==> e.reply.None?)
    && (e.sent == 1 ==> e.reached && e.pin.kind == Release && Allowed(e))
    && (e.reached ==> e.deviceStarted && DependencyProblem(e.pin, e.dep) == NoProblem)
    && (e.pc == Preparing ==> e.deviceStarted && DependencyProblem(e.pin, e.dep) == NoProblem)
    && (e.pc in {Claimed, Loaded, Preparing} ==> !e.reached)
    && (e.before.Some? ==> e.reached)
  }

  ghost predicate PlaceOk(e: Exec) {
    match e.pc
    case Opening => e.reached && e.before.None?
    case Querying => e.reached && e.before.None?
    case Deciding => e.before.Some?
    case Ready => e.reached && e.pin.kind == Release && Allowed(e)
    case Saving(w, next, failing) =>
      && WriteOk(e, w)
      && (next != Done ==> w.status == Running)
      && (next == Querying ==> e.reached && e.before.None?)
      && (next == Deciding ==> e.before.Some?)
      && (next == Ready ==> e.reached && e.pin.kind == Release && Allowed(e))
      && next in {Querying, Deciding, Ready, QueryingAfter, Classifying, Done}
      && failing in {Handling(false), Giving, Done}
    case _ => true
  }

  // The executor's record against the row of its job.
  ghost predicate RowOk(e: Exec, job: Job) {
    && e.pin == job.pin
    && (MainLine(e.pc) ==> e.late == {} && (job.status == Running || job.status == NeedsManual))
    && (forall w :: w in e.late ==> WriteOk(e, w))
    && Permitted(e, job.status)
    && (job.pin.kind == Query && job.before.Some? ==> e.reached && e.before == job.before)
  }

  // What the executor read is what the asset tables held at the version it read.
  ghost predicate ReadOk(e: Exec, a: Assets) {
    e.dep.Some? ==>
      var d := e.dep.value;
      && (e.pin.switchId, d.switchVersion) in a.switchHistory
      && a.switchHistory[(e.pin.switchId, d.switchVersion)] == d.switchColumns
      && d.switchColumns.profileId == e.pin.profileId
      && (e.pin.profileId, d.profileVersion) in a.profileHistory
      && a.profileHistory[(e.pin.profileId, d.profileVersion)] == d.profileColumns
  }

  ghost predicate ExecOk(e: Exec, job: Job) {
    RecordOk(e) && PlaceOk(e) && RowOk(e, job)
  }

  // ---------- The parts of the invariant ----------

  // Every job that was ever claimed was claimed once, by the executor recorded for it.
  ghost predicate ClaimedOnce(jobs: map<JobId, Job>, execs: map<Token, Exec>, claimedBy: map<JobId, Token>) {
    && (forall t :: t in execs ==> execs[t].job in claimedBy && claimedBy[execs[t].job] == t)
    && (forall j :: j in claimedBy ==> claimedBy[j] in execs && execs[claimedBy[j]].job == j)
    && (forall j :: j in claimedBy ==> j in jobs)
    && (forall j :: j in jobs ==> (jobs[j].status == Queued <==> j !in claimedBy))
  }

  // Exactly running jobs have a lease, and it names the executor that claimed the job.
  ghost predicate LeasesOk(jobs: map<JobId, Job>, claimedBy: map<JobId, Token>) {
    forall j :: j in jobs ==>
      && (jobs[j].lease.Some? <==> jobs[j].status == Running)
      && (jobs[j].lease.Some? ==> j in claimedBy && claimedBy[j] == jobs[j].lease.value.token)
  }

  // Claims hold distinct queued jobs; those past the advisory lock hold releases of distinct addresses.
  ghost predicate ClaimsOk(jobs: map<JobId, Job>, claims: map<Claimant, Claim>) {
    && (forall c :: c in claims ==> claims[c].job in jobs && jobs[claims[c].job].status == Queued)
    && (forall c, d :: c in claims && d in claims && c != d ==> claims[c].job != claims[d].job)
    && (forall c :: c in claims && claims[c].stage != Picked ==> jobs[claims[c].job].pin.kind == Release)
    && (forall c, d :: c in claims && d in claims && c != d && claims[c].stage != Picked && claims[d].stage != Picked
          ==> jobs[claims[c].job].pin.ip != jobs[claims[d].job].pin.ip)
  }

  // After the recheck no other release of the address is running or uncertain.
  ghost predicate RechecksHold(jobs: map<JobId, Job>, claims: map<Claimant, Claim>) {
    forall c, j :: c in claims && claims[c].stage == Rechecked && j in jobs && j != claims[c].job ==>
      claims[c].job in jobs && jobs[j].pin.ip == jobs[claims[c].job].pin.ip ==> !Blocking(jobs[j])
  }

  // At most one release job of an address is running or uncertain.
  ghost predicate OneBlocking(jobs: map<JobId, Job>) {
    forall j, k :: j in jobs && k in jobs && j != k && jobs[j].pin.ip == jobs[k].pin.ip ==>
      !(Blocking(jobs[j]) && Blocking(jobs[k]))
  }

  ghost predicate ExecsOk(jobs: map<JobId, Job>, execs: map<Token, Exec>) {
    forall t :: t in execs ==> execs[t].job in jobs && ExecOk(execs[t], jobs[execs[t].job])
  }

  ghost predicate ReadsOk(execs: map<Token, Exec>, assets: Assets) {
    forall t :: t in execs ==> ReadOk(execs[t], assets)
  }

  // An observation in a query's row was made by the executor that claimed it.
  ghost predicate QueriesOk(jobs: map<JobId, Job>, claimedBy: map<JobId, Token>) {
    forall j :: j in jobs && jobs[j].pin.kind == Query ==>
      jobs[j].prep.None? && (jobs[j].before.Some? ==> j in claimedBy)
  }

  // The release repeats everything its preparation pinned.
  predicate SamePins(release: Pin, prep: Pin) {
    release == prep.(kind := Release, force := release.force)
  }

  // A finished preparation that a confirmation with these rights may rest on.
  predicate Confirms(job: Job, p: Job, c: Confirmation) {
    && p.pin.kind == Query && SamePins(job.pin, p.pin) && p.actor == job.actor == c.actor
    && c.force == job.pin.force && CanConfirm(p.before, c.force, c.admin)
    && (p.status == WaitingConfirmation || (p.status == Cancelled && p.before == Some(Missing)))
  }

  // Every release was confirmed from its own finished preparation, by the same actor, on admissible
  // evidence, and no two releases share a preparation.
  ghost predicate ReleasesOk(jobs: map<JobId, Job>, confirmations: map<JobId, Confirmation>) {
    && (forall j :: j in jobs && jobs[j].pin.kind == Release ==>
          && jobs[j].prep.Some? && jobs[j].prep.value in jobs && j in confirmations
          && Confirms(jobs[j], jobs[jobs[j].prep.value], confirmations[j]))
    && (forall j, k :: j in jobs && k in jobs && jobs[j].prep.Some? && jobs[j].prep == jobs[k].prep ==> j == k)
  }

  // A version determines the columns, and only the latest version can still be added to.
  ghost predicate HistoryOk(a: Assets) {
    && (forall id :: id in a.switches ==>
          && (id, a.switches[id].version) in a.switchHistory
          && a.switchHistory[(id, a.switches[id].version)] == a.switches[id].columns)
    && (forall k :: k in a.switchHistory ==> k.0 in a.switches && k.1 <= a.switches[k.0].version)
    && (forall id :: id in a.profiles ==>
          && (id, a.profiles[id].version) in a.profileHistory
          && a.profileHistory[(id, a.profiles[id].version)] == a.profiles[id].columns)
    && (forall k :: k in a.profileHistory ==> k.0 in a.profiles && k.1 <= a.profiles[k.0].version)
  }

  ghost predicate Inv(s: State) {
    && ClaimedOnce(s.jobs, s.execs, s.claimedBy)
    && LeasesOk(s.jobs, s.claimedBy)
    && ClaimsOk(s.jobs, s.claims)
    && RechecksHold(s.jobs, s.claims)
    && OneBlocking(s.jobs)
    && ExecsOk(s.jobs, s.execs)
    && ReadsOk(s.execs, s.assets)
    && QueriesOk(s.jobs, s.claimedBy)
    && ReleasesOk(s.jobs, s.confirmations)
    && HistoryOk(s.assets)
  }

  // Nothing has happened yet: no jobs, claims or executors.
  ghost predicate Init(s: State) {
    && s.jobs == map[] && s.claims == map[] && s.execs == map[] && s.claimedBy == map[] && s.confirmations == map[]
    && HistoryOk(s.assets)
  }

  lemma InitInv(s: State)
    requires Init(s)
    ensures Inv(s)
  {
  }

  // ---------- Steps of one executor ----------

  // A step that touches no table keeps the executor's own record consistent.
  lemma AdvanceKeepsRecord(e: Exec, act: Act)
    requires RecordOk(e) && PlaceOk(e) && Advance(e, act).Some?
    ensures RecordOk(Advance(e, act).value)
  {
    hide Parse, Permitted;
  }

  lemma AdvanceKeepsPlace(e: Exec, act: Act)
    requires RecordOk(e) && PlaceOk(e) && Advance(e, act).Some?
    ensures PlaceOk(Advance(e, act).value)
  {
    hide Parse, DependencyProblem, HasRow, ErrorSeen;
    if e.pc == Classifying && e.reply.Some? && e.after.Some? && Parse(e.after.value).Ok?
       && Evidence.Classify(e.reply.value, Parse(e.after.value).value.entry).Ok? {
      ClassifyMeans(e.reply.value, e.after.value);
    }
  }

  lemma AdvanceKeepsRow(e: Exec, job: Job, act: Act)
    requires ExecOk(e, job) && Advance(e, act).Some?
    ensures RowOk(Advance(e, act).value, job)
  {
    hide Parse, DependencyProblem;
  }
}
