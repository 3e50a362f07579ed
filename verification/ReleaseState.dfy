/**
 The release workflow as a transition system: job rows with leases, claimants that
 take them in small steps, executors that talk to a switch between checkpoints,
 and assets that administrators edit at any time. Every database transaction of
 the workflow is one step, except the claim of a release, which takes four. Any
 executor may stall or stop for ever after any step.
 */
module ReleaseState {
  import opened Wrappers
  import opened Resolution
  import opened Evidence

  type JobId = nat
  type Token = nat
  type Claimant = nat
  type ActorId = nat
  type AssetId = string

  // Seconds a claim, a checkpoint or a heartbeat extends the lease by.
  const LEASE_SECONDS := 90

  // ---------- Assets ----------

  // The edited columns of a switch; settings stands for its address, protocol, port and the like.
  datatype SwitchColumns = SwitchColumns(profileId: AssetId, credentialId: AssetId, enabled: bool, settings: string)

  // The edited columns of a command profile; rules stands for its templates and patterns.
  datatype ProfileColumns = ProfileColumns(active: bool, rules: string)

  datatype Versioned<T> = Versioned(version: nat, columns: T)

  // A network row; its switch is joined when networks are listed.
  datatype NetworkRow = NetworkRow(id: string, switchId: AssetId, cidr: Cidr, enabled: bool, validated: bool)

  // The asset tables, with every version each switch and profile ever had.
  datatype Assets = Assets(
    switches: map<AssetId, Versioned<SwitchColumns>>,
    profiles: map<AssetId, Versioned<ProfileColumns>>,
    credentials: map<AssetId, bool>,
    networks: seq<NetworkRow>,
    switchHistory: map<(AssetId, nat), SwitchColumns>,
    profileHistory: map<(AssetId, nat), ProfileColumns>)

  // ---------- Jobs ----------

  datatype Kind = Query | Release

  datatype Status = Queued | Running | WaitingConfirmation | Cancelled | Failed | Timeout | Succeeded | NeedsManual

  // The columns of a job that are written once, when it is created.
  datatype Pin = Pin(ip: nat, kind: Kind, force: bool, switchId: AssetId, profileId: AssetId,
                     switchVersion: nat, profileVersion: nat)

  datatype Lease = Lease(token: Token, until: int)

  // before is None for the empty observation a query starts with.
  datatype Job = Job(pin: Pin, actor: ActorId, prep: Option<JobId>, retryOf: Option<JobId>, network: Option<string>,
                     status: Status, before: Option<EntryType>, lease: Option<Lease>)

  predicate Blocking(j: Job) {
    j.pin.kind == Release && (j.status == Running || j.status == NeedsManual)
  }

  // Some other release job of this address is running or uncertain.
  predicate Blocked(jobs: map<JobId, Job>, ip: nat, except: Option<JobId>) {
    exists j :: j in jobs && Some(j) != except && jobs[j].pin.ip == ip && Blocking(jobs[j])
  }

  // What a checkpoint writes: the status, and the observation before the release if it carries one.
  datatype Write = Write(status: Status, before: Option<EntryType>)

  // The condition every write of an executor is fenced by.
  predicate FenceOpen(j: Job, token: Token, at: int) {
    j.status == Running && j.lease.Some? && j.lease.value.token == token && j.lease.value.until > at
  }

  function Written(j: Job, w: Write, token: Token, at: int): Job {
    j.(status := w.status,
       before := if w.before.Some? then w.before else j.before,
       lease := if w.status == Running then Some(Lease(token, at + LEASE_SECONDS)) else None)
  }

  predicate Expired(j: Job, at: int) {
    j.status == Running && j.lease.Some? && j.lease.value.until < at
  }

  function Swept(j: Job): Job {
    j.(status := NeedsManual, lease := None)
  }

  function SweptJobs(jobs: map<JobId, Job>, at: int): map<JobId, Job> {
    map j | j in jobs :: if Expired(jobs[j], at) then Swept(jobs[j]) else jobs[j]
  }

  // ---------- Executors ----------

  // The switch, profile and credential rows an executor read.
  datatype Dependencies = Dependencies(
    switchVersion: nat, switchColumns: SwitchColumns,
    profileVersion: nat, profileColumns: ProfileColumns, credentialActive: bool)

  // Why a job must not reach its switch.
  datatype Problem = NoProblem | Unavailable | ConfigurationChanged

  function DependencyProblem(pin: Pin, dep: Option<Dependencies>): Problem {
    match dep
    case None => Unavailable
    case Some(d) =>
      if !(d.switchColumns.enabled && d.credentialActive && d.profileColumns.active) then Unavailable
      else if d.switchVersion != pin.switchVersion || d.profileVersion != pin.profileVersion then ConfigurationChanged
      else NoProblem
  }

  // Where an executor stands. Saving waits for a checkpoint: it goes on to next when the write is
  // acknowledged and to failing when it is refused or its answer is lost.
  datatype Pc =
    | Claimed
    | Loaded
    | Preparing
    | Opening
    | Querying
    | Deciding
    | Ready
    | Sending
    | QueryingAfter
    | Classifying
    | Saving(write: Write, next: Pc, failing: Pc)
    | Handling(timedOut: bool)
    | Giving
    | Done

  // An executor of one claimed job. sent counts release commands; late holds writes whose answer was
  // lost and which may still commit.
  datatype Exec = Exec(job: JobId, pin: Pin, pc: Pc, dep: Option<Dependencies>, deviceStarted: bool, reached: bool,
                       before: Option<EntryType>, mayHaveRun: bool, sent: nat,
                       reply: Option<Reply>, after: Option<Reading>, late: set<Write>)

  // What the switch, the network or the runtime does to an executor.
  datatype Act =
    | LoadFails
    | CheckDependencies
    | BuildFails
    | BuildSession
    | ConnectFails(timedOut: bool)
    | Connect
    | QueryFails(timedOut: bool)
    | QueryReturns(reading: Reading)
    | Decide
    | Send
    | SendFails(timedOut: bool)
    | SendReturns(reply: Reply)
    | AfterFails(timedOut: bool)
    | AfterReturns(reading: Reading)
    | Classify
    | Handle
    | GiveUp

  function Save(e: Exec, status: Status, next: Pc, failing: Pc): Exec {
    e.(pc := Saving(Write(status, None), next, failing))
  }

  // The checkpoint that follows the observation before the release.
  function DecideOn(e: Exec, entry: EntryType): Exec {
    var failing := Handling(false);
    if entry == Unknown then Save(e, NeedsManual, Done, failing)
    else if e.pin.kind == Query then
      if entry == Dynamic then Save(e, Cancelled, Done, failing)
      else if entry == Missing && !e.pin.force then Save(e, Cancelled, Done, failing)
      else Save(e, WaitingConfirmation, Done, failing)
    else if entry == Dynamic then Save(e, Cancelled, Done, failing)
    else if entry == Missing && !e.pin.force then Save(e, Cancelled, Done, failing)
    else Save(e, Running, Ready, failing)
  }

  function StatusOf(outcome: Outcome): Status {
    match outcome
    case ReleaseSucceeded => Succeeded
    case ReleaseFailed => Failed
    case ReleaseUncertain => NeedsManual
  }

  function ClassifyOn(e: Exec, reply: Reply, after: Reading): Exec {
    match Parse(after)
    case Raised => e.(pc := Handling(false))
    case Ok(observation) =>
      match Evidence.Classify(reply, observation.entry)
      case Raised => e.(pc := Handling(false))
      case Ok(outcome) => Save(e, StatusOf(outcome), Done, Handling(false))
  }

  // One step of an executor that touches no table.
  function Advance(e: Exec, act: Act): Option<Exec> {
    match (e.pc, act)
    case (Claimed, LoadFails) => Some(e.(pc := Giving))
    case (Loaded, CheckDependencies) =>
      if DependencyProblem(e.pin, e.dep) != NoProblem then Some(Save(e, Failed, Done, Giving))
      else Some(e.(pc := Preparing, deviceStarted := true))
    case (Preparing, BuildFails) => Some(Save(e, Failed, Done, Giving))
    case (Preparing, BuildSession) => Some(e.(pc := Opening, reached := true))
    case (Opening, ConnectFails(timedOut)) => Some(e.(pc := Handling(timedOut)))
    case (Opening, Connect) => Some(Save(e, Running, Querying, Handling(false)))
    case (Querying, QueryFails(timedOut)) => Some(e.(pc := Handling(timedOut)))
    case (Querying, QueryReturns(reading)) =>
      (match Parse(reading)
       case Raised => Some(e.(pc := Handling(false)))
       case Ok(o) =>
         Some(e.(before := Some(o.entry), pc := Saving(Write(Running, Some(o.entry)), Deciding, Handling(false)))))
    case (Deciding, Decide) => if e.before.Some? then Some(DecideOn(e, e.before.value)) else None
    case (Ready, Send) => Some(e.(pc := Sending, mayHaveRun := true, sent := e.sent + 1))
    case (Sending, SendFails(timedOut)) => Some(e.(pc := Handling(timedOut)))
    case (Sending, SendReturns(reply)) => Some(Save(e.(reply := Some(reply)), Running, QueryingAfter, Handling(false)))
    case (QueryingAfter, AfterFails(timedOut)) => Some(e.(pc := Handling(timedOut)))
    case (QueryingAfter, AfterReturns(reading)) => Some(Save(e.(after := Some(reading)), Running, Classifying, Handling(false)))
    case (Classifying, Classify) =>
      if e.reply.Some? && e.after.Some? then Some(ClassifyOn(e, e.reply.value, e.after.value)) else None
    case (Handling(timedOut), Handle) =>
      Some(Save(e, if e.mayHaveRun then NeedsManual else if timedOut then Timeout else Failed, Done, Giving))
    case (Giving, GiveUp) => Some(Save(e, if e.deviceStarted then NeedsManual else Failed, Done, Done))
    case _ => None
  }

  // An executor whose checkpoint was refused, or whose answer was lost.
  function AfterFailedSave(e: Exec, lost: bool): Exec
    requires e.pc.Saving?
  {
    e.(pc := e.pc.failing, late := if lost then e.late + {e.pc.write} else e.late)
  }

  // ---------- The whole state ----------

  datatype Stage = Picked | Locked | Rechecked

  // A claim transaction that has not committed: it holds the row lock of its job and, from Locked on,
  // the advisory lock of the address.
  datatype Claim = Claim(job: JobId, stage: Stage)

  // Who confirmed a release, and with which rights.
  datatype Confirmation = Confirmation(actor: ActorId, admin: bool, force: bool)

  datatype State = State(
    now: int,
    jobs: map<JobId, Job>,
    claims: map<Claimant, Claim>,
    execs: map<Token, Exec>,
    claimedBy: map<JobId, Token>,
    confirmations: map<JobId, Confirmation>,
    assets: Assets)

  // The rows of one join, as a worker reads them for a job.
  function Load(a: Assets, pin: Pin): Option<Dependencies> {
    if pin.switchId !in a.switches || pin.profileId !in a.profiles then None
    else
      var sw, p := a.switches[pin.switchId], a.profiles[pin.profileId];
      if sw.columns.profileId != pin.profileId || sw.columns.credentialId !in a.credentials then None
      else Some(Dependencies(sw.version, sw.columns, p.version, p.columns, a.credentials[sw.columns.credentialId]))
  }

  // A switch a new job may be pinned to.
  predicate Usable(a: Assets, switchId: AssetId) {
    && switchId in a.switches
    && var c := a.switches[switchId].columns;
       && c.enabled && c.profileId in a.profiles && a.profiles[c.profileId].columns.active
       && c.credentialId in a.credentials && a.credentials[c.credentialId]
  }

  // The networks whose switch has an active credential and profile, joined with their switch.
  function ActiveNetworks(a: Assets, rows: seq<NetworkRow>): seq<Network> {
    if |rows| == 0 then []
    else
      var last := rows[|rows| - 1];
      var rest := ActiveNetworks(a, rows[..|rows| - 1]);
      if last.switchId !in a.switches then rest
      else
        var c := a.switches[last.switchId].columns;
        if c.profileId in a.profiles && a.profiles[c.profileId].columns.active
           && c.credentialId in a.credentials && a.credentials[c.credentialId]
        then rest + [Network(last.id, last.switchId, last.cidr, last.enabled, last.validated, c.enabled)]
        else rest
  }

  function ResolveNow(a: Assets, ip: nat): Resolution {
    Resolve(Ipv4(ip), ActiveNetworks(a, a.networks))
  }

  // The pinned revision still applies, and an address that was resolved still leads to the pinned switch.
  predicate PinCurrent(a: Assets, j: Job) {
    && Usable(a, j.pin.switchId)
    && var sw := a.switches[j.pin.switchId];
       && sw.columns.profileId == j.pin.profileId
       && sw.version == j.pin.switchVersion && a.profiles[j.pin.profileId].version == j.pin.profileVersion
       && (j.network.Some? ==>
             ResolveNow(a, j.pin.ip).Resolved? && ResolveNow(a, j.pin.ip).network.switchId == j.pin.switchId)
  }

  function CanConfirm(before: Option<EntryType>, force: bool, admin: bool): bool {
    if before == Some(Static) then !force else before == Some(Missing) && force && admin
  }

  datatype ConfirmInput = ConfirmInput(prep: JobId, actor: ActorId, admin: bool, force: bool)

  datatype ConfirmOutcome = ConfirmNotFound | ConfirmConflict | ConfirmChanged | Existing(id: JobId) | Confirmable

  ghost predicate ReleasesOf(jobs: map<JobId, Job>, prep: JobId, id: JobId) {
    id in jobs && jobs[id].prep == Some(prep)
  }

  ghost function ConfirmOutcomeOf(s: State, c: ConfirmInput): ConfirmOutcome {
    if c.prep !in s.jobs then ConfirmNotFound
    else
      var p := s.jobs[c.prep];
      if p.actor != c.actor then ConfirmNotFound
      else if p.pin.kind != Query
           || !(p.status == WaitingConfirmation || (p.status == Cancelled && p.before == Some(Missing)))
           || !CanConfirm(p.before, c.force, c.admin) then ConfirmConflict
      else if !p.pin.force && c.force && p.before != Some(Missing) then ConfirmConflict
      else if exists id :: ReleasesOf(s.jobs, c.prep, id) then
        var id :| ReleasesOf(s.jobs, c.prep, id);
        if s.jobs[id].pin.force != c.force then ConfirmConflict else Existing(id)
      else if Blocked(s.jobs, p.pin.ip, None) then ConfirmConflict
      else if !PinCurrent(s.assets, p) then ConfirmChanged
      else Confirmable
  }

  function ReleaseJob(prep: JobId, p: Job, force: bool): Job {
    Job(p.pin.(kind := Release, force := force), p.actor, Some(prep), None, p.network, Queued, p.before, None)
  }

  // A queued query pinned to the current revision of a usable switch.
  function QueryJob(a: Assets, ip: nat, force: bool, actor: ActorId, switchId: AssetId, network: Option<string>,
                    retryOf: Option<JobId>): Job
    requires Usable(a, switchId)
  {
    var sw := a.switches[switchId];
    var pin := Pin(ip, Query, force, switchId, sw.columns.profileId, sw.version, a.profiles[sw.columns.profileId].version);
    Job(pin, actor, None, retryOf, network, Queued, None, None)
  }

  predicate Retryable(j: Job, actor: ActorId, admin: bool) {
    && (admin || j.actor == actor) && (j.pin.force ==> admin)
    && (j.status == Failed || j.status == Timeout || j.status == NeedsManual)
  }

  // ---------- Steps ----------

  // at is the start of the step's transaction, which is what its now() answers.
  datatype Step =
    | Tick(to: int)
    | Sweep(at: int)
    | PickJob(c: Claimant, job: JobId)
    | LockAddress(c: Claimant)
    | Recheck(c: Claimant)
    | CommitClaim(c: Claimant, token: Token, at: int)
    | AbortClaim(c: Claimant)
    | LoadDependencies(t: Token)
    | Progress(t: Token, act: Act)
    | SaveCommits(t: Token, at: int, acknowledged: bool)
    | SaveRefused(t: Token, at: int)
    | SaveLost(t: Token)
    | LateCommits(t: Token, w: Write, at: int)
    | LateRefused(t: Token, w: Write, at: int)
    | Heartbeat(t: Token, at: int)
    | Prepare(id: JobId, ip: nat, force: bool, preparer: ActorId, switchId: AssetId, network: Option<string>)
    | Confirm(id: JobId, input: ConfirmInput)
    | Retry(id: JobId, original: JobId, retrier: ActorId, admin: bool, switchId: AssetId, network: Option<string>)
    | EditSwitch(asset: AssetId, switchColumns: SwitchColumns)
    | EditProfile(asset: AssetId, profileColumns: ProfileColumns)
    | EditCredential(asset: AssetId, active: bool)
    | EditNetworks(networks: seq<NetworkRow>)

  predicate ClaimHolds(s: State, c: Claimant, stage: Stage) {
    c in s.claims && s.claims[c].stage == stage && s.claims[c].job in s.jobs
  }

  // The claim a job may be committed from: a picked query or a rechecked release.
  predicate MayCommit(jobs: map<JobId, Job>, claims: map<Claimant, Claim>, c: Claimant) {
    && c in claims && claims[c].job in jobs
    && claims[c].stage == if jobs[claims[c].job].pin.kind == Query then Picked else Rechecked
  }

  function TakenJob(job: Job, token: Token, until: int): Job {
    job.(status := Running, lease := Some(Lease(token, until)))
  }

  // Some other claim transaction holds the advisory lock of this address.
  predicate AddressLocked(s: State, ip: nat, except: Claimant) {
    exists c :: && c in s.claims && c != except && s.claims[c].stage != Picked
                && s.claims[c].job in s.jobs && s.jobs[s.claims[c].job].pin.ip == ip
  }

  predicate AtSave(s: State, t: Token) {
    t in s.execs && s.execs[t].pc.Saving? && s.execs[t].job in s.jobs
  }

  ghost predicate Enabled(s: State, step: Step) {
    match step
    case Tick(to) => to >= s.now
    case Sweep(at) => at <= s.now
    case PickJob(c, j) =>
      && c !in s.claims && j in s.jobs && s.jobs[j].status == Queued
      && (forall d :: d in s.claims ==> s.claims[d].job != j)
      && (s.jobs[j].pin.kind == Query || !Blocked(s.jobs, s.jobs[j].pin.ip, Some(j)))
    case LockAddress(c) =>
      && ClaimHolds(s, c, Picked) && s.jobs[s.claims[c].job].pin.kind == Release
      && !AddressLocked(s, s.jobs[s.claims[c].job].pin.ip, c)
    case Recheck(c) => ClaimHolds(s, c, Locked)
    case CommitClaim(c, token, at) =>
      at <= s.now && token !in s.execs && MayCommit(s.jobs, s.claims, c)
    case AbortClaim(c) => c in s.claims
    case LoadDependencies(t) => t in s.execs && s.execs[t].pc == Claimed
    case Progress(t, act) => t in s.execs && Advance(s.execs[t], act).Some?
    case SaveCommits(t, at, _) => at <= s.now && AtSave(s, t) && FenceOpen(s.jobs[s.execs[t].job], t, at)
    case SaveRefused(t, at) => at <= s.now && AtSave(s, t) && !FenceOpen(s.jobs[s.execs[t].job], t, at)
    case SaveLost(t) => AtSave(s, t)
    case LateCommits(t, w, at) =>
      && at <= s.now && t in s.execs && w in s.execs[t].late && s.execs[t].job in s.jobs
      && FenceOpen(s.jobs[s.execs[t].job], t, at)
    case LateRefused(t, w, at) =>
      && at <= s.now && t in s.execs && w in s.execs[t].late && s.execs[t].job in s.jobs
      && !FenceOpen(s.jobs[s.execs[t].job], t, at)
    case Heartbeat(t, at) =>
      && at <= s.now && t in s.execs && s.execs[t].job in s.jobs && FenceOpen(s.jobs[s.execs[t].job], t, at)
    case Prepare(id, _, _, _, switchId, _) => id !in s.jobs && Usable(s.assets, switchId)
    case Confirm(id, input) => id !in s.jobs && ConfirmOutcomeOf(s, input) == Confirmable
    case Retry(id, original, actor, admin, switchId, network) =>
      && id !in s.jobs && original in s.jobs && Retryable(s.jobs[original], actor, admin)
      && Usable(s.assets, switchId)
      && RetryTarget(s, original) == Some((switchId, network))
    case EditSwitch(id, columns) => id in s.assets.switches ==> s.assets.switches[id].columns != columns
    case EditProfile(id, columns) => id in s.assets.profiles ==> s.assets.profiles[id].columns != columns
    case EditCredential(_, _) => true
    case EditNetworks(_) => true
  }

  // Where a retry goes: an address that was resolved is resolved again, a chosen switch is kept.
  function RetryTargetOf(a: Assets, j: Job): Option<(AssetId, Option<string>)> {
    if j.network.None? then Some((j.pin.switchId, None))
    else match ResolveNow(a, j.pin.ip)
      case Resolved(n) => Some((n.switchId, Some(n.id)))
      case _ => None
  }

  function RetryTarget(s: State, original: JobId): Option<(AssetId, Option<string>)>
    requires original in s.jobs
  {
    RetryTargetOf(s.assets, s.jobs[original])
  }

  function WithExec(s: State, t: Token, e: Exec): State {
    s.(execs := s.execs[t := e])
  }

  function WithJob(s: State, j: JobId, job: Job): State {
    s.(jobs := s.jobs[j := job])
  }

  function NextVersion<T>(rows: map<AssetId, Versioned<T>>, id: AssetId, columns: T): Versioned<T> {
    Versioned(if id in rows then rows[id].version + 1 else 1, columns)
  }

  function EditedSwitch(a: Assets, id: AssetId, columns: SwitchColumns): Assets {
    var v := NextVersion(a.switches, id, columns);
    a.(switches := a.switches[id := v], switchHistory := a.switchHistory[(id, v.version) := columns])
  }

  function EditedProfile(a: Assets, id: AssetId, columns: ProfileColumns): Assets {
    var v := NextVersion(a.profiles, id, columns);
    a.(profiles := a.profiles[id := v], profileHistory := a.profileHistory[(id, v.version) := columns])
  }

  ghost function Apply(s: State, step: Step): State
    requires Enabled(s, step)
  {
    match step
    case Tick(to) => s.(now := to)
    case Sweep(at) => s.(jobs := SweptJobs(s.jobs, at))
    case PickJob(c, j) => s.(claims := s.claims[c := Claim(j, Picked)])
    case LockAddress(c) => s.(claims := s.claims[c := s.claims[c].(stage := Locked)])
    case Recheck(c) =>
      var j := s.claims[c].job;
      if Blocked(s.jobs, s.jobs[j].pin.ip, Some(j)) then s.(claims := s.claims - {c})
      else s.(claims := s.claims[c := s.claims[c].(stage := Rechecked)])
    case CommitClaim(c, token, at) =>
      var j := s.claims[c].job;
      var job := s.jobs[j];
      s.(claims := s.claims - {c},
         jobs := s.jobs[j := TakenJob(job, token, at + LEASE_SECONDS)],
         execs := s.execs[token := NewExec(j, job.pin)],
         claimedBy := s.claimedBy[j := token])
    case AbortClaim(c) => s.(claims := s.claims - {c})
    case LoadDependencies(t) => WithExec(s, t, s.execs[t].(pc := Loaded, dep := Load(s.assets, s.execs[t].pin)))
    case Progress(t, act) => WithExec(s, t, Advance(s.execs[t], act).value)
    case SaveCommits(t, at, acknowledged) =>
      var e := s.execs[t];
      WithJob(WithExec(s, t, e.(pc := if acknowledged then e.pc.next else e.pc.failing)),
              e.job, Written(s.jobs[e.job], e.pc.write, t, at))
    case SaveRefused(t, at) => WithExec(s, t, AfterFailedSave(s.execs[t], false))
    case SaveLost(t) => WithExec(s, t, AfterFailedSave(s.execs[t], true))
    case LateCommits(t, w, at) =>
      var e := s.execs[t];
      WithJob(WithExec(s, t, e.(late := e.late - {w})), e.job, Written(s.jobs[e.job], w, t, at))
    case LateRefused(t, w, at) => WithExec(s, t, s.execs[t].(late := s.execs[t].late - {w}))
    case Heartbeat(t, at) =>
      var j := s.execs[t].job;
      WithJob(s, j, s.jobs[j].(lease := Some(Lease(t, at + LEASE_SECONDS))))
    case Prepare(id, ip, force, actor, switchId, network) =>
      WithJob(s, id, QueryJob(s.assets, ip, force, actor, switchId, network, None))
    case Confirm(id, c) =>
      WithJob(s, id, ReleaseJob(c.prep, s.jobs[c.prep], c.force))
        .(confirmations := s.confirmations[id := Confirmation(c.actor, c.admin, c.force)])
    case Retry(id, original, actor, admin, switchId, network) =>
      var j := s.jobs[original];
      WithJob(s, id, QueryJob(s.assets, j.pin.ip, j.pin.force, actor, switchId, network, Some(original)))
    case EditSwitch(id, columns) => s.(assets := EditedSwitch(s.assets, id, columns))
    case EditProfile(id, columns) => s.(assets := EditedProfile(s.assets, id, columns))
    case EditCredential(id, active) => s.(assets := s.assets.(credentials := s.assets.credentials[id := active]))
    case EditNetworks(networks) => s.(assets := s.assets.(networks := networks))
  }

  function NewExec(j: JobId, pin: Pin): Exec {
    Exec(j, pin, Claimed, None, false, false, None, false, 0, None, None, {})
  }
}
