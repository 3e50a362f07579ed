/**
 The database transactions of the release workflow, as methods on tables they
 update in place. Each one takes exactly one step of the transition system, or
 leaves every table as it was, so whatever the steps keep these methods keep.
 */
module ReleaseStore {
  import opened Wrappers
  import opened Rows
  import opened Resolution
  import opened Evidence
  import opened ReleaseState
  import opened ReleaseInvariant
  import opened ReleaseSteps

  // A row of the event log.
  datatype Event = Event(job: JobId, status: Status)

  function EventsFor(ids: seq<JobId>, status: Status): seq<Event> {
    seq(|ids|, i requires 0 <= i < |ids| => Event(ids[i], status))
  }

  ghost predicate Took(s: State, step: Step, s': State) {
    Enabled(s, step) && s' == Apply(s, step)
  }

  // A queued job that no open claim holds: a query, or a release while no other release of its address is
  // running or needs manual confirmation.
  ghost predicate MayPick(jobs: map<JobId, Job>, claims: map<Claimant, Claim>, j: JobId) {
    && j in jobs && jobs[j].status == Queued && (forall d :: d in claims ==> claims[d].job != j)
    && (jobs[j].pin.kind == Release ==>
          forall k :: k in jobs && k != j && jobs[k].pin.ip == jobs[j].pin.ip && jobs[k].pin.kind == Release ==>
            jobs[k].status != Running && jobs[k].status != NeedsManual)
  }

  lemma PickableMeans(jobs: map<JobId, Job>, claims: map<Claimant, Claim>, open: set<JobId>)
    requires forall j :: j in open <==>
               && j in jobs && jobs[j].status == Queued && j !in (set d | d in claims :: claims[d].job)
               && (jobs[j].pin.kind == Query || !Blocked(jobs, jobs[j].pin.ip, Some(j)))
    ensures forall j :: MayPick(jobs, claims, j) <==> j in open
  {
  }

  // No job that may be picked was created before this one.
  ghost predicate CreatedFirst(s: State, created: map<JobId, int>, c: Claimant, first: JobId) {
    first in created && forall j :: Enabled(s, PickJob(c, j)) ==> j in created && created[first] <= created[j]
  }

  // The row among some that was created first.
  method FirstCreated(ids: set<JobId>, created: map<JobId, int>) returns (first: JobId)
    requires ids != {} && forall j :: j in ids ==> j in created
    ensures first in ids && forall j :: j in ids ==> created[first] <= created[j]
  {
    first :| first in ids;
    var left := ids - {first};
    while left != {}
      invariant first in ids && left <= ids
      invariant forall j :: j in ids && j !in left ==> created[first] <= created[j]
    {
      var j :| j in left;
      left := left - {j};
      if created[j] < created[first] {
        first := j;
      }
    }
  }

  // ---------- Active networks ----------

  // A network's switch, credential and command profile can be joined, and the latter two are active.
  predicate Joined(a: Assets, row: NetworkRow) {
    && row.switchId in a.switches
    && var c := a.switches[row.switchId].columns;
       && c.profileId in a.profiles && a.profiles[c.profileId].columns.active
       && c.credentialId in a.credentials && a.credentials[c.credentialId]
  }

  method ReadActiveNetworks(a: Assets) returns (networks: seq<Network>)
    ensures networks == ActiveNetworks(a, a.networks)
  {
    networks := [];
    for i := 0 to |a.networks|
      invariant networks == ActiveNetworks(a, a.networks[..i])
    {
      var row := a.networks[i];
      assert a.networks[..i + 1][..i] == a.networks[..i];
      if Joined(a, row) {
        var switchEnabled := a.switches[row.switchId].columns.enabled;
        networks := networks + [Network(row.id, row.switchId, row.cidr, row.enabled, row.validated, switchEnabled)];
      }
    }
    assert a.networks[..|a.networks|] == a.networks;
  }

  // The listed networks are exactly the joined rows, so an eligible one leads to a usable switch.
  lemma {:induction false} ActiveNetworksMean(a: Assets, rows: seq<NetworkRow>, n: Network)
    ensures n in ActiveNetworks(a, rows) <==>
            exists row :: && row in rows && Joined(a, row)
                          && n == Network(row.id, row.switchId, row.cidr, row.enabled, row.validated,
                                          a.switches[row.switchId].columns.enabled)
    ensures n in ActiveNetworks(a, rows) && n.switchEnabled ==> Usable(a, n.switchId)
  {
    if |rows| > 0 {
      var last := rows[|rows| - 1];
      var init := rows[..|rows| - 1];
      ActiveNetworksMean(a, init, n);
      assert forall row :: row in rows <==> row in init || row == last;
    }
  }

  // ---------- What a preparation asks for ----------

  datatype PrepareInput = PrepareInput(validReason: bool, address: Address, selected: Option<AssetId>,
                                       force: bool, admin: bool, actor: ActorId)

  datatype PrepareOutcome =
    | PrepareConflict | PrepareInvalidIp | PrepareNoSwitch | PrepareChanged
    | StoppedAmbiguous | StoppedNoSwitch
    | QueryQueued(switchId: AssetId, network: Option<string>)

  // Where a new query goes: to the switch that owns its address, or to the one an administrator chose for
  // a forced query of an address that no switch owns.
  ghost predicate Owned(a: Assets, ip: nat, switchId: AssetId, network: Option<string>) {
    && network.Some? && OwnsAlone(ActiveNetworks(a, a.networks), ip, switchId)
    && exists n :: IsLongest(ActiveNetworks(a, a.networks), ip, n) && n.id == network.value
  }

  ghost predicate Unowned(a: Assets, ip: nat) {
    !exists n :: n in ActiveNetworks(a, a.networks) && Eligible(n, ip)
  }

  // What a request that may be queued is about: the owner of its address, or the switch an administrator
  // chose and that was usable when the networks were read.
  ghost predicate Targets(input: PrepareInput, seen: Assets, switchId: AssetId, network: Option<string>) {
    && input.validReason && input.address.Ipv4?
    && if network.Some? then Owned(seen, input.address.value, switchId, network) && input.selected.None?
       else Unowned(seen, input.address.value) && input.force && input.admin && input.selected == Some(switchId)
            && Usable(seen, switchId)
  }

  ghost predicate Contested(a: Assets, ip: nat) {
    exists n, m :: && IsLongest(ActiveNetworks(a, a.networks), ip, n) && IsLongest(ActiveNetworks(a, a.networks), ip, m)
                   && n.switchId != m.switchId
  }

  lemma ResolvedMeans(a: Assets, ip: nat)
    ensures var r := Resolve(Ipv4(ip), ActiveNetworks(a, a.networks));
            && (r == NoSwitch <==> Unowned(a, ip)) && (r == Ambiguous <==> Contested(a, ip))
            && (r.Resolved? ==> Owned(a, ip, r.network.switchId, Some(r.network.id)))
            && r != InvalidIp
            && forall switchId, network :: Owned(a, ip, switchId, network) ==> r.Resolved? && r.network.switchId == switchId
  {
    var networks := ActiveNetworks(a, a.networks);
    var r := Resolve(Ipv4(ip), networks);
    ResolveMeetsSpec(ip, networks);
    assert r != InvalidIp;
    hide Resolve, IsLongest, ActiveNetworks;
    if r.Resolved? {
      assert OwnsAlone(networks, ip, r.network.switchId);
      assert IsLongest(networks, ip, r.network);
    }
  }

  lemma TargetsAddress(input: PrepareInput, seen: Assets, switchId: AssetId, network: Option<string>)
    requires Targets(input, seen, switchId, network)
    ensures input.address.Ipv4?
  {
  }

  datatype PrepareDecision = Stop(outcome: PrepareOutcome) | Go(switchId: AssetId, network: Option<string>)

  // What is decided from the networks, before the inserting transaction: who the target is, if any.
  method DecidePrepare(input: PrepareInput, seen: Assets) returns (d: PrepareDecision)
    ensures d.Go? ==> Targets(input, seen, d.switchId, d.network)
    ensures forall switchId, network :: Targets(input, seen, switchId, network) ==> d.Go? && switchId == d.switchId
    ensures d.Stop? ==> !d.outcome.QueryQueued? && d.outcome != PrepareChanged
    ensures d == Stop(PrepareInvalidIp) <==> input.validReason && input.address.NotOneIpv4?
    ensures d == Stop(StoppedAmbiguous) <==>
            input.validReason && input.address.Ipv4? && Contested(seen, input.address.value)
    ensures d == Stop(StoppedNoSwitch) <==>
            && input.validReason && input.address.Ipv4? && Unowned(seen, input.address.value)
            && !(input.selected.Some? && input.force && input.admin)
    ensures d == Stop(PrepareNoSwitch) <==>
            && input.validReason && input.address.Ipv4? && Unowned(seen, input.address.value)
            && input.selected.Some? && input.force && input.admin && !Usable(seen, input.selected.value)
    ensures d == Stop(PrepareConflict) <==>
            || !input.validReason
            || (input.address.Ipv4? && !Unowned(seen, input.address.value) && !Contested(seen, input.address.value)
                && input.selected.Some?)
  {
    hide Owned, Unowned, Contested, ActiveNetworks, Resolve, Usable;
    if !input.validReason {
      return Stop(PrepareConflict);
    }
    if input.address.NotOneIpv4? {
      return Stop(PrepareInvalidIp);
    }
    var ip := input.address.value;
    ResolvedMeans(seen, ip);
    var networks := ReadActiveNetworks(seen);
    var resolution := ResolveNetwork(input.address, networks);
    var switchId, network;
    if resolution == Ambiguous {
      return Stop(StoppedAmbiguous);
    } else if resolution == NoSwitch && input.selected.Some? && input.force && input.admin {
      if !Usable(seen, input.selected.value) {
        return Stop(PrepareNoSwitch);
      }
      switchId, network := input.selected.value, None;
    } else if resolution == NoSwitch {
      return Stop(StoppedNoSwitch);
    } else {
      switchId, network := resolution.network.switchId, Some(resolution.network.id);
    }
    if input.selected.Some? && network.Some? {
      return Stop(PrepareConflict);
    }
    return Go(switchId, network);
  }

  // Where a retry goes, resolved on the current networks.
  method ReadRetryTarget(a: Assets, j: Job) returns (target: Option<(AssetId, Option<string>)>)
    ensures target == RetryTargetOf(a, j)
  {
    hide ActiveNetworks, Resolve;
    if j.network.None? {
      return Some((j.pin.switchId, None));
    }
    var networks := ReadActiveNetworks(a);
    var resolution := ResolveNetwork(Ipv4(j.pin.ip), networks);
    return if resolution.Resolved? then Some((resolution.network.switchId, Some(resolution.network.id))) else None;
  }

  datatype RetryOutcome = RetryNotFound | RetryConflict | RetryUnresolved | RetryChanged
                        | Requeued(switchId: AssetId, network: Option<string>)

  // A retry that is allowed and has a switch to go to, which is usable or is not.
  ghost predicate RetryLeadsTo(s: State, original: JobId, actor: ActorId, admin: bool, usable: bool) {
    && original in s.jobs && Retryable(s.jobs[original], actor, admin)
    && RetryTarget(s, original).Some? && Usable(s.assets, RetryTarget(s, original).value.0) == usable
  }

  // An enabled switch with an active command profile and an active credential.
  predicate InService(a: Assets, switchId: AssetId) {
    && switchId in a.switches
    && var c := a.switches[switchId].columns;
       && c.enabled && c.profileId in a.profiles && a.profiles[c.profileId].columns.active
       && c.credentialId in a.credentials && a.credentials[c.credentialId]
  }

  // A job without a network is retried on its own switch, any other one on the switch that owns its address now.
  ghost predicate RetriedOn(a: Assets, j: Job, switchId: AssetId) {
    if j.network.None? then switchId == j.pin.switchId
    else OwnsAlone(ActiveNetworks(a, a.networks), j.pin.ip, switchId)
  }

  // Who may retry which job, and where to, on the rows.
  lemma RetryExactly(s: State, original: JobId, actor: ActorId, admin: bool, usable: bool)
    ensures RetryLeadsTo(s, original, actor, admin, usable) <==>
              && original in s.jobs
              && var j := s.jobs[original];
                 && (admin || (j.actor == actor && !j.pin.force))
                 && j.status in {Failed, Timeout, NeedsManual}
                 && exists switchId :: RetriedOn(s.assets, j, switchId) && InService(s.assets, switchId) == usable
  {
    hide ActiveNetworks, OwnsAlone, ResolveNow, IsLongest, RetriedOn, RetryTargetOf;
    forall switchId ensures InService(s.assets, switchId) <==> Usable(s.assets, switchId) {
    }
    if original in s.jobs {
      RetryTargetMeans(s.assets, s.jobs[original]);
    }
    hide InService, Usable;
  }

  lemma RetryTargetMeans(a: Assets, j: Job)
    ensures forall switchId :: RetriedOn(a, j, switchId) <==> RetryTargetOf(a, j).Some? && RetryTargetOf(a, j).value.0 == switchId
  {
    hide ActiveNetworks, OwnsAlone, Resolve, IsLongest;
    var networks := ActiveNetworks(a, a.networks);
    ResolveMeetsSpec(j.pin.ip, networks);
    assert ResolveNow(a, j.pin.ip) == Resolve(Ipv4(j.pin.ip), networks);
  }

  // ---------- What the methods take from the invariant ----------

  lemma ExecutorHasJob(s: State, t: Token)
    requires Inv(s) && t in s.execs
    ensures s.execs[t].job in s.jobs
  {
    hide LeasesOk, ClaimsOk, RechecksHold, OneBlocking, QueriesOk, ReleasesOk, HistoryOk, ReadsOk, ClaimedOnce, ExecOk;
  }

  lemma OneReleaseOf(s: State, prep: JobId, id: JobId)
    requires Inv(s) && ReleasesOf(s.jobs, prep, id)
    ensures forall k :: ReleasesOf(s.jobs, prep, k) ==> k == id
  {
    hide LeasesOk, ClaimsOk, RechecksHold, OneBlocking, QueriesOk, HistoryOk, ExecsOk, ReadsOk, ClaimedOnce, Confirms;
  }

  // The release that was created from a preparation, if any.
  method FindRelease(jobs: map<JobId, Job>, prep: JobId) returns (found: Option<JobId>)
    ensures found.Some? ==> ReleasesOf(jobs, prep, found.value)
    ensures found.None? ==> forall id :: !ReleasesOf(jobs, prep, id)
  {
    var matching := set id | id in jobs && jobs[id].prep == Some(prep);
    if matching == {} {
      forall id ensures !ReleasesOf(jobs, prep, id) {
        assert id !in matching;
      }
      return None;
    }
    var id :| id in matching;
    return Some(id);
  }

  // The guards of a confirmation, in order.
  method DecideConfirm(s: State, input: ConfirmInput) returns (r: ConfirmOutcome)
    requires Inv(s)
    ensures r == ConfirmOutcomeOf(s, input)
  {
    hide Inv, Usable, ResolveNow, Blocked, PinCurrent;
    if input.prep !in s.jobs {
      return ConfirmNotFound;
    }
    var p := s.jobs[input.prep];
    if p.actor != input.actor {
      return ConfirmNotFound;
    }
    if p.pin.kind != Query
       || !(p.status == WaitingConfirmation || (p.status == Cancelled && p.before == Some(Missing)))
       || !CanConfirm(p.before, input.force, input.admin) {
      return ConfirmConflict;
    }
    if !p.pin.force && input.force && p.before != Some(Missing) {
      return ConfirmConflict;
    }
    var existing := FindRelease(s.jobs, input.prep);
    if existing.Some? {
      OneReleaseOf(s, input.prep, existing.value);
      return if s.jobs[existing.value].pin.force != input.force then ConfirmConflict else Existing(existing.value);
    }
    if Blocked(s.jobs, p.pin.ip, None) {
      return ConfirmConflict;
    }
    if !PinCurrent(s.assets, p) {
      return ConfirmChanged;
    }
    return Confirmable;
  }

  // The guards of a retry, in order, and where it goes.
  method DecideRetry(s: State, original: JobId, actor: ActorId, admin: bool) returns (r: RetryOutcome)
    ensures r.Requeued? <==> RetryLeadsTo(s, original, actor, admin, true)
    ensures r.Requeued? ==> RetryTarget(s, original) == Some((r.switchId, r.network))
    ensures r == RetryChanged <==> RetryLeadsTo(s, original, actor, admin, false)
    ensures r == RetryNotFound <==> original !in s.jobs || (!admin && s.jobs[original].actor != actor)
    ensures r in {RetryNotFound, RetryConflict} <==> original !in s.jobs || !Retryable(s.jobs[original], actor, admin)
    ensures r == RetryUnresolved <==>
            && original in s.jobs && Retryable(s.jobs[original], actor, admin)
            && RetryTarget(s, original).None?
  {
    hide Usable, RetryTargetOf;
    if original !in s.jobs {
      return RetryNotFound;
    }
    var job := s.jobs[original];
    if !admin && job.actor != actor {
      return RetryNotFound;
    }
    if job.pin.force && !admin {
      return RetryConflict;
    }
    if job.status != Failed && job.status != Timeout && job.status != NeedsManual {
      return RetryConflict;
    }
    var target := ReadRetryTarget(s.assets, job);
    if target.None? {
      return RetryUnresolved;
    }
    var (switchId, network) := target.value;
    if !Usable(s.assets, switchId) {
      return RetryChanged;
    }
    return Requeued(switchId, network);
  }

  // ---------- A claim without competitors ----------

  lemma PickedAlone(s: State, before: State, c: Claimant, j: JobId)
    requires before.claims == map[] && Took(before, PickJob(c, j), s)
    ensures j in s.jobs && s.claims == map[c := Claim(j, Picked)] && s.jobs == before.jobs && Enabled(before, PickJob(c, j))
    ensures s.jobs[j].pin.kind == Release ==> Enabled(s, LockAddress(c)) && !Blocked(s.jobs, s.jobs[j].pin.ip, Some(j))
  {
    hide Blocked;
  }

  lemma LockedAlone(s: State, c: Claimant, j: JobId)
    requires j in s.jobs && s.claims == map[c := Claim(j, Locked)]
    ensures Enabled(s, Recheck(c))
  {
  }

  lemma CommitAlone(s: State, c: Claimant, j: JobId, token: Token, at: int)
    requires j in s.jobs && at <= s.now && token !in s.execs
    requires s.claims == map[c := Claim(j, if s.jobs[j].pin.kind == Query then Picked else Rechecked)]
    ensures Enabled(s, CommitClaim(c, token, at))
  {
  }

  // ---------- Insertions are steps ----------

  // The switch has a row and a command profile a query can be pinned to.
  predicate PinnedNow(a: Assets, switchId: AssetId) {
    switchId in a.switches && a.switches[switchId].columns.profileId in a.profiles
  }

  // The revision of a switch and of its command profile as they are now.
  function CurrentPin(a: Assets, switchId: AssetId, ip: nat, force: bool): (pin: Pin)
    requires PinnedNow(a, switchId)
    ensures pin.kind == Query && pin.ip == ip && pin.force == force && pin.switchId == switchId
    ensures pin.profileId == a.switches[switchId].columns.profileId
    ensures pin.switchVersion == a.switches[switchId].version
    ensures pin.profileVersion == a.profiles[a.switches[switchId].columns.profileId].version
  {
    var sw := a.switches[switchId];
    Pin(ip, Query, force, switchId, sw.columns.profileId, sw.version, a.profiles[sw.columns.profileId].version)
  }

  lemma QueryRow(a: Assets, ip: nat, force: bool, actor: ActorId, switchId: AssetId, network: Option<string>, retryOf: Option<JobId>)
    requires Usable(a, switchId)
    ensures PinnedNow(a, switchId)
    ensures QueryJob(a, ip, force, actor, switchId, network, retryOf)
            == Job(CurrentPin(a, switchId, ip, force), actor, None, retryOf, network, Queued, None, None)
  {
  }

  lemma ReleaseRow(prep: JobId, p: Job, force: bool)
    ensures ReleaseJob(prep, p, force)
            == Job(p.pin.(kind := Release, force := force), p.actor, Some(prep), None, p.network, Queued, p.before, None)
  {
  }

  lemma PrepareIsStep(s: State, id: JobId, ip: nat, force: bool, actor: ActorId, switchId: AssetId, network: Option<string>)
    requires Inv(s) && id !in s.jobs && Usable(s.assets, switchId)
    ensures var s' := WithJob(s, id, QueryJob(s.assets, ip, force, actor, switchId, network, None));
            Inv(s') && Took(s, Prepare(id, ip, force, actor, switchId, network), s')
  {
    hide Inv, Usable, QueryJob;
    StepKeepsInv(s, Prepare(id, ip, force, actor, switchId, network));
  }

  lemma ConfirmIsStep(s: State, id: JobId, input: ConfirmInput)
    requires Inv(s) && id !in s.jobs && ConfirmOutcomeOf(s, input) == Confirmable
    ensures input.prep in s.jobs
    ensures var s' := WithJob(s, id, ReleaseJob(input.prep, s.jobs[input.prep], input.force))
                        .(confirmations := s.confirmations[id := Confirmation(input.actor, input.admin, input.force)]);
            Inv(s') && Took(s, Confirm(id, input), s')
  {
    hide Inv, ConfirmOutcomeOf, ReleaseJob;
    ConfirmableMeans(s, input);
    StepKeepsInv(s, Confirm(id, input));
  }

  lemma RetryIsStep(s: State, id: JobId, original: JobId, actor: ActorId, admin: bool, switchId: AssetId, network: Option<string>)
    requires Inv(s) && id !in s.jobs && RetryLeadsTo(s, original, actor, admin, true)
    requires RetryTarget(s, original) == Some((switchId, network))
    ensures original in s.jobs && Usable(s.assets, switchId)
    ensures var j := s.jobs[original];
            var s' := WithJob(s, id, QueryJob(s.assets, j.pin.ip, j.pin.force, actor, switchId, network, Some(original)));
            Inv(s') && Took(s, Retry(id, original, actor, admin, switchId, network), s')
  {
    hide Inv, Usable, QueryJob, RetryTarget, Retryable;
    StepKeepsInv(s, Retry(id, original, actor, admin, switchId, network));
  }

  // ---------- The tables ----------

  class Store {
    var now: int
    var jobs: map<JobId, Job>
    var claims: map<Claimant, Claim>
    var execs: map<Token, Exec>
    var claimedBy: map<JobId, Token>
    var confirmations: map<JobId, Confirmation>
    var assets: Assets
    var events: seq<Event>
    // When each job was inserted.
    var created: map<JobId, int>

    function Snapshot(): State
      reads this
    {
      State(now, jobs, claims, execs, claimedBy, confirmations, assets)
    }

    ghost predicate Valid()
      reads this
    {
      Inv(Snapshot()) && forall j :: j in jobs ==> j in created
    }

    constructor (now: int, assets: Assets)
      requires HistoryOk(assets)
      ensures Valid() && Init(Snapshot()) && this.assets == assets && this.now == now && events == []
    {
      this.now, jobs, claims, execs, claimedBy := now, map[], map[], map[], map[];
      confirmations, this.assets, events, created := map[], assets, [], map[];
      new;
      InitInv(Snapshot());
    }

    // Every running job whose lease has expired becomes uncertain, and gets one event.
    method SweepExpired(at: int) returns (rows: seq<JobId>)
      requires Valid() && at <= now
      modifies this`jobs, this`events
      ensures Valid() && Took(old(Snapshot()), Sweep(at), Snapshot())
      ensures Distinct(rows) && forall j :: j in rows <==>
                j in old(jobs) && old(jobs)[j].status == Running && old(jobs)[j].lease.Some? && old(jobs)[j].lease.value.until < at
      ensures jobs.Keys == old(jobs.Keys) && forall j :: j in jobs ==>
                jobs[j] == if j in rows then old(jobs)[j].(status := NeedsManual, lease := None) else old(jobs)[j]
      ensures events == old(events) + EventsFor(rows, NeedsManual)
    {
      hide Inv;
      StepKeepsInv(Snapshot(), Sweep(at));
      rows := Listed(set j | j in jobs && Expired(jobs[j], at));
      jobs := SweptJobs(jobs, at);
      for i := 0 to |rows|
        invariant jobs == SweptJobs(old(jobs), at)
        invariant events == old(events) + EventsFor(rows[..i], NeedsManual)
      {
        assert EventsFor(rows[..i + 1], NeedsManual) == EventsFor(rows[..i], NeedsManual) + [Event(rows[i], NeedsManual)];
        events := events + [Event(rows[i], NeedsManual)];
      }
      assert rows[..|rows|] == rows;
    }

    // ---------- Claiming ----------

    // Locks the first created of the queued jobs that no other transaction holds; a release only if its
    // address shows no other release running or uncertain.
    method Pick(c: Claimant) returns (picked: Option<JobId>)
      requires Valid() && c !in claims
      modifies this`claims
      ensures Valid()
      ensures picked.Some? ==> Took(old(Snapshot()), PickJob(c, picked.value), Snapshot())
      ensures picked.Some? ==> claims == old(claims)[c := Claim(picked.value, Picked)]
      ensures picked.Some? ==> CreatedFirst(old(Snapshot()), created, c, picked.value)
      ensures picked.None? ==> Snapshot() == old(Snapshot()) && forall j :: !Enabled(Snapshot(), PickJob(c, j))
      ensures picked.Some? <==> exists j :: MayPick(old(jobs), old(claims), j)
      ensures picked.Some? ==> MayPick(old(jobs), old(claims), picked.value)
    {
      hide Inv, Blocked;
      var held := set d | d in claims :: claims[d].job;
      var open := set j | j in jobs && jobs[j].status == Queued && j !in held
                          && (jobs[j].pin.kind == Query || !Blocked(jobs, jobs[j].pin.ip, Some(j)));
      assert forall j :: Enabled(Snapshot(), PickJob(c, j)) <==> j in open;
      assert forall j :: MayPick(jobs, claims, j) <==> j in open by { PickableMeans(jobs, claims, open); }
      if open == {} {
        return None;
      }
      var j := FirstCreated(open, created);
      StepKeepsInv(Snapshot(), PickJob(c, j));
      claims := claims[c := Claim(j, Picked)];
      return Some(j);
    }

    // Returns when the advisory lock of the address is free.
    method AcquireAddress(c: Claimant)
      requires Valid() && Enabled(Snapshot(), LockAddress(c))
      modifies this`claims
      ensures Valid() && Took(old(Snapshot()), LockAddress(c), Snapshot())
      ensures claims == old(claims)[c := old(claims)[c].(stage := Locked)]
    {
      hide Inv;
      StepKeepsInv(Snapshot(), LockAddress(c));
      claims := claims[c := claims[c].(stage := Locked)];
    }

    method RecheckAddress(c: Claimant) returns (blocked: bool)
      requires Valid() && Enabled(Snapshot(), Recheck(c))
      modifies this`claims
      ensures Valid() && Took(old(Snapshot()), Recheck(c), Snapshot())
      ensures var j := old(claims)[c].job;
              blocked <==> exists k :: && k in jobs && k != j && jobs[k].pin.ip == jobs[j].pin.ip && jobs[k].pin.kind == Release
                                       && (jobs[k].status == Running || jobs[k].status == NeedsManual)
      ensures claims == if blocked then old(claims) - {c} else old(claims)[c := old(claims)[c].(stage := Rechecked)]
    {
      hide Inv;
      StepKeepsInv(Snapshot(), Recheck(c));
      var j := claims[c].job;
      blocked := Blocked(jobs, jobs[j].pin.ip, Some(j));
      if blocked {
        claims := claims - {c};
      } else {
        claims := claims[c := claims[c].(stage := Rechecked)];
      }
    }

    method Commit(c: Claimant, token: Token, at: int)
      requires Valid() && Enabled(Snapshot(), CommitClaim(c, token, at))
      modifies this
      ensures Valid() && Took(old(Snapshot()), CommitClaim(c, token, at), Snapshot()) && events == old(events)
      ensures now == old(now) && assets == old(assets) && claims == old(claims) - {c} && created == old(created)
      ensures c in old(claims) && old(claims)[c].job in old(jobs)
      ensures var j := old(claims)[c].job;
              && jobs == old(jobs)[j := old(jobs)[j].(status := Running, lease := Some(Lease(token, at + 90)))]
              && execs == old(execs)[token := NewExec(j, old(jobs)[j].pin)]
              && claimedBy == old(claimedBy)[j := token]
    {
      hide Inv;
      StepKeepsInv(Snapshot(), CommitClaim(c, token, at));
      var j := claims[c].job;
      var job := jobs[j];
      claims := claims - {c};
      jobs := jobs[j := TakenJob(job, token, at + LEASE_SECONDS)];
      execs := execs[token := NewExec(j, job.pin)];
      claimedBy := claimedBy[j := token];
    }

    // A claim with no other claim in progress: it takes the first created of the queued jobs that may run, if
    // there is one, and the recheck never turns it away.
    method ClaimAlone(c: Claimant, token: Token, at: int) returns (taken: Option<JobId>)
      requires Valid() && claims == map[] && token !in execs && at <= now
      modifies this
      ensures Valid() && claims == map[] && assets == old(assets) && now == old(now) && events == old(events)
      ensures taken.None? ==> Snapshot() == old(Snapshot()) && forall j :: !Enabled(Snapshot(), PickJob(c, j))
      ensures taken.Some? ==>
                var j := taken.value;
                && Enabled(old(Snapshot()), PickJob(c, j)) && MayPick(old(jobs), old(claims), j)
                && jobs == old(jobs)[j := old(jobs)[j].(status := Running, lease := Some(Lease(token, at + 90)))]
                && execs == old(execs)[token := NewExec(j, old(jobs)[j].pin)]
                && claimedBy == old(claimedBy)[j := token]
                && CreatedFirst(old(Snapshot()), created, c, j)
    {
      hide Inv, Blocked, Took, Enabled, Apply, MayCommit, CreatedFirst;
      taken := Pick(c);
      if taken.None? {
        return;
      }
      PickedAlone(Snapshot(), old(Snapshot()), c, taken.value);
      if jobs[taken.value].pin.kind == Release {
        AcquireAddress(c);
        LockedAlone(Snapshot(), c, taken.value);
        var blocked := RecheckAddress(c);
        assert !blocked;
      }
      CommitAlone(Snapshot(), c, taken.value, token, at);
      Commit(c, token, at);
    }

    // ---------- Leases ----------

    // A checkpoint is written, with its event, exactly when the executor still holds an unexpired lease;
    // otherwise no row changes and the executor learns that it lost the lease.
    method Checkpoint(t: Token, at: int, acknowledged: bool) returns (ok: bool)
      requires Valid() && at <= now && AtSave(Snapshot(), t)
      modifies this`jobs, this`execs, this`events
      ensures Valid()
      ensures var row := old(jobs)[old(execs)[t].job];
              ok <==> row.status == Running && row.lease.Some? && row.lease.value.token == t && row.lease.value.until > at
      ensures ok ==>
                var e := old(execs)[t];
                var w, row := e.pc.write, old(jobs)[e.job];
                && jobs == old(jobs)[e.job := row.(status := w.status,
                                                   before := if w.before.Some? then w.before else row.before,
                                                   lease := if w.status == Running then Some(Lease(t, at + 90)) else None)]
                && execs == old(execs)[t := e.(pc := if acknowledged then e.pc.next else e.pc.failing)]
      ensures ok ==> Took(old(Snapshot()), SaveCommits(t, at, acknowledged), Snapshot())
                     && events == old(events) + [Event(old(execs)[t].job, old(execs)[t].pc.write.status)]
      ensures !ok ==> Took(old(Snapshot()), SaveRefused(t, at), Snapshot()) && jobs == old(jobs) && events == old(events)
    {
      hide Inv;
      var e := execs[t];
      ok := FenceOpen(jobs[e.job], t, at);
      if ok {
        StepKeepsInv(Snapshot(), SaveCommits(t, at, acknowledged));
        jobs := jobs[e.job := Written(jobs[e.job], e.pc.write, t, at)];
        events := events + [Event(e.job, e.pc.write.status)];
        execs := execs[t := e.(pc := if acknowledged then e.pc.next else e.pc.failing)];
      } else {
        StepKeepsInv(Snapshot(), SaveRefused(t, at));
        execs := execs[t := AfterFailedSave(e, false)];
      }
    }

    method ExtendLease(t: Token, at: int) returns (held: bool)
      requires Valid() && at <= now && t in execs
      modifies this`jobs
      ensures Valid() && (held <==> Enabled(old(Snapshot()), Heartbeat(t, at)))
      ensures held <==>
                && execs[t].job in old(jobs)
                && var row := old(jobs)[execs[t].job];
                   row.status == Running && row.lease.Some? && row.lease.value.token == t && row.lease.value.until > at
      ensures held ==> Took(old(Snapshot()), Heartbeat(t, at), Snapshot())
                       && jobs == old(jobs)[execs[t].job := old(jobs)[execs[t].job].(lease := Some(Lease(t, at + 90)))]
      ensures !held ==> Snapshot() == old(Snapshot())
    {
      hide Inv;
      ExecutorHasJob(Snapshot(), t);
      var j := execs[t].job;
      held := FenceOpen(jobs[j], t, at);
      if held {
        StepKeepsInv(Snapshot(), Heartbeat(t, at));
        jobs := jobs[j := jobs[j].(lease := Some(Lease(t, at + LEASE_SECONDS)))];
      }
    }

    // ---------- Executing ----------

    // The executor reads its switch, profile and credential in one query, which may find nothing.
    method LoadDependenciesOf(t: Token)
      requires Valid() && Enabled(Snapshot(), LoadDependencies(t))
      modifies this`execs
      ensures Valid() && Took(old(Snapshot()), LoadDependencies(t), Snapshot())
      ensures t in old(execs) && t in execs && execs == old(execs)[t := old(execs)[t].(pc := Loaded, dep := execs[t].dep)]
      ensures var pin, d := execs[t].pin, execs[t].dep;
              if pin.switchId in assets.switches && pin.profileId in assets.profiles
                 && assets.switches[pin.switchId].columns.profileId == pin.profileId
                 && assets.switches[pin.switchId].columns.credentialId in assets.credentials then
                var sw, p := assets.switches[pin.switchId], assets.profiles[pin.profileId];
                && d.Some? && d.value.switchVersion == sw.version && d.value.switchColumns == sw.columns
                && d.value.profileVersion == p.version && d.value.profileColumns == p.columns
                && d.value.credentialActive == assets.credentials[sw.columns.credentialId]
              else d.None?
    {
      hide Inv;
      StepKeepsInv(Snapshot(), LoadDependencies(t));
      execs := execs[t := execs[t].(pc := Loaded, dep := Load(assets, execs[t].pin))];
    }

    // The executor goes on as the switch, the network or the runtime lets it.
    method Proceed(t: Token, act: Act) returns (possible: bool)
      requires Valid() && t in execs
      modifies this`execs
      ensures Valid() && (possible <==> Enabled(old(Snapshot()), Progress(t, act)))
      ensures possible <==> Advance(old(execs)[t], act).Some?
      ensures possible ==> Took(old(Snapshot()), Progress(t, act), Snapshot())
                           && execs == old(execs)[t := Advance(old(execs)[t], act).value]
      ensures !possible ==> Snapshot() == old(Snapshot())
    {
      hide Inv, Advance;
      var next := Advance(execs[t], act);
      possible := next.Some?;
      if possible {
        StepKeepsInv(Snapshot(), Progress(t, act));
        execs := execs[t := next.value];
      }
    }

    // ---------- Preparing, confirming, retrying ----------

    // seen are the assets as they were when the networks were read, before the inserting transaction.
    method PrepareQuery(input: PrepareInput, id: JobId, seen: Assets, at: int) returns (r: PrepareOutcome)
      requires Valid() && id !in jobs
      modifies this`jobs, this`created, this`events
      ensures Valid()
      ensures !r.QueryQueued? ==> Snapshot() == old(Snapshot()) && events == old(events)
      ensures r.QueryQueued? ==>
                && Targets(input, seen, r.switchId, r.network)
                && Took(old(Snapshot()), Prepare(id, input.address.value, input.force, input.actor, r.switchId, r.network),
                        Snapshot())
                && events == old(events) + [Event(id, Queued)] && created == old(created)[id := at]
                && PinnedNow(assets, r.switchId)
                && jobs == old(jobs)[id := Job(CurrentPin(assets, r.switchId, input.address.value, input.force), input.actor,
                                               None, None, r.network, Queued, None, None)]
      ensures r.QueryQueued? <==>
              exists switchId, network :: Targets(input, seen, switchId, network) && Usable(old(assets), switchId)
      ensures r == PrepareChanged <==>
              exists switchId, network :: Targets(input, seen, switchId, network) && !Usable(old(assets), switchId)
      ensures r == PrepareConflict <==>
              || !input.validReason
              || (input.address.Ipv4? && !Unowned(seen, input.address.value) && !Contested(seen, input.address.value)
                  && input.selected.Some?)
      ensures r == PrepareInvalidIp <==> input.validReason && input.address.NotOneIpv4?
      ensures r == StoppedAmbiguous <==>
              input.validReason && input.address.Ipv4? && Contested(seen, input.address.value)
      ensures r == StoppedNoSwitch <==>
              && input.validReason && input.address.Ipv4? && Unowned(seen, input.address.value)
              && !(input.selected.Some? && input.force && input.admin)
      ensures r == PrepareNoSwitch <==>
              && input.validReason && input.address.Ipv4? && Unowned(seen, input.address.value)
              && input.selected.Some? && input.force && input.admin && !Usable(seen, input.selected.value)
    {
      hide Inv, Owned, Unowned, Contested, Targets, Usable, Took, QueryJob, CurrentPin, PinnedNow;
      var decision := DecidePrepare(input, seen);
      if decision.Stop? {
        return decision.outcome;
      }
      var switchId, network := decision.switchId, decision.network;
      if !Usable(assets, switchId) {
        return PrepareChanged;
      }
      assert input.address.Ipv4? by { TargetsAddress(input, seen, switchId, network); }
      var ip := input.address.value;
      QueryRow(assets, ip, input.force, input.actor, switchId, network, None);
      PrepareIsStep(Snapshot(), id, ip, input.force, input.actor, switchId, network);
      created := created[id := at];
      jobs := jobs[id := QueryJob(assets, ip, input.force, input.actor, switchId, network, None)];
      events := events + [Event(id, Queued)];
      return QueryQueued(switchId, network);
    }

    method ConfirmRelease(input: ConfirmInput, id: JobId, at: int) returns (r: ConfirmOutcome)
      requires Valid() && id !in jobs
      modifies this`jobs, this`created, this`confirmations, this`events
      ensures Valid() && r == ConfirmOutcomeOf(old(Snapshot()), input)
      ensures r == Confirmable ==>
                && Took(old(Snapshot()), Confirm(id, input), Snapshot())
                && events == old(events) + [Event(id, Queued)] && created == old(created)[id := at]
                && input.prep in old(jobs)
                && var p := old(jobs)[input.prep];
                   jobs == old(jobs)[id := Job(p.pin.(kind := Release, force := input.force), p.actor, Some(input.prep), None,
                                               p.network, Queued, p.before, None)]
      ensures r != Confirmable ==> Snapshot() == old(Snapshot()) && events == old(events)
    {
      hide Inv, ConfirmOutcomeOf, ReleaseJob, Took;
      r := DecideConfirm(Snapshot(), input);
      if r != Confirmable {
        return;
      }
      ConfirmIsStep(Snapshot(), id, input);
      var p := jobs[input.prep];
      ReleaseRow(input.prep, p, input.force);
      created := created[id := at];
      jobs := jobs[id := ReleaseJob(input.prep, p, input.force)];
      confirmations := confirmations[id := Confirmation(input.actor, input.admin, input.force)];
      events := events + [Event(id, Queued)];
    }

    // A fresh query for a job that failed, timed out or ended uncertain; the job itself is left as it is.
    method RetryQuery(original: JobId, actor: ActorId, admin: bool, id: JobId, at: int) returns (r: RetryOutcome)
      requires Valid() && id !in jobs
      modifies this`jobs, this`created, this`events
      ensures Valid()
      ensures r.Requeued? ==>
                && Took(old(Snapshot()), Retry(id, original, actor, admin, r.switchId, r.network), Snapshot())
                && events == old(events) + [Event(id, Queued)] && created == old(created)[id := at]
                && original in old(jobs) && PinnedNow(assets, r.switchId)
                && var j := old(jobs)[original];
                   jobs == old(jobs)[id := Job(CurrentPin(assets, r.switchId, j.pin.ip, j.pin.force), actor, None, Some(original),
                                               r.network, Queued, None, None)]
      ensures r.Requeued? <==> RetryLeadsTo(old(Snapshot()), original, actor, admin, true)
      ensures r == RetryChanged <==> RetryLeadsTo(old(Snapshot()), original, actor, admin, false)
      ensures !r.Requeued? ==> Snapshot() == old(Snapshot()) && events == old(events)
      ensures r == RetryNotFound <==> original !in old(jobs) || (!admin && old(jobs)[original].actor != actor)
      ensures r in {RetryNotFound, RetryConflict} <==> original !in old(jobs) || !Retryable(old(jobs)[original], actor, admin)
      ensures r == RetryUnresolved <==>
              && original in old(jobs) && Retryable(old(jobs)[original], actor, admin)
              && RetryTarget(old(Snapshot()), original).None?
    {
      hide Inv, Usable, RetryTarget, RetryLeadsTo, Took, QueryJob, CurrentPin, PinnedNow;
      r := DecideRetry(Snapshot(), original, actor, admin);
      if !r.Requeued? {
        return;
      }
      var switchId, network := r.switchId, r.network;
      RetryIsStep(Snapshot(), id, original, actor, admin, switchId, network);
      var job := jobs[original];
      QueryRow(assets, job.pin.ip, job.pin.force, actor, switchId, network, Some(original));
      created := created[id := at];
      jobs := jobs[id := QueryJob(assets, job.pin.ip, job.pin.force, actor, switchId, network, Some(original))];
      events := events + [Event(id, Queued)];
    }
  }
}
