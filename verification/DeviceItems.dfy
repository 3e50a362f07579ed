/**
 Device operations: items are queued once per switch and kind, claimed under a
 lease, swept when the lease expires, and a backup stores a new configuration
 version only when its fingerprint changed. A worker may die or lose its lease at
 any point, also between reading the latest version and storing a new one.
 */
module DeviceItems {
  import opened Wrappers

  type SwitchId = string
  type ItemId = nat
  type Token = nat
  type Fingerprint = string

  datatype Kind = ConfigBackup | Reachability

  datatype Status = Queued | Running | Succeeded | Failed | Skipped

  datatype Lease = Lease(token: Token, until: int)

  datatype Item = Item(kind: Kind, switchId: SwitchId, status: Status, lease: Option<Lease>,
                       changed: Option<bool>, backup: Option<nat>)

  // A stored configuration, with the item that stored it.
  datatype Version = Version(id: nat, switchId: SwitchId, capturedAt: int, fingerprint: Fingerprint, item: ItemId)

  // An open backup transaction: when it started, the latest fingerprint it read and the one it found.
  datatype Read = Read(startedAt: int, latest: Option<Fingerprint>, found: Fingerprint)

  // A worker with the item it claimed and the time of the claim; read is set while a backup is being stored.
  datatype Worker = Worker(item: ItemId, since: int, read: Option<Read>)

  // versions are in the order in which they were committed.
  datatype State = State(now: int, items: map<ItemId, Item>, workers: map<Token, Worker>, versions: seq<Version>)

  predicate Pending(i: Item) {
    i.status == Queued || i.status == Running
  }

  predicate HasPending(items: map<ItemId, Item>, s: SwitchId, kind: Kind) {
    exists i :: i in items && items[i].switchId == s && items[i].kind == kind && Pending(items[i])
  }

  // The order in which versions are listed: by capture time, then by identifier.
  predicate Earlier(v: Version, w: Version) {
    v.capturedAt < w.capturedAt || (v.capturedAt == w.capturedAt && v.id < w.id)
  }

  // fp is the fingerprint a query for the latest version of a switch answers.
  ghost predicate IsLatest(versions: seq<Version>, s: SwitchId, fp: Option<Fingerprint>) {
    match fp
    case None => forall i :: 0 <= i < |versions| ==> versions[i].switchId != s
    case Some(f) =>
      exists i :: && 0 <= i < |versions| && versions[i].switchId == s && versions[i].fingerprint == f
                  && forall k :: 0 <= k < |versions| && k != i && versions[k].switchId == s ==> Earlier(versions[k], versions[i])
  }

  function LeaseSeconds(kind: Kind): int {
    if kind == ConfigBackup then 600 else 120
  }

  function ClaimedItem(i: Item, token: Token, at: int): Item {
    i.(status := Running, lease := Some(Lease(token, at + LeaseSeconds(i.kind))))
  }

  // The condition every finishing write is fenced by; unlike the sweep it does not look at the clock.
  predicate Holds(i: Item, t: Token) {
    i.status == Running && i.lease.Some? && i.lease.value.token == t
  }

  function Finished(i: Item, status: Status, changed: Option<bool>, backup: Option<nat>): Item {
    i.(status := status, lease := None, changed := changed, backup := backup)
  }

  predicate Expired(i: Item, at: int) {
    i.status == Running && i.lease.Some? && i.lease.value.until < at
  }

  function Swept(items: map<ItemId, Item>, at: int): map<ItemId, Item> {
    map i | i in items :: if Expired(items[i], at) then items[i].(status := Failed, lease := None) else items[i]
  }

  // One item per enabled switch in scope: queued, or recorded as skipped when one is already pending.
  function Enqueued(items: map<ItemId, Item>, kind: Kind, ids: map<ItemId, SwitchId>): map<ItemId, Item> {
    items + map i | i in ids :: Item(kind, ids[i], if HasPending(items, ids[i], kind) then Skipped else Queued, None, None, None)
  }

  datatype Step =
    | Tick(to: int)
    | Enqueue(kind: Kind, ids: map<ItemId, SwitchId>)
    | Claim(item: ItemId, token: Token, at: int)
    | Sweep(at: int)
    | ReadLatest(t: Token, at: int, latest: Option<Fingerprint>, found: Fingerprint)
    | Store(t: Token, id: nat)
    | RollBack(t: Token)
    | Finish(t: Token, status: Status)

  ghost predicate Enabled(s: State, step: Step) {
    match step
    case Tick(to) => to >= s.now
    case Enqueue(_, ids) =>
      && (forall i :: i in ids ==> i !in s.items)
      && (forall i, j :: i in ids && j in ids && i != j ==> ids[i] != ids[j])
    case Claim(i, token, at) => i in s.items && s.items[i].status == Queued && token !in s.workers && at <= s.now
    case Sweep(at) => at <= s.now
    case ReadLatest(t, at, latest, _) =>
      && t in s.workers && s.workers[t].read.None? && s.workers[t].item in s.items
      && s.items[s.workers[t].item].kind == ConfigBackup
      && s.workers[t].since <= at <= s.now && IsLatest(s.versions, s.items[s.workers[t].item].switchId, latest)
    case Store(t, id) =>
      && t in s.workers && s.workers[t].read.Some? && s.workers[t].item in s.items && Holds(s.items[s.workers[t].item], t)
      && NewId(s.versions, s.items[s.workers[t].item].switchId, id)
    case RollBack(t) =>
      && t in s.workers && s.workers[t].read.Some? && s.workers[t].item in s.items && !Holds(s.items[s.workers[t].item], t)
    case Finish(t, status) =>
      && t in s.workers && s.workers[t].item in s.items && Holds(s.items[s.workers[t].item], t)
      && (status == Failed || status == Skipped || (status == Succeeded && s.items[s.workers[t].item].kind == Reachability))
  }

  // Identifiers are unique, and grow from one version of a switch to the next.
  ghost predicate NewId(versions: seq<Version>, s: SwitchId, id: nat) {
    forall k :: 0 <= k < |versions| ==> versions[k].id != id && (versions[k].switchId == s ==> versions[k].id < id)
  }

  ghost function Apply(s: State, step: Step): State
    requires Enabled(s, step)
  {
    match step
    case Tick(to) => s.(now := to)
    case Enqueue(kind, ids) => s.(items := Enqueued(s.items, kind, ids))
    case Claim(i, token, at) =>
      s.(items := s.items[i := ClaimedItem(s.items[i], token, at)],
         workers := s.workers[token := Worker(i, s.now, None)])
    case Sweep(at) => s.(items := Swept(s.items, at))
    case ReadLatest(t, at, latest, found) => s.(workers := s.workers[t := s.workers[t].(read := Some(Read(at, latest, found)))])
    case Store(t, id) =>
      var w := s.workers[t];
      s.(workers := s.workers[t := w.(read := None)],
         items := s.items[w.item := StoredItem(s.items[w.item], w.read.value, id)],
         versions := StoredVersions(s.versions, s.items[w.item].switchId, w.item, w.read.value, id))
    case RollBack(t) => s.(workers := s.workers[t := s.workers[t].(read := None)])
    case Finish(t, status) =>
      var i := s.workers[t].item;
      s.(workers := s.workers[t := s.workers[t].(read := None)], items := s.items[i := Finished(s.items[i], status, None, None)])
  }

  predicate IsChange(r: Read) {
    r.latest != Some(r.found)
  }

  // A backup finishes its item, and adds a version exactly when the fingerprint changed.
  function StoredItem(i: Item, r: Read, id: nat): Item {
    Finished(i, Succeeded, Some(IsChange(r)), if IsChange(r) then Some(id) else None)
  }

  function StoredVersions(versions: seq<Version>, s: SwitchId, item: ItemId, r: Read, id: nat): seq<Version> {
    if IsChange(r) then versions + [Version(id, s, r.startedAt, r.found, item)] else versions
  }

  // ---------- The invariant ----------

  // A switch never has two pending operations of one kind.
  ghost predicate OnePending(items: map<ItemId, Item>) {
    forall i, j :: i in items && j in items && i != j && Pending(items[i]) && Pending(items[j]) ==>
      items[i].switchId != items[j].switchId || items[i].kind != items[j].kind
  }

  // Exactly running items have a lease, its token was given to a worker of that item, and only
  // finished backups are marked changed.
  ghost predicate ItemsOk(items: map<ItemId, Item>, workers: map<Token, Worker>) {
    forall i :: i in items ==>
      && (items[i].lease.Some? <==> items[i].status == Running)
      && (items[i].lease.Some? ==> items[i].lease.value.token in workers && workers[items[i].lease.value.token].item == i)
      && (items[i].backup.Some? <==> items[i].changed == Some(true))
      && (items[i].changed.Some? ==> items[i].status == Succeeded)
  }

  ghost predicate WorkersOk(items: map<ItemId, Item>, workers: map<Token, Worker>) {
    forall t :: t in workers ==> workers[t].item in items && (workers[t].read.Some? ==> items[workers[t].item].kind == ConfigBackup)
  }

  // Later versions of a switch come later in capture order.
  ghost predicate Ordered(versions: seq<Version>) {
    forall i, j :: 0 <= i < j < |versions| && versions[i].switchId == versions[j].switchId ==> Earlier(versions[i], versions[j])
  }

  ghost predicate Adjacent(versions: seq<Version>, i: int, j: int) {
    && 0 <= i < j < |versions| && versions[i].switchId == versions[j].switchId
    && forall k :: i < k < j ==> versions[k].switchId != versions[i].switchId
  }

  // Adjacent versions of a switch differ.
  ghost predicate AdjacentDiffer(versions: seq<Version>) {
    forall i, j :: Adjacent(versions, i, j) ==> versions[i].fingerprint != versions[j].fingerprint
  }

  // Versions and changed items correspond one to one.
  ghost predicate Owned(items: map<ItemId, Item>, versions: seq<Version>) {
    && (forall k :: 0 <= k < |versions| ==>
          && versions[k].item in items && items[versions[k].item].backup == Some(versions[k].id)
          && items[versions[k].item].switchId == versions[k].switchId && items[versions[k].item].kind == ConfigBackup)
    && (forall i :: i in items && items[i].backup.Some? ==> exists k :: 0 <= k < |versions| && versions[k].item == i)
    && (forall k, l :: 0 <= k < l < |versions| ==> versions[k].id != versions[l].id)
  }

  ghost predicate CapturedBy(versions: seq<Version>, s: SwitchId, time: int) {
    forall k :: 0 <= k < |versions| && versions[k].switchId == s ==> versions[k].capturedAt <= time
  }

  // While a worker holds the lease of a backup, no version of its switch is younger than its claim, and
  // what it read is still the latest version.
  ghost predicate ReadHolds(w: Worker, i: Item, versions: seq<Version>, now: int) {
    && w.since <= now
    && CapturedBy(versions, i.switchId, w.since)
    && (w.read.Some? ==>
          && IsLatest(versions, i.switchId, w.read.value.latest)
          && w.since <= w.read.value.startedAt <= now)
  }

  ghost predicate ReadsHold(s: State) {
    forall t :: && t in s.workers && s.workers[t].item in s.items
                && Holds(s.items[s.workers[t].item], t) && s.items[s.workers[t].item].kind == ConfigBackup ==>
      ReadHolds(s.workers[t], s.items[s.workers[t].item], s.versions, s.now)
  }

  ghost predicate CapturedUntil(versions: seq<Version>, now: int) {
    forall k :: 0 <= k < |versions| ==> versions[k].capturedAt <= now
  }

  ghost predicate Inv(s: State) {
    && OnePending(s.items) && ItemsOk(s.items, s.workers) && WorkersOk(s.items, s.workers)
    && Ordered(s.versions) && AdjacentDiffer(s.versions) && Owned(s.items, s.versions)
    && CapturedUntil(s.versions, s.now) && ReadsHold(s)
  }

  ghost predicate Init(s: State) {
    s.items == map[] && s.workers == map[] && s.versions == []
  }

  // ---------- Every step keeps it ----------

  lemma EnqueueStep(s: State, kind: Kind, ids: map<ItemId, SwitchId>)
    requires Inv(s) && Enabled(s, Enqueue(kind, ids))
    ensures Inv(Apply(s, Enqueue(kind, ids)))
  {
    EnqueueKeepsPending(s.items, kind, ids);
    EnqueueKeepsItems(s.items, kind, ids, s.workers, s.versions);
    assert forall i :: i in s.items ==> i in Enqueued(s.items, kind, ids) && Enqueued(s.items, kind, ids)[i] == s.items[i];
    MoreItemsKeepReads(s, Enqueued(s.items, kind, ids));
    hide AdjacentDiffer, Ordered, OnePending, Owned, ItemsOk, CapturedUntil, ReadsHold, WorkersOk, Enqueued;
  }

  lemma MoreItemsKeepReads(s: State, items: map<ItemId, Item>)
    requires WorkersOk(s.items, s.workers) && ReadsHold(s)
    requires forall i :: i in s.items ==> i in items && items[i] == s.items[i]
    ensures WorkersOk(items, s.workers) && ReadsHold(s.(items := items))
  {
    hide ReadHolds;
  }

  lemma EnqueueKeepsItems(items: map<ItemId, Item>, kind: Kind, ids: map<ItemId, SwitchId>, workers: map<Token, Worker>,
                          versions: seq<Version>)
    requires ItemsOk(items, workers) && Owned(items, versions)
    requires forall i :: i in ids ==> i !in items
    ensures ItemsOk(Enqueued(items, kind, ids), workers) && Owned(Enqueued(items, kind, ids), versions)
  {
    var items' := Enqueued(items, kind, ids);
    forall i | i in items'
      ensures if i in items then items'[i] == items[i]
              else items'[i].status != Running && items'[i].lease.None? && items'[i].changed.None? && items'[i].backup.None?
    {
    }
    hide Enqueued;
  }

  lemma EnqueueKeepsPending(items: map<ItemId, Item>, kind: Kind, ids: map<ItemId, SwitchId>)
    requires OnePending(items)
    requires forall i :: i in ids ==> i !in items
    requires forall i, j :: i in ids && j in ids && i != j ==> ids[i] != ids[j]
    ensures OnePending(Enqueued(items, kind, ids))
  {
  }

  // Replacing one item by another of the same switch and kind that is not newly pending.
  lemma ReplaceKeepsPending(items: map<ItemId, Item>, i: ItemId, item: Item)
    requires OnePending(items) && i in items && item.switchId == items[i].switchId && item.kind == items[i].kind
    requires Pending(item) ==> Pending(items[i])
    ensures OnePending(items[i := item])
  {
  }

  lemma ReplaceKeepsOwned(items: map<ItemId, Item>, versions: seq<Version>, i: ItemId, item: Item)
    requires Owned(items, versions) && i in items && item.switchId == items[i].switchId && item.kind == items[i].kind
    requires item.backup == items[i].backup
    ensures Owned(items[i := item], versions)
  {
  }

  lemma ClaimKeepsReads(s: State, i: ItemId, token: Token, at: int)
    requires Inv(s) && Enabled(s, Claim(i, token, at))
    ensures ReadsHold(Apply(s, Claim(i, token, at)))
  {
    hide IsLatest, AdjacentDiffer, Ordered, Owned, OnePending;
  }

  lemma ClaimKeepsItems(s: State, i: ItemId, token: Token, at: int)
    requires ItemsOk(s.items, s.workers) && WorkersOk(s.items, s.workers) && Enabled(s, Claim(i, token, at))
    ensures var s' := Apply(s, Claim(i, token, at)); ItemsOk(s'.items, s'.workers) && WorkersOk(s'.items, s'.workers)
  {
    hide LeaseSeconds, Holds;
  }

  lemma ClaimMeans(s: State, i: ItemId, token: Token, at: int)
    requires Enabled(s, Claim(i, token, at))
    ensures i in s.items && s.items[i].status == Queued
    ensures var s' := Apply(s, Claim(i, token, at));
            s'.items == s.items[i := ClaimedItem(s.items[i], token, at)] && s'.versions == s.versions && s'.now == s.now
  {
  }

  lemma ClaimStep(s: State, i: ItemId, token: Token, at: int)
    requires Inv(s) && Enabled(s, Claim(i, token, at))
    ensures Inv(Apply(s, Claim(i, token, at)))
  {
    hide ReadsHold, AdjacentDiffer, Ordered, CapturedUntil, OnePending, Owned, ItemsOk, WorkersOk, Enabled, Apply;
    ClaimMeans(s, i, token, at);
    ClaimKeepsReads(s, i, token, at);
    ClaimKeepsItems(s, i, token, at);
    var item := ClaimedItem(s.items[i], token, at);
    ReplaceKeepsPending(s.items, i, item);
    ReplaceKeepsOwned(s.items, s.versions, i, item);
  }

  lemma SweptItems(items: map<ItemId, Item>, at: int)
    ensures var items' := Swept(items, at);
            && items'.Keys == items.Keys
            && forall i :: i in items ==>
                 && items'[i].switchId == items[i].switchId && items'[i].kind == items[i].kind
                 && (items'[i] == items[i] || (items[i].status == Running && items'[i] == items[i].(status := Failed, lease := None)))
  {
  }

  lemma SweepKeepsItems(items: map<ItemId, Item>, at: int, workers: map<Token, Worker>, versions: seq<Version>)
    requires ItemsOk(items, workers) && Owned(items, versions) && OnePending(items)
    ensures ItemsOk(Swept(items, at), workers) && Owned(Swept(items, at), versions) && OnePending(Swept(items, at))
  {
    SweptItems(items, at);
    hide Swept;
  }

  lemma SweepStep(s: State, at: int)
    requires Inv(s)
    ensures Inv(s.(items := Swept(s.items, at)))
  {
    SweptItems(s.items, at);
    SweepKeepsItems(s.items, at, s.workers, s.versions);
    hide AdjacentDiffer, Ordered, CapturedBy, Swept, IsLatest, ItemsOk, Owned, OnePending, CapturedUntil;
  }

  lemma ReadStep(s: State, t: Token, at: int, latest: Option<Fingerprint>, found: Fingerprint)
    requires Inv(s) && Enabled(s, ReadLatest(t, at, latest, found))
    ensures Inv(Apply(s, ReadLatest(t, at, latest, found)))
  {
    hide IsLatest, AdjacentDiffer, Ordered, CapturedBy;
  }

  // A worker that holds the lease of a pending backup is the only one for its switch.
  lemma OneHolder(s: State, t: Token, u: Token)
    requires Inv(s) && t in s.workers && u in s.workers && t != u
    requires s.workers[t].item in s.items && s.workers[u].item in s.items
    requires Holds(s.items[s.workers[t].item], t) && Holds(s.items[s.workers[u].item], u)
    requires s.items[s.workers[t].item].kind == s.items[s.workers[u].item].kind
    ensures s.items[s.workers[t].item].switchId != s.items[s.workers[u].item].switchId
  {
    hide IsLatest, AdjacentDiffer, Ordered, CapturedBy, Owned, ReadsHold;
  }

  // Adding a version after the latest one of its switch.
  lemma AppendKeepsOrder(versions: seq<Version>, v: Version)
    requires Ordered(versions) && CapturedBy(versions, v.switchId, v.capturedAt) && NewId(versions, v.switchId, v.id)
    ensures Ordered(versions + [v])
  {
    var all := versions + [v];
    forall i, j | 0 <= i < j < |all| && all[i].switchId == all[j].switchId ensures Earlier(all[i], all[j]) {
      assert all[i] == versions[i];
    }
  }

  lemma AppendKeepsDifferent(versions: seq<Version>, v: Version, latest: Option<Fingerprint>)
    requires Ordered(versions) && AdjacentDiffer(versions) && IsLatest(versions, v.switchId, latest)
    requires latest != Some(v.fingerprint)
    ensures AdjacentDiffer(versions + [v])
  {
    hide IsLatest, Ordered;
    var all := versions + [v];
    forall i, j | Adjacent(all, i, j) ensures all[i].fingerprint != all[j].fingerprint {
      assert all[i] == versions[i];
      if j < |versions| {
        assert all[j] == versions[j];
        assert forall k :: i < k < j ==> all[k] == versions[k];
        assert Adjacent(versions, i, j);
      } else {
        assert forall k :: i < k < |versions| ==> all[k] == versions[k];
        LastIsLatest(versions, v.switchId, i, latest);
      }
    }
  }

  // In capture order the last version of a switch is the latest.
  lemma LastIsLatest(versions: seq<Version>, s: SwitchId, i: int, latest: Option<Fingerprint>)
    requires Ordered(versions) && IsLatest(versions, s, latest)
    requires 0 <= i < |versions| && versions[i].switchId == s
    requires forall k :: i < k < |versions| ==> versions[k].switchId != s
    ensures latest == Some(versions[i].fingerprint)
  {
  }

  // A version of another switch does not change what is latest.
  lemma AppendKeepsLatest(versions: seq<Version>, v: Version, s: SwitchId, fp: Option<Fingerprint>)
    requires IsLatest(versions, s, fp) && v.switchId != s
    ensures IsLatest(versions + [v], s, fp)
  {
    var all := versions + [v];
    if fp.Some? {
      var i :| && 0 <= i < |versions| && versions[i].switchId == s && versions[i].fingerprint == fp.value
               && forall k :: 0 <= k < |versions| && k != i && versions[k].switchId == s ==> Earlier(versions[k], versions[i]);
      assert all[i] == versions[i];
    }
  }

  // Other backups in progress are of other switches, and their reads still hold.
  lemma StoreKeepsReads(s: State, t: Token, id: nat)
    requires Inv(s) && Enabled(s, Store(t, id))
    ensures ReadsHold(Apply(s, Store(t, id)))
  {
    var w := s.workers[t];
    var item, r := s.items[w.item], w.read.value;
    var s' := Apply(s, Store(t, id));
    var v := Version(id, item.switchId, r.startedAt, r.found, w.item);
    forall u | u in s'.workers && s'.workers[u].item in s'.items
               && Holds(s'.items[s'.workers[u].item], u) && s'.items[s'.workers[u].item].kind == ConfigBackup
      ensures ReadHolds(s'.workers[u], s'.items[s'.workers[u].item], s'.versions, s'.now)
    {
      assert u != t && ReadHolds(s.workers[u], s.items[s.workers[u].item], s.versions, s.now);
      OneHolder(s, t, u);
      hide Inv, NewId, IsLatest;
      if IsChange(r) && s.workers[u].read.Some? {
        AppendKeepsLatest(s.versions, v, s.items[s.workers[u].item].switchId, s.workers[u].read.value.latest);
      }
    }
  }

  lemma StoreKeepsItems(s: State, t: Token, id: nat)
    requires Inv(s) && Enabled(s, Store(t, id))
    ensures var s' := Apply(s, Store(t, id));
            OnePending(s'.items) && ItemsOk(s'.items, s'.workers) && WorkersOk(s'.items, s'.workers)
  {
    hide IsLatest, AdjacentDiffer, Ordered, CapturedBy, Owned, ReadsHold, NewId, CapturedUntil, StoredVersions;
  }

  lemma StoreKeepsVersions(s: State, t: Token, id: nat)
    requires Inv(s) && Enabled(s, Store(t, id))
    ensures var s' := Apply(s, Store(t, id));
            && Ordered(s'.versions) && AdjacentDiffer(s'.versions) && Owned(s'.items, s'.versions)
            && CapturedUntil(s'.versions, s'.now)
  {
    var w := s.workers[t];
    var item, r := s.items[w.item], w.read.value;
    assert ReadHolds(w, item, s.versions, s.now);
    assert item.backup.None?;
    hide IsLatest, Ordered, AdjacentDiffer, Owned, NewId, OnePending, ItemsOk, WorkersOk, ReadsHold;
    if IsChange(r) {
      var v := Version(id, item.switchId, r.startedAt, r.found, w.item);
      AppendKeepsOrder(s.versions, v);
      AppendKeepsDifferent(s.versions, v, r.latest);
    }
    StoreKeepsOwned(s.items, s.versions, w.item, r, id);
  }

  lemma StoreStep(s: State, t: Token, id: nat)
    requires Inv(s) && Enabled(s, Store(t, id))
    ensures Inv(Apply(s, Store(t, id)))
  {
    StoreKeepsReads(s, t, id);
    StoreKeepsItems(s, t, id);
    StoreKeepsVersions(s, t, id);
  }

  lemma StoreKeepsOwned(items: map<ItemId, Item>, versions: seq<Version>, i: ItemId, r: Read, id: nat)
    requires Owned(items, versions) && i in items && items[i].backup.None? && items[i].kind == ConfigBackup
    requires NewId(versions, items[i].switchId, id)
    ensures Owned(items[i := StoredItem(items[i], r, id)], StoredVersions(versions, items[i].switchId, i, r, id))
  {
    var items', versions' := items[i := StoredItem(items[i], r, id)], StoredVersions(versions, items[i].switchId, i, r, id);
    forall j | j in items' && items'[j].backup.Some? ensures exists k :: 0 <= k < |versions'| && versions'[k].item == j {
      if j == i {
        assert versions'[|versions|].item == i;
      } else {
        var k :| 0 <= k < |versions| && versions[k].item == j;
        assert versions'[k].item == j;
      }
    }
  }

  lemma FinishKeepsReads(s: State, t: Token, status: Status)
    requires Inv(s) && Enabled(s, Finish(t, status))
    ensures ReadsHold(Apply(s, Finish(t, status)))
  {
    hide IsLatest, AdjacentDiffer, Ordered, CapturedBy, Owned, OnePending, CapturedUntil, WorkersOk;
  }

  lemma FinishStep(s: State, t: Token, status: Status)
    requires Inv(s) && Enabled(s, Finish(t, status))
    ensures Inv(Apply(s, Finish(t, status)))
  {
    FinishKeepsReads(s, t, status);
    var i := s.workers[t].item;
    ReplaceKeepsPending(s.items, i, Finished(s.items[i], status, None, None));
    ReplaceKeepsOwned(s.items, s.versions, i, Finished(s.items[i], status, None, None));
    hide AdjacentDiffer, Ordered, ReadsHold, CapturedUntil, OnePending, Owned;
  }

  lemma RollBackStep(s: State, t: Token)
    requires Inv(s) && Enabled(s, RollBack(t))
    ensures Inv(Apply(s, RollBack(t)))
  {
    hide IsLatest, AdjacentDiffer, Ordered, CapturedBy;
  }

  lemma StepKeepsInv(s: State, step: Step)
    requires Inv(s) && Enabled(s, step)
    ensures Inv(Apply(s, step))
  {
    match step {
      case Tick(to) =>
      case Enqueue(kind, ids) => EnqueueStep(s, kind, ids);
      case Claim(i, token, at) => ClaimStep(s, i, token, at);
      case Sweep(at) => SweepStep(s, at);
      case ReadLatest(t, at, latest, found) => ReadStep(s, t, at, latest, found);
      case Store(t, id) => StoreStep(s, t, id);
      case RollBack(t) => RollBackStep(s, t);
      case Finish(t, status) => FinishStep(s, t, status);
    }
  }

  // ---------- Whole runs ----------

  datatype Run = Run(states: seq<State>, steps: seq<Step>) {
    ghost predicate Valid() {
      && |states| == |steps| + 1 && Init(states[0])
      && forall i :: 0 <= i < |steps| ==> Enabled(states[i], steps[i]) && states[i + 1] == Apply(states[i], steps[i])
    }
  }

  lemma {:induction false} RunInv(r: Run, i: nat)
    requires r.Valid() && i < |r.states|
    ensures Inv(r.states[i])
  {
    if i > 0 {
      RunInv(r, i - 1);
      hide Inv, Enabled, Apply;
      StepKeepsInv(r.states[i - 1], r.steps[i - 1]);
    }
  }

  // A switch never has two pending operations of one kind.
  lemma OnePendingPerSwitch(r: Run, n: nat, i: ItemId, j: ItemId)
    requires r.Valid() && n < |r.states| && i in r.states[n].items && j in r.states[n].items
    requires Pending(r.states[n].items[i]) && Pending(r.states[n].items[j])
    requires r.states[n].items[i].switchId == r.states[n].items[j].switchId && r.states[n].items[i].kind == r.states[n].items[j].kind
    ensures i == j
  {
    RunInv(r, n);
  }

  // Configuration versions that follow each other differ, in the order in which they are listed.
  lemma AdjacentVersionsDiffer(r: Run, n: nat, i: nat, j: nat)
    requires r.Valid() && n < |r.states| && Adjacent(r.states[n].versions, i, j)
    ensures Earlier(r.states[n].versions[i], r.states[n].versions[j])
    ensures r.states[n].versions[i].fingerprint != r.states[n].versions[j].fingerprint
  {
    RunInv(r, n);
  }

  // Each item marked changed owns exactly one version, and each version belongs to such an item.
  lemma ChangedItemsOwnVersions(r: Run, n: nat, i: ItemId)
    requires r.Valid() && n < |r.states| && i in r.states[n].items
    ensures var s := r.states[n];
            && (s.items[i].changed == Some(true) <==> exists k :: 0 <= k < |s.versions| && s.versions[k].item == i)
            && (forall k, l :: 0 <= k < |s.versions| && 0 <= l < |s.versions| && s.versions[k].item == s.versions[l].item ==> k == l)
  {
    RunInv(r, n);
    hide Enabled, Apply, ReadsHold, AdjacentDiffer, Ordered, OnePending;
  }

  // An item that did not succeed, because it failed, was skipped or lost its lease, owns no version.
  lemma LostLeaseLeavesNoVersion(r: Run, n: nat, k: nat)
    requires r.Valid() && n < |r.states| && k < |r.states[n].versions|
    ensures var s := r.states[n];
            && s.versions[k].item in s.items
            && s.items[s.versions[k].item].status == Succeeded && s.items[s.versions[k].item].changed == Some(true)
            && s.items[s.versions[k].item].switchId == s.versions[k].switchId
  {
    RunInv(r, n);
    hide Enabled, Apply, ReadsHold, AdjacentDiffer, Ordered, OnePending;
  }
}
