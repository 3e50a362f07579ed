/**
 The transactions of device operations as methods on tables they update in place.
 Each one takes steps of the transition system, or leaves every table as it was.
 */
module DeviceStore {
  import opened Wrappers
  import opened Rows
  import opened DeviceItems

  datatype SwitchRow = SwitchRow(enabled: bool, group: Option<string>)

  datatype Scope = Everywhere | InGroup(group: string) | Chosen(switches: seq<SwitchId>)

  predicate InScope(row: SwitchRow, id: SwitchId, scope: Scope) {
    match scope
    case Everywhere => true
    case InGroup(group) => row.group == Some(group)
    case Chosen(switches) => id in switches
  }

  predicate Targeted(switches: map<SwitchId, SwitchRow>, scope: Scope, s: SwitchId) {
    s in switches && switches[s].enabled && InScope(switches[s], s, scope)
  }

  datatype EnqueueOutcome = GroupNotFound | Enqueued(queued: nat, skipped: nat)

  ghost predicate Took(s: State, step: Step, s': State) {
    Enabled(s, step) && s' == Apply(s, step)
  }

  // The identifiers the new items of a task get, one for each switch it targets.
  ghost predicate Numbered(ids: map<ItemId, SwitchId>, switches: map<SwitchId, SwitchRow>, scope: Scope, first: ItemId) {
    && (forall i :: i in ids ==> i >= first && Targeted(switches, scope, ids[i]))
    && (forall s :: Targeted(switches, scope, s) ==> exists i :: i in ids && ids[i] == s)
    && (forall i, j :: i in ids && j in ids && i != j ==> ids[i] != ids[j])
  }

  function WithStatus(items: map<ItemId, Item>, ids: set<ItemId>, status: Status): set<ItemId> {
    set i | i in ids && i in items && items[i].status == status
  }

  // Row k gets the k-th new identifier.
  function RowNumbered(rows: seq<SwitchId>, first: ItemId, i: ItemId): SwitchId
    requires first <= i < first + |rows|
  {
    rows[i - first]
  }

  function Numbers(rows: seq<SwitchId>, first: ItemId): map<ItemId, SwitchId> {
    map i: ItemId | first <= i < first + |rows| :: RowNumbered(rows, first, i)
  }

  lemma NumbersMean(rows: seq<SwitchId>, switches: map<SwitchId, SwitchRow>, scope: Scope, first: ItemId)
    requires Distinct(rows)
    requires forall s :: s in rows <==> Targeted(switches, scope, s)
    ensures Numbered(Numbers(rows, first), switches, scope, first)
    ensures forall i :: i in Numbers(rows, first) ==> first <= i < first + |rows|
    ensures forall i, j :: i in Numbers(rows, first) && j in Numbers(rows, first) && i != j ==>
              Numbers(rows, first)[i] != Numbers(rows, first)[j]
  {
    var ids := Numbers(rows, first);
    forall s | Targeted(switches, scope, s) ensures exists i :: i in ids && ids[i] == s {
      var k :| 0 <= k < |rows| && rows[k] == s;
      assert first + k in ids && ids[first + k] == s;
    }
  }

  // The rows the two insertions of a task add: those without a conflict, then the rest.
  function QueuedRows(items: map<ItemId, Item>, kind: Kind, ids: map<ItemId, SwitchId>): map<ItemId, Item> {
    map i | i in ids && !HasPending(items, ids[i], kind) :: Item(kind, ids[i], Queued, None, None, None)
  }

  function SkippedRows(kind: Kind, ids: map<ItemId, SwitchId>, inserted: map<ItemId, Item>): map<ItemId, Item> {
    map i | i in ids && i !in inserted :: Item(kind, ids[i], Skipped, None, None, None)
  }

  lemma TwoInsertions(items: map<ItemId, Item>, kind: Kind, ids: map<ItemId, SwitchId>)
    ensures var queued := QueuedRows(items, kind, ids);
            items + queued + SkippedRows(kind, ids, queued) == DeviceItems.Enqueued(items, kind, ids)
  {
    hide HasPending;
    var queued := QueuedRows(items, kind, ids);
    var both := items + queued + SkippedRows(kind, ids, queued);
    var all := DeviceItems.Enqueued(items, kind, ids);
    forall i ensures i in both <==> i in all {
    }
    forall i | i in both ensures both[i] == all[i] {
    }
  }

  lemma NewItems(items: map<ItemId, Item>, kind: Kind, ids: map<ItemId, SwitchId>)
    ensures forall i :: i in DeviceItems.Enqueued(items, kind, ids) <==> i in items || i in ids
  {
    hide HasPending;
  }

  lemma InsertionCounts(items: map<ItemId, Item>, kind: Kind, ids: map<ItemId, SwitchId>)
    ensures var queued := QueuedRows(items, kind, ids);
            && WithStatus(DeviceItems.Enqueued(items, kind, ids), ids.Keys, Queued) == queued.Keys
            && WithStatus(DeviceItems.Enqueued(items, kind, ids), ids.Keys, Skipped) == SkippedRows(kind, ids, queued).Keys
  {
    hide HasPending;
  }

  // The two insertions are one step, and affect as many rows as they queue and skip items.
  lemma InsertionIsStep(s: State, kind: Kind, ids: map<ItemId, SwitchId>, first: ItemId, next: ItemId)
    requires Inv(s) && (forall i :: i in s.items ==> i < first) && first <= next && forall i :: i in ids ==> first <= i < next
    requires forall i, j :: i in ids && j in ids && i != j ==> ids[i] != ids[j]
    ensures var queued := QueuedRows(s.items, kind, ids);
            var skipped := SkippedRows(kind, ids, queued);
            var items := s.items + queued + skipped;
            && Enabled(s, Enqueue(kind, ids)) && Apply(s, Enqueue(kind, ids)) == s.(items := items)
            && Inv(s.(items := items)) && (forall i :: i in items ==> i < next)
            && WithStatus(items, ids.Keys, Queued) == queued.Keys && WithStatus(items, ids.Keys, Skipped) == skipped.Keys
  {
    hide Inv, HasPending, QueuedRows, SkippedRows, WithStatus, DeviceItems.Enqueued;
    NewItems(s.items, kind, ids);
    StepKeepsInv(s, Enqueue(kind, ids));
    TwoInsertions(s.items, kind, ids);
    InsertionCounts(s.items, kind, ids);
  }

  // What a task adds: one item per identifier, skipped exactly if the switch already has a queued or running
  // item of this kind, and nothing else changes.
  ghost predicate TaskAdded(before: map<ItemId, Item>, after: map<ItemId, Item>, kind: Kind, ids: map<ItemId, SwitchId>) {
    && after.Keys == before.Keys + ids.Keys
    && (forall i :: i in before && i !in ids ==> after[i] == before[i])
    && forall i :: i in ids ==>
         var pending := exists o :: o in before && before[o].switchId == ids[i] && before[o].kind == kind
                                    && (before[o].status == Queued || before[o].status == Running);
         after[i] == Item(kind, ids[i], if pending then Skipped else Queued, None, None, None)
  }

  lemma EnqueuedMeans(items: map<ItemId, Item>, kind: Kind, ids: map<ItemId, SwitchId>)
    requires forall i :: i in ids ==> i !in items
    ensures TaskAdded(items, DeviceItems.Enqueued(items, kind, ids), kind, ids)
  {
    var after := DeviceItems.Enqueued(items, kind, ids);
    forall i | i in ids
      ensures HasPending(items, ids[i], kind) <==>
              exists o :: o in items && items[o].switchId == ids[i] && items[o].kind == kind
                          && (items[o].status == Queued || items[o].status == Running)
    {
    }
    NewItems(items, kind, ids);
    assert after.Keys == items.Keys + ids.Keys;
    hide HasPending;
  }

  lemma SweptMeans(items: map<ItemId, Item>, at: int)
    ensures var swept := Swept(items, at);
            && swept.Keys == items.Keys
            && forall i :: i in items ==>
                 swept[i] == if items[i].status == Running && items[i].lease.Some? && items[i].lease.value.until < at
                             then items[i].(status := Failed, lease := None) else items[i]
  {
  }

  // ---------- Claiming ----------

  // Exactly the listed items were taken, in the order of their identifiers, and every one of them is older
  // than any item still queued.
  ghost predicate OldestTaken(before: map<ItemId, Item>, after: map<ItemId, Item>, taken: seq<ItemId>, tokens: seq<Token>,
                              at: int) {
    && |taken| <= |tokens| && after.Keys == before.Keys
    && (forall k :: 0 <= k < |taken| ==>
          && taken[k] in before && before[taken[k]].status == Queued
          && after[taken[k]] == ClaimedItem(before[taken[k]], tokens[k], at))
    && (forall k, l :: 0 <= k < l < |taken| ==> taken[k] < taken[l])
    && (forall i :: i in before && i !in taken ==> after[i] == before[i])
    && (forall i, k :: i in after && after[i].status == Queued && 0 <= k < |taken| ==> taken[k] < i)
  }

  lemma NoneTaken(items: map<ItemId, Item>, tokens: seq<Token>, at: int)
    ensures OldestTaken(items, items, [], tokens, at)
  {
  }

  lemma TakenMeans(before: map<ItemId, Item>, after: map<ItemId, Item>, taken: seq<ItemId>, tokens: seq<Token>, at: int)
    requires OldestTaken(before, after, taken, tokens, at)
    ensures forall k :: 0 <= k < |taken| ==>
              && taken[k] in before && taken[k] in after
              && var item := before[taken[k]];
                 after[taken[k]] == item.(status := Running,
                                          lease := Some(Lease(tokens[k], at + if item.kind == ConfigBackup then 600 else 120)))
  {
  }

  lemma OneMoreTaken(before: map<ItemId, Item>, after: map<ItemId, Item>, taken: seq<ItemId>, tokens: seq<Token>, at: int,
                     i: ItemId)
    requires OldestTaken(before, after, taken, tokens, at) && |taken| < |tokens|
    requires i in after && after[i].status == Queued
    requires forall j :: j in after && after[j].status == Queued ==> i <= j
    ensures OldestTaken(before, after[i := ClaimedItem(after[i], tokens[|taken|], at)], taken + [i], tokens, at)
  {
    assert forall k :: 0 <= k < |taken| ==> taken[k] < i;
  }

  ghost predicate HeldBy(s: State, t: Token) {
    t in s.workers && s.workers[t].item in s.items && Holds(s.items[s.workers[t].item], t)
  }

  // The queued item with the lowest identifier.
  method OldestQueued(items: map<ItemId, Item>) returns (oldest: Option<ItemId>)
    ensures oldest.None? <==> forall i :: i in items ==> items[i].status != Queued
    ensures oldest.Some? ==>
              && oldest.value in items && items[oldest.value].status == Queued
              && forall i :: i in items && items[i].status == Queued ==> oldest.value <= i
  {
    oldest := None;
    var left := items.Keys;
    while left != {}
      invariant left <= items.Keys
      invariant oldest.None? <==> forall i :: i in items && i !in left ==> items[i].status != Queued
      invariant oldest.Some? ==>
                  && oldest.value in items && items[oldest.value].status == Queued
                  && forall i :: i in items && i !in left && items[i].status == Queued ==> oldest.value <= i
    {
      var i :| i in left;
      left := left - {i};
      if items[i].status == Queued && (oldest.None? || i < oldest.value) {
        oldest := Some(i);
      }
    }
  }

  // ---------- Reading the latest version ----------

  // The fingerprint of the version captured last; the later identifier decides between equal times.
  method LatestFingerprint(versions: seq<Version>, s: SwitchId) returns (latest: Option<Fingerprint>)
    requires forall i, j :: 0 <= i < j < |versions| ==> versions[i].id != versions[j].id
    ensures IsLatest(versions, s, latest)
  {
    var best := None;
    for k := 0 to |versions|
      invariant best.Some? ==> 0 <= best.value < k && versions[best.value].switchId == s
      invariant best.Some? ==> forall j :: 0 <= j < k && j != best.value && versions[j].switchId == s ==>
                                 Earlier(versions[j], versions[best.value])
      invariant best.None? ==> forall j :: 0 <= j < k ==> versions[j].switchId != s
    {
      if versions[k].switchId == s && (best.None? || Earlier(versions[best.value], versions[k])) {
        best := Some(k);
      }
    }
    latest := if best.Some? then Some(versions[best.value].fingerprint) else None;
  }

  lemma DistinctIds(s: State)
    requires Inv(s)
    ensures forall i, j :: 0 <= i < j < |s.versions| ==> s.versions[i].id != s.versions[j].id
  {
    hide OnePending, ItemsOk, WorkersOk, Ordered, AdjacentDiffer, CapturedUntil, ReadsHold;
  }

  // ---------- What a held backup stores ----------

  // The found fingerprint is the latest one afterwards. If it was before, nothing is stored; otherwise, also
  // for the first backup of a switch, one version is, and the item says so.
  ghost predicate Stored(items: map<ItemId, Item>, versions: seq<Version>, i: ItemId, at: int, found: Fingerprint, id: nat,
                         items': map<ItemId, Item>, versions': seq<Version>)
  {
    && i in items
    && IsLatest(versions', items[i].switchId, Some(found))
    && var known := IsLatest(versions, items[i].switchId, Some(found));
       && versions' == (if known then versions else versions + [Version(id, items[i].switchId, at, found, i)])
       && items' == items[i := items[i].(status := Succeeded, lease := None, changed := Some(!known),
                                         backup := if known then None else Some(id))]
  }

  lemma LatestIsUnique(versions: seq<Version>, s: SwitchId, latest: Option<Fingerprint>, fp: Fingerprint)
    requires IsLatest(versions, s, latest)
    ensures IsLatest(versions, s, Some(fp)) <==> latest == Some(fp)
  {
  }

  lemma LastOfSwitch(versions: seq<Version>, v: Version)
    requires Ordered(versions + [v])
    ensures IsLatest(versions + [v], v.switchId, Some(v.fingerprint))
  {
    var all := versions + [v];
    assert all[|versions|] == v;
    assert forall k :: 0 <= k < |all| && k != |versions| && all[k].switchId == v.switchId ==> Earlier(all[k], all[|versions|]);
  }

  lemma VersionsOrdered(s: State)
    requires Inv(s)
    ensures Ordered(s.versions)
  {
    hide OnePending, ItemsOk, WorkersOk, Ordered, AdjacentDiffer, Owned, CapturedUntil, ReadsHold;
  }

  lemma ReadMeans(s: State, t: Token, at: int, latest: Option<Fingerprint>, found: Fingerprint)
    requires Enabled(s, ReadLatest(t, at, latest, found))
    ensures t in s.workers && s.workers[t].item in s.items && IsLatest(s.versions, s.items[s.workers[t].item].switchId, latest)
    ensures Apply(s, ReadLatest(t, at, latest, found))
            == s.(workers := s.workers[t := s.workers[t].(read := Some(Read(at, latest, found)))])
  {
    hide IsLatest;
  }

  lemma StoreMeans(s: State, t: Token, id: nat)
    requires Enabled(s, Store(t, id))
    ensures t in s.workers && s.workers[t].read.Some? && s.workers[t].item in s.items
    ensures var s', i, r := Apply(s, Store(t, id)), s.workers[t].item, s.workers[t].read.value;
            var changed := r.latest != Some(r.found);
            && s'.items == s.items[i := s.items[i].(status := Succeeded, lease := None, changed := Some(changed),
                                                    backup := if changed then Some(id) else None)]
            && s'.versions == if changed then s.versions + [Version(id, s.items[i].switchId, r.startedAt, r.found, i)] else s.versions
  {
    hide NewId;
  }

  lemma StoredMeans(before: State, t: Token, at: int, latest: Option<Fingerprint>, found: Fingerprint, id: nat, read: State, after: State)
    requires Took(before, ReadLatest(t, at, latest, found), read) && Took(read, Store(t, id), after) && Inv(after)
    ensures t in before.workers
    ensures Stored(before.items, before.versions, before.workers[t].item, at, found, id, after.items, after.versions)
  {
    hide Inv, Enabled, Apply, IsLatest, Ordered;
    ReadMeans(before, t, at, latest, found);
    StoreMeans(read, t, id);
    VersionsOrdered(after);
    var i := before.workers[t].item;
    LatestIsUnique(before.versions, before.items[i].switchId, latest, found);
    if latest != Some(found) {
      LastOfSwitch(before.versions, Version(id, before.items[i].switchId, at, found, i));
    }
  }

  // ---------- The tables ----------

  class Devices {
    var now: int
    var items: map<ItemId, Item>
    var workers: map<Token, Worker>
    var versions: seq<Version>
    var nextItem: ItemId

    ghost function Snapshot(): State
      reads this
    {
      State(now, items, workers, versions)
    }

    ghost predicate Valid()
      reads this
    {
      Inv(Snapshot()) && forall i :: i in items ==> i < nextItem
    }

    // One item per enabled switch in scope: queued, or skipped when one is already pending.
    method EnqueueDeviceTask(kind: Kind, scope: Scope, switches: map<SwitchId, SwitchRow>, groups: set<string>)
      returns (r: EnqueueOutcome, ghost ids: map<ItemId, SwitchId>)
      requires Valid()
      modifies this`items, this`nextItem
      ensures Valid()
      ensures r.GroupNotFound? <==> scope.InGroup? && scope.group !in groups
      ensures r.GroupNotFound? ==> Snapshot() == old(Snapshot())
      ensures r.Enqueued? ==>
                && Numbered(ids, switches, scope, old(nextItem))
                && Took(old(Snapshot()), Enqueue(kind, ids), Snapshot()) && TaskAdded(old(items), items, kind, ids)
                && r.queued == |WithStatus(items, ids.Keys, Queued)|
                && r.skipped == |WithStatus(items, ids.Keys, Skipped)|
    {
      hide Inv, HasPending, Numbered, Took, WithStatus, TaskAdded;
      ids := map[];
      if scope.InGroup? && scope.group !in groups {
        return GroupNotFound, ids;
      }
      var rows := Listed(set s | s in switches && Targeted(switches, scope, s));
      NumbersMean(rows, switches, scope, nextItem);
      hide Numbers;
      var numbered := Numbers(rows, nextItem);
      var queued, skipped := InsertItems(kind, numbered, nextItem + |rows|);
      return Enqueued(queued, skipped), numbered;
    }

    // The two insertions of a task and the rows they affect; an item that is already pending conflicts with
    // the first one.
    method InsertItems(kind: Kind, ids: map<ItemId, SwitchId>, next: ItemId) returns (queued: nat, skipped: nat)
      requires Valid() && next >= nextItem && forall i :: i in ids ==> nextItem <= i < next
      requires forall i, j :: i in ids && j in ids && i != j ==> ids[i] != ids[j]
      modifies this`items, this`nextItem
      ensures Valid() && Took(old(Snapshot()), Enqueue(kind, ids), Snapshot()) && TaskAdded(old(items), items, kind, ids)
      ensures queued == |WithStatus(items, ids.Keys, Queued)| && skipped == |WithStatus(items, ids.Keys, Skipped)|
    {
      hide Inv, HasPending, QueuedRows, SkippedRows, WithStatus, Enabled, Apply, TaskAdded, DeviceItems.Enqueued;
      InsertionIsStep(Snapshot(), kind, ids, nextItem, next);
      EnqueuedMeans(items, kind, ids);
      TwoInsertions(items, kind, ids);
      var queuedRows := QueuedRows(items, kind, ids);
      var skippedRows := SkippedRows(kind, ids, queuedRows);
      items := items + queuedRows + skippedRows;
      nextItem := next;
      queued, skipped := |queuedRows.Keys|, |skippedRows.Keys|;
    }

    method SweepDeviceItems(at: int)
      requires Valid() && at <= now
      modifies this`items
      ensures Valid() && Took(old(Snapshot()), Sweep(at), Snapshot())
      ensures items.Keys == old(items.Keys) && forall i :: i in items && i in old(items) ==>
                items[i] == if old(items)[i].status == Running && old(items)[i].lease.Some? && old(items)[i].lease.value.until < at
                            then old(items)[i].(status := Failed, lease := None) else old(items)[i]
    {
      SweptMeans(items, at);
      hide Inv;
      StepKeepsInv(Snapshot(), Sweep(at));
      items := Swept(items, at);
    }

    // Takes the oldest queued items, up to a limit; every item taken gets its own unused token.
    method ClaimDeviceItems(tokens: seq<Token>, at: int) returns (taken: seq<ItemId>)
      requires Valid() && at <= now
      requires (forall k :: 0 <= k < |tokens| ==> tokens[k] !in workers)
      requires forall k, l :: 0 <= k < l < |tokens| ==> tokens[k] != tokens[l]
      modifies this`items, this`workers
      ensures Valid() && |taken| <= |tokens|
      ensures OldestTaken(old(items), items, taken, tokens, at)
      ensures forall k :: 0 <= k < |taken| ==>
                && taken[k] in old(items) && taken[k] in items
                && var item := old(items)[taken[k]];
                   items[taken[k]] == item.(status := Running,
                                            lease := Some(Lease(tokens[k], at + if item.kind == ConfigBackup then 600 else 120)))
      ensures forall k :: 0 <= k < |taken| ==> tokens[k] in workers && workers[tokens[k]] == Worker(taken[k], now, None)
      ensures |taken| < |tokens| ==> forall i :: i in items ==> items[i].status != Queued
    {
      hide Inv, OldestTaken;
      NoneTaken(items, tokens, at);
      taken := [];
      while |taken| < |tokens|
        invariant Valid() && |taken| <= |tokens|
        invariant OldestTaken(old(items), items, taken, tokens, at)
        invariant forall t :: t in workers ==> t in old(workers) || t in tokens[..|taken|]
        invariant forall k :: 0 <= k < |taken| ==> tokens[k] in workers && workers[tokens[k]] == Worker(taken[k], now, None)
      {
        var oldest := OldestQueued(items);
        if oldest.None? {
          TakenMeans(old(items), items, taken, tokens, at);
          return;
        }
        var i, token := oldest.value, tokens[|taken|];
        assert token !in workers;
        StepKeepsInv(Snapshot(), Claim(i, token, at));
        OneMoreTaken(old(items), items, taken, tokens, at, i);
        items := items[i := ClaimedItem(items[i], token, at)];
        workers := workers[token := Worker(i, now, None)];
        taken := taken + [i];
      }
      TakenMeans(old(items), items, taken, tokens, at);
    }

    // Finishes an item exactly when the worker still holds it.
    method FinishItem(t: Token, status: Status) returns (held: bool)
      requires Valid() && t in workers
      requires status == Failed || status == Skipped
               || (status == Succeeded && workers[t].item in items && items[workers[t].item].kind == Reachability)
      modifies this`items, this`workers
      ensures Valid() && (held <==> HeldBy(old(Snapshot()), t))
      ensures held <==>
                && old(workers)[t].item in old(items)
                && var item := old(items)[old(workers)[t].item];
                   item.status == Running && item.lease.Some? && item.lease.value.token == t
      ensures held ==> Took(old(Snapshot()), Finish(t, status), Snapshot())
      ensures held ==>
                && old(workers)[t].item in old(items)
                && var i := old(workers)[t].item;
                   items == old(items)[i := old(items)[i].(status := status, lease := None, changed := None, backup := None)]
      ensures !held ==> Snapshot() == old(Snapshot())
    {
      hide Inv;
      var i := workers[t].item;
      held := i in items && Holds(items[i], t);
      if held {
        StepKeepsInv(Snapshot(), Finish(t, status));
        items := items[i := Finished(items[i], status, None, None)];
        workers := workers[t := workers[t].(read := None)];
      }
    }

    // The transaction of a successful backup: it reads the latest fingerprint, adds a version if the new one
    // differs, and takes the version back when the item is no longer held.
    method StoreBackup(t: Token, at: int, found: Fingerprint, id: nat) returns (held: bool, ghost read: State)
      requires Valid() && t in workers && workers[t].read.None? && workers[t].item in items
      requires items[workers[t].item].kind == ConfigBackup && workers[t].since <= at <= now
      requires NewId(versions, items[workers[t].item].switchId, id)
      modifies this`items, this`workers, this`versions
      ensures Valid() && (held <==> HeldBy(old(Snapshot()), t))
      ensures exists latest :: Took(old(Snapshot()), ReadLatest(t, at, latest, found), read)
      ensures held ==> Took(read, Store(t, id), Snapshot())
      ensures !held ==> Took(read, RollBack(t), Snapshot()) && items == old(items) && versions == old(versions)
      ensures held ==> Stored(old(items), old(versions), old(workers)[t].item, at, found, id, items, versions)
    {
      hide Inv, Took, Stored, IsLatest, NewId;
      ghost var before := Snapshot();
      var latest := ReadLatestVersion(t, at, found);
      read := Snapshot();
      held := SettleBackup(t, id);
      if held {
        StoredMeans(before, t, at, latest, found, id, read, Snapshot());
      }
    }

    method ReadLatestVersion(t: Token, at: int, found: Fingerprint) returns (latest: Option<Fingerprint>)
      requires Valid() && t in workers && workers[t].read.None? && workers[t].item in items
      requires items[workers[t].item].kind == ConfigBackup && workers[t].since <= at <= now
      modifies this`workers
      ensures Valid() && Took(old(Snapshot()), ReadLatest(t, at, latest, found), Snapshot())
      ensures workers == old(workers)[t := old(workers)[t].(read := Some(Read(at, latest, found)))]
    {
      hide Inv;
      DistinctIds(Snapshot());
      var s := items[workers[t].item].switchId;
      latest := LatestFingerprint(versions, s);
      hide IsLatest;
      StepKeepsInv(Snapshot(), ReadLatest(t, at, latest, found));
      workers := workers[t := workers[t].(read := Some(Read(at, latest, found)))];
    }

    method SettleBackup(t: Token, id: nat) returns (held: bool)
      requires Valid() && t in workers && workers[t].read.Some? && workers[t].item in items
      requires NewId(versions, items[workers[t].item].switchId, id)
      modifies this`items, this`workers, this`versions
      ensures Valid() && (held <==> HeldBy(old(Snapshot()), t))
      ensures held ==> Took(old(Snapshot()), Store(t, id), Snapshot())
      ensures !held ==> Took(old(Snapshot()), RollBack(t), Snapshot()) && items == old(items) && versions == old(versions)
    {
      hide Inv, NewId;
      var i, r, before := workers[t].item, workers[t].read.value, versions;
      var changed := r.latest != Some(r.found);
      if changed {
        versions := versions + [Version(id, items[i].switchId, r.startedAt, r.found, i)];
      }
      held := Holds(items[i], t);
      if held {
        StepKeepsInv(old(Snapshot()), Store(t, id));
        items := items[i := Finished(items[i], Succeeded, Some(changed), if changed then Some(id) else None)];
      } else {
        StepKeepsInv(old(Snapshot()), RollBack(t));
        versions := before;
      }
      workers := workers[t := workers[t].(read := None)];
    }
  }
}
