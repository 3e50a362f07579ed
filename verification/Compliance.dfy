/**
 Incremental compliance evaluation: each pass re-evaluates only the switch and rule
 pairs whose latest backup or rule version has moved on. The lemmas compare what it
 leaves behind with evaluating everything from scratch, over any history of edits.
 */
module Compliance {
  import opened Wrappers

  type SwitchId = string
  type RuleId = string
  type BackupId = int

  datatype Severity = Info | Warning | Critical

  datatype Mode = MustContain | MustNotContain

  datatype Switch = Switch(enabled: bool, vendor: string, group: Option<string>)

  datatype Rule = Rule(version: nat, enabled: bool, vendor: Option<string>, group: Option<string>,
                       severity: Severity, mode: Mode, pattern: string)

  // content is None when the stored text cannot be opened.
  datatype Backup = Backup(switchId: SwitchId, capturedAt: int, content: Option<string>)

  // What the regular expression engine answers for a pattern and a text.
  datatype Search = Uncompilable | NoMatch | FirstMatch(position: nat)

  type Engine = (string, string) -> Search

  datatype Result = Result(backup: BackupId, ruleVersion: nat, passed: bool)

  type Pair = (SwitchId, RuleId)

  // One item of work: a pair with the latest backup of its switch.
  datatype Work = Work(switchId: SwitchId, ruleId: RuleId, backup: BackupId)

  const PASS_LIMIT := 5000

  // The tables; alerts holds the pairs with an active violation alert, one per deduplication key.
  datatype Tables = Tables(
    switches: map<SwitchId, Switch>, rules: map<RuleId, Rule>, backups: map<BackupId, Backup>,
    results: map<Pair, Result>, alerts: set<Pair>)

  // An enabled rule applies to an enabled switch of its vendor and group.
  predicate InScope(ru: Rule, s: Switch) {
    && ru.enabled && s.enabled
    && (ru.vendor.None? || ru.vendor.value == s.vendor)
    && (ru.group.None? || ru.group == s.group)
  }

  predicate PairInScope(t: Tables, p: Pair) {
    p.0 in t.switches && p.1 in t.rules && InScope(t.rules[p.1], t.switches[p.0])
  }

  // b is the most recently captured backup of its switch; equal times go to the larger identifier.
  predicate IsLatest(backups: map<BackupId, Backup>, s: SwitchId, b: BackupId) {
    && b in backups && backups[b].switchId == s
    && forall o :: o in backups && backups[o].switchId == s ==>
         backups[o].capturedAt < backups[b].capturedAt || (backups[o].capturedAt == backups[b].capturedAt && o <= b)
  }

  // Whether a text satisfies a rule; an unreadable text or an unusable pattern does not.
  function Verdict(engine: Engine, ru: Rule, content: Option<string>): bool {
    match content
    case None => false
    case Some(text) =>
      match engine(ru.pattern, text)
      case Uncompilable => false
      case NoMatch => ru.mode == MustNotContain
      case FirstMatch(_) => ru.mode == MustContain
  }

  predicate UpToDate(t: Tables, w: Work)
    requires w.ruleId in t.rules
  {
    var p := (w.switchId, w.ruleId);
    p in t.results && t.results[p].backup == w.backup && t.results[p].ruleVersion == t.rules[w.ruleId].version
  }

  // Every in-scope pair whose switch has a backup.
  function AllWork(t: Tables): set<Work> {
    set s, r, b | s in t.switches && r in t.rules && b in t.backups && PairInScope(t, (s, r)) && IsLatest(t.backups, s, b) ::
      Work(s, r, b)
  }

  // The work whose result is missing or out of date.
  function Pending(t: Tables): set<Work> {
    set w | w in AllWork(t) && !UpToDate(t, w)
  }

  predicate FailsCritically(t: Tables, p: Pair) {
    p in t.results && !t.results[p].passed && p.1 in t.rules && t.rules[p.1].severity == Critical
  }

  // ---------- One pass ----------

  // Results of pairs that left the scope are deleted, then alerts without a failing critical result.
  function Cleaned(t: Tables): Tables {
    var kept := t.(results := map p | p in t.results && PairInScope(t, p) :: t.results[p]);
    kept.(alerts := set p | p in t.alerts && FailsCritically(kept, p))
  }

  function ResultFor(engine: Engine, t: Tables, w: Work): Result
    requires w.ruleId in t.rules && w.backup in t.backups
  {
    Result(w.backup, t.rules[w.ruleId].version, Verdict(engine, t.rules[w.ruleId], t.backups[w.backup].content))
  }

  function Evaluated(engine: Engine, t: Tables, w: Work): Tables
    requires w.ruleId in t.rules && w.backup in t.backups
  {
    var p, result := (w.switchId, w.ruleId), ResultFor(engine, t, w);
    t.(results := t.results[p := result],
       alerts := if t.rules[w.ruleId].severity != Critical then t.alerts
                 else if result.passed then t.alerts - {p} else t.alerts + {p})
  }

  function PairOf(w: Work): Pair { (w.switchId, w.ruleId) }

  function WorkIn(items: seq<Work>): set<Work> {
    set w | w in items
  }

  // The items refer to rows that exist, and no two of them share a pair.
  ghost predicate Distinct(t: Tables, items: seq<Work>) {
    && (forall w :: w in items ==> w.ruleId in t.rules && w.backup in t.backups)
    && (forall i, j :: 0 <= i < j < |items| ==> PairOf(items[i]) != PairOf(items[j]))
  }

  ghost function EvaluatedAll(engine: Engine, t: Tables, items: seq<Work>): (t': Tables)
    requires Distinct(t, items)
    ensures t'.switches == t.switches && t'.rules == t.rules && t'.backups == t.backups
    decreases |items|
  {
    if |items| == 0 then t
    else
      var rest, w := items[..|items| - 1], items[|items| - 1];
      assert forall v :: v in rest ==> v in items;
      Evaluated(engine, EvaluatedAll(engine, t, rest), w)
  }

  class Evaluator {
    var switches: map<SwitchId, Switch>
    var rules: map<RuleId, Rule>
    var backups: map<BackupId, Backup>
    var results: map<Pair, Result>
    var alerts: set<Pair>

    // Identifiers of backups start at 1.
    ghost predicate Valid()
      reads this
    {
      forall b :: b in backups ==> b > 0
    }

    function View(): Tables
      reads this
    {
      Tables(switches, rules, backups, results, alerts)
    }

    // The pending work in order of backup, at most as many items as one pass may take.
    method SelectPending() returns (items: seq<Work>)
      ensures forall w :: w in items ==> w in Pending(View())
      ensures forall i, j :: 0 <= i < j < |items| ==> items[i] != items[j] && items[i].backup <= items[j].backup
      ensures |items| == if |Pending(View())| < 5000 then |Pending(View())| else 5000
    {
      items := [];
      var rest := Pending(View());
      while rest != {} && |items| < PASS_LIMIT
        invariant rest <= Pending(View())
        invariant forall w :: w in items ==> w in Pending(View()) && w !in rest
        invariant forall i, j :: 0 <= i < j < |items| ==> items[i] != items[j] && items[i].backup <= items[j].backup
        invariant forall w, o :: w in items && o in rest ==> w.backup <= o.backup
        invariant |items| + |rest| == |Pending(View())| && |items| <= PASS_LIMIT
        decreases rest
      {
        var w := Oldest(rest);
        items, rest := items + [w], rest - {w};
      }
    }

    static method Oldest(work: set<Work>) returns (first: Work)
      requires work != {}
      ensures first in work && forall w :: w in work ==> first.backup <= w.backup
    {
      first :| first in work;
      var rest := work - {first};
      while rest != {}
        invariant first in work && rest <= work
        invariant forall w :: w in work - rest ==> first.backup <= w.backup
        decreases rest
      {
        var w :| w in rest;
        if w.backup < first.backup {
          first := w;
        }
        rest := rest - {w};
      }
    }

    // Deletes what no longer describes anything: results out of scope, then their alerts.
    method CleanUp()
      modifies this`results, this`alerts
      ensures View() == Cleaned(old(View()))
    {
      results := map p | p in results && PairInScope(View(), p) :: results[p];
      alerts := set p | p in alerts && FailsCritically(View(), p);
    }

    // Writes the results and alerts of some items. The text of a backup is opened once for consecutive
    // items that share it.
    method EvaluateItems(engine: Engine, items: seq<Work>)
      requires Valid() && Distinct(View(), items)
      modifies this`results, this`alerts
      ensures View() == EvaluatedAll(engine, old(View()), items)
    {
      ghost var before := View();
      var cachedId, content := 0, None;
      for i := 0 to |items|
        invariant cachedId != 0 ==> cachedId in backups && content == backups[cachedId].content
        invariant Distinct(before, items[..i]) && View() == EvaluatedAll(engine, before, items[..i])
      {
        var item := items[i];
        assert items[..i + 1][..i] == items[..i];
        if item.backup != cachedId {
          cachedId := item.backup;
          content := backups[item.backup].content;
        }
        var passed := Verdict(engine, rules[item.ruleId], content);
        var p := (item.switchId, item.ruleId);
        results := results[p := Result(item.backup, rules[item.ruleId].version, passed)];
        if rules[item.ruleId].severity == Critical && !passed {
          alerts := alerts + {p};
        } else if rules[item.ruleId].severity == Critical {
          alerts := alerts - {p};
        }
      }
      assert items[..|items|] == items;
    }

    // One failure-free pass.
    method EvaluateCompliance(engine: Engine) returns (items: seq<Work>)
      requires Valid()
      modifies this`results, this`alerts
      ensures Allowed(old(View()), Pass(items)) && View() == After(engine, old(View()), Pass(items))
      ensures forall i, j :: 0 <= i < j < |items| ==> items[i].backup <= items[j].backup
    {
      hide AllWork, UpToDate, EvaluatedAll;
      CleaningKeepsPending(View());
      CleanUp();
      items := SelectPending();
      PendingIsDistinct(View(), items);
      EvaluateItems(engine, items);
    }
  }

  lemma PendingIsDistinct(t: Tables, items: seq<Work>)
    requires forall w :: w in items ==> w in Pending(t)
    requires forall i, j :: 0 <= i < j < |items| ==> items[i] != items[j]
    ensures Distinct(t, items)
  {
    forall i, j | 0 <= i < j < |items| ensures PairOf(items[i]) != PairOf(items[j]) {
      if PairOf(items[i]) == PairOf(items[j]) {
        assert items[i] in items && items[j] in items;
        OneWorkPerPair(t, items[i], items[j]);
      }
    }
  }

  // Deleting results of pairs out of scope leaves the pending work as it is.
  lemma CleaningKeepsPending(t: Tables)
    ensures AllWork(Cleaned(t)) == AllWork(t)
    ensures Pending(Cleaned(t)) == Pending(t)
  {
    hide IsLatest;
    assert forall w :: w in AllWork(t) ==> UpToDate(t, w) == UpToDate(Cleaned(t), w);
  }

  // A pair has one item of work at most.
  lemma OneWorkPerPair(t: Tables, w: Work, v: Work)
    requires w in AllWork(t) && v in AllWork(t) && PairOf(w) == PairOf(v)
    ensures w == v
  {
  }

  // ---------- What a pass leaves ----------

  ghost predicate IsDone(items: seq<Work>, p: Pair) {
    exists w :: w in items && PairOf(w) == p
  }

  // Evaluation writes the pairs of its items and no others.
  lemma {:induction false} EvaluatedOthers(engine: Engine, t: Tables, items: seq<Work>, p: Pair)
    requires Distinct(t, items) && !IsDone(items, p)
    ensures var t' := EvaluatedAll(engine, t, items);
            && (p in t'.results <==> p in t.results) && (p in t.results ==> t'.results[p] == t.results[p])
            && (p in t'.alerts <==> p in t.alerts)
    decreases |items|
  {
    if |items| > 0 {
      var rest, w := items[..|items| - 1], items[|items| - 1];
      assert w in items && forall v :: v in rest ==> v in items;
      EvaluatedOthers(engine, t, rest, p);
    }
  }

  lemma {:induction false} EvaluatedItem(engine: Engine, t: Tables, items: seq<Work>, w: Work)
    requires Distinct(t, items) && w in items
    ensures var t', p := EvaluatedAll(engine, t, items), PairOf(w);
            && p in t'.results && t'.results[p] == ResultFor(engine, t, w)
            && (t.rules[w.ruleId].severity == Critical ==> (p in t'.alerts <==> !t'.results[p].passed))
            && (t.rules[w.ruleId].severity != Critical ==> (p in t'.alerts <==> p in t.alerts))
    decreases |items|
  {
    var rest, last := items[..|items| - 1], items[|items| - 1];
    assert Distinct(t, rest) by {
      assert forall v :: v in rest ==> v in items;
    }
    if w == last {
      assert !IsDone(rest, PairOf(w));
      EvaluatedOthers(engine, t, rest, PairOf(w));
    } else {
      assert w in rest;
      EvaluatedItem(engine, t, rest, w);
      var i :| 0 <= i < |rest| && rest[i] == w;
      assert PairOf(items[i]) != PairOf(last);
    }
  }

  // The exact outcome of a pass for one pair: in-scope results are kept or rewritten, and a violation
  // alert is active exactly for a failing critical result that was evaluated now or had one before.
  lemma PassMeans(engine: Engine, t: Tables, items: seq<Work>, p: Pair)
    requires Distinct(t, items) && forall w :: w in items ==> w in AllWork(t)
    ensures Distinct(Cleaned(t), items)
    ensures var t' := EvaluatedAll(engine, Cleaned(t), items);
            && (p in t'.results <==> IsDone(items, p) || (p in t.results && PairInScope(t, p)))
            && (forall w :: w in items && PairOf(w) == p ==> t'.results[p] == ResultFor(engine, t, w))
            && (p in t'.results && !IsDone(items, p) ==> t'.results[p] == t.results[p])
            && (p in t'.alerts <==> FailsCritically(t', p) && (IsDone(items, p) || p in t.alerts))
  {
    var c := Cleaned(t);
    assert Distinct(c, items);
    hide AllWork, Verdict, EvaluatedAll;
    if w :| w in items && PairOf(w) == p {
      EvaluatedItem(engine, c, items, w);
      forall v | v in items && PairOf(v) == p ensures v == w {
      }
    } else {
      EvaluatedOthers(engine, c, items, p);
    }
  }

  // ---------- Against evaluation from scratch ----------

  // The results an evaluation of everything would give.
  ghost predicate ResultsAreFromScratch(engine: Engine, t: Tables) {
    && (forall p :: p in t.results <==> exists w :: w in AllWork(t) && PairOf(w) == p)
    && (forall w :: w in AllWork(t) ==> PairOf(w) in t.results && t.results[PairOf(w)] == ResultFor(engine, t, w))
  }

  // The active alerts an evaluation of everything would give: one for each failing pair of a critical rule.
  ghost predicate AlertsAreFromScratch(engine: Engine, t: Tables) {
    forall p :: p in t.alerts <==>
      exists w :: && w in AllWork(t) && PairOf(w) == p && t.rules[w.ruleId].severity == Critical
                  && !ResultFor(engine, t, w).passed
  }

  // What holds between passes: a result of the current rule version records that rule's verdict on its
  // backup, and its alert is active exactly if it fails critically.
  ghost predicate RecordsHold(engine: Engine, t: Tables) {
    forall p :: p in t.results ==>
      && p.0 in t.switches && p.1 in t.rules && t.results[p].ruleVersion <= t.rules[p.1].version
      && t.results[p].backup in t.backups && t.backups[t.results[p].backup].switchId == p.0
      && (t.results[p].ruleVersion == t.rules[p.1].version ==>
            && t.results[p].passed == Verdict(engine, t.rules[p.1], t.backups[t.results[p].backup].content)
            && (p in t.alerts <==> FailsCritically(t, p)))
  }

  datatype Event =
    | Pass(items: seq<Work>)
    | EditRule(ruleId: RuleId, rule: Rule)
    | EditSwitch(switchId: SwitchId, switch: Switch)
    | AddBackup(id: BackupId, backup: Backup)

  // A pass takes pending work; an edit of a rule bumps its version; a backup is new and of a known switch.
  ghost predicate Allowed(t: Tables, e: Event) {
    match e
    case Pass(items) =>
      && (forall w :: w in items ==> w in Pending(t))
      && (forall i, j :: 0 <= i < j < |items| ==> items[i] != items[j])
      && |items| == if |Pending(t)| < PASS_LIMIT then |Pending(t)| else PASS_LIMIT
    case EditRule(r, rule) => rule.version == if r in t.rules then t.rules[r].version + 1 else 1
    case EditSwitch(_, _) => true
    case AddBackup(id, backup) => id !in t.backups && backup.switchId in t.switches
  }

  ghost function After(engine: Engine, t: Tables, e: Event): Tables
    requires Allowed(t, e)
  {
    match e
    case Pass(items) =>
      CleaningKeepsPending(t);
      PendingIsDistinct(Cleaned(t), items);
      EvaluatedAll(engine, Cleaned(t), items)
    case EditRule(r, rule) => t.(rules := t.rules[r := rule])
    case EditSwitch(s, switch) => t.(switches := t.switches[s := switch])
    case AddBackup(id, backup) => t.(backups := t.backups[id := backup])
  }

  lemma PassKeepsRecords(engine: Engine, t: Tables, items: seq<Work>)
    requires RecordsHold(engine, t) && Allowed(t, Pass(items))
    ensures RecordsHold(engine, After(engine, t, Pass(items)))
  {
    PendingIsDistinct(t, items);
    var t' := After(engine, t, Pass(items));
    forall p | p in t'.results
      ensures && p.0 in t.switches && p.1 in t.rules && t'.results[p].ruleVersion <= t.rules[p.1].version
              && t'.results[p].backup in t.backups && t.backups[t'.results[p].backup].switchId == p.0
      ensures t'.results[p].ruleVersion == t.rules[p.1].version ==>
                && t'.results[p].passed == Verdict(engine, t.rules[p.1], t.backups[t'.results[p].backup].content)
                && (p in t'.alerts <==> FailsCritically(t', p))
    {
      PassMeans(engine, t, items, p);
      hide EvaluatedAll, Cleaned, IsLatest, Verdict;
      if w :| w in items && PairOf(w) == p {
        assert w in AllWork(t);
      }
    }
  }

  lemma EventKeepsRecords(engine: Engine, t: Tables, e: Event)
    requires RecordsHold(engine, t) && Allowed(t, e)
    ensures RecordsHold(engine, After(engine, t, e))
  {
    if e.Pass? {
      PassKeepsRecords(engine, t, e.items);
    }
  }

  // After a pass exactly the old up-to-date work and the items taken are up to date.
  lemma PassUpdates(engine: Engine, t: Tables, items: seq<Work>, w: Work)
    requires Allowed(t, Pass(items)) && w in AllWork(t)
    ensures UpToDate(After(engine, t, Pass(items)), w) <==> UpToDate(t, w) || w in items
  {
    PendingIsDistinct(t, items);
    PassMeans(engine, t, items, PairOf(w));
    hide EvaluatedAll, Cleaned, IsLatest, Verdict;
    if v :| v in items && PairOf(v) == PairOf(w) {
      OneWorkPerPair(t, v, w);
    }
  }

  lemma PassKeepsWork(engine: Engine, t: Tables, items: seq<Work>)
    requires Allowed(t, Pass(items))
    ensures AllWork(After(engine, t, Pass(items))) == AllWork(t)
  {
    hide IsLatest, InScope;
  }

  // Each pass takes min(5000, pending) items off the pending work.
  lemma PassProgress(engine: Engine, t: Tables, items: seq<Work>)
    requires Allowed(t, Pass(items))
    ensures Pending(After(engine, t, Pass(items))) == Pending(t) - WorkIn(items)
    ensures |Pending(After(engine, t, Pass(items)))| == if |Pending(t)| < 5000 then 0 else |Pending(t)| - 5000
  {
    PassKeepsWork(engine, t, items);
    forall w | w in AllWork(t) ensures UpToDate(After(engine, t, Pass(items)), w) <==> UpToDate(t, w) || w in items {
      PassUpdates(engine, t, items, w);
    }
    hide AllWork, UpToDate, After;
    SizeOfItems(items);
    assert WorkIn(items) <= Pending(t);
  }

  lemma {:induction false} SizeOfItems(items: seq<Work>)
    requires forall i, j :: 0 <= i < j < |items| ==> items[i] != items[j]
    ensures |WorkIn(items)| == |items|
  {
    if |items| == 0 {
      assert WorkIn(items) == {};
    } else {
      var rest, w := items[..|items| - 1], items[|items| - 1];
      SizeOfItems(rest);
      assert WorkIn(items) == WorkIn(rest) + {w};
    }
  }

  lemma CaughtUpResults(engine: Engine, t: Tables, items: seq<Work>)
    requires RecordsHold(engine, t) && Allowed(t, Pass(items))
    requires Pending(After(engine, t, Pass(items))) == {}
    ensures AllWork(After(engine, t, Pass(items))) == AllWork(t)
    ensures ResultsAreFromScratch(engine, After(engine, t, Pass(items)))
  {
    PendingIsDistinct(t, items);
    PassKeepsRecords(engine, t, items);
    var t' := After(engine, t, Pass(items));
    PassKeepsWork(engine, t, items);
    hide AllWork, IsLatest, UpToDate, Verdict, InScope;
    forall p | p in t'.results ensures exists w :: w in AllWork(t') && PairOf(w) == p {
      PassMeans(engine, t, items, p);
      ResultHasWork(t', p);
    }
    forall w | w in AllWork(t')
      ensures PairOf(w) in t'.results && t'.results[PairOf(w)] == ResultFor(engine, t', w)
    {
      assert w !in Pending(t');
      UpToDateMeans(engine, t', w);
    }
  }

  lemma UpToDateMeans(engine: Engine, t: Tables, w: Work)
    requires RecordsHold(engine, t) && w in AllWork(t) && UpToDate(t, w)
    ensures PairOf(w) in t.results && t.results[PairOf(w)] == ResultFor(engine, t, w)
  {
  }

  // A result in scope whose backup exists belongs to some work.
  lemma ResultHasWork(t: Tables, p: Pair)
    requires p in t.results && PairInScope(t, p)
    requires t.results[p].backup in t.backups && t.backups[t.results[p].backup].switchId == p.0
    ensures exists w :: w in AllWork(t) && PairOf(w) == p
  {
    HasLatest(t, p.0, t.results[p].backup);
    var l :| IsLatest(t.backups, p.0, l);
    assert Work(p.0, p.1, l) in AllWork(t);
    assert PairOf(Work(p.0, p.1, l)) == p;
  }

  // When a pass leaves nothing pending, results and alerts are those of an evaluation from scratch.
  lemma CaughtUpMeansFromScratch(engine: Engine, t: Tables, items: seq<Work>)
    requires RecordsHold(engine, t) && Allowed(t, Pass(items))
    requires Pending(After(engine, t, Pass(items))) == {}
    ensures ResultsAreFromScratch(engine, After(engine, t, Pass(items)))
    ensures AlertsAreFromScratch(engine, After(engine, t, Pass(items)))
  {
    CaughtUpResults(engine, t, items);
    PassKeepsRecords(engine, t, items);
    PendingIsDistinct(t, items);
    var t' := After(engine, t, Pass(items));
    forall p | p in t'.alerts ensures FailsCritically(t', p) {
      PassMeans(engine, t, items, p);
    }
    hide After, EvaluatedAll, Verdict, IsLatest, AllWork, Allowed, Pending;
    forall p
      ensures p in t'.alerts <==> exists w :: && w in AllWork(t') && PairOf(w) == p && t'.rules[w.ruleId].severity == Critical
                                              && !ResultFor(engine, t', w).passed
    {
    }
  }

  lemma {:induction false} LatestOf(backups: map<BackupId, Backup>, ids: set<BackupId>, b: BackupId) returns (best: BackupId)
    requires b in ids && forall o :: o in ids ==> o in backups
    ensures best in ids
    ensures forall o :: o in ids ==>
              backups[o].capturedAt < backups[best].capturedAt || (backups[o].capturedAt == backups[best].capturedAt && o <= best)
    decreases |ids|
  {
    best := b;
    if o :| o in ids && o != b {
      var rest := LatestOf(backups, ids - {b}, o);
      if backups[b].capturedAt < backups[rest].capturedAt || (backups[b].capturedAt == backups[rest].capturedAt && b <= rest) {
        best := rest;
      }
    }
  }

  // What a pass leaves that stops after it wrote the result of an item and before its alert.
  function Interrupted(engine: Engine, t: Tables, w: Work): Tables
    requires w.ruleId in t.rules && w.backup in t.backups
  {
    t.(results := t.results[PairOf(w) := ResultFor(engine, t, w)])
  }

  lemma InterruptedWork(engine: Engine, t: Tables, w: Work)
    requires w.ruleId in t.rules && w.backup in t.backups
    ensures AllWork(Interrupted(engine, t, w)) == AllWork(t)
  {
  }

  // A pass raises no alert for a result that is up to date.
  lemma MissingAlertStays(engine: Engine, t: Tables, items: seq<Work>, w: Work)
    requires Allowed(t, Pass(items)) && w in AllWork(t) && UpToDate(t, w)
    requires FailsCritically(t, PairOf(w)) && PairOf(w) !in t.alerts
    ensures var t' := After(engine, t, Pass(items)); FailsCritically(t', PairOf(w)) && PairOf(w) !in t'.alerts
  {
    PendingIsDistinct(t, items);
    var p := PairOf(w);
    PassMeans(engine, t, items, p);
    forall v | v in items ensures PairOf(v) != p {
      if PairOf(v) == p {
        OneWorkPerPair(t, v, w);
      }
    }
  }

  // A switch with a backup has a latest one.
  lemma HasLatest(t: Tables, s: SwitchId, b: BackupId)
    requires b in t.backups && t.backups[b].switchId == s
    ensures exists l :: IsLatest(t.backups, s, l)
  {
    var best := LatestOf(t.backups, (set o | o in t.backups && t.backups[o].switchId == s), b);
    assert IsLatest(t.backups, s, best);
  }

  // A history of passes and edits from empty tables.
  datatype History = History(tables: seq<Tables>, events: seq<Event>) {
    ghost predicate Valid(engine: Engine) {
      Steps(engine) && tables[0] == Tables(map[], map[], map[], map[], {})
    }

    // The tables follow from each other, whatever they start from.
    ghost predicate Steps(engine: Engine) {
      && |tables| == |events| + 1
      && forall i :: 0 <= i < |events| ==> Allowed(tables[i], events[i]) && tables[i + 1] == After(engine, tables[i], events[i])
    }
  }

  lemma {:induction false} HistoryHolds(engine: Engine, h: History, i: nat)
    requires h.Valid(engine) && i < |h.tables|
    ensures RecordsHold(engine, h.tables[i])
  {
    if i > 0 {
      HistoryHolds(engine, h, i - 1);
      hide RecordsHold, Allowed, After;
      EventKeepsRecords(engine, h.tables[i - 1], h.events[i - 1]);
    }
  }

  // Across any history of edits and new backups, a pass that leaves nothing pending leaves exactly the
  // results and alerts of an evaluation from scratch.
  lemma IncrementalEqualsFromScratch(engine: Engine, h: History, i: nat)
    requires h.Valid(engine) && i < |h.events| && h.events[i].Pass?
    requires Pending(h.tables[i + 1]) == {}
    ensures ResultsAreFromScratch(engine, h.tables[i + 1]) && AlertsAreFromScratch(engine, h.tables[i + 1])
  {
    HistoryHolds(engine, h, i);
    hide RecordsHold, Allowed, After, ResultsAreFromScratch, AlertsAreFromScratch, Pending;
    CaughtUpMeansFromScratch(engine, h.tables[i], h.events[i].items);
  }

  // ---------- What the tables say when nothing is pending ----------

  // The rule applies to the switch, and the switch has a backup.
  ghost predicate Evaluable(t: Tables, s: SwitchId, r: RuleId) {
    && s in t.switches && r in t.rules && t.switches[s].enabled && t.rules[r].enabled
    && (t.rules[r].vendor == None || t.rules[r].vendor == Some(t.switches[s].vendor))
    && (t.rules[r].group == None || t.rules[r].group == t.switches[s].group)
    && exists b :: b in t.backups && t.backups[b].switchId == s
  }

  // No backup of the switch was captured after this one; between equal times it has the largest identifier.
  ghost predicate IsNewest(t: Tables, s: SwitchId, b: BackupId) {
    && b in t.backups && t.backups[b].switchId == s
    && forall o :: o in t.backups && t.backups[o].switchId == s && o != b ==>
         t.backups[o].capturedAt < t.backups[b].capturedAt || (t.backups[o].capturedAt == t.backups[b].capturedAt && o < b)
  }

  // The content could be opened, the pattern can be used, and it is found exactly if it must be.
  ghost predicate Satisfies(engine: Engine, mode: Mode, pattern: string, content: Option<string>) {
    && content.Some? && !engine(pattern, content.value).Uncompilable?
    && (mode == MustContain ==> engine(pattern, content.value).FirstMatch?)
    && (mode == MustNotContain ==> engine(pattern, content.value).NoMatch?)
  }

  lemma VerdictMeans(engine: Engine, ru: Rule, content: Option<string>)
    ensures Verdict(engine, ru, content) <==> Satisfies(engine, ru.mode, ru.pattern, content)
  {
  }

  lemma WorkMeans(t: Tables, s: SwitchId, r: RuleId)
    ensures Evaluable(t, s, r) <==> exists w :: w in AllWork(t) && PairOf(w) == (s, r)
    ensures forall w :: w in AllWork(t) && PairOf(w) == (s, r) ==> IsNewest(t, s, w.backup)
  {
    if Evaluable(t, s, r) {
      var b :| b in t.backups && t.backups[b].switchId == s;
      HasLatest(t, s, b);
      var l :| IsLatest(t.backups, s, l);
      assert PairInScope(t, (s, r));
      assert Work(s, r, l) in AllWork(t) && PairOf(Work(s, r, l)) == (s, r);
    }
    forall w | w in AllWork(t) && PairOf(w) == (s, r) ensures IsNewest(t, s, w.backup) && Evaluable(t, s, r) {
      assert IsLatest(t.backups, s, w.backup) && PairInScope(t, (s, r));
    }
  }

  lemma FromScratchMeans(engine: Engine, t: Tables, s: SwitchId, r: RuleId)
    requires ResultsAreFromScratch(engine, t) && AlertsAreFromScratch(engine, t)
    ensures (s, r) in t.results <==> Evaluable(t, s, r)
    ensures (s, r) in t.results ==>
              var result, ru := t.results[(s, r)], t.rules[r];
              && IsNewest(t, s, result.backup) && result.ruleVersion == ru.version
              && (result.passed <==> Satisfies(engine, ru.mode, ru.pattern, t.backups[result.backup].content))
    ensures (s, r) in t.alerts <==> (s, r) in t.results && t.rules[r].severity == Critical && !t.results[(s, r)].passed
  {
    WorkMeans(t, s, r);
    if (s, r) in t.results || (s, r) in t.alerts {
      var w :| w in AllWork(t) && PairOf(w) == (s, r);
      VerdictMeans(engine, t.rules[r], t.backups[w.backup].content);
      hide Verdict, Satisfies, IsNewest, Evaluable, IsLatest;
      forall v | v in AllWork(t) && PairOf(v) == (s, r) ensures v == w {
        OneWorkPerPair(t, v, w);
      }
    }
  }

  // Across any history, when a pass leaves nothing pending there is a result exactly for each switch and rule
  // that applies to it and has a backup; it passed exactly if its newest backup satisfies the rule, and there
  // is an active alert exactly if a critical rule is not satisfied.
  lemma CaughtUpTables(engine: Engine, h: History, i: nat, s: SwitchId, r: RuleId)
    requires h.Valid(engine) && i < |h.events| && h.events[i].Pass? && Pending(h.tables[i + 1]) == {}
    ensures var t := h.tables[i + 1];
            && ((s, r) in t.results <==> Evaluable(t, s, r))
            && ((s, r) in t.results ==>
                  var result, ru := t.results[(s, r)], t.rules[r];
                  && IsNewest(t, s, result.backup) && result.ruleVersion == ru.version
                  && (result.passed <==> Satisfies(engine, ru.mode, ru.pattern, t.backups[result.backup].content)))
            && ((s, r) in t.alerts <==>
                  && Evaluable(t, s, r) && t.rules[r].severity == Critical
                  && !Satisfies(engine, t.rules[r].mode, t.rules[r].pattern, t.backups[t.results[(s, r)].backup].content))
  {
    hide ResultsAreFromScratch, AlertsAreFromScratch, Pending, Evaluable, IsNewest, Satisfies;
    IncrementalEqualsFromScratch(engine, h, i);
    FromScratchMeans(engine, h.tables[i + 1], s, r);
  }

  // ---------- A lost alert ----------

  // An event that changes the rule or the switch of a pair, or the latest backup of the switch.
  predicate Concerns(e: Event, w: Work) {
    match e
    case Pass(_) => false
    case EditRule(ruleId, _) => ruleId == w.ruleId
    case EditSwitch(switchId, _) => switchId == w.switchId
    case AddBackup(_, backup) => backup.switchId == w.switchId
  }

  // The pair has an up-to-date failing critical result and no alert.
  ghost predicate AlertLost(t: Tables, w: Work) {
    w in AllWork(t) && UpToDate(t, w) && FailsCritically(t, PairOf(w)) && PairOf(w) !in t.alerts
  }

  lemma PassKeepsLost(engine: Engine, t: Tables, items: seq<Work>, w: Work)
    requires Allowed(t, Pass(items)) && AlertLost(t, w)
    ensures AlertLost(After(engine, t, Pass(items)), w)
  {
    MissingAlertStays(engine, t, items, w);
    PassKeepsWork(engine, t, items);
    PassUpdates(engine, t, items, w);
    hide AllWork, UpToDate, FailsCritically, After, Allowed;
  }

  lemma EditKeepsLost(engine: Engine, t: Tables, e: Event, w: Work)
    requires Allowed(t, e) && AlertLost(t, w) && !e.Pass? && !Concerns(e, w)
    ensures AlertLost(After(engine, t, e), w)
  {
  }

  // A pass that stops between writing a failing critical result and its alert loses the alert: no pass
  // raises it until the rule, the switch or its latest backup changes, while an undisturbed write would have.
  lemma {:induction false} LostAlertStaysLost(engine: Engine, t: Tables, w: Work, h: History, i: nat)
    requires w in Pending(t) && w.ruleId in t.rules && w.backup in t.backups && PairOf(w) !in t.alerts
    requires t.rules[w.ruleId].severity == Critical && !ResultFor(engine, t, w).passed
    requires h.Steps(engine) && h.tables[0] == Interrupted(engine, t, w) && i < |h.tables|
    requires forall k :: 0 <= k < i ==> !Concerns(h.events[k], w)
    ensures AlertLost(h.tables[i], w)
    ensures PairOf(w) in Evaluated(engine, t, w).alerts
  {
    if i == 0 {
      InterruptedWork(engine, t, w);
    } else {
      LostAlertStaysLost(engine, t, w, h, i - 1);
      hide AlertLost, Allowed, After, Evaluated, Pending;
      var before, e := h.tables[i - 1], h.events[i - 1];
      assert Allowed(before, e) && h.tables[i] == After(engine, before, e) && !Concerns(e, w);
      if e.Pass? {
        PassKeepsLost(engine, before, e.items, w);
      } else {
        EditKeepsLost(engine, before, e, w);
      }
    }
  }
}
