/**
 Versioned edits with an audit record: an edit names the version it was made from,
 writes only the columns it changes, bumps the version and records the change, all
 in one transaction. Replaying the record reproduces every column that is not secret.
 */
module AssetEdits {
  import opened Wrappers

  type ObjectId = string
  type Column = string

  // A parsed JSON text, by its canonical form.
  datatype Json = Json(canonical: string)

  datatype Value = Null | Flag(on: bool) | Number(n: int) | Text(text: string) | Parsed(json: Json)

  // An editable column. Secret values never enter the audit record.
  datatype Field = Field(column: Column, json: bool, secret: bool)

  datatype Change = FromTo(from: Value, to: Value) | Cleared | Replaced

  datatype Row = Row(version: nat, columns: map<Column, Value>)

  datatype Event = Event(id: ObjectId, changes: map<Column, Change>)

  // How a JSON text parses, if it does.
  type Parser = string -> Option<Json>

  // Normalises stored and requested values so that formatting differences are not changes.
  function AuditValue(parse: Parser, v: Value, isJson: bool): Value {
    if isJson && v.Text? && parse(v.text).Some? then Parsed(parse(v.text).value) else v
  }

  // What an edit does to one column, if anything.
  function ChangeOf(parse: Parser, f: Field, stored: Value, next: map<Column, Value>): Option<Change> {
    if f.column !in next then None
    else
      var value := next[f.column];
      if f.secret && value == Null && stored == Null then None
      else if f.secret && value == Null then Some(Cleared)
      else if f.secret then Some(Replaced)
      else
        var from, to := AuditValue(parse, stored, f.json), AuditValue(parse, value, f.json);
        if from == to then None else Some(FromTo(from, to))
  }

  predicate WellFormed(fields: seq<Field>) {
    forall i, j :: 0 <= i < j < |fields| ==> fields[i].column != fields[j].column
  }

  predicate HasColumns(fields: seq<Field>, row: Row) {
    forall i :: 0 <= i < |fields| ==> fields[i].column in row.columns
  }

  // The recorded changes of an edit, column by column.
  ghost predicate AreChanges(parse: Parser, fields: seq<Field>, row: Row, next: map<Column, Value>, changes: map<Column, Change>)
    requires HasColumns(fields, row)
  {
    && (forall c :: c in changes ==> exists i :: 0 <= i < |fields| && fields[i].column == c)
    && (forall i :: 0 <= i < |fields| ==>
          var change := ChangeOf(parse, fields[i], row.columns[fields[i].column], next);
          (fields[i].column in changes <==> change.Some?)
          && (change.Some? ==> changes[fields[i].column] == change.value))
  }

  function Updated(row: Row, next: map<Column, Value>, changes: map<Column, Change>): Row {
    Row(row.version + 1, map c | c in row.columns :: if c in changes && c in next then next[c] else row.columns[c])
  }

  datatype Outcome = NotFound | Stale | Rejected | Unchanged(version: nat) | Committed(version: nat)

  class AssetTable {
    const fields: seq<Field>
    var rows: map<ObjectId, Row>
    var events: seq<Event>

    ghost predicate Valid()
      reads this
    {
      WellFormed(fields) && forall id :: id in rows ==> HasColumns(fields, rows[id])
    }

    constructor (fields: seq<Field>, rows: map<ObjectId, Row>)
      requires WellFormed(fields) && forall id :: id in rows ==> HasColumns(fields, rows[id])
      ensures Valid() && this.fields == fields && this.rows == rows && events == []
    {
      this.fields, this.rows, this.events := fields, rows, [];
    }

    // Compares the requested columns with the stored ones, field by field.
    method CollectChanges(parse: Parser, row: Row, next: map<Column, Value>) returns (set_: seq<Column>, changes: map<Column, Change>)
      requires WellFormed(fields) && HasColumns(fields, row)
      ensures AreChanges(parse, fields, row, next, changes)
      ensures forall c :: c in changes <==> c in set_
      ensures forall c :: c in set_ ==> c in next
    {
      set_, changes := [], map[];
      for i := 0 to |fields|
        invariant forall c :: c in changes ==> exists j :: 0 <= j < i && fields[j].column == c
        invariant forall j :: 0 <= j < i ==>
                    var change := ChangeOf(parse, fields[j], row.columns[fields[j].column], next);
                    (fields[j].column in changes <==> change.Some?)
                    && (change.Some? ==> changes[fields[j].column] == change.value)
        invariant forall c :: c in changes <==> c in set_
        invariant forall c :: c in set_ ==> c in next
      {
        var f := fields[i];
        if f.column !in next {
          continue;
        }
        var value, stored := next[f.column], row.columns[f.column];
        if f.secret && value == Null && stored == Null {
          continue;
        }
        if f.secret && value == Null {
          changes := changes[f.column := Cleared];
        } else if f.secret {
          changes := changes[f.column := Replaced];
        } else {
          var from, to := AuditValue(parse, stored, f.json), AuditValue(parse, value, f.json);
          if from == to {
            continue;
          }
          changes := changes[f.column := FromTo(from, to)];
        }
        set_ := set_ + [f.column];
      }
    }

    // One edit. rejected stands for a constraint of the table or a failing follow-up, which undo it.
    method UpdateAudited(parse: Parser, id: ObjectId, version: nat, next: map<Column, Value>, rejected: bool) returns (r: Outcome)
      requires Valid()
      modifies this`rows, this`events
      ensures Valid()
      ensures r == NotFound <==> id !in old(rows)
      ensures r == Stale <==> id in old(rows) && old(rows)[id].version != version
      ensures r.Unchanged? <==> MayEdit(old(rows), id, version) && AreChanges(parse, fields, old(rows)[id], next, map[])
      ensures r == Rejected <==>
              MayEdit(old(rows), id, version) && !AreChanges(parse, fields, old(rows)[id], next, map[]) && rejected
      ensures r.Committed? <==>
              MayEdit(old(rows), id, version) && !AreChanges(parse, fields, old(rows)[id], next, map[]) && !rejected
      ensures Edit(parse, fields, old(rows), old(events), id, version, next, rows, events, r)
      ensures r.Committed? ==>
                && |events| == |old(events)| + 1 && events[..|old(events)|] == old(events) && events[|old(events)|].id == id
                && rows.Keys == old(rows.Keys) && rows[id].version == version + 1 && r.version == version + 1
                && (forall other :: other in old(rows) && other != id ==> rows[other] == old(rows)[other])
                && forall f :: 0 <= f < |fields| ==>
                     Recorded(parse, fields[f], old(rows)[id], next, events[|old(events)|].changes, rows[id])
      ensures !r.Committed? ==> rows == old(rows) && events == old(events)
    {
      if id !in rows {
        return NotFound;
      }
      var row := rows[id];
      if row.version != version {
        return Stale;
      }
      var columns, changes := CollectChanges(parse, row, next);
      if |columns| == 0 {
        assert changes == map[];
        return Unchanged(row.version);
      }
      assert columns[0] in changes;
      assert !AreChanges(parse, fields, row, next, map[]);
      forall f | 0 <= f < |fields| ensures Recorded(parse, fields[f], row, next, changes, Updated(row, next, changes)) {
        ChangesRecorded(parse, fields, row, next, changes, f);
      }
      hide Recorded;
      if rejected {
        return Rejected;
      }
      rows := rows[id := Updated(row, next, changes)];
      events := events + [Event(id, changes)];
      return Committed(row.version + 1);
    }
  }

  predicate MayEdit(rows: map<ObjectId, Row>, id: ObjectId, version: nat) {
    id in rows && rows[id].version == version
  }

  // An edit either changes nothing, or writes one row and one event that records every changed column.
  ghost predicate Edit(parse: Parser, fields: seq<Field>, rows: map<ObjectId, Row>, events: seq<Event>, id: ObjectId,
                       version: nat, next: map<Column, Value>, rows': map<ObjectId, Row>, events': seq<Event>, r: Outcome)
    requires forall id :: id in rows ==> HasColumns(fields, rows[id])
  {
    if r.Committed? then
      && id in rows && rows[id].version == version && r.version == version + 1 && |events'| == |events| + 1
      && var e := events'[|events|];
         && events' == events + [e] && e.id == id && e.changes != map[]
         && AreChanges(parse, fields, rows[id], next, e.changes)
         && rows' == rows[id := Updated(rows[id], next, e.changes)]
    else
      && rows' == rows && events' == events
      && (r.Unchanged? ==>
            id in rows && rows[id].version == version == r.version && AreChanges(parse, fields, rows[id], next, map[]))
  }

  // ---------- Whole runs ----------

  datatype Request = Request(id: ObjectId, version: nat, next: map<Column, Value>, outcome: Outcome)

  datatype Tables = Tables(rows: map<ObjectId, Row>, events: seq<Event>)

  // Edits one after another, as the row locks serialise them, from a table without events.
  datatype Run = Run(tables: seq<Tables>, requests: seq<Request>) {
    ghost predicate Valid(parse: Parser, fields: seq<Field>) {
      && |tables| == |requests| + 1 && tables[0].events == []
      && (forall i, id :: 0 <= i < |tables| && id in tables[i].rows ==> HasColumns(fields, tables[i].rows[id]))
      && (forall i :: 0 <= i < |requests| ==>
            Edit(parse, fields, tables[i].rows, tables[i].events, requests[i].id, requests[i].version, requests[i].next,
                 tables[i + 1].rows, tables[i + 1].events, requests[i].outcome))
    }
  }

  // The number of committed edits of an object.
  function EventCount(events: seq<Event>, id: ObjectId): nat {
    if |events| == 0 then 0
    else EventCount(events[..|events| - 1], id) + if events[|events| - 1].id == id then 1 else 0
  }

  // A version is the initial version plus the number of recorded edits.
  lemma {:induction false} VersionCountsEdits(parse: Parser, fields: seq<Field>, r: Run, n: nat, id: ObjectId)
    requires r.Valid(parse, fields) && n < |r.tables| && id in r.tables[0].rows
    ensures id in r.tables[n].rows
    ensures r.tables[n].rows[id].version == r.tables[0].rows[id].version + EventCount(r.tables[n].events, id)
  {
    if n > 0 {
      VersionCountsEdits(parse, fields, r, n - 1, id);
      var before, after, q := r.tables[n - 1], r.tables[n], r.requests[n - 1];
      assert Edit(parse, fields, before.rows, before.events, q.id, q.version, q.next, after.rows, after.events, q.outcome);
      hide AreChanges, HasColumns;
      if q.outcome.Committed? {
        assert after.events[..|before.events|] == before.events;
      }
    }
  }

  lemma {:induction false} VersionsGrow(parse: Parser, fields: seq<Field>, r: Run, i: nat, n: nat, id: ObjectId)
    requires r.Valid(parse, fields) && i <= n < |r.tables| && id in r.tables[i].rows
    ensures id in r.tables[n].rows && r.tables[i].rows[id].version <= r.tables[n].rows[id].version
    decreases n - i
  {
    if i < n {
      VersionsGrow(parse, fields, r, i, n - 1, id);
      var before, after, q := r.tables[n - 1], r.tables[n], r.requests[n - 1];
      assert Edit(parse, fields, before.rows, before.events, q.id, q.version, q.next, after.rows, after.events, q.outcome);
      hide AreChanges, HasColumns;
    }
  }

  // A version determines the row: while an object keeps its version it keeps every column, which is what
  // a pinned version stands for.
  lemma {:induction false} VersionDeterminesRow(parse: Parser, fields: seq<Field>, r: Run, i: nat, n: nat, id: ObjectId)
    requires r.Valid(parse, fields) && i <= n < |r.tables| && id in r.tables[i].rows && id in r.tables[n].rows
    requires r.tables[i].rows[id].version == r.tables[n].rows[id].version
    ensures r.tables[i].rows[id] == r.tables[n].rows[id]
    decreases n - i
  {
    if i < n {
      VersionsGrow(parse, fields, r, i, n - 1, id);
      VersionsGrow(parse, fields, r, n - 1, n, id);
      var before, after, q := r.tables[n - 1], r.tables[n], r.requests[n - 1];
      assert Edit(parse, fields, before.rows, before.events, q.id, q.version, q.next, after.rows, after.events, q.outcome);
      hide AreChanges, HasColumns;
      VersionDeterminesRow(parse, fields, r, i, n - 1, id);
    }
  }

  // Two changing edits made from one version of an object cannot both commit.
  lemma OneCommitPerVersion(parse: Parser, fields: seq<Field>, r: Run, i: nat, k: nat)
    requires r.Valid(parse, fields) && i < k < |r.requests|
    requires r.requests[i].outcome.Committed? && r.requests[k].outcome.Committed? && r.requests[i].id == r.requests[k].id
    ensures r.requests[i].version < r.requests[k].version
  {
    hide AreChanges, HasColumns;
    var q, p := r.requests[i], r.requests[k];
    assert Edit(parse, fields, r.tables[i].rows, r.tables[i].events, q.id, q.version, q.next,
                r.tables[i + 1].rows, r.tables[i + 1].events, q.outcome);
    assert Edit(parse, fields, r.tables[k].rows, r.tables[k].events, p.id, p.version, p.next,
                r.tables[k + 1].rows, r.tables[k + 1].events, p.outcome);
    VersionsGrow(parse, fields, r, i + 1, k, q.id);
  }

  // The value of one column after replaying the recorded changes of an object, in order.
  function Replay(events: seq<Event>, id: ObjectId, c: Column, initial: Value): Value {
    if |events| == 0 then initial
    else
      var before, e := Replay(events[..|events| - 1], id, c, initial), events[|events| - 1];
      if e.id == id && c in e.changes && e.changes[c].FromTo? then e.changes[c].to else before
  }

  // The audit record reproduces every stored column that is not secret, up to formatting.
  lemma {:induction false} ReplayReproducesColumns(parse: Parser, fields: seq<Field>, r: Run, n: nat, id: ObjectId, f: nat)
    requires WellFormed(fields) && r.Valid(parse, fields) && n < |r.tables| && id in r.tables[0].rows
    requires f < |fields| && !fields[f].secret
    ensures id in r.tables[n].rows && fields[f].column in r.tables[n].rows[id].columns
    ensures fields[f].column in r.tables[0].rows[id].columns
    ensures AuditValue(parse, r.tables[n].rows[id].columns[fields[f].column], fields[f].json)
         == Replay(r.tables[n].events, id, fields[f].column,
                   AuditValue(parse, r.tables[0].rows[id].columns[fields[f].column], fields[f].json))
  {
    var c := fields[f].column;
    assert HasColumns(fields, r.tables[0].rows[id]);
    if n > 0 {
      ReplayReproducesColumns(parse, fields, r, n - 1, id, f);
      var before, after, q := r.tables[n - 1], r.tables[n], r.requests[n - 1];
      assert Edit(parse, fields, before.rows, before.events, q.id, q.version, q.next, after.rows, after.events, q.outcome);
      if q.outcome.Committed? {
        assert after.events[..|before.events|] == before.events;
        var e := after.events[|before.events|];
        EditedColumn(parse, fields, before.rows[q.id], q.next, e.changes, f);
      }
    }
  }

  // One committed edit leaves a column as its recorded change says.
  lemma EditedColumn(parse: Parser, fields: seq<Field>, row: Row, next: map<Column, Value>, changes: map<Column, Change>, f: nat)
    requires HasColumns(fields, row) && AreChanges(parse, fields, row, next, changes) && f < |fields| && !fields[f].secret
    ensures var c := fields[f].column;
            && c in Updated(row, next, changes).columns && c in row.columns
            && var value := AuditValue(parse, Updated(row, next, changes).columns[c], fields[f].json);
               if c in changes && changes[c].FromTo? then value == changes[c].to
               else value == AuditValue(parse, row.columns[c], fields[f].json)
  {
  }

  // ---------- What an edit records and stores ----------

  // What the record says about a secret column: never a value, only that it was cleared or replaced.
  ghost predicate SecretRecorded(stored: Value, next: map<Column, Value>, c: Column, changes: map<Column, Change>, after: Value) {
    && (c in changes ==> changes[c] == Cleared || changes[c] == Replaced)
    && (c in changes && changes[c] == Cleared <==> c in next && next[c] == Null && stored != Null)
    && (c in changes && changes[c] == Replaced <==> c in next && next[c] != Null)
    && (c !in changes <==> c !in next || (next[c] == Null && stored == Null))
    && after == if c in changes then next[c] else stored
  }

  // How the record shows a value: a text of a JSON column as what it parses to, anything else as it is.
  ghost predicate Shown(parse: Parser, isJson: bool, v: Value, shown: Value) {
    if isJson && v.Text? && parse(v.text).Some? then shown == Parsed(parse(v.text).value) else shown == v
  }

  // Two values that only differ in how the same JSON is written.
  ghost predicate SameUpToFormat(parse: Parser, isJson: bool, v: Value, w: Value) {
    v == w || (isJson && v.Text? && w.Text? && parse(v.text).Some? && parse(v.text) == parse(w.text))
  }

  // What the record says about any other column: it appears exactly if the requested value differs from the
  // stored one, with both as they are shown.
  ghost predicate PlainRecorded(parse: Parser, isJson: bool, stored: Value, next: map<Column, Value>, c: Column,
                                changes: map<Column, Change>, after: Value) {
    && (c in changes <==> c in next && !SameUpToFormat(parse, isJson, stored, next[c]))
    && (c in changes ==>
          && changes[c].FromTo? && c in next
          && Shown(parse, isJson, stored, changes[c].from) && Shown(parse, isJson, next[c], changes[c].to))
    && after == if c in changes then next[c] else stored
  }

  lemma ChangesRecorded(parse: Parser, fields: seq<Field>, row: Row, next: map<Column, Value>, changes: map<Column, Change>, f: nat)
    requires HasColumns(fields, row) && AreChanges(parse, fields, row, next, changes) && f < |fields|
    ensures Recorded(parse, fields[f], row, next, changes, Updated(row, next, changes))
  {
    assert fields[f].column in row.columns;
  }

  // What a committed edit records about one column and leaves in it. Parsed values only occur in records.
  ghost predicate Recorded(parse: Parser, field: Field, row: Row, next: map<Column, Value>, changes: map<Column, Change>, row': Row) {
    var c := field.column;
    && c in row.columns && c in row'.columns
    && (field.secret ==> SecretRecorded(row.columns[c], next, c, changes, row'.columns[c]))
    && (!field.secret && !row.columns[c].Parsed? && (c in next ==> !next[c].Parsed?) ==>
          PlainRecorded(parse, field.json, row.columns[c], next, c, changes, row'.columns[c]))
  }

  // Every committed edit of every run adds one event for its object, bumps the version by one and touches no
  // other object; a secret column's value never enters the record, and every other column is recorded exactly
  // if it changed, with its old and its new value.
  lemma CommittedEditRecords(parse: Parser, fields: seq<Field>, r: Run, i: nat, f: nat)
    requires r.Valid(parse, fields) && i < |r.requests| && r.requests[i].outcome.Committed? && f < |fields|
    ensures var before, after, q := r.tables[i], r.tables[i + 1], r.requests[i];
            && q.id in before.rows && q.id in after.rows && |after.events| == |before.events| + 1
            && after.events[..|before.events|] == before.events && after.events[|before.events|].id == q.id
            && after.rows[q.id].version == before.rows[q.id].version + 1 && q.version == before.rows[q.id].version
            && (forall id :: id in before.rows && id != q.id ==> id in after.rows && after.rows[id] == before.rows[id])
            && Recorded(parse, fields[f], before.rows[q.id], q.next, after.events[|before.events|].changes, after.rows[q.id])
  {
    var before, after, q := r.tables[i], r.tables[i + 1], r.requests[i];
    assert Edit(parse, fields, before.rows, before.events, q.id, q.version, q.next, after.rows, after.events, q.outcome);
    assert HasColumns(fields, before.rows[q.id]);
    var changes := after.events[|before.events|].changes;
    ChangesRecorded(parse, fields, before.rows[q.id], q.next, changes, f);
    hide AreChanges, HasColumns, Recorded;
  }

  // An edit that does not commit changes nothing and records nothing.
  lemma OtherEditsRecordNothing(parse: Parser, fields: seq<Field>, r: Run, i: nat)
    requires r.Valid(parse, fields) && i < |r.requests| && !r.requests[i].outcome.Committed?
    ensures r.tables[i + 1] == r.tables[i]
  {
    var before, after, q := r.tables[i], r.tables[i + 1], r.requests[i];
    assert Edit(parse, fields, before.rows, before.events, q.id, q.version, q.next, after.rows, after.events, q.outcome);
  }
}
