/**
 What a switch's answer proves: the observation parsed from an ARP query, and the
 classification of a release from its own output and the query after it. Regular
 expressions are represented by what they match in one output.
 */
module Evidence {
  import opened Wrappers

  datatype EntryType = Static | Dynamic | Missing | Unknown

  // One pattern of a list, tried on one output.
  datatype PatternOutcome = Hit | Miss | NotText | Malformed

  // A computation that may raise an exception instead.
  datatype Result<+T> = Ok(value: T) | Raised

  // Tries a list of patterns in order: a match answers at once, an unusable pattern raises.
  function MatchesAny(patterns: seq<PatternOutcome>): Result<bool> {
    if |patterns| == 0 then Ok(false)
    else match patterns[0]
      case Hit => Ok(true)
      case Miss => MatchesAny(patterns[1..])
      case _ => Raised
  }

  method OutputMatchesAny(patterns: seq<PatternOutcome>) returns (r: Result<bool>)
    ensures r == MatchesAny(patterns)
  {
    for i := 0 to |patterns|
      invariant MatchesAny(patterns) == MatchesAny(patterns[i..])
    {
      if patterns[i] == NotText || patterns[i] == Malformed {
        return Raised;
      }
      if patterns[i] == Hit {
        return Ok(true);
      }
    }
    return Ok(false);
  }

  // A list answers yes exactly when a match comes before any unusable pattern.
  lemma {:induction false} MatchesAnyMeans(patterns: seq<PatternOutcome>)
    ensures MatchesAny(patterns) == Ok(true) <==>
            exists i :: 0 <= i < |patterns| && patterns[i] == Hit && forall j :: 0 <= j < i ==> patterns[j] == Miss
    ensures MatchesAny(patterns) == Ok(false) <==> forall i :: 0 <= i < |patterns| ==> patterns[i] == Miss
  {
    if |patterns| > 0 {
      var rest := patterns[1..];
      MatchesAnyMeans(rest);
      assert forall i :: 0 <= i < |rest| ==> rest[i] == patterns[i + 1];
      if patterns[0] == Miss && MatchesAny(rest) == Ok(true) {
        var i :| 0 <= i < |rest| && rest[i] == Hit && forall j :: 0 <= j < i ==> rest[j] == Miss;
        assert patterns[i + 1] == Hit;
        assert forall j :: 0 <= j < i + 1 ==> patterns[j] == if j == 0 then Miss else rest[j - 1];
      }
      if i :| 0 <= i < |patterns| && patterns[i] == Hit && forall j :: 0 <= j < i ==> patterns[j] == Miss {
        if i > 0 {
          assert rest[i - 1] == Hit && forall j :: 0 <= j < i - 1 ==> rest[j] == patterns[j + 1];
        }
      }
    }
  }

  // The address group of one matched row; a group that took no part in the match has no text to strip.
  datatype AddressGroup = NoGroup | NoText | Text(stripped: string)

  // One row the entry expression matched: its address, its folded type text, its hardware address.
  datatype Row = Row(address: AddressGroup, typeText: string, mac: Option<string>)

  datatype Rows = NoExpression | BadExpression | Matched(rows: seq<Row>)

  datatype MissingPatterns = NotAList | Patterns(outcomes: seq<PatternOutcome>)

  // The folded values of one entry type; a value that is no text makes looking at them raise.
  datatype TypeValues = NotTexts | Texts(values: set<string>)

  // Everything the parser reads in one output under one profile.
  datatype Reading = Reading(target: string, staticValues: TypeValues, dynamicValues: TypeValues,
                             rows: Rows, missing: MissingPatterns)

  datatype Observation = Observation(entry: EntryType, mac: Option<string>)

  // Both lists of values are read before the type is looked up.
  function EntryOf(typeText: string, r: Reading): Result<EntryType> {
    if r.staticValues.NotTexts? || r.dynamicValues.NotTexts? then Raised
    else if typeText in r.staticValues.values then Ok(Static)
    else if typeText in r.dynamicValues.values then Ok(Dynamic)
    else Ok(Unknown)
  }

  predicate IsTarget(row: Row, r: Reading) {
    row.address.Text? && row.address.stripped == r.target
  }

  // A row without address text raises, and so does a row of the target when its type cannot be looked up.
  predicate RowRaises(row: Row, r: Reading) {
    row.address == NoText || (IsTarget(row, r) && EntryOf(row.typeText, r) == Raised)
  }

  // The observations of the target address, in output order.
  function TargetObservations(rows: seq<Row>, r: Reading): Result<seq<Observation>> {
    if |rows| == 0 then Ok([])
    else
      var last := rows[|rows| - 1];
      match TargetObservations(rows[..|rows| - 1], r)
      case Raised => Raised
      case Ok(before) =>
        if RowRaises(last, r) then Raised
        else if IsTarget(last, r) then Ok(before + [Observation(EntryOf(last.typeText, r).value, last.mac)])
        else Ok(before)
  }

  function FirstOf(obs: seq<Observation>, entry: EntryType): Option<Observation> {
    if |obs| == 0 then None
    else if obs[0].entry == entry then Some(obs[0])
    else FirstOf(obs[1..], entry)
  }

  lemma {:induction false} FirstOfMeans(obs: seq<Observation>, entry: EntryType)
    ensures FirstOf(obs, entry).Some? <==> exists o :: o in obs && o.entry == entry
    ensures FirstOf(obs, entry).Some? ==> FirstOf(obs, entry).value in obs && FirstOf(obs, entry).value.entry == entry
  {
    if |obs| > 0 {
      FirstOfMeans(obs[1..], entry);
      assert forall o :: o in obs <==> o == obs[0] || o in obs[1..];
    }
  }

  // Static evidence wins over unclassified rows, and those win over dynamic ones.
  function Strongest(obs: seq<Observation>): Option<Observation> {
    var s, u := FirstOf(obs, Static), FirstOf(obs, Unknown);
    if s.Some? then s else if u.Some? then u else FirstOf(obs, Dynamic)
  }

  function ParseMissing(r: Reading): Result<Observation> {
    if r.missing.NotAList? then Ok(Observation(Unknown, None))
    else match MatchesAny(r.missing.outcomes)
      case Raised => Raised
      case Ok(hit) => Ok(Observation(if hit then Missing else Unknown, None))
  }

  function Parse(r: Reading): Result<Observation> {
    match r.rows
    case BadExpression => Raised
    case NoExpression => ParseMissing(r)
    case Matched(rows) =>
      match TargetObservations(rows, r)
      case Raised => Raised
      case Ok(obs) => if Strongest(obs).Some? then Ok(Strongest(obs).value) else ParseMissing(r)
  }

  method ParseArpObservation(r: Reading) returns (result: Result<Observation>)
    ensures result == Parse(r)
  {
    if r.rows == BadExpression {
      return Raised;
    }
    if r.rows.Matched? {
      var rows, found := r.rows.rows, [];
      for i := 0 to |rows|
        invariant TargetObservations(rows[..i], r) == Ok(found)
        invariant forall j :: 0 <= j < i ==> !RowRaises(rows[j], r)
      {
        assert rows[..i + 1][..i] == rows[..i];
        if rows[i].address == NoText {
          RaisesExactly(rows, r);
          return Raised;
        }
        if IsTarget(rows[i], r) {
          var entry := EntryOf(rows[i].typeText, r);
          if entry == Raised {
            RaisesExactly(rows, r);
            return Raised;
          }
          found := found + [Observation(entry.value, rows[i].mac)];
        }
      }
      assert rows[..|rows|] == rows;
      var order := [Static, Unknown, Dynamic];
      for k := 0 to 3
        invariant forall h :: 0 <= h < k ==> FirstOf(found, order[h]).None?
      {
        var o := FirstWith(found, order[k]);
        if o.Some? {
          assert k > 0 ==> FirstOf(found, order[0]).None?;
          assert k > 1 ==> FirstOf(found, order[1]).None?;
          return Ok(o.value);
        }
      }
      assert FirstOf(found, order[0]).None? && FirstOf(found, order[1]).None? && FirstOf(found, order[2]).None?;
    }
    if r.missing.Patterns? {
      var hit := OutputMatchesAny(r.missing.outcomes);
      if hit == Raised {
        return Raised;
      }
      if hit.value {
        return Ok(Observation(Missing, None));
      }
    }
    return Ok(Observation(Unknown, None));
  }

  method FirstWith(obs: seq<Observation>, entry: EntryType) returns (o: Option<Observation>)
    ensures o == FirstOf(obs, entry)
  {
    for i := 0 to |obs|
      invariant FirstOf(obs, entry) == FirstOf(obs[i..], entry)
    {
      if obs[i].entry == entry {
        return Some(obs[i]);
      }
    }
    return None;
  }

  // The rows raise exactly when one of them does.
  lemma {:induction false} RaisesExactly(rows: seq<Row>, r: Reading)
    ensures TargetObservations(rows, r) == Raised <==> exists i :: 0 <= i < |rows| && RowRaises(rows[i], r)
    decreases |rows|
  {
    hide RowRaises, EntryOf;
    if |rows| > 0 {
      var rest := rows[..|rows| - 1];
      RaisesExactly(rest, r);
      assert forall i :: 0 <= i < |rest| ==> rest[i] == rows[i];
      if i :| 0 <= i < |rows| && RowRaises(rows[i], r) && i < |rest| {
        assert RowRaises(rest[i], r);
      }
    }
  }

  // ---------- What an observation proves ----------

  ghost predicate RowOf(rows: seq<Row>, r: Reading, entry: EntryType) {
    exists row :: row in rows && IsTarget(row, r) && EntryOf(row.typeText, r) == Ok(entry)
  }

  // Some row for the target has this type.
  ghost predicate HasRow(r: Reading, entry: EntryType) {
    r.rows.Matched? && RowOf(r.rows.rows, r, entry)
  }

  ghost predicate HasAnyRow(r: Reading) {
    HasRow(r, Static) || HasRow(r, Dynamic) || HasRow(r, Unknown)
  }

  lemma {:induction false} ObservationsAreRows(rows: seq<Row>, r: Reading, entry: EntryType)
    requires TargetObservations(rows, r).Ok?
    ensures FirstOf(TargetObservations(rows, r).value, entry).Some? <==> RowOf(rows, r, entry)
  {
    if |rows| > 0 {
      var rest, last := rows[..|rows| - 1], rows[|rows| - 1];
      ObservationsAreRows(rest, r, entry);
      var obs, before := TargetObservations(rows, r).value, TargetObservations(rest, r).value;
      FirstOfMeans(obs, entry);
      FirstOfMeans(before, entry);
      assert forall row :: row in rows <==> row in rest || row == last;
      assert forall o :: o in obs <==> o in before || (IsTarget(last, r) && o == Observation(EntryOf(last.typeText, r).value, last.mac));
    }
  }

  // A pattern for the absence of an entry matched.
  predicate MissingSeen(r: Reading) {
    r.missing.Patterns? && MatchesAny(r.missing.outcomes) == Ok(true)
  }

  // ---------- The rows themselves ----------

  // A matched row for the target address.
  predicate ForTarget(r: Reading, row: Row) {
    r.rows.Matched? && row in r.rows.rows && row.address == Text(r.target)
  }

  // The folded type text of a row is one of the static values; or it is a dynamic value and no static one; or
  // it is neither.
  predicate ReadsStatic(r: Reading, row: Row) {
    r.staticValues.Texts? && r.dynamicValues.Texts? && row.typeText in r.staticValues.values
  }

  predicate ReadsDynamic(r: Reading, row: Row) {
    && r.staticValues.Texts? && r.dynamicValues.Texts?
    && row.typeText !in r.staticValues.values && row.typeText in r.dynamicValues.values
  }

  predicate ReadsNeither(r: Reading, row: Row) {
    && r.staticValues.Texts? && r.dynamicValues.Texts?
    && row.typeText !in r.staticValues.values && row.typeText !in r.dynamicValues.values
  }

  lemma HasRowMeans(r: Reading)
    ensures HasRow(r, Static) <==> exists row :: ForTarget(r, row) && ReadsStatic(r, row)
    ensures HasRow(r, Dynamic) <==> exists row :: ForTarget(r, row) && ReadsDynamic(r, row)
    ensures HasRow(r, Unknown) <==> exists row :: ForTarget(r, row) && ReadsNeither(r, row)
    ensures !HasRow(r, Missing)
  {
    forall row: Row ensures IsTarget(row, r) <==> row.address == Text(r.target) {
    }
    forall row: Row, entry
      ensures EntryOf(row.typeText, r) == Ok(entry) <==>
                || (entry == Static && ReadsStatic(r, row))
                || (entry == Dynamic && ReadsDynamic(r, row))
                || (entry == Unknown && ReadsNeither(r, row))
    {
    }
    hide EntryOf, IsTarget, ReadsStatic, ReadsDynamic, ReadsNeither;
    forall entry ensures HasRow(r, entry) <==> exists row :: ForTarget(r, row) && EntryOf(row.typeText, r) == Ok(entry) {
      if HasRow(r, entry) {
        var row :| row in r.rows.rows && IsTarget(row, r) && EntryOf(row.typeText, r) == Ok(entry);
        assert ForTarget(r, row);
      }
      if row :| ForTarget(r, row) && EntryOf(row.typeText, r) == Ok(entry) {
        assert RowOf(r.rows.rows, r, entry);
      }
    }
  }

  // Exactly what each parsed observation says about the rows for the target.
  lemma ParseMeans(r: Reading)
    requires Parse(r).Ok?
    ensures var entry := Parse(r).value.entry;
            && (entry == Static <==> HasRow(r, Static))
            && (entry == Dynamic <==> HasRow(r, Dynamic) && !HasRow(r, Static) && !HasRow(r, Unknown))
            && (entry == Missing <==> !HasAnyRow(r) && MissingSeen(r))
  {
    if r.rows.Matched? {
      ObservationsAreRows(r.rows.rows, r, Static);
      ObservationsAreRows(r.rows.rows, r, Unknown);
      ObservationsAreRows(r.rows.rows, r, Dynamic);
      var obs := TargetObservations(r.rows.rows, r).value;
      FirstOfMeans(obs, Static);
      FirstOfMeans(obs, Unknown);
      FirstOfMeans(obs, Dynamic);
    }
  }

  // The same on the value sets of the profile: static if a row for the target reads static, dynamic if one
  // reads dynamic and none reads anything else, missing only without rows and with a missing pattern.
  lemma ParseReads(r: Reading)
    requires Parse(r).Ok?
    ensures var entry := Parse(r).value.entry;
            && (entry == Static <==> exists row :: ForTarget(r, row) && ReadsStatic(r, row))
            && (entry == Dynamic <==>
                  (exists row :: ForTarget(r, row) && ReadsDynamic(r, row))
                  && forall row :: ForTarget(r, row) ==> ReadsDynamic(r, row))
            && (entry == Missing <==> (forall row :: !ForTarget(r, row)) && MissingSeen(r))
  {
    ParseMeans(r);
    HasRowMeans(r);
    TargetsRead(r);
    hide ReadsStatic, ReadsDynamic, ReadsNeither, ForTarget, MissingSeen, Parse, HasRow;
  }

  // When parsing does not raise, every row for the target reads as one of the three.
  lemma TargetsRead(r: Reading)
    requires Parse(r).Ok?
    ensures forall row :: ForTarget(r, row) ==>
              && (ReadsStatic(r, row) || ReadsDynamic(r, row) || ReadsNeither(r, row))
              && !(ReadsStatic(r, row) && ReadsDynamic(r, row)) && !(ReadsStatic(r, row) && ReadsNeither(r, row))
              && !(ReadsDynamic(r, row) && ReadsNeither(r, row))
  {
    if r.rows.Matched? {
      RaisesExactly(r.rows.rows, r);
      forall row | ForTarget(r, row) ensures r.staticValues.Texts? && r.dynamicValues.Texts? {
        var i :| 0 <= i < |r.rows.rows| && r.rows.rows[i] == row;
        assert !RowRaises(r.rows.rows[i], r);
      }
    }
  }

  // Parsing raises exactly for an unusable expression, for a row without address text or of the target when
  // the values cannot be read, and, when no row is for the target, for the patterns of a missing entry.
  lemma ParseRaises(r: Reading)
    ensures Parse(r) == Raised <==>
              || r.rows == BadExpression
              || (r.rows.Matched? && exists row :: row in r.rows.rows && RaisesOn(r, row))
              || ((forall row :: !ForTarget(r, row)) && r.missing.Patterns? && MatchesAny(r.missing.outcomes) == Raised)
  {
    hide MatchesAny, EntryOf;
    if r.rows.Matched? {
      var rows := r.rows.rows;
      RaisesExactly(rows, r);
      forall row ensures RowRaises(row, r) <==> RaisesOn(r, row) {
        RaisingRow(r, row);
      }
      assert forall row :: row in rows <==> exists i :: 0 <= i < |rows| && rows[i] == row;
      hide RowRaises, RaisesOn;
      if TargetObservations(rows, r).Ok? {
        var obs := TargetObservations(rows, r).value;
        AllObserved(rows, r);
        FirstOfMeans(obs, Static);
        FirstOfMeans(obs, Unknown);
        FirstOfMeans(obs, Dynamic);
        SomeObservation(obs);
        TargetRows(r);
      }
    }
  }

  lemma TargetRows(r: Reading)
    requires r.rows.Matched?
    ensures (forall row :: !ForTarget(r, row)) <==> forall row :: row in r.rows.rows ==> row.address != Text(r.target)
  {
    if row :| row in r.rows.rows && row.address == Text(r.target) {
      assert ForTarget(r, row);
    }
  }

  // Unless there is nothing, one of the types is found.
  lemma SomeObservation(obs: seq<Observation>)
    requires forall o :: o in obs ==> o.entry != Missing
    ensures obs == [] <==> Strongest(obs).None?
  {
    FirstOfMeans(obs, Static);
    FirstOfMeans(obs, Unknown);
    FirstOfMeans(obs, Dynamic);
    hide FirstOf;
    if obs != [] {
      assert obs[0] in obs && (obs[0].entry == Static || obs[0].entry == Unknown || obs[0].entry == Dynamic);
    }
  }

  predicate RaisesOn(r: Reading, row: Row) {
    || row.address == NoText
    || (row.address == Text(r.target) && (r.staticValues.NotTexts? || r.dynamicValues.NotTexts?))
  }

  lemma RaisingRow(r: Reading, row: Row)
    ensures RowRaises(row, r) <==> RaisesOn(r, row)
  {
  }

  lemma {:induction false} AllObserved(rows: seq<Row>, r: Reading)
    requires TargetObservations(rows, r).Ok?
    ensures TargetObservations(rows, r).value == [] <==> forall row :: row in rows ==> row.address != Text(r.target)
    ensures forall o :: o in TargetObservations(rows, r).value ==> o.entry != Missing
  {
    if |rows| > 0 {
      AllObserved(rows[..|rows| - 1], r);
      assert forall row :: row in rows <==> row in rows[..|rows| - 1] || row == rows[|rows| - 1];
    }
  }

  // Row i is the first one for the target that reads as this type.
  ghost predicate FirstRow(rows: seq<Row>, r: Reading, entry: EntryType, i: int) {
    && 0 <= i < |rows| && IsTarget(rows[i], r) && EntryOf(rows[i].typeText, r) == Ok(entry)
    && forall j :: 0 <= j < i ==> !(IsTarget(rows[j], r) && EntryOf(rows[j].typeText, r) == Ok(entry))
  }

  lemma {:induction false} FirstObservation(rows: seq<Row>, r: Reading, entry: EntryType)
    requires TargetObservations(rows, r).Ok?
    ensures FirstOf(TargetObservations(rows, r).value, entry).Some? ==>
              exists i :: FirstRow(rows, r, entry, i)
                          && FirstOf(TargetObservations(rows, r).value, entry).value == Observation(entry, rows[i].mac)
  {
    if |rows| > 0 {
      var rest, last := rows[..|rows| - 1], rows[|rows| - 1];
      FirstObservation(rest, r, entry);
      ObservationsAreRows(rest, r, entry);
      var obs, before := TargetObservations(rows, r).value, TargetObservations(rest, r).value;
      hide EntryOf, IsTarget, RowRaises;
      if obs != before {
        FirstOfAppend(before, obs[|before|], entry);
      }
      if FirstOf(before, entry).Some? {
        var i :| FirstRow(rest, r, entry, i) && FirstOf(before, entry).value == Observation(entry, rest[i].mac);
        assert FirstRow(rows, r, entry, i);
      } else if FirstOf(obs, entry).Some? {
        assert forall j :: 0 <= j < |rest| ==> rest[j] in rest;
        assert FirstRow(rows, r, entry, |rest|);
      }
    }
  }

  lemma {:induction false} FirstOfAppend(obs: seq<Observation>, o: Observation, entry: EntryType)
    ensures FirstOf(obs + [o], entry) ==
              if FirstOf(obs, entry).Some? then FirstOf(obs, entry) else if o.entry == entry then Some(o) else None
  {
    if |obs| > 0 {
      FirstOfAppend(obs[1..], o, entry);
      assert (obs + [o])[1..] == obs[1..] + [o];
    }
  }

  // The hardware address is the one of the first row for the target with the type that was found; without a
  // row for the target there is none.
  lemma ParsedAddress(r: Reading)
    requires Parse(r).Ok?
    ensures (exists row :: ForTarget(r, row)) ==>
              && r.rows.Matched?
              && exists i :: FirstRow(r.rows.rows, r, Parse(r).value.entry, i) && Parse(r).value.mac == r.rows.rows[i].mac
    ensures (forall row :: !ForTarget(r, row)) ==> Parse(r).value.mac.None?
  {
    hide MatchesAny, EntryOf;
    if r.rows.Matched? {
      var rows := r.rows.rows;
      var obs := TargetObservations(rows, r).value;
      AllObserved(rows, r);
      FirstObservation(rows, r, Static);
      FirstObservation(rows, r, Unknown);
      FirstObservation(rows, r, Dynamic);
      FirstOfMeans(obs, Static);
      FirstOfMeans(obs, Unknown);
      FirstOfMeans(obs, Dynamic);
      SomeObservation(obs);
      hide FirstRow, TargetObservations, IsTarget;
      TargetRows(r);
    }
  }

  // ---------- Classification of a release ----------

  datatype Outcome = ReleaseSucceeded | ReleaseFailed | ReleaseUncertain

  // The error and success patterns tried on the output of the release command.
  datatype Reply = Reply(errors: seq<PatternOutcome>, successes: seq<PatternOutcome>)

  function Classify(reply: Reply, after: EntryType): Result<Outcome> {
    match MatchesAny(reply.errors)
    case Raised => Raised
    case Ok(true) => Ok(ReleaseFailed)
    case Ok(false) =>
      if |reply.successes| > 0 && MatchesAny(reply.successes).Raised? then Raised
      else if after == Missing || after == Dynamic then Ok(ReleaseSucceeded)
      else if after == Static then Ok(ReleaseFailed)
      else Ok(ReleaseUncertain)
  }

  ghost predicate ErrorSeen(reply: Reply) {
    MatchesAny(reply.errors) == Ok(true)
  }

  // A success proves that no error pattern matched and that the after-output shows neither a static
  // nor an unclassified row for the address; a failure proves the opposite of one of the two.
  lemma ClassifyMeans(reply: Reply, r: Reading)
    requires Parse(r).Ok? && Classify(reply, Parse(r).value.entry).Ok?
    ensures var outcome := Classify(reply, Parse(r).value.entry).value;
            && (outcome == ReleaseSucceeded ==>
                  && (forall i :: 0 <= i < |reply.errors| ==> reply.errors[i] == Miss)
                  && !HasRow(r, Static) && !HasRow(r, Unknown))
            && (outcome == ReleaseSucceeded <==>
                  && !ErrorSeen(reply) && !HasRow(r, Static) && !HasRow(r, Unknown)
                  && (HasRow(r, Dynamic) || MissingSeen(r)))
            && (outcome == ReleaseFailed <==> ErrorSeen(reply) || HasRow(r, Static))
  {
    ParseMeans(r);
    MatchesAnyMeans(reply.errors);
  }

  // Classifying raises exactly when an unusable error pattern comes before a match, or, without a match, when
  // there are success patterns and an unusable one comes before a match.
  lemma ClassifyRaises(reply: Reply, after: EntryType)
    ensures Classify(reply, after) == Raised <==>
              || MatchesAny(reply.errors) == Raised
              || (MatchesAny(reply.errors) == Ok(false) && |reply.successes| > 0 && MatchesAny(reply.successes) == Raised)
  {
    hide MatchesAny;
  }
}
