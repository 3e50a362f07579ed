/**
 The line diff of two configurations: a bounded greedy search that records how
 far every diagonal reaches, a walk back through that record, and the trimming of
 the lines both ends share. The result is a cheapest script, or the report that
 every script costs more than the bound.
 */
module LineDiff {
  import opened EditScripts
  import opened FurthestReach
  import opened Hunks

  // Bounds the recorded trace, which grows with the square of the edit count.
  const MAX_DIFF_EDITS: nat := 2000

  // ---------- The search ----------

  // The diagonals of row d below k are filled in, stay in the quadrant and do not stop the search.
  ghost predicate RowDone(a: seq<string>, b: seq<string>, rows: seq<seq<int>>, row: seq<int>, k: int)
    requires Shaped(rows)
  {
    && |row| == 2 * |rows| + 1
    && (forall j {:trigger Reach(a, b, rows, |rows|, j)} :: OnRow(|rows|, j) && j < k ==>
          && row[j + |rows|] == Reach(a, b, rows, |rows|, j)
          && Reach(a, b, rows, |rows|, j) >= 0 && Reach(a, b, rows, |rows|, j) >= j
          && !Stops(a, b, Reach(a, b, rows, |rows|, j), j))
  }

  // A complete row extends the trace.
  lemma RowExtendsTrace(a: seq<string>, b: seq<string>, rows: seq<seq<int>>, row: seq<int>)
    requires IsTrace(a, b, rows) && NoStop(a, b, rows)
    requires RowDone(a, b, rows, row, |rows| + 1)
    ensures IsTrace(a, b, rows + [row]) && NoStop(a, b, rows + [row])
  {
    var all := rows + [row];
    forall d, k | 0 <= d < |all| && OnRow(d, k)
      ensures At(all, d, k) == Reach(a, b, all, d, k)
      ensures At(all, d, k) >= 0 && At(all, d, k) >= k
      ensures !Stops(a, b, At(all, d, k), k)
    {
      assert Base(all, d, k) == Base(rows, d, k);
      assert Reach(a, b, all, d, k) == Reach(a, b, rows, d, k);
      if d < |rows| {
        assert At(all, d, k) == At(rows, d, k);
      }
    }
  }

  // The furthest column on diagonal k, from the row for one edit less.
  method ReachDiagonal(a: seq<string>, b: seq<string>, prev: seq<int>, d: int, k: int, ghost rows: seq<seq<int>>)
    returns (x: int)
    requires IsTrace(a, b, rows) && d == |rows| && OnRow(d, k)
    requires d > 0 ==> prev == rows[d - 1]
    ensures x == Reach(a, b, rows, d, k) && x >= 0 && x >= k
  {
    x := 0;
    if d == 0 {
    } else if k == -d || (k != d && prev[k - 1 + d - 1] < prev[k + 1 + d - 1]) {
      x := prev[k + 1 + d - 1];
      assert x == At(rows, d - 1, k + 1);
    } else {
      x := prev[k - 1 + d - 1] + 1;
      assert x == At(rows, d - 1, k - 1) + 1;
    }
    assert x == Base(rows, d, k);
    var y := x - k;
    while x < |a| && y < |b| && a[x] == b[y]
      invariant 0 <= x && 0 <= y == x - k
      invariant Slide(a, b, x, k) == Reach(a, b, rows, d, k)
      decreases |a| - x
    {
      x, y := x + 1, y + 1;
    }
  }

  method Myers(a: seq<string>, b: seq<string>, maxD: nat) returns (ops: seq<Op>, ok: bool)
    ensures ok ==> IsScript(ops, a, b) && Edits(ops) <= maxD && CostsAtLeast(a, b, Edits(ops))
    ensures !ok ==> CostsAtLeast(a, b, maxD + 1)
  {
    var n, m := |a|, |b|;
    if n == 0 && m == 0 {
      return [], true;
    }
    var trace: seq<seq<int>> := [];
    var prev: seq<int> := [];
    var d := 0;
    while d <= maxD
      invariant 0 <= d <= maxD + 1 && |trace| == d
      invariant IsTrace(a, b, trace) && NoStop(a, b, trace)
      invariant d > 0 ==> prev == trace[d - 1]
    {
      var cur := new int[2 * d + 1](_ => 0);
      var k := -d;
      while k <= d
        invariant -d <= k <= d + 2 && (d - k) % 2 == 0
        invariant RowDone(a, b, trace, cur[..], k)
      {
        var x := ReachDiagonal(a, b, prev, d, k, trace);
        ghost var before := cur[..];
        cur[k + d] := x;
        if x >= n && x - k >= m {
          FirstStopIsCorner(a, b, trace, k);
          NoStopMeansCost(a, b, trace);
          ops := Backtrack(a, b, trace + [cur[..]], trace);
          return ops, true;
        }
        RowGrows(a, b, trace, before, k, x, cur[..]);
        k := k + 2;
      }
      RowExtendsTrace(a, b, trace, cur[..]);
      trace := trace + [cur[..]];
      prev := cur[..];
      d := d + 1;
    }
    NoStopMeansCost(a, b, trace);
    return [], false;
  }

  lemma RowGrows(a: seq<string>, b: seq<string>, rows: seq<seq<int>>, row: seq<int>, k: int, x: int, row': seq<int>)
    requires Shaped(rows) && OnRow(|rows|, k)
    requires RowDone(a, b, rows, row, k) && row' == row[k + |rows| := x]
    requires x == Reach(a, b, rows, |rows|, k) && x >= 0 && x >= k && !Stops(a, b, x, k)
    ensures RowDone(a, b, rows, row', k + 2)
  {
  }

  // ---------- The walk back ----------

  // The operations collected so far, last one first, align everything after (x, y) with e edits.
  ghost predicate AlignsRest(ops: seq<Op>, a: seq<string>, b: seq<string>, x: int, y: int, e: int) {
    && 0 <= x <= |a| && 0 <= y <= |b|
    && IsScript(Reversed(ops), a[x..], b[y..]) && Edits(Reversed(ops)) == e
  }

  lemma PushFront(ops: seq<Op>, o: Op, a: seq<string>, b: seq<string>, x: int, y: int, e: int)
    requires AlignsRest(ops, a, b, x, y, e)
    requires o.kind != Add ==> x > 0 && o.text == a[x - 1]
    requires o.kind != Remove ==> y > 0 && o.text == b[y - 1]
    ensures AlignsRest(ops + [o], a, b, if o.kind == Add then x else x - 1, if o.kind == Remove then y else y - 1,
                       if o.kind == Keep then e else e + 1)
  {
    Single(o);
    hide OldText, NewText, Count;
    assert Reversed(ops + [o]) == [o] + Reversed(ops);
    Concat([o], Reversed(ops));
    if o.kind != Add {
      assert a[x - 1..] == [o.text] + a[x..];
    }
    if o.kind != Remove {
      assert b[y - 1..] == [o.text] + b[y..];
    }
  }

  // The equal lines of diagonal k from one column up to another.
  ghost predicate EqualAlong(a: seq<string>, b: seq<string>, k: int, lo: int, hi: int) {
    forall i {:trigger a[i]} :: lo <= i < hi ==> 0 <= i < |a| && 0 <= i - k < |b| && a[i] == b[i - k]
  }

  lemma SlideEqual(a: seq<string>, b: seq<string>, x: int, k: int)
    ensures EqualAlong(a, b, k, x, Slide(a, b, x, k))
  {
    forall i {:trigger a[i]} | x <= i < Slide(a, b, x, k)
      ensures 0 <= i < |a| && 0 <= i - k < |b| && a[i] == b[i - k]
    {
      SlideLines(a, b, x, k, i);
    }
  }

  // Takes the equal lines before (x, y) until the walk would pass column toX or row toY.
  method TakeEqual(a: seq<string>, b: seq<string>, ops: seq<Op>, x: int, y: int, toX: int, toY: int, ghost e: int)
    returns (ops': seq<Op>, x': int, y': int)
    requires AlignsRest(ops, a, b, x, y, e)
    requires 0 <= toX <= x && 0 <= toY <= y
    requires EqualAlong(a, b, x - y, Max(toX, toY + x - y), x)
    ensures x' == Max(toX, toY + x - y) && y' == x' - (x - y)
    ensures 0 <= x' <= |a| && 0 <= y' <= |b|
    ensures AlignsRest(ops', a, b, x', y', e)
  {
    ghost var k := x - y;
    ops', x', y' := ops, x, y;
    while x' > toX && y' > toY
      invariant toX <= x' <= x && toY <= y' == x' - k
      invariant AlignsRest(ops', a, b, x', y', e)
    {
      assert a[x' - 1] == b[x' - 1 - k];
      PushFront(ops', Op(Keep, a[x' - 1]), a, b, x', y', e);
      ops' := ops' + [Op(Keep, a[x' - 1])];
      x', y' := x' - 1, y' - 1;
    }
  }

  function Max(i: int, j: int): int {
    if i < j then j else i
  }

  // Where the last edit on the path to column x of diagonal k comes from.
  lemma Predecessor(a: seq<string>, b: seq<string>, rows: seq<seq<int>>, d: int, k: int, x: int, prevK: int)
    requires IsTrace(a, b, rows) && 0 < d <= |rows| && OnRow(d, k) && x == Reach(a, b, rows, d, k)
    requires prevK == if FromAbove(rows, d, k) then k + 1 else k - 1
    ensures OnRow(d - 1, prevK)
    ensures var prevX := At(rows, d - 1, prevK);
            && prevX == Reach(a, b, rows, d - 1, prevK)
            && 0 <= prevX && 0 <= prevX - prevK
            && Base(rows, d, k) == (if prevK == k + 1 then prevX else prevX + 1) <= x
            && EqualAlong(a, b, k, Base(rows, d, k), x)
  {
    SlideEqual(a, b, Base(rows, d, k), k);
    assert At(rows, d - 1, prevK) == Reach(a, b, rows, d - 1, prevK);
  }

  // Undoes the last edit of the path to (x, y) together with the equal lines after it.
  method UndoEdit(a: seq<string>, b: seq<string>, prev: seq<int>, d: int, ops: seq<Op>, x: int, y: int,
                  ghost rows: seq<seq<int>>, ghost e: int)
    returns (ops': seq<Op>, x': int, y': int, ghost k': int)
    requires IsTrace(a, b, rows) && 0 < d <= |rows| && prev == rows[d - 1]
    requires OnRow(d, x - y) && x == Reach(a, b, rows, d, x - y)
    requires AlignsRest(ops, a, b, x, y, e) && 0 <= x && 0 <= y
    ensures 0 <= x' && 0 <= y'
    ensures k' == x' - y' && OnRow(d - 1, k') && x' == Reach(a, b, rows, d - 1, k')
    ensures AlignsRest(ops', a, b, x', y', e + 1)
  {
    hide AlignsRest, EqualAlong, Reach;
    var k := x - y;
    var prevK := k - 1;
    if k == -d || (k != d && prev[k - 1 + d - 1] < prev[k + 1 + d - 1]) {
      prevK := k + 1;
    }
    Predecessor(a, b, rows, d, k, x, prevK);
    var prevX := prev[prevK + d - 1];
    assert prevX == At(rows, d - 1, prevK);
    var prevY := prevX - prevK;
    k' := prevK;
    ops', x', y' := TakeEqual(a, b, ops, x, y, prevX, prevY, e);
    if x' == prevX {
      PushFront(ops', Op(Add, b[y' - 1]), a, b, x', y', e);
      ops' := ops' + [Op(Add, b[y' - 1])];
      y' := y' - 1;
    } else {
      PushFront(ops', Op(Remove, a[x' - 1]), a, b, x', y', e);
      ops' := ops' + [Op(Remove, a[x' - 1])];
      x' := x' - 1;
    }
  }

  // Without edits left, only equal lines remain before (x, y).
  lemma WithoutEdits(a: seq<string>, b: seq<string>, rows: seq<seq<int>>, k: int, x: int)
    requires IsTrace(a, b, rows) && OnRow(0, k) && x == Reach(a, b, rows, 0, k)
    ensures k == 0 <= x && EqualAlong(a, b, k, k, x)
  {
    SlideEqual(a, b, Base(rows, 0, k), k);
  }

  method TakeRest(a: seq<string>, b: seq<string>, ops: seq<Op>, x: int, y: int, ghost e: int) returns (ops': seq<Op>)
    requires AlignsRest(ops, a, b, x, y, e)
    requires x == y && EqualAlong(a, b, x - y, 0, x)
    ensures AlignsRest(ops', a, b, 0, 0, e)
  {
    var x', y';
    ops', x', y' := TakeEqual(a, b, ops, x, y, 0, 0, e);
  }

  method Backtrack(a: seq<string>, b: seq<string>, trace: seq<seq<int>>, ghost rows: seq<seq<int>>) returns (ops: seq<Op>)
    requires |trace| > 0 && rows == trace[..|trace| - 1]
    requires IsTrace(a, b, rows) && OnRow(|rows|, |a| - |b|)
    requires Reach(a, b, rows, |rows|, |a| - |b|) == |a|
    ensures IsScript(ops, a, b)
    ensures Edits(ops) == |trace| - 1
  {
    hide AlignsRest, EqualAlong, Reach, IsScript;
    var x, y := |a|, |b|;
    ghost var k, e := x - y, 0;
    ops := [];
    NothingLeft(a, b, ops);
    var d := |trace| - 1;
    while d > 0
      invariant 0 <= d <= |rows| && e == |rows| - d
      invariant k == x - y && OnRow(d, k) && x == Reach(a, b, rows, d, k)
      invariant AlignsRest(ops, a, b, x, y, e) && 0 <= x && 0 <= y
    {
      ops, x, y, k := UndoEdit(a, b, trace[d - 1], d, ops, x, y, rows, e);
      d, e := d - 1, e + 1;
    }
    WithoutEdits(a, b, rows, k, x);
    ops := TakeRest(a, b, ops, x, y, e);
    NothingBefore(ops, a, b, e);
    ops := ReverseInPlace(ops);
  }

  lemma NothingBefore(ops: seq<Op>, a: seq<string>, b: seq<string>, e: int)
    requires AlignsRest(ops, a, b, 0, 0, e)
    ensures IsScript(Reversed(ops), a, b) && Edits(Reversed(ops)) == e
  {
    assert a[0..] == a && b[0..] == b;
  }

  lemma NothingLeft(a: seq<string>, b: seq<string>, none: seq<Op>)
    requires |none| == 0
    ensures AlignsRest(none, a, b, |a|, |b|, 0)
  {
    assert |Reversed(none)| == 0;
  }

  // Swaps from both ends, as the walk's final loop does.
  method ReverseInPlace(s: seq<Op>) returns (r: seq<Op>)
    ensures r == Reversed(s)
  {
    r := s;
    var i, j := 0, |s| - 1;
    while i < j
      invariant 0 <= i <= |s| && j == |s| - 1 - i && i <= j + 2
      invariant |r| == |s|
      invariant forall h :: 0 <= h < i || j < h < |s| ==> r[h] == s[|s| - 1 - h]
      invariant forall h :: i <= h <= j ==> r[h] == s[h]
    {
      r := r[i := r[j]][j := r[i]];
      i, j := i + 1, j - 1;
    }
  }

  // ---------- The diff ----------

  datatype Diff = Diff(added: int, removed: int, hunks: seq<Hunk>, replaced: bool)

  // The alignment shown when the texts are too different: what the ends share, and a full replacement between.
  ghost predicate ReplacesMiddle(ops: seq<Op>, a: seq<string>, b: seq<string>) {
    exists p: seq<string>, x, y, q ::
      && a == p + x + q && b == p + y + q
      && ops == All(Keep, p) + (All(Remove, x) + All(Add, y)) + All(Keep, q)
  }

  // How many lines both texts start with.
  method SharedPrefix(a: seq<string>, b: seq<string>) returns (prefix: nat)
    ensures prefix <= |a| && prefix <= |b| && a[..prefix] == b[..prefix]
    ensures prefix < |a| && prefix < |b| ==> a[prefix] != b[prefix]
  {
    prefix := 0;
    while prefix < |a| && prefix < |b| && a[prefix] == b[prefix]
      invariant prefix <= |a| && prefix <= |b| && a[..prefix] == b[..prefix]
    {
      prefix := prefix + 1;
    }
  }

  // How many lines both texts end with, after the prefix.
  method SharedSuffix(a: seq<string>, b: seq<string>, prefix: nat) returns (suffix: nat)
    requires prefix <= |a| && prefix <= |b|
    ensures suffix <= |a| - prefix && suffix <= |b| - prefix && a[|a| - suffix..] == b[|b| - suffix..]
    ensures suffix < |a| - prefix && suffix < |b| - prefix ==> a[|a| - 1 - suffix] != b[|b| - 1 - suffix]
  {
    suffix := 0;
    while suffix < |a| - prefix && suffix < |b| - prefix && a[|a| - 1 - suffix] == b[|b| - 1 - suffix]
      invariant suffix <= |a| - prefix && suffix <= |b| - prefix && a[|a| - suffix..] == b[|b| - suffix..]
    {
      assert a[|a| - (suffix + 1)..] == [a[|a| - 1 - suffix]] + a[|a| - suffix..];
      assert b[|b| - (suffix + 1)..] == [b[|b| - 1 - suffix]] + b[|b| - suffix..];
      suffix := suffix + 1;
    }
  }

  // Counts the added and the removed lines.
  method CountEdits(ops: seq<Op>) returns (added: int, removed: int)
    ensures added == Count(ops, Add) && removed == Count(ops, Remove)
  {
    added, removed := 0, 0;
    for i := 0 to |ops|
      invariant added == Count(ops[..i], Add) && removed == Count(ops[..i], Remove)
    {
      assert ops[..i + 1] == ops[..i] + [ops[i]];
      Snoc(ops[..i], ops[i]);
      match ops[i].kind {
        case Keep =>
        case Add => added := added + 1;
        case Remove => removed := removed + 1;
      }
    }
    assert ops[..|ops|] == ops;
  }

  // The cheapest script between the shared ends, or the full replacement of what lies between.
  method AlignMiddle(a: seq<string>, b: seq<string>) returns (ops: seq<Op>, ok: bool)
    ensures IsScript(ops, a, b)
    ensures ok ==> Edits(ops) <= MAX_DIFF_EDITS && CostsAtLeast(a, b, Edits(ops))
    ensures !ok ==> CostsAtLeast(a, b, MAX_DIFF_EDITS + 1) && ops == All(Remove, a) + All(Add, b)
  {
    ops, ok := Myers(a, b, MAX_DIFF_EDITS);
    if !ok {
      ops := All(Remove, a) + All(Add, b);
      AllTexts(Remove, a);
      AllTexts(Add, b);
      Concat(All(Remove, a), All(Add, b));
    }
  }

  // Shared ends around a script.
  lemma Framed(p: seq<string>, middle: seq<Op>, x: seq<string>, y: seq<string>, q: seq<string>)
    requires IsScript(middle, x, y)
    ensures IsScript(All(Keep, p) + middle + All(Keep, q), p + x + q, p + y + q)
    ensures Edits(All(Keep, p) + middle + All(Keep, q)) == Edits(middle)
  {
    AllTexts(Keep, p);
    AllTexts(Keep, q);
    hide OldText, NewText;
    Concat(All(Keep, p), middle);
    Concat(All(Keep, p) + middle, All(Keep, q));
  }

  lemma Ends(text: seq<string>, prefix: nat, suffix: nat)
    requires prefix + suffix <= |text|
    ensures text == text[..prefix] + text[prefix..|text| - suffix] + text[|text| - suffix..]
  {
  }

  method DiffLines(a: seq<string>, b: seq<string>, context: nat)
    returns (d: Diff, ghost ops: seq<Op>, ghost ws: seq<Window>)
    // The counts and hunks describe one alignment of a with b.
    ensures IsScript(ops, a, b) && IsCut(ops, context, d.hunks, ws) && ShowsChangesInContext(ops, context, d.hunks)
    ensures d.added == Count(ops, Add) && d.removed == Count(ops, Remove)
    ensures |a| - d.removed == |b| - d.added >= 0
    // The counts are the edit distance, unless every alignment exceeds the bound.
    ensures d.replaced <==> CostsAtLeast(a, b, 2001)
    ensures !d.replaced ==> IsEditDistance(a, b, d.added + d.removed)
    ensures d.replaced ==> ReplacesMiddle(ops, a, b)
    // The hunks are a patch in both directions.
    ensures Fits(a, d.hunks, 0) && Patched(a, d.hunks, 0) == b
    ensures Fits(b, SwappedHunks(d.hunks), 0) && Patched(b, SwappedHunks(d.hunks), 0) == a
  {
    hide IsCut, ShowsChangesInContext, Fits, Patched, OldText, NewText, Count;
    var prefix := SharedPrefix(a, b);
    var suffix := SharedSuffix(a, b, prefix);
    var middleA, middleB := a[prefix..|a| - suffix], b[prefix..|b| - suffix];
    var middle, ok := AlignMiddle(middleA, middleB);
    var p, q := a[..prefix], a[|a| - suffix..];
    var all := All(Keep, p) + middle + All(Keep, q);
    Ends(a, prefix, suffix);
    Ends(b, prefix, suffix);
    Framed(p, middle, middleA, middleB, q);
    TrimmedCost(p, middleA, middleB, q, if ok then Edits(middle) else MAX_DIFF_EDITS + 1);
    var added, removed := CountEdits(all);
    Balance(all);
    var hunks;
    hunks, ws := BuildHunks(all, context);
    PatchGivesNewText(all, context, hunks, ws);
    PatchReverses(all, context, hunks, ws);
    d, ops := Diff(added, removed, hunks, !ok), all;
  }
}
