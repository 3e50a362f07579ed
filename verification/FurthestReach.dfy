/**
 The edit graph behind the greedy search: how far each diagonal reaches with a
 given number of edits. Diagonal k holds the points (x, x - k), and row d of a
 trace holds, at index k + d, the furthest column on diagonal k after d edits.
 As in the code, a step may leave the |a| by |b| box; the lemmas say why that
 does no harm.
 */
module FurthestReach {
  import opened EditScripts

  // Follows equal lines along diagonal k from column x.
  ghost function Slide(a: seq<string>, b: seq<string>, x: int, k: int): (r: int)
    ensures x <= r
    ensures x < r ==> 0 <= x && 0 <= x - k && r <= |a| && r - k <= |b|
    ensures !(0 <= r < |a| && 0 <= r - k < |b| && a[r] == b[r - k])
    decreases if x < |a| then |a| - x else 0
  {
    if 0 <= x < |a| && 0 <= x - k < |b| && a[x] == b[x - k] then Slide(a, b, x + 1, k) else x
  }

  // The lines that Slide passes are equal.
  lemma {:induction false} SlideLines(a: seq<string>, b: seq<string>, x: int, k: int, i: int)
    requires x <= i < Slide(a, b, x, k)
    ensures 0 <= i < |a| && 0 <= i - k < |b| && a[i] == b[i - k]
    decreases i - x
  {
    if x < i {
      SlideLines(a, b, x + 1, k, i);
    }
  }

  // Diagonal k is one that exactly d edits can end on.
  predicate OnRow(d: int, k: int) {
    0 <= d && -d <= k <= d && (d - k) % 2 == 0
  }

  predicate Shaped(rows: seq<seq<int>>) {
    forall d :: 0 <= d < |rows| ==> |rows[d]| == 2 * d + 1
  }

  // The furthest column recorded for diagonal k after d edits.
  function At(rows: seq<seq<int>>, d: int, k: int): int
    requires Shaped(rows) && 0 <= d < |rows| && OnRow(d, k)
  {
    rows[d][k + d]
  }

  // Whether the path to diagonal k after d edits comes down from diagonal k + 1.
  predicate FromAbove(rows: seq<seq<int>>, d: int, k: int)
    requires Shaped(rows) && 0 < d <= |rows| && OnRow(d, k)
  {
    k == 0 - d || (k != d && At(rows, d - 1, k - 1) < At(rows, d - 1, k + 1))
  }

  // Where d edits put diagonal k before any equal lines are followed.
  function Base(rows: seq<seq<int>>, d: int, k: int): int
    requires Shaped(rows) && 0 <= d <= |rows| && OnRow(d, k)
  {
    if d == 0 then 0
    else if FromAbove(rows, d, k) then At(rows, d - 1, k + 1)
    else At(rows, d - 1, k - 1) + 1
  }

  ghost function Reach(a: seq<string>, b: seq<string>, rows: seq<seq<int>>, d: int, k: int): int
    requires Shaped(rows) && 0 <= d <= |rows| && OnRow(d, k)
  {
    Slide(a, b, Base(rows, d, k), k)
  }

  // Every row follows from the one before it.
  ghost predicate IsTrace(a: seq<string>, b: seq<string>, rows: seq<seq<int>>) {
    && Shaped(rows)
    && (forall d, k {:trigger Reach(a, b, rows, d, k)} :: 0 <= d < |rows| && OnRow(d, k) ==> At(rows, d, k) == Reach(a, b, rows, d, k))
    && (forall d, k {:trigger At(rows, d, k)} :: 0 <= d < |rows| && OnRow(d, k) ==> At(rows, d, k) >= 0 && At(rows, d, k) >= k)
  }

  // Column x on diagonal k is at or past the far corner in both directions.
  predicate Stops(a: seq<string>, b: seq<string>, x: int, k: int) {
    x >= |a| && x - k >= |b|
  }

  ghost predicate NoStop(a: seq<string>, b: seq<string>, rows: seq<seq<int>>)
    requires Shaped(rows)
  {
    forall d, k {:trigger At(rows, d, k)} :: 0 <= d < |rows| && OnRow(d, k) ==> !Stops(a, b, At(rows, d, k), k)
  }

  // ---------- Maximality ----------

  // One more operation of any kind reaches at least as far as the operation takes a reached point.
  lemma ReachGrows(a: seq<string>, b: seq<string>, rows: seq<seq<int>>, kind: OpKind, d: int, k: int, x: int)
    requires IsTrace(a, b, rows) && x <= |a| && 0 <= x - k <= |b|
    requires d <= |rows|
    requires match kind
             case Keep =>
               && OnRow(d, k) && Reach(a, b, rows, d, k) >= x - 1 >= 0
               && x - k > 0 && a[x - 1] == b[x - 1 - k]
             case Remove => 0 < d && OnRow(d - 1, k - 1) && Reach(a, b, rows, d - 1, k - 1) >= x - 1
             case Add => 0 < d && OnRow(d - 1, k + 1) && Reach(a, b, rows, d - 1, k + 1) >= x
    ensures OnRow(d, k) && Reach(a, b, rows, d, k) >= x
  {
  }

  // How an operation's start lies off the diagonal it ends on.
  function Turn(kind: OpKind): int {
    match kind case Keep => 0 case Remove => -1 case Add => 1
  }

  // Splits the last operation off a script for two prefixes.
  lemma LastStep(a: seq<string>, b: seq<string>, ops: seq<Op>, x: nat, y: nat) returns (rest: seq<Op>, kind: OpKind)
    requires x <= |a| && y <= |b|
    requires |ops| > 0 && IsScript(ops, a[..x], b[..y])
    ensures rest == ops[..|ops| - 1]
    ensures kind != Add ==> x > 0
    ensures kind != Remove ==> y > 0
    ensures kind == Keep ==> a[x - 1] == b[y - 1]
    ensures IsScript(rest, a[..if kind == Add then x else x - 1], b[..if kind == Remove then y else y - 1])
    ensures Edits(ops) == Edits(rest) + if kind == Keep then 0 else 1
  {
    var o := ops[|ops| - 1];
    rest, kind := ops[..|ops| - 1], o.kind;
    assert ops == rest + [o];
    Snoc(rest, o);
    assert kind != Add ==> a[..x] == OldText(rest) + [o.text];
    assert kind != Remove ==> b[..y] == NewText(rest) + [o.text];
    if kind != Add {
      assert a[..x][x - 1] == o.text;
      assert a[..x - 1] == a[..x][..x - 1] == OldText(rest);
    }
    if kind != Remove {
      assert b[..y][y - 1] == o.text;
      assert b[..y - 1] == b[..y][..y - 1] == NewText(rest);
    }
  }

  lemma EmptyStep(a: seq<string>, b: seq<string>, rows: seq<seq<int>>, ops: seq<Op>, k: int, x: nat)
    requires x <= |a| && 0 <= x - k <= |b| && IsTrace(a, b, rows)
    requires |ops| == 0 && IsScript(ops, a[..x], b[..x - k])
    ensures Edits(ops) == 0 && OnRow(0, k) && Reach(a, b, rows, 0, k) >= x
  {
    assert |a[..x]| == 0 && |b[..x - k]| == 0;
  }

  // Maximality: no script reaches further on its diagonal than the search does with as many edits.
  lemma {:induction false} Maximal(a: seq<string>, b: seq<string>, rows: seq<seq<int>>, ops: seq<Op>, d: int, k: int, x: nat)
    requires IsTrace(a, b, rows) && d == Edits(ops) <= |rows|
    requires x <= |a| && 0 <= x - k <= |b|
    requires IsScript(ops, a[..x], b[..x - k])
    ensures OnRow(d, k) && Reach(a, b, rows, d, k) >= x
    decreases |ops|
  {
    hide IsScript, IsTrace, Reach, Count;
    if |ops| == 0 {
      EmptyStep(a, b, rows, ops, k, x);
    } else {
      var rest, kind := LastStep(a, b, ops, x, x - k);
      Maximal(a, b, rows, rest, Edits(rest), k + Turn(kind), if kind == Add then x else x - 1);
      ReachGrows(a, b, rows, kind, d, k, x);
    }
  }

  // No script is cheaper than the rows the search passed without stopping.
  lemma NoStopMeansCost(a: seq<string>, b: seq<string>, rows: seq<seq<int>>)
    requires IsTrace(a, b, rows) && NoStop(a, b, rows)
    ensures CostsAtLeast(a, b, |rows|)
  {
    forall ops | IsScript(ops, a, b) ensures |rows| <= Edits(ops) {
      if Edits(ops) < |rows| {
        assert a[..|a|] == a && b[..|b|] == b;
        Maximal(a, b, rows, ops, Edits(ops), |a| - |b|, |a|);
        assert false;
      }
    }
  }

  // ---------- Clipping ----------

  // How far a point lies outside the box.
  function Overshoot(a: seq<string>, b: seq<string>, x: int, k: int): nat {
    (if x > |a| then x - |a| else 0) + (if x - k > |b| then x - k - |b| else 0)
  }

  function Clip(x: int, bound: nat): (r: nat)
    ensures r <= bound
  {
    if x > bound then bound else if x < 0 then 0 else x
  }

  // A script for the prefixes that end where column x of diagonal k is clipped to the box.
  ghost predicate ScriptTo(ops: seq<Op>, a: seq<string>, b: seq<string>, x: int, k: int) {
    IsScript(ops, a[..Clip(x, |a|)], b[..Clip(x - k, |b|)])
  }

  // Extends a script along the equal lines that Slide follows.
  lemma {:induction false} SlideScript(a: seq<string>, b: seq<string>, x: int, k: int, ops: seq<Op>) returns (r: seq<Op>)
    requires 0 <= x && 0 <= x - k
    requires ScriptTo(ops, a, b, x, k)
    ensures ScriptTo(r, a, b, Slide(a, b, x, k), k)
    ensures Edits(r) == Edits(ops)
    ensures Overshoot(a, b, Slide(a, b, x, k), k) == Overshoot(a, b, x, k)
    decreases if x < |a| then |a| - x else 0
  {
    r := ops;
    if x < |a| && x - k < |b| && a[x] == b[x - k] {
      Snoc(ops, Op(Keep, a[x]));
      assert a[..x + 1] == a[..x] + [a[x]] && b[..x + 1 - k] == b[..x - k] + [b[x - k]];
      r := SlideScript(a, b, x + 1, k, ops + [Op(Keep, a[x])]);
    }
  }

  lemma NoStep(a: seq<string>, b: seq<string>) returns (r: seq<Op>)
    ensures ScriptTo(r, a, b, 0, 0) && Edits(r) == Overshoot(a, b, 0, 0) == 0
  {
    r := [];
    assert a[..0] == [] && b[..0] == [];
  }

  // One step down onto diagonal k, free when it leaves the box.
  lemma StepDown(a: seq<string>, b: seq<string>, x: int, k: int, ops: seq<Op>) returns (r: seq<Op>)
    requires 0 <= x && 1 <= x - k && ScriptTo(ops, a, b, x, k + 1)
    ensures ScriptTo(r, a, b, x, k)
    ensures Edits(r) + Overshoot(a, b, x, k) == Edits(ops) + Overshoot(a, b, x, k + 1) + 1
  {
    r := ops;
    var y := x - k - 1;
    if y < |b| {
      Snoc(ops, Op(Add, b[y]));
      assert b[..y + 1] == b[..y] + [b[y]];
      r := ops + [Op(Add, b[y])];
    }
  }

  // One step right onto diagonal k, free when it leaves the box.
  lemma StepRight(a: seq<string>, b: seq<string>, x: int, k: int, ops: seq<Op>) returns (r: seq<Op>)
    requires 1 <= x && 0 <= x - k && ScriptTo(ops, a, b, x - 1, k - 1)
    ensures ScriptTo(r, a, b, x, k)
    ensures Edits(r) + Overshoot(a, b, x, k) == Edits(ops) + Overshoot(a, b, x - 1, k - 1) + 1
  {
    r := ops;
    if x <= |a| {
      Snoc(ops, Op(Remove, a[x - 1]));
      assert a[..x] == a[..x - 1] + [a[x - 1]];
      r := ops + [Op(Remove, a[x - 1])];
    }
  }

  // Clipping a path to the box leaves a script that saves one edit for each step of overshoot.
  lemma {:induction false} ClippedScript(a: seq<string>, b: seq<string>, rows: seq<seq<int>>, d: int, k: int) returns (r: seq<Op>)
    requires IsTrace(a, b, rows) && 0 <= d <= |rows| && OnRow(d, k)
    ensures ScriptTo(r, a, b, Reach(a, b, rows, d, k), k)
    ensures Edits(r) + Overshoot(a, b, Reach(a, b, rows, d, k), k) == d
    decreases d, 1
  {
    r := ClippedBase(a, b, rows, d, k);
    r := SlideScript(a, b, Base(rows, d, k), k, r);
  }

  lemma {:induction false} ClippedBase(a: seq<string>, b: seq<string>, rows: seq<seq<int>>, d: int, k: int) returns (r: seq<Op>)
    requires IsTrace(a, b, rows) && 0 <= d <= |rows| && OnRow(d, k)
    ensures 0 <= Base(rows, d, k) && k <= Base(rows, d, k)
    ensures ScriptTo(r, a, b, Base(rows, d, k), k)
    ensures Edits(r) + Overshoot(a, b, Base(rows, d, k), k) == d
    decreases d, 0
  {
    hide ScriptTo, Overshoot;
    var x := Base(rows, d, k);
    if d == 0 {
      r := NoStep(a, b);
    } else if FromAbove(rows, d, k) {
      r := ClippedScript(a, b, rows, d - 1, k + 1);
      r := StepDown(a, b, x, k, r);
    } else {
      r := ClippedScript(a, b, rows, d - 1, k - 1);
      r := StepRight(a, b, x, k, r);
    }
  }

  // The first stop is exactly at the far corner of the box, never beyond it.
  lemma FirstStopIsCorner(a: seq<string>, b: seq<string>, rows: seq<seq<int>>, k: int)
    requires IsTrace(a, b, rows) && NoStop(a, b, rows) && OnRow(|rows|, k)
    requires Stops(a, b, Reach(a, b, rows, |rows|, k), k)
    ensures Reach(a, b, rows, |rows|, k) == |a|
    ensures k == |a| - |b|
  {
    var r := ClippedScript(a, b, rows, |rows|, k);
    NoStopMeansCost(a, b, rows);
    assert a[..|a|] == a && b[..|b|] == b;
    assert IsScript(r, a, b);
  }
}
