/**
 Hunks of a diff: the changes of an alignment grouped with their surrounding
 context, numbered by line in the old and in the new text. The lemmas read the
 hunks back as a patch: applied to the old text they give the new text, and
 reversed they give the old text back.
 */
module Hunks {
  import opened EditScripts

  datatype LineKind = ContextLine | AddedLine | RemovedLine

  datatype DiffLine = DiffLine(kind: LineKind, text: string)

  datatype Hunk = Hunk(oldStart: int, oldLines: int, newStart: int, newLines: int, lines: seq<DiffLine>)

  function LineOf(o: Op): DiffLine {
    match o.kind
    case Keep => DiffLine(ContextLine, o.text)
    case Remove => DiffLine(RemovedLine, o.text)
    case Add => DiffLine(AddedLine, o.text)
  }

  function OpOf(l: DiffLine): Op {
    match l.kind
    case ContextLine => Op(Keep, l.text)
    case RemovedLine => Op(Remove, l.text)
    case AddedLine => Op(Add, l.text)
  }

  function LinesOf(ops: seq<Op>): (lines: seq<DiffLine>)
    ensures |lines| == |ops|
  {
    seq(|ops|, i requires 0 <= i < |ops| => LineOf(ops[i]))
  }

  function OpsOf(lines: seq<DiffLine>): (ops: seq<Op>)
    ensures |ops| == |lines|
  {
    seq(|lines|, i requires 0 <= i < |lines| => OpOf(lines[i]))
  }

  lemma LinesRoundTrip(ops: seq<Op>)
    ensures OpsOf(LinesOf(ops)) == ops
  {
  }

  predicate IsChange(o: Op) {
    o.kind != Keep
  }

  // The hunk that shows the operations from lo up to hi.
  ghost function HunkAt(ops: seq<Op>, lo: int, hi: int): Hunk
    requires 0 <= lo <= hi <= |ops|
  {
    Hunk(1 + |OldText(ops[..lo])|, |OldText(ops[lo..hi])|,
         1 + |NewText(ops[..lo])|, |NewText(ops[lo..hi])|, LinesOf(ops[lo..hi]))
  }

  // The first and last change of one hunk.
  datatype Window = Window(first: int, last: int)

  function Lo(w: Window, context: nat): int {
    if w.first < context then 0 else w.first - context
  }

  function Hi(ops: seq<Op>, w: Window, context: nat): int {
    if w.last + context + 1 > |ops| then |ops| else w.last + context + 1
  }

  // A window starts and ends with a change and never shows more than 2 * context kept lines in a row.
  ghost predicate IsWindow(ops: seq<Op>, context: nat, w: Window) {
    && 0 <= w.first <= w.last < |ops|
    && IsChange(ops[w.first]) && IsChange(ops[w.last])
    && forall p :: w.first <= p && p + 2 * context <= w.last ==> HasChange(ops, context, p)
  }

  // One of the 2 * context + 1 operations from p on is a change.
  ghost predicate HasChange(ops: seq<Op>, context: nat, p: int) {
    exists q :: p <= q <= p + 2 * context && 0 <= q < |ops| && IsChange(ops[q])
  }

  ghost predicate Covered(ws: seq<Window>, p: int) {
    exists i :: 0 <= i < |ws| && ws[i].first <= p <= ws[i].last
  }

  // Windows far enough apart that their contexts cannot meet, holding every change before end.
  ghost predicate AreWindows(ops: seq<Op>, context: nat, ws: seq<Window>, end: int) {
    && (forall i :: 0 <= i < |ws| ==> IsWindow(ops, context, ws[i]))
    && (forall i, j :: 0 <= i < j < |ws| ==> ws[i].last + 2 * context + 1 < ws[j].first)
    && (forall p {:trigger Covered(ws, p)} :: 0 <= p < end && p < |ops| && IsChange(ops[p]) ==> Covered(ws, p))
  }

  ghost predicate IsCut(ops: seq<Op>, context: nat, hunks: seq<Hunk>, ws: seq<Window>) {
    && AreWindows(ops, context, ws, |ops|)
    && Shows(ops, context, hunks, ws)
  }

  // ---------- What the hunks show ----------

  // A hunk line shows an operation.
  predicate ShowsLine(l: DiffLine, o: Op) {
    && l.text == o.text
    && (l.kind == ContextLine <==> o.kind == Keep)
    && (l.kind == AddedLine <==> o.kind == Add)
    && (l.kind == RemovedLine <==> o.kind == Remove)
  }

  // The lines of a hunk are the operations from lo on, and its numbers are their places in the two texts.
  ghost predicate PlacedAt(ops: seq<Op>, h: Hunk, lo: int) {
    && 0 <= lo && lo + |h.lines| <= |ops|
    && h.oldStart == 1 + |OldText(ops[..lo])| && h.oldStart + h.oldLines == 1 + |OldText(ops[..lo + |h.lines|])|
    && h.newStart == 1 + |NewText(ops[..lo])| && h.newStart + h.newLines == 1 + |NewText(ops[..lo + |h.lines|])|
    && forall k :: 0 <= k < |h.lines| ==> ShowsLine(h.lines[k], ops[lo + k])
  }

  ghost predicate ShownBy(ops: seq<Op>, h: Hunk, p: int) {
    exists lo :: PlacedAt(ops, h, lo) && lo <= p < lo + |h.lines|
  }

  ghost predicate IsShown(ops: seq<Op>, hunks: seq<Hunk>, p: int) {
    exists i :: 0 <= i < |hunks| && ShownBy(ops, hunks[i], p)
  }

  ghost predicate NearChange(ops: seq<Op>, context: nat, p: int) {
    exists q :: 0 <= q < |ops| && p - context <= q <= p + context && ops[q].kind != Keep
  }

  // The hunks show exactly the changes and the lines within context lines of one, in order, and leave at
  // least one line of both texts out between two of them.
  ghost predicate ShowsChangesInContext(ops: seq<Op>, context: nat, hunks: seq<Hunk>) {
    && (forall i :: 0 <= i < |hunks| ==> |hunks[i].lines| > 0 && exists lo :: PlacedAt(ops, hunks[i], lo))
    && (forall p :: 0 <= p < |ops| ==> (IsShown(ops, hunks, p) <==> NearChange(ops, context, p)))
    && (forall i, j :: 0 <= i < j < |hunks| ==>
          && hunks[i].oldStart + hunks[i].oldLines < hunks[j].oldStart
          && hunks[i].newStart + hunks[i].newLines < hunks[j].newStart)
  }

  // ---------- Building the hunks ----------

  ghost predicate AreChanges(ops: seq<Op>, changes: seq<int>, end: int) {
    && (forall j :: 0 <= j < |changes| ==> 0 <= changes[j] < end && changes[j] < |ops| && IsChange(ops[changes[j]]))
    && (forall i, j :: 0 <= i < j < |changes| ==> changes[i] < changes[j])
    && (forall p {:trigger p in changes} :: 0 <= p < end && p < |ops| && IsChange(ops[p]) ==> p in changes)
  }

  ghost predicate Numbered(ops: seq<Op>, oldNo: seq<int>, newNo: seq<int>) {
    && |oldNo| == |newNo| == |ops|
    && forall j :: 0 <= j < |ops| ==> oldNo[j] == 1 + |OldText(ops[..j])| && newNo[j] == 1 + |NewText(ops[..j])|
  }

  // Numbers every operation by line in both texts and lists the changes.
  method NumberLines(ops: seq<Op>) returns (oldNo: array<int>, newNo: array<int>, changes: seq<int>)
    ensures Numbered(ops, oldNo[..], newNo[..])
    ensures fresh(oldNo) && fresh(newNo)
    ensures AreChanges(ops, changes, |ops|)
  {
    oldNo, newNo := new int[|ops|], new int[|ops|];
    var o, n := 1, 1;
    changes := [];
    for i := 0 to |ops|
      invariant o == 1 + |OldText(ops[..i])| && n == 1 + |NewText(ops[..i])|
      invariant forall j :: 0 <= j < i ==> oldNo[j] == 1 + |OldText(ops[..j])| && newNo[j] == 1 + |NewText(ops[..j])|
      invariant AreChanges(ops, changes, i)
    {
      assert ops[..i + 1] == ops[..i] + [ops[i]];
      Snoc(ops[..i], ops[i]);
      oldNo[i], newNo[i] := o, n;
      if ops[i].kind != Add {
        o := o + 1;
      }
      if ops[i].kind != Remove {
        n := n + 1;
      }
      if ops[i].kind != Keep {
        changes := changes + [i];
      }
    }
  }

  // The hunk lines of one stretch of operations, with their counts in both texts.
  method ShowLines(ops: seq<Op>, oldStart: int, newStart: int) returns (hunk: Hunk)
    ensures hunk == Hunk(oldStart, |OldText(ops)|, newStart, |NewText(ops)|, LinesOf(ops))
  {
    var lines: seq<DiffLine>, oldLines, newLines := [], 0, 0;
    for i := 0 to |ops|
      invariant lines == LinesOf(ops[..i])
      invariant oldLines == |OldText(ops[..i])| && newLines == |NewText(ops[..i])|
    {
      assert ops[..i + 1] == ops[..i] + [ops[i]];
      Snoc(ops[..i], ops[i]);
      match ops[i].kind {
        case Keep =>
          lines, oldLines, newLines := lines + [DiffLine(ContextLine, ops[i].text)], oldLines + 1, newLines + 1;
        case Remove =>
          lines, oldLines := lines + [DiffLine(RemovedLine, ops[i].text)], oldLines + 1;
        case Add =>
          lines, newLines := lines + [DiffLine(AddedLine, ops[i].text)], newLines + 1;
      }
    }
    assert ops[..|ops|] == ops;
    hunk := Hunk(oldStart, oldLines, newStart, newLines, lines);
  }

  // Extends a hunk over the changes that are close enough to share it.
  method NextWindow(ops: seq<Op>, context: nat, changes: seq<int>, start: nat) returns (first: int, last: int, next: nat)
    requires AreChanges(ops, changes, |ops|) && start < |changes|
    ensures start < next <= |changes|
    ensures first == changes[start] && last == changes[next - 1]
    ensures 0 <= first <= last < |ops| && IsWindow(ops, context, Window(first, last))
    ensures next < |changes| ==> last + 2 * context + 1 < changes[next]
  {
    var i := start;
    first, last := changes[i], changes[i];
    while i + 1 < |changes| && changes[i + 1] - last <= 2 * context + 1
      invariant start <= i < |changes| && last == changes[i]
      invariant IsWindow(ops, context, Window(first, last))
    {
      ExtendWindow(ops, context, Window(first, last), changes[i + 1]);
      i := i + 1;
      last := changes[i];
    }
    next := i + 1;
  }

  lemma ExtendWindow(ops: seq<Op>, context: nat, w: Window, next: int)
    requires IsWindow(ops, context, w)
    requires w.last < next < |ops| && IsChange(ops[next]) && next - w.last <= 2 * context + 1
    ensures IsWindow(ops, context, Window(w.first, next))
  {
    forall p | w.first <= p && p + 2 * context <= next
      ensures HasChange(ops, context, p)
    {
      if p <= w.last - 2 * context {
        assert HasChange(ops, context, p);
      } else if p <= w.last {
        assert IsChange(ops[w.last]);
      } else {
        assert IsChange(ops[next]);
      }
    }
  }

  lemma AddWindow(ops: seq<Op>, context: nat, ws: seq<Window>, w: Window, changes: seq<int>, start: nat, next: nat)
    requires AreChanges(ops, changes, |ops|) && start < next <= |changes|
    requires AreWindows(ops, context, ws, changes[start]) && IsWindow(ops, context, w)
    requires |ws| > 0 ==> ws[|ws| - 1].last + 2 * context + 1 < w.first
    requires w == Window(changes[start], changes[next - 1])
    ensures AreWindows(ops, context, ws + [w], if next < |changes| then changes[next] else |ops|)
  {
    var all := ws + [w];
    assert all[|ws|] == w;
    forall i, j | 0 <= i < j < |all|
      ensures all[i].last + 2 * context + 1 < all[j].first
    {
      if j == |ws| && i < |ws| - 1 {
        assert ws[i].last < ws[|ws| - 1].first <= ws[|ws| - 1].last by {
          assert IsWindow(ops, context, ws[|ws| - 1]);
        }
      }
    }
    var end := if next < |changes| then changes[next] else |ops|;
    forall p | 0 <= p < end && p < |ops| && IsChange(ops[p])
      ensures Covered(all, p)
    {
      if p < changes[start] {
        assert Covered(ws, p);
        var i :| 0 <= i < |ws| && ws[i].first <= p <= ws[i].last;
        assert all[i] == ws[i];
      } else {
        assert p in changes;
        var j :| 0 <= j < |changes| && changes[j] == p;
        assert j < next;
        assert all[|ws|].first <= p <= all[|ws|].last;
      }
    }
  }

  lemma NoWindows(ops: seq<Op>, context: nat, changes: seq<int>)
    requires AreChanges(ops, changes, |ops|)
    ensures AreWindows(ops, context, [], if |changes| > 0 then changes[0] else |ops|)
  {
    var end := if |changes| > 0 then changes[0] else |ops|;
    forall p | 0 <= p < end && p < |ops| ensures !IsChange(ops[p]) {
      assert p !in changes;
    }
  }

  ghost predicate Shows(ops: seq<Op>, context: nat, hunks: seq<Hunk>, ws: seq<Window>) {
    && |hunks| == |ws|
    && (forall i :: 0 <= i < |ws| ==>
          && 0 <= Lo(ws[i], context) <= Hi(ops, ws[i], context) <= |ops|
          && hunks[i] == HunkAt(ops, Lo(ws[i], context), Hi(ops, ws[i], context)))
  }

  method ShowWindow(ops: seq<Op>, context: nat, oldNo: array<int>, newNo: array<int>, first: int, last: int)
    returns (hunk: Hunk)
    requires Numbered(ops, oldNo[..], newNo[..]) && 0 <= first <= last < |ops|
    ensures var w := Window(first, last);
            && 0 <= Lo(w, context) <= Hi(ops, w, context) <= |ops|
            && hunk == HunkAt(ops, Lo(w, context), Hi(ops, w, context))
  {
    var start := if first < context then 0 else first - context;
    var end := if last + context < |ops| then last + context else |ops| - 1;
    hunk := ShowLines(ops[start..end + 1], oldNo[..][start], newNo[..][start]);
  }

  method BuildHunks(ops: seq<Op>, context: nat) returns (hunks: seq<Hunk>, ghost ws: seq<Window>)
    ensures IsCut(ops, context, hunks, ws) && ShowsChangesInContext(ops, context, hunks)
    ensures Fits(OldText(ops), hunks, 0) && Patched(OldText(ops), hunks, 0) == NewText(ops)
  {
    hide HunkAt, IsWindow, Numbered, AreWindows, AreChanges, Fits, Patched;
    var oldNo, newNo, changes := NumberLines(ops);
    hunks, ws := [], [];
    NoWindows(ops, context, changes);
    var i := 0;
    while i < |changes|
      invariant 0 <= i <= |changes|
      invariant AreWindows(ops, context, ws, if i < |changes| then changes[i] else |ops|)
      invariant |ws| > 0 && i < |changes| ==> ws[|ws| - 1].last + 2 * context + 1 < changes[i]
      invariant Shows(ops, context, hunks, ws)
      invariant Numbered(ops, oldNo[..], newNo[..])
    {
      var first, last, next := NextWindow(ops, context, changes, i);
      ghost var w := Window(first, last);
      var hunk := ShowWindow(ops, context, oldNo, newNo, first, last);
      AddWindow(ops, context, ws, w, changes, i, next);
      hunks, ws := hunks + [hunk], ws + [w];
      i := next;
    }
    PatchGivesNewText(ops, context, hunks, ws);
    CutShows(ops, context, hunks, ws);
  }

  // ---------- Reading the hunks back ----------

  // Outside the windows every line is kept.
  lemma KeptBetween(ops: seq<Op>, context: nat, ws: seq<Window>, i: int, p: int)
    requires AreWindows(ops, context, ws, |ops|) && 0 <= p < |ops|
    requires 0 <= i <= |ws|
    requires i > 0 ==> p >= Hi(ops, ws[i - 1], context)
    requires i < |ws| ==> p < Lo(ws[i], context)
    ensures !IsChange(ops[p])
  {
    assert !Covered(ws, p);
  }

  // Each change is shown by exactly one hunk.
  lemma ChangeInOneHunk(ops: seq<Op>, context: nat, ws: seq<Window>, p: int) returns (i: int)
    requires AreWindows(ops, context, ws, |ops|) && 0 <= p < |ops| && IsChange(ops[p])
    ensures 0 <= i < |ws|
    ensures forall j :: 0 <= j < |ws| ==> (Lo(ws[j], context) <= p < Hi(ops, ws[j], context) <==> j == i)
  {
    assert Covered(ws, p);
    i :| 0 <= i < |ws| && ws[i].first <= p <= ws[i].last;
    forall j | 0 <= j < |ws|
      ensures Lo(ws[j], context) <= p < Hi(ops, ws[j], context) <==> j == i
    {
      if j < i {
        assert ws[j].last + 2 * context + 1 < ws[i].first;
      } else if i < j {
        assert ws[i].last + 2 * context + 1 < ws[j].first;
      }
    }
  }

  lemma SplitAt(ops: seq<Op>, p: int)
    requires 0 <= p <= |ops|
    ensures OldText(ops) == OldText(ops[..p]) + OldText(ops[p..])
    ensures NewText(ops) == NewText(ops[..p]) + NewText(ops[p..])
  {
    assert ops == ops[..p] + ops[p..];
    Concat(ops[..p], ops[p..]);
  }

  // The old text quoted by the operations from lo to hi, and their place in the new text.
  lemma Quote(ops: seq<Op>, lo: int, hi: int)
    requires 0 <= lo <= hi <= |ops|
    ensures var from, to := |OldText(ops[..lo])|, |OldText(ops[..hi])|;
            from + |OldText(ops[lo..hi])| == to <= |OldText(ops)| && OldText(ops)[from..to] == OldText(ops[lo..hi])
    ensures |NewText(ops[..hi])| == |NewText(ops[..lo])| + |NewText(ops[lo..hi])|
    ensures NewText(ops[lo..]) == NewText(ops[lo..hi]) + NewText(ops[hi..])
  {
    hide OldText, NewText;
    SplitAt(ops, hi);
    SplitAt(ops[..hi], lo);
    assert ops[..hi][..lo] == ops[..lo] && ops[..hi][lo..] == ops[lo..hi];
    SplitAt(ops[lo..], hi - lo);
    assert ops[lo..][..hi - lo] == ops[lo..hi] && ops[lo..][hi - lo..] == ops[hi..];
  }

  // Kept lines read the same in both texts.
  lemma {:induction false} KeptTexts(ops: seq<Op>)
    requires forall p :: 0 <= p < |ops| ==> !IsChange(ops[p])
    ensures OldText(ops) == NewText(ops) && |OldText(ops)| == |ops|
  {
    if |ops| > 0 {
      KeptTexts(ops[1..]);
    }
  }

  // A strict patch: every hunk starts at or after line `at` of the old text and quotes it exactly.
  ghost predicate Fits(text: seq<string>, hunks: seq<Hunk>, at: int)
    decreases |hunks|
  {
    && 0 <= at <= |text|
    && (|hunks| > 0 ==>
          var h := hunks[0];
          && at <= h.oldStart - 1 && 0 <= h.oldLines && h.oldStart - 1 + h.oldLines <= |text|
          && text[h.oldStart - 1..h.oldStart - 1 + h.oldLines] == OldText(OpsOf(h.lines))
          && Fits(text, hunks[1..], h.oldStart - 1 + h.oldLines))
  }

  // The text after the hunks are applied to the old text from line `at` on.
  ghost function Patched(text: seq<string>, hunks: seq<Hunk>, at: int): seq<string>
    requires Fits(text, hunks, at)
    decreases |hunks|
  {
    if |hunks| == 0 then text[at..]
    else
      var h := hunks[0];
      text[at..h.oldStart - 1] + NewText(OpsOf(h.lines)) + Patched(text, hunks[1..], h.oldStart - 1 + h.oldLines)
  }

  // What a hunk quotes from the old text, and what it and the kept lines before it put in the new text.
  ghost predicate Reads(ops: seq<Op>, h: Hunk, p: int, hi: int)
    requires 0 <= p <= hi <= |ops|
  {
    var text, at, end := OldText(ops), |OldText(ops[..p])|, |OldText(ops[..hi])|;
    && at <= h.oldStart - 1 && 0 <= h.oldLines && h.oldStart - 1 + h.oldLines == end <= |text|
    && text[h.oldStart - 1..end] == OldText(OpsOf(h.lines))
    && NewText(ops[p..]) == text[at..h.oldStart - 1] + NewText(OpsOf(h.lines)) + NewText(ops[hi..])
  }

  lemma ReadsAfterKept(ops: seq<Op>, p: int, lo: int, hi: int)
    requires 0 <= p <= lo <= hi <= |ops|
    requires forall q :: p <= q < lo ==> !IsChange(ops[q])
    ensures Reads(ops, HunkAt(ops, lo, hi), p, hi)
  {
    hide OldText, NewText;
    KeptTexts(ops[p..lo]);
    Quote(ops, p, lo);
    Quote(ops, lo, hi);
    LinesRoundTrip(ops[lo..hi]);
  }

  lemma HunkReads(ops: seq<Op>, context: nat, hunks: seq<Hunk>, ws: seq<Window>, i: int, p: int)
    requires IsCut(ops, context, hunks, ws) && 0 <= i < |ws|
    requires p == if i == 0 then 0 else Hi(ops, ws[i - 1], context)
    ensures 0 <= p <= Hi(ops, ws[i], context) <= |ops|
    ensures Reads(ops, hunks[i], p, Hi(ops, ws[i], context))
  {
    hide Reads, HunkAt;
    var lo, hi := Lo(ws[i], context), Hi(ops, ws[i], context);
    assert IsWindow(ops, context, ws[i]);
    if i > 0 {
      assert IsWindow(ops, context, ws[i - 1]);
      assert ws[i - 1].last + 2 * context + 1 < ws[i].first;
    }
    forall q | p <= q < lo
      ensures !IsChange(ops[q])
    {
      KeptBetween(ops, context, ws, i, q);
    }
    ReadsAfterKept(ops, p, lo, hi);
  }

  // After the last hunk the texts agree.
  lemma TailReads(ops: seq<Op>, context: nat, ws: seq<Window>, p: int)
    requires AreWindows(ops, context, ws, |ops|)
    requires p == if |ws| == 0 then 0 else Hi(ops, ws[|ws| - 1], context)
    ensures 0 <= p <= |ops| && |OldText(ops[..p])| <= |OldText(ops)|
    ensures NewText(ops[p..]) == OldText(ops)[|OldText(ops[..p])|..]
  {
    hide OldText, NewText;
    if |ws| > 0 {
      assert IsWindow(ops, context, ws[|ws| - 1]);
    }
    forall q | p <= q < |ops|
      ensures !IsChange(ops[q])
    {
      KeptBetween(ops, context, ws, |ws|, q);
    }
    KeptTexts(ops[p..]);
    SplitAt(ops, p);
  }

  lemma {:induction false} PatchFrom(ops: seq<Op>, context: nat, hunks: seq<Hunk>, ws: seq<Window>, i: int, p: int)
    requires IsCut(ops, context, hunks, ws) && 0 <= i <= |ws|
    requires p == if i == 0 then 0 else Hi(ops, ws[i - 1], context)
    ensures 0 <= p <= |ops|
    ensures Fits(OldText(ops), hunks[i..], |OldText(ops[..p])|)
    ensures Patched(OldText(ops), hunks[i..], |OldText(ops[..p])|) == NewText(ops[p..])
    decreases |ws| - i
  {
    hide OldText, NewText, HunkAt, IsWindow, AreWindows, Hi, Lo, OpsOf;
    if i < |ws| {
      HunkReads(ops, context, hunks, ws, i, p);
      PatchFrom(ops, context, hunks, ws, i + 1, Hi(ops, ws[i], context));
      assert hunks[i..][1..] == hunks[i + 1..] && hunks[i..][0] == hunks[i];
    } else {
      TailReads(ops, context, ws, p);
    }
  }

  // The hunks are a faithful patch of the old text.
  lemma PatchGivesNewText(ops: seq<Op>, context: nat, hunks: seq<Hunk>, ws: seq<Window>)
    requires IsCut(ops, context, hunks, ws)
    ensures Fits(OldText(ops), hunks, 0) && Patched(OldText(ops), hunks, 0) == NewText(ops)
  {
    PatchFrom(ops, context, hunks, ws, 0, 0);
    assert hunks[0..] == hunks && ops[0..] == ops && |OldText(ops[..0])| == 0;
  }

  // ---------- The patch in reverse ----------

  function SwappedOp(o: Op): Op {
    match o.kind
    case Keep => o
    case Remove => Op(Add, o.text)
    case Add => Op(Remove, o.text)
  }

  function SwappedOps(ops: seq<Op>): (r: seq<Op>)
    ensures |r| == |ops|
  {
    seq(|ops|, i requires 0 <= i < |ops| => SwappedOp(ops[i]))
  }

  // A hunk with the old and the new text exchanged.
  function SwappedHunk(h: Hunk): Hunk {
    Hunk(h.newStart, h.newLines, h.oldStart, h.oldLines, LinesOf(SwappedOps(OpsOf(h.lines))))
  }

  function SwappedHunks(hunks: seq<Hunk>): (r: seq<Hunk>)
    ensures |r| == |hunks|
  {
    seq(|hunks|, i requires 0 <= i < |hunks| => SwappedHunk(hunks[i]))
  }

  lemma {:induction false} SwappedTexts(ops: seq<Op>)
    ensures OldText(SwappedOps(ops)) == NewText(ops)
    ensures NewText(SwappedOps(ops)) == OldText(ops)
  {
    if |ops| > 0 {
      SwappedTexts(ops[1..]);
      assert SwappedOps(ops)[1..] == SwappedOps(ops[1..]);
    }
  }

  lemma SwappedWindow(ops: seq<Op>, context: nat, w: Window)
    requires IsWindow(ops, context, w)
    ensures IsWindow(SwappedOps(ops), context, w)
  {
    forall p | w.first <= p && p + 2 * context <= w.last
      ensures HasChange(SwappedOps(ops), context, p)
    {
      assert HasChange(ops, context, p);
      var q :| p <= q <= p + 2 * context && 0 <= q < |ops| && IsChange(ops[q]);
      assert IsChange(SwappedOps(ops)[q]);
    }
  }

  lemma SwappedHunkAt(ops: seq<Op>, lo: int, hi: int)
    requires 0 <= lo <= hi <= |ops|
    ensures SwappedHunk(HunkAt(ops, lo, hi)) == HunkAt(SwappedOps(ops), lo, hi)
  {
    var swapped := SwappedOps(ops);
    assert swapped[..lo] == SwappedOps(ops[..lo]) && swapped[lo..hi] == SwappedOps(ops[lo..hi]);
    SwappedTexts(ops[..lo]);
    SwappedTexts(ops[lo..hi]);
    LinesRoundTrip(ops[lo..hi]);
  }

  lemma SwappedCut(ops: seq<Op>, context: nat, hunks: seq<Hunk>, ws: seq<Window>)
    requires IsCut(ops, context, hunks, ws)
    ensures IsCut(SwappedOps(ops), context, SwappedHunks(hunks), ws)
  {
    hide HunkAt, SwappedHunk, IsWindow;
    var swapped := SwappedOps(ops);
    forall p | 0 <= p < |ops| && IsChange(swapped[p]) ensures Covered(ws, p) {
      assert IsChange(ops[p]);
    }
    forall i | 0 <= i < |ws| ensures IsWindow(swapped, context, ws[i]) {
      SwappedWindow(ops, context, ws[i]);
    }
    forall i | 0 <= i < |ws|
      ensures SwappedHunks(hunks)[i] == HunkAt(swapped, Lo(ws[i], context), Hi(swapped, ws[i], context))
    {
      SwappedHunkAt(ops, Lo(ws[i], context), Hi(ops, ws[i], context));
    }
  }

  // Read the other way round, the hunks give the old text back.
  lemma PatchReverses(ops: seq<Op>, context: nat, hunks: seq<Hunk>, ws: seq<Window>)
    requires IsCut(ops, context, hunks, ws)
    ensures Fits(NewText(ops), SwappedHunks(hunks), 0)
    ensures Patched(NewText(ops), SwappedHunks(hunks), 0) == OldText(ops)
  {
    SwappedCut(ops, context, hunks, ws);
    PatchGivesNewText(SwappedOps(ops), context, SwappedHunks(hunks), ws);
    SwappedTexts(ops);
  }

  // At least one line that neither hunk shows lies between two hunks, in both texts.
  lemma HunksNeverTouch(ops: seq<Op>, context: nat, hunks: seq<Hunk>, ws: seq<Window>, i: int, j: int)
    requires IsCut(ops, context, hunks, ws) && 0 <= i < j < |ws|
    ensures hunks[i].oldStart + hunks[i].oldLines < hunks[j].oldStart
    ensures hunks[i].newStart + hunks[i].newLines < hunks[j].newStart
  {
    hide HunkAt;
    assert IsWindow(ops, context, ws[i]) && IsWindow(ops, context, ws[i + 1]) && IsWindow(ops, context, ws[j]);
    assert ws[i].last + 2 * context + 1 < ws[i + 1].first <= ws[j].first;
    var hi, lo := Hi(ops, ws[i], context), Lo(ws[j], context);
    KeptBetween(ops, context, ws, i + 1, hi);
    KeptLineApart(ops, Lo(ws[i], context), hi, lo, Hi(ops, ws[j], context));
  }

  lemma KeptLineApart(ops: seq<Op>, lo: int, hi: int, lo': int, hi': int)
    requires 0 <= lo <= hi < lo' <= hi' <= |ops| && !IsChange(ops[hi])
    ensures var h, h' := HunkAt(ops, lo, hi), HunkAt(ops, lo', hi');
            h.oldStart + h.oldLines < h'.oldStart && h.newStart + h.newLines < h'.newStart
  {
    Single(ops[hi]);
    assert ops[hi..hi + 1] == [ops[hi]];
    hide OldText, NewText;
    Quote(ops, lo, hi);
    Quote(ops, hi, hi + 1);
    Quote(ops, hi + 1, lo');
  }

  // ---------- Exactly the changes and their context are shown ----------

  // A place in the two texts belongs to one operation only.
  lemma PrefixGrows(ops: seq<Op>, p: int, q: int)
    requires 0 <= p < q <= |ops|
    ensures |OldText(ops[..p])| + |NewText(ops[..p])| < |OldText(ops[..q])| + |NewText(ops[..q])|
  {
    Single(ops[p]);
    assert ops[p..p + 1] == [ops[p]];
    hide OldText, NewText;
    Quote(ops, p, p + 1);
    Quote(ops, p + 1, q);
  }

  lemma PlaceIsUnique(ops: seq<Op>, h: Hunk, lo: int, lo': int)
    requires PlacedAt(ops, h, lo) && PlacedAt(ops, h, lo')
    ensures lo == lo'
  {
    hide OldText, NewText, ShowsLine;
    if lo < lo' {
      PrefixGrows(ops, lo, lo');
    } else if lo' < lo {
      PrefixGrows(ops, lo', lo);
    }
  }

  lemma HunkIsPlaced(ops: seq<Op>, lo: int, hi: int)
    requires 0 <= lo <= hi <= |ops|
    ensures PlacedAt(ops, HunkAt(ops, lo, hi), lo) && |HunkAt(ops, lo, hi).lines| == hi - lo
  {
    hide OldText, NewText;
    Quote(ops, lo, hi);
  }

  lemma WindowIsNear(ops: seq<Op>, context: nat, w: Window, p: int)
    requires IsWindow(ops, context, w) && Lo(w, context) <= p < Hi(ops, w, context)
    ensures NearChange(ops, context, p)
  {
    if p - context < w.first {
      assert ops[w.first].kind != Keep;
    } else if p + context > w.last {
      assert ops[w.last].kind != Keep;
    } else {
      assert HasChange(ops, context, p - context);
    }
  }

  lemma NearIsInWindow(ops: seq<Op>, context: nat, ws: seq<Window>, p: int) returns (i: int)
    requires AreWindows(ops, context, ws, |ops|) && 0 <= p < |ops| && NearChange(ops, context, p)
    ensures 0 <= i < |ws| && Lo(ws[i], context) <= p < Hi(ops, ws[i], context)
  {
    var q :| 0 <= q < |ops| && p - context <= q <= p + context && ops[q].kind != Keep;
    assert Covered(ws, q);
    i :| 0 <= i < |ws| && ws[i].first <= q <= ws[i].last;
  }

  lemma CutPlaces(ops: seq<Op>, context: nat, hunks: seq<Hunk>, ws: seq<Window>, i: int)
    requires IsCut(ops, context, hunks, ws) && 0 <= i < |hunks|
    ensures |ws| == |hunks| && IsWindow(ops, context, ws[i])
    ensures PlacedAt(ops, hunks[i], Lo(ws[i], context))
    ensures 0 < |hunks[i].lines| == Hi(ops, ws[i], context) - Lo(ws[i], context)
  {
    assert IsWindow(ops, context, ws[i]);
    HunkIsPlaced(ops, Lo(ws[i], context), Hi(ops, ws[i], context));
    hide HunkAt, PlacedAt;
  }

  lemma ShownIsNear(ops: seq<Op>, context: nat, hunks: seq<Hunk>, ws: seq<Window>, p: int)
    requires IsCut(ops, context, hunks, ws) && IsShown(ops, hunks, p)
    ensures NearChange(ops, context, p)
  {
    hide IsCut, PlacedAt, IsWindow, NearChange, Lo, Hi;
    var i :| 0 <= i < |hunks| && ShownBy(ops, hunks[i], p);
    var lo :| PlacedAt(ops, hunks[i], lo) && lo <= p < lo + |hunks[i].lines|;
    CutPlaces(ops, context, hunks, ws, i);
    PlaceIsUnique(ops, hunks[i], lo, Lo(ws[i], context));
    WindowIsNear(ops, context, ws[i], p);
  }

  lemma NearIsShown(ops: seq<Op>, context: nat, hunks: seq<Hunk>, ws: seq<Window>, p: int)
    requires IsCut(ops, context, hunks, ws) && 0 <= p < |ops| && NearChange(ops, context, p)
    ensures IsShown(ops, hunks, p)
  {
    hide PlacedAt, IsWindow, NearChange, Lo, Hi, HunkAt, AreWindows;
    var i := NearIsInWindow(ops, context, ws, p);
    CutPlaces(ops, context, hunks, ws, i);
    assert ShownBy(ops, hunks[i], p);
  }

  lemma CutShows(ops: seq<Op>, context: nat, hunks: seq<Hunk>, ws: seq<Window>)
    requires IsCut(ops, context, hunks, ws)
    ensures ShowsChangesInContext(ops, context, hunks)
  {
    assert |hunks| == |ws|;
    hide IsCut, PlacedAt, IsWindow, NearChange, IsShown, Lo, Hi;
    forall i | 0 <= i < |hunks| ensures |hunks[i].lines| > 0 && exists lo :: PlacedAt(ops, hunks[i], lo) {
      CutPlaces(ops, context, hunks, ws, i);
    }
    forall i, j | 0 <= i < j < |hunks|
      ensures hunks[i].oldStart + hunks[i].oldLines < hunks[j].oldStart
      ensures hunks[i].newStart + hunks[i].newLines < hunks[j].newStart
    {
      HunksNeverTouch(ops, context, hunks, ws, i, j);
    }
    forall p | 0 <= p < |ops| ensures IsShown(ops, hunks, p) <==> NearChange(ops, context, p) {
      if IsShown(ops, hunks, p) {
        ShownIsNear(ops, context, hunks, ws, p);
      }
      if NearChange(ops, context, p) {
        NearIsShown(ops, context, hunks, ws, p);
      }
    }
  }
}
