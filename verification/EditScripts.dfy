/**
 Line edit scripts: what it means for a list of operations to turn one list of
 lines into another, what such a script costs, and the two facts the diff rests
 on: every script can be reversed, and a line shared by both ends of the texts
 never has to be edited.
 */
module EditScripts {

  datatype OpKind = Keep | Remove | Add

  // One line of an alignment: a kept line, a line of the old text, or a line of the new text.
  datatype Op = Op(kind: OpKind, text: string)

  // The old text an alignment speaks of: its kept and removed lines.
  function OldText(ops: seq<Op>): seq<string> {
    if ops == [] then []
    else (if ops[0].kind == Add then [] else [ops[0].text]) + OldText(ops[1..])
  }

  // The new text an alignment speaks of: its kept and added lines.
  function NewText(ops: seq<Op>): seq<string> {
    if ops == [] then []
    else (if ops[0].kind == Remove then [] else [ops[0].text]) + NewText(ops[1..])
  }

  // The number of operations of one kind.
  function Count(ops: seq<Op>, kind: OpKind): nat {
    if ops == [] then 0 else (if ops[0].kind == kind then 1 else 0) + Count(ops[1..], kind)
  }

  function Edits(ops: seq<Op>): nat {
    Count(ops, Remove) + Count(ops, Add)
  }

  ghost predicate IsScript(ops: seq<Op>, a: seq<string>, b: seq<string>) {
    OldText(ops) == a && NewText(ops) == b
  }

  // No script from a to b has fewer than cost edits.
  ghost predicate CostsAtLeast(a: seq<string>, b: seq<string>, cost: int) {
    forall ops :: IsScript(ops, a, b) ==> cost <= Edits(ops)
  }

  // cost is the edit distance from a to b: some script has it, none has less.
  ghost predicate IsEditDistance(a: seq<string>, b: seq<string>, cost: int) {
    && (exists ops :: IsScript(ops, a, b) && Edits(ops) == cost)
    && CostsAtLeast(a, b, cost)
  }

  lemma {:induction false} ConcatOld(s: seq<Op>, t: seq<Op>)
    ensures OldText(s + t) == OldText(s) + OldText(t)
  {
    if s == [] {
      assert s + t == t;
    } else {
      var st := s + t;
      assert st[0] == s[0] && st[1..] == s[1..] + t;
      ConcatOld(s[1..], t);
    }
  }

  lemma {:induction false} ConcatNew(s: seq<Op>, t: seq<Op>)
    ensures NewText(s + t) == NewText(s) + NewText(t)
  {
    if s == [] {
      assert s + t == t;
    } else {
      var st := s + t;
      assert st[0] == s[0] && st[1..] == s[1..] + t;
      ConcatNew(s[1..], t);
    }
  }

  lemma {:induction false} ConcatCounts(s: seq<Op>, t: seq<Op>, kind: OpKind)
    ensures Count(s + t, kind) == Count(s, kind) + Count(t, kind)
  {
    if s == [] {
      assert s + t == t;
    } else {
      ConcatCounts(s[1..], t, kind);
      assert (s + t)[1..] == s[1..] + t;
    }
  }

  lemma Concat(s: seq<Op>, t: seq<Op>)
    ensures OldText(s + t) == OldText(s) + OldText(t)
    ensures NewText(s + t) == NewText(s) + NewText(t)
    ensures forall kind :: Count(s + t, kind) == Count(s, kind) + Count(t, kind)
    ensures Edits(s + t) == Edits(s) + Edits(t)
  {
    ConcatOld(s, t);
    ConcatNew(s, t);
    forall kind ensures Count(s + t, kind) == Count(s, kind) + Count(t, kind) {
      ConcatCounts(s, t, kind);
    }
  }

  lemma Single(o: Op)
    ensures OldText([o]) == (if o.kind == Add then [] else [o.text])
    ensures NewText([o]) == (if o.kind == Remove then [] else [o.text])
    ensures forall kind :: Count([o], kind) == if o.kind == kind then 1 else 0
  {
  }

  // A script split at one operation, as the walks that grow scripts at either end need it.
  lemma Snoc(s: seq<Op>, o: Op)
    ensures OldText(s + [o]) == OldText(s) + (if o.kind == Add then [] else [o.text])
    ensures NewText(s + [o]) == NewText(s) + (if o.kind == Remove then [] else [o.text])
    ensures forall kind :: Count(s + [o], kind) == Count(s, kind) + if o.kind == kind then 1 else 0
  {
    Concat(s, [o]);
    Single(o);
  }

  // All of one text in operations of one kind.
  function All(kind: OpKind, text: seq<string>): (ops: seq<Op>)
    ensures |ops| == |text|
    ensures forall i :: 0 <= i < |text| ==> ops[i] == Op(kind, text[i])
  {
    seq(|text|, i requires 0 <= i < |text| => Op(kind, text[i]))
  }

  lemma {:induction false} AllTexts(kind: OpKind, text: seq<string>)
    ensures OldText(All(kind, text)) == if kind == Add then [] else text
    ensures NewText(All(kind, text)) == if kind == Remove then [] else text
    ensures forall k :: Count(All(kind, text), k) == if k == kind then |text| else 0
  {
    if text != [] {
      AllTexts(kind, text[1..]);
      assert All(kind, text)[1..] == All(kind, text[1..]);
      assert text == [text[0]] + text[1..];
    }
  }

  // The lengths of the two texts fix the balance of additions and removals.
  lemma {:induction false} Balance(ops: seq<Op>)
    ensures |OldText(ops)| - Count(ops, Remove) == |NewText(ops)| - Count(ops, Add) == Count(ops, Keep)
  {
    if ops != [] {
      Balance(ops[1..]);
    }
  }

  // ---------- Reversal ----------

  function Reversed<T>(s: seq<T>): (r: seq<T>)
    ensures |r| == |s|
    ensures forall i :: 0 <= i < |s| ==> r[i] == s[|s| - 1 - i]
  {
    seq(|s|, i requires 0 <= i < |s| => s[|s| - 1 - i])
  }

  lemma {:induction false} ReversedScript(ops: seq<Op>)
    ensures OldText(Reversed(ops)) == Reversed(OldText(ops))
    ensures NewText(Reversed(ops)) == Reversed(NewText(ops))
    ensures Edits(Reversed(ops)) == Edits(ops)
  {
    if |ops| == 0 {
      assert |Reversed(ops)| == 0;
    } else {
      var o, rest := ops[0], ops[1..];
      ReversedScript(rest);
      assert Reversed(ops) == Reversed(rest) + [o];
      Snoc(Reversed(rest), o);
      ReversedConcat(if o.kind == Add then [] else [o.text], OldText(rest));
      ReversedConcat(if o.kind == Remove then [] else [o.text], NewText(rest));
    }
  }

  // ---------- A shared first or last line costs nothing ----------

  // The script that no longer produces its first new line.
  function WithoutFirstNew(ops: seq<Op>): (r: seq<Op>)
    requires NewText(ops) != []
    ensures OldText(r) == OldText(ops)
    ensures [NewText(ops)[0]] + NewText(r) == NewText(ops)
    ensures Edits(r) <= Edits(ops) + 1
  {
    match ops[0].kind
    case Add => ops[1..]
    case Keep =>
      var r := [Op(Remove, ops[0].text)] + ops[1..];
      assert r[1..] == ops[1..];
      r
    case Remove =>
      var rest := WithoutFirstNew(ops[1..]);
      var r := [ops[0]] + rest;
      assert r[1..] == rest;
      r
  }

  // The script that no longer consumes its first old line.
  function WithoutFirstOld(ops: seq<Op>): (r: seq<Op>)
    requires OldText(ops) != []
    ensures NewText(r) == NewText(ops)
    ensures [OldText(ops)[0]] + OldText(r) == OldText(ops)
    ensures Edits(r) <= Edits(ops) + 1
  {
    match ops[0].kind
    case Remove => ops[1..]
    case Keep =>
      var r := [Op(Add, ops[0].text)] + ops[1..];
      assert r[1..] == ops[1..];
      r
    case Add =>
      var rest := WithoutFirstOld(ops[1..]);
      var r := [ops[0]] + rest;
      assert r[1..] == rest;
      r
  }

  lemma DropSharedFirst(ops: seq<Op>, line: string, a: seq<string>, b: seq<string>) returns (r: seq<Op>)
    requires IsScript(ops, [line] + a, [line] + b)
    ensures IsScript(r, a, b)
    ensures Edits(r) <= Edits(ops)
  {
    assert OldText(ops) != [] && NewText(ops) != [];
    var rest := ops[1..];
    match ops[0].kind {
      case Keep =>
        r := rest;
      case Remove =>
        assert NewText(rest) == [line] + b;
        r := WithoutFirstNew(rest);
      case Add =>
        assert OldText(rest) == [line] + a;
        r := WithoutFirstOld(rest);
    }
    assert ([line] + a)[1..] == a && ([line] + b)[1..] == b;
  }

  lemma {:induction false} DropSharedPrefix(ops: seq<Op>, p: seq<string>, a: seq<string>, b: seq<string>) returns (r: seq<Op>)
    requires IsScript(ops, p + a, p + b)
    ensures IsScript(r, a, b)
    ensures Edits(r) <= Edits(ops)
    decreases |p|
  {
    if p == [] {
      assert p + a == a && p + b == b;
      r := ops;
    } else {
      assert p + a == [p[0]] + (p[1..] + a) && p + b == [p[0]] + (p[1..] + b);
      r := DropSharedFirst(ops, p[0], p[1..] + a, p[1..] + b);
      r := DropSharedPrefix(r, p[1..], a, b);
    }
  }

  lemma ReversedConcat<T>(s: seq<T>, t: seq<T>)
    ensures Reversed(s + t) == Reversed(t) + Reversed(s)
    ensures Reversed(Reversed(s)) == s
  {
  }

  // Trimming a shared prefix p and suffix q keeps the edit distance.
  lemma TrimmedCost(p: seq<string>, a: seq<string>, b: seq<string>, q: seq<string>, cost: int)
    requires CostsAtLeast(a, b, cost)
    ensures CostsAtLeast(p + a + q, p + b + q, cost)
  {
    forall ops | IsScript(ops, p + a + q, p + b + q)
      ensures cost <= Edits(ops)
    {
      assert p + a + q == p + (a + q) && p + b + q == p + (b + q);
      var r := DropSharedPrefix(ops, p, a + q, b + q);
      ReversedScript(r);
      ReversedConcat(a, q);
      ReversedConcat(b, q);
      r := DropSharedPrefix(Reversed(r), Reversed(q), Reversed(a), Reversed(b));
      ReversedScript(r);
      ReversedConcat(a, a);
      ReversedConcat(b, b);
      assert IsScript(Reversed(r), a, b);
    }
  }
}
