/**
 The text of a cron schedule: five fields separated by blanks, each a comma separated
 list of stars, values and ranges with an optional step. Numbers are 64-bit, and the
 loop that marks the values of a step wraps around as the machine's addition does.
 */
module CronText {
  import opened Wrappers
  import opened Texts
  import opened Calendar
  import opened CronSearch

  const TWO_TO_64 := 0x1_0000_0000_0000_0000
  const BITS := 64

  datatype PartError = BadStep | BadRange | BadValue | OutOfBounds

  // What one entry of a list asks for: every step-th value from start to end.
  datatype Part = Part(start: int, end: int, step: int) | BadPart(error: PartError)

  function ReadPart(part: string, low: int, high: int): (r: Part)
    requires 0 <= low <= high < BITS
    ensures r.Part? ==> low <= r.start <= MAX_INT64 && low <= r.end <= high && 1 <= r.step <= MAX_INT64
  {
    var stepped := '/' in part;
    var step := if stepped then Atoi(CutAfter(part, '/')) else Some(1);
    var range := CutBefore(part, '/');
    if step.None? || step.value < 1 then BadPart(BadStep)
    else if range == "*" then Bounded(low, high, step.value, low, high)
    else if '-' in range then
      var a, b := Atoi(CutBefore(range, '-')), Atoi(CutAfter(range, '-'));
      if a.None? || b.None? || a.value > b.value then BadPart(BadRange)
      else Bounded(a.value, b.value, step.value, low, high)
    else
      match Atoi(range)
      case None => BadPart(BadValue)
      case Some(n) => Bounded(n, if stepped then high else n, step.value, low, high)
  }

  function Bounded(start: int, end: int, step: int, low: int, high: int): Part {
    if start < low || end > high then BadPart(OutOfBounds) else Part(start, end, step)
  }

  // ---------- Marking the values of a step ----------

  // Addition of 64-bit signed integers.
  function Add64(v: int, step: int): int {
    if v + step > MAX_INT64 then v + step - TWO_TO_64 else v + step
  }

  // A shift by a negative count, read as unsigned, marks nothing.
  function Mark(v: int): set<int> {
    if 0 <= v < BITS then {v} else {}
  }

  // Bounds the iterations left. A step within 64 of the largest integer takes a value v below end around
  // to a negative one, and that one to v - 2 * (MAX_INT64 + 1 - step).
  function Remaining(v: int, end: int, step: int): nat {
    if v > end then 0
    else if step <= MAX_INT64 - BITS then end - v + 1
    else if v >= 0 then 3 * v + 2
    else if v + step > end then 1
    else if v + step >= 0 then 3 * (v + step) + 3
    else 3
  }

  // The values the loop marks from v on.
  function Marks(v: int, end: int, step: int): (marks: set<int>)
    requires -MAX_INT64 - 1 <= v <= MAX_INT64 && 0 <= end < BITS && 1 <= step <= MAX_INT64
    requires v >= 0 || step > MAX_INT64 - BITS
    ensures forall u :: u in marks ==> 0 <= u <= end
    decreases Remaining(v, end, step)
  {
    if v > end then {} else Mark(v) + Marks(Add64(v, step), end, step)
  }

  // ---------- What a step means ----------

  predicate InStep(v: int, start: int, end: int, step: int)
    requires step >= 1
  {
    start <= v <= end && (v - start) % step == 0
  }

  // No value of the step wraps around to another value that is marked.
  predicate StepIsFaithful(start: int, end: int, step: int) {
    start > end || start + step <= MAX_INT64 || start < 2 * (MAX_INT64 + 1 - step)
  }

  // The values from v on are v and the values from the next one on.
  lemma NextInStep(u: int, v: int, end: int, step: int)
    requires v <= end && step >= 1
    ensures InStep(u, v, end, step) <==> u == v || InStep(u, v + step, end, step)
  {
    var q, r := (u - v) / step, (u - v) % step;
    assert u - (v + step) == (q - 1) * step + r;
    QuotientAndRemainder(u - (v + step), step, q - 1, r);
    if v < u < v + step {
      QuotientAndRemainder(u - v, step, 0, u - v);
    }
  }

  lemma {:induction false} SmallStep(v: int, end: int, step: int, u: int)
    requires 0 <= v <= MAX_INT64 && 0 <= end < BITS && 1 <= step <= MAX_INT64 - BITS
    ensures u in Marks(v, end, step) <==> InStep(u, v, end, step)
    decreases Remaining(v, end, step)
  {
    if v <= end {
      SmallStep(v + step, end, step, u);
      NextInStep(u, v, end, step);
    }
    hide InStep;
    assert v > end ==> Marks(v, end, step) == {};
    assert v <= end ==> Marks(v, end, step) == {v} + Marks(v + step, end, step);
  }

  // A huge step never reaches a second value above the first.
  lemma HugeStepIsAlone(v: int, end: int, step: int)
    requires v <= end < v + step && step >= 1
    ensures forall u :: InStep(u, v, end, step) <==> u == v
  {
    forall u ensures InStep(u, v, end, step) <==> u == v {
      NextInStep(u, v, end, step);
    }
  }

  // What wraps around lies below the first value.
  lemma HugeStep(v: int, end: int, step: int)
    requires 0 <= v <= end < BITS && MAX_INT64 - BITS < step <= MAX_INT64
    ensures v in Marks(v, end, step)
    ensures v + step <= MAX_INT64 || v < 2 * (MAX_INT64 + 1 - step) ==> Marks(v, end, step) == {v}
    ensures v + step > MAX_INT64 && v >= 2 * (MAX_INT64 + 1 - step) ==>
              v - 2 * (MAX_INT64 + 1 - step) in Marks(v, end, step)
  {
    var w := v + step;
    if w <= MAX_INT64 {
      MarkThen(v, w, end, step);
    } else {
      var back := v - 2 * (MAX_INT64 + 1 - step);
      MarkThen(v, w - TWO_TO_64, end, step);
      MarkThen(w - TWO_TO_64, back, end, step);
      MarkThen(back, if back + step > MAX_INT64 then back + step - TWO_TO_64 else back + step, end, step);
    }
  }

  // One iteration, from v to w; it ends beyond end.
  lemma MarkThen(v: int, w: int, end: int, step: int)
    requires -MAX_INT64 - 1 <= v <= end < BITS && 0 <= end && MAX_INT64 - BITS < step <= MAX_INT64
    requires w == Add64(v, step)
    ensures Marks(v, end, step) == Mark(v) + Marks(w, end, step)
    ensures w > end ==> Marks(w, end, step) == {}
  {
  }

  // The loop marks exactly the values of the step if and only if no value wraps around to a marked one.
  lemma StepLoopIsExact(start: int, end: int, step: int)
    requires 0 <= start <= MAX_INT64 && 0 <= end < BITS && 1 <= step <= MAX_INT64
    ensures StepIsFaithful(start, end, step) <==>
            forall u :: u in Marks(start, end, step) <==> InStep(u, start, end, step)
  {
    if start > end {
    } else if step <= MAX_INT64 - BITS {
      forall u ensures u in Marks(start, end, step) <==> InStep(u, start, end, step) {
        SmallStep(start, end, step, u);
      }
    } else {
      HugeStep(start, end, step);
      HugeStepIsAlone(start, end, step);
      hide InStep, Marks;
      var back := start - 2 * (MAX_INT64 + 1 - step);
      if !StepIsFaithful(start, end, step) {
        assert back in Marks(start, end, step) && !InStep(back, start, end, step);
      }
    }
  }

  // 5/9223372036854775806 asks for minute 5 alone and marks minute 1 as well.
  lemma WrappedStepMarksMore()
    ensures InStep(5, 5, 59, MAX_INT64 - 1) && 5 in Marks(5, 59, MAX_INT64 - 1)
    ensures !InStep(1, 5, 59, MAX_INT64 - 1) && 1 in Marks(5, 59, MAX_INT64 - 1)
  {
    HugeStep(5, 59, MAX_INT64 - 1);
  }

  // An entry is accepted and still marks nothing exactly when it is a stepped value above the bounds.
  lemma MarksNothing(part: string, low: int, high: int)
    requires 0 <= low <= high < BITS && ReadPart(part, low, high).Part?
    ensures var p := ReadPart(part, low, high);
            var range := CutBefore(part, '/');
            Marks(p.start, p.end, p.step) == {} <==>
            '/' in part && range != "*" && '-' !in range && Atoi(range).Some? && Atoi(range).value > high
  {
    var p := ReadPart(part, low, high);
    if p.start <= p.end {
      assert p.start in Marks(p.start, p.end, p.step);
    }
  }

  // ---------- Fields ----------

  datatype FieldResult = Bits(bits: set<int>) | BadField(error: PartError)

  predicate Marked(part: string, low: int, high: int, v: int)
    requires 0 <= low <= high < BITS
  {
    var p := ReadPart(part, low, high);
    p.Part? && v in Marks(p.start, p.end, p.step)
  }

  // The first n entries of a list.
  function ParsedParts(parts: seq<string>, n: nat, low: int, high: int): FieldResult
    requires n <= |parts| && 0 <= low <= high < BITS
  {
    if n == 0 then Bits({})
    else
      var before := ParsedParts(parts, n - 1, low, high);
      if before.BadField? then before
      else
        var p := ReadPart(parts[n - 1], low, high);
        if p.BadPart? then BadField(p.error) else Bits(before.bits + Marks(p.start, p.end, p.step))
  }

  function ParsedField(field: string, low: int, high: int): FieldResult
    requires 0 <= low <= high < BITS
  {
    var parts := Split(field, ',');
    ParsedParts(parts, |parts|, low, high)
  }

  lemma {:induction false} FirstErrorStays(parts: seq<string>, n: nat, k: nat, low: int, high: int)
    requires k <= n <= |parts| && 0 <= low <= high < BITS && ParsedParts(parts, k, low, high).BadField?
    ensures ParsedParts(parts, n, low, high) == ParsedParts(parts, k, low, high)
  {
    if k < n { FirstErrorStays(parts, n - 1, k, low, high); }
  }

  // The field is refused with the error of its first bad entry, or marks what its entries mark.
  lemma {:induction false} PartsMean(parts: seq<string>, n: nat, low: int, high: int)
    requires n <= |parts| && 0 <= low <= high < BITS
    ensures var r := ParsedParts(parts, n, low, high);
            && (r.Bits? <==> forall i :: 0 <= i < n ==> ReadPart(parts[i], low, high).Part?)
            && (r.Bits? ==> forall v :: v in r.bits <==> exists i :: 0 <= i < n && Marked(parts[i], low, high, v))
            && (r.BadField? ==> exists i :: 0 <= i < n && ReadPart(parts[i], low, high) == BadPart(r.error)
                                  && forall j :: 0 <= j < i ==> ReadPart(parts[j], low, high).Part?)
  {
    hide ReadPart, Marks;
    if n > 0 {
      PartsMean(parts, n - 1, low, high);
      var before, r := ParsedParts(parts, n - 1, low, high), ParsedParts(parts, n, low, high);
      var p := ReadPart(parts[n - 1], low, high);
      if r.Bits? {
        assert before.Bits? && p.Part?;
        forall v ensures v in r.bits <==> exists i :: 0 <= i < n && Marked(parts[i], low, high, v) {
          assert v in Marks(p.start, p.end, p.step) <==> Marked(parts[n - 1], low, high, v);
        }
      }
    }
  }

  method ParseCronField(field: string, low: int, high: int) returns (r: FieldResult)
    requires 0 <= low <= high < BITS
    ensures r == ParsedField(field, low, high)
  {
    hide ReadPart;
    var parts := Split(field, ',');
    var bits: set<int> := {};
    var i := 0;
    while i < |parts|
      invariant i <= |parts| && ParsedParts(parts, i, low, high) == Bits(bits)
    {
      var part := ReadPart(parts[i], low, high);
      if part.BadPart? {
        FirstErrorStays(parts, |parts|, i + 1, low, high);
        return BadField(part.error);
      }
      ghost var all := bits + Marks(part.start, part.end, part.step);
      var v := part.start;
      while v <= part.end
        invariant -MAX_INT64 - 1 <= v <= MAX_INT64 && (v >= 0 || part.step > MAX_INT64 - BITS)
        invariant bits + Marks(v, part.end, part.step) == all
        decreases Remaining(v, part.end, part.step)
      {
        bits := bits + Mark(v);
        v := Add64(v, part.step);
      }
      assert bits == all;
      i := i + 1;
    }
    return Bits(bits);
  }

  // ---------- Expressions ----------

  const FIELDS := 5

  function LowOf(field: nat): int {
    if field == 2 || field == 3 then 1 else 0
  }

  function HighOf(field: nat): (high: int)
    ensures LowOf(field) <= high < BITS
  {
    if field == 0 then 59 else if field == 1 then 23 else if field == 2 then 31 else if field == 3 then 12 else 7
  }

  datatype CronResult = Parsed(cron: Cron) | WrongFieldCount | BadCron(field: nat, error: PartError)

  function StartsWithStar(field: string): bool {
    |field| > 0 && field[0] == '*'
  }

  // 7 is another name for Sunday.
  function Sundays(dow: set<int>): set<int> {
    if 7 in dow then dow - {7} + {0} else dow
  }

  datatype SetsResult = Sets(sets: seq<set<int>>) | BadSets(field: nat, error: PartError)

  // The first n fields.
  function ParsedSets(fields: seq<string>, n: nat): (r: SetsResult)
    requires n <= |fields| == FIELDS
    ensures r.Sets? ==> |r.sets| == n
  {
    if n == 0 then Sets([])
    else
      var before := ParsedSets(fields, n - 1);
      if before.BadSets? then before
      else
        match ParsedField(fields[n - 1], LowOf(n - 1), HighOf(n - 1))
        case BadField(error) => BadSets(n - 1, error)
        case Bits(bits) => Sets(before.sets + [bits])
  }

  function CronOf(fields: seq<string>, sets: seq<set<int>>): Cron
    requires |fields| == |sets| == FIELDS
  {
    Cron(sets[0], sets[1], sets[2], sets[3], Sundays(sets[4]), !StartsWithStar(fields[2]), !StartsWithStar(fields[4]))
  }

  function ParsedCron(expression: string): CronResult {
    var fields := Fields(expression);
    if |fields| != FIELDS then WrongFieldCount
    else
      match ParsedSets(fields, FIELDS)
      case BadSets(field, error) => BadCron(field, error)
      case Sets(sets) => Parsed(CronOf(fields, sets))
  }

  lemma {:induction false} FirstBadFieldStays(fields: seq<string>, n: nat, k: nat)
    requires k <= n <= |fields| == FIELDS && ParsedSets(fields, k).BadSets?
    ensures ParsedSets(fields, n) == ParsedSets(fields, k)
  {
    if k < n { FirstBadFieldStays(fields, n - 1, k); }
  }

  method ParseCron(expression: string) returns (r: CronResult)
    ensures r == ParsedCron(expression)
  {
    hide ParsedField;
    var fields := Fields(expression);
    if |fields| != FIELDS {
      return WrongFieldCount;
    }
    var sets: seq<set<int>> := [];
    for i := 0 to FIELDS
      invariant ParsedSets(fields, i) == Sets(sets)
    {
      var field := ParseCronField(fields[i], LowOf(i), HighOf(i));
      if field.BadField? {
        FirstBadFieldStays(fields, FIELDS, i + 1);
        return BadCron(i, field.error);
      }
      sets := sets + [field.bits];
    }
    var dow := sets[4];
    if 7 in dow {
      dow := dow - {7} + {0};
    }
    r := Parsed(Cron(sets[0], sets[1], sets[2], sets[3], dow, !StartsWithStar(fields[2]), !StartsWithStar(fields[4])));
  }
}
