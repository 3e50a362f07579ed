/**
 What a cron expression says, apart from how it is parsed: a schedule is five lists of
 entries, and the parsed form of its text matches a minute exactly when the entries do.
 */
module CronMeaning {
  import opened Wrappers
  import opened Texts
  import opened Calendar
  import opened CronSearch
  import opened CronText

  datatype Span = Every | One(n: nat) | Between(first: nat, last: nat)

  datatype Entry = Entry(span: Span, step: Option<nat>)

  type List = entries: seq<Entry> | |entries| >= 1 witness [Entry(Every, None)]

  // ---------- Meaning ----------

  function StepOf(e: Entry): nat {
    if e.step.Some? then e.step.value else 1
  }

  function FirstOf(e: Entry, low: nat): nat {
    match e.span
    case Every => low
    case One(n) => n
    case Between(first, _) => first
  }

  // A stepped value runs to the end of its field.
  function LastOf(e: Entry, high: nat): nat {
    match e.span
    case Every => high
    case One(n) => if e.step.Some? then high else n
    case Between(_, last) => last
  }

  predicate Legal(e: Entry, low: nat, high: nat) {
    && 1 <= StepOf(e) <= MAX_INT64
    && low <= FirstOf(e, low) <= MAX_INT64 && LastOf(e, high) <= high
    && (e.span.Between? ==> e.span.first <= e.span.last)
  }

  predicate Faithful(e: Entry, low: nat, high: nat) {
    StepIsFaithful(FirstOf(e, low), LastOf(e, high), StepOf(e))
  }

  predicate Says(e: Entry, low: nat, high: nat, v: int) {
    StepOf(e) >= 1 && InStep(v, FirstOf(e, low), LastOf(e, high), StepOf(e))
  }

  predicate ListSays(entries: seq<Entry>, low: nat, high: nat, v: int) {
    exists i :: 0 <= i < |entries| && Says(entries[i], low, high, v)
  }

  predicate Has(lists: seq<List>, field: nat, v: int)
    requires field < |lists| == FIELDS
  {
    ListSays(lists[field], LowOf(field), HighOf(field), v)
  }

  // A day field that starts with a star leaves the other one to decide.
  predicate Restricted(entries: List) {
    entries[0].span != Every
  }

  predicate DaySays(lists: seq<List>, day: int)
    requires |lists| == FIELDS
  {
    var dom := Has(lists, 2, DateOf(day).day);
    var dow := Has(lists, 4, Weekday(day)) || (Weekday(day) == 0 && Has(lists, 4, 7));
    if Restricted(lists[2]) && Restricted(lists[4]) then dom || dow else dom && dow
  }

  predicate ScheduleSays(lists: seq<List>, t: int)
    requires |lists| == FIELDS
  {
    && Has(lists, 0, MinuteOf(t)) && Has(lists, 1, HourOf(t))
    && DaySays(lists, DayOf(t)) && Has(lists, 3, DateOf(DayOf(t)).month)
  }

  // ---------- Text ----------

  function SpanText(span: Span): string {
    match span
    case Every => "*"
    case One(n) => Decimal(n)
    case Between(first, last) => Decimal(first) + ['-'] + Decimal(last)
  }

  function EntryText(e: Entry): string {
    if e.step.Some? then SpanText(e.span) + ['/'] + Decimal(e.step.value) else SpanText(e.span)
  }

  function EntryTexts(entries: seq<Entry>): seq<string> {
    seq(|entries|, i requires 0 <= i < |entries| => EntryText(entries[i]))
  }

  function ListText(entries: List): string {
    Join(EntryTexts(entries), ',')
  }

  function ListTexts(lists: seq<List>): seq<string> {
    seq(|lists|, i requires 0 <= i < |lists| => ListText(lists[i]))
  }

  function ScheduleText(lists: seq<List>): string
    requires |lists| >= 1
  {
    Join(ListTexts(lists), ' ')
  }

  // ---------- Reading an entry ----------

  predicate CronChar(c: char) {
    IsDigit(c) || c == '*' || c == '-' || c == '/'
  }

  lemma SpanChars(span: Span)
    ensures |SpanText(span)| > 0
    ensures forall i :: 0 <= i < |SpanText(span)| ==> CronChar(SpanText(span)[i]) && SpanText(span)[i] != '/'
    ensures SpanText(span)[0] == '*' <==> span == Every
    ensures SpanText(span) == "*" <==> span == Every
  {
    if span.Between? { assert SpanText(span)[0] == Decimal(span.first)[0]; }
  }

  lemma EntryChars(e: Entry)
    ensures |EntryText(e)| > 0 && forall i :: 0 <= i < |EntryText(e)| ==> CronChar(EntryText(e)[i])
    ensures EntryText(e)[0] == '*' <==> e.span == Every
  {
    SpanChars(e.span);
    assert EntryText(e)[0] == SpanText(e.span)[0];
  }

  lemma EntryCut(e: Entry)
    ensures '/' in EntryText(e) <==> e.step.Some?
    ensures CutBefore(EntryText(e), '/') == SpanText(e.span)
    ensures e.step.Some? ==> CutAfter(EntryText(e), '/') == Decimal(e.step.value)
  {
    SpanChars(e.span);
    if e.step.Some? {
      IndexIn(SpanText(e.span), '/', Decimal(e.step.value));
      assert EntryText(e)[|SpanText(e.span)|] == '/';
    } else {
      NotIn(EntryText(e), '/');
    }
  }

  lemma SpanCut(span: Span)
    ensures '-' in SpanText(span) <==> span.Between?
    ensures span.Between? ==>
              && CutBefore(SpanText(span), '-') == Decimal(span.first)
              && CutAfter(SpanText(span), '-') == Decimal(span.last)
  {
    if span.Between? {
      IndexIn(Decimal(span.first), '-', Decimal(span.last));
      assert SpanText(span)[|Decimal(span.first)|] == '-';
    }
  }

  lemma StarText(span: Span)
    ensures SpanText(span) == "*" <==> span == Every
  {
    SpanChars(span);
  }

  ghost predicate ReadsAsIs(e: Entry, low: nat, high: nat)
    requires low <= high < BITS
  {
    var r := ReadPart(EntryText(e), low, high);
    && (r.Part? <==> Legal(e, low, high))
    && (Legal(e, low, high) ==> r == Part(FirstOf(e, low), LastOf(e, high), StepOf(e)))
  }

  lemma EveryReads(e: Entry, low: nat, high: nat)
    requires low <= high < BITS && e.span == Every
    ensures ReadsAsIs(e, low, high)
  {
    hide Atoi, CutBefore, CutAfter, EntryText, SpanText, Decimal, IndexOf;
    EntryCut(e);
    StarText(e.span);
    if e.step.Some? { AtoiDecimal(e.step.value); }
  }

  lemma OneReads(e: Entry, low: nat, high: nat)
    requires low <= high < BITS && e.span.One?
    ensures ReadsAsIs(e, low, high)
  {
    hide Atoi, CutBefore, CutAfter, EntryText, Decimal, IndexOf;
    EntryCut(e);
    StarText(e.span);
    SpanCut(e.span);
    if e.step.Some? { AtoiDecimal(e.step.value); }
    AtoiDecimal(e.span.n);
  }

  lemma BetweenReads(e: Entry, low: nat, high: nat)
    requires low <= high < BITS && e.span.Between?
    ensures ReadsAsIs(e, low, high)
  {
    hide Atoi, CutBefore, CutAfter, EntryText, SpanText, Decimal, IndexOf;
    EntryCut(e);
    StarText(e.span);
    SpanCut(e.span);
    if e.step.Some? { AtoiDecimal(e.step.value); }
    AtoiDecimal(e.span.first);
    AtoiDecimal(e.span.last);
  }

  // An entry's text is accepted exactly when it is legal, and then reads as the entry.
  lemma EntryReads(e: Entry, low: nat, high: nat)
    requires low <= high < BITS
    ensures ReadPart(EntryText(e), low, high).Part? <==> Legal(e, low, high)
    ensures Legal(e, low, high) ==>
              ReadPart(EntryText(e), low, high) == Part(FirstOf(e, low), LastOf(e, high), StepOf(e))
  {
    hide ReadPart, EntryText, Legal;
    match e.span
    case Every => EveryReads(e, low, high);
    case One(_) => OneReads(e, low, high);
    case Between(_, _) => BetweenReads(e, low, high);
  }

  lemma EntryMarks(e: Entry, low: nat, high: nat, v: int)
    requires low <= high < BITS && Legal(e, low, high) && Faithful(e, low, high)
    ensures Marked(EntryText(e), low, high, v) <==> Says(e, low, high, v)
  {
    EntryReads(e, low, high);
    hide ReadPart, Marks;
    StepLoopIsExact(FirstOf(e, low), LastOf(e, high), StepOf(e));
  }

  // ---------- Reading a list and a schedule ----------

  ghost predicate AllLegal(entries: seq<Entry>, low: nat, high: nat) {
    forall i :: 0 <= i < |entries| ==> Legal(entries[i], low, high)
  }

  ghost predicate AllFaithful(entries: seq<Entry>, low: nat, high: nat) {
    forall i :: 0 <= i < |entries| ==> Faithful(entries[i], low, high)
  }

  lemma ListReads(entries: List, low: nat, high: nat)
    requires low <= high < BITS
    ensures ParsedField(ListText(entries), low, high).Bits? <==> AllLegal(entries, low, high)
    ensures AllLegal(entries, low, high) && AllFaithful(entries, low, high) ==>
              forall v :: v in ParsedField(ListText(entries), low, high).bits <==> ListSays(entries, low, high, v)
  {
    var texts := EntryTexts(entries);
    forall i | 0 <= i < |texts| ensures ',' !in texts[i] && (ReadPart(texts[i], low, high).Part? <==> Legal(entries[i], low, high)) {
      EntryChars(entries[i]);
      EntryReads(entries[i], low, high);
    }
    hide ReadPart, EntryText, Marked;
    SplitJoin(texts, ',');
    PartsMean(texts, |texts|, low, high);
    if AllLegal(entries, low, high) && AllFaithful(entries, low, high) {
      forall i, v | 0 <= i < |texts|
        ensures Marked(texts[i], low, high, v) <==> Says(entries[i], low, high, v)
      {
        EntryMarks(entries[i], low, high, v);
      }
    }
  }

  lemma {:induction false} JoinedChars(texts: seq<string>)
    requires |texts| >= 1
    requires forall i :: 0 <= i < |texts| ==> |texts[i]| > 0 && forall k :: 0 <= k < |texts[i]| ==> CronChar(texts[i][k])
    ensures IsWord(Join(texts, ',')) && Join(texts, ',')[0] == texts[0][0]
    decreases |texts|
  {
    if |texts| > 1 {
      JoinedChars(texts[1..]);
    }
  }

  lemma ListIsWord(entries: List)
    ensures IsWord(ListText(entries)) && (StartsWithStar(ListText(entries)) <==> !Restricted(entries))
  {
    forall i | 0 <= i < |entries| ensures |EntryText(entries[i])| > 0
      && (forall k :: 0 <= k < |EntryText(entries[i])| ==> CronChar(EntryText(entries[i])[k]))
    {
      EntryChars(entries[i]);
    }
    EntryChars(entries[0]);
    hide EntryText, CronChar;
    JoinedChars(EntryTexts(entries));
  }

  ghost predicate FieldLegal(lists: seq<List>, field: nat)
    requires field < |lists|
  {
    AllLegal(lists[field], LowOf(field), HighOf(field))
  }

  ghost predicate FieldFaithful(lists: seq<List>, field: nat)
    requires field < |lists|
  {
    AllFaithful(lists[field], LowOf(field), HighOf(field))
  }

  lemma {:induction false} FieldsRead(lists: seq<List>, n: nat)
    requires n <= |lists| == FIELDS
    ensures ParsedSets(ListTexts(lists), n).Sets? <==> forall i :: 0 <= i < n ==> FieldLegal(lists, i)
    ensures ParsedSets(ListTexts(lists), n).Sets? ==>
              forall i :: 0 <= i < n ==> ParsedField(ListText(lists[i]), LowOf(i), HighOf(i))
                                         == Bits(ParsedSets(ListTexts(lists), n).sets[i])
  {
    hide ParsedField, ListText;
    if n > 0 {
      FieldsRead(lists, n - 1);
      ListReads(lists[n - 1], LowOf(n - 1), HighOf(n - 1));
      var texts := ListTexts(lists);
      assert ParsedField(texts[n - 1], LowOf(n - 1), HighOf(n - 1)).Bits? <==> FieldLegal(lists, n - 1);
      assert ParsedSets(texts, n).Sets? <==> ParsedSets(texts, n - 1).Sets? && FieldLegal(lists, n - 1);
    }
  }

  lemma FieldHas(lists: seq<List>, sets: seq<set<int>>, field: nat, v: int)
    requires field < |lists| == FIELDS == |sets|
    requires FieldLegal(lists, field) && FieldFaithful(lists, field)
    requires ParsedField(ListText(lists[field]), LowOf(field), HighOf(field)) == Bits(sets[field])
    ensures v in sets[field] <==> Has(lists, field, v)
  {
    hide ParsedField, ListText, ListSays;
    ListReads(lists[field], LowOf(field), HighOf(field));
  }

  // A parsed schedule asks for exactly what the lists say, 7 being another name for Sunday.
  ghost predicate FieldsAre(c: Cron, lists: seq<List>)
    requires |lists| == FIELDS
  {
    && (forall v :: v in c.minute <==> Has(lists, 0, v))
    && (forall v :: v in c.hour <==> Has(lists, 1, v))
    && (forall v :: v in c.dom <==> Has(lists, 2, v))
    && (forall v :: v in c.month <==> Has(lists, 3, v))
    && (forall v :: v in c.dow <==> v != 7 && (Has(lists, 4, v) || (v == 0 && Has(lists, 4, 7))))
    && c.domRestricted == Restricted(lists[2]) && c.dowRestricted == Restricted(lists[4])
  }

  // The text of a schedule is accepted exactly when every entry is legal, and when no huge step wraps
  // around, it parses to what the entries say.
  lemma ScheduleFields(lists: seq<List>)
    requires |lists| == FIELDS
    ensures ParsedCron(ScheduleText(lists)).Parsed? <==> forall i :: 0 <= i < FIELDS ==> FieldLegal(lists, i)
    ensures ParsedCron(ScheduleText(lists)).Parsed? && (forall i :: 0 <= i < FIELDS ==> FieldFaithful(lists, i)) ==>
              FieldsAre(ParsedCron(ScheduleText(lists)).cron, lists)
  {
    var texts := ListTexts(lists);
    forall i | 0 <= i < |texts| ensures IsWord(texts[i]) && (StartsWithStar(texts[i]) <==> !Restricted(lists[i])) {
      ListIsWord(lists[i]);
    }
    hide ListText, Join, Fields, StartsWithStar, Restricted;
    FieldsJoin(texts);
    FieldsRead(lists, FIELDS);
    var r := ParsedCron(ScheduleText(lists));
    if r.Parsed? && (forall i :: 0 <= i < FIELDS ==> FieldFaithful(lists, i)) {
      var sets := ParsedSets(texts, FIELDS).sets;
      forall i, v | 0 <= i < FIELDS ensures v in sets[i] <==> Has(lists, i, v) {
        FieldHas(lists, sets, i, v);
      }
      hide FieldsAre;
      CronOfLists(lists, sets);
    }
  }

  lemma CronOfLists(lists: seq<List>, sets: seq<set<int>>)
    requires |lists| == FIELDS == |sets|
    requires forall i, v :: 0 <= i < FIELDS ==> (v in sets[i] <==> Has(lists, i, v))
    requires forall i :: 0 <= i < FIELDS ==> (StartsWithStar(ListTexts(lists)[i]) <==> !Restricted(lists[i]))
    ensures FieldsAre(CronOf(ListTexts(lists), sets), lists)
  {
    hide Has, StartsWithStar, Restricted, ListText;
  }

  // So the parsed schedule matches exactly the minutes the entries say.
  lemma ScheduleReads(lists: seq<List>)
    requires |lists| == FIELDS
    ensures ParsedCron(ScheduleText(lists)).Parsed? <==> forall i :: 0 <= i < FIELDS ==> FieldLegal(lists, i)
    ensures ParsedCron(ScheduleText(lists)).Parsed? && (forall i :: 0 <= i < FIELDS ==> FieldFaithful(lists, i)) ==>
              forall t :: Matches(ParsedCron(ScheduleText(lists)).cron, t) <==> ScheduleSays(lists, t)
  {
    hide ParsedCron, ScheduleText, FieldLegal, FieldFaithful, FieldsAre, ScheduleSays, Matches;
    ScheduleFields(lists);
    var r := ParsedCron(ScheduleText(lists));
    if r.Parsed? && (forall i :: 0 <= i < FIELDS ==> FieldFaithful(lists, i)) {
      forall t ensures Matches(r.cron, t) <==> ScheduleSays(lists, t) {
        FieldsMatch(lists, r.cron, t);
      }
    }
  }

  lemma FieldsMatch(lists: seq<List>, c: Cron, t: int)
    requires |lists| == FIELDS && FieldsAre(c, lists)
    ensures Matches(c, t) <==> ScheduleSays(lists, t)
  {
    hide Has, Restricted, DateOf;
    assert 0 <= Weekday(DayOf(t)) <= 6;
  }

  // ---------- The stored text ----------

  // The text an expression is stored as: its words, one blank apart.
  function NormalizedCron(expression: string): string {
    var fields := Fields(expression);
    if |fields| == 0 then "" else Join(fields, ' ')
  }

  lemma {:induction false} FieldsAreWords(s: string)
    ensures forall w :: w in Fields(s) ==> IsWord(w)
    decreases |s|
  {
    if |s| > 0 {
      if IsBlank(s[0]) {
        FieldsAreWords(s[1..]);
      } else {
        FieldsAreWords(s[WordLength(s)..]);
      }
    }
  }

  // The stored text has the same fields, so it parses to what was entered, each time the scheduler reads it.
  lemma StoredTextParsesTheSame(expression: string)
    ensures Fields(NormalizedCron(expression)) == Fields(expression)
    ensures ParsedCron(NormalizedCron(expression)) == ParsedCron(expression)
    ensures NormalizedCron(NormalizedCron(expression)) == NormalizedCron(expression)
  {
    hide ParsedSets;
    FieldsAreWords(expression);
    if |Fields(expression)| > 0 {
      FieldsJoin(Fields(expression));
    }
  }
}
