/**
 Expressions whose five fields are single numbers or stars: which of them are
 accepted, and the wall clock times each one matches.
 */
module PlainSchedules {
  import opened Wrappers
  import opened Texts
  import opened Calendar
  import opened CronSearch
  import opened CronText
  import opened CronMeaning
  import RareSchedules

  // The text of a field: its number, or a star when there is none.
  function Word(n: Option<nat>): string {
    if n.Some? then Decimal(n.value) else "*"
  }

  datatype Plain = Plain(minute: Option<nat>, hour: Option<nat>, dom: Option<nat>, month: Option<nat>, dow: Option<nat>)

  function Text(p: Plain): string {
    Word(p.minute) + [' '] + Word(p.hour) + [' '] + Word(p.dom) + [' '] + Word(p.month) + [' '] + Word(p.dow)
  }

  // A number that is given lies between the bounds of its field.
  predicate InRange(n: Option<nat>, low: nat, high: nat) {
    n.Some? ==> low <= n.value <= high
  }

  function Field(n: Option<nat>): List {
    [Entry(if n.Some? then One(n.value) else Every, None)]
  }

  function Lists(p: Plain): seq<List> {
    [Field(p.minute), Field(p.hour), Field(p.dom), Field(p.month), Field(p.dow)]
  }

  lemma FieldText(n: Option<nat>)
    ensures ListText(Field(n)) == Word(n)
  {
    assert EntryTexts(Field(n)) == [Word(n)];
  }

  lemma PlainText(p: Plain)
    ensures ScheduleText(Lists(p)) == Text(p)
  {
    FieldText(p.minute);
    FieldText(p.hour);
    FieldText(p.dom);
    FieldText(p.month);
    FieldText(p.dow);
    hide ListText, Word, Field, Join;
    assert ListTexts(Lists(p)) == [Word(p.minute), Word(p.hour), Word(p.dom), Word(p.month), Word(p.dow)];
    RareSchedules.JoinedFields(Word(p.minute), Word(p.hour), Word(p.dom), Word(p.month), Word(p.dow));
  }

  lemma FieldMeans(n: Option<nat>, low: nat, high: nat)
    requires low <= high < BITS
    ensures AllLegal(Field(n), low, high) <==> InRange(n, low, high)
    ensures InRange(n, low, high) ==> AllFaithful(Field(n), low, high)
    ensures forall v :: low <= v <= high ==> (ListSays(Field(n), low, high, v) <==> (n.Some? ==> v == n.value))
    ensures forall v :: !(low <= v <= high) && InRange(n, low, high) ==> !ListSays(Field(n), low, high, v)
    ensures Restricted(Field(n)) <==> n.Some?
  {
    var e := Field(n)[0];
    assert Legal(e, low, high) <==> InRange(n, low, high);
    assert forall v :: ListSays(Field(n), low, high, v) <==> Says(e, low, high, v);
    if n.Some? {
      forall v ensures Says(e, low, high, v) <==> v == n.value {
      }
    }
  }

  // Accepted are minutes to 59, hours to 23, days from 1 to 31, months from 1 to 12, weekdays to 7.
  lemma Accepted(p: Plain)
    ensures ParsedCron(Text(p)).Parsed? <==>
              && InRange(p.minute, 0, 59) && InRange(p.hour, 0, 23) && InRange(p.dom, 1, 31) && InRange(p.month, 1, 12)
              && InRange(p.dow, 0, 7)
  {
    hide ParsedCron, ScheduleText, Text, Field, AllLegal;
    PlainText(p);
    ScheduleReads(Lists(p));
    FieldMeans(p.minute, 0, 59);
    FieldMeans(p.hour, 0, 23);
    FieldMeans(p.dom, 1, 31);
    FieldMeans(p.month, 1, 12);
    FieldMeans(p.dow, 0, 7);
    var lists := Lists(p);
    assert forall i :: 0 <= i < FIELDS ==> (FieldLegal(lists, i) <==> AllLegal(lists[i], LowOf(i), HighOf(i)));
    assert FieldLegal(lists, 0) <==> AllLegal(Field(p.minute), 0, 59);
    assert FieldLegal(lists, 1) <==> AllLegal(Field(p.hour), 0, 23);
    assert FieldLegal(lists, 2) <==> AllLegal(Field(p.dom), 1, 31);
    assert FieldLegal(lists, 3) <==> AllLegal(Field(p.month), 1, 12);
    assert FieldLegal(lists, 4) <==> AllLegal(Field(p.dow), 0, 7);
  }

  // What the entries say, once each field is known by itself.
  lemma SaysExactly(p: Plain, t: int, date: Date, weekday: int)
    requires date == DateOf(DayOf(t)) && weekday == Weekday(DayOf(t))
    requires InRange(p.minute, 0, 59) && InRange(p.hour, 0, 23) && InRange(p.dom, 1, 31) && InRange(p.month, 1, 12)
             && InRange(p.dow, 0, 7)
    ensures ScheduleSays(Lists(p), t) <==>
              && (p.minute.Some? ==> MinuteOf(t) == p.minute.value)
              && (p.hour.Some? ==> HourOf(t) == p.hour.value)
              && (p.month.Some? ==> date.month == p.month.value)
              && var dom, dow := p.dom.Some? && date.day == p.dom.value,
                                 p.dow.Some? && weekday == p.dow.value % 7;
                 if p.dom.Some? && p.dow.Some? then dom || dow
                 else (p.dom.Some? ==> dom) && (p.dow.Some? ==> dow)
  {
    hide Field, ListSays, DateOf, MonthLength, Restricted, DayOf;
    FieldMeans(p.minute, 0, 59);
    FieldMeans(p.hour, 0, 23);
    FieldMeans(p.dom, 1, 31);
    FieldMeans(p.month, 1, 12);
    FieldMeans(p.dow, 0, 7);
  }

  lemma AllFieldsFaithful(p: Plain)
    requires InRange(p.minute, 0, 59) && InRange(p.hour, 0, 23) && InRange(p.dom, 1, 31) && InRange(p.month, 1, 12)
             && InRange(p.dow, 0, 7)
    ensures forall i :: 0 <= i < FIELDS ==> FieldFaithful(Lists(p), i)
  {
    hide Field, AllFaithful, AllLegal, ListSays, Restricted;
    FieldMeans(p.minute, 0, 59);
    FieldMeans(p.hour, 0, 23);
    FieldMeans(p.dom, 1, 31);
    FieldMeans(p.month, 1, 12);
    FieldMeans(p.dow, 0, 7);
  }

  // An accepted expression matches the minutes whose wall clock shows its numbers; of a day of the month and
  // a weekday that are both given, either one is enough, and 7 is Sunday.
  lemma MatchesExactly(p: Plain, t: int)
    requires ParsedCron(Text(p)).Parsed?
    ensures Matches(ParsedCron(Text(p)).cron, t) <==>
              && (p.minute.Some? ==> t % 60 == p.minute.value)
              && (p.hour.Some? ==> t % 1440 / 60 == p.hour.value)
              && (p.month.Some? ==> DateOf(t / 1440).month == p.month.value)
              && var dom, dow := p.dom.Some? && DateOf(t / 1440).day == p.dom.value,
                                 p.dow.Some? && (t / 1440 + 1) % 7 == p.dow.value % 7;
                 if p.dom.Some? && p.dow.Some? then dom || dow
                 else (p.dom.Some? ==> dom) && (p.dow.Some? ==> dow)
  {
    hide ParsedCron, ScheduleText, Text, DateOf, Matches, ScheduleSays, FieldLegal, FieldFaithful;
    Accepted(p);
    PlainText(p);
    ScheduleReads(Lists(p));
    AllFieldsFaithful(p);
    SaysExactly(p, t, DateOf(DayOf(t)), Weekday(DayOf(t)));
  }
}
