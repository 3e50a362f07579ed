/** The string operations the cron parser uses, with what it relies on about them. */
module Texts {
  import opened Wrappers

  const MAX_INT64 := 0x7FFF_FFFF_FFFF_FFFF

  // The index of the first c, or the length of the text.
  function IndexOf(s: string, c: char): (i: nat)
    ensures i <= |s| && (i < |s| ==> s[i] == c) && forall j :: 0 <= j < i ==> s[j] != c
  {
    if |s| == 0 || s[0] == c then 0 else 1 + IndexOf(s[1..], c)
  }

  predicate Contains(s: string, c: char) {
    c in s
  }

  // The text before and after the first separator.
  function CutBefore(s: string, c: char): string { s[..IndexOf(s, c)] }

  function CutAfter(s: string, c: char): string {
    if IndexOf(s, c) < |s| then s[IndexOf(s, c) + 1..] else ""
  }

  // The stretches between separators; there is always at least one.
  function Split(s: string, c: char): (parts: seq<string>)
    ensures |parts| >= 1
    decreases |s|
  {
    if IndexOf(s, c) == |s| then [s] else [CutBefore(s, c)] + Split(CutAfter(s, c), c)
  }

  function Join(parts: seq<string>, c: char): string
    requires |parts| >= 1
    decreases |parts|
  {
    if |parts| == 1 then parts[0] else parts[0] + [c] + Join(parts[1..], c)
  }

  // A Unicode space.
  predicate IsBlank(c: char) {
    var n := c as int;
    || 9 <= n <= 13 || n == 32 || n == 0x85 || n == 0xA0 || n == 0x1680 || 0x2000 <= n <= 0x200A
    || n == 0x2028 || n == 0x2029 || n == 0x202F || n == 0x205F || n == 0x3000
  }

  // The length of the leading run without blanks.
  function WordLength(s: string): (n: nat)
    ensures n <= |s| && (n < |s| ==> IsBlank(s[n])) && forall j :: 0 <= j < n ==> !IsBlank(s[j])
  {
    if |s| == 0 || IsBlank(s[0]) then 0 else 1 + WordLength(s[1..])
  }

  // The words of a text.
  function Fields(s: string): seq<string>
    decreases |s|
  {
    if |s| == 0 then []
    else if IsBlank(s[0]) then Fields(s[1..])
    else [s[..WordLength(s)]] + Fields(s[WordLength(s)..])
  }

  predicate IsDigit(c: char) {
    '0' <= c <= '9'
  }

  function DigitValue(c: char): int {
    c as int - '0' as int
  }

  predicate AllDigits(s: string) {
    forall i :: 0 <= i < |s| ==> IsDigit(s[i])
  }

  function DigitsValue(s: string): nat
    requires AllDigits(s)
  {
    if |s| == 0 then 0 else 10 * DigitsValue(s[..|s| - 1]) + DigitValue(s[|s| - 1])
  }

  function Unsigned(s: string): Option<nat> {
    if |s| > 0 && AllDigits(s) then Some(DigitsValue(s)) else None
  }

  // A decimal number with an optional sign that fits 64 bits.
  function Atoi(s: string): Option<int> {
    if |s| > 0 && s[0] == '-' then
      match Unsigned(s[1..])
      case Some(n) => if n <= MAX_INT64 + 1 then Some(0 - n) else None
      case None => None
    else
      match Unsigned(if |s| > 0 && s[0] == '+' then s[1..] else s)
      case Some(n) => if n <= MAX_INT64 then Some(n) else None
      case None => None
  }

  // ---------- Rendering and what it undoes ----------

  function Digit(n: nat): char
    requires n < 10
  {
    '0' + n as char
  }

  function Decimal(n: nat): (s: string)
    ensures |s| > 0 && AllDigits(s)
  {
    if n < 10 then [Digit(n)] else Decimal(n / 10) + [Digit(n % 10)]
  }

  lemma {:induction false} DecimalValue(n: nat)
    ensures DigitsValue(Decimal(n)) == n
  {
    var s := Decimal(n);
    if n < 10 {
      assert s[..0] == "";
    } else {
      DecimalValue(n / 10);
      assert s[..|s| - 1] == Decimal(n / 10);
    }
  }

  lemma AtoiDecimal(n: nat)
    ensures Atoi(Decimal(n)) == if n <= MAX_INT64 then Some(n) else None
  {
    DecimalValue(n);
    assert IsDigit(Decimal(n)[0]);
  }

  // A sign is allowed before the digits, and the least number has no positive counterpart.
  lemma AtoiSigned(n: nat)
    ensures Atoi(['+'] + Decimal(n)) == if n <= 0x7FFF_FFFF_FFFF_FFFF then Some(n) else None
    ensures Atoi(['-'] + Decimal(n)) == if n <= 0x8000_0000_0000_0000 then Some(0 - n) else None
  {
    DecimalValue(n);
    assert (['+'] + Decimal(n))[1..] == Decimal(n) && (['-'] + Decimal(n))[1..] == Decimal(n);
  }

  lemma IndexIn(before: string, c: char, after: string)
    requires c !in before
    ensures IndexOf(before + [c] + after, c) == |before|
    ensures CutBefore(before + [c] + after, c) == before && CutAfter(before + [c] + after, c) == after
  {
    var s := before + [c] + after;
    var i := IndexOf(s, c);
    assert s[|before|] == c;
    assert forall j :: 0 <= j < |before| ==> s[j] == before[j];
  }

  lemma NotIn(s: string, c: char)
    ensures c !in s <==> IndexOf(s, c) == |s|
  {
  }

  lemma {:induction false} SplitJoin(parts: seq<string>, c: char)
    requires |parts| >= 1 && forall p :: p in parts ==> c !in p
    ensures Split(Join(parts, c), c) == parts
    decreases |parts|
  {
    if |parts| == 1 {
      NotIn(parts[0], c);
    } else {
      IndexIn(parts[0], c, Join(parts[1..], c));
      SplitJoin(parts[1..], c);
    }
  }

  predicate IsWord(s: string) {
    |s| > 0 && forall i :: 0 <= i < |s| ==> !IsBlank(s[i])
  }

  lemma WordThenBlank(word: string, rest: string)
    requires IsWord(word) && (rest == "" || IsBlank(rest[0]))
    ensures Fields(word + rest) == [word] + Fields(rest)
  {
    var s := word + rest;
    var n := WordLength(s);
    assert forall j :: 0 <= j < |word| ==> s[j] == word[j];
    assert rest != "" ==> s[|word|] == rest[0];
    assert n == |word|;
    assert s[..n] == word && s[n..] == rest;
  }

  lemma {:induction false} FieldsJoin(words: seq<string>)
    requires |words| >= 1 && forall w :: w in words ==> IsWord(w)
    ensures Fields(Join(words, ' ')) == words
    decreases |words|
  {
    if |words| == 1 {
      WordThenBlank(words[0], "");
      assert words[0] + "" == words[0];
    } else {
      FieldsJoin(words[1..]);
      var rest := [' '] + Join(words[1..], ' ');
      assert Join(words, ' ') == words[0] + rest;
      WordThenBlank(words[0], rest);
      assert rest[1..] == Join(words[1..], ' ');
    }
  }
}
