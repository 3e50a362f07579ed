/**
 The text of a stored configuration: line ends are unified, trailing blanks and
 empty lines at either end are dropped, and doing it again changes nothing.
 */
module Configurations {
  import opened Texts

  // Also the separators that only the worker's language strips.
  predicate IsSpace(c: char) {
    IsBlank(c) || 0x1C <= c as int <= 0x1F
  }

  function UnixLines(s: string): (t: string)
    ensures '\r' !in t
    ensures '\r' !in s ==> t == s
  {
    if |s| == 0 then s
    else if s[0] == '\r' then ['\n'] + UnixLines(if |s| > 1 && s[1] == '\n' then s[2..] else s[1..])
    else [s[0]] + UnixLines(s[1..])
  }

  function Stripped(line: string): (t: string)
    ensures t <= line && (|t| > 0 ==> !IsSpace(t[|t| - 1]))
    ensures forall i :: |t| <= i < |line| ==> IsSpace(line[i])
  {
    if |line| > 0 && IsSpace(line[|line| - 1]) then Stripped(line[..|line| - 1]) else line
  }

  function StrippedLines(lines: seq<string>): seq<string> {
    seq(|lines|, i requires 0 <= i < |lines| => Stripped(lines[i]))
  }

  function TrimFront(lines: seq<string>): (r: seq<string>)
    ensures |r| > 0 ==> |r[0]| > 0
    ensures |r| <= |lines| && r == lines[|lines| - |r|..]
  {
    if |lines| > 0 && |lines[0]| == 0 then TrimFront(lines[1..]) else lines
  }

  function TrimBack(lines: seq<string>): (r: seq<string>)
    ensures |r| > 0 ==> |r[|r| - 1]| > 0
    ensures r <= lines && (|lines| > 0 && |lines[0]| > 0 ==> |r| > 0)
  {
    if |lines| > 0 && |lines[|lines| - 1]| == 0 then TrimBack(lines[..|lines| - 1]) else lines
  }

  function Joined(lines: seq<string>): string {
    if |lines| == 0 then "" else Join(lines, '\n')
  }

  function SignificantLines(raw: string): seq<string> {
    TrimBack(TrimFront(StrippedLines(Split(UnixLines(raw), '\n'))))
  }

  function Normalized(raw: string): string {
    Joined(SignificantLines(raw))
  }

  method NormalizeConfig(raw: string) returns (text: string)
    ensures text == Normalized(raw)
  {
    var lines := StrippedLines(Split(UnixLines(raw), '\n'));
    ghost var stripped := lines;
    while |lines| > 0 && |lines[0]| == 0
      invariant TrimFront(lines) == TrimFront(stripped)
    {
      lines := lines[1..];
    }
    ghost var front := lines;
    while |lines| > 0 && |lines[|lines| - 1]| == 0
      invariant TrimBack(lines) == TrimBack(front)
    {
      lines := lines[..|lines| - 1];
    }
    text := Joined(lines);
  }

  // ---------- What a normalised text looks like ----------

  // No line contains a line end, none ends in a blank, and the first and last ones are not empty.
  ghost predicate IsNormal(lines: seq<string>) {
    && (forall i :: 0 <= i < |lines| ==> LineIsNormal(lines[i]))
    && (|lines| > 0 ==> |lines[0]| > 0 && |lines[|lines| - 1]| > 0)
  }

  predicate LineIsNormal(line: string) {
    '\r' !in line && '\n' !in line && (|line| > 0 ==> !IsSpace(line[|line| - 1]))
  }

  // The pieces of a split hold nothing but what the text held, without the separator.
  lemma {:induction false} SplitPieces(s: string, c: char)
    ensures forall i :: 0 <= i < |Split(s, c)| ==> c !in Split(s, c)[i] && forall x :: x in Split(s, c)[i] ==> x in s
    decreases |s|
  {
    if IndexOf(s, c) < |s| {
      SplitPieces(CutAfter(s, c), c);
    }
  }

  lemma StrippedIsNormal(line: string)
    requires '\r' !in line && '\n' !in line
    ensures LineIsNormal(Stripped(line))
  {
    assert forall x :: x in Stripped(line) ==> x in line;
  }

  // Dropping lines at the ends leaves lines that were there.
  lemma TrimmedLines(lines: seq<string>)
    ensures forall line :: line in TrimBack(TrimFront(lines)) ==> line in lines
    ensures var r := TrimBack(TrimFront(lines)); |r| > 0 ==> |r[0]| > 0 && |r[|r| - 1]| > 0
  {
    var front := TrimFront(lines);
    assert TrimBack(front) <= front;
  }

  lemma LinesAreNormal(raw: string)
    ensures IsNormal(SignificantLines(raw))
  {
    hide IsSpace, LineIsNormal, Stripped, TrimFront, TrimBack, Split, UnixLines;
    var text := UnixLines(raw);
    var lines := Split(text, '\n');
    SplitPieces(text, '\n');
    var stripped := StrippedLines(lines);
    forall line | line in stripped ensures LineIsNormal(line) {
      var i :| 0 <= i < |stripped| && stripped[i] == line;
      assert '\n' !in lines[i] && '\r' !in lines[i];
      StrippedIsNormal(lines[i]);
    }
    TrimmedLines(stripped);
    assert forall i :: 0 <= i < |SignificantLines(raw)| ==> SignificantLines(raw)[i] in stripped;
  }

  // The first carriage return ends a line, together with a line feed that follows it.
  lemma {:induction false} UnixLinesMean(line: string, rest: string)
    requires '\r' !in line
    ensures UnixLines(line + "\r\n" + rest) == line + "\n" + UnixLines(rest)
    ensures |rest| == 0 || rest[0] != '\n' ==> UnixLines(line + "\r" + rest) == line + "\n" + UnixLines(rest)
  {
    if |line| == 0 {
      assert (line + "\r\n" + rest)[2..] == rest && (line + "\r" + rest)[1..] == rest;
    } else {
      UnixLinesMean(line[1..], rest);
      assert (line + "\r\n" + rest)[1..] == line[1..] + "\r\n" + rest;
      assert (line + "\r" + rest)[1..] == line[1..] + "\r" + rest;
    }
  }

  predicate AllSpace(line: string) {
    forall i :: 0 <= i < |line| ==> IsSpace(line[i])
  }

  // The line without its trailing blanks.
  predicate KeptOf(line: string, kept: string) {
    kept <= line && AllSpace(line[|kept|..]) && (|kept| > 0 ==> !IsSpace(kept[|kept| - 1]))
  }

  // The lines kept are those from one on, without their trailing blanks; every other line is blank.
  ghost predicate KeepsFrom(lines: seq<string>, kept: seq<string>, first: nat) {
    && first + |kept| <= |lines|
    && (forall i :: 0 <= i < |kept| ==> KeptOf(lines[first + i], kept[i]))
    && (forall i :: 0 <= i < |lines| && !(first <= i < first + |kept|) ==> AllSpace(lines[i]))
  }

  lemma {:induction false} FrontIsEmpty(lines: seq<string>)
    ensures var k := |lines| - |TrimFront(lines)|; k >= 0 && forall i :: 0 <= i < k ==> |lines[i]| == 0
  {
    if |lines| > 0 && |lines[0]| == 0 {
      FrontIsEmpty(lines[1..]);
      assert forall i :: 0 < i < |lines| ==> lines[i] == lines[1..][i - 1];
    }
  }

  lemma {:induction false} BackIsEmpty(lines: seq<string>)
    ensures forall i :: |TrimBack(lines)| <= i < |lines| ==> |lines[i]| == 0
  {
    if |lines| > 0 && |lines[|lines| - 1]| == 0 {
      BackIsEmpty(lines[..|lines| - 1]);
    }
  }

  lemma StrippedKeeps(line: string)
    ensures KeptOf(line, Stripped(line)) && (|Stripped(line)| == 0 ==> AllSpace(line))
  {
  }

  lemma TrimKeeps(lines: seq<string>, stripped: seq<string>, kept: seq<string>, first: nat)
    requires |stripped| == |lines| && first + |kept| <= |lines| && kept == stripped[first..first + |kept|]
    requires forall i :: 0 <= i < |lines| ==> KeptOf(lines[i], stripped[i]) && (|stripped[i]| == 0 ==> AllSpace(lines[i]))
    requires forall i :: 0 <= i < |lines| && !(first <= i < first + |kept|) ==> |stripped[i]| == 0
    ensures KeepsFrom(lines, kept, first)
  {
    hide KeptOf, AllSpace;
    assert forall i :: 0 <= i < |kept| ==> kept[i] == stripped[first + i];
  }

  // Trimming empty lines at both ends keeps a stretch and drops nothing else.
  lemma TrimmedStretch(lines: seq<string>) returns (first: nat)
    ensures var kept := TrimBack(TrimFront(lines));
            && first + |kept| <= |lines| && kept == lines[first..first + |kept|]
            && forall i :: 0 <= i < |lines| && !(first <= i < first + |kept|) ==> |lines[i]| == 0
  {
    hide TrimFront, TrimBack;
    var front := TrimFront(lines);
    var kept := TrimBack(front);
    FrontIsEmpty(lines);
    BackIsEmpty(front);
    first := |lines| - |front|;
    Stretch(lines, front, kept, first);
  }

  lemma Stretch(lines: seq<string>, front: seq<string>, kept: seq<string>, first: nat)
    requires first <= |lines| && front == lines[first..] && kept <= front
    requires forall i :: 0 <= i < first ==> |lines[i]| == 0
    requires forall i :: |kept| <= i < |front| ==> |front[i]| == 0
    ensures kept == lines[first..first + |kept|]
    ensures forall i :: 0 <= i < |lines| && !(first <= i < first + |kept|) ==> |lines[i]| == 0
  {
    forall i | first + |kept| <= i < |lines| ensures |lines[i]| == 0 {
      assert lines[i] == front[i - first];
    }
  }

  // Nothing but blank lines at the ends and trailing blanks is lost.
  lemma NothingElseIsLost(raw: string)
    ensures exists first :: KeepsFrom(Split(UnixLines(raw), '\n'), SignificantLines(raw), first)
  {
    hide Stripped, TrimFront, TrimBack, Split, UnixLines, IsSpace, KeptOf, AllSpace, KeepsFrom;
    var lines := Split(UnixLines(raw), '\n');
    var stripped := StrippedLines(lines);
    var first := TrimmedStretch(stripped);
    forall i | 0 <= i < |lines| ensures KeptOf(lines[i], stripped[i]) && (|stripped[i]| == 0 ==> AllSpace(lines[i])) {
      StrippedKeeps(lines[i]);
    }
    TrimKeeps(lines, stripped, SignificantLines(raw), first);
  }

  lemma {:induction false} JoinedHasNoReturn(lines: seq<string>)
    requires |lines| > 0 && forall i :: 0 <= i < |lines| ==> LineIsNormal(lines[i])
    ensures '\r' !in Join(lines, '\n')
    decreases |lines|
  {
    if |lines| > 1 { JoinedHasNoReturn(lines[1..]); }
  }

  lemma NormalLineStays(line: string)
    requires LineIsNormal(line)
    ensures Stripped(line) == line
  {
  }

  lemma TrimmedStay(lines: seq<string>)
    requires |lines| > 0 ==> |lines[0]| > 0 && |lines[|lines| - 1]| > 0
    ensures TrimBack(TrimFront(lines)) == lines
  {
  }

  lemma NormalLinesStay(lines: seq<string>)
    requires IsNormal(lines)
    ensures SignificantLines(Joined(lines)) == lines
  {
    if |lines| == 0 {
      var nothing := Joined(lines);
      assert UnixLines(nothing) == nothing && Split(nothing, '\n') == [nothing];
      assert StrippedLines([nothing]) == [nothing];
      assert TrimFront([nothing]) == [nothing][1..];
    } else {
      hide LineIsNormal, Stripped, TrimFront, TrimBack, Split, UnixLines, Join;
      JoinedHasNoReturn(lines);
      forall i | 0 <= i < |lines| ensures Stripped(lines[i]) == lines[i] && '\n' !in lines[i] {
        NormalLineStays(lines[i]);
        NormalLineHasNoEnd(lines[i]);
      }
      SplitJoin(lines, '\n');
      assert StrippedLines(lines) == lines;
      TrimmedStay(lines);
    }
  }

  lemma NormalLineHasNoEnd(line: string)
    requires LineIsNormal(line)
    ensures '\n' !in line
  {
  }

  // A stored text reads back as the lines that were significant, and normalising it again keeps it.
  lemma NormalizedTwice(raw: string)
    ensures SignificantLines(Normalized(raw)) == SignificantLines(raw)
    ensures Normalized(Normalized(raw)) == Normalized(raw)
  {
    LinesAreNormal(raw);
    NormalLinesStay(SignificantLines(raw));
  }
}
