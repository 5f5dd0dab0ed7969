/**
 * The two patterns of the diff reader: hunk headers, and file headers found by a multi-line
 * regular expression (services/diff-filter.service.ts, services/diff-lines.ts).
 */
module DiffText {
  import opened Basics
  import opened Text

  // ---- hunk headers: ^@@ -(\d+)(?:,\d+)? \+(\d+)(?:,\d+)? @@ ----------------------------------

  /** One range: its first number, and what follows the range. */
  function ParseRange(s: string): Option<(nat, string)> {
    var n := DigitRun(s);
    if n == 0 then None
    else
      var rest := s[n..];
      if rest != [] && rest[0] == ',' && DigitRun(rest[1..]) > 0
      then Some((NumberOf(s[..n]), rest[1 + DigitRun(rest[1..])..]))
      else Some((NumberOf(s[..n]), rest))
  }

  /** The new line number, from the text after the old range. */
  function ParseNew(s: string): Option<nat> {
    if !(" +" <= s) then None
    else
      match ParseRange(s[2..])
      case None => None
      case Some((start, tail)) => if " @@" <= tail then Some(start) else None
  }

  /** The old and new line numbers of a hunk header. */
  function ParseHunk(line: string): Option<(nat, nat)> {
    if !("@@ -" <= line) then None
    else
      match ParseRange(line[4..])
      case None => None
      case Some((start, rest)) =>
        match ParseNew(rest)
        case None => None
        case Some(n) => Some((start, n))
  }

  /** A range as diff prints it: the count is left out when it is 1. */
  function RangeText(start: nat, count: nat): string {
    if count == 1 then Decimal(start) else Decimal(start) + "," + Decimal(count)
  }

  function HunkHeader(oldStart: nat, oldCount: nat, newStart: nat, newCount: nat, section: string): string {
    "@@ -" + RangeText(oldStart, oldCount) + " +" + RangeText(newStart, newCount) + " @@" + section
  }

  /** Digits printed before anything else are the run a reader finds. */
  lemma DigitsRead(n: nat, tail: string)
    requires tail == [] || !IsDigit(tail[0])
    ensures var d := Decimal(n);
            |d| > 0 && DigitRun(d + tail) == |d| && (d + tail)[..|d|] == d && (d + tail)[|d|..] == tail && NumberOf(d) == n
  {
    DigitRunIs(Decimal(n) + tail, |Decimal(n)|);
    NumberOfDecimal(n);
  }

  lemma ParseRangeText(start: nat, count: nat, tail: string)
    requires tail != [] && tail[0] == ' '
    ensures ParseRange(RangeText(start, count) + tail) == Some((start, tail))
  {
    hide Decimal;
    hide DigitRun;
    hide NumberOf;
    var d, c := Decimal(start), Decimal(count);
    if count == 1 {
      DigitsRead(start, tail);
    } else {
      var rest := "," + (c + tail);
      assert d + "," + c + tail == d + rest;
      DigitsRead(start, rest);
      assert rest[1..] == c + tail;
      DigitsRead(count, tail);
      assert rest[1 + |c|..] == tail;
    }
  }

  lemma ParseNewText(start: nat, count: nat, section: string)
    ensures ParseNew(" +" + RangeText(start, count) + " @@" + section) == Some(start)
  {
    var tail := " @@" + section;
    var s := " +" + RangeText(start, count) + " @@" + section;
    assert s == " +" + (RangeText(start, count) + tail);
    assert s[2..] == RangeText(start, count) + tail;
    ParseRangeText(start, count, tail);
  }

  /** Reading a printed hunk header gives back its two line numbers. */
  lemma ParseHunkHeader(oldStart: nat, oldCount: nat, newStart: nat, newCount: nat, section: string)
    ensures ParseHunk(HunkHeader(oldStart, oldCount, newStart, newCount, section)) == Some((oldStart, newStart))
  {
    var line := HunkHeader(oldStart, oldCount, newStart, newCount, section);
    var rest := " +" + RangeText(newStart, newCount) + " @@" + section;
    assert line == "@@ -" + (RangeText(oldStart, oldCount) + rest);
    assert line[4..] == RangeText(oldStart, oldCount) + rest;
    ParseRangeText(oldStart, oldCount, rest);
    ParseNewText(newStart, newCount, section);
  }

  /** The text of a range that starts at n: its digits, and a count if there is one. */
  ghost predicate RangeAt(text: string, n: nat) {
    exists d :: 0 < d <= |text| && (forall i :: 0 <= i < d ==> IsDigit(text[i])) && NumberOf(text[..d]) == n &&
                (text[d..] == [] || (|text| > d + 1 && text[d] == ',' && forall i :: d < i < |text| ==> IsDigit(text[i])))
  }

  /** What is read as a range is one, followed by what is left. */
  lemma RangeShape(s: string)
    requires ParseRange(s).Some?
    ensures var (n, tail) := ParseRange(s).value; |tail| <= |s| && s[|s| - |tail|..] == tail && RangeAt(s[..|s| - |tail|], n)
  {
    var (n, tail) := ParseRange(s).value;
    var d := DigitRun(s);
    var text := s[..|s| - |tail|];
    assert text[..d] == s[..d];
    var rest := s[d..];
    if |tail| != |rest| {
      assert rest[0] == ',';
      assert forall i :: d < i < |text| ==> text[i] == rest[1..][i - d - 1];
    }
    assert 0 < d <= |text|;
  }

  lemma NewShape(s: string) returns (b: string, c: string)
    requires ParseNew(s).Some?
    ensures s == " +" + b + " @@" + c && RangeAt(b, ParseNew(s).value)
  {
    hide ParseRange;
    hide RangeAt;
    var rest := s[2..];
    RangeShape(rest);
    var tail := ParseRange(rest).value.1;
    b, c := rest[..|rest| - |tail|], tail[3..];
    assert tail == " @@" + c && rest == b + tail;
    assert s == " +" + rest;
  }

  /** Only a line of the form of a hunk header is read as one. */
  lemma HunkShape(line: string) returns (a: string, b: string, c: string)
    requires ParseHunk(line).Some?
    ensures line == "@@ -" + a + " +" + b + " @@" + c
    ensures RangeAt(a, ParseHunk(line).value.0) && RangeAt(b, ParseHunk(line).value.1)
  {
    hide ParseRange;
    hide ParseNew;
    hide RangeAt;
    var text := line[4..];
    RangeShape(text);
    var rest := ParseRange(text).value.1;
    a := text[..|text| - |rest|];
    b, c := NewShape(rest);
    assert text == a + rest && line == "@@ -" + text;
    PutTogether("@@ -" + a, " +", b, " @@", c);
    assert line == ("@@ -" + a) + rest;
  }

  lemma PutTogether(s: string, x: string, b: string, y: string, c: string)
    ensures s + (x + b + y + c) == s + x + b + y + c
  {
  }

  lemma DigitsThenWhite(s: string, c: char)
    requires IsWhite(c)
    ensures var n := DigitRun(s); DigitRun(s + [c]) == n && (s + [c])[..n] == s[..n] && (s + [c])[n..] == s[n..] + [c]
  {
    DigitRunIs(s + [c], DigitRun(s));
  }

  lemma RangeThenWhite(s: string, c: char)
    requires IsWhite(c)
    ensures ParseRange(s).None? ==> ParseRange(s + [c]).None?
    ensures ParseRange(s).Some? ==>
              ParseRange(s + [c]) == Some((ParseRange(s).value.0, ParseRange(s).value.1 + [c]))
  {
    hide DigitRun;
    hide NumberOf;
    DigitsThenWhite(s, c);
    var rest := s[DigitRun(s)..];
    if rest != [] && rest[0] == ',' {
      assert (rest + [c])[1..] == rest[1..] + [c];
      DigitsThenWhite(rest[1..], c);
      var m := DigitRun(rest[1..]);
      assert (rest + [c])[1 + m..] == (rest[1..] + [c])[m..] == rest[1 + m..] + [c];
    }
  }

  lemma NewThenWhite(s: string, c: char)
    requires IsWhite(c)
    ensures ParseNew(s + [c]) == ParseNew(s)
  {
    PrefixThenWhite(" +", s, c);
    if " +" <= s {
      assert (s + [c])[2..] == s[2..] + [c];
      RangeThenWhite(s[2..], c);
      if ParseRange(s[2..]).Some? {
        PrefixThenWhite(" @@", ParseRange(s[2..]).value.1, c);
      }
    }
  }

  /** White space after a line neither makes nor breaks a hunk header. */
  lemma HunkThenWhite(line: string, c: char)
    requires IsWhite(c)
    ensures ParseHunk(line + [c]) == ParseHunk(line)
  {
    PrefixThenWhite("@@ -", line, c);
    if "@@ -" <= line {
      assert (line + [c])[4..] == line[4..] + [c];
      RangeThenWhite(line[4..], c);
      if ParseRange(line[4..]).Some? {
        NewThenWhite(ParseRange(line[4..]).value.1, c);
      }
    }
  }

  lemma PrefixThenWhite(p: string, s: string, c: char)
    requires p != [] && !IsWhite(p[|p| - 1]) && IsWhite(c)
    ensures p <= s + [c] <==> p <= s
  {
  }

  // ---- file headers: ^diff --git a\/(.+?) b\/(.+?)$ with flags g and m -------------------------

  const GIT := "diff --git a/"
  const SEPARATOR := " b/"

  predicate SeparatorAt(s: string, k: nat) {
    k + 3 <= |s| && s[k..k + 3] == SEPARATOR
  }

  /** The first place, not at the very start, where the separator stands with something after it. */
  function FindSeparator(s: string, k: nat): (at: Option<nat>)
    ensures at.Some? ==> k <= at.value && SeparatorAt(s, at.value) && at.value + 3 < |s| &&
                         forall i :: k <= i < at.value ==> !SeparatorAt(s, i)
    ensures at.None? ==> forall i :: k <= i && i + 3 < |s| ==> !SeparatorAt(s, i)
    decreases |s| - k
  {
    if k + 3 >= |s| then None else if SeparatorAt(s, k) then Some(k) else FindSeparator(s, k + 1)
  }

  /** The destination name of a header line, when the line is one. */
  function ParseHeader(line: string): Option<string> {
    if !(GIT <= line) then None
    else
      var rest := line[|GIT|..];
      match FindSeparator(rest, 1)
      case None => None
      case Some(k) => Some(rest[k + 3..])
  }

  /** The end of the pattern line that starts at i. */
  function LineEnd(s: string, i: nat): (j: nat)
    requires i <= |s|
    ensures i <= j <= |s| && (forall k :: i <= k < j ==> !IsTerminator(s[k])) && (j < |s| ==> IsTerminator(s[j]))
    decreases |s| - i
  {
    if i == |s| || IsTerminator(s[i]) then i else LineEnd(s, i + 1)
  }

  predicate LineStart(s: string, i: nat)
    requires i <= |s|
  {
    i == 0 || IsTerminator(s[i - 1])
  }

  /** The match of the header pattern at position i. */
  function HeaderAt(s: string, i: nat): Option<string>
    requires i <= |s|
  {
    if LineStart(s, i) then ParseHeader(s[i..LineEnd(s, i)]) else None
  }

  predicate HeaderFree(s: string) {
    forall i :: 0 <= i <= |s| ==> HeaderAt(s, i).None?
  }

  datatype HeaderMatch = HeaderMatch(at: nat, name: string)

  /** All matches before position n, from left to right. */
  function Headers(s: string, n: nat): seq<HeaderMatch>
    requires n <= |s|
  {
    if n == 0 then []
    else
      var earlier := Headers(s, n - 1);
      match HeaderAt(s, n - 1)
      case None => earlier
      case Some(name) => earlier + [HeaderMatch(n - 1, name)]
  }
}
