/**
 * Text as JavaScript sees it: white space, line ends, trim, split and decimal numbers, shared
 * by every part that reads or writes text.
 */
module Text {
  // ---- characters -----------------------------------------------------------------------

  /** The characters at which ^ and $ of a multi-line pattern see a line end. */
  predicate IsTerminator(c: char) {
    c == '\n' || c == '\r' || c == '\U{2028}' || c == '\U{2029}'
  }

  /** White space for trim and \s. */
  predicate IsWhite(c: char) {
    IsTerminator(c) || c == ' ' || c == '\t' || c == '\U{B}' || c == '\U{C}' || c == '\U{A0}' || c == '\U{1680}' ||
    '\U{2000}' <= c <= '\U{200A}' || c == '\U{202F}' || c == '\U{205F}' || c == '\U{3000}' || c == '\U{FEFF}'
  }

  predicate AllWhite(s: string) {
    forall i :: 0 <= i < |s| ==> IsWhite(s[i])
  }

  predicate IsDigit(c: char) {
    '0' <= c <= '9'
  }

  function TrimEnd(s: string): string {
    if s != [] && IsWhite(s[|s| - 1]) then TrimEnd(s[..|s| - 1]) else s
  }

  function TrimStart(s: string): string {
    if s != [] && IsWhite(s[0]) then TrimStart(s[1..]) else s
  }

  function Trim(s: string): string {
    TrimEnd(TrimStart(s))
  }

  // ---- lines ------------------------------------------------------------------------------

  /** split('\n'): the lines read from the right, so that the last line is at hand. */
  function Split(s: string): (lines: seq<string>)
    ensures lines != []
  {
    if s == [] then [""]
    else
      var init := Split(s[..|s| - 1]);
      var c := s[|s| - 1];
      if c == '\n' then init + [""] else init[..|init| - 1] + [init[|init| - 1] + [c]]
  }

  predicate OneLine(s: string) {
    '\n' !in s
  }

  function Unlines(lines: seq<string>): string {
    if lines == [] then "" else Unlines(lines[..|lines| - 1]) + lines[|lines| - 1] + "\n"
  }

  lemma {:induction false} SplitAppend(s: string, l: string)
    requires OneLine(l)
    ensures Split(s + l) == Split(s)[..|Split(s)| - 1] + [Split(s)[|Split(s)| - 1] + l]
    decreases |l|
  {
    if l == [] {
      assert s + l == s;
      assert Split(s)[|Split(s)| - 1] + l == Split(s)[|Split(s)| - 1];
    } else {
      var m, c := l[..|l| - 1], l[|l| - 1];
      SplitAppend(s, m);
      assert s + l == (s + m) + [c];
      assert ((s + m) + [c])[..|s + m|] == s + m;
      assert Split(s)[|Split(s)| - 1] + l == Split(s)[|Split(s)| - 1] + m + [c];
    }
  }

  /** Splitting undoes Unlines, leaving the empty line after the last terminator. */
  lemma {:induction false} SplitUnlines(lines: seq<string>)
    requires forall i :: 0 <= i < |lines| ==> OneLine(lines[i])
    ensures Split(Unlines(lines)) == lines + [""]
    decreases |lines|
  {
    if lines != [] {
      var init, last := lines[..|lines| - 1], lines[|lines| - 1];
      SplitUnlines(init);
      SplitAppend(Unlines(init), last);
      var t := Unlines(init) + last;
      assert Split(t) == init + [last] by {
        assert (init + [""])[..|init|] == init;
        assert "" + last == last;
      }
      assert Unlines(lines) == t + "\n";
      assert (t + "\n")[..|t|] == t;
      assert init + [last] == lines;
    }
  }

  lemma {:induction false} UnlinesConcat(a: seq<string>, b: seq<string>)
    ensures Unlines(a + b) == Unlines(a) + Unlines(b)
    decreases |b|
  {
    if b == [] {
      assert a + b == a;
    } else {
      var init, last := b[..|b| - 1], b[|b| - 1];
      UnlinesConcat(a, init);
      assert (a + b)[..|a + b| - 1] == a + init;
    }
  }

  // ---- numbers ----------------------------------------------------------------------------

  function Digit(n: nat): char
    requires n < 10
    ensures IsDigit(Digit(n))
  {
    ('0' as int + n) as char
  }

  function Decimal(n: nat): (s: string)
    ensures s != [] && forall i :: 0 <= i < |s| ==> IsDigit(s[i])
  {
    if n < 10 then [Digit(n)] else Decimal(n / 10) + [Digit(n % 10)]
  }

  function NumberOf(s: string): nat
    requires forall i :: 0 <= i < |s| ==> IsDigit(s[i])
  {
    if s == [] then 0
    else
      assert IsDigit(s[|s| - 1]);
      10 * NumberOf(s[..|s| - 1]) + (s[|s| - 1] as int - '0' as int)
  }

  lemma {:induction false} NumberOfDecimal(n: nat)
    ensures NumberOf(Decimal(n)) == n
    decreases n
  {
    if n >= 10 {
      NumberOfDecimal(n / 10);
      var s := Decimal(n);
      assert s[..|s| - 1] == Decimal(n / 10);
    } else {
      assert Decimal(n)[..0] == [];
    }
  }

  /** The length of the run of digits a text starts with. */
  function DigitRun(s: string): (n: nat)
    ensures n <= |s| && (forall i :: 0 <= i < n ==> IsDigit(s[i])) && (n < |s| ==> !IsDigit(s[n]))
  {
    if s != [] && IsDigit(s[0]) then
      var rest := DigitRun(s[1..]);
      assert forall i :: 0 < i < 1 + rest ==> s[i] == s[1..][i - 1];
      1 + rest
    else 0
  }

  lemma DigitRunIs(s: string, n: nat)
    requires n <= |s| && (forall i :: 0 <= i < n ==> IsDigit(s[i])) && (n < |s| ==> !IsDigit(s[n]))
    ensures DigitRun(s) == n
  {
  }

  // ---- paths --------------------------------------------------------------------------------

  /** split('/') */
  function Segments(path: string): (parts: seq<string>)
    ensures parts != []
  {
    if path == [] then [[]]
    else
      var rest := Segments(path[1..]);
      if path[0] == '/' then [[]] + rest else [[path[0]] + rest[0]] + rest[1..]
  }

  lemma {:induction false} SegmentsHaveNoSlash(path: string)
    ensures forall i :: 0 <= i < |Segments(path)| ==> '/' !in Segments(path)[i]
    decreases |path|
  {
    if path != [] {
      SegmentsHaveNoSlash(path[1..]);
    }
  }

  lemma {:induction false} OneSegment(part: string)
    requires '/' !in part
    ensures Segments(part) == [part]
    decreases |part|
  {
    if part != [] {
      OneSegment(part[1..]);
      assert [part[0]] + part[1..] == part;
    }
  }

  lemma {:induction false} FirstSegment(part: string, rest: string)
    requires '/' !in part
    ensures Segments(part + ['/'] + rest) == [part] + Segments(rest)
    decreases |part|
  {
    var path := part + ['/'] + rest;
    if part == [] {
      assert path[1..] == rest;
    } else {
      FirstSegment(part[1..], rest);
      assert path[1..] == part[1..] + ['/'] + rest;
      assert [part[0]] + part[1..] == part;
    }
  }

  /** The first segment ends at the first slash. */
  lemma {:induction false} UpToSlash(path: string) returns (k: nat)
    requires '/' in path
    ensures k < |path| && path[k] == '/' && '/' !in path[..k]
    ensures Segments(path) == [path[..k]] + Segments(path[k + 1..])
    decreases |path|
  {
    if path[0] == '/' {
      k := 0;
    } else {
      assert path == [path[0]] + path[1..];
      var j := UpToSlash(path[1..]);
      k := j + 1;
      assert path[..k] == [path[0]] + path[1..][..j];
      assert path[k + 1..] == path[1..][j + 1..];
    }
  }
}
