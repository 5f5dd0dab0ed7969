/**
 * Code blocks and code spans (services/ai/finding-format.ts readOnlyBlock, inlineCode): no
 * content can close its own fence or delimiter, so a CommonMark reader gets the text back.
 */
module MarkdownCode {
  import opened Basics
  import opened Text
  import opened Markdown

  // ---- runs of backticks ---------------------------------------------------------------------------

  predicate Ticks(s: string) {
    forall i :: 0 <= i < |s| ==> s[i] == '`'
  }

  function TickString(n: nat): (s: string)
    ensures |s| == n && Ticks(s)
  {
    seq(n, i => '`')
  }

  /** The backticks a text ends with. */
  function TailRun(s: string): (n: nat)
    ensures n <= |s|
  {
    if s != [] && s[|s| - 1] == '`' then 1 + TailRun(s[..|s| - 1]) else 0
  }

  lemma {:induction false} TailRunIsRun(s: string)
    ensures forall k :: |s| - TailRun(s) <= k < |s| ==> s[k] == '`'
    decreases |s|
  {
    if s != [] && s[|s| - 1] == '`' {
      TailRunIsRun(s[..|s| - 1]);
    }
  }

  function Longest(s: string): nat {
    if s == [] then 0 else Max(Longest(s[..|s| - 1]), TailRun(s))
  }

  lemma NoRun()
    ensures TailRun([]) == 0 && Longest([]) == 0
  {
  }

  lemma RunMore(s: string, c: char)
    ensures TailRun(s + [c]) == if c == '`' then TailRun(s) + 1 else 0
    ensures Longest(s + [c]) == Max(Longest(s), TailRun(s + [c]))
  {
  }

  method LongestBacktickRun(text: string) returns (longest: nat)
    ensures longest == Longest(text)
  {
    hide TailRun;
    hide Longest;
    longest := 0;
    var run := 0;
    NoRun();
    for i := 0 to |text|
      invariant run == TailRun(text[..i]) && longest == Longest(text[..i])
    {
      RunMore(text[..i], text[i]);
      assert text[..i + 1] == text[..i] + [text[i]];
      run := if text[i] == '`' then run + 1 else 0;
      if run > longest {
        longest := run;
      }
    }
    assert text[..|text|] == text;
  }

  lemma {:induction false} TailRunBound(s: string, i: nat)
    requires i <= |s| && Ticks(s[i..])
    ensures |s| - i <= TailRun(s)
    decreases |s|
  {
    if i < |s| {
      assert s[i..][|s| - 1 - i] == s[|s| - 1];
      assert forall k :: 0 <= k < |s| - 1 - i ==> s[..|s| - 1][i..][k] == s[i..][k];
      TailRunBound(s[..|s| - 1], i);
    }
  }

  /** No run is longer than the longest. */
  lemma {:induction false} RunBound(s: string, i: nat, j: nat)
    requires i <= j <= |s| && Ticks(s[i..j])
    ensures j - i <= Longest(s)
    decreases |s|
  {
    if j < |s| {
      assert s[..|s| - 1][i..j] == s[i..j];
      RunBound(s[..|s| - 1], i, j);
    } else if i < j {
      assert s[i..j] == s[i..];
      TailRunBound(s, i);
    }
  }

  /** There is a run that long. */
  lemma {:induction false} LongestIsRun(s: string) returns (i: nat)
    ensures i + Longest(s) <= |s| && Ticks(s[i..i + Longest(s)])
    decreases |s|
  {
    if s == [] {
      i := 0;
    } else if TailRun(s) >= Longest(s[..|s| - 1]) {
      i := |s| - TailRun(s);
      TailRunIsRun(s);
      assert s[i..i + Longest(s)] == s[i..];
    } else {
      i := LongestIsRun(s[..|s| - 1]);
      assert s[..|s| - 1][i..i + Longest(s)] == s[i..i + Longest(s)];
    }
  }

  /** The backticks a text starts with. */
  function HeadRun(s: string): (n: nat)
    ensures n <= |s| && Ticks(s[..n]) && (n < |s| ==> s[n] != '`')
  {
    if s != [] && s[0] == '`' then
      var n := HeadRun(s[1..]);
      assert s[..1 + n] == ['`'] + s[1..][..n];
      1 + n
    else 0
  }

  lemma HeadRunIs(s: string, n: nat)
    requires n <= |s| && Ticks(s[..n]) && (n < |s| ==> s[n] != '`')
    ensures HeadRun(s) == n
  {
    var m := HeadRun(s);
    assert forall k :: 0 <= k < n ==> s[..n][k] == s[k];
    assert forall k :: 0 <= k < m ==> s[..m][k] == s[k];
  }

  // ---- line endings (CommonMark section 2.1) ------------------------------------------------------------

  /** The length of the line ending a text starts with, 0 if there is none. */
  function EndLength(s: string): (n: nat)
    ensures n <= |s|
  {
    if s == [] then 0
    else if s[0] == '\n' then 1
    else if s[0] == '\r' then if 1 < |s| && s[1] == '\n' then 2 else 1
    else 0
  }

  /** The lines of a document: \n, \r and \r\n each end one. */
  function LinesOf(s: string): (lines: seq<string>)
    ensures lines != []
    decreases |s|
  {
    var end := EndLength(s);
    if s == [] then [""]
    else if end > 0 then [""] + LinesOf(s[end..])
    else
      var rest := LinesOf(s[1..]);
      [[s[0]] + rest[0]] + rest[1..]
  }

  /** replace(/\r\n?/g, '\n') */
  function NormalizeEnds(s: string): (r: string)
    ensures '\r' !in r
    decreases |s|
  {
    var end := EndLength(s);
    if s == [] then []
    else if end > 0 then ['\n'] + NormalizeEnds(s[end..])
    else [s[0]] + NormalizeEnds(s[1..])
  }

  lemma LinesMore(c: char, s: string)
    requires c != '\r'
    ensures LinesOf([c] + s) == if c == '\n' then [""] + LinesOf(s) else [[c] + LinesOf(s)[0]] + LinesOf(s)[1..]
  {
  }

  /** Normalizing changes no line. */
  lemma {:induction false} SameLines(s: string)
    ensures LinesOf(NormalizeEnds(s)) == LinesOf(s)
    decreases |s|
  {
    if s != [] {
      var end := EndLength(s);
      if end > 0 {
        SameLines(s[end..]);
        LinesMore('\n', NormalizeEnds(s[end..]));
      } else {
        SameLines(s[1..]);
        LinesMore(s[0], NormalizeEnds(s[1..]));
      }
    }
  }

  lemma JoinStep(c: char, x: seq<string>, y: seq<string>)
    requires x != []
    ensures [[c] + (x + y)[0]] + (x + y)[1..] == ([[c] + x[0]] + x[1..]) + y
  {
  }

  lemma NoText()
    ensures LinesOf("") == [""]
  {
  }

  lemma {:induction false} LinesJoin(a: string, b: string)
    requires '\r' !in a
    ensures LinesOf(a + (['\n'] + b)) == LinesOf(a) + LinesOf(b)
    decreases |a|
  {
    NoText();
    hide LinesOf;
    if a == [] {
      assert a + (['\n'] + b) == ['\n'] + b;
      LinesMore('\n', b);
    } else {
      var c, rest, tail := a[0], a[1..], ['\n'] + b;
      LinesJoin(rest, b);
      assert a == [c] + rest && a + tail == [c] + (rest + tail);
      LinesMore(c, rest);
      LinesMore(c, rest + tail);
      JoinStep(c, LinesOf(rest), LinesOf(b));
      assert [""] + (LinesOf(rest) + LinesOf(b)) == ([""] + LinesOf(rest)) + LinesOf(b);
    }
  }

  lemma {:induction false} OneLineOnly(s: string)
    requires '\r' !in s && '\n' !in s
    ensures LinesOf(s) == [s]
    decreases |s|
  {
    if s != [] {
      OneLineOnly(s[1..]);
      assert [s[0]] + s[1..] == s;
    }
  }

  /** A run of backticks in a line is a run in the text. */
  lemma {:induction false} LineRuns(s: string, k: nat, i: nat, j: nat)
    requires k < |LinesOf(s)| && i <= j <= |LinesOf(s)[k]| && Ticks(LinesOf(s)[k][i..j])
    ensures j - i <= Longest(s)
    decreases |s|
  {
    NoText();
    hide *;
    if s != [] {
      LinesStep(s);
      var end := EndLength(s);
      if end > 0 {
        if k > 0 {
          assert LinesOf(s)[k] == LinesOf(s[end..])[k - 1];
          LineRuns(s[end..], k - 1, i, j);
          LongestTail(s, end);
        }
      } else if k > 0 {
        assert LinesOf(s)[k] == LinesOf(s[1..])[k];
        LineRuns(s[1..], k, i, j);
        LongestTail(s, 1);
      } else if i > 0 {
        assert LinesOf(s)[0][i..j] == LinesOf(s[1..])[0][i - 1..j - 1];
        LineRuns(s[1..], 0, i - 1, j - 1);
        LongestTail(s, 1);
      } else {
        FirstLineRun(s, j);
      }
    }
  }

  /** The lines of a text and those of what follows its first character, or its first line end. */
  lemma LinesStep(s: string)
    requires s != []
    ensures var end := EndLength(s);
            if end > 0 then end <= |s| && LinesOf(s) == [""] + LinesOf(s[end..])
            else LinesOf(s) == [[s[0]] + LinesOf(s[1..])[0]] + LinesOf(s[1..])[1..]
  {
  }

  lemma LongestTail(s: string, n: nat)
    requires n <= |s|
    ensures Longest(s[n..]) <= Longest(s)
  {
    hide Longest;
    var i := LongestIsRun(s[n..]);
    var m := Longest(s[n..]);
    assert s[n..][i..i + m] == s[n + i..n + i + m];
    RunBound(s, n + i, n + i + m);
  }

  lemma {:induction false} FirstLineIsPrefix(s: string)
    ensures LinesOf(s)[0] <= s
    decreases |s|
  {
    if s != [] && EndLength(s) == 0 {
      FirstLineIsPrefix(s[1..]);
      assert s == [s[0]] + s[1..];
    }
  }

  lemma FirstLineRun(s: string, j: nat)
    requires j <= |LinesOf(s)[0]| && Ticks(LinesOf(s)[0][0..j])
    ensures j <= Longest(s)
  {
    FirstLineIsPrefix(s);
    assert s[0..j] == LinesOf(s)[0][0..j];
    RunBound(s, 0, j);
  }

  // ---- fenced code blocks (CommonMark section 4.5) -----------------------------------------------------------

  function SpaceRun(s: string): (n: nat)
    ensures n <= |s|
  {
    if s != [] && s[0] == ' ' then 1 + SpaceRun(s[1..]) else 0
  }

  predicate SpacesAndTabs(s: string) {
    forall i :: 0 <= i < |s| ==> s[i] == ' ' || s[i] == '\t'
  }

  datatype Opening = Opening(indent: nat, length: nat, info: string)

  function ReadOpening(line: string): Option<Opening> {
    var indent := SpaceRun(line);
    var n := HeadRun(line[indent..]);
    var info := line[indent..][n..];
    if indent <= 3 && n >= 3 && '`' !in info then Some(Opening(indent, n, Trim(info))) else None
  }

  predicate Closes(line: string, length: nat) {
    var indent := SpaceRun(line);
    var n := HeadRun(line[indent..]);
    indent <= 3 && n >= length && SpacesAndTabs(line[indent..][n..])
  }

  /** A content line loses as many leading spaces as the opening fence had. */
  function Unindented(line: string, indent: nat): string {
    line[Min(indent, SpaceRun(line))..]
  }

  /** The lines up to the closing fence, and those after it. */
  function ReadContent(lines: seq<string>, o: Opening): (seq<string>, seq<string>) {
    if lines == [] then ([], [])
    else if Closes(lines[0], o.length) then ([], lines[1..])
    else
      var (content, after) := ReadContent(lines[1..], o);
      ([Unindented(lines[0], o.indent)] + content, after)
  }

  datatype Block = Block(info: string, content: seq<string>, after: seq<string>)

  function ReadFenced(document: string): Option<Block> {
    var lines := LinesOf(Secured(document));
    match ReadOpening(lines[0])
    case None => None
    case Some(o) =>
      var (content, after) := ReadContent(lines[1..], o);
      Some(Block(o.info, content, after))
  }

  function Fence(text: string): string {
    TickString(Max(3, Longest(NormalizeEnds(text)) + 1))
  }

  function ReadOnlyBlock(text: string): string {
    Fence(text) + "text\n" + NormalizeEnds(text) + "\n" + Fence(text)
  }

  method RenderReadOnlyBlock(text: string) returns (block: string)
    ensures block == ReadOnlyBlock(text)
  {
    var normalized := NormalizeEnds(text);
    var longest := LongestBacktickRun(normalized);
    var fence := TickString(if 3 <= longest + 1 then longest + 1 else 3);
    block := fence + "text\n" + normalized + "\n" + fence;
  }

  lemma HeadRunInLine(line: string)
    ensures Ticks(line[SpaceRun(line)..SpaceRun(line) + HeadRun(line[SpaceRun(line)..])])
  {
    var i := SpaceRun(line);
    var n := HeadRun(line[i..]);
    assert line[i..][..n] == line[i..i + n];
  }

  /** No line of the text closes the fence around it. */
  lemma NoLineCloses(text: string, k: nat)
    requires k < |LinesOf(NormalizeEnds(text))|
    ensures !Closes(LinesOf(NormalizeEnds(text))[k], |Fence(text)|)
  {
    hide Longest;
    hide LinesOf;
    hide NormalizeEnds;
    hide HeadRun;
    hide SpaceRun;
    var line := LinesOf(NormalizeEnds(text))[k];
    HeadRunInLine(line);
    LineRuns(NormalizeEnds(text), k, SpaceRun(line), SpaceRun(line) + HeadRun(line[SpaceRun(line)..]));
  }

  lemma FenceCloses(n: nat)
    ensures Closes(TickString(n), n)
  {
  }

  lemma FenceOpens(n: nat)
    requires n >= 3
    ensures ReadOpening(TickString(n) + "text") == Some(Opening(0, n, "text"))
  {
    var f := TickString(n);
    var line := f + "text";
    assert line[0] == '`' && line[n] == 't';
    assert SpaceRun(line) == 0;
    assert line[0..] == line && line[..n] == f && line[n..] == "text";
    HeadRunIs(line, n);
    assert TrimStart("text") == "text" && TrimEnd("text") == "text";
  }

  lemma ReadLine(line: string, rest: seq<string>, o: Opening)
    ensures ReadContent([line] + rest, o) ==
            if Closes(line, o.length) then ([], rest)
            else ([Unindented(line, o.indent)] + ReadContent(rest, o).0, ReadContent(rest, o).1)
  {
  }

  lemma {:induction false} ContentIsRead(content: seq<string>, n: nat)
    requires forall k :: 0 <= k < |content| ==> !Closes(content[k], n)
    ensures ReadContent(content + [TickString(n)], Opening(0, n, "text")) == (content, [])
    decreases |content|
  {
    hide Closes;
    hide ReadContent;
    var o := Opening(0, n, "text");
    if content == [] {
      FenceCloses(n);
      ReadLine(TickString(n), [], o);
      assert content + [TickString(n)] == [TickString(n)] + [];
    } else {
      var line, rest := content[0], content[1..];
      ContentIsRead(rest, n);
      ReadLine(line, rest + [TickString(n)], o);
      assert content + [TickString(n)] == [line] + (rest + [TickString(n)]);
      assert Unindented(line, 0) == line;
      assert [line] + rest == content;
    }
  }

  lemma TicksOneLine(fence: string, rest: string)
    requires Ticks(fence) && '\r' !in rest && '\n' !in rest
    ensures '\r' !in fence + rest && LinesOf(fence + rest) == [fence + rest]
  {
    OneLineOnly(fence + rest);
  }

  lemma FencedLines(fence: string, n: string)
    requires Ticks(fence) && '\r' !in n
    ensures LinesOf(fence + "text\n" + n + "\n" + fence) == [fence + "text"] + LinesOf(n) + [fence]
  {
    hide LinesOf;
    hide Ticks;
    var opening := fence + "text";
    assert fence + "text\n" + n + "\n" + fence == opening + (['\n'] + (n + (['\n'] + fence)));
    TicksOneLine(fence, "text");
    TicksOneLine(fence, "");
    assert fence + "" == fence;
    LinesJoin(opening, n + (['\n'] + fence));
    LinesJoin(n, fence);
    assert [opening] + (LinesOf(n) + [fence]) == [opening] + LinesOf(n) + [fence];
  }

  lemma BlockLines(text: string)
    ensures LinesOf(ReadOnlyBlock(text)) == [Fence(text) + "text"] + LinesOf(NormalizeEnds(text)) + [Fence(text)]
  {
    hide LinesOf;
    hide Longest;
    FencedLines(Fence(text), NormalizeEnds(text));
  }

  // ---- U+0000 -------------------------------------------------------------------------------------------------

  lemma {:induction false} TailRunSecured(s: string)
    ensures TailRun(Secured(s)) == TailRun(s)
    decreases |s|
  {
    if s != [] && s[|s| - 1] == '`' {
      TailRunSecured(s[..|s| - 1]);
      assert Secured(s)[..|s| - 1] == Secured(s[..|s| - 1]);
    }
  }

  lemma {:induction false} LongestSecured(s: string)
    ensures Longest(Secured(s)) == Longest(s)
    decreases |s|
  {
    hide TailRun;
    if s != [] {
      LongestSecured(s[..|s| - 1]);
      TailRunSecured(s);
      assert Secured(s)[..|s| - 1] == Secured(s[..|s| - 1]);
    }
  }

  lemma EndSecured(s: string, n: nat)
    requires n <= |s|
    ensures EndLength(Secured(s)) == EndLength(s) && Secured(s)[n..] == Secured(s[n..])
  {
  }

  lemma {:induction false} EndsSecured(s: string)
    ensures NormalizeEnds(Secured(s)) == Secured(NormalizeEnds(s))
    decreases |s|
  {
    hide EndLength;
    hide Secured;
    if s == [] {
      NothingSecured();
    } else {
      var end := EndLength(s);
      var skip := Max(1, end);
      EndsSecured(s[skip..]);
      EndSecured(s, skip);
      SecuredConcat([if end > 0 then '\n' else s[0]], NormalizeEnds(s[skip..]));
      OneSecured(s);
    }
  }

  lemma NothingSecured()
    ensures Secured([]) == []
  {
  }

  lemma OneSecured(s: string)
    requires s != []
    ensures |Secured(s)| == |s| && Secured([s[0]]) == [Secured(s)[0]] && Secured(['\n']) == ['\n']
  {
  }

  lemma BlockSecured(text: string)
    ensures Secured(ReadOnlyBlock(text)) == ReadOnlyBlock(Secured(text))
  {
    EndsSecured(text);
    LongestSecured(NormalizeEnds(text));
    var fence, n := Fence(text), NormalizeEnds(text);
    assert Fence(Secured(text)) == fence;
    assert forall i :: 0 <= i < |fence| ==> fence[i] == '`';
    SecuredConcat(fence + "text\n" + n + "\n", fence);
    SecuredConcat(fence + "text\n" + n, "\n");
    SecuredConcat(fence + "text\n", n);
    assert Secured(fence) == fence && Secured(fence + "text\n") == fence + "text\n" && Secured("\n") == "\n";
  }

  lemma SecuredConcat(a: string, b: string)
    ensures Secured(a + b) == Secured(a) + Secured(b)
  {
  }

  predicate InSome(c: char, lines: seq<string>) {
    exists k :: 0 <= k < |lines| && c in lines[k]
  }

  lemma InSomeMore(c: char, line: string, lines: seq<string>)
    ensures InSome(c, [line] + lines) <==> c in line || InSome(c, lines)
  {
    var all := [line] + lines;
    if k :| 0 <= k < |lines| && c in lines[k] {
      assert c in all[k + 1];
    }
    if c in line {
      assert c in all[0];
    }
  }

  lemma {:induction false} LinesKeepNul(s: string)
    ensures InSome('\0', LinesOf(s)) <==> '\0' in s
    decreases |s|
  {
    hide InSome;
    if s == [] {
      InSomeMore('\0', "", []);
      assert [""] + [] == [""];
      assert !InSome('\0', []) by { NoneInSome('\0'); }
    } else if EndLength(s) > 0 {
      var end := EndLength(s);
      LinesKeepNul(s[end..]);
      InSomeMore('\0', "", LinesOf(s[end..]));
      assert s == s[..end] + s[end..];
    } else {
      LinesKeepNul(s[1..]);
      var rest := LinesOf(s[1..]);
      InSomeMore('\0', rest[0], rest[1..]);
      InSomeMore('\0', [s[0]] + rest[0], rest[1..]);
      assert rest == [rest[0]] + rest[1..];
      assert s == [s[0]] + s[1..];
    }
  }

  lemma NoneInSome(c: char)
    ensures !InSome(c, [])
  {
  }

  /** Replacing U+0000 line by line. */
  function EachSecured(lines: seq<string>): seq<string> {
    seq(|lines|, i requires 0 <= i < |lines| => Secured(lines[i]))
  }

  lemma EachMore(line: string, lines: seq<string>)
    ensures EachSecured([line] + lines) == [Secured(line)] + EachSecured(lines)
  {
  }

  lemma {:induction false} LinesSecured(s: string)
    ensures LinesOf(Secured(s)) == EachSecured(LinesOf(s))
    decreases |s|
  {
    hide EndLength;
    hide Secured;
    hide EachSecured;
    NothingSecured();
    if s == [] {
      EachNone();
    } else {
      var end := EndLength(s);
      var skip := Max(1, end);
      var rest := LinesOf(s[skip..]);
      LinesSecured(s[skip..]);
      EndSecured(s, skip);
      OneSecured(s);
      if end > 0 {
        EachMore("", rest);
      } else {
        SecuredConcat([s[0]], rest[0]);
        EachMore([s[0]] + rest[0], rest[1..]);
        EachMore(rest[0], rest[1..]);
        assert rest == [rest[0]] + rest[1..];
      }
    }
  }

  lemma EachNone()
    ensures EachSecured([""]) == [""]
  {
    assert Secured("") == "";
    assert EachSecured([""])[0] == Secured("");
  }

  lemma LinesSecuredExactly(s: string)
    ensures LinesOf(Secured(s)) == LinesOf(s) <==> '\0' !in s
  {
    LinesSecured(s);
    LinesKeepNul(s);
    assert forall k :: 0 <= k < |LinesOf(s)| ==> EachSecured(LinesOf(s))[k] == Secured(LinesOf(s)[k]);
    if '\0' in s {
      var k :| 0 <= k < |LinesOf(s)| && '\0' in LinesOf(s)[k];
      SecuredExactly(LinesOf(s)[k]);
    } else {
      SecuredExactly(s);
    }
  }

  /** The block as a reader sees it: the whole document is one block, whose lines are those of the text. */
  lemma BlockIsRead(text: string)
    ensures ReadFenced(ReadOnlyBlock(text)) == Some(Block("text", LinesOf(Secured(text)), []))
  {
    hide ReadOpening;
    hide ReadContent;
    hide LinesOf;
    hide ReadOnlyBlock;
    hide Secured;
    var t := Secured(text);
    BlockSecured(text);
    BlockLines(t);
    SameLines(t);
    var content := LinesOf(NormalizeEnds(t));
    FenceOpens(|Fence(t)|);
    forall k | 0 <= k < |content|
      ensures !Closes(content[k], |Fence(t)|)
    {
      NoLineCloses(t, k);
    }
    ContentIsRead(content, |Fence(t)|);
    var lines := LinesOf(ReadOnlyBlock(t));
    assert lines[0] == Fence(t) + "text" && lines[1..] == content + [Fence(t)];
  }

  /** The fence holds whatever the text, and its lines come back exactly unless it has a U+0000. */
  lemma BlockReadsBack(text: string)
    ensures ReadFenced(ReadOnlyBlock(text)) == Some(Block("text", LinesOf(text), [])) <==> '\0' !in text
  {
    hide ReadFenced;
    hide ReadOnlyBlock;
    BlockIsRead(text);
    LinesSecuredExactly(text);
  }
}
