/**
 * Whole diffs of several files: where splitDiffByFile finds the files again, and that the
 * collected lines are then exactly the changed lines of every file at their true numbers.
 */
module DiffTheorems {
  import opened Basics
  import opened Text
  import opened DiffText
  import opened DiffLines
  import opened DiffFormat
  import opened GitPaths

  // ---- printing -----------------------------------------------------------------------------

  function HeaderLine(f: FileDiff): string {
    HeaderText(f.oldPath, f.newPath)
  }

  /** The lines below the header line. */
  function Below(f: FileDiff): seq<string> {
    f.extended + HunkLines(f.hunks)
  }

  function Rest(f: FileDiff): string {
    Unlines(Below(f))
  }

  function FileText(f: FileDiff): string {
    HeaderLine(f) + "\n" + Rest(f)
  }

  function Printed(files: seq<FileDiff>): string {
    if files == [] then "" else Printed(files[..|files| - 1]) + FileText(files[|files| - 1])
  }

  predicate OnOneLine(l: HunkLine) {
    l.NoNewline? || OneLine(l.text)
  }

  /** No line of a hunk spills over into the next. */
  predicate TidyHunks(hunks: seq<Hunk>) {
    forall i :: 0 <= i < |hunks| ==>
      OneLine(hunks[i].section) && forall k :: 0 <= k < |hunks[i].body| ==> OnOneLine(hunks[i].body[k])
  }

  /** The lines above the first hunk: single lines, none of them a hunk header. */
  predicate TidyLines(lines: seq<string>) {
    forall i :: 0 <= i < |lines| ==> OneLine(lines[i]) && ParseHunk(lines[i]).None?
  }

  predicate Tidy(f: FileDiff) {
    f.oldPath != [] && f.newPath != [] && TidyLines(f.extended) && TidyHunks(f.hunks)
  }

  predicate AllTidy(files: seq<FileDiff>) {
    forall i :: 0 <= i < |files| ==> Tidy(files[i])
  }

  /** The header line reads back as the new path. */
  predicate Reads(f: FileDiff) {
    ParseHeader(HeaderLine(f)) == Some(f.newPath)
  }

  /**
   * Git prints neither path in quotes, the old path does not look like the end of a header,
   * and no line below the header is taken for another one.
   */
  predicate Intact(f: FileDiff) {
    && Bare(f.oldPath) && Bare(f.newPath) && PlainPath(f.oldPath)
    && forall i :: 0 <= i < |Below(f)| ==> HeaderFree(Below(f)[i])
  }

  // ---- headers of a text put together ----------------------------------------------------------

  predicate Closed(s: string) {
    s == [] || IsTerminator(s[|s| - 1])
  }

  lemma LineEndIs(s: string, i: nat, j: nat)
    requires i <= j <= |s| && (forall k :: i <= k < j ==> !IsTerminator(s[k])) && (j < |s| ==> IsTerminator(s[j]))
    ensures LineEnd(s, i) == j
  {
  }

  lemma HeaderBefore(a: string, b: string, i: nat)
    requires Closed(a) && i < |a|
    ensures HeaderAt(a + b, i) == HeaderAt(a, i)
  {
    hide ParseHeader;
    var j := LineEnd(a, i);
    assert IsTerminator(a[|a| - 1]);
    LineEndIs(a + b, i, j);
    assert (a + b)[i..j] == a[i..j];
  }

  lemma LineStartMoves(a: string, b: string, j: nat)
    requires Closed(a) && j <= |b|
    ensures LineStart(a + b, |a| + j) <==> LineStart(b, j)
  {
    if j == 0 && a != [] {
      assert (a + b)[|a| - 1] == a[|a| - 1];
    } else if j > 0 {
      assert (a + b)[|a| + j - 1] == b[j - 1];
    }
  }

  lemma LineMoves(a: string, b: string, j: nat)
    requires j <= |b|
    ensures var e := LineEnd(b, j);
            LineEnd(a + b, |a| + j) == |a| + e && (a + b)[|a| + j..|a| + e] == b[j..e]
  {
    var e := LineEnd(b, j);
    assert forall k :: 0 <= k < |b| ==> (a + b)[|a| + k] == b[k];
    assert forall k :: |a| + j <= k < |a| + e ==> (a + b)[k] == b[k - |a|];
    LineEndIs(a + b, |a| + j, |a| + e);
    assert (a + b)[|a| + j..|a| + e] == b[j..e];
  }

  lemma HeaderAfter(a: string, b: string, j: nat)
    requires Closed(a) && j <= |b|
    ensures HeaderAt(a + b, |a| + j) == HeaderAt(b, j)
  {
    hide ParseHeader;
    hide LineStart;
    hide LineEnd;
    LineStartMoves(a, b, j);
    LineMoves(a, b, j);
  }

  function Shifted(matches: seq<HeaderMatch>, offset: nat): (r: seq<HeaderMatch>)
    ensures |r| == |matches|
  {
    seq(|matches|, i requires 0 <= i < |matches| => HeaderMatch(matches[i].at + offset, matches[i].name))
  }

  lemma {:induction false} HeadersBefore(a: string, b: string, n: nat)
    requires Closed(a) && n <= |a|
    ensures Headers(a + b, n) == Headers(a, n)
    decreases n
  {
    hide HeaderAt;
    if n > 0 {
      HeadersBefore(a, b, n - 1);
      HeaderBefore(a, b, n - 1);
    }
  }

  /** The headers of two texts put together, the first ending in a line end. */
  lemma {:induction false} HeadersConcat(a: string, b: string, n: nat)
    requires Closed(a) && n <= |b|
    ensures Headers(a + b, |a| + n) == Headers(a, |a|) + Shifted(Headers(b, n), |a|)
    decreases n
  {
    hide HeaderAt;
    if n == 0 {
      HeadersBefore(a, b, |a|);
      assert Headers(a, |a|) + Shifted([], |a|) == Headers(a, |a|);
    } else {
      HeadersConcat(a, b, n - 1);
      HeaderAfter(a, b, n - 1);
      var earlier := Headers(b, n - 1);
      if HeaderAt(b, n - 1).Some? {
        var m := HeaderMatch(n - 1, HeaderAt(b, n - 1).value);
        assert Shifted(earlier + [m], |a|) == Shifted(earlier, |a|) + [HeaderMatch(|a| + n - 1, m.name)];
        assert (Headers(a, |a|) + Shifted(earlier, |a|)) + [HeaderMatch(|a| + n - 1, m.name)] ==
               Headers(a, |a|) + (Shifted(earlier, |a|) + [HeaderMatch(|a| + n - 1, m.name)]);
      }
    }
  }

  lemma {:induction false} FreeIsNone(s: string, n: nat)
    requires n <= |s|
    ensures Headers(s, n) == [] <==> forall i :: 0 <= i < n ==> HeaderAt(s, i).None?
    decreases n
  {
    hide HeaderAt;
    if n > 0 {
      FreeIsNone(s, n - 1);
    }
  }

  lemma NoHeaderAtEnd(s: string)
    ensures HeaderAt(s, |s|).None?
  {
  }

  lemma HeaderFreeIsNone(s: string)
    ensures HeaderFree(s) <==> Headers(s, |s|) == []
  {
    hide HeaderAt;
    FreeIsNone(s, |s|);
    NoHeaderAtEnd(s);
  }

  // ---- headers of one printed file ----------------------------------------------------------------

  lemma {:induction false} UnlinesClosed(lines: seq<string>)
    ensures Closed(Unlines(lines))
    decreases |lines|
  {
  }

  /** A line read as a header at this place, if it is one. */
  function Match(line: string, at: nat): (r: seq<HeaderMatch>)
    ensures |r| <= 1
  {
    match ParseHeader(line)
    case None => []
    case Some(name) => [HeaderMatch(at, name)]
  }

  /** A line on its own is a header or not, and nothing else on it is. */
  lemma {:induction false} OneHeader(line: string, n: nat)
    requires 1 <= n <= |line| + 1 && Unbroken(line)
    ensures Headers(line + "\n", n) == Match(line, 0)
    decreases n
  {
    hide ParseHeader;
    var s := line + "\n";
    if n == 1 {
      LineEndIs(s, 0, |line|);
      assert s[0..|line|] == line;
      assert Headers(s, 0) == [];
    } else {
      OneHeader(line, n - 1);
      assert s[n - 2] == line[n - 2];
      assert !LineStart(s, n - 1);
    }
  }

  /** What the pattern finds in one printed file: its header, if it reads one, then whatever hides below. */
  lemma FileHeaders(f: FileDiff)
    ensures Closed(FileText(f))
    ensures Headers(FileText(f), |FileText(f)|) ==
            Match(HeaderLine(f), 0) + Shifted(Headers(Rest(f), |Rest(f)|), |HeaderLine(f)| + 1)
  {
    hide ParseHeader;
    hide HeaderLine;
    hide Match;
    var a := HeaderLine(f) + "\n";
    HeaderLineUnbroken(f);
    OneHeader(HeaderLine(f), |a|);
    HeadersConcat(a, Rest(f), |Rest(f)|);
    UnlinesClosed(Below(f));
    if Rest(f) == [] {
      assert FileText(f) == a;
    } else {
      assert FileText(f)[|FileText(f)| - 1] == Rest(f)[|Rest(f)| - 1];
    }
  }

  lemma HeaderLineUnbroken(f: FileDiff)
    ensures Unbroken(HeaderLine(f))
  {
    HeaderUnbroken(f.oldPath, f.newPath);
  }

  // ---- headers hidden in the lines below ----------------------------------------------------------

  lemma FreeTogether(a: string, b: string)
    requires Closed(a)
    ensures HeaderFree(a + b) <==> HeaderFree(a) && HeaderFree(b)
  {
    hide HeaderFree;
    HeadersConcat(a, b, |b|);
    HeaderFreeIsNone(a);
    HeaderFreeIsNone(b);
    HeaderFreeIsNone(a + b);
  }

  lemma FreeLine(line: string)
    ensures HeaderFree(line + "\n") <==> HeaderFree(line)
  {
    hide ParseHeader;
    var s := line + "\n";
    forall i | 0 <= i <= |line|
      ensures HeaderAt(s, i) == HeaderAt(line, i)
    {
      var j := LineEnd(line, i);
      LineEndIs(s, i, j);
      assert s[i..j] == line[i..j];
    }
    NoHeaderAtEnd(s);
    forall i | 0 <= i <= |s|
      ensures HeaderAt(s, i).Some? ==> i <= |line|
    {
    }
  }

  /** A text of lines hides no header exactly when none of its lines does. */
  lemma {:induction false} FreeLines(lines: seq<string>)
    ensures HeaderFree(Unlines(lines)) <==> forall i :: 0 <= i < |lines| ==> HeaderFree(lines[i])
    decreases |lines|
  {
    hide HeaderFree;
    if lines == [] {
      HeaderFreeIsNone("");
    } else {
      var init, last := lines[..|lines| - 1], lines[|lines| - 1];
      FreeLines(init);
      UnlinesClosed(init);
      assert Unlines(lines) == Unlines(init) + (last + "\n");
      FreeTogether(Unlines(init), last + "\n");
      FreeLine(last);
      assert forall i :: 0 <= i < |init| ==> lines[i] == init[i];
    }
  }

  /**
   * A line without a carriage return or a Unicode line separator hides a header only by
   * being one from its first character.
   */
  lemma UnbrokenLine(line: string)
    requires forall i :: 0 <= i < |line| ==> !IsTerminator(line[i])
    ensures HeaderFree(line) <==> ParseHeader(line).None?
  {
    hide ParseHeader;
    LineEndIs(line, 0, |line|);
    assert line[0..|line|] == line;
    assert HeaderAt(line, 0) == ParseHeader(line);
  }

  // ---- where the files begin -----------------------------------------------------------------------

  /** The headers that should be found: one at the start of each file, with its new path. */
  function Starts(files: seq<FileDiff>): (r: seq<HeaderMatch>)
    ensures |r| == |files|
  {
    if files == [] then []
    else
      var init, last := files[..|files| - 1], files[|files| - 1];
      Starts(init) + [HeaderMatch(|Printed(init)|, last.newPath)]
  }

  predicate NothingHidden(files: seq<FileDiff>) {
    forall i :: 0 <= i < |files| ==> HeaderFree(Rest(files[i]))
  }

  predicate AllRead(files: seq<FileDiff>) {
    forall i :: 0 <= i < |files| ==> Reads(files[i])
  }

  /** How many headers the pattern finds: those it reads, and those it should not. */
  function HeadersFound(files: seq<FileDiff>): nat {
    if files == [] then 0
    else
      var last := files[|files| - 1];
      HeadersFound(files[..|files| - 1]) + |Match(HeaderLine(last), 0)| + |Headers(Rest(last), |Rest(last)|)|
  }

  lemma ShiftedTwice(first: seq<HeaderMatch>, line: string, hidden: seq<HeaderMatch>, inner: nat, outer: nat)
    requires first == Match(line, 0)
    ensures Shifted(first + Shifted(hidden, inner), outer) == Match(line, outer) + Shifted(hidden, outer + inner)
  {
    hide ParseHeader;
  }

  lemma ClosedConcat(a: string, b: string)
    requires Closed(a) && Closed(b)
    ensures Closed(a + b)
  {
  }

  lemma PrintedHeadersMore(before: string, f: FileDiff)
    requires Closed(before)
    ensures Closed(before + FileText(f))
    ensures var raw := before + FileText(f);
            Headers(raw, |raw|) == Headers(before, |before|) + (Match(HeaderLine(f), |before|)
                                   + Shifted(Headers(Rest(f), |Rest(f)|), |before| + (|HeaderLine(f)| + 1)))
  {
    hide *;
    FileHeaders(f);
    HeadersConcat(before, FileText(f), |FileText(f)|);
    ShiftedTwice(Match(HeaderLine(f), 0), HeaderLine(f), Headers(Rest(f), |Rest(f)|), |HeaderLine(f)| + 1, |before|);
    ClosedConcat(before, FileText(f));
    assert |before + FileText(f)| == |before| + |FileText(f)|;
  }

  /** What the pattern finds in a printed diff. */
  predicate FilesFound(files: seq<FileDiff>) {
    var found := Headers(Printed(files), |Printed(files)|);
    && Closed(Printed(files))
    && |found| == HeadersFound(files)
    && (AllRead(files) ==> HeadersFound(files) >= |files| && (HeadersFound(files) == |files| <==> NothingHidden(files)))
    && (AllRead(files) && NothingHidden(files) ==> found == Starts(files))
  }

  lemma NothingHiddenMore(files: seq<FileDiff>)
    requires files != []
    ensures NothingHidden(files) <==>
            NothingHidden(files[..|files| - 1]) && Headers(Rest(files[|files| - 1]), |Rest(files[|files| - 1])|) == []
  {
    hide HeaderFree;
    hide Rest;
    HeaderFreeIsNone(Rest(files[|files| - 1]));
    assert forall i :: 0 <= i < |files| - 1 ==> files[i] == files[..|files| - 1][i];
  }

  lemma AllReadMore(files: seq<FileDiff>)
    requires files != []
    ensures AllRead(files) <==> AllRead(files[..|files| - 1]) && Reads(files[|files| - 1])
  {
    hide Reads;
    assert forall i :: 0 <= i < |files| - 1 ==> files[i] == files[..|files| - 1][i];
  }

  lemma ReadMatch(f: FileDiff, at: nat)
    requires Reads(f)
    ensures Match(HeaderLine(f), at) == [HeaderMatch(at, f.newPath)]
  {
    hide ParseHeader;
    hide HeaderLine;
  }

  lemma {:induction false} PrintedHeaders(files: seq<FileDiff>)
    ensures FilesFound(files)
    decreases |files|
  {
    hide AllRead;
    hide Reads;
    hide NothingHidden;
    hide Headers;
    hide FileText;
    hide Rest;
    hide HeaderLine;
    hide Match;
    hide Shifted;
    if files == [] {
      HeaderFreeIsNone("");
      NoneHidden();
    } else {
      var init, last := files[..|files| - 1], files[|files| - 1];
      PrintedHeaders(init);
      PrintedHeadersMore(Printed(init), last);
      NothingHiddenMore(files);
      AllReadMore(files);
      var hidden := Headers(Rest(last), |Rest(last)|);
      MatchMoves(HeaderLine(last), |Printed(init)|);
      if Reads(last) {
        ReadMatch(last, |Printed(init)|);
      }
      assert |Shifted(hidden, |Printed(init)| + (|HeaderLine(last)| + 1))| == |hidden|;
    }
  }

  lemma MatchMoves(line: string, at: nat)
    ensures |Match(line, at)| == |Match(line, 0)|
  {
    hide ParseHeader;
  }

  lemma NoneHidden()
    ensures NothingHidden([]) && HeaderFree("")
  {
  }

  // ---- the files again -------------------------------------------------------------------------------

  lemma {:induction false} PrintedPrefix(files: seq<FileDiff>, k: nat)
    requires k <= |files|
    ensures Printed(files[..k]) <= Printed(files)
    decreases |files|
  {
    if k == |files| {
      assert files[..k] == files;
    } else {
      PrintedPrefix(files[..|files| - 1], k);
      assert files[..|files| - 1][..k] == files[..k];
    }
  }

  lemma PrintedSlice(files: seq<FileDiff>, k: nat)
    requires k < |files|
    ensures |Printed(files[..k])| <= |Printed(files[..k + 1])| <= |Printed(files)|
    ensures Printed(files)[|Printed(files[..k])|..|Printed(files[..k + 1])|] == FileText(files[k])
  {
    hide FileText;
    PrintedPrefix(files, k + 1);
    assert files[..k + 1][..k] == files[..k];
    var a, b := Printed(files[..k]), Printed(files[..k + 1]);
    assert b == a + FileText(files[k]);
    assert Printed(files)[..|b|] == b;
    assert Printed(files)[|a|..|b|] == b[|a|..];
  }

  lemma {:induction false} StartsAt(files: seq<FileDiff>, k: nat)
    requires k < |files|
    ensures Starts(files)[k] == HeaderMatch(|Printed(files[..k])|, files[k].newPath)
    decreases |files|
  {
    hide FileText;
    if k < |files| - 1 {
      StartsAt(files[..|files| - 1], k);
      assert files[..|files| - 1][..k] == files[..k];
    }
  }

  function TrueChunks(files: seq<FileDiff>): seq<Chunk> {
    seq(|files|, i requires 0 <= i < |files| => Chunk(files[i].newPath, Trim(FileText(files[i]))))
  }

  lemma ChunkAt(files: seq<FileDiff>, k: nat)
    requires AllRead(files) && NothingHidden(files) && k < |files|
    ensures |SplitByFile(Printed(files))| == |files|
    ensures SplitByFile(Printed(files))[k] == TrueChunks(files)[k]
  {
    hide AllRead;
    hide Headers;
    hide NothingHidden;
    hide FileText;
    hide Trim;
    hide Printed;
    hide Starts;
    PrintedHeaders(files);
    StartsAt(files, k);
    PrintedSlice(files, k);
    if k + 1 < |files| {
      StartsAt(files, k + 1);
    } else {
      assert files[..k + 1] == files;
    }
  }

  /**
   * As many chunks as headers found: each file whose header reads as one, and each header
   * hidden below; a diff in which none is found is one chunk.
   */
  lemma HowManyChunks(files: seq<FileDiff>)
    ensures |SplitByFile(Printed(files))| == Max(1, HeadersFound(files))
    ensures AllRead(files) && files != [] ==> (|SplitByFile(Printed(files))| == |files| <==> NothingHidden(files))
  {
    hide AllRead;
    hide Headers;
    hide NothingHidden;
    hide Trim;
    hide Printed;
    hide Starts;
    hide HeadersFound;
    PrintedHeaders(files);
  }

  /** A file is intact when its header reads back and its other lines hide none. */
  lemma IntactMeans(f: FileDiff)
    requires Tidy(f)
    ensures Intact(f) <==> HeaderFree(Rest(f)) && Reads(f)
  {
    hide HeaderFree;
    hide ParseHeader;
    hide HeaderText;
    hide Bare;
    hide PlainPath;
    FreeLines(Below(f));
    HeaderReadsBack(f.oldPath, f.newPath);
  }

  // ---- nothing but intact files splits right ------------------------------------------------------------

  lemma {:induction false} TrimEndConcat(a: string, b: string)
    ensures TrimEnd(a + b) == if AllWhite(b) then TrimEnd(a) else a + TrimEnd(b)
    decreases |b|
  {
    hide IsWhite;
    if b == [] {
      assert a + b == a;
    } else {
      var init, c := b[..|b| - 1], b[|b| - 1];
      TrimEndConcat(a, init);
      assert (a + b)[..|a + b| - 1] == a + init;
      assert AllWhite(b) <==> AllWhite(init) && IsWhite(c) by {
        assert forall i :: 0 <= i < |init| ==> b[i] == init[i];
      }
    }
  }

  lemma {:induction false} TrimEndIs(s: string)
    ensures TrimEnd(s) <= s && AllWhite(s[|TrimEnd(s)|..])
    ensures TrimEnd(s) != [] ==> !IsWhite(TrimEnd(s)[|TrimEnd(s)| - 1])
    decreases |s|
  {
    hide IsWhite;
    if s != [] && IsWhite(s[|s| - 1]) {
      TrimEndIs(s[..|s| - 1]);
      var n := |TrimEnd(s)|;
      assert s[n..] == s[..|s| - 1][n..] + [s[|s| - 1]];
    } else {
      assert s[|s|..] == [];
    }
  }

  lemma TrimFrom(s: string)
    requires s != [] && !IsWhite(s[0])
    ensures Trim(s) == TrimEnd(s)
  {
  }

  predicate StartsEnded(s: string) {
    s == [] || IsTerminator(s[0])
  }

  /** The first line of a trimmed text is the text's own first line, perhaps trimmed. */
  lemma TrimmedFirstLine(line: string, rest: string)
    requires Unbroken(line) && StartsEnded(rest)
    ensures var t := TrimEnd(line + rest); TrimEnd(t[..LineEnd(t, 0)]) == TrimEnd(line)
  {
    hide TrimEnd;
    hide IsTerminator;
    var t := TrimEnd(line + rest);
    TrimEndConcat(line, rest);
    TrimEndIs(line);
    TrimEndIs(rest);
    if AllWhite(rest) {
      assert Unbroken(t);
      LineEndIs(t, 0, |t|);
      assert t[..|t|] == t;
      TrimEndConcat(t, line[|t|..]);
      assert t + line[|t|..] == line;
      TrimEndTwice(line);
    } else {
      var u := TrimEnd(rest);
      assert rest[0..] == rest;
      assert u[0] == rest[0] && t == line + u;
      LineEndIs(t, 0, |line|);
      assert t[..|line|] == line;
    }
  }

  lemma TrimEndTwice(s: string)
    ensures TrimEnd(TrimEnd(s)) == TrimEnd(s)
  {
    TrimEndIs(s);
  }

  lemma SameFirstLine(l: string, r: string, h: string, rest: string)
    requires Unbroken(l) && StartsEnded(r) && Unbroken(h) && StartsEnded(rest)
    requires TrimEnd(l + r) == TrimEnd(h + rest)
    ensures TrimEnd(l) == TrimEnd(h)
  {
    hide TrimEnd;
    TrimmedFirstLine(l, r);
    TrimmedFirstLine(h, rest);
  }

  /** Two texts that end the same way, with something not white before, agree if they do when trimmed. */
  lemma SameEnding(a: string, b: string, q: string)
    requires a != [] && b != [] && !IsWhite(a[|a| - 1]) && !IsWhite(b[|b| - 1])
    requires TrimEnd(a + q) == TrimEnd(b + q)
    ensures a == b
  {
    TrimEndConcat(a, q);
    TrimEndConcat(b, q);
    if !AllWhite(q) {
      var x, y := a + TrimEnd(q), b + TrimEnd(q);
      assert x[..|a|] == a && y[..|b|] == b && |a| == |b|;
    }
  }

  lemma HeaderParts(line: string)
    requires ParseHeader(line).Some?
    ensures GIT <= line
    ensures exists x :: line == x + ParseHeader(line).value && |x| > |GIT| && x[|x| - 1] == '/'
  {
    var rest := line[|GIT|..];
    var k := FindSeparator(rest, 1).value;
    var x := GIT + rest[..k + 3];
    assert rest[k..k + 3][2] == SEPARATOR[2];
    assert line == x + rest[k + 3..];
  }

  lemma BareReadsLike(line: string, x: string, p: string, q: string)
    requires Bare(p) && Bare(q) && line == x + q && x != [] && x[|x| - 1] == '/'
    requires TrimEnd(line) == TrimEnd(HeaderText(p, q))
    ensures line == HeaderText(p, q)
  {
    hide Bare;
    hide HeaderText;
    hide TrimEnd;
    BareForm(p, q);
    var y := GIT + p + SEPARATOR;
    assert y[|y| - 1] == SEPARATOR[2];
    SameEnding(x, y, q);
  }

  /** What agrees with a text that ends in a visible character starts with that text. */
  lemma StartsWithTrimmed(line: string, h: string)
    requires TrimEnd(line) == TrimEnd(h) && h != [] && !IsWhite(h[|h| - 1])
    ensures h <= line && AllWhite(line[|h|..])
  {
    TrimEndIs(line);
  }

  lemma QuotedReadsUnlike(line: string, p: string, q: string)
    requires Bare(p) && !Bare(q) && TrimEnd(line) == TrimEnd(HeaderText(p, q))
    ensures ParseHeader(line) != Some(q)
  {
    hide Bare;
    hide Quoted;
    hide ParseHeader;
    hide TrimEnd;
    var h := HeaderText(p, q);
    QuotedNewForm(p, q);
    hide HeaderText;
    assert h[|h| - 1] == '\"';
    StartsWithTrimmed(line, h);
    assert line == h + line[|h|..];
    QuotedNeverReads(p, q, line[|h|..]);
  }

  /** A header line that agrees with a file's up to trailing white space, and reads right, is the file's. */
  lemma ReadsLikeThis(line: string, p: string, q: string)
    requires ParseHeader(line) == Some(q) && TrimEnd(line) == TrimEnd(HeaderText(p, q))
    ensures ParseHeader(HeaderText(p, q)) == Some(q)
  {
    hide ParseHeader;
    hide Bare;
    hide HeaderText;
    hide TrimEnd;
    HeaderParts(line);
    var x :| line == x + q && |x| > |GIT| && x[|x| - 1] == '/';
    if !Bare(p) {
      QuotedOldHasNoPrefix(p, q);
      StartKept(line, HeaderText(p, q));
    } else if !Bare(q) {
      QuotedReadsUnlike(line, p, q);
    } else {
      BareReadsLike(line, x, p, q);
    }
  }

  lemma QuotedOldHasNoPrefix(p: string, q: string)
    requires !Bare(p)
    ensures !(GIT <= HeaderText(p, q))
  {
    hide HeaderText;
    QuotedOldForm(p, q);
    assert GIT[11] == 'a';
  }

  lemma StartKept(line: string, h: string)
    requires GIT <= line && TrimEnd(line) == TrimEnd(h)
    ensures GIT <= h
  {
    var tail := line[|GIT|..];
    assert line == GIT + tail;
    TrimEndConcat(GIT, tail);
    assert GIT[|GIT| - 1] == '/';
    assert TrimEnd(GIT) == GIT;
    TrimEndIs(h);
    assert GIT <= TrimEnd(line);
  }

  /** Every match is a header where it stands. */
  lemma {:induction false} MatchesStand(s: string, n: nat, i: nat)
    requires n <= |s| && i < |Headers(s, n)|
    ensures Headers(s, n)[i].at < n && HeaderAt(s, Headers(s, n)[i].at) == Some(Headers(s, n)[i].name)
    decreases n
  {
    hide HeaderAt;
    if n > 0 && i < |Headers(s, n - 1)| {
      MatchesStand(s, n - 1, i);
    }
  }

  /** A chunk that is a file's text under its new path shows that the file's header reads back. */
  lemma ChunkShowsHeader(raw: string, at: nat, next: nat, f: FileDiff)
    requires at < |raw| && HeaderAt(raw, at) == Some(f.newPath) && LineEnd(raw, at) <= next <= |raw|
    requires Trim(raw[at..next]) == Trim(FileText(f))
    ensures Reads(f)
  {
    hide ParseHeader;
    hide HeaderText;
    hide TrimEnd;
    hide TrimStart;
    hide Rest;
    var end := LineEnd(raw, at);
    var line, rest, h := raw[at..end], raw[end..next], HeaderLine(f);
    assert raw[at..next] == line + rest;
    HeaderParts(line);
    HeaderStartsD(f.oldPath, f.newPath);
    HeaderLineUnbroken(f);
    assert line[0] == GIT[0] == 'd';
    TrimFrom(line + rest);
    var below := "\n" + Rest(f);
    assert FileText(f) == h + below;
    TrimFrom(h + below);
    assert rest != [] ==> rest[0] == raw[end];
    SameFirstLine(line, rest, h, below);
    ReadsLikeThis(line, f.oldPath, f.newPath);
  }

  lemma HeaderStartsD(p: string, q: string)
    ensures HeaderText(p, q) != [] && HeaderText(p, q)[0] == 'd'
  {
    assert HeaderText(p, q) == "diff --git " + (Side("a/", p) + " " + Side("b/", q));
  }

  /** The next match begins after the line of this one. */
  lemma NextAfterLine(raw: string, i: nat)
    requires var hs := Headers(raw, |raw|); i < |hs|
    ensures Headers(raw, |raw|)[i].at < |raw|
    ensures var hs := Headers(raw, |raw|);
            LineEnd(raw, hs[i].at) <= if i + 1 < |hs| then hs[i + 1].at else |raw|
  {
    hide ParseHeader;
    var hs := Headers(raw, |raw|);
    MatchesStand(raw, |raw|, i);
    HeadersInOrder(raw, |raw|);
    if i + 1 < |hs| {
      MatchesStand(raw, |raw|, i + 1);
      var at := hs[i + 1].at;
      assert IsTerminator(raw[at - 1]);
    }
  }

  lemma FileTextEnds(f: FileDiff)
    ensures var s := FileText(f); s != [] && s[0] == 'd' && IsTerminator(s[|s| - 1])
  {
    hide HeaderText;
    HeaderStartsD(f.oldPath, f.newPath);
    UnlinesClosed(Below(f));
    assert Closed(Rest(f));
    hide Rest;
    assert FileText(f)[0] == HeaderLine(f)[0];
    var a := HeaderLine(f) + "\n";
    assert a[|a| - 1] == '\n';
    if Rest(f) == [] {
      assert FileText(f) == a;
    } else {
      assert FileText(f)[|FileText(f)| - 1] == Rest(f)[|Rest(f)| - 1];
    }
  }

  /** Without a single header the text comes back untrimmed, which no printed file is. */
  lemma NotUntrimmed(f: FileDiff)
    ensures FileText(f) != Trim(FileText(f))
  {
    hide TrimEnd;
    hide FileText;
    FileTextEnds(f);
    TrimFrom(FileText(f));
    TrimEndIs(FileText(f));
  }

  lemma SomeHeader(files: seq<FileDiff>)
    requires files != [] && SplitByFile(Printed(files)) == TrueChunks(files)
    ensures Headers(Printed(files), |Printed(files)|) != []
  {
    hide FileText;
    hide Trim;
    hide Headers;
    var raw := Printed(files);
    if Headers(raw, |raw|) == [] {
      assert |TrueChunks(files)| == 1 && TrueChunks(files)[0].content == raw;
      assert files == [files[0]] && files[..0] == [];
      assert raw == "" + FileText(files[0]);
      NotUntrimmed(files[0]);
    }
  }

  lemma ChunkOf(raw: string, i: nat)
    requires var hs := Headers(raw, |raw|); i < |hs|
    ensures var hs := Headers(raw, |raw|);
            var next := if i + 1 < |hs| then hs[i + 1].at else |raw|;
            && |SplitByFile(raw)| == |hs| && hs[i].at <= next <= |raw|
            && SplitByFile(raw)[i] == Chunk(hs[i].name, Trim(raw[hs[i].at..next]))
  {
    hide Headers;
    hide Trim;
    HeadersInOrder(raw, |raw|);
  }

  lemma SplitShowsHeaders(files: seq<FileDiff>, i: nat)
    requires i < |files| && SplitByFile(Printed(files)) == TrueChunks(files)
    ensures Reads(files[i])
  {
    hide Reads;
    hide HeaderAt;
    hide FileText;
    hide Trim;
    hide Printed;
    hide Headers;
    SomeHeader(files);
    var raw := Printed(files);
    var hs := Headers(raw, |raw|);
    ChunkOf(raw, 0);
    ChunkOf(raw, i);
    hide SplitByFile;
    var next := if i + 1 < |hs| then hs[i + 1].at else |raw|;
    MatchesStand(raw, |raw|, i);
    NextAfterLine(raw, i);
    assert TrueChunks(files)[i] == Chunk(files[i].newPath, Trim(FileText(files[i])));
    ChunkShowsHeader(raw, hs[i].at, next, files[i]);
  }

  /**
   * splitDiffByFile gives back the files, each under its new path, exactly when no path is
   * quoted, every old path is plain and no line below a header hides another header.
   */
  lemma SplitsIntoFiles(files: seq<FileDiff>)
    requires AllTidy(files) && files != []
    ensures SplitByFile(Printed(files)) == TrueChunks(files) <==> forall i :: 0 <= i < |files| ==> Intact(files[i])
  {
    hide Tidy;
    hide HeaderFree;
    hide Reads;
    hide Trim;
    hide Intact;
    hide FileText;
    hide Printed;
    hide Rest;
    hide SplitByFile;
    HowManyChunks(files);
    forall i | 0 <= i < |files|
      ensures Intact(files[i]) <==> HeaderFree(Rest(files[i])) && Reads(files[i])
    {
      IntactMeans(files[i]);
    }
    if SplitByFile(Printed(files)) == TrueChunks(files) {
      forall i | 0 <= i < |files|
        ensures Reads(files[i])
      {
        SplitShowsHeaders(files, i);
      }
    }
    if AllRead(files) && NothingHidden(files) {
      forall i | 0 <= i < |files|
        ensures SplitByFile(Printed(files))[i] == TrueChunks(files)[i]
      {
        ChunkAt(files, i);
      }
    }
  }
}
