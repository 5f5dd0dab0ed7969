/**
 * From the printed diff back to the changed lines: trimming a chunk costs at most trailing
 * white space, so what is collected from a whole diff is what the diff says of each file.
 */
module DiffExact {
  import opened Text
  import opened DiffText
  import opened DiffLines
  import opened DiffFormat
  import opened DiffTheorems
  import opened GitPaths

  // ---- trimming a chunk -------------------------------------------------------------------------

  predicate SameButWhite(short: string, long: string) {
    short <= long && AllWhite(long[|short|..])
  }

  /** The same numbers, the same texts up to trailing white space. */
  predicate Near(found: seq<Line>, truth: seq<Line>) {
    |found| == |truth| &&
    forall i :: 0 <= i < |found| ==> found[i].number == truth[i].number && SameButWhite(found[i].text, truth[i].text)
  }

  lemma NearTransitive(a: seq<Line>, b: seq<Line>, c: seq<Line>)
    requires Near(a, b) && Near(b, c)
    ensures Near(a, c)
  {
  }

  /** White space at the end of a line changes neither its role nor the counters. */
  lemma RoleThenWhite(line: string, c: char, inHunk: bool)
    requires IsWhite(c)
    ensures RoleOf(line + [c], inHunk) == RoleOf(line, inHunk)
    ensures RoleOf(line, inHunk).Added? || RoleOf(line, inHunk).Removed? ==>
              line != [] && (line + [c])[1..] == line[1..] + [c]
  {
    hide ParseHunk;
    HunkThenWhite(line, c);
    PrefixThenWhite("+", line, c);
    PrefixThenWhite("-", line, c);
    PrefixThenWhite("\\", line, c);
  }

  lemma NearAppend(init: seq<Line>, n: nat, text: string, c: char)
    requires IsWhite(c)
    ensures Near(init + [Line(n, text)], init + [Line(n, text + [c])])
  {
  }

  lemma NearSelf(lines: seq<Line>)
    ensures Near(lines, lines)
  {
  }

  lemma LastLineThenWhite(init: seq<string>, last: string, c: char)
    requires IsWhite(c)
    ensures Near(AddedIn(init + [last]), AddedIn(init + [last + [c]]))
    ensures Near(RemovedIn(init + [last]), RemovedIn(init + [last + [c]]))
  {
    hide RoleOf;
    hide AddedIn;
    hide RemovedIn;
    hide After;
    hide Near;
    ScanMore(init, last);
    ScanMore(init, last + [c]);
    RoleThenWhite(last, c, After(init).inHunk);
    if last != [] {
      NearAppend(AddedIn(init), After(init).new_, last[1..], c);
      NearAppend(RemovedIn(init), After(init).old_, last[1..], c);
    }
    NearSelf(AddedIn(init) + []);
    NearSelf(RemovedIn(init) + []);
  }

  /** White space at the end of a text costs at most white space at the end of a line. */
  lemma TextThenWhite(s: string, c: char)
    requires IsWhite(c)
    ensures Near(AddedIn(Split(s)), AddedIn(Split(s + [c])))
    ensures Near(RemovedIn(Split(s)), RemovedIn(Split(s + [c])))
  {
    hide AddedIn;
    hide RemovedIn;
    hide Near;
    var lines := Split(s);
    var init, last := lines[..|lines| - 1], lines[|lines| - 1];
    assert (s + [c])[..|s|] == s;
    assert lines == init + [last];
    if c == '\n' {
      ScanEmptyLine(lines);
      NearSelf(AddedIn(lines));
      NearSelf(RemovedIn(lines));
    } else {
      assert Split(s + [c]) == init + [last + [c]];
      LastLineThenWhite(init, last, c);
    }
  }

  lemma {:induction false} TrimEndNear(s: string)
    ensures Near(AddedIn(Split(TrimEnd(s))), AddedIn(Split(s)))
    ensures Near(RemovedIn(Split(TrimEnd(s))), RemovedIn(Split(s)))
    decreases |s|
  {
    hide AddedIn;
    hide RemovedIn;
    hide Split;
    if s != [] && IsWhite(s[|s| - 1]) {
      var t, c := s[..|s| - 1], s[|s| - 1];
      assert s == t + [c];
      TrimEndNear(t);
      TextThenWhite(t, c);
      NearTransitive(AddedIn(Split(TrimEnd(t))), AddedIn(Split(t)), AddedIn(Split(s)));
      NearTransitive(RemovedIn(Split(TrimEnd(t))), RemovedIn(Split(t)), RemovedIn(Split(s)));
    }
  }

  // ---- one printed file -----------------------------------------------------------------------------

  lemma HeaderOnOneLine(h: Hunk)
    requires OneLine(h.section)
    ensures OneLine(HeaderOf(h))
  {
  }

  lemma {:induction false} HunksOnLines(hunks: seq<Hunk>)
    requires TidyHunks(hunks)
    ensures forall l :: l in HunkLines(hunks) ==> OneLine(l)
    decreases |hunks|
  {
    hide HeaderOf;
    if hunks != [] {
      var h := hunks[|hunks| - 1];
      HunksOnLines(hunks[..|hunks| - 1]);
      HeaderOnOneLine(h);
      forall i | 0 <= i < |h.body|
        ensures OneLine(BodyLine(h.body[i]))
      {
        assert OnOneLine(h.body[i]);
      }
    }
  }

  /** A printed text is read line by line as it was written. */
  lemma ScanText(outside: seq<string>, hunks: seq<Hunk>)
    requires TidyLines(outside) && TidyHunks(hunks)
    ensures AddedIn(Split(Unlines(outside + HunkLines(hunks)))) == AddedOf(hunks)
    ensures RemovedIn(Split(Unlines(outside + HunkLines(hunks)))) == RemovedOf(hunks)
  {
    hide AddedIn;
    hide RemovedIn;
    hide HunkLines;
    hide ParseHunk;
    HunksOnLines(hunks);
    SplitUnlines(outside + HunkLines(hunks));
    ScanFile(outside, hunks);
  }

  lemma FileIsLines(f: FileDiff)
    requires Tidy(f)
    ensures TidyLines([HeaderLine(f)] + f.extended)
    ensures FileText(f) == Unlines(([HeaderLine(f)] + f.extended) + HunkLines(f.hunks))
    ensures FileText(f) != [] && FileText(f)[0] == 'd'
  {
    hide HunkLines;
    hide HeaderText;
    HeaderLineUnbroken(f);
    HeaderStartsD(f.oldPath, f.newPath);
    UnlinesConcat([HeaderLine(f)], Below(f));
    assert [HeaderLine(f)] + Below(f) == ([HeaderLine(f)] + f.extended) + HunkLines(f.hunks);
    assert Unlines([HeaderLine(f)]) == HeaderLine(f) + "\n" by {
      assert Unlines([]) == "";
      assert [HeaderLine(f)][..0] == [];
      assert "" + HeaderLine(f) == HeaderLine(f);
    }
    FileTextEnds(f);
    NoHunkHeader(HeaderLine(f));
  }

  lemma NoHunkHeader(line: string)
    requires line != [] && line[0] == 'd'
    ensures ParseHunk(line).None?
  {
  }

  /** The trimmed chunk of a file yields its changed lines, up to trailing white space. */
  lemma ScanChunk(f: FileDiff)
    requires Tidy(f)
    ensures Near(AddedIn(Split(Trim(FileText(f)))), AddedOf(f.hunks))
    ensures Near(RemovedIn(Split(Trim(FileText(f)))), RemovedOf(f.hunks))
  {
    hide AddedIn;
    hide RemovedIn;
    hide Split;
    hide TrimEnd;
    hide FileText;
    FileIsLines(f);
    ScanText([HeaderLine(f)] + f.extended, f.hunks);
    TrimEndNear(FileText(f));
  }

  // ---- the whole diff ----------------------------------------------------------------------------------

  /** What the diff says: the changed lines of each file, under its new path. */
  function TrueEntries(files: seq<FileDiff>, added: bool): seq<Entry> {
    if files == [] then []
    else
      var last := files[|files| - 1];
      TrueEntries(files[..|files| - 1], added) +
      Located(PlainName(last.newPath), if added then AddedOf(last.hunks) else RemovedOf(last.hunks))
  }

  /** Entry by entry the same file, the same number, the same text up to trailing white space. */
  predicate Faithful(found: seq<Entry>, truth: seq<Entry>) {
    |found| == |truth| &&
    forall i :: 0 <= i < |found| ==>
      found[i].file == truth[i].file && found[i].line.number == truth[i].line.number &&
      SameButWhite(found[i].line.text, truth[i].line.text)
  }

  lemma FaithfulJoin(found: seq<Entry>, truth: seq<Entry>, file: string, near: seq<Line>, lines: seq<Line>)
    requires Faithful(found, truth) && Near(near, lines)
    ensures Faithful(found + Located(file, near), truth + Located(file, lines))
  {
    hide SameButWhite;
  }

  lemma {:induction false} CollectsTrueChunks(files: seq<FileDiff>, added: bool)
    requires AllTidy(files)
    ensures Faithful(Collected(TrueChunks(files), added), TrueEntries(files, added))
    decreases |files|
  {
    hide AddedIn;
    hide RemovedIn;
    hide Split;
    hide Trim;
    hide FileText;
    hide Tidy;
    hide AddedOf;
    hide RemovedOf;
    hide Near;
    hide Faithful;
    hide PlainName;
    hide Located;
    if files == [] {
      NothingCollected();
    } else {
      var init, last := files[..|files| - 1], files[|files| - 1];
      var lines := Split(Trim(FileText(last)));
      CollectsTrueChunks(init, added);
      ScanChunk(last);
      FaithfulJoin(Collected(TrueChunks(init), added), TrueEntries(init, added), PlainName(last.newPath),
                   if added then AddedIn(lines) else RemovedIn(lines),
                   if added then AddedOf(last.hunks) else RemovedOf(last.hunks));
      assert TrueChunks(files)[..|files| - 1] == TrueChunks(init);
    }
  }

  lemma NotBlank(s: string)
    requires s != [] && !IsWhite(s[0])
    ensures !Blank(s)
    decreases |s|
  {
    assert TrimStart(s) == s;
    KeepsFirst(s);
  }

  lemma {:induction false} KeepsFirst(s: string)
    requires s != [] && !IsWhite(s[0])
    ensures TrimEnd(s) != []
    decreases |s|
  {
    if IsWhite(s[|s| - 1]) {
      KeepsFirst(s[..|s| - 1]);
    }
  }

  lemma PrintedStarts(files: seq<FileDiff>)
    requires files != []
    ensures Printed(files) != [] && Printed(files)[0] == 'd'
  {
    hide FileText;
    PrintedPrefix(files, 1);
    FileTextEnds(files[0]);
    assert files[..1] == [files[0]] && [files[0]][..0] == [];
    assert Printed(files[..1]) == "" + FileText(files[0]) == FileText(files[0]);
  }

  lemma PrintedNotBlank(files: seq<FileDiff>)
    requires files != []
    ensures !Blank(Printed(files)) && Trim(Printed(files)) == TrimEnd(Printed(files))
  {
    hide Printed;
    hide Blank;
    hide TrimEnd;
    PrintedStarts(files);
    NotBlank(Printed(files));
    TrimFrom(Printed(files));
  }

  lemma NothingCollected()
    ensures Blank("") && Faithful([], [])
  {
  }

  /**
   * The main result: from a whole diff whose files are intact, the collected added lines are
   * those the diff adds to each new file and the removed lines those it takes from each old
   * file, at their true numbers, up to the white space trimmed from the end of a chunk.
   */
  lemma CollectedLinesAreTrue(files: seq<FileDiff>)
    requires AllTidy(files) && forall i :: 0 <= i < |files| ==> Intact(files[i])
    ensures Faithful(AddedLines(Printed(files)), TrueEntries(files, true))
    ensures Faithful(RemovedLines(Printed(files)), TrueEntries(files, false))
  {
    hide Tidy;
    hide Intact;
    hide Collected;
    hide TrueChunks;
    hide SplitByFile;
    hide Blank;
    hide Faithful;
    if files == [] {
      NothingCollected();
    } else {
      hide Printed;
      hide TrueEntries;
      PrintedNotBlank(files);
      SplitsIntoFiles(files);
      CollectsTrueChunks(files, true);
      CollectsTrueChunks(files, false);
    }
  }

  /** One file printed without a git header: every line exact, under the name "unknown". */
  lemma PlainDiffIsExact(outside: seq<string>, hunks: seq<Hunk>)
    requires TidyLines(outside) && TidyHunks(hunks)
    requires forall l :: l in outside + HunkLines(hunks) ==> HeaderFree(l)
    ensures var text := Unlines(outside + HunkLines(hunks));
            AddedLines(text) == Located(UNKNOWN, AddedOf(hunks)) &&
            RemovedLines(text) == Located(UNKNOWN, RemovedOf(hunks))
  {
    hide AddedIn;
    hide RemovedIn;
    hide Split;
    hide HeaderFree;
    hide Blank;
    hide Headers;
    hide HunkLines;
    hide AddedOf;
    hide RemovedOf;
    var lines := outside + HunkLines(hunks);
    var text := Unlines(lines);
    FreeLines(lines);
    HeaderFreeIsNone(text);
    ScanText(outside, hunks);
    if Blank(text) {
      BlankHasNone(text);
    }
    var chunks := [Chunk(UNKNOWN, text)];
    assert SplitByFile(text) == chunks;
    assert chunks[..0] == [];
    assert Collected(chunks[..0], true) == [] && Collected(chunks[..0], false) == [];
    assert UNKNOWN[0] == 'u';
    assert PlainName(UNKNOWN) == UNKNOWN;
    assert [] + Located(UNKNOWN, AddedOf(hunks)) == Located(UNKNOWN, AddedOf(hunks));
    assert [] + Located(UNKNOWN, RemovedOf(hunks)) == Located(UNKNOWN, RemovedOf(hunks));
  }

  /** A blank text has no changed lines. */
  lemma BlankHasNone(s: string)
    requires Blank(s)
    ensures AddedIn(Split(s)) == [] && RemovedIn(Split(s)) == []
  {
    BlankIsWhite(s);
    WhiteHasNone(s);
  }

  lemma BlankIsWhite(s: string)
    requires Blank(s)
    ensures AllWhite(s)
  {
    if !AllWhite(s) {
      var i :| 0 <= i < |s| && !IsWhite(s[i]);
      KeepsDark(s, i);
    }
  }

  lemma {:induction false} KeepsDark(s: string, i: nat)
    requires i < |s| && !IsWhite(s[i])
    ensures Trim(s) != []
    decreases |s|
  {
    if IsWhite(s[0]) {
      KeepsDark(s[1..], i - 1);
    } else {
      NotBlank(s);
    }
  }

  lemma {:induction false} WhiteHasNone(s: string)
    requires AllWhite(s)
    ensures AddedIn(Split(s)) == [] && RemovedIn(Split(s)) == []
    decreases |s|
  {
    hide IsWhite;
    if s == [] {
      ScanOutsideEmpty();
    } else {
      WhiteHasNone(s[..|s| - 1]);
      assert s == s[..|s| - 1] + [s[|s| - 1]];
      TextThenWhite(s[..|s| - 1], s[|s| - 1]);
    }
  }

  lemma ScanOutsideEmpty()
    ensures AddedIn(Split("")) == [] && RemovedIn(Split("")) == []
  {
  }

  // ---- a file that is not intact ---------------------------------------------------------------------------

  const SLIPPED := Ins("x\rdiff --git a/y b/z")

  /** A carriage return in a line is a line start to the header pattern. */
  lemma HeaderAfterCarriageReturn()
    ensures !HeaderFree(BodyLine(SLIPPED))
  {
    hide ParseHeader;
    hide HeaderFree;
    var start, tail := "+x\r", GIT + "y" + SEPARATOR + "z";
    assert BodyLine(SLIPPED) == start + tail;
    assert start[2] == '\r';
    FreeTogether(start, tail);
    BareReadsBack("y", "z");
    UnbrokenLine(tail);
  }

  /**
   * One such added line is enough: what follows the carriage return becomes a file of its
   * own.
   */
  lemma CarriageReturnSplitsFile()
    ensures var f := FileDiff("a", "a", [], [Hunk(0, 0, [SLIPPED], "")]);
            Tidy(f) && !Intact(f) && SplitByFile(Printed([f])) != TrueChunks([f])
  {
    hide HeaderFree;
    hide SplitByFile;
    hide TrueChunks;
    hide Printed;
    hide HeaderOf;
    var h := Hunk(0, 0, [SLIPPED], "");
    var f := FileDiff("a", "a", [], [h]);
    HeaderAfterCarriageReturn();
    assert [h][..0] == [];
    assert HunkLines([h]) == HunkLines([]) + HunkBlock(h);
    assert Below(f)[1] == BodyLine(SLIPPED);
    SplitsIntoFiles([f]);
    assert Tidy([f][0]) && !Intact([f][0]);
  }

  // ---- a file whose header is not read ---------------------------------------------------------------------

  lemma PrintedTwo(a: FileDiff, b: FileDiff)
    ensures Printed([a, b]) == FileText(a) + FileText(b)
  {
    hide FileText;
    assert [a, b][..1] == [a] && [a][..0] == [];
    assert Printed([a]) == "" + FileText(a) == FileText(a);
  }

  lemma TwoFilesAreLines(a: FileDiff, b: FileDiff)
    requires Tidy(a) && Tidy(b)
    ensures Printed([a, b]) == Unlines((([HeaderLine(a)] + Below(a)) + ([HeaderLine(b)] + b.extended)) + HunkLines(b.hunks))
  {
    hide HunkLines;
    hide HeaderLine;
    hide Tidy;
    hide Unlines;
    hide FileText;
    hide Printed;
    PrintedTwo(a, b);
    FileIsLines(a);
    FileIsLines(b);
    var x, y := [HeaderLine(a)] + Below(a), ([HeaderLine(b)] + b.extended) + HunkLines(b.hunks);
    assert ([HeaderLine(a)] + a.extended) + HunkLines(a.hunks) == x;
    UnlinesConcat(x, y);
    assert x + y == (x + ([HeaderLine(b)] + b.extended)) + HunkLines(b.hunks);
  }

  lemma BelowOnLines(f: FileDiff)
    requires Tidy(f)
    ensures forall l :: l in [HeaderLine(f)] + Below(f) ==> OneLine(l)
  {
    hide HeaderText;
    HeaderLineUnbroken(f);
    HunksOnLines(f.hunks);
    assert forall i :: 0 <= i < |HeaderLine(f)| ==> HeaderLine(f)[i] != '\n';
  }

  /** Scanning both files as one text ends with the second file's own lines at their own numbers. */
  lemma ScanBoth(a: FileDiff, b: FileDiff)
    requires Tidy(a) && Tidy(b)
    ensures var before := ([HeaderLine(a)] + Below(a)) + ([HeaderLine(b)] + b.extended);
            AddedIn(Split(Printed([a, b]))) == AddedIn(before) + AddedOf(b.hunks)
  {
    hide AddedIn;
    hide RemovedIn;
    hide HunkLines;
    hide HeaderText;
    hide Printed;
    TwoFilesAreLines(a, b);
    BelowOnLines(a);
    BelowOnLines(b);
    var before := ([HeaderLine(a)] + Below(a)) + ([HeaderLine(b)] + b.extended);
    SplitUnlines(before + HunkLines(b.hunks));
    ScanEmptyLine(before + HunkLines(b.hunks));
    ScanHunks(before, b.hunks);
  }

  /** The one chunk that two files become when only the first header is read. */
  lemma OneChunk(a: FileDiff, b: FileDiff)
    requires Tidy(a) && Tidy(b) && Intact(a)
    requires ParseHeader(HeaderLine(b)).None? && HeaderFree(Rest(b))
    ensures SplitByFile(Printed([a, b])) == [Chunk(a.newPath, Trim(Printed([a, b])))]
  {
    hide Tidy;
    hide Intact;
    hide FileText;
    hide HeaderFree;
    hide HeaderLine;
    hide Trim;
    var raw := Printed([a, b]);
    IntactMeans(a);
    PrintedTwo(a, b);
    PrintedHeadersMore("", a);
    assert "" + FileText(a) == FileText(a);
    PrintedHeadersMore(FileText(a), b);
    HeaderFreeIsNone(Rest(a));
    HeaderFreeIsNone(Rest(b));
    ReadMatch(a, 0);
    assert Headers("", 0) == [];
    assert Headers(raw, |raw|) == [HeaderMatch(0, a.newPath)];
    assert raw[0..|raw|] == raw;
  }

  /** A diff of one chunk. */
  lemma CollectedFromOne(raw: string, name: string)
    requires !Blank(raw) && SplitByFile(raw) == [Chunk(name, Trim(raw))]
    ensures AddedLines(raw) == Located(PlainName(name), AddedIn(Split(Trim(raw))))
  {
    hide Blank;
    hide SplitByFile;
    hide AddedIn;
    hide RemovedIn;
    hide Split;
    hide Trim;
    hide PlainName;
    var chunk := Chunk(name, Trim(raw));
    assert [chunk][..0] == [];
    assert Collected([chunk], true) == [] + Located(PlainName(name), AddedIn(Split(chunk.content)));
  }

  /**
   * A file whose header is not read is swallowed by the file before it: every line it adds
   * is collected under the name of that file.
   */
  lemma SwallowedByFileBefore(a: FileDiff, b: FileDiff, l: Line)
    requires Tidy(a) && Tidy(b) && Intact(a) && l in AddedOf(b.hunks)
    requires ParseHeader(HeaderLine(b)).None? && HeaderFree(Rest(b))
    ensures forall e :: e in AddedLines(Printed([a, b])) ==> e.file == PlainName(a.newPath)
    ensures exists e :: e in AddedLines(Printed([a, b])) && e.line.number == l.number && SameButWhite(e.line.text, l.text)
  {
    hide *;
    var raw := Printed([a, b]);
    OneChunk(a, b);
    PrintedNotBlank([a, b]);
    CollectedFromOne(raw, a.newPath);
    TrimEndNear(raw);
    ScanBoth(a, b);
    var before := ([HeaderLine(a)] + Below(a)) + ([HeaderLine(b)] + b.extended);
    NearHas(AddedIn(Split(TrimEnd(raw))), AddedIn(before), AddedOf(b.hunks), l);
    LocatedHas(PlainName(a.newPath), AddedIn(Split(TrimEnd(raw))), l);
  }

  ghost predicate Has(lines: seq<Line>, l: Line) {
    exists i :: 0 <= i < |lines| && lines[i].number == l.number && SameButWhite(lines[i].text, l.text)
  }

  lemma NearHas(found: seq<Line>, before: seq<Line>, last: seq<Line>, l: Line)
    requires Near(found, before + last) && l in last
    ensures Has(found, l)
  {
    hide SameButWhite;
    var i :| 0 <= i < |last| && last[i] == l;
    assert (before + last)[|before| + i] == l;
    assert found[|before| + i].number == l.number;
  }

  lemma LocatedHas(file: string, lines: seq<Line>, l: Line)
    requires Has(lines, l)
    ensures forall e :: e in Located(file, lines) ==> e.file == file
    ensures exists e :: e in Located(file, lines) && e.line.number == l.number && SameButWhite(e.line.text, l.text)
  {
    hide SameButWhite;
    var i :| 0 <= i < |lines| && lines[i].number == l.number && SameButWhite(lines[i].text, l.text);
    assert Located(file, lines)[i] in Located(file, lines);
  }

  // ---- hunks of one added line --------------------------------------------------------------------------------

  function NewLineHunk(text: string): Hunk {
    Hunk(0, 0, [Ins(text)], "")
  }

  lemma OneLineHunk(text: string)
    ensures HunkBlock(NewLineHunk(text)) == ["@@ -0,0 +1 @@", "+" + text]
    ensures TrueAdded(NewLineHunk(text).body, 0) == [Line(1, text)]
  {
    var body := NewLineHunk(text).body;
    assert body[..0] == [];
    assert OldCount(body) == 0 && NewCount(body) == 1;
    assert HeaderOf(NewLineHunk(text)) == "@@ -0,0 +1 @@";
    assert BodyLines(body) == ["+" + text];
  }

  lemma OneHunkFile(text: string)
    ensures HunkLines([NewLineHunk(text)]) == ["@@ -0,0 +1 @@", "+" + text]
    ensures AddedOf([NewLineHunk(text)]) == [Line(1, text)]
  {
    hide HunkBlock;
    hide TrueAdded;
    var h := NewLineHunk(text);
    assert [h][..0] == [];
    OneLineHunk(text);
    assert HunkLines([h]) == [] + HunkBlock(h);
    assert AddedOf([h]) == [] + TrueAdded(h.body, h.newAt);
  }

  /** A line that starts like no header, with no line end in it, hides none. */
  lemma FreeUnlessD(l: string)
    requires Unbroken(l) && l != [] && l[0] != 'd'
    ensures HeaderFree(l)
  {
    hide ParseHeader;
    UnbrokenLine(l);
    NotGit(l);
  }

  lemma NotGit(l: string)
    requires l != [] && l[0] != 'd'
    ensures ParseHeader(l).None?
  {
  }

  lemma HunkLinesFree(text: string)
    requires Unbroken(text)
    ensures HeaderFree("@@ -0,0 +1 @@") && HeaderFree("+" + text)
  {
    hide HeaderFree;
    FreeUnlessD("@@ -0,0 +1 @@");
    FreeUnlessD("+" + text);
  }

  // ---- a quoted path ------------------------------------------------------------------------------------------

  const BEFORE_IT := FileDiff("a.ts", "a.ts", [], [NewLineHunk("x")])

  /** A new file with an accented name; git prints its header with both paths in quotes. */
  const ACCENTED := FileDiff("\U{E4}.ts", "\U{E4}.ts",
                             ["new file mode 100644", "--- /dev/null", "+++ \"b/\\303\\244.ts\""], [NewLineHunk("y")])

  lemma BeforeItIntact()
    ensures Tidy(BEFORE_IT) && Intact(BEFORE_IT)
  {
    hide HeaderFree;
    BlanklessIsPlain("a.ts");
    OneHunkFile("x");
    HunkLinesFree("x");
    assert BEFORE_IT.hunks == [NewLineHunk("x")] && "+" + "x" == "+x";
    assert Below(BEFORE_IT) == ["@@ -0,0 +1 @@", "+x"];
  }

  lemma AccentedNotRead()
    ensures Tidy(ACCENTED) && ParseHeader(HeaderLine(ACCENTED)).None? && HeaderFree(Rest(ACCENTED))
  {
    hide HeaderFree;
    hide ParseHeader;
    OneHunkFile("y");
    HunkLinesFree("y");
    assert ACCENTED.oldPath[0] == '\U{E4}';
    QuotedOldHasNoHeader(ACCENTED.oldPath, ACCENTED.newPath);
    AccentedLinesFree();
    assert ACCENTED.hunks == [NewLineHunk("y")] && "+" + "y" == "+y";
    assert Below(ACCENTED) == ACCENTED.extended + ["@@ -0,0 +1 @@", "+y"];
    FreeLines(Below(ACCENTED));
    AccentedTidy();
  }

  lemma AccentedLinesFree()
    ensures forall i :: 0 <= i < 3 ==> HeaderFree(ACCENTED.extended[i])
  {
    hide HeaderFree;
    FreeUnlessD("new file mode 100644");
    FreeUnlessD("--- /dev/null");
    FreeUnlessD("+++ \"b/\\303\\244.ts\"");
  }

  lemma AccentedTidy()
    ensures Tidy(ACCENTED)
  {
    assert forall i :: 0 <= i < 3 ==> ACCENTED.extended[i][0] != '@';
    assert forall i :: 0 <= i < 3 ==> OneLine(ACCENTED.extended[i]);
  }

  /** Its added line is collected as a line of the file before it. */
  lemma QuotedPathSwallowed()
    ensures Tidy(BEFORE_IT) && Intact(BEFORE_IT) && Tidy(ACCENTED) && !Intact(ACCENTED)
    ensures Entry("a.ts", Line(1, "y")) in AddedLines(Printed([BEFORE_IT, ACCENTED]))
  {
    hide AddedLines;
    hide HeaderFree;
    hide ParseHeader;
    hide Printed;
    BeforeItIntact();
    AccentedNotRead();
    OneHunkFile("y");
    assert ACCENTED.oldPath[0] == '\U{E4}';
    var l := Line(1, "y");
    SwallowedByFileBefore(BEFORE_IT, ACCENTED, l);
    var e :| e in AddedLines(Printed([BEFORE_IT, ACCENTED])) && e.line.number == 1 && SameButWhite(e.line.text, "y");
    assert "a.ts"[0] == 'a';
    OnlyY(e.line.text);
  }

  lemma OnlyY(s: string)
    requires SameButWhite(s, "y")
    ensures s == "y"
  {
    assert "y"[0] == 'y' && !IsWhite("y"[0]) && "y"[0..] == "y";
  }
}
