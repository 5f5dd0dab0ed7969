/**
 * What the anchors and labels promise: both scanners number lines alike, an anchor labels
 * one line, and a finding ends up bound only to an anchor at its own place.
 */
module AnchorTheorems {
  import opened Basics
  import opened Text
  import opened DiffText
  import opened DiffLines
  import opened DiffFormat
  import opened DiffTheorems
  import opened DiffExact
  import opened GitPaths
  import opened ReviewAnchors

  // ---- the labels say what the collector collects ------------------------------------------------

  datatype Labelled = Labelled(entry: Entry, anchor: Option<AnchorId>)

  function NewFrom(file: string, l: Label): seq<Labelled> {
    match l
    case NewLine(n, anchor, text) => [Labelled(Entry(file, Line(n, text)), anchor)]
    case _ => []
  }

  function OldFrom(l: Label): seq<Line> {
    match l
    case OldLine(n, text) => [Line(n, text)]
    case _ => []
  }

  function NewOf(file: string, labels: seq<Label>): seq<Labelled> {
    if labels == [] then []
    else
      NewOf(file, labels[..|labels| - 1]) + NewFrom(file, labels[|labels| - 1])
  }

  function OldOf(labels: seq<Label>): seq<Line> {
    if labels == [] then []
    else
      OldOf(labels[..|labels| - 1]) + OldFrom(labels[|labels| - 1])
  }

  /** Each collected line with the anchor at its place. */
  function Marked(entries: seq<Entry>, table: map<Location, AnchorId>): (r: seq<Labelled>)
    ensures |r| == |entries|
  {
    seq(|entries|, i requires 0 <= i < |entries| => Labelled(entries[i], AnchorAt(table, PlaceOf(entries[i]))))
  }

  lemma LabelAgrees(c: Cursor, file: string, line: string, table: map<Location, AnchorId>)
    ensures NewFrom(file, LabelOf(c, file, line, table)) == Marked(Located(file, AddedBy(c, line)), table)
    ensures OldFrom(LabelOf(c, file, line, table)) == RemovedBy(c, line)
  {
    hide RoleOf;
  }

  lemma MarkedMore(file: string, a: seq<Line>, b: seq<Line>, table: map<Location, AnchorId>)
    ensures Marked(Located(file, a + b), table) == Marked(Located(file, a), table) + Marked(Located(file, b), table)
  {
  }

  /** One label a line; the new and old labels carry the collected lines and numbers. */
  lemma {:induction false} LabelsAgree(file: string, lines: seq<string>, table: map<Location, AnchorId>)
    ensures |Labels(file, lines, table)| == |lines|
    ensures NewOf(file, Labels(file, lines, table)) == Marked(Located(file, AddedIn(lines)), table)
    ensures OldOf(Labels(file, lines, table)) == RemovedIn(lines)
    decreases |lines|
  {
    hide LabelOf;
    hide AddedBy;
    hide RemovedBy;
    hide NewFrom;
    hide OldFrom;
    hide Marked;
    hide Located;
    if lines != [] {
      var init, last := lines[..|lines| - 1], lines[|lines| - 1];
      LabelsAgree(file, init, table);
      var labels := Labels(file, lines, table);
      assert labels[..|labels| - 1] == Labels(file, init, table);
      LabelAgrees(After(init), file, last, table);
      MarkedMore(file, AddedIn(init), AddedBy(After(init), last), table);
    } else {
      MarkedNone(file, table);
    }
  }

  lemma MarkedNone(file: string, table: map<Location, AnchorId>)
    ensures Marked(Located(file, []), table) == []
  {
  }

  function NewOfAll(chunks: seq<Chunk>, labelled: seq<seq<Label>>): seq<Labelled>
    requires |chunks| == |labelled|
  {
    if chunks == [] then []
    else
      NewOfAll(chunks[..|chunks| - 1], labelled[..|chunks| - 1]) +
      NewOf(PlainName(chunks[|chunks| - 1].name), labelled[|chunks| - 1])
  }

  lemma MarkedAppend(a: seq<Entry>, b: seq<Entry>, table: map<Location, AnchorId>)
    ensures Marked(a + b, table) == Marked(a, table) + Marked(b, table)
  {
  }

  /** Over a whole diff, the lines labelled as new are the collected added lines, in order. */
  lemma {:induction false} ChunksAgree(chunks: seq<Chunk>, table: map<Location, AnchorId>)
    ensures NewOfAll(chunks, LabelledChunks(chunks, table)) == Marked(Collected(chunks, true), table)
    decreases |chunks|
  {
    hide Labels;
    hide Split;
    hide AddedIn;
    hide RemovedIn;
    hide NewOf;
    if chunks != [] {
      var init, last := chunks[..|chunks| - 1], chunks[|chunks| - 1];
      ChunksAgree(init, table);
      LabelsAgree(PlainName(last.name), Split(last.content), table);
      assert LabelledChunks(chunks, table)[..|chunks| - 1] == LabelledChunks(init, table);
      MarkedAppend(Collected(init, true), Located(PlainName(last.name), AddedIn(Split(last.content))), table);
    } else {
      assert Marked([], table) == [];
    }
  }

  lemma LabelledDiffAgrees(diff: string)
    ensures var table := TableFor(AddedLines(diff));
            NewOfAll(SplitByFile(diff), LabelledChunks(SplitByFile(diff), table)) == Marked(AddedLines(diff), table)
  {
    hide Headers;
    hide AddedIn;
    hide RemovedIn;
    hide Labels;
    hide Split;
    hide Blank;
    hide TableFor;
    var chunks := SplitByFile(diff);
    ChunksAgree(chunks, TableFor(AddedLines(diff)));
    if Blank(diff) {
      BlankDiffIsEmpty(diff);
    }
  }

  lemma BlankDiffIsEmpty(diff: string)
    requires Blank(diff)
    ensures Collected(SplitByFile(diff), true) == []
  {
    hide Blank;
    hide AddedIn;
    hide RemovedIn;
    hide Split;
    hide ParseHeader;
    BlankHasNone(diff);
    BlankIsWhite(diff);
    forall i | 0 <= i <= |diff|
      ensures HeaderAt(diff, i).None?
    {
      WhiteIsNoHeader(diff[i..LineEnd(diff, i)]);
    }
    HeaderFreeIsNone(diff);
    assert [Chunk(UNKNOWN, diff)][..0] == [];
    assert Collected([], true) == [];
  }

  lemma WhiteIsNoHeader(line: string)
    requires AllWhite(line)
    ensures ParseHeader(line).None?
  {
    if line != [] {
      NotGit(line);
    }
  }

  // ---- an anchor labels one line -----------------------------------------------------------------------

  /** The added line at i carries this anchor's label. */
  ghost predicate Carries(lines: seq<Entry>, id: AnchorId, i: nat)
    requires i < |lines|
  {
    Marked(lines, TableFor(lines))[i].anchor == Some(id)
  }

  /** Exactly one added line carries the anchor, and it is the line the anchor was made from. */
  ghost predicate LabelsOne(lines: seq<Entry>, id: AnchorId) {
    && (exists i :: 0 <= i < |lines| && Carries(lines, id, i) && lines[i] == id.entry)
    && (forall i, j :: 0 <= i < |lines| && 0 <= j < |lines| && Carries(lines, id, i) && Carries(lines, id, j) ==> i == j)
  }

  /** An anchor labels exactly one line if and only if no blank added line shares its place. */
  lemma {:induction false} AnchorLabelsOne(lines: seq<Entry>, id: AnchorId)
    requires Anchored(lines, id)
    ensures LabelsOne(lines, id) <==>
            forall j :: 0 <= j < |lines| && PlaceOf(lines[j]) == PlaceOf(id.entry) ==> !Blank(lines[j].line.text)
  {
    hide Blank;
    hide SafePath;
    hide TableFor;
    var i :| 0 <= i < |lines| && lines[i] == id.entry && Sole(lines, i);
    forall j | 0 <= j < |lines|
      ensures Carries(lines, id, j) <==> PlaceOf(lines[j]) == PlaceOf(id.entry)
      ensures PlaceOf(lines[j]) == PlaceOf(id.entry) ==> (Eligible(lines[j]) <==> !Blank(lines[j].line.text))
    {
      TableFinds(lines, id, PlaceOf(lines[j]));
    }
    assert Carries(lines, id, i);
  }

  // ---- well-formed diffs ----------------------------------------------------------------------------------

  predicate DistinctPlaces(lines: seq<Entry>) {
    forall i, j :: 0 <= i < j < |lines| ==> PlaceOf(lines[i]) != PlaceOf(lines[j])
  }

  predicate Increasing(lines: seq<Line>) {
    forall i, j :: 0 <= i < j < |lines| ==> lines[i].number < lines[j].number
  }

  lemma {:induction false} BodyIncreases(body: seq<HunkLine>, newAt: nat)
    ensures Increasing(TrueAdded(body, newAt)) && Within(TrueAdded(body, newAt), newAt, newAt + NewCount(body))
    decreases |body|
  {
    if body != [] {
      BodyIncreases(body[..|body| - 1], newAt);
    }
  }

  lemma NoneIncrease()
    ensures Increasing([]) && Within([], 0, 0)
  {
  }

  lemma IncreasingJoin(a: seq<Line>, b: seq<Line>, end: nat, lo: nat, hi: nat)
    requires Increasing(a) && Within(a, 0, end) && Increasing(b) && Within(b, lo, hi) && end <= lo <= hi
    ensures Increasing(a + b) && Within(a + b, 0, hi)
  {
  }

  /** The added lines of a file's diff stand at increasing numbers. */
  lemma {:induction false} HunksIncrease(old_: seq<string>, new_: seq<string>, hunks: seq<Hunk>)
    requires Covers(old_, new_, hunks)
    ensures Increasing(AddedOf(hunks)) && Within(AddedOf(hunks), 0, NewEnd(hunks))
    decreases |hunks|
  {
    hide Describes;
    hide TrueAdded;
    hide Increasing;
    hide Within;
    if hunks == [] {
      NoneIncrease();
    } else {
      var init, h := hunks[..|hunks| - 1], hunks[|hunks| - 1];
      HunksIncrease(old_, new_, init);
      BodyIncreases(h.body, h.newAt);
      IncreasingJoin(AddedOf(init), TrueAdded(h.body, h.newAt), NewEnd(init), h.newAt, NewEnd(hunks));
    }
  }

  /** Each file is the diff of an old and a new file, and no two go by the same name. */
  predicate WellFormed(files: seq<FileDiff>, olds: seq<seq<string>>, news: seq<seq<string>>) {
    && |olds| == |news| == |files|
    && (forall i :: 0 <= i < |files| ==> IsDiffOf(files[i].hunks, olds[i], news[i]))
    && (forall i, j :: 0 <= i < j < |files| ==> PlainName(files[i].newPath) != PlainName(files[j].newPath))
  }

  predicate FromFiles(entries: seq<Entry>, files: seq<FileDiff>) {
    forall i :: 0 <= i < |entries| ==> exists k :: 0 <= k < |files| && entries[i].file == PlainName(files[k].newPath)
  }

  lemma {:induction false} TruePlaces(files: seq<FileDiff>, olds: seq<seq<string>>, news: seq<seq<string>>)
    requires WellFormed(files, olds, news)
    ensures DistinctPlaces(TrueEntries(files, true)) && FromFiles(TrueEntries(files, true), files)
    decreases |files|
  {
    hide IsDiffOf;
    hide PlainName;
    hide AddedOf;
    if files != [] {
      var n := |files| - 1;
      var init, last := files[..n], files[n];
      assert WellFormed(init, olds[..n], news[..n]);
      TruePlaces(init, olds[..n], news[..n]);
      FileIncreases(last, olds[n], news[n]);
      var a, b := TrueEntries(init, true), Located(PlainName(last.newPath), AddedOf(last.hunks));
      forall i | 0 <= i < |a|
        ensures exists k :: 0 <= k < |files| && a[i].file == PlainName(files[k].newPath)
        ensures a[i].file != PlainName(last.newPath)
      {
        var k :| 0 <= k < |init| && a[i].file == PlainName(init[k].newPath);
        assert files[k] == init[k];
      }
    }
  }

  lemma FileIncreases(f: FileDiff, old_: seq<string>, new_: seq<string>)
    requires IsDiffOf(f.hunks, old_, new_)
    ensures Increasing(AddedOf(f.hunks))
  {
    hide Covers;
    hide AddedOf;
    HunksIncrease(old_, new_, f.hunks);
  }

  /**
   * In a diff of real files every anchor labels exactly its own line, and every line that
   * may carry an anchor has one.
   */
  lemma {:induction false} WellFormedAnchors(files: seq<FileDiff>, olds: seq<seq<string>>, news: seq<seq<string>>)
    requires AllTidy(files) && (forall i :: 0 <= i < |files| ==> Intact(files[i])) && WellFormed(files, olds, news)
    ensures var lines := AddedLines(Printed(files));
            && (forall id :: Anchored(lines, id) ==> LabelsOne(lines, id))
            && (forall e :: e in lines && Eligible(e) ==> Anchored(lines, AnchorId(e)))
  {
    hide Tidy;
    hide Intact;
    hide IsDiffOf;
    hide AddedLines;
    hide RemovedLines;
    hide Printed;
    hide TrueEntries;
    var lines := AddedLines(Printed(files));
    CollectedLinesAreTrue(files);
    TruePlaces(files, olds, news);
    SamePlaces(lines, TrueEntries(files, true));
    DistinctAnchors(lines);
  }

  lemma SamePlaces(found: seq<Entry>, truth: seq<Entry>)
    requires Faithful(found, truth) && DistinctPlaces(truth)
    ensures DistinctPlaces(found)
  {
  }

  lemma DistinctAnchors(lines: seq<Entry>)
    requires DistinctPlaces(lines)
    ensures forall id :: Anchored(lines, id) ==> LabelsOne(lines, id)
    ensures forall e :: e in lines && Eligible(e) ==> Anchored(lines, AnchorId(e))
  {
    hide Blank;
    hide SafePath;
    hide LabelsOne;
    forall id | Anchored(lines, id)
      ensures LabelsOne(lines, id)
    {
      AnchorLabelsOne(lines, id);
    }
    forall e | e in lines && Eligible(e)
      ensures Anchored(lines, AnchorId(e))
    {
      var i :| 0 <= i < |lines| && lines[i] == e;
      assert Sole(lines, i);
    }
  }

  // ---- a place used twice ------------------------------------------------------------------------------------

  const TWICE := FileDiff("f", "f", [], [NewLineHunk(" "), NewLineHunk("x")])

  lemma TwiceIsIntact()
    ensures Tidy(TWICE) && Intact(TWICE)
  {
    hide HeaderFree;
    hide HunkBlock;
    var a, b := NewLineHunk(" "), NewLineHunk("x");
    OneLineHunk(" ");
    OneLineHunk("x");
    HunkLinesFree(" ");
    HunkLinesFree("x");
    BlanklessIsPlain("f");
    assert [a, b][..1] == [a] && [a][..0] == [];
    assert HunkLines([a, b]) == HunkLines([a]) + HunkBlock(b) == ([] + HunkBlock(a)) + HunkBlock(b);
    assert TWICE.hunks == [a, b];
    assert Below(TWICE) == ([] + HunkBlock(a)) + HunkBlock(b);
  }

  lemma TwiceEntries()
    ensures TrueEntries([TWICE], true) == [Entry("f", Line(1, " ")), Entry("f", Line(1, "x"))]
  {
    var a, b := TWICE.hunks[0], TWICE.hunks[1];
    assert TWICE.hunks[..1] == [a] && [a][..0] == [] && [TWICE][..0] == [];
    assert AddedOf([a]) == AddedOf([]) + TrueAdded(a.body, 0);
    assert a.body[..0] == [] && b.body[..0] == [];
    assert TrueAdded(a.body, 0) == [Line(1, " ")] && TrueAdded(b.body, 0) == [Line(1, "x")];
    assert AddedOf(TWICE.hunks) == [Line(1, " ")] + [Line(1, "x")];
    assert PlainName("f") == "f";
  }

  lemma FEligible()
    ensures SafePath("f") && !Blank("x") && Blank("") && Blank(" ")
  {
    assert "f"[0] == 'f' && "f" != UNKNOWN && "f" != "/dev/null";
    NotBlank("x");
    assert " "[1..] == "";
  }

  /**
   * A hunk that starts again at a line already used, as no diff of two files does, gives a
   * blank and a written line the same place; the written line is anchored, and the anchor
   * labels both.
   */
  lemma BlankSharesPlace()
    ensures var lines, id := AddedLines(Printed([TWICE])), AnchorId(Entry("f", Line(1, "x")));
            Anchored(lines, id) && !LabelsOne(lines, id)
  {
    hide Tidy;
    hide Intact;
    hide AddedLines;
    hide RemovedLines;
    hide TrueEntries;
    hide Printed;
    hide SafePath;
    hide Blank;
    hide LabelsOne;
    TwiceIsIntact();
    TwiceEntries();
    FEligible();
    CollectedLinesAreTrue([TWICE]);
    var lines := AddedLines(Printed([TWICE]));
    var e := Entry("f", Line(1, "x"));
    TwoTexts(lines[0].line.text, lines[1].line.text);
    assert lines[1] == e && PlaceOf(lines[0]) == PlaceOf(e);
    assert Sole(lines, 1);
    AnchorLabelsOne(lines, AnchorId(e));
  }

  lemma TwoTexts(a: string, b: string)
    requires SameButWhite(a, " ") && SameButWhite(b, "x")
    ensures (a == "" || a == " ") && b == "x"
  {
    assert "x"[0] == 'x' && !IsWhite("x"[0]);
    assert "x"[0..] == "x";
    assert |a| == 0 || a == " "[..1];
    assert |b| == 1 ==> b == "x"[..1];
  }

  // ---- binding a finding ---------------------------------------------------------------------------------------

  datatype Source = LLM | RULES | SAST | SECRETS | DEPENDENCIES

  /** The parts of a finding the guard looks at. A finding without a source counts as LLM. */
  datatype Finding = Finding(filePath: string, lineNumber: int, source: Option<Source>, verifiedAnchor: Option<AnchorId>)

  predicate Deterministic(f: Finding) {
    f.source.Some? && !f.source.value.LLM?
  }

  function BindOne(f: Finding, table: map<Location, AnchorId>): Finding {
    var anchor := AnchorAt(table, Location(f.filePath, f.lineNumber));
    if anchor.Some? && (Deterministic(f) || f.verifiedAnchor == anchor) then f.(verifiedAnchor := anchor)
    else f.(verifiedAnchor := None)
  }

  function Bound(findings: seq<Finding>, table: map<Location, AnchorId>): seq<Finding> {
    seq(|findings|, i requires 0 <= i < |findings| => BindOne(findings[i], table))
  }

  method BindFindingAnchors(findings: seq<Finding>, diff: string) returns (bound: seq<Finding>)
    ensures bound == Bound(findings, TableFor(AddedLines(diff)))
  {
    hide *;
    var anchors := CollectAnchors(diff);
    var byLocation := ByLocation(anchors);
    TableIs(byLocation, anchors, AddedLines(diff));
    bound := Bound(findings, byLocation);
  }

  /**
   * The guard as a caller sees it: a bound finding is one whose place has the sole eligible
   * added line, which for a finding of the model must also be the line it cites; the guard
   * only ever removes a citation of the model; and running it again changes nothing.
   */
  lemma BindingIsSound(f: Finding, lines: seq<Entry>)
    ensures var table := TableFor(lines);
            var b := BindOne(f, table);
            && (forall id :: b.verifiedAnchor == Some(id) <==>
                  && Anchored(lines, id) && PlaceOf(id.entry) == Location(f.filePath, f.lineNumber)
                  && (Deterministic(f) || f.verifiedAnchor == Some(id)))
            && b == f.(verifiedAnchor := b.verifiedAnchor)
            && BindOne(b, table) == b
  {
    hide Anchored;
    hide TableFor;
    forall id
      ensures AnchorAt(TableFor(lines), Location(f.filePath, f.lineNumber)) == Some(id) <==>
              Anchored(lines, id) && PlaceOf(id.entry) == Location(f.filePath, f.lineNumber)
    {
      TableFinds(lines, id, Location(f.filePath, f.lineNumber));
    }
  }
}
