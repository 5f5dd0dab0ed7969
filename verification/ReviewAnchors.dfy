/**
 * Anchors for review comments (services/ai/review-anchors.ts): which added lines a comment
 * may be pinned to, the labels written into the prompt, and the guard that binds a finding
 * to an anchor.
 */
module ReviewAnchors {
  import opened Basics
  import opened Text
  import opened DiffText
  import opened DiffLines

  const MAX_LINE: nat := 2147483647

  datatype Location = Location(file: string, number: int)

  /** The digest of file, number and text stands for the three of them. */
  datatype AnchorId = AnchorId(entry: Entry)

  function PlaceOf(e: Entry): Location {
    Location(e.file, e.line.number)
  }

  // ---- which lines may carry an anchor ---------------------------------------------------------

  /** path[i..j] is one segment between slashes. */
  predicate Segment(path: string, i: nat, j: nat)
    requires i <= j <= |path|
  {
    (i == 0 || path[i - 1] == '/') && (j == |path| || path[j] == '/')
  }

  predicate SafePath(path: string) {
    && path != UNKNOWN && path != "/dev/null" && !("/" <= path)
    && (forall i :: 0 <= i < |path| ==> path[i] != '\\' && path[i] > '\U{1F}')
    && (forall i, j :: 0 <= i <= j <= |path| && Segment(path, i, j) ==> path[i..j] != ".." && path[i..j] != ".")
  }

  /** A segment between slashes is one of the parts of the path. */
  lemma {:induction false} SegmentIsPart(path: string, part: string)
    requires '/' !in part
    ensures part in Segments(path) <==> exists i, j :: 0 <= i <= j <= |path| && Segment(path, i, j) && path[i..j] == part
    decreases |path|
  {
    hide Segments;
    if '/' !in path {
      OneSegment(path);
      assert path[0..|path|] == path && Segment(path, 0, |path|);
      assert forall x :: 0 <= x < |path| ==> path[x] in path && path[x] != '/';
    } else {
      var k := UpToSlash(path);
      var rest := path[k + 1..];
      SegmentIsPart(rest, part);
      if part in Segments(rest) {
        var i, j :| 0 <= i <= j <= |rest| && Segment(rest, i, j) && rest[i..j] == part;
        assert Segment(path, i + k + 1, j + k + 1) && path[i + k + 1..j + k + 1] == part;
      }
      assert Segment(path, 0, k) && path[0..k] == path[..k];
      forall i, j | 0 <= i <= j <= |path| && Segment(path, i, j) && path[i..j] == part
        ensures part == path[..k] || part in Segments(rest)
      {
        SegmentInside(path, k, i, j, part);
      }
    }
  }

  lemma SegmentInside(path: string, k: nat, i: nat, j: nat, part: string)
    requires k < |path| && path[k] == '/' && '/' !in path[..k] && '/' !in part
    requires i <= j <= |path| && Segment(path, i, j) && path[i..j] == part
    ensures (i == 0 && j == k) || (i > k && Segment(path[k + 1..], i - k - 1, j - k - 1) && path[k + 1..][i - k - 1..j - k - 1] == part)
  {
    assert forall x :: 0 <= x < k ==> path[x] == path[..k][x] && path[x] != '/';
    assert forall x :: i <= x < j ==> path[x] == part[x - i] && path[x] != '/';
    if i > k {
      assert path[k + 1..][i - k - 1..j - k - 1] == path[i..j];
    }
  }

  /** A path of the repository: relative, no part "." or "..", no back slash and no control character. */
  lemma SafePathIs(path: string)
    ensures SafePath(path) <==>
            && path != "unknown" && path != "/dev/null" && (path != [] ==> path[0] != '/')
            && (forall c :: c in path ==> c != '\\' && c > '\U{1F}')
            && ".." !in Segments(path) && "." !in Segments(path)
  {
    SegmentIsPart(path, "..");
    SegmentIsPart(path, ".");
    assert "/" <= path <==> path != [] && path[0] == '/';
    if forall c :: c in path ==> c != '\\' && c > '\U{1F}' {
      assert forall i :: 0 <= i < |path| ==> path[i] in path;
    } else {
      var c :| c in path && !(c != '\\' && c > '\U{1F}');
      var i :| 0 <= i < |path| && path[i] == c;
    }
  }

  predicate Eligible(e: Entry) {
    SafePath(e.file) && 0 < e.line.number <= MAX_LINE && !Blank(e.line.text)
  }

  /** Line i is the only eligible line at its place. */
  predicate Sole(lines: seq<Entry>, i: nat)
    requires i < |lines|
  {
    Eligible(lines[i]) &&
    forall j :: 0 <= j < |lines| && Eligible(lines[j]) && PlaceOf(lines[j]) == PlaceOf(lines[i]) ==> j == i
  }

  ghost predicate Anchored(lines: seq<Entry>, id: AnchorId) {
    exists i :: 0 <= i < |lines| && lines[i] == id.entry && Sole(lines, i)
  }

  /** The anchors a diff offers: the eligible lines alone at their places. */
  ghost predicate AnchorsFor(anchors: map<AnchorId, Entry>, lines: seq<Entry>) {
    && (forall id :: id in anchors <==> Anchored(lines, id))
    && (forall id :: id in anchors ==> anchors[id] == id.entry)
  }

  ghost predicate Repeated(lines: seq<Entry>, n: nat, place: Location)
    requires n <= |lines|
  {
    exists i, j :: 0 <= i < j < n && Eligible(lines[i]) && Eligible(lines[j]) &&
                   PlaceOf(lines[i]) == place && PlaceOf(lines[j]) == place
  }

  ghost predicate Occupied(lines: seq<Entry>, n: nat, place: Location)
    requires n <= |lines|
  {
    exists i :: 0 <= i < n && Eligible(lines[i]) && PlaceOf(lines[i]) == place
  }

  ghost predicate Seen(lines: seq<Entry>, n: nat, id: AnchorId)
    requires n <= |lines|
  {
    exists i :: 0 <= i < n && Eligible(lines[i]) && lines[i] == id.entry
  }

  /** What the first loop has gathered from the first n lines. */
  ghost predicate Gathered(lines: seq<Entry>, n: nat, anchors: map<AnchorId, Entry>, duplicates: set<Location>,
                     locations: set<Location>)
    requires n <= |lines|
  {
    && (forall p :: p in locations <==> Occupied(lines, n, p))
    && (forall p :: p in duplicates <==> Repeated(lines, n, p))
    && (forall id :: id in anchors <==> Seen(lines, n, id))
    && (forall id :: id in anchors ==> anchors[id] == id.entry)
  }

  lemma GatherSkip(lines: seq<Entry>, n: nat, anchors: map<AnchorId, Entry>, duplicates: set<Location>,
                   locations: set<Location>)
    requires n < |lines| && Gathered(lines, n, anchors, duplicates, locations) && !Eligible(lines[n])
    ensures Gathered(lines, n + 1, anchors, duplicates, locations)
  {
  }

  lemma GatherOne(lines: seq<Entry>, n: nat, anchors: map<AnchorId, Entry>, duplicates: set<Location>,
                  locations: set<Location>)
    requires n < |lines| && Gathered(lines, n, anchors, duplicates, locations) && Eligible(lines[n])
    ensures var p, id := PlaceOf(lines[n]), AnchorId(lines[n]);
            Gathered(lines, n + 1, anchors[id := lines[n]], if p in locations then duplicates + {p} else duplicates,
                     locations + {p})
  {
    hide Eligible;
    var here, id := PlaceOf(lines[n]), AnchorId(lines[n]);
    forall p
      ensures Occupied(lines, n + 1, p) <==> Occupied(lines, n, p) || p == here
      ensures Repeated(lines, n + 1, p) <==> Repeated(lines, n, p) || (p == here && Occupied(lines, n, here))
    {
      if p == here {
        assert Eligible(lines[n]) && PlaceOf(lines[n]) == p;
      }
    }
    forall other
      ensures Seen(lines, n + 1, other) <==> Seen(lines, n, other) || other == id
    {
      if other == id {
        assert Eligible(lines[n]) && lines[n] == other.entry;
      }
    }
  }

  lemma KeptAreSole(lines: seq<Entry>, id: AnchorId)
    ensures Anchored(lines, id) <==> Seen(lines, |lines|, id) && !Repeated(lines, |lines|, PlaceOf(id.entry))
  {
  }

  method GatherAnchors(lines: seq<Entry>)
    returns (anchors: map<AnchorId, Entry>, duplicates: set<Location>, ghost locations: set<Location>)
    ensures Gathered(lines, |lines|, anchors, duplicates, locations)
  {
    hide Eligible;
    anchors, duplicates := map[], {};
    var places: set<Location> := {};
    for i := 0 to |lines|
      invariant Gathered(lines, i, anchors, duplicates, places)
    {
      hide Gathered;
      var line := lines[i];
      if !Eligible(line) {
        GatherSkip(lines, i, anchors, duplicates, places);
      } else {
        GatherOne(lines, i, anchors, duplicates, places);
        var key := PlaceOf(line);
        if key in places {
          duplicates := duplicates + {key};
        }
        places := places + {key};
        anchors := anchors[AnchorId(line) := line];
      }
    }
    locations := places;
  }

  method DropDuplicates(all: map<AnchorId, Entry>, duplicates: set<Location>) returns (anchors: map<AnchorId, Entry>)
    requires forall id :: id in all ==> all[id] == id.entry
    ensures forall id :: id in anchors <==> id in all && PlaceOf(id.entry) !in duplicates
    ensures forall id :: id in anchors ==> anchors[id] == id.entry
  {
    anchors := all;
    var todo := all.Keys;
    while todo != {}
      invariant todo <= all.Keys
      invariant forall id :: id in anchors <==> id in all && (id in todo || PlaceOf(id.entry) !in duplicates)
      invariant forall id :: id in anchors ==> anchors[id] == id.entry
      decreases |todo|
    {
      var id :| id in todo;
      todo := todo - {id};
      if PlaceOf(all[id]) in duplicates {
        anchors := anchors - {id};
      }
    }
  }

  method CollectAnchors(diff: string) returns (anchors: map<AnchorId, Entry>)
    ensures AnchorsFor(anchors, AddedLines(diff))
  {
    hide Eligible;
    hide Seen;
    hide Repeated;
    hide Occupied;
    hide AddedLines;
    hide RemovedLines;
    hide Anchored;
    var lines, removed := CollectChangedLines(diff);
    var all, duplicates, locations := GatherAnchors(lines);
    anchors := DropDuplicates(all, duplicates);
    forall id
      ensures id in anchors <==> Anchored(lines, id)
    {
      KeptAreSole(lines, id);
    }
  }

  // ---- byLocation ---------------------------------------------------------------------------------

  /** The lookup table of both users of the anchors: one anchor at most per place. */
  ghost predicate TableOf(table: map<Location, AnchorId>, anchors: map<AnchorId, Entry>) {
    && (forall p :: p in table ==> table[p] in anchors && PlaceOf(anchors[table[p]]) == p)
    && (forall id :: id in anchors ==> PlaceOf(anchors[id]) in table)
  }

  lemma OneAnchorPerPlace(anchors: map<AnchorId, Entry>, lines: seq<Entry>, a: AnchorId, b: AnchorId)
    requires AnchorsFor(anchors, lines) && a in anchors && b in anchors && PlaceOf(a.entry) == PlaceOf(b.entry)
    ensures a == b
  {
  }

  ghost predicate AnchorAtPlace(lines: seq<Entry>, place: Location) {
    exists i :: 0 <= i < |lines| && PlaceOf(lines[i]) == place && Sole(lines, i)
  }

  ghost function SoleAt(lines: seq<Entry>, place: Location): (e: Entry)
    requires AnchorAtPlace(lines, place)
  {
    var i :| 0 <= i < |lines| && PlaceOf(lines[i]) == place && Sole(lines, i);
    lines[i]
  }

  /** For every place with an anchor, the anchor; the anchors of these lines are its entries. */
  ghost function TableFor(lines: seq<Entry>): map<Location, AnchorId> {
    map p | p in (set e | e in lines :: PlaceOf(e)) && AnchorAtPlace(lines, p) :: AnchorId(SoleAt(lines, p))
  }

  /** Any table of the anchors of these lines is that one. */
  lemma TableIs(table: map<Location, AnchorId>, anchors: map<AnchorId, Entry>, lines: seq<Entry>)
    requires AnchorsFor(anchors, lines) && TableOf(table, anchors)
    ensures table == TableFor(lines)
  {
    hide Eligible;
    var t := TableFor(lines);
    forall p
      ensures p in table <==> p in t
      ensures p in table ==> t[p] == table[p]
    {
      if p in table {
        assert Anchored(lines, table[p]);
        var i :| 0 <= i < |lines| && lines[i] == table[p].entry && Sole(lines, i);
        assert lines[i] in lines && AnchorAtPlace(lines, p);
        var e := SoleAt(lines, p);
        assert Anchored(lines, AnchorId(e));
        OneAnchorPerPlace(anchors, lines, AnchorId(e), table[p]);
      }
      if p in t {
        assert Anchored(lines, AnchorId(SoleAt(lines, p)));
        assert AnchorId(SoleAt(lines, p)) in anchors;
      }
    }
  }

  /** Whatever order the anchors are entered in, each is found at its own place. */
  method ByLocation(anchors: map<AnchorId, Entry>) returns (table: map<Location, AnchorId>)
    ensures TableOf(table, anchors)
  {
    table := map[];
    var todo := anchors.Keys;
    while todo != {}
      invariant todo <= anchors.Keys
      invariant forall p :: p in table ==> table[p] in anchors && PlaceOf(anchors[table[p]]) == p
      invariant forall id :: id in anchors ==> id in todo || PlaceOf(anchors[id]) in table
      decreases |todo|
    {
      var id :| id in todo;
      todo := todo - {id};
      table := table[PlaceOf(anchors[id]) := id];
    }
  }

  /** The anchor at a place, if there is one. */
  function AnchorAt(table: map<Location, AnchorId>, place: Location): Option<AnchorId> {
    if place in table then Some(table[place]) else None
  }

  lemma SoleIsOne(lines: seq<Entry>, place: Location, id: AnchorId)
    requires Anchored(lines, id) && PlaceOf(id.entry) == place
    ensures AnchorAtPlace(lines, place) && SoleAt(lines, place) == id.entry && id.entry in lines
  {
    hide Eligible;
    var i :| 0 <= i < |lines| && lines[i] == id.entry && Sole(lines, i);
    assert AnchorAtPlace(lines, place);
    var j :| 0 <= j < |lines| && PlaceOf(lines[j]) == place && Sole(lines, j) && lines[j] == SoleAt(lines, place);
    assert Eligible(lines[i]) && Eligible(lines[j]);
  }

  /** What the table finds at a place. */
  lemma TableFinds(lines: seq<Entry>, id: AnchorId, place: Location)
    ensures AnchorAt(TableFor(lines), place) == Some(id) <==> Anchored(lines, id) && PlaceOf(id.entry) == place
  {
    hide Eligible;
    if Anchored(lines, id) && PlaceOf(id.entry) == place {
      SoleIsOne(lines, place, id);
    }
    if AnchorAtPlace(lines, place) {
      var j :| 0 <= j < |lines| && PlaceOf(lines[j]) == place && Sole(lines, j) && lines[j] == SoleAt(lines, place);
      assert Anchored(lines, AnchorId(lines[j]));
    }
  }

  // ---- labels -----------------------------------------------------------------------------------------

  /** A line of the labelled diff; the text of a body line stands without its first character. */
  datatype Label =
    | Plain(line: string)
    | NewLine(number: nat, anchor: Option<AnchorId>, text: string)
    | OldLine(number: nat, text: string)
    | ContextLine(number: nat, text: string)

  function LabelOf(c: Cursor, file: string, line: string, table: map<Location, AnchorId>): Label {
    match RoleOf(line, c.inHunk)
    case Header(_, _) => Plain(line)
    case Outside => Plain(line)
    case Marker => Plain(line)
    case Added => NewLine(c.new_, AnchorAt(table, Location(file, c.new_)), line[1..])
    case Removed => OldLine(c.old_, line[1..])
    case Context => ContextLine(c.new_, if line == [] then [] else line[1..])
  }

  function Labels(file: string, lines: seq<string>, table: map<Location, AnchorId>): seq<Label> {
    if lines == [] then []
    else
      var init := lines[..|lines| - 1];
      Labels(file, init, table) + [LabelOf(After(init), file, lines[|lines| - 1], table)]
  }

  /** The number shown before a line of the new file. */
  function Shown(l: Label): Option<nat> {
    match l
    case NewLine(n, _, _) => Some(n)
    case ContextLine(n, _) => Some(n)
    case _ => None
  }

  lemma {:induction false} LabelAt(file: string, lines: seq<string>, table: map<Location, AnchorId>, i: nat)
    requires i < |lines|
    ensures |Labels(file, lines, table)| == |lines|
    ensures Labels(file, lines, table)[i] == LabelOf(After(lines[..i]), file, lines[i], table)
    decreases |lines|
  {
    hide LabelOf;
    var n := |lines| - 1;
    if i < n {
      LabelAt(file, lines[..n], table, i);
      assert lines[..n][..i] == lines[..i];
    } else if n > 0 {
      LabelAt(file, lines[..n], table, n - 1);
    }
  }

  /** Lines of the new file are numbered one after another, from the start the hunk header gives. */
  lemma NumbersFollow(file: string, lines: seq<string>, table: map<Location, AnchorId>, i: nat)
    requires i + 1 < |lines|
    ensures |Labels(file, lines, table)| == |lines|
    ensures var labels := Labels(file, lines, table);
            && (Shown(labels[i]).Some? && Shown(labels[i + 1]).Some? ==> Shown(labels[i + 1]).value == Shown(labels[i]).value + 1)
            && (ParseHunk(lines[i]).Some? && Shown(labels[i + 1]).Some? ==> Shown(labels[i + 1]).value == ParseHunk(lines[i]).value.1)
  {
    hide ParseHunk;
    hide Labels;
    LabelAt(file, lines, table, i);
    LabelAt(file, lines, table, i + 1);
    assert lines[..i + 1][..i] == lines[..i];
  }

  method LabelChunk(file: string, lines: seq<string>, table: map<Location, AnchorId>) returns (labels: seq<Label>)
    ensures labels == Labels(file, lines, table)
  {
    hide ParseHunk;
    labels := [];
    var oldLine, newLine, inHunk := 0, 0, false;
    for i := 0 to |lines|
      invariant Cursor(oldLine, newLine, inHunk) == After(lines[..i])
      invariant labels == Labels(file, lines[..i], table)
    {
      var line := lines[i];
      assert lines[..i + 1][..i] == lines[..i];
      assert "\\" <= line ==> line[0] == '\\';
      var hunk := ParseHunk(line);
      if hunk.Some? {
        oldLine, newLine, inHunk := hunk.value.0, hunk.value.1, true;
        labels := labels + [Plain(line)];
      } else if !inHunk || "\\" <= line {
        labels := labels + [Plain(line)];
      } else if "+" <= line {
        labels := labels + [NewLine(newLine, AnchorAt(table, Location(file, newLine)), line[1..])];
        newLine := newLine + 1;
      } else if "-" <= line {
        labels := labels + [OldLine(oldLine, line[1..])];
        oldLine := oldLine + 1;
      } else {
        oldLine := oldLine + 1;
        labels := labels + [ContextLine(newLine, if line == [] then [] else line[1..])];
        newLine := newLine + 1;
      }
    }
    assert lines[..|lines|] == lines;
  }

  /** The labels of every chunk, in order. */
  function LabelledChunks(chunks: seq<Chunk>, table: map<Location, AnchorId>): seq<seq<Label>> {
    seq(|chunks|, i requires 0 <= i < |chunks| =>
      Labels(PlainName(chunks[i].name), Split(chunks[i].content), table))
  }

  method LabelChunks(chunks: seq<Chunk>, table: map<Location, AnchorId>) returns (labelled: seq<seq<Label>>)
    ensures labelled == LabelledChunks(chunks, table)
  {
    hide Labels;
    hide Split;
    hide PlainName;
    labelled := [];
    for i := 0 to |chunks|
      invariant labelled == LabelledChunks(chunks, table)[..i]
    {
      var labels := LabelChunk(PlainName(chunks[i].name), Split(chunks[i].content), table);
      labelled := labelled + [labels];
    }
  }

  method LabelledReviewDiff(diff: string) returns (labelled: seq<seq<Label>>)
    ensures labelled == LabelledChunks(SplitByFile(diff), TableFor(AddedLines(diff)))
  {
    hide *;
    var anchors := CollectAnchors(diff);
    var byLocation := ByLocation(anchors);
    TableIs(byLocation, anchors, AddedLines(diff));
    var chunks := SplitDiffByFile(diff);
    labelled := LabelChunks(chunks, byLocation);
  }
}
