/**
 * The two diff scanners (services/diff-filter.service.ts splitDiffByFile,
 * services/diff-lines.ts, services/ai/review-anchors.ts labelledReviewDiff): one collects
 * added and removed lines with their numbers, the other writes the numbers into the text.
 */
module DiffLines {
  import opened Text
  import opened DiffText

  /** A collected line: its number in the new or the old file, and its text. */
  datatype Line = Line(number: nat, text: string)

  datatype Entry = Entry(file: string, line: Line)

  // ---- splitDiffByFile --------------------------------------------------------------------

  datatype Chunk = Chunk(name: string, content: string)

  const UNKNOWN := "unknown"

  /** The text from each header to the next, trimmed. */
  function ChunksFrom(raw: string, headers: seq<HeaderMatch>): seq<Chunk>
    requires forall i :: 0 <= i < |headers| ==> headers[i].at <= |raw|
    requires forall i, j :: 0 <= i < j < |headers| ==> headers[i].at <= headers[j].at
  {
    seq(|headers|, i requires 0 <= i < |headers| =>
      Chunk(headers[i].name,
            Trim(raw[headers[i].at..if i + 1 < |headers| then headers[i + 1].at else |raw|])))
  }

  lemma {:induction false} HeadersInOrder(s: string, n: nat)
    requires n <= |s|
    ensures forall i :: 0 <= i < |Headers(s, n)| ==> Headers(s, n)[i].at < n
    ensures forall i, j :: 0 <= i < j < |Headers(s, n)| ==> Headers(s, n)[i].at < Headers(s, n)[j].at
    decreases n
  {
    if n > 0 {
      HeadersInOrder(s, n - 1);
    }
  }

  function SplitByFile(raw: string): seq<Chunk> {
    var headers := Headers(raw, |raw|);
    HeadersInOrder(raw, |raw|);
    if headers == [] then [Chunk(UNKNOWN, raw)] else ChunksFrom(raw, headers)
  }

  method SplitDiffByFile(raw: string) returns (chunks: seq<Chunk>)
    ensures chunks == SplitByFile(raw)
  {
    var matches: seq<HeaderMatch> := [];
    for i := 0 to |raw|
      invariant matches == Headers(raw, i)
    {
      var name := HeaderAt(raw, i);
      if name.Some? {
        matches := matches + [HeaderMatch(i, name.value)];
      }
    }
    HeadersInOrder(raw, |raw|);
    if |matches| == 0 {
      return [Chunk(UNKNOWN, raw)];
    }
    chunks := [];
    for i := 0 to |matches|
      invariant chunks == ChunksFrom(raw, matches)[..i]
    {
      var next := if i + 1 < |matches| then matches[i + 1].at else |raw|;
      chunks := chunks + [Chunk(matches[i].name, Trim(raw[matches[i].at..next]))];
    }
  }

  // ---- one chunk, line by line --------------------------------------------------------------

  /** Line counters of a scanner. */
  datatype Cursor = Cursor(old_: nat, new_: nat, inHunk: bool)

  datatype Role = Header(oldStart: nat, newStart: nat) | Outside | Added | Removed | Marker | Context

  function RoleOf(line: string, inHunk: bool): Role {
    match ParseHunk(line)
    case Some((o, n)) => Role.Header(o, n)
    case None =>
      if !inHunk then Outside
      else if "+" <= line then Added
      else if "-" <= line then Removed
      else if "\\" <= line then Marker
      else Context
  }

  function Move(c: Cursor, line: string): Cursor {
    match RoleOf(line, c.inHunk)
    case Header(o, n) => Cursor(o, n, true)
    case Outside => c
    case Added => c.(new_ := c.new_ + 1)
    case Removed => c.(old_ := c.old_ + 1)
    case Marker => c
    case Context => c.(old_ := c.old_ + 1, new_ := c.new_ + 1)
  }

  const START := Cursor(0, 0, false)

  function After(lines: seq<string>): Cursor {
    if lines == [] then START else Move(After(lines[..|lines| - 1]), lines[|lines| - 1])
  }

  function AddedBy(c: Cursor, line: string): seq<Line> {
    if RoleOf(line, c.inHunk).Added? then [Line(c.new_, line[1..])] else []
  }

  function RemovedBy(c: Cursor, line: string): seq<Line> {
    if RoleOf(line, c.inHunk).Removed? then [Line(c.old_, line[1..])] else []
  }

  function AddedIn(lines: seq<string>): seq<Line> {
    if lines == [] then []
    else AddedIn(lines[..|lines| - 1]) + AddedBy(After(lines[..|lines| - 1]), lines[|lines| - 1])
  }

  function RemovedIn(lines: seq<string>): seq<Line> {
    if lines == [] then []
    else RemovedIn(lines[..|lines| - 1]) + RemovedBy(After(lines[..|lines| - 1]), lines[|lines| - 1])
  }

  function Located(file: string, lines: seq<Line>): seq<Entry> {
    seq(|lines|, i requires 0 <= i < |lines| => Entry(file, lines[i]))
  }

  /** filename.replace(/^\.\//, '') */
  function PlainName(name: string): string {
    if "./" <= name then name[2..] else name
  }

  lemma PlainNames(name: string)
    ensures PlainName("./" + name) == name && (!("./" <= name) ==> PlainName(name) == name)
  {
  }

  function Collected(chunks: seq<Chunk>, added: bool): seq<Entry> {
    if chunks == [] then []
    else
      var last := chunks[|chunks| - 1];
      var lines := Split(last.content);
      Collected(chunks[..|chunks| - 1], added) +
      Located(PlainName(last.name), if added then AddedIn(lines) else RemovedIn(lines))
  }

  predicate Blank(s: string) {
    Trim(s) == []
  }

  function AddedLines(diff: string): seq<Entry> {
    if Blank(diff) then [] else Collected(SplitByFile(diff), true)
  }

  function RemovedLines(diff: string): seq<Entry> {
    if Blank(diff) then [] else Collected(SplitByFile(diff), false)
  }

  // ---- collectChangedLines ------------------------------------------------------------------

  method CollectChangedLines(diff: string) returns (added: seq<Entry>, removed: seq<Entry>)
    ensures added == AddedLines(diff) && removed == RemovedLines(diff)
  {
    hide SplitByFile;
    hide AddedIn;
    hide RemovedIn;
    hide Split;
    hide Trim;
    hide PlainName;
    added, removed := [], [];
    if |Trim(diff)| == 0 {
      return;
    }
    var chunks := SplitDiffByFile(diff);
    for i := 0 to |chunks|
      invariant added == Collected(chunks[..i], true) && removed == Collected(chunks[..i], false)
    {
      var a, r := CollectChunk(Split(chunks[i].content));
      assert chunks[..i + 1][..i] == chunks[..i];
      added := added + Located(PlainName(chunks[i].name), a);
      removed := removed + Located(PlainName(chunks[i].name), r);
    }
    assert chunks[..|chunks|] == chunks;
  }

  method CollectChunk(lines: seq<string>) returns (added: seq<Line>, removed: seq<Line>)
    ensures added == AddedIn(lines) && removed == RemovedIn(lines)
  {
    hide ParseHunk;
    added, removed := [], [];
    var newLine, oldLine, inHunk := 0, 0, false;
    for i := 0 to |lines|
      invariant Cursor(oldLine, newLine, inHunk) == After(lines[..i])
      invariant added == AddedIn(lines[..i]) && removed == RemovedIn(lines[..i])
    {
      var line := lines[i];
      assert lines[..i + 1][..i] == lines[..i];
      var hunk := ParseHunk(line);
      if hunk.Some? {
        oldLine, newLine, inHunk := hunk.value.0, hunk.value.1, true;
      } else if inHunk {
        if "+" <= line {
          added := added + [Line(newLine, line[1..])];
          newLine := newLine + 1;
        } else if "-" <= line {
          removed := removed + [Line(oldLine, line[1..])];
          oldLine := oldLine + 1;
        } else if !("\\" <= line) {
          oldLine, newLine := oldLine + 1, newLine + 1;
        }
      }
    }
    assert lines[..|lines|] == lines;
  }
}
