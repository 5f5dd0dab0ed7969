/**
 * Well-formed unified diffs, as diff -U and git print them for an old and a new file, and
 * what the scanner makes of one: exactly the added and the removed lines, at their true
 * numbers.
 */
module DiffFormat {
  import opened DiffText
  import opened DiffLines

  datatype HunkLine = Keep(text: string) | Del(text: string) | Ins(text: string) | NoNewline

  /** A hunk begins after oldAt lines of the old file and newAt lines of the new one. */
  datatype Hunk = Hunk(oldAt: nat, newAt: nat, body: seq<HunkLine>, section: string)

  datatype FileDiff = FileDiff(oldPath: string, newPath: string, extended: seq<string>, hunks: seq<Hunk>)

  // ---- what a diff means ---------------------------------------------------------------------

  function OldCount(body: seq<HunkLine>): nat {
    if body == [] then 0
    else OldCount(body[..|body| - 1]) + if body[|body| - 1].Keep? || body[|body| - 1].Del? then 1 else 0
  }

  function NewCount(body: seq<HunkLine>): nat {
    if body == [] then 0
    else NewCount(body[..|body| - 1]) + if body[|body| - 1].Keep? || body[|body| - 1].Ins? then 1 else 0
  }

  /** The body describes the lines of the two files from these places on. */
  predicate Describes(old_: seq<string>, new_: seq<string>, body: seq<HunkLine>, oldAt: nat, newAt: nat) {
    body == [] ||
    var init, last := body[..|body| - 1], body[|body| - 1];
    var i, j := oldAt + OldCount(init), newAt + NewCount(init);
    && Describes(old_, new_, init, oldAt, newAt)
    && (last.Keep? ==> i < |old_| && j < |new_| && old_[i] == last.text && new_[j] == last.text)
    && (last.Del? ==> i < |old_| && old_[i] == last.text)
    && (last.Ins? ==> j < |new_| && new_[j] == last.text)
  }

  /** Where the hunks so far leave off in the two files. */
  function OldEnd(hunks: seq<Hunk>): nat {
    if hunks == [] then 0 else hunks[|hunks| - 1].oldAt + OldCount(hunks[|hunks| - 1].body)
  }

  function NewEnd(hunks: seq<Hunk>): nat {
    if hunks == [] then 0 else hunks[|hunks| - 1].newAt + NewCount(hunks[|hunks| - 1].body)
  }

  /** From one place to another, the two files have the same lines. */
  predicate SameStretch(old_: seq<string>, new_: seq<string>, i: nat, i': nat, j: nat, j': nat) {
    i <= i' <= |old_| && j <= j' <= |new_| && old_[i..i'] == new_[j..j']
  }

  /** The hunks, in order, account for every difference of the two files up to these places. */
  predicate Covers(old_: seq<string>, new_: seq<string>, hunks: seq<Hunk>) {
    hunks == [] ||
    var init, h := hunks[..|hunks| - 1], hunks[|hunks| - 1];
    && Covers(old_, new_, init)
    && SameStretch(old_, new_, OldEnd(init), h.oldAt, NewEnd(init), h.newAt)
    && Describes(old_, new_, h.body, h.oldAt, h.newAt)
  }

  /** A diff of these two files. */
  predicate IsDiffOf(hunks: seq<Hunk>, old_: seq<string>, new_: seq<string>) {
    Covers(old_, new_, hunks) && SameStretch(old_, new_, OldEnd(hunks), |old_|, NewEnd(hunks), |new_|)
  }

  /** The added lines of a hunk body, at their places in the new file. */
  function TrueAdded(body: seq<HunkLine>, newAt: nat): seq<Line> {
    if body == [] then []
    else
      var init, last := body[..|body| - 1], body[|body| - 1];
      TrueAdded(init, newAt) + if last.Ins? then [Line(newAt + NewCount(init) + 1, last.text)] else []
  }

  function TrueRemoved(body: seq<HunkLine>, oldAt: nat): seq<Line> {
    if body == [] then []
    else
      var init, last := body[..|body| - 1], body[|body| - 1];
      TrueRemoved(init, oldAt) + if last.Del? then [Line(oldAt + OldCount(init) + 1, last.text)] else []
  }

  function AddedOf(hunks: seq<Hunk>): seq<Line> {
    if hunks == [] then []
    else AddedOf(hunks[..|hunks| - 1]) + TrueAdded(hunks[|hunks| - 1].body, hunks[|hunks| - 1].newAt)
  }

  function RemovedOf(hunks: seq<Hunk>): seq<Line> {
    if hunks == [] then []
    else RemovedOf(hunks[..|hunks| - 1]) + TrueRemoved(hunks[|hunks| - 1].body, hunks[|hunks| - 1].oldAt)
  }

  // ---- how it is printed ------------------------------------------------------------------------

  function BodyLine(l: HunkLine): string {
    match l
    case Keep(t) => " " + t
    case Del(t) => "-" + t
    case Ins(t) => "+" + t
    case NoNewline => "\\ No newline at end of file"
  }

  function BodyLines(body: seq<HunkLine>): seq<string> {
    seq(|body|, i requires 0 <= i < |body| => BodyLine(body[i]))
  }

  /** The first line of a range; for an empty range, the line before it. */
  function RangeStart(at: nat, count: nat): nat {
    if count == 0 then at else at + 1
  }

  function HeaderOf(h: Hunk): string {
    HunkHeader(RangeStart(h.oldAt, OldCount(h.body)), OldCount(h.body),
               RangeStart(h.newAt, NewCount(h.body)), NewCount(h.body), h.section)
  }

  function HunkLines(hunks: seq<Hunk>): seq<string> {
    if hunks == [] then []
    else HunkLines(hunks[..|hunks| - 1]) + HunkBlock(hunks[|hunks| - 1])
  }

  // ---- scanning printed hunks -----------------------------------------------------------------------

  lemma ScanMore(lines: seq<string>, l: string)
    ensures After(lines + [l]) == Move(After(lines), l)
    ensures AddedIn(lines + [l]) == AddedIn(lines) + AddedBy(After(lines), l)
    ensures RemovedIn(lines + [l]) == RemovedIn(lines) + RemovedBy(After(lines), l)
  {
  }

  lemma {:induction false} BodyRole(l: HunkLine)
    ensures RoleOf(BodyLine(l), true) ==
            match l case Keep(_) => Role.Context case Del(_) => Role.Removed case Ins(_) => Role.Added case NoNewline => Role.Marker
    ensures !l.NoNewline? ==> BodyLine(l)[1..] == l.text
  {
    var s := BodyLine(l);
    assert s[0] != '@';
    assert !("@@ -" <= s);
    if l.Keep? {
      assert s[0] == ' ';
    }
  }

  lemma ScanBodyLine(c: Cursor, l: HunkLine)
    requires c.inHunk
    ensures Move(c, BodyLine(l)) ==
            Cursor(c.old_ + (if l.Keep? || l.Del? then 1 else 0), c.new_ + (if l.Keep? || l.Ins? then 1 else 0), true)
    ensures AddedBy(c, BodyLine(l)) == if l.Ins? then [Line(c.new_, l.text)] else []
    ensures RemovedBy(c, BodyLine(l)) == if l.Del? then [Line(c.old_, l.text)] else []
  {
    BodyRole(l);
  }

  ghost predicate ScannedTo(before: seq<string>, lines: seq<string>, h: Hunk, body: seq<HunkLine>) {
    && After(lines) == Cursor(RangeStart(h.oldAt, OldCount(h.body)) + OldCount(body),
                              RangeStart(h.newAt, NewCount(h.body)) + NewCount(body), true)
    && AddedIn(lines) == AddedIn(before) + TrueAdded(body, h.newAt)
    && RemovedIn(lines) == RemovedIn(before) + TrueRemoved(body, h.oldAt)
  }

  lemma ScanHeader(before: seq<string>, h: Hunk)
    ensures ScannedTo(before, before + [HeaderOf(h)], h, [])
  {
    hide ParseHunk;
    hide HunkHeader;
    ScanMore(before, HeaderOf(h));
    ParseHunkHeader(RangeStart(h.oldAt, OldCount(h.body)), OldCount(h.body),
                    RangeStart(h.newAt, NewCount(h.body)), NewCount(h.body), h.section);
  }

  lemma ScanOneMore(before: seq<string>, lines: seq<string>, h: Hunk, init: seq<HunkLine>, last: HunkLine)
    requires ScannedTo(before, lines, h, init)
    requires OldCount(init + [last]) <= OldCount(h.body) && NewCount(init + [last]) <= NewCount(h.body)
    ensures ScannedTo(before, lines + [BodyLine(last)], h, init + [last])
  {
    hide Move;
    hide AddedBy;
    hide RemovedBy;
    assert (init + [last])[..|init|] == init;
    ScanMore(lines, BodyLine(last));
    ScanBodyLine(After(lines), last);
  }

  /** Scanning the first k lines of a hunk body, after its header. */
  lemma {:induction false} ScanBody(before: seq<string>, h: Hunk, k: nat)
    requires k <= |h.body|
    ensures ScannedTo(before, before + [HeaderOf(h)] + BodyLines(h.body[..k]), h, h.body[..k])
    decreases k
  {
    hide HeaderOf;
    hide ScannedTo;
    if k == 0 {
      ScanHeader(before, h);
      assert before + [HeaderOf(h)] + BodyLines(h.body[..0]) == before + [HeaderOf(h)];
    } else {
      var init, last := h.body[..k - 1], h.body[k - 1];
      var lines := before + [HeaderOf(h)] + BodyLines(init);
      ScanBody(before, h, k - 1);
      assert h.body[..k] == init + [last];
      assert before + [HeaderOf(h)] + BodyLines(h.body[..k]) == lines + [BodyLine(last)];
      CountsGrow(h.body, k);
      ScanOneMore(before, lines, h, init, last);
    }
  }

  /** A range that contains the k-th line is not empty. */
  lemma {:induction false} CountsGrow(body: seq<HunkLine>, k: nat)
    requires k <= |body|
    ensures OldCount(body[..k]) <= OldCount(body) && NewCount(body[..k]) <= NewCount(body)
    decreases |body| - k
  {
    if k < |body| {
      CountsGrow(body, k + 1);
      assert body[..k + 1][..k] == body[..k];
    } else {
      assert body[..k] == body;
    }
  }

  lemma ScanHunk(before: seq<string>, h: Hunk)
    ensures AddedIn(before + HunkBlock(h)) == AddedIn(before) + TrueAdded(h.body, h.newAt)
    ensures RemovedIn(before + HunkBlock(h)) == RemovedIn(before) + TrueRemoved(h.body, h.oldAt)
  {
    hide HeaderOf;
    hide BodyLines;
    hide AddedIn;
    hide RemovedIn;
    hide After;
    ScanBody(before, h, |h.body|);
    assert h.body[..|h.body|] == h.body;
    assert before + ([HeaderOf(h)] + BodyLines(h.body)) == before + [HeaderOf(h)] + BodyLines(h.body);
  }

  function HunkBlock(h: Hunk): seq<string> {
    [HeaderOf(h)] + BodyLines(h.body)
  }

  lemma HunkLinesMore(init: seq<Hunk>, h: Hunk)
    ensures HunkLines(init + [h]) == HunkLines(init) + HunkBlock(h)
    ensures AddedOf(init + [h]) == AddedOf(init) + TrueAdded(h.body, h.newAt)
    ensures RemovedOf(init + [h]) == RemovedOf(init) + TrueRemoved(h.body, h.oldAt)
  {
  }

  ghost predicate ScannedAll(before: seq<string>, hunks: seq<Hunk>) {
    && AddedIn(before + HunkLines(hunks)) == AddedIn(before) + AddedOf(hunks)
    && RemovedIn(before + HunkLines(hunks)) == RemovedIn(before) + RemovedOf(hunks)
  }

  lemma ScanNoHunks(before: seq<string>)
    ensures ScannedAll(before, [])
  {
    hide AddedIn;
    hide RemovedIn;
    assert before + HunkLines([]) == before;
  }

  lemma ScanNextHunk(before: seq<string>, init: seq<Hunk>, h: Hunk)
    requires ScannedAll(before, init)
    ensures ScannedAll(before, init + [h])
  {
    hide AddedIn;
    hide RemovedIn;
    hide HunkLines;
    hide AddedOf;
    hide RemovedOf;
    hide HunkBlock;
    hide TrueAdded;
    hide TrueRemoved;
    HunkLinesMore(init, h);
    ScanHunk(before + HunkLines(init), h);
    assert before + (HunkLines(init) + HunkBlock(h)) == (before + HunkLines(init)) + HunkBlock(h);
  }

  lemma {:induction false} ScanHunks(before: seq<string>, hunks: seq<Hunk>)
    ensures ScannedAll(before, hunks)
    decreases |hunks|
  {
    hide *;
    if hunks == [] {
      ScanNoHunks(before);
    } else {
      ScanHunks(before, hunks[..|hunks| - 1]);
      ScanNextHunk(before, hunks[..|hunks| - 1], hunks[|hunks| - 1]);
      assert hunks == hunks[..|hunks| - 1] + [hunks[|hunks| - 1]];
    }
  }

  /** Lines before the first hunk leave the scanner where it starts. */
  lemma {:induction false} ScanOutside(lines: seq<string>)
    requires forall i :: 0 <= i < |lines| ==> ParseHunk(lines[i]).None?
    ensures After(lines) == START && AddedIn(lines) == [] && RemovedIn(lines) == []
    decreases |lines|
  {
    if lines != [] {
      ScanOutside(lines[..|lines| - 1]);
    }
  }

  lemma ScanEmptyLine(lines: seq<string>)
    ensures AddedIn(lines + [""]) == AddedIn(lines) && RemovedIn(lines + [""]) == RemovedIn(lines)
  {
  }

  /** The whole printed file, with the empty line a final newline leaves. */
  lemma ScanFile(outside: seq<string>, hunks: seq<Hunk>)
    requires forall i :: 0 <= i < |outside| ==> ParseHunk(outside[i]).None?
    ensures AddedIn(outside + HunkLines(hunks) + [""]) == AddedOf(hunks)
    ensures RemovedIn(outside + HunkLines(hunks) + [""]) == RemovedOf(hunks)
  {
    ScanOutside(outside);
    ScanHunks(outside, hunks);
    ScanEmptyLine(outside + HunkLines(hunks));
  }

  // ---- exactly the differences -----------------------------------------------------------------------

  /** The lines of a file from lo to hi whose numbers are not listed. */
  function Without(file: seq<string>, lo: nat, hi: nat, listed: seq<Line>): seq<string>
    requires lo <= hi <= |file|
  {
    if lo == hi then []
    else Without(file, lo, hi - 1, listed) + if Lists(listed, hi) then [] else [file[hi - 1]]
  }

  predicate Lists(lines: seq<Line>, number: nat) {
    exists i :: 0 <= i < |lines| && lines[i].number == number
  }

  predicate Within(lines: seq<Line>, lo: nat, hi: nat) {
    forall i :: 0 <= i < |lines| ==> lo < lines[i].number <= hi
  }

  /** Each listed line is the line of the file that has its number. */
  predicate TrueLines(file: seq<string>, lines: seq<Line>) {
    forall i :: 0 <= i < |lines| ==> 0 < lines[i].number <= |file| && file[lines[i].number - 1] == lines[i].text
  }

  lemma {:induction false} BodyFits(old_: seq<string>, new_: seq<string>, body: seq<HunkLine>, oldAt: nat, newAt: nat)
    requires Describes(old_, new_, body, oldAt, newAt) && oldAt <= |old_| && newAt <= |new_|
    ensures oldAt + OldCount(body) <= |old_| && newAt + NewCount(body) <= |new_|
    ensures Within(TrueAdded(body, newAt), newAt, newAt + NewCount(body))
    ensures Within(TrueRemoved(body, oldAt), oldAt, oldAt + OldCount(body))
    ensures TrueLines(new_, TrueAdded(body, newAt)) && TrueLines(old_, TrueRemoved(body, oldAt))
    decreases |body|
  {
    if body != [] {
      BodyFits(old_, new_, body[..|body| - 1], oldAt, newAt);
    }
  }

  lemma {:induction false} WithoutIgnores(file: seq<string>, lo: nat, hi: nat, a: seq<Line>, b: seq<Line>)
    requires lo <= hi <= |file| && forall n :: lo < n <= hi ==> (Lists(a, n) <==> Lists(b, n))
    ensures Without(file, lo, hi, a) == Without(file, lo, hi, b)
    decreases hi
  {
    if lo < hi {
      WithoutIgnores(file, lo, hi - 1, a, b);
    }
  }

  lemma {:induction false} WithoutJoins(file: seq<string>, lo: nat, mid: nat, hi: nat, listed: seq<Line>)
    requires lo <= mid <= hi <= |file|
    ensures Without(file, lo, hi, listed) == Without(file, lo, mid, listed) + Without(file, mid, hi, listed)
    decreases hi
  {
    if mid < hi {
      WithoutJoins(file, lo, mid, hi - 1, listed);
    }
  }

  lemma {:induction false} WithoutNothing(file: seq<string>, lo: nat, hi: nat, listed: seq<Line>)
    requires lo <= hi <= |file| && forall n :: lo < n <= hi ==> !Lists(listed, n)
    ensures Without(file, lo, hi, listed) == file[lo..hi]
    decreases hi
  {
    if lo < hi {
      WithoutNothing(file, lo, hi - 1, listed);
      assert file[lo..hi] == file[lo..hi - 1] + [file[hi - 1]];
    }
  }

  lemma ListsAppend(a: seq<Line>, b: seq<Line>, n: nat)
    ensures Lists(a + b, n) <==> Lists(a, n) || Lists(b, n)
  {
    if Lists(a, n) {
      var i :| 0 <= i < |a| && a[i].number == n;
      assert (a + b)[i] == a[i];
    }
    if Lists(b, n) {
      var i :| 0 <= i < |b| && b[i].number == n;
      assert (a + b)[|a| + i] == b[i];
    }
  }

  function KeptTexts(body: seq<HunkLine>): seq<string> {
    if body == [] then []
    else KeptTexts(body[..|body| - 1]) + if body[|body| - 1].Keep? then [body[|body| - 1].text] else []
  }

  /** Within a hunk, what is left of either file is the context. */
  lemma {:induction false} BodyLeavesOld(old_: seq<string>, new_: seq<string>, body: seq<HunkLine>, oldAt: nat, newAt: nat)
    requires Describes(old_, new_, body, oldAt, newAt) && oldAt <= |old_| && newAt <= |new_|
    ensures oldAt + OldCount(body) <= |old_|
    ensures Without(old_, oldAt, oldAt + OldCount(body), TrueRemoved(body, oldAt)) == KeptTexts(body)
    decreases |body|
  {
    if body != [] {
      var init, last := body[..|body| - 1], body[|body| - 1];
      BodyLeavesOld(old_, new_, init, oldAt, newAt);
      BodyFits(old_, new_, init, oldAt, newAt);
      var end := oldAt + OldCount(init);
      var more := if last.Del? then [Line(end + 1, last.text)] else [];
      if last.Keep? || last.Del? {
        OneMore(old_, oldAt, end, TrueRemoved(init, oldAt), more);
      } else {
        assert TrueRemoved(init, oldAt) + [] == TrueRemoved(init, oldAt);
      }
    }
  }

  lemma {:induction false} BodyLeavesNew(old_: seq<string>, new_: seq<string>, body: seq<HunkLine>, oldAt: nat, newAt: nat)
    requires Describes(old_, new_, body, oldAt, newAt) && oldAt <= |old_| && newAt <= |new_|
    ensures newAt + NewCount(body) <= |new_|
    ensures Without(new_, newAt, newAt + NewCount(body), TrueAdded(body, newAt)) == KeptTexts(body)
    decreases |body|
  {
    if body != [] {
      var init, last := body[..|body| - 1], body[|body| - 1];
      BodyLeavesNew(old_, new_, init, oldAt, newAt);
      BodyFits(old_, new_, init, oldAt, newAt);
      var end := newAt + NewCount(init);
      var more := if last.Ins? then [Line(end + 1, last.text)] else [];
      if last.Keep? || last.Ins? {
        OneMore(new_, newAt, end, TrueAdded(init, newAt), more);
      } else {
        assert TrueAdded(init, newAt) + [] == TrueAdded(init, newAt);
      }
    }
  }

  /** Taking one more line of the file into account, listed or not. */
  lemma OneMore(file: seq<string>, lo: nat, end: nat, listed: seq<Line>, more: seq<Line>)
    requires lo <= end < |file| && Within(listed, lo, end)
    requires more == [] || (|more| == 1 && more[0].number == end + 1)
    ensures Without(file, lo, end + 1, listed + more) ==
            Without(file, lo, end, listed) + if more == [] then [file[end]] else []
  {
    forall n: nat
      ensures Lists(listed + more, n) <==> Lists(listed, n) || Lists(more, n)
    {
      ListsAppend(listed, more, n);
    }
    WithoutIgnores(file, lo, end, listed + more, listed);
  }

  lemma Reach(old_: seq<string>, new_: seq<string>, hunks: seq<Hunk>)
    requires Covers(old_, new_, hunks)
    ensures OldEnd(hunks) <= |old_| && NewEnd(hunks) <= |new_|
  {
    if hunks != [] {
      var h := hunks[|hunks| - 1];
      BodyFits(old_, new_, h.body, h.oldAt, h.newAt);
    }
  }

  /** The listed lines are lines of their files, up to where the hunks leave off. */
  lemma {:induction false} HunksAreTrue(old_: seq<string>, new_: seq<string>, hunks: seq<Hunk>)
    requires Covers(old_, new_, hunks)
    ensures Within(AddedOf(hunks), 0, NewEnd(hunks)) && Within(RemovedOf(hunks), 0, OldEnd(hunks))
    ensures TrueLines(new_, AddedOf(hunks)) && TrueLines(old_, RemovedOf(hunks))
    decreases |hunks|
  {
    if hunks != [] {
      var init, h := hunks[..|hunks| - 1], hunks[|hunks| - 1];
      HunksAreTrue(old_, new_, init);
      Reach(old_, new_, init);
      BodyFits(old_, new_, h.body, h.oldAt, h.newAt);
    }
  }

  /** Up to where the hunks leave off, both files without their listed lines agree. */
  lemma {:induction false} HunksLeave(old_: seq<string>, new_: seq<string>, hunks: seq<Hunk>)
    requires Covers(old_, new_, hunks) && OldEnd(hunks) <= |old_| && NewEnd(hunks) <= |new_|
    ensures Without(old_, 0, OldEnd(hunks), RemovedOf(hunks)) == Without(new_, 0, NewEnd(hunks), AddedOf(hunks))
    decreases |hunks|
  {
    if hunks != [] {
      var init, h := hunks[..|hunks| - 1], hunks[|hunks| - 1];
      Reach(old_, new_, init);
      HunksLeave(old_, new_, init);
      HunksAreTrue(old_, new_, init);
      BodyFits(old_, new_, h.body, h.oldAt, h.newAt);
      BodyLeavesOld(old_, new_, h.body, h.oldAt, h.newAt);
      BodyLeavesNew(old_, new_, h.body, h.oldAt, h.newAt);
      Extends(old_, OldEnd(init), h.oldAt, OldEnd(hunks), RemovedOf(init), TrueRemoved(h.body, h.oldAt));
      Extends(new_, NewEnd(init), h.newAt, NewEnd(hunks), AddedOf(init), TrueAdded(h.body, h.newAt));
    }
  }

  lemma Extends(file: seq<string>, a: nat, b: nat, c: nat, before: seq<Line>, here: seq<Line>)
    requires a <= b <= c <= |file| && Within(before, 0, a) && Within(here, b, c)
    ensures Without(file, 0, c, before + here) == Without(file, 0, a, before) + file[a..b] + Without(file, b, c, here)
  {
    hide Without;
    var all := before + here;
    forall n: nat
      ensures Lists(all, n) <==> Lists(before, n) || Lists(here, n)
    {
      ListsAppend(before, here, n);
    }
    WithoutJoins(file, 0, a, c, all);
    WithoutJoins(file, a, b, c, all);
    WithoutIgnores(file, 0, a, all, before);
    WithoutNothing(file, a, b, all);
    WithoutIgnores(file, b, c, all, here);
  }

  /**
   * The listed lines are true lines of their files, and they are all the difference there
   * is: taking them away leaves the same text on both sides.
   */
  lemma ExactlyTheDifference(old_: seq<string>, new_: seq<string>, hunks: seq<Hunk>)
    requires IsDiffOf(hunks, old_, new_)
    ensures TrueLines(new_, AddedOf(hunks)) && TrueLines(old_, RemovedOf(hunks))
    ensures Without(old_, 0, |old_|, RemovedOf(hunks)) == Without(new_, 0, |new_|, AddedOf(hunks))
  {
    Reach(old_, new_, hunks);
    HunksAreTrue(old_, new_, hunks);
    HunksLeave(old_, new_, hunks);
    WithoutJoins(old_, 0, OldEnd(hunks), |old_|, RemovedOf(hunks));
    WithoutJoins(new_, 0, NewEnd(hunks), |new_|, AddedOf(hunks));
    WithoutNothing(old_, OldEnd(hunks), |old_|, RemovedOf(hunks));
    WithoutNothing(new_, NewEnd(hunks), |new_|, AddedOf(hunks));
  }
}
