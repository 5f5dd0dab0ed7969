/**
 * Code spans (services/ai/finding-format.ts inlineCode), read back by CommonMark section 6.1.
 */
module MarkdownSpan {
  import opened Basics
  import opened Text
  import opened Markdown
  import opened MarkdownCode

  /** The text as it is shown: white space collapsed and trimmed. */
  function Shown(text: string): string {
    Trim(Collapse(text))
  }

  function Padding(s: string): string {
    if '`' in s then " " else ""
  }

  function InlineCode(text: string): string {
    var s := Shown(text);
    var delimiter := TickString(Longest(s) + 1);
    delimiter + Padding(s) + s + Padding(s) + delimiter
  }

  method RenderInlineCode(text: string) returns (code: string)
    ensures code == InlineCode(text)
  {
    var normalized := Trim(Collapse(text));
    var longest := LongestBacktickRun(normalized);
    var delimiter := TickString(longest + 1);
    var padding := if '`' in normalized then " " else "";
    code := delimiter + padding + normalized + padding + delimiter;
  }

  // ---- the reader ----------------------------------------------------------------------------------

  /** Where the next run of exactly n backticks begins, from j on. */
  function FindClose(s: string, j: nat, n: nat): (at: Option<nat>)
    requires j <= |s|
    ensures at.Some? ==> j <= at.value && at.value + n <= |s|
    decreases |s| - j
  {
    if j == |s| then None
    else
      var m := HeadRun(s[j..]);
      if m == 0 then FindClose(s, j + 1, n) else if m == n then Some(j) else FindClose(s, j + m, n)
  }

  function SpacedEnds(s: string): string {
    seq(|s|, i requires 0 <= i < |s| => if s[i] == '\n' || s[i] == '\r' then ' ' else s[i])
  }

  predicate AllSpaces(s: string) {
    forall i :: 0 <= i < |s| ==> s[i] == ' '
  }

  /** One space comes off either side, unless there is nothing else. */
  function Stripped(s: string): string {
    if |s| >= 2 && s[0] == ' ' && s[|s| - 1] == ' ' && !AllSpaces(s) then s[1..|s| - 1] else s
  }

  /** The span a text starts with, and what follows it. */
  function ReadSpan(document: string): Option<(string, string)> {
    var s := Secured(document);
    var n := HeadRun(s);
    if n == 0 then None
    else
      match FindClose(s, n, n)
      case None => None
      case Some(j) => Some((Stripped(SpacedEnds(s[n..j])), s[j + n..]))
  }

  // ---- no run inside is as long as the delimiter ---------------------------------------------------------

  /** Every run of backticks is shorter than n. */
  predicate RunsBelow(s: string, n: nat) {
    forall i, j :: 0 <= i <= j <= |s| && Ticks(s[i..j]) ==> j - i < n
  }

  /** What stands between the delimiters; not empty, and no backtick at either end. */
  predicate Between(s: string, n: nat) {
    s != [] && s[0] != '`' && s[|s| - 1] != '`' && RunsBelow(s, n)
  }

  lemma ShortRuns(s: string)
    ensures RunsBelow(s, Longest(s) + 1)
  {
    hide Longest;
    forall i, j | 0 <= i <= j <= |s| && Ticks(s[i..j])
      ensures j - i < Longest(s) + 1
    {
      RunBound(s, i, j);
    }
  }

  lemma PaddedRuns(s: string, n: nat)
    requires RunsBelow(s, n) && n > 0
    ensures RunsBelow(" " + s + " ", n)
  {
    var p := " " + s + " ";
    forall i, j | 0 <= i <= j <= |p| && Ticks(p[i..j])
      ensures j - i < n
    {
      if i < j {
        assert p[i..j][0] == p[i] && p[i..j][j - i - 1] == p[j - 1];
        assert 1 <= i && j <= |s| + 1;
        assert p[i..j] == s[i - 1..j - 1];
      }
    }
  }

  /** The search passes over all that stands between the delimiters. */
  lemma {:induction false} FindsDelimiter(body: string, n: nat, j: nat)
    requires Between(body, n) && n > 0 && n <= j <= n + |body|
    ensures FindClose(TickString(n) + body + TickString(n), j, n) == Some(n + |body|)
    decreases n + |body| - j
  {
    var d := TickString(n);
    var s := d + body + d;
    if j == n + |body| {
      assert s[j..] == d && d[..n] == d;
      HeadRunIs(d, n);
    } else {
      var m := HeadRun(s[j..]);
      RunInside(body, n, j);
      FindsDelimiter(body, n, if m == 0 then j + 1 else j + m);
    }
  }

  lemma RunInside(body: string, n: nat, j: nat)
    requires Between(body, n) && n > 0 && n <= j < n + |body|
    ensures var m := HeadRun((TickString(n) + body + TickString(n))[j..]);
            m < n && j + m < n + |body|
  {
    var d := TickString(n);
    var s, k := d + body + d, j - n;
    var m := HeadRun(s[j..]);
    assert s[n + |body| - 1] == body[|body| - 1];
    forall q | j <= q < j + m
      ensures s[q] == '`'
    {
      assert s[j..][..m][q - j] == s[q];
    }
    assert s[j..][..m] == body[k..k + m];
  }

  lemma BodyOf(s: string)
    requires s != []
    ensures Between(Padding(s) + s + Padding(s), Longest(s) + 1)
  {
    hide Longest;
    ShortRuns(s);
    if '`' in s {
      PaddedRuns(s, Longest(s) + 1);
    } else {
      assert s[0] in s && s[|s| - 1] in s;
      assert "" + s + "" == s;
    }
  }

  /** What the padding adds, the reader takes off again, and nothing more. */
  lemma {:induction false} StripsPadding(s: string)
    requires s != [] && !IsWhite(s[0]) && !IsWhite(s[|s| - 1])
    requires forall i :: 0 <= i < |s| && IsWhite(s[i]) ==> s[i] == ' '
    ensures Stripped(SpacedEnds(Padding(s) + s + Padding(s))) == s
  {
    var p := Padding(s) + s + Padding(s);
    assert forall i :: 0 <= i < |s| ==> s[i] != '\n' && s[i] != '\r';
    assert SpacedEnds(p) == p;
    if '`' in s {
      assert p[1] == s[0];
      assert p[1..|p| - 1] == s;
    } else {
      assert p == s;
    }
  }

  // ---- the shown text --------------------------------------------------------------------------------------

  lemma {:induction false} TrimStartIs(s: string) returns (k: nat)
    ensures k <= |s| && TrimStart(s) == s[k..] && forall i :: 0 <= i < k ==> IsWhite(s[i])
    ensures k < |s| ==> !IsWhite(s[k])
    decreases |s|
  {
    hide IsWhite;
    if s != [] && IsWhite(s[0]) {
      var tail := s[1..];
      k := TrimStartIs(tail);
      assert forall i :: 0 < i < k + 1 ==> s[i] == tail[i - 1];
      assert tail[k..] == s[k + 1..];
      k := k + 1;
    } else {
      k := 0;
    }
  }

  lemma {:induction false} TrimEndIs(s: string) returns (k: nat)
    ensures k <= |s| && TrimEnd(s) == s[..k] && forall i :: k <= i < |s| ==> IsWhite(s[i])
    ensures k > 0 ==> !IsWhite(s[k - 1])
    decreases |s|
  {
    hide IsWhite;
    if s != [] && IsWhite(s[|s| - 1]) {
      var init := s[..|s| - 1];
      k := TrimEndIs(init);
      assert init[..k] == s[..k];
    } else {
      k := |s|;
    }
  }

  /** A trimmed text is a stretch of the text, with white space on either side and none at its ends. */
  lemma TrimIs(s: string) returns (i: nat, j: nat)
    ensures i <= j <= |s| && Trim(s) == s[i..j] && forall k :: 0 <= k < i || j <= k < |s| ==> IsWhite(s[k])
    ensures i < j ==> !IsWhite(s[i]) && !IsWhite(s[j - 1])
  {
    hide IsWhite;
    i := TrimStartIs(s);
    var t := s[i..];
    var n := TrimEndIs(t);
    j := i + n;
    assert t[..n] == s[i..j];
    forall k | j <= k < |s|
      ensures IsWhite(s[k])
    {
      assert s[k] == t[k - i];
    }
    if n > 0 {
      assert t[n - 1] == s[j - 1] && i < |s|;
    }
  }

  /** Nothing is shown of a blank text only. */
  lemma ShownIsEmpty(text: string)
    ensures Shown(text) == [] <==> AllWhite(text)
  {
    hide IsWhite;
    var s := Collapse(text);
    var i, j := TrimIs(s);
    CollapseWhite(text);
  }

  lemma {:induction false} CollapseWhite(s: string)
    ensures AllWhite(Collapse(s)) <==> AllWhite(s)
    decreases |s|
  {
    if s != [] {
      var init, c := s[..|s| - 1], s[|s| - 1];
      CollapseWhite(init);
      assert AllWhite(s) <==> AllWhite(init) && IsWhite(c) by {
        assert s == init + [c];
        assert s[|s| - 1] == c;
        assert forall k :: 0 <= k < |init| ==> s[k] == init[k];
      }
      var t := Collapse(init);
      assert AllWhite(t + [c]) <==> AllWhite(t) && IsWhite(c) by {
        assert (t + [c])[|t|] == c;
        assert forall k :: 0 <= k < |t| ==> (t + [c])[k] == t[k];
      }
      assert AllWhite(t + [' ']) <==> AllWhite(t) by {
        assert forall k :: 0 <= k < |t| ==> (t + [' '])[k] == t[k];
      }
    }
  }

  lemma ShownIsTidy(text: string)
    ensures var s := Shown(text);
            && (s != [] ==> !IsWhite(s[0]) && !IsWhite(s[|s| - 1]))
            && (forall i :: 0 <= i < |s| && IsWhite(s[i]) ==> s[i] == ' ')
  {
    hide IsWhite;
    CollapseCollapses(text);
    var i, j := TrimIs(Collapse(text));
    assert forall k :: 0 <= k < |Shown(text)| ==> Shown(text)[k] == Collapse(text)[i + k];
  }

  lemma ShownKeeps(text: string, c: char)
    requires !IsWhite(c)
    ensures c in Shown(text) <==> c in text
  {
    hide IsWhite;
    var s := Collapse(text);
    var i, j := TrimIs(s);
    CollapseKeeps(text, c);
    if c in s {
      var k :| 0 <= k < |s| && s[k] == c;
      assert i <= k < j;
      assert s[i..j][k - i] == c;
    }
  }

  // ---- the span reads back -----------------------------------------------------------------------------------

  /** What a reader makes of delimiters around a shown text that has no U+0000 left. */
  lemma SpanIsRead(s: string)
    requires s != [] && !IsWhite(s[0]) && !IsWhite(s[|s| - 1])
    requires forall i :: 0 <= i < |s| && IsWhite(s[i]) ==> s[i] == ' '
    ensures var d, p := TickString(Longest(s) + 1), Padding(s) + s + Padding(s);
            && HeadRun(d + p + d) == |d| && FindClose(d + p + d, |d|, |d|) == Some(|d| + |p|)
            && Stripped(SpacedEnds((d + p + d)[|d|..|d| + |p|])) == s && (d + p + d)[|d| + |p| + |d|..] == []
  {
    hide Longest;
    hide IsWhite;
    hide FindClose;
    var d, p := TickString(Longest(s) + 1), Padding(s) + s + Padding(s);
    BodyOf(s);
    FindsDelimiter(p, |d|, |d|);
    StripsPadding(s);
    assert (d + p + d)[..|d|] == d && (d + p + d)[|d|] == p[0];
    HeadRunIs(d + p + d, |d|);
    assert (d + p + d)[|d|..|d| + |p|] == p;
  }

  lemma SpanSecured(text: string)
    ensures var t := Secured(Shown(text)); var d := TickString(Longest(t) + 1);
            Secured(InlineCode(text)) == d + (Padding(t) + t + Padding(t)) + d
  {
    hide Longest;
    var s := Shown(text);
    var t := Secured(s);
    var d, p := TickString(Longest(s) + 1), Padding(s);
    LongestSecured(s);
    assert Padding(t) == p && Secured(p) == p && Secured(d) == d by { SecuredTicks(s); }
    SecuredConcat(d + p + s + p, d);
    SecuredConcat(d + p + s, p);
    SecuredConcat(d + p, s);
    SecuredConcat(d, p);
    assert d + p + t + p + d == d + (p + t + p) + d;
  }

  lemma SecuredTicks(s: string)
    ensures '`' in Secured(s) <==> '`' in s
    ensures Secured(TickString(Longest(s) + 1)) == TickString(Longest(s) + 1)
  {
    hide Longest;
    assert forall i :: 0 <= i < |s| ==> (Secured(s)[i] == '`' <==> s[i] == '`');
  }

  /** A code span shows the text, white space collapsed and U+0000 replaced. */
  lemma SpanShows(text: string)
    requires !AllWhite(text)
    ensures ReadSpan(InlineCode(text)) == Some((Secured(Shown(text)), ""))
  {
    hide Longest;
    hide Shown;
    hide InlineCode;
    hide FindClose;
    hide Stripped;
    hide SpacedEnds;
    hide Padding;
    ShownIsEmpty(text);
    ShownIsTidy(text);
    SpanSecured(text);
    var t := Secured(Shown(text));
    SpanIsRead(t);
  }

  /** Two adjacent delimiters are one longer run and no span. */
  lemma BlankIsNoSpan(text: string)
    requires AllWhite(text)
    ensures ReadSpan(InlineCode(text)).None?
  {
    hide Collapse;
    ShownIsEmpty(text);
    var d := InlineCode(text);
    assert Shown(text) == [] && Longest([]) == 0;
    assert d == TickString(2);
    assert Secured(d) == d;
    assert d[..2] == d;
    HeadRunIs(d, 2);
  }

  /**
   * The text comes back, white space collapsed, exactly when it is not blank and has no
   * U+0000.
   */
  lemma SpanReadsBack(text: string)
    ensures ReadSpan(InlineCode(text)) == Some((Shown(text), "")) <==> !AllWhite(text) && '\0' !in text
  {
    hide ReadSpan;
    hide InlineCode;
    hide Shown;
    if AllWhite(text) {
      BlankIsNoSpan(text);
    } else {
      SpanShows(text);
      SecuredExactly(Shown(text));
      ShownKeeps(text, '\0');
    }
  }
}
