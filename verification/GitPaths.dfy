/**
 * The header line git prints for a file. A path with a control character, a quote, a
 * backslash or any character beyond ASCII is printed in quotes with escapes, and the header
 * pattern of services/diff-filter.service.ts does not read such a path back.
 */
module GitPaths {
  import opened Basics
  import opened Text
  import opened DiffText

  // ---- quoting -------------------------------------------------------------------------------

  predicate NeedsQuoting(c: char) {
    c < ' ' || c == '\"' || c == '\\' || c >= '\U{7F}'
  }

  /** No character of the path needs quoting. */
  predicate Bare(path: string) {
    forall i :: 0 <= i < |path| ==> !NeedsQuoting(path[i])
  }

  function Utf8(n: nat): (bytes: seq<nat>)
    ensures bytes != []
  {
    if n < 0x80 then [n]
    else if n < 0x800 then [0xC0 + n / 0x40, 0x80 + n % 0x40]
    else if n < 0x1_0000 then [0xE0 + n / 0x1000, 0x80 + n / 0x40 % 0x40, 0x80 + n % 0x40]
    else [0xF0 + n / 0x4_0000, 0x80 + n / 0x1000 % 0x40, 0x80 + n / 0x40 % 0x40, 0x80 + n % 0x40]
  }

  function Octal(byte: nat): string {
    ['\\', Digit(byte / 64 % 8), Digit(byte / 8 % 8), Digit(byte % 8)]
  }

  function Octals(bytes: seq<nat>): string {
    if bytes == [] then "" else Octal(bytes[0]) + Octals(bytes[1..])
  }

  /** The escape of a character that needs one. */
  function Escape(c: char): string {
    if c == '\"' || c == '\\' then ['\\', c]
    else if c == '\U{7}' then "\\a"
    else if c == '\U{8}' then "\\b"
    else if c == '\t' then "\\t"
    else if c == '\n' then "\\n"
    else if c == '\U{B}' then "\\v"
    else if c == '\U{C}' then "\\f"
    else if c == '\r' then "\\r"
    else Octals(Utf8(c as int))
  }

  function Quoted(path: string): string {
    if path == [] then []
    else (if NeedsQuoting(path[0]) then Escape(path[0]) else [path[0]]) + Quoted(path[1..])
  }

  function Side(prefix: string, path: string): string {
    if Bare(path) then prefix + path else "\"" + prefix + Quoted(path) + "\""
  }

  function HeaderText(oldPath: string, newPath: string): string {
    "diff --git " + Side("a/", oldPath) + " " + Side("b/", newPath)
  }

  // ---- what is printed -------------------------------------------------------------------------

  predicate Unbroken(s: string) {
    forall i :: 0 <= i < |s| ==> !IsTerminator(s[i])
  }

  /** An escape starts with a backslash and has neither a blank nor a line end in it. */
  predicate IsEscape(s: string) {
    |s| > 1 && s[0] == '\\' && ' ' !in s && Unbroken(s)
  }

  lemma {:induction false} OctalsEscape(bytes: seq<nat>)
    ensures bytes != [] ==> IsEscape(Octals(bytes))
    decreases |bytes|
  {
    if bytes != [] {
      OctalsEscape(bytes[1..]);
      var first, rest := Octal(bytes[0]), Octals(bytes[1..]);
      assert forall i :: 0 <= i < |first| ==> first[i] == '\\' || IsDigit(first[i]);
      assert bytes[1..] == [] ==> rest == "";
    }
  }

  lemma EscapeIs(c: char)
    ensures IsEscape(Escape(c))
  {
    hide Octals;
    OctalsEscape(Utf8(c as int));
  }

  lemma {:induction false} QuotedIs(path: string)
    ensures Unbroken(Quoted(path)) && |Quoted(path)| >= |path|
    decreases |path|
  {
    hide Escape;
    if path != [] {
      QuotedIs(path[1..]);
      EscapeIs(path[0]);
    }
  }

  lemma BareUnbroken(path: string)
    requires Bare(path)
    ensures Unbroken(path)
  {
    assert forall i :: 0 <= i < |path| && IsTerminator(path[i]) ==> NeedsQuoting(path[i]);
  }

  lemma UnbrokenConcat(a: string, b: string)
    requires Unbroken(a) && Unbroken(b)
    ensures Unbroken(a + b)
  {
  }

  lemma SideUnbroken(prefix: string, path: string)
    requires Unbroken(prefix)
    ensures Unbroken(Side(prefix, path))
  {
    hide Unbroken;
    if Bare(path) {
      BareUnbroken(path);
      UnbrokenConcat(prefix, path);
    } else {
      QuotedIs(path);
      QuoteUnbroken();
      UnbrokenConcat("\"", prefix);
      UnbrokenConcat("\"" + prefix, Quoted(path));
      UnbrokenConcat("\"" + prefix + Quoted(path), "\"");
    }
  }

  lemma QuoteUnbroken()
    ensures Unbroken("\"") && Unbroken("a/") && Unbroken("b/") && Unbroken(" ") && Unbroken("diff --git ")
  {
  }

  /** A header is one line, whatever the paths. */
  lemma HeaderUnbroken(p: string, q: string)
    ensures Unbroken(HeaderText(p, q))
  {
    hide Unbroken;
    hide Side;
    QuoteUnbroken();
    SideUnbroken("a/", p);
    SideUnbroken("b/", q);
    UnbrokenConcat("diff --git ", Side("a/", p));
    UnbrokenConcat("diff --git " + Side("a/", p), " ");
    UnbrokenConcat("diff --git " + Side("a/", p) + " ", Side("b/", q));
  }

  /** Both paths bare: the form the header pattern expects. */
  lemma BareForm(p: string, q: string)
    requires Bare(p) && Bare(q)
    ensures HeaderText(p, q) == GIT + p + SEPARATOR + q
  {
    hide Bare;
    assert "diff --git " + ("a/" + p) + " " + ("b/" + q) == ("diff --git " + "a/") + p + (" " + "b/") + q;
    assert "diff --git " + "a/" == GIT && " " + "b/" == SEPARATOR;
  }

  lemma QuotedNewForm(p: string, q: string)
    requires Bare(p) && !Bare(q)
    ensures HeaderText(p, q) == GIT + (p + " \"b/" + (Quoted(q) + "\""))
  {
    hide Bare;
    hide Quoted;
    assert "diff --git " + ("a/" + p) + " " + ("\"" + "b/" + Quoted(q) + "\"") ==
           ("diff --git " + "a/") + (p + (" " + "\"" + "b/") + (Quoted(q) + "\""));
    assert "diff --git " + "a/" == GIT && " " + "\"" + "b/" == " \"b/";
  }

  lemma QuotedOldForm(p: string, q: string)
    requires !Bare(p)
    ensures |HeaderText(p, q)| > |GIT| && HeaderText(p, q)[11] == '\"'
  {
    hide Bare;
    hide Quoted;
    var rest := "a/" + Quoted(p) + "\"" + " " + Side("b/", q);
    assert Side("a/", p) == "\"" + "a/" + Quoted(p) + "\"";
    assert HeaderText(p, q) == "diff --git " + "\"" + rest;
  }

  // ---- two bare paths -----------------------------------------------------------------------------

  /** The old path does not itself look like the end of a header. */
  predicate PlainPath(path: string) {
    forall k :: 1 <= k < |path| ==> !SeparatorAt(path, k)
  }

  lemma BlanklessIsPlain(path: string)
    requires ' ' !in path
    ensures PlainPath(path)
  {
    forall k | 1 <= k < |path|
      ensures !SeparatorAt(path, k)
    {
      SeparatorIs(path, k);
      assert path[k] in path;
    }
  }

  /** The separator in the whole header line lies inside the old path or right after it. */
  lemma SeparatorInside(p: string, q: string, k: nat)
    requires k < |p|
    ensures SeparatorAt(p + SEPARATOR + q, k) <==> SeparatorAt(p, k)
  {
    var s := p + SEPARATOR + q;
    if k + 3 <= |p| {
      assert s[k..k + 3] == p[k..k + 3];
    } else {
      assert s[|p|] == SEPARATOR[0];
      assert s[k..k + 3][|p| - k] == s[|p|];
    }
  }

  /** A bare header gives back the new path exactly when the old path is plain. */
  lemma BareReadsBack(p: string, q: string)
    requires p != [] && q != []
    ensures ParseHeader(GIT + p + SEPARATOR + q) == Some(q) <==> PlainPath(p)
  {
    var line := GIT + p + SEPARATOR + q;
    var s := p + SEPARATOR + q;
    assert line == GIT + s && line[|GIT|..] == s;
    assert SeparatorAt(s, |p|) by { assert s[|p|..|p| + 3] == SEPARATOR; }
    assert s[|p| + 3..] == q;
    var found := FindSeparator(s, 1).value;
    if PlainPath(p) {
      if found < |p| {
        SeparatorInside(p, q, found);
      }
      assert found == |p|;
    } else {
      var k :| 1 <= k < |p| && SeparatorAt(p, k);
      SeparatorInside(p, q, k);
      assert found <= k;
      assert |s[found + 3..]| > |q|;
    }
  }

  // ---- a quoted new path --------------------------------------------------------------------------------

  predicate StartsSeparator(s: string) {
    |s| >= 3 && s[0] == ' ' && StartsTail(s[1..])
  }

  predicate StartsTail(s: string) {
    |s| >= 2 && s[0] == 'b' && s[1] == '/'
  }

  lemma SeparatorIs(s: string, k: nat)
    requires k <= |s|
    ensures SeparatorAt(s, k) <==> StartsSeparator(s[k..])
  {
    if k + 3 <= |s| {
      var t := s[k..k + 3];
      assert t == [s[k], s[k + 1], s[k + 2]];
      assert SEPARATOR == [' ', 'b', '/'];
    }
  }

  /** How often the separator stands in a text. */
  function Separators(s: string): nat {
    if s == [] then 0 else (if StartsSeparator(s) then 1 else 0) + Separators(s[1..])
  }

  lemma SeparatorsMore(c: char, t: string)
    ensures Separators([c] + t) == (if c == ' ' && StartsTail(t) then 1 else 0) + Separators(t)
  {
    assert ([c] + t)[1..] == t;
  }

  lemma {:induction false} NoneInBlankless(e: string, t: string)
    requires ' ' !in e
    ensures Separators(e + t) == Separators(t)
    decreases |e|
  {
    if e == [] {
      assert e + t == t;
    } else {
      NoneInBlankless(e[1..], t);
      assert e + t == [e[0]] + (e[1..] + t);
      SeparatorsMore(e[0], e[1..] + t);
      assert e[0] in e;
    }
  }

  lemma QuotedMore(s: string)
    requires s != []
    ensures NeedsQuoting(s[0]) ==> Quoted(s) == Escape(s[0]) + Quoted(s[1..])
    ensures !NeedsQuoting(s[0]) ==> Quoted(s) == [s[0]] + Quoted(s[1..])
    ensures Quoted(s)[0] == if NeedsQuoting(s[0]) then '\\' else s[0]
  {
    hide Escape;
    EscapeIs(s[0]);
  }

  lemma QuotedKeepsTail(s: string)
    ensures StartsTail(Quoted(s)) <==> StartsTail(s)
  {
    if s != [] {
      hide Quoted;
      QuotedMore(s);
      if s[0] == 'b' && s[1..] != [] {
        QuotedMore(s[1..]);
      } else if s[0] == 'b' {
        NothingQuoted(s[1..]);
      }
    }
  }

  lemma NothingQuoted(s: string)
    requires s == []
    ensures Quoted(s) == []
  {
  }

  /** Quoting neither makes nor breaks a separator. */
  lemma {:induction false} QuotedKeepsSeparators(s: string)
    ensures Separators(Quoted(s)) == Separators(s)
    decreases |s|
  {
    if s == [] {
      NothingQuoted(s);
    } else {
      hide Quoted;
      QuotedMore(s);
      QuotedKeepsSeparators(s[1..]);
      assert s == [s[0]] + s[1..];
      SeparatorsMore(s[0], s[1..]);
      if NeedsQuoting(s[0]) {
        EscapeIs(s[0]);
        NoneInBlankless(Escape(s[0]), Quoted(s[1..]));
      } else {
        QuotedKeepsTail(s[1..]);
        SeparatorsMore(s[0], Quoted(s[1..]));
      }
    }
  }

  lemma {:induction false} SeparatorsBeforeQuote(a: string, w: string)
    requires AllWhite(w)
    ensures Separators(a + (['\"'] + w)) == Separators(a)
    decreases |a|
  {
    var t := ['\"'] + w;
    if a == [] {
      assert a + t == t;
      SeparatorsMore('\"', w);
      WhiteHasNoSeparator(w);
    } else {
      var u := a[1..];
      SeparatorsBeforeQuote(u, w);
      assert a + t == [a[0]] + (u + t) && a == [a[0]] + u;
      SeparatorsMore(a[0], u + t);
      SeparatorsMore(a[0], u);
      assert (u + t)[|u|] == '\"';
    }
  }

  lemma {:induction false} WhiteHasNoSeparator(w: string)
    requires AllWhite(w)
    ensures Separators(w) == 0
    decreases |w|
  {
    if w != [] {
      WhiteHasNoSeparator(w[1..]);
      assert |w| > 1 ==> IsWhite(w[1]);
    }
  }

  /** What follows a separator has fewer of them. */
  lemma {:induction false} FewerAfter(s: string, k: nat)
    requires k <= |s| && StartsSeparator(s[k..])
    ensures Separators(s[k + 3..]) < Separators(s)
    decreases k
  {
    if k == 0 {
      assert s[0..] == s;
      FewerDropped(s[1..], 2);
      assert s[1..][2..] == s[3..];
    } else {
      assert s[1..][k - 1..] == s[k..];
      FewerAfter(s[1..], k - 1);
      assert s[1..][k + 2..] == s[k + 3..];
    }
  }

  lemma {:induction false} FewerDropped(s: string, n: nat)
    requires n <= |s|
    ensures Separators(s[n..]) <= Separators(s)
    decreases n
  {
    if n > 0 {
      FewerDropped(s[1..], n - 1);
      assert s[1..][n - 1..] == s[n..];
    } else {
      assert s[0..] == s;
    }
  }

  /** Where the separator can stand in front of a quoted new path. */
  lemma QuotedSeparator(p: string, t: string, k: nat)
    requires var s := p + " \"b/" + t; k <= |s| && StartsSeparator(s[k..])
    ensures k + 3 <= |p| || (|p| + 4 <= k <= |p| + 4 + |t| && StartsSeparator(t[k - |p| - 4..]))
  {
    var s := p + " \"b/" + t;
    assert s[k] == ' ' && s[k + 1] == s[k..][1..][0] == 'b' && s[k + 2] == s[k..][1..][1] == '/';
    assert s[|p|] == ' ' && s[|p| + 1] == '\"' && s[|p| + 2] == 'b' && s[|p| + 3] == '/';
    if k >= |p| + 4 {
      assert t[k - |p| - 4..] == s[k..];
    }
  }

  /** A quoted new path is never read back, not even with white space after the header. */
  lemma QuotedNeverReads(p: string, q: string, w: string)
    requires Bare(p) && !Bare(q) && AllWhite(w)
    ensures ParseHeader(HeaderText(p, q) + w) != Some(q)
  {
    hide Quoted;
    hide HeaderText;
    hide StartsSeparator;
    hide Separators;
    hide FindSeparator;
    QuotedNewForm(p, q);
    var t := Quoted(q) + (['\"'] + w);
    var s := p + " \"b/" + t;
    assert HeaderText(p, q) + w == GIT + s;
    assert (GIT + s)[|GIT|..] == s;
    QuotedIs(q);
    var found := FindSeparator(s, 1);
    if found.Some? {
      var k := found.value;
      SeparatorIs(s, k);
      QuotedSeparator(p, t, k);
      if k + 3 <= |p| {
        assert |s[k + 3..]| > |q|;
      } else {
        var m := k - |p| - 4;
        FewerAfter(t, m);
        assert s[k + 3..] == t[m + 3..];
        SeparatorsBeforeQuote(Quoted(q), w);
        QuotedKeepsSeparators(q);
      }
    }
  }

  lemma QuotedOldHasNoHeader(p: string, q: string)
    requires !Bare(p)
    ensures ParseHeader(HeaderText(p, q)).None?
  {
    hide HeaderText;
    QuotedOldForm(p, q);
    assert GIT[11] == 'a';
  }

  /**
   * The header gives back the new path exactly when neither path is quoted and the old path
   * is plain.
   */
  lemma HeaderReadsBack(p: string, q: string)
    requires p != [] && q != []
    ensures ParseHeader(HeaderText(p, q)) == Some(q) <==> Bare(p) && Bare(q) && PlainPath(p)
  {
    hide ParseHeader;
    hide HeaderText;
    hide Bare;
    if !Bare(p) {
      QuotedOldHasNoHeader(p, q);
    } else if Bare(q) {
      BareForm(p, q);
      BareReadsBack(p, q);
    } else {
      QuotedNeverReads(p, q, "");
      assert HeaderText(p, q) + "" == HeaderText(p, q);
    }
  }
}
