/**
 * Rendering untrusted text into Markdown (services/ai/finding-format.ts) and reading it back
 * by the rules of CommonMark 0.31.2: sections 2.3, 2.4, 2.5 and 4.8 for prose, section 4.5
 * for fenced code blocks, section 6.1 for code spans.
 */
module Markdown {
  import opened Basics
  import opened Text

  // ---- white space ------------------------------------------------------------------------------

  /** replace(/\s+/g, ' ') */
  function Collapse(s: string): string {
    if s == [] then []
    else
      var init, c := Collapse(s[..|s| - 1]), s[|s| - 1];
      if !IsWhite(c) then init + [c]
      else if init != [] && init[|init| - 1] == ' ' then init
      else init + [' ']
  }

  /** Every white character of a collapsed text is a space by itself. */
  predicate Collapsed(s: string) {
    && (forall i :: 0 <= i < |s| && IsWhite(s[i]) ==> s[i] == ' ')
    && (forall i :: 0 < i < |s| ==> !(s[i - 1] == ' ' && s[i] == ' '))
  }

  lemma {:induction false} CollapseCollapses(s: string)
    ensures Collapsed(Collapse(s))
    decreases |s|
  {
    if s != [] {
      CollapseCollapses(s[..|s| - 1]);
    }
  }

  // ---- escapeText ---------------------------------------------------------------------------------

  /** The ASCII punctuation characters of CommonMark, which are those of the code's character class. */
  predicate IsPunctuation(c: char) {
    '!' <= c <= '/' || ':' <= c <= '@' || '[' <= c <= '`' || '{' <= c <= '~'
  }

  lemma PunctuationIs(c: char)
    ensures IsPunctuation(c) <==> c in "!\"#$%&'()*+,-./:;<=>?@[\\]^_`{|}~"
  {
    var all := "!\"#$%&'()*+,-./:;<=>?@[\\]^_`{|}~";
    if '!' <= c <= '/' {
      assert all[c as int - '!' as int] == c;
    } else if ':' <= c <= '@' {
      assert all[15 + c as int - ':' as int] == c;
    } else if '[' <= c <= '`' {
      assert all[22 + c as int - '[' as int] == c;
    } else if '{' <= c <= '~' {
      assert all[28 + c as int - '{' as int] == c;
    }
  }

  function EscapeOne(c: char): string {
    if !IsPunctuation(c) then [c]
    else if c == '&' then "&amp;"
    else if c == '<' then "&lt;"
    else if c == '>' then "&gt;"
    else if c == '@' then "&#64;"
    else ['\\', c]
  }

  function EscapeAll(s: string): string {
    if s == [] then [] else EscapeOne(s[0]) + EscapeAll(s[1..])
  }

  function EscapeText(s: string): string {
    EscapeAll(Collapse(s))
  }

  // ---- reading prose: backslash escapes and references ------------------------------------------------

  /** An inline token; Bare punctuation is what can open or close any other construct. */
  datatype Token = Plain(c: char) | Escaped(c: char) | Reference(text: string) | Bare(c: char)

  predicate IsLetter(c: char) {
    'a' <= c <= 'z' || 'A' <= c <= 'Z'
  }

  predicate IsHex(c: char) {
    IsDigit(c) || 'a' <= c <= 'f' || 'A' <= c <= 'F'
  }

  function NameRun(s: string): (n: nat)
    ensures n <= |s|
  {
    if s != [] && (IsLetter(s[0]) || IsDigit(s[0])) then 1 + NameRun(s[1..]) else 0
  }

  function HexRun(s: string): (n: nat)
    ensures n <= |s| && forall i :: 0 <= i < n ==> IsHex(s[i])
  {
    if s != [] && IsHex(s[0]) then
      var rest := HexRun(s[1..]);
      assert forall i :: 0 < i < 1 + rest ==> s[i] == s[1..][i - 1];
      1 + rest
    else 0
  }

  function HexDigit(c: char): nat
    requires IsHex(c)
  {
    if IsDigit(c) then c as int - '0' as int
    else if 'a' <= c <= 'f' then c as int - 'a' as int + 10
    else c as int - 'A' as int + 10
  }

  function HexNumber(s: string): nat
    requires forall i :: 0 <= i < |s| ==> IsHex(s[i])
  {
    if s == [] then 0 else 16 * HexNumber(s[..|s| - 1]) + HexDigit(s[|s| - 1])
  }

  const REPLACEMENT := '\U{FFFD}'

  /** The character of a code point; zero and whatever is no character become U+FFFD. */
  function CodePoint(n: nat): char {
    if 0 < n < 0xD800 || 0xE000 <= n < 0x11_0000 then n as char else REPLACEMENT
  }

  /** The text and the length of the reference at the start of s, which starts with '&'. */
  function ReadReference(named: map<string, string>, s: string): Option<(string, nat)>
    requires s != []
  {
    if 2 < |s| && s[1] == '#' && (s[2] == 'x' || s[2] == 'X') then
      var n := HexRun(s[3..]);
      if 1 <= n <= 6 && 3 + n < |s| && s[3 + n] == ';' then Some(([CodePoint(HexNumber(s[3..][..n]))], 4 + n)) else None
    else if 1 < |s| && s[1] == '#' then
      var n := DigitRun(s[2..]);
      if 1 <= n <= 7 && 2 + n < |s| && s[2 + n] == ';' then Some(([CodePoint(NumberOf(s[2..][..n]))], 3 + n)) else None
    else
      var n := NameRun(s[1..]);
      var name := s[1..][..n];
      if 1 + n < |s| && s[1 + n] == ';' && name in named then Some((named[name], 2 + n)) else None
  }

  /** The first token of a text and its length. */
  function FirstToken(named: map<string, string>, s: string): (r: (Token, nat))
    requires s != []
    ensures 0 < r.1 <= |s|
  {
    var c := s[0];
    if c == '\\' && 1 < |s| && IsPunctuation(s[1]) then (Escaped(s[1]), 2)
    else if c == '&' && ReadReference(named, s).Some? then
      (Reference(ReadReference(named, s).value.0), ReadReference(named, s).value.1)
    else if IsPunctuation(c) then (Bare(c), 1)
    else if c == '\0' then (Plain(REPLACEMENT), 1)
    else (Plain(c), 1)
  }

  function Tokens(named: map<string, string>, s: string): seq<Token>
    decreases |s|
  {
    if s == [] then []
    else
      var (t, n) := FirstToken(named, s);
      [t] + Tokens(named, s[n..])
  }

  function TokenText(t: Token): string {
    match t
    case Plain(c) => [c]
    case Escaped(c) => [c]
    case Reference(text) => text
    case Bare(c) => [c]
  }

  function ReadBack(tokens: seq<Token>): string {
    if tokens == [] then [] else TokenText(tokens[0]) + ReadBack(tokens[1..])
  }

  predicate NothingBare(tokens: seq<Token>) {
    forall i :: 0 <= i < |tokens| ==> !tokens[i].Bare?
  }

  /** Section 2.3: U+0000 is replaced before anything else is read. */
  function Secured(s: string): string {
    seq(|s|, i requires 0 <= i < |s| => if s[i] == '\0' then REPLACEMENT else s[i])
  }

  /** The table of named references has the three the code writes. */
  predicate KnowsBasics(named: map<string, string>) {
    && "amp" in named && named["amp"] == "&" && "lt" in named && named["lt"] == "<" && "gt" in named && named["gt"] == ">"
  }

  lemma NameRunIs(s: string, n: nat)
    requires n <= |s| && (forall i :: 0 <= i < n ==> IsLetter(s[i])) && n < |s| && !IsLetter(s[n]) && !IsDigit(s[n])
    ensures NameRun(s) == n
    decreases n
  {
    if n > 0 {
      assert forall i :: 0 <= i < n - 1 ==> s[1..][i] == s[i + 1];
      NameRunIs(s[1..], n - 1);
    }
  }

  /** A named reference the code writes is read as one. */
  lemma NamedIsRead(named: map<string, string>, name: string, rest: string)
    requires name in named && name != [] && forall i :: 0 <= i < |name| ==> IsLetter(name[i])
    ensures var s := ['&'] + name + [';'] + rest;
            ReadReference(named, s) == Some((named[name], |name| + 2)) && s[|name| + 2..] == rest
  {
    var s := ['&'] + name + [';'] + rest;
    assert s[1] == name[0];
    assert s[1..] == name + [';'] + rest;
    NameRunIs(s[1..], |name|);
    assert s[1..][..|name|] == name;
  }

  lemma AtIsRead(named: map<string, string>, rest: string)
    ensures ReadReference(named, "&#64;" + rest) == Some(("@", 5)) && ("&#64;" + rest)[5..] == rest
  {
    var s := "&#64;" + rest;
    assert s[2..] == "64;" + rest;
    DigitRunIs(s[2..], 2);
    assert s[2..][..2] == "64";
    assert "64"[..1] == "6" && "6"[..0] == "";
    assert NumberOf("64") == 10 * NumberOf("6") + 4;
    assert NumberOf("6") == 6;
  }

  /** One escaped character is one token, not bare, that stands for the character. */
  lemma OneIsRead(named: map<string, string>, c: char, rest: string)
    requires KnowsBasics(named)
    ensures var s, t := EscapeOne(c) + rest, FirstToken(named, EscapeOne(c) + rest);
            t.1 == |EscapeOne(c)| && s[t.1..] == rest && !t.0.Bare? &&
            TokenText(t.0) == [if c == '\0' then REPLACEMENT else c]
  {
    if c == '&' {
      NamedIsRead(named, "amp", rest);
      assert "&amp;" + rest == ['&'] + "amp" + [';'] + rest;
    } else if c == '<' {
      NamedIsRead(named, "lt", rest);
      assert "&lt;" + rest == ['&'] + "lt" + [';'] + rest;
    } else if c == '>' {
      NamedIsRead(named, "gt", rest);
      assert "&gt;" + rest == ['&'] + "gt" + [';'] + rest;
    } else if c == '@' {
      AtIsRead(named, rest);
    }
  }

  lemma {:induction false} AllIsRead(named: map<string, string>, s: string)
    requires KnowsBasics(named)
    ensures NothingBare(Tokens(named, EscapeAll(s))) && ReadBack(Tokens(named, EscapeAll(s))) == Secured(s)
    decreases |s|
  {
    hide FirstToken;
    hide EscapeOne;
    hide TokenText;
    if s != [] {
      var c, rest := s[0], EscapeAll(s[1..]);
      var text := EscapeOne(c) + rest;
      OneIsRead(named, c, rest);
      AllIsRead(named, s[1..]);
      var (t, n) := FirstToken(named, text);
      assert Tokens(named, text) == [t] + Tokens(named, rest);
      assert ([t] + Tokens(named, rest))[1..] == Tokens(named, rest);
      assert Secured(s) == [if c == '\0' then REPLACEMENT else c] + Secured(s[1..]);
    }
  }

  lemma SecuredExactly(s: string)
    ensures Secured(s) == s <==> '\0' !in s
  {
  }

  /**
   * Escaped prose reads back as the text with its white space collapsed, exactly when the
   * text has no U+0000; and nothing in it is left that could open another construct.
   */
  lemma EscapedTextReadsBack(named: map<string, string>, s: string)
    requires KnowsBasics(named)
    ensures var tokens := Tokens(named, EscapeText(s));
            NothingBare(tokens) && (ReadBack(tokens) == Collapse(s) <==> '\0' !in s)
  {
    AllIsRead(named, Collapse(s));
    SecuredExactly(Collapse(s));
    CollapseKeeps(s, '\0');
  }

  lemma {:induction false} CollapseKeeps(s: string, c: char)
    requires !IsWhite(c)
    ensures c in Collapse(s) <==> c in s
    decreases |s|
  {
    if s != [] {
      CollapseKeeps(s[..|s| - 1], c);
      assert s == s[..|s| - 1] + [s[|s| - 1]];
    }
  }

  // ---- at the end of a line ---------------------------------------------------------------------

  /** Section 4.8: the final spaces and tabs of a paragraph are dropped. */
  function StripEnd(s: string): string {
    if s != [] && (s[|s| - 1] == ' ' || s[|s| - 1] == '\t') then StripEnd(s[..|s| - 1]) else s
  }

  lemma {:induction false} EscapeAllMore(s: string, c: char)
    ensures EscapeAll(s + [c]) == EscapeAll(s) + EscapeOne(c)
  {
    if s == [] {
      assert EscapeAll([c]) == EscapeOne(c) + EscapeAll([c][1..]);
    } else {
      EscapeAllMore(s[1..], c);
      assert (s + [c])[1..] == s[1..] + [c];
    }
  }

  /** Escaping adds no space at the end and hides none. */
  lemma {:induction false} StripEndEscaped(s: string)
    requires forall i :: 0 <= i < |s| && IsWhite(s[i]) ==> s[i] == ' '
    ensures StripEnd(EscapeAll(s)) == EscapeAll(TrimEnd(s))
    decreases |s|
  {
    if s != [] {
      var init, c := s[..|s| - 1], s[|s| - 1];
      assert s == init + [c];
      EscapeAllMore(init, c);
      var text := EscapeAll(init) + EscapeOne(c);
      assert text[|text| - 1] == EscapeOne(c)[|EscapeOne(c)| - 1];
      if IsWhite(c) {
        StripEndEscaped(init);
        assert text[..|text| - 1] == EscapeAll(init);
      }
    }
  }

  /**
   * Escaped prose that ends a paragraph, as an issue does, reads back as the collapsed text
   * without white space at its end, again exactly when the text has no U+0000.
   */
  lemma EscapedLineReadsBack(named: map<string, string>, s: string)
    requires KnowsBasics(named)
    ensures NothingBare(Tokens(named, StripEnd(EscapeText(s))))
    ensures ReadBack(Tokens(named, StripEnd(EscapeText(s)))) == TrimEnd(Collapse(s)) <==> '\0' !in s
  {
    CollapseCollapses(s);
    StripEndEscaped(Collapse(s));
    AllIsRead(named, TrimEnd(Collapse(s)));
    SecuredExactly(TrimEnd(Collapse(s)));
    TrimEndKeeps(Collapse(s), '\0');
    CollapseKeeps(s, '\0');
  }

  lemma {:induction false} TrimEndKeeps(s: string, c: char)
    requires !IsWhite(c)
    ensures c in TrimEnd(s) <==> c in s
    decreases |s|
  {
    if s != [] && IsWhite(s[|s| - 1]) {
      TrimEndKeeps(s[..|s| - 1], c);
      assert s == s[..|s| - 1] + [s[|s| - 1]];
    }
  }
}
