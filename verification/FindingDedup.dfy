/**
 * Finding deduplication (services/ai/finding-dedup.service.ts). Merging folds repeated
 * reports of one problem into its first report and must lose nothing on the way. How
 * prose is cut into words is left open; everything else is as in the source.
 */
module FindingDedup {
  import opened Basics
  import Text

  datatype Severity = INFO | LOW | MEDIUM | HIGH | CRITICAL

  datatype Source = LLM | SAST | SECRETS | DEPENDENCIES | RULES

  datatype Category = SECURITY | BUG | CORRECTNESS | PERFORMANCE | ARCHITECTURE | MAINTAINABILITY | STYLE | TESTING

  /** anchor: the verified citation of an added line, when there is one. */
  datatype Finding = Finding(
    path: string,
    line: int,
    category: Category,
    issue: string,
    suggestion: string,
    priority: Severity,
    anchor: Option<string>,
    source: Option<Source>,
    sources: Option<set<Source>>,
    ruleKeys: Option<set<string>>,
    ruleKey: Option<string>)

  /** The word splitter: the content words of a text, and its sorted fingerprint. */
  datatype Lexer = Lexer(words: string -> set<string>, fingerprint: string -> string)

  const NEARBY_LINE_WINDOW := 3

  // ---- keys ----------------------------------------------------------------------------

  predicate IsUpper(c: char) {
    'A' <= c <= 'Z'
  }

  function Lower(c: char): char {
    if IsUpper(c) then (c as int - 'A' as int + 'a' as int) as char else c
  }

  function Lowered(s: string): string {
    seq(|s|, i requires 0 <= i < |s| => Lower(s[i]))
  }

  function Slashed(s: string): string {
    seq(|s|, i requires 0 <= i < |s| => if s[i] == '\\' then '/' else s[i])
  }

  function NormalizePath(path: string): string {
    var slashed := Slashed(path);
    Lowered(if "./" <= slashed then slashed[2..] else slashed)
  }

  function CategoryName(c: Category): string {
    match c
    case SECURITY => "SECURITY"
    case BUG => "BUG"
    case CORRECTNESS => "CORRECTNESS"
    case PERFORMANCE => "PERFORMANCE"
    case ARCHITECTURE => "ARCHITECTURE"
    case MAINTAINABILITY => "MAINTAINABILITY"
    case STYLE => "STYLE"
    case TESTING => "TESTING"
  }

  function LineText(line: int): string {
    if line < 0 then "-" + Text.Decimal(-line) else Text.Decimal(line)
  }

  /** The part every key of a finding starts with. */
  function Place(f: Finding): string {
    NormalizePath(f.path) + "|" + CategoryName(f.category) + "|"
  }

  function ExactKey(lexer: Lexer, f: Finding): string {
    Place(f) + LineText(f.line) + "|" + lexer.fingerprint(f.issue)
  }

  function LooseKey(lexer: Lexer, f: Finding): string {
    Place(f) + lexer.fingerprint(f.issue)
  }

  predicate SamePlace(a: Finding, b: Finding) {
    NormalizePath(a.path) == NormalizePath(b.path) && a.category == b.category
  }

  /** Spellings of one path: a leading "./", back slashes, upper case. */
  lemma PathSpellings(path: string)
    ensures !("./" <= Slashed(path)) ==> NormalizePath("./" + path) == NormalizePath(path) == NormalizePath(".\\" + path)
    ensures NormalizePath(Slashed(path)) == NormalizePath(path) && NormalizePath(Lowered(path)) == NormalizePath(path)
    ensures forall c :: c in NormalizePath(path) ==> c != '\\' && !('A' <= c <= 'Z')
  {
    assert Slashed("./" + path)[2..] == Slashed(path) == Slashed(".\\" + path)[2..];
    assert Slashed(Slashed(path)) == Slashed(path);
    assert Slashed(Lowered(path)) == Lowered(Slashed(path));
    var slashed := Slashed(path);
    assert Lowered(Lowered(slashed)) == Lowered(slashed);
    assert "./" <= slashed <==> "./" <= Lowered(slashed) by {
      if |slashed| >= 2 {
        assert slashed[..2] == "./" <==> slashed[0] == '.' && slashed[1] == '/';
        assert Lowered(slashed)[..2] == "./" <==> slashed[0] == '.' && slashed[1] == '/';
      }
    }
    if "./" <= slashed {
      assert Lowered(slashed)[2..] == Lowered(slashed[2..]);
      assert Lowered(Lowered(slashed[2..])) == Lowered(slashed[2..]);
    }
  }

  lemma CategoryNames(c: Category)
    ensures |CategoryName(c)| > 0 && forall i :: 0 <= i < |CategoryName(c)| ==> IsUpper(CategoryName(c)[i])
  {
  }

  lemma CategoryNamesDiffer(a: Category, b: Category)
    requires CategoryName(a) == CategoryName(b)
    ensures a == b
  {
  }

  /** Where the lower-cased path of a key ends and its upper-case category begins and ends. */
  lemma PlaceBounds(key: string, f: Finding)
    requires Place(f) <= key
    ensures var n := |NormalizePath(f.path)|;
            var m := n + 1 + |CategoryName(f.category)|;
            && m < |key| && n + 1 < m && key[m] == '|'
            && (forall i :: 0 <= i <= n ==> !IsUpper(key[i]))
            && (forall i :: n < i < m ==> IsUpper(key[i]))
            && key[..n] == NormalizePath(f.path) && key[n + 1..m] == CategoryName(f.category)
  {
    var p, c := NormalizePath(f.path), CategoryName(f.category);
    CategoryNames(f.category);
    var place := Place(f);
    assert place[|p|] == '|' && place[|p| + 1 + |c|] == '|';
    assert place[..|p|] == p && place[|p| + 1..|p| + 1 + |c|] == c;
    assert forall i :: 0 <= i < |p| ==> place[i] == p[i] && !IsUpper(p[i]);
    assert forall i :: |p| < i <= |p| + |c| ==> place[i] == c[i - |p| - 1];
    assert key[..|place|] == place;
    assert forall i :: 0 <= i < |place| ==> key[i] == place[i];
    assert key[..|p|] == place[..|p|] && key[|p| + 1..|p| + 1 + |c|] == place[|p| + 1..|p| + 1 + |c|];
  }

  /** Keys never run together: the place they start with is unambiguous. */
  lemma PlaceUnambiguous(key: string, a: Finding, b: Finding)
    requires Place(a) <= key && Place(b) <= key
    ensures SamePlace(a, b)
  {
    PlaceBounds(key, a);
    PlaceBounds(key, b);
    var n, o := |NormalizePath(a.path)|, |NormalizePath(b.path)|;
    assert IsUpper(key[n + 1]) && IsUpper(key[o + 1]);
    assert n == o;
    assert !IsUpper(key[n + 1 + |CategoryName(a.category)|]) && !IsUpper(key[o + 1 + |CategoryName(b.category)|]);
    CategoryNamesDiffer(a.category, b.category);
  }

  // ---- similarity ------------------------------------------------------------------------

  /** Word overlap of at least 0.6, by Jaccard's index; texts without words resemble nothing. */
  predicate Similar(lexer: Lexer, a: string, b: string) {
    var x, y := lexer.words(a), lexer.words(b);
    x != {} && y != {} && 10 * |x * y| >= 6 * |x + y|
  }

  method Resembles(lexer: Lexer, a: string, b: string) returns (yes: bool)
    ensures yes == Similar(lexer, a, b)
  {
    var x, y := lexer.words(a), lexer.words(b);
    if x == {} || y == {} {
      return false;
    }
    var shared := CountShared(x, y);
    assert |x + y| == |x| + |y| - |x * y|;
    return 10 * shared >= 6 * (|x| + |y| - shared);
  }

  method CountShared(x: set<string>, y: set<string>) returns (shared: nat)
    ensures shared == |x * y|
  {
    shared := 0;
    var todo := x;
    ghost var done: set<string> := {};
    while todo != {}
      invariant todo <= x && done == (x - todo) * y && shared == |done|
      decreases todo
    {
      var word :| word in todo;
      todo := todo - {word};
      if word in y {
        done := done + {word};
        shared := shared + 1;
      }
    }
    assert done == x * y;
  }

  // ---- merging ------------------------------------------------------------------------------

  function Rank(s: Severity): nat {
    match s
    case INFO => 0
    case LOW => 1
    case MEDIUM => 2
    case HIGH => 3
    case CRITICAL => 4
  }

  function Strongest(a: Severity, b: Severity): Severity {
    if Rank(a) >= Rank(b) then a else b
  }

  function SourceRank(s: Option<Source>): nat {
    match s
    case None => 0
    case Some(SECRETS) => 5
    case Some(DEPENDENCIES) => 4
    case Some(SAST) => 3
    case Some(RULES) => 2
    case Some(LLM) => 1
  }

  function StrongerSource(a: Option<Source>, b: Option<Source>): Option<Source> {
    if SourceRank(a) >= SourceRank(b) && a.Some? then a
    else if SourceRank(b) > SourceRank(a) && b.Some? then b
    else None
  }

  /** Every detector a finding speaks for. */
  function SourcesOf(f: Finding): set<Source> {
    if f.sources.Some? then f.sources.value else {if f.source.Some? then f.source.value else LLM}
  }

  function RuleKeysOf(f: Finding): set<string> {
    (if f.ruleKeys.Some? then f.ruleKeys.value else {}) + (if f.ruleKey.Some? then {f.ruleKey.value} else {})
  }

  /** The earlier of two real lines; otherwise whichever is not 0, the first one first. */
  function MergedLine(a: int, b: int): int {
    if a > 0 && b > 0 then Min(a, b) else if a != 0 then a else b
  }

  function Longer(a: string, b: string): string {
    if |a| >= |b| then a else b
  }

  function Merge(a: Finding, b: Finding): Finding {
    Finding(
      a.path,
      MergedLine(a.line, b.line),
      a.category,
      Longer(a.issue, b.issue),
      Longer(a.suggestion, b.suggestion),
      Strongest(a.priority, b.priority),
      if a.anchor.Some? then a.anchor else b.anchor,
      StrongerSource(a.source, b.source),
      Some(SourcesOf(a) + SourcesOf(b)),
      Some(RuleKeysOf(a) + RuleKeysOf(b)),
      None)
  }

  /** Verified citations only merge on the same file and line, and never with a different citation. */
  predicate SameAnchor(k: Finding, f: Finding) {
    (k.anchor.None? && f.anchor.None?) ||
    (k.path == f.path && k.line == f.line && (k.anchor.None? || f.anchor.None? || k.anchor == f.anchor))
  }

  predicate Near(k: Finding, f: Finding) {
    SameAnchor(k, f) && SamePlace(k, f) && -NEARBY_LINE_WINDOW <= k.line - f.line <= NEARBY_LINE_WINDOW
  }

  // ---- lines of a class ------------------------------------------------------------------------

  function FoldLines(lines: seq<int>): int {
    if lines == [] then 0 else MergedLine(FoldLines(lines[..|lines| - 1]), lines[|lines| - 1])
  }

  /** The smallest positive line, or 0 when there is none. */
  predicate IsLeastPositive(lines: seq<int>, n: int) {
    && n >= 0 && (n > 0 ==> n in lines)
    && forall i :: 0 <= i < |lines| && lines[i] > 0 ==> 0 < n <= lines[i]
  }

  function FirstNonZero(lines: seq<int>): int {
    if lines == [] then 0
    else
      var earlier := FirstNonZero(lines[..|lines| - 1]);
      if earlier != 0 then earlier else lines[|lines| - 1]
  }

  lemma {:induction false} FoldSign(lines: seq<int>)
    ensures FoldLines(lines) < 0 <==> FirstNonZero(lines) < 0
    ensures FoldLines(lines) == 0 <==> FirstNonZero(lines) == 0
    ensures FirstNonZero(lines) >= 0 ==> IsLeastPositive(lines, FoldLines(lines))
    decreases |lines|
  {
    if lines != [] {
      var n := |lines| - 1;
      FoldSign(lines[..n]);
      assert lines == lines[..n] + [lines[n]];
      assert forall l :: l in lines[..n] ==> l in lines;
      if FirstNonZero(lines) >= 0 {
        forall i | 0 <= i < |lines| && lines[i] > 0
          ensures 0 < FoldLines(lines) <= lines[i]
        {
          if i < n {
            assert lines[..n][i] == lines[i];
          }
        }
      }
    }
  }

  /** Merging keeps the smallest positive line of a class exactly when its first real line is not negative. */
  lemma LineExactly(lines: seq<int>)
    ensures IsLeastPositive(lines, FoldLines(lines)) <==> FirstNonZero(lines) >= 0
  {
    FoldSign(lines);
  }

  // ---- the guarantee ---------------------------------------------------------------------------

  /** The lines of the findings represented by survivor k, in input order. */
  function ClassLines(findings: seq<Finding>, rep: seq<nat>, k: nat): seq<int>
    requires |rep| == |findings|
  {
    if findings == [] then []
    else
      var n := |findings| - 1;
      ClassLines(findings[..n], rep[..n], k) + if rep[n] == k then [findings[n].line] else []
  }

  /** What a survivor preserves of a finding it represents. */
  predicate Represents(k: Finding, f: Finding) {
    && SamePlace(k, f)
    && (f.priority == CRITICAL ==> k.priority == CRITICAL)
    && (f.priority == HIGH ==> k.priority in {HIGH, CRITICAL})
    && (f.priority == MEDIUM ==> k.priority in {MEDIUM, HIGH, CRITICAL})
    && (f.priority == LOW ==> k.priority in {LOW, MEDIUM, HIGH, CRITICAL})
    && (f.source == Some(SECRETS) ==> k.source == Some(SECRETS))
    && (f.source == Some(DEPENDENCIES) ==> k.source in {Some(SECRETS), Some(DEPENDENCIES)})
    && (f.source == Some(SAST) ==> k.source in {Some(SECRETS), Some(DEPENDENCIES), Some(SAST)})
    && (f.source == Some(RULES) ==> k.source in {Some(SECRETS), Some(DEPENDENCIES), Some(SAST), Some(RULES)})
    && (f.source == Some(LLM) ==> k.source != None)
    && SourcesOf(f) <= SourcesOf(k) && RuleKeysOf(f) <= RuleKeysOf(k)
    && (f.sources.Some? ==> k.sources.Some? && f.sources.value <= k.sources.value)
    && (f.sources.None? ==>
          if k.sources.Some? then (if f.source.Some? then f.source.value else LLM) in k.sources.value else k.source == f.source)
    && (f.ruleKeys.Some? ==> k.ruleKeys.Some? && f.ruleKeys.value <= k.ruleKeys.value)
    && (f.ruleKey.Some? ==> (k.ruleKeys.Some? && f.ruleKey.value in k.ruleKeys.value) || k.ruleKey == f.ruleKey)
    && |k.issue| >= |f.issue| && |k.suggestion| >= |f.suggestion|
    && (f.anchor.Some? ==> k.anchor == f.anchor && k.line == f.line && k.path == f.path)
  }

  /** Every finding is represented by one survivor that speaks for it. */
  ghost predicate Spoken(findings: seq<Finding>, kept: seq<Finding>, rep: seq<nat>) {
    |rep| == |findings| &&
    forall i :: 0 <= i < |rep| ==> rep[i] < |kept| && Represents(kept[rep[i]], findings[i])
  }

  /** The findings represented by survivor k. */
  function Members(findings: seq<Finding>, rep: seq<nat>, k: nat): set<Finding>
    requires |rep| == |findings|
  {
    set i | 0 <= i < |findings| && rep[i] == k :: findings[i]
  }

  /** Nothing in a survivor is made up: each part of it was said by a member of its class. */
  ghost predicate DrawnFrom(k: Finding, members: set<Finding>) {
    && (exists m :: m in members && m.priority == k.priority)
    && (exists m :: m in members && m.issue == k.issue)
    && (exists m :: m in members && m.suggestion == k.suggestion)
    && (k.source == None || exists m :: m in members && m.source == k.source)
    && (forall s :: s in SourcesOf(k) ==> exists m :: m in members && s in SourcesOf(m))
    && (forall r :: r in RuleKeysOf(k) ==> exists m :: m in members && r in RuleKeysOf(m))
    && (k.anchor.Some? ==> exists m :: m in members && m.anchor == k.anchor)
  }

  ghost predicate Drawn(findings: seq<Finding>, kept: seq<Finding>, rep: seq<nat>) {
    |rep| == |findings| && forall k :: 0 <= k < |kept| ==> DrawnFrom(kept[k], Members(findings, rep, k))
  }

  lemma DrawnFromMore(k: Finding, members: set<Finding>, f: Finding)
    requires DrawnFrom(k, members)
    ensures DrawnFrom(Merge(k, f), members + {f})
  {
    var all := members + {f};
    assert f in all;
    assert forall m :: m in members ==> m in all;
    var p :| p in members && p.priority == k.priority;
    var i :| i in members && i.issue == k.issue;
    var g :| g in members && g.suggestion == k.suggestion;
    assert p in all && i in all && g in all;
    if k.source != None {
      var o :| o in members && o.source == k.source;
      assert o in all;
    }
    if k.anchor.Some? {
      var a :| a in members && a.anchor == k.anchor;
      assert a in all;
    }
    forall s | s in SourcesOf(Merge(k, f))
      ensures exists m :: m in all && s in SourcesOf(m)
    {
      if s !in SourcesOf(f) {
        var m :| m in members && s in SourcesOf(m);
        assert m in all;
      }
    }
    forall r | r in RuleKeysOf(Merge(k, f))
      ensures exists m :: m in all && r in RuleKeysOf(m)
    {
      if r !in RuleKeysOf(f) {
        var m :| m in members && r in RuleKeysOf(m);
        assert m in all;
      }
    }
  }

  lemma AddedMember(findings: seq<Finding>, rep: seq<nat>, f: Finding, k: nat, j: nat)
    requires |rep| == |findings|
    ensures Members(findings + [f], rep + [k], j) == Members(findings, rep, j) + if k == j then {f} else {}
  {
    var all, reps := findings + [f], rep + [k];
    forall m | m in Members(findings, rep, j)
      ensures m in Members(all, reps, j)
    {
      var i :| 0 <= i < |findings| && rep[i] == j && findings[i] == m;
      assert all[i] == m && reps[i] == j;
    }
    if k == j {
      assert all[|findings|] == f && reps[|findings|] == j;
    }
  }

  lemma FoldDrawn(findings: seq<Finding>, kept: seq<Finding>, rep: seq<nat>, f: Finding, k: nat)
    requires Drawn(findings, kept, rep) && k < |kept|
    ensures Drawn(findings + [f], kept[k := Merge(kept[k], f)], rep + [k])
  {
    forall j | 0 <= j < |kept|
      ensures DrawnFrom(kept[k := Merge(kept[k], f)][j], Members(findings + [f], rep + [k], j))
    {
      AddedMember(findings, rep, f, k, j);
      if j == k {
        DrawnFromMore(kept[k], Members(findings, rep, k), f);
      } else {
        assert Members(findings + [f], rep + [k], j) == Members(findings, rep, j);
      }
    }
  }

  lemma StartDrawn(findings: seq<Finding>, kept: seq<Finding>, rep: seq<nat>, f: Finding)
    requires Drawn(findings, kept, rep) && Spoken(findings, kept, rep)
    ensures Drawn(findings + [f], kept + [f], rep + [|kept|])
  {
    forall j | 0 <= j <= |kept|
      ensures DrawnFrom((kept + [f])[j], Members(findings + [f], rep + [|kept|], j))
    {
      AddedMember(findings, rep, f, |kept|, j);
      if j == |kept| {
        assert f in Members(findings + [f], rep + [|kept|], j);
      } else {
        assert Members(findings + [f], rep + [|kept|], j) == Members(findings, rep, j);
      }
    }
  }

  /** Every class is led by its first member, and survivors stand in the order of their leaders. */
  ghost predicate Led(findings: seq<Finding>, kept: seq<Finding>, rep: seq<nat>, first: seq<nat>) {
    && |rep| == |findings| && |first| == |kept|
    && (forall k :: 0 <= k < |kept| ==>
          first[k] < |findings| && rep[first[k]] == k &&
          kept[k].path == findings[first[k]].path && kept[k].category == findings[first[k]].category)
    && (forall i :: 0 <= i < |rep| ==> rep[i] < |first| && first[rep[i]] <= i)
    && (forall k, l :: 0 <= k < l < |kept| ==> first[k] < first[l])
  }

  ghost predicate LinesFolded(findings: seq<Finding>, kept: seq<Finding>, rep: seq<nat>) {
    |rep| == |findings| && forall k :: 0 <= k < |kept| ==> kept[k].line == FoldLines(ClassLines(findings, rep, k))
  }

  ghost predicate Partition(findings: seq<Finding>, kept: seq<Finding>, rep: seq<nat>, first: seq<nat>) {
    Spoken(findings, kept, rep) && Drawn(findings, kept, rep) && Led(findings, kept, rep, first) &&
    LinesFolded(findings, kept, rep)
  }

  lemma MergeRepresents(k: Finding, f: Finding)
    requires SamePlace(k, f) && SameAnchor(k, f)
    ensures Represents(Merge(k, f), f)
    ensures forall g :: Represents(k, g) ==> Represents(Merge(k, f), g)
  {
  }

  lemma {:induction false} FoldSpoken(findings: seq<Finding>, kept: seq<Finding>, rep: seq<nat>, f: Finding, k: nat)
    requires Spoken(findings, kept, rep) && k < |kept| && SamePlace(kept[k], f) && SameAnchor(kept[k], f)
    ensures Spoken(findings + [f], kept[k := Merge(kept[k], f)], rep + [k])
  {
    MergeRepresents(kept[k], f);
    forall i | 0 <= i < |rep|
      ensures Represents(kept[k := Merge(kept[k], f)][rep[i]], findings[i])
    {
      assert Represents(kept[rep[i]], findings[i]);
    }
  }

  lemma AddedLine(findings: seq<Finding>, rep: seq<nat>, f: Finding, k: nat, j: nat)
    requires |rep| == |findings|
    ensures ClassLines(findings + [f], rep + [k], j) == ClassLines(findings, rep, j) + if k == j then [f.line] else []
  {
  }

  lemma FoldLast(lines: seq<int>, last: int)
    ensures FoldLines(lines + [last]) == MergedLine(FoldLines(lines), last)
  {
  }

  lemma FoldClassLines(findings: seq<Finding>, kept: seq<Finding>, rep: seq<nat>, f: Finding, k: nat, merged: Finding)
    requires LinesFolded(findings, kept, rep) && k < |kept| && merged.line == MergedLine(kept[k].line, f.line)
    ensures LinesFolded(findings + [f], kept[k := merged], rep + [k])
  {
    forall j | 0 <= j < |kept|
      ensures kept[k := merged][j].line == FoldLines(ClassLines(findings + [f], rep + [k], j))
    {
      AddedLine(findings, rep, f, k, j);
      if j == k {
        FoldLast(ClassLines(findings, rep, k), f.line);
      } else {
        assert ClassLines(findings, rep, j) + [] == ClassLines(findings, rep, j);
      }
    }
  }

  /** Folding the next finding into survivor k keeps the partition. */
  lemma Fold(findings: seq<Finding>, kept: seq<Finding>, rep: seq<nat>, first: seq<nat>, f: Finding, k: nat)
    requires Partition(findings, kept, rep, first) && k < |kept|
    requires SamePlace(kept[k], f) && SameAnchor(kept[k], f)
    ensures Partition(findings + [f], kept[k := Merge(kept[k], f)], rep + [k], first)
  {
    FoldSpoken(findings, kept, rep, f, k);
    FoldDrawn(findings, kept, rep, f, k);
    FoldClassLines(findings, kept, rep, f, k, Merge(kept[k], f));
    FoldLed(findings, kept, rep, first, f, k);
  }

  lemma FoldLed(findings: seq<Finding>, kept: seq<Finding>, rep: seq<nat>, first: seq<nat>, f: Finding, k: nat)
    requires Led(findings, kept, rep, first) && k < |kept|
    ensures Led(findings + [f], kept[k := Merge(kept[k], f)], rep + [k], first)
  {
  }

  /** A finding that resembles nothing starts a class of its own. */
  lemma Start(findings: seq<Finding>, kept: seq<Finding>, rep: seq<nat>, first: seq<nat>, f: Finding)
    requires Partition(findings, kept, rep, first)
    ensures Partition(findings + [f], kept + [f], rep + [|kept|], first + [|findings|])
  {
    StartSpoken(findings, kept, rep, f);
    StartDrawn(findings, kept, rep, f);
    StartLines(findings, kept, rep, f);
    StartLed(findings, kept, rep, first, f);
  }

  lemma StartSpoken(findings: seq<Finding>, kept: seq<Finding>, rep: seq<nat>, f: Finding)
    requires Spoken(findings, kept, rep)
    ensures Spoken(findings + [f], kept + [f], rep + [|kept|])
  {
  }

  lemma StartLed(findings: seq<Finding>, kept: seq<Finding>, rep: seq<nat>, first: seq<nat>, f: Finding)
    requires Led(findings, kept, rep, first)
    ensures Led(findings + [f], kept + [f], rep + [|kept|], first + [|findings|])
  {
  }

  lemma StartLines(findings: seq<Finding>, kept: seq<Finding>, rep: seq<nat>, f: Finding)
    requires LinesFolded(findings, kept, rep) && Spoken(findings, kept, rep)
    ensures LinesFolded(findings + [f], kept + [f], rep + [|kept|])
  {
    forall j | 0 <= j <= |kept|
      ensures (kept + [f])[j].line == FoldLines(ClassLines(findings + [f], rep + [|kept|], j))
    {
      AddedLine(findings, rep, f, |kept|, j);
      if j == |kept| {
        NoLines(findings, rep, j);
        FoldLast([], f.line);
      } else {
        assert ClassLines(findings, rep, j) + [] == ClassLines(findings, rep, j);
      }
    }
  }

  lemma {:induction false} NoLines(findings: seq<Finding>, rep: seq<nat>, k: nat)
    requires |rep| == |findings| && forall i :: 0 <= i < |rep| ==> rep[i] != k
    ensures ClassLines(findings, rep, k) == []
    decreases |findings|
  {
    if findings != [] {
      NoLines(findings[..|findings| - 1], rep[..|findings| - 1], k);
    }
  }

  // ---- deduplicate --------------------------------------------------------------------------------

  /** Every loose key leads to a survivor of the place it names. */
  ghost predicate Indexed(byLooseKey: map<string, nat>, kept: seq<Finding>) {
    forall key :: key in byLooseKey ==> byLooseKey[key] < |kept| && Place(kept[byLooseKey[key]]) <= key
  }

  // Which survivor takes a finding in.

  predicate Exact(lexer: Lexer, k: Finding, f: Finding) {
    ExactKey(lexer, k) == ExactKey(lexer, f) && SameAnchor(k, f)
  }

  /** The first of n survivors that is an exact repeat. */
  ghost function FirstExact(lexer: Lexer, kept: seq<Finding>, f: Finding, n: nat): (at: Option<nat>)
    requires n <= |kept|
    ensures at.Some? ==> at.value < n
  {
    if n == 0 then None
    else
      var earlier := FirstExact(lexer, kept, f, n - 1);
      if earlier.Some? then earlier else if Exact(lexer, kept[n - 1], f) then Some(n - 1) else None
  }

  lemma {:induction false} FirstExactIs(lexer: Lexer, kept: seq<Finding>, f: Finding, n: nat)
    requires n <= |kept|
    ensures var at := FirstExact(lexer, kept, f, n);
            && (at.Some? ==> Exact(lexer, kept[at.value], f) && forall k :: 0 <= k < at.value ==> !Exact(lexer, kept[k], f))
            && (at.None? ==> forall k :: 0 <= k < n ==> !Exact(lexer, kept[k], f))
  {
    hide Exact;
    if n > 0 {
      FirstExactIs(lexer, kept, f, n - 1);
    }
  }

  /** The first of n survivors of the same place within the line window. */
  ghost function FirstNear(kept: seq<Finding>, f: Finding, n: nat): (at: Option<nat>)
    requires n <= |kept|
    ensures at.Some? ==> at.value < n && Near(kept[at.value], f) && forall k :: 0 <= k < at.value ==> !Near(kept[k], f)
    ensures at.None? ==> forall k :: 0 <= k < n ==> !Near(kept[k], f)
  {
    if n == 0 then None
    else
      var earlier := FirstNear(kept, f, n - 1);
      if earlier.Some? then earlier else if Near(kept[n - 1], f) then Some(n - 1) else None
  }

  /**
   * The survivor a finding is merged into: an exact repeat, else the survivor its loose key
   * leads to, else the first one close by if that says much the same.
   */
  ghost function HomeOf(lexer: Lexer, kept: seq<Finding>, byLooseKey: map<string, nat>, f: Finding): (at: Option<nat>)
    requires Indexed(byLooseKey, kept)
    ensures at.Some? ==> at.value < |kept|
  {
    var loose, exact, near := LooseKey(lexer, f), FirstExact(lexer, kept, f, |kept|), FirstNear(kept, f, |kept|);
    if exact.Some? then exact
    else if loose in byLooseKey && SameAnchor(kept[byLooseKey[loose]], f) then Some(byLooseKey[loose])
    else if near.Some? && Similar(lexer, kept[near.value].issue, f.issue) then near
    else None
  }

  ghost function Taken(lexer: Lexer, kept: seq<Finding>, byLooseKey: map<string, nat>, f: Finding)
      : (seq<Finding>, map<string, nat>)
    requires Indexed(byLooseKey, kept)
  {
    match HomeOf(lexer, kept, byLooseKey, f)
    case Some(k) => (kept[k := Merge(kept[k], f)], byLooseKey)
    case None => (kept + [f], byLooseKey[LooseKey(lexer, f) := |kept|])
  }

  lemma TakenIndexed(lexer: Lexer, kept: seq<Finding>, byLooseKey: map<string, nat>, f: Finding)
    requires Indexed(byLooseKey, kept)
    ensures var r := Taken(lexer, kept, byLooseKey, f); Indexed(r.1, r.0)
  {
  }

  /** The survivors, and the loose keys that lead to them. */
  ghost function Survivors(lexer: Lexer, findings: seq<Finding>): (r: (seq<Finding>, map<string, nat>))
    ensures Indexed(r.1, r.0)
  {
    if findings == [] then ([], map[])
    else
      var (kept, byLooseKey) := Survivors(lexer, findings[..|findings| - 1]);
      TakenIndexed(lexer, kept, byLooseKey, findings[|findings| - 1]);
      Taken(lexer, kept, byLooseKey, findings[|findings| - 1])
  }

  ghost function Deduplicated(lexer: Lexer, findings: seq<Finding>): seq<Finding> {
    if |findings| < 2 then findings else Survivors(lexer, findings).0
  }

  // The code's own loops.

  method FindExact(lexer: Lexer, kept: seq<Finding>, f: Finding) returns (at: Option<nat>)
    ensures at == FirstExact(lexer, kept, f, |kept|)
  {
    hide ExactKey;
    hide SameAnchor;
    FirstExactIs(lexer, kept, f, |kept|);
    for i := 0 to |kept|
      invariant forall k :: 0 <= k < i ==> !Exact(lexer, kept[k], f)
    {
      if ExactKey(lexer, kept[i]) == ExactKey(lexer, f) && SameAnchor(kept[i], f) {
        assert Exact(lexer, kept[i], f);
        return Some(i);
      }
    }
    return None;
  }

  method FindNear(kept: seq<Finding>, f: Finding) returns (at: Option<nat>)
    ensures at == FirstNear(kept, f, |kept|)
  {
    hide Near;
    for i := 0 to |kept|
      invariant forall k :: 0 <= k < i ==> !Near(kept[k], f)
    {
      if Near(kept[i], f) {
        return Some(i);
      }
    }
    return None;
  }

  method FindHome(lexer: Lexer, kept: seq<Finding>, byLooseKey: map<string, nat>, f: Finding) returns (at: Option<nat>)
    requires Indexed(byLooseKey, kept)
    ensures at == HomeOf(lexer, kept, byLooseKey, f)
  {
    hide LooseKey;
    hide SameAnchor;
    hide FirstExact;
    hide FirstNear;
    hide Similar;
    at := FindExact(lexer, kept, f);
    if at.Some? {
      return;
    }
    var loose := LooseKey(lexer, f);
    if loose in byLooseKey && SameAnchor(kept[byLooseKey[loose]], f) {
      return Some(byLooseKey[loose]);
    }
    var near := FindNear(kept, f);
    if near.Some? {
      var similar := Resembles(lexer, kept[near.value].issue, f.issue);
      if similar {
        return near;
      }
    }
    return None;
  }

  /** A finding is only ever merged into a survivor of its own place, with no conflicting anchor. */
  lemma HomeIsAkin(lexer: Lexer, kept: seq<Finding>, byLooseKey: map<string, nat>, f: Finding)
    requires Indexed(byLooseKey, kept)
    ensures var at := HomeOf(lexer, kept, byLooseKey, f);
            at.Some? ==> SamePlace(kept[at.value], f) && SameAnchor(kept[at.value], f)
  {
    hide SamePlace;
    hide SameAnchor;
    var exact, loose := FirstExact(lexer, kept, f, |kept|), LooseKey(lexer, f);
    FirstExactIs(lexer, kept, f, |kept|);
    if exact.Some? {
      PlaceUnambiguous(ExactKey(lexer, f), kept[exact.value], f);
    } else if loose in byLooseKey {
      PlaceUnambiguous(loose, kept[byLooseKey[loose]], f);
    }
  }

  /** Two reports of one file and category at most three lines apart, with no conflicting citation. */
  ghost predicate CloseBy(k: Finding, f: Finding) {
    SameAnchor(k, f) && NormalizePath(k.path) == NormalizePath(f.path) && k.category == f.category && -3 <= k.line - f.line <= 3
  }

  /** They share at least six words in ten. */
  ghost predicate SaysMuchTheSame(lexer: Lexer, k: Finding, f: Finding) {
    var x, y := lexer.words(k.issue), lexer.words(f.issue);
    x != {} && y != {} && 10 * |x * y| >= 6 * |x + y|
  }

  /** Merged as the same report, under the same loose key, or as the first close one if that says much the same. */
  lemma WhyMerged(lexer: Lexer, kept: seq<Finding>, byLooseKey: map<string, nat>, f: Finding, k: nat)
    requires Indexed(byLooseKey, kept) && k < |kept|
    ensures HomeOf(lexer, kept, byLooseKey, f) == Some(k) ==>
              || (ExactKey(lexer, kept[k]) == ExactKey(lexer, f) && SameAnchor(kept[k], f))
              || (LooseKey(lexer, f) in byLooseKey && byLooseKey[LooseKey(lexer, f)] == k && SameAnchor(kept[k], f))
              || (CloseBy(kept[k], f) && SaysMuchTheSame(lexer, kept[k], f))
    ensures HomeOf(lexer, kept, byLooseKey, f) == None ==>
              && !(ExactKey(lexer, kept[k]) == ExactKey(lexer, f) && SameAnchor(kept[k], f))
              && !(LooseKey(lexer, f) in byLooseKey && byLooseKey[LooseKey(lexer, f)] == k && SameAnchor(kept[k], f))
              && !(CloseBy(kept[k], f) && (forall j :: 0 <= j < k ==> !CloseBy(kept[j], f)) && SaysMuchTheSame(lexer, kept[k], f))
  {
    hide ExactKey;
    hide LooseKey;
    hide SameAnchor;
    hide NormalizePath;
    FirstExactIs(lexer, kept, f, |kept|);
    assert forall j :: 0 <= j < |kept| ==> (Near(kept[j], f) <==> CloseBy(kept[j], f));
  }

  /** One turn of the loop: merge the finding into its home, or keep it. */
  method TakeIn(lexer: Lexer, kept: seq<Finding>, byLooseKey: map<string, nat>, f: Finding,
                ghost done: seq<Finding>, ghost rep: seq<nat>, ghost first: seq<nat>)
      returns (kept': seq<Finding>, byLooseKey': map<string, nat>, ghost rep': seq<nat>, ghost first': seq<nat>)
    requires Partition(done, kept, rep, first) && Indexed(byLooseKey, kept)
    ensures Partition(done + [f], kept', rep', first')
    ensures (kept', byLooseKey') == Taken(lexer, kept, byLooseKey, f)
  {
    hide HomeOf;
    hide Partition;
    hide Indexed;
    hide LooseKey;
    var home := FindHome(lexer, kept, byLooseKey, f);
    if home.Some? {
      HomeIsAkin(lexer, kept, byLooseKey, f);
      Fold(done, kept, rep, first, f, home.value);
      kept', byLooseKey' := kept[home.value := Merge(kept[home.value], f)], byLooseKey;
      rep', first' := rep + [home.value], first;
    } else {
      Start(done, kept, rep, first, f);
      kept', byLooseKey' := kept + [f], byLooseKey[LooseKey(lexer, f) := |kept|];
      rep', first' := rep + [|kept|], first + [|done|];
    }
  }

  /** The survivors partition the findings, and each keeps all its class had to say. */
  method Deduplicate(lexer: Lexer, findings: seq<Finding>) returns (kept: seq<Finding>, ghost rep: seq<nat>, ghost first: seq<nat>)
    ensures kept == Deduplicated(lexer, findings)
    ensures Partition(findings, kept, rep, first)
  {
    hide Partition;
    if |findings| < 2 {
      kept := findings;
      rep, first := OneClassEach(findings);
      return;
    }
    kept, rep, first := DeduplicateMany(lexer, findings);
  }

  method DeduplicateMany(lexer: Lexer, findings: seq<Finding>) returns (kept: seq<Finding>, ghost rep: seq<nat>, ghost first: seq<nat>)
    ensures kept == Survivors(lexer, findings).0
    ensures Partition(findings, kept, rep, first)
  {
    hide Partition;
    hide Taken;
    hide Indexed;
    kept, rep, first := [], [], [];
    var byLooseKey: map<string, nat> := map[];
    NoFindings();
    ghost var done: seq<Finding> := [];
    for i := 0 to |findings|
      invariant done == findings[..i] && (kept, byLooseKey) == Survivors(lexer, done)
      invariant Partition(done, kept, rep, first)
    {
      TakeOneMore(findings, i);
      kept, byLooseKey, rep, first := TakeIn(lexer, kept, byLooseKey, findings[i], done, rep, first);
      assert findings[..i + 1][..i] == done;
      done := findings[..i + 1];
    }
    TakeAll(findings);
  }

  lemma TakeOneMore<T>(s: seq<T>, i: nat)
    requires i < |s|
    ensures s[..i + 1] == s[..i] + [s[i]]
  {
  }

  lemma TakeAll<T>(s: seq<T>)
    ensures s[..|s|] == s
  {
  }

  lemma NoFindings()
    ensures Partition([], [], [], [])
  {
  }

  lemma OneClassEach(findings: seq<Finding>) returns (rep: seq<nat>, first: seq<nat>)
    requires |findings| < 2
    ensures Partition(findings, findings, rep, first)
  {
    hide Partition;
    rep, first := [], [];
    NoFindings();
    if |findings| == 1 {
      Start([], [], [], [], findings[0]);
      rep, first := [0], [0];
      assert [] + [findings[0]] == findings && [] + [0] == rep;
    }
  }

  lemma {:induction false} RealClassLines(findings: seq<Finding>, rep: seq<nat>, k: nat)
    requires |rep| == |findings| && forall i :: 0 <= i < |findings| ==> findings[i].line >= 0
    ensures FirstNonZero(ClassLines(findings, rep, k)) >= 0
    decreases |findings|
  {
    if findings != [] {
      var n := |findings| - 1;
      RealClassLines(findings[..n], rep[..n], k);
      var earlier := ClassLines(findings[..n], rep[..n], k);
      assert (earlier + [findings[n].line])[..|earlier|] == earlier;
      assert earlier + [] == earlier;
    }
  }

  /** With the line numbers the normalizer lets through, every survivor stands on the smallest positive line of its class. */
  lemma SurvivorLine(findings: seq<Finding>, kept: seq<Finding>, rep: seq<nat>, first: seq<nat>, k: nat)
    requires Partition(findings, kept, rep, first) && k < |kept|
    requires forall i :: 0 <= i < |findings| ==> findings[i].line >= 0
    ensures IsLeastPositive(ClassLines(findings, rep, k), kept[k].line)
  {
    RealClassLines(findings, rep, k);
    LineExactly(ClassLines(findings, rep, k));
  }

  /** A negative line hides a later positive one of the same report: the survivor stands on it. */
  lemma NegativeLineSticks(lexer: Lexer, x: Finding, y: Finding)
    requires LooseKey(lexer, x) == LooseKey(lexer, y) && x.anchor.None? && y.anchor.None? && x.line < 0 < y.line
    ensures var kept := Deduplicated(lexer, [x, y]);
            |kept| == 1 && kept[0].line == x.line && !IsLeastPositive([x.line, y.line], kept[0].line)
  {
    hide LooseKey;
    hide Exact;
    hide Similar;
    assert [x, y][..1] == [x] && [x][..0] == [];
    var none: map<string, nat> := map[];
    var byLooseKey := none[LooseKey(lexer, x) := 0];
    assert Survivors(lexer, []) == ([], none);
    assert HomeOf(lexer, [], none, x) == None by {
      assert FirstExact(lexer, [], x, 0) == None && FirstNear([], x, 0) == None;
    }
    assert Taken(lexer, [], none, x).0 == [x] && Taken(lexer, [], none, x).1 == byLooseKey;
    assert Survivors(lexer, [x]) == Taken(lexer, Survivors(lexer, []).0, Survivors(lexer, []).1, x) by {
      assert [x][..0] == [] && [x][|[x]| - 1] == x;
    }
    assert HomeOf(lexer, [x], byLooseKey, y) == Some(0);
    assert Survivors(lexer, [x, y]) == Taken(lexer, [x], byLooseKey, y);
    assert Survivors(lexer, [x, y]).0 == [Merge(x, y)];
  }
}
