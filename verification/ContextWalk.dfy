/**
 * Selecting context files (services/context-retrieval.service.ts): the import graph in both
 * directions and the breadth-first walk from the changed files.
 */
module ContextWalk {
  import opened Basics
  import opened Text

  /** The repository as the walk sees it; reading and resolving imports are functions of it. */
  datatype Repo = Repo(allPaths: seq<string>, readable: string -> bool, specifiers: string -> seq<string>,
                       resolve: (string, string) -> Option<string>)

  /** Lists under names, as the two edge maps are; a name without a list has none. */
  type Lists = map<string, seq<string>>

  function ListAt(lists: Lists, name: string): seq<string> {
    if name in lists then lists[name] else []
  }

  /** a's import of this specifier is an edge to b. */
  predicate ResolvesTo(r: Repo, a: string, specifier: string, b: string) {
    r.resolve(specifier, a) == Some(b) && b != "" && b != a
  }

  predicate Imports(r: Repo, a: string, b: string) {
    a in r.allPaths && r.readable(a) && ImportsAmong(r, a, r.specifiers(a), b)
  }

  predicate ImportsAmong(r: Repo, a: string, specifiers: seq<string>, b: string) {
    exists s :: s in specifiers && ResolvesTo(r, a, s, b)
  }

  predicate NoRepeats(list: seq<string>) {
    forall i, j :: 0 <= i < j < |list| ==> list[i] != list[j]
  }

  /** Set.add on a set kept in insertion order. */
  function Added(list: seq<string>, x: string): (r: seq<string>)
    ensures NoRepeats(list) ==> NoRepeats(r)
    ensures forall y :: y in r <==> y in list || y == x
  {
    if x in list then list else list + [x]
  }

  // ---- the edge maps -----------------------------------------------------------------------------

  method ImportsOf(r: Repo, path: string) returns (targets: seq<string>)
    ensures NoRepeats(targets)
    ensures forall b :: b in targets <==> ImportsAmong(r, path, r.specifiers(path), b)
  {
    targets := [];
    var specifiers := r.specifiers(path);
    for i := 0 to |specifiers|
      invariant NoRepeats(targets)
      invariant forall b :: b in targets <==> ImportsAmong(r, path, specifiers[..i], b)
    {
      var resolved := r.resolve(specifiers[i], path);
      assert specifiers[..i + 1] == specifiers[..i] + [specifiers[i]];
      if resolved.Some? && resolved.value != "" && resolved.value != path {
        assert ResolvesTo(r, path, specifiers[i], resolved.value);
        targets := Added(targets, resolved.value);
      }
    }
    assert specifiers[..|specifiers|] == specifiers;
  }

  /** a is entered as an importer of b in the reverse map. */
  predicate Entered(reverse: Lists, b: string, a: string) {
    a in ListAt(reverse, b)
  }

  lemma NoneRepeat()
    ensures NoRepeats([])
  {
  }

  predicate AllSets(lists: Lists) {
    forall k :: k in lists ==> NoRepeats(lists[k])
  }

  method EnterImporter(reverse0: Lists, targets: seq<string>, path: string) returns (reverse: Lists)
    requires AllSets(reverse0)
    ensures forall b, a :: Entered(reverse, b, a) <==> Entered(reverse0, b, a) || (a == path && b in targets)
    ensures AllSets(reverse)
  {
    hide NoRepeats;
    reverse := reverse0;
    for i := 0 to |targets|
      invariant forall b, a :: Entered(reverse, b, a) <==> Entered(reverse0, b, a) || (a == path && b in targets[..i])
      invariant AllSets(reverse)
    {
      assert targets[..i + 1] == targets[..i] + [targets[i]];
      NoneRepeat();
      reverse := reverse[targets[i] := Added(ListAt(reverse, targets[i]), path)];
    }
  }

  /** a is one of these files, and imports b. */
  predicate ImportsFrom(r: Repo, files: seq<string>, a: string, b: string) {
    a in files && Imports(r, a, b)
  }

  /** The two maps hold exactly the imports of these files, each seen from its own end. */
  ghost predicate GraphOf(r: Repo, files: seq<string>, forward: Lists, reverse: Lists) {
    && (forall a, b :: b in ListAt(forward, a) <==> ImportsFrom(r, files, a, b))
    && (forall a, b :: Entered(reverse, b, a) <==> ImportsFrom(r, files, a, b))
    && AllSets(forward) && AllSets(reverse)
  }

  method BuildGraph(r: Repo) returns (forward: Lists, reverse: Lists)
    ensures GraphOf(r, r.allPaths, forward, reverse)
  {
    forward, reverse := map[], map[];
    for i := 0 to |r.allPaths|
      invariant GraphOf(r, r.allPaths[..i], forward, reverse)
    {
      var path := r.allPaths[i];
      ghost var f0, r0 := forward, reverse;
      if r.readable(path) {
        var targets := ImportsOf(r, path);
        forward := forward[path := targets];
        reverse := EnterImporter(reverse, targets, path);
      }
      OneMoreFile(r, i, f0, r0, forward, reverse);
    }
    assert r.allPaths[..|r.allPaths|] == r.allPaths;
  }

  lemma OneMoreFile(r: Repo, i: nat, f0: Lists, r0: Lists, f1: Lists, r1: Lists)
    requires i < |r.allPaths| && GraphOf(r, r.allPaths[..i], f0, r0)
    requires var path := r.allPaths[i];
             if r.readable(path) then
               && path in f1 && f1 == f0[path := f1[path]] && NoRepeats(f1[path])
               && (forall b :: b in f1[path] <==> ImportsAmong(r, path, r.specifiers(path), b))
               && (forall b, a :: Entered(r1, b, a) <==> Entered(r0, b, a) || (a == path && b in f1[path]))
               && AllSets(r1)
             else f1 == f0 && r1 == r0
    ensures GraphOf(r, r.allPaths[..i + 1], f1, r1)
  {
    hide ImportsAmong;
    hide NoRepeats;
    hide Entered;
    var files, path := r.allPaths[..i], r.allPaths[i];
    assert r.allPaths[..i + 1] == files + [path];
    forall a, b
      ensures ImportsFrom(r, r.allPaths[..i + 1], a, b) <==> ImportsFrom(r, files, a, b) || (a == path && Imports(r, path, b))
    {
    }
    forall a, b
      ensures b in ListAt(f1, a) <==> ImportsFrom(r, r.allPaths[..i + 1], a, b)
    {
      assert b in ListAt(f0, a) <==> ImportsFrom(r, files, a, b);
    }
  }

  /** The reverse map is the transpose of the forward map. */
  lemma Transpose(r: Repo, files: seq<string>, forward: Lists, reverse: Lists, a: string, b: string)
    requires GraphOf(r, files, forward, reverse)
    ensures a in ListAt(reverse, b) <==> b in ListAt(forward, a)
  {
  }

  // ---- distance -----------------------------------------------------------------------------------

  function Neighbours(forward: Lists, reverse: Lists, u: string): seq<string> {
    ListAt(forward, u) + ListAt(reverse, u)
  }

  /** v can be reached from a changed file in exactly n hops. */
  ghost predicate Reach(changed: seq<string>, forward: Lists, reverse: Lists, v: string, n: nat)
    decreases n
  {
    if n == 0 then v in changed
    else exists u :: Reach(changed, forward, reverse, u, n - 1) && v in Neighbours(forward, reverse, u)
  }

  /** The distance of every file within maxHops, and no other file. */
  ghost predicate Shortest(changed: seq<string>, forward: Lists, reverse: Lists, maxHops: int, distance: map<string, nat>) {
    && (forall v :: v in distance ==> Reach(changed, forward, reverse, v, distance[v]) && distance[v] <= Max(maxHops, 0))
    && (forall v, n: nat :: n <= Max(maxHops, 0) && Reach(changed, forward, reverse, v, n) ==> v in distance && distance[v] <= n)
  }

  // ---- the walk -------------------------------------------------------------------------------------

  datatype Visit = Visit(path: string, hop: nat)

  function Universe(changed: seq<string>, forward: Lists, reverse: Lists): set<string> {
    (set v | v in changed) + (set k, v | k in forward && v in forward[k] :: v) +
    (set k, v | k in reverse && v in reverse[k] :: v)
  }

  predicate Queued(queue: seq<Visit>, u: string) {
    exists i :: 0 <= i < |queue| && queue[i].path == u
  }

  /** Hops in the queue never fall and span at most two levels, the first at least lo. */
  predicate Levels(queue: seq<Visit>, lo: nat) {
    && (forall i :: 0 <= i < |queue| ==> lo <= queue[i].hop <= lo + 1)
    && (forall i, j :: 0 <= i < j < |queue| ==> queue[i].hop <= queue[j].hop)
  }

  /** What the queue and the distances say of each other. */
  ghost predicate Consistent(changed: seq<string>, forward: Lists, reverse: Lists, maxHops: int,
                             queue: seq<Visit>, distance: map<string, nat>) {
    && (forall i :: 0 <= i < |queue| ==> queue[i].path in distance && distance[queue[i].path] == queue[i].hop)
    && (forall v :: v in distance ==> Reach(changed, forward, reverse, v, distance[v]) && distance[v] <= Max(maxHops, 0))
    && (forall v :: v in changed ==> v in distance && distance[v] == 0)
    && distance.Keys <= Universe(changed, forward, reverse)
  }

  /** u has passed its distance on to all of these neighbours. */
  predicate PassedOn(distance: map<string, nat>, neighbours: seq<string>, hop: nat) {
    forall v :: v in neighbours ==> v in distance && distance[v] <= hop + 1
  }

  /** A file that has left the queue has been expanded, unless it lies at the limit. */
  ghost predicate Expanded(forward: Lists, reverse: Lists, maxHops: int, queue: seq<Visit>, distance: map<string, nat>,
                           except: Option<string>) {
    forall u :: u in distance && distance[u] < maxHops && !Queued(queue, u) && Some(u) != except ==>
      PassedOn(distance, Neighbours(forward, reverse, u), distance[u])
  }

  predicate NoneFurther(distance: map<string, nat>, hop: nat) {
    forall v :: v in distance ==> distance[v] <= hop
  }

  /** No shorter way exists once every file has been expanded. */
  lemma {:induction false} NothingMissed(changed: seq<string>, forward: Lists, reverse: Lists, maxHops: int,
                                         distance: map<string, nat>, v: string, n: nat)
    requires Consistent(changed, forward, reverse, maxHops, [], distance)
    requires Expanded(forward, reverse, maxHops, [], distance, None)
    requires n <= Max(maxHops, 0) && Reach(changed, forward, reverse, v, n)
    ensures v in distance && distance[v] <= n
    decreases n
  {
    hide Universe;
    hide Neighbours;
    if n > 0 {
      var u :| Reach(changed, forward, reverse, u, n - 1) && v in Neighbours(forward, reverse, u);
      NothingMissed(changed, forward, reverse, maxHops, distance, u, n - 1);
      assert !Queued([], u);
      assert PassedOn(distance, Neighbours(forward, reverse, u), distance[u]);
    }
  }

  lemma InUniverse(changed: seq<string>, forward: Lists, reverse: Lists, u: string, v: string)
    requires v in Neighbours(forward, reverse, u)
    ensures v in Universe(changed, forward, reverse)
  {
  }

  // ---- one file taken off the queue -----------------------------------------------------------------

  /** While u is being expanded: its first k neighbours have a distance, and the rest stands as before. */
  ghost predicate Expanding(changed: seq<string>, forward: Lists, reverse: Lists, maxHops: int, u: Visit, k: nat,
                            queue: seq<Visit>, distance: map<string, nat>) {
    var neighbours := Neighbours(forward, reverse, u.path);
    && k <= |neighbours| && u.hop < maxHops
    && Consistent(changed, forward, reverse, maxHops, queue, distance)
    && Levels(queue, u.hop) && NoneFurther(distance, u.hop + 1)
    && u.path in distance && distance[u.path] == u.hop
    && Expanded(forward, reverse, maxHops, queue, distance, Some(u.path))
    && PassedOn(distance, neighbours[..k], u.hop)
  }

  lemma NextNeighbour(changed: seq<string>, forward: Lists, reverse: Lists, maxHops: int, u: Visit, k: nat,
                      queue: seq<Visit>, distance: map<string, nat>)
    requires Expanding(changed, forward, reverse, maxHops, u, k, queue, distance)
    requires k < |Neighbours(forward, reverse, u.path)|
    ensures var next := Neighbours(forward, reverse, u.path)[k];
            if next in distance then Expanding(changed, forward, reverse, maxHops, u, k + 1, queue, distance)
            else Expanding(changed, forward, reverse, maxHops, u, k + 1,
                           queue + [Visit(next, u.hop + 1)], distance[next := u.hop + 1])
  {
    hide Consistent;
    hide Expanded;
    hide Levels;
    hide Neighbours;
    hide Reach;
    var neighbours := Neighbours(forward, reverse, u.path);
    var next := neighbours[k];
    assert neighbours[..k + 1] == neighbours[..k] + [next];
    if next !in distance {
      NewNeighbour(changed, forward, reverse, maxHops, u, k, queue, distance);
    }
  }

  lemma NewNeighbour(changed: seq<string>, forward: Lists, reverse: Lists, maxHops: int, u: Visit, k: nat,
                     queue: seq<Visit>, distance: map<string, nat>)
    requires Expanding(changed, forward, reverse, maxHops, u, k, queue, distance)
    requires k < |Neighbours(forward, reverse, u.path)| && Neighbours(forward, reverse, u.path)[k] !in distance
    ensures var next := Neighbours(forward, reverse, u.path)[k];
            Expanding(changed, forward, reverse, maxHops, u, k + 1,
                      queue + [Visit(next, u.hop + 1)], distance[next := u.hop + 1])
  {
    hide Neighbours;
    hide Expanded;
    hide Levels;
    hide Consistent;
    var neighbours := Neighbours(forward, reverse, u.path);
    var next := neighbours[k];
    StillConsistent(changed, forward, reverse, maxHops, queue, distance, u, next);
    StillLevels(queue, u.hop, Visit(next, u.hop + 1));
    StillExpanded(forward, reverse, maxHops, queue, distance, u, next);
    assert neighbours[..k + 1] == neighbours[..k] + [next];
  }

  lemma StillLevels(queue: seq<Visit>, lo: nat, last: Visit)
    requires Levels(queue, lo) && last.hop == lo + 1
    ensures Levels(queue + [last], lo)
  {
  }

  lemma StillConsistent(changed: seq<string>, forward: Lists, reverse: Lists, maxHops: int,
                        queue: seq<Visit>, distance: map<string, nat>, u: Visit, next: string)
    requires Consistent(changed, forward, reverse, maxHops, queue, distance) && next !in distance
    requires u.path in distance && distance[u.path] == u.hop && u.hop < maxHops
    requires next in Neighbours(forward, reverse, u.path)
    ensures Consistent(changed, forward, reverse, maxHops,
                       queue + [Visit(next, u.hop + 1)], distance[next := u.hop + 1])
  {
    hide Neighbours;
    hide Universe;
    hide Reach;
    InUniverse(changed, forward, reverse, u.path, next);
    ReachNext(changed, forward, reverse, u, next);
    var queue' := queue + [Visit(next, u.hop + 1)];
    assert forall i :: 0 <= i < |queue| ==> queue'[i] == queue[i];
  }

  lemma ReachNext(changed: seq<string>, forward: Lists, reverse: Lists, u: Visit, next: string)
    requires Reach(changed, forward, reverse, u.path, u.hop) && next in Neighbours(forward, reverse, u.path)
    ensures Reach(changed, forward, reverse, next, u.hop + 1)
  {
  }

  /** A new file at the end of the queue leaves the expanded files expanded. */
  lemma StillExpanded(forward: Lists, reverse: Lists, maxHops: int, queue: seq<Visit>, distance: map<string, nat>,
                      u: Visit, next: string)
    requires Expanded(forward, reverse, maxHops, queue, distance, Some(u.path)) && next !in distance
    ensures Expanded(forward, reverse, maxHops, queue + [Visit(next, u.hop + 1)], distance[next := u.hop + 1], Some(u.path))
  {
    hide Neighbours;
    var queue', distance' := queue + [Visit(next, u.hop + 1)], distance[next := u.hop + 1];
    forall v
      ensures Queued(queue', v) <==> Queued(queue, v) || v == next
    {
      if Queued(queue, v) {
        var i :| 0 <= i < |queue| && queue[i].path == v;
        assert queue'[i].path == v;
      }
      assert queue'[|queue|].path == next;
    }
    forall v | v in distance' && distance'[v] < maxHops && !Queued(queue', v) && Some(v) != Some(u.path)
      ensures PassedOn(distance', Neighbours(forward, reverse, v), distance'[v])
    {
      assert PassedOn(distance, Neighbours(forward, reverse, v), distance[v]);
    }
  }

  /** Between two files: what the outer loop keeps. */
  ghost predicate Walking(changed: seq<string>, forward: Lists, reverse: Lists, maxHops: int,
                          queue: seq<Visit>, distance: map<string, nat>) {
    && Consistent(changed, forward, reverse, maxHops, queue, distance)
    && Expanded(forward, reverse, maxHops, queue, distance, None)
    && (queue != [] ==> Levels(queue, queue[0].hop) && NoneFurther(distance, queue[0].hop + 1))
  }

  lemma RestLevels(queue: seq<Visit>, distance: map<string, nat>)
    requires queue != [] && Levels(queue, queue[0].hop) && NoneFurther(distance, queue[0].hop + 1)
    ensures Levels(queue[1..], queue[0].hop)
    ensures queue[1..] != [] ==> Levels(queue[1..], queue[1..][0].hop) && NoneFurther(distance, queue[1..][0].hop + 1)
  {
  }

  lemma RestExpanded(forward: Lists, reverse: Lists, maxHops: int, queue: seq<Visit>, distance: map<string, nat>)
    requires queue != [] && Expanded(forward, reverse, maxHops, queue, distance, None)
    requires queue[0].path in distance && distance[queue[0].path] == queue[0].hop
    ensures Expanded(forward, reverse, maxHops, queue[1..], distance, Some(queue[0].path))
    ensures queue[0].hop >= maxHops ==> Expanded(forward, reverse, maxHops, queue[1..], distance, None)
  {
  }

  /** Taking the first file off the queue, to be expanded or, at the limit, to be left. */
  lemma {:induction false} TakeFirst(changed: seq<string>, forward: Lists, reverse: Lists, maxHops: int,
                  queue: seq<Visit>, distance: map<string, nat>)
    requires queue != [] && Walking(changed, forward, reverse, maxHops, queue, distance)
    ensures queue[0].hop >= maxHops ==> Walking(changed, forward, reverse, maxHops, queue[1..], distance)
    ensures queue[0].hop < maxHops ==> Expanding(changed, forward, reverse, maxHops, queue[0], 0, queue[1..], distance)
  {
    hide Reach;
    hide Neighbours;
    hide Universe;
    hide Levels;
    hide NoneFurther;
    hide Expanded;
    assert Consistent(changed, forward, reverse, maxHops, queue[1..], distance);
    RestLevels(queue, distance);
    RestExpanded(forward, reverse, maxHops, queue, distance);
  }

  /** Once all its neighbours have a distance, the file is done. */
  lemma FileDone(changed: seq<string>, forward: Lists, reverse: Lists, maxHops: int, u: Visit,
                 queue: seq<Visit>, distance: map<string, nat>)
    requires Expanding(changed, forward, reverse, maxHops, u, |Neighbours(forward, reverse, u.path)|, queue, distance)
    ensures Walking(changed, forward, reverse, maxHops, queue, distance)
  {
  }

  lemma LessToFind(all: set<string>, before: set<string>, after: set<string>)
    requires before <= after <= all
    ensures after == before || all - after < all - before
  {
  }

  method WalkBfs(changed: seq<string>, forward: Lists, reverse: Lists, maxHops: int)
    returns (distance: map<string, nat>)
    ensures Shortest(changed, forward, reverse, maxHops, distance)
  {
    hide *;
    var queue: seq<Visit>;
    distance, queue := Begin(changed, forward, reverse, maxHops);
    while queue != []
      invariant Walking(changed, forward, reverse, maxHops, queue, distance)
      decreases Universe(changed, forward, reverse) - distance.Keys, |queue|
    {
      var u := queue[0];
      TakeFirst(changed, forward, reverse, maxHops, queue, distance);
      queue := queue[1..];
      if u.hop >= maxHops {
        continue;
      }
      ghost var before := distance.Keys;
      distance, queue := Expand(changed, forward, reverse, maxHops, u, queue, distance);
      LessToFind(Universe(changed, forward, reverse), before, distance.Keys);
    }
    WalkIsShortest(changed, forward, reverse, maxHops, distance);
  }

  method Expand(changed: seq<string>, forward: Lists, reverse: Lists, maxHops: int, u: Visit,
                queue0: seq<Visit>, distance0: map<string, nat>)
    returns (distance: map<string, nat>, queue: seq<Visit>)
    requires Expanding(changed, forward, reverse, maxHops, u, 0, queue0, distance0)
    ensures Walking(changed, forward, reverse, maxHops, queue, distance)
    ensures distance0.Keys <= distance.Keys <= Universe(changed, forward, reverse)
    ensures distance.Keys == distance0.Keys ==> queue == queue0
  {
    hide Expanding;
    hide Universe;
    distance, queue := distance0, queue0;
    var neighbours := ListAt(forward, u.path) + ListAt(reverse, u.path);
    for k := 0 to |neighbours|
      invariant Expanding(changed, forward, reverse, maxHops, u, k, queue, distance)
      invariant distance0.Keys <= distance.Keys
      invariant distance.Keys == distance0.Keys ==> queue == queue0
    {
      NextNeighbour(changed, forward, reverse, maxHops, u, k, queue, distance);
      var next := neighbours[k];
      if next !in distance {
        distance := distance[next := u.hop + 1];
        queue := queue + [Visit(next, u.hop + 1)];
        assert next !in distance0.Keys;
      }
    }
    FileDone(changed, forward, reverse, maxHops, u, queue, distance);
    InBounds(changed, forward, reverse, maxHops, queue, distance);
  }

  lemma InBounds(changed: seq<string>, forward: Lists, reverse: Lists, maxHops: int,
                 queue: seq<Visit>, distance: map<string, nat>)
    requires Walking(changed, forward, reverse, maxHops, queue, distance)
    ensures distance.Keys <= Universe(changed, forward, reverse)
  {
  }

  /** The changed files, at distance 0. */
  method Begin(changed: seq<string>, forward: Lists, reverse: Lists, maxHops: int)
    returns (distance: map<string, nat>, queue: seq<Visit>)
    ensures Walking(changed, forward, reverse, maxHops, queue, distance)
  {
    distance, queue := map[], [];
    for i := 0 to |changed|
      invariant forall v :: v in distance <==> v in changed[..i]
      invariant forall v :: v in distance ==> distance[v] == 0 && Queued(queue, v)
      invariant forall j :: 0 <= j < |queue| ==> queue[j].hop == 0 && queue[j].path in distance
    {
      assert changed[..i + 1] == changed[..i] + [changed[i]];
      ghost var before := queue;
      distance := distance[changed[i] := 0];
      queue := queue + [Visit(changed[i], 0)];
      forall v | Queued(before, v) || v == changed[i]
        ensures Queued(queue, v)
      {
        if v == changed[i] {
          assert queue[|before|].path == v;
        } else {
          var j :| 0 <= j < |before| && before[j].path == v;
          assert queue[j].path == v;
        }
      }
    }
    assert changed[..|changed|] == changed;
  }

  lemma WalkIsShortest(changed: seq<string>, forward: Lists, reverse: Lists, maxHops: int, distance: map<string, nat>)
    requires Walking(changed, forward, reverse, maxHops, [], distance)
    ensures Shortest(changed, forward, reverse, maxHops, distance)
  {
    hide Reach;
    forall v, n: nat | n <= Max(maxHops, 0) && Reach(changed, forward, reverse, v, n)
      ensures v in distance && distance[v] <= n
    {
      NothingMissed(changed, forward, reverse, maxHops, distance, v, n);
    }
  }

  // ---- the file index ---------------------------------------------------------------------------

  function Joined(parts: seq<string>): string {
    if parts == [] then [] else if |parts| == 1 then parts[0] else parts[0] + ['/'] + Joined(parts[1..])
  }

  /** Empty segments and "." go, ".." takes the segment before it along. */
  function Kept(parts: seq<string>): seq<string> {
    if parts == [] then []
    else
      var before, part := Kept(parts[..|parts| - 1]), parts[|parts| - 1];
      if part == "" || part == "." then before
      else if part == ".." then (if before == [] then [] else before[..|before| - 1])
      else before + [part]
  }

  function Normalize(path: string): string {
    Joined(Kept(Segments(path)))
  }

  predicate CleanPart(part: string) {
    part != "" && part != "." && part != ".." && '/' !in part
  }

  predicate AllClean(parts: seq<string>) {
    forall i :: 0 <= i < |parts| ==> CleanPart(parts[i])
  }

  lemma {:induction false} KeptAreClean(parts: seq<string>)
    requires forall i :: 0 <= i < |parts| ==> '/' !in parts[i]
    ensures AllClean(Kept(parts))
    decreases |parts|
  {
    if parts != [] {
      KeptAreClean(parts[..|parts| - 1]);
    }
  }

  lemma {:induction false} CleanAreKept(parts: seq<string>)
    requires AllClean(parts)
    ensures Kept(parts) == parts
    decreases |parts|
  {
    if parts != [] {
      CleanAreKept(parts[..|parts| - 1]);
    }
  }

  lemma {:induction false} JoinedSplits(parts: seq<string>)
    requires parts != [] && AllClean(parts)
    ensures Segments(Joined(parts)) == parts
    decreases |parts|
  {
    if |parts| == 1 {
      OneSegment(parts[0]);
    } else {
      JoinedSplits(parts[1..]);
      FirstSegment(parts[0], Joined(parts[1..]));
    }
  }

  /** ".." undoes the segment before it, and nothing at the top. */
  lemma ParentUndoes(parts: seq<string>, part: string)
    requires CleanPart(part)
    ensures Kept(parts + [part, ".."]) == Kept(parts) && Kept(parts + [part]) == Kept(parts) + [part]
    ensures Kept(parts + ["."]) == Kept(parts) == Kept(parts + [""])
    ensures Kept([".."]) == []
  {
    assert (parts + [part, ".."])[..|parts| + 1] == parts + [part];
    assert (parts + [part])[..|parts|] == parts;
    assert (parts + ["."])[..|parts|] == parts && (parts + [""])[..|parts|] == parts;
    assert [".."][..0] == [];
  }

  /** Normalizing twice is normalizing once. */
  lemma NormalizeOnce(path: string)
    ensures Normalize(Normalize(path)) == Normalize(path)
  {
    var parts := Kept(Segments(path));
    SegmentsHaveNoSlash(path);
    KeptAreClean(Segments(path));
    if parts != [] {
      JoinedSplits(parts);
      CleanAreKept(parts);
    }
  }

  /** The index is keyed by normalized paths. */
  predicate Indexed(r: Repo, p: string) {
    exists q :: q in r.allPaths && Normalize(q) == p
  }

  /** A path of the repository is in the index as it stands, or not found at all, exactly as it is normalized or not. */
  lemma ListedIsIndexed(r: Repo, p: string)
    requires p in r.allPaths
    ensures Indexed(r, p) <==> Normalize(p) == p
  {
    if Indexed(r, p) {
      var q :| q in r.allPaths && Normalize(q) == p;
      NormalizeOnce(q);
    }
  }

  // ---- selection ---------------------------------------------------------------------------------------

  /** u imports v or the other way round. */
  predicate Linked(r: Repo, u: string, v: string) {
    Imports(r, u, v) || Imports(r, v, u)
  }

  /** v is joined to a changed file of the index by a chain of n imports, each read in either direction. */
  ghost predicate Chain(r: Repo, changed: seq<string>, v: string, n: nat)
    decreases n
  {
    if n == 0 then v in changed && Indexed(r, v)
    else exists u :: Chain(r, changed, u, n - 1) && Linked(r, u, v)
  }

  ghost predicate Nearby(r: Repo, changed: seq<string>, maxHops: int, v: string) {
    exists n: nat :: n <= Max(maxHops, 0) && Chain(r, changed, v, n)
  }

  function Known(r: Repo, paths: seq<string>): seq<string> {
    if paths == [] then []
    else
      var earlier, p := Known(r, paths[..|paths| - 1]), paths[|paths| - 1];
      if Indexed(r, p) then Added(earlier, p) else earlier
  }

  lemma {:induction false} KnownIs(r: Repo, paths: seq<string>, p: string)
    ensures p in Known(r, paths) <==> p in paths && Indexed(r, p)
    decreases |paths|
  {
    if paths != [] {
      KnownIs(r, paths[..|paths| - 1], p);
      assert paths == paths[..|paths| - 1] + [paths[|paths| - 1]];
    }
  }

  lemma {:induction false} ReachIsChain(r: Repo, changed: seq<string>, forward: Lists, reverse: Lists, v: string, n: nat)
    requires GraphOf(r, r.allPaths, forward, reverse)
    ensures Reach(Known(r, changed), forward, reverse, v, n) <==> Chain(r, changed, v, n)
    decreases n
  {
    if n == 0 {
      KnownIs(r, changed, v);
    } else {
      forall u
        ensures Reach(Known(r, changed), forward, reverse, u, n - 1) <==> Chain(r, changed, u, n - 1)
        ensures v in Neighbours(forward, reverse, u) <==> Linked(r, u, v)
      {
        ReachIsChain(r, changed, forward, reverse, u, n - 1);
        NeighboursAreLinked(r, forward, reverse, u, v);
      }
    }
  }

  lemma NeighboursAreLinked(r: Repo, forward: Lists, reverse: Lists, u: string, v: string)
    requires GraphOf(r, r.allPaths, forward, reverse)
    ensures v in Neighbours(forward, reverse, u) <==> Linked(r, u, v)
  {
    hide ImportsAmong;
    assert v in ListAt(forward, u) <==> ImportsFrom(r, r.allPaths, u, v);
    assert Entered(reverse, u, v) <==> ImportsFrom(r, r.allPaths, v, u);
  }

  /**
   * The files of the import neighbourhood: exactly those joined to a changed file by at most
   * maxHops imports in either direction, each at its shortest distance.
   */
  method FilesInReach(r: Repo, changedPaths: seq<string>, maxHops: int) returns (hops: map<string, nat>)
    ensures forall v :: v in hops <==> Nearby(r, changedPaths, maxHops, v)
    ensures forall v :: v in hops ==> Chain(r, changedPaths, v, hops[v])
    ensures forall v, n: nat :: v in hops && Chain(r, changedPaths, v, n) ==> hops[v] <= n
  {
    hide Chain;
    hide Reach;
    hide GraphOf;
    var forward, reverse := BuildGraph(r);
    var changed := Known(r, changedPaths);
    hops := WalkBfs(changed, forward, reverse, maxHops);
    forall v, n: nat
      ensures Reach(changed, forward, reverse, v, n) <==> Chain(r, changedPaths, v, n)
    {
      ReachIsChain(r, changedPaths, forward, reverse, v, n);
    }
    forall v
      ensures v in hops <==> Nearby(r, changedPaths, maxHops, v)
    {
      if v in hops {
        ReachIsChain(r, changedPaths, forward, reverse, v, hops[v]);
      }
    }
  }
}
