/**
 * Building the import index of a repository (services/repository-import-index.service.ts
 * buildImportIndex): one step for each stretch of code between two awaits, so that every
 * interleaving of the concurrent reads is a sequence of steps.
 */
module ImportIndex {
  import opened Basics

  datatype Imports = Imports(specifiers: seq<string>, barrel: bool, unsupported: bool)

  datatype File = File(path: string, sha: string, size: Option<nat>)

  datatype Reason =
    | FileLimit | CacheUnavailable | DownloadLimit | ByteLimit | FileUnavailable | OversizedFile | Deadline
    | UnsupportedResolution

  /**
   * What stays fixed during a build: the eligible files in priority order, the limits, and
   * what the outside world says of a blob: its contents, a text's size and its imports.
   */
  datatype World = World(eligible: seq<File>, maxFiles: nat, maxDownloads: nat, maxBytes: nat, concurrency: nat,
                         maxFileBytes: nat, blob: string -> string, bytes: string -> nat, parse: string -> Imports)

  datatype Parsed = Parsed(value: Imports, content: string)

  /** Where the shared read of one blob stands; Storing and Saving await the two cache writes. */
  datatype Stage = Looking | Fetching | Storing(parsed: Parsed) | Saving(parsed: Parsed) | Done(result: Option<Parsed>)

  /** A shared read; held is what its download has reserved and not yet accounted for. */
  datatype Read = Read(file: File, stage: Stage, held: nat)

  /** missing, next and waiting: the files not in the cache, how many of them have been taken up, and who waits. */
  datatype State = State(
    loaded: bool, cancelled: bool, expired: bool, reasons: set<Reason>,
    imports: map<string, Imports>, contents: map<string, string>,
    cacheHits: nat, sourceHits: nat, downloads: nat, downloadedBytes: nat, reservedBytes: int,
    shared: seq<Read>, pending: map<string, nat>, fetched: seq<string>,
    missing: seq<File>, next: nat, waiting: set<nat>)

  datatype Event =
    | Load(hits: set<string>, failed: bool)
    | OpenBatch
    | Looked(k: nat, found: Option<string>, failed: bool)
    | Fetched(k: nat, got: Option<string>)
    | Stored(k: nat, failed: bool)
    | Saved(k: nat, failed: bool)
    | Deliver(n: nat)
    | Cancel
    | Expire

  function Chosen(w: World): seq<File> {
    w.eligible[..Min(w.maxFiles, |w.eligible|)]
  }

  function Start(w: World): State {
    State(false, false, false, if |Chosen(w)| < |w.eligible| then {FileLimit} else {}, map[], map[],
          0, 0, 0, 0, 0, [], map[], [], [], 0, {})
  }

  predicate Aborted(s: State) {
    s.cancelled || s.expired
  }

  function Reservation(w: World, f: File): nat {
    if f.size.Some? && f.size.value > 0 then f.size.value else w.maxFileBytes
  }

  function TrueImports(w: World, f: File): Imports {
    w.parse(w.blob(f.sha))
  }

  // ---- the import cache -------------------------------------------------------------------------

  /** The files found in the cache, whose records are true parse results of their blobs. */
  function FromCache(w: World, files: seq<File>, hits: set<string>): map<string, Imports> {
    if files == [] then map[]
    else
      var earlier, f := FromCache(w, files[..|files| - 1], hits), files[|files| - 1];
      if f.sha in hits then earlier[f.path := TrueImports(w, f)] else earlier
  }

  function NotInCache(files: seq<File>, hits: set<string>): (r: seq<File>)
    ensures |r| <= |files|
  {
    if files == [] then []
    else NotInCache(files[..|files| - 1], hits) + if files[|files| - 1].sha in hits then [] else [files[|files| - 1]]
  }

  function Loaded(w: World, s: State, hits: set<string>, failed: bool): State {
    s.(loaded := true,
       reasons := if failed && !Aborted(s) then s.reasons + {CacheUnavailable} else s.reasons,
       imports := FromCache(w, Chosen(w), hits),
       missing := NotInCache(Chosen(w), hits),
       cacheHits := |Chosen(w)| - |NotInCache(Chosen(w), hits)|)
  }

  // ---- shared reads --------------------------------------------------------------------------------

  /** The reads after one more file asks for its blob. */
  function Asked(shared: seq<Read>, pending: map<string, nat>, f: File): (seq<Read>, map<string, nat>) {
    if f.sha in pending then (shared, pending) else (shared + [Read(f, Looking, 0)], pending[f.sha := |shared|])
  }

  function AskedAll(shared: seq<Read>, pending: map<string, nat>, files: seq<File>): (seq<Read>, map<string, nat>) {
    if files == [] then (shared, pending)
    else
      var (r, p) := AskedAll(shared, pending, files[..|files| - 1]);
      Asked(r, p, files[|files| - 1])
  }

  function Batch(w: World, s: State): (b: seq<File>)
    requires s.next <= |s.missing|
  {
    s.missing[s.next..Min(s.next + w.concurrency, |s.missing|)]
  }

  function Indices(lo: nat, hi: nat): (r: set<nat>)
    ensures forall n :: n in r <==> lo <= n < hi
    decreases hi
  {
    if lo >= hi then {} else Indices(lo, hi - 1) + {hi - 1}
  }

  function Opened(w: World, s: State): State
    requires s.next <= |s.missing|
  {
    var (shared, pending) := AskedAll(s.shared, s.pending, Batch(w, s));
    var end := s.next + |Batch(w, s)|;
    s.(shared := shared, pending := pending, next := end, waiting := Indices(s.next, end))
  }

  function Staged(s: State, k: nat, stage: Stage): State
    requires k < |s.shared|
  {
    s.(shared := s.shared[k := s.shared[k].(stage := stage)])
  }

  function Because(s: State, reason: Reason): State {
    s.(reasons := s.reasons + {reason})
  }

  function GivenUp(s: State, k: nat, reason: Reason): State
    requires k < |s.shared|
  {
    Staged(Because(s, reason), k, Done(None))
  }

  /** The contents are at hand: parse them, unless they are too long. */
  function Accepted(w: World, s: State, k: nat, content: string): State
    requires k < |s.shared|
  {
    if w.bytes(content) > w.maxFileBytes then GivenUp(s, k, OversizedFile)
    else Staged(s, k, Storing(Parsed(w.parse(content), content)))
  }

  /** No contents in the source cache: reserve and download, within both limits. */
  function Reserved(w: World, s: State, k: nat): State
    requires k < |s.shared|
  {
    var f := s.shared[k].file;
    if s.downloads >= w.maxDownloads then GivenUp(s, k, DownloadLimit)
    else if s.reservedBytes + Reservation(w, f) > w.maxBytes then GivenUp(s, k, ByteLimit)
    else s.(reservedBytes := s.reservedBytes + Reservation(w, f), downloads := s.downloads + 1,
            fetched := s.fetched + [f.sha],
            shared := s.shared[k := Read(f, Fetching, Reservation(w, f))])
  }

  function AfterLook(w: World, s: State, k: nat, found: Option<string>, failed: bool): State
    requires k < |s.shared|
  {
    if Aborted(s) then Staged(s, k, Done(None))
    else
      var s' := if failed then Because(s, CacheUnavailable) else s;
      match found
      case Some(content) => Accepted(w, s'.(sourceHits := s.sourceHits + 1), k, content)
      case None => Reserved(w, s', k)
  }

  /** The download's bytes take the place of its reservation. */
  function Counted(s: State, k: nat, n: nat): State
    requires k < |s.shared|
  {
    s.(downloadedBytes := s.downloadedBytes + n, reservedBytes := s.reservedBytes + n - s.shared[k].held,
       shared := s.shared[k := s.shared[k].(held := 0)])
  }

  function AfterFetch(w: World, s: State, k: nat, got: Option<string>): State
    requires k < |s.shared|
  {
    if Aborted(s) then Staged(s, k, Done(None))
    else
      match got
      case None => GivenUp(s, k, FileUnavailable)
      case Some(content) =>
        var s' := Counted(s, k, w.bytes(content));
        if s'.downloadedBytes > w.maxBytes then GivenUp(s', k, ByteLimit) else Accepted(w, s', k, content)
  }

  function AfterStore(s: State, k: nat, failed: bool): State
    requires k < |s.shared| && s.shared[k].stage.Storing?
  {
    var parsed := s.shared[k].stage.parsed;
    if Aborted(s) then Staged(s, k, Done(Some(parsed)))
    else Staged(if failed then Because(s, CacheUnavailable) else s, k, Saving(parsed))
  }

  function AfterSave(s: State, k: nat, failed: bool): State
    requires k < |s.shared| && s.shared[k].stage.Saving?
  {
    Staged(if failed && !Aborted(s) then Because(s, CacheUnavailable) else s, k, Done(Some(s.shared[k].stage.parsed)))
  }

  /** A file that waited for its blob takes the result. */
  function Delivered(s: State, n: nat, result: Option<Parsed>): State
    requires n < |s.missing|
  {
    var path := s.missing[n].path;
    var s' := s.(waiting := s.waiting - {n});
    match result
    case None => s'
    case Some(p) => s'.(imports := s.imports[path := p.value], contents := s.contents[path := p.content])
  }

  predicate Ready(s: State, n: nat) {
    && n in s.waiting && n < |s.missing| && s.missing[n].sha in s.pending
    && s.pending[s.missing[n].sha] < |s.shared| && s.shared[s.pending[s.missing[n].sha]].stage.Done?
  }

  // ---- runs ------------------------------------------------------------------------------------------

  /**
   * When an event can happen, and what is taken for granted about the world: caches and
   * downloads return a blob's own contents, and no download is longer than was asked for.
   */
  predicate Enabled(w: World, s: State, e: Event) {
    match e
    case Load(_, _) => !s.loaded
    case OpenBatch => s.loaded && !Aborted(s) && s.waiting == {} && s.next < |s.missing| && w.concurrency > 0
    case Looked(k, found, failed) =>
      && k < |s.shared| && s.shared[k].stage.Looking? && (failed ==> found.None?)
      && (found.Some? ==> found.value == w.blob(s.shared[k].file.sha))
    case Fetched(k, got) =>
      && k < |s.shared| && s.shared[k].stage.Fetching?
      && (got.Some? ==> got.value == w.blob(s.shared[k].file.sha) &&
                        w.bytes(got.value) <= Min(w.maxFileBytes, s.shared[k].held))
    case Stored(k, _) => k < |s.shared| && s.shared[k].stage.Storing?
    case Saved(k, _) => k < |s.shared| && s.shared[k].stage.Saving?
    case Deliver(n) => Ready(s, n)
    case Cancel => true
    case Expire => true
  }

  function Step(w: World, s: State, e: Event): State
    requires Enabled(w, s, e)
  {
    match e
    case Load(hits, failed) => Loaded(w, s, hits, failed)
    case OpenBatch => Opened(w, s)
    case Looked(k, found, failed) => AfterLook(w, s, k, found, failed)
    case Fetched(k, got) => AfterFetch(w, s, k, got)
    case Stored(k, failed) => AfterStore(s, k, failed)
    case Saved(k, failed) => AfterSave(s, k, failed)
    case Deliver(n) => Delivered(s, n, s.shared[s.pending[s.missing[n].sha]].stage.result)
    case Cancel => s.(cancelled := true)
    case Expire => s.(expired := true)
  }

  /** One way a build can go: its events and the states between them. */
  predicate IsRun(w: World, events: seq<Event>, states: seq<State>) {
    && |states| == |events| + 1 && states[0] == Start(w)
    && forall i :: 0 <= i < |events| ==> Enabled(w, states[i], events[i]) && states[i + 1] == Step(w, states[i], events[i])
  }

  // ---- the report ---------------------------------------------------------------------------------------

  /** The build returns here; a cancelled one throws instead. */
  predicate Finished(s: State) {
    s.loaded && s.waiting == {} && !s.cancelled && (s.expired || s.next >= |s.missing|)
  }

  predicate AnyUnsupported(imports: map<string, Imports>) {
    exists path | path in imports :: imports[path].unsupported
  }

  function FinalReasons(s: State): set<Reason> {
    s.reasons + (if s.expired then {Deadline} else {}) + if AnyUnsupported(s.imports) then {UnsupportedResolution} else {}
  }

  /** coverage.status is COMPLETE. */
  predicate Complete(w: World, s: State) {
    |w.eligible| - |s.imports| == 0 && FinalReasons(s) == {}
  }
}
