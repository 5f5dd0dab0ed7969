/**
 * What every interleaving of an index build keeps: the budgets, one download per blob, true
 * imports for every path, and a reason for every file left out.
 */
module ImportTheorems {
  import opened Basics
  import opened ImportIndex

  // ---- shared reads: one per blob -----------------------------------------------------------------

  /** The reads and the table of pending reads are two views of one thing: a blob each. */
  ghost predicate OneReadEach(shared: seq<Read>, pending: map<string, nat>) {
    && (forall k :: 0 <= k < |shared| ==> shared[k].file.sha in pending && pending[shared[k].file.sha] == k)
    && (forall sha :: sha in pending ==> pending[sha] < |shared| && shared[pending[sha]].file.sha == sha)
  }

  predicate NoRepeats(log: seq<string>) {
    forall i, j :: 0 <= i < j < |log| ==> log[i] != log[j]
  }

  /** A blob has been asked of GitHub only by its read, and not while that is still looking. */
  ghost predicate FetchedOnce(s: State) {
    && NoRepeats(s.fetched) && |s.fetched| == s.downloads
    && (forall sha :: sha in s.fetched ==> sha in s.pending && s.pending[sha] < |s.shared|)
    && (forall k :: 0 <= k < |s.shared| && s.shared[k].stage.Looking? ==> s.shared[k].file.sha !in s.fetched && s.shared[k].held == 0)
  }

  // ---- the byte budget ------------------------------------------------------------------------------

  /** Reservations outstanding or lost with a failed download. */
  function Held(shared: seq<Read>): nat {
    if shared == [] then 0 else Held(shared[..|shared| - 1]) + shared[|shared| - 1].held
  }

  lemma {:induction false} HeldChanges(shared: seq<Read>, k: nat, r: Read)
    requires k < |shared|
    ensures Held(shared[k := r]) == Held(shared) - shared[k].held + r.held
    decreases |shared|
  {
    var n := |shared| - 1;
    if k < n {
      HeldChanges(shared[..n], k, r);
      assert shared[k := r][..n] == shared[..n][k := r];
    } else {
      assert shared[k := r][..n] == shared[..n];
    }
  }

  predicate WithinBudget(w: World, s: State) {
    && s.downloads <= w.maxDownloads
    && s.reservedBytes == s.downloadedBytes + Held(s.shared)
    && s.reservedBytes <= w.maxBytes
  }

  // ---- the index ---------------------------------------------------------------------------------------

  /** The parse of this blob, and its text. */
  predicate TrueParsed(w: World, f: File, p: Parsed) {
    p.content == w.blob(f.sha) && p.value == TrueImports(w, f)
  }

  predicate StageTrue(w: World, s: State, r: Read) {
    match r.stage
    case Storing(p) => TrueParsed(w, r.file, p)
    case Saving(p) => TrueParsed(w, r.file, p)
    case Done(Some(p)) => TrueParsed(w, r.file, p)
    case Done(None) => Aborted(s) || s.reasons != {}
    case _ => true
  }

  predicate StagesTrue(w: World, s: State) {
    forall k :: 0 <= k < |s.shared| ==> StageTrue(w, s, s.shared[k])
  }

  /** An indexed path carries the parse of a blob it stands for. */
  predicate TrueEntry(w: World, files: seq<File>, path: string, value: Imports) {
    exists f :: f in files && f.path == path && value == TrueImports(w, f)
  }

  predicate TrueIndex(w: World, imports: map<string, Imports>) {
    forall path :: path in imports ==> TrueEntry(w, Chosen(w), path, imports[path])
  }

  /** A file is indexed, or waits its turn, or something says why not. */
  predicate Accounted(s: State, n: nat)
    requires n < |s.missing|
  {
    s.missing[n].path in s.imports || n in s.waiting || n >= s.next || Aborted(s) || s.reasons != {}
  }

  ghost predicate AllAccounted(w: World, s: State) {
    && s.next <= |s.missing|
    && (forall n :: 0 <= n < |s.missing| ==> s.missing[n] in Chosen(w) && Accounted(s, n))
    && (s.loaded ==> forall f :: f in Chosen(w) ==> f.path in s.imports || f in s.missing)
    && (|Chosen(w)| < |w.eligible| ==> FileLimit in s.reasons)
    && (!s.loaded ==> s.missing == [] && s.imports == map[] && s.waiting == {} && s.next == 0)
  }

  ghost predicate WaitersKnown(s: State) {
    forall n :: n in s.waiting ==> n < s.next <= |s.missing| && s.missing[n].sha in s.pending
  }

  ghost predicate Inv(w: World, s: State) {
    && OneReadEach(s.shared, s.pending) && FetchedOnce(s) && WithinBudget(w, s)
    && StagesTrue(w, s) && TrueIndex(w, s.imports) && AllAccounted(w, s) && WaitersKnown(s)
  }

  // ---- steps: the reads ---------------------------------------------------------------------------------

  lemma StartInv(w: World)
    ensures Inv(w, Start(w))
  {
  }

  /** More reads, all of them new ones that have only begun to look. */
  ghost predicate Grown(shared: seq<Read>, pending: map<string, nat>, shared': seq<Read>, pending': map<string, nat>) {
    && OneReadEach(shared', pending') && shared <= shared'
    && (forall sha :: sha in pending ==> sha in pending' && pending'[sha] == pending[sha])
    && (forall k :: |shared| <= k < |shared'| ==>
          shared'[k].stage.Looking? && shared'[k].held == 0 && shared'[k].file.sha !in pending)
    && Held(shared') == Held(shared)
  }

  lemma OneMoreRead(shared: seq<Read>, pending: map<string, nat>, f: File)
    requires OneReadEach(shared, pending) && f.sha !in pending
    ensures OneReadEach(shared + [Read(f, Looking, 0)], pending[f.sha := |shared|])
  {
  }

  lemma HeldNone(shared: seq<Read>, f: File)
    ensures Held(shared + [Read(f, Looking, 0)]) == Held(shared)
  {
  }

  lemma {:induction false} AskedKeeps(shared: seq<Read>, pending: map<string, nat>, r: seq<Read>, p: map<string, nat>, f: File)
    requires Grown(shared, pending, r, p)
    ensures Grown(shared, pending, Asked(r, p, f).0, Asked(r, p, f).1)
    ensures f.sha in Asked(r, p, f).1 && forall sha :: sha in p ==> sha in Asked(r, p, f).1
  {
    hide OneReadEach;
    hide Held;
    if f.sha !in p {
      OneMoreRead(r, p, f);
      HeldNone(r, f);
      var r' := r + [Read(f, Looking, 0)];
      assert r'[..|shared|] == r[..|shared|];
      assert f.sha !in pending;
    }
  }

  lemma {:induction false} AskedAllKeeps(shared: seq<Read>, pending: map<string, nat>, files: seq<File>)
    requires OneReadEach(shared, pending)
    ensures var r := AskedAll(shared, pending, files);
            Grown(shared, pending, r.0, r.1) && forall i :: 0 <= i < |files| ==> files[i].sha in r.1
    decreases |files|
  {
    hide Grown;
    hide OneReadEach;
    if files == [] {
      GrownSelf(shared, pending);
    } else {
      var init, f := files[..|files| - 1], files[|files| - 1];
      AskedAllKeeps(shared, pending, init);
      var (r, p) := AskedAll(shared, pending, init);
      AskedKeeps(shared, pending, r, p, f);
      assert forall i :: 0 <= i < |init| ==> files[i] == init[i];
    }
  }

  lemma GrownSelf(shared: seq<Read>, pending: map<string, nat>)
    requires OneReadEach(shared, pending)
    ensures Grown(shared, pending, shared, pending)
  {
  }

  lemma OpenedInv(w: World, s: State)
    requires Inv(w, s) && Enabled(w, s, OpenBatch)
    ensures Inv(w, Opened(w, s))
  {
    hide TrueIndex;
    hide AskedAll;
    hide StagesTrue;
    hide AllAccounted;
    hide FetchedOnce;
    hide Grown;
    hide OneReadEach;
    var s' := Opened(w, s);
    AskedAllKeeps(s.shared, s.pending, Batch(w, s));
    WaitingFrom(w, s);
    GrownFacts(s, s');
    OpenedAccounts(w, s, s');
    OpenedStages(w, s, s');
    forall n | n in s'.waiting
      ensures n < s'.next <= |s'.missing| && s'.missing[n].sha in s'.pending
    {
      assert s.missing[n] == Batch(w, s)[n - s.next];
    }
  }

  lemma GrownFacts(s: State, s': State)
    requires FetchedOnce(s) && Grown(s.shared, s.pending, s'.shared, s'.pending)
    requires s'.fetched == s.fetched && s'.downloads == s.downloads
    ensures OneReadEach(s'.shared, s'.pending) && FetchedOnce(s') && Held(s'.shared) == Held(s.shared)
    ensures s.shared <= s'.shared && forall k :: |s.shared| <= k < |s'.shared| ==> s'.shared[k].stage.Looking?
  {
    hide NoRepeats;
    hide Held;
    forall k | 0 <= k < |s'.shared| && s'.shared[k].stage.Looking?
      ensures s'.shared[k].file.sha !in s'.fetched && s'.shared[k].held == 0
    {
      if k < |s.shared| {
        assert s'.shared[k] == s.shared[k];
      }
    }
  }

  lemma WaitingFrom(w: World, s: State)
    requires AllAccounted(w, s)
    ensures s.next <= |s.missing|
  {
  }

  lemma OpenedAccounts(w: World, s: State, s': State)
    requires AllAccounted(w, s) && s.waiting == {} && s.next <= s'.next <= |s.missing|
    requires s' == s.(shared := s'.shared, pending := s'.pending, next := s'.next, waiting := Indices(s.next, s'.next))
    requires s.loaded
    ensures AllAccounted(w, s')
  {
  }

  lemma OpenedStages(w: World, s: State, s': State)
    requires StagesTrue(w, s) && s.shared <= s'.shared && s'.reasons == s.reasons && (Aborted(s) ==> Aborted(s'))
    requires forall k :: |s.shared| <= k < |s'.shared| ==> s'.shared[k].stage.Looking?
    ensures StagesTrue(w, s')
  {
  }

  // ---- steps: one read ------------------------------------------------------------------------------------

  /** The states before and after one read moves on, apart from what its own stage claims. */
  ghost predicate ReadMoved(w: World, s: State, s': State, k: nat)
    requires k < |s.shared|
  {
    && |s'.shared| == |s.shared|
    && (forall j :: 0 <= j < |s.shared| && j != k ==> s'.shared[j] == s.shared[j])
    && s'.shared[k].file == s.shared[k].file && !s'.shared[k].stage.Looking?
    && s'.pending == s.pending && s'.imports == s.imports && s'.missing == s.missing && s'.next == s.next
    && s'.waiting == s.waiting && s'.loaded == s.loaded && s'.cancelled == s.cancelled && s'.expired == s.expired
    && s.reasons <= s'.reasons
  }

  /** Such a step keeps everything but the counters, once the read's own new stage is true. */
  lemma {:induction false} MovedKeeps(w: World, s: State, s': State, k: nat)
    requires Inv(w, s) && k < |s.shared| && ReadMoved(w, s, s', k) && StageTrue(w, s', s'.shared[k])
    requires FetchedOnce(s') && WithinBudget(w, s')
    ensures Inv(w, s')
  {
    hide TrueIndex;
    hide TrueImports;
    hide FetchedOnce;
    hide WithinBudget;
    forall j | 0 <= j < |s'.shared|
      ensures StageTrue(w, s', s'.shared[j])
    {
      if j != k {
        assert StageTrue(w, s, s.shared[j]);
      }
    }
    assert forall n :: 0 <= n < |s.missing| ==> Accounted(s, n);
  }

  /** A read moves on without touching a counter. */
  lemma QuietMove(w: World, s: State, s': State, k: nat)
    requires Inv(w, s) && k < |s.shared| && ReadMoved(w, s, s', k) && StageTrue(w, s', s'.shared[k])
    requires s'.shared[k].held == s.shared[k].held && s'.fetched == s.fetched && s'.downloads == s.downloads
    requires s'.reservedBytes == s.reservedBytes && s'.downloadedBytes == s.downloadedBytes
    ensures Inv(w, s')
  {
    hide TrueIndex;
    hide StagesTrue;
    hide StageTrue;
    HeldChanges(s.shared, k, s'.shared[k]);
    assert s'.shared == s.shared[k := s'.shared[k]];
    MovedKeeps(w, s, s', k);
  }

  /** One more reason takes nothing back. */
  lemma BecauseInv(w: World, s: State, reason: Reason)
    requires Inv(w, s)
    ensures Inv(w, Because(s, reason))
  {
  }

  /** A read that ends without a result, for a stated reason and at no cost. */
  lemma GivenUpInv(w: World, s: State, k: nat, reason: Reason)
    requires Inv(w, s) && k < |s.shared|
    ensures Inv(w, GivenUp(s, k, reason))
  {
    hide TrueIndex;
    hide TrueImports;
    hide Accounted;
    hide OneReadEach;
    hide AllAccounted;
    hide FetchedOnce;
    QuietMove(w, s, GivenUp(s, k, reason), k);
  }

  /** Taking up a download keeps it the only one of its blob, and the reservation within the limit. */
  lemma ReservedInv(w: World, s: State, k: nat)
    requires Inv(w, s) && k < |s.shared| && s.shared[k].stage.Looking?
    ensures Inv(w, Reserved(w, s, k))
  {
    hide Inv;
    hide Reservation;
    var f := s.shared[k].file;
    if s.downloads >= w.maxDownloads {
      GivenUpInv(w, s, k, DownloadLimit);
    } else if s.reservedBytes + Reservation(w, f) > w.maxBytes {
      GivenUpInv(w, s, k, ByteLimit);
    } else {
      GrantedInv(w, s, k, Reservation(w, f));
    }
  }

  lemma GrantedInv(w: World, s: State, k: nat, held: nat)
    requires Inv(w, s) && k < |s.shared| && s.shared[k].stage.Looking?
    requires s.downloads < w.maxDownloads && s.reservedBytes + held <= w.maxBytes
    ensures Inv(w, s.(reservedBytes := s.reservedBytes + held, downloads := s.downloads + 1,
                      fetched := s.fetched + [s.shared[k].file.sha],
                      shared := s.shared[k := Read(s.shared[k].file, Fetching, held)]))
  {
    hide TrueIndex;
    hide TrueImports;
    hide Accounted;
    hide AllAccounted;
    var s' := s.(reservedBytes := s.reservedBytes + held, downloads := s.downloads + 1,
                 fetched := s.fetched + [s.shared[k].file.sha],
                 shared := s.shared[k := Read(s.shared[k].file, Fetching, held)]);
    HeldChanges(s.shared, k, s'.shared[k]);
    ReservedOnce(s, s', k);
    hide OneReadEach;
    hide FetchedOnce;
    MovedKeeps(w, s, s', k);
  }

  lemma ReservedOnce(s: State, s': State, k: nat)
    requires OneReadEach(s.shared, s.pending) && FetchedOnce(s) && k < |s.shared| && s.shared[k].stage.Looking?
    requires s'.pending == s.pending && s'.downloads == s.downloads + 1
    requires s'.fetched == s.fetched + [s.shared[k].file.sha]
    requires |s'.shared| == |s.shared| && !s'.shared[k].stage.Looking? && s'.shared[k].file == s.shared[k].file
    requires forall j :: 0 <= j < |s.shared| && j != k ==> s'.shared[j] == s.shared[j]
    ensures FetchedOnce(s')
  {
  }

  lemma LookedInv(w: World, s: State, k: nat, found: Option<string>, failed: bool)
    requires Inv(w, s) && Enabled(w, s, Looked(k, found, failed))
    ensures Inv(w, AfterLook(w, s, k, found, failed))
  {
    hide Inv;
    if Aborted(s) {
      StoppedInv(w, s, k);
    } else if failed {
      BecauseInv(w, s, CacheUnavailable);
      ReservedInv(w, Because(s, CacheUnavailable), k);
    } else if found.None? {
      ReservedInv(w, s, k);
    } else {
      HitInv(w, s);
      AcceptedInv(w, s.(sourceHits := s.sourceHits + 1), k, found.value);
    }
  }

  lemma HitInv(w: World, s: State)
    requires Inv(w, s)
    ensures Inv(w, s.(sourceHits := s.sourceHits + 1))
  {
  }

  lemma FetchedInv(w: World, s: State, k: nat, got: Option<string>)
    requires Inv(w, s) && Enabled(w, s, Event.Fetched(k, got))
    ensures Inv(w, AfterFetch(w, s, k, got))
  {
    hide Inv;
    if Aborted(s) {
      StoppedInv(w, s, k);
    } else if got.None? {
      GivenUpInv(w, s, k, FileUnavailable);
    } else {
      CountedInv(w, s, k, w.bytes(got.value));
      var s' := Counted(s, k, w.bytes(got.value));
      AcceptedInv(w, s', k, got.value);
    }
  }

  lemma StoppedInv(w: World, s: State, k: nat)
    requires Inv(w, s) && k < |s.shared| && Aborted(s)
    ensures Inv(w, Staged(s, k, Done(None)))
  {
    hide TrueIndex;
    hide TrueImports;
    hide Accounted;
    hide OneReadEach;
    hide AllAccounted;
    hide FetchedOnce;
    QuietMove(w, s, Staged(s, k, Done(None)), k);
  }

  /**
   * Counting a download that fits its reservation: the total stays within the limit, so the
   * code's second look at the byte limit never finds it passed.
   */
  lemma CountedInv(w: World, s: State, k: nat, n: nat)
    requires Inv(w, s) && k < |s.shared| && s.shared[k].stage.Fetching? && n <= s.shared[k].held
    ensures Inv(w, Counted(s, k, n)) && Counted(s, k, n).downloadedBytes <= w.maxBytes
  {
    hide TrueIndex;
    hide TrueImports;
    hide Accounted;
    hide AllAccounted;
    hide OneReadEach;
    var s' := Counted(s, k, n);
    HeldChanges(s.shared, k, s'.shared[k]);
    HeldNat(s.shared, k);
    assert FetchedOnce(s');
    hide FetchedOnce;
    MovedKeeps(w, s, s', k);
  }

  /** Parsing what was read, or rejecting it for its length. */
  lemma AcceptedInv(w: World, s: State, k: nat, content: string)
    requires Inv(w, s) && k < |s.shared| && content == w.blob(s.shared[k].file.sha)
    ensures Inv(w, Accepted(w, s, k, content))
  {
    if w.bytes(content) > w.maxFileBytes {
      GivenUpInv(w, s, k, OversizedFile);
    } else {
      hide TrueIndex;
      hide Accounted;
      hide OneReadEach;
      hide AllAccounted;
      hide FetchedOnce;
      QuietMove(w, s, Accepted(w, s, k, content), k);
    }
  }

  lemma {:induction false} HeldNat(shared: seq<Read>, k: nat)
    requires k < |shared|
    ensures shared[k].held <= Held(shared)
    decreases |shared|
  {
    if k < |shared| - 1 {
      HeldNat(shared[..|shared| - 1], k);
    }
  }

  lemma CacheWriteInv(w: World, s: State, e: Event)
    requires Inv(w, s) && Enabled(w, s, e) && (e.Stored? || e.Saved?)
    ensures Inv(w, Step(w, s, e))
  {
    hide TrueIndex;
    hide Accounted;
    hide OneReadEach;
    hide AllAccounted;
    hide FetchedOnce;
    assert StageTrue(w, s, s.shared[e.k]);
    QuietMove(w, s, Step(w, s, e), e.k);
  }

  // ---- steps: the index ---------------------------------------------------------------------------------------

  /** What is delivered to a waiting file is the parse of its blob. */
  lemma ResultIsTrue(w: World, s: State, n: nat)
    requires OneReadEach(s.shared, s.pending) && StagesTrue(w, s) && Ready(s, n)
    ensures match s.shared[s.pending[s.missing[n].sha]].stage.result
            case None => Aborted(s) || s.reasons != {}
            case Some(p) => TrueParsed(w, s.missing[n], p)
  {
  }

  lemma DeliveredInv(w: World, s: State, n: nat)
    requires Inv(w, s) && Enabled(w, s, Deliver(n))
    ensures Inv(w, Step(w, s, Deliver(n)))
  {
    hide TrueImports;
    hide AllAccounted;
    hide TrueIndex;
    hide StagesTrue;
    hide OneReadEach;
    hide NoRepeats;
    var s' := Step(w, s, Deliver(n));
    ResultIsTrue(w, s, n);
    DeliveredIndex(w, s, s', s.missing[n], n);
    OpenedStages(w, s, s');
  }

  lemma DeliveredIndex(w: World, s: State, s': State, f: File, n: nat)
    requires TrueIndex(w, s.imports) && AllAccounted(w, s) && n < |s.missing| && f == s.missing[n]
    requires s' == s.(waiting := s'.waiting, imports := s'.imports, contents := s'.contents)
    requires s'.waiting == s.waiting - {n} && n in s.waiting
    requires s'.imports == s.imports[f.path := TrueImports(w, f)] ||
             (s'.imports == s.imports && (Aborted(s) || s.reasons != {}))
    ensures TrueIndex(w, s'.imports) && AllAccounted(w, s')
  {
  }

  lemma {:induction false} CacheIsTrue(w: World, files: seq<File>, hits: set<string>)
    ensures forall path :: path in FromCache(w, files, hits) ==>
              TrueEntry(w, files, path, FromCache(w, files, hits)[path])
    decreases |files|
  {
    hide TrueImports;
    if files != [] {
      var init, f := files[..|files| - 1], files[|files| - 1];
      var cached, earlier := FromCache(w, files, hits), FromCache(w, init, hits);
      CacheIsTrue(w, init, hits);
      forall path | path in cached
        ensures TrueEntry(w, files, path, cached[path])
      {
        if f.sha in hits && path == f.path {
          assert f in files;
        } else {
          var g :| g in init && g.path == path && earlier[path] == TrueImports(w, g);
          assert g in files;
        }
      }
    }
  }

  lemma {:induction false} CacheSplits(w: World, files: seq<File>, hits: set<string>)
    ensures forall f :: f in files ==> f.path in FromCache(w, files, hits) || f in NotInCache(files, hits)
    ensures forall f :: f in NotInCache(files, hits) ==> f in files
    decreases |files|
  {
    hide TrueImports;
    if files != [] {
      CacheSplits(w, files[..|files| - 1], hits);
      assert files == files[..|files| - 1] + [files[|files| - 1]];
    }
  }

  lemma LoadedInv(w: World, s: State, hits: set<string>, failed: bool)
    requires Inv(w, s) && !s.loaded
    ensures Inv(w, Loaded(w, s, hits, failed))
  {
    hide TrueImports;
    hide Chosen;
    hide FromCache;
    hide NotInCache;
    CacheSplits(w, Chosen(w), hits);
    CacheIsTrue(w, Chosen(w), hits);
    var s' := Loaded(w, s, hits, failed);
    forall k | 0 <= k < |s'.shared|
      ensures StageTrue(w, s', s'.shared[k])
    {
      assert StageTrue(w, s, s.shared[k]);
    }
  }

  lemma AbortInv(w: World, s: State, e: Event)
    requires Inv(w, s) && (e.Cancel? || e.Expire?)
    ensures Inv(w, Step(w, s, e))
  {
    hide TrueIndex;
    hide StagesTrue;
    hide OneReadEach;
    hide Chosen;
    hide NoRepeats;
    var s' := Step(w, s, e);
    OpenedStages(w, s, s');
    assert forall n :: 0 <= n < |s.missing| ==> Accounted(s, n);
  }

  lemma StepInv(w: World, s: State, e: Event)
    requires Inv(w, s) && Enabled(w, s, e)
    ensures Inv(w, Step(w, s, e))
  {
    match e
    case Load(hits, failed) => hide Inv; LoadedInv(w, s, hits, failed);
    case OpenBatch => hide Inv; OpenedInv(w, s);
    case Looked(k, found, failed) => hide Inv; LookedInv(w, s, k, found, failed);
    case Fetched(k, got) => hide Inv; FetchedInv(w, s, k, got);
    case Stored(_, _) => hide Inv; CacheWriteInv(w, s, e);
    case Saved(_, _) => hide Inv; CacheWriteInv(w, s, e);
    case Deliver(n) => hide Inv; DeliveredInv(w, s, n);
    case Cancel => hide Inv; AbortInv(w, s, e);
    case Expire => hide Inv; AbortInv(w, s, e);
  }

  /** Every state of every run satisfies the invariant. */
  lemma {:induction false} RunInv(w: World, events: seq<Event>, states: seq<State>, i: nat)
    requires IsRun(w, events, states) && i < |states|
    ensures Inv(w, states[i])
    decreases i
  {
    hide Inv;
    hide Enabled;
    hide Step;
    if i == 0 {
      StartInv(w);
    } else {
      RunInv(w, events, states, i - 1);
      assert Enabled(w, states[i - 1], events[i - 1]);
      StepInv(w, states[i - 1], events[i - 1]);
    }
  }

  // ---- the budgets ---------------------------------------------------------------------------------------------

  /**
   * In every state of every run: no more downloads than allowed, no blob downloaded twice,
   * and bytes downloaded within bytes reserved within the limit, the difference being
   * exactly what outstanding and failed downloads have reserved.
   */
  lemma Budgets(w: World, events: seq<Event>, states: seq<State>, i: nat)
    requires IsRun(w, events, states) && i < |states|
    ensures var s := states[i];
            && |s.fetched| == s.downloads <= w.maxDownloads && NoRepeats(s.fetched)
            && s.reservedBytes == s.downloadedBytes + Held(s.shared)
            && s.downloadedBytes <= s.reservedBytes <= w.maxBytes
  {
    hide IsRun;
    RunInv(w, events, states, i);
  }

  // ---- the finished index ----------------------------------------------------------------------------------------

  predicate DistinctPaths(files: seq<File>) {
    forall i, j :: 0 <= i < j < |files| ==> files[i].path != files[j].path
  }

  function Paths(files: seq<File>): set<string> {
    set f | f in files :: f.path
  }

  lemma PathTaken(init: seq<File>, f: File)
    ensures Paths(init + [f]) == Paths(init) + {f.path}
    ensures f.path in Paths(init) <==> exists i :: 0 <= i < |init| && init[i].path == f.path
  {
  }

  /** As many paths as files exactly when no two files share one. */
  lemma {:induction false} PathCount(files: seq<File>)
    ensures |Paths(files)| <= |files|
    ensures |Paths(files)| == |files| <==> DistinctPaths(files)
    decreases |files|
  {
    if files != [] {
      hide Paths;
      var init, f := files[..|files| - 1], files[|files| - 1];
      PathCount(init);
      assert files == init + [f];
      PathTaken(init, f);
      if f.path in Paths(init) {
        assert Paths(init) + {f.path} == Paths(init);
        var i :| 0 <= i < |init| && init[i].path == f.path;
        assert files[i].path == files[|init|].path;
      } else {
        assert |Paths(init) + {f.path}| == |Paths(init)| + 1;
      }
    }
  }

  lemma SubsetCount(a: set<string>, b: set<string>)
    requires a <= b
    ensures |a| <= |b| && (|a| == |b| ==> a == b)
  {
    assert |b| == |a| + |b - a| by { assert b == a + (b - a); }
    if |a| == |b| {
      assert b - a == {};
    }
  }

  lemma IndexedPaths(w: World, s: State)
    requires Inv(w, s)
    ensures s.imports.Keys <= Paths(w.eligible)
  {
  }

  /** A finished build with no reason against it has every file. */
  lemma NoReasonNoGap(w: World, s: State)
    requires Inv(w, s) && Finished(s) && FinalReasons(s) == {}
    ensures s.imports.Keys == Paths(w.eligible)
  {
  }

  /**
   * COMPLETE is reported exactly when nothing was recorded against the build and the
   * eligible files have distinct paths: no file is left out without a reason.
   */
  lemma CompleteExactly(w: World, events: seq<Event>, states: seq<State>, i: nat)
    requires IsRun(w, events, states) && i < |states| && Finished(states[i])
    ensures Complete(w, states[i]) <==> FinalReasons(states[i]) == {} && DistinctPaths(w.eligible)
  {
    hide IsRun;
    hide Inv;
    hide FinalReasons;
    var s := states[i];
    RunInv(w, events, states, i);
    IndexedPaths(w, s);
    PathCount(w.eligible);
    SubsetCount(s.imports.Keys, Paths(w.eligible));
    assert |s.imports| == |s.imports.Keys|;
    if FinalReasons(s) == {} {
      NoReasonNoGap(w, s);
    }
  }

  /** Whatever the interleaving, an index entry is the parse of a blob its path stands for. */
  lemma IndexIsTrue(w: World, events: seq<Event>, states: seq<State>, i: nat, path: string)
    requires IsRun(w, events, states) && i < |states| && path in states[i].imports
    ensures TrueEntry(w, w.eligible, path, states[i].imports[path])
    ensures exists n :: 0 <= n < |w.eligible| && n < w.maxFiles && w.eligible[n].path == path &&
                        states[i].imports[path] == w.parse(w.blob(w.eligible[n].sha))
    ensures |w.eligible| > w.maxFiles ==> FileLimit in states[i].reasons
  {
    hide IsRun;
    RunInv(w, events, states, i);
    assert TrueEntry(w, Chosen(w), path, states[i].imports[path]);
    var f :| f in Chosen(w) && f.path == path && states[i].imports[path] == TrueImports(w, f);
    var n :| 0 <= n < |Chosen(w)| && Chosen(w)[n] == f;
    assert w.eligible[n] == f;
  }

  /** A COMPLETE index is what parsing every eligible file without any cache would give. */
  lemma CompleteIsPlain(w: World, events: seq<Event>, states: seq<State>, i: nat)
    requires IsRun(w, events, states) && i < |states| && Finished(states[i]) && Complete(w, states[i])
    ensures states[i].imports.Keys == Paths(w.eligible)
    ensures forall f :: f in w.eligible ==> f.path in states[i].imports && states[i].imports[f.path] == TrueImports(w, f)
  {
    hide IsRun;
    hide TrueImports;
    hide FinalReasons;
    hide Inv;
    var s := states[i];
    RunInv(w, events, states, i);
    CompleteExactly(w, events, states, i);
    NoReasonNoGap(w, s);
    forall f | f in w.eligible
      ensures f.path in s.imports && s.imports[f.path] == TrueImports(w, f)
    {
      assert f.path in Paths(w.eligible);
      IndexIsTrue(w, events, states, i, f.path);
      var g :| g in w.eligible && g.path == f.path && s.imports[f.path] == TrueImports(w, g);
      assert g == f;
    }
  }

  // ---- every build ends --------------------------------------------------------------------------------------------

  function Rank(stage: Stage): nat {
    match stage
    case Looking => 4
    case Fetching => 3
    case Storing(_) => 2
    case Saving(_) => 1
    case Done(_) => 0
  }

  function Ranks(shared: seq<Read>): nat {
    if shared == [] then 0 else Ranks(shared[..|shared| - 1]) + Rank(shared[|shared| - 1].stage)
  }

  lemma {:induction false} RanksChange(shared: seq<Read>, k: nat, r: Read)
    requires k < |shared|
    ensures Ranks(shared[k := r]) == Ranks(shared) - Rank(shared[k].stage) + Rank(r.stage)
    decreases |shared|
  {
    var n := |shared| - 1;
    if k < n {
      RanksChange(shared[..n], k, r);
      assert shared[k := r][..n] == shared[..n][k := r];
    } else {
      assert shared[k := r][..n] == shared[..n];
    }
  }

  lemma {:induction false} RanksAsked(shared: seq<Read>, pending: map<string, nat>, files: seq<File>)
    ensures Ranks(AskedAll(shared, pending, files).0) <= Ranks(shared) + 4 * |files|
    decreases |files|
  {
    if files != [] {
      var init, f := files[..|files| - 1], files[|files| - 1];
      RanksAsked(shared, pending, init);
      var (r, p) := AskedAll(shared, pending, init);
      if f.sha !in p {
        assert (r + [Read(f, Looking, 0)])[..|r|] == r;
      }
    }
  }

  lemma {:induction false} IndicesCount(lo: nat, hi: nat)
    requires lo <= hi
    ensures |Indices(lo, hi)| == hi - lo
    decreases hi
  {
    if lo < hi {
      IndicesCount(lo, hi - 1);
    }
  }

  /** What a build can still have ahead of it. */
  function Ahead(w: World, s: State): int {
    (if s.loaded then 6 * (|s.missing| - s.next) else 6 * |Chosen(w)| + 1) + |s.waiting| + Ranks(s.shared)
  }

  /** Every step but an abort uses some of it up. */
  lemma StepAdvances(w: World, s: State, e: Event)
    requires Inv(w, s) && Enabled(w, s, e)
    ensures 0 <= Ahead(w, s)
    ensures Ahead(w, Step(w, s, e)) <= Ahead(w, s) - if e.Cancel? || e.Expire? then 0 else 1
  {
    hide Inv;
    AheadNat(w, s);
    match e
    case Load(hits, failed) => LoadAdvances(w, s, hits, failed);
    case OpenBatch => OpenAdvances(w, s);
    case Deliver(n) => assert s.waiting == (s.waiting - {n}) + {n};
    case Cancel =>
    case Expire =>
    case _ => ReadAdvances(w, s, e);
  }

  lemma AheadNat(w: World, s: State)
    requires Inv(w, s)
    ensures 0 <= Ahead(w, s)
  {
  }

  lemma LoadAdvances(w: World, s: State, hits: set<string>, failed: bool)
    requires Inv(w, s) && !s.loaded
    ensures Ahead(w, Loaded(w, s, hits, failed)) < Ahead(w, s)
  {
  }

  lemma OpenAdvances(w: World, s: State)
    requires Inv(w, s) && Enabled(w, s, OpenBatch)
    ensures Ahead(w, Opened(w, s)) < Ahead(w, s)
  {
    hide TrueIndex;
    hide StagesTrue;
    hide OneReadEach;
    hide AskedAll;
    var s' := Opened(w, s);
    RanksAsked(s.shared, s.pending, Batch(w, s));
    IndicesCount(s.next, s'.next);
  }

  predicate OthersStay(shared: seq<Read>, shared': seq<Read>, k: nat) {
    |shared'| == |shared| && forall j :: 0 <= j < |shared| && j != k ==> shared'[j] == shared[j]
  }

  /** One read has moved on and nothing else that counts has changed. */
  ghost predicate OneReadOn(s: State, s': State, k: nat)
    requires k < |s.shared|
  {
    && OthersStay(s.shared, s'.shared, k)
    && Rank(s'.shared[k].stage) < Rank(s.shared[k].stage)
    && s'.loaded == s.loaded && s'.missing == s.missing && s'.next == s.next && s'.waiting == s.waiting
  }

  lemma OneReadLess(w: World, s: State, s': State, k: nat)
    requires k < |s.shared| && OneReadOn(s, s', k)
    ensures Ahead(w, s') < Ahead(w, s)
  {
    hide Chosen;
    assert s'.shared == s.shared[k := s'.shared[k]];
    RanksChange(s.shared, k, s'.shared[k]);
  }

  lemma StagedOn(s: State, s0: State, k: nat, stage: Stage)
    requires k < |s.shared| && OthersStay(s.shared, s0.shared, k) && Rank(stage) < Rank(s.shared[k].stage)
    requires s0.loaded == s.loaded && s0.missing == s.missing && s0.next == s.next && s0.waiting == s.waiting
    ensures OneReadOn(s, Staged(s0, k, stage), k)
  {
  }

  lemma AcceptedOn(w: World, s: State, s0: State, k: nat, content: string)
    requires k < |s.shared| && OthersStay(s.shared, s0.shared, k) && Rank(s.shared[k].stage) > 2
    requires s0.loaded == s.loaded && s0.missing == s.missing && s0.next == s.next && s0.waiting == s.waiting
    ensures OneReadOn(s, Accepted(w, s0, k, content), k)
  {
    hide OneReadOn;
    hide OthersStay;
    hide Staged;
    if w.bytes(content) > w.maxFileBytes {
      StagedOn(s, Because(s0, OversizedFile), k, Done(None));
    } else {
      StagedOn(s, s0, k, Storing(Parsed(w.parse(content), content)));
    }
  }

  lemma ReservedOn(w: World, s: State, s0: State, k: nat)
    requires k < |s.shared| && s.shared[k].stage.Looking? && s0.shared == s.shared
    requires s0.loaded == s.loaded && s0.missing == s.missing && s0.next == s.next && s0.waiting == s.waiting
    ensures OneReadOn(s, Reserved(w, s0, k), k)
  {
    hide Staged;
    hide Reservation;
    if s0.downloads >= w.maxDownloads {
      StagedOn(s, Because(s0, DownloadLimit), k, Done(None));
    } else if s0.reservedBytes + Reservation(w, s0.shared[k].file) > w.maxBytes {
      StagedOn(s, Because(s0, ByteLimit), k, Done(None));
    }
  }

  lemma ReadAdvances(w: World, s: State, e: Event)
    requires Enabled(w, s, e) && (e.Looked? || e.Fetched? || e.Stored? || e.Saved?)
    ensures Ahead(w, Step(w, s, e)) < Ahead(w, s)
  {
    hide Ahead;
    hide Accepted;
    hide Reserved;
    hide OneReadOn;
    var s', k := Step(w, s, e), e.k;
    if Aborted(s) && (e.Looked? || e.Fetched?) {
      StagedOn(s, s, k, Done(None));
    } else {
      match e
      case Looked(_, found, failed) =>
        var s0 := if failed then Because(s, CacheUnavailable) else s;
        if found.Some? {
          AcceptedOn(w, s, s0.(sourceHits := s.sourceHits + 1), k, found.value);
        } else {
          ReservedOn(w, s, s0, k);
        }
      case Fetched(_, got) =>
        if got.Some? {
          FetchedOn(w, s, k, got.value);
        } else {
          StagedOn(s, Because(s, FileUnavailable), k, Done(None));
        }
      case _ => WriteOn(w, s, e);
    }
    OneReadLess(w, s, s', k);
  }

  lemma {:induction false} FetchedOn(w: World, s: State, k: nat, content: string)
    requires k < |s.shared| && s.shared[k].stage.Fetching? && !Aborted(s)
    ensures OneReadOn(s, AfterFetch(w, s, k, Some(content)), k)
  {
    hide Accepted;
    hide OneReadOn;
    hide Staged;
    var s0 := Counted(s, k, w.bytes(content));
    StagedOn(s, Because(s0, ByteLimit), k, Done(None));
    AcceptedOn(w, s, s0, k, content);
  }

  lemma WriteOn(w: World, s: State, e: Event)
    requires Enabled(w, s, e) && (e.Stored? || e.Saved?)
    ensures OneReadOn(s, Step(w, s, e), e.k)
  {
    hide OneReadOn;
    hide Staged;
    var parsed, s0 := s.shared[e.k].stage.parsed, Because(s, CacheUnavailable);
    StagedOn(s, s, e.k, Done(Some(parsed)));
    StagedOn(s, s0, e.k, Done(Some(parsed)));
    if e.Stored? {
      StagedOn(s, s, e.k, Saving(parsed));
      StagedOn(s, s0, e.k, Saving(parsed));
    }
  }

  function Aborts(events: seq<Event>): nat {
    if events == [] then 0
    else Aborts(events[..|events| - 1]) + if events[|events| - 1].Cancel? || events[|events| - 1].Expire? then 1 else 0
  }

  /** A build of n files takes at most 6n + 1 steps, aborts apart. */
  lemma {:induction false} BoundedSteps(w: World, events: seq<Event>, states: seq<State>)
    requires IsRun(w, events, states)
    ensures |events| - Aborts(events) + Ahead(w, states[|events|]) <= 6 * |Chosen(w)| + 1
    ensures |events| - Aborts(events) <= 6 * |Chosen(w)| + 1
    decreases |events|
  {
    hide Inv;
    hide Enabled;
    hide Step;
    hide Ahead;
    hide Chosen;
    var n := |events|;
    RunInv(w, events, states, n);
    AheadNat(w, states[n]);
    if n == 0 {
      StartAhead(w);
    } else {
      assert IsRun(w, events[..n - 1], states[..n]);
      BoundedSteps(w, events[..n - 1], states[..n]);
      RunInv(w, events, states, n - 1);
      assert Enabled(w, states[n - 1], events[n - 1]);
      StepAdvances(w, states[n - 1], events[n - 1]);
    }
  }

  lemma StartAhead(w: World)
    ensures Ahead(w, Start(w)) == 6 * |Chosen(w)| + 1
  {
  }

  /** Until it is finished, a build that is not aborted can always go on. */
  lemma NeverStuck(w: World, events: seq<Event>, states: seq<State>, i: nat)
    requires IsRun(w, events, states) && i < |states| && w.concurrency > 0
    requires !states[i].cancelled && !Finished(states[i])
    ensures exists e: Event :: !e.Cancel? && !e.Expire? && Enabled(w, states[i], e)
  {
    hide IsRun;
    hide TrueIndex;
    hide StagesTrue;
    hide WithinBudget;
    var s := states[i];
    RunInv(w, events, states, i);
    if !s.loaded {
      assert Enabled(w, s, Load({}, false));
    } else if s.waiting == {} {
      assert Enabled(w, s, OpenBatch);
    } else {
      var n :| n in s.waiting;
      var k := s.pending[s.missing[n].sha];
      match s.shared[k].stage
      case Looking => assert Enabled(w, s, Looked(k, None, true));
      case Fetching => assert Enabled(w, s, Event.Fetched(k, None));
      case Storing(_) => assert Enabled(w, s, Stored(k, false));
      case Saving(_) => assert Enabled(w, s, Saved(k, false));
      case Done(_) => assert Enabled(w, s, Deliver(n));
    }
  }

  // ---- why files are left out -------------------------------------------------------------------

  /** The text this event puts at hand, if any. */
  function AtHand(e: Event): Option<string> {
    match e
    case Looked(_, found, _) => found
    case Fetched(_, got) => got
    case _ => None
  }

  /** A reason is recorded only for what it says. */
  lemma ReasonsAreTrue(w: World, s: State, e: Event, reason: Reason)
    requires Inv(w, s) && Enabled(w, s, e) && reason in Step(w, s, e).reasons && reason !in s.reasons
    ensures match reason
            case CacheUnavailable =>
              !s.cancelled && !s.expired &&
              ((e.Load? && e.failed) || (e.Looked? && e.failed) || (e.Stored? && e.failed) || (e.Saved? && e.failed))
            case DownloadLimit => e.Looked? && e.found == None && s.downloads == w.maxDownloads
            case ByteLimit =>
              e.Looked? && e.found == None &&
              var size := s.shared[e.k].file.size;
              s.reservedBytes + (if size.Some? && size.value > 0 then size.value else w.maxFileBytes) > w.maxBytes
            case FileUnavailable => e.Fetched? && e.got == None
            case OversizedFile => AtHand(e).Some? && w.bytes(AtHand(e).value) > w.maxFileBytes
            case _ => false
  {
    hide StagesTrue;
    hide TrueIndex;
    hide AllAccounted;
    hide OneReadEach;
    hide NoRepeats;
    match e
    case Looked(k, found, failed) => assert s.downloads <= w.maxDownloads; hide Inv; LookedReasons(w, s, k, found, failed, reason);
    case Fetched(k, got) => hide Inv; FetchedReasons(w, s, k, got, reason);
    case OpenBatch => hide Inv; hide AskedAll;
    case Deliver(_) => hide Inv;
    case _ => hide Inv;
  }

  /** Every failure before an abort is recorded, and no reason is ever taken back. */
  lemma FailuresAreRecorded(w: World, s: State, e: Event)
    requires Enabled(w, s, e)
    ensures s.reasons <= Step(w, s, e).reasons
    ensures !s.cancelled && !s.expired && ((e.Load? && e.failed) || (e.Looked? && e.failed) || (e.Stored? && e.failed) || (e.Saved? && e.failed)) ==>
              CacheUnavailable in Step(w, s, e).reasons
    ensures !s.cancelled && !s.expired && e.Fetched? && e.got == None ==> FileUnavailable in Step(w, s, e).reasons
  {
    hide FromCache;
    hide NotInCache;
    hide AskedAll;
    hide Indices;
    match e
    case Load(_, _) =>
    case OpenBatch =>
    case Looked(_, _, _) =>
    case Fetched(_, _) =>
    case Stored(_, _) =>
    case Saved(_, _) =>
    case Deliver(_) =>
    case Cancel =>
    case Expire =>
  }

  lemma ReservedReasons(w: World, s: State, k: nat, reason: Reason)
    requires s.downloads <= w.maxDownloads && k < |s.shared|
    requires reason in Reserved(w, s, k).reasons && reason !in s.reasons
    ensures reason == DownloadLimit || reason == ByteLimit
    ensures reason == DownloadLimit ==> s.downloads == w.maxDownloads
    ensures reason == ByteLimit ==>
              var size := s.shared[k].file.size;
              s.reservedBytes + (if size.Some? && size.value > 0 then size.value else w.maxFileBytes) > w.maxBytes
  {
    GivenUpReasons(s, k, DownloadLimit);
    GivenUpReasons(s, k, ByteLimit);
    hide GivenUp;
  }

  lemma GivenUpReasons(s: State, k: nat, reason: Reason)
    requires k < |s.shared|
    ensures GivenUp(s, k, reason).reasons == s.reasons + {reason}
  {
  }

  lemma AcceptedReasons(w: World, s: State, k: nat, content: string, reason: Reason)
    requires k < |s.shared| && reason in Accepted(w, s, k, content).reasons && reason !in s.reasons
    ensures reason == OversizedFile && w.bytes(content) > w.maxFileBytes
  {
  }

  lemma LookedReasons(w: World, s: State, k: nat, found: Option<string>, failed: bool, reason: Reason)
    requires s.downloads <= w.maxDownloads && k < |s.shared|
    requires reason in AfterLook(w, s, k, found, failed).reasons && reason !in s.reasons
    ensures match reason
            case CacheUnavailable => !s.cancelled && !s.expired && failed
            case DownloadLimit => found == None && s.downloads == w.maxDownloads
            case ByteLimit =>
              found == None &&
              var size := s.shared[k].file.size;
              s.reservedBytes + (if size.Some? && size.value > 0 then size.value else w.maxFileBytes) > w.maxBytes
            case OversizedFile => found.Some? && w.bytes(found.value) > w.maxFileBytes
            case _ => false
  {
    hide Reserved;
    hide Accepted;
    if !Aborted(s) {
      var s' := if failed then Because(s, CacheUnavailable) else s;
      if reason !in s'.reasons {
        match found
        case Some(content) => AcceptedReasons(w, s'.(sourceHits := s.sourceHits + 1), k, content, reason);
        case None => ReservedReasons(w, s', k, reason);
      }
    }
  }

  lemma FetchedReasons(w: World, s: State, k: nat, got: Option<string>, reason: Reason)
    requires Inv(w, s) && Enabled(w, s, Event.Fetched(k, got))
    requires reason in AfterFetch(w, s, k, got).reasons && reason !in s.reasons
    ensures match reason
            case FileUnavailable => got == None
            case OversizedFile => got.Some? && w.bytes(got.value) > w.maxFileBytes
            case _ => false
  {
    hide Inv;
    if got.Some? {
      CountedInv(w, s, k, w.bytes(got.value));
    }
  }

  /** A text at hand is parsed unless it is too long, and its parse reaches every file that waits for it. */
  lemma NothingAtHandIsDropped(w: World, s: State, e: Event)
    requires Inv(w, s) && Enabled(w, s, e) && !s.cancelled && !s.expired
    ensures AtHand(e).Some? && w.bytes(AtHand(e).value) <= w.maxFileBytes ==>
              Step(w, s, e).shared[e.k].stage == Storing(Parsed(w.parse(AtHand(e).value), AtHand(e).value))
    ensures e.Stored? ==> Step(w, s, e).shared[e.k].stage == Saving(s.shared[e.k].stage.parsed)
    ensures e.Saved? ==> Step(w, s, e).shared[e.k].stage == Done(Some(s.shared[e.k].stage.parsed))
    ensures e.Deliver? ==>
              var path, result := s.missing[e.n].path, s.shared[s.pending[s.missing[e.n].sha]].stage.result;
              result.Some? ==>
                path in Step(w, s, e).imports && Step(w, s, e).imports[path] == result.value.value &&
                path in Step(w, s, e).contents && Step(w, s, e).contents[path] == result.value.content
  {
    hide StagesTrue;
    hide TrueIndex;
    hide AllAccounted;
    hide OneReadEach;
    hide NoRepeats;
    if e.Fetched? && e.got.Some? {
      CountedInv(w, s, e.k, w.bytes(e.got.value));
    }
  }

  /** A batch takes up the next files, as many as the concurrency limit allows; no more ever wait at once. */
  lemma BatchIsBounded(w: World, s: State, e: Event)
    requires Inv(w, s) && Enabled(w, s, e) && |s.waiting| <= w.concurrency
    ensures |Step(w, s, e).waiting| <= w.concurrency
    ensures e.OpenBatch? ==>
              Step(w, s, e).next == Min(s.next + w.concurrency, |s.missing|) &&
              forall n :: n in Step(w, s, e).waiting <==> s.next <= n < Min(s.next + w.concurrency, |s.missing|)
  {
    hide AskedAll;
    if e.OpenBatch? {
      assert s.next <= |s.missing|;
      hide Inv;
      IndicesCount(s.next, s.next + |Batch(w, s)|);
    } else if e.Deliver? {
      hide Inv;
      assert |s.waiting - {e.n}| <= |s.waiting|;
    } else {
      hide Inv;
      WaitersStay(w, s, e);
    }
  }

  lemma WaitersStay(w: World, s: State, e: Event)
    requires Enabled(w, s, e) && !e.OpenBatch? && !e.Deliver?
    ensures Step(w, s, e).waiting == s.waiting
  {
    hide FromCache;
    hide NotInCache;
    match e
    case Load(_, _) =>
    case Looked(_, _, _) =>
    case Fetched(_, _) =>
    case Stored(_, _) =>
    case Saved(_, _) =>
    case Cancel =>
    case Expire =>
  }
}
