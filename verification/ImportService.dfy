/**
 * The index build with its shared maps and counters updated in place, one method for each
 * stretch of code that runs without an await. Each method is the step of that name.
 */
module ImportService {
  import opened Basics
  import opened ImportIndex

  /** coverage, as returned to the caller. */
  datatype Coverage = Coverage(complete: bool, eligibleFiles: nat, indexedFiles: nat, missingFiles: int,
                               importCacheHits: nat, sourceCacheHits: nat, downloads: nat, downloadedBytes: nat,
                               reasons: set<Reason>)

  class ImportIndexBuild {
    const w: World
    var loaded: bool
    var cancelled: bool
    var expired: bool
    var reasons: set<Reason>
    var imports: map<string, Imports>
    var contents: map<string, string>
    var cacheHits: nat
    var sourceHits: nat
    var downloads: nat
    var downloadedBytes: nat
    var reservedBytes: int
    var shared: seq<Read>
    var pending: map<string, nat>
    var missing: seq<File>
    var next: nat
    var waiting: set<nat>
    ghost var fetched: seq<string>

    ghost function Now(): State
      reads this
    {
      State(loaded, cancelled, expired, reasons, imports, contents, cacheHits, sourceHits, downloads, downloadedBytes,
            reservedBytes, shared, pending, fetched, missing, next, waiting)
    }

    constructor (world: World)
      ensures w == world && Now() == Start(world)
    {
      w := world;
      loaded, cancelled, expired := false, false, false;
      reasons := if Min(world.maxFiles, |world.eligible|) < |world.eligible| then {FileLimit} else {};
      imports, contents := map[], map[];
      cacheHits, sourceHits, downloads, downloadedBytes, reservedBytes := 0, 0, 0, 0, 0;
      shared, pending, missing, next, waiting := [], map[], [], 0, {};
      fetched := [];
    }

    /** Which of these files the cache knows. */
    method FromHits(files: seq<File>, hits: set<string>)
      returns (found: map<string, Imports>, rest: seq<File>, count: nat)
      ensures found == FromCache(w, files, hits) && rest == NotInCache(files, hits) && count == |files| - |rest|
    {
      found, rest, count := map[], [], 0;
      for i := 0 to |files|
        invariant found == FromCache(w, files[..i], hits) && rest == NotInCache(files[..i], hits)
        invariant count == i - |rest|
      {
        var file := files[i];
        assert files[..i + 1][..i] == files[..i];
        if file.sha in hits {
          found := found[file.path := w.parse(w.blob(file.sha))];
          count := count + 1;
        } else {
          rest := rest + [file];
        }
      }
      assert files[..|files|] == files;
    }

    /** The cache has answered: index what it knows, list the rest as missing. */
    method LoadCache(hits: set<string>, failed: bool)
      requires Enabled(w, Now(), Load(hits, failed))
      modifies this
      ensures Now() == Step(w, old(Now()), Load(hits, failed))
    {
      hide FromCache;
      hide NotInCache;
      if failed && !cancelled && !expired {
        reasons := reasons + {CacheUnavailable};
      }
      imports, missing, cacheHits := FromHits(w.eligible[..Min(w.maxFiles, |w.eligible|)], hits);
      loaded := true;
    }

    /** read: join the read of the same blob, or begin one. */
    method Ask(file: File)
      modifies this`shared, this`pending
      ensures (shared, pending) == Asked(old(shared), old(pending), file)
    {
      if file.sha !in pending {
        pending := pending[file.sha := |shared|];
        shared := shared + [Read(file, Looking, 0)];
      }
    }

    method AskAll(files: seq<File>)
      modifies this`shared, this`pending
      ensures (shared, pending) == AskedAll(old(shared), old(pending), files)
    {
      for i := 0 to |files|
        invariant (shared, pending) == AskedAll(old(shared), old(pending), files[..i])
      {
        assert files[..i + 1][..i] == files[..i];
        Ask(files[i]);
      }
      assert files[..|files|] == files;
    }

    /** Take up the next files, at most as many as the concurrency limit. */
    method NextBatch()
      requires Enabled(w, Now(), OpenBatch)
      modifies this
      ensures Now() == Step(w, old(Now()), OpenBatch)
    {
      hide AskedAll;
      var end := if next + w.concurrency <= |missing| then next + w.concurrency else |missing|;
      AskAll(missing[next..end]);
      waiting := Indices(next, end);
      next := end;
    }

    method Stage(k: nat, stage: Stage)
      requires k < |shared|
      modifies this`shared
      ensures Now() == Staged(old(Now()), k, stage)
    {
      shared := shared[k := shared[k].(stage := stage)];
    }

    method Accept(k: nat, content: string)
      requires k < |shared|
      modifies this`shared, this`reasons
      ensures Now() == Accepted(w, old(Now()), k, content)
    {
      if w.bytes(content) > w.maxFileBytes {
        reasons := reasons + {OversizedFile};
        Stage(k, Done(None));
      } else {
        Stage(k, Storing(Parsed(w.parse(content), content)));
      }
    }

    method GiveUp(k: nat, reason: Reason)
      requires k < |shared|
      modifies this`shared, this`reasons
      ensures Now() == GivenUp(old(Now()), k, reason)
    {
      reasons := reasons + {reason};
      Stage(k, Done(None));
    }

    /** Reserve bytes before the download starts, so that reads in flight cannot overspend together. */
    method Reserve(k: nat)
      requires k < |shared|
      modifies this`shared, this`reasons, this`reservedBytes, this`downloads, this`fetched
      ensures Now() == Reserved(w, old(Now()), k)
    {
      hide Staged;
      if downloads >= w.maxDownloads {
        GiveUp(k, DownloadLimit);
        return;
      }
      var file := shared[k].file;
      var reservation := if file.size.Some? && file.size.value > 0 then file.size.value else w.maxFileBytes;
      if reservedBytes + reservation > w.maxBytes {
        GiveUp(k, ByteLimit);
        return;
      }
      reservedBytes := reservedBytes + reservation;
      downloads := downloads + 1;
      fetched := fetched + [file.sha];
      shared := shared[k := Read(file, Fetching, reservation)];
    }

    /** The source cache has answered: use its copy, or start a download. */
    method SourceAnswered(k: nat, found: Option<string>, failed: bool)
      requires Enabled(w, Now(), Looked(k, found, failed))
      modifies this
      ensures Now() == Step(w, old(Now()), Looked(k, found, failed))
    {
      hide Staged;
      hide Accepted;
      hide Reserved;
      if cancelled || expired {
        Stage(k, Done(None));
        return;
      }
      if failed {
        reasons := reasons + {CacheUnavailable};
      }
      if found.Some? {
        sourceHits := sourceHits + 1;
        Accept(k, found.value);
      } else {
        Reserve(k);
      }
    }

    /** GitHub has answered: settle the reservation and parse. */
    method BlobAnswered(k: nat, got: Option<string>)
      requires Enabled(w, Now(), Event.Fetched(k, got))
      modifies this
      ensures Now() == Step(w, old(Now()), Event.Fetched(k, got))
    {
      hide Staged;
      hide Accepted;
      if cancelled || expired {
        Stage(k, Done(None));
        return;
      }
      if got.None? {
        GiveUp(k, FileUnavailable);
        return;
      }
      Count(k, w.bytes(got.value));
      if downloadedBytes > w.maxBytes {
        GiveUp(k, ByteLimit);
        return;
      }
      Accept(k, got.value);
    }

    method Count(k: nat, bytes: nat)
      requires k < |shared|
      modifies this`shared, this`downloadedBytes, this`reservedBytes
      ensures Now() == Counted(old(Now()), k, bytes)
    {
      downloadedBytes := downloadedBytes + bytes;
      reservedBytes := reservedBytes + bytes - shared[k].held;
      shared := shared[k := shared[k].(held := 0)];
    }

    method ImportsStored(k: nat, failed: bool)
      requires Enabled(w, Now(), Stored(k, failed))
      modifies this
      ensures Now() == Step(w, old(Now()), Stored(k, failed))
    {
      var parsed := shared[k].stage.parsed;
      if failed && !cancelled && !expired {
        reasons := reasons + {CacheUnavailable};
      }
      if cancelled || expired {
        Stage(k, Done(Some(parsed)));
      } else {
        Stage(k, Saving(parsed));
      }
    }

    method SourceSaved(k: nat, failed: bool)
      requires Enabled(w, Now(), Saved(k, failed))
      modifies this
      ensures Now() == Step(w, old(Now()), Saved(k, failed))
    {
      if failed && !cancelled && !expired {
        reasons := reasons + {CacheUnavailable};
      }
      Stage(k, Done(Some(shared[k].stage.parsed)));
    }

    /** One file of the batch takes the result of its blob's read. */
    method TakeResult(n: nat)
      requires Enabled(w, Now(), Deliver(n))
      modifies this
      ensures Now() == Step(w, old(Now()), Deliver(n))
    {
      var file := missing[n];
      var result := shared[pending[file.sha]].stage.result;
      waiting := waiting - {n};
      if result.Some? {
        imports := imports[file.path := result.value.value];
        contents := contents[file.path := result.value.content];
      }
    }

    /** Reads only: what is reported at the end. */
    method Report() returns (c: Coverage)
      requires Finished(Now())
      ensures c.complete <==> Complete(w, Now())
      ensures c.reasons == FinalReasons(Now())
      ensures c.indexedFiles + c.missingFiles == c.eligibleFiles == |w.eligible| && c.indexedFiles == |imports|
      ensures c.importCacheHits == cacheHits && c.sourceCacheHits == sourceHits
      ensures c.downloads == downloads && c.downloadedBytes == downloadedBytes
    {
      var why := reasons;
      if expired {
        why := why + {Deadline};
      }
      if exists path | path in imports :: imports[path].unsupported {
        why := why + {UnsupportedResolution};
      }
      var gap := |w.eligible| - |imports|;
      c := Coverage(gap == 0 && why == {}, |w.eligible|, |imports|, gap, cacheHits, sourceHits, downloads,
                    downloadedBytes, why);
    }
  }
}
