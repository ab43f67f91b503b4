/** The file provider itself: fields updated in place, each method tied to the operation of
    `FileCache` it performs. A request is two methods, the part before its `await` and the
    part after; any other method may run in between. */
module Provider {
  import opened Common
  import opened Ordered
  import opened Paths
  import opened Changes
  import opened FileCache
  import opened CacheAccounting
  import opened Reports
  import opened LocalChanges

  datatype Started<+V> = NotBound | Hit(value: V) | Joined(promise: nat) | Sent(epochs: Epochs)

  class PlatformFileSystemProvider {
    var writeBaseEtags: OrderedMap<string>
    var stats: OrderedMap<Stat>
    var contents: OrderedMap<CachedContent>
    var readdirs: OrderedMap<Listing>
    var inflightStat: map<string, nat>
    var inflightRead: map<string, nat>
    var inflightReaddir: map<string, nat>
    var pathEpochs: OrderedMap<nat>
    var contentBytes: int
    var globalEpoch: nat
    var bound: bool

    ghost function Tables(): Cache
      reads this
    {
      Cache(writeBaseEtags, stats, contents, readdirs, pathEpochs, globalEpoch)
    }

    ghost predicate Accounted()
      reads this
    {
      contentBytes == TotalBytes(contents)
    }

    /** The byte counter is exact, every limit holds, contents agree with stats. */
    ghost predicate Valid()
      reads this
    {
      Accounted() && Sound(Tables())
    }

    constructor ()
      ensures Valid() && Tables() == INITIAL && !bound
      ensures inflightStat == inflightRead == inflightReaddir == map[]
    {
      writeBaseEtags, stats, contents, readdirs, pathEpochs := Empty(), Empty(), Empty(), Empty(), Empty();
      inflightStat, inflightRead, inflightReaddir := map[], map[], map[];
      contentBytes, globalEpoch, bound := 0, 0, false;
    }

    method Bind()
      modifies this
      ensures Valid() && bound
      ensures Tables() == Rebound(old(Tables()))
      ensures inflightStat == inflightRead == inflightReaddir == map[]
    {
      hide WellOrdered, Sound;
      EmptySound(globalEpoch + 1);
      bound := true;
      globalEpoch := globalEpoch + 1;
      writeBaseEtags, stats, contents, readdirs, pathEpochs := Empty(), Empty(), Empty(), Empty(), Empty();
      contentBytes := 0;
      inflightStat, inflightRead, inflightReaddir := map[], map[], map[];
    }

    // ---- contents, counted byte by byte -----------------------------------

    method DeleteContent(path: string)
      requires Accounted()
      modifies `contents, `contentBytes
      ensures Accounted()
      ensures contents == Remove(old(contents), {path})
    {
      TotalAfterDelete(contents, path);
      if path in contents.items {
        contentBytes := contentBytes - |contents.items[path].content|;
        contents := Remove(contents, {path});
      } else {
        RemoveAbsent(contents, path);
      }
    }

    /** Stores one content, then deletes the oldest ones until both limits hold. */
    method RememberContentEntry(path: string, entry: CachedContent)
      requires Accounted()
      modifies `contents, `contentBytes
      ensures Accounted()
      ensures contents == Evict(Put(old(contents), path, entry))
    {
      TotalAfterPut(contents, path, entry);
      SetAfterRemove(contents, path, entry);
      DeleteContent(path);
      contents := Set(contents, path, entry);
      contentBytes := contentBytes + |entry.content|;
      while |contents.keys| > CONTENT_ENTRIES || contentBytes > CONTENT_BYTES
        invariant Accounted()
        invariant Evict(contents) == Evict(Put(old(contents), path, entry))
        decreases |contents.keys|
      {
        if contents.keys == [] {
          break;
        }
        RemoveOldest(contents);
        DeleteContent(contents.keys[0]);
      }
    }

    method TouchCachedContent(path: string)
      requires Accounted() && path in contents.items
      modifies `contents
      ensures Accounted()
      ensures Tables() == TouchContent(old(Tables()), path)
    {
      TotalAfterPut(contents, path, contents.items[path]);
      TotalAfterDelete(contents, path);
      SetAfterRemove(contents, path, contents.items[path]);
      var cached := contents.items[path];
      contents := Remove(contents, {path});
      contents := Set(contents, path, cached);
    }

    // ---- forgetting -------------------------------------------------------

    method ForgetCachedPath(path: string)
      requires Accounted()
      modifies `stats, `contents, `contentBytes, `readdirs
      ensures Accounted()
      ensures Tables() == ForgetCached(old(Tables()), {path})
    {
      hide WellOrdered, TotalBytes;
      stats := Remove(stats, {path});
      DeleteContent(path);
      readdirs := Remove(readdirs, {path});
    }

    method ForgetOne(path: string)
      requires Accounted()
      modifies `writeBaseEtags, `stats, `contents, `contentBytes, `readdirs
      ensures Accounted()
      ensures Tables() == ForgetPath(old(Tables()), path)
    {
      writeBaseEtags := Remove(writeBaseEtags, {path});
      ForgetCachedPath(path);
    }

    method MarkStale(path: string)
      modifies `pathEpochs
      ensures pathEpochs == MarkPathStale(old(pathEpochs), path)
    {
      pathEpochs := Set(pathEpochs, path, PathEpoch(pathEpochs, path) + 1);
    }

    /** A path in several tables is marked once for each of them. */
    method MarkSubtree(path: string)
      modifies `pathEpochs
      ensures Tables() == MarkSubtreeStale(old(Tables()), path)
    {
      hide MarkAllStale, InSubtreeOf;
      var known := writeBaseEtags.keys + stats.keys + contents.keys + readdirs.keys + pathEpochs.keys;
      ghost var target := MarkAllStale(pathEpochs, InSubtreeOf(known, path) + [path]);
      assert known[0..] == known;
      for i := 0 to |known|
        invariant MarkAllStale(pathEpochs, InSubtreeOf(known[i..], path) + [path]) == target
      {
        MarkNext(pathEpochs, known, i, path);
        if InSubtree(known[i], path) {
          MarkStale(known[i]);
        }
      }
      MarkLast(pathEpochs, known, path);
      MarkStale(path);
    }

    method ForgetSubtree(path: string)
      requires Accounted()
      modifies `stats, `contents, `contentBytes, `readdirs
      ensures Accounted()
      ensures Tables() == ForgetCachedSubtree(old(Tables()), path)
    {
      hide ForgetCached, InSubtreeOf, TotalBytes;
      var known := stats.keys + contents.keys + readdirs.keys;
      ghost var gone: set<string> := {};
      ForgetNothing(Tables());
      SubtreeStart(known, path);
      for i := 0 to |known|
        invariant Accounted()
        invariant gone == SetOf(InSubtreeOf(known[..i], path))
        invariant Tables() == ForgetCached(old(Tables()), gone)
      {
        SubtreePrefix(known, i, path);
        if InSubtree(known[i], path) {
          ForgetTwice(old(Tables()), gone, {known[i]});
          ForgetCachedPath(known[i]);
          gone := gone + {known[i]};
        }
      }
      assert known[..|known|] == known;
      ForgetTwice(old(Tables()), gone, {path});
      ForgetCachedPath(path);
    }

    method InvalidateParentOf(path: string)
      modifies `pathEpochs, `readdirs, `stats
      ensures Tables() == InvalidateParent(old(Tables()), path)
    {
      var parent := Parent(path);
      MarkStale(parent);
      readdirs := Remove(readdirs, {parent});
      stats := Remove(stats, {parent});
    }

    method InvalidateOne(path: string)
      requires Accounted()
      modifies `pathEpochs, `stats, `contents, `contentBytes, `readdirs
      ensures Accounted()
      ensures Tables() == InvalidatePathAndParent(old(Tables()), path)
    {
      hide WellOrdered, TotalBytes;
      MarkStale(path);
      ForgetCachedPath(path);
      InvalidateParentOf(path);
    }

    method InvalidateSubtree(path: string)
      requires Accounted()
      modifies `pathEpochs, `stats, `contents, `contentBytes, `readdirs
      ensures Accounted()
      ensures Tables() == InvalidateSubtreeAndParent(old(Tables()), path)
    {
      hide WellOrdered, TotalBytes;
      MarkSubtree(path);
      ForgetSubtree(path);
      InvalidateParentOf(path);
    }

    method ForgetMutated(path: string)
      requires Accounted()
      modifies `writeBaseEtags, `pathEpochs, `stats, `contents, `contentBytes, `readdirs
      ensures Accounted()
      ensures Tables() == ForgetPathAndParents(old(Tables()), path)
    {
      hide WellOrdered, TotalBytes;
      MarkStale(path);
      ForgetOne(path);
      InvalidateParentOf(path);
    }

    // ---- watch events -----------------------------------------------------

    method Rescan() returns (fired: seq<FileEvent>)
      modifies `globalEpoch, `stats, `contents, `contentBytes, `readdirs
      ensures Accounted() && old(Valid()) ==> Valid()
      ensures Accounted() && Applied(Tables(), fired) == Rescanned(old(Tables()))
    {
      globalEpoch := globalEpoch + 1;
      stats, contents, readdirs := Empty(), Empty(), Empty();
      contentBytes := 0;
      fired := ROOT_UPDATED;
    }

    method ApplyWorkspaceChange(change: Change) returns (fired: seq<FileEvent>)
      requires Valid()
      modifies `globalEpoch, `pathEpochs, `stats, `contents, `contentBytes, `readdirs
      ensures Valid()
      ensures Applied(Tables(), fired) == ApplyChange(old(Tables()), change)
      ensures Announces(change, fired)
    {
      ApplySound(Tables(), change);
      FiredIsAnnounced(Tables(), change);
      if change.kind == ChangeKind.RescanRequired {
        fired := Rescan();
        return;
      }
      var path, oldPath := Normalize(change.path), Normalize(change.oldPath);
      if path == "" {
        fired := Rescan();
        return;
      }
      if change.kind == Added {
        InvalidateOne(path);
        fired := [FileEvent(FileAdded, Resource(path))];
      } else if change.kind == Updated {
        InvalidateOne(path);
        fired := [FileEvent(FileUpdated, Resource(path))];
      } else if change.kind == Deleted {
        InvalidateSubtree(path);
        fired := [FileEvent(FileDeleted, Resource(path))];
      } else if change.kind == Renamed {
        if oldPath == "" {
          fired := Rescan();
          return;
        }
        InvalidateSubtree(oldPath);
        InvalidateSubtree(path);
        fired := [FileEvent(FileDeleted, Resource(oldPath)), FileEvent(FileAdded, Resource(path))];
      } else {
        fired := Rescan();
      }
    }

    // ---- remembering ------------------------------------------------------

    method RememberBase(path: string, etag: Option<string>)
      modifies `writeBaseEtags
      ensures Tables() == RememberWriteBase(old(Tables()), path, etag)
    {
      if etag.None? || etag.value == "" {
        return;
      }
      writeBaseEtags := Put(writeBaseEtags, path, etag.value);
      writeBaseEtags := TrimOldestEntries(writeBaseEtags, WRITE_BASE_ENTRIES);
    }

    method RememberStatOf(path: string, stat: Stat)
      requires Accounted()
      modifies `stats, `contents, `contentBytes
      ensures Accounted()
      ensures Tables() == RememberStat(old(Tables()), path, stat)
    {
      stats := Put(stats, path, stat);
      stats := TrimOldestEntries(stats, STAT_ENTRIES);
      if path in contents.items {
        var cached := contents.items[path];
        if cached.mtime != stat.mtime || cached.size != stat.size {
          DeleteContent(path);
        }
      }
    }

    method RememberContentOf(path: string, content: Bytes, mtime: Option<int>, size: Option<int>, etag: Option<string>)
      requires Accounted()
      modifies `stats, `contents, `contentBytes, `writeBaseEtags
      ensures Accounted()
      ensures Tables() == RememberContent(old(Tables()), path, content, mtime, size, etag)
    {
      var prev := if path in stats.items then Some(stats.items[path]) else None;
      var time := if mtime.Some? then mtime.value else if prev.Some? then prev.value.mtime else 0;
      var resolvedSize := if size.Some? then size.value else if prev.Some? then prev.value.size else |content|;
      RememberContentEntry(path, CachedContent(content, time, resolvedSize));
      RememberBase(path, etag);
      if prev.Some? {
        RememberStatOf(path, prev.value.(mtime := OrElse(mtime, prev.value.mtime), size := resolvedSize));
      }
    }

    // ---- reads ------------------------------------------------------------

    method StatStart(path: string, promise: nat) returns (r: Started<Stat>)
      modifies `inflightStat
      ensures r ==
        if !bound then NotBound
        else if path in stats.items then Hit(stats.items[path])
        else if path in old(inflightStat) then Joined(old(inflightStat)[path])
        else Sent(EpochsOf(Tables(), path))
      ensures inflightStat == if r.Sent? then old(inflightStat)[path := promise] else old(inflightStat)
    {
      if !bound { return NotBound; }
      if path in stats.items { return Hit(stats.items[path]); }
      if path in inflightStat { return Joined(inflightStat[path]); }
      r := Sent(Epochs(globalEpoch, PathEpoch(pathEpochs, path)));
      inflightStat := inflightStat[path := promise];
    }

    method StatComplete(path: string, started: Epochs, response: Result<Stat>)
      requires Valid()
      modifies `inflightStat, `writeBaseEtags, `stats, `contents, `contentBytes, `readdirs
      ensures Valid()
      ensures Tables() == AfterStat(old(Tables()), path, started, response)
      ensures inflightStat == old(inflightStat) - {path}
    {
      hide WellOrdered, Sound, TotalBytes, RememberStat, RememberReaddir, ForgetPath;
      StatSound(Tables(), path, started, response);
      if response.Failed? {
        ForgetOne(path);
      } else if globalEpoch == started.global && PathEpoch(pathEpochs, path) == started.path {
        RememberStatOf(path, response.value);
      }
      inflightStat := inflightStat - {path};
    }

    method ReaddirStart(path: string, promise: nat) returns (r: Started<Listing>)
      modifies `inflightReaddir
      ensures r ==
        if !bound then NotBound
        else if path in readdirs.items then Hit(readdirs.items[path])
        else if path in old(inflightReaddir) then Joined(old(inflightReaddir)[path])
        else Sent(EpochsOf(Tables(), path))
      ensures inflightReaddir == if r.Sent? then old(inflightReaddir)[path := promise] else old(inflightReaddir)
    {
      if !bound { return NotBound; }
      if path in readdirs.items { return Hit(readdirs.items[path]); }
      if path in inflightReaddir { return Joined(inflightReaddir[path]); }
      r := Sent(Epochs(globalEpoch, PathEpoch(pathEpochs, path)));
      inflightReaddir := inflightReaddir[path := promise];
    }

    /** A truncated listing is an error and is not kept. */
    method ReaddirComplete(path: string, started: Epochs, response: Result<DirectoryPage>) returns (r: Result<Listing>)
      requires Valid()
      modifies `inflightReaddir, `readdirs
      ensures Valid()
      ensures Tables() == AfterReaddir(old(Tables()), path, started, response)
      ensures r == if response.Failed? || response.value.truncated then Failed else Ok(response.value.entries)
      ensures inflightReaddir == old(inflightReaddir) - {path}
    {
      hide WellOrdered, Sound, TotalBytes;
      ReaddirSound(Tables(), path, started, response);
      r := Failed;
      if response.Ok? && !response.value.truncated {
        if globalEpoch == started.global && PathEpoch(pathEpochs, path) == started.path {
          readdirs := Put(readdirs, path, response.value.entries);
          readdirs := TrimOldestEntries(readdirs, READDIR_ENTRIES);
        }
        r := Ok(response.value.entries);
      }
      inflightReaddir := inflightReaddir - {path};
    }

    /** In a valid provider a cached content is served without looking at its stat again. */
    method CachedContentOf(path: string) returns (hit: Option<Bytes>)
      requires Valid()
      modifies `contents
      ensures Valid()
      ensures hit == if path in old(contents).items then Some(old(contents).items[path].content) else None
      ensures Tables() == Step(old(Tables()), ContentServed(path))
    {
      if path !in contents.items { return None; }
      TouchContentSound(Tables(), path);
      var cached := contents.items[path];
      if path !in stats.items {
        TouchCachedContent(path);
        return Some(cached.content);
      }
      var stat := stats.items[path];
      if cached.mtime == stat.mtime && cached.size == stat.size {
        TouchCachedContent(path);
        return Some(cached.content);
      }
      assert false;
    }

    method ReadStart(path: string, promise: nat) returns (r: Started<Bytes>)
      requires Valid()
      modifies `inflightRead, `contents
      ensures Valid()
      ensures r ==
        if !bound then NotBound
        else if path in old(contents).items then Hit(old(contents).items[path].content)
        else if path in old(inflightRead) then Joined(old(inflightRead)[path])
        else Sent(EpochsOf(old(Tables()), path))
      ensures Tables() == if bound then Step(old(Tables()), ContentServed(path)) else old(Tables())
      ensures inflightRead == if r.Sent? then old(inflightRead)[path := promise] else old(inflightRead)
    {
      if !bound { return NotBound; }
      var hit := CachedContentOf(path);
      if hit.Some? { return Hit(hit.value); }
      if path in inflightRead { return Joined(inflightRead[path]); }
      r := Sent(Epochs(globalEpoch, PathEpoch(pathEpochs, path)));
      inflightRead := inflightRead[path := promise];
    }

    method ReadComplete(path: string, started: Epochs, response: Result<FileData>)
      requires Valid()
      modifies `inflightRead, `stats, `contents, `contentBytes, `writeBaseEtags
      ensures Valid()
      ensures Tables() == AfterRead(old(Tables()), path, started, response)
      ensures inflightRead == old(inflightRead) - {path}
    {
      hide WellOrdered, Sound, TotalBytes, RememberStat, RememberContent;
      ReadSound(Tables(), path, started, response);
      if response.Ok? && globalEpoch == started.global && PathEpoch(pathEpochs, path) == started.path {
        var data := response.value;
        if data.stat.Some? {
          RememberStatOf(path, data.stat.value.stat);
          RememberContentOf(path, data.content, Some(data.stat.value.stat.mtime),
                            Some(data.stat.value.stat.size), Some(data.stat.value.etag));
        } else {
          RememberContentOf(path, data.content, None, Some(|data.content|), None);
        }
      }
      inflightRead := inflightRead - {path};
    }

    // ---- local mutations --------------------------------------------------

    method WriteStart(path: string) returns (etag: Option<string>)
      requires Valid()
      modifies `writeBaseEtags
      ensures Valid()
      ensures etag == CurrentWriteBase(old(Tables()), path)
      ensures Tables() == TouchWriteBase(old(Tables()), path)
    {
      hide WellOrdered, Sound, TotalBytes;
      WriteSentSound(Tables(), path);
      etag := if path in writeBaseEtags.items then Some(writeBaseEtags.items[path]) else None;
      if etag.Some? && etag.value != "" {
        writeBaseEtags := Put(writeBaseEtags, path, etag.value);
      }
    }

    method WriteComplete(path: string, content: Bytes, response: Result<Option<WireStat>>)
      returns (fired: seq<FileEvent>)
      requires Valid()
      modifies `writeBaseEtags, `pathEpochs, `stats, `contents, `contentBytes, `readdirs
      ensures Valid()
      ensures Tables() == AfterWrite(old(Tables()), path, content, response)
      ensures fired == if response.Ok? then [FileEvent(FileUpdated, "/" + path)] else []
    {
      hide WellOrdered, Sound, TotalBytes, RememberStat, RememberContent, ForgetPathAndParents;
      WriteSound(Tables(), path, content, response);
      if response.Failed? { return []; }
      MarkStale(path);
      readdirs := Remove(readdirs, {Parent(path)});
      if response.value.Some? {
        var w := response.value.value;
        var size := NonZero(w.stat.size, |content|);
        RememberStatOf(path, w.stat.(size := size));
        RememberContentOf(path, content, Some(w.stat.mtime), Some(size), Some(w.etag));
      } else {
        ForgetMutated(path);
      }
      fired := [FileEvent(FileUpdated, Resource(path))];
    }

    method MkdirStart(path: string)
      requires Valid()
      modifies `pathEpochs, `readdirs
      ensures Valid()
      ensures Tables() == MarkMutated(old(Tables()), path)
    {
      MarkStale(path);
      readdirs := Remove(readdirs, {Parent(path)});
    }

    method MkdirComplete(path: string, response: Result<Option<WireStat>>)
      returns (fired: seq<FileEvent>)
      requires Valid()
      modifies `stats, `contents, `contentBytes
      ensures Valid()
      ensures Tables() == AfterMkdir(old(Tables()), path, response)
      ensures fired == if response.Ok? then [FileEvent(FileAdded, "/" + path)] else []
    {
      hide WellOrdered, Sound, TotalBytes, RememberStat;
      MkdirSound(Tables(), path, response);
      if response.Failed? { return []; }
      if response.value.Some? {
        RememberStatOf(path, response.value.value.stat);
      }
      fired := [FileEvent(FileAdded, Resource(path))];
    }

    method DeleteComplete(path: string, response: Result<()>)
      returns (fired: seq<FileEvent>)
      requires Valid()
      modifies `writeBaseEtags, `pathEpochs, `stats, `contents, `contentBytes, `readdirs
      ensures Valid()
      ensures Tables() == AfterDelete(old(Tables()), path, response)
      ensures response.Ok? && Place(path) ==>
        ClearsOnly(old(Tables()), Tables(), path) && BasesWithout(old(Tables()), Tables(), {path})
      ensures fired == if response.Ok? then [FileEvent(FileDeleted, "/" + path)] else []
    {
      hide WellOrdered, Sound, TotalBytes, ForgetPathAndParents, ClearsOnly, BasesWithout, Place;
      DeleteSound(Tables(), path, response);
      if Place(path) { DeleteForgetsExactly(Tables(), path, response); }
      if response.Failed? { return []; }
      ForgetMutated(path);
      fired := [FileEvent(FileDeleted, Resource(path))];
    }

    method RenameComplete(from: string, to: string, response: Result<Option<WireStat>>)
      returns (fired: seq<FileEvent>)
      requires Valid()
      modifies `writeBaseEtags, `pathEpochs, `stats, `contents, `contentBytes, `readdirs
      ensures Valid()
      ensures Tables() == AfterRename(old(Tables()), from, to, response)
      ensures fired ==
        if response.Ok? then [FileEvent(FileDeleted, "/" + from), FileEvent(FileAdded, "/" + to)] else []
    {
      hide WellOrdered, Sound, TotalBytes, RememberStat, RememberContent, ForgetPathAndParents, ForgetPath;
      RenameSound(Tables(), from, to, response);
      if response.Failed? { return []; }
      fired := [FileEvent(FileDeleted, Resource(from)), FileEvent(FileAdded, Resource(to))];
      var cached := if from in contents.items then Some(contents.items[from]) else None;
      ForgetMutated(from);
      readdirs := Remove(readdirs, {Parent(to)});
      if response.value.None? {
        ForgetOne(to);
        return;
      }
      var w := response.value.value;
      RememberStatOf(to, w.stat);
      if cached.Some? {
        RememberContentOf(to, cached.value.content, Some(NonZero(w.stat.mtime, cached.value.mtime)),
                          Some(NonZero(w.stat.size, cached.value.size)), Some(w.etag));
      }
    }
  }

  /** Empty tables hold no bytes and keep every limit. */
  lemma EmptySound(globalEpoch: nat)
    ensures Sound(Cache(Empty(), Empty(), Empty(), Empty(), Empty(), globalEpoch)) && TotalBytes(Empty()) == 0
  {
  }

  lemma MarkNext(epochs: OrderedMap<nat>, known: seq<string>, i: nat, path: string)
    requires i < |known|
    ensures MarkAllStale(epochs, InSubtreeOf(known[i..], path) + [path])
         == MarkAllStale(if InSubtree(known[i], path) then MarkPathStale(epochs, known[i]) else epochs,
                         InSubtreeOf(known[i + 1..], path) + [path])
  {
    var rest := InSubtreeOf(known[i + 1..], path) + [path];
    var now := InSubtreeOf(known[i..], path) + [path];
    assert known[i..][1..] == known[i + 1..];
    if InSubtree(known[i], path) {
      assert now == [known[i]] + rest;
      assert now[1..] == rest;
    } else {
      assert now == rest;
    }
  }

  lemma MarkLast(epochs: OrderedMap<nat>, known: seq<string>, path: string)
    ensures MarkAllStale(epochs, InSubtreeOf(known[|known|..], path) + [path]) == MarkPathStale(epochs, path)
  {
  }

  lemma SubtreeStart(keys: seq<string>, path: string)
    ensures SetOf(InSubtreeOf(keys[..0], path)) == {}
  {
  }

  lemma ForgetNothing(c: Cache)
    ensures ForgetCached(c, {}) == c
  {
    RemoveNone(c.stats);
    RemoveNone(c.contents);
    RemoveNone(c.readdirs);
  }

  lemma ForgetTwice(c: Cache, a: set<string>, b: set<string>)
    ensures ForgetCached(ForgetCached(c, a), b) == ForgetCached(c, a + b)
  {
    RemoveTwice(c.stats, a, b);
    RemoveTwice(c.contents, a, b);
    RemoveTwice(c.readdirs, a, b);
  }

  lemma SubtreePrefix(keys: seq<string>, i: nat, path: string)
    requires i < |keys|
    ensures SetOf(InSubtreeOf(keys[..i + 1], path))
         == SetOf(InSubtreeOf(keys[..i], path)) + if InSubtree(keys[i], path) then {keys[i]} else {}
  {
  }
}
