/** Responses begun before their path was invalidated: which of them can still enter a cache. */
module StaleResponses {
  import opened Common
  import opened Ordered
  import opened Paths
  import opened Changes
  import opened Invalidation
  import opened FileCache
  import opened CacheAccounting
  import opened CacheEpochs
  import opened Coherence
  import opened CoherenceLaws

  // ---- epochs only grow -----------------------------------------------------

  lemma SameEpochsAdvance(c: Cache, c': Cache)
    requires c'.pathEpochs == c.pathEpochs && c'.globalEpoch == c.globalEpoch
    ensures Advances(c, c')
  {
  }

  lemma MarkMutatedAdvances(c: Cache, path: string)
    ensures Advances(c, MarkMutated(c, path))
    ensures Before(EpochsOf(c, path), EpochsOf(MarkMutated(c, path), path))
  {
  }

  lemma ForgetMutatedAdvances(c: Cache, path: string)
    ensures Advances(c, ForgetPathAndParents(c, path))
    ensures Before(EpochsOf(c, path), EpochsOf(ForgetPathAndParents(c, path), path))
  {
    hide WellOrdered, InvalidateParent, ForgetPath;
    var marked := c.(pathEpochs := MarkPathStale(c.pathEpochs, path));
    MarkedEpoch(c.pathEpochs, path);
    assert Advances(c, marked);
    ForgetPathLoses(marked, path);
    ParentEffects(ForgetPath(marked, path), path);
    SameEpochsAdvance(marked, ForgetPath(marked, path));
    AdvancesTwice(marked, ForgetPath(marked, path), ForgetPathAndParents(c, path));
    AdvancesTwice(c, marked, ForgetPathAndParents(c, path));
    assert NotAfter(EpochsOf(marked, path), EpochsOf(ForgetPathAndParents(c, path), path));
  }

  lemma RememberFrames(c: Cache, path: string, stat: Stat, content: Bytes,
                       mtime: Option<int>, size: Option<int>, etag: Option<string>)
    ensures RememberStat(c, path, stat).pathEpochs == c.pathEpochs
    ensures RememberStat(c, path, stat).globalEpoch == c.globalEpoch
    ensures RememberContent(c, path, content, mtime, size, etag).pathEpochs == c.pathEpochs
    ensures RememberContent(c, path, content, mtime, size, etag).globalEpoch == c.globalEpoch
  {
    hide WellOrdered;
  }

  lemma WriteAdvances(c: Cache, path: string, content: Bytes, response: Result<Option<WireStat>>)
    ensures Advances(c, AfterWrite(c, path, content, response))
  {
    hide WellOrdered, RememberStat, RememberContent, MarkMutated, ForgetPathAndParents, Advances;
    SameEpochsAdvance(c, c);
    var marked := MarkMutated(c, path);
    MarkMutatedAdvances(c, path);
    if response.Ok? {
      if response.value.None? {
        ForgetMutatedAdvances(marked, path);
        AdvancesTwice(c, marked, ForgetPathAndParents(marked, path));
      } else {
        var w := response.value.value;
        var size := NonZero(w.stat.size, |content|);
        var c1 := RememberStat(marked, path, w.stat.(size := size));
        RememberFrames(marked, path, w.stat.(size := size), content, None, None, None);
        RememberFrames(c1, path, w.stat, content, Some(w.stat.mtime), Some(size), Some(w.etag));
        SameEpochsAdvance(marked, AfterWrite(c, path, content, response));
        AdvancesTwice(c, marked, AfterWrite(c, path, content, response));
      }
    }
  }

  lemma RenameAdvances(c: Cache, from: string, to: string, response: Result<Option<WireStat>>)
    ensures Advances(c, AfterRename(c, from, to, response))
  {
    hide WellOrdered, RememberStat, RememberContent, ForgetPathAndParents, ForgetPath, Advances;
    SameEpochsAdvance(c, c);
    if response.Ok? {
      var c' := AfterRename(c, from, to, response);
      var forgotten := ForgetPathAndParents(c, from);
      var c1 := forgotten.(readdirs := Remove(forgotten.readdirs, {Parent(to)}));
      ForgetMutatedAdvances(c, from);
      if response.value.None? {
        ForgetPathLoses(c1, to);
      } else {
        var w := response.value.value;
        RememberFrames(c1, to, w.stat, [], None, None, None);
        if from in c.contents.items {
          var moved := c.contents.items[from];
          RememberFrames(RememberStat(c1, to, w.stat), to, w.stat, moved.content,
                         Some(NonZero(w.stat.mtime, moved.mtime)), Some(NonZero(w.stat.size, moved.size)),
                         Some(w.etag));
        }
      }
      SameEpochsAdvance(forgotten, c');
      AdvancesTwice(c, forgotten, c');
    }
  }

  lemma ReadsKeepEpochs(c: Cache, path: string, started: Epochs, stat: Result<Stat>,
                        page: Result<DirectoryPage>, data: Result<FileData>)
    ensures Advances(c, AfterStat(c, path, started, stat))
    ensures Advances(c, AfterReaddir(c, path, started, page))
    ensures Advances(c, AfterRead(c, path, started, data))
  {
    hide WellOrdered, RememberStat, RememberContent, ForgetPath, Advances, EpochsOf;
    ForgetPathLoses(c, path);
    SameEpochsAdvance(c, c);
    SameEpochsAdvance(c, ForgetPath(c, path));
    if stat.Ok? {
      RememberFrames(c, path, stat.value, [], None, None, None);
      SameEpochsAdvance(c, RememberStat(c, path, stat.value));
    }
    if page.Ok? {
      SameEpochsAdvance(c, RememberReaddir(c, path, page.value.entries));
    }
    if data.Ok? {
      var d := data.value;
      if d.stat.Some? {
        var w := d.stat.value;
        RememberFrames(c, path, w.stat, [], None, None, None);
        RememberFrames(RememberStat(c, path, w.stat), path, w.stat, d.content,
                       Some(w.stat.mtime), Some(w.stat.size), Some(w.etag));
      } else {
        RememberFrames(c, path, Stat(Unknown, 0, 0, 0, false), d.content, None, Some(|d.content|), None);
      }
      SameEpochsAdvance(c, RememberFile(c, path, d));
    }
  }

  lemma ReboundAdvances(c: Cache)
    ensures Advances(c, Rebound(c))
  {
  }

  lemma OthersAdvance(c: Cache, path: string, written: Result<Option<WireStat>>, deleted: Result<()>)
    ensures Advances(c, TouchWriteBase(c, path)) && Advances(c, AfterMkdir(c, path, written))
    ensures Advances(c, AfterDelete(c, path, deleted))
    ensures ContentHit(c, path) ==> Advances(c, TouchContent(c, path))
  {
    hide WellOrdered, RememberStat, ForgetPathAndParents, Advances;
    SameEpochsAdvance(c, c);
    SameEpochsAdvance(c, TouchWriteBase(c, path));
    ForgetMutatedAdvances(c, path);
    if ContentHit(c, path) { SameEpochsAdvance(c, TouchContent(c, path)); }
    if written.Ok? && written.value.Some? {
      RememberFrames(c, path, written.value.value.stat, [], None, None, None);
      SameEpochsAdvance(c, AfterMkdir(c, path, written));
    }
  }

  lemma OperationAdvances(c: Cache, op: Operation)
    ensures Advances(c, Step(c, op))
  {
    hide WellOrdered, Advances, Rebound, Rescanned, ApplyChange, AfterStat, AfterReaddir, AfterRead, TouchContent,
         TouchWriteBase, MarkMutated, AfterMkdir, AfterDelete, AfterWrite, AfterRename;
    SameEpochsAdvance(c, c);
    match op
    case Bind => ReboundAdvances(c);
    case Rescan => RescanEffects(c);
    case Apply(change) => ChangeEffects(c, change);
    case StatDone(path, started, stat) => ReadsKeepEpochs(c, path, started, stat, Failed, Failed);
    case ReaddirDone(path, started, page) => ReadsKeepEpochs(c, path, started, Failed, page, Failed);
    case ReadDone(path, started, data) => ReadsKeepEpochs(c, path, started, Failed, Failed, data);
    case ContentServed(path) => OthersAdvance(c, path, Failed, Failed);
    case WriteSent(path) => OthersAdvance(c, path, Failed, Failed);
    case WriteDone(path, content, written) => WriteAdvances(c, path, content, written);
    case MkdirSent(path) => MarkMutatedAdvances(c, path);
    case MkdirDone(path, written) => OthersAdvance(c, path, written, Failed);
    case DeleteDone(path, deleted) => OthersAdvance(c, path, Failed, deleted);
    case RenameDone(path, to, written) => RenameAdvances(c, path, to, written);
  }

  lemma {:induction false} RunAdvances(c: Cache, ops: seq<Operation>)
    ensures Advances(c, Run(c, ops))
    decreases |ops|
  {
    if ops != [] {
      hide Advances, Step;
      OperationAdvances(c, ops[0]);
      RunAdvances(Step(c, ops[0]), ops[1..]);
      AdvancesTwice(c, Step(c, ops[0]), Run(c, ops));
    } else {
      SameEpochsAdvance(c, c);
    }
  }

  lemma StaleCompletion(c: Cache, f: Fetch)
    requires f.answer.Some? && f.started != EpochsOf(c, f.path)
    ensures OnlyLoses(c, Complete(c, f))
  {
    hide WellOrdered;
    ForgetPathLoses(c, f.path);
  }

  /** A response whose path, or everything, was invalidated at any time after the request started
      puts nothing into a cache, whatever it holds and whatever else happened in between. */
  lemma StaleResponseNeverEnters(c: Cache, earlier: seq<Operation>, invalidation: Operation, later: seq<Operation>,
      f: Fetch)
    requires f.answer.Some? && f.started == EpochsOf(c, f.path)
    requires var at := Run(c, earlier);
      Before(EpochsOf(at, f.path), EpochsOf(Step(at, invalidation), f.path))
    ensures var now := Run(Step(Run(c, earlier), invalidation), later);
      OnlyLoses(now, Complete(now, f))
  {
    hide Step, Complete, Cached, EpochsOf;
    var at := Run(c, earlier);
    var now := Run(Step(at, invalidation), later);
    RunAdvances(c, earlier);
    RunAdvances(Step(at, invalidation), later);
    assert NotAfter(EpochsOf(c, f.path), EpochsOf(at, f.path));
    assert NotAfter(EpochsOf(Step(at, invalidation), f.path), EpochsOf(now, f.path));
    StaleCompletion(now, f);
  }

  // ---- a subtree event and its in-flight descendants ------------------------

  lemma SubtreeEpochs(c: Cache, path: string, q: string)
    requires path != "" && InSubtree(q, path) && q != path && q != Parent(path)
    ensures EpochsOf(InvalidateSubtreeAndParent(c, path), q) == EpochsOf(c, q) <==> q !in KnownPaths(c)
    ensures Before(EpochsOf(c, q), EpochsOf(InvalidateSubtreeAndParent(c, path), q)) <==> q in KnownPaths(c)
  {
  }

  lemma SubtreeForgets(c: Cache, path: string, item: Item)
    requires InSubtree(item.path, path)
    ensures Cached(InvalidateSubtreeAndParent(c, path), item).None?
  {
    hide WellOrdered, InvalidateParent;
    var marked := MarkSubtreeStale(c, path);
    var gone := SetOf(InSubtreeOf(marked.stats.keys + marked.contents.keys + marked.readdirs.keys, path)) + {path};
    ForgetEffects(marked, gone);
    KeyOfItem(marked, item);
    ParentEffects(ForgetCached(marked, gone), path);
  }

  lemma KeyOfItem(c: Cache, item: Item)
    ensures Cached(c, item).Some? ==> item.path in c.stats.keys + c.contents.keys + c.readdirs.keys
  {
  }

  /** Some table has an entry for the path. */
  predicate Knows(c: Cache, path: string) {
    || path in c.writeBaseEtags.items || path in c.stats.items || path in c.contents.items || path in c.readdirs.items
    || path in c.pathEpochs.items
  }

  lemma KnownIsKnows(c: Cache, path: string)
    ensures path in KnownPaths(c) <==> Knows(c, path)
  {
  }

  /** The gap of the epochs for whole subtrees: the answer to a request for a descendant, begun before the delete
      event of its directory, is still kept if and only if no table had an entry for its path;
      a content also has to fit. */
  lemma DescendantKeptExactlyIfUnknown(c: Cache, path: string, q: string, stat: Stat, page: DirectoryPage,
      data: FileData)
    requires Canonical(path) && path + "/" <= q
    ensures
      var after := ApplyChange(c, Change(1, Deleted, path, "")).cache;
      var started := EpochsOf(c, q);
      && (Cached(AfterStat(after, q, started, Ok(stat)), StatOf(q)).Some? <==> !Knows(c, q))
      && (Cached(AfterReaddir(after, q, started, Ok(page)), ListingOf(q)).Some? <==>
           !page.truncated && !Knows(c, q))
      && (Cached(AfterRead(after, q, started, Ok(data)), ContentOf(q)).Some?
          <==> |data.content| <= CONTENT_BYTES && !Knows(c, q))
  {
    hide WellOrdered, InvalidateSubtreeAndParent, KnownPaths, RememberStat, RememberReaddir, RememberFile, EpochsOf,
         Knows;
    var after := ApplyChange(c, Change(1, Deleted, path, "")).cache;
    KnownIsKnows(c, q);
    assert after == InvalidateSubtreeAndParent(c, path);
    SubtreeEpochs(c, path, q);
    SubtreeForgets(c, path, StatOf(q));
    SubtreeForgets(c, path, ListingOf(q));
    SubtreeForgets(c, path, ContentOf(q));
    StatPresent(after, q, stat);
    ListingPresent(after, q, page.entries);
    FilePresent(after, q, data);
  }

  lemma ListingPresent(c: Cache, path: string, entries: Listing)
    ensures Cached(RememberReaddir(c, path, entries), ListingOf(path)).Some?
  {
    NewestSurvivesTrim(c.readdirs, path, entries, READDIR_ENTRIES);
  }

  /** A content is cached with its file if and only if it fits. */
  lemma ContentPresent(c: Cache, path: string, content: Bytes, mtime: Option<int>, size: Option<int>,
      etag: Option<string>)
    ensures Cached(RememberContent(c, path, content, mtime, size, etag), ContentOf(path)).Some? <==>
      |content| <= CONTENT_BYTES
  {
    hide WellOrdered, Evict, Put;
    var prev := StatFor(c, path);
    var entry := CachedContent(content, OrElse(mtime, if prev.Some? then prev.value.mtime else 0),
                               OrElse(size, if prev.Some? then prev.value.size else |content|));
    RememberedContentKept(c.contents, path, entry);
    if path in Evict(Put(c.contents, path, entry)).items {
      assert Evict(Put(c.contents, path, entry)).items[path] == entry by { EvictedValue(c.contents, path, entry); }
    }
  }

  lemma EvictedValue(m: OrderedMap<CachedContent>, path: string, entry: CachedContent)
    requires path in Evict(Put(m, path, entry)).items
    ensures Evict(Put(m, path, entry)).items[path] == entry
  {
  }

  lemma FilePresent(c: Cache, path: string, data: FileData)
    ensures Cached(RememberFile(c, path, data), ContentOf(path)).Some? <==> |data.content| <= CONTENT_BYTES
  {
    hide RememberContent, RememberStat, Cached;
    match data.stat
    case Some(w) =>
      ContentPresent(RememberStat(c, path, w.stat), path, data.content, Some(w.stat.mtime), Some(w.stat.size),
        Some(w.etag));
    case None =>
      ContentPresent(c, path, data.content, None, Some(|data.content|), None);
  }

  /** For instance the stat of `a/b` in a provider that knows nothing yet. */
  lemma DescendantKeptWitness(stat: Stat)
    ensures var after := ApplyChange(INITIAL, Change(1, Deleted, "a", "")).cache;
      Cached(AfterStat(after, "a/b", EpochsOf(INITIAL, "a/b"), Ok(stat)), StatOf("a/b")).Some?
  {
    assert "a" + "/" <= "a/b";
    assert Canonical("a") by {
      assert FirstIndex("a", '/') == 1;
      assert Segments("a") == ["a"];
    }
    DescendantKeptExactlyIfUnknown(INITIAL, "a", "a/b", stat, DirectoryPage([], false), FileData([], None));
  }
}
