/** What the provider's own writes, deletions, renames and new directories take out of its caches. */
module LocalChanges {
  import opened Common
  import opened Ordered
  import opened Paths
  import opened Invalidation
  import opened FileCache
  import opened CacheAccounting
  import opened CacheEpochs
  import opened CoherenceLaws
  import opened StaleResponses
  import opened Reports
  import opened Storing
  import opened SaveLaws

  /** The root, or a path a change event could name. */
  predicate Place(path: string) {
    path == "" || Canonical(path)
  }

  lemma ParentOfPlace(path: string)
    requires Place(path)
    ensures Parent(path) == DirectoryOf(path)
  {
    if path != "" { ParentOfCanonical(path); }
  }

  ghost predicate BasesWithout(c: Cache, c': Cache, gone: set<string>) {
    c'.writeBaseEtags.items == c.writeBaseEtags.items - gone
  }

  ghost predicate ItemsWithout(c: Cache, c': Cache, path: string) {
    forall item: Item :: Cached(c', item) == if item.path == path then None else Cached(c, item)
  }

  lemma ForgetPathExactly(c: Cache, path: string)
    ensures var c' := ForgetPath(c, path);
      ItemsWithout(c, c', path) && BasesWithout(c, c', {path})
      && c'.pathEpochs == c.pathEpochs && c'.globalEpoch == c.globalEpoch
  {
    hide WellOrdered, ForgetCached;
    var c1 := c.(writeBaseEtags := Remove(c.writeBaseEtags, {path}));
    ForgottenExactly(c1, {path});
    ForgottenFrame(c1, {path});
  }

  lemma ForgetMutatedExactly(c: Cache, path: string)
    requires Place(path)
    ensures ClearsOnly(c, ForgetPathAndParents(c, path), path)
    ensures BasesWithout(c, ForgetPathAndParents(c, path), {path})
  {
    hide WellOrdered, Cached, ForgetPath, InvalidateParent, PathEpoch, MarkPathStale, Canonical;
    ParentOfPlace(path);
    var marked := c.(pathEpochs := MarkPathStale(c.pathEpochs, path));
    var forgotten := ForgetPath(marked, path);
    var c' := ForgetPathAndParents(c, path);
    SameItems(c, marked);
    MarkedEpoch(c.pathEpochs, path);
    ForgetPathExactly(marked, path);
    ParentItems(forgotten, path);
    ParentEffects(forgotten, path);
    ForgetMutatedAdvances(c, path);
    forall item: Item | Affects(path, item)
      ensures Before(EpochsOf(c, item.path), EpochsOf(c', item.path))
    {
      if item.path != path {
        assert Clears(forgotten, c', StatOf(item.path));
        assert EpochsOf(c, item.path) == EpochsOf(forgotten, item.path);
      }
    }
  }

  /** A deletion that succeeds clears exactly what a change of its path affects and forgets its base;
      one that fails does nothing. What is cached below a deleted directory stays until the watcher
      reports the deletion. */
  lemma DeleteForgetsExactly(c: Cache, path: string, response: Result<()>)
    requires Place(path)
    ensures var c' := AfterDelete(c, path, response);
      && (response.Failed? ==> c' == c)
      && (response.Ok? ==> ClearsOnly(c, c', path) && BasesWithout(c, c', {path}))
  {
    hide ForgetPathAndParents, ClearsOnly, BasesWithout, Place;
    ForgetMutatedExactly(c, path);
  }

  /** Marking a path as changed takes its directory's listing and moves its own epoch, nothing else. */
  ghost predicate MarkedOnly(c: Cache, c': Cache, path: string) {
    && (forall item :: Cached(c', item) == if item == ListingOf(DirectoryOf(path)) then None else Cached(c, item))
    && Before(EpochsOf(c, path), EpochsOf(c', path))
    && (forall q :: q != path ==> EpochsOf(c', q) == EpochsOf(c, q))
    && c'.writeBaseEtags == c.writeBaseEtags && c'.globalEpoch == c.globalEpoch
  }

  /** So does asking for a new directory. */
  lemma MkdirMarksExactly(c: Cache, path: string)
    requires Place(path)
    ensures MarkedOnly(c, MarkMutated(c, path), path)
  {
    hide WellOrdered, Canonical;
    ParentOfPlace(path);
    MarkedEpoch(c.pathEpochs, path);
  }

  lemma MarkedThenCleared(c: Cache, c1: Cache, c2: Cache, path: string)
    requires MarkedOnly(c, c1, path) && ClearsOnly(c1, c2, path) && Advances(c, c1) && BasesWithout(c1, c2, {path})
    ensures ClearsOnly(c, c2, path) && BasesWithout(c, c2, {path})
  {
    hide Cached, EpochsOf, Before, NotAfter;
    forall item | Affects(path, item)
      ensures Clears(c, c2, item)
    {
      assert Clears(c1, c2, item);
      ClearedLater(c, c1, c2, item);
    }
  }

  lemma WriteKeepsListingOut(c: Cache, path: string, stat: Stat, content: Bytes, mtime: int, size: int, etag: string,
      dir: string)
    requires Cached(c, ListingOf(dir)).None?
    ensures Cached(RememberContent(RememberStat(c, path, stat), path, content, Some(mtime), Some(size), Some(etag)),
                   ListingOf(dir)).None?
  {
    hide WellOrdered, Evict, Put, Trim;
  }

  /** An answered write takes the listing of its directory and cuts off earlier answers for its path.
      Answered without a stat it clears exactly what a change of the path affects and forgets the base;
      a failed one does nothing. */
  lemma WriteForgetsExactly(c: Cache, path: string, content: Bytes, response: Result<Option<WireStat>>)
    requires Place(path)
    ensures var c' := AfterWrite(c, path, content, response);
      && (response.Failed? ==> c' == c)
      && (response.Ok? ==>
            Cached(c', ListingOf(DirectoryOf(path))).None? && Before(EpochsOf(c, path), EpochsOf(c', path)))
      && (response == Ok(None) ==> ClearsOnly(c, c', path) && BasesWithout(c, c', {path}))
  {
    hide WellOrdered, MarkMutated, ForgetPathAndParents, RememberStat, RememberContent, Cached, PathEpoch, Place;
    var marked := MarkMutated(c, path);
    MkdirMarksExactly(c, path);
    MarkMutatedAdvances(c, path);
    if response.Ok? {
      if response.value.None? {
        ForgetMutatedExactly(marked, path);
        hide ClearsOnly, BasesWithout, MarkedOnly, Before;
        MarkedThenCleared(c, marked, AfterWrite(c, path, content, response), path);
        ListingCleared(c, AfterWrite(c, path, content, response), path);
      } else {
        var w := response.value.value;
        var size := NonZero(w.stat.size, |content|);
        var stat := w.stat.(size := size);
        WriteKeepsListingOut(marked, path, stat, content, w.stat.mtime, size, w.etag, DirectoryOf(path));
        RememberFrames(marked, path, stat, content, None, None, None);
        RememberFrames(RememberStat(marked, path, stat), path, stat, content,
                       Some(w.stat.mtime), Some(size), Some(w.etag));
      }
    }
  }

  lemma ListingCleared(c: Cache, c': Cache, path: string)
    requires ClearsOnly(c, c', path)
    ensures Cached(c', ListingOf(DirectoryOf(path))).None?
    ensures Before(EpochsOf(c, path), EpochsOf(c', path))
  {
    hide Cached, EpochsOf, Before;
    assert Clears(c, c', ListingOf(DirectoryOf(path)));
    assert Clears(c, c', StatOf(path));
  }

  lemma SameEpochTables(c: Cache, c': Cache)
    requires c'.pathEpochs == c.pathEpochs && c'.globalEpoch == c.globalEpoch
    ensures forall q :: EpochsOf(c', q) == EpochsOf(c, q)
  {
  }

  /** The tables after the first part of an answered rename. */
  function SourceGone(c: Cache, from: string, to: string): Cache {
    var forgotten := ForgetPathAndParents(c, from);
    forgotten.(readdirs := Remove(forgotten.readdirs, {Parent(to)}))
  }

  lemma SourceForgotten(c: Cache, from: string, to: string)
    requires Place(from) && Place(to)
    ensures
      var c1 := SourceGone(c, from, to);
      && (forall item :: Cached(c1, item) ==
            if Affects(from, item) || item == ListingOf(DirectoryOf(to)) then None else Cached(c, item))
      && (forall item :: Affects(from, item) ==> Clears(c, c1, item))
      && (forall q :: q != from && q != DirectoryOf(from) ==> EpochsOf(c1, q) == EpochsOf(c, q))
      && BasesWithout(c, c1, {from})
  {
    hide WellOrdered, ForgetPathAndParents, Canonical, EpochsOf, Affects, Place;
    ForgetMutatedExactly(c, from);
    ParentOfPlace(to);
    var forgotten, c1 := ForgetPathAndParents(c, from), SourceGone(c, from, to);
    SameEpochTables(forgotten, c1);
    forall item | Affects(from, item)
      ensures Clears(c, c1, item)
    {
      assert Clears(c, forgotten, item);
    }
  }

  /** Under other items and other paths, storing a stat or a content adds nothing. */
  lemma StoringKeepsOut(c: Cache, path: string, stat: Stat, content: Bytes, mtime: int, size: int, etag: string)
    ensures var c1, c2 := RememberStat(c, path, stat),
                          RememberContent(c, path, content, Some(mtime), Some(size), Some(etag));
      && (forall item :: item != StatOf(path) && item != ContentOf(path) && Cached(c, item).None? ==>
            Cached(c1, item).None? && Cached(c2, item).None?)
      && (forall p :: p != path && p !in c.writeBaseEtags.items ==>
            p !in c1.writeBaseEtags.items && p !in c2.writeBaseEtags.items)
      && c1.pathEpochs == c2.pathEpochs == c.pathEpochs && c1.globalEpoch == c2.globalEpoch == c.globalEpoch
  {
    hide WellOrdered, Evict, Put, Trim;
  }

  /** A rename that succeeds forgets the old path and its base, as a deletion of it would, and takes the
      listing that the new name joins. Answered without a stat it also forgets all about the new path,
      and nothing else; one that fails does nothing. */
  lemma RenameForgetsExactly(c: Cache, from: string, to: string, response: Result<Option<WireStat>>)
    requires Place(from) && Place(to) && from != to
    ensures var c' := AfterRename(c, from, to, response);
      && (response.Failed? ==> c' == c)
      && (response.Ok? ==>
            && (forall item :: Affects(from, item) && item != StatOf(to) ==> Clears(c, c', item))
            && from !in c'.writeBaseEtags.items
            && Cached(c', ListingOf(DirectoryOf(to))).None?)
      && (response == Ok(None) ==>
            && (forall item: Item :: Cached(c', item) ==
                  if Affects(from, item) || item.path == to || item == ListingOf(DirectoryOf(to)) then None
                  else Cached(c, item))
            && BasesWithout(c, c', {from, to}))
  {
    hide AfterRename, Place, Affects, Clears, Cached, BasesWithout;
    RenameFails(c, from, to);
    RenameDrops(c, from, to);
    if response.Ok? && response.value.Some? { RenameStores(c, from, to, response.value.value); }
  }

  lemma RenameFails(c: Cache, from: string, to: string)
    ensures AfterRename(c, from, to, Failed) == c
  {
  }

  lemma RenameDrops(c: Cache, from: string, to: string)
    requires Place(from) && Place(to) && from != to
    ensures var c' := AfterRename(c, from, to, Ok(None));
      && (forall item :: Affects(from, item) ==> Clears(c, c', item))
      && (forall item: Item :: Cached(c', item) ==
            if Affects(from, item) || item.path == to || item == ListingOf(DirectoryOf(to)) then None
            else Cached(c, item))
      && from !in c'.writeBaseEtags.items && BasesWithout(c, c', {from, to})
  {
    hide AfterRename, WellOrdered, SourceGone, ForgetPath, Place, Cached, Affects, EpochsOf, Before;
    var c1 := SourceGone(c, from, to);
    var c' := ForgetPath(c1, to);
    SourceForgotten(c, from, to);
    RenameIs(c, from, to);
    ForgetPathExactly(c1, to);
    SameEpochTables(c1, c');
    forall item | Affects(from, item)
      ensures Clears(c, c', item)
    {
      assert Clears(c, c1, item);
    }
    assert c.writeBaseEtags.items - {from} - {to} == c.writeBaseEtags.items - {from, to};
  }

  lemma RenameIs(c: Cache, from: string, to: string)
    ensures AfterRename(c, from, to, Ok(None)) == ForgetPath(SourceGone(c, from, to), to)
  {
    hide WellOrdered, ForgetPathAndParents, ForgetPath;
  }

  lemma RenameStores(c: Cache, from: string, to: string, w: WireStat)
    requires Place(from) && Place(to) && from != to
    ensures var c' := AfterRename(c, from, to, Ok(Some(w)));
      && (forall item :: Affects(from, item) && item != StatOf(to) ==> Clears(c, c', item))
      && from !in c'.writeBaseEtags.items && Cached(c', ListingOf(DirectoryOf(to))).None?
  {
    hide AfterRename, WellOrdered, SourceGone, Place, Cached, Affects, EpochsOf, Before;
    var c1, c' := SourceGone(c, from, to), AfterRename(c, from, to, Ok(Some(w)));
    SourceForgotten(c, from, to);
    TargetStored(c, from, to, w);
    ContentIsOwn(from, to);
    SameEpochTables(c1, c');
    forall item | Affects(from, item) && item != StatOf(to)
      ensures Clears(c, c', item)
    {
      assert Clears(c, c1, item);
    }
  }

  /** A change of one path does not affect the content of another. */
  lemma ContentIsOwn(path: string, other: string)
    requires path != other
    ensures !Affects(path, ContentOf(other))
  {
  }

  lemma TargetStored(c: Cache, from: string, to: string, w: WireStat)
    ensures var c1, c' := SourceGone(c, from, to), AfterRename(c, from, to, Ok(Some(w)));
      && c'.pathEpochs == c1.pathEpochs && c'.globalEpoch == c1.globalEpoch
      && (forall item :: item != StatOf(to) && item != ContentOf(to) && Cached(c1, item).None? ==>
            Cached(c', item).None?)
      && (forall p :: p != to && p !in c1.writeBaseEtags.items ==> p !in c'.writeBaseEtags.items)
  {
    hide WellOrdered, RememberStat, RememberContent, ForgetPathAndParents, Cached;
    var c1 := SourceGone(c, from, to);
    StoringKeepsOut(c1, to, w.stat, [], 0, 0, "");
    if from in c.contents.items {
      var moved := c.contents.items[from];
      StoringKeepsOut(RememberStat(c1, to, w.stat), to, w.stat, moved.content, NonZero(w.stat.mtime, moved.mtime),
                      NonZero(w.stat.size, moved.size), w.etag);
    }
  }

  // ---- what an answered mutation stores ------------------------------------------------------

  /** A field of the answer, or what the client knows if the answer leaves it at zero. */
  function Given(field: int, known: int): int {
    if field == 0 then known else field
  }

  lemma MarkedKeepsRoom(c: Cache, path: string, bytes: nat)
    requires Room(c, bytes)
    ensures Room(MarkMutated(c, path), bytes)
  {
    hide TotalBytes;
  }

  /** A write answered with a stat leaves that stat, the written content if it fits, and the etag as the
      base; while there is room nothing else but the listing of its directory is touched. */
  lemma WriteStoresExactly(c: Cache, path: string, content: Bytes, w: WireStat)
    requires Place(path)
    ensures
      var c' := AfterWrite(c, path, content, Ok(Some(w)));
      && Cached(c', StatOf(path)) == Some(StatValue(w.stat.(size := Given(w.stat.size, |content|))))
      && Cached(c', ContentOf(path)) == Fitting(content)
      && BaseSet(c, c', path, Some(w.etag))
      && (Room(c, |content|) ==>
            && (forall item: Item :: item.path != path && item != ListingOf(DirectoryOf(path)) ==>
                  Cached(c', item) == Cached(c, item))
            && c'.writeBaseEtags.items - {path} == c.writeBaseEtags.items - {path})
  {
    hide WellOrdered, MarkMutated, RememberStat, RememberContent, Room, Cached, Fitting, BaseSet, Place;
    var marked, size := MarkMutated(c, path), NonZero(w.stat.size, |content|);
    var stat := w.stat.(size := size);
    var c1, c' := RememberStat(marked, path, stat), AfterWrite(c, path, content, Ok(Some(w)));
    MkdirMarksExactly(c, path);
    StatIsThere(marked, path, stat);
    RememberKeepsBases(marked, path, stat);
    ContentGoesIn(c1, path, content, Some(w.stat.mtime), Some(size), Some(w.etag));
    assert stat.(mtime := w.stat.mtime, size := size) == stat;
    BaseOf(c, c1, c', c', path, Some(w.etag));
    if Room(c, |content|) {
      MarkedKeepsRoom(c, path, |content|);
      StatThenContentStay(marked, path, stat, content, w.stat.mtime, size, w.etag);
    }
  }

  lemma SourceGoneKeepsRoom(c: Cache, from: string, to: string, bytes: nat)
    requires Room(c, bytes)
    ensures Room(SourceGone(c, from, to), bytes)
  {
    TotalAfterRemove(c.contents, {from});
    hide TotalBytes, WellOrdered;
  }

  lemma TargetStays(c: Cache, from: string, to: string, w: WireStat)
    requires Room(c, if from in c.contents.items then |c.contents.items[from].content| else 0)
    ensures OthersStay(SourceGone(c, from, to), AfterRename(c, from, to, Ok(Some(w))), {to})
  {
    hide WellOrdered, SourceGone, OthersStay, Cached;
    RenameStep(c, from, to, w);
    var c1 := SourceGone(c, from, to);
    if from in c.contents.items {
      var moved := c.contents.items[from];
      SourceGoneKeepsRoom(c, from, to, |moved.content|);
      hide RememberStat, RememberContent, AfterRename, Room;
      StatThenContentStay(c1, to, w.stat, moved.content, NonZero(w.stat.mtime, moved.mtime),
                          NonZero(w.stat.size, moved.size), w.etag);
    } else {
      SourceGoneKeepsRoom(c, from, to, 0);
      hide RememberStat, AfterRename;
      StatKeepsOthers(c1, to, w.stat);
    }
  }

  lemma RenameStep(c: Cache, from: string, to: string, w: WireStat)
    ensures
      var c2 := RememberStat(SourceGone(c, from, to), to, w.stat);
      AfterRename(c, from, to, Ok(Some(w))) ==
        if from !in c.contents.items then c2
        else
          var moved := c.contents.items[from];
          RememberContent(c2, to, moved.content, Some(NonZero(w.stat.mtime, moved.mtime)),
                          Some(NonZero(w.stat.size, moved.size)), Some(w.etag))
  {
    hide WellOrdered, ForgetPathAndParents, RememberStat, RememberContent;
  }

  /** A rename answered with a stat leaves that stat, and moves the cached content with the etag as its
      base; while there is room nothing else is touched but what the old path affects and the listing
      that the new name joins. */
  lemma RenameStoresExactly(c: Cache, from: string, to: string, w: WireStat)
    requires Place(from) && Place(to) && from != to
    ensures
      var c' := AfterRename(c, from, to, Ok(Some(w)));
      && (from in c.contents.items ==>
            var moved := c.contents.items[from];
            && Cached(c', StatOf(to)) == Some(StatValue(
                 w.stat.(mtime := Given(w.stat.mtime, moved.mtime), size := Given(w.stat.size, moved.size))))
            && Cached(c', ContentOf(to)) == Fitting(moved.content)
            && BaseSet(c, c', to, Some(w.etag)))
      && (from !in c.contents.items ==> Cached(c', StatOf(to)) == Some(StatValue(w.stat)) && BaseSet(c, c', to, None))
  {
    hide WellOrdered, SourceGone, RememberStat, RememberContent, Cached, Fitting, AfterRename, Place, Affects;
    var c1, c' := SourceGone(c, from, to), AfterRename(c, from, to, Ok(Some(w)));
    var c2 := RememberStat(c1, to, w.stat);
    RenameStep(c, from, to, w);
    SourceForgotten(c, from, to);
    StatIsThere(c1, to, w.stat);
    RememberKeepsBases(c1, to, w.stat);
    if from in c.contents.items {
      var moved := c.contents.items[from];
      ContentGoesIn(c2, to, moved.content, Some(NonZero(w.stat.mtime, moved.mtime)),
                    Some(NonZero(w.stat.size, moved.size)), Some(w.etag));
    } else {
      StatIsCached(c2, to);
    }
  }

  lemma StatIsCached(c: Cache, path: string)
    ensures Cached(c, StatOf(path)) == match StatFor(c, path) case Some(stat) => Some(StatValue(stat)) case None => None
  {
  }

  lemma RenameKeepsOthers(c: Cache, from: string, to: string, w: WireStat)
    requires Place(from) && Place(to) && from != to
    requires Room(c, if from in c.contents.items then |c.contents.items[from].content| else 0)
    ensures
      var c' := AfterRename(c, from, to, Ok(Some(w)));
      && (forall item: Item ::
            item.path != to && !Affects(from, item) && item != ListingOf(DirectoryOf(to)) ==>
              Cached(c', item) == Cached(c, item))
      && c'.writeBaseEtags.items - {from, to} == c.writeBaseEtags.items - {from, to}
  {
    hide WellOrdered, SourceGone, Cached, AfterRename, Place, Affects, Room;
    var c1, c' := SourceGone(c, from, to), AfterRename(c, from, to, Ok(Some(w)));
    SourceForgotten(c, from, to);
    TargetStays(c, from, to, w);
    var m0, m1, m2 := c.writeBaseEtags.items, c1.writeBaseEtags.items, c'.writeBaseEtags.items;
    assert m2 - {from, to} == (m2 - {to}) - {from} == (m1 - {to}) - {from} == m1 - {from, to} == m0 - {from, to};
  }

  /** A stat that fails forgets the path and its base, and moves no epoch; what its directory shows stays. */
  lemma FailedStatForgetsExactly(c: Cache, path: string, started: Epochs)
    ensures var c' := AfterStat(c, path, started, Failed);
      ItemsWithout(c, c', path) && BasesWithout(c, c', {path})
      && c'.pathEpochs == c.pathEpochs && c'.globalEpoch == c.globalEpoch
  {
    hide ForgetPath, Cached;
    ForgetPathExactly(c, path);
  }

  /** Binding a workspace forgets everything, and no request from before it matches the epochs. */
  lemma BindForgetsAll(c: Cache)
    ensures var c' := Rebound(c);
      (forall item :: Clears(c, c', item)) && (forall path :: !Knows(c', path))
  {
  }

  // ---- a listing on its way while its directory changes -----------------------------------

  lemma PageIsKept(c: Cache, dir: string, started: Epochs, page: DirectoryPage)
    requires !page.truncated
    ensures var after := AfterReaddir(c, dir, started, Ok(page));
      if EpochsOf(c, dir) == started then Cached(after, ListingOf(dir)) == Some(ListingValue(page.entries))
      else after == c
  {
    hide WellOrdered;
    NewestSurvivesTrim(c.readdirs, dir, page.entries, READDIR_ENTRIES);
  }

  lemma DirectoryIsShorter(path: string)
    requires Canonical(path)
    ensures DirectoryOf(path) != path
  {
  }

  lemma WriteEpochs(c: Cache, path: string, content: Bytes, w: WireStat, q: string)
    requires q != path
    ensures EpochsOf(AfterWrite(c, path, content, Ok(Some(w))), q) == EpochsOf(c, q)
  {
    hide WellOrdered, RememberStat, RememberContent, PathEpoch;
    MarkedEpoch(c.pathEpochs, path);
    var size := NonZero(w.stat.size, |content|);
    var stat := w.stat.(size := size);
    var marked := MarkMutated(c, path);
    RememberFrames(marked, path, stat, content, None, None, None);
    RememberFrames(RememberStat(marked, path, stat), path, stat, content,
                   Some(w.stat.mtime), Some(size), Some(w.etag));
  }

  /** A listing of its directory that was on its way while a write was answered is cached when it comes,
      though the written name may be missing from it, except if the answer came without a stat. */
  lemma ListingOverWriteKeptExactly(c: Cache, path: string, content: Bytes, response: Result<Option<WireStat>>,
      page: DirectoryPage)
    requires Canonical(path) && !page.truncated
    ensures
      var dir, now := DirectoryOf(path), AfterWrite(c, path, content, response);
      Cached(AfterReaddir(now, dir, EpochsOf(c, dir), Ok(page)), ListingOf(dir))
        == if response == Ok(None) then None else Some(ListingValue(page.entries))
  {
    hide AfterWrite, AfterReaddir, EpochsOf, Cached, Canonical;
    var dir, now := DirectoryOf(path), AfterWrite(c, path, content, response);
    DirectoryIsShorter(path);
    PageIsKept(now, dir, EpochsOf(c, dir), page);
    WriteForgetsExactly(c, path, content, response);
    if response.Ok? && response.value.Some? {
      WriteEpochs(c, path, content, response.value.value, dir);
    } else if response.Ok? {
      assert Clears(c, now, ListingOf(dir));
    }
  }

  /** The same for a new directory, whose listing in flight is always kept, and for a deletion, which
      always cuts it off. */
  lemma ListingOverMutationKeptExactly(c: Cache, path: string, page: DirectoryPage)
    requires Canonical(path) && !page.truncated
    ensures
      var dir := DirectoryOf(path);
      && Cached(AfterReaddir(MarkMutated(c, path), dir, EpochsOf(c, dir), Ok(page)), ListingOf(dir))
         == Some(ListingValue(page.entries))
      && Cached(AfterReaddir(AfterDelete(c, path, Ok(())), dir, EpochsOf(c, dir), Ok(page)), ListingOf(dir)).None?
  {
    hide MarkMutated, AfterDelete, AfterReaddir, EpochsOf, Cached, Canonical;
    var dir, deleted := DirectoryOf(path), AfterDelete(c, path, Ok(()));
    DirectoryIsShorter(path);
    PageIsKept(MarkMutated(c, path), dir, EpochsOf(c, dir), page);
    PageIsKept(deleted, dir, EpochsOf(c, dir), page);
    MkdirMarksExactly(c, path);
    DeleteForgetsExactly(c, path, Ok(()));
    assert Clears(c, deleted, ListingOf(dir));
  }

  lemma RenameEpochs(c: Cache, from: string, to: string, response: Result<Option<WireStat>>, q: string)
    requires Place(from) && Place(to) && response.Ok?
    ensures var now := AfterRename(c, from, to, response);
      if q == from || q == DirectoryOf(from) then EpochsOf(now, q) != EpochsOf(c, q)
      else EpochsOf(now, q) == EpochsOf(c, q)
  {
    hide AfterRename, SourceGone, ForgetPath, Cached, Affects, Place, EpochsOf;
    var c1, now := SourceGone(c, from, to), AfterRename(c, from, to, response);
    SourceForgotten(c, from, to);
    if response.value.None? {
      RenameIs(c, from, to);
      ForgetPathExactly(c1, to);
    } else {
      TargetStored(c, from, to, response.value.value);
    }
    SameEpochTables(c1, now);
    if q == from || q == DirectoryOf(from) {
      assert Affects(from, StatOf(q)) by { StatIsAffected(from, q); }
      assert Clears(c, c1, StatOf(q));
    }
  }

  lemma StatIsAffected(path: string, q: string)
    requires q == path || q == DirectoryOf(path)
    ensures Affects(path, StatOf(q))
  {
  }

  /** After an answered rename, a listing on its way of the directory that the new name joins is cut off
      if and only if that directory is the old path or the one that the old path was in. */
  lemma ListingOverRenameKeptExactly(c: Cache, from: string, to: string, response: Result<Option<WireStat>>,
      page: DirectoryPage)
    requires Place(from) && Place(to) && from != to && response.Ok? && !page.truncated
    ensures
      var dir, now := DirectoryOf(to), AfterRename(c, from, to, response);
      Cached(AfterReaddir(now, dir, EpochsOf(c, dir), Ok(page)), ListingOf(dir))
        == if dir == from || dir == DirectoryOf(from) then None else Some(ListingValue(page.entries))
  {
    hide AfterRename, AfterReaddir, EpochsOf, Cached, Place, Affects;
    var dir, now := DirectoryOf(to), AfterRename(c, from, to, response);
    PageIsKept(now, dir, EpochsOf(c, dir), page);
    RenameEpochs(c, from, to, response, dir);
    RenameForgetsExactly(c, from, to, response);
  }
}
