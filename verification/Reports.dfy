/** From a notification to what FileService is told and to what the caches lose, end to end. */
module Reports {
  import opened Common
  import opened Ordered
  import opened Paths
  import opened Changes
  import opened Invalidation
  import opened FileCache
  import opened CacheEpochs
  import opened Watch
  import opened ChangeClient
  import opened ChangeFeed
  import opened FeedLaws
  import opened StaleResponses

  // ---- what is published ------------------------------------------------------

  /** The notification stands for one change of one path that the watcher can publish. */
  predicate Expressible(e: RawEvent) {
    e.Notified? && e.inWorkspace && RenameOp !in e.ops && (CreateOp in e.ops ==> e.watchable)
  }

  /** The one event that tells of the notification: an addition if something was created, else a
      deletion if something was removed, else an update. */
  predicate TellsOf(e: RawEvent, event: FileEvent)
    requires e.Notified?
  {
    && event.resource == "/" + e.path
    && (event.kind == FileAdded <==> CreateOp in e.ops)
    && (event.kind == FileDeleted <==> RemoveOp in e.ops && CreateOp !in e.ops)
  }

  /** Handling a notification begins a publish to all open channels if it is expressible, and ends the
      root with a rescan otherwise; either way with the next number. */
  lemma HandledExactly(w: Watcher, e: RawEvent)
    requires Watch.Live(w) && UnderItsName(e) && !TemporaryFile(e.path)
    ensures
      var w', n := Handle(w, e), w.sequence + 1;
      && w'.sequence == n && w'.subscribers == w.subscribers
      && (Expressible(e) <==> w'.phase.Publishing?)
      && (Expressible(e) ==>
            && w'.phase.todo == OpenIds(w)
            && w'.phase.change.sequence == n && w'.phase.change.path == e.path && w'.phase.change.oldPath == ""
            && (w'.phase.change.kind == Added <==> CreateOp in e.ops)
            && (w'.phase.change.kind == Deleted <==> RemoveOp in e.ops && CreateOp !in e.ops)
            && w'.phase.change.kind in {Added, Deleted, Updated})
      && (!Expressible(e) ==> w'.phase == Rescanning(Change(n, RescanRequired, "", ""), OpenIds(w), {}))
  {
    hide TemporaryFile;
    var op :| op in e.ops;
    match op
    case CreateOp =>
    case WriteOp =>
    case RemoveOp =>
    case RenameOp =>
    case ChmodOp =>
  }

  // ---- what FileService is told -------------------------------------------------

  /** The events fired while the client makes these callbacks. */
  function Told(c: Cache, callbacks: seq<Callback>): seq<FileEvent>
    decreases |callbacks|
  {
    if callbacks == [] then []
    else
      match callbacks[0]
      case OnRescanRequired => Rescanned(c).fired + Told(Rescanned(c).cache, callbacks[1..])
      case OnChange(change) => ApplyChange(c, change).fired + Told(ApplyChange(c, change).cache, callbacks[1..])
      case OnDisconnected => Told(c, callbacks[1..])
  }

  lemma ToldOne(c: Cache, callback: Callback)
    ensures callback.OnRescanRequired? ==> Told(c, [callback]) == [FileEvent(FileUpdated, "/")]
    ensures callback.OnChange? ==> Told(c, [callback]) == ApplyChange(c, callback.change).fired
  {
    hide ApplyChange, InvalidateAll;
    assert [callback][1..] == [];
  }

  lemma AlarmThenChange(change: Change)
    ensures [OnRescanRequired] + [OnChange(change)] == [OnRescanRequired, OnChange(change)]
    ensures [] + [OnChange(change)] == [OnChange(change)]
  {
  }

  lemma ToldOfChange(c: Cache, change: Change)
    ensures Told(c, [OnChange(change)]) == ApplyChange(c, change).fired
    ensures Told(c, [OnRescanRequired, OnChange(change)])
         == [FileEvent(FileUpdated, "/")] + ApplyChange(Rescanned(c).cache, change).fired
  {
    ToldOne(c, OnChange(change));
    ToldOne(Rescanned(c).cache, OnChange(change));
    hide ApplyChange, InvalidateAll;
    assert [OnRescanRequired, OnChange(change)][1..] == [OnChange(change)];
  }

  /** A notified change, published, framed, received and applied: FileService is told of it by exactly
      one event, after the update of the root if the number of the frame was not the expected one. */
  lemma NotifiedChangeIsTold(w: Watcher, e: RawEvent, client: Client, c: Cache)
    requires Watch.Live(w) && UnderItsName(e) && !TemporaryFile(e.path) && Expressible(e)
    requires w.sequence + 1 < 0x20_0000_0000_0000
    ensures
      var w' := Handle(w, e);
      && w'.phase.Publishing?
      && var told := Told(c, Receive(client, Decode(WireEvent(w'.phase.change))).callbacks);
         var gap := client.nextSequence.Some? && client.nextSequence.value != w.sequence + 1;
         && |told| == (if gap then 2 else 1)
         && (gap ==> told[0] == FileEvent(FileUpdated, "/"))
         && TellsOf(e, told[|told| - 1])
  {
    hide TemporaryFile, Normalize, InvalidatePathAndParent, InvalidateSubtreeAndParent, InvalidateAll, Handle, Told;
    HandledExactly(w, e);
    var frame := WireEvent(Handle(w, e).phase.change);
    assert Readable(frame);
    ToldOfChange(c, frame);
    AlarmThenChange(frame);
  }

  /** A rescan makes FileService reload from the root, whatever else the frame says. */
  lemma RescanIsTold(client: Client, c: Cache, frame: Change)
    requires frame.kind.RescanRequired?
    ensures forall event <- Told(c, Receive(client, Decode(frame)).callbacks) :: event == FileEvent(FileUpdated, "/")
    ensures Told(c, Receive(client, Decode(frame)).callbacks) != []
  {
    hide InvalidateAll, Told;
    ToldOfChange(c, frame);
    AlarmThenChange(frame);
    ToldOne(c, OnRescanRequired);
  }

  /** A lost connection makes FileService reload from the root, and nothing stays cached over it. */
  lemma DisconnectIsTold(client: Client, c: Cache)
    requires !client.closed
    ensures
      var callbacks := Disconnect(client).callbacks;
      && Told(c, callbacks) == [FileEvent(FileUpdated, "/")]
      && forall item :: Clears(c, ApplyCallbacks(c, callbacks), item)
  {
    hide Told, Clears, InvalidateAll, ApplyCallbacks;
    DisconnectTells(client);
    var callbacks := [OnRescanRequired, OnDisconnected];
    RescanFirst(c);
    CallbacksEffects(c, callbacks);
    assert OnRescanRequired in callbacks;
  }

  lemma RescanFirst(c: Cache)
    ensures Told(c, [OnRescanRequired, OnDisconnected]) == [FileEvent(FileUpdated, "/")]
  {
    hide InvalidateAll;
    assert [OnRescanRequired, OnDisconnected][1..] == [OnDisconnected];
    assert [OnDisconnected][1..] == [];
  }

  /** What FileService must be told of a change, by its kind and paths alone: of a rename first that
      the old path went and then that the new one came. */
  predicate Announces(change: Change, fired: seq<FileEvent>) {
    && (Anywhere(change) ==> fired == [FileEvent(FileUpdated, "/")])
    && (Canonical(change.path) ==>
          && (change.kind.Added? ==> fired == [FileEvent(FileAdded, "/" + change.path)])
          && (change.kind.Updated? ==> fired == [FileEvent(FileUpdated, "/" + change.path)])
          && (change.kind.Deleted? ==> fired == [FileEvent(FileDeleted, "/" + change.path)])
          && (change.kind.Renamed? && Canonical(change.oldPath) ==>
                fired == [FileEvent(FileDeleted, "/" + change.oldPath), FileEvent(FileAdded, "/" + change.path)]))
  }

  lemma FiredIsAnnounced(c: Cache, change: Change)
    ensures Announces(change, ApplyChange(c, change).fired)
  {
    hide Normalize, InvalidatePathAndParent, InvalidateSubtreeAndParent, InvalidateAll;
  }

  // ---- what the caches lose, exactly ---------------------------------------------

  /** `q` names something in the directory `path`, at any depth. */
  predicate Below(q: string, path: string) {
    path + "/" <= q
  }

  ghost predicate SameBases(c: Cache, c': Cache) {
    c'.writeBaseEtags == c.writeBaseEtags
  }

  /** What a change at `path` affects is cleared, and nothing else is different. */
  ghost predicate ClearsOnly(c: Cache, c': Cache, path: string) {
    && c'.globalEpoch == c.globalEpoch
    && (forall item :: if Affects(path, item) then Clears(c, c', item) else Cached(c', item) == Cached(c, item))
    && forall q :: q != path && q != DirectoryOf(path) ==> EpochsOf(c', q) == EpochsOf(c, q)
  }

  /** As before, and everything below `path` is gone too: answers on their way for what lies there are
      cut off exactly where some table knew the path. */
  ghost predicate ClearsTree(c: Cache, c': Cache, path: string) {
    && c'.globalEpoch == c.globalEpoch
    && (forall item ::
          if Affects(path, item) then Clears(c, c', item)
          else Cached(c', item) == if Below(item.path, path) then None else Cached(c, item))
    && (forall q :: q != path && q != DirectoryOf(path) && !Below(q, path) ==> EpochsOf(c', q) == EpochsOf(c, q))
    && (forall q :: Below(q, path) ==> (Before(EpochsOf(c, q), EpochsOf(c', q)) <==> Knows(c, q)))
  }

  lemma PathClearsOnly(c: Cache, path: string)
    requires Parent(path) == DirectoryOf(path)
    ensures ClearsOnly(c, InvalidatePathAndParent(c, path), path)
    ensures SameBases(c, InvalidatePathAndParent(c, path))
  {
    hide WellOrdered, Cached, ForgetCached, InvalidateParent, PathEpoch, MarkPathStale, Clears;
    var marked := c.(pathEpochs := MarkPathStale(c.pathEpochs, path));
    var forgotten := ForgetCached(marked, {path});
    MarkedEpoch(c.pathEpochs, path);
    ForgottenExactly(marked, {path});
    ForgottenFrame(marked, {path});
    ParentItems(forgotten, path);
    PathEffects(c, path);
    SameItems(c, marked);
  }

  lemma SameItems(c: Cache, marked: Cache)
    requires marked == c.(pathEpochs := marked.pathEpochs)
    ensures forall item :: Cached(marked, item) == Cached(c, item)
  {
  }

  lemma TreeItems(c: Cache, path: string)
    requires Canonical(path)
    ensures var c' := InvalidateSubtreeAndParent(c, path);
      forall item :: Cached(c', item) ==
        if Affects(path, item) || Below(item.path, path) then None else Cached(c, item)
  {
    hide WellOrdered, Normalize, MarkAllStale, Cached, ForgetCached, InvalidateParent;
    ParentOfCanonical(path);
    var marked := MarkSubtreeStale(c, path);
    var keys := marked.stats.keys + marked.contents.keys + marked.readdirs.keys;
    var gone := SetOf(InSubtreeOf(keys, path)) + {path};
    var forgotten := ForgetCached(marked, gone);
    assert forgotten == ForgetCachedSubtree(marked, path);
    SameItems(c, marked);
    ForgottenExactly(marked, gone);
    ParentItems(forgotten, path);
    forall item: Item
      ensures Cached(forgotten, item)
           == if item.path == path || Below(item.path, path) then None else Cached(c, item)
    {
      KeyOfItem(marked, item);
    }
  }

  lemma TreeEpochs(c: Cache, path: string, q: string)
    requires Canonical(path) && q != path && q != DirectoryOf(path)
    ensures var before, after := EpochsOf(c, q), EpochsOf(InvalidateSubtreeAndParent(c, path), q);
      if Below(q, path) && Knows(c, q) then Before(before, after) else after == before
  {
    hide WellOrdered, Normalize, MarkAllStale, ForgetCached, InvalidateParent, PathEpoch;
    ParentOfCanonical(path);
    KnownIsKnows(c, q);
    var marked := MarkSubtreeStale(c, path);
    var keys := marked.stats.keys + marked.contents.keys + marked.readdirs.keys;
    var gone := SetOf(InSubtreeOf(keys, path)) + {path};
    ForgottenFrame(marked, gone);
    ParentItems(ForgetCached(marked, gone), path);
    var paths := InSubtreeOf(KnownPaths(c), path) + [path];
    hide Knows, KnownPaths;
    assert q in paths <==> Below(q, path) && Knows(c, q);
    assert PathEpoch(marked.pathEpochs, q) >= PathEpoch(c.pathEpochs, q);
    MarkedAll(c.pathEpochs, paths, q);
  }

  lemma MarkedAll(epochs: OrderedMap<nat>, paths: seq<string>, q: string)
    ensures if q in paths then PathEpoch(MarkAllStale(epochs, paths), q) > PathEpoch(epochs, q)
            else PathEpoch(MarkAllStale(epochs, paths), q) == PathEpoch(epochs, q)
  {
    hide PathEpoch;
  }

  lemma SubtreeClearsTree(c: Cache, path: string)
    requires Canonical(path)
    ensures ClearsTree(c, InvalidateSubtreeAndParent(c, path), path)
    ensures SameBases(c, InvalidateSubtreeAndParent(c, path))
  {
    hide WellOrdered, Normalize, Affects, Knows, EpochsOf, Cached, PathEpoch, InvalidateSubtreeAndParent, Below;
    var c' := InvalidateSubtreeAndParent(c, path);
    TreeItems(c, path);
    SubtreeEffects(c, path);
    forall item | Affects(path, item)
      ensures Clears(c, c', item)
    {
      TouchesIsAffects(path, item);
    }
    TreeFrame(c, path);
    forall q | q != path && q != DirectoryOf(path)
      ensures var before, after := EpochsOf(c, q), EpochsOf(c', q);
        if Below(q, path) && Knows(c, q) then Before(before, after) else after == before
    {
      TreeEpochs(c, path, q);
    }
    forall q | Below(q, path)
      ensures q != path && q != DirectoryOf(path)
    {
      LongerBelow(q, path);
    }
  }

  lemma LongerBelow(q: string, path: string)
    requires Below(q, path)
    ensures q != path && q != DirectoryOf(path)
  {
  }

  lemma TreeFrame(c: Cache, path: string)
    ensures var c' := InvalidateSubtreeAndParent(c, path);
      c'.globalEpoch == c.globalEpoch && c'.writeBaseEtags == c.writeBaseEtags
  {
  }

  /** A change of one path, as it can be notified, clears exactly what it affects, a deletion also what
      lies below, and keeps every write base. A rescan clears everything but the bases. */
  lemma ChangeClearsExactly(c: Cache, change: Change)
    ensures var c' := ApplyChange(c, change).cache;
      && SameBases(c, c')
      && (Canonical(change.path) && (change.kind.Added? || change.kind.Updated?) ==> ClearsOnly(c, c', change.path))
      && (Canonical(change.path) && change.kind.Deleted? ==> ClearsTree(c, c', change.path))
      && (Anywhere(change) ==> forall item :: Clears(c, c', item))
  {
    hide WellOrdered, Normalize, InvalidatePathAndParent, InvalidateSubtreeAndParent, ClearsOnly, ClearsTree, Clears;
    RescanEffects(c);
    var path, oldPath := Normalize(change.path), Normalize(change.oldPath);
    TreeFrame(c, path);
    TreeFrame(c, oldPath);
    TreeFrame(InvalidateSubtreeAndParent(c, oldPath), path);
    PathFrame(c, path);
    if Canonical(change.path) {
      ParentOfCanonical(path);
      PathClearsOnly(c, path);
      SubtreeClearsTree(c, path);
    }
  }

  lemma PathFrame(c: Cache, path: string)
    ensures SameBases(c, InvalidatePathAndParent(c, path))
  {
  }

  /** A rename clears exactly what a deletion of the old path and a deletion of the new one clear. */
  lemma RenameClearsExactly(c: Cache, sequence: nat, from: string, to: string)
    requires Canonical(from) && Canonical(to)
    ensures var c' := ApplyChange(c, Change(sequence, Renamed, to, from)).cache;
      && (forall item :: Affects(from, item) || Affects(to, item) ==> Clears(c, c', item))
      && (forall item :: !Affects(from, item) && !Affects(to, item) ==>
            Cached(c', item) == if Below(item.path, from) || Below(item.path, to) then None else Cached(c, item))
  {
    hide WellOrdered, Normalize, InvalidateSubtreeAndParent, Clears, Affects, Cached, Below;
    var c1 := InvalidateSubtreeAndParent(c, from);
    var c2 := InvalidateSubtreeAndParent(c1, to);
    SubtreeClearsTree(c, from);
    SubtreeClearsTree(c1, to);
    SubtreeEffects(c, from);
    SubtreeEffects(c1, to);
    forall item | Affects(from, item) || Affects(to, item)
      ensures Clears(c, c2, item)
    {
      if Affects(from, item) {
        ClearedStays(c, c1, c2, item);
      } else {
        ClearedLater(c, c1, c2, item);
      }
    }
    forall item | !Affects(from, item) && !Affects(to, item)
      ensures Cached(c2, item) == if Below(item.path, from) || Below(item.path, to) then None else Cached(c, item)
    {
      assert Cached(c1, item) == if Below(item.path, from) then None else Cached(c, item);
    }
  }
}
