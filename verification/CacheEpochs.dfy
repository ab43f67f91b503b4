/** How operations move the epochs and the cached items. */
module CacheEpochs {
  import opened Common
  import opened Ordered
  import opened Paths
  import opened Changes
  import opened Invalidation
  import opened FileCache
  import opened CacheAccounting

  datatype Value = StatValue(stat: Stat) | ContentValue(content: Bytes) | ListingValue(entries: Listing)

  function Cached(c: Cache, item: Item): Option<Value> {
    match item
    case StatOf(p) => if p in c.stats.items then Some(StatValue(c.stats.items[p])) else None
    case ContentOf(p) => if p in c.contents.items then Some(ContentValue(c.contents.items[p].content)) else None
    case ListingOf(p) => if p in c.readdirs.items then Some(ListingValue(c.readdirs.items[p])) else None
  }

  predicate Before(a: Epochs, b: Epochs) {
    a.global < b.global || (a.global == b.global && a.path < b.path)
  }

  predicate NotAfter(a: Epochs, b: Epochs) {
    a == b || Before(a, b)
  }

  ghost predicate OnlyLoses(c: Cache, c': Cache) {
    forall item :: Cached(c', item).None? || Cached(c', item) == Cached(c, item)
  }

  ghost predicate Advances(c: Cache, c': Cache) {
    forall q :: NotAfter(EpochsOf(c, q), EpochsOf(c', q))
  }

  /** The item is gone and no request for its path that started before may be kept. */
  predicate Clears(c: Cache, c': Cache, item: Item) {
    Cached(c', item).None? && Before(EpochsOf(c, item.path), EpochsOf(c', item.path))
  }

  // ---- single operations ----------------------------------------------------

  lemma MarkedEpoch(epochs: OrderedMap<nat>, path: string)
    ensures forall q :: PathEpoch(MarkPathStale(epochs, path), q) == PathEpoch(epochs, q) + if q == path then 1 else 0
  {
  }

  lemma ForgetEffects(c: Cache, gone: set<string>)
    ensures OnlyLoses(c, ForgetCached(c, gone))
    ensures forall item: Item :: item.path in gone ==> Cached(ForgetCached(c, gone), item).None?
  {
    hide WellOrdered;
  }

  lemma ParentEffects(c: Cache, path: string)
    ensures var c' := InvalidateParent(c, path);
      OnlyLoses(c, c') && Advances(c, c')
      && forall item: Item :: item.path == Parent(path) && !item.ContentOf? ==> Clears(c, c', item)
  {
    hide WellOrdered;
    MarkedEpoch(c.pathEpochs, Parent(path));
  }

  /** Forgetting takes exactly what is cached under the paths. */
  lemma ForgottenExactly(c: Cache, gone: set<string>)
    ensures forall item: Item ::
      Cached(ForgetCached(c, gone), item) == if item.path in gone then None else Cached(c, item)
  {
    hide WellOrdered;
  }

  /** Invalidating the parent takes exactly its stat and listing, and moves its epoch alone. */
  lemma ParentItems(c: Cache, path: string)
    ensures var c' := InvalidateParent(c, path);
      && (forall item: Item ::
            Cached(c', item) == if item.path == Parent(path) && !item.ContentOf? then None else Cached(c, item))
      && (forall q :: q != Parent(path) ==> PathEpoch(c'.pathEpochs, q) == PathEpoch(c.pathEpochs, q))
      && c'.globalEpoch == c.globalEpoch && c'.writeBaseEtags == c.writeBaseEtags
  {
    hide WellOrdered;
    MarkedEpoch(c.pathEpochs, Parent(path));
  }

  lemma OnlyLosesTwice(c: Cache, c1: Cache, c2: Cache)
    requires OnlyLoses(c, c1) && OnlyLoses(c1, c2)
    ensures OnlyLoses(c, c2)
  {
  }

  lemma AdvancesTwice(c: Cache, c1: Cache, c2: Cache)
    requires Advances(c, c1) && Advances(c1, c2)
    ensures Advances(c, c2)
  {
  }

  /** Once cleared, an item stays cleared while operations only lose items. */
  lemma ClearedStays(c: Cache, c1: Cache, c2: Cache, item: Item)
    requires OnlyLoses(c1, c2) && Advances(c1, c2) && Clears(c, c1, item)
    ensures Clears(c, c2, item)
  {
  }

  lemma ClearedLater(c: Cache, c1: Cache, c2: Cache, item: Item)
    requires Advances(c, c1) && Clears(c1, c2, item)
    ensures Clears(c, c2, item)
  {
  }

  ghost predicate ClearsTouched(c: Cache, c': Cache, path: string) {
    OnlyLoses(c, c') && Advances(c, c') && forall item :: Touches(path, item) ==> Clears(c, c', item)
  }

  /** Forgetting a path after its epoch moved, then the parent: everything it touches is cleared. */
  lemma TouchedCleared(c: Cache, marked: Cache, forgotten: Cache, path: string)
    requires marked == c.(pathEpochs := marked.pathEpochs) && Advances(c, marked)
    requires PathEpoch(marked.pathEpochs, path) > PathEpoch(c.pathEpochs, path)
    requires OnlyLoses(marked, forgotten) && forgotten.pathEpochs == marked.pathEpochs
    requires forgotten.globalEpoch == c.globalEpoch
    requires forall item: Item :: item.path == path ==> Cached(forgotten, item).None?
    ensures ClearsTouched(c, InvalidateParent(forgotten, path), path)
  {
    hide WellOrdered, InvalidateParent, PathEpoch;
    var c' := InvalidateParent(forgotten, path);
    ParentEffects(forgotten, path);
    assert OnlyLoses(c, marked);
    OnlyLosesTwice(c, marked, forgotten);
    OnlyLosesTwice(c, forgotten, c');
    assert forall q :: EpochsOf(forgotten, q) == EpochsOf(marked, q);
    assert Advances(c, forgotten);
    AdvancesTwice(c, forgotten, c');
    forall item | Touches(path, item)
      ensures Clears(c, c', item)
    {
      if item.path == path {
        ClearedStays(c, forgotten, c', item);
      } else {
        ClearedLater(c, forgotten, c', item);
      }
    }
  }

  lemma PathEffects(c: Cache, path: string)
    ensures ClearsTouched(c, InvalidatePathAndParent(c, path), path)
  {
    hide WellOrdered, ForgetCached, InvalidateParent;
    var marked := c.(pathEpochs := MarkPathStale(c.pathEpochs, path));
    MarkedEpoch(c.pathEpochs, path);
    ForgetEffects(marked, {path});
    ForgottenFrame(marked, {path});
    TouchedCleared(c, marked, ForgetCached(marked, {path}), path);
  }

  lemma ForgottenFrame(c: Cache, gone: set<string>)
    ensures ForgetCached(c, gone).pathEpochs == c.pathEpochs && ForgetCached(c, gone).globalEpoch == c.globalEpoch
    ensures ForgetCached(c, gone).writeBaseEtags == c.writeBaseEtags
  {
  }

  lemma SubtreeEffects(c: Cache, path: string)
    ensures ClearsTouched(c, InvalidateSubtreeAndParent(c, path), path)
  {
    hide WellOrdered, ForgetCached, InvalidateParent, PathEpoch;
    var marked := MarkSubtreeStale(c, path);
    assert path in InSubtreeOf(KnownPaths(c), path) + [path];
    var gone := SetOf(InSubtreeOf(marked.stats.keys + marked.contents.keys + marked.readdirs.keys, path)) + {path};
    ForgetEffects(marked, gone);
    ForgottenFrame(marked, gone);
    assert Advances(c, marked) by {
      assert forall q :: PathEpoch(marked.pathEpochs, q) >= PathEpoch(c.pathEpochs, q);
    }
    TouchedCleared(c, marked, ForgetCached(marked, gone), path);
  }

  lemma RescanEffects(c: Cache)
    ensures var c' := Rescanned(c).cache;
      OnlyLoses(c, c') && Advances(c, c') && forall item :: Clears(c, c', item)
  {
  }

  /** A change clears every item it stands for, and moves nothing backwards. */
  lemma ChangeEffects(c: Cache, change: Change)
    ensures var c' := ApplyChange(c, change).cache;
      OnlyLoses(c, c') && Advances(c, c') && forall item :: Drops(change, item) ==> Clears(c, c', item)
  {
    hide WellOrdered, InvalidatePathAndParent, InvalidateSubtreeAndParent, Touches, Cached, EpochsOf, Clears;
    var path, oldPath := Normalize(change.path), Normalize(change.oldPath);
    RescanEffects(c);
    PathEffects(c, path);
    SubtreeEffects(c, path);
    if change.kind.Renamed? && !Anywhere(change) {
      var c1 := InvalidateSubtreeAndParent(c, oldPath);
      var c2 := InvalidateSubtreeAndParent(c1, path);
      SubtreeEffects(c, oldPath);
      SubtreeEffects(c1, path);
      OnlyLosesTwice(c, c1, c2);
      AdvancesTwice(c, c1, c2);
      forall item | Drops(change, item)
        ensures Clears(c, c2, item)
      {
        if Touches(oldPath, item) {
          ClearedStays(c, c1, c2, item);
        } else {
          ClearedLater(c, c1, c2, item);
        }
      }
    }
  }

  // ---- callbacks ------------------------------------------------------------

  function ApplyCallback(c: Cache, callback: Callback): Cache {
    match callback
    case OnRescanRequired => Rescanned(c).cache
    case OnChange(change) => ApplyChange(c, change).cache
    case OnDisconnected => c
  }

  function ApplyCallbacks(c: Cache, callbacks: seq<Callback>): Cache
    decreases |callbacks|
  {
    if callbacks == [] then c else ApplyCallbacks(ApplyCallback(c, callbacks[0]), callbacks[1..])
  }

  lemma CallbackEffects(c: Cache, callback: Callback)
    ensures var c' := ApplyCallback(c, callback);
      OnlyLoses(c, c') && Advances(c, c') && forall item :: CallbackDrops(callback, item) ==> Clears(c, c', item)
  {
    hide WellOrdered, ApplyChange, Rescanned, Drops, Clears;
    match callback
    case OnRescanRequired => RescanEffects(c);
    case OnChange(change) => ChangeEffects(c, change);
    case OnDisconnected =>
  }

  lemma {:induction false} CallbacksEffects(c: Cache, callbacks: seq<Callback>)
    ensures var c' := ApplyCallbacks(c, callbacks);
      OnlyLoses(c, c') && Advances(c, c')
      && forall item, callback :: callback in callbacks && CallbackDrops(callback, item) ==> Clears(c, c', item)
    decreases |callbacks|
  {
    if callbacks != [] {
      hide WellOrdered, ApplyCallback, CallbackDrops, Clears, OnlyLoses, Advances;
      var c1 := ApplyCallback(c, callbacks[0]);
      var c' := ApplyCallbacks(c1, callbacks[1..]);
      CallbackEffects(c, callbacks[0]);
      CallbacksEffects(c1, callbacks[1..]);
      OnlyLosesTwice(c, c1, c');
      AdvancesTwice(c, c1, c');
      forall item, callback | callback in callbacks && CallbackDrops(callback, item)
        ensures Clears(c, c', item)
      {
        if callback == callbacks[0] {
          ClearedStays(c, c1, c', item);
        } else {
          assert callback in callbacks[1..];
          ClearedLater(c, c1, c', item);
        }
      }
    }
  }
}
