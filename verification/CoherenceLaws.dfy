/** Cache coherence over every run. */
module CoherenceLaws {
  import opened Common
  import opened Ordered
  import opened Paths
  import opened Changes
  import opened Invalidation
  import opened FileCache
  import opened CacheAccounting
  import opened CacheEpochs
  import opened ChangeFeed
  import opened FeedLaws
  import opened Coherence

  // ---- what a completion stores ---------------------------------------------

  /** A completion loses items, or stores exactly what its answer carries, and that only when no
      epoch moved since its start. */
  ghost predicate StoresOnly(c: Cache, c': Cache, f: Fetch)
    requires f.answer.Some?
  {
    && (forall q :: EpochsOf(c', q) == EpochsOf(c, q))
    && forall item :: Cached(c', item).None? || Cached(c', item) == Cached(c, item)
         || (EpochsOf(c, f.path) == f.started && Cached(c', item) == Offers(f.path, f.answer.value, item))
  }

  lemma StatStored(c: Cache, path: string, stat: Stat)
    ensures var c' := RememberStat(c, path, stat);
      && c'.pathEpochs == c.pathEpochs && c'.globalEpoch == c.globalEpoch
      && forall item :: Cached(c', item).None? || Cached(c', item) == Cached(c, item)
           || (item == StatOf(path) && Cached(c', item) == Some(StatValue(stat)))
  {
    hide WellOrdered;
  }

  lemma ReaddirStored(c: Cache, path: string, entries: Listing)
    ensures var c' := RememberReaddir(c, path, entries);
      && c'.pathEpochs == c.pathEpochs && c'.globalEpoch == c.globalEpoch
      && forall item :: Cached(c', item).None? || Cached(c', item) == Cached(c, item)
           || (item == ListingOf(path) && Cached(c', item) == Some(ListingValue(entries)))
  {
    hide WellOrdered;
  }

  lemma KeptEntry(c: Cache, path: string, entry: CachedContent)
    ensures
      var kept := Evict(Put(c.contents, path, entry));
      && (path in kept.items ==> kept.items[path] == entry)
      && forall p :: p in kept.items && p != path ==> p in c.contents.items && kept.items[p] == c.contents.items[p]
  {
    hide WellOrdered;
  }

  /** With time and size given, an earlier stat that carries them is stored again as it was. */
  lemma ContentStored(c: Cache, path: string, content: Bytes, stat: Stat, etag: string)
    requires StatFor(c, path) == Some(stat)
    ensures var c' := RememberContent(c, path, content, Some(stat.mtime), Some(stat.size), Some(etag));
      && c'.pathEpochs == c.pathEpochs && c'.globalEpoch == c.globalEpoch
      && forall item :: Cached(c', item).None? || Cached(c', item) == Cached(c, item)
           || (item == ContentOf(path) && Cached(c', item) == Some(ContentValue(content)))
  {
    hide WellOrdered, Evict, Put, Trim, RememberStat, OverContentLimit;
    assert Cached(c, StatOf(path)) == Some(StatValue(stat));
    hide Cached;
    var entry := CachedContent(content, stat.mtime, stat.size);
    var kept := Evict(Put(c.contents, path, entry));
    var c2 := RememberWriteBase(c.(contents := kept), path, Some(etag));
    KeptEntry(c, path, entry);
    ContentItems(c, c2, path, content);
    StatStored(c2, path, stat);
    assert stat.(mtime := stat.mtime, size := stat.size) == stat;
    assert RememberContent(c, path, content, Some(stat.mtime), Some(stat.size), Some(etag))
        == RememberStat(c2, path, stat);
    hide RememberContent, RememberWriteBase;
  }

  lemma ContentItems(c: Cache, c': Cache, path: string, content: Bytes)
    requires c'.stats == c.stats && c'.readdirs == c.readdirs
    requires path in c'.contents.items ==> c'.contents.items[path].content == content
    requires forall p :: p in c'.contents.items && p != path ==>
      p in c.contents.items && c'.contents.items[p] == c.contents.items[p]
    ensures forall item ::
      || Cached(c', item).None? || Cached(c', item) == Cached(c, item)
      || (item == ContentOf(path) && Cached(c', item) == Some(ContentValue(content)))
  {
    hide WellOrdered;
  }

  lemma FileStored(c: Cache, path: string, data: FileData)
    requires data.stat.Some?
    ensures var c' := RememberFile(c, path, data);
      && c'.pathEpochs == c.pathEpochs && c'.globalEpoch == c.globalEpoch
      && forall item :: Cached(c', item).None? || Cached(c', item) == Cached(c, item)
           || Cached(c', item) == Offers(path, FileAnswer(Ok(data)), item)
  {
    hide WellOrdered, RememberStat, RememberContent;
    var w := data.stat.value;
    var c1 := RememberStat(c, path, w.stat);
    StatStored(c, path, w.stat);
    StatPresent(c, path, w.stat);
    ContentStored(c1, path, data.content, w.stat, w.etag);
  }

  lemma StatPresent(c: Cache, path: string, stat: Stat)
    ensures StatFor(RememberStat(c, path, stat), path) == Some(stat)
  {
  }

  lemma CompletionStores(c: Cache, f: Fetch)
    requires f.answer.Some? && AnswerFits(f.kind, f.answer.value)
    ensures StoresOnly(c, Complete(c, f), f)
  {
    hide WellOrdered, RememberStat, RememberReaddir, RememberFile, ForgetPath;
    match f.answer.value
    case StatAnswer(stat) =>
      if stat.Ok? {
        StatStored(c, f.path, stat.value);
      } else {
        ForgetPathLoses(c, f.path);
      }
    case PageAnswer(page) =>
      if page.Ok? { ReaddirStored(c, f.path, page.value.entries); }
    case FileAnswer(data) =>
      if data.Ok? { FileStored(c, f.path, data.value); }
  }

  lemma ForgetPathLoses(c: Cache, path: string)
    ensures var c' := ForgetPath(c, path);
      OnlyLoses(c, c') && c'.pathEpochs == c.pathEpochs && c'.globalEpoch == c.globalEpoch
  {
    hide WellOrdered;
    ForgetEffects(c.(writeBaseEtags := Remove(c.writeBaseEtags, {path})), {path});
  }

  // ---- steps ----------------------------------------------------------------

  /** A remote change is on its way to the client for everything it touches, and the rest of the
      remote is as before. */
  lemma RemoteChangeKeeps(s: System, a: SystemAction)
    requires Coherent(s) && a.RemoteChanges? && Enabled(s, a)
    ensures Coherent(Next(s, a))
  {
    hide Cached, Offers, Current, FeedInv, Covers, FeedStep, EpochsOf, NotAfter, Affects, RawCovers, TemporaryFile;
    var s' := Next(s, a);
    FeedStepKeeps(s.feed, RawArrives(a.event));
    forall item: Item, value | CurrentOrCovered(s, item, value)
      ensures CurrentOrCovered(s', item, value)
    {
      ArrivalMakesNoCallback(s.feed, a.event);
      if s.feed.client.closed {
        ClosedOnce(s.feed, RawArrives(a.event));
      } else if Affects(a.path, item) {
        NotifiedChangeCovers(a.event, item);
        if TemporaryFile(a.path) {
          assert a.path in s'.hidden;
        } else {
          ArrivalIsCovered(s.feed, a.event, item);
        }
      } else if Covers(s.feed, item) {
        StepKeepsCovered(s.feed, RawArrives(a.event), item);
      }
    }
  }

  lemma ArrivalMakesNoCallback(f: Feed, e: RawEvent)
    ensures FeedStep(f, RawArrives(e)).callbacks == []
    ensures FeedStep(f, RawArrives(e)).feed.client == f.client
  {
  }

  /** A feed step either keeps an item covered or makes the client drop it. */
  lemma FeedMoveKeeps(s: System, a: SystemAction)
    requires Coherent(s) && a.FeedMoves?
    ensures Coherent(Next(s, a))
  {
    hide Cached, Offers, Current, FeedInv, Covers, FeedStep, EpochsOf, NotAfter, Before;
    var s', o := Next(s, a), FeedStep(s.feed, a.action);
    FeedStepKeeps(s.feed, a.action);
    CallbacksEffects(s.cache, o.callbacks);
    forall item
      ensures CurrentOrCovered(s', item, Cached(s'.cache, item))
    {
      assert CurrentOrCovered(s, item, Cached(s.cache, item));
      FeedMoveItem(s, a.action, item);
    }
    forall id | id in s'.fetches
      ensures FetchCoherent(s', s'.fetches[id])
    {
      var f := s.fetches[id];
      assert FetchCoherent(s, f);
      FeedMoveFetch(s, a.action, f);
    }
  }

  lemma FeedMoveItem(s: System, action: FeedAction, item: Item)
    requires FeedInv(s.feed)
    ensures var o := FeedStep(s.feed, action);
      var c' := ApplyCallbacks(s.cache, o.callbacks);
      && (Cached(c', item).None? || Cached(c', item) == Cached(s.cache, item))
      && NotAfter(EpochsOf(s.cache, item.path), EpochsOf(c', item.path))
      && (s.feed.client.closed ==> o.feed.client.closed)
      && (Covers(s.feed, item) ==> o.feed.client.closed || Covers(o.feed, item) || Clears(s.cache, c', item))
  {
    hide Cached, FeedInv, Covers, FeedStep, EpochsOf, NotAfter, Clears, CallbackDrops;
    var o := FeedStep(s.feed, action);
    CallbacksEffects(s.cache, o.callbacks);
    ClosedOnce(s.feed, action);
    if Covers(s.feed, item) {
      StepKeepsCovered(s.feed, action, item);
      if Dropped(o.callbacks, item) {
        var callback :| callback in o.callbacks && CallbackDrops(callback, item);
      }
    }
  }

  lemma FeedMoveFetch(s: System, action: FeedAction, f: Fetch)
    requires FeedInv(s.feed) && FetchCoherent(s, f)
    ensures FetchCoherent(Next(s, FeedMoves(action)), f)
  {
    hide Cached, Current, FeedInv, Covers, FeedStep;
    var s' := Next(s, FeedMoves(action));
    FeedMoveItem(s, action, StatOf(f.path));
    if f.answer.Some? && f.started == EpochsOf(s'.cache, f.path) {
      forall item
        ensures CurrentOrCovered(s', item, Offers(f.path, f.answer.value, item))
      {
        assert CurrentOrCovered(s, item, Offers(f.path, f.answer.value, item));
        FeedMoveItem(s, action, item);
      }
    }
  }

  lemma CompletionKeeps(s: System, a: SystemAction)
    requires Coherent(s) && a.RequestCompletes? && Enabled(s, a)
    ensures Coherent(Next(s, a))
  {
    hide Cached, Offers, Current, FeedInv, Covers, Complete, AnswerFits;
    var s', f := Next(s, a), s.fetches[a.id];
    CompletionStores(s.cache, f);
    assert FetchCoherent(s, f);
    forall item
      ensures CurrentOrCovered(s', item, Cached(s'.cache, item))
    {
      assert CurrentOrCovered(s, item, Cached(s.cache, item));
    }
    forall id | id in s'.fetches
      ensures FetchCoherent(s', s'.fetches[id])
    {
      assert FetchCoherent(s, s.fetches[id]);
      SameEpochs(s, s', s.fetches[id]);
    }
  }

  /** Only epochs, remote and feed matter to a pending request. */
  lemma SameEpochs(s: System, s': System, f: Fetch)
    requires FetchCoherent(s, f) && s'.remote == s.remote && s'.feed == s.feed && s'.binding == s.binding
    requires s'.hidden == s.hidden
    requires forall q :: EpochsOf(s'.cache, q) == EpochsOf(s.cache, q)
    ensures FetchCoherent(s', f)
  {
    hide Offers, Current, FeedInv, Covers;
    assert EpochsOf(s'.cache, f.path) == EpochsOf(s.cache, f.path);
    if f.answer.Some? && f.started == EpochsOf(s'.cache, f.path) {
      forall item
        ensures CurrentOrCovered(s', item, Offers(f.path, f.answer.value, item))
      {
        assert CurrentOrCovered(s, item, Offers(f.path, f.answer.value, item));
      }
    }
  }

  lemma AnswerKeeps(s: System, a: SystemAction)
    requires Coherent(s) && (a.ServerAnswers? || a.RequestStarts?) && Enabled(s, a)
    ensures Coherent(Next(s, a))
  {
    hide Cached, Offers, Current, FeedInv, Covers, AnswerFits, PathEpoch;
    var s' := Next(s, a);
    forall item
      ensures CurrentOrCovered(s', item, Cached(s'.cache, item))
    {
      assert CurrentOrCovered(s, item, Cached(s.cache, item));
    }
    forall id | id in s'.fetches
      ensures FetchCoherent(s', s'.fetches[id])
    {
      if id != a.id {
        SameEpochs(s, s', s.fetches[id]);
      } else if a.ServerAnswers? {
        assert FetchCoherent(s, s.fetches[id]);
      }
    }
  }

  lemma TouchKeeps(s: System, path: string)
    requires Coherent(s) && ContentHit(s.cache, path)
    ensures Coherent(Next(s, ContentIsServed(path)))
  {
    hide Offers, Current, FeedInv, Covers, WellOrdered;
    var s' := Next(s, ContentIsServed(path));
    forall item
      ensures CurrentOrCovered(s', item, Cached(s'.cache, item))
    {
      assert CurrentOrCovered(s, item, Cached(s.cache, item));
      assert Cached(s'.cache, item) == Cached(s.cache, item);
    }
    forall id | id in s'.fetches
      ensures FetchCoherent(s', s'.fetches[id])
    {
      SameEpochs(s, s', s.fetches[id]);
    }
  }

  lemma ResumeKeeps(s: System)
    requires Coherent(s)
    ensures Coherent(Next(s, ExternalResume))
  {
    hide Offers, Current, FeedInv, Covers, WellOrdered;
    var s' := Next(s, ExternalResume);
    forall id | id in s'.fetches
      ensures FetchCoherent(s', s'.fetches[id])
    {
      assert FetchCoherent(s, s.fetches[id]);
    }
    forall item
      ensures CurrentOrCovered(s', item, Cached(s'.cache, item))
    {
      assert Cached(s'.cache, item).None?;
    }
  }

  lemma BindKeeps(s: System, workspace: Remote)
    requires Coherent(s)
    ensures Coherent(Next(s, Binds(workspace)))
  {
    hide Offers, Current, Covers, WellOrdered;
    var s' := Next(s, Binds(workspace));
    forall id | id in s'.fetches
      ensures FetchCoherent(s', s'.fetches[id])
    {
      assert FetchCoherent(s, s.fetches[id]);
      assert NotAfter(s.fetches[id].started, EpochsOf(s.cache, s.fetches[id].path));
    }
    forall item
      ensures CurrentOrCovered(s', item, Cached(s'.cache, item))
    {
      assert Cached(s'.cache, item).None?;
    }
  }

  lemma SystemStepKeeps(s: System, a: SystemAction)
    requires Coherent(s) && Enabled(s, a)
    ensures Coherent(Next(s, a))
  {
    hide Coherent, Enabled, Next;
    match a
    case RemoteChanges(_, _, _) => RemoteChangeKeeps(s, a);
    case FeedMoves(_) => FeedMoveKeeps(s, a);
    case RequestStarts(_, _, _) => AnswerKeeps(s, a);
    case ServerAnswers(_, _) => AnswerKeeps(s, a);
    case RequestCompletes(_) => CompletionKeeps(s, a);
    case ContentIsServed(path) => ServedKeeps(s, path);
    case ExternalResume => ResumeKeeps(s);
    case Binds(workspace) => BindKeeps(s, workspace);
  }

  lemma ServedKeeps(s: System, path: string)
    requires Coherent(s) && Enabled(s, ContentIsServed(path))
    ensures Coherent(Next(s, ContentIsServed(path)))
  {
    TouchKeeps(s, path);
  }

  // ---- runs -----------------------------------------------------------------

  function Start(remote: Remote): System {
    System(remote, INITIAL, map[], 0, INITIAL_FEED, {})
  }

  ghost predicate IsRun(s: System, actions: seq<SystemAction>)
    decreases |actions|
  {
    actions == [] || (Enabled(s, actions[0]) && IsRun(Next(s, actions[0]), actions[1..]))
  }

  ghost function AfterRun(s: System, actions: seq<SystemAction>): System
    requires IsRun(s, actions)
    decreases |actions|
  {
    if actions == [] then s else AfterRun(Next(s, actions[0]), actions[1..])
  }

  lemma {:induction false} RunKeeps(s: System, actions: seq<SystemAction>)
    requires Coherent(s) && IsRun(s, actions)
    ensures Coherent(AfterRun(s, actions))
    decreases |actions|
  {
    if actions != [] {
      hide Coherent, Enabled, Next;
      SystemStepKeeps(s, actions[0]);
      RunKeeps(Next(s, actions[0]), actions[1..]);
    }
  }

  /** Cache coherence: after any run, while the subscription is open, each cached stat, content and
      listing is the remote's, or an event, a rescan or a close that will drop it is under way;
      all but what changes under temporary names have affected. */
  lemma CacheCoherence(remote: Remote, actions: seq<SystemAction>, item: Item)
    requires IsRun(Start(remote), actions)
    ensures var s := AfterRun(Start(remote), actions);
      !s.feed.client.closed && Cached(s.cache, item).Some? && !Covers(s.feed, item) && !Hidden(s, item) ==>
        Cached(s.cache, item) == Current(s.remote, item)
  {
    StartCoherent(remote);
    RunKeeps(Start(remote), actions);
    hide Covers, Cached;
    var s := AfterRun(Start(remote), actions);
    assert CurrentOrCovered(s, item, Cached(s.cache, item));
  }

  /** Only changes under temporary names are left out: without one in the run nothing is hidden. */
  lemma {:induction false} HiddenIsTemporary(s: System, actions: seq<SystemAction>)
    requires IsRun(s, actions)
    ensures forall p :: p in AfterRun(s, actions).hidden ==>
      p in s.hidden || (TemporaryFile(p) && exists a :: a in actions && a.RemoteChanges? && a.path == p)
    decreases |actions|
  {
    if actions != [] {
      var s' := Next(s, actions[0]);
      HiddenAfter(s, actions[0]);
      hide Next, Enabled;
      HiddenIsTemporary(s', actions[1..]);
      assert forall a :: a in actions[1..] ==> a in actions;
    }
  }

  lemma HiddenAfter(s: System, a: SystemAction)
    requires Enabled(s, a)
    ensures forall p :: p in Next(s, a).hidden ==>
      p in s.hidden || (TemporaryFile(p) && a.RemoteChanges? && a.path == p)
  {
  }

  lemma StartCoherent(remote: Remote)
    ensures Coherent(Start(remote))
  {
    InitialFeed(StatOf(""));
  }

  /** Nothing is under way on a live connection. */
  predicate Quiet(f: Feed) {
    && f.link.Relaying? && f.link.wire == [] && f.link.raw == []
    && Watch.Open(f.link.w, f.link.id) && f.link.w.phase.Idle? && f.link.w.subscribers[f.link.id].queue == []
  }

  /** So once the feed is quiet every cached item that is not hidden is exactly the remote's. */
  lemma QuietCacheIsExact(remote: Remote, actions: seq<SystemAction>, item: Item)
    requires IsRun(Start(remote), actions)
    ensures var s := AfterRun(Start(remote), actions);
      Quiet(s.feed) && Cached(s.cache, item).Some? && !Hidden(s, item) ==>
        Cached(s.cache, item) == Current(s.remote, item)
  {
    CacheCoherence(remote, actions, item);
    StartCoherent(remote);
    RunKeeps(Start(remote), actions);
    hide Cached, Current, Coherent, IsRun, AfterRun, Quiet, Covers, Hidden;
    var s := AfterRun(Start(remote), actions);
    CoherentFeed(s);
    if Quiet(s.feed) { QuietCoversNothing(s.feed, item); }
  }

  lemma QuietCoversNothing(f: Feed, item: Item)
    requires FeedInv(f) && Quiet(f)
    ensures !f.client.closed && !Covers(f, item)
  {
    hide Drops;
  }

  lemma CoherentFeed(s: System)
    requires Coherent(s)
    ensures FeedInv(s.feed)
  {
  }

  // ---- a change that the watcher ignores -------------------------------------------------

  lemma {:induction false} RunOneMore(s: System, actions: seq<SystemAction>, a: SystemAction)
    requires IsRun(s, actions) && Enabled(AfterRun(s, actions), a)
    ensures IsRun(s, actions + [a]) && AfterRun(s, actions + [a]) == Next(AfterRun(s, actions), a)
    decreases |actions|
  {
    hide Enabled, Next;
    if actions == [] {
      assert ([] + [a])[1..] == [];
    } else {
      assert (actions + [a])[1..] == actions[1..] + [a];
      RunOneMore(Next(s, actions[0]), actions[1..], a);
    }
  }

  const SUBSCRIBED := Watch.Step(Watch.Started(1), Watch.Subscribe)

  /** A connection that has delivered its initial rescan and nothing since. */
  const CONNECTED := Relaying(SUBSCRIBED, [], 1, [], [RESCAN])

  lemma Connects()
    ensures
      var dial := FeedStep(INITIAL_FEED, Dial);
      var subscribed := FeedStep(dial.feed, ServerSubscribes(Watch.Started(1), []));
      var relaying := FeedStep(subscribed.feed, ServerSendsRescan);
      var delivered := FeedStep(relaying.feed, Deliver);
      && dial.callbacks == [] && subscribed.callbacks == [] && relaying.callbacks == []
      && delivered.callbacks == [OnRescanRequired, OnChange(RESCAN)]
      && delivered.feed.link == CONNECTED && !delivered.feed.client.closed
  {
    assert Watch.Inv(Watch.Started(1));
    assert [RESCAN][1..] == [] && [] + [RESCAN] == [RESCAN];
  }

  /** The cache after the initial rescan of a connection. */
  const CLEARED := ApplyCallbacks(INITIAL, [OnRescanRequired, OnChange(RESCAN)])

  lemma ClearedIsEmpty()
    ensures forall item :: Cached(CLEARED, item).None?
  {
    hide WellOrdered;
    CallbacksEffects(INITIAL, [OnRescanRequired, OnChange(RESCAN)]);
  }

  lemma ConnectedRun(remote: Remote) returns (actions: seq<SystemAction>)
    ensures IsRun(Start(remote), actions)
    ensures
      var s := AfterRun(Start(remote), actions);
      && s.remote == remote && s.fetches == map[] && s.hidden == {} && s.cache == CLEARED
      && s.feed.link == CONNECTED && !s.feed.client.closed
  {
    Connects();
    hide FeedStep;
    var a, b := FeedMoves(Dial), FeedMoves(ServerSubscribes(Watch.Started(1), []));
    var c, d := FeedMoves(ServerSendsRescan), FeedMoves(Deliver);
    RunOneMore(Start(remote), [], a);
    RunOneMore(Start(remote), [a], b);
    RunOneMore(Start(remote), [a] + [b], c);
    RunOneMore(Start(remote), [a] + [b] + [c], d);
    actions := [a] + [b] + [c] + [d];
    NoCallbacks(INITIAL);
  }

  lemma NoCallbacks(c: Cache)
    ensures ApplyCallbacks(c, []) == c
  {
  }

  /** The root's listing is asked for and cached on the connection. */
  lemma ListedRun(remote: Remote) returns (actions: seq<SystemAction>)
    requires "" in remote.listings
    ensures IsRun(Start(remote), actions)
    ensures
      var s := AfterRun(Start(remote), actions);
      && s.remote == remote && s.hidden == {} && s.feed.link == CONNECTED && !s.feed.client.closed
      && Cached(s.cache, ListingOf("")) == Some(ListingValue(remote.listings[""]))
  {
    var before := ConnectedRun(remote);
    var s := AfterRun(Start(remote), before);
    var starts, completes := RequestStarts(0, ReaddirRequest, ""), RequestCompletes(0);
    var answers := ServerAnswers(0, PageAnswer(Result.Ok(DirectoryPage(remote.listings[""], false))));
    ListingArrives(s);
    hide Enabled, Next, Cached;
    RunOneMore(Start(remote), before, starts);
    RunOneMore(Start(remote), before + [starts], answers);
    RunOneMore(Start(remote), before + [starts] + [answers], completes);
    actions := before + [starts] + [answers] + [completes];
  }

  /** A listing that is asked for, answered and completed without a break is cached. */
  lemma ListingArrives(s: System)
    requires "" in s.remote.listings && s.fetches == map[]
    ensures
      var starts, completes := RequestStarts(0, ReaddirRequest, ""), RequestCompletes(0);
      var answers := ServerAnswers(0, PageAnswer(Result.Ok(DirectoryPage(s.remote.listings[""], false))));
      && Enabled(s, starts) && Enabled(Next(s, starts), answers)
      && Enabled(Next(Next(s, starts), answers), completes)
      && var s' := Next(Next(Next(s, starts), answers), completes);
         && s'.remote == s.remote && s'.hidden == s.hidden && s'.feed == s.feed
         && Cached(s'.cache, ListingOf("")) == Some(ListingValue(s.remote.listings[""]))
  {
    hide WellOrdered, RememberReaddir, Cached, EpochsOf;
    var page := DirectoryPage(s.remote.listings[""], false);
    assert Honest(s.remote, "", PageAnswer(Result.Ok(page)));
    ListingStored(s.cache, "", page.entries);
  }

  lemma ListingStored(c: Cache, path: string, entries: Listing)
    ensures Cached(RememberReaddir(c, path, entries), ListingOf(path)) == Some(ListingValue(entries))
  {
    NewestSurvivesTrim(c.readdirs, path, entries, READDIR_ENTRIES);
  }

  /** A file with such a name that appears in the root is missing from the cached listing for good:
      the feed is quiet again, and nothing that would drop the listing is under way. */
  lemma TemporaryChangeWitness(remote: Remote, after: Remote, name: string) returns (actions: seq<SystemAction>)
    requires "" in remote.listings && Canonical(name) && TemporaryFile(name) && ChangesOnly(remote, after, name)
    requires Current(after, ListingOf("")) != Current(remote, ListingOf(""))
    ensures IsRun(Start(remote), actions)
    ensures
      var s := AfterRun(Start(remote), actions);
      && s.remote == after && Quiet(s.feed) && !s.feed.client.closed && !Covers(s.feed, ListingOf(""))
      && Cached(s.cache, ListingOf("")) == Current(remote, ListingOf("")) != Current(s.remote, ListingOf(""))
  {
    var before := ListedRun(remote);
    var s := AfterRun(Start(remote), before);
    var event := Notified({CreateOp}, name, true, true);
    IgnoredQuietly(s.feed, event);
    var changes := RemoteChanges(name, after, event);
    hide FeedStep, TemporaryFile, Covers, Quiet, Current, Cached;
    RunOneMore(Start(remote), before, changes);
    RunOneMore(Start(remote), before + [changes], FeedMoves(RawHandled));
    actions := before + [changes] + [FeedMoves(RawHandled)];
    NoCallbacks(s.cache);
  }

  lemma IgnoredQuietly(f: Feed, e: RawEvent)
    requires f.link == CONNECTED && !f.client.closed && e.Notified? && TemporaryFile(e.path)
    ensures
      var arrived := FeedStep(f, RawArrives(e));
      var handled := FeedStep(arrived.feed, RawHandled);
      handled == Outcome(f, []) && Quiet(f) && !Covers(f, ListingOf(""))
  {
    hide TemporaryFile, Drops;
    TemporaryIsIgnored(SUBSCRIBED, e);
    assert SUBSCRIBED.subscribers == map[1 := Watch.Subscription([], [], 0, 0, false, 0)];
    assert [e][1..] == [] && [] + [e] == [e];
  }

  const TEMPORARY_NAME := ".termbridge-" + ".tmp"

  /** Anyone's file may have such a name. */
  lemma TemporaryNameExample()
    ensures Canonical(TEMPORARY_NAME) && TemporaryFile(TEMPORARY_NAME) && DirectoryOf(TEMPORARY_NAME) == ""
  {
    PlainParts();
    NameOf(".termbridge-", ".tmp");
  }

  lemma PlainParts()
    ensures forall c <- ".termbridge-" :: c != '/' && c != '\\' && c != '\0'
    ensures forall c <- ".tmp" :: c != '/' && c != '\\' && c != '\0'
  {
  }

  lemma NameOf(part: string, suffix: string)
    requires |part| == 12 && |suffix| == 4 && part == ".termbridge-" && suffix == ".tmp"
    requires forall c <- part :: c != '/' && c != '\\' && c != '\0'
    requires forall c <- suffix :: c != '/' && c != '\\' && c != '\0'
    ensures Canonical(part + suffix) && TemporaryFile(part + suffix) && DirectoryOf(part + suffix) == ""
  {
    var name := part + suffix;
    assert forall c :: c in name ==> c in part || c in suffix;
    SingleSegment(name);
    hide Canonical, DirectoryOf;
    assert part <= name[0..];
    assert name[12..] == suffix;
  }

  lemma NoSlash(s: string)
    requires '/' !in s
    ensures FirstIndex(s, '/') == |s|
  {
  }

  lemma SingleSegment(name: string)
    requires |name| > 2 && forall c <- name :: c != '/' && c != '\\' && c != '\0'
    ensures Canonical(name) && DirectoryOf(name) == "" && BaseName(name) == name
  {
    assert name[|name| - 1] in name && name[0] in name;
    NoSlash(name);
    assert Segments(name) == [name];
    assert LastIndex(name, '/') == -1;
  }

  /** So from an empty workspace there is a run after which the root's listing misses a file. */
  lemma TemporaryChangeExample(stat: Stat) returns (remote: Remote, actions: seq<SystemAction>)
    ensures IsRun(Start(remote), actions)
    ensures var s := AfterRun(Start(remote), actions);
      Quiet(s.feed) && Cached(s.cache, ListingOf("")) == Some(ListingValue([])) != Current(s.remote, ListingOf(""))
  {
    TemporaryNameExample();
    remote := Remote(map[], map[], map["" := []]);
    var after := Remote(map[TEMPORARY_NAME := stat], map[], map["" := [(TEMPORARY_NAME, File)]]);
    assert ChangesOnly(remote, after, TEMPORARY_NAME);
    hide Canonical, TemporaryFile;
    actions := TemporaryChangeWitness(remote, after, TEMPORARY_NAME);
  }
}
