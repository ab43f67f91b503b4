/** The workspace caches against the remote workspace, with the change feed in between.

    Every step of the browser runs to completion, so a step is: a change of the remote, a step
    of the feed with the callbacks it causes, the start of a request, its evaluation by the
    server, or its completion. */
module Coherence {
  import opened Common
  import opened Ordered
  import opened Paths
  import opened Changes
  import opened Invalidation
  import opened FileCache
  import opened CacheAccounting
  import opened CacheEpochs
  import opened ChangeFeed
  import opened FeedLaws

  datatype Remote = Remote(stats: map<string, Stat>, contents: map<string, Bytes>, listings: map<string, Listing>)

  function Current(r: Remote, item: Item): Option<Value> {
    match item
    case StatOf(p) => if p in r.stats then Some(StatValue(r.stats[p])) else None
    case ContentOf(p) => if p in r.contents then Some(ContentValue(r.contents[p])) else None
    case ListingOf(p) => if p in r.listings then Some(ListingValue(r.listings[p])) else None
  }

  /** A request between its start and its completion; `answer` is what the server evaluated. */
  datatype Answer =
    | StatAnswer(stat: Result<Stat>)
    | PageAnswer(page: Result<DirectoryPage>)
    | FileAnswer(data: Result<FileData>)
  datatype RequestKind = StatRequest | ReaddirRequest | ReadRequest
  datatype Fetch = Fetch(kind: RequestKind, path: string, started: Epochs, binding: nat, answer: Option<Answer>)

  /** `hidden` are the paths of this workspace that have changed under a temporary name. */
  datatype System = System(
    remote: Remote,
    cache: Cache,
    fetches: map<nat, Fetch>,
    binding: nat,
    feed: Feed,
    hidden: set<string>)

  datatype SystemAction =
    | RemoteChanges(path: string, after: Remote, event: RawEvent)
    | FeedMoves(action: FeedAction)
    | RequestStarts(id: nat, kind: RequestKind, path: string)
    | ServerAnswers(id: nat, answer: Answer)
    | RequestCompletes(id: nat)
    | ContentIsServed(path: string)
    | ExternalResume
    | Binds(workspace: Remote)

  predicate AnswerFits(kind: RequestKind, answer: Answer) {
    match kind
    case StatRequest => answer.StatAnswer?
    case ReaddirRequest => answer.PageAnswer?
    case ReadRequest => answer.FileAnswer? && (answer.data.Ok? ==> answer.data.value.stat.Some?)
  }

  /** The value of an item that an answer carries. */
  function Offers(path: string, answer: Answer, item: Item): Option<Value> {
    if item.path != path then None
    else match answer
      case StatAnswer(stat) => if stat.Ok? && item.StatOf? then Some(StatValue(stat.value)) else None
      case PageAnswer(page) =>
        if page.Ok? && !page.value.truncated && item.ListingOf? then Some(ListingValue(page.value.entries)) else None
      case FileAnswer(data) =>
        if data.Failed? then None
        else if item.ContentOf? then Some(ContentValue(data.value.content))
        else if item.StatOf? && data.value.stat.Some? then Some(StatValue(data.value.stat.value.stat))
        else None
  }

  /** The server answers from the remote as it is, or fails. */
  ghost predicate Honest(r: Remote, path: string, answer: Answer) {
    forall item :: Offers(path, answer, item).Some? ==> Offers(path, answer, item) == Current(r, item)
  }

  /** Nothing but what a change at `path` affects is different. */
  ghost predicate ChangesOnly(r: Remote, r': Remote, path: string) {
    forall item :: !Affects(path, item) ==> Current(r', item) == Current(r, item)
  }

  /** A change that the watcher is told about, under its own name. */
  predicate Reported(path: string, event: RawEvent) {
    UnderItsName(event) && event.path == path
  }

  function Complete(c: Cache, f: Fetch): Cache
    requires f.answer.Some?
  {
    match f.answer.value
    case StatAnswer(stat) => AfterStat(c, f.path, f.started, stat)
    case PageAnswer(page) => AfterReaddir(c, f.path, f.started, page)
    case FileAnswer(data) => AfterRead(c, f.path, f.started, data)
  }

  ghost predicate Enabled(s: System, a: SystemAction) {
    match a
    case RemoteChanges(path, after, event) => Reported(path, event) && ChangesOnly(s.remote, after, path)
    case FeedMoves(_) => true
    case RequestStarts(id, _, _) => id !in s.fetches
    case ServerAnswers(id, answer) =>
      && id in s.fetches && s.fetches[id].answer.None? && AnswerFits(s.fetches[id].kind, answer)
      && (s.fetches[id].binding == s.binding ==> Honest(s.remote, s.fetches[id].path, answer))
    case RequestCompletes(id) =>
      id in s.fetches && s.fetches[id].answer.Some? && AnswerFits(s.fetches[id].kind, s.fetches[id].answer.value)
    case ContentIsServed(path) => ContentHit(s.cache, path)
    case ExternalResume => true
    case Binds(_) => true
  }

  ghost function Next(s: System, a: SystemAction): System
    requires Enabled(s, a)
  {
    match a
    case RemoteChanges(path, after, event) =>
      s.(remote := after, feed := FeedStep(s.feed, RawArrives(event)).feed,
         hidden := s.hidden + if TemporaryFile(path) then {path} else {})
    case FeedMoves(action) =>
      var o := FeedStep(s.feed, action);
      s.(feed := o.feed, cache := ApplyCallbacks(s.cache, o.callbacks))
    case RequestStarts(id, kind, path) =>
      s.(fetches := s.fetches[id := Fetch(kind, path, EpochsOf(s.cache, path), s.binding, None)])
    case ServerAnswers(id, answer) =>
      s.(fetches := s.fetches[id := s.fetches[id].(answer := Some(answer))])
    case RequestCompletes(id) =>
      s.(cache := Complete(s.cache, s.fetches[id]), fetches := s.fetches - {id})
    case ContentIsServed(path) => s.(cache := TouchContent(s.cache, path))
    case ExternalResume => s.(cache := Rescanned(s.cache).cache)
    case Binds(workspace) =>
      s.(remote := workspace, cache := Rebound(s.cache), binding := s.binding + 1, feed := INITIAL_FEED,
         hidden := {})
  }

  // ---- the invariant --------------------------------------------------------

  /** The watcher has ignored a change that affects the item. */
  ghost predicate Hidden(s: System, item: Item) {
    exists p :: p in s.hidden && Affects(p, item)
  }

  /** A value is current, or something undelivered will drop it, unless a change was ignored. */
  ghost predicate CurrentOrCovered(s: System, item: Item, value: Option<Value>) {
    || value.None? || value == Current(s.remote, item) || Covers(s.feed, item) || s.feed.client.closed
    || Hidden(s, item)
  }

  ghost predicate CacheCoherent(s: System) {
    forall item :: CurrentOrCovered(s, item, Cached(s.cache, item))
  }

  /** What a pending answer would put into the cache, were it to complete now. */
  ghost predicate FetchCoherent(s: System, f: Fetch) {
    && f.binding <= s.binding
    && NotAfter(f.started, EpochsOf(s.cache, f.path))
    && (f.binding < s.binding ==> f.started.global < s.cache.globalEpoch)
    && (f.answer.Some? && f.started == EpochsOf(s.cache, f.path) ==>
          forall item :: CurrentOrCovered(s, item, Offers(f.path, f.answer.value, item)))
  }

  ghost predicate Coherent(s: System) {
    && FeedInv(s.feed)
    && CacheCoherent(s)
    && forall id :: id in s.fetches ==> FetchCoherent(s, s.fetches[id])
  }
}
