/** The state of the workspace file provider and what each of its operations does to it. */
module FileCache {
  import opened Common
  import opened Ordered
  import opened Paths
  import opened Changes

  const CONTENT_ENTRIES := 64
  const CONTENT_BYTES := 16 * 1024 * 1024
  const STAT_ENTRIES := 512
  const READDIR_ENTRIES := 256
  const WRITE_BASE_ENTRIES := 512

  type Bytes = seq<bv8>
  datatype FileType = Unknown | File | Directory | SymbolicLink
  datatype Stat = Stat(fileType: FileType, ctime: int, mtime: int, size: int, readonly: bool)
  datatype WireStat = WireStat(stat: Stat, etag: string)
  type Listing = seq<(string, FileType)>
  datatype CachedContent = CachedContent(content: Bytes, mtime: int, size: int)

  datatype Cache = Cache(
    writeBaseEtags: OrderedMap<string>,
    stats: OrderedMap<Stat>,
    contents: OrderedMap<CachedContent>,
    readdirs: OrderedMap<Listing>,
    pathEpochs: OrderedMap<nat>,
    globalEpoch: nat)

  /** What the provider tells FileService. */
  datatype FileEvent = FileEvent(kind: FileEventKind, resource: string)
  datatype FileEventKind = FileAdded | FileUpdated | FileDeleted

  // ---- sizes --------------------------------------------------------------

  function ContentBytes(keys: seq<string>, items: map<string, CachedContent>): nat
    requires forall k :: k in keys ==> k in items
  {
    if keys == [] then 0 else |items[keys[0]].content| + ContentBytes(keys[1..], items)
  }

  /** The summed length of the cached contents. */
  function TotalBytes(m: OrderedMap<CachedContent>): nat {
    ContentBytes(m.keys, m.items)
  }

  predicate OverContentLimit(m: OrderedMap<CachedContent>) {
    |m.keys| > CONTENT_ENTRIES || TotalBytes(m) > CONTENT_BYTES
  }

  /** Drops the oldest contents until both limits hold. */
  function Evict(m: OrderedMap<CachedContent>): (r: OrderedMap<CachedContent>)
    ensures !OverContentLimit(r)
    ensures forall k :: k in r.items ==> k in m.items && r.items[k] == m.items[k]
    decreases |m.keys|
  {
    if m.keys != [] && OverContentLimit(m) then Evict(DropOldest(m, 1)) else m
  }

  // ---- epochs -------------------------------------------------------------

  function PathEpoch(epochs: OrderedMap<nat>, path: string): nat {
    if path in epochs.items then epochs.items[path] else 0
  }

  function MarkPathStale(epochs: OrderedMap<nat>, path: string): OrderedMap<nat> {
    Set(epochs, path, PathEpoch(epochs, path) + 1)
  }

  function MarkAllStale(epochs: OrderedMap<nat>, paths: seq<string>): (r: OrderedMap<nat>)
    ensures forall q :: PathEpoch(r, q) >= PathEpoch(epochs, q)
    ensures forall q :: PathEpoch(r, q) > PathEpoch(epochs, q) <==> q in paths
    decreases |paths|
  {
    if paths == [] then epochs
    else
      assert paths == [paths[0]] + paths[1..];
      MarkAllStale(MarkPathStale(epochs, paths[0]), paths[1..])
  }

  /** Every path some table has an entry for. */
  function KnownPaths(c: Cache): seq<string> {
    c.writeBaseEtags.keys + c.stats.keys + c.contents.keys + c.readdirs.keys + c.pathEpochs.keys
  }

  function MarkSubtreeStale(c: Cache, path: string): Cache {
    c.(pathEpochs := MarkAllStale(c.pathEpochs, InSubtreeOf(KnownPaths(c), path) + [path]))
  }

  // ---- forgetting ---------------------------------------------------------

  function ForgetCached(c: Cache, gone: set<string>): Cache {
    c.(stats := Remove(c.stats, gone),
       contents := Remove(c.contents, gone),
       readdirs := Remove(c.readdirs, gone))
  }

  function ForgetCachedSubtree(c: Cache, path: string): Cache {
    ForgetCached(c, SetOf(InSubtreeOf(c.stats.keys + c.contents.keys + c.readdirs.keys, path)) + {path})
  }

  function ForgetPath(c: Cache, path: string): Cache {
    ForgetCached(c.(writeBaseEtags := Remove(c.writeBaseEtags, {path})), {path})
  }

  /** The listing and stat of the directory that holds a changed child. */
  function InvalidateParent(c: Cache, path: string): Cache {
    var parent := Parent(path);
    c.(pathEpochs := MarkPathStale(c.pathEpochs, parent),
       readdirs := Remove(c.readdirs, {parent}),
       stats := Remove(c.stats, {parent}))
  }

  function InvalidatePathAndParent(c: Cache, path: string): Cache {
    InvalidateParent(ForgetCached(c.(pathEpochs := MarkPathStale(c.pathEpochs, path)), {path}), path)
  }

  function InvalidateSubtreeAndParent(c: Cache, path: string): Cache {
    InvalidateParent(ForgetCachedSubtree(MarkSubtreeStale(c, path), path), path)
  }

  function ForgetPathAndParents(c: Cache, path: string): Cache {
    InvalidateParent(ForgetPath(c.(pathEpochs := MarkPathStale(c.pathEpochs, path)), path), path)
  }

  function InvalidateAll(c: Cache): Cache {
    c.(globalEpoch := c.globalEpoch + 1, stats := Empty(), contents := Empty(), readdirs := Empty())
  }

  /** `clearCaches`, run when the provider is bound to a workspace. */
  function Rebound(c: Cache): Cache {
    Cache(Empty(), Empty(), Empty(), Empty(), Empty(), c.globalEpoch + 1)
  }

  const INITIAL := Cache(Empty(), Empty(), Empty(), Empty(), Empty(), 0)

  // ---- remembering --------------------------------------------------------

  function RememberWriteBase(c: Cache, path: string, etag: Option<string>): Cache {
    if etag.None? || etag.value == "" then c
    else c.(writeBaseEtags := Trim(Put(c.writeBaseEtags, path, etag.value), WRITE_BASE_ENTRIES))
  }

  function RememberStat(c: Cache, path: string, stat: Stat): Cache {
    var c1 := c.(stats := Trim(Put(c.stats, path, stat), STAT_ENTRIES));
    if path in c.contents.items &&
       (c.contents.items[path].mtime != stat.mtime || c.contents.items[path].size != stat.size)
    then c1.(contents := Remove(c.contents, {path}))
    else c1
  }

  function RememberReaddir(c: Cache, path: string, entries: Listing): Cache {
    c.(readdirs := Trim(Put(c.readdirs, path, entries), READDIR_ENTRIES))
  }

  function StatFor(c: Cache, path: string): Option<Stat> {
    if path in c.stats.items then Some(c.stats.items[path]) else None
  }

  function OrElse<T>(o: Option<T>, fallback: T): T {
    if o.Some? then o.value else fallback
  }

  function RememberContent(c: Cache, path: string, content: Bytes,
                           mtime: Option<int>, size: Option<int>, etag: Option<string>): Cache
  {
    var prev := StatFor(c, path);
    var time := OrElse(mtime, if prev.Some? then prev.value.mtime else 0);
    var resolvedSize := OrElse(size, if prev.Some? then prev.value.size else |content|);
    var entry := CachedContent(content, time, resolvedSize);
    var c1 := c.(contents := Evict(Put(c.contents, path, entry)));
    var c2 := RememberWriteBase(c1, path, etag);
    if prev.None? then c2
    else RememberStat(c2, path, prev.value.(mtime := OrElse(mtime, prev.value.mtime), size := resolvedSize))
  }

  /** A cached content that is served also becomes the newest one. */
  function TouchContent(c: Cache, path: string): Cache
    requires path in c.contents.items
  {
    c.(contents := Put(c.contents, path, c.contents.items[path]))
  }

  predicate Agrees(cached: CachedContent, stat: Stat) {
    cached.mtime == stat.mtime && cached.size == stat.size
  }

  predicate ContentHit(c: Cache, path: string) {
    && path in c.contents.items
    && (path in c.stats.items ==> Agrees(c.contents.items[path], c.stats.items[path]))
  }

  // ---- requests: the synchronous start and the completion -----------------

  datatype Epochs = Epochs(global: nat, path: nat)

  function EpochsOf(c: Cache, path: string): Epochs {
    Epochs(c.globalEpoch, PathEpoch(c.pathEpochs, path))
  }

  function AfterStat(c: Cache, path: string, started: Epochs, response: Result<Stat>): Cache {
    if response.Failed? then ForgetPath(c, path)
    else if EpochsOf(c, path) == started then RememberStat(c, path, response.value)
    else c
  }

  datatype DirectoryPage = DirectoryPage(entries: Listing, truncated: bool)

  function AfterReaddir(c: Cache, path: string, started: Epochs, response: Result<DirectoryPage>): Cache {
    if response.Ok? && !response.value.truncated && EpochsOf(c, path) == started
    then RememberReaddir(c, path, response.value.entries)
    else c
  }

  datatype FileData = FileData(content: Bytes, stat: Option<WireStat>)

  function RememberFile(c: Cache, path: string, data: FileData): Cache {
    match data.stat
    case Some(w) =>
      RememberContent(RememberStat(c, path, w.stat), path, data.content,
                      Some(w.stat.mtime), Some(w.stat.size), Some(w.etag))
    case None =>
      RememberContent(c, path, data.content, None, Some(|data.content|), None)
  }

  function AfterRead(c: Cache, path: string, started: Epochs, response: Result<FileData>): Cache {
    if response.Ok? && EpochsOf(c, path) == started then RememberFile(c, path, response.value) else c
  }

  // ---- local mutations ----------------------------------------------------

  function CurrentWriteBase(c: Cache, path: string): Option<string> {
    if path in c.writeBaseEtags.items then Some(c.writeBaseEtags.items[path]) else None
  }

  function TouchWriteBase(c: Cache, path: string): Cache {
    if path in c.writeBaseEtags.items && c.writeBaseEtags.items[path] != ""
    then c.(writeBaseEtags := Put(c.writeBaseEtags, path, c.writeBaseEtags.items[path]))
    else c
  }

  /** `Number(x) || fallback`. */
  function NonZero(x: int, fallback: int): int {
    if x != 0 then x else fallback
  }

  function MarkMutated(c: Cache, path: string): Cache {
    c.(pathEpochs := MarkPathStale(c.pathEpochs, path), readdirs := Remove(c.readdirs, {Parent(path)}))
  }

  function AfterWrite(c: Cache, path: string, content: Bytes, response: Result<Option<WireStat>>): Cache {
    match response
    case Failed => c
    case Ok(None) => ForgetPathAndParents(MarkMutated(c, path), path)
    case Ok(Some(w)) =>
      var size := NonZero(w.stat.size, |content|);
      var c1 := RememberStat(MarkMutated(c, path), path, w.stat.(size := size));
      RememberContent(c1, path, content, Some(w.stat.mtime), Some(size), Some(w.etag))
  }

  function AfterMkdir(c: Cache, path: string, response: Result<Option<WireStat>>): Cache {
    match response
    case Ok(Some(w)) => RememberStat(c, path, w.stat)
    case _ => c
  }

  function AfterDelete(c: Cache, path: string, response: Result<()>): Cache {
    if response.Ok? then ForgetPathAndParents(c, path) else c
  }

  function AfterRename(c: Cache, from: string, to: string, response: Result<Option<WireStat>>): Cache {
    if response.Failed? then c
    else
      var forgotten := ForgetPathAndParents(c, from);
      var c1 := forgotten.(readdirs := Remove(forgotten.readdirs, {Parent(to)}));
      match response.value
      case None => ForgetPath(c1, to)
      case Some(w) =>
        var c2 := RememberStat(c1, to, w.stat);
        if from !in c.contents.items then c2
        else
          var moved := c.contents.items[from];
          RememberContent(c2, to, moved.content, Some(NonZero(w.stat.mtime, moved.mtime)),
                          Some(NonZero(w.stat.size, moved.size)), Some(w.etag))
  }

  // ---- watch events -------------------------------------------------------

  function Resource(path: string): string {
    "/" + path
  }

  const ROOT_UPDATED: seq<FileEvent> := [FileEvent(FileUpdated, "/")]

  datatype Applied = Applied(cache: Cache, fired: seq<FileEvent>)

  function Rescanned(c: Cache): Applied {
    Applied(InvalidateAll(c), ROOT_UPDATED)
  }

  function ApplyChange(c: Cache, change: Change): Applied {
    var path, oldPath := Normalize(change.path), Normalize(change.oldPath);
    if change.kind == ChangeKind.RescanRequired || path == "" then Rescanned(c)
    else match change.kind
      case Added => Applied(InvalidatePathAndParent(c, path), [FileEvent(FileAdded, Resource(path))])
      case Updated => Applied(InvalidatePathAndParent(c, path), [FileEvent(FileUpdated, Resource(path))])
      case Deleted => Applied(InvalidateSubtreeAndParent(c, path), [FileEvent(FileDeleted, Resource(path))])
      case Renamed =>
        if oldPath == "" then Rescanned(c)
        else Applied(InvalidateSubtreeAndParent(InvalidateSubtreeAndParent(c, oldPath), path),
                     [FileEvent(FileDeleted, Resource(oldPath)), FileEvent(FileAdded, Resource(path))])
      case _ => Rescanned(c)
  }
}
