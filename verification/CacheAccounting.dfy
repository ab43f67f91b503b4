/** Limits, byte accounting and the agreement of contents with stats, over every run of
    provider operations. */
module CacheAccounting {
  import opened Common
  import opened Ordered
  import opened Paths
  import opened Changes
  import opened FileCache

  // ---- byte sums ----------------------------------------------------------

  lemma {:induction false} BytesFrame(keys: seq<string>, a: map<string, CachedContent>, b: map<string, CachedContent>)
    requires forall k :: k in keys ==> k in a && k in b && a[k] == b[k]
    ensures ContentBytes(keys, a) == ContentBytes(keys, b)
  {
    if keys != [] {
      BytesFrame(keys[1..], a, b);
    }
  }

  lemma {:induction false} BytesAppend(a: seq<string>, b: seq<string>, items: map<string, CachedContent>)
    requires forall k :: k in a || k in b ==> k in items
    ensures forall k :: k in a + b ==> k in items
    ensures ContentBytes(a + b, items) == ContentBytes(a, items) + ContentBytes(b, items)
  {
    if a == [] {
      assert a + b == b;
    } else {
      assert (a + b)[1..] == a[1..] + b;
      BytesAppend(a[1..], b, items);
    }
  }

  lemma {:induction false} BytesMinus(keys: seq<string>, gone: set<string>, items: map<string, CachedContent>)
    requires forall k :: k in keys ==> k in items
    ensures ContentBytes(Minus(keys, gone), items) <= ContentBytes(keys, items)
  {
    if keys != [] {
      BytesMinus(keys[1..], gone, items);
      if keys[0] !in gone {
        assert Minus(keys, gone)[1..] == Minus(keys[1..], gone);
      }
    }
  }

  lemma {:induction false} BytesMinusOne(keys: seq<string>, key: string, items: map<string, CachedContent>)
    requires Distinct(keys) && forall k :: k in keys ==> k in items
    ensures ContentBytes(Minus(keys, {key}), items)
         == ContentBytes(keys, items) - if key in keys then |items[key].content| else 0
  {
    if keys != [] {
      if keys[0] == key {
        MinusAbsent(keys[1..], {key});
      } else {
        BytesMinusOne(keys[1..], key, items);
        assert Minus(keys, {key})[1..] == Minus(keys[1..], {key});
      }
    }
  }

  lemma TotalAfterRemove(m: OrderedMap<CachedContent>, gone: set<string>)
    ensures TotalBytes(Remove(m, gone)) <= TotalBytes(m)
  {
    BytesMinus(m.keys, gone, m.items);
    BytesFrame(Minus(m.keys, gone), m.items, m.items - gone);
  }

  /** What `deleteContent` subtracts is exactly what the sum loses. */
  lemma TotalAfterDelete(m: OrderedMap<CachedContent>, key: string)
    ensures TotalBytes(Remove(m, {key}))
         == TotalBytes(m) - if key in m.items then |m.items[key].content| else 0
  {
    BytesMinusOne(m.keys, key, m.items);
    BytesFrame(Minus(m.keys, {key}), m.items, m.items - {key});
  }

  /** What `rememberContentEntry` adds is exactly what the sum gains. */
  lemma TotalAfterPut(m: OrderedMap<CachedContent>, key: string, value: CachedContent)
    ensures TotalBytes(Put(m, key, value)) == TotalBytes(Remove(m, {key})) + |value.content|
  {
    var rest := Minus(m.keys, {key});
    BytesAppend(rest, [key], m.items[key := value]);
    BytesFrame(rest, m.items[key := value], m.items - {key});
  }

  lemma CountAfterDelete(m: OrderedMap<CachedContent>, key: string)
    ensures |Remove(m, {key}).keys| == |m.keys| - if key in m.items then 1 else 0
  {
    CountMinusOne(m.keys, key);
  }

  lemma {:induction false} CountMinusOne(keys: seq<string>, key: string)
    requires Distinct(keys)
    ensures |Minus(keys, {key})| == |keys| - if key in keys then 1 else 0
  {
    if keys != [] {
      if keys[0] == key {
        MinusAbsent(keys[1..], {key});
      } else {
        CountMinusOne(keys[1..], key);
      }
    }
  }

  // ---- eviction -----------------------------------------------------------

  ghost predicate LeastFitting(m: OrderedMap<CachedContent>, n: nat)
    requires n <= |m.keys|
  {
    forall j | 0 <= j < n :: OverContentLimit(DropOldest(m, j))
  }

  /** Eviction keeps the longest run of newest entries that fits: it drops the `n` oldest
      for the least `n` that meets both limits. */
  lemma {:induction false} EvictKeepsNewest(m: OrderedMap<CachedContent>) returns (n: nat)
    ensures n <= |m.keys| && Evict(m) == DropOldest(m, n) && LeastFitting(m, n)
    decreases |m.keys|
  {
    hide OverContentLimit, WellOrdered;
    if m.keys != [] && OverContentLimit(m) {
      var n' := EvictKeepsNewest(DropOldest(m, 1));
      n := n' + 1;
      DropOldestTwice(m, 1, n');
      forall j | 0 <= j < n
        ensures OverContentLimit(DropOldest(m, j))
      {
        if j == 0 {
          SameEntries(DropOldest(m, 0), m);
        } else {
          DropOldestTwice(m, 1, j - 1);
        }
      }
    } else {
      n := 0;
      SameEntries(DropOldest(m, 0), m);
    }
  }

  lemma NewestAlone(m: OrderedMap<CachedContent>, key: string, value: CachedContent)
    ensures
      var p := Put(m, key, value);
      OverContentLimit(DropOldest(p, |p.keys| - 1)) <==> |value.content| > CONTENT_BYTES
  {
    var p := Put(m, key, value);
    hide Put;
    var alone := DropOldest(p, |p.keys| - 1);
    assert alone.keys == [key];
    assert key in alone.items && alone.items[key] == value;
    hide DropOldest;
    SingleBytes(key, alone.items);
  }

  lemma SingleBytes(key: string, items: map<string, CachedContent>)
    requires key in items
    ensures ContentBytes([key], items) == |items[key].content|
  {
  }

  /** A content stays cached when remembered if and only if it fits the byte limit alone. */
  lemma RememberedContentKept(m: OrderedMap<CachedContent>, key: string, value: CachedContent)
    ensures key in Evict(Put(m, key, value)).items <==> |value.content| <= CONTENT_BYTES
  {
    var p := Put(m, key, value);
    var n := EvictKeepsNewest(p);
    var last := |p.keys| - 1;
    NewestAlone(m, key, value);
    if n <= last {
      assert DropOldest(p, n).keys[last - n] == key;
      SuffixBytes(p, n, last);
    } else {
      assert OverContentLimit(DropOldest(p, last));
    }
  }

  lemma SuffixBytes(m: OrderedMap<CachedContent>, i: nat, j: nat)
    requires i <= j <= |m.keys|
    ensures TotalBytes(DropOldest(m, j)) <= TotalBytes(DropOldest(m, i))
  {
    var a, b := DropOldest(m, i), DropOldest(m, j);
    assert a.keys == a.keys[..j - i] + b.keys;
    BytesAppend(a.keys[..j - i], b.keys, a.items);
    BytesFrame(b.keys, a.items, b.items);
  }

  // ---- the invariant ------------------------------------------------------

  ghost predicate Agreement(c: Cache) {
    forall p :: p in c.contents.items && p in c.stats.items ==> Agrees(c.contents.items[p], c.stats.items[p])
  }

  ghost predicate Bounded(c: Cache) {
    && |c.writeBaseEtags.keys| <= 512
    && |c.stats.keys| <= 512
    && |c.readdirs.keys| <= 256
    && |c.contents.keys| <= 64 && TotalBytes(c.contents) <= 16 * 1024 * 1024
  }

  ghost predicate Sound(c: Cache) {
    Bounded(c) && Agreement(c)
  }

  /** One operation of the provider, at the point where it changes the tables. */
  datatype Operation =
    | Bind
    | Rescan
    | Apply(change: Change)
    | StatDone(path: string, started: Epochs, stat: Result<Stat>)
    | ReaddirDone(path: string, started: Epochs, page: Result<DirectoryPage>)
    | ReadDone(path: string, started: Epochs, data: Result<FileData>)
    | ContentServed(path: string)
    | WriteSent(path: string)
    | WriteDone(path: string, content: Bytes, written: Result<Option<WireStat>>)
    | MkdirSent(path: string)
    | MkdirDone(path: string, written: Result<Option<WireStat>>)
    | DeleteDone(path: string, deleted: Result<()>)
    | RenameDone(path: string, to: string, written: Result<Option<WireStat>>)

  function Step(c: Cache, op: Operation): Cache {
    match op
    case Bind => Rebound(c)
    case Rescan => Rescanned(c).cache
    case Apply(change) => ApplyChange(c, change).cache
    case StatDone(path, started, stat) => AfterStat(c, path, started, stat)
    case ReaddirDone(path, started, page) => AfterReaddir(c, path, started, page)
    case ReadDone(path, started, data) => AfterRead(c, path, started, data)
    case ContentServed(path) => if ContentHit(c, path) then TouchContent(c, path) else c
    case WriteSent(path) => TouchWriteBase(c, path)
    case WriteDone(path, content, written) => AfterWrite(c, path, content, written)
    case MkdirSent(path) => MarkMutated(c, path)
    case MkdirDone(path, written) => AfterMkdir(c, path, written)
    case DeleteDone(path, deleted) => AfterDelete(c, path, deleted)
    case RenameDone(path, to, written) => AfterRename(c, path, to, written)
  }

  function Run(c: Cache, ops: seq<Operation>): Cache
    decreases |ops|
  {
    if ops == [] then c else Run(Step(c, ops[0]), ops[1..])
  }

  lemma ForgetSound(c: Cache, gone: set<string>)
    requires Sound(c)
    ensures Sound(ForgetCached(c, gone))
  {
    TotalAfterRemove(c.contents, gone);
  }

  lemma RememberStatSound(c: Cache, path: string, stat: Stat)
    requires Bounded(c)
    requires forall p :: p != path && p in c.contents.items && p in c.stats.items
                         ==> Agrees(c.contents.items[p], c.stats.items[p])
    ensures Sound(RememberStat(c, path, stat))
  {
    TotalAfterRemove(c.contents, {path});
  }

  /** The content is stored with the time and size that the stat then shows. */
  lemma RememberContentSound(c: Cache, path: string, content: Bytes,
                             mtime: Option<int>, size: Option<int>, etag: Option<string>)
    requires Sound(c)
    ensures Sound(RememberContent(c, path, content, mtime, size, etag))
  {
    hide WellOrdered, RememberStat;
    var prev := StatFor(c, path);
    var time := OrElse(mtime, if prev.Some? then prev.value.mtime else 0);
    var resolvedSize := OrElse(size, if prev.Some? then prev.value.size else |content|);
    var entry := CachedContent(content, time, resolvedSize);
    var c1 := c.(contents := Evict(Put(c.contents, path, entry)));
    var c2 := RememberWriteBase(c1, path, etag);
    if prev.Some? {
      RememberStatSound(c2, path, prev.value.(mtime := OrElse(mtime, prev.value.mtime), size := resolvedSize));
    }
  }

  lemma TouchContentSound(c: Cache, path: string)
    requires Sound(c) && path in c.contents.items
    ensures Sound(TouchContent(c, path))
  {
    TotalAfterPut(c.contents, path, c.contents.items[path]);
    TotalAfterDelete(c.contents, path);
    CountAfterDelete(c.contents, path);
  }

  lemma ApplySound(c: Cache, change: Change)
    requires Sound(c)
    ensures Sound(ApplyChange(c, change).cache)
  {
    hide InvalidatePathAndParent, InvalidateSubtreeAndParent, Sound;
    var path, oldPath := Normalize(change.path), Normalize(change.oldPath);
    ReboundSound(c);
    PathSound(c, path);
    SubtreeSound(c, path);
    SubtreeSound(c, oldPath);
    SubtreeSound(InvalidateSubtreeAndParent(c, oldPath), path);
  }

  lemma PathSound(c: Cache, path: string)
    requires Sound(c)
    ensures Sound(InvalidatePathAndParent(c, path))
  {
    ForgetSound(c, {path});
  }

  lemma SubtreeSound(c: Cache, path: string)
    requires Sound(c)
    ensures Sound(InvalidateSubtreeAndParent(c, path))
  {
    var c1 := MarkSubtreeStale(c, path);
    var gone := SetOf(InSubtreeOf(c1.stats.keys + c1.contents.keys + c1.readdirs.keys, path)) + {path};
    ForgetSound(c1, gone);
  }

  lemma RenameSound(c: Cache, from: string, to: string, response: Result<Option<WireStat>>)
    requires Sound(c)
    ensures Sound(AfterRename(c, from, to, response))
  {
    if response.Ok? {
      ForgetSound(c, {from});
      var forgotten := ForgetPathAndParents(c, from);
      var c1 := forgotten.(readdirs := Remove(forgotten.readdirs, {Parent(to)}));
      if response.value.None? {
        ForgetSound(c1, {to});
      } else {
        var w := response.value.value;
        RememberStatSound(c1, to, w.stat);
        if from in c.contents.items {
          var moved := c.contents.items[from];
          RememberContentSound(RememberStat(c1, to, w.stat), to, moved.content,
                               Some(NonZero(w.stat.mtime, moved.mtime)),
                               Some(NonZero(w.stat.size, moved.size)), Some(w.etag));
        }
      }
    }
  }

  lemma RememberFileSound(c: Cache, path: string, data: FileData)
    requires Sound(c)
    ensures Sound(RememberFile(c, path, data))
  {
    match data.stat
    case Some(w) =>
      RememberStatSound(c, path, w.stat);
      RememberContentSound(RememberStat(c, path, w.stat), path, data.content,
                           Some(w.stat.mtime), Some(w.stat.size), Some(w.etag));
    case None =>
      RememberContentSound(c, path, data.content, None, Some(|data.content|), None);
  }

  lemma WriteSound(c: Cache, path: string, content: Bytes, response: Result<Option<WireStat>>)
    requires Sound(c)
    ensures Sound(AfterWrite(c, path, content, response))
  {
    match response
    case Failed =>
    case Ok(None) =>
      ForgetSound(MarkMutated(c, path), {path});
    case Ok(Some(w)) =>
      var size := NonZero(w.stat.size, |content|);
      RememberStatSound(MarkMutated(c, path), path, w.stat.(size := size));
      RememberContentSound(RememberStat(MarkMutated(c, path), path, w.stat.(size := size)), path, content,
                           Some(w.stat.mtime), Some(size), Some(w.etag));
  }

  lemma StatSound(c: Cache, path: string, started: Epochs, stat: Result<Stat>)
    requires Sound(c)
    ensures Sound(AfterStat(c, path, started, stat))
  {
    hide WellOrdered;
    ForgetSound(c, {path});
    if stat.Ok? { RememberStatSound(c, path, stat.value); }
  }

  lemma ReaddirSound(c: Cache, path: string, started: Epochs, page: Result<DirectoryPage>)
    requires Sound(c)
    ensures Sound(AfterReaddir(c, path, started, page))
  {
  }

  lemma ReadSound(c: Cache, path: string, started: Epochs, data: Result<FileData>)
    requires Sound(c)
    ensures Sound(AfterRead(c, path, started, data))
  {
    hide WellOrdered;
    if data.Ok? { RememberFileSound(c, path, data.value); }
  }

  lemma WriteSentSound(c: Cache, path: string)
    requires Sound(c)
    ensures Sound(TouchWriteBase(c, path))
  {
    CountMinusOne(c.writeBaseEtags.keys, path);
  }

  lemma MarkMutatedSound(c: Cache, path: string)
    requires Sound(c)
    ensures Sound(MarkMutated(c, path))
  {
  }

  lemma MkdirSound(c: Cache, path: string, written: Result<Option<WireStat>>)
    requires Sound(c)
    ensures Sound(AfterMkdir(c, path, written))
  {
    hide WellOrdered;
    if written.Ok? && written.value.Some? { RememberStatSound(c, path, written.value.value.stat); }
  }

  lemma DeleteSound(c: Cache, path: string, deleted: Result<()>)
    requires Sound(c)
    ensures Sound(AfterDelete(c, path, deleted))
  {
    hide WellOrdered;
    ForgetSound(c, {path});
  }

  lemma ReboundSound(c: Cache)
    requires Sound(c)
    ensures Sound(Rebound(c)) && Sound(Rescanned(c).cache)
  {
  }

  lemma StepSound(c: Cache, op: Operation)
    requires Sound(c)
    ensures Sound(Step(c, op))
  {
    hide Sound, Rebound, Rescanned, AfterStat, AfterReaddir, AfterRead, TouchContent, TouchWriteBase, MarkMutated,
         AfterMkdir, AfterDelete, AfterWrite, AfterRename, ApplyChange;
    match op
    case Bind => ReboundSound(c);
    case Rescan => ReboundSound(c);
    case Apply(change) => ApplySound(c, change);
    case StatDone(path, started, stat) => StatSound(c, path, started, stat);
    case ReaddirDone(path, started, page) => ReaddirSound(c, path, started, page);
    case ReadDone(path, started, data) => ReadSound(c, path, started, data);
    case ContentServed(path) =>
      if ContentHit(c, path) { TouchContentSound(c, path); }
    case WriteSent(path) => WriteSentSound(c, path);
    case WriteDone(path, content, written) => WriteSound(c, path, content, written);
    case MkdirSent(path) => MarkMutatedSound(c, path);
    case MkdirDone(path, written) => MkdirSound(c, path, written);
    case DeleteDone(path, deleted) => DeleteSound(c, path, deleted);
    case RenameDone(path, to, written) => RenameSound(c, path, to, written);
  }

  /** After every run of operations all limits hold and a content never disagrees with
      the stat of its path. */
  lemma {:induction false} EveryRunIsSound(c: Cache, ops: seq<Operation>)
    requires Sound(c)
    ensures Sound(Run(c, ops))
    decreases |ops|
  {
    if ops != [] {
      StepSound(c, ops[0]);
      EveryRunIsSound(Step(c, ops[0]), ops[1..]);
    }
  }

  /** So a cached content is always served: the mismatch exit of `cachedContent` is dead. */
  lemma CachedContentIsServed(ops: seq<Operation>, path: string)
    ensures var c := Run(INITIAL, ops); ContentHit(c, path) <==> path in c.contents.items
  {
    EveryRunIsSound(INITIAL, ops);
  }

  /** No event tells FileService that the workspace root was deleted. */
  lemma NeverDeletesRoot(c: Cache, change: Change)
    ensures forall e <- ApplyChange(c, change).fired :: e.kind == FileDeleted ==> e.resource != Resource("")
  {
    hide WellOrdered, InvalidatePathAndParent, InvalidateSubtreeAndParent, InvalidateAll;
  }
}
