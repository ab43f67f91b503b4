/** What an answer leaves in the caches, exactly, and that storing it loses nothing else while there
    is room. */
module Storing {
  import opened Common
  import opened Ordered
  import opened Paths
  import opened Invalidation
  import opened FileCache
  import opened CacheAccounting
  import opened CacheEpochs
  import opened CoherenceLaws
  import opened LateCompletions
  import opened StaleResponses
  import opened Saves
  import opened SaveLaws

  // ---- order ----------------------------------------------------------------------

  /** `a` comes before `b`. */
  ghost predicate Precedes(keys: seq<string>, a: string, b: string) {
    exists i, j | 0 <= i < j < |keys| :: keys[i] == a && keys[j] == b
  }

  lemma {:induction false} MinusKeepsOrder(keys: seq<string>, gone: set<string>, i: nat, j: nat)
    requires i < j < |keys| && keys[i] !in gone && keys[j] !in gone
    ensures Precedes(Minus(keys, gone), keys[i], keys[j])
  {
    var rest := Minus(keys[1..], gone);
    assert keys[1..][j - 1] == keys[j];
    if i == 0 {
      var k :| 0 <= k < |rest| && rest[k] == keys[j] by { assert keys[j] in rest; }
      var all := [keys[0]] + rest;
      assert all[0] == keys[i] && all[k + 1] == keys[j];
    } else {
      assert keys[1..][i - 1] == keys[i];
      MinusKeepsOrder(keys[1..], gone, i - 1, j - 1);
      var k, l :| 0 <= k < l < |rest| && rest[k] == keys[i] && rest[l] == keys[j];
      if keys[0] !in gone {
        assert ([keys[0]] + rest)[k + 1] == keys[i] && ([keys[0]] + rest)[l + 1] == keys[j];
      }
    }
  }

  /** Storing a value makes its key the newest and leaves the others in their order. */
  lemma PutOrder<V>(m: OrderedMap<V>, key: string, value: V, a: string, b: string)
    ensures var r := Put(m, key, value);
      && r.keys != [] && r.keys[|r.keys| - 1] == key
      && (Precedes(m.keys, a, b) && a != key && b != key ==> Precedes(r.keys, a, b))
  {
    hide WellOrdered, Minus;
    var r, rest := Put(m, key, value), Minus(m.keys, {key});
    if Precedes(m.keys, a, b) && a != key && b != key {
      var i, j :| 0 <= i < j < |m.keys| && m.keys[i] == a && m.keys[j] == b;
      MinusKeepsOrder(m.keys, {key}, i, j);
      var k, l :| 0 <= k < l < |rest| && rest[k] == a && rest[l] == b;
      assert r.keys[k] == a && r.keys[l] == b;
    }
  }

  /** Trimming keeps exactly the newest entries, in order, as they are. */
  lemma TrimIsSuffix<V>(m: OrderedMap<V>, limit: nat)
    ensures var r := Trim(m, limit);
      && |r.keys| == (if |m.keys| < limit then |m.keys| else limit)
      && r.keys == m.keys[|m.keys| - |r.keys|..]
      && forall k :: k in r.items ==> k in m.items && r.items[k] == m.items[k]
  {
  }

  // ---- room -------------------------------------------------------------------------

  /** One more entry fits every table, and so many bytes the contents. */
  ghost predicate Room(c: Cache, bytes: nat) {
    && |c.stats.keys| < 512 && |c.writeBaseEtags.keys| < 512 && |c.readdirs.keys| < 256
    && |c.contents.keys| < 64 && TotalBytes(c.contents) + bytes <= 16 * 1024 * 1024
  }

  /** Nothing has changed that is cached, or a write base, of other paths. */
  ghost predicate OthersStay(c: Cache, c': Cache, paths: set<string>) {
    && (forall item: Item :: item.path !in paths ==> Cached(c', item) == Cached(c, item))
    && c'.writeBaseEtags.items - paths == c.writeBaseEtags.items - paths
  }

  lemma PutFits<V>(m: OrderedMap<V>, key: string, value: V, limit: nat)
    requires |m.keys| < limit || (key in m.items && |m.keys| == limit)
    ensures Trim(Put(m, key, value), limit) == Put(m, key, value)
    ensures |Put(m, key, value).keys| <= limit
  {
    hide WellOrdered;
    if key in m.items { CountRemoved(m, key); }
  }

  lemma CountRemoved<V>(m: OrderedMap<V>, key: string)
    requires key in m.items
    ensures |Minus(m.keys, {key})| == |m.keys| - 1
  {
    CountMinusOne(m.keys, key);
  }

  lemma StatKeepsOthers(c: Cache, path: string, stat: Stat)
    requires |c.stats.keys| < 512 || (path in c.stats.items && |c.stats.keys| == 512)
    ensures var c' := RememberStat(c, path, stat);
      && OthersStay(c, c', {path})
      && Cached(c', ListingOf(path)) == Cached(c, ListingOf(path)) && c'.writeBaseEtags == c.writeBaseEtags
      && (path in c'.contents.items ==> path in c.contents.items)
      && |c'.stats.keys| <= 512
  {
    hide WellOrdered, Trim, Put;
    PutFits(c.stats, path, stat, 512);
  }

  lemma EntryKeepsOthers(m: OrderedMap<CachedContent>, path: string, entry: CachedContent)
    requires |m.keys| < 64 && TotalBytes(m) + |entry.content| <= 16 * 1024 * 1024
    ensures Evict(Put(m, path, entry)) == Put(m, path, entry)
  {
    hide WellOrdered, Put, TotalBytes;
    TotalAfterPut(m, path, entry);
    TotalAfterRemove(m, {path});
    PutFits(m, path, entry, 64);
  }

  lemma BaseKeepsOthers(c: Cache, path: string, etag: Option<string>)
    requires |c.writeBaseEtags.keys| < 512
    ensures var c' := RememberWriteBase(c, path, etag);
      && c' == c.(writeBaseEtags := c'.writeBaseEtags)
      && c'.writeBaseEtags.items - {path} == c.writeBaseEtags.items - {path}
      && BaseSet(c, c', path, etag)
  {
    hide WellOrdered, Trim, Put;
    if etag.Some? { PutFits(c.writeBaseEtags, path, etag.value, 512); }
  }

  /** A non-empty etag becomes the base of the path; without one the base is as it was. */
  ghost predicate BaseSet(c: Cache, c': Cache, path: string, etag: Option<string>) {
    if etag.Some? && etag.value != "" then
      path in c'.writeBaseEtags.items && c'.writeBaseEtags.items[path] == etag.value
    else
      (path in c'.writeBaseEtags.items <==> path in c.writeBaseEtags.items)
      && (path in c.writeBaseEtags.items ==> c'.writeBaseEtags.items[path] == c.writeBaseEtags.items[path])
  }

  lemma ContentKeepsOthers(c: Cache, path: string, content: Bytes, mtime: Option<int>, size: Option<int>,
      etag: Option<string>)
    requires |c.writeBaseEtags.keys| < 512 && |c.contents.keys| < 64
    requires TotalBytes(c.contents) + |content| <= 16 * 1024 * 1024
    requires |c.stats.keys| <= 512
    ensures var c' := RememberContent(c, path, content, mtime, size, etag);
      && OthersStay(c, c', {path})
      && Cached(c', ListingOf(path)) == Cached(c, ListingOf(path))
  {
    hide WellOrdered, Trim, Put, RememberStat, RememberWriteBase, Evict, TotalBytes, OthersStay;
    var prev := StatFor(c, path);
    var entry := CachedContent(content, OrElse(mtime, if prev.Some? then prev.value.mtime else 0),
                               OrElse(size, if prev.Some? then prev.value.size else |content|));
    EntryKeepsOthers(c.contents, path, entry);
    var c1 := c.(contents := Put(c.contents, path, entry));
    var c2 := RememberWriteBase(c1, path, etag);
    BaseKeepsOthers(c1, path, etag);
    ContentPut(c, c2, path, entry);
    if prev.Some? {
      var stat := prev.value.(mtime := OrElse(mtime, prev.value.mtime), size := entry.size);
      StatKeepsOthers(c2, path, stat);
      OthersStayTwice(c, c2, RememberStat(c2, path, stat), {path}, {path});
    }
  }

  lemma ContentPut(c: Cache, c2: Cache, path: string, entry: CachedContent)
    requires c2 == c.(contents := Put(c.contents, path, entry), writeBaseEtags := c2.writeBaseEtags)
    requires c2.writeBaseEtags.items - {path} == c.writeBaseEtags.items - {path}
    ensures OthersStay(c, c2, {path}) && Cached(c2, ListingOf(path)) == Cached(c, ListingOf(path))
  {
    hide WellOrdered;
  }

  lemma OthersStayTwice(c: Cache, c1: Cache, c2: Cache, a: set<string>, b: set<string>)
    requires OthersStay(c, c1, a) && OthersStay(c1, c2, b)
    ensures OthersStay(c, c2, a + b)
    ensures a == b ==> OthersStay(c, c2, a)
  {
    var all, m0, m1, m2 := a + b, c.writeBaseEtags.items, c1.writeBaseEtags.items, c2.writeBaseEtags.items;
    assert m0 - all == (m0 - a) - b == (m1 - a) - b == m1 - all;
    assert m1 - all == (m1 - b) - a == (m2 - b) - a == m2 - all;
    assert a == b ==> all == a;
  }

  // ---- what is stored -----------------------------------------------------------------

  /** The content that is cached after `content` was stored: it itself exactly if it fits 16 MiB. */
  function Fitting(content: Bytes): Option<Value> {
    if |content| <= 16 * 1024 * 1024 then Some(ContentValue(content)) else None
  }

  lemma BaseIsSet(c: Cache, path: string, etag: Option<string>)
    ensures BaseSet(c, RememberWriteBase(c, path, etag), path, etag)
  {
    if etag.Some? { NewestSurvivesTrim(c.writeBaseEtags, path, etag.value, WRITE_BASE_ENTRIES); }
  }

  lemma ContentGoesIn(c: Cache, path: string, content: Bytes, mtime: Option<int>, size: Option<int>,
      etag: Option<string>)
    ensures
      var c', prev := RememberContent(c, path, content, mtime, size, etag), StatFor(c, path);
      && Cached(c', ContentOf(path)) == Fitting(content)
      && (prev.None? ==> Cached(c', StatOf(path)).None?)
      && (prev.Some? ==>
            Cached(c', StatOf(path)) == Some(StatValue(prev.value.(
              mtime := if mtime.Some? then mtime.value else prev.value.mtime,
              size := if size.Some? then size.value else prev.value.size))))
      && BaseSet(c, c', path, etag)
  {
    hide WellOrdered, Evict, Put, RememberStat, RememberWriteBase, BaseSet;
    var prev := StatFor(c, path);
    var entry := CachedContent(content, OrElse(mtime, if prev.Some? then prev.value.mtime else 0),
                               OrElse(size, if prev.Some? then prev.value.size else |content|));
    var kept := Evict(Put(c.contents, path, entry));
    RememberedContentKept(c.contents, path, entry);
    KeptEntry(c, path, entry);
    var c1 := c.(contents := kept);
    var c2 := RememberWriteBase(c1, path, etag);
    BaseIsSet(c1, path, etag);
    BaseFrame(c1, path, etag);
    if prev.Some? {
      var stat := prev.value.(mtime := OrElse(mtime, prev.value.mtime), size := entry.size);
      AgreeingStat(c2, path, stat);
      RememberKeepsBases(c2, path, stat);
    }
    BaseOf(c, c1, c2, RememberContent(c, path, content, mtime, size, etag), path, etag);
  }

  lemma BaseFrame(c: Cache, path: string, etag: Option<string>)
    ensures var c' := RememberWriteBase(c, path, etag); c' == c.(writeBaseEtags := c'.writeBaseEtags)
  {
    hide WellOrdered, Trim, Put;
  }

  lemma BaseOf(c: Cache, c1: Cache, c2: Cache, c': Cache, path: string, etag: Option<string>)
    requires c1.writeBaseEtags == c.writeBaseEtags && c'.writeBaseEtags == c2.writeBaseEtags
    requires BaseSet(c1, c2, path, etag)
    ensures BaseSet(c, c', path, etag)
  {
  }

  /** A read answered in time, with its stat, leaves that stat, the content if it fits, and the etag
      as the base of the path; while there is room nothing of any other path is touched. A read that
      failed, or that an invalidation overtook, leaves all as it was. */
  lemma ReadStoresExactly(c: Cache, path: string, started: Epochs, response: Result<FileData>)
    ensures
      var c' := AfterRead(c, path, started, response);
      && (response.Failed? || EpochsOf(c, path) != started ==> c' == c)
      && (response.Ok? && EpochsOf(c, path) == started ==>
            var data := response.value;
            && Cached(c', ContentOf(path)) == Fitting(data.content)
            && (data.stat.Some? ==> Cached(c', StatOf(path)) == Some(StatValue(data.stat.value.stat)))
            && (data.stat.None? ==>
                  Cached(c', StatOf(path)) ==
                    if path in c.stats.items then Some(StatValue(c.stats.items[path].(size := |data.content|)))
                    else None)
            && BaseSet(c, c', path, if data.stat.Some? then Some(data.stat.value.etag) else None)
            && (Room(c, |data.content|) ==> OthersStay(c, c', {path})))
  {
    hide WellOrdered, RememberStat, RememberContent, Room, EpochsOf, Cached, Fitting, OthersStay, BaseSet;
    if response.Ok? {
      var data := response.value;
      if data.stat.Some? {
        var w := data.stat.value;
        var c1 := RememberStat(c, path, w.stat);
        StatIsThere(c, path, w.stat);
        ContentGoesIn(c1, path, data.content, Some(w.stat.mtime), Some(w.stat.size), Some(w.etag));
        RememberKeepsBases(c, path, w.stat);
        BaseOf(c, c1, RememberFile(c, path, data), RememberFile(c, path, data), path, Some(w.etag));
        assert w.stat.(mtime := w.stat.mtime, size := w.stat.size) == w.stat;
        if Room(c, |data.content|) {
          StatThenContentStay(c, path, w.stat, data.content, w.stat.mtime, w.stat.size, w.etag);
        }
      } else {
        ContentGoesIn(c, path, data.content, None, Some(|data.content|), None);
        if Room(c, |data.content|) {
          ContentStays(c, path, data.content);
        }
      }
    }
  }

  lemma ContentStays(c: Cache, path: string, content: Bytes)
    requires Room(c, |content|)
    ensures OthersStay(c, RememberContent(c, path, content, None, Some(|content|), None), {path})
  {
    hide RememberContent, OthersStay, TotalBytes;
    ContentKeepsOthers(c, path, content, None, Some(|content|), None);
  }

  lemma StatThenContentStay(c: Cache, path: string, stat: Stat, content: Bytes, mtime: int, size: int, etag: string)
    requires Room(c, |content|)
    ensures var c1 := RememberStat(c, path, stat);
      OthersStay(c, RememberContent(c1, path, content, Some(mtime), Some(size), Some(etag)), {path})
  {
    hide RememberStat, RememberContent, OthersStay;
    var c1 := RememberStat(c, path, stat);
    StatKeepsOthers(c, path, stat);
    StatLeavesContents(c, path, stat);
    ContentKeepsOthers(c1, path, content, Some(mtime), Some(size), Some(etag));
    OthersStayTwice(c, c1, RememberContent(c1, path, content, Some(mtime), Some(size), Some(etag)), {path}, {path});
  }

  lemma StatLeavesContents(c: Cache, path: string, stat: Stat)
    ensures var c' := RememberStat(c, path, stat);
      |c'.contents.keys| <= |c.contents.keys| && TotalBytes(c'.contents) <= TotalBytes(c.contents)
      && c'.writeBaseEtags == c.writeBaseEtags
  {
    TotalAfterRemove(c.contents, {path});
    hide TotalBytes, Trim, Put;
  }

  /** A stat answered in time is cached; a cached content of another time or size goes with it. */
  lemma StatStoresExactly(c: Cache, path: string, started: Epochs, stat: Stat)
    ensures
      var c' := AfterStat(c, path, started, Ok(stat));
      if EpochsOf(c, path) != started then c' == c
      else
        && Cached(c', StatOf(path)) == Some(StatValue(stat))
        && Cached(c', ListingOf(path)) == Cached(c, ListingOf(path)) && c'.writeBaseEtags == c.writeBaseEtags
        && (path in c'.contents.items <==>
              path in c.contents.items && c.contents.items[path].mtime == stat.mtime
              && c.contents.items[path].size == stat.size)
        && (path in c'.contents.items ==> c'.contents.items[path] == c.contents.items[path])
        && (|c.stats.keys| < 512 ==> OthersStay(c, c', {path}))
  {
    hide WellOrdered, Trim, Put, EpochsOf, OthersStay;
    NewestSurvivesTrim(c.stats, path, stat, STAT_ENTRIES);
    StatPresent(c, path, stat);
    if |c.stats.keys| < 512 { StatKeepsOthers(c, path, stat); }
  }

  /** A complete listing answered in time is cached. */
  lemma ListingStoresExactly(c: Cache, path: string, started: Epochs, page: DirectoryPage)
    ensures
      var c' := AfterReaddir(c, path, started, Ok(page));
      if page.truncated || EpochsOf(c, path) != started then c' == c
      else
        && Cached(c', ListingOf(path)) == Some(ListingValue(page.entries))
        && c' == c.(readdirs := c'.readdirs)
        && (|c.readdirs.keys| < 256 ==> forall item :: item != ListingOf(path) ==> Cached(c', item) == Cached(c, item))
  {
    hide WellOrdered, Trim, Put, EpochsOf;
    ListingStored(c, path, page.entries);
    if |c.readdirs.keys| < 256 { PutFits(c.readdirs, path, page.entries, 256); }
  }

  // ---- what is used becomes the newest -----------------------------------------------------

  /** A content that is served becomes the newest; its time, the other contents and their order stay. */
  lemma ServedIsNewest(c: Cache, path: string, a: string, b: string)
    requires path in c.contents.items
    ensures var c' := TouchContent(c, path);
      && c' == c.(contents := c'.contents) && c'.contents.items == c.contents.items
      && c'.contents.keys != [] && c'.contents.keys[|c'.contents.keys| - 1] == path
      && (Precedes(c.contents.keys, a, b) && a != path && b != path ==> Precedes(c'.contents.keys, a, b))
  {
    hide WellOrdered, Precedes;
    PutOrder(c.contents, path, c.contents.items[path], a, b);
  }

  /** So does a base that is sent with a save. */
  lemma SentBaseIsNewest(c: Cache, path: string, a: string, b: string)
    ensures var c' := TouchWriteBase(c, path);
      && c' == c.(writeBaseEtags := c'.writeBaseEtags) && c'.writeBaseEtags.items == c.writeBaseEtags.items
      && (path in c.writeBaseEtags.items && c.writeBaseEtags.items[path] != "" ==>
            c'.writeBaseEtags.keys != [] && c'.writeBaseEtags.keys[|c'.writeBaseEtags.keys| - 1] == path)
      && (Precedes(c.writeBaseEtags.keys, a, b) && a != path && b != path ==> Precedes(c'.writeBaseEtags.keys, a, b))
  {
    hide WellOrdered, Precedes;
    if path in c.writeBaseEtags.items {
      PutOrder(c.writeBaseEtags, path, c.writeBaseEtags.items[path], a, b);
    }
  }

  // ---- a save after a read --------------------------------------------------------------------

  /** A save of a file that was read in time, and that nobody has changed since, goes through: the read
      leaves the base that both looks of the save ask for. */
  lemma ReadThenSave(c: Cache, path: string, started: Epochs, data: FileData, content: Bytes, create: bool,
      files: Files, made: WireStat)
    requires EpochsOf(c, path) == started && data.stat.Some? && data.stat.value.etag != ""
    requires path in files && files[path] == TextFile(data.content, data.stat.value.etag)
    ensures
      var base := CurrentWriteBase(AfterRead(c, path, started, Ok(data)), path);
      var request := WriteRequest(path, content, create, true, if base.Some? then base.value else "");
      && CheckWrite(files, request) == Checked(true)
      && CommitWrite(files, request, true, made)
         == Stored(files[path := TextFile(content, made.etag)], Written(made))
  {
    hide AfterRead, EpochsOf, Fitting, Cached;
    ReadStoresExactly(c, path, started, Ok(data));
  }

  /** And so does the next save after one that was answered: its etag is the new base. */
  lemma SaveThenSave(c: Cache, path: string, first: Bytes, w: WireStat, content: Bytes, create: bool, files: Files,
      made: WireStat)
    requires w.etag != "" && path in files && files[path] == TextFile(first, w.etag)
    ensures
      var base := CurrentWriteBase(AfterWrite(c, path, first, ToResponse(Written(w))), path);
      var request := WriteRequest(path, content, create, true, if base.Some? then base.value else "");
      && CheckWrite(files, request) == Checked(true)
      && CommitWrite(files, request, true, made)
         == Stored(files[path := TextFile(content, made.etag)], Written(made))
  {
    hide AfterWrite;
    WriteSetsBase(c, path, first, w);
  }
}
