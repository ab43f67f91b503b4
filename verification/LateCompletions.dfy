/** Answers that arrive after another workspace has been bound: what exactly they leave in the
    caches and among the write bases of that workspace. */
module LateCompletions {
  import opened Common
  import opened Ordered
  import opened Paths
  import opened Invalidation
  import opened FileCache
  import opened CacheAccounting
  import opened CacheEpochs
  import opened CoherenceLaws
  import opened StaleResponses
  import opened SaveLaws

  predicate Fetching(op: Operation) {
    op.StatDone? || op.ReaddirDone? || op.ReadDone?
  }

  predicate Completion(op: Operation) {
    Fetching(op) || op.WriteDone? || op.MkdirDone? || op.DeleteDone? || op.RenameDone?
  }

  /** A request of this kind may have started with these tables. */
  predicate StartedAt(c: Cache, op: Operation) {
    Fetching(op) ==> op.started == EpochsOf(c, op.path)
  }

  /** The answer to a mutation that carries a stat. */
  predicate AnsweredWithStat(op: Operation) {
    (op.WriteDone? || op.MkdirDone? || op.RenameDone?) && op.written.Ok? && op.written.value.Some?
  }

  /** What a late completion puts under an item: the stat of any mutation answered with one, a
      written content that fits, and the content of a rename whose source is cached and fits. */
  function Stored(now: Cache, op: Operation, item: Item): Option<Value> {
    if !AnsweredWithStat(op) then None
    else
      var w := op.written.value.value;
      match op
      case WriteDone(path, content, _) =>
        if item == StatOf(path) then Some(StatValue(w.stat.(size := NonZero(w.stat.size, |content|))))
        else if item == ContentOf(path) && |content| <= CONTENT_BYTES then Some(ContentValue(content))
        else None
      case MkdirDone(path, _) => if item == StatOf(path) then Some(StatValue(w.stat)) else None
      case RenameDone(from, to, _) =>
        if from !in now.contents.items then
          if item == StatOf(to) then Some(StatValue(w.stat)) else None
        else
          var moved := now.contents.items[from];
          if item == StatOf(to) then Some(StatValue(MovedStat(w.stat, moved)))
          else if item == ContentOf(to) && |moved.content| <= CONTENT_BYTES then Some(ContentValue(moved.content))
          else None
      case _ => None
  }

  function MovedStat(stat: Stat, moved: CachedContent): Stat {
    stat.(mtime := NonZero(stat.mtime, moved.mtime), size := NonZero(stat.size, moved.size))
  }

  /** The write base it sets: a write's, and a rename's whose source is cached, if it has an etag. */
  function StoredBase(now: Cache, op: Operation): Option<(string, string)> {
    if !AnsweredWithStat(op) || op.written.value.value.etag == "" then None
    else
      match op
      case WriteDone(path, _, _) => Some((path, op.written.value.value.etag))
      case RenameDone(from, to, _) =>
        if from in now.contents.items then Some((to, op.written.value.value.etag)) else None
      case _ => None
  }

  /** Under each item there is what was stored, or else nothing new. */
  ghost predicate ItemsAre(now: Cache, op: Operation, c': Cache) {
    forall item ::
      if Stored(now, op, item).Some? then Cached(c', item) == Stored(now, op, item)
      else Cached(c', item).None? || Cached(c', item) == Cached(now, item)
  }

  ghost predicate BasesAre(now: Cache, op: Operation, c': Cache) {
    var base := StoredBase(now, op);
    && (base.Some? ==> base.value.0 in c'.writeBaseEtags.items && c'.writeBaseEtags.items[base.value.0] == base.value.1)
    && (forall p :: p in c'.writeBaseEtags.items && (base.None? || p != base.value.0) ==>
          p in now.writeBaseEtags.items && c'.writeBaseEtags.items[p] == now.writeBaseEtags.items[p])
  }

  // ---- storing ------------------------------------------------------------------------

  /** A stat, then a content with a time and size of its own: both are there afterwards, the
      content if it fits, and nothing else is new. */
  lemma StatAndContent(c: Cache, path: string, stat: Stat, content: Bytes, mtime: int, size: int, etag: string)
    requires StatFor(c, path) == Some(stat)
    ensures
      var c' := RememberContent(c, path, content, Some(mtime), Some(size), Some(etag));
      && Cached(c', StatOf(path)) == Some(StatValue(stat.(mtime := mtime, size := size)))
      && (if |content| <= CONTENT_BYTES then Cached(c', ContentOf(path)) == Some(ContentValue(content))
          else Cached(c', ContentOf(path)).None?)
      && forall item :: item != StatOf(path) && item != ContentOf(path) ==>
           Cached(c', item).None? || Cached(c', item) == Cached(c, item)
  {
    hide WellOrdered, Evict, Put, RememberStat, Cached;
    var entry := CachedContent(content, mtime, size);
    var kept := Evict(Put(c.contents, path, entry));
    var c1 := RememberWriteBase(c.(contents := kept), path, Some(etag));
    var stat' := stat.(mtime := mtime, size := size);
    assert RememberContent(c, path, content, Some(mtime), Some(size), Some(etag)) == RememberStat(c1, path, stat');
    RememberedContentKept(c.contents, path, entry);
    KeptEntry(c, path, entry);
    AgreeingStat(c1, path, stat');
    StatStored(c1, path, stat');
    StatThenContent(c, c1, RememberStat(c1, path, stat'), path, stat', content);
  }

  lemma StatThenContent(c: Cache, c1: Cache, c': Cache, path: string, stat: Stat, content: Bytes)
    requires c1.stats == c.stats && c1.readdirs == c.readdirs
    requires forall p :: p in c1.contents.items && p != path ==>
      p in c.contents.items && c1.contents.items[p] == c.contents.items[p]
    requires path in c1.contents.items ==> c1.contents.items[path].content == content
    requires path in c1.contents.items <==> |content| <= CONTENT_BYTES
    requires c'.contents == c1.contents && StatFor(c', path) == Some(stat)
    requires forall item :: Cached(c', item).None? || Cached(c', item) == Cached(c1, item) || item == StatOf(path)
    ensures Cached(c', StatOf(path)) == Some(StatValue(stat))
    ensures if |content| <= CONTENT_BYTES then Cached(c', ContentOf(path)) == Some(ContentValue(content))
            else Cached(c', ContentOf(path)).None?
    ensures forall item :: item != StatOf(path) && item != ContentOf(path) ==>
      Cached(c', item).None? || Cached(c', item) == Cached(c, item)
  {
    hide WellOrdered;
    forall item | item != StatOf(path) && item != ContentOf(path)
      ensures Cached(c', item).None? || Cached(c', item) == Cached(c, item)
    {
      assert Cached(c1, item).None? || Cached(c1, item) == Cached(c, item);
    }
  }

  lemma MutatedItems(c: Cache, path: string)
    ensures OnlyLoses(c, MarkMutated(c, path)) && NoNewBase(c, MarkMutated(c, path))
  {
    hide WellOrdered;
  }

  lemma ForgottenItems(c: Cache, path: string)
    ensures OnlyLoses(c, ForgetPath(c, path)) && NoNewBase(c, ForgetPath(c, path))
  {
    hide WellOrdered;
  }

  lemma ForgottenParents(c: Cache, path: string)
    ensures OnlyLoses(c, ForgetPathAndParents(c, path)) && NoNewBase(c, ForgetPathAndParents(c, path))
  {
    hide WellOrdered, ForgetPath;
    var marked := c.(pathEpochs := MarkPathStale(c.pathEpochs, path));
    var forgotten := ForgetPath(marked, path);
    ForgottenItems(marked, path);
    ParentEffects(forgotten, path);
    assert OnlyLoses(c, marked);
    OnlyLosesTwice(c, marked, forgotten);
    OnlyLosesTwice(c, forgotten, ForgetPathAndParents(c, path));
  }

  lemma WriteStores(now: Cache, op: Operation)
    requires op.WriteDone? && AnsweredWithStat(op)
    ensures ItemsAre(now, op, Step(now, op)) && BasesAre(now, op, Step(now, op))
  {
    hide WellOrdered, MarkMutated, RememberStat, RememberContent, Cached;
    var path, content, w := op.path, op.content, op.written.value.value;
    var size := NonZero(w.stat.size, |content|);
    var stat := w.stat.(size := size);
    var marked := MarkMutated(now, path);
    MutatedItems(now, path);
    StatStored(marked, path, stat);
    StatPresent(marked, path, stat);
    StatAndContent(RememberStat(marked, path, stat), path, stat, content, w.stat.mtime, size, w.etag);
    assert stat.(mtime := w.stat.mtime, size := size) == stat;
    WrittenBase(now, op);
  }

  lemma WrittenBase(now: Cache, op: Operation)
    requires op.WriteDone? && AnsweredWithStat(op)
    ensures BasesAre(now, op, Step(now, op))
  {
    hide WellOrdered, AfterWrite;
    WriteSetsBase(now, op.path, op.content, op.written.value.value);
    WriteBase(now, op.path, op.content, op.written);
  }

  lemma MkdirStores(now: Cache, op: Operation)
    requires op.MkdirDone? && AnsweredWithStat(op)
    ensures ItemsAre(now, op, Step(now, op)) && BasesAre(now, op, Step(now, op))
  {
    hide WellOrdered, RememberStat;
    StatStored(now, op.path, op.written.value.value.stat);
    StatPresent(now, op.path, op.written.value.value.stat);
    RememberKeepsBases(now, op.path, op.written.value.value.stat);
  }

  lemma RenameForgets(now: Cache, from: string, to: string)
    ensures
      var forgotten := ForgetPathAndParents(now, from);
      var c1 := forgotten.(readdirs := Remove(forgotten.readdirs, {Parent(to)}));
      OnlyLoses(now, c1) && NoNewBase(now, c1)
  {
    hide WellOrdered, ForgetPathAndParents, Cached;
    ForgottenParents(now, from);
    var forgotten := ForgetPathAndParents(now, from);
    ListingForgotten(forgotten, Parent(to));
    OnlyLosesTwice(now, forgotten, forgotten.(readdirs := Remove(forgotten.readdirs, {Parent(to)})));
  }

  lemma ListingForgotten(c: Cache, path: string)
    ensures OnlyLoses(c, c.(readdirs := Remove(c.readdirs, {path})))
  {
    hide WellOrdered;
  }

  lemma RenameStores(now: Cache, op: Operation)
    requires op.RenameDone? && AnsweredWithStat(op)
    ensures ItemsAre(now, op, Step(now, op)) && BasesAre(now, op, Step(now, op))
  {
    hide WellOrdered, ForgetPathAndParents, RememberStat, RememberContent, Cached;
    var from, to, w := op.path, op.to, op.written.value.value;
    var forgotten := ForgetPathAndParents(now, from);
    var c1 := forgotten.(readdirs := Remove(forgotten.readdirs, {Parent(to)}));
    RenameForgets(now, from, to);
    StatStored(c1, to, w.stat);
    StatPresent(c1, to, w.stat);
    RememberKeepsBases(c1, to, w.stat);
    if from in now.contents.items {
      var moved := now.contents.items[from];
      var mtime, size := NonZero(w.stat.mtime, moved.mtime), NonZero(w.stat.size, moved.size);
      var c2 := RememberStat(c1, to, w.stat);
      StatAndContent(c2, to, w.stat, moved.content, mtime, size, w.etag);
      ContentBase(c2, to, moved.content, Some(mtime), Some(size), Some(w.etag));
      ContentSetsBase(c2, to, moved.content, mtime, size, w.etag);
    } else {
      OnlyStat(c1, to, w.stat);
    }
  }

  lemma OnlyStat(c: Cache, path: string, stat: Stat)
    ensures Cached(RememberStat(c, path, stat), StatOf(path)) == Some(StatValue(stat))
  {
    hide WellOrdered;
    StatPresent(c, path, stat);
  }

  lemma ContentSetsBase(c: Cache, path: string, content: Bytes, mtime: int, size: int, etag: string)
    ensures
      var c' := RememberContent(c, path, content, Some(mtime), Some(size), Some(etag));
      if etag == "" then NoNewBase(c, c') else path in c'.writeBaseEtags.items && c'.writeBaseEtags.items[path] == etag
  {
    hide WellOrdered, RememberContent;
    SetsBase(c, path, content, Some(mtime), Some(size), etag);
    NewestSurvivesTrim(c.writeBaseEtags, path, etag, WRITE_BASE_ENTRIES);
  }

  /** A completion that carries no current epochs, or none at all, stores exactly that. */
  lemma StoresExactly(now: Cache, op: Operation)
    requires Completion(op) && (Fetching(op) ==> op.started != EpochsOf(now, op.path))
    ensures ItemsAre(now, op, Step(now, op)) && BasesAre(now, op, Step(now, op))
  {
    if AnsweredWithStat(op) {
      match op
      case WriteDone(_, _, _) => WriteStores(now, op);
      case MkdirDone(_, _) => MkdirStores(now, op);
      case RenameDone(_, _, _) => RenameStores(now, op);
    } else {
      StoresNothing(now, op);
    }
  }

  lemma StoresNothing(now: Cache, op: Operation)
    requires Completion(op) && !AnsweredWithStat(op) && (Fetching(op) ==> op.started != EpochsOf(now, op.path))
    ensures OnlyLoses(now, Step(now, op)) && NoNewBase(now, Step(now, op))
  {
    hide WellOrdered, ForgetPathAndParents, ForgetPath, MarkMutated, Cached, EpochsOf;
    match op
    case StatDone(path, _, _) => ForgottenItems(now, path);
    case ReaddirDone(_, _, _) =>
    case ReadDone(_, _, _) =>
    case WriteDone(path, _, _) =>
      MutatedItems(now, path);
      ForgottenParents(MarkMutated(now, path), path);
    case MkdirDone(_, _) =>
    case DeleteDone(path, _) => ForgottenParents(now, path);
    case RenameDone(from, to, _) =>
      RenameForgets(now, from, to);
      var forgotten := ForgetPathAndParents(now, from);
      ForgottenItems(forgotten.(readdirs := Remove(forgotten.readdirs, {Parent(to)})), to);
  }

  // ---- across a binding ---------------------------------------------------------------

  /** No request begun before a binding carries epochs that match after it. */
  lemma EpochsLeftBehind(c: Cache, earlier: seq<Operation>, later: seq<Operation>, path: string)
    ensures EpochsOf(c, path) != EpochsOf(Run(Step(Run(c, earlier), Bind), later), path)
  {
    hide Step;
    var at := Run(c, earlier);
    RunAdvances(c, earlier);
    RunAdvances(Step(at, Bind), later);
    assert NotAfter(EpochsOf(c, path), EpochsOf(at, path));
    assert Step(at, Bind) == Rebound(at) by { BindStep(at); }
    assert NotAfter(EpochsOf(Step(at, Bind), path), EpochsOf(Run(Step(at, Bind), later), path));
  }

  lemma BindStep(c: Cache)
    ensures Step(c, Bind) == Rebound(c)
  {
  }

  ghost predicate AddsSomething(now: Cache, c': Cache) {
    !OnlyLoses(now, c') || !NoNewBase(now, c')
  }

  ghost predicate NewsOf(now: Cache, op: Operation) {
    || (exists item :: Stored(now, op, item).Some? && Stored(now, op, item) != Cached(now, item))
    || (var base := StoredBase(now, op);
        base.Some?
          && !(base.value.0 in now.writeBaseEtags.items && now.writeBaseEtags.items[base.value.0] == base.value.1))
  }

  /** A completion begun before a binding, at any time after it and whatever ran in between: under
      each item and path there is exactly what it stores, and it adds to the tables of the new
      workspace if and only if what it stores is not there already. */
  lemma LateCompletionAddsExactly(c: Cache, earlier: seq<Operation>, later: seq<Operation>, op: Operation)
    requires Completion(op) && StartedAt(c, op)
    ensures
      var now := Run(Step(Run(c, earlier), Bind), later);
      && ItemsAre(now, op, Step(now, op)) && BasesAre(now, op, Step(now, op))
      && (AddsSomething(now, Step(now, op)) <==> NewsOf(now, op))
  {
    hide Step, EpochsOf;
    var now := Run(Step(Run(c, earlier), Bind), later);
    if Fetching(op) { EpochsLeftBehind(c, earlier, later, op.path); }
    StoresExactly(now, op);
    AddsExactly(now, op, Step(now, op));
  }

  lemma AddsExactly(now: Cache, op: Operation, c': Cache)
    requires ItemsAre(now, op, c') && BasesAre(now, op, c')
    ensures AddsSomething(now, c') <==> NewsOf(now, op)
  {
    hide Stored, StoredBase, Cached, WellOrdered;
    if OnlyLoses(now, c') {
      forall item | Stored(now, op, item).Some?
        ensures Stored(now, op, item) == Cached(now, item)
      {
        assert Cached(c', item) == Stored(now, op, item);
      }
    } else {
      var item :| !(Cached(c', item).None? || Cached(c', item) == Cached(now, item));
      assert Stored(now, op, item).Some?;
    }
  }

  /** Right after the binding the tables are empty, so the completions that add to them are just
      the mutations answered with a stat: writes, new directories and renames. The requests that
      compare epochs never do. */
  lemma FirstCompletionAddsExactly(c: Cache, earlier: seq<Operation>, op: Operation)
    requires Completion(op) && StartedAt(c, op)
    ensures
      var now := Step(Run(c, earlier), Bind);
      AddsSomething(now, Step(now, op)) <==> AnsweredWithStat(op)
  {
    LateCompletionAddsExactly(c, earlier, [], op);
    var now := Rebound(Run(c, earlier));
    hide Run, Step, AddsSomething, ItemsAre, BasesAre;
    if AnsweredWithStat(op) {
      var item := StatOf(if op.RenameDone? then op.to else op.path);
      assert Stored(now, op, item).Some? && Cached(now, item).None?;
    }
  }

  lemma RunFirst(c: Cache, op: Operation, rest: seq<Operation>)
    ensures Run(c, [op] + rest) == Run(Step(c, op), rest)
    ensures [op] + [] == [op]
  {
    assert ([op] + rest)[1..] == rest;
  }

  /** For instance a directory created in one workspace, whose stat the next one then shows. */
  lemma MkdirCrossesWitness(c: Cache, path: string, w: WireStat)
    ensures
      var c' := Run(c, [MkdirSent(path), Bind, MkdirDone(path, Ok(Some(w)))]);
      Cached(c', StatOf(path)) == Some(StatValue(w.stat))
  {
    LateCompletionAddsExactly(c, [MkdirSent(path)], [], MkdirDone(path, Ok(Some(w))));
    var sent := Step(c, MkdirSent(path));
    var bound := Step(sent, Bind);
    var done := MkdirDone(path, Ok(Some(w)));
    assert Stored(bound, done, StatOf(path)) == Some(StatValue(w.stat));
    hide Step, Cached, Stored;
    RunFirst(c, MkdirSent(path), []);
    RunFirst(c, MkdirSent(path), [Bind, done]);
    RunFirst(sent, Bind, [done]);
    RunFirst(bound, done, []);
  }

  /** And a file renamed in one workspace. */
  lemma RenameCrossesWitness(c: Cache, from: string, to: string, w: WireStat)
    ensures Cached(Run(c, [Bind, RenameDone(from, to, Ok(Some(w)))]), StatOf(to)) == Some(StatValue(w.stat))
  {
    LateCompletionAddsExactly(c, [], [], RenameDone(from, to, Ok(Some(w))));
    var bound := Step(c, Bind);
    var done := RenameDone(from, to, Ok(Some(w)));
    assert Stored(bound, done, StatOf(to)) == Some(StatValue(w.stat));
    hide Step, Cached, Stored;
    RunFirst(c, Bind, [done]);
    RunFirst(bound, done, []);
  }
}
