/** What every run of reads, saves and foreign changes keeps. */
module SaveLaws {
  import opened Common
  import opened Ordered
  import opened Paths
  import opened Changes
  import opened FileCache
  import opened CacheAccounting
  import opened CacheEpochs
  import opened StaleResponses
  import opened Saves

  // ---- write bases ----------------------------------------------------------------

  /** Every base of `c'` was one of `c`. */
  ghost predicate NoNewBase(c: Cache, c': Cache) {
    forall p :: p in c'.writeBaseEtags.items ==>
      p in c.writeBaseEtags.items && c'.writeBaseEtags.items[p] == c.writeBaseEtags.items[p]
  }

  /** At most `etag` at `path` is new. */
  ghost predicate NewBaseOnly(c: Cache, c': Cache, path: string, etag: string) {
    forall p :: p in c'.writeBaseEtags.items ==>
      || (p in c.writeBaseEtags.items && c'.writeBaseEtags.items[p] == c.writeBaseEtags.items[p])
      || (p == path && c'.writeBaseEtags.items[p] == etag)
  }

  /** An external change never advances a write base, nor drops one. */
  lemma WatchKeepsBases(c: Cache, change: Change)
    ensures ApplyChange(c, change).cache.writeBaseEtags == c.writeBaseEtags
    ensures Rescanned(c).cache.writeBaseEtags == c.writeBaseEtags
  {
  }

  lemma RememberKeepsBases(c: Cache, path: string, stat: Stat)
    ensures RememberStat(c, path, stat).writeBaseEtags == c.writeBaseEtags
  {
  }

  lemma ContentBase(c: Cache, path: string, content: Bytes, mtime: Option<int>, size: Option<int>, etag: Option<string>)
    ensures NewBaseOnly(c, RememberContent(c, path, content, mtime, size, etag), path, OrElse(etag, ""))
    ensures etag.None? ==> NoNewBase(c, RememberContent(c, path, content, mtime, size, etag))
  {
    hide WellOrdered;
  }

  lemma ReadBase(c: Cache, path: string, started: Epochs, response: Result<FileData>)
    ensures
      var c' := AfterRead(c, path, started, response);
      if response.Ok? && response.value.stat.Some? && EpochsOf(c, path) == started
      then NewBaseOnly(c, c', path, response.value.stat.value.etag) else NoNewBase(c, c')
  {
    hide WellOrdered, RememberContent, RememberStat, EpochsOf;
    if response.Ok? {
      var data := response.value;
      if data.stat.Some? {
        var w := data.stat.value;
        RememberKeepsBases(c, path, w.stat);
        ContentBase(RememberStat(c, path, w.stat), path, data.content, Some(w.stat.mtime), Some(w.stat.size),
          Some(w.etag));
      } else {
        ContentBase(c, path, data.content, None, Some(|data.content|), None);
      }
    }
  }

  lemma WriteBase(c: Cache, path: string, content: Bytes, response: Result<Option<WireStat>>)
    ensures
      var c' := AfterWrite(c, path, content, response);
      if response.Ok? && response.value.Some?
      then NewBaseOnly(c, c', path, response.value.value.etag) else NoNewBase(c, c')
  {
    hide WellOrdered, RememberContent, RememberStat;
    if response.Ok? && response.value.Some? {
      var w := response.value.value;
      var size := NonZero(w.stat.size, |content|);
      var c1 := RememberStat(MarkMutated(c, path), path, w.stat.(size := size));
      RememberKeepsBases(MarkMutated(c, path), path, w.stat.(size := size));
      ContentBase(c1, path, content, Some(w.stat.mtime), Some(size), Some(w.etag));
    }
  }

  lemma PlainKeepsBases(c: Cache, op: Operation)
    requires Plain(op)
    ensures NoNewBase(c, Step(c, op))
  {
    hide WellOrdered, ApplyChange, RememberStat, EpochsOf;
    match op
    case Rescan => WatchKeepsBases(c, RESCAN);
    case Apply(change) => WatchKeepsBases(c, change);
    case StatDone(path, _, stat) => if stat.Ok? { RememberKeepsBases(c, path, stat.value); }
    case ReaddirDone(_, _, _) =>
    case ContentServed(_) =>
    case MkdirSent(_) =>
    case MkdirDone(path, written) =>
      if written.Ok? && written.value.Some? { RememberKeepsBases(c, path, written.value.value.stat); }
    case DeleteDone(_, _) =>
  }

  lemma EpochNeverFalls(c: Cache, op: Operation)
    ensures Step(c, op).globalEpoch >= c.globalEpoch
  {
    hide Step;
    OperationAdvances(c, op);
    assert NotAfter(EpochsOf(c, ""), EpochsOf(Step(c, op), ""));
  }

  // ---- the invariant ----------------------------------------------------------------

  /** Nothing the client has had is forgotten, and no earlier answer becomes current again. */
  lemma Carried(d: Digest, s: System, s': System)
    requires s.seen <= s'.seen && (s.crossed ==> s'.crossed)
    ensures forall w, p, e :: Known(d, s, w, p, e) ==> Known(d, s', w, p, e)
    ensures forall w :: WriteSafe(d, s, w) ==> WriteSafe(d, s', w)
  {
  }

  lemma ReadsCarried(d: Digest, s: System, s': System)
    requires s'.cache.globalEpoch >= s.cache.globalEpoch
    requires s'.bound == s.bound || s'.cache.globalEpoch > s.cache.globalEpoch
    ensures forall r :: ReadSafe(d, s, r) ==> ReadSafe(d, s', r)
  {
  }

  lemma CacheMoveKeeps(d: Digest, s: System, c': Cache)
    requires Safe(d, s) && NoNewBase(s.cache, c') && c'.globalEpoch >= s.cache.globalEpoch
    ensures Safe(d, s.(cache := c'))
  {
    hide Known, ReadSafe, WriteSafe, Genuine;
    var s' := s.(cache := c');
    Carried(d, s, s');
    ReadsCarried(d, s, s');
  }

  lemma BindKeeps(d: Digest, s: System, workspace: string)
    requires Safe(d, s)
    ensures Safe(d, s.(bound := workspace, cache := Rebound(s.cache)))
  {
  }

  lemma ReadCompletionKeeps(d: Digest, s: System, id: nat)
    requires Safe(d, s) && Enabled(d, s, ReadCompletes(id))
    ensures Safe(d, Next(d, s, ReadCompletes(id)))
  {
    hide WriteSafe, Genuine, AfterRead;
    var r := s.fetches[id];
    var s' := Next(d, s, ReadCompletes(id));
    var response := r.answer.value;
    assert s'.cache == Step(s.cache, ReadDone(r.path, r.started, response));
    EpochNeverFalls(s.cache, ReadDone(r.path, r.started, response));
    Carried(d, s, s');
    ReadsCarried(d, s, s');
    ReadBase(s.cache, r.path, r.started, response);
    if response.Ok? && response.value.stat.Some? && EpochsOf(s.cache, r.path) == r.started {
      assert r.workspace == s.bound;
      var t := Seen(r.workspace, r.path, response.value.stat.value.etag, response.value.content);
      assert t in SeenInRead(r) && t in s'.seen;
      assert Known(d, s', s.bound, r.path, t.etag);
    }
    hide Known, ReadSafe;
    assert BasesKnown(d, s');
  }

  lemma WriteCompletionKeeps(d: Digest, s: System, id: nat)
    requires Safe(d, s) && Enabled(d, s, WriteCompletes(id))
    ensures Safe(d, Next(d, s, WriteCompletes(id)))
  {
    hide Genuine, AfterWrite;
    var w := s.saves[id];
    var s' := Next(d, s, WriteCompletes(id));
    var response := ToResponse(w.phase.outcome);
    assert s'.cache == Step(s.cache, WriteDone(w.request.path, w.request.content, response));
    EpochNeverFalls(s.cache, WriteDone(w.request.path, w.request.content, response));
    Carried(d, s, s');
    ReadsCarried(d, s, s');
    WriteBase(s.cache, w.request.path, w.request.content, response);
    if w.phase.outcome.Written? {
      var t := Seen(w.workspace, w.request.path, w.phase.outcome.stat.etag, w.request.content);
      assert t in SeenInWrite(w) && t in s'.seen;
      assert Known(d, s', s.bound, w.request.path, t.etag);
    }
    hide Known, ReadSafe, WriteSafe;
    assert BasesKnown(d, s');
  }

  lemma StoreKeepsGenuine(d: Digest, files: Files, request: WriteRequest, present: bool, made: WireStat)
    requires Genuine(d, files) && d(request.path, made.etag) == request.content
    ensures Genuine(d, CommitWrite(files, request, present, made).files)
  {
  }

  lemma WriteStartKeeps(d: Digest, s: System, a: Action)
    requires Safe(d, s) && Enabled(d, s, a) && a.WriteStarts?
    ensures Safe(d, Next(d, s, a))
  {
    hide ReadSafe, Genuine, WellOrdered;
    var s' := Next(d, s, a);
    Carried(d, s, s');
    ReadsCarried(d, s, s');
    hide Known;
    assert s'.cache.writeBaseEtags.items == s.cache.writeBaseEtags.items;
  }

  /** The server moves a write on: the client's side stays as it is. */
  lemma WriteMoveKeeps(d: Digest, s: System, id: nat, w: Write, workspace: string, files: Files)
    requires Safe(d, s) && Genuine(d, files) && WriteSafe(d, s, w)
    ensures Safe(d, s.(saves := s.saves[id := w]))
    ensures Safe(d, s.(workspaces := s.workspaces[workspace := files], saves := s.saves[id := w]))
  {
    hide ReadSafe, WriteSafe, Genuine, Known;
    var s1 := s.(saves := s.saves[id := w]);
    var s2 := s.(workspaces := s.workspaces[workspace := files], saves := s.saves[id := w]);
    Carried(d, s, s1);
    ReadsCarried(d, s, s1);
    Carried(d, s, s2);
    ReadsCarried(d, s, s2);
  }

  lemma WriteProgressKeeps(d: Digest, s: System, a: Action)
    requires Safe(d, s) && Enabled(d, s, a)
    requires a.WriteChecked? || a.WriteCommits? || a.WriteLost?
    ensures Safe(d, Next(d, s, a))
  {
    hide ReadSafe, WellOrdered, Known, BasesKnown, Genuine;
    var w := s.saves[a.writeId];
    var w' := Next(d, s, a).saves[a.writeId];
    var files := FilesOf(s, w.workspace);
    assert Genuine(d, files) by {
      NothingIsGenuine(d);
    }
    if a.WriteCommits? {
      StoreKeepsGenuine(d, files, w.request, w.phase.present, a.made);
      CommitExactly(files, w.request, w.phase.present, a.made);
      WriteMoveKeeps(d, s, a.writeId, w', w.workspace, CommitWrite(files, w.request, w.phase.present, a.made).files);
    } else {
      WriteMoveKeeps(d, s, a.writeId, w', w.workspace, files);
    }
  }

  lemma NothingIsGenuine(d: Digest)
    ensures Genuine(d, map[])
  {
  }

  lemma ReadProgressKeeps(d: Digest, s: System, a: Action)
    requires Safe(d, s) && Enabled(d, s, a) && (a.ReadStarts? || a.ReadAnswered?)
    ensures Safe(d, Next(d, s, a))
  {
    hide WriteSafe, Known, WellOrdered;
    var s' := Next(d, s, a);
    Carried(d, s, s');
    if a.ReadAnswered? {
      assert Genuine(d, FilesOf(s, s.fetches[a.readId].workspace));
    }
  }

  lemma StepKeeps(d: Digest, s: System, a: Action)
    requires Safe(d, s) && Enabled(d, s, a)
    ensures Safe(d, Next(d, s, a))
  {
    match a
    case OthersChange(_, _) =>
      hide Genuine;
      Carried(d, s, Next(d, s, a));
      ReadsCarried(d, s, Next(d, s, a));
    case Binds(workspace) => BindKeeps(d, s, workspace);
    case Operates(op) =>
      hide Safe;
      PlainKeepsBases(s.cache, op);
      EpochNeverFalls(s.cache, op);
      CacheMoveKeeps(d, s, Step(s.cache, op));
    case ReadStarts(_, _) => ReadProgressKeeps(d, s, a);
    case ReadAnswered(_, _) => ReadProgressKeeps(d, s, a);
    case ReadCompletes(id) => ReadCompletionKeeps(d, s, id);
    case WriteStarts(_, _, _, _, _) => WriteStartKeeps(d, s, a);
    case WriteCompletes(id) => WriteCompletionKeeps(d, s, id);
    case _ => WriteProgressKeeps(d, s, a);
  }

  lemma {:induction false} EveryRunIsSafe(d: Digest, s: System, actions: seq<Action>)
    requires Safe(d, s) && Possible(d, s, actions)
    ensures Safe(d, SaveRun(d, s, actions))
    decreases |actions|
  {
    if actions != [] {
      hide Safe, Enabled, Next;
      StepKeeps(d, s, actions[0]);
      EveryRunIsSafe(d, Next(d, s, actions[0]), actions[1..]);
    }
  }

  // ---- what a commit may do -----------------------------------------------------------

  /** A write replaces a file exactly if its revision is the one the write was based on, and
      creates one exactly if the path was free at both looks; otherwise nothing changes. */
  lemma CommitExactly(files: Files, request: WriteRequest, present: bool, made: WireStat)
    requires present ==> request.etag != ""
    ensures
      var stored := CommitWrite(files, request, present, made);
      var allowed := if present
        then request.path in files && files[request.path].TextFile? && files[request.path].revision == request.etag
        else request.path !in files;
      && (stored.outcome == Written(made) <==> allowed)
      && (stored.outcome.Written? <==> allowed)
      && stored.files == if allowed then files[request.path := TextFile(request.content, made.etag)] else files
  {
  }

  /** The first look lets a save through as a creation or as a replacement, or names its refusal. */
  lemma CheckExactly(files: Files, request: WriteRequest)
    ensures
      var phase, present := CheckWrite(files, request), request.path in files;
      && (!present && !request.create ==> phase == Answered(Refused(FileNotFound)))
      && (present && !request.overwrite ==> phase == Answered(Refused(AlreadyExists)))
      && (present && request.overwrite && request.etag == "" ==> phase == Answered(Refused(PreconditionRequired)))
      && (phase.Checked? <==> if present then request.overwrite && request.etag != "" else request.create)
      && (phase.Checked? ==> phase.present == present)
  {
  }

  /** A commit that does not go through names what it found instead of the expected revision. */
  lemma RefusalNames(files: Files, request: WriteRequest, present: bool, made: WireStat)
    requires present ==> request.etag != ""
    ensures
      var outcome, path := CommitWrite(files, request, present, made).outcome, request.path;
      && (outcome == Refused(FileNotFound) <==> present && path !in files)
      && (outcome == Refused(AlreadyExists) <==> !present && path in files)
      && (outcome == Refused(TypeMismatch) <==> present && path in files && files[path].Directory?)
      && (outcome == Refused(RevisionConflict) <==>
            present && path in files && files[path].TextFile? && files[path].revision != request.etag)
  {
  }

  /** Which entry a save may find in its way. */
  ghost predicate MayReplace(d: Digest, s: System, w: Write, entry: Entry) {
    && entry.TextFile?
    && w.request.etag != "" && entry.revision == w.request.etag
    && (exists t :: t in s.seen && t.path == w.request.path && t.etag == w.request.etag && t.content == entry.content)
    && (!s.crossed ==> Seen(w.workspace, w.request.path, w.request.etag, entry.content) in s.seen)
  }

  /** Over every run: a save changes no path but its own, and what it replaces is a file whose
      revision and bytes this client has read or written at that path. */
  lemma SavesReplaceOnlyWhatWasSeen(d: Digest, bound: string, actions: seq<Action>, id: nat, made: WireStat,
      workspace: string, path: string)
    requires Possible(d, Initial(bound), actions)
    requires Enabled(d, SaveRun(d, Initial(bound), actions), WriteCommits(id, made))
    ensures
      var s := SaveRun(d, Initial(bound), actions);
      var w := s.saves[id];
      var files, files' := FilesOf(s, workspace), FilesOf(Next(d, s, WriteCommits(id, made)), workspace);
      && (path in files ==> path in files')
      && (path in files && files'[path] != files[path] ==>
            workspace == w.workspace && path == w.request.path && MayReplace(d, s, w, files[path]))
  {
    EveryRunIsSafe(d, Initial(bound), actions);
    var s := SaveRun(d, Initial(bound), actions);
    var w := s.saves[id];
    CommitExactly(FilesOf(s, w.workspace), w.request, w.phase.present, made);
    assert Genuine(d, FilesOf(s, w.workspace));
  }

  /** So bytes this client never had in this workspace outlive its saves, as long as no write
      completed after its workspace was left. */
  lemma UnseenContentSurvives(d: Digest, bound: string, actions: seq<Action>, id: nat, made: WireStat)
    requires Possible(d, Initial(bound), actions)
    requires Enabled(d, SaveRun(d, Initial(bound), actions), WriteCommits(id, made))
    ensures
      var s := SaveRun(d, Initial(bound), actions);
      var w := s.saves[id];
      var files := FilesOf(s, w.workspace);
      && w.request.path in files && files[w.request.path].TextFile? && !s.crossed
      && (forall t <- s.seen :: !(t.workspace == w.workspace && t.path == w.request.path
                                  && t.content == files[w.request.path].content)) ==>
           FilesOf(Next(d, s, WriteCommits(id, made)), w.workspace) == files
  {
    var s := SaveRun(d, Initial(bound), actions);
    var w := s.saves[id];
    var files := FilesOf(s, w.workspace);
    SavesReplaceOnlyWhatWasSeen(d, bound, actions, id, made, w.workspace, w.request.path);
    EveryRunIsSafe(d, Initial(bound), actions);
    CommitExactly(files, w.request, w.phase.present, made);
  }

  /** A save whose base was lost is refused once the path exists, at the first look or, when
      it appeared since, at the second. */
  lemma LostBaseIsRefused(c: Cache, request: WriteRequest, seen: Files, later: Files, made: WireStat)
    requires request.etag == OrElse(CurrentWriteBase(c, request.path), "")
    requires request.path !in c.writeBaseEtags.items && request.path in later
    ensures
      match CheckWrite(seen, request)
      case Answered(outcome) => outcome.Refused?
      case Checked(present) => CommitWrite(later, request, present, made) == Stored(later, Refused(AlreadyExists))
      case Sent => false
  {
  }

  /** With nothing changing between the looks, a save succeeds exactly if the path is free and may
      be created, or holds the file version that the client's base names and may be overwritten. */
  lemma SaveSucceedsExactly(c: Cache, request: WriteRequest, files: Files, made: WireStat)
    requires request.etag == OrElse(CurrentWriteBase(c, request.path), "")
    ensures
      var path := request.path;
      var saved :=
        match CheckWrite(files, request)
        case Checked(present) => CommitWrite(files, request, present, made).outcome.Written?
        case _ => false;
      saved <==>
        if path !in files then request.create
        else && request.overwrite && files[path].TextFile? && request.etag != ""
             && path in c.writeBaseEtags.items && c.writeBaseEtags.items[path] == files[path].revision
  {
  }

  // ---- leaving a workspace with a write in flight -----------------------------------------

  /** Every base of the bound workspace came with bytes had in that workspace. */
  ghost predicate OwnBases(s: System) {
    forall p :: p in s.cache.writeBaseEtags.items ==>
      exists t :: t in s.seen && t.workspace == s.bound && t.path == p && t.etag == s.cache.writeBaseEtags.items[p]
  }

  /** A completed write breaks that exactly if it was made for another workspace, whose etag the
      bound one has not shown: `writeFile` compares no epochs, as the reads do. */
  lemma CompletionKeepsOwnBasesExactly(d: Digest, s: System, id: nat)
    requires OwnBases(s) && Enabled(d, s, WriteCompletes(id))
    ensures
      var w := s.saves[id];
      OwnBases(Next(d, s, WriteCompletes(id))) <==>
        || w.phase.outcome.Refused? || w.phase.outcome.stat.etag == "" || w.workspace == s.bound
        || exists t ::
             t in s.seen && t.workspace == s.bound && t.path == w.request.path && t.etag == w.phase.outcome.stat.etag
  {
    hide AfterWrite;
    var w := s.saves[id];
    var s' := Next(d, s, WriteCompletes(id));
    WriteBase(s.cache, w.request.path, w.request.content, ToResponse(w.phase.outcome));
    if w.phase.outcome.Written? {
      var etag := w.phase.outcome.stat.etag;
      var t := Seen(w.workspace, w.request.path, etag, w.request.content);
      assert s'.seen == s.seen + {t};
      WriteSetsBase(s.cache, w.request.path, w.request.content, w.phase.outcome.stat);
    } else {
      assert s'.seen == s.seen;
    }
  }

  lemma WriteSetsBase(c: Cache, path: string, content: Bytes, stat: WireStat)
    ensures
      var c' := AfterWrite(c, path, content, Ok(Some(stat)));
      if stat.etag == "" then NoNewBase(c, c')
      else path in c'.writeBaseEtags.items && c'.writeBaseEtags.items[path] == stat.etag
  {
    hide WellOrdered, RememberStat;
    NewestSurvivesTrim(c.writeBaseEtags, path, stat.etag, WRITE_BASE_ENTRIES);
    var size := NonZero(stat.stat.size, |content|);
    RememberKeepsBases(MarkMutated(c, path), path, stat.stat.(size := size));
    var c1 := RememberStat(MarkMutated(c, path), path, stat.stat.(size := size));
    SetsBase(c1, path, content, Some(stat.stat.mtime), Some(size), stat.etag);
  }

  lemma SetsBase(c: Cache, path: string, content: Bytes, mtime: Option<int>, size: Option<int>, etag: string)
    ensures RememberContent(c, path, content, mtime, size, Some(etag)).writeBaseEtags
         == RememberWriteBase(c, path, Some(etag)).writeBaseEtags
  {
    hide WellOrdered, Put, Trim, Evict;
  }

  /** Such a run: a write sent for "a" completes after "b" was bound, and the next read of that
      path in "b" is served the bytes written to "a", though "b" has no such file. */
  lemma WriteCrossesWitness(d: Digest, stat: Stat, content: Bytes, etag: string)
    requires d("f", etag) == content && |content| <= CONTENT_BYTES && etag != ""
    ensures
      var actions := [WriteStarts(0, "f", content, true, true), WriteChecked(0), WriteCommits(0, WireStat(stat, etag)),
                      Binds("b"), WriteCompletes(0)];
      && Possible(d, Initial("a"), actions)
      && var s := SaveRun(d, Initial("a"), actions);
         && s.bound == "b" && FilesOf(s, "b") == map[] && !OwnBases(s)
         && ContentHit(s.cache, "f") && s.cache.contents.items["f"].content == content
  {
    hide AfterWrite, ContentHit, Rebound, TouchWriteBase;
    var s0 := Initial("a");
    var made := WireStat(stat, etag);
    var s1 := Next(d, s0, WriteStarts(0, "f", content, true, true));
    assert s1.saves[0].request == WriteRequest("f", content, true, true, "");
    var s2 := Next(d, s1, WriteChecked(0));
    assert s2.saves[0].phase == Checked(false);
    var s3 := Next(d, s2, WriteCommits(0, made));
    assert s3.saves[0].phase == Answered(Written(made));
    var s4 := Next(d, s3, Binds("b"));
    var s5 := Next(d, s4, WriteCompletes(0));
    assert FilesOf(s5, "b") == map[];
    assert s5.seen == {Seen("a", "f", etag, content)};
    WriteSetsBase(s4.cache, "f", content, made);
    WriteIsServed(s4.cache, "f", content, made);
    hide Next, Enabled;
    RunFrom(d, s4, WriteCompletes(0), []);
    RunFrom(d, s3, Binds("b"), [WriteCompletes(0)]);
    RunFrom(d, s2, WriteCommits(0, made), [Binds("b"), WriteCompletes(0)]);
    RunFrom(d, s1, WriteChecked(0), [WriteCommits(0, made), Binds("b"), WriteCompletes(0)]);
    RunFrom(d, s0, WriteStarts(0, "f", content, true, true),
            [WriteChecked(0), WriteCommits(0, made), Binds("b"), WriteCompletes(0)]);
  }

  lemma AgreeingStat(c: Cache, path: string, stat: Stat)
    requires path in c.contents.items ==> Agrees(c.contents.items[path], stat)
    ensures RememberStat(c, path, stat).contents == c.contents
    ensures StatFor(RememberStat(c, path, stat), path) == Some(stat)
  {
  }

  lemma ContentIsServed(c: Cache, path: string, content: Bytes, stat: Stat, mtime: int, size: int, etag: string)
    requires |content| <= CONTENT_BYTES && StatFor(c, path) == Some(stat)
    ensures
      var c' := RememberContent(c, path, content, Some(mtime), Some(size), Some(etag));
      ContentHit(c', path) && c'.contents.items[path].content == content
  {
    hide WellOrdered, Evict, Put, RememberStat;
    var entry := CachedContent(content, mtime, size);
    RememberedContentKept(c.contents, path, entry);
    EvictedValue(c.contents, path, entry);
    var kept := Evict(Put(c.contents, path, entry));
    AgreeingStat(RememberWriteBase(c.(contents := kept), path, Some(etag)), path, stat.(mtime := mtime, size := size));
  }

  /** Written bytes that fit are what the next read of the path is given. */
  lemma WriteIsServed(c: Cache, path: string, content: Bytes, stat: WireStat)
    requires |content| <= CONTENT_BYTES
    ensures
      var c' := AfterWrite(c, path, content, Ok(Some(stat)));
      ContentHit(c', path) && c'.contents.items[path].content == content
  {
    hide WellOrdered, RememberContent, RememberStat;
    var size := NonZero(stat.stat.size, |content|);
    var marked, stored := MarkMutated(c, path), stat.stat.(size := size);
    StatIsThere(marked, path, stored);
    ContentIsServed(RememberStat(marked, path, stored), path, content, stored, stat.stat.mtime, size, stat.etag);
  }

  lemma StatIsThere(c: Cache, path: string, stat: Stat)
    ensures StatFor(RememberStat(c, path, stat), path) == Some(stat)
  {
  }

  lemma RunFrom(d: Digest, s: System, a: Action, rest: seq<Action>)
    requires Enabled(d, s, a) && Possible(d, Next(d, s, a), rest)
    ensures Possible(d, s, [a] + rest)
    ensures SaveRun(d, s, [a] + rest) == SaveRun(d, Next(d, s, a), rest)
  {
    assert ([a] + rest)[1..] == rest;
  }
}
