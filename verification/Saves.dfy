/** Saving a file: the provider's write bases, the agent's preconditions and a store that
    compares revisions, with other writers at work between any two steps. */
module Saves {
  import opened Common
  import opened Ordered
  import opened FileCache
  import opened CacheAccounting

  datatype Entry = Directory | TextFile(content: Bytes, revision: string)
  type Files = map<string, Entry>

  datatype FileError =
    | FileNotFound | AlreadyExists | PreconditionRequired | RevisionConflict | TypeMismatch | Unavailable
  datatype Outcome = Written(stat: WireStat) | Refused(error: FileError)
  datatype Stored = Stored(files: Files, outcome: Outcome)

  // ---- the store --------------------------------------------------------------

  /** An empty token asks for no comparison. */
  function StoreWrite(files: Files, path: string, content: Bytes, expected: string, made: WireStat): Stored {
    if path !in files then Stored(files, Refused(FileNotFound))
    else if files[path].Directory? then Stored(files, Refused(TypeMismatch))
    else if expected != "" && files[path].revision != expected then Stored(files, Refused(RevisionConflict))
    else Stored(files[path := TextFile(content, made.etag)], Written(made))
  }

  function StoreCreate(files: Files, path: string, content: Bytes, made: WireStat): Stored {
    if path in files then Stored(files, Refused(AlreadyExists))
    else Stored(files[path := TextFile(content, made.etag)], Written(made))
  }

  // ---- the agent's write call ---------------------------------------------------

  datatype WriteRequest = WriteRequest(path: string, content: Bytes, create: bool, overwrite: bool, etag: string)

  /** The call looks at the path first and acts on what it saw, which others may have changed. */
  datatype Phase = Sent | Checked(present: bool) | Answered(outcome: Outcome)

  function CheckWrite(files: Files, request: WriteRequest): Phase {
    if request.path !in files then
      if request.create then Checked(false) else Answered(Refused(FileNotFound))
    else if !request.overwrite then Answered(Refused(AlreadyExists))
    else if request.etag == "" then Answered(Refused(PreconditionRequired))
    else Checked(true)
  }

  function CommitWrite(files: Files, request: WriteRequest, present: bool, made: WireStat): Stored {
    if present
    then StoreWrite(files, request.path, request.content, request.etag, made)
    else StoreCreate(files, request.path, request.content, made)
  }

  function ToResponse(outcome: Outcome): Result<Option<WireStat>> {
    match outcome
    case Written(stat) => Ok(Some(stat))
    case Refused(_) => Failed
  }

  // ---- the system -----------------------------------------------------------------

  datatype Write = Write(request: WriteRequest, workspace: string, phase: Phase)
  datatype Read = Read(path: string, workspace: string, started: Epochs, answer: Option<Result<FileData>>)

  /** Bytes this client has read or written, with the etag they came with. */
  datatype Seen = Seen(workspace: string, path: string, etag: string, content: Bytes)

  datatype System = System(
    workspaces: map<string, Files>,
    bound: string,
    cache: Cache,
    fetches: map<nat, Read>,
    saves: map<nat, Write>,
    seen: set<Seen>,
    crossed: bool)

  datatype Action =
    | OthersChange(workspace: string, files: Files)
    | Binds(workspace: string)
    | Operates(op: Operation)
    | ReadStarts(readId: nat, path: string)
    | ReadAnswered(readId: nat, answer: Result<FileData>)
    | ReadCompletes(readId: nat)
    | WriteStarts(writeId: nat, path: string, content: Bytes, create: bool, overwrite: bool)
    | WriteChecked(writeId: nat)
    | WriteCommits(writeId: nat, made: WireStat)
    | WriteLost(writeId: nat)
    | WriteCompletes(writeId: nat)

  function FilesOf(s: System, workspace: string): Files {
    if workspace in s.workspaces then s.workspaces[workspace] else map[]
  }

  /** The content a revision stands for: a revision digests the path and the bytes. */
  type Digest = (string, string) -> Bytes

  ghost predicate Genuine(d: Digest, files: Files) {
    forall p :: p in files && files[p].TextFile? ==> d(p, files[p].revision) == files[p].content
  }

  /** The operations that are modelled by actions of their own, and renames. */
  predicate Plain(op: Operation) {
    !op.Bind? && !op.ReadDone? && !op.WriteSent? && !op.WriteDone? && !op.RenameDone?
  }

  predicate Honest(files: Files, path: string, answer: Result<FileData>) {
    answer.Ok? && answer.value.stat.Some? ==>
      path in files && files[path] == TextFile(answer.value.content, answer.value.stat.value.etag)
  }

  ghost predicate Enabled(d: Digest, s: System, a: Action) {
    match a
    case OthersChange(_, files) => Genuine(d, files)
    case Binds(_) => true
    case Operates(op) => Plain(op)
    case ReadStarts(id, _) => id !in s.fetches
    case ReadAnswered(id, answer) =>
      && id in s.fetches && s.fetches[id].answer.None?
      && Honest(FilesOf(s, s.fetches[id].workspace), s.fetches[id].path, answer)
    case ReadCompletes(id) => id in s.fetches && s.fetches[id].answer.Some?
    case WriteStarts(id, _, _, _, _) => id !in s.saves
    case WriteChecked(id) => id in s.saves && s.saves[id].phase.Sent?
    case WriteCommits(id, made) =>
      && id in s.saves && s.saves[id].phase.Checked?
      && d(s.saves[id].request.path, made.etag) == s.saves[id].request.content
    case WriteLost(id) => id in s.saves
    case WriteCompletes(id) => id in s.saves && s.saves[id].phase.Answered?
  }

  function SeenInRead(r: Read): set<Seen>
    requires r.answer.Some?
  {
    if r.answer.value.Ok? && r.answer.value.value.stat.Some?
    then {Seen(r.workspace, r.path, r.answer.value.value.stat.value.etag, r.answer.value.value.content)}
    else {}
  }

  function SeenInWrite(w: Write): set<Seen>
    requires w.phase.Answered?
  {
    if w.phase.outcome.Written?
    then {Seen(w.workspace, w.request.path, w.phase.outcome.stat.etag, w.request.content)}
    else {}
  }

  ghost function Next(d: Digest, s: System, a: Action): System
    requires Enabled(d, s, a)
  {
    match a
    case OthersChange(workspace, files) => s.(workspaces := s.workspaces[workspace := files])
    case Binds(workspace) => s.(bound := workspace, cache := Rebound(s.cache))
    case Operates(op) => s.(cache := Step(s.cache, op))
    case ReadStarts(id, path) =>
      s.(fetches := s.fetches[id := Read(path, s.bound, EpochsOf(s.cache, path), None)])
    case ReadAnswered(id, answer) =>
      s.(fetches := s.fetches[id := s.fetches[id].(answer := Some(answer))])
    case ReadCompletes(id) =>
      var r := s.fetches[id];
      s.(fetches := s.fetches - {id}, seen := s.seen + SeenInRead(r),
         cache := AfterRead(s.cache, r.path, r.started, r.answer.value))
    case WriteStarts(id, path, content, create, overwrite) =>
      var request := WriteRequest(path, content, create, overwrite, OrElse(CurrentWriteBase(s.cache, path), ""));
      s.(saves := s.saves[id := Write(request, s.bound, Sent)], cache := TouchWriteBase(s.cache, path))
    case WriteChecked(id) =>
      var w := s.saves[id];
      s.(saves := s.saves[id := w.(phase := CheckWrite(FilesOf(s, w.workspace), w.request))])
    case WriteCommits(id, made) =>
      var w := s.saves[id];
      var stored := CommitWrite(FilesOf(s, w.workspace), w.request, w.phase.present, made);
      s.(workspaces := s.workspaces[w.workspace := stored.files],
         saves := s.saves[id := w.(phase := Answered(stored.outcome))])
    case WriteLost(id) =>
      s.(saves := s.saves[id := s.saves[id].(phase := Answered(Refused(Unavailable)))])
    case WriteCompletes(id) =>
      var w := s.saves[id];
      s.(saves := s.saves - {id}, seen := s.seen + SeenInWrite(w),
         crossed := s.crossed || (w.workspace != s.bound && w.phase.outcome.Written?),
         cache := AfterWrite(s.cache, w.request.path, w.request.content, ToResponse(w.phase.outcome)))
  }

  ghost predicate Possible(d: Digest, s: System, actions: seq<Action>)
    decreases |actions|
  {
    actions != [] ==> Enabled(d, s, actions[0]) && Possible(d, Next(d, s, actions[0]), actions[1..])
  }

  ghost function SaveRun(d: Digest, s: System, actions: seq<Action>): System
    requires Possible(d, s, actions)
    decreases |actions|
  {
    if actions == [] then s else SaveRun(d, Next(d, s, actions[0]), actions[1..])
  }

  function Initial(bound: string): System {
    System(map[], bound, INITIAL, map[], map[], {}, false)
  }

  /** The client has had the bytes that this etag stands for, in this workspace unless a
      write has completed after its workspace was left. */
  ghost predicate Known(d: Digest, s: System, workspace: string, path: string, etag: string) {
    && (exists t :: t in s.seen && t.path == path && t.etag == etag && t.content == d(path, etag))
    && (!s.crossed ==> Seen(workspace, path, etag, d(path, etag)) in s.seen)
  }

  ghost predicate BasesKnown(d: Digest, s: System) {
    forall p :: p in s.cache.writeBaseEtags.items ==> Known(d, s, s.bound, p, s.cache.writeBaseEtags.items[p])
  }

  ghost predicate ReadSafe(d: Digest, s: System, r: Read) {
    && r.started.global <= s.cache.globalEpoch
    && (r.started.global == s.cache.globalEpoch ==> r.workspace == s.bound)
    && (r.answer.Some? ==> forall t <- SeenInRead(r) :: t.content == d(t.path, t.etag))
  }

  ghost predicate WriteSafe(d: Digest, s: System, w: Write) {
    && (w.request.etag != "" ==> Known(d, s, w.workspace, w.request.path, w.request.etag))
    && (w.phase == Checked(true) ==> w.request.etag != "")
    && (w.phase.Answered? ==> forall t <- SeenInWrite(w) :: t.content == d(t.path, t.etag))
  }

  ghost predicate Safe(d: Digest, s: System) {
    && (forall x :: x in s.workspaces ==> Genuine(d, s.workspaces[x]))
    && BasesKnown(d, s)
    && (forall id :: id in s.fetches ==> ReadSafe(d, s, s.fetches[id]))
    && (forall id :: id in s.saves ==> WriteSafe(d, s, s.saves[id]))
  }
}
