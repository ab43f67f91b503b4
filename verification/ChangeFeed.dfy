/** The change feed end to end on the local path: kernel notifications, root watcher, bridge,
    websocket and client, as interleaved steps. */
module ChangeFeed {
  import opened Common
  import opened Paths
  import opened Changes
  import opened Invalidation
  import opened Watch
  import opened WatchLaws
  import opened ChangeClient

  // ---- the agent: notifications to published changes ------------------------

  datatype FsOp = CreateOp | WriteOp | RemoveOp | RenameOp | ChmodOp

  /** `watchable` is false when a created directory cannot be inspected or watched. */
  datatype RawEvent =
    | Notified(ops: set<FsOp>, path: string, inWorkspace: bool, watchable: bool)
    | WatcherError

  datatype Verdict = Ignore | PublishChange(kind: ChangeKind) | EndWithRescan

  function BaseName(path: string): string {
    path[LastIndex(path, '/') + 1..]
  }

  predicate Contains(s: string, part: string) {
    exists i | 0 <= i <= |s| :: part <= s[i..]
  }

  predicate HasSuffix(s: string, suffix: string) {
    |suffix| <= |s| && s[|s| - |suffix|..] == suffix
  }

  predicate TemporaryFile(path: string) {
    Contains(BaseName(path), ".termbridge-") && HasSuffix(BaseName(path), ".tmp")
  }

  /** A directory part of a path: empty, or up to a slash. */
  predicate DirectoryPart(dir: string) {
    dir == "" || dir[|dir| - 1] == '/'
  }

  predicate HasTemporaryForm(path: string, dir: string, before: string, between: string) {
    && path == dir + (before + ".termbridge-" + between + ".tmp")
    && DirectoryPart(dir) && '/' !in before && '/' !in between
  }

  /** The temporary names are those of the form `….termbridge-….tmp`, in any directory. */
  lemma TemporaryFileExactly(path: string)
    ensures TemporaryFile(path) <==> exists dir, before, between :: HasTemporaryForm(path, dir, before, between)
  {
    hide HasSuffix, BaseName, DirectoryPart;
    if TemporaryFile(path) {
      var dir, before, between := PartsOfTemporary(path);
    }
    if dir, before, between :| HasTemporaryForm(path, dir, before, between) {
      FormIsTemporary(path, dir, before, between);
    }
  }

  lemma PartsOfTemporary(path: string) returns (dir: string, before: string, between: string)
    requires TemporaryFile(path)
    ensures HasTemporaryForm(path, dir, before, between)
  {
    hide Contains, HasSuffix, BaseName, LastIndex, DirectoryPart;
    var base := BaseName(path);
    var i := FindTag(base);
    dir := SplitPath(path);
    before := base[..i];
    between := PartBetween(base, i);
  }

  lemma PartBetween(base: string, i: nat) returns (between: string)
    requires i <= |base| && ".termbridge-" <= base[i..] && HasSuffix(base, ".tmp")
    ensures base == base[..i] + ".termbridge-" + between + ".tmp"
    ensures '/' !in base ==> '/' !in base[..i] && '/' !in between
  {
    TagBeforeSuffix(base, i);
    SplitName(base, i, |base| - 4);
    between := base[i + 12..|base| - 4];
  }

  lemma FindTag(base: string) returns (i: nat)
    requires Contains(base, ".termbridge-")
    ensures i <= |base| && ".termbridge-" <= base[i..]
  {
    i :| i <= |base| && ".termbridge-" <= base[i..];
  }

  lemma SplitPath(path: string) returns (dir: string)
    ensures DirectoryPart(dir) && path == dir + BaseName(path) && '/' !in BaseName(path)
  {
    dir := path[..LastIndex(path, '/') + 1];
  }

  lemma SplitName(base: string, i: nat, m: nat)
    requires i + 12 <= m <= |base| && ".termbridge-" <= base[i..] && base[m..] == ".tmp"
    ensures base == base[..i] + ".termbridge-" + base[i + 12..m] + ".tmp"
  {
    assert base[i..][..12] == ".termbridge-";
    assert base[i..i + 12] == ".termbridge-";
  }

  lemma FormIsTemporary(path: string, dir: string, before: string, between: string)
    requires HasTemporaryForm(path, dir, before, between)
    ensures TemporaryFile(path)
  {
    var name := before + ".termbridge-" + between + ".tmp";
    BaseNameIs(dir, name);
    assert name[|before|..] == ".termbridge-" + (between + ".tmp");
  }

  lemma BaseNameIs(dir: string, name: string)
    requires DirectoryPart(dir) && '/' !in name
    ensures BaseName(dir + name) == name
  {
    var path := dir + name;
    assert forall i :: |dir| <= i < |path| ==> path[i] == name[i - |dir|];
    if dir != "" {
      LastIndexIs(path, '/', |dir| - 1);
    }
    assert path[|dir|..] == name;
  }

  /** The two parts of such a name cannot overlap. */
  lemma TagBeforeSuffix(base: string, i: nat)
    requires i <= |base| && ".termbridge-" <= base[i..] && HasSuffix(base, ".tmp")
    ensures i + 12 <= |base| - 4
  {
    var m := |base| - 4;
    assert forall k :: 0 <= k < 12 ==> base[i + k] == ".termbridge-"[k];
    assert forall k :: 0 <= k < 4 ==> base[m + k] == ".tmp"[k];
    assert base[i + 11] == '-';
  }

  /** `handleEvent`, after the loop's handling of the error channel. */
  function Classify(e: RawEvent): Verdict {
    match e
    case WatcherError => EndWithRescan
    case Notified(ops, path, inWorkspace, watchable) =>
      if TemporaryFile(path) then Ignore
      else if !inWorkspace then EndWithRescan
      else if RenameOp in ops then EndWithRescan
      else if CreateOp in ops then (if watchable then PublishChange(Added) else EndWithRescan)
      else if RemoveOp in ops then PublishChange(Deleted)
      else if WriteOp in ops || ChmodOp in ops then PublishChange(Updated)
      else Ignore
  }

  function Handle(w: Watcher, e: RawEvent): Watcher {
    match Classify(e)
    case Ignore => w
    case PublishChange(kind) => Step(w, BeginPublish(kind, if e.Notified? then e.path else ""))
    case EndWithRescan => Step(w, BeginRescan)
  }

  // ---- the bridge -----------------------------------------------------------

  function WireKind(kind: ChangeKind): ChangeKind {
    if kind.Unspecified? then RescanRequired else kind
  }

  function WireEvent(change: Change): Change {
    change.(kind := WireKind(change.kind))
  }

  function WireEvents(changes: seq<Change>): (r: seq<Change>)
    ensures |r| == |changes|
    ensures forall i :: 0 <= i < |r| ==> r[i] == WireEvent(changes[i])
  {
    seq(|changes|, i requires 0 <= i < |changes| => WireEvent(changes[i]))
  }

  /** Sends the initial rescan, then each received change. `writable` is how many frames the
      connection takes; `events` is what the subscription yields until it closes or the request
      ends. */
  method BridgeWorkspaceChanges(events: seq<Change>, writable: nat) returns (sent: seq<Change>, ok: bool)
    ensures |sent| == if ok then |events| + 1 else writable
    ensures |sent| <= |events| + 1 && (sent != [] ==> sent[0] == RESCAN)
    ensures forall i :: 0 <= i < |sent| - 1 && !events[i].kind.Unspecified? ==> sent[i + 1] == events[i]
    ensures forall i :: 0 <= i < |sent| - 1 && events[i].kind.Unspecified? ==>
      sent[i + 1] == events[i].(kind := RescanRequired)
    ensures var all := [RESCAN] + WireEvents(events);
      ok == (writable >= |all|) && sent == if ok then all else all[..writable]
  {
    sent := [];
    if writable == 0 { return sent, false; }
    sent := [RESCAN];
    for i := 0 to |events|
      invariant |sent| == i + 1 <= writable
      invariant sent == ([RESCAN] + WireEvents(events))[..i + 1]
    {
      if |sent| == writable { return sent, false; }
      sent := sent + [WireEvent(events[i])];
    }
    ok := true;
  }

  // ---- the whole feed -------------------------------------------------------

  /** Where one connection is. `raw` waits in the notification channel of the subscribed root,
      `wire` is sent but not received, `relayed` is what the subscription had yielded at the end. */
  datatype Link =
    | Down
    | Dialing
    | Subscribed(w: Watcher, raw: seq<RawEvent>, id: nat)
    | Relaying(w: Watcher, raw: seq<RawEvent>, id: nat, wire: seq<Change>, received: seq<Change>)
    | Ended(relayed: seq<Change>, wire: seq<Change>, received: seq<Change>)

  datatype Feed = Feed(client: Client, link: Link)

  const INITIAL_FEED := Feed(FRESH, Down)

  datatype FeedAction =
    | Dial
    | DialFails
    | SocketOpens
    | ServerSubscribes(root: Watcher, pending: seq<RawEvent>)
    | ServerSendsRescan
    | RawArrives(event: RawEvent)
    | RawHandled
    | WatcherMoves(action: Action)
    | Relay
    | ServerEnds
    | Deliver
    | SocketCloses
    | OwnerCloses

  datatype Outcome = Outcome(feed: Feed, callbacks: seq<Callback>)

  function Still(f: Feed): Outcome {
    Outcome(f, [])
  }

  function After(f: Feed, link: Link, reaction: Reaction): Outcome {
    Outcome(Feed(reaction.client, link), reaction.callbacks)
  }

  predicate Unheard(link: Link) {
    link.Dialing? || link.Subscribed? || ((link.Relaying? || link.Ended?) && link.received == [])
  }

  function WithWatcher(link: Link, w: Watcher): Link
    requires link.Subscribed? || link.Relaying?
  {
    if link.Subscribed? then Subscribed(w, link.raw, link.id)
    else Relaying(w, link.raw, link.id, link.wire, link.received)
  }

  function WithRaw(link: Link, raw: seq<RawEvent>): Link
    requires link.Subscribed? || link.Relaying?
  {
    if link.Subscribed? then Subscribed(link.w, raw, link.id)
    else Relaying(link.w, raw, link.id, link.wire, link.received)
  }

  predicate HasRoot(link: Link) {
    link.Subscribed? || link.Relaying?
  }

  function ConsumedOn(link: Link): seq<Change> {
    if link.Relaying? && link.id in link.w.subscribers then link.w.subscribers[link.id].consumed else []
  }

  /** One step; a step that is not enabled changes nothing. The server may subscribe to a root
      watcher in any state it can be in. */
  ghost function FeedStep(f: Feed, a: FeedAction): Outcome {
    var link := f.link;
    match a
    case Dial =>
      if f.client.closed || !link.Down? then Still(f)
      else Still(Feed(f.client.(hasSocket := true, timerPending := false), Dialing))
    case DialFails =>
      if f.client.closed || !link.Down? then Still(f)
      else After(f, Down, Disconnect(f.client.(timerPending := false)))
    case SocketOpens =>
      if f.client.closed || !Unheard(link) then Still(f) else Still(Feed(Opened(f.client), link))
    case ServerSubscribes(root, pending) =>
      if !link.Dialing? || !Inv(root) || !Live(root) then Still(f)
      else Still(f.(link := Subscribed(Step(root, Subscribe), pending, root.nextId + 1)))
    case ServerSendsRescan =>
      if !link.Subscribed? then Still(f)
      else Still(f.(link := Relaying(link.w, link.raw, link.id, [RESCAN], [])))
    case RawArrives(event) =>
      if !HasRoot(link) then Still(f) else Still(f.(link := WithRaw(link, link.raw + [event])))
    case RawHandled =>
      if !HasRoot(link) || link.raw == [] || !link.w.phase.Idle? then Still(f)
      else Still(f.(link := WithRaw(WithWatcher(link, Handle(link.w, link.raw[0])), link.raw[1..])))
    case WatcherMoves(action) =>
      if !HasRoot(link) || action == Consume(link.id) then Still(f)
      else Still(f.(link := WithWatcher(link, Step(link.w, action))))
    case Relay =>
      if !link.Relaying? || link.id !in link.w.subscribers || link.w.subscribers[link.id].queue == [] then Still(f)
      else Still(f.(link := Relaying(Step(link.w, Consume(link.id)), link.raw, link.id,
                                     link.wire + [WireEvent(link.w.subscribers[link.id].queue[0])], link.received)))
    case ServerEnds =>
      if link.Dialing? || link.Subscribed? then Still(f.(link := Ended([], [], [])))
      else if link.Relaying? then Still(f.(link := Ended(ConsumedOn(link), link.wire, link.received)))
      else Still(f)
    case Deliver =>
      if f.client.closed || !(link.Relaying? || link.Ended?) || link.wire == [] then Still(f)
      else
        var next := if link.Relaying?
                    then Relaying(link.w, link.raw, link.id, link.wire[1..], link.received + [link.wire[0]])
                    else Ended(link.relayed, link.wire[1..], link.received + [link.wire[0]]);
        After(f, next, Receive(f.client, Decode(link.wire[0])))
    case SocketCloses =>
      if f.client.closed || link.Down? then Still(f) else After(f, Down, Disconnect(f.client))
    case OwnerCloses =>
      Still(Feed(f.client.(closed := true, hasSocket := false, timerPending := false), Down))
  }

  // ---- what is still on its way to the client -------------------------------

  /** The subscribed root will still put something in our channel, or close it, that drops the item. */
  predicate RootCovers(w: Watcher, id: nat, item: Item) {
    || !Open(w, id)
    || w.phase.Rescanning?
    || (w.phase.Publishing? && id in w.phase.todo && Drops(w.phase.change, item))
    || exists i | 0 <= i < |w.subscribers[id].queue| :: Drops(w.subscribers[id].queue[i], item)
  }

  predicate RawCovers(e: RawEvent, item: Item) {
    match Classify(e)
    case Ignore => false
    case EndWithRescan => true
    case PublishChange(kind) => Drops(Change(0, kind, if e.Notified? then e.path else "", ""), item)
  }

  /** Something undelivered will drop the item: an event or a rescan in transit, the close of the
      connection, or the rescan that every next connection begins with. */
  predicate Covers(f: Feed, item: Item) {
    match f.link
    case Down => !f.client.closed
    case Dialing => true
    case Subscribed(_, _, _) => true
    case Ended(_, _, _) => true
    case Relaying(w, raw, id, wire, _) =>
      || (exists i | 0 <= i < |wire| :: Drops(wire[i], item))
      || RootCovers(w, id, item)
      || (exists i | 0 <= i < |raw| :: RawCovers(raw[i], item))
  }

  /** The sequence number the client expects next, from what it received on this connection. */
  function Expected(received: seq<Change>): Option<nat> {
    if received == [] then None
    else
      var last := received[|received| - 1];
      if Decode(last).ChangeMessage? && last.sequence > 0 then Some(last.sequence + 1)
      else Expected(received[..|received| - 1])
  }

  function ReceivedOn(link: Link): seq<Change> {
    if link.Relaying? || link.Ended? then link.received else []
  }

  /** The numbers increase, and only the last change may be a rescan. */
  ghost predicate Ordered(stream: seq<Change>) {
    && RescanOnlyLast(stream)
    && forall i, j :: 0 <= i < j < |stream| ==> stream[i].sequence < stream[j].sequence
  }

  /** What the client got and will get on this connection is the initial rescan and then the
      subscription's stream, in order. */
  ghost predicate FeedInv(f: Feed) {
    && (f.client.hasSocket <==> !f.link.Down?)
    && (f.client.closed ==> f.link.Down?)
    && (!f.client.closed ==> f.client.nextSequence == Expected(ReceivedOn(f.link)))
    && (HasRoot(f.link) ==> Inv(f.link.w) && f.link.id in f.link.w.subscribers)
    && (f.link.Subscribed? ==> f.link.w.subscribers[f.link.id].consumed == [])
    && (f.link.Relaying? ==>
          f.link.received + f.link.wire == [RESCAN] + WireEvents(f.link.w.subscribers[f.link.id].consumed))
    && (f.link.Ended? ==>
          && Ordered(f.link.relayed)
          && (|| f.link.received + f.link.wire == []
              || f.link.received + f.link.wire == [RESCAN] + WireEvents(f.link.relayed)))
  }

  /** The feed after a run, and every callback the client made on the way. */
  ghost function FeedRun(f: Feed, actions: seq<FeedAction>): Outcome
    decreases |actions|
  {
    if actions == [] then Still(f)
    else
      var first := FeedStep(f, actions[0]);
      var rest := FeedRun(first.feed, actions[1..]);
      Outcome(rest.feed, first.callbacks + rest.callbacks)
  }
}
