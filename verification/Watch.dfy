/** The root watcher: one sequence of changes fanned out to bounded subscriber channels.

    The state machine takes one channel operation at a time. The mutex keeps publishers,
    subscribers and closers apart, but a consumer receives without it, so a receive may
    fall between any two steps of a publish or of the drain before a rescan. */
module Watch {
  import opened Changes

  /** A subscription channel together with what its consumer has received from it. */
  datatype Subscription = Subscription(
    queue: seq<Change>,
    consumed: seq<Change>,
    start: nat,        // the sequence number when it subscribed
    drained: nat,      // changes discarded to make room for the rescan
    overtaken: bool,   // a change was received after an older one had been discarded
    closes: nat)       // how often the channel was closed

  datatype Phase =
    | Idle
    | Publishing(change: Change, todo: set<nat>)
    | Rescanning(rescan: Change, todo: set<nat>, ready: set<nat>)

  datatype Watcher = Watcher(
    capacity: nat,
    nextId: nat,
    sequence: nat,
    subscribers: map<nat, Subscription>,
    closed: bool,
    phase: Phase)

  datatype Action =
    | Subscribe
    | BeginPublish(kind: ChangeKind, path: string)
    | Send(id: nat)
    | EndPublish
    | BeginRescan
    | Drain(id: nat)
    | FoundEmpty(id: nat)
    | SendRescan(id: nat)
    | FinishRescan
    | Consume(id: nat)
    | RemoveSubscriber(id: nat)
    | CloseRoot

  function Started(capacity: nat): Watcher {
    Watcher(capacity, 0, 0, map[], false, Idle)
  }

  predicate Open(w: Watcher, id: nat) {
    id in w.subscribers && w.subscribers[id].closes == 0
  }

  function OpenIds(w: Watcher): set<nat> {
    set id | id in w.subscribers && Open(w, id)
  }

  predicate Live(w: Watcher) {
    w.phase.Idle? && !w.closed
  }

  function WithSubscription(w: Watcher, id: nat, s: Subscription): Watcher {
    w.(subscribers := w.subscribers[id := s])
  }

  function Push(w: Watcher, id: nat, change: Change): Watcher
    requires id in w.subscribers
  {
    WithSubscription(w, id, w.subscribers[id].(queue := w.subscribers[id].queue + [change]))
  }

  function CloseIds(w: Watcher, ids: set<nat>): Watcher {
    w.(subscribers := map id | id in w.subscribers ::
         if id in ids then w.subscribers[id].(closes := w.subscribers[id].closes + 1) else w.subscribers[id])
  }

  function StartRescan(w: Watcher): Watcher {
    w.(sequence := w.sequence + 1,
       phase := Rescanning(Change(w.sequence + 1, RescanRequired, "", ""), OpenIds(w), {}))
  }

  function Received(s: Subscription): Subscription
    requires s.queue != []
  {
    s.(queue := s.queue[1..], consumed := s.consumed + [s.queue[0]],
       overtaken := s.overtaken || (s.drained > 0 && !s.queue[0].kind.RescanRequired?))
  }

  /** A step that is not enabled leaves the watcher as it is. */
  function Step(w: Watcher, a: Action): Watcher {
    match a
    case Subscribe =>
      if !Live(w) then w
      else WithSubscription(w, w.nextId + 1, Subscription([], [], w.sequence, 0, false, 0)).(nextId := w.nextId + 1)
    case BeginPublish(kind, path) =>
      if !Live(w) || kind.RescanRequired? then w
      else w.(sequence := w.sequence + 1,
              phase := Publishing(Change(w.sequence + 1, kind, path, ""), OpenIds(w)))
    case Send(id) =>
      if !w.phase.Publishing? || id !in w.phase.todo || id !in w.subscribers then w
      else if |w.subscribers[id].queue| < w.capacity then
        Push(w, id, w.phase.change).(phase := Publishing(w.phase.change, w.phase.todo - {id}))
      else StartRescan(w)
    case EndPublish =>
      if w.phase.Publishing? && w.phase.todo == {} then w.(phase := Idle) else w
    case BeginRescan =>
      if !Live(w) then w else StartRescan(w)
    case Drain(id) =>
      if !w.phase.Rescanning? || id !in w.phase.todo || id in w.phase.ready || id !in w.subscribers
         || w.subscribers[id].queue == [] then w
      else
        var s := w.subscribers[id];
        WithSubscription(w, id, s.(queue := s.queue[1..], drained := s.drained + 1))
    case FoundEmpty(id) =>
      if !w.phase.Rescanning? || id !in w.phase.todo || id !in w.subscribers || w.subscribers[id].queue != [] then w
      else w.(phase := Rescanning(w.phase.rescan, w.phase.todo, w.phase.ready + {id}))
    case SendRescan(id) =>
      if !w.phase.Rescanning? || id !in w.phase.todo || id !in w.phase.ready || !CanSend(w, id) then w
      else Push(w, id, w.phase.rescan).(phase := Rescanning(w.phase.rescan, w.phase.todo - {id}, w.phase.ready))
    case FinishRescan =>
      if w.phase.Rescanning? && w.phase.todo == {} then CloseIds(w, OpenIds(w)).(closed := true, phase := Idle) else w
    case Consume(id) =>
      if id !in w.subscribers || w.subscribers[id].queue == [] then w
      else WithSubscription(w, id, Received(w.subscribers[id]))
    case RemoveSubscriber(id) =>
      if !w.phase.Idle? || !Open(w, id) then w
      else CloseIds(w, {id}).(closed := w.closed || OpenIds(w) == {id})
    case CloseRoot =>
      if !w.phase.Idle? || w.closed then w else CloseIds(w, OpenIds(w)).(closed := true)
  }

  /** A send on this channel would go through without waiting. */
  predicate CanSend(w: Watcher, id: nat) {
    id in w.subscribers && |w.subscribers[id].queue| < w.capacity
  }

  function Run(w: Watcher, actions: seq<Action>): Watcher
    decreases |actions|
  {
    if actions == [] then w else Run(Step(w, actions[0]), actions[1..])
  }

  lemma {:induction false} RunAppend(w: Watcher, actions: seq<Action>, a: Action)
    ensures Run(w, actions + [a]) == Step(Run(w, actions), a)
    decreases |actions|
  {
    if actions == [] {
      assert (actions + [a])[1..] == [];
    } else {
      assert (actions + [a])[1..] == actions[1..] + [a];
      RunAppend(Step(w, actions[0]), actions[1..], a);
    }
  }

  // ---- what every run keeps -----------------------------------------------

  /** All a subscriber has received, then all that waits for it. */
  function Stream(s: Subscription): seq<Change> {
    s.consumed + s.queue
  }

  predicate EndsInRescan(stream: seq<Change>) {
    stream != [] && stream[|stream| - 1].kind.RescanRequired?
  }

  ghost predicate RescanOnlyLast(stream: seq<Change>) {
    forall i :: 0 <= i < |stream| - 1 ==> !stream[i].kind.RescanRequired?
  }

  ghost predicate Increasing(stream: seq<Change>, above: nat, upTo: int) {
    && (forall i :: 0 <= i < |stream| ==> above < stream[i].sequence <= upTo)
    && (forall i, j :: 0 <= i < j < |stream| ==> stream[i].sequence < stream[j].sequence)
  }

  /** The changes carry the numbers `start + 1`, `start + 2`, ... without a gap. */
  ghost predicate GapFree(changes: seq<Change>, start: nat) {
    forall i :: 0 <= i < |changes| && !changes[i].kind.RescanRequired? ==> changes[i].sequence == start + 1 + i
  }

  predicate Awaits(w: Watcher, id: nat) {
    (w.phase.Publishing? || w.phase.Rescanning?) && id in w.phase.todo
  }

  /** The shape of one subscriber's stream. */
  ghost predicate Shaped(w: Watcher, id: nat, s: Subscription) {
    var stream := Stream(s);
    && |s.queue| <= w.capacity
    && s.closes <= 1
    && s.start <= (if Awaits(w, id) then w.sequence - 1 else w.sequence)
    && RescanOnlyLast(stream)
    && Increasing(stream, s.start, if Awaits(w, id) then w.sequence - 1 else w.sequence)
    && (EndsInRescan(stream) ==> !Awaits(w, id) && (s.closes == 1 || w.phase.Rescanning?))
    && (s.drained == 0 ==> GapFree(stream, s.start))
    && (s.drained > 0 ==> EndsInRescan(stream) || (w.phase.Rescanning? && id in w.phase.todo))
    && (GapFree(s.consumed, s.start) <==> !s.overtaken)
    && (s.overtaken ==> s.drained > 0)
    && (s.drained > 0 && !s.overtaken ==> DrainedAhead(s))
    && (s.closes == 0 && !w.phase.Rescanning? ==>
          s.drained == 0 && |stream| == w.sequence - s.start - if Awaits(w, id) then 1 else 0)
  }

  /** What still waits is newer than the discarded change that was due next. */
  ghost predicate DrainedAhead(s: Subscription) {
    forall i :: 0 <= i < |s.queue| && !s.queue[i].kind.RescanRequired? ==>
      s.queue[i].sequence > s.start + 1 + |s.consumed|
  }

  ghost predicate PhaseOk(w: Watcher) {
    match w.phase
    case Idle => true
    case Publishing(change, todo) =>
      !w.closed && todo <= OpenIds(w) && change.sequence == w.sequence && !change.kind.RescanRequired?
    case Rescanning(rescan, todo, ready) =>
      && !w.closed && todo <= OpenIds(w)
      && rescan.sequence == w.sequence && rescan.kind.RescanRequired?
      && forall id :: id in ready && id in todo ==> w.subscribers[id].queue == []
  }

  ghost predicate Inv(w: Watcher) {
    && w.capacity >= 1
    && PhaseOk(w)
    && (w.closed ==> OpenIds(w) == {})
    && (forall id :: id in w.subscribers ==> id <= w.nextId)
    && (forall id :: id in w.subscribers ==> Shaped(w, id, w.subscribers[id]))
  }
}
