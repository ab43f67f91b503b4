/** No change is lost silently between the root watcher and the client. */
module FeedLaws {
  import opened Common
  import opened Paths
  import opened Changes
  import opened Invalidation
  import opened Watch
  import opened WatchLaws
  import opened ChangeClient
  import opened ChangeFeed

  // ---- the invariant --------------------------------------------------------

  lemma SubscribeFresh(w: Watcher)
    requires Inv(w) && Live(w)
    ensures var w' := Step(w, Subscribe);
      Inv(w') && w.nextId + 1 in w'.subscribers && w'.subscribers[w.nextId + 1].consumed == []
  {
    StepKeeps(w, Subscribe);
  }

  lemma OthersDoNotConsume(w: Watcher, a: Action, id: nat)
    requires Inv(w) && id in w.subscribers && a != Consume(id)
    ensures Inv(Step(w, a)) && id in Step(w, a).subscribers
    ensures Step(w, a).subscribers[id].consumed == w.subscribers[id].consumed
  {
    hide Inv;
    StepKeeps(w, a);
    KnownId(w, id);
  }

  lemma HandleDoesNotConsume(w: Watcher, e: RawEvent, id: nat)
    requires Inv(w) && id in w.subscribers
    ensures Inv(Handle(w, e)) && id in Handle(w, e).subscribers
    ensures Handle(w, e).subscribers[id].consumed == w.subscribers[id].consumed
  {
    hide Step, Inv, Classify;
    match Classify(e)
    case Ignore =>
    case PublishChange(kind) => OthersDoNotConsume(w, BeginPublish(kind, if e.Notified? then e.path else ""), id);
    case EndWithRescan => OthersDoNotConsume(w, BeginRescan, id);
  }

  lemma RelayInOrder(w: Watcher, id: nat)
    requires Inv(w) && id in w.subscribers && w.subscribers[id].queue != []
    ensures var w' := Step(w, Consume(id));
      Inv(w') && id in w'.subscribers
      && WireEvents(w'.subscribers[id].consumed)
         == WireEvents(w.subscribers[id].consumed) + [WireEvent(w.subscribers[id].queue[0])]
  {
    StepKeeps(w, Consume(id));
  }

  lemma ReceiveExpects(c: Client, received: seq<Change>, event: Change)
    requires c.nextSequence == Expected(received)
    ensures Receive(c, Decode(event)).client.nextSequence == Expected(received + [event])
    ensures Receive(c, Decode(event)).client == c.(nextSequence := Expected(received + [event]))
  {
  }

  lemma RelayStepKeeps(f: Feed)
    requires FeedInv(f) && f.link.Relaying? && f.link.w.subscribers[f.link.id].queue != []
    ensures FeedInv(FeedStep(f, Relay).feed)
  {
    hide Step, Inv;
    var link, link' := f.link, FeedStep(f, Relay).feed.link;
    RelayInOrder(link.w, link.id);
    var event := WireEvent(link.w.subscribers[link.id].queue[0]);
    assert link.received + (link.wire + [event]) == (link.received + link.wire) + [event];
    assert link'.received + link'.wire == [RESCAN] + WireEvents(link'.w.subscribers[link.id].consumed);
  }

  lemma DeliverStepKeeps(f: Feed)
    requires FeedInv(f) && !f.client.closed && (f.link.Relaying? || f.link.Ended?) && f.link.wire != []
    ensures FeedInv(FeedStep(f, Deliver).feed)
  {
    hide Inv, Receive, Decode, Expected;
    var link := f.link;
    ReceiveExpects(f.client, link.received, link.wire[0]);
    assert link.received + link.wire == link.received + [link.wire[0]] + link.wire[1..];
  }

  lemma ConsumedIsOrdered(w: Watcher, id: nat)
    requires Inv(w) && id in w.subscribers
    ensures Ordered(w.subscribers[id].consumed)
  {
    var s := w.subscribers[id];
    assert Shaped(w, id, s);
    assert forall i :: 0 <= i < |s.consumed| ==> Stream(s)[i] == s.consumed[i];
  }

  lemma EndStepKeeps(f: Feed)
    requires FeedInv(f)
    ensures FeedInv(FeedStep(f, ServerEnds).feed)
  {
    hide Step, Inv;
    if f.link.Relaying? { ConsumedIsOrdered(f.link.w, f.link.id); }
    hide WireEvents;
  }

  lemma FeedStepKeeps(f: Feed, a: FeedAction)
    requires FeedInv(f)
    ensures FeedInv(FeedStep(f, a).feed)
  {
    hide Step, Inv, Handle, Receive, Decode, Ordered;
    var link := f.link;
    match a
    case ServerSubscribes(root, pending) =>
      if link.Dialing? && Inv(root) && Live(root) { SubscribeFresh(root); }
    case ServerSendsRescan =>
      assert [] + [RESCAN] == [RESCAN] + WireEvents([]);
    case RawHandled =>
      if HasRoot(link) && link.raw != [] { HandleDoesNotConsume(link.w, link.raw[0], link.id); }
    case WatcherMoves(action) =>
      if HasRoot(link) && action != Consume(link.id) { OthersDoNotConsume(link.w, action, link.id); }
    case Relay =>
      if link.Relaying? && link.w.subscribers[link.id].queue != [] { RelayStepKeeps(f); }
    case Deliver =>
      if !f.client.closed && (link.Relaying? || link.Ended?) && link.wire != [] { DeliverStepKeeps(f); }
    case ServerEnds => EndStepKeeps(f);
    case _ =>
  }

  // ---- coverage -------------------------------------------------------------

  lemma RootKeepsCovering(w: Watcher, a: Action, id: nat, item: Item)
    requires Inv(w) && id in w.subscribers && a != Consume(id) && RootCovers(w, id, item)
    ensures id in Step(w, a).subscribers && RootCovers(Step(w, a), id, item)
  {
    hide Inv, Drops;
    KnownId(w, id);
    var w' := Step(w, a);
    if !Open(w, id) {
      assert !Open(w', id);
    } else if w.phase.Rescanning? {
      assert id in OpenIds(w);
    } else if w.phase.Publishing? && id in w.phase.todo && Drops(w.phase.change, item) {
      if a == Send(id) && |w.subscribers[id].queue| < w.capacity {
        var queue := w'.subscribers[id].queue;
        assert queue[|queue| - 1] == w.phase.change;
      }
    } else {
      var i :| 0 <= i < |w.subscribers[id].queue| && Drops(w.subscribers[id].queue[i], item);
      assert w'.phase.Rescanning? || w'.subscribers[id].queue[i] == w.subscribers[id].queue[i];
    }
  }

  /** Handling a notification puts its change, or a rescan, on the way to each open channel. */
  lemma HandledIsCovered(w: Watcher, e: RawEvent, id: nat, item: Item)
    requires Inv(w) && id in w.subscribers && w.phase.Idle? && RawCovers(e, item)
    ensures id in Handle(w, e).subscribers && RootCovers(Handle(w, e), id, item)
  {
    hide Inv, Drops, Classify;
    if Open(w, id) {
      OpenMeansLive(w, id);
      assert id in OpenIds(w);
      var w' := Handle(w, e);
      match Classify(e)
      case Ignore =>
      case PublishChange(kind) =>
        var path := if e.Notified? then e.path else "";
        NumberIrrelevant(w.sequence + 1, kind, path, item);
        ClassifiedKind(e);
        assert w'.phase == Publishing(Change(w.sequence + 1, kind, path, ""), OpenIds(w));
      case EndWithRescan =>
        assert w' == StartRescan(w);
    }
  }

  lemma ClassifiedKind(e: RawEvent)
    ensures Classify(e).PublishChange? ==> !Classify(e).kind.RescanRequired?
  {
  }

  lemma NumberIrrelevant(sequence: nat, kind: ChangeKind, path: string, item: Item)
    ensures Drops(Change(0, kind, path, ""), item) <==> Drops(Change(sequence, kind, path, ""), item)
  {
  }

  lemma HandleKeepsCovering(w: Watcher, e: RawEvent, id: nat, item: Item)
    requires Inv(w) && id in w.subscribers && RootCovers(w, id, item)
    ensures id in Handle(w, e).subscribers && RootCovers(Handle(w, e), id, item)
  {
    hide Step, Inv, RootCovers, Classify;
    match Classify(e)
    case Ignore =>
    case PublishChange(kind) => RootKeepsCovering(w, BeginPublish(kind, if e.Notified? then e.path else ""), id, item);
    case EndWithRescan => RootKeepsCovering(w, BeginRescan, id, item);
  }

  /** What leaves the channel for the wire drops what it dropped before. */
  lemma FrameDropsAlike(change: Change, item: Item)
    ensures Drops(WireEvent(change), item) <==> Drops(change, item)
  {
  }

  lemma RelayKeepsCovering(w: Watcher, id: nat, item: Item)
    requires Inv(w) && id in w.subscribers && w.subscribers[id].queue != [] && RootCovers(w, id, item)
    ensures RootCovers(Step(w, Consume(id)), id, item) || Drops(WireEvent(w.subscribers[id].queue[0]), item)
  {
    hide Inv, Drops, WireEvent;
    var queue := w.subscribers[id].queue;
    FrameDropsAlike(queue[0], item);
    if Open(w, id) && !w.phase.Rescanning?
       && !(w.phase.Publishing? && id in w.phase.todo && Drops(w.phase.change, item)) {
      var i :| 0 <= i < |queue| && Drops(queue[i], item);
      if i > 0 {
        assert Step(w, Consume(id)).subscribers[id].queue[i - 1] == queue[i];
      }
    }
  }

  /** A delivered frame that drops an item makes the client drop it. */
  lemma DeliveryDrops(c: Client, event: Change, item: Item)
    requires Drops(event, item)
    ensures exists callback <- Receive(c, Decode(event)).callbacks :: CallbackDrops(callback, item)
  {
    var callbacks := Receive(c, Decode(event)).callbacks;
    assert CallbackDrops(callbacks[|callbacks| - 1], item);
  }

  ghost predicate Dropped(callbacks: seq<Callback>, item: Item) {
    exists callback <- callbacks :: CallbackDrops(callback, item)
  }

  lemma WatcherStepCovers(f: Feed, w': Watcher, raw': seq<RawEvent>, item: Item)
    requires f.link.Relaying? && f.link.id in f.link.w.subscribers && f.link.id in w'.subscribers
    requires Covers(f, item)
    requires RootCovers(f.link.w, f.link.id, item) ==> RootCovers(w', f.link.id, item)
    requires forall e <- f.link.raw :: RawCovers(e, item) ==> e in raw' || RootCovers(w', f.link.id, item)
    ensures Covers(f.(link := Relaying(w', raw', f.link.id, f.link.wire, f.link.received)), item)
  {
  }

  lemma InitialRescanDrops(item: Item)
    ensures Drops(RESCAN, item)
  {
  }

  /** One step never loses an item: it stays covered, the client drops it in this very step,
      or the owner has closed the subscription. */
  lemma StepKeepsCovered(f: Feed, a: FeedAction, item: Item)
    requires FeedInv(f) && Covers(f, item)
    ensures var o := FeedStep(f, a);
      o.feed.client.closed || Covers(o.feed, item) || Dropped(o.callbacks, item)
  {
    hide Step, Inv, RootCovers, RawCovers, Drops;
    var link := f.link;
    if link.Relaying? {
      match a
      case RawArrives(event) =>
        WatcherStepCovers(f, link.w, link.raw + [event], item);
      case RawHandled =>
        if link.raw != [] && link.w.phase.Idle? {
          RawHandledCovers(f, item);
        }
      case WatcherMoves(action) =>
        if action != Consume(link.id) {
          StepKeeps(link.w, action);
          OthersDoNotConsume(link.w, action, link.id);
          if RootCovers(link.w, link.id, item) { RootKeepsCovering(link.w, action, link.id, item); }
          WatcherStepCovers(f, Step(link.w, action), link.raw, item);
        }
      case Relay =>
        if link.w.subscribers[link.id].queue != [] { RelayCovers(f, item); }
      case Deliver =>
        if link.wire != [] { DeliverCovers(f, item); }
      case _ =>
    } else if link.Subscribed? && a.ServerSendsRescan? {
      InitialRescanDrops(item);
      assert FeedStep(f, a).feed.link.wire[0] == RESCAN;
    }
  }

  lemma RawHandledCovers(f: Feed, item: Item)
    requires FeedInv(f) && f.link.Relaying? && Covers(f, item) && f.link.raw != [] && f.link.w.phase.Idle?
    ensures Covers(FeedStep(f, RawHandled).feed, item)
  {
    hide Inv, RootCovers, RawCovers, Drops, Handle;
    var link := f.link;
    var w' := Handle(link.w, link.raw[0]);
    HandleDoesNotConsume(link.w, link.raw[0], link.id);
    if RootCovers(link.w, link.id, item) { HandleKeepsCovering(link.w, link.raw[0], link.id, item); }
    if RawCovers(link.raw[0], item) { HandledIsCovered(link.w, link.raw[0], link.id, item); }
    assert link.raw == [link.raw[0]] + link.raw[1..];
    WatcherStepCovers(f, w', link.raw[1..], item);
  }

  lemma RelayCovers(f: Feed, item: Item)
    requires FeedInv(f) && f.link.Relaying? && Covers(f, item) && f.link.w.subscribers[f.link.id].queue != []
    ensures Covers(FeedStep(f, Relay).feed, item)
  {
    hide Inv, Step, RootCovers, RawCovers, Drops;
    var link, link' := f.link, FeedStep(f, Relay).feed.link;
    assert link'.wire[|link.wire|] == WireEvent(link.w.subscribers[link.id].queue[0]);
    assert forall i :: 0 <= i < |link.wire| ==> link'.wire[i] == link.wire[i];
    if RootCovers(link.w, link.id, item) { RelayKeepsCovering(link.w, link.id, item); }
  }

  lemma DeliverCovers(f: Feed, item: Item)
    requires FeedInv(f) && f.link.Relaying? && Covers(f, item) && f.link.wire != []
    ensures var o := FeedStep(f, Deliver); Covers(o.feed, item) || Dropped(o.callbacks, item)
  {
    hide Inv, RootCovers, RawCovers, Drops, Receive, Decode;
    var link := f.link;
    if Drops(link.wire[0], item) {
      DeliveryDrops(f.client, link.wire[0], item);
    } else if exists i | 0 <= i < |link.wire| :: Drops(link.wire[i], item) {
      var i :| 0 <= i < |link.wire| && Drops(link.wire[i], item);
      assert link.wire[1..][i - 1] == link.wire[i];
    }
  }

  // ---- theorems -------------------------------------------------------------

  /** Over every run: an item on its way to being dropped stays so until the client drops it or
      its owner closes the subscription. */
  lemma {:induction false} NoSilentLoss(f: Feed, actions: seq<FeedAction>, item: Item)
    requires FeedInv(f) && Covers(f, item)
    ensures var o := FeedRun(f, actions);
      FeedInv(o.feed) && (o.feed.client.closed || Covers(o.feed, item) || Dropped(o.callbacks, item))
    decreases |actions|
  {
    if actions != [] {
      hide FeedInv, Covers, FeedStep;
      var first := FeedStep(f, actions[0]);
      FeedStepKeeps(f, actions[0]);
      StepKeepsCovered(f, actions[0], item);
      if Covers(first.feed, item) {
        NoSilentLoss(first.feed, actions[1..], item);
      } else {
        FeedRunKeeps(first.feed, actions[1..]);
        StaysClosed(first.feed, actions[1..]);
      }
    }
  }

  lemma {:induction false} StaysClosed(f: Feed, actions: seq<FeedAction>)
    requires FeedInv(f)
    ensures f.client.closed ==> FeedRun(f, actions).feed.client.closed
    decreases |actions|
  {
    if actions != [] {
      FeedStepKeeps(f, actions[0]);
      ClosedOnce(f, actions[0]);
      StaysClosed(FeedStep(f, actions[0]).feed, actions[1..]);
    }
  }

  lemma ClosedOnce(f: Feed, a: FeedAction)
    requires FeedInv(f)
    ensures f.client.closed ==> FeedStep(f, a).feed.client.closed
  {
    hide Step, Inv;
  }

  lemma {:induction false} FeedRunKeeps(f: Feed, actions: seq<FeedAction>)
    requires FeedInv(f)
    ensures FeedInv(FeedRun(f, actions).feed)
    decreases |actions|
  {
    if actions != [] {
      hide FeedInv, FeedStep;
      FeedStepKeeps(f, actions[0]);
      FeedRunKeeps(FeedStep(f, actions[0]).feed, actions[1..]);
    }
  }

  lemma InitialFeed(item: Item)
    ensures FeedInv(INITIAL_FEED) && Covers(INITIAL_FEED, item)
  {
  }

  /** A notification that reaches the subscribed root is on its way from then on. */
  lemma ArrivalIsCovered(f: Feed, e: RawEvent, item: Item)
    requires RawCovers(e, item) && !f.client.closed
    ensures Covers(FeedStep(f, RawArrives(e)).feed, item)
  {
    hide RawCovers, RootCovers, Drops, Step;
    if f.link.Relaying? {
      var raw := f.link.raw + [e];
      assert RawCovers(raw[|raw| - 1], item);
    }
  }

  /** A change notified under its own name: one that a change event can carry, or one that the agent
      cannot express as a workspace path. */
  predicate UnderItsName(e: RawEvent) {
    e.Notified? && e.ops != {} && (Canonical(e.path) || !e.inWorkspace)
  }

  /** A notified change leads to something that covers what it affects if and only if its name is not
      one of the temporary ones, which the agent ignores whoever made the file. */
  lemma NotifiedChangeCovers(e: RawEvent, item: Item)
    requires UnderItsName(e) && Affects(e.path, item)
    ensures RawCovers(e, item) <==> !TemporaryFile(e.path)
  {
    hide TemporaryFile, Touches, Affects, Normalize;
    if Canonical(e.path) { TouchesIsAffects(e.path, item); }
    var op :| op in e.ops;
    match op
    case CreateOp =>
    case WriteOp =>
    case RemoveOp =>
    case RenameOp =>
    case ChmodOp =>
  }

  /** From the first connection on: whatever happens before and after a notification arrives, the
      change is still on its way or the client has dropped what it affects since. */
  lemma EveryChangeIsAccountedFor(before: seq<FeedAction>, e: RawEvent, later: seq<FeedAction>, item: Item)
    requires UnderItsName(e) && !TemporaryFile(e.path) && Affects(e.path, item)
    ensures var at := FeedStep(FeedRun(INITIAL_FEED, before).feed, RawArrives(e)).feed;
      var o := FeedRun(at, later);
      at.client.closed || o.feed.client.closed || Covers(o.feed, item) || Dropped(o.callbacks, item)
  {
    InitialFeed(item);
    FeedRunKeeps(INITIAL_FEED, before);
    var f := FeedRun(INITIAL_FEED, before).feed;
    FeedStepKeeps(f, RawArrives(e));
    NotifiedChangeCovers(e, item);
    if !f.client.closed {
      ArrivalIsCovered(f, e, item);
      NoSilentLoss(FeedStep(f, RawArrives(e)).feed, later, item);
    } else {
      ClosedOnce(f, RawArrives(e));
    }
  }

  /** Taking in the notification of a temporary name publishes nothing. */
  lemma TemporaryIsIgnored(w: Watcher, e: RawEvent)
    requires e.Notified? && TemporaryFile(e.path)
    ensures Handle(w, e) == w
  {
  }

  /** However a connection ends or fails to begin, an open client is told to rescan, and that it is
      without a connection. Once one is open, delays are counted from the start again. */
  lemma LossIsTold(f: Feed)
    requires !f.client.closed
    ensures Unheard(f.link) ==> FeedStep(f, SocketOpens).feed.client.reconnectDelayMs == 250
    ensures !f.link.Down? ==> FeedStep(f, SocketCloses).callbacks == [OnRescanRequired, OnDisconnected]
    ensures f.link.Down? ==> FeedStep(f, DialFails).callbacks == [OnRescanRequired, OnDisconnected]
  {
  }

  // ---- the next connection ------------------------------------------------------------

  /** Without a connection a timer is running that will dial again. */
  predicate Scheduled(f: Feed) {
    f.link.Down? && !f.client.closed ==> f.client.timerPending
  }

  lemma StepKeepsScheduled(f: Feed, a: FeedAction)
    requires Scheduled(f)
    ensures Scheduled(FeedStep(f, a).feed)
  {
    hide Step, Handle;
  }

  lemma {:induction false} RunKeepsScheduled(f: Feed, actions: seq<FeedAction>)
    requires Scheduled(f)
    ensures Scheduled(FeedRun(f, actions).feed)
    decreases |actions|
  {
    if actions != [] {
      hide Scheduled, FeedStep;
      StepKeepsScheduled(f, actions[0]);
      RunKeepsScheduled(FeedStep(f, actions[0]).feed, actions[1..]);
    }
  }

  /** After the first attempt to connect, whatever happens: an open client without a connection has
      its next attempt scheduled, and that attempt starts a connection. */
  lemma NextConnectionComes(first: FeedAction, later: seq<FeedAction>)
    requires first.Dial? || first.DialFails?
    ensures
      var f := FeedRun(INITIAL_FEED, [first] + later).feed;
      f.link.Down? && !f.client.closed ==> f.client.timerPending && FeedStep(f, Dial).feed.link.Dialing?
  {
    assert ([first] + later)[1..] == later;
    var begun := FeedStep(INITIAL_FEED, first).feed;
    RunKeepsScheduled(begun, later);
    assert FeedRun(INITIAL_FEED, [first] + later).feed == FeedRun(begun, later).feed;
  }

  /** The changes among the callbacks. */
  function ChangesOf(callbacks: seq<Callback>): seq<Change> {
    if callbacks == [] then []
    else
      var last := callbacks[|callbacks| - 1];
      ChangesOf(callbacks[..|callbacks| - 1]) + if last.OnChange? then [last.change] else []
  }

  lemma {:induction false} ChangesAppend(a: seq<Callback>, b: seq<Callback>)
    ensures ChangesOf(a + b) == ChangesOf(a) + ChangesOf(b)
  {
    if b == [] {
      assert a + b == a;
    } else {
      assert (a + b)[..|a + b| - 1] == a + b[..|b| - 1];
      ChangesAppend(a, b[..|b| - 1]);
    }
  }

  /** A frame that names its kind, with a sequence number that JavaScript can represent. */
  predicate Readable(frame: Change) {
    !frame.kind.Unspecified? && frame.sequence < 0x20_0000_0000_0000
  }

  /** The received frames that can be read, as they came. */
  function Handed(received: seq<Change>): seq<Change> {
    if received == [] then []
    else
      var last := received[|received| - 1];
      Handed(received[..|received| - 1]) + if Readable(last) then [last] else []
  }

  predicate EndsWith(all: seq<Change>, tail: seq<Change>) {
    |tail| <= |all| && all[|all| - |tail|..] == tail
  }

  lemma {:induction false} FeedRunOneMore(f: Feed, actions: seq<FeedAction>, a: FeedAction)
    ensures
      var before := FeedRun(f, actions);
      var last := FeedStep(before.feed, a);
      FeedRun(f, actions + [a]) == Outcome(last.feed, before.callbacks + last.callbacks)
    decreases |actions|
  {
    hide FeedStep;
    if actions == [] {
      assert ([] + [a])[1..] == [];
      var step := FeedStep(f, a);
      assert step.callbacks + [] == step.callbacks == [] + step.callbacks;
    } else {
      var first := FeedStep(f, actions[0]);
      assert (actions + [a])[1..] == actions[1..] + [a];
      FeedRunOneMore(first.feed, actions[1..], a);
      var rest := FeedRun(first.feed, actions[1..]);
      var last := FeedStep(rest.feed, a);
      assert first.callbacks + (rest.callbacks + last.callbacks) == first.callbacks + rest.callbacks + last.callbacks;
    }
  }

  /** What a delivery hands over is what its frame decodes to. */
  lemma DeliveryHands(c: Client, event: Change, received: seq<Change>)
    ensures ChangesOf(Receive(c, Decode(event)).callbacks) == if Readable(event) then [event] else []
    ensures Handed(received + [event]) == Handed(received) + if Readable(event) then [event] else []
  {
    var callbacks := Receive(c, Decode(event)).callbacks;
    assert (received + [event])[..|received|] == received;
    if Decode(event).ChangeMessage? {
      assert callbacks[..|callbacks| - 1] == [] || callbacks[..|callbacks| - 1] == [OnRescanRequired];
      assert [OnRescanRequired][..0] == [];
      assert ChangesOf([OnRescanRequired]) == [];
    } else if callbacks != [] {
      assert callbacks[..|callbacks| - 1] == [];
    }
  }

  lemma HandedAfter(f: Feed, a: FeedAction, callbacks: seq<Callback>)
    requires FeedInv(f)
    requires f.link.Relaying? || f.link.Ended? ==> EndsWith(ChangesOf(callbacks), Handed(f.link.received))
    ensures
      var o := FeedStep(f, a);
      o.feed.link.Relaying? || o.feed.link.Ended? ==>
        EndsWith(ChangesOf(callbacks + o.callbacks), Handed(o.feed.link.received))
  {
    hide Step, Inv, Handle, Receive, Decode, FeedInv;
    var link, o := f.link, FeedStep(f, a);
    ChangesAppend(callbacks, o.callbacks);
    hide ChangesOf, Handed;
    NothingHanded();
    if a.Deliver? && !f.client.closed && (link.Relaying? || link.Ended?) && link.wire != [] {
      DeliveryHands(f.client, link.wire[0], link.received);
      EndsWithMore(ChangesOf(callbacks), Handed(link.received), ChangesOf(o.callbacks));
    } else if o.feed.link.Relaying? || o.feed.link.Ended? {
      assert o.callbacks == [];
      assert ChangesOf(callbacks) + [] == ChangesOf(callbacks);
    }
  }

  lemma NothingHanded()
    ensures ChangesOf([]) == [] && Handed([]) == []
  {
  }

  lemma EndsWithMore(all: seq<Change>, tail: seq<Change>, more: seq<Change>)
    requires EndsWith(all, tail)
    ensures EndsWith(all + more, tail + more)
  {
    assert (all + more)[|all| - |tail|..] == all[|all| - |tail|..] + more;
  }

  lemma {:induction false} ReceivedIsHanded(actions: seq<FeedAction>)
    ensures
      var o := FeedRun(INITIAL_FEED, actions);
      o.feed.link.Relaying? || o.feed.link.Ended? ==> EndsWith(ChangesOf(o.callbacks), Handed(o.feed.link.received))
  {
    if actions != [] {
      var n := |actions| - 1;
      var before := FeedRun(INITIAL_FEED, actions[..n]);
      assert actions == actions[..n] + [actions[n]];
      ReceivedIsHanded(actions[..n]);
      InitialFeed(StatOf(""));
      FeedRunKeeps(INITIAL_FEED, actions[..n]);
      hide FeedInv, FeedStep, ChangesOf, Handed;
      HandedAfter(before.feed, actions[n], before.callbacks);
      FeedRunOneMore(INITIAL_FEED, actions[..n], actions[n]);
    }
  }

  predicate Specified(changes: seq<Change>) {
    forall c <- changes :: !c.kind.Unspecified?
  }

  /** The initial rescan, then the changes as they are; one of no kind arrives as a rescan. */
  predicate Mirrors(received: seq<Change>, changes: seq<Change>) {
    && |received| <= |changes| + 1 && (received != [] ==> received[0] == RESCAN)
    && (Specified(changes) ==> received <= [RESCAN] + changes)
    && forall i :: 0 < i < |received| ==>
         received[i] == if changes[i - 1].kind.Unspecified? then changes[i - 1].(kind := RescanRequired)
                        else changes[i - 1]
  }

  lemma PrefixMirrors(received: seq<Change>, changes: seq<Change>)
    requires received <= [RESCAN] + WireEvents(changes)
    ensures Mirrors(received, changes)
  {
    var all := [RESCAN] + WireEvents(changes);
    assert forall i :: 0 <= i < |received| ==> received[i] == all[i];
    if Specified(changes) {
      assert forall i :: 0 <= i < |changes| ==> WireEvent(changes[i]) == changes[i];
      assert WireEvents(changes) == changes;
    }
  }

  /** On one connection, still up or ended by the server, the client receives the initial rescan and
      then the subscription's stream, in order and without repetition, each change as it was
      published; and the latest changes it has handed over are those it received on this connection,
      one for each readable frame. */
  lemma DeliveredInOrder(actions: seq<FeedAction>)
    ensures
      var o := FeedRun(INITIAL_FEED, actions);
      var link := o.feed.link;
      && (link.Relaying? ==>
            && link.id in link.w.subscribers && Ordered(link.w.subscribers[link.id].consumed)
            && Mirrors(link.received, link.w.subscribers[link.id].consumed))
      && (link.Ended? ==> Ordered(link.relayed) && Mirrors(link.received, link.relayed))
      && (link.Relaying? || link.Ended? ==> EndsWith(ChangesOf(o.callbacks), Handed(link.received)))
  {
    InitialFeed(StatOf(""));
    FeedRunKeeps(INITIAL_FEED, actions);
    ReceivedIsHanded(actions);
    hide Inv, Ordered, FeedRun;
    var link := FeedRun(INITIAL_FEED, actions).feed.link;
    if link.Relaying? || link.Ended? {
      assert link.received <= link.received + link.wire;
      hide Mirrors, WireEvents;
      if link.Relaying? {
        ConsumedIsOrdered(link.w, link.id);
        PrefixMirrors(link.received, link.w.subscribers[link.id].consumed);
      } else {
        PrefixMirrors(link.received, link.relayed);
      }
    }
  }

  /** The alarm is exact: a received frame raises it if and only if it cannot be read, or is a rescan,
      or a numbered change was received before it on this connection and its number is not the next
      one. A frame that can be read is handed over after the alarm. */
  lemma AlarmExactly(f: Feed)
    requires FeedInv(f) && f.link.Relaying? && !f.client.closed && f.link.wire != []
    ensures var o := FeedStep(f, Deliver);
      var frame, n := f.link.wire[0], |f.link.received|;
      var alarm := !Readable(frame) || frame.kind.RescanRequired?
                   || (n >= 2 && frame.sequence != f.link.received[n - 1].sequence + 1);
      o.callbacks == (if alarm then [OnRescanRequired] else []) + (if Readable(frame) then [OnChange(frame)] else [])
  {
    hide Shaped, Inv;
    var link := f.link;
    var s, n := link.w.subscribers[link.id], |link.received|;
    var all := link.received + link.wire;
    assert all == [RESCAN] + WireEvents(s.consumed);
    assert all[n] == link.wire[0];
    if n == 1 {
      assert link.received == [all[0]] == [RESCAN];
      assert Expected(link.received[..0]) == None;
    } else if n >= 2 {
      assert all[n] == WireEvent(s.consumed[n - 1]);
      assert all[n - 1] == link.received[n - 1] == WireEvent(s.consumed[n - 2]);
      ConsumedIncreases(link.w, link.id, n - 2);
    }
    var callbacks := FeedStep(f, Deliver).callbacks;
    assert Receive(f.client, Decode(link.wire[0])).callbacks == callbacks;
  }

  lemma ConsumedIncreases(w: Watcher, id: nat, i: nat)
    requires Inv(w) && id in w.subscribers && i + 1 < |w.subscribers[id].consumed|
    ensures w.subscribers[id].consumed[i].sequence < w.subscribers[id].consumed[i + 1].sequence
    ensures 0 < w.subscribers[id].consumed[i].sequence
    ensures !w.subscribers[id].consumed[i].kind.RescanRequired?
  {
    var s := w.subscribers[id];
    assert Shaped(w, id, s);
    assert Stream(s)[i] == s.consumed[i] && Stream(s)[i + 1] == s.consumed[i + 1];
  }
}
