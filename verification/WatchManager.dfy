/** `rootWatcher` as the code runs it: its loops over the subscriber table, each proved to be a
    run of the channel machine of `Watch`, together with the outcome when no consumer receives
    in between. */
module WatchManager {
  import opened Changes
  import opened Watch
  import opened WatchLaws

  class RootWatcher {
    const capacity: nat
    var nextId: nat
    var sequence: nat
    var subscribers: map<nat, Subscription>
    var closed: bool

    ghost function State(phase: Phase): Watcher
      reads this
    {
      Watcher(capacity, nextId, sequence, subscribers, closed, phase)
    }

    ghost predicate Valid()
      reads this
    {
      Inv(State(Idle))
    }

    /** The root is closed and each of these channels holds the rescan alone and is closed. */
    ghost predicate EndedInRescan(ids: set<nat>)
      reads this
    {
      closed && forall id :: id in ids ==> Ended(id)
    }

    ghost function OpenNow(): set<nat>
      reads this
    {
      OpenIds(State(Idle))
    }

    ghost predicate Ended(id: nat)
      reads this
    {
      && id in subscribers && subscribers[id].closes == 1
      && subscribers[id].queue == [Change(sequence, RescanRequired, "", "")]
    }

    ghost predicate Room()
      reads this
    {
      forall id :: id in subscribers && subscribers[id].closes == 0 ==> |subscribers[id].queue| < capacity
    }

    constructor (capacity: nat)
      requires capacity >= 1
      ensures Valid() && State(Idle) == Started(capacity)
    {
      this.capacity := capacity;
      nextId, sequence, subscribers, closed := 0, 0, map[], false;
    }

    /** A closed root gives no subscription; the manager then starts a new root. */
    method NewSubscription() returns (id: nat, active: bool)
      requires Valid()
      modifies this
      ensures Valid() && State(Idle) == Step(old(State(Idle)), Subscribe)
      ensures active == !old(closed)
      ensures active ==> id !in old(subscribers) && Open(State(Idle), id) && Stream(subscribers[id]) == []
    {
      StepKeeps(State(Idle), Subscribe);
      if closed { return 0, false; }
      nextId := nextId + 1;
      subscribers := subscribers[nextId := Subscription([], [], sequence, 0, false, 0)];
      return nextId, true;
    }

    /** Empties every channel, puts the rescan in it and closes it. `base` is the machine state
        the lock holder is in. */
    method PublishRescanAndCloseLocked(ghost base: Watcher) returns (ghost trace: seq<Action>)
      requires base == State(base.phase) && Inv(base) && Inv(StartRescan(base)) && !closed
      modifies `subscribers, `sequence, `closed
      ensures State(Idle) == Run(StartRescan(base), trace)
      ensures EndedInRescan(OpenIds(base)) && sequence == old(sequence) + 1
    {
      hide Run, Step, Inv;
      sequence := sequence + 1;
      var change := Change(sequence, RescanRequired, "", "");
      var open := set id | id in subscribers && subscribers[id].closes == 0;
      assert open == OpenIds(base);
      ghost var start, ready := StartRescan(base), {};
      trace, ready := DrainAll(start, change, open);
      RunAppend(start, trace, FinishRescan);
      Finishing(State(Rescanning(change, {}, ready)));
      trace := trace + [FinishRescan];
      CloseAll(open);
    }

    /** The loop over the open channels. */
    method DrainAll(ghost start: Watcher, change: Change, open: set<nat>)
      returns (ghost trace: seq<Action>, ghost ready: set<nat>)
      requires open == OpenNow() && Inv(start) && start == State(Rescanning(change, open, {}))
      modifies `subscribers
      ensures State(Rescanning(change, {}, ready)) == Run(start, trace) && subscribers.Keys == old(subscribers.Keys)
      ensures forall id :: id in subscribers ==> subscribers[id].closes == old(subscribers)[id].closes
      ensures forall id :: id in open ==> subscribers[id].queue == [change]
    {
      hide Run, Step, Inv;
      var todo := open;
      trace, ready := [], {};
      RunNothing(start);
      while todo != {}
        invariant todo <= open && subscribers.Keys == old(subscribers.Keys)
        invariant forall id :: id in subscribers ==> subscribers[id].closes == old(subscribers)[id].closes
        invariant forall id :: id in open && id !in todo ==> subscribers[id].queue == [change]
        invariant State(Rescanning(change, todo, ready)) == Run(start, trace)
        decreases |todo|
      {
        var id :| id in todo;
        trace, ready := DrainAndSend(start, trace, change, todo, ready, id);
        todo := todo - {id};
      }
    }

    /** Closes the channels of the table and the root. */
    method CloseAll(open: set<nat>)
      requires open == OpenNow()
      modifies `subscribers, `closed
      ensures closed && subscribers == CloseIds(old(State(Idle)), open).subscribers
      ensures forall id :: id in open ==> id in subscribers && subscribers[id] == old(subscribers)[id].(closes := 1)
    {
      subscribers := map id | id in subscribers ::
        if id in open then subscribers[id].(closes := subscribers[id].closes + 1) else subscribers[id];
      closed := true;
    }

    /** The inner loop for one channel: receive until it is empty, then send the rescan. */
    method DrainAndSend(ghost start: Watcher, ghost before: seq<Action>, change: Change, ghost todo: set<nat>,
                        ghost ready: set<nat>, id: nat)
      returns (ghost trace: seq<Action>, ghost ready': set<nat>)
      requires id in todo && id in subscribers && Inv(start) && subscribers[id].closes == 0
      requires State(Rescanning(change, todo, ready)) == Run(start, before)
      modifies `subscribers
      ensures State(Rescanning(change, todo - {id}, ready')) == Run(start, trace)
      ensures subscribers.Keys == old(subscribers.Keys) && subscribers[id].queue == [change]
      ensures subscribers[id].closes == 0
      ensures forall k :: k in subscribers && k != id ==> subscribers[k] == old(subscribers)[k]
    {
      hide Run, Step, Inv;
      trace := before;
      ReadyIsEmpty(start, trace, id);
      while subscribers[id].queue != []
        invariant subscribers.Keys == old(subscribers.Keys) && subscribers[id].closes == 0
        invariant forall k :: k in subscribers && k != id ==> subscribers[k] == old(subscribers)[k]
        invariant State(Rescanning(change, todo, ready)) == Run(start, trace)
        invariant id in ready ==> subscribers[id].queue == []
        decreases |subscribers[id].queue|
      {
        RunAppend(start, trace, Drain(id));
        Draining(State(Rescanning(change, todo, ready)), id);
        trace := trace + [Drain(id)];
        var s := subscribers[id];
        subscribers := subscribers[id := s.(queue := s.queue[1..], drained := s.drained + 1)];
      }
      RunAppend(start, trace, FoundEmpty(id));
      FindingEmpty(State(Rescanning(change, todo, ready)), id);
      trace := trace + [FoundEmpty(id)];
      ready' := ready + {id};
      CapacityPositive(start, trace);
      RunAppend(start, trace, SendRescan(id));
      SendingRescan(State(Rescanning(change, todo, ready')), id);
      trace := trace + [SendRescan(id)];
      subscribers := subscribers[id := subscribers[id].(queue := subscribers[id].queue + [change])];
    }

    /** The non-blocking send to one channel; a full one ends the root. */
    method TrySend(ghost start: Watcher, ghost before: seq<Action>, change: Change, ghost todo: set<nat>, id: nat)
      returns (sent: bool, ghost trace: seq<Action>)
      requires id in todo && id in subscribers && Inv(start) && !closed
      requires State(Publishing(change, todo)) == Run(start, before)
      modifies `subscribers, `sequence, `closed
      ensures sent == (|old(subscribers)[id].queue| < capacity)
      ensures sent ==> State(Publishing(change, todo - {id})) == Run(start, trace)
      ensures sent ==> subscribers == old(subscribers)[id := Extended(old(subscribers)[id], change)]
      ensures sent ==> sequence == old(sequence) && !closed
      ensures !sent ==> State(Idle) == Run(start, trace) && EndedInRescan(old(OpenNow()))
    {
      hide Run, Step, Inv;
      EveryRunKeeps(start, before);
      Sending(State(Publishing(change, todo)), id);
      RunAppend(start, before, Send(id));
      EveryRunKeeps(start, before + [Send(id)]);
      trace := before + [Send(id)];
      sent := |subscribers[id].queue| < capacity;
      if sent {
        subscribers := subscribers[id := Extended(subscribers[id], change)];
      } else {
        ghost var rest := PublishRescanAndCloseLocked(State(Publishing(change, todo)));
        RunConcat(start, trace, rest);
        trace := trace + rest;
      }
    }

    /** The loop of a publish over the open channels. */
    method SendToAll(ghost start: Watcher, ghost before: seq<Action>, change: Change, open: set<nat>)
      returns (sent: bool, ghost trace: seq<Action>)
      requires open == OpenNow() && Inv(start) && !closed && sequence == change.sequence
      requires State(Publishing(change, open)) == Run(start, before)
      modifies `subscribers, `sequence, `closed
      ensures sent == old(Room())
      ensures sent ==> State(Publishing(change, {})) == Run(start, trace) && !closed && sequence == old(sequence)
      ensures sent ==> subscribers == Delivered(old(subscribers), open, change)
      ensures !sent ==> State(Idle) == Run(start, trace) && EndedInRescan(open)
    {
      hide Run, Step, Inv, Delivered, EndedInRescan;
      trace := before;
      var todo := open;
      DeliveredToNone(subscribers, change);
      assert open - todo == {};
      while todo != {}
        invariant todo <= open && !closed && sequence == change.sequence
        invariant subscribers == Delivered(old(subscribers), open - todo, change)
        invariant forall id :: id in open - todo ==> |old(subscribers)[id].queue| < capacity
        invariant State(Publishing(change, todo)) == Run(start, trace)
        decreases |todo|
      {
        var id :| id in todo;
        DeliveredOneMore(old(subscribers), open - todo, id, change);
        assert OpenNow() == open;
        assert open - (todo - {id}) == (open - todo) + {id};
        sent, trace := TrySend(start, trace, change, todo, id);
        if !sent {
          return;
        }
        todo := todo - {id};
      }
      sent := true;
      assert open - {} == open;
    }

    /** With room everywhere each open channel gets the change; one full channel ends the root
        for all of them. */
    method Publish(kind: ChangeKind, path: string) returns (ghost trace: seq<Action>)
      requires Valid() && !kind.RescanRequired?
      modifies `subscribers, `sequence, `closed
      ensures Valid() && State(Idle) == Run(old(State(Idle)), trace)
      ensures old(closed) ==> State(Idle) == old(State(Idle))
      ensures !old(closed) && old(Room()) ==> !closed && sequence == old(sequence) + 1
      ensures !old(closed) && old(Room()) ==>
                subscribers == Delivered(old(subscribers), old(OpenNow()), Change(sequence, kind, path, ""))
      ensures !old(closed) && !old(Room()) ==> EndedInRescan(old(OpenNow()))
    {
      trace := [];
      ghost var start := State(Idle);
      RunNothing(start);
      if closed { return; }
      hide Run, Step, Inv, Delivered, EndedInRescan;
      sequence := sequence + 1;
      var change := Change(sequence, kind, path, "");
      var open := set id | id in subscribers && subscribers[id].closes == 0;
      assert open == OpenIds(start) == OpenNow();
      RunAppend(start, trace, BeginPublish(kind, path));
      BeginningPublish(start, kind, path);
      trace := trace + [BeginPublish(kind, path)];
      var sent;
      sent, trace := SendToAll(start, trace, change, open);
      if sent {
        RunAppend(start, trace, EndPublish);
        EndingPublish(State(Publishing(change, {})));
        trace := trace + [EndPublish];
      }
      EveryRunKeeps(start, trace);
    }

    method PublishRescanAndClose() returns (ghost trace: seq<Action>)
      requires Valid()
      modifies `subscribers, `sequence, `closed
      ensures Valid() && State(Idle) == Run(old(State(Idle)), trace)
      ensures !old(closed) ==> EndedInRescan(old(OpenNow()))
      ensures closed
    {
      trace := [];
      if closed { return; }
      ghost var start := State(Idle);
      StepKeeps(start, BeginRescan);
      trace := PublishRescanAndCloseLocked(start);
      RunConcat(start, [BeginRescan], trace);
      assert Run(start, [BeginRescan]) == StartRescan(start);
      trace := [BeginRescan] + trace;
      EveryRunKeeps(start, trace);
    }

    /** The last subscriber to leave closes the root. */
    method Unsubscribe(id: nat)
      requires Valid()
      modifies `subscribers, `closed
      ensures Valid() && State(Idle) == Step(old(State(Idle)), RemoveSubscriber(id))
      ensures id in old(OpenNow()) ==>
        && OpenNow() == old(OpenNow()) - {id} && subscribers[id].closes == 1
        && (closed <==> OpenNow() == {})
        && forall k :: k in subscribers && k != id ==> k in old(subscribers) && subscribers[k] == old(subscribers)[k]
      ensures id !in old(OpenNow()) ==> State(Idle) == old(State(Idle))
    {
      hide Inv;
      StepKeeps(State(Idle), RemoveSubscriber(id));
      ClosingRoot(State(Idle));
      ghost var next := Step(State(Idle), RemoveSubscriber(id));
      if id !in subscribers || subscribers[id].closes > 0 { return; }
      ghost var was := OpenIds(State(Idle));
      subscribers := map k | k in subscribers ::
        if k in {id} then subscribers[k].(closes := subscribers[k].closes + 1) else subscribers[k];
      var left := set k | k in subscribers && subscribers[k].closes == 0;
      assert left == was - {id};
      assert left == {} <==> was == {id} by {
        assert id in was;
      }
      if left == {} {
        closed := true;
      }
      assert State(Idle) == next;
    }

    method Close()
      requires Valid()
      modifies this
      ensures Valid() && State(Idle) == Step(old(State(Idle)), CloseRoot)
      ensures closed && OpenIds(State(Idle)) == {}
    {
      hide Inv, Step;
      StepKeeps(State(Idle), CloseRoot);
      ClosingRoot(State(Idle));
      if closed { return; }
      var open := set k | k in subscribers && subscribers[k].closes == 0;
      assert open == OpenIds(State(Idle));
      closed := true;
      subscribers := map k | k in subscribers ::
        if k in open then subscribers[k].(closes := subscribers[k].closes + 1) else subscribers[k];
    }
  }

  /** The table after a change went to the channels in `ids`. */
  function Delivered(subscribers: map<nat, Subscription>, ids: set<nat>, change: Change): map<nat, Subscription> {
    map id | id in subscribers ::
      if id in ids then subscribers[id].(queue := subscribers[id].queue + [change]) else subscribers[id]
  }

  lemma DeliveredToNone(subscribers: map<nat, Subscription>, change: Change)
    ensures Delivered(subscribers, {}, change) == subscribers
  {
  }

  function Extended(s: Subscription, change: Change): Subscription {
    s.(queue := s.queue + [change])
  }

  lemma DeliveredOneMore(subscribers: map<nat, Subscription>, ids: set<nat>, id: nat, change: Change)
    requires id in subscribers && id !in ids
    ensures var now := Delivered(subscribers, ids, change);
      && now.Keys == subscribers.Keys && now[id] == subscribers[id]
      && now[id := Extended(now[id], change)] == Delivered(subscribers, ids + {id}, change)
      && forall k :: k in subscribers ==> now[k].closes == subscribers[k].closes
  {
  }

  // One step of the machine each, as the loops take them.

  lemma RunNothing(w: Watcher)
    ensures Run(w, []) == w
  {
  }

  lemma BeginningPublish(w: Watcher, kind: ChangeKind, path: string)
    requires Live(w) && !kind.RescanRequired?
    ensures Step(w, BeginPublish(kind, path)) ==
      w.(sequence := w.sequence + 1, phase := Publishing(Change(w.sequence + 1, kind, path, ""), OpenIds(w)))
  {
  }

  lemma Sending(w: Watcher, id: nat)
    requires w.phase.Publishing? && id in w.phase.todo && id in w.subscribers
    ensures Step(w, Send(id)) ==
      if CanSend(w, id) then Push(w, id, w.phase.change).(phase := Publishing(w.phase.change, w.phase.todo - {id}))
      else StartRescan(w)
  {
  }

  lemma EndingPublish(w: Watcher)
    requires w.phase.Publishing? && w.phase.todo == {}
    ensures Step(w, EndPublish) == w.(phase := Idle)
  {
  }

  lemma Draining(w: Watcher, id: nat)
    requires w.phase.Rescanning? && id in w.phase.todo && id !in w.phase.ready
    requires id in w.subscribers && w.subscribers[id].queue != []
    ensures Step(w, Drain(id)) ==
      var s := w.subscribers[id]; WithSubscription(w, id, s.(queue := s.queue[1..], drained := s.drained + 1))
  {
  }

  lemma FindingEmpty(w: Watcher, id: nat)
    requires w.phase.Rescanning? && id in w.phase.todo && id in w.subscribers && w.subscribers[id].queue == []
    ensures Step(w, FoundEmpty(id)) == w.(phase := Rescanning(w.phase.rescan, w.phase.todo, w.phase.ready + {id}))
  {
  }

  lemma SendingRescan(w: Watcher, id: nat)
    requires w.phase.Rescanning? && id in w.phase.todo && id in w.phase.ready && CanSend(w, id)
    ensures Step(w, SendRescan(id)) ==
      Push(w, id, w.phase.rescan).(phase := Rescanning(w.phase.rescan, w.phase.todo - {id}, w.phase.ready))
  {
  }

  lemma Finishing(w: Watcher)
    requires w.phase.Rescanning? && w.phase.todo == {}
    ensures Step(w, FinishRescan) == CloseIds(w, OpenIds(w)).(closed := true, phase := Idle)
  {
  }

  lemma ClosingRoot(w: Watcher)
    requires w.phase.Idle?
    ensures Step(w, CloseRoot) == if w.closed then w else CloseIds(w, OpenIds(w)).(closed := true)
    ensures Inv(w) && w.closed ==> OpenIds(w) == {}
    ensures OpenIds(CloseIds(w, OpenIds(w))) == {}
  {
  }

  lemma ReadyIsEmpty(start: Watcher, trace: seq<Action>, id: nat)
    requires Inv(start)
    ensures var w := Run(start, trace);
      w.phase.Rescanning? && id in w.phase.ready && id in w.phase.todo ==>
        id in w.subscribers && w.subscribers[id].queue == []
  {
    EveryRunKeeps(start, trace);
  }

  lemma CapacityPositive(start: Watcher, trace: seq<Action>)
    requires Inv(start)
    ensures Run(start, trace).capacity >= 1
  {
    EveryRunKeeps(start, trace);
  }
}
