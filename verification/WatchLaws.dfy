/** What every interleaving of the watcher's channel operations keeps. */
module WatchLaws {
  import opened Changes
  import opened Watch

  // ---- a subscription that a step does not touch ---------------------------

  lemma SamePhase(w: Watcher, w': Watcher, id: nat, s: Subscription)
    requires Shaped(w, id, s) && w'.capacity == w.capacity && w'.sequence == w.sequence
    requires Awaits(w', id) == Awaits(w, id) && w'.phase.Rescanning? == w.phase.Rescanning?
    ensures Shaped(w', id, s)
  {
  }

  lemma NewPhase(w: Watcher, w': Watcher, id: nat, s: Subscription)
    requires Shaped(w, id, s) && w'.capacity == w.capacity && w'.sequence == w.sequence + 1
    requires !w.phase.Rescanning? && !w'.phase.Idle? && (w'.phase.Publishing? ==> w.phase.Idle?)
    requires Awaits(w', id) <==> s.closes == 0
    ensures Shaped(w', id, s)
  {
  }

  lemma BackToIdle(w: Watcher, w': Watcher, id: nat, s: Subscription)
    requires Shaped(w, id, s) && w'.capacity == w.capacity && w'.sequence == w.sequence && w'.phase.Idle?
    requires !Awaits(w, id) && (w.phase.Rescanning? ==> s.closes > 0)
    ensures Shaped(w', id, s)
  {
  }

  lemma OthersKeepPhase(w: Watcher, w': Watcher, except: set<nat>)
    requires Inv(w) && w'.capacity == w.capacity && w'.sequence == w.sequence
    requires w'.phase.Rescanning? == w.phase.Rescanning? && w'.phase.Publishing? == w.phase.Publishing?
    requires forall id :: id in w'.subscribers && id !in except ==>
               id in w.subscribers && w'.subscribers[id] == w.subscribers[id] && Awaits(w', id) == Awaits(w, id)
    ensures forall id :: id in w'.subscribers && id !in except ==> Shaped(w', id, w'.subscribers[id])
  {
  }

  lemma SubscribeKeeps(w: Watcher)
    requires Inv(w) && Live(w)
    ensures Inv(Step(w, Subscribe))
  {
    hide Shaped;
    var w' := Step(w, Subscribe);
    OthersKeepPhase(w, w', {w.nextId + 1});
    FreshShaped(w', w.nextId + 1);
  }

  lemma FreshShaped(w: Watcher, id: nat)
    requires w.phase.Idle?
    ensures Shaped(w, id, Subscription([], [], w.sequence, 0, false, 0))
  {
  }

  lemma BeginKeeps(w: Watcher, w': Watcher)
    requires Inv(w) && !w.closed && !w.phase.Rescanning?
    requires w' == w.(sequence := w.sequence + 1, phase := w'.phase)
    requires !w'.phase.Idle? && w'.phase.todo == OpenIds(w) && (w'.phase.Publishing? ==> w.phase.Idle?)
    requires PhaseOk(w')
    ensures Inv(w')
  {
    hide Shaped;
    assert OpenIds(w') == OpenIds(w);
    forall id | id in w'.subscribers
      ensures Shaped(w', id, w'.subscribers[id])
    {
      NewPhase(w, w', id, w.subscribers[id]);
    }
  }

  lemma PushShaped(w: Watcher, w': Watcher, id: nat, s: Subscription, change: Change)
    requires Shaped(w, id, s) && Awaits(w, id) && |s.queue| < w.capacity && s.closes == 0
    requires w'.capacity == w.capacity && w'.sequence == w.sequence && !Awaits(w', id)
    requires change.sequence == w.sequence
    requires (w.phase.Publishing? && w'.phase.Publishing? && !change.kind.RescanRequired?)
          || (w.phase.Rescanning? && w'.phase.Rescanning? && change.kind.RescanRequired?)
    ensures Shaped(w', id, s.(queue := s.queue + [change]))
  {
    var s' := s.(queue := s.queue + [change]);
    var stream := Stream(s);
    assert Stream(s') == stream + [change];
    AppendIncreasing(stream, change, s.start);
    assert DrainedAhead(s) && change.kind.RescanRequired? ==> DrainedAhead(s');
    assert GapFree(s'.consumed, s.start) <==> GapFree(s.consumed, s.start);
    if w.phase.Publishing? {
      assert s.drained == 0 && |stream| == w.sequence - s.start - 1;
    }
  }

  lemma AppendIncreasing(stream: seq<Change>, change: Change, start: nat)
    requires RescanOnlyLast(stream) && !EndsInRescan(stream)
    requires start < change.sequence && Increasing(stream, start, change.sequence - 1)
    ensures RescanOnlyLast(stream + [change]) && Increasing(stream + [change], start, change.sequence)
    ensures GapFree(stream, start) && (change.kind.RescanRequired? || change.sequence == start + 1 + |stream|)
            ==> GapFree(stream + [change], start)
  {
  }

  lemma SendKeeps(w: Watcher, id: nat)
    requires Inv(w) && w.phase.Publishing? && id in w.phase.todo
    ensures Inv(Step(w, Send(id)))
  {
    hide Shaped;
    var w' := Step(w, Send(id));
    assert Open(w, id);
    if |w.subscribers[id].queue| < w.capacity {
      assert OpenIds(w') == OpenIds(w);
      PushShaped(w, w', id, w.subscribers[id], w.phase.change);
      OthersKeepPhase(w, w', {id});
    } else {
      assert OpenIds(w') == OpenIds(w);
      BeginKeeps(w, w');
    }
  }

  lemma EndPublishKeeps(w: Watcher)
    requires Inv(w) && w.phase.Publishing? && w.phase.todo == {}
    ensures Inv(Step(w, EndPublish))
  {
    hide Shaped;
    var w' := Step(w, EndPublish);
    assert OpenIds(w') == OpenIds(w);
    forall id | id in w'.subscribers
      ensures Shaped(w', id, w'.subscribers[id])
    {
      BackToIdle(w, w', id, w.subscribers[id]);
    }
  }

  lemma WithoutOne(stream: seq<Change>, k: nat, above: nat, upTo: int)
    requires k < |stream| && Increasing(stream, above, upTo) && RescanOnlyLast(stream) && !EndsInRescan(stream)
    ensures var rest := stream[..k] + stream[k + 1..];
      Increasing(rest, above, upTo) && RescanOnlyLast(rest) && !EndsInRescan(rest)
  {
  }

  lemma WithoutHead(s: Subscription, above: nat, upTo: int)
    requires s.queue != []
    requires Increasing(Stream(s), above, upTo) && RescanOnlyLast(Stream(s)) && !EndsInRescan(Stream(s))
    ensures var rest := Stream(s.(queue := s.queue[1..], drained := s.drained + 1));
      Increasing(rest, above, upTo) && RescanOnlyLast(rest) && !EndsInRescan(rest)
  {
    var stream, k := Stream(s), |s.consumed|;
    assert s.consumed + s.queue[1..] == stream[..k] + stream[k + 1..];
    WithoutOne(stream, k, above, upTo);
  }

  lemma DrainShaped(w: Watcher, id: nat, s: Subscription)
    requires Shaped(w, id, s) && w.phase.Rescanning? && id in w.phase.todo && s.queue != []
    ensures Shaped(w, id, s.(queue := s.queue[1..], drained := s.drained + 1))
  {
    hide Increasing, RescanOnlyLast, GapFree, DrainedAhead, EndsInRescan;
    WithoutHead(s, s.start, w.sequence - 1);
    if !s.overtaken {
      DrainedNext(s);
    }
  }

  lemma DrainedNext(s: Subscription)
    requires s.queue != []
    requires s.drained == 0 ==> GapFree(Stream(s), s.start)
    requires s.drained > 0 ==> DrainedAhead(s)
    ensures DrainedAhead(s.(queue := s.queue[1..], drained := s.drained + 1))
  {
    var k := |s.consumed|;
    forall i | 0 <= i < |s.queue| - 1 && !s.queue[1..][i].kind.RescanRequired?
      ensures s.queue[1..][i].sequence > s.start + 1 + k
    {
      assert s.queue[1..][i] == s.queue[i + 1] == Stream(s)[k + 1 + i];
    }
  }

  lemma ConsumeShaped(w: Watcher, id: nat, s: Subscription)
    requires Shaped(w, id, s) && s.queue != []
    ensures Shaped(w, id, Received(s))
  {
    var s' := Received(s);
    var k, head := |s.consumed|, s.queue[0];
    assert Stream(s') == Stream(s);
    assert head == Stream(s)[k];
    assert forall i :: 0 <= i < k ==> s'.consumed[i] == s.consumed[i] == Stream(s)[i];
    if s'.overtaken {
      if s.overtaken {
        var i :| 0 <= i < k && !s.consumed[i].kind.RescanRequired? && s.consumed[i].sequence != s.start + 1 + i;
        assert s'.consumed[i] == s.consumed[i];
      } else {
        assert s'.consumed[k] == head;
      }
    } else {
      if s.drained == 0 {
        assert GapFree(Stream(s), s.start);
      }
      assert GapFree(s'.consumed, s.start);
      if s'.drained > 0 && s'.queue != [] {
        assert head.kind.RescanRequired?;
        assert Stream(s)[k].kind.RescanRequired? && k == |Stream(s)| - 1;
      }
    }
  }

  /** One subscription is replaced by one of the same shape, nothing else moves. */
  lemma ReplaceKeeps(w: Watcher, id: nat, s: Subscription)
    requires Inv(w) && id in w.subscribers && s.closes == w.subscribers[id].closes && Shaped(w, id, s)
    requires w.phase.Rescanning? && id in w.phase.ready && id in w.phase.todo ==> s.queue == []
    ensures Inv(WithSubscription(w, id, s))
  {
    hide Shaped;
    var w' := WithSubscription(w, id, s);
    assert OpenIds(w') == OpenIds(w);
    SamePhase(w, w', id, s);
    OthersKeepPhase(w, w', {id});
  }

  lemma DrainKeeps(w: Watcher, id: nat)
    requires Inv(w) && w.phase.Rescanning? && id in w.phase.todo && id !in w.phase.ready
    requires id in w.subscribers && w.subscribers[id].queue != []
    ensures Inv(Step(w, Drain(id)))
  {
    hide Shaped;
    var s := w.subscribers[id];
    DrainShaped(w, id, s);
    ReplaceKeeps(w, id, s.(queue := s.queue[1..], drained := s.drained + 1));
  }

  lemma ConsumeKeeps(w: Watcher, id: nat)
    requires Inv(w) && id in w.subscribers && w.subscribers[id].queue != []
    ensures Inv(Step(w, Consume(id)))
  {
    hide Shaped;
    ConsumeShaped(w, id, w.subscribers[id]);
    ReplaceKeeps(w, id, Received(w.subscribers[id]));
  }

  lemma FoundEmptyKeeps(w: Watcher, id: nat)
    requires Inv(w) && w.phase.Rescanning? && id in w.phase.todo
    requires id in w.subscribers && w.subscribers[id].queue == []
    ensures Inv(Step(w, FoundEmpty(id)))
  {
    hide Shaped;
    var w' := Step(w, FoundEmpty(id));
    assert OpenIds(w') == OpenIds(w);
    OthersKeepPhase(w, w', {});
  }

  lemma SendRescanKeeps(w: Watcher, id: nat)
    requires Inv(w) && w.phase.Rescanning? && id in w.phase.todo && id in w.phase.ready
    ensures Inv(Step(w, SendRescan(id)))
  {
    hide Shaped;
    var w' := Step(w, SendRescan(id));
    assert Open(w, id);
    assert OpenIds(w') == OpenIds(w);
    PushShaped(w, w', id, w.subscribers[id], w.phase.rescan);
    OthersKeepPhase(w, w', {id});
  }

  lemma CloseShaped(w: Watcher, w': Watcher, id: nat, s: Subscription)
    requires Shaped(w, id, s) && s.closes == 0 && !Awaits(w, id)
    requires w'.phase.Idle? && w'.sequence == w.sequence && w'.capacity == w.capacity
    ensures Shaped(w', id, s.(closes := 1))
  {
  }

  /** Closing some channels, all of them when the root is rescanning, ends in a sound idle state. */
  lemma CloseKeeps(w: Watcher, ids: set<nat>, closed: bool)
    requires Inv(w) && ids <= OpenIds(w) && (w.closed ==> closed) && (closed ==> ids == OpenIds(w))
    requires w.phase.Idle? || (w.phase.Rescanning? && w.phase.todo == {} && ids == OpenIds(w))
    ensures Inv(CloseIds(w, ids).(closed := closed, phase := Idle))
  {
    hide Shaped;
    var w' := CloseIds(w, ids).(closed := closed, phase := Idle);
    forall id | id in w'.subscribers
      ensures Shaped(w', id, w'.subscribers[id])
    {
      if id in ids {
        CloseShaped(w, w', id, w.subscribers[id]);
      } else {
        BackToIdle(w, w', id, w.subscribers[id]);
      }
    }
    assert OpenIds(w') == OpenIds(w) - ids;
  }

  lemma BeginPublishKeeps(w: Watcher, a: Action)
    requires Inv(w) && Live(w) && a.BeginPublish? && !a.kind.RescanRequired?
    ensures Inv(Step(w, a))
  {
    BeginKeeps(w, Step(w, a));
  }

  lemma BeginRescanKeeps(w: Watcher)
    requires Inv(w) && Live(w)
    ensures Inv(StartRescan(w))
  {
    assert OpenIds(StartRescan(w)) == OpenIds(w);
    BeginKeeps(w, StartRescan(w));
  }

  lemma KnownId(w: Watcher, id: nat)
    requires Inv(w) && id in w.subscribers
    ensures id <= w.nextId
  {
  }

  lemma OpenMeansLive(w: Watcher, id: nat)
    requires Inv(w) && Open(w, id)
    ensures !w.closed
  {
    assert id in OpenIds(w);
  }

  lemma StepKeeps(w: Watcher, a: Action)
    requires Inv(w)
    ensures Inv(Step(w, a))
  {
    hide Shaped, Inv;
    if Step(w, a) != w {
      match a
      case Subscribe => SubscribeKeeps(w);
      case BeginPublish(_, _) => BeginPublishKeeps(w, a);
      case Send(id) => SendKeeps(w, id);
      case EndPublish => EndPublishKeeps(w);
      case BeginRescan => BeginRescanKeeps(w);
      case Drain(id) => DrainKeeps(w, id);
      case FoundEmpty(id) => FoundEmptyKeeps(w, id);
      case SendRescan(id) => SendRescanKeeps(w, id);
      case FinishRescan => CloseKeeps(w, OpenIds(w), true);
      case Consume(id) => ConsumeKeeps(w, id);
      case RemoveSubscriber(id) =>
        OpenMeansLive(w, id);
        CloseKeeps(w, {id}, w.closed || OpenIds(w) == {id});
      case CloseRoot => CloseKeeps(w, OpenIds(w), true);
    }
  }

  lemma {:induction false} EveryRunKeeps(w: Watcher, actions: seq<Action>)
    requires Inv(w)
    ensures Inv(Run(w, actions))
    decreases |actions|
  {
    if actions != [] {
      StepKeeps(w, actions[0]);
      EveryRunKeeps(Step(w, actions[0]), actions[1..]);
    }
  }

  // ---- theorems -----------------------------------------------------------

  function After(capacity: nat, actions: seq<Action>): Watcher {
    Run(Started(capacity), actions)
  }

  /** For every interleaving: a stream is increasing, holds at most one rescan, at its end,
      and its channel is closed at most once, and just once when the root is closed. While nothing
      was discarded it is gap-free, and while its channel is open and no publish is under way it
      holds every change since it subscribed. Once something was discarded the rescan is there or
      still owed. */
  lemma StreamShape(capacity: nat, actions: seq<Action>, id: nat)
    requires capacity >= 1 && id in After(capacity, actions).subscribers
    ensures var w := After(capacity, actions);
      var s := w.subscribers[id];
      && RescanOnlyLast(Stream(s)) && Increasing(Stream(s), s.start, w.sequence)
      && s.closes <= 1 && (w.closed ==> s.closes == 1) && |s.queue| <= capacity
      && (s.drained == 0 ==> GapFree(Stream(s), s.start))
      && (Open(w, id) && w.phase.Idle? ==> s.drained == 0 && |Stream(s)| == w.sequence - s.start)
      && (s.drained > 0 ==> EndsInRescan(Stream(s)) || (w.phase.Rescanning? && id in w.phase.todo))
  {
    RunCapacity(Started(capacity), actions);
    EveryRunKeeps(Started(capacity), actions);
    var w := After(capacity, actions);
    assert Shaped(w, id, w.subscribers[id]);
    assert Open(w, id) ==> id in OpenIds(w);
  }

  lemma {:induction false} RunCapacity(w: Watcher, actions: seq<Action>)
    ensures Run(w, actions).capacity == w.capacity
    decreases |actions|
  {
    if actions != [] {
      RunCapacity(Step(w, actions[0]), actions[1..]);
    }
  }

  /** A consumer sees a gap exactly when it received a change after the drain had discarded
      an older one. */
  lemma GapExactlyWhenOvertaken(capacity: nat, actions: seq<Action>, id: nat)
    requires capacity >= 1 && id in After(capacity, actions).subscribers
    ensures var s := After(capacity, actions).subscribers[id];
      GapFree(s.consumed, s.start) <==> !s.overtaken
  {
    EveryRunKeeps(Started(capacity), actions);
    var w := After(capacity, actions);
    assert Shaped(w, id, w.subscribers[id]);
  }

  /** Action `d` drains a change from the channel. */
  ghost predicate Drains(capacity: nat, actions: seq<Action>, d: nat, id: nat)
    requires d < |actions|
  {
    var w := After(capacity, actions[..d]);
    && actions[d] == Drain(id) && id in w.subscribers && w.subscribers[id].queue != []
    && w.phase.Rescanning? && id in w.phase.todo && id !in w.phase.ready
  }

  /** Action `c` has the consumer receive a change that is no rescan. */
  ghost predicate ReceivesChange(capacity: nat, actions: seq<Action>, c: nat, id: nat)
    requires c < |actions|
  {
    var w := After(capacity, actions[..c]);
    && actions[c] == Consume(id) && id in w.subscribers && w.subscribers[id].queue != []
    && !w.subscribers[id].queue[0].kind.RescanRequired?
  }

  ghost predicate Overtakes(capacity: nat, actions: seq<Action>, d: nat, c: nat, id: nat) {
    d < c < |actions| && Drains(capacity, actions, d, id) && ReceivesChange(capacity, actions, c, id)
  }

  /** The consumer received a change after the drain had taken an older one from its channel. */
  ghost predicate Overtaken(capacity: nat, actions: seq<Action>, id: nat) {
    exists d, c :: Overtakes(capacity, actions, d, c, id)
  }

  ghost predicate DrainedBy(capacity: nat, actions: seq<Action>, id: nat) {
    exists d :: 0 <= d < |actions| && Drains(capacity, actions, d, id)
  }

  /** One action moves the two history fields of a subscription as they say. */
  lemma HistoryStep(w: Watcher, a: Action, id: nat)
    requires id in w.subscribers ==> id <= w.nextId
    ensures
      var subscribers := Step(w, a).subscribers;
      && (id in w.subscribers ==> id in subscribers)
      && (id in subscribers ==> HistoryMoves(w, a, id, subscribers[id]))
  {
    hide OpenIds;
  }

  predicate HistoryMoves(w: Watcher, a: Action, id: nat, s': Subscription) {
    if id !in w.subscribers then s'.drained == 0 && !s'.overtaken
    else
      var s := w.subscribers[id];
      && (s'.drained > 0 <==> s.drained > 0 || (a == Drain(id) && DrainsIn(w, id)))
      && (s'.overtaken <==> s.overtaken || (s.drained > 0 && a == Consume(id) && ReceivesIn(w, id)))
  }

  predicate DrainsIn(w: Watcher, id: nat) {
    && id in w.subscribers && w.subscribers[id].queue != []
    && w.phase.Rescanning? && id in w.phase.todo && id !in w.phase.ready
  }

  predicate ReceivesIn(w: Watcher, id: nat) {
    id in w.subscribers && w.subscribers[id].queue != [] && !w.subscribers[id].queue[0].kind.RescanRequired?
  }

  lemma OneMoreAction(capacity: nat, before: seq<Action>, a: Action, id: nat)
    ensures forall d :: 0 <= d < |before| ==>
      (Drains(capacity, before + [a], d, id) <==> Drains(capacity, before, d, id))
      && (ReceivesChange(capacity, before + [a], d, id) <==> ReceivesChange(capacity, before, d, id))
    ensures Drains(capacity, before + [a], |before|, id) <==> a == Drain(id) && DrainsIn(After(capacity, before), id)
    ensures ReceivesChange(capacity, before + [a], |before|, id) <==>
      a == Consume(id) && ReceivesIn(After(capacity, before), id)
  {
    hide Run;
    assert forall d :: 0 <= d <= |before| ==> (before + [a])[..d] == before[..d];
    assert before[..|before|] == before;
  }

  /** The history fields read off the actions; a subscription that does not exist has none. */
  ghost predicate HistoryIs(capacity: nat, actions: seq<Action>, id: nat) {
    var w := After(capacity, actions);
    if id in w.subscribers
    then (w.subscribers[id].drained > 0 <==> DrainedBy(capacity, actions, id))
         && (w.subscribers[id].overtaken <==> Overtaken(capacity, actions, id))
    else !DrainedBy(capacity, actions, id) && !Overtaken(capacity, actions, id)
  }

  lemma {:induction false} EveryHistoryIs(capacity: nat, actions: seq<Action>, id: nat)
    requires capacity >= 1
    ensures HistoryIs(capacity, actions, id)
  {
    if actions != [] {
      var n := |actions| - 1;
      assert actions == actions[..n] + [actions[n]];
      EveryHistoryIs(capacity, actions[..n], id);
      HistoryOneMore(capacity, actions[..n], actions[n], id);
    }
  }

  lemma HistoryOneMore(capacity: nat, before: seq<Action>, a: Action, id: nat)
    requires capacity >= 1 && HistoryIs(capacity, before, id)
    ensures HistoryIs(capacity, before + [a], id)
  {
    var w := After(capacity, before);
    EveryRunKeeps(Started(capacity), before);
    RunCapacity(Started(capacity), before);
    HistoryStep(w, a, id);
    RunAppend(Started(capacity), before, a);
    OneMoreAction(capacity, before, a, id);
    DrainedOneMore(capacity, before, a, id);
    OvertakenOneMore(capacity, before, a, id);
    hide Step, Run, Inv, Overtakes, Overtaken, DrainedBy, DrainsIn, ReceivesIn;
    if id !in w.subscribers {
      assert !DrainsIn(w, id) && !ReceivesIn(w, id) by { NothingThere(w, id); }
    }
  }

  lemma NothingThere(w: Watcher, id: nat)
    requires id !in w.subscribers
    ensures !DrainsIn(w, id) && !ReceivesIn(w, id)
  {
  }

  lemma OvertakenOneMore(capacity: nat, before: seq<Action>, a: Action, id: nat)
    ensures Overtaken(capacity, before + [a], id) <==>
      || Overtaken(capacity, before, id)
      || (DrainedBy(capacity, before, id) && a == Consume(id) && ReceivesIn(After(capacity, before), id))
  {
    OneMoreAction(capacity, before, a, id);
    hide Drains, ReceivesChange, ReceivesIn, Run;
    var actions, n := before + [a], |before|;
    if Overtaken(capacity, before, id) {
      var d, c :| Overtakes(capacity, before, d, c, id);
      assert Overtakes(capacity, actions, d, c, id);
    }
    if DrainedBy(capacity, before, id) && a == Consume(id) && ReceivesIn(After(capacity, before), id) {
      var d: nat :| d < n && Drains(capacity, before, d, id);
      assert Overtakes(capacity, actions, d, n, id);
    }
    if Overtaken(capacity, actions, id) {
      var d: nat, c: nat :| Overtakes(capacity, actions, d, c, id);
      if c < n {
        assert Overtakes(capacity, before, d, c, id);
      }
    }
  }

  lemma DrainedOneMore(capacity: nat, before: seq<Action>, a: Action, id: nat)
    ensures DrainedBy(capacity, before + [a], id) <==>
      DrainedBy(capacity, before, id) || (a == Drain(id) && DrainsIn(After(capacity, before), id))
  {
    OneMoreAction(capacity, before, a, id);
    hide Drains, DrainsIn, Run;
    var actions, n := before + [a], |before|;
    if DrainedBy(capacity, before, id) {
      var d :| 0 <= d < n && Drains(capacity, before, d, id);
      assert Drains(capacity, actions, d, id);
    }
    if a == Drain(id) && DrainsIn(After(capacity, before), id) {
      assert Drains(capacity, actions, n, id);
    }
  }

  /** Over the actions alone: what a consumer received has a gap if and only if it received a change
      after the drain had taken an older one from its channel. */
  lemma GapExactlyByActions(capacity: nat, actions: seq<Action>, id: nat)
    requires capacity >= 1 && id in After(capacity, actions).subscribers
    ensures var s := After(capacity, actions).subscribers[id];
      GapFree(s.consumed, s.start) <==> !Overtaken(capacity, actions, id)
  {
    GapExactlyWhenOvertaken(capacity, actions, id);
    EveryHistoryIs(capacity, actions, id);
  }

  function OneSubscriber(s: Subscription, sequence: nat, phase: Phase): Watcher {
    Watcher(2, 1, sequence, map[1 := s], false, phase)
  }

  lemma PublishToOne(s: Subscription, sequence: nat)
    requires s.closes == 0 && |s.queue| < 2
    ensures var change := Change(sequence + 1, Added, "a", "");
      Run(OneSubscriber(s, sequence, Idle), [BeginPublish(Added, "a"), Send(1), EndPublish])
      == OneSubscriber(s.(queue := s.queue + [change]), sequence + 1, Idle)
  {
    var change := Change(sequence + 1, Added, "a", "");
    var w := OneSubscriber(s, sequence, Idle);
    assert OpenIds(w) == {1};
    var w1 := Step(w, BeginPublish(Added, "a"));
    assert w1 == OneSubscriber(s, sequence + 1, Publishing(change, {1}));
    var w2 := Step(w1, Send(1));
    assert map[1 := s][1 := s.(queue := s.queue + [change])] == map[1 := s.(queue := s.queue + [change])];
    assert {1} - {1} == {};
    assert w2 == OneSubscriber(s.(queue := s.queue + [change]), sequence + 1, Publishing(change, {}));
    assert Run(w2, [EndPublish]) == Step(w2, EndPublish);
    assert Run(w1, [Send(1), EndPublish]) == Run(w2, [EndPublish]);
  }

  lemma DrainOvertaken(first: Change, second: Change)
    requires second.sequence == 2 && !second.kind.RescanRequired?
    ensures var w := OneSubscriber(Subscription([first, second], [], 0, 0, false, 0), 2, Idle);
      var w' := Run(w, [BeginRescan, Drain(1), Consume(1)]);
      1 in w'.subscribers && w'.subscribers[1].overtaken && w'.subscribers[1].consumed == [second]
  {
    var s := Subscription([first, second], [], 0, 0, false, 0);
    var w := OneSubscriber(s, 2, Idle);
    assert OpenIds(w) == {1};
    var w1 := Step(w, BeginRescan);
    var w2 := Step(w1, Drain(1));
    assert w2.subscribers[1] == Subscription([second], [], 0, 1, false, 0);
    assert Run(w2, [Consume(1)]) == Step(w2, Consume(1));
    assert Run(w1, [Drain(1), Consume(1)]) == Run(w2, [Consume(1)]);
  }

  lemma {:induction false} RunConcat(w: Watcher, a: seq<Action>, b: seq<Action>)
    ensures Run(w, a + b) == Run(Run(w, a), b)
    decreases |a|
  {
    if a == [] {
      assert a + b == b;
    } else {
      assert (a + b)[1..] == a[1..] + b;
      RunConcat(Step(w, a[0]), a[1..], b);
    }
  }

  /** Such an interleaving exists: the drain discards change 1, the consumer gets change 2. */
  lemma GapWitness() returns (actions: seq<Action>)
    ensures var w := After(2, actions);
      1 in w.subscribers && w.subscribers[1].overtaken && !GapFree(w.subscribers[1].consumed, 0)
  {
    hide Step, Run, GapFree, OneSubscriber;
    var publish, rescan := [BeginPublish(Added, "a"), Send(1), EndPublish], [BeginRescan, Drain(1), Consume(1)];
    var one, two := [Subscribe] + publish, [Subscribe] + publish + publish;
    var empty := Subscription([], [], 0, 0, false, 0);
    var first, second := Change(1, Added, "a", ""), Change(2, Added, "a", "");
    SubscribeOnce();
    RunConcat(Started(2), [Subscribe], publish);
    PublishToOne(empty, 0);
    assert [] + [first] == [first];
    RunConcat(Started(2), one, publish);
    PublishToOne(empty.(queue := [first]), 1);
    assert [first] + [second] == [first, second];
    RunConcat(Started(2), two, rescan);
    DrainOvertaken(first, second);
    actions := two + rescan;
    GapAtFirst(second);
  }

  lemma SubscribeOnce()
    ensures Run(Started(2), [Subscribe]) == OneSubscriber(Subscription([], [], 0, 0, false, 0), 0, Idle)
  {
  }

  lemma GapAtFirst(change: Change)
    requires change.sequence == 2 && !change.kind.RescanRequired?
    ensures !GapFree([change], 0)
  {
    assert [change][0].sequence != 1;
  }

  /** The rescan goes to an open channel with room, so its send never waits, and no other
      send hits a closed channel either. */
  lemma SendsGoThrough(capacity: nat, actions: seq<Action>, id: nat)
    requires capacity >= 1
    ensures var w := After(capacity, actions);
      && (Awaits(w, id) ==> Open(w, id))
      && (w.phase.Rescanning? && id in w.phase.todo && id in w.phase.ready ==> CanSend(w, id))
  {
    RunCapacity(Started(capacity), actions);
    EveryRunKeeps(Started(capacity), actions);
  }

  lemma RescanStays(w: Watcher, a: Action, id: nat)
    requires Inv(w) && id in w.subscribers && EndsInRescan(Stream(w.subscribers[id]))
    ensures id in Step(w, a).subscribers
    ensures Stream(Step(w, a).subscribers[id]) == Stream(w.subscribers[id])
  {
    var s := w.subscribers[id];
    assert !Awaits(w, id) && id <= w.nextId by {
      assert Shaped(w, id, s);
    }
    assert w.phase.Rescanning? && id in w.phase.todo ==> Awaits(w, id);
    hide Inv, Shaped, EndsInRescan, OpenIds;
    if a.Consume? {
      if a.id == id && s.queue != [] {
        assert Stream(Received(s)) == Stream(s);
      }
    } else {
      OthersKeepStream(w, a, id);
    }
  }

  lemma OthersKeepStream(w: Watcher, a: Action, id: nat)
    requires id in w.subscribers && !Awaits(w, id) && id <= w.nextId && !a.Consume?
    ensures id in Step(w, a).subscribers
    ensures Stream(Step(w, a).subscribers[id]) == Stream(w.subscribers[id])
  {
    hide OpenIds;
  }

  /** Nothing follows a rescan: the stream that ends in one stays as it is. */
  lemma {:induction false} NothingFollowsRescan(w: Watcher, actions: seq<Action>, id: nat)
    requires Inv(w) && id in w.subscribers && EndsInRescan(Stream(w.subscribers[id]))
    ensures id in Run(w, actions).subscribers
    ensures Stream(Run(w, actions).subscribers[id]) == Stream(w.subscribers[id])
    decreases |actions|
  {
    if actions != [] {
      StepKeeps(w, actions[0]);
      RescanStays(w, actions[0], id);
      NothingFollowsRescan(Step(w, actions[0]), actions[1..], id);
    }
  }
}
