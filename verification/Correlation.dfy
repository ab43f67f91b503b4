/** Requests of one agent route: callers, the demultiplexer of the tunnel and the agent, at the
    grain of the route's mutex sections. */
module Correlation {
  import opened Common
  import opened Tunnel

  datatype Outcome = Reply(frame: Frame) | RemoteError(frame: Frame) | Failure

  datatype Progress = Waiting | Leaving(outcome: Outcome) | Returned(outcome: Outcome)

  /** One call of `request`. Its channel has room for one frame; `offered` lists the frames the
      demultiplexer has tried to put there. */
  datatype Caller = Caller(frame: Frame, buffer: Option<Frame>, progress: Progress, offered: seq<Frame>)

  datatype Delivery = Delivery(caller: nat, frame: Frame)

  datatype Tunnelled = Tunnelled(
    pending: map<string, nat>,
    callers: map<nat, Caller>,
    toAgent: seq<Frame>,
    received: set<Frame>,
    answered: set<(Frame, RuntimeResult, Frame)>,
    toCloud: seq<Frame>,
    delivering: Option<Delivery>)

  datatype TunnelAction =
    | Begin(id: nat, frame: Frame)
    | WriteFrame(id: nat)
    | GiveUp(id: nat)
    | TakeReply(id: nat)
    | Cleanup(id: nat)
    | AgentReads
    | AgentAnswers(request: Frame, result: RuntimeResult)
    | AgentEmits(frame: Frame)
    | DemuxLooks
    | DemuxOffers

  /** The stream ids that `request` makes up; terminals and watches use other prefixes. */
  predicate RequestStream(streamId: string) {
    |streamId| >= 4 && streamId[..4] == "req-"
  }

  function ToOutcome(frame: Frame): Outcome {
    if frame.payload.ErrorResponse? then RemoteError(frame) else Reply(frame)
  }

  ghost predicate Enabled(s: Tunnelled, a: TunnelAction) {
    match a
    case Begin(id, frame) => id !in s.callers && IsRuntimeRequest(frame) && RequestStream(frame.streamId)
    case WriteFrame(id) => id in s.callers && s.callers[id].progress.Waiting?
    case GiveUp(id) => id in s.callers && s.callers[id].progress.Waiting?
    case TakeReply(id) => id in s.callers && s.callers[id].progress.Waiting? && s.callers[id].buffer.Some?
    case Cleanup(id) => id in s.callers && s.callers[id].progress.Leaving?
    case AgentReads => s.toAgent != []
    case AgentAnswers(request, _) => request in s.received
    case AgentEmits(frame) => IsRuntimeResponse(frame) ==> !RequestStream(frame.streamId)
    case DemuxLooks => s.toCloud != [] && s.delivering.None?
    case DemuxOffers => s.delivering.Some?
  }

  /** A send that does not wait: a full channel drops the frame. */
  function Offer(c: Caller, frame: Frame): Caller {
    c.(buffer := if c.buffer.None? then Some(frame) else c.buffer, offered := c.offered + [frame])
  }

  ghost function Next(s: Tunnelled, a: TunnelAction): Tunnelled {
    match a
    case Begin(id, frame) =>
      s.(callers := s.callers[id := Caller(frame, None, Waiting, [])], pending := s.pending[frame.streamId := id])
    case WriteFrame(id) => if id in s.callers then s.(toAgent := s.toAgent + [s.callers[id].frame]) else s
    case GiveUp(id) =>
      if id in s.callers then s.(callers := s.callers[id := s.callers[id].(progress := Leaving(Failure))]) else s
    case TakeReply(id) =>
      if id in s.callers && s.callers[id].buffer.Some? then
        var c := s.callers[id];
        s.(callers := s.callers[id := c.(buffer := None, progress := Leaving(ToOutcome(c.buffer.value)))])
      else s
    case Cleanup(id) =>
      if id in s.callers && s.callers[id].progress.Leaving? then
        var c := s.callers[id];
        s.(callers := s.callers[id := c.(progress := Returned(c.progress.outcome))],
          pending := s.pending - {c.frame.streamId})
      else s
    case AgentReads =>
      if s.toAgent == [] then s
      else s.(toAgent := s.toAgent[1..],
              received := s.received + if IsRuntimeRequest(s.toAgent[0]) then {s.toAgent[0]} else {})
    case AgentAnswers(request, result) =>
      var reply := HandleRequest(request, result);
      s.(toCloud := s.toCloud + [reply], answered := s.answered + {(request, result, reply)})
    case AgentEmits(frame) => s.(toCloud := s.toCloud + [frame])
    case DemuxLooks =>
      if s.toCloud == [] then s
      else
        var frame := s.toCloud[0];
        s.(toCloud := s.toCloud[1..],
           delivering := if frame.streamId in s.pending && IsRuntimeResponse(frame)
                         then Some(Delivery(s.pending[frame.streamId], frame)) else None)
    case DemuxOffers =>
      if s.delivering.Some? && s.delivering.value.caller in s.callers then
        var to := s.delivering.value.caller;
        s.(callers := s.callers[to := Offer(s.callers[to], s.delivering.value.frame)], delivering := None)
      else s
  }

  const IDLE := Tunnelled(map[], map[], [], {}, {}, [], None)

  ghost predicate Possible(s: Tunnelled, actions: seq<TunnelAction>)
    decreases |actions|
  {
    actions != [] ==> Enabled(s, actions[0]) && Possible(Next(s, actions[0]), actions[1..])
  }

  ghost function TunnelRun(s: Tunnelled, actions: seq<TunnelAction>): Tunnelled
    decreases |actions|
  {
    if actions == [] then s else TunnelRun(Next(s, actions[0]), actions[1..])
  }

  /** No two requests of the run use one stream id. */
  ghost predicate DistinctStreams(actions: seq<TunnelAction>) {
    forall i, j :: 0 <= i < j < |actions| && actions[i].Begin? && actions[j].Begin? ==>
      actions[i].frame.streamId != actions[j].frame.streamId
  }

  // ---- what every step keeps ------------------------------------------------------

  predicate Live(c: Caller) {
    !c.progress.Returned?
  }

  /** The table holds exactly the requests that have not returned, each under its stream id. */
  ghost predicate PendingExact(s: Tunnelled) {
    && (forall k :: k in s.pending ==>
          s.pending[k] in s.callers && Live(s.callers[s.pending[k]]) && s.callers[s.pending[k]].frame.streamId == k)
    && (forall id :: id in s.callers && Live(s.callers[id]) ==>
          s.callers[id].frame.streamId in s.pending && s.pending[s.callers[id].frame.streamId] == id)
  }

  ghost predicate OneCallerPerStream(s: Tunnelled) {
    forall i, j :: i in s.callers && j in s.callers && s.callers[i].frame.streamId == s.callers[j].frame.streamId ==>
      i == j
  }

  /** The agent made this frame while handling exactly this request, of this result of its runtime. */
  ghost predicate Made(s: Tunnelled, request: Frame, result: RuntimeResult, reply: Frame) {
    && (request, result, reply) in s.answered && Fits(request, reply)
    && request.payload.Request? && Carries(request.payload.call, result, reply.payload)
  }

  ghost predicate Answers(s: Tunnelled, request: Frame, reply: Frame) {
    exists result :: Made(s, request, result, reply)
  }

  /** A runtime response under way was made for the request that uses its stream. */
  ghost predicate Traced(s: Tunnelled, frame: Frame) {
    IsRuntimeResponse(frame) && RequestStream(frame.streamId) ==>
      exists id :: id in s.callers && Answers(s, s.callers[id].frame, frame)
  }

  ghost predicate CallerSound(s: Tunnelled, c: Caller) {
    && IsRuntimeRequest(c.frame) && RequestStream(c.frame.streamId)
    && (forall f <- c.offered :: Answers(s, c.frame, f))
    && (match c.progress
        case Waiting => c.buffer == if c.offered == [] then None else Some(c.offered[0])
        case Leaving(outcome) => OutcomeSound(c, outcome)
        case Returned(outcome) => OutcomeSound(c, outcome))
  }

  /** What a request returns is the first frame that was offered to it. */
  predicate OutcomeSound(c: Caller, outcome: Outcome) {
    !outcome.Failure? ==> c.offered != [] && outcome == ToOutcome(c.offered[0])
  }

  ghost predicate FromCaller(s: Tunnelled, frame: Frame) {
    exists id :: id in s.callers && s.callers[id].frame == frame
  }

  ghost predicate Correlated(s: Tunnelled) {
    && PendingExact(s)
    && OneCallerPerStream(s)
    && (forall id :: id in s.callers ==> CallerSound(s, s.callers[id]))
    && (forall f <- s.toAgent :: FromCaller(s, f))
    && (forall f <- s.received :: FromCaller(s, f) && IsRuntimeRequest(f))
    && (forall f <- s.toCloud :: Traced(s, f))
    && (s.delivering.Some? ==>
          s.delivering.value.caller in s.callers
          && Answers(s, s.callers[s.delivering.value.caller].frame, s.delivering.value.frame))
  }

  // ---- proofs ------------------------------------------------------------------------

  /** Frames and answers known before are known after. */
  ghost predicate Extends(s: Tunnelled, s': Tunnelled) {
    && s.answered <= s'.answered
    && (forall id :: id in s.callers ==> id in s'.callers && s'.callers[id].frame == s.callers[id].frame)
  }

  lemma ExtendsKeeps(s: Tunnelled, s': Tunnelled)
    requires Extends(s, s')
    ensures forall q, m, r :: Made(s, q, m, r) ==> Made(s', q, m, r)
    ensures forall q, r :: Answers(s, q, r) ==> Answers(s', q, r)
    ensures forall f :: FromCaller(s, f) ==> FromCaller(s', f)
    ensures forall f :: Traced(s, f) ==> Traced(s', f)
    ensures forall c :: CallerSound(s, c) ==> CallerSound(s', c)
  {
  }

  lemma BeginKeeps(s: Tunnelled, id: nat, frame: Frame)
    requires Correlated(s) && Enabled(s, Begin(id, frame))
    requires forall i :: i in s.callers ==> s.callers[i].frame.streamId != frame.streamId
    ensures Correlated(Next(s, Begin(id, frame)))
  {
    hide Traced, Answers, FromCaller, PendingExact, OneCallerPerStream;
    var s' := Next(s, Begin(id, frame));
    assert Extends(s, s');
    ExtendsKeeps(s, s');
    assert CallerSound(s', s'.callers[id]);
    hide CallerSound, Extends;
    TableAfterBegin(s, id, frame);
  }

  lemma TableAfterBegin(s: Tunnelled, id: nat, frame: Frame)
    requires PendingExact(s) && OneCallerPerStream(s) && id !in s.callers
    requires forall i :: i in s.callers ==> s.callers[i].frame.streamId != frame.streamId
    ensures PendingExact(Next(s, Begin(id, frame))) && OneCallerPerStream(Next(s, Begin(id, frame)))
  {
  }

  lemma TableAfterMove(s: Tunnelled, id: nat, c: Caller)
    requires PendingExact(s) && OneCallerPerStream(s) && id in s.callers && Live(s.callers[id])
    requires c.frame == s.callers[id].frame
    ensures
      var s' := s.(callers := s.callers[id := c],
        pending := if Live(c) then s.pending else s.pending - {c.frame.streamId});
      PendingExact(s') && OneCallerPerStream(s')
  {
    var callers := s.callers[id := c];
    assert forall i :: i in callers ==> i in s.callers && callers[i].frame == s.callers[i].frame;
  }

  lemma CallersAfterMove(s: Tunnelled, s': Tunnelled, id: nat, c: Caller)
    requires forall i :: i in s.callers ==> CallerSound(s, s.callers[i])
    requires Extends(s, s') && CallerSound(s, c) && s'.callers == s.callers[id := c]
    ensures forall i :: i in s'.callers ==> CallerSound(s', s'.callers[i])
  {
    ExtendsKeeps(s, s');
    hide CallerSound;
  }

  /** One caller moves on, and leaves the table when it returns. */
  lemma CallerMoved(s: Tunnelled, id: nat, c: Caller)
    requires Correlated(s) && id in s.callers && Live(s.callers[id])
    requires c.frame == s.callers[id].frame && CallerSound(s, c)
    ensures
      var left := if Live(c) then s.pending else s.pending - {c.frame.streamId};
      Correlated(s.(callers := s.callers[id := c], pending := left))
  {
    hide Traced, Answers, FromCaller, CallerSound, PendingExact, OneCallerPerStream;
    var s' := s.(callers := s.callers[id := c],
      pending := if Live(c) then s.pending else s.pending - {c.frame.streamId});
    assert Extends(s, s');
    ExtendsKeeps(s, s');
    TableAfterMove(s, id, c);
    CallersAfterMove(s, s', id, c);
  }

  lemma CallerMoves(s: Tunnelled, a: TunnelAction)
    requires Correlated(s) && Enabled(s, a)
    requires a.GiveUp? || a.TakeReply? || a.Cleanup?
    ensures Correlated(Next(s, a))
  {
    assert CallerSound(s, s.callers[a.id]);
    MovedIsSound(s, a);
    hide Correlated, CallerSound;
    CallerMoved(s, a.id, Next(s, a).callers[a.id]);
  }

  lemma MovedIsSound(s: Tunnelled, a: TunnelAction)
    requires a.GiveUp? || a.TakeReply? || a.Cleanup?
    requires Enabled(s, a) && CallerSound(s, s.callers[a.id])
    ensures CallerSound(s, Next(s, a).callers[a.id])
  {
    hide Answers;
  }

  lemma WriteKeeps(s: Tunnelled, id: nat)
    requires Correlated(s) && Enabled(s, WriteFrame(id))
    ensures Correlated(Next(s, WriteFrame(id)))
  {
    var s' := Next(s, WriteFrame(id));
    assert Extends(s, s');
    ExtendsKeeps(s, s');
    assert FromCaller(s', s.callers[id].frame);
    hide Traced, Answers, FromCaller, CallerSound;
  }

  lemma AgentReadKeeps(s: Tunnelled)
    requires Correlated(s) && Enabled(s, AgentReads)
    ensures Correlated(Next(s, AgentReads))
  {
    var s' := Next(s, AgentReads);
    assert Extends(s, s');
    ExtendsKeeps(s, s');
    hide Traced, Answers, FromCaller, CallerSound, PendingExact;
    TableUntouched(s, s');
  }

  lemma TableUntouched(s: Tunnelled, s': Tunnelled)
    requires s'.pending == s.pending && s'.callers == s.callers
    ensures PendingExact(s) ==> PendingExact(s')
  {
  }

  lemma AgentAnswerKeeps(s: Tunnelled, request: Frame, result: RuntimeResult)
    requires Correlated(s) && Enabled(s, AgentAnswers(request, result))
    ensures Correlated(Next(s, AgentAnswers(request, result)))
  {
    var s' := Next(s, AgentAnswers(request, result));
    var reply := HandleRequest(request, result);
    assert Extends(s, s');
    ExtendsKeeps(s, s');
    AnswerFits(request, result);
    assert Made(s', request, result, reply);
    hide Made, HandleRequest, Carries, Fits;
    assert Traced(s', reply) by {
      var id :| id in s.callers && s.callers[id].frame == request;
      assert Answers(s', s'.callers[id].frame, reply);
    }
    hide Traced, Answers, FromCaller, CallerSound, PendingExact, HandleRequest;
    TableUntouched(s, s');
  }

  lemma AgentEmitKeeps(s: Tunnelled, frame: Frame)
    requires Correlated(s) && Enabled(s, AgentEmits(frame))
    ensures Correlated(Next(s, AgentEmits(frame)))
  {
    var s' := Next(s, AgentEmits(frame));
    assert Extends(s, s');
    ExtendsKeeps(s, s');
    assert Traced(s', frame);
    hide Traced, Answers, FromCaller, CallerSound, PendingExact;
    TableUntouched(s, s');
  }

  lemma AnswerFits(request: Frame, result: RuntimeResult)
    requires IsRuntimeRequest(request)
    ensures Fits(request, HandleRequest(request, result))
    ensures Carries(request.payload.call, result, HandleRequest(request, result).payload)
  {
    var valid := request.(streamId := "any");
    EveryAcceptedRequestIsAnswered(valid, result);
  }

  lemma DemuxLooksKeeps(s: Tunnelled)
    requires Correlated(s) && Enabled(s, DemuxLooks)
    ensures Correlated(Next(s, DemuxLooks))
  {
    var s' := Next(s, DemuxLooks);
    assert Extends(s, s');
    ExtendsKeeps(s, s');
    var frame := s.toCloud[0];
    if s'.delivering.Some? {
      assert Traced(s, frame);
      var to := s.pending[frame.streamId];
      assert CallerSound(s, s.callers[to]);
      var id :| id in s.callers && Answers(s, s.callers[id].frame, frame);
      assert id == to;
    }
    hide Traced, Answers, FromCaller, CallerSound;
  }

  lemma DemuxOffersKeeps(s: Tunnelled)
    requires Correlated(s) && Enabled(s, DemuxOffers)
    ensures Correlated(Next(s, DemuxOffers))
  {
    var to, frame := s.delivering.value.caller, s.delivering.value.frame;
    var c := Offer(s.callers[to], frame);
    assert CallerSound(s, c) by {
      hide Answers;
      assert CallerSound(s, s.callers[to]);
    }
    hide CallerSound, Answers, FromCaller, Traced, PendingExact, OneCallerPerStream;
    var s' := s.(callers := s.callers[to := c], delivering := None);
    assert Next(s, DemuxOffers) == s';
    assert Extends(s, s');
    ExtendsKeeps(s, s');
    SameTable(s, s', to, c);
    CallersAfterMove(s, s', to, c);
  }

  lemma SameTable(s: Tunnelled, s': Tunnelled, id: nat, c: Caller)
    requires PendingExact(s) && OneCallerPerStream(s) && id in s.callers
    requires s'.pending == s.pending && s'.callers == s.callers[id := c]
    requires c.frame == s.callers[id].frame && c.progress == s.callers[id].progress
    ensures PendingExact(s') && OneCallerPerStream(s')
  {
    assert forall i :: i in s'.callers ==> i in s.callers && s'.callers[i].frame == s.callers[i].frame;
  }

  lemma StepKeeps(s: Tunnelled, a: TunnelAction)
    requires Correlated(s) && Enabled(s, a)
    requires a.Begin? ==> forall i :: i in s.callers ==> s.callers[i].frame.streamId != a.frame.streamId
    ensures Correlated(Next(s, a))
  {
    hide Correlated, Next;
    match a
    case Begin(id, frame) => BeginKeeps(s, id, frame);
    case WriteFrame(id) => WriteKeeps(s, id);
    case GiveUp(_) => CallerMoves(s, a);
    case TakeReply(_) => CallerMoves(s, a);
    case Cleanup(_) => CallerMoves(s, a);
    case AgentReads => AgentReadKeeps(s);
    case AgentAnswers(request, result) => AgentAnswerKeeps(s, request, result);
    case AgentEmits(frame) => AgentEmitKeeps(s, frame);
    case DemuxLooks => DemuxLooksKeeps(s);
    case DemuxOffers => DemuxOffersKeeps(s);
  }

  /** The streams of the callers are those of the requests that have begun. */
  lemma StreamsOfNext(s: Tunnelled, a: TunnelAction)
    requires Enabled(s, a)
    ensures forall i :: i in Next(s, a).callers ==>
      (i in s.callers && Next(s, a).callers[i].frame == s.callers[i].frame)
      || (a.Begin? && a.id == i && Next(s, a).callers[i].frame == a.frame)
  {
  }

  ghost predicate Fresh(s: Tunnelled, actions: seq<TunnelAction>) {
    forall i, k :: i in s.callers && 0 <= k < |actions| && actions[k].Begin? ==>
      s.callers[i].frame.streamId != actions[k].frame.streamId
  }

  lemma {:induction false} RunKeeps(s: Tunnelled, actions: seq<TunnelAction>)
    requires Correlated(s) && Possible(s, actions) && DistinctStreams(actions) && Fresh(s, actions)
    ensures Correlated(TunnelRun(s, actions))
    decreases |actions|
  {
    if actions != [] {
      hide Correlated, Next, Enabled;
      var a, s' := actions[0], Next(s, actions[0]);
      assert a.Begin? ==> forall i :: i in s.callers ==> s.callers[i].frame.streamId != actions[0].frame.streamId;
      StepKeeps(s, a);
      StreamsOfNext(s, a);
      assert Fresh(s', actions[1..]);
      RunKeeps(s', actions[1..]);
    }
  }

  /** Over every run with distinct stream ids: a request returns at most the first frame that
      was offered to it, which the agent made while handling that very request and which carries
      what the runtime gave for it; and the table of waiting requests is exact. */
  lemma RequestsGetTheirOwnAnswers(actions: seq<TunnelAction>, id: nat)
    requires Possible(IDLE, actions) && DistinctStreams(actions)
    requires id in TunnelRun(IDLE, actions).callers
    ensures
      var s := TunnelRun(IDLE, actions);
      var c := s.callers[id];
      && PendingExact(s)
      && (c.progress.Returned? && !c.progress.outcome.Failure? ==>
            && c.offered != [] && c.progress.outcome.frame == c.offered[0]
            && (c.progress.outcome.Reply? <==> c.offered[0].payload.Response?)
            && Answers(s, c.frame, c.offered[0]))
      && (c.progress.Returned? && c.progress.outcome.Reply? ==>
            exists body ::
              && (c.frame, Done(body), c.offered[0]) in s.answered
              && c.progress.outcome.frame.payload == Response(c.frame.payload.call, body))
  {
    RunKeeps(IDLE, actions);
    var s := TunnelRun(IDLE, actions);
    var c := s.callers[id];
    assert CallerSound(s, c);
    if c.progress.Returned? && !c.progress.outcome.Failure? {
      assert c.offered[0] in c.offered;
      var result :| Made(s, c.frame, result, c.offered[0]);
    }
  }

  /** A waiting request can return as soon as one frame was offered to it: no first reply is lost. */
  lemma FirstReplyIsNotLost(actions: seq<TunnelAction>, id: nat)
    requires Possible(IDLE, actions) && DistinctStreams(actions)
    requires id in TunnelRun(IDLE, actions).callers && TunnelRun(IDLE, actions).callers[id].progress.Waiting?
    ensures var s := TunnelRun(IDLE, actions);
      s.callers[id].offered != [] <==> Enabled(s, TakeReply(id))
  {
    RunKeeps(IDLE, actions);
    var s := TunnelRun(IDLE, actions);
    assert CallerSound(s, s.callers[id]);
  }

  /** Looking at the next frame, and offering it if it has a caller. */
  ghost function Dispatched(s: Tunnelled): Tunnelled {
    var looked := Next(s, DemuxLooks);
    if looked.delivering.Some? then Next(looked, DemuxOffers) else looked
  }

  /** Nobody but the demultiplexer has moved: the table stands, and a caller differs at most in
      what was offered to it. */
  ghost predicate OnlyOffered(s: Tunnelled, s': Tunnelled) {
    && s'.pending == s.pending && s'.callers.Keys == s.callers.Keys
    && (forall id :: id in s.callers ==>
          s'.callers[id].progress == s.callers[id].progress && s'.callers[id].frame == s.callers[id].frame)
    && s'.toAgent == s.toAgent && s'.received == s.received && s'.answered == s.answered
  }

  /** The demultiplexer never waits for a caller: whatever the callers are doing, its own steps take
      the next frame, or the one under way, off its hands, and move nobody else. */
  lemma DemuxNeverBlocks(actions: seq<TunnelAction>)
    requires Possible(IDLE, actions) && DistinctStreams(actions)
    ensures
      var s := TunnelRun(IDLE, actions);
      && (s.delivering.Some? ==>
            var s' := Next(s, DemuxOffers);
            s'.delivering.None? && s'.toCloud == s.toCloud && OnlyOffered(s, s'))
      && (s.delivering.None? && s.toCloud != [] ==>
            && Enabled(s, DemuxLooks)
            && Dispatched(s).delivering.None? && Dispatched(s).toCloud == s.toCloud[1..]
            && OnlyOffered(s, Dispatched(s)))
  {
    RunKeeps(IDLE, actions);
    var s := TunnelRun(IDLE, actions);
    if s.delivering.None? && s.toCloud != [] {
      DemuxLooksKeeps(s);
      OfferMovesNobody(Next(s, DemuxLooks));
    }
    OfferMovesNobody(s);
  }

  lemma OfferMovesNobody(s: Tunnelled)
    requires Correlated(s)
    ensures
      var s' := Next(s, DemuxOffers);
      s.delivering.Some? ==> s'.delivering.None? && s'.toCloud == s.toCloud && OnlyOffered(s, s')
  {
  }

  // ---- stream ids that are used twice --------------------------------------------------

  /** Beginning a request keeps the table exact if and only if no request under way uses its id. */
  lemma BeginKeepsTableExactly(s: Tunnelled, id: nat, frame: Frame)
    requires PendingExact(s) && Enabled(s, Begin(id, frame))
    ensures PendingExact(Next(s, Begin(id, frame))) <==> frame.streamId !in s.pending
  {
    var s' := Next(s, Begin(id, frame));
    if frame.streamId in s.pending {
      var other := s.pending[frame.streamId];
      assert Live(s'.callers[other]) && s'.pending[s'.callers[other].frame.streamId] == id;
    }
  }

  lemma {:induction false} RunOneMore(s: Tunnelled, actions: seq<TunnelAction>, a: TunnelAction)
    requires Possible(s, actions) && Enabled(TunnelRun(s, actions), a)
    ensures Possible(s, actions + [a]) && TunnelRun(s, actions + [a]) == Next(TunnelRun(s, actions), a)
    decreases |actions|
  {
    hide Enabled, Next;
    if actions == [] {
      assert ([] + [a])[1..] == [];
    } else {
      assert (actions + [a])[1..] == actions[1..] + [a];
      RunOneMore(Next(s, actions[0]), actions[1..], a);
    }
  }

  /** With one id used for two requests, one after the other, the second returns the late answer
      to the first, whatever the two calls are. */
  lemma LateReplyWitness(first: Frame, second: Frame, body: string)
    requires IsRuntimeRequest(first) && IsRuntimeRequest(second)
    requires first.streamId == second.streamId && RequestStream(first.streamId)
    ensures
      var begun := [Begin(0, first), WriteFrame(0), AgentReads, GiveUp(0), Cleanup(0)];
      var actions := begun + [Begin(1, second)] + [AgentAnswers(first, Done(body))]
                     + [DemuxLooks] + [DemuxOffers] + [TakeReply(1)];
      && Possible(IDLE, actions)
      && 1 in TunnelRun(IDLE, actions).callers
      && TunnelRun(IDLE, actions).callers[1].progress == Leaving(Reply(HandleRequest(first, Done(body))))
  {
    EveryCallIsListed(first.payload.call);
    var stream := first.streamId;
    var begun := [Begin(0, first)] + [WriteFrame(0)] + [AgentReads] + [GiveUp(0)] + [Cleanup(0)];
    assert begun == [Begin(0, first), WriteFrame(0), AgentReads, GiveUp(0), Cleanup(0)];
    RunOneMore(IDLE, [], Begin(0, first));
    RunOneMore(IDLE, [Begin(0, first)], WriteFrame(0));
    RunOneMore(IDLE, [Begin(0, first)] + [WriteFrame(0)], AgentReads);
    RunOneMore(IDLE, [Begin(0, first)] + [WriteFrame(0)] + [AgentReads], GiveUp(0));
    RunOneMore(IDLE, [Begin(0, first)] + [WriteFrame(0)] + [AgentReads] + [GiveUp(0)], Cleanup(0));
    var left := Caller(first, None, Returned(Failure), []);
    var s0 := TunnelRun(IDLE, begun);
    assert s0 == Tunnelled(map[], map[0 := left], [], {first}, {}, [], None);
    LateReply(s0, begun, left, first, second, body);
  }

  lemma LateReply(s0: Tunnelled, begun: seq<TunnelAction>, left: Caller, first: Frame, second: Frame, body: string)
    requires Possible(IDLE, begun) && TunnelRun(IDLE, begun) == s0
    requires s0 == Tunnelled(map[], map[0 := left], [], {first}, {}, [], None)
    requires IsRuntimeRequest(first) && IsRuntimeRequest(second)
    requires first.streamId == second.streamId && RequestStream(first.streamId)
    ensures
      var actions := begun + [Begin(1, second)] + [AgentAnswers(first, Done(body))]
                     + [DemuxLooks] + [DemuxOffers] + [TakeReply(1)];
      && Possible(IDLE, actions)
      && 1 in TunnelRun(IDLE, actions).callers
      && TunnelRun(IDLE, actions).callers[1].progress == Leaving(Reply(HandleRequest(first, Done(body))))
  {
    EveryCallIsListed(first.payload.call);
    var reply := HandleRequest(first, Done(body));
    var waiting := Caller(second, None, Waiting, []);
    var s1 := Next(s0, Begin(1, second));
    assert s1 == Tunnelled(map[first.streamId := 1], map[0 := left, 1 := waiting], [], {first}, {}, [], None);
    var s2 := Next(s1, AgentAnswers(first, Done(body)));
    assert s2 == s1.(toCloud := [reply], answered := {(first, Done(body), reply)});
    var s3 := Next(s2, DemuxLooks);
    assert s3 == s2.(toCloud := [], delivering := Some(Delivery(1, reply)));
    var s4 := Next(s3, DemuxOffers);
    assert s4.callers[1] == Offer(waiting, reply);
    hide HandleRequest, TunnelRun, Possible;
    RunOneMore(IDLE, begun, Begin(1, second));
    RunOneMore(IDLE, begun + [Begin(1, second)], AgentAnswers(first, Done(body)));
    RunOneMore(IDLE, begun + [Begin(1, second)] + [AgentAnswers(first, Done(body))], DemuxLooks);
    RunOneMore(IDLE, begun + [Begin(1, second)] + [AgentAnswers(first, Done(body))] + [DemuxLooks], DemuxOffers);
    RunOneMore(IDLE, begun + [Begin(1, second)] + [AgentAnswers(first, Done(body))] + [DemuxLooks] + [DemuxOffers],
               TakeReply(1));
  }
}
