/** The cloud's end of one agent tunnel: the tables that say where a frame goes. */
module AgentRoutes {
  import opened Common
  import opened Tunnel
  import opened Correlation

  datatype Target = ToCaller | ToTerminal(relay: nat) | ToWatch(relay: nat) | Nowhere

  /** A runtime response goes to the waiting caller of its stream; anything else to the terminal
      or else the watch of its stream. */
  function TargetOf(pending: set<string>, terms: map<string, nat>, watches: map<string, nat>, frame: Frame): Target {
    if frame.streamId in pending && IsRuntimeResponse(frame) then ToCaller
    else if frame.streamId in terms then ToTerminal(terms[frame.streamId])
    else if frame.streamId in watches then ToWatch(watches[frame.streamId])
    else Nowhere
  }

  /** Streams of requests, terminals and watches have ids of their own. */
  predicate SeparateStreams(pending: set<string>, terms: set<string>, watches: set<string>) {
    pending !! terms && pending !! watches && terms !! watches
  }

  /** So each frame goes to whoever is registered under its stream; a waiting caller is given only
      responses, and a stream that nobody knows is dropped. */
  lemma EachStreamItsOwn(pending: set<string>, terms: map<string, nat>, watches: map<string, nat>, frame: Frame)
    requires SeparateStreams(pending, terms.Keys, watches.Keys)
    ensures
      var target, id := TargetOf(pending, terms, watches, frame), frame.streamId;
      && (target == ToCaller <==> id in pending && (frame.payload.ErrorResponse? || frame.payload.Response?))
      && (forall relay :: target == ToTerminal(relay) <==> id in terms && terms[id] == relay)
      && (forall relay :: target == ToWatch(relay) <==> id in watches && watches[id] == relay)
      && (id !in pending + terms.Keys + watches.Keys ==> target == Nowhere)
  {
    if frame.payload.Response? { EveryCallIsListed(frame.payload.call); }
  }

  /** What a channel holds after a frame that may have been meant for it. */
  function AfterDispatch(held: Option<Frame>, meant: bool, frame: Frame): Option<Frame> {
    if meant && held.None? then Some(frame) else held
  }

  /** A channel with room for one frame. */
  class ReplyChannel {
    var buffer: Option<Frame>

    constructor ()
      ensures buffer == None
    {
      buffer := None;
    }

    /** A send in a `select` with a default: it never waits. */
    method TrySend(frame: Frame) returns (sent: bool)
      modifies this
      ensures sent == old(buffer).None?
      ensures buffer == if sent then Some(frame) else old(buffer)
    {
      sent := buffer.None?;
      if sent { buffer := Some(frame); }
    }
  }

  class AgentRoute {
    var pending: map<string, ReplyChannel>
    var terms: map<string, nat>
    var watches: map<string, nat>

    /** Every caller waits on a channel of its own. */
    ghost predicate Valid()
      reads this
    {
      forall k, l :: k in pending && l in pending && k != l ==> pending[k] != pending[l]
    }

    constructor ()
      ensures Valid() && pending == map[] && terms == map[] && watches == map[]
    {
      pending, terms, watches := map[], map[], map[];
    }

    /** The first section of `request`. */
    method Register(streamId: string) returns (ch: ReplyChannel)
      requires Valid()
      modifies this`pending
      ensures Valid() && fresh(ch) && ch.buffer == None
      ensures pending == old(pending)[streamId := ch]
    {
      ch := new ReplyChannel();
      assert forall k :: k in pending ==> pending[k] != ch;
      pending := pending[streamId := ch];
    }

    /** The last section of `request`: it removes whatever waits under the stream id. */
    method Unregister(streamId: string)
      requires Valid()
      modifies this`pending
      ensures Valid() && pending == old(pending) - {streamId}
    {
      pending := pending - {streamId};
    }

    /** A frame changes at most one channel, only that of its own stream, and only if it is empty. */
    method Dispatch(frame: Frame) returns (target: Target)
      requires Valid()
      modifies pending.Values
      ensures Valid()
      ensures target == TargetOf(pending.Keys, terms, watches, frame)
      ensures forall k :: k in pending ==>
        pending[k].buffer == AfterDispatch(old(pending[k].buffer), k == frame.streamId && target == ToCaller, frame)
    {
      if frame.streamId in pending && IsRuntimeResponse(frame) {
        var ch := pending[frame.streamId];
        var _ := ch.TrySend(frame);
        return ToCaller;
      }
      if frame.streamId in terms {
        return ToTerminal(terms[frame.streamId]);
      }
      if frame.streamId in watches {
        return ToWatch(watches[frame.streamId]);
      }
      return Nowhere;
    }

    method AddTerminal(streamId: string, relay: nat)
      modifies this`terms
      ensures terms == old(terms)[streamId := relay]
    {
      terms := terms[streamId := relay];
    }

    method RemoveTerminal(streamId: string)
      modifies this`terms
      ensures terms == old(terms) - {streamId}
    {
      terms := terms - {streamId};
    }

    /** Every relay of the table is handed over to be closed, and none stays behind. */
    method CloseTerminals() returns (closed: seq<nat>)
      modifies this`terms
      ensures terms == map[]
      ensures forall relay :: relay in closed <==> relay in old(terms).Values
      ensures |closed| == |old(terms)|
    {
      closed := [];
      var rest := terms;
      while rest != map[]
        invariant rest.Keys <= terms.Keys
        invariant forall k :: k in rest ==> rest[k] == terms[k]
        invariant forall relay :: relay in closed <==>
          relay in terms.Values && exists k :: k in terms && k !in rest && terms[k] == relay
        invariant |closed| == |terms| - |rest|
        invariant terms == old(terms)
        decreases |rest|
      {
        var key :| key in rest;
        ghost var before := rest;
        closed := closed + [rest[key]];
        rest := rest - {key};
        assert |rest| == |before| - 1 by {
          assert rest.Keys == before.Keys - {key};
        }
      }
      terms := map[];
    }
  }

  /** In a run with distinct streams the route's choice and the caller it finds agree: a frame
      reaches a caller exactly if that caller waits under its stream and the frame is a response. */
  lemma LooksLikeTarget(s: Tunnelled, terms: map<string, nat>, watches: map<string, nat>)
    requires Correlated(s) && Enabled(s, DemuxLooks)
    ensures
      var frame, s' := s.toCloud[0], Next(s, DemuxLooks);
      && (s'.delivering.Some? <==> TargetOf(s.pending.Keys, terms, watches, frame) == ToCaller)
      && (s'.delivering.Some? <==>
            IsRuntimeResponse(frame) && exists id ::
              id in s.callers && Live(s.callers[id]) && s.callers[id].frame.streamId == frame.streamId)
  {
  }
}
