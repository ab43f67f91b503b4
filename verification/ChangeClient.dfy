/** The browser end of the change feed: gap detection, reconnection and backoff. */
module ChangeClient {
  import opened Common
  import opened Changes
  import opened Invalidation

  const RECONNECT_INITIAL_DELAY_MS := 250
  const RECONNECT_MAXIMUM_DELAY_MS := 5000
  const MAX_SAFE_INTEGER := 0x1F_FFFF_FFFF_FFFF

  /** A received frame once decoded. */
  datatype Message = ChangeMessage(change: Change) | SubscribedMessage | InvalidMessage

  /** A sequence number that JavaScript cannot represent makes the frame invalid. */
  function Decode(event: Change): Message {
    if event.kind.Unspecified? || event.sequence > MAX_SAFE_INTEGER then InvalidMessage else ChangeMessage(event)
  }

  datatype Client = Client(
    closed: bool,
    hasSocket: bool,
    nextSequence: Option<nat>,
    reconnectDelayMs: nat,
    timerPending: bool)

  const FRESH := Client(false, false, None, RECONNECT_INITIAL_DELAY_MS, false)

  function Min(a: nat, b: nat): nat {
    if a < b then a else b
  }

  predicate Unexpected(c: Client, change: Change) {
    change.sequence > 0 && c.nextSequence.Some? && change.sequence != c.nextSequence.value
  }

  datatype Reaction = Reaction(client: Client, callbacks: seq<Callback>)

  function Receive(c: Client, message: Message): Reaction {
    match message
    case SubscribedMessage => Reaction(c, [])
    case InvalidMessage => Reaction(c, [OnRescanRequired])
    case ChangeMessage(change) =>
      Reaction(if change.sequence > 0 then c.(nextSequence := Some(change.sequence + 1)) else c,
               (if change.kind.RescanRequired? || Unexpected(c, change) then [OnRescanRequired] else [])
               + [OnChange(change)])
  }

  function ScheduleReconnect(c: Client): Client {
    if c.closed || c.timerPending then c
    else c.(reconnectDelayMs := Min(c.reconnectDelayMs * 2, RECONNECT_MAXIMUM_DELAY_MS), timerPending := true)
  }

  /** A closed socket cannot prove that every event was delivered. */
  function Disconnect(c: Client): Reaction {
    if c.closed then Reaction(c, [])
    else Reaction(ScheduleReconnect(c.(hasSocket := false, nextSequence := None)), [OnRescanRequired, OnDisconnected])
  }

  function Opened(c: Client): Client {
    c.(reconnectDelayMs := RECONNECT_INITIAL_DELAY_MS, nextSequence := None)
  }

  function Pow2(n: nat): nat {
    if n == 0 then 1 else 2 * Pow2(n - 1)
  }

  /** A run of `n` failed attempts, the timer firing before each next one. */
  function Failures(c: Client, n: nat): Client {
    if n == 0 then c else Disconnect(Failures(c, n - 1).(timerPending := false)).client
  }

  /** The delay doubles with each failure up to the maximum. */
  lemma {:induction false} Backoff(c: Client, n: nat)
    requires !c.closed && c.reconnectDelayMs == RECONNECT_INITIAL_DELAY_MS
    ensures !Failures(c, n).closed
    ensures Failures(c, n).reconnectDelayMs == if 250 * Pow2(n) < 5000 then 250 * Pow2(n) else 5000
  {
    if n > 0 {
      Backoff(c, n - 1);
    }
  }

  /** Once a connection has opened, the next failures are counted from the start. */
  lemma BackoffAfterOpen(c: Client, n: nat)
    requires !c.closed
    ensures Failures(Opened(c), n).reconnectDelayMs == if 250 * Pow2(n) < 5000 then 250 * Pow2(n) else 5000
  {
    Backoff(Opened(c), n);
  }

  /** The loss of a connection is told twice, as a rescan and as a disconnect; no number is expected
      after it, and one timer runs. A closed owner hears nothing. */
  lemma DisconnectTells(c: Client)
    ensures var r := Disconnect(c);
      && r.callbacks == (if c.closed then [] else [OnRescanRequired, OnDisconnected])
      && (c.closed ==> r.client == c)
      && (!c.closed ==> r.client.timerPending && r.client.nextSequence.None? && !r.client.hasSocket)
      && (c.timerPending ==> r.client.reconnectDelayMs == c.reconnectDelayMs)
  {
  }

  /** The subscription object: socket callbacks over captured variables. A socket is known by
      the number of the attempt that made it. */
  class WorkspaceChangeSubscription {
    var socket: Option<nat>
    var closed: bool
    var nextSequence: Option<nat>
    var reconnectDelayMs: nat
    var timerPending: bool

    ghost function State(): Client
      reads this
    {
      Client(closed, socket.Some?, nextSequence, reconnectDelayMs, timerPending)
    }

    constructor ()
      ensures State() == FRESH
    {
      socket, closed, nextSequence := None, false, None;
      reconnectDelayMs, timerPending := RECONNECT_INITIAL_DELAY_MS, false;
    }

    /** `candidate` is the new socket, or `None` when its construction throws. */
    method Connect(candidate: Option<nat>) returns (callbacks: seq<Callback>)
      requires socket.None?
      modifies this
      ensures old(closed) ==> State() == old(State()) && callbacks == []
      ensures !old(closed) && candidate.Some? ==>
                State() == old(State()).(hasSocket := true, timerPending := false)
      ensures !old(closed) && candidate.Some? ==> socket == candidate && callbacks == []
      ensures !old(closed) && candidate.None? ==>
                Reaction(State(), callbacks) == Disconnect(old(State()).(timerPending := false))
    {
      callbacks := [];
      if closed { return; }
      timerPending := false;
      if candidate.None? {
        callbacks := HandleDisconnect();
        return;
      }
      socket := candidate;
    }

    method HandleDisconnect() returns (callbacks: seq<Callback>)
      requires socket.None?
      modifies this
      ensures Reaction(State(), callbacks) == Disconnect(old(State()))
      ensures callbacks == if old(closed) then [] else [OnRescanRequired, OnDisconnected]
      ensures !old(closed) ==> timerPending && nextSequence.None?
    {
      if closed { return []; }
      nextSequence := None;
      callbacks := [OnRescanRequired, OnDisconnected];
      if !timerPending {
        reconnectDelayMs := Min(reconnectDelayMs * 2, RECONNECT_MAXIMUM_DELAY_MS);
        timerPending := true;
      }
    }

    method OnOpen(candidate: nat)
      modifies this
      ensures State() == if !old(closed) && old(socket) == Some(candidate) then Opened(old(State())) else old(State())
      ensures !old(closed) && old(socket) == Some(candidate) ==> reconnectDelayMs == 250 && nextSequence.None?
    {
      if closed || socket != Some(candidate) { return; }
      reconnectDelayMs := RECONNECT_INITIAL_DELAY_MS;
      nextSequence := None;
    }

    /** Frames of a replaced socket, and frames after the owner closed, have no effect. */
    method OnMessage(candidate: nat, message: Message) returns (callbacks: seq<Callback>)
      modifies this
      ensures Reaction(State(), callbacks) ==
        if !old(closed) && old(socket) == Some(candidate)
        then Receive(old(State()), message) else Reaction(old(State()), [])
    {
      callbacks := [];
      if closed || socket != Some(candidate) || message.SubscribedMessage? { return; }
      if message.InvalidMessage? {
        callbacks := [OnRescanRequired];
        return;
      }
      var change := message.change;
      if change.kind.RescanRequired?
         || (change.sequence > 0 && nextSequence.Some? && change.sequence != nextSequence.value) {
        callbacks := [OnRescanRequired];
      }
      if change.sequence > 0 {
        nextSequence := Some(change.sequence + 1);
      }
      callbacks := callbacks + [OnChange(change)];
    }

    method OnClose(candidate: nat) returns (callbacks: seq<Callback>)
      modifies this
      ensures Reaction(State(), callbacks) ==
        if !old(closed) && old(socket) == Some(candidate) then Disconnect(old(State())) else Reaction(old(State()), [])
    {
      callbacks := [];
      if !closed && socket == Some(candidate) {
        socket := None;
        callbacks := HandleDisconnect();
      }
    }

    method Close()
      modifies this
      ensures State() == old(State()).(closed := true, hasSocket := false, timerPending := false)
    {
      closed := true;
      timerPending := false;
      socket := None;
    }
  }
}
