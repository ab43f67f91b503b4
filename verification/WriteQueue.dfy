/** The queue in front of the browser's terminal: one chunk at a time is given to it, and a replay
    restore throws away what is queued and resets the terminal once nothing is in flight. */
module WriteQueue {
  import opened Common

  const MAX_PENDING_BYTES := 4 * 1024 * 1024

  type Bytes = seq<bv8>

  /** What the terminal is asked to do. */
  datatype Output = Chunk(data: Bytes) | HideCursor | Reset | DropNotice

  datatype Queue = Queue(
    chunks: seq<Bytes>,
    inFlight: Option<Bytes>,
    pending: int,
    restoring: bool,
    epoch: nat,
    disposed: bool,
    output: seq<Output>)

  const EMPTY := Queue([], None, 0, false, 0, false, [])

  function ByteCount(chunks: seq<Bytes>): nat {
    if chunks == [] then 0 else |chunks[0]| + ByteCount(chunks[1..])
  }

  function InFlightBytes(q: Queue): nat {
    if q.inFlight.Some? then |q.inFlight.value| else 0
  }

  function Drain(q: Queue): Queue {
    if q.inFlight.Some? || q.restoring || q.chunks == [] then q
    else q.(chunks := q.chunks[1..], inFlight := Some(q.chunks[0]), output := q.output + [Chunk(q.chunks[0])])
  }

  function Discard(q: Queue): Queue {
    var left := q.pending - ByteCount(q.chunks);
    q.(chunks := [], pending := if left < 0 then 0 else left)
  }

  function FinishRestore(q: Queue): Queue {
    if q.disposed || !q.restoring || q.inFlight.Some? then q
    else q.(restoring := false, output := q.output + [Reset])
  }

  function BeginRestore(q: Queue): Queue {
    if q.disposed then q else Drain(FinishRestore(Discard(q.(epoch := q.epoch + 1)).(restoring := true)))
  }

  predicate Fits(q: Queue, data: Bytes) {
    q.pending + |data| <= MAX_PENDING_BYTES
  }

  function Write(q: Queue, data: Bytes): Queue {
    if Fits(q, data) then Drain(q.(chunks := q.chunks + [data], pending := q.pending + |data|))
    else q.(output := q.output + [DropNotice])
  }

  /** The terminal has taken the chunk in flight. */
  function Written(q: Queue, readOnly: bool): Queue
    requires q.inFlight.Some?
  {
    var landed := FinishRestore(q.(pending := q.pending - |q.inFlight.value|, inFlight := None));
    Drain(if landed.chunks == [] && readOnly then landed.(output := landed.output + [HideCursor]) else landed)
  }

  function Dispose(q: Queue): Queue {
    q.(disposed := true)
  }

  // ---- runs -------------------------------------------------------------------------

  datatype Event = Writes(data: Bytes) | Restores | TerminalTakes(readOnly: bool) | Disposes

  /** The queue, and the chunks it has accepted since the latest restore began. */
  datatype Trace = Trace(queue: Queue, accepted: seq<Bytes>)

  function Next(t: Trace, e: Event): Trace {
    match e
    case Writes(data) => Trace(Write(t.queue, data), if Fits(t.queue, data) then t.accepted + [data] else t.accepted)
    case Restores => Trace(BeginRestore(t.queue), if t.queue.disposed then t.accepted else [])
    case TerminalTakes(readOnly) => if t.queue.inFlight.Some? then t.(queue := Written(t.queue, readOnly)) else t
    case Disposes => t.(queue := Dispose(t.queue))
  }

  function Run(t: Trace, events: seq<Event>): Trace
    decreases |events|
  {
    if events == [] then t else Run(Next(t, events[0]), events[1..])
  }

  function ShowNext(shown: seq<Bytes>, o: Output): seq<Bytes> {
    match o
    case Reset => []
    case Chunk(data) => shown + [data]
    case _ => shown
  }

  /** The chunks given to the terminal since its last reset. */
  function Shown(output: seq<Output>): seq<Bytes> {
    if output == [] then [] else ShowNext(Shown(output[..|output| - 1]), output[|output| - 1])
  }

  ghost predicate Inv(t: Trace) {
    var q := t.queue;
    && q.pending == InFlightBytes(q) + ByteCount(q.chunks)
    && q.pending <= MAX_PENDING_BYTES
    && (q.inFlight.None? && q.chunks != [] ==> q.restoring)
    && (q.inFlight.None? && q.restoring ==> q.disposed)
    && if q.restoring then q.chunks == t.accepted else Shown(q.output) + q.chunks == t.accepted
  }

  lemma {:induction false} ByteCountAppend(a: seq<Bytes>, b: seq<Bytes>)
    ensures ByteCount(a + b) == ByteCount(a) + ByteCount(b)
  {
    if a == [] {
      assert a + b == b;
    } else {
      assert (a + b)[1..] == a[1..] + b;
      ByteCountAppend(a[1..], b);
    }
  }

  lemma ShownAfter(output: seq<Output>, o: Output)
    ensures Shown(output + [o]) == ShowNext(Shown(output), o)
  {
  }

  /** All of the invariant but that an idle queue is empty. */
  ghost predicate Ledger(t: Trace) {
    var q := t.queue;
    && q.pending == InFlightBytes(q) + ByteCount(q.chunks)
    && q.pending <= MAX_PENDING_BYTES
    && (q.inFlight.None? && q.restoring ==> q.disposed)
    && if q.restoring then q.chunks == t.accepted else Shown(q.output) + q.chunks == t.accepted
  }

  lemma DrainKeeps(t: Trace)
    requires Ledger(t)
    ensures Inv(t.(queue := Drain(t.queue)))
  {
    var q := t.queue;
    if q.inFlight.None? && !q.restoring && q.chunks != [] {
      ShownAfter(q.output, Chunk(q.chunks[0]));
      assert q.chunks == [q.chunks[0]] + q.chunks[1..];
      assert Shown(q.output) + [q.chunks[0]] + q.chunks[1..] == Shown(q.output) + q.chunks;
    }
  }

  lemma FinishKeeps(q: Queue, accepted: seq<Bytes>)
    requires q.pending == InFlightBytes(q) + ByteCount(q.chunks) && q.pending <= MAX_PENDING_BYTES
    requires if q.restoring then q.chunks == accepted else Shown(q.output) + q.chunks == accepted
    ensures Ledger(Trace(FinishRestore(q), accepted))
  {
  }

  lemma WriteKeeps(t: Trace, data: Bytes)
    requires Inv(t)
    ensures Inv(Next(t, Writes(data)))
  {
    var q := t.queue;
    if Fits(q, data) {
      ByteCountAppend(q.chunks, [data]);
      assert [data][1..] == [];
      assert Shown(q.output) + (q.chunks + [data]) == (Shown(q.output) + q.chunks) + [data];
      hide Drain, Shown;
      var t' := Trace(q.(chunks := q.chunks + [data], pending := q.pending + |data|), t.accepted + [data]);
      assert Ledger(t');
      DrainKeeps(t');
    } else {
      ShownAfter(q.output, DropNotice);
    }
  }

  lemma RestoreKeeps(t: Trace)
    requires Inv(t)
    ensures Inv(Next(t, Restores))
  {
  }

  lemma TakeKeeps(t: Trace, readOnly: bool)
    requires Inv(t) && t.queue.inFlight.Some?
    ensures Inv(Next(t, TerminalTakes(readOnly)))
  {
    hide Drain, FinishRestore, Shown, ByteCount;
    var q := t.queue;
    var taken := q.(pending := q.pending - |q.inFlight.value|, inFlight := None);
    FinishKeeps(taken, t.accepted);
    var landed := FinishRestore(taken);
    ShownAfter(landed.output, HideCursor);
    var hidden := if landed.chunks == [] && readOnly then landed.(output := landed.output + [HideCursor]) else landed;
    assert Ledger(t.(queue := hidden));
    DrainKeeps(t.(queue := hidden));
  }

  lemma StepKeeps(t: Trace, e: Event)
    requires Inv(t)
    ensures Inv(Next(t, e))
  {
    hide Written, Write, BeginRestore;
    match e
    case Writes(data) => WriteKeeps(t, data);
    case Restores => RestoreKeeps(t);
    case TerminalTakes(readOnly) => if t.queue.inFlight.Some? { TakeKeeps(t, readOnly); }
    case Disposes =>
  }

  lemma {:induction false} RunKeeps(t: Trace, events: seq<Event>)
    requires Inv(t)
    ensures Inv(Run(t, events))
    decreases |events|
  {
    if events != [] {
      hide Inv, Next;
      StepKeeps(t, events[0]);
      RunKeeps(Next(t, events[0]), events[1..]);
    }
  }

  const START := Trace(EMPTY, [])

  /** After any events the byte count is exact and within its limit, and the terminal shows a
      prefix of what was accepted since the latest restore, with all the rest still queued. */
  lemma EveryRunIsOrderly(events: seq<Event>)
    ensures
      var t := Run(START, events);
      && t.queue.pending == InFlightBytes(t.queue) + ByteCount(t.queue.chunks) <= MAX_PENDING_BYTES
      && (!t.queue.restoring ==> Shown(t.queue.output) + t.queue.chunks == t.accepted)
      && (t.queue.restoring ==> t.queue.chunks == t.accepted)
  {
    RunKeeps(START, events);
  }

  /** A chunk is accepted if and only if, with all that waits or is in flight, it makes no more than
      4 MiB; otherwise only a notice is shown for it. */
  lemma AcceptedExactly(events: seq<Event>, data: Bytes)
    ensures
      var t, t' := Run(START, events), Next(Run(START, events), Writes(data));
      if InFlightBytes(t.queue) + ByteCount(t.queue.chunks) + |data| <= 4 * 1024 * 1024
      then t'.accepted == t.accepted + [data]
      else t' == t.(queue := t.queue.(output := t.queue.output + [DropNotice]))
  {
    RunKeeps(START, events);
    hide Run;
  }

  /** What one event makes the terminal show: the chunk that begins, when nothing is in flight and no
      restore is waiting; the notice of a dropped chunk; the reset of a restore, at once or when the
      chunk in flight has landed; and the hidden cursor of a read-only terminal that has caught up. */
  function Shows(t: Trace, e: Event): seq<Output> {
    var q := t.queue;
    match e
    case Writes(data) =>
      if q.pending + |data| > 4 * 1024 * 1024 then [DropNotice]
      else if q.inFlight.None? && !q.restoring then [Chunk(data)] else []
    case Restores => if q.inFlight.None? && !q.disposed then [Reset] else []
    case TerminalTakes(readOnly) =>
      if q.inFlight.None? then []
      else (if q.restoring && !q.disposed then [Reset] else [])
           + (if q.chunks == [] && readOnly then [HideCursor] else [])
           + (if q.chunks != [] && !(q.restoring && q.disposed) then [Chunk(q.chunks[0])] else [])
    case Disposes => []
  }

  lemma OutputExactly(t: Trace, e: Event)
    requires Inv(t)
    ensures Next(t, e).queue.output == t.queue.output + Shows(t, e)
    ensures Next(t, e).queue.epoch == t.queue.epoch + if e.Restores? && !t.queue.disposed then 1 else 0
  {
    hide Shown, ByteCount;
  }

  /** So a discard takes away just the queued bytes: the guard against a negative count is dead. */
  lemma DiscardLeavesInFlight(events: seq<Event>)
    ensures var q := Run(START, events).queue; Discard(q).pending == InFlightBytes(q)
  {
    RunKeeps(START, events);
  }

  // ---- chunks that wait for nothing ---------------------------------------------------

  function At(events: seq<Event>, n: nat): Trace
    requires n <= |events|
  {
    Run(START, events[..n])
  }

  ghost predicate DisposedBefore(events: seq<Event>, n: nat)
    requires n <= |events|
  {
    Disposes in events[..n]
  }

  /** A chunk is accepted by event `m`. */
  ghost predicate AcceptedBy(events: seq<Event>, m: nat)
    requires m < |events|
  {
    events[m].Writes? && Fits(At(events, m).queue, events[m].data)
  }

  /** Event `k` begins a restore that has to wait for the chunk in flight, and until the dispose, if
      there is one, neither that chunk completes nor another restore begins. */
  ghost predicate RestoreWaits(events: seq<Event>, k: nat)
    requires k < |events|
  {
    && events[k] == Restores && At(events, k).queue.inFlight.Some? && !DisposedBefore(events, k)
    && forall j | k < j < |events| && !DisposedBefore(events, j) :: !events[j].Restores? && !events[j].TerminalTakes?
  }

  /** Event `i` is the first dispose, and it falls into the wait of the restore begun by `k`. */
  ghost predicate CutShort(events: seq<Event>, k: nat, i: nat)
    requires k < |events| && i < |events|
  {
    && k < i && events[k] == Restores && At(events, k).queue.inFlight.Some?
    && events[i] == Disposes && !DisposedBefore(events, i)
    && forall j | k < j < i :: !events[j].Restores? && !events[j].TerminalTakes?
  }

  lemma {:induction false} RunOneMore(t: Trace, events: seq<Event>, e: Event)
    ensures Run(t, events + [e]) == Next(Run(t, events), e)
    decreases |events|
  {
    hide Next;
    if events == [] {
      assert ([] + [e])[1..] == [];
    } else {
      assert (events + [e])[1..] == events[1..] + [e];
      RunOneMore(Next(t, events[0]), events[1..], e);
    }
  }

  /** The flags of the queue, and what it has accepted, read off the events. */
  ghost predicate Explained(events: seq<Event>) {
    var t := Run(START, events);
    && (t.queue.disposed <==> Disposes in events)
    && (t.queue.restoring <==> exists k :: 0 <= k < |events| && RestoreWaits(events, k))
    && (forall k | 0 <= k < |events| && RestoreWaits(events, k) ::
          t.accepted != [] <==> exists m :: k < m < |events| && AcceptedBy(events, m))
  }

  lemma PrefixesAgree(before: seq<Event>, e: Event)
    ensures forall n :: 0 <= n <= |before| ==> (before + [e])[..n] == before[..n]
    ensures forall n :: 0 <= n <= |before| ==> At(before + [e], n) == At(before, n)
    ensures forall n :: 0 <= n <= |before| ==> (DisposedBefore(before + [e], n) <==> DisposedBefore(before, n))
    ensures forall m :: 0 <= m < |before| ==> (AcceptedBy(before + [e], m) <==> AcceptedBy(before, m))
  {
    assert forall n :: 0 <= n <= |before| ==> (before + [e])[..n] == before[..n];
  }

  /** How the wait of a restore goes on with one more event. */
  lemma WaitsAfter(before: seq<Event>, e: Event, k: nat)
    requires k < |before|
    ensures RestoreWaits(before + [e], k) <==>
      RestoreWaits(before, k) && (Disposes in before || (!e.Restores? && !e.TerminalTakes?))
  {
    hide At;
    PrefixesAgree(before, e);
    var n := |before|;
    assert before[..n] == before;
    assert (before + [e])[n] == e;
    assert forall j :: 0 <= j < n ==> (before + [e])[j] == before[j];
    if RestoreWaits(before, k) && (Disposes in before || (!e.Restores? && !e.TerminalTakes?)) {
      forall j | k < j < n + 1 && !DisposedBefore(before + [e], j)
        ensures !(before + [e])[j].Restores? && !(before + [e])[j].TerminalTakes?
      {
        assert j < n ==> !DisposedBefore(before, j);
      }
    }
    if RestoreWaits(before + [e], k) {
      forall j | k < j < n && !DisposedBefore(before, j)
        ensures !before[j].Restores? && !before[j].TerminalTakes?
      {
        assert !DisposedBefore(before + [e], j);
      }
      assert !DisposedBefore(before + [e], n) ==> !(before + [e])[n].Restores? && !(before + [e])[n].TerminalTakes?;
    }
  }

  lemma WaitsNow(before: seq<Event>, e: Event)
    ensures RestoreWaits(before + [e], |before|) <==>
      e == Restores && Run(START, before).queue.inFlight.Some? && Disposes !in before
  {
    PrefixesAgree(before, e);
    assert before[..|before|] == before;
  }

  /** One step of the queue in these terms. */
  lemma StepOfFlags(t: Trace, e: Event)
    requires Inv(t)
    ensures
      var q, q' := t.queue, Next(t, e).queue;
      && (q'.disposed <==> q.disposed || e == Disposes)
      && (q'.restoring <==>
            if e == Restores && !q.disposed then q.inFlight.Some?
            else q.restoring && (q.disposed || !(e.TerminalTakes? && q.inFlight.Some?)))
      && (q.restoring && !q.disposed ==> q.inFlight.Some?)
      && Next(t, e).accepted ==
           if e.Writes? && Fits(q, e.data) then t.accepted + [e.data]
           else if e == Restores && !q.disposed then [] else t.accepted
  {
  }

  lemma {:induction false} EveryRunIsExplained(events: seq<Event>)
    ensures Explained(events)
  {
    if events != [] {
      var n := |events| - 1;
      var before, e := events[..n], events[n];
      assert events == before + [e];
      EveryRunIsExplained(before);
      ExplainOneMore(before, e);
    }
  }

  lemma ExplainOneMore(before: seq<Event>, e: Event)
    requires Explained(before)
    ensures Explained(before + [e])
  {
    var events, n := before + [e], |before|;
    var t := Run(START, before);
    RunKeeps(START, before);
    StepOfFlags(t, e);
    hide Next, RestoreWaits, AcceptedBy, Run, Inv;
    RunOneMore(START, before, e);
    PrefixesAgree(before, e);
    WaitsNow(before, e);
    forall k | 0 <= k < n
      ensures RestoreWaits(events, k) <==>
        RestoreWaits(before, k) && (Disposes in before || (!e.Restores? && !e.TerminalTakes?))
    {
      WaitsAfter(before, e, k);
    }
    AcceptedNow(before, e);
    Concluded(before, e);
  }

  /** The three parts, from what the step and the events say. */
  lemma Concluded(before: seq<Event>, e: Event)
    requires Explained(before)
    requires
      var events, n, t, t' := before + [e], |before|, Run(START, before), Run(START, before + [e]);
      && (t'.queue.disposed <==> t.queue.disposed || e == Disposes)
      && (t'.queue.restoring <==>
            if e == Restores && !t.queue.disposed then t.queue.inFlight.Some?
            else t.queue.restoring && (t.queue.disposed || !(e.TerminalTakes? && t.queue.inFlight.Some?)))
      && (t.queue.restoring && !t.queue.disposed ==> t.queue.inFlight.Some?)
      && t'.accepted == (if e.Writes? && Fits(t.queue, e.data) then t.accepted + [e.data]
                         else if e == Restores && !t.queue.disposed then [] else t.accepted)
      && (forall m :: 0 <= m < n ==> (AcceptedBy(events, m) <==> AcceptedBy(before, m)))
      && (AcceptedBy(events, n) <==> e.Writes? && Fits(t.queue, e.data))
      && (RestoreWaits(events, n) <==> e == Restores && t.queue.inFlight.Some? && Disposes !in before)
      && (forall k :: 0 <= k < n ==>
            (RestoreWaits(events, k) <==>
              RestoreWaits(before, k) && (Disposes in before || (!e.Restores? && !e.TerminalTakes?))))
    ensures Explained(before + [e])
  {
    hide Next, RestoreWaits, AcceptedBy, Run, Fits;
    var events, n := before + [e], |before|;
    var t, t' := Run(START, before), Run(START, events);
    assert t'.queue.restoring <==> exists k :: 0 <= k < |events| && RestoreWaits(events, k) by {
      if e == Restores && !t.queue.disposed {
        assert t'.queue.restoring <==> RestoreWaits(events, n);
      }
    }
    forall k | 0 <= k < |events| && RestoreWaits(events, k)
      ensures t'.accepted != [] <==> exists m :: k < m < |events| && AcceptedBy(events, m)
    {
      if k < n {
        if t.accepted != [] {
          var m :| k < m < n && AcceptedBy(before, m);
          assert AcceptedBy(events, m);
        }
      }
    }
  }

  lemma AcceptedNow(before: seq<Event>, e: Event)
    ensures AcceptedBy(before + [e], |before|) <==> e.Writes? && Fits(Run(START, before).queue, e.data)
  {
    PrefixesAgree(before, e);
    assert before[..|before|] == before;
  }

  lemma FirstDispose(events: seq<Event>) returns (i: nat)
    requires Disposes in events
    ensures i < |events| && events[i] == Disposes && !DisposedBefore(events, i)
  {
    i := 0;
    while events[i] != Disposes
      invariant i < |events| && Disposes !in events[..i]
      decreases |events| - i
    {
      assert events == events[..i + 1] + events[i + 1..];
      assert events[..i + 1] == events[..i] + [events[i]];
      i := i + 1;
    }
  }

  lemma CutShortMeans(events: seq<Event>, k: nat, i: nat)
    requires k < |events| && i < |events| && events[i] == Disposes && !DisposedBefore(events, i)
    ensures CutShort(events, k, i) <==> RestoreWaits(events, k)
  {
    hide At;
    assert forall j :: 0 <= j <= i ==> !DisposedBefore(events, j) by {
      forall j | 0 <= j <= i
        ensures !DisposedBefore(events, j)
      {
        assert forall e :: e in events[..j] ==> e in events[..i];
      }
    }
    assert forall j :: i < j < |events| ==> DisposedBefore(events, j) by {
      forall j | i < j < |events|
        ensures DisposedBefore(events, j)
      {
        assert events[..j][i] == Disposes;
      }
    }
  }

  /** With nothing in flight, chunks wait only behind a restore, and the terminal was disposed. */
  lemma IdleQueueIsEmpty(events: seq<Event>)
    requires Run(START, events).queue.inFlight.None?
    ensures
      var t := Run(START, events);
      && (t.queue.chunks != [] <==> t.queue.restoring && t.accepted != [])
      && (t.queue.restoring ==> t.queue.disposed)
  {
    RunKeeps(START, events);
  }

  /** The dispose `i` fell into the wait of the restore `k`, after which `m` was accepted. */
  ghost predicate LeftBehind(events: seq<Event>, k: nat, i: nat, m: nat) {
    k < m < |events| && i < |events| && CutShort(events, k, i) && AcceptedBy(events, m)
  }

  /** With nothing in flight the queue holds chunks if and only if the first dispose fell into the
      wait of a restore for the chunk in flight, and a chunk was accepted after that restore. */
  lemma IdleQueueIsEmptyExactly(events: seq<Event>)
    requires Run(START, events).queue.inFlight.None?
    ensures Run(START, events).queue.chunks != [] <==> exists k, i, m :: LeftBehind(events, k, i, m)
  {
    IdleQueueIsEmpty(events);
    EveryRunIsExplained(events);
    hide Inv, Run, CutShort, RestoreWaits, AcceptedBy, DisposedBefore;
    var t := Run(START, events);
    if t.queue.chunks != [] {
      var k: nat :| k < |events| && RestoreWaits(events, k);
      var i := FirstDispose(events);
      CutShortMeans(events, k, i);
      var m: nat :| k < m < |events| && AcceptedBy(events, m);
      assert LeftBehind(events, k, i, m);
    }
    if k, i, m :| LeftBehind(events, k, i, m) {
      CutShortHasDispose(events, k, i);
      CutShortMeans(events, k, i);
    }
  }

  lemma CutShortHasDispose(events: seq<Event>, k: nat, i: nat)
    requires k < |events| && i < |events| && CutShort(events, k, i)
    ensures events[i] == Disposes && !DisposedBefore(events, i)
  {
  }

  /** Such chunks are queued for good: whatever happens next, they stay at the head of the queue,
      later ones line up behind them, and nothing more is shown. */
  lemma {:induction false} StuckForGood(t: Trace, later: seq<Event>)
    requires Inv(t) && t.queue.inFlight.None? && t.queue.restoring
    ensures
      var t' := Run(t, later);
      && t'.queue.inFlight.None? && t'.queue.restoring
      && t.queue.chunks <= t'.queue.chunks && Shown(t'.queue.output) == Shown(t.queue.output)
    decreases |later|
  {
    if later != [] {
      StuckStep(t, later[0]);
      hide Inv, Next, Shown;
      StuckForGood(Next(t, later[0]), later[1..]);
    }
  }

  lemma StuckStep(t: Trace, e: Event)
    requires Inv(t) && t.queue.inFlight.None? && t.queue.restoring
    ensures
      var t' := Next(t, e);
      && Inv(t') && t'.queue.inFlight.None? && t'.queue.restoring
      && t.queue.chunks <= t'.queue.chunks && Shown(t'.queue.output) == Shown(t.queue.output)
  {
    StepKeeps(t, e);
    ShownAfter(t.queue.output, DropNotice);
    hide Shown, ByteCount;
  }

  /** From any events on: chunks that wait with nothing in flight are never given to the terminal. */
  lemma IdleChunksAreNeverShown(events: seq<Event>, later: seq<Event>)
    requires Run(START, events).queue.inFlight.None? && Run(START, events).queue.chunks != []
    ensures
      var q, q' := Run(START, events).queue, Run(START, events + later).queue;
      q'.inFlight.None? && q.chunks <= q'.chunks && Shown(q'.output) == Shown(q.output)
  {
    RunKeeps(START, events);
    StuckForGood(Run(START, events), later);
    RunConcat(START, events, later);
  }

  lemma {:induction false} RunConcat(t: Trace, a: seq<Event>, b: seq<Event>)
    ensures Run(t, a + b) == Run(Run(t, a), b)
    decreases |a|
  {
    hide Next;
    if a == [] {
      assert a + b == b;
    } else {
      assert (a + b)[1..] == a[1..] + b;
      RunConcat(Next(t, a[0]), a[1..], b);
    }
  }

  /** That case exists: a dispose between a restore and the end of the chunk in flight. */
  lemma StuckWitness(a: Bytes, b: Bytes, later: seq<Event>)
    requires |a| + |b| <= MAX_PENDING_BYTES
    ensures
      var events := [Writes(a), Restores, Writes(b), Disposes, TerminalTakes(false)];
      && Run(START, events).queue.inFlight.None? && Run(START, events).queue.chunks == [b]
      && [b] <= Run(START, events + later).queue.chunks
  {
    var t1 := Next(START, Writes(a));
    assert t1.queue.inFlight == Some(a) && t1.queue.chunks == [] && t1.queue.pending == |a|;
    var t2 := Next(t1, Restores);
    assert t2.queue.restoring && t2.queue.inFlight == Some(a) && t2.queue.chunks == [] && t2.queue.pending == |a|;
    var t3 := Next(t2, Writes(b));
    assert t3.queue.chunks == [b] && t3.queue.restoring && t3.queue.inFlight == Some(a);
    var t4 := Next(t3, Disposes);
    var t5 := Next(t4, TerminalTakes(false));
    assert t5.queue.chunks == [b] && t5.queue.inFlight.None?;
    hide Next;
    RunsOn(START, Writes(a), [Restores, Writes(b), Disposes, TerminalTakes(false)]);
    RunsOn(t1, Restores, [Writes(b), Disposes, TerminalTakes(false)]);
    RunsOn(t2, Writes(b), [Disposes, TerminalTakes(false)]);
    RunsOn(t3, Disposes, [TerminalTakes(false)]);
    RunsOn(t4, TerminalTakes(false), []);
    IdleChunksAreNeverShown([Writes(a), Restores, Writes(b), Disposes, TerminalTakes(false)], later);
  }

  lemma RunsOn(t: Trace, e: Event, rest: seq<Event>)
    ensures Run(t, [e] + rest) == Run(Next(t, e), rest)
  {
  }

  // ---- everything accepted is shown -----------------------------------------------------

  function Outstanding(q: Queue): nat {
    |q.chunks| + if q.inFlight.Some? then 1 else 0
  }

  function Takes(n: nat, readOnly: bool): seq<Event> {
    seq(n, i => TerminalTakes(readOnly))
  }

  /** As many completions as there are chunks outstanding bring everything accepted to the
      terminal, in order, unless the terminal was disposed during a restore. */
  lemma {:induction false} EverythingIsShown(t: Trace, readOnly: bool)
    requires Inv(t) && !(t.queue.restoring && t.queue.disposed)
    ensures
      var t' := Run(t, Takes(Outstanding(t.queue), readOnly));
      t'.queue.chunks == [] && t'.queue.inFlight.None? && t'.queue.pending == 0 && Shown(t'.queue.output) == t.accepted
    decreases Outstanding(t.queue)
  {
    var n := Outstanding(t.queue);
    if n == 0 {
      assert Shown(t.queue.output) + [] == Shown(t.queue.output);
    } else {
      TakeOne(t, readOnly);
      hide Next, Inv, Outstanding;
      RunsOn(t, TerminalTakes(readOnly), Takes(n - 1, readOnly));
      assert Takes(n, readOnly) == [TerminalTakes(readOnly)] + Takes(n - 1, readOnly);
      EverythingIsShown(Next(t, TerminalTakes(readOnly)), readOnly);
    }
  }

  lemma TakeOne(t: Trace, readOnly: bool)
    requires Inv(t) && !(t.queue.restoring && t.queue.disposed) && Outstanding(t.queue) > 0
    ensures
      var t' := Next(t, TerminalTakes(readOnly));
      Inv(t') && !(t'.queue.restoring && t'.queue.disposed) && t'.accepted == t.accepted
      && Outstanding(t'.queue) == Outstanding(t.queue) - 1
  {
    StepKeeps(t, TerminalTakes(readOnly));
    hide Shown, ByteCount;
  }

  // ---- the browser's code -------------------------------------------------------------------

  class TerminalWriter {
    var writeQueue: seq<Bytes>
    var writing: bool
    var writingBytes: nat
    var pending: int
    var replayRestorePending: bool
    var replayEpoch: nat
    var disposed: bool
    const readOnly: bool
    /** The terminal: what it was told, and the chunk whose callback is still to come. */
    var output: seq<Output>
    var callback: Option<Bytes>

    ghost predicate Valid()
      reads this
    {
      && (writing <==> callback.Some?)
      && writingBytes == (if callback.Some? then |callback.value| else 0)
    }

    ghost function View(): Queue
      reads this
    {
      Queue(writeQueue, callback, pending, replayRestorePending, replayEpoch, disposed, output)
    }

    constructor (readOnly: bool)
      ensures Valid() && View() == EMPTY && this.readOnly == readOnly
    {
      this.readOnly := readOnly;
      writeQueue, output := [], [];
      writing, replayRestorePending, disposed := false, false, false;
      writingBytes, pending, replayEpoch := 0, 0, 0;
      callback := None;
    }

    method DrainWrites()
      requires Valid()
      modifies this
      ensures Valid() && View() == Drain(old(View()))
    {
      if writing || replayRestorePending { return; }
      if writeQueue == [] { return; }
      var next := writeQueue[0];
      writeQueue := writeQueue[1..];
      writing, writingBytes := true, |next|;
      output, callback := output + [Chunk(next)], Some(next);
    }

    /** The callback of `terminal.write`. */
    method OnWritten()
      requires Valid() && callback.Some?
      modifies this
      ensures Valid() && View() == Written(old(View()), readOnly)
    {
      pending := pending - |callback.value|;
      writing, writingBytes, callback := false, 0, None;
      FinishReplayRestore();
      if writeQueue == [] && readOnly {
        output := output + [HideCursor];
      }
      DrainWrites();
    }

    method DiscardQueuedWrites()
      requires Valid()
      modifies this`writeQueue, this`pending
      ensures Valid() && View() == Discard(old(View()))
    {
      var discardedBytes := 0;
      ghost var chunks := writeQueue;
      for i := 0 to |writeQueue|
        invariant discardedBytes + ByteCount(chunks[i..]) == ByteCount(chunks)
      {
        assert chunks[i..][1..] == chunks[i + 1..];
        discardedBytes := discardedBytes + |writeQueue[i]|;
      }
      assert chunks[|chunks|..] == [];
      writeQueue := [];
      pending := pending - discardedBytes;
      if pending < 0 { pending := 0; }
    }

    method FinishReplayRestore()
      requires Valid()
      modifies this`replayRestorePending, this`output
      ensures Valid() && View() == FinishRestore(old(View()))
    {
      if disposed || !replayRestorePending || writing { return; }
      replayRestorePending := false;
      output := output + [Reset];
    }

    method BeginReplayRestore()
      requires Valid()
      modifies this
      ensures Valid() && View() == BeginRestore(old(View()))
    {
      if disposed { return; }
      replayEpoch := replayEpoch + 1;
      DiscardQueuedWrites();
      replayRestorePending := true;
      FinishReplayRestore();
      DrainWrites();
    }

    method WriteData(data: Bytes)
      requires Valid()
      modifies this
      ensures Valid() && View() == Write(old(View()), data)
    {
      if pending + |data| > MAX_PENDING_BYTES {
        output := output + [DropNotice];
        return;
      }
      writeQueue := writeQueue + [data];
      pending := pending + |data|;
      DrainWrites();
    }

    method Close()
      requires Valid()
      modifies this`disposed
      ensures Valid() && View() == Dispose(old(View()))
    {
      disposed := true;
    }
  }
}
