/** The controller that keeps hidden terminals rendered for a while. */
module KeepAlive {
  import opened Common
  import opened HotSessions

  const DEFAULT_HOT := 4
  const DEFAULT_DELAY := 30_000

  function Clamp(value: Option<int>, fallback: int, min: int, max: int): int {
    if value.None? then fallback else if value.value < min then min else if value.value > max then max else value.value
  }

  function Filter(ids: seq<string>, gone: string): (r: seq<string>)
    ensures forall id :: id in r <==> id in ids && id != gone
    ensures |r| <= |ids|
    ensures NoDuplicates(ids) ==> NoDuplicates(r)
  {
    if ids == [] then []
    else
      assert ids == [ids[0]] + ids[1..];
      var rest := Filter(ids[1..], gone);
      assert NoDuplicates(ids) ==> NoDuplicates(ids[1..]) && ids[0] !in rest;
      if ids[0] != gone then [ids[0]] + rest else rest
  }

  /** What is hot or pending has an activation time and was named by the latest reconciliation. */
  ghost predicate AllKnown(stamps: map<string, int>, timers: map<string, nat>, hot: seq<string>, named: set<string>) {
    && (forall id <- hot :: id in stamps && id in named)
    && (forall id <- timers.Keys :: id in stamps && id in named)
  }

  /** Mounted is exactly hot plus pending, and no session is both. */
  ghost predicate Rendered(stamps: map<string, int>, timers: map<string, nat>, mounted: seq<string>, hot: seq<string>,
                           named: set<string>, limit: int) {
    && AllKnown(stamps, timers, hot, named)
    && NoDuplicates(hot) && NoDuplicates(mounted) && |hot| <= limit
    && (forall id :: id in mounted <==> id in hot || id in timers)
    && (forall id <- hot :: id !in timers)
  }

  lemma UnmountKeeps(stamps: map<string, int>, timers: map<string, nat>, mounted: seq<string>, hot: seq<string>,
                     named: set<string>, limit: int, gone: string, mounted': seq<string>, hot': seq<string>)
    requires Rendered(stamps, timers, mounted, hot, named, limit)
    requires NoDuplicates(mounted') && NoDuplicates(hot') && |hot'| <= |hot|
    requires forall id :: id in mounted' <==> id in mounted && id != gone
    requires forall id :: id in hot' <==> id in hot && id != gone
    ensures Rendered(stamps - {gone}, timers - {gone}, mounted', hot', named, limit)
  {
    hide NoDuplicates;
  }

  lemma JoinedIsRendered(stamps: map<string, int>, timers: map<string, nat>, hot: seq<string>, cold: seq<string>,
                         open: set<string>, limit: int)
    requires AllKnown(stamps, timers, hot, open) && NoDuplicates(hot) && NoDuplicates(cold) && |hot| <= limit
    requires forall id <- hot :: id !in timers
    requires forall id :: id in cold <==> id in timers && id in open
    ensures Rendered(stamps, timers, hot + cold, hot, open, limit)
  {
    JoinDistinct(hot, cold);
    hide NoDuplicates;
  }

  class TerminalKeepAliveController {
    const maxHotTerminals: int
    const disposeDelayMs: int
    var lastActivatedAt: map<string, int>
    var disposeTimers: map<string, nat>
    var mountedSessionIds: seq<string>
    var hotSessionIds: seq<string>
    /** The browser's timers that have neither fired nor been cancelled. */
    var scheduled: map<nat, string>
    var nextTimer: nat
    /** The sessions named by the latest reconciliation. */
    ghost var lastOpened: set<string>

    /** Each pending dispose has one timer, and each timer a pending dispose. */
    ghost predicate TimersMatch()
      reads this`disposeTimers, this`scheduled, this`nextTimer
    {
      && (forall id :: id in disposeTimers ==> disposeTimers[id] in scheduled && scheduled[disposeTimers[id]] == id)
      && (forall t :: t in scheduled ==>
           t < nextTimer && scheduled[t] in disposeTimers && disposeTimers[scheduled[t]] == t)
    }

    ghost predicate Known()
      reads this
    {
      AllKnown(lastActivatedAt, disposeTimers, hotSessionIds, lastOpened)
    }

    ghost predicate Valid()
      reads this
    {
      && 1 <= maxHotTerminals <= 16 && 0 <= disposeDelayMs <= 600_000
      && TimersMatch()
      && Rendered(lastActivatedAt, disposeTimers, mountedSessionIds, hotSessionIds, lastOpened, maxHotTerminals)
    }

    constructor (hot: Option<int>, delay: Option<int>)
      ensures Valid() && mountedSessionIds == [] && hotSessionIds == [] && disposeTimers == map[]
        && lastActivatedAt == map[]
      ensures maxHotTerminals == Clamp(hot, DEFAULT_HOT, 1, 16)
      ensures disposeDelayMs == Clamp(delay, DEFAULT_DELAY, 0, 600_000)
      ensures hot.None? ==> maxHotTerminals == 4
      ensures hot.Some? && 1 <= hot.value <= 16 ==> maxHotTerminals == hot.value
      ensures hot.Some? && hot.value < 1 ==> maxHotTerminals == 1
      ensures hot.Some? && hot.value > 16 ==> maxHotTerminals == 16
      ensures delay.None? ==> disposeDelayMs == 30_000
      ensures delay.Some? && 0 <= delay.value <= 600_000 ==> disposeDelayMs == delay.value
      ensures delay.Some? && delay.value < 0 ==> disposeDelayMs == 0
      ensures delay.Some? && delay.value > 600_000 ==> disposeDelayMs == 600_000
    {
      maxHotTerminals, disposeDelayMs := Clamp(hot, DEFAULT_HOT, 1, 16), Clamp(delay, DEFAULT_DELAY, 0, 600_000);
      lastActivatedAt, disposeTimers, scheduled, nextTimer := map[], map[], map[], 0;
      mountedSessionIds, hotSessionIds, lastOpened := [], [], {};
    }

    method ClearDisposeTimer(sessionId: string)
      requires TimersMatch()
      modifies this`disposeTimers, this`scheduled
      ensures TimersMatch() && disposeTimers == old(disposeTimers) - {sessionId}
    {
      if sessionId in disposeTimers {
        scheduled := scheduled - {disposeTimers[sessionId]};
        disposeTimers := disposeTimers - {sessionId};
      }
    }

    method ForceUnmount(sessionId: string)
      requires TimersMatch()
      modifies this`disposeTimers, this`scheduled, this`lastActivatedAt, this`hotSessionIds, this`mountedSessionIds
      ensures TimersMatch() && disposeTimers == old(disposeTimers) - {sessionId}
      ensures lastActivatedAt == old(lastActivatedAt) - {sessionId}
      ensures forall id :: id in hotSessionIds <==> id in old(hotSessionIds) && id != sessionId
      ensures forall id :: id in mountedSessionIds <==> id in old(mountedSessionIds) && id != sessionId
      ensures |hotSessionIds| <= |old(hotSessionIds)|
      ensures NoDuplicates(old(hotSessionIds)) ==> NoDuplicates(hotSessionIds)
      ensures NoDuplicates(old(mountedSessionIds)) ==> NoDuplicates(mountedSessionIds)
    {
      ClearDisposeTimer(sessionId);
      lastActivatedAt := lastActivatedAt - {sessionId};
      if sessionId !in mountedSessionIds && sessionId !in hotSessionIds { return; }
      hotSessionIds := Filter(hotSessionIds, sessionId);
      mountedSessionIds := Filter(mountedSessionIds, sessionId);
    }

    /** With no delay the session goes at once, else a timer is set unless one is pending. */
    method ScheduleDispose(sessionId: string)
      requires TimersMatch()
      modifies this`disposeTimers, this`scheduled, this`nextTimer, this`lastActivatedAt, this`hotSessionIds,
        this`mountedSessionIds
      ensures TimersMatch()
      ensures sessionId in old(disposeTimers) || disposeDelayMs > 0 ==>
        && lastActivatedAt == old(lastActivatedAt) && hotSessionIds == old(hotSessionIds)
        && mountedSessionIds == old(mountedSessionIds)
        && sessionId in disposeTimers && disposeTimers - {sessionId} == old(disposeTimers) - {sessionId}
      ensures sessionId in old(disposeTimers) ==> disposeTimers == old(disposeTimers)
      ensures sessionId !in old(disposeTimers) && disposeDelayMs <= 0 ==>
        lastActivatedAt == old(lastActivatedAt) - {sessionId} && disposeTimers == old(disposeTimers)
    {
      if sessionId in disposeTimers { return; }
      if disposeDelayMs <= 0 {
        ForceUnmount(sessionId);
        assert disposeTimers == old(disposeTimers);
        return;
      }
      scheduled := scheduled[nextTimer := sessionId];
      disposeTimers := disposeTimers[sessionId := nextTimer];
      nextTimer := nextTimer + 1;
    }

    /** The browser fires a timer: its session is unmounted and forgotten. */
    method TimerFires(timer: nat)
      requires Valid() && timer in scheduled
      modifies this`disposeTimers, this`scheduled, this`lastActivatedAt, this`hotSessionIds, this`mountedSessionIds
      ensures Valid()
      ensures var id := old(scheduled[timer]);
        && disposeTimers == old(disposeTimers) - {id} && lastActivatedAt == old(lastActivatedAt) - {id}
        && (forall other :: other in mountedSessionIds <==> other in old(mountedSessionIds) && other != id)
        && (forall other :: other in hotSessionIds <==> other in old(hotSessionIds))
    {
      var sessionId := scheduled[timer];
      assert sessionId !in hotSessionIds;
      TimerGone(timer);
      hide NoDuplicates, TimersMatch;
      ForceUnmount(sessionId);
      assert disposeTimers == old(disposeTimers) - {sessionId};
      UnmountKeeps(old(lastActivatedAt), old(disposeTimers), old(mountedSessionIds), old(hotSessionIds), lastOpened,
                   maxHotTerminals, sessionId, mountedSessionIds, hotSessionIds);
      hide Rendered;
    }

    method TimerGone(timer: nat)
      requires TimersMatch() && timer in scheduled
      modifies this`disposeTimers, this`scheduled
      ensures TimersMatch() && disposeTimers == old(disposeTimers) - {old(scheduled[timer])}
    {
      disposeTimers := disposeTimers - {scheduled[timer]};
      scheduled := scheduled - {timer};
    }

    method Touch(sessionId: string, at: int)
      requires Valid()
      modifies this`lastActivatedAt
      ensures Valid() && lastActivatedAt == old(lastActivatedAt)[sessionId := at]
    {
      lastActivatedAt := lastActivatedAt[sessionId := at];
    }

    method Remove(sessionId: string)
      requires Valid()
      modifies this`disposeTimers, this`scheduled, this`lastActivatedAt, this`hotSessionIds, this`mountedSessionIds
      ensures Valid()
      ensures disposeTimers == old(disposeTimers) - {sessionId} && lastActivatedAt == old(lastActivatedAt) - {sessionId}
      ensures forall id :: id in mountedSessionIds <==> id in old(mountedSessionIds) && id != sessionId
      ensures forall id :: id in hotSessionIds <==> id in old(hotSessionIds) && id != sessionId
    {
      ForceUnmount(sessionId);
      UnmountKeeps(old(lastActivatedAt), old(disposeTimers), old(mountedSessionIds), old(hotSessionIds), lastOpened,
                   maxHotTerminals, sessionId, mountedSessionIds, hotSessionIds);
      hide Rendered;
    }

    method DisposeAll()
      requires Valid()
      modifies this`disposeTimers, this`scheduled, this`lastActivatedAt, this`hotSessionIds, this`mountedSessionIds
      ensures Valid() && mountedSessionIds == [] && hotSessionIds == [] && lastActivatedAt == map[]
        && scheduled == map[]
    {
      while disposeTimers != map[]
        invariant TimersMatch()
        decreases |disposeTimers.Keys|
      {
        var sessionId :| sessionId in disposeTimers;
        ghost var before := disposeTimers;
        ClearDisposeTimer(sessionId);
        assert disposeTimers.Keys == before.Keys - {sessionId};
      }
      lastActivatedAt := map[];
      hotSessionIds, mountedSessionIds := [], [];
    }

    // ---- reconciliation ---------------------------------------------------------------

    /** Sessions that are no longer opened and running go at once. */
    method DropClosed(open: set<string>)
      requires Valid()
      modifies this`disposeTimers, this`scheduled, this`lastActivatedAt, this`hotSessionIds, this`mountedSessionIds
      ensures TimersMatch() && Known()
      ensures forall id :: id in lastActivatedAt <==> id in old(lastActivatedAt) && id in open
      ensures forall id :: id in lastActivatedAt ==> lastActivatedAt[id] == old(lastActivatedAt[id])
      ensures forall id :: id in disposeTimers <==> id in old(disposeTimers) && id in open
      ensures forall id :: id in disposeTimers ==> disposeTimers[id] == old(disposeTimers[id])
      ensures forall id :: id in hotSessionIds <==> id in old(hotSessionIds) && id in open
      ensures NoDuplicates(hotSessionIds) && |hotSessionIds| <= maxHotTerminals
      ensures NoDuplicates(mountedSessionIds)
    {
      var rest := lastActivatedAt.Keys - open;
      while rest != {}
        invariant rest <= lastActivatedAt.Keys && rest !! open
        invariant TimersMatch() && Known() && NoDuplicates(hotSessionIds) && |hotSessionIds| <= maxHotTerminals
          && NoDuplicates(mountedSessionIds)
        invariant forall id :: id in lastActivatedAt <==> id in old(lastActivatedAt) && (id in open || id in rest)
        invariant forall id :: id in lastActivatedAt ==> lastActivatedAt[id] == old(lastActivatedAt[id])
        invariant forall id :: id in disposeTimers <==> id in old(disposeTimers) && (id in open || id in rest)
        invariant forall id :: id in disposeTimers ==> disposeTimers[id] == old(disposeTimers[id])
        invariant forall id :: id in hotSessionIds <==> id in old(hotSessionIds) && (id in open || id in rest)
        decreases |rest|
      {
        var sessionId :| sessionId in rest;
        ForceUnmount(sessionId);
        rest := rest - {sessionId};
      }
    }

    /** Sessions that lose their place are disposed of later, or at once without a delay. */
    method RetireHot(nextHot: seq<string>)
      requires TimersMatch() && NoDuplicates(hotSessionIds) && (forall id <- hotSessionIds :: id in lastActivatedAt)
      modifies this`disposeTimers, this`scheduled, this`nextTimer, this`lastActivatedAt, this`hotSessionIds,
        this`mountedSessionIds
      ensures TimersMatch()
      ensures forall id :: id in lastActivatedAt <==>
        id in old(lastActivatedAt)
          && (disposeDelayMs > 0 || id !in old(hotSessionIds) || id in nextHot || id in old(disposeTimers))
      ensures forall id :: id in lastActivatedAt ==> lastActivatedAt[id] == old(lastActivatedAt[id])
      ensures forall id :: id in disposeTimers <==>
        id in old(disposeTimers) || (disposeDelayMs > 0 && id in old(hotSessionIds) && id !in nextHot)
      ensures forall id :: id in old(disposeTimers) ==> disposeTimers[id] == old(disposeTimers[id])
    {
      var previousHot := hotSessionIds;
      for i := 0 to |previousHot|
        invariant TimersMatch()
        invariant forall id :: id in lastActivatedAt <==>
          id in old(lastActivatedAt)
            && (disposeDelayMs > 0 || id !in previousHot[..i] || id in nextHot || id in old(disposeTimers))
        invariant forall id :: id in lastActivatedAt ==> lastActivatedAt[id] == old(lastActivatedAt[id])
        invariant forall id :: id in disposeTimers <==>
          id in old(disposeTimers) || (disposeDelayMs > 0 && id in previousHot[..i] && id !in nextHot)
        invariant forall id :: id in old(disposeTimers) ==> disposeTimers[id] == old(disposeTimers[id])
      {
        assert previousHot[..i + 1] == previousHot[..i] + [previousHot[i]];
        ghost var timers := disposeTimers;
        if previousHot[i] !in nextHot {
          ScheduleDispose(previousHot[i]);
          assert forall id :: id != previousHot[i] ==>
            (id in disposeTimers <==> id in disposeTimers - {previousHot[i]});
          assert forall id :: id != previousHot[i] ==> (id in timers <==> id in timers - {previousHot[i]});
          assert forall id :: id in timers && id != previousHot[i] ==>
            (disposeTimers - {previousHot[i]})[id] == (timers - {previousHot[i]})[id];
        }
      }
      assert previousHot[..|previousHot|] == previousHot;
    }

    method KeepHot(nextHot: seq<string>)
      requires TimersMatch()
      modifies this`disposeTimers, this`scheduled
      ensures TimersMatch() && disposeTimers == old(disposeTimers) - (set id | id in nextHot)
    {
      for i := 0 to |nextHot|
        invariant TimersMatch() && disposeTimers == old(disposeTimers) - (set id | id in nextHot[..i])
      {
        assert nextHot[..i + 1] == nextHot[..i] + [nextHot[i]];
        ClearDisposeTimer(nextHot[i]);
      }
      assert nextHot[..|nextHot|] == nextHot;
    }

    method Candidates(sessions: seq<string>) returns (candidates: seq<Activation>)
      requires forall id <- sessions :: id in lastActivatedAt
      ensures candidates == Stamped(sessions, lastActivatedAt)
    {
      candidates := [];
      for i := 0 to |sessions|
        invariant candidates == Stamped(sessions, lastActivatedAt)[..i]
      {
        candidates := candidates + [Activation(sessions[i], lastActivatedAt[sessions[i]])];
      }
    }

    /** Opened sessions that were never activated are stamped now, and the active one again. */
    method Stamp(open: set<string>, active: Option<string>, clock: string -> int)
      requires TimersMatch()
      modifies this`lastActivatedAt, this`disposeTimers, this`scheduled
      ensures TimersMatch()
      ensures forall id :: id in lastActivatedAt <==> id in old(lastActivatedAt) || id in open
      ensures forall id :: id in lastActivatedAt ==>
        lastActivatedAt[id] ==
          if id in old(lastActivatedAt) && !(IsActive(active, id) && id in open)
          then old(lastActivatedAt)[id] else clock(id)
      ensures disposeTimers == old(disposeTimers) - (set id | id in open && IsActive(active, id))
    {
      var rest := open;
      while rest != {}
        invariant rest <= open && TimersMatch() && disposeTimers == old(disposeTimers)
        invariant forall id :: id in lastActivatedAt <==> id in old(lastActivatedAt) || id in open - rest
        invariant forall id :: id in lastActivatedAt ==>
          lastActivatedAt[id] == if id in old(lastActivatedAt) then old(lastActivatedAt)[id] else clock(id)
        decreases |rest|
      {
        var sessionId :| sessionId in rest;
        if sessionId !in lastActivatedAt {
          lastActivatedAt := lastActivatedAt[sessionId := clock(sessionId)];
        }
        rest := rest - {sessionId};
      }
      if active.Some? && active.value != "" && active.value in open {
        lastActivatedAt := lastActivatedAt[active.value := clock(active.value)];
        ClearDisposeTimer(active.value);
        assert (set id | id in open && IsActive(active, id)) == {active.value};
      } else {
        assert (set id | id in open && IsActive(active, id)) == {};
      }
    }

    /** An opened active session is hot; any other exactly if fewer than the limit are ahead of it,
        so the hot ones were activated no earlier than any session left out, one that goes at once
        included. What was hot and is still opened keeps rendering until its timer fires. */
    method Reconcile(sessions: seq<string>, active: Option<string>, clock: string -> int)
      requires Valid()
      modifies this
      ensures Valid()
      ensures lastOpened == set id | id in sessions
      ensures forall id <- sessions :: IsActive(active, id) ==> hotSessionIds != [] && hotSessionIds[0] == id
      ensures forall id <- sessions :: id in lastActivatedAt ==>
        lastActivatedAt[id] ==
          if id in old(lastActivatedAt) && !IsActive(active, id) then old(lastActivatedAt[id]) else clock(id)
      ensures forall id <- sessions :: id in lastActivatedAt || (disposeDelayMs <= 0 && id in old(hotSessionIds))
      ensures forall id <- sessions :: id !in hotSessionIds ==> |hotSessionIds| == maxHotTerminals
      ensures forall id <- sessions :: id !in hotSessionIds && id in lastActivatedAt ==>
        forall h <- hotSessionIds :: IsActive(active, h) || lastActivatedAt[h] >= lastActivatedAt[id]
      ensures forall id <- sessions :: id !in hotSessionIds && id in old(hotSessionIds) ==>
        forall h <- hotSessionIds :: IsActive(active, h) || lastActivatedAt[h] >= old(lastActivatedAt[id])
      ensures var stamps := NewStamps(sessions, old(lastActivatedAt), active, clock);
        forall id <- sessions :: id in hotSessionIds <==>
          IsActive(active, id) || |Ahead(sessions, stamps, active, id)| < maxHotTerminals
      ensures forall id <- sessions :: id in old(hotSessionIds) && id !in hotSessionIds ==>
        if disposeDelayMs > 0 then id in disposeTimers else id !in mountedSessionIds && id !in lastActivatedAt
      ensures forall id <- old(disposeTimers).Keys :: id in sessions && id !in hotSessionIds ==>
        id in disposeTimers && disposeTimers[id] == old(disposeTimers[id])
    {
      var nextHot := Choose(sessions, active, clock);
      hide NoDuplicates, TimersMatch, Ahead, Precedes;
      Settle(nextHot, set id | id in sessions);
    }

    /** The first half: closed sessions go, opened ones are stamped, and the hot ones chosen. */
    method Choose(sessions: seq<string>, active: Option<string>, clock: string -> int) returns (nextHot: seq<string>)
      requires Valid()
      modifies this
      ensures TimersMatch() && NoDuplicates(hotSessionIds) && NoDuplicates(nextHot) && |nextHot| <= maxHotTerminals
      ensures forall id :: id in lastActivatedAt <==> id in sessions
      ensures forall id :: id in hotSessionIds <==> id in old(hotSessionIds) && id in sessions
      ensures forall id :: id in disposeTimers <==> id in old(disposeTimers) && id in sessions && !IsActive(active, id)
      ensures forall id :: id in disposeTimers ==> disposeTimers[id] == old(disposeTimers[id])
      ensures lastActivatedAt == NewStamps(sessions, old(lastActivatedAt), active, clock)
      ensures WellChosen(sessions, lastActivatedAt, maxHotTerminals, active, nextHot)
    {
      var open := set id | id in sessions;
      DropClosed(open);
      Stamp(open, active, clock);
      assert lastActivatedAt == NewStamps(sessions, old(lastActivatedAt), active, clock);
      var candidates := Candidates(sessions);
      nextHot := ComputeHotSessionIds(candidates, maxHotTerminals, active);
      ChosenHot(sessions, lastActivatedAt, maxHotTerminals, active, nextHot);
    }

    /** A timer forgets when its session was activated. A session that is still opened gets a new
        stamp at the next reconciliation, and is hot again exactly if it is active or fewer than
        the limit are ahead of that stamp, however long ago it was used. */
    method DisposedSessionReturns(timer: nat, sessions: seq<string>, active: Option<string>, clock: string -> int)
      requires Valid() && timer in scheduled && scheduled[timer] in sessions
      modifies this
      ensures Valid()
      ensures
        var id := old(scheduled[timer]);
        var stamps := NewStamps(sessions, old(lastActivatedAt) - {id}, active, clock);
        && stamps[id] == clock(id)
        && (id in hotSessionIds <==> IsActive(active, id) || |Ahead(sessions, stamps, active, id)| < maxHotTerminals)
    {
      TimerFires(timer);
      Reconcile(sessions, active, clock);
    }

    /** The new choice takes effect; timers that were pending keep running. */
    method Settle(nextHot: seq<string>, open: set<string>)
      requires 1 <= maxHotTerminals <= 16 && 0 <= disposeDelayMs <= 600_000
      requires TimersMatch() && NoDuplicates(hotSessionIds) && NoDuplicates(nextHot) && |nextHot| <= maxHotTerminals
      requires forall id <- hotSessionIds :: id in open && id in lastActivatedAt && id !in disposeTimers
      requires forall id <- nextHot :: id in open && id in lastActivatedAt
      requires forall id <- disposeTimers.Keys :: id in open && id in lastActivatedAt
      modifies this
      ensures Valid() && lastOpened == open && hotSessionIds == nextHot
      ensures forall id :: id in lastActivatedAt ==>
        id in old(lastActivatedAt) && lastActivatedAt[id] == old(lastActivatedAt[id])
      ensures forall id <- old(lastActivatedAt).Keys ::
        id in lastActivatedAt || (disposeDelayMs <= 0 && id in old(hotSessionIds))
      ensures forall id <- old(hotSessionIds) :: id !in nextHot ==>
        if disposeDelayMs > 0 then id in disposeTimers else id !in mountedSessionIds && id !in lastActivatedAt
      ensures forall id <- old(disposeTimers).Keys :: id !in nextHot ==>
        id in disposeTimers && disposeTimers[id] == old(disposeTimers[id])
    {
      hide NoDuplicates, TimersMatch;
      RetireHot(nextHot);
      KeepHot(nextHot);
      var cold := Pending(open);
      JoinedIsRendered(lastActivatedAt, disposeTimers, nextHot, cold, open, maxHotTerminals);
      hide Rendered;
      mountedSessionIds := nextHot + cold;
      hotSessionIds := nextHot;
      lastOpened := open;
    }

    method Pending(open: set<string>) returns (cold: seq<string>)
      ensures NoDuplicates(cold) && forall id :: id in cold <==> id in disposeTimers && id in open
    {
      cold := [];
      var rest := disposeTimers.Keys * open;
      while rest != {}
        invariant rest <= disposeTimers.Keys * open
        invariant NoDuplicates(cold) && forall id :: id in cold <==> id in disposeTimers && id in open && id !in rest
        decreases |rest|
      {
        var id :| id in rest;
        cold, rest := cold + [id], rest - {id};
      }
    }
  }

  lemma JoinDistinct(a: seq<string>, b: seq<string>)
    requires NoDuplicates(a) && NoDuplicates(b) && forall x :: x in b ==> x !in a
    ensures NoDuplicates(a + b)
  {
    forall i, j | 0 <= i < j < |a + b|
      ensures (a + b)[i] != (a + b)[j]
    {
      if j >= |a| {
        assert (a + b)[j] in b;
        assert i < |a| ==> (a + b)[i] in a;
      }
    }
  }

  // ---- who is ahead ---------------------------------------------------------------------

  function Stamped(sessions: seq<string>, stamps: map<string, int>): (r: seq<Activation>)
    requires forall id <- sessions :: id in stamps
    ensures |r| == |sessions| && forall i :: 0 <= i < |r| ==> r[i] == Activation(sessions[i], stamps[sessions[i]])
  {
    seq(|sessions|, i requires 0 <= i < |sessions| => Activation(sessions[i], stamps[sessions[i]]))
  }

  /** The activation times after a reconciliation has stamped what was never activated, and the
      active session once more. */
  function NewStamps(sessions: seq<string>, stamps: map<string, int>, active: Option<string>,
      clock: string -> int): map<string, int> {
    map id | id in sessions :: if id in stamps && !IsActive(active, id) then stamps[id] else clock(id)
  }

  function FirstPlace(sessions: seq<string>, id: string): (r: nat)
    requires id in sessions
    ensures r < |sessions| && sessions[r] == id && forall k :: 0 <= k < |sessions| && sessions[k] == id ==> r <= k
  {
    if sessions[0] == id then 0
    else
      assert forall k :: 1 <= k < |sessions| ==> sessions[1..][k - 1] == sessions[k];
      FirstPlace(sessions[1..], id) + 1
  }

  /** Activated later, or at the same time and opened first. */
  predicate Precedes(sessions: seq<string>, stamps: map<string, int>, a: string, b: string)
    requires a in sessions && b in sessions && a in stamps && b in stamps
  {
    stamps[a] > stamps[b] || (stamps[a] == stamps[b] && FirstPlace(sessions, a) < FirstPlace(sessions, b))
  }

  /** The sessions that get a place before this one: the active one and those that precede it. */
  function Ahead(sessions: seq<string>, stamps: map<string, int>, active: Option<string>, id: string): set<string>
    requires id in sessions && forall x <- sessions :: x in stamps
  {
    set x | x in sessions && x != id && (IsActive(active, x) || Precedes(sessions, stamps, x, id))
  }

  lemma OutrankingPrecedes(sessions: seq<string>, stamps: map<string, int>, a: string, b: string)
    requires a in sessions && b in sessions && forall x <- sessions :: x in stamps
    requires Outranks(Stamped(sessions, stamps), a, FirstPlace(sessions, b))
    ensures Precedes(sessions, stamps, a, b)
  {
    var candidates, j := Stamped(sessions, stamps), FirstPlace(sessions, b);
    var k :| 0 <= k < |candidates| && candidates[k].sessionId == a && Before(candidates, k, j);
    assert sessions[k] == a;
  }

  lemma SetOfDistinct(ids: seq<string>)
    requires NoDuplicates(ids)
    ensures |set id | id in ids| == |ids|
  {
    if ids != [] {
      SetOfDistinct(ids[1..]);
      assert (set id | id in ids) == (set id | id in ids[1..]) + {ids[0]};
    }
  }

  /** The choice in terms of the sessions and their stamps. */
  ghost predicate WellChosen(sessions: seq<string>, stamps: map<string, int>, limit: nat, active: Option<string>,
      hot: seq<string>)
    requires forall id <- sessions :: id in stamps
  {
    && (forall id <- hot :: id in sessions)
    && (forall id <- sessions :: IsActive(active, id) ==> hot != [] && hot[0] == id)
    && (forall id <- sessions :: id !in hot ==> |hot| == limit)
    && (forall id <- sessions, h <- hot :: id !in hot ==> IsActive(active, h) || stamps[h] >= stamps[id])
    && (forall id <- sessions :: id in hot <==> IsActive(active, id) || |Ahead(sessions, stamps, active, id)| < limit)
  }

  /** What the choice means in terms of the sessions and their stamps: besides the active session,
      just those are hot that have fewer than the limit ahead of them. */
  lemma ChosenHot(sessions: seq<string>, stamps: map<string, int>, limit: nat, active: Option<string>, hot: seq<string>)
    requires limit >= 1 && forall id <- sessions :: id in stamps
    requires HotChoice(Stamped(sessions, stamps), limit, active, hot)
    ensures WellChosen(sessions, stamps, limit, active, hot)
  {
    forall id <- hot
      ensures id in sessions
    {
      assert Candidate(Stamped(sessions, stamps), id);
    }
    forall id <- sessions
      ensures IsActive(active, id) ==> hot != [] && hot[0] == id
      ensures id !in hot ==>
        |hot| == limit && forall h <- hot :: IsActive(active, h) || Precedes(sessions, stamps, h, id)
    {
      ChosenFor(sessions, stamps, limit, active, hot, id);
    }
    forall id <- sessions
      ensures id in hot <==> IsActive(active, id) || |Ahead(sessions, stamps, active, id)| < limit
    {
      HotExactly(sessions, stamps, limit, active, hot, id);
    }
  }

  lemma ChosenFor(sessions: seq<string>, stamps: map<string, int>, limit: nat, active: Option<string>,
      hot: seq<string>, id: string)
    requires (forall x <- sessions :: x in stamps) && id in sessions && forall h <- hot :: h in sessions
    requires HotChoice(Stamped(sessions, stamps), limit, active, hot)
    ensures IsActive(active, id) ==> hot != [] && hot[0] == id
    ensures id !in hot ==> |hot| == limit && forall h <- hot :: IsActive(active, h) || Precedes(sessions, stamps, h, id)
  {
    var candidates, j := Stamped(sessions, stamps), FirstPlace(sessions, id);
    assert candidates[j] in candidates && candidates[j].sessionId == id;
    assert Candidate(candidates, id);
    if id !in hot {
      forall h <- hot | !IsActive(active, h)
        ensures Precedes(sessions, stamps, h, id)
      {
        OutrankingPrecedes(sessions, stamps, h, id);
      }
    }
  }

  lemma HotExactly(sessions: seq<string>, stamps: map<string, int>, limit: nat, active: Option<string>,
      hot: seq<string>, id: string)
    requires (forall x <- sessions :: x in stamps) && id in sessions && (forall h <- hot :: h in sessions)
    requires NoDuplicates(hot) && |hot| <= limit
    requires forall x <- sessions :: IsActive(active, x) ==> x in hot
    requires forall x <- sessions :: x !in hot ==>
      |hot| == limit && forall h <- hot :: IsActive(active, h) || Precedes(sessions, stamps, h, x)
    ensures id in hot <==> IsActive(active, id) || |Ahead(sessions, stamps, active, id)| < limit
  {
    var ahead, chosen := Ahead(sessions, stamps, active, id), set h | h in hot;
    SetOfDistinct(hot);
    if id !in hot {
      assert chosen <= ahead;
      Smaller(chosen, ahead);
    } else if !IsActive(active, id) {
      forall x | x in ahead
        ensures x in chosen - {id}
      {
      }
      Smaller(ahead, chosen - {id});
    }
  }

  lemma Smaller(a: set<string>, b: set<string>)
    requires a <= b
    ensures |a| <= |b|
  {
    assert b == a + (b - a);
  }

  /** Such a session: "x" was used before "a", is disposed of, and then takes the place of "a". */
  method DisposedSessionReturnsExample() returns (c: TerminalKeepAliveController)
    ensures c.Valid() && "x" in c.hotSessionIds && "a" !in c.hotSessionIds
  {
    c := ExampleEviction();
    ExampleRanks();
    hide Ahead, TerminalKeepAliveController.Valid;
    ghost var used := c.lastActivatedAt - {"x"};
    TimerOf(c, "x");
    c.TimerFires(c.disposeTimers["x"]);
    c.Reconcile(["x", "a", "b"], Some("b"), (id: string) => 4);
    assert NewStamps(["x", "a", "b"], used, Some("b"), (id: string) => 4) == map["x" := 4, "a" := 2, "b" := 4];
  }

  /** "x" and "a" are used and rendered, then "b" takes the place of "x". */
  method ExampleEviction() returns (c: TerminalKeepAliveController)
    ensures fresh(c) && c.Valid() && c.maxHotTerminals == 2 && c.disposeDelayMs == 30_000
    ensures "x" in c.disposeTimers && "a" in c.hotSessionIds && "a" in c.lastActivatedAt && c.lastActivatedAt["a"] == 2
  {
    c := ExampleUse();
    hide Ahead, TerminalKeepAliveController.Valid;
    ExampleRanks();
    ghost var used := c.lastActivatedAt;
    c.Reconcile(["x", "a", "b"], Some("b"), (id: string) => 3);
    assert NewStamps(["x", "a", "b"], used, Some("b"), (id: string) => 3) == map["x" := 1, "a" := 2, "b" := 3];
  }

  method ExampleUse() returns (c: TerminalKeepAliveController)
    ensures fresh(c) && c.Valid() && c.maxHotTerminals == 2 && c.disposeDelayMs == 30_000
    ensures "x" in c.hotSessionIds && "x" in c.lastActivatedAt && c.lastActivatedAt["x"] == 1
    ensures "a" in c.lastActivatedAt && c.lastActivatedAt["a"] == 2
  {
    c := new TerminalKeepAliveController(Some(2), Some(30_000));
    hide Ahead, TerminalKeepAliveController.Valid;
    ExampleRanks();
    var clock := (id: string) => if id == "x" then 1 else 2;
    c.Reconcile(["x", "a"], Some("a"), clock);
    assert NewStamps(["x", "a"], map[], Some("a"), clock) == map["x" := 1, "a" := 2];
  }

  lemma TimerOf(c: TerminalKeepAliveController, id: string)
    requires c.Valid() && id in c.disposeTimers
    ensures c.disposeTimers[id] in c.scheduled && c.scheduled[c.disposeTimers[id]] == id
  {
  }

  lemma ExampleRanks()
    ensures |Ahead(["x", "a"], map["x" := 1, "a" := 2], Some("a"), "x")| == 1
    ensures |Ahead(["x", "a", "b"], map["x" := 1, "a" := 2, "b" := 3], Some("b"), "x")| == 2
    ensures |Ahead(["x", "a", "b"], map["x" := 1, "a" := 2, "b" := 3], Some("b"), "a")| == 1
    ensures |Ahead(["x", "a", "b"], map["x" := 4, "a" := 2, "b" := 4], Some("b"), "x")| == 1
    ensures |Ahead(["x", "a", "b"], map["x" := 4, "a" := 2, "b" := 4], Some("b"), "a")| == 2
  {
    hide FirstPlace;
    assert Ahead(["x", "a"], map["x" := 1, "a" := 2], Some("a"), "x") == {"a"};
    assert Ahead(["x", "a", "b"], map["x" := 1, "a" := 2, "b" := 3], Some("b"), "x") == {"a", "b"};
    assert Ahead(["x", "a", "b"], map["x" := 1, "a" := 2, "b" := 3], Some("b"), "a") == {"b"};
    assert Ahead(["x", "a", "b"], map["x" := 4, "a" := 2, "b" := 4], Some("b"), "x") == {"b"};
    assert Ahead(["x", "a", "b"], map["x" := 4, "a" := 2, "b" := 4], Some("b"), "a") == {"b", "x"};
  }
}
