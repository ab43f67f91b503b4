/** One lock for each Git repository, made of a channel that holds one token. */
module RepositoryLocks {
  import opened Common

  type Key = string

  /** An operation looks its lock up, waits for the token and gives it back at its end. */
  datatype Progress = Waiting(lock: nat) | Holding(lock: nat) | GaveUp | Finished

  /** `locks` is the shared map; `tokens` counts what each channel holds. */
  datatype Service = Service(
    locks: map<Key, nat>,
    tokens: map<nat, nat>,
    operations: map<nat, Progress>,
    keys: map<nat, Key>)

  const EMPTY := Service(map[], map[], map[], map[])

  datatype Section =
    | LooksUp(op: nat, key: Key, made: nat)
    | TakesToken(op: nat)
    | IsCancelled(op: nat)
    | GivesBack(op: nat)

  /** A send on a full channel would wait; a receive from an empty one does. */
  predicate Enabled(s: Service, a: Section) {
    match a
    case LooksUp(op, key, made) => op !in s.operations && made !in s.tokens && key != ""
    case TakesToken(op) => IsWaiting(s, op) && s.operations[op].lock in s.tokens && s.tokens[s.operations[op].lock] > 0
    case IsCancelled(op) => IsWaiting(s, op)
    case GivesBack(op) => IsHolding(s, op) && s.operations[op].lock in s.tokens && s.tokens[s.operations[op].lock] < 1
  }

  predicate IsWaiting(s: Service, op: nat) {
    op in s.operations && s.operations[op].Waiting?
  }

  predicate IsHolding(s: Service, op: nat) {
    op in s.operations && s.operations[op].Holding?
  }

  function Next(s: Service, a: Section): Service
    requires Enabled(s, a)
  {
    match a
    case LooksUp(op, key, made) =>
      var lock := if key in s.locks then s.locks[key] else made;
      Service(s.locks[key := lock], s.tokens[made := 1], s.operations[op := Waiting(lock)], s.keys[op := key])
    case TakesToken(op) =>
      var lock := s.operations[op].lock;
      s.(tokens := s.tokens[lock := s.tokens[lock] - 1], operations := s.operations[op := Holding(lock)])
    case IsCancelled(op) => s.(operations := s.operations[op := GaveUp])
    case GivesBack(op) =>
      var lock := s.operations[op].lock;
      s.(tokens := s.tokens[lock := s.tokens[lock] + 1], operations := s.operations[op := Finished])
  }

  ghost predicate Possible(s: Service, sections: seq<Section>)
    decreases |sections|
  {
    sections != [] ==> Enabled(s, sections[0]) && Possible(Next(s, sections[0]), sections[1..])
  }

  function Run(s: Service, sections: seq<Section>): Service
    requires Possible(s, sections)
    decreases |sections|
  {
    if sections == [] then s else Run(Next(s, sections[0]), sections[1..])
  }

  function Holders(s: Service, key: Key): set<nat> {
    set op | op in s.operations && op in s.keys && s.operations[op].Holding? && s.keys[op] == key
  }

  /** Every operation uses the lock its key has in the map; different keys have different locks. */
  ghost predicate Mapped(s: Service) {
    && s.keys.Keys == s.operations.Keys
    && (forall op :: op in s.operations ==> s.keys[op] in s.locks)
    && (forall op :: op in s.operations && (s.operations[op].Waiting? || s.operations[op].Holding?) ==>
          s.operations[op].lock == s.locks[s.keys[op]])
    && (forall k, l :: k in s.locks && l in s.locks && s.locks[k] == s.locks[l] ==> k == l)
    && (forall k :: k in s.locks ==> s.locks[k] in s.tokens)
  }

  /** And the token of a lock is either in its channel or with exactly one operation. */
  ghost predicate Exclusive(s: Service) {
    Mapped(s) && forall k :: k in s.locks ==> s.tokens[s.locks[k]] + |Holders(s, k)| == 1
  }

  lemma HoldersAfterLookUp(s: Service, op: nat, key: Key, made: nat, k: Key)
    requires s.keys.Keys == s.operations.Keys && Enabled(s, LooksUp(op, key, made))
    ensures Holders(Next(s, LooksUp(op, key, made)), k) == Holders(s, k)
  {
  }

  lemma MappedAfterLookUp(s: Service, op: nat, key: Key, made: nat)
    requires Mapped(s) && Enabled(s, LooksUp(op, key, made))
    ensures Mapped(Next(s, LooksUp(op, key, made)))
  {
  }

  lemma LookUpKeeps(s: Service, op: nat, key: Key, made: nat)
    requires Exclusive(s) && Enabled(s, LooksUp(op, key, made))
    ensures Exclusive(Next(s, LooksUp(op, key, made)))
  {
    hide Holders;
    MappedAfterLookUp(s, op, key, made);
    var s' := Next(s, LooksUp(op, key, made));
    forall k | k in s'.locks
      ensures s'.tokens[s'.locks[k]] + |Holders(s', k)| == 1
    {
      HoldersAfterLookUp(s, op, key, made, k);
      if k !in s.locks {
        NobodyHolds(s, k);
      }
    }
  }

  lemma NobodyHolds(s: Service, key: Key)
    requires forall op :: op in s.operations && op in s.keys ==> s.keys[op] in s.locks
    requires key !in s.locks
    ensures Holders(s, key) == {}
  {
  }

  lemma HoldersAfterTake(s: Service, op: nat, key: Key)
    requires op in s.keys && Enabled(s, TakesToken(op))
    ensures Holders(Next(s, TakesToken(op)), key) ==
      if s.keys[op] == key then Holders(s, key) + {op} else Holders(s, key)
    ensures op !in Holders(s, key)
  {
  }

  lemma HoldersAfterGive(s: Service, op: nat, key: Key)
    requires op in s.keys && Enabled(s, GivesBack(op))
    ensures Holders(Next(s, GivesBack(op)), key) ==
      if s.keys[op] == key then Holders(s, key) - {op} else Holders(s, key)
    ensures s.keys[op] == key ==> op in Holders(s, key)
  {
  }

  lemma MappedAfterMove(s: Service, a: Section)
    requires Mapped(s) && Enabled(s, a) && !a.LooksUp?
    ensures Mapped(Next(s, a))
  {
  }

  lemma TokenMovesKeep(s: Service, a: Section)
    requires Exclusive(s) && Enabled(s, a) && !a.LooksUp?
    ensures Exclusive(Next(s, a))
  {
    hide Holders;
    MappedAfterMove(s, a);
    var s' := Next(s, a);
    forall k | k in s'.locks
      ensures s'.tokens[s'.locks[k]] + |Holders(s', k)| == 1
    {
      match a
      case TakesToken(op) => HoldersAfterTake(s, op, k);
      case IsCancelled(op) => CancelledAttemptChangesNothing(s, op, k);
      case GivesBack(op) => HoldersAfterGive(s, op, k);
    }
  }

  lemma {:induction false} RunKeeps(s: Service, sections: seq<Section>)
    requires Exclusive(s) && Possible(s, sections)
    ensures Exclusive(Run(s, sections))
    decreases |sections|
  {
    if sections != [] {
      hide Exclusive, Enabled, Next;
      if sections[0].LooksUp? {
        LookUpKeeps(s, sections[0].op, sections[0].key, sections[0].made);
      } else {
        TokenMovesKeep(s, sections[0]);
      }
      RunKeeps(Next(s, sections[0]), sections[1..]);
    }
  }

  /** In every reachable state tokens and holders of a repository add up to one, so no two
      operations run on one repository at once. */
  lemma MutualExclusion(sections: seq<Section>, key: Key, a: nat, b: nat)
    requires Possible(EMPTY, sections)
    ensures
      var s := Run(EMPTY, sections);
      && (key in s.locks ==> s.locks[key] in s.tokens && s.tokens[s.locks[key]] + |Holders(s, key)| == 1)
      && (a in Holders(s, key) && b in Holders(s, key) ==> a == b)
  {
    RunKeeps(EMPTY, sections);
    var s := Run(EMPTY, sections);
    if a in Holders(s, key) && b in Holders(s, key) && a != b {
      Two(Holders(s, key), a, b);
    }
  }

  lemma Two(s: set<nat>, a: nat, b: nat)
    requires a in s && b in s && a != b
    ensures |s| >= 2
  {
    assert {a, b} <= s;
    assert |s - {a, b}| == |s| - |{a, b}|;
  }

  /** Giving the token back never waits. */
  lemma UnlockNeverWaits(sections: seq<Section>, op: nat)
    requires Possible(EMPTY, sections) && IsHolding(Run(EMPTY, sections), op)
    ensures Enabled(Run(EMPTY, sections), GivesBack(op))
  {
    RunKeeps(EMPTY, sections);
    var s := Run(EMPTY, sections);
    assert op in Holders(s, s.keys[op]);
  }

  /** A waiting operation can go on exactly if nobody holds its repository. */
  lemma WaitsExactlyWhileHeld(sections: seq<Section>, op: nat)
    requires Possible(EMPTY, sections) && IsWaiting(Run(EMPTY, sections), op)
    ensures
      var s := Run(EMPTY, sections);
      op in s.keys && (Enabled(s, TakesToken(op)) <==> Holders(s, s.keys[op]) == {})
  {
    RunKeeps(EMPTY, sections);
    var s := Run(EMPTY, sections);
    assert Holders(s, s.keys[op]) == {} <==> |Holders(s, s.keys[op])| == 0;
  }

  /** An attempt that is cancelled leaves locks, tokens and holders as they were. */
  lemma CancelledAttemptChangesNothing(s: Service, op: nat, key: Key)
    requires Enabled(s, IsCancelled(op))
    ensures
      var s' := Next(s, IsCancelled(op));
      && s'.locks == s.locks && s'.tokens == s.tokens && Holders(s', key) == Holders(s, key)
      && s'.operations == s.operations[op := GaveUp]
  {
  }

  /** Giving back ends the operation, and lets any operation go on that waits for the repository. */
  lemma ReleaseLetsGoOn(sections: seq<Section>, op: nat, other: nat)
    requires Possible(EMPTY, sections) && IsHolding(Run(EMPTY, sections), op)
    ensures
      var s := Run(EMPTY, sections);
      && Enabled(s, GivesBack(op))
      && var s' := Next(s, GivesBack(op));
         && s'.operations == s.operations[op := Finished]
         && (IsWaiting(s, other) && op in s.keys && other in s.keys && s.keys[other] == s.keys[op] ==>
               Enabled(s', TakesToken(other)))
  {
    RunKeeps(EMPTY, sections);
    UnlockNeverWaits(sections, op);
  }

  // ---- the lock -----------------------------------------------------------------------

  /** A channel with room for one token; it starts full. */
  class RepositoryLock {
    var full: bool

    constructor ()
      ensures full
    {
      full := true;
    }

    /** When both the token and the cancellation are there, either may win. */
    method Lock(cancelled: bool, preferToken: bool) returns (held: bool)
      requires cancelled || full
      modifies this
      ensures held <==> old(full) && (preferToken || !cancelled)
      ensures full == (old(full) && !held)
    {
      if full && (preferToken || !cancelled) {
        full := false;
        return true;
      }
      return false;
    }

    method Unlock()
      requires !full
      modifies this
      ensures full
    {
      full := true;
    }
  }

  class Locks {
    var byKey: map<Key, RepositoryLock>

    ghost predicate Valid()
      reads this
    {
      forall k, l :: k in byKey && l in byKey && byKey[k] == byKey[l] ==> k == l
    }

    constructor ()
      ensures Valid() && byKey == map[]
    {
      byKey := map[];
    }

    /** `LoadOrStore`: one lock for each key, the first that was stored. */
    method LockFor(key: Key) returns (lock: RepositoryLock)
      requires Valid()
      modifies this
      ensures Valid() && key in byKey && byKey[key] == lock
      ensures
        if key in old(byKey) then byKey == old(byKey)
        else fresh(lock) && lock.full && byKey == old(byKey)[key := lock]
    {
      if key in byKey { return byKey[key]; }
      lock := new RepositoryLock();
      assert forall k :: k in byKey ==> byKey[k] != lock;
      byKey := byKey[key := lock];
    }
  }
}
