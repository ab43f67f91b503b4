/** Which terminals stay rendered: the active one, then those activated last. */
module HotSessions {
  import opened Common

  datatype Activation = Activation(sessionId: string, lastActivatedAt: int)

  ghost predicate NoDuplicates(ids: seq<string>) {
    forall i, j :: 0 <= i < j < |ids| ==> ids[i] != ids[j]
  }

  // ---- a stable sort, latest first -------------------------------------------------

  ghost predicate LatestFirst(entries: seq<Activation>) {
    forall i, j :: 0 <= i < j < |entries| ==> entries[i].lastActivatedAt >= entries[j].lastActivatedAt
  }

  function Insert(e: Activation, sorted: seq<Activation>): (r: seq<Activation>)
    ensures multiset(r) == multiset(sorted) + multiset{e}
  {
    if sorted == [] || sorted[0].lastActivatedAt < e.lastActivatedAt then
      assert [e] + sorted == [e] + sorted[..];
      [e] + sorted
    else
      assert sorted == [sorted[0]] + sorted[1..];
      [sorted[0]] + Insert(e, sorted[1..])
  }

  /** `[...entries].sort((l, r) => r.lastActivatedAt - l.lastActivatedAt)`. */
  function Ranked(entries: seq<Activation>): (r: seq<Activation>)
    ensures multiset(r) == multiset(entries)
  {
    if entries == [] then []
    else
      assert entries == entries[..|entries| - 1] + [entries[|entries| - 1]];
      Insert(entries[|entries| - 1], Ranked(entries[..|entries| - 1]))
  }

  lemma LatestBefore(first: Activation, rest: seq<Activation>)
    requires LatestFirst(rest) && forall i :: 0 <= i < |rest| ==> rest[i].lastActivatedAt <= first.lastActivatedAt
    ensures LatestFirst([first] + rest)
  {
  }

  lemma {:induction false} InsertKeepsOrder(e: Activation, sorted: seq<Activation>)
    requires LatestFirst(sorted)
    ensures LatestFirst(Insert(e, sorted))
  {
    if sorted != [] && sorted[0].lastActivatedAt >= e.lastActivatedAt {
      InsertKeepsOrder(e, sorted[1..]);
      var tail := Insert(e, sorted[1..]);
      forall i | 0 <= i < |tail|
        ensures tail[i].lastActivatedAt <= sorted[0].lastActivatedAt
      {
        assert tail[i] in multiset(tail);
        assert tail[i] in sorted[1..] || tail[i] == e;
      }
      LatestBefore(sorted[0], tail);
    }
  }

  lemma {:induction false} RankedIsLatestFirst(entries: seq<Activation>)
    ensures LatestFirst(Ranked(entries))
    ensures forall e :: e in Ranked(entries) <==> e in entries
  {
    if entries != [] {
      RankedIsLatestFirst(entries[..|entries| - 1]);
      InsertKeepsOrder(entries[|entries| - 1], Ranked(entries[..|entries| - 1]));
    }
    forall e
      ensures e in Ranked(entries) <==> e in entries
    {
      assert e in multiset(Ranked(entries)) <==> e in multiset(entries);
    }
  }

  /** The sort puts the entry at place `i` before the one at `j`. */
  predicate Before(entries: seq<Activation>, i: nat, j: nat)
    requires i < |entries| && j < |entries|
  {
    || entries[i].lastActivatedAt > entries[j].lastActivatedAt
    || (entries[i].lastActivatedAt == entries[j].lastActivatedAt && i < j)
  }

  /** `places` tells where each entry of `ranked` stood in `entries`. */
  ghost predicate Places(entries: seq<Activation>, ranked: seq<Activation>, places: seq<nat>) {
    && |places| == |ranked|
    && (forall k :: 0 <= k < |ranked| ==> places[k] < |entries| && ranked[k] == entries[places[k]])
    && (forall k, l :: 0 <= k < l < |ranked| ==> Before(entries, places[k], places[l]))
  }

  lemma PlacesFrom(entries: seq<Activation>, e: Activation, n: nat, ranked: seq<Activation>, places: seq<nat>)
    requires n < |entries| && entries[n] == e && Places(entries, ranked, places)
    requires forall l :: 0 <= l < |places| ==> Before(entries, n, places[l])
    ensures Places(entries, [e] + ranked, [n] + places)
  {
    hide Before;
  }

  lemma {:induction false} InsertKeepsPlaces(entries: seq<Activation>, ranked: seq<Activation>, places: seq<nat>,
      n: nat)
      returns (places': seq<nat>)
    requires n < |entries| && Places(entries, ranked, places) && forall k :: 0 <= k < |places| ==> places[k] < n
    ensures Places(entries, Insert(entries[n], ranked), places')
    ensures |places'| == |places| + 1 && forall i :: i in places' <==> i in places || i == n
  {
    var e := entries[n];
    if ranked == [] || ranked[0].lastActivatedAt < e.lastActivatedAt {
      places' := [n] + places;
      forall l | 0 <= l < |places|
        ensures Before(entries, n, places[l])
      {
        assert l > 0 ==> Before(entries, places[0], places[l]);
      }
      PlacesFrom(entries, e, n, ranked, places);
    } else {
      var later := InsertKeepsPlaces(entries, ranked[1..], places[1..], n);
      places' := [places[0]] + later;
      assert places == [places[0]] + places[1..];
      forall l | 0 <= l < |later|
        ensures Before(entries, places[0], later[l])
      {
        assert later[l] in later;
        assert later[l] in places[1..] || later[l] == n;
      }
      hide Before;
      PlacesFrom(entries, ranked[0], places[0], Insert(e, ranked[1..]), later);
    }
  }

  /** The ranking holds every entry once, in the sort's order: entries of the same time keep theirs. */
  lemma {:induction false} RankedIsStable(entries: seq<Activation>) returns (places: seq<nat>)
    ensures Places(entries, Ranked(entries), places) && |places| == |entries|
    ensures forall i :: 0 <= i < |entries| ==> i in places
  {
    if entries == [] {
      places := [];
    } else {
      var n := |entries| - 1;
      var before := RankedIsStable(entries[..n]);
      PlacesOfPrefix(entries, n, Ranked(entries[..n]), before);
      hide Places, Before;
      places := InsertKeepsPlaces(entries, Ranked(entries[..n]), before, n);
    }
  }

  lemma PlacesOfPrefix(entries: seq<Activation>, n: nat, ranked: seq<Activation>, places: seq<nat>)
    requires n <= |entries| && Places(entries[..n], ranked, places)
    ensures Places(entries, ranked, places) && forall k :: 0 <= k < |places| ==> places[k] < n
  {
    forall k, l | 0 <= k < l < |ranked|
      ensures Before(entries, places[k], places[l])
    {
      assert Before(entries[..n], places[k], places[l]);
    }
  }

  // ---- the choice -----------------------------------------------------------------------

  /** An empty id counts as none. */
  predicate IsActive(active: Option<string>, id: string) {
    active == Some(id) && id != ""
  }

  ghost predicate Candidate(candidates: seq<Activation>, id: string) {
    exists e :: e in candidates && e.sessionId == id
  }

  /** The active candidate comes first; without room for all, what is left out was activated no
      later than any other chosen session, and listed after those activated at the same time. */
  ghost predicate HotChoice(candidates: seq<Activation>, limit: int, active: Option<string>, hot: seq<string>) {
    && NoDuplicates(hot)
    && |hot| <= limit
    && (forall id <- hot :: Candidate(candidates, id))
    && (active.Some? && active.value != "" && Candidate(candidates, active.value) ==>
         hot != [] && hot[0] == active.value)
    && (forall e <- candidates :: e.sessionId !in hot ==> |hot| == limit)
    && (forall j | 0 <= j < |candidates| && candidates[j].sessionId !in hot ::
          forall id <- hot :: IsActive(active, id) || Outranks(candidates, id, j))
  }

  /** Some entry of the session is sorted before the one at `j`. */
  ghost predicate Outranks(candidates: seq<Activation>, id: string, j: nat)
    requires j < |candidates|
  {
    exists k :: 0 <= k < |candidates| && candidates[k].sessionId == id && Before(candidates, k, j)
  }

  /** What has been chosen after `i` entries: the first choice, and all sessions ranked so far. */
  ghost predicate Gathered(candidates: seq<Activation>, ranked: seq<Activation>, i: nat, first: seq<string>,
      hot: seq<string>) {
    && i <= |ranked|
    && (forall id <- hot :: Candidate(candidates, id))
    && (forall k :: 0 <= k < i ==> ranked[k].sessionId in hot)
    && (forall id <- hot :: id in first || exists k :: 0 <= k < i && ranked[k].sessionId == id)
  }

  lemma GatherNone(candidates: seq<Activation>, ranked: seq<Activation>, active: Option<string>)
    ensures Gathered(candidates, ranked, 0, FirstChoice(candidates, active), FirstChoice(candidates, active))
  {
  }

  lemma GatherOne(candidates: seq<Activation>, ranked: seq<Activation>, i: nat, first: seq<string>, hot: seq<string>)
    requires Gathered(candidates, ranked, i, first, hot) && i < |ranked| && ranked[i] in candidates
    ensures ranked[i].sessionId in hot ==> Gathered(candidates, ranked, i + 1, first, hot)
    ensures Gathered(candidates, ranked, i + 1, first, hot + [ranked[i].sessionId])
  {
  }

  lemma AddNew(ids: seq<string>, id: string)
    requires NoDuplicates(ids) && id !in ids
    ensures NoDuplicates(ids + [id])
  {
  }

  predicate ActiveCandidate(candidates: seq<Activation>, active: Option<string>): (r: bool)
    ensures r ==> active.Some?
  {
    active.Some? && active.value != "" && exists e :: e in candidates && e.sessionId == active.value
  }

  method ComputeHotSessionIds(candidates: seq<Activation>, maxHotTerminals: int,
      activeSessionId: Option<string>) returns (hot: seq<string>)
    ensures if maxHotTerminals < 1 then hot == [] else HotChoice(candidates, maxHotTerminals, activeSessionId, hot)
    ensures InOrder(candidates, activeSessionId, hot)
  {
    hide Gathered, LatestFirst, Ranked, HotChoice, ActiveCandidate, Aligned, InOrder;
    if maxHotTerminals < 1 || candidates == [] {
      NothingToChoose(candidates, maxHotTerminals, activeSessionId);
      return [];
    }
    hot := [];
    var seen: set<string> := {};
    if ActiveCandidate(candidates, activeSessionId) {
      hot, seen := [activeSessionId.value], {activeSessionId.value};
    }
    ghost var first := hot;
    var ranked := Ranked(candidates);
    RankedIsLatestFirst(candidates);
    GatherNone(candidates, ranked, activeSessionId);
    ghost var at: seq<nat> := [];
    AlignNone(ranked, first);
    var i := 0;
    while i < |ranked|
      invariant i <= |ranked| && |hot| <= maxHotTerminals
      invariant seen == set id | id in hot
      invariant NoDuplicates(hot) && first <= hot
      invariant Gathered(candidates, ranked, i, first, hot)
      invariant Aligned(ranked, i, first, hot, at)
    {
      var entry := ranked[i];
      AlignOne(candidates, ranked, i, first, hot, at);
      GatherOne(candidates, ranked, i, first, hot);
      if entry.sessionId in seen {
        i := i + 1;
        continue;
      }
      if |hot| >= maxHotTerminals { break; }
      AddNew(hot, entry.sessionId);
      hot, seen, at := hot + [entry.sessionId], seen + {entry.sessionId}, at + [i];
      i := i + 1;
    }
    ghost var places := RankedIsStable(candidates);
    OrderOf(candidates, ranked, places, i, activeSessionId, hot, at);
    Chosen(candidates, ranked, places, i, maxHotTerminals, activeSessionId, hot);
  }

  lemma NothingToChoose(candidates: seq<Activation>, limit: int, active: Option<string>)
    ensures InOrder(candidates, active, [])
    ensures limit >= 1 ==> HotChoice([], limit, active, [])
  {
  }

  // ---- the order of the chosen --------------------------------------------------------------

  /** Some entry of `a` is sorted before every entry of `b`. */
  ghost predicate RankedBefore(candidates: seq<Activation>, a: string, b: string) {
    exists k :: 0 <= k < |candidates| && candidates[k].sessionId == a
      && forall j :: 0 <= j < |candidates| && candidates[j].sessionId == b ==> Before(candidates, k, j)
  }

  /** The active session first, the others as they are ranked. */
  ghost predicate InOrder(candidates: seq<Activation>, active: Option<string>, hot: seq<string>) {
    forall i, j :: 0 <= i < j < |hot| ==> IsActive(active, hot[i]) || RankedBefore(candidates, hot[i], hot[j])
  }

  /** `at` tells where in the ranking each session after the first choice is met first. */
  ghost predicate Aligned(ranked: seq<Activation>, i: nat, first: seq<string>, hot: seq<string>, at: seq<nat>) {
    && |hot| == |first| + |at| && i <= |ranked|
    && (forall k :: 0 <= k < |at| ==> at[k] < i && ranked[at[k]].sessionId == hot[|first| + k])
    && (forall k, l :: 0 <= k < |at| && 0 <= l < at[k] ==> ranked[l].sessionId != hot[|first| + k])
    && (forall k, l :: 0 <= k < l < |at| ==> at[k] < at[l])
  }

  lemma AlignNone(ranked: seq<Activation>, first: seq<string>)
    ensures Aligned(ranked, 0, first, first, [])
  {
  }

  lemma AlignOne(candidates: seq<Activation>, ranked: seq<Activation>, i: nat, first: seq<string>, hot: seq<string>,
      at: seq<nat>)
    requires Aligned(ranked, i, first, hot, at) && Gathered(candidates, ranked, i, first, hot) && i < |ranked|
    ensures Aligned(ranked, i + 1, first, hot, at)
    ensures ranked[i].sessionId !in hot ==> Aligned(ranked, i + 1, first, hot + [ranked[i].sessionId], at + [i])
  {
  }

  lemma OrderOf(candidates: seq<Activation>, ranked: seq<Activation>, places: seq<nat>, i: nat,
      active: Option<string>, hot: seq<string>, at: seq<nat>)
    requires Places(candidates, ranked, places) && forall j :: 0 <= j < |candidates| ==> j in places
    requires Aligned(ranked, i, FirstChoice(candidates, active), hot, at)
    requires FirstChoice(candidates, active) <= hot
    ensures InOrder(candidates, active, hot)
  {
    var n := |FirstChoice(candidates, active)|;
    forall a, b | 0 <= a < b < |hot|
      ensures IsActive(active, hot[a]) || RankedBefore(candidates, hot[a], hot[b])
    {
      if a >= n {
        var k := places[at[a - n]];
        forall j | 0 <= j < |candidates| && candidates[j].sessionId == hot[b]
          ensures Before(candidates, k, j)
        {
          assert j in places;
          var l :| 0 <= l < |places| && places[l] == j;
          assert at[a - n] < at[b - n] <= l;
        }
        assert candidates[k].sessionId == hot[a];
      }
    }
  }

  function FirstChoice(candidates: seq<Activation>, active: Option<string>): seq<string> {
    if ActiveCandidate(candidates, active) then [active.value] else []
  }

  lemma Chosen(candidates: seq<Activation>, ranked: seq<Activation>, places: seq<nat>, i: nat, limit: nat,
               active: Option<string>, hot: seq<string>)
    requires Places(candidates, ranked, places) && i <= |ranked|
    requires forall j :: 0 <= j < |candidates| ==> j in places
    requires Gathered(candidates, ranked, i, FirstChoice(candidates, active), hot)
    requires NoDuplicates(hot) && |hot| <= limit && FirstChoice(candidates, active) <= hot
    requires i == |ranked| || |hot| >= limit
    ensures HotChoice(candidates, limit, active, hot)
  {
    forall j | 0 <= j < |candidates| && candidates[j].sessionId !in hot
      ensures |hot| == limit && forall id <- hot :: IsActive(active, id) || Outranks(candidates, id, j)
    {
      assert j in places;
      var l :| 0 <= l < |places| && places[l] == j;
      forall id <- hot | !IsActive(active, id)
        ensures Outranks(candidates, id, j)
      {
        var k :| 0 <= k < i && ranked[k].sessionId == id;
        assert Before(candidates, places[k], places[l]);
      }
    }
  }
}
