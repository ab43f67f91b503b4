/** The file-name search: a walk in pre-order that stops at a number of results or of entries. */
module FileSearch {
  import opened Common
  import opened Paths

  datatype Kind = FileEntry | DirEntry
  datatype Entry = Entry(name: string, kind: Kind)

  /** What `readDirectory` answers; an unreadable directory has no listing. */
  type Directories = string -> Option<seq<Entry>>

  // ---- paths -----------------------------------------------------------------------

  function StripLeadingSlashes(s: string): string {
    if s != "" && s[0] == '/' then StripLeadingSlashes(s[1..]) else s
  }

  /** `replace(/\/+/g, '/')`. */
  function CollapseSlashes(s: string): string {
    if s == "" then ""
    else if |s| > 1 && s[0] == '/' && s[1] == '/' then CollapseSlashes(s[1..])
    else [s[0]] + CollapseSlashes(s[1..])
  }

  function JoinChildPath(dirPath: string, name: string): string {
    var path := CollapseSlashes(StripTrailingSlashes(dirPath) + "/" + name);
    if path != "" && path[0] == '/' then path else "/" + path
  }

  function RelativeFromRoot(rootPath: string, resourcePath: string): string {
    var root := StripTrailingSlashes(rootPath);
    var rel :=
      if root != "" && (resourcePath == root || root + "/" <= resourcePath) then resourcePath[|root|..]
      else resourcePath;
    StripLeadingSlashes(rel)
  }

  predicate PlainName(name: string) {
    name != "" && '/' !in name
  }

  /** The names of a path, each after a slash. */
  function Tail(names: seq<string>): string {
    if names == [] then "" else Tail(names[..|names| - 1]) + "/" + names[|names| - 1]
  }

  predicate NoDoubleSlash(s: string) {
    |s| < 2 || (!(s[0] == '/' && s[1] == '/') && NoDoubleSlash(s[1..]))
  }

  predicate EndsInSlash(s: string) {
    s != "" && s[|s| - 1] == '/'
  }

  /** A root without its trailing slashes: empty, or an absolute path with single slashes. */
  predicate CleanBase(base: string) {
    base != "" ==> base[0] == '/' && !EndsInSlash(base) && NoDoubleSlash(base)
  }

  lemma {:induction false} CollapseNothing(s: string)
    requires NoDoubleSlash(s)
    ensures CollapseSlashes(s) == s
  {
    if s != "" {
      CollapseNothing(s[1..]);
    }
  }

  lemma {:induction false} SingleSlashes(a: string, b: string)
    requires NoDoubleSlash(a) && NoDoubleSlash(b) && !EndsInSlash(a)
    ensures NoDoubleSlash(a + b)
  {
    if a == "" {
      assert a + b == b;
    } else {
      assert (a + b)[1..] == a[1..] + b;
      if |a| > 1 {
        SingleSlashes(a[1..], b);
      }
    }
  }

  lemma {:induction false} NameHasNoSlash(name: string)
    requires '/' !in name
    ensures NoDoubleSlash(name) && NoDoubleSlash("/" + name)
  {
    if name != "" {
      NameHasNoSlash(name[1..]);
      assert name[0] in name;
      assert ("/" + name)[1..] == name;
    }
  }

  lemma {:induction false} TailShape(names: seq<string>)
    requires forall n <- names :: PlainName(n)
    ensures var tail := Tail(names);
      NoDoubleSlash(tail) && !EndsInSlash(tail) && (names != [] ==> |tail| > 1 && tail[0] == '/' && tail[1] != '/')
  {
    if names != [] {
      var before, name := names[..|names| - 1], names[|names| - 1];
      TailShape(before);
      assert PlainName(name) && name[|name| - 1] in name && name[0] in name;
      NameHasNoSlash(name);
      SingleSlashes(Tail(before), "/" + name);
      assert Tail(names) == Tail(before) + ("/" + name);
    }
  }

  lemma StripNothing(s: string)
    requires !EndsInSlash(s)
    ensures StripTrailingSlashes(s) == s
  {
  }

  /** Below a clean root, the walk names a child by its directory's path and its name. */
  lemma ChildPath(root: string, base: string, names: seq<string>, name: string)
    requires StripTrailingSlashes(root) == base && CleanBase(base)
    requires (forall n <- names :: PlainName(n)) && PlainName(name)
    ensures JoinChildPath(if names == [] then root else base + Tail(names), name) == base + Tail(names + [name])
  {
    hide NoDoubleSlash, StripTrailingSlashes;
    var all := names + [name];
    assert all[..|names|] == names;
    TailShape(names);
    TailShape(all);
    SingleSlashes(base, Tail(all));
    var dir := if names == [] then root else base + Tail(names);
    if names != [] {
      StripNothing(dir);
    }
    assert base + (Tail(names) + "/" + name) == base + Tail(names) + "/" + name;
    hide Tail;
    JoinIs(dir, name, base + Tail(all));
  }

  lemma JoinIs(dirPath: string, name: string, child: string)
    requires StripTrailingSlashes(dirPath) + "/" + name == child
    requires NoDoubleSlash(child) && child[0] == '/'
    ensures JoinChildPath(dirPath, name) == child
  {
    CollapseNothing(child);
  }

  /** A run of slashes counts as one. */
  lemma {:induction false} CollapseRun(before: string, n: nat, after: string)
    requires NoDoubleSlash(before) && !EndsInSlash(before) && n >= 1
    requires after == "" || after[0] != '/'
    ensures CollapseSlashes(before + Slashes(n) + after) == before + "/" + CollapseSlashes(after)
    decreases |before| + n
  {
    var s := before + Slashes(n) + after;
    if before != "" {
      assert s[1..] == before[1..] + Slashes(n) + after;
      CollapseRun(before[1..], n, after);
    } else if n > 1 {
      assert s[1..] == "" + Slashes(n - 1) + after;
      CollapseRun("", n - 1, after);
    } else {
      assert s[1..] == after;
    }
  }

  /** A child of a directory that is not named from the root is taken to be below the root. */
  lemma ChildOfRelative(dir: string, name: string)
    requires NoDoubleSlash(dir) && dir != "" && dir[0] != '/' && !EndsInSlash(dir) && PlainName(name)
    ensures JoinChildPath(dir, name) == "/" + (dir + "/" + name)
  {
    StripNothing(dir);
    NameHasNoSlash(name);
    assert name[0] in name;
    SingleSlashes(dir, "/" + name);
    assert dir + ("/" + name) == dir + "/" + name;
    CollapseNothing(dir + "/" + name);
  }

  /** And it matches the child by exactly the names that lead from the root down to it. */
  lemma MatchedBy(root: string, base: string, names: seq<string>)
    requires StripTrailingSlashes(root) == base && CleanBase(base)
    requires names != [] && forall n <- names :: PlainName(n)
    ensures RelativeFromRoot(root, base + Tail(names)) == Tail(names)[1..]
  {
    TailShape(names);
    RelativeTail(root, base, Tail(names));
  }

  lemma RelativeTail(root: string, base: string, tail: string)
    requires StripTrailingSlashes(root) == base
    requires |tail| > 1 && tail[0] == '/' && tail[1] != '/'
    ensures RelativeFromRoot(root, base + tail) == tail[1..]
  {
    hide StripTrailingSlashes;
    var child := base + tail;
    assert child[|base|..] == tail;
    assert base + "/" <= child;
    StripOne(tail);
  }

  lemma StripOne(tail: string)
    requires |tail| > 1 && tail[0] == '/' && tail[1] != '/'
    ensures StripLeadingSlashes(tail) == tail[1..]
  {
  }

  // ---- the simple search -----------------------------------------------------------------

  /** An entry met by the walk. */
  datatype Visit = Visit(path: string, depth: nat, matched: bool)

  datatype Query = Query(
    root: string,
    dirs: Directories,
    matches: string -> bool,
    maxDepth: nat,
    maxWalkEntries: nat,
    maxResults: int)

  function VisitOf(q: Query, dirPath: string, depth: nat, name: string): Visit {
    var child := JoinChildPath(dirPath, name);
    Visit(child, depth, q.matches(RelativeFromRoot(q.root, child)))
  }

  /** All entries below a directory, in pre-order, down to the greatest depth. */
  function Below(q: Query, dirPath: string, depth: nat): seq<Visit>
    decreases if depth > q.maxDepth then 0 else q.maxDepth - depth + 1, 2, 0
  {
    if depth > q.maxDepth || q.dirs(dirPath).None? then [] else Entries(q, dirPath, depth, q.dirs(dirPath).value)
  }

  function Entries(q: Query, dirPath: string, depth: nat, entries: seq<Entry>): seq<Visit>
    requires depth <= q.maxDepth
    decreases q.maxDepth - depth + 1, 1, |entries|
  {
    if entries == [] then []
    else EntryAndBelow(q, dirPath, depth, entries[0]) + Entries(q, dirPath, depth, entries[1..])
  }

  function EntryAndBelow(q: Query, dirPath: string, depth: nat, entry: Entry): seq<Visit>
    requires depth <= q.maxDepth
    decreases q.maxDepth - depth + 1, 0, 0
  {
    var visit := VisitOf(q, dirPath, depth, entry.name);
    [visit] + if entry.kind.DirEntry? then Below(q, visit.path, depth + 1) else []
  }

  function Matched(visits: seq<Visit>): seq<string> {
    if visits == [] then []
    else
      var last := visits[|visits| - 1];
      Matched(visits[..|visits| - 1]) + if last.matched then [last.path] else []
  }

  lemma {:induction false} MatchedAppend(a: seq<Visit>, b: seq<Visit>)
    ensures Matched(a + b) == Matched(a) + Matched(b)
  {
    if b == [] {
      assert a + b == a;
    } else {
      assert (a + b)[..|a + b| - 1] == a + b[..|b| - 1];
      MatchedAppend(a, b[..|b| - 1]);
    }
  }

  /** How many results end the search: one is always taken. */
  function Wanted(q: Query): nat {
    if q.maxResults < 1 then 1 else q.maxResults
  }

  // ---- what a stretch of the walk does -----------------------------------------------------

  /** `last` is the depth of the entry counted last. */
  datatype Found = Found(paths: seq<string>, walked: nat, limitHit: bool, last: int)

  const NOTHING := Found([], 0, false, -1)

  /** The entries lie deeper than a given depth. */
  ghost predicate Inside(visits: seq<Visit>, depth: int) {
    forall v <- visits :: v.depth > depth
  }

  /** From `a` to `b` the walk has taken the first `n` of `visits`, and stopped there for a reason. */
  ghost predicate Took(q: Query, a: Found, b: Found, visits: seq<Visit>, n: nat) {
    && n <= |visits|
    && b.paths == a.paths + Matched(visits[..n])
    && a.walked + n <= q.maxWalkEntries
    && b.last == (if n > 0 then visits[n - 1].depth else a.last)
    && if b.limitHit
       then if |b.paths| >= Wanted(q) then |b.paths| == Wanted(q) && b.walked == a.walked + n
            else a.walked + n == q.maxWalkEntries && b.walked == q.maxWalkEntries + 1 && !Inside(visits[n..], b.last)
       else |b.paths| < Wanted(q) && b.walked == a.walked + n
            && (n < |visits| ==> b.walked == q.maxWalkEntries && Inside(visits[n..], b.last))
  }

  ghost predicate Walks(q: Query, a: Found, b: Found, visits: seq<Visit>) {
    if a.limitHit then b == a else exists n: nat :: Took(q, a, b, visits, n)
  }

  ghost predicate Fair(q: Query, a: Found) {
    !a.limitHit ==> |a.paths| < Wanted(q) && a.walked <= q.maxWalkEntries
  }

  lemma WalksNothing(q: Query, a: Found)
    requires Fair(q, a)
    ensures Walks(q, a, a, [])
  {
    if !a.limitHit {
      assert a.paths + Matched([][..0]) == a.paths;
      assert Took(q, a, a, [], 0);
    }
  }

  /** With the entry budget used up, a directory is passed over without a word. */
  lemma PassedOver(q: Query, a: Found, visits: seq<Visit>)
    requires Fair(q, a) && (!a.limitHit ==> a.walked == q.maxWalkEntries && Inside(visits, a.last))
    ensures Walks(q, a, a, visits)
  {
    if !a.limitHit {
      assert visits[..0] == [] && visits[0..] == visits;
      assert a.paths + Matched(visits[..0]) == a.paths;
      assert Took(q, a, a, visits, 0);
    }
  }

  lemma TookBoth(q: Query, a: Found, b: Found, c: Found, first: seq<Visit>, second: seq<Visit>, m: nat)
    requires Took(q, a, b, first, |first|) && !b.limitHit && Took(q, b, c, second, m)
    ensures Took(q, a, c, first + second, |first| + m)
  {
    hide Matched;
    var all := first + second;
    assert all[..|first| + m] == first + second[..m];
    assert all[|first| + m..] == second[m..];
    assert first[..|first|] == first;
    MatchedAppend(first, second[..m]);
    assert a.paths + Matched(first) + Matched(second[..m]) == a.paths + (Matched(first) + Matched(second[..m]));
  }

  lemma SuffixInside(first: seq<Visit>, second: seq<Visit>, n: nat, depth: int)
    requires n <= |first|
    ensures Inside((first + second)[n..], depth) <==> Inside(first[n..], depth) && Inside(second, depth)
  {
    assert (first + second)[n..] == first[n..] + second;
    assert forall v :: v in first[n..] + second <==> v in first[n..] || v in second;
  }

  lemma WalksOn(q: Query, a: Found, b: Found, c: Found, first: seq<Visit>, second: seq<Visit>)
    requires Walks(q, a, b, first) && Walks(q, b, c, second)
    ensures Walks(q, a, c, first + second)
  {
    if !a.limitHit {
      hide Matched;
      var n: nat :| Took(q, a, b, first, n);
      var all := first + second;
      if b.limitHit {
        assert all[..n] == first[..n];
        SuffixInside(first, second, n, b.last);
        assert Took(q, a, c, all, n);
      } else {
        var m: nat :| Took(q, b, c, second, m);
        if n == |first| {
          TookBoth(q, a, b, c, first, second, m);
        } else {
          assert m == 0 && second[..0] == [];
          assert all[..n] == first[..n];
          assert Matched([]) == [] && b.paths + Matched([]) == b.paths;
          assert second[0..] == second;
          SuffixInside(first, second, n, b.last);
          assert Took(q, a, c, all, n);
        }
      }
    }
  }

  lemma StoppedStays(q: Query, a: Found, b: Found, first: seq<Visit>, second: seq<Visit>)
    requires Walks(q, a, b, first) && b.limitHit
    ensures Walks(q, a, b, first + second)
  {
    WalksOn(q, a, b, b, first, second);
  }

  function Step(q: Query, a: Found, visit: Visit): Found {
    if a.walked + 1 > q.maxWalkEntries then Found(a.paths, a.walked + 1, true, a.last)
    else
      var paths := a.paths + if visit.matched then [visit.path] else [];
      Found(paths, a.walked + 1, visit.matched && |paths| >= q.maxResults, visit.depth)
  }

  lemma StepWalks(q: Query, a: Found, visit: Visit, later: seq<Visit>)
    requires Fair(q, a) && !a.limitHit
    requires a.walked + 1 > q.maxWalkEntries ==> visit.depth <= a.last
    ensures Fair(q, Step(q, a, visit))
    ensures a.walked + 1 <= q.maxWalkEntries ==> Walks(q, a, Step(q, a, visit), [visit])
    ensures a.walked + 1 > q.maxWalkEntries ==> Walks(q, a, Step(q, a, visit), [visit] + later)
  {
    var b := Step(q, a, visit);
    if a.walked + 1 > q.maxWalkEntries {
      assert ([visit] + later)[..0] == [] && ([visit] + later)[0..] == [visit] + later;
      assert visit in [visit] + later;
      assert a.paths + Matched([]) == a.paths;
      assert Took(q, a, b, [visit] + later, 0);
    } else {
      assert [visit][..1] == [visit] && [visit][..0] == [];
      assert Matched([visit]) == if visit.matched then [visit.path] else [];
      assert Took(q, a, b, [visit], 1);
    }
  }

  // ---- the walker -----------------------------------------------------------------------

  class Walker {
    const q: Query
    var paths: seq<string>
    var walked: nat
    var limitHit: bool
    ghost var last: int

    ghost function State(): Found
      reads this
    {
      Found(paths, walked, limitHit, last)
    }

    constructor (q: Query)
      ensures this.q == q && State() == NOTHING
    {
      this.q := q;
      paths, walked, limitHit, last := [], 0, false, -1;
    }

    /** One entry: counted, and kept if it matches. */
    method TakeEntry(dirPath: string, ghost depth: nat, name: string) returns (childPath: string)
      requires Fair(q, State()) && !limitHit
      modifies this
      ensures State() == Step(q, old(State()), VisitOf(q, dirPath, depth, name))
      ensures childPath == VisitOf(q, dirPath, depth, name).path
      ensures if old(walked) < q.maxWalkEntries then last == depth else limitHit && last == old(last)
    {
      hide JoinChildPath, RelativeFromRoot;
      childPath := JoinChildPath(dirPath, name);
      walked := walked + 1;
      if walked > q.maxWalkEntries {
        limitHit := true;
        return;
      }
      last := depth;
      if q.matches(RelativeFromRoot(q.root, childPath)) {
        paths := paths + [childPath];
        if |paths| >= q.maxResults {
          limitHit := true;
        }
      }
    }

    /** One turn of the loop: the entry, and what lies below it. */
    method WalkEntry(dirPath: string, depth: nat, entry: Entry)
      requires depth <= q.maxDepth && Fair(q, State()) && !limitHit
      requires walked >= q.maxWalkEntries ==> depth <= last
      modifies this
      ensures Fair(q, State()) && (limitHit || last >= depth) && (last == old(last) || last >= depth)
      ensures Walks(q, old(State()), State(), EntryAndBelow(q, dirPath, depth, entry))
      decreases q.maxDepth - depth + 1, 0
    {
      hide Took, Walks, Fair, Step, Below, VisitOf;
      ghost var start, visit := State(), VisitOf(q, dirPath, depth, entry.name);
      VisitDepth(q, dirPath, depth, entry.name);
      ghost var sub := if entry.kind.DirEntry? then Below(q, visit.path, depth + 1) else [];
      var childPath := TakeEntry(dirPath, depth, entry.name);
      EntryTaken(q, start, State(), visit, sub);
      if limitHit { return; }
      if entry.kind.DirEntry? {
        ghost var before := State();
        Walk(childPath, depth + 1);
        WalksOn(q, start, before, State(), [visit], sub);
      } else {
        assert [visit] + sub == [visit];
      }
    }

    method Walk(dirPath: string, depth: nat)
      requires Fair(q, State()) && (!limitHit && walked >= q.maxWalkEntries ==> last < depth)
      modifies this
      ensures last == old(last) || last >= depth
      ensures Fair(q, State()) && Walks(q, old(State()), State(), Below(q, dirPath, depth))
      decreases if depth > q.maxDepth then 0 else q.maxDepth - depth + 1, 1
    {
      hide Took, Walks, Fair, Below, Entries, EntryAndBelow;
      ghost var start := State();
      WalksNothing(q, start);
      if limitHit || depth > q.maxDepth || walked >= q.maxWalkEntries {
        NotEntered(q, start, dirPath, depth);
        return;
      }
      var listing := q.dirs(dirPath);
      BelowIs(q, dirPath, depth);
      if listing.None? { return; }
      var entries := listing.value;
      ghost var done: seq<Visit> := [];
      var i := 0;
      while i < |entries|
        invariant i <= |entries| && Fair(q, State())
        invariant Walks(q, start, State(), done)
        invariant last == start.last || last >= depth
        invariant if i == 0 then !limitHit && walked < q.maxWalkEntries else limitHit || last >= depth
        invariant done + Entries(q, dirPath, depth, entries[i..]) == Below(q, dirPath, depth)
        decreases |entries| - i
      {
        ghost var here := State();
        if limitHit {
          StoppedStays(q, start, here, done, Entries(q, dirPath, depth, entries[i..]));
          return;
        }
        EntriesIs(q, dirPath, depth, entries, i, done);
        WalkEntry(dirPath, depth, entries[i]);
        WalksOn(q, start, here, State(), done, EntryAndBelow(q, dirPath, depth, entries[i]));
        done := done + EntryAndBelow(q, dirPath, depth, entries[i]);
        i := i + 1;
      }
      NoEntries(q, dirPath, depth);
      assert entries[i..] == [] && done + [] == done;
    }
  }

  lemma VisitDepth(q: Query, dirPath: string, depth: nat, name: string)
    ensures VisitOf(q, dirPath, depth, name).depth == depth
  {
  }

  lemma NoEntries(q: Query, dirPath: string, depth: nat)
    requires depth <= q.maxDepth
    ensures Entries(q, dirPath, depth, []) == []
  {
  }

  lemma EntriesIs(q: Query, dirPath: string, depth: nat, entries: seq<Entry>, i: nat, done: seq<Visit>)
    requires depth <= q.maxDepth && i < |entries|
    ensures done + Entries(q, dirPath, depth, entries[i..])
         == done + EntryAndBelow(q, dirPath, depth, entries[i]) + Entries(q, dirPath, depth, entries[i + 1..])
  {
  }

  /** Taking an entry extends the walk by it, or ends the walk for everything after. */
  lemma EntryTaken(q: Query, here: Found, b: Found, visit: Visit, later: seq<Visit>)
    requires Fair(q, here) && !here.limitHit && b == Step(q, here, visit)
    requires here.walked + 1 > q.maxWalkEntries ==> visit.depth <= here.last
    ensures Fair(q, b)
    ensures b.limitHit ==> Walks(q, here, b, [visit] + later)
    ensures !b.limitHit ==> Walks(q, here, b, [visit])
  {
    hide Took, Walks;
    StepWalks(q, here, visit, later);
    if here.walked + 1 <= q.maxWalkEntries && b.limitHit {
      StoppedStays(q, here, b, [visit], later);
    }
  }

  lemma {:induction false} BelowIsDeep(q: Query, dirPath: string, depth: nat)
    ensures forall v <- Below(q, dirPath, depth) :: v.depth >= depth
    decreases if depth > q.maxDepth then 0 else q.maxDepth - depth + 1, 2, 0
  {
    if depth <= q.maxDepth && q.dirs(dirPath).Some? {
      EntriesAreDeep(q, dirPath, depth, q.dirs(dirPath).value);
    }
  }

  lemma {:induction false} EntriesAreDeep(q: Query, dirPath: string, depth: nat, entries: seq<Entry>)
    requires depth <= q.maxDepth
    ensures forall v <- Entries(q, dirPath, depth, entries) :: v.depth >= depth
    decreases q.maxDepth - depth + 1, 1, |entries|
  {
    if entries != [] {
      BelowIsDeep(q, VisitOf(q, dirPath, depth, entries[0].name).path, depth + 1);
      EntriesAreDeep(q, dirPath, depth, entries[1..]);
    }
  }

  lemma NotEntered(q: Query, a: Found, dirPath: string, depth: nat)
    requires Fair(q, a) && (a.limitHit || depth > q.maxDepth || a.walked >= q.maxWalkEntries)
    requires !a.limitHit && a.walked >= q.maxWalkEntries ==> a.last < depth
    ensures Walks(q, a, a, Below(q, dirPath, depth))
  {
    if !a.limitHit {
      if depth > q.maxDepth {
        WalksNothing(q, a);
      } else {
        BelowIsDeep(q, dirPath, depth);
        PassedOver(q, a, Below(q, dirPath, depth));
      }
    }
  }

  lemma BelowIs(q: Query, dirPath: string, depth: nat)
    requires depth <= q.maxDepth
    ensures Below(q, dirPath, depth) ==
      if q.dirs(dirPath).None? then [] else Entries(q, dirPath, depth, q.dirs(dirPath).value)
  {
  }

  // ---- what is below a directory ------------------------------------------------------------

  /** Listings hold names, not paths, and the root has single slashes. */
  ghost predicate WellNamed(q: Query, base: string) {
    && StripTrailingSlashes(q.root) == base && CleanBase(base)
    && forall dir, e :: q.dirs(dir).Some? && e in q.dirs(dir).value ==> PlainName(e.name)
  }

  function Place(q: Query, base: string, names: seq<string>): string {
    if names == [] then q.root else base + Tail(names)
  }

  /** The listing of the first `i` names has the next one, as a directory if more names follow. */
  ghost predicate Listed(q: Query, base: string, names: seq<string>, i: nat)
    requires i < |names|
  {
    var listing := q.dirs(Place(q, base, names[..i]));
    && listing.Some?
    && exists kind :: Entry(names[i], kind) in listing.value && (i < |names| - 1 ==> kind.DirEntry?)
  }

  /** From the `k`-th name on, the listings lead along the names. */
  ghost predicate Leads(q: Query, base: string, k: nat, names: seq<string>) {
    k < |names| <= q.maxDepth + 1 && forall i :: k <= i < |names| ==> Listed(q, base, names, i)
  }

  /** The entry that the names lead to, matched by just these names. */
  function VisitAt(q: Query, base: string, names: seq<string>): Visit
    requires names != []
  {
    var tail := Tail(names);
    Visit(base + tail, |names| - 1, q.matches(if tail == "" then "" else tail[1..]))
  }

  lemma ChildVisit(q: Query, base: string, dir: seq<string>, name: string)
    requires WellNamed(q, base) && PlainName(name) && forall n <- dir :: PlainName(n)
    ensures VisitOf(q, Place(q, base, dir), |dir|, name) == VisitAt(q, base, dir + [name])
    ensures VisitOf(q, Place(q, base, dir), |dir|, name).path == Place(q, base, dir + [name])
  {
    hide PlainName, CleanBase, JoinChildPath, RelativeFromRoot, StripTrailingSlashes;
    ChildPath(q.root, base, dir, name);
    MatchedBy(q.root, base, dir + [name]);
    TailShape(dir + [name]);
  }

  lemma {:induction false} EntriesHold(q: Query, dirPath: string, depth: nat, entries: seq<Entry>, v: Visit)
    requires depth <= q.maxDepth
    ensures v in Entries(q, dirPath, depth, entries) <==>
      exists e :: e in entries && v in EntryAndBelow(q, dirPath, depth, e)
    decreases |entries|
  {
    if entries != [] {
      hide EntryAndBelow;
      EntriesHold(q, dirPath, depth, entries[1..], v);
      var first, others := EntryAndBelow(q, dirPath, depth, entries[0]), Entries(q, dirPath, depth, entries[1..]);
      assert v in first + others <==> v in first || v in others;
      if v in first {
        assert entries[0] in entries;
      } else if v in others {
        var e :| e in entries[1..] && v in EntryAndBelow(q, dirPath, depth, e);
        assert e in entries;
      }
      if e :| e in entries && v in EntryAndBelow(q, dirPath, depth, e) {
        assert e == entries[0] || e in entries[1..];
      }
    }
  }

  lemma BelowHolds(q: Query, dirPath: string, depth: nat, v: Visit)
    requires depth <= q.maxDepth
    ensures v in Below(q, dirPath, depth) <==>
      q.dirs(dirPath).Some? && exists e :: e in q.dirs(dirPath).value && v in EntryAndBelow(q, dirPath, depth, e)
  {
    hide Entries, EntryAndBelow;
    if q.dirs(dirPath).Some? { EntriesHold(q, dirPath, depth, q.dirs(dirPath).value, v); }
  }

  lemma {:induction false} MetIsLedTo(q: Query, base: string, dir: seq<string>, v: Visit) returns (names: seq<string>)
    requires WellNamed(q, base) && (forall n <- dir :: PlainName(n)) && v in Below(q, Place(q, base, dir), |dir|)
    ensures |dir| < |names| && names[..|dir|] == dir && Leads(q, base, |dir|, names) && v == VisitAt(q, base, names)
    decreases q.maxDepth + 1 - |dir|
  {
    hide PlainName, CleanBase, VisitAt, VisitOf, Below, Place;
    var depth, dirPath := |dir|, Place(q, base, dir);
    assert depth <= q.maxDepth by { NothingTooDeep(q, dirPath, depth); }
    BelowHolds(q, dirPath, depth, v);
    var e :| e in q.dirs(dirPath).value && v in EntryAndBelow(q, dirPath, depth, e);
    ChildVisit(q, base, dir, e.name);
    var child := dir + [e.name];
    if v == VisitOf(q, dirPath, depth, e.name) {
      names := child;
    } else {
      names := MetIsLedTo(q, base, child, v);
      assert names[..depth] == names[..|child|][..depth] == dir;
    }
    assert names[depth] == names[..|child|][depth] == e.name;
    assert Entry(names[depth], e.kind) in q.dirs(dirPath).value;
    assert Listed(q, base, names, depth);
  }

  lemma NothingTooDeep(q: Query, dirPath: string, depth: nat)
    ensures depth > q.maxDepth ==> Below(q, dirPath, depth) == []
  {
  }

  lemma {:induction false} LedToIsMet(q: Query, base: string, k: nat, names: seq<string>)
    requires WellNamed(q, base) && (forall n <- names :: PlainName(n)) && Leads(q, base, k, names)
    ensures VisitAt(q, base, names) in Below(q, Place(q, base, names[..k]), k)
    decreases |names| - k
  {
    hide PlainName, CleanBase, VisitAt, VisitOf, Below, Place;
    var dir := names[..k];
    var dirPath, v := Place(q, base, dir), VisitAt(q, base, names);
    assert Listed(q, base, names, k);
    var kind :| Entry(names[k], kind) in q.dirs(dirPath).value && (k < |names| - 1 ==> kind.DirEntry?);
    assert names[..k + 1] == dir + [names[k]];
    assert forall n :: n in dir ==> n in names;
    ChildVisit(q, base, dir, names[k]);
    if k == |names| - 1 {
      assert names[..k + 1] == names;
    } else {
      LedToIsMet(q, base, k + 1, names);
    }
    assert v in EntryAndBelow(q, dirPath, k, Entry(names[k], kind));
    BelowHolds(q, dirPath, k, v);
  }

  ghost predicate LedTo(q: Query, base: string, names: seq<string>, v: Visit) {
    (forall n <- names :: PlainName(n)) && Leads(q, base, 0, names) && v == VisitAt(q, base, names)
  }

  /** The walk meets an entry if and only if the listings lead to it from the root, through no more
      directories than the greatest depth; and it matches it by the names on that way. */
  lemma MeetsExactly(q: Query, base: string, v: Visit)
    requires WellNamed(q, base)
    ensures v in Below(q, q.root, 0) <==> exists names :: LedTo(q, base, names, v)
  {
    hide PlainName, VisitAt, Below, WellNamed, Listed;
    assert Place(q, base, []) == q.root;
    if v in Below(q, q.root, 0) {
      var names := MetIsLedTo(q, base, [], v);
      LedNamesArePlain(q, base, names);
      assert LedTo(q, base, names, v);
    }
    if names :| LedTo(q, base, names, v) {
      assert names[..0] == [];
      LedToIsMet(q, base, 0, names);
    }
  }

  lemma LedNamesArePlain(q: Query, base: string, names: seq<string>)
    requires WellNamed(q, base) && Leads(q, base, 0, names)
    ensures forall n <- names :: PlainName(n)
  {
    hide PlainName, CleanBase, StripTrailingSlashes, Place;
    forall n <- names
      ensures PlainName(n)
    {
      var i :| 0 <= i < |names| && names[i] == n;
      assert Listed(q, base, names, i);
    }
  }

  // ---- what the search returns --------------------------------------------------------------

  function First<T>(s: seq<T>, n: nat): seq<T> {
    if |s| <= n then s else s[..n]
  }

  /** The search in one line: of the entries in pre-order down to the greatest depth, the matches
      among the first `maxWalkEntries`, and of those the first `maxResults` (at least one). */
  function SimpleSearch(q: Query): seq<string> {
    First(Matched(First(Below(q, q.root, 0), q.maxWalkEntries)), Wanted(q))
  }

  lemma {:induction false} MatchedPrefix(visits: seq<Visit>, n: nat)
    requires n <= |visits|
    ensures Matched(visits[..n]) <= Matched(visits)
  {
    assert visits == visits[..n] + visits[n..];
    MatchedAppend(visits[..n], visits[n..]);
  }

  /** The search says that a limit was hit exactly if it has all the results wanted, or if some
      entry beyond the budget lies outside the entry that the budget ended with. */
  ghost predicate SaysLimit(q: Query) {
    var visits := Below(q, q.root, 0);
    || |Matched(First(visits, q.maxWalkEntries))| >= Wanted(q)
    || (0 < q.maxWalkEntries < |visits| && !Inside(visits[q.maxWalkEntries..], visits[q.maxWalkEntries - 1].depth))
  }

  lemma WalkedIsSimple(q: Query, b: Found)
    requires Walks(q, NOTHING, b, Below(q, q.root, 0))
    ensures b.paths == SimpleSearch(q)
    ensures b.limitHit <==> SaysLimit(q)
  {
    var visits := Below(q, q.root, 0);
    hide Below, Matched;
    var n: nat :| Took(q, NOTHING, b, visits, n);
    assert [] + Matched(visits[..n]) == Matched(visits[..n]);
    var scope := First(visits, q.maxWalkEntries);
    assert visits[..n] == scope[..n];
    MatchedPrefix(scope, n);
    if !b.limitHit || |b.paths| < Wanted(q) {
      assert scope[..n] == scope;
    }
  }

  /** The budgeted walk returns just what the simple search does. */
  method WalkMatchPaths(q: Query) returns (paths: seq<string>, limitHit: bool)
    ensures paths == SimpleSearch(q)
    ensures limitHit <==> SaysLimit(q)
  {
    BelowIsDeep(q, q.root, 0);
    var walker := new Walker(q);
    walker.Walk(q.root, 0);
    paths, limitHit := walker.paths, walker.limitHit;
    WalkedIsSimple(q, walker.State());
  }

  /** The result is a prefix of all matches, of the length wanted at most; with no limit reported
      and no more entries than the budget, it is all of them. */
  lemma SearchIsPrefix(q: Query)
    ensures SimpleSearch(q) <= Matched(Below(q, q.root, 0)) && |SimpleSearch(q)| <= Wanted(q)
    ensures |Below(q, q.root, 0)| <= q.maxWalkEntries && !SaysLimit(q) ==>
      SimpleSearch(q) == Matched(Below(q, q.root, 0))
  {
    var visits := Below(q, q.root, 0);
    if |visits| > q.maxWalkEntries {
      MatchedPrefix(visits, q.maxWalkEntries);
    }
  }

  /** No limit is reported although matches are missing, if and only if the budget holds too few
      matches to end the search, some match lies beyond it, and all that lies beyond is inside the
      entry that the budget ended with (or there was no budget at all). */
  lemma SilentlyIncompleteExactly(q: Query)
    ensures
      var visits, n := Below(q, q.root, 0), q.maxWalkEntries;
      !SaysLimit(q) && SimpleSearch(q) != Matched(visits) <==>
        && |Matched(First(visits, n))| < Wanted(q)
        && n < |visits| && (exists i :: n <= i < |visits| && visits[i].matched)
        && (n == 0 || Inside(visits[n..], visits[n - 1].depth))
  {
    hide Below, Matched;
    var visits := Below(q, q.root, 0);
    if |visits| > q.maxWalkEntries {
      MissingMatches(visits, q.maxWalkEntries);
    }
  }

  lemma MissingMatches(visits: seq<Visit>, n: nat)
    requires n <= |visits|
    ensures Matched(visits[..n]) != Matched(visits) <==> exists i :: n <= i < |visits| && visits[i].matched
  {
    hide Matched;
    var before, after := visits[..n], visits[n..];
    assert visits == before + after;
    MatchedAppend(before, after);
    SomeMatched(after);
    assert |Matched(visits)| == |Matched(before)| + |Matched(after)|;
    assert forall i :: n <= i < |visits| ==> visits[i] == after[i - n];
    assert forall i :: 0 <= i < |after| ==> after[i] == visits[n + i];
  }

  lemma {:induction false} SomeMatched(visits: seq<Visit>)
    ensures Matched(visits) != [] <==> exists i :: 0 <= i < |visits| && visits[i].matched
  {
    if visits != [] {
      SomeMatched(visits[..|visits| - 1]);
    }
  }

  lemma ChildPaths()
    ensures JoinChildPath("/", "d") == "/d" && JoinChildPath("/d", "f") == "/d/f"
  {
    assert "" + "/" + "d" == "/d" && "/d" + "/" + "f" == "/d/f";
    assert "/d/f"[1..] == "d/f" && "d/f"[1..] == "/f" && "/f"[1..] == "f" && "f"[1..] == "";
    assert "/d"[1..] == "d" && "d"[1..] == "";
    assert CollapseSlashes("f") == "f" && CollapseSlashes("/f") == "/f" && CollapseSlashes("d/f") == "d/f";
    assert CollapseSlashes("d") == "d";
    assert "/"[..0] == "";
    assert StripTrailingSlashes("/") == "" && StripTrailingSlashes("/d") == "/d";
  }

  /** Such a search: one directory, whose file is not met. */
  lemma SilentlyIncompleteWitness(dirs: Directories)
    requires dirs("/") == Some([Entry("d", DirEntry)]) && dirs("/d") == Some([Entry("f", FileEntry)])
    ensures
      var q := Everything(dirs);
      !SaysLimit(q) && SimpleSearch(q) == ["/d"] && Matched(Below(q, "/", 0)) == ["/d", "/d/f"]
  {
    var q := Everything(dirs);
    WitnessVisits(dirs);
    hide Below;
    var d, f := Visit("/d", 0, true), Visit("/d/f", 1, true);
    assert [d, f][..1] == [d] && [d, f][1..] == [f] && [d][..0] == [];
    assert Matched([d]) == ["/d"] && Matched([d, f]) == ["/d", "/d/f"];
    assert First(Below(q, "/", 0), 1) == [d];
    assert Inside([f], 0);
  }

  /** Every entry matches, and the budget is one entry. */
  function Everything(dirs: Directories): Query {
    Query("/", dirs, (path: string) => true, 40, 1, 10)
  }

  lemma WitnessVisits(dirs: Directories)
    requires dirs("/") == Some([Entry("d", DirEntry)]) && dirs("/d") == Some([Entry("f", FileEntry)])
    ensures Below(Everything(dirs), "/", 0) == [Visit("/d", 0, true), Visit("/d/f", 1, true)]
  {
    var q := Everything(dirs);
    ChildPaths();
    hide JoinChildPath;
    var d, f := Visit("/d", 0, true), Visit("/d/f", 1, true);
    assert VisitOf(q, "/", 0, "d") == d && VisitOf(q, "/d", 1, "f") == f;
    hide VisitOf;
    NoEntries(q, "/d", 1);
    NoEntries(q, "/", 0);
    assert EntryAndBelow(q, "/d", 1, Entry("f", FileEntry)) == [f];
    assert Entries(q, "/d", 1, [Entry("f", FileEntry)]) == [f];
    assert Below(q, "/d", 1) == [f];
    hide Below;
    assert EntryAndBelow(q, "/", 0, Entry("d", DirEntry)) == [d, f];
    hide EntryAndBelow;
    assert Entries(q, "/", 0, [Entry("d", DirEntry)]) == [d, f];
    BelowIs(q, "/", 0);
  }
}
