/** How a Git status becomes the groups of the source control view. */
module ScmGroups {
  import opened Common
  import opened Text
  import opened Porcelain

  datatype Decorations = Decorations(strikeThrough: bool, tooltip: string, letter: string)
  datatype Resource = Resource(path: string, originalPath: string, groupId: string, decorations: Decorations)

  datatype State = Available | NotRepository | ExecutableUnavailable | Unavailable
  datatype Status = Status(state: State, changes: seq<GitChange>, message: string)

  /** `groups` lists the resources staged, changed and untracked. */
  datatype ScmStatus = ScmStatus(state: State, groups: seq<seq<Resource>>, count: int, message: string)

  function Decorate(c: GitChange, layer: Layer): Decorations {
    var letter :=
      if c.untracked then "U" else if layer == Staged then [c.indexStatus] else [c.worktreeStatus];
    Decorations(letter == "D" || c.worktreeStatus == 'D', TrimSpace([c.indexStatus, c.worktreeStatus]), letter)
  }

  function GroupId(layer: Layer): string {
    match layer
    case Staged => "staged"
    case Unstaged => "changes"
    case Untracked => "untracked"
  }

  function ResourceOf(c: GitChange, layer: Layer): Resource {
    Resource(c.path, c.originalPath, GroupId(layer), Decorate(c, layer))
  }

  /** One resource for each time the layer is listed. */
  function OfLayers(c: GitChange, layers: seq<Layer>, layer: Layer): seq<Resource> {
    if layers == [] then []
    else
      var n := |layers| - 1;
      OfLayers(c, layers[..n], layer) + if layers[n] == layer then [ResourceOf(c, layer)] else []
  }

  function Group(changes: seq<GitChange>, layer: Layer): seq<Resource> {
    if changes == [] then []
    else
      var last := changes[|changes| - 1];
      Group(changes[..|changes| - 1], layer) + OfLayers(last, last.availableLayers, layer)
  }

  function LayerCount(changes: seq<GitChange>): nat {
    if changes == [] then 0
    else LayerCount(changes[..|changes| - 1]) + |changes[|changes| - 1].availableLayers|
  }

  /** Two's-complement wrap-around of a 32-bit counter. */
  function Int32(n: int): int {
    (n + 0x8000_0000) % 0x1_0000_0000 - 0x8000_0000
  }

  lemma Int32Adds(a: int, b: int)
    ensures Int32(Int32(a) + b) == Int32(a + b)
  {
  }

  lemma Int32Fits(n: nat)
    ensures Int32(n) == n <==> n < 0x8000_0000
  {
  }

  datatype Groups = Groups(staged: seq<Resource>, changed: seq<Resource>, untracked: seq<Resource>, count: int)

  function GroupsOf(changes: seq<GitChange>): Groups {
    Groups(Group(changes, Staged), Group(changes, Unstaged), Group(changes, Untracked), Int32(LayerCount(changes)))
  }

  lemma NoGroups()
    ensures GroupsOf([]) == Groups([], [], [], 0)
  {
  }

  lemma GroupsAre(changes: seq<GitChange>)
    ensures GroupsOf(changes) ==
      Groups(Group(changes, Staged), Group(changes, Unstaged), Group(changes, Untracked), Int32(LayerCount(changes)))
  {
  }

  lemma GroupsGrow(changes: seq<GitChange>, i: nat)
    requires i < |changes|
    ensures
      var g, c := GroupsOf(changes[..i]), changes[i];
      GroupsOf(changes[..i + 1]) ==
        Groups(g.staged + OfLayers(c, c.availableLayers, Staged),
               g.changed + OfLayers(c, c.availableLayers, Unstaged),
               g.untracked + OfLayers(c, c.availableLayers, Untracked),
               Int32(g.count + |c.availableLayers|))
  {
    hide Int32, OfLayers;
    assert changes[..i + 1][..i] == changes[..i];
    Int32Adds(LayerCount(changes[..i]), |changes[i].availableLayers|);
  }

  /** What one side of a change shows: nothing for a blank. */
  function Shown(status: char): string {
    if IsSpace(status) then "" else [status]
  }

  function LetterOf(c: GitChange, layer: Layer): string {
    match layer
    case Staged => [c.indexStatus]
    case Unstaged => [c.worktreeStatus]
    case Untracked => "U"
  }

  /** The group shows these changes in order, field by field. */
  predicate Shows(group: seq<Resource>, changes: seq<GitChange>, layer: Layer, groupId: string) {
    && |group| == |changes|
    && forall i :: 0 <= i < |group| ==>
         && group[i].path == changes[i].path && group[i].originalPath == changes[i].originalPath
         && group[i].groupId == groupId
         && group[i].decorations.letter == LetterOf(changes[i], layer)
         && group[i].decorations.tooltip == Shown(changes[i].indexStatus) + Shown(changes[i].worktreeStatus)
  }

  method ScmStatusFromModel(status: Status) returns (r: ScmStatus)
    ensures r.state == status.state && r.message == status.message
    ensures status.state != Available ==> r.groups == [] && r.count == 0
    ensures status.state == Available && AllWellFormed(status.changes) ==>
      && |r.groups| == 3
      && Shows(r.groups[0], With(status.changes, Staged), Staged, "staged")
      && Shows(r.groups[1], With(status.changes, Unstaged), Unstaged, "changes")
      && Shows(r.groups[2], With(status.changes, Untracked), Untracked, "untracked")
    ensures status.state == Available ==>
      r.groups == [Group(status.changes, Staged), Group(status.changes, Unstaged), Group(status.changes, Untracked)]
      && r.count == Int32(LayerCount(status.changes))
  {
    hide Shows, With, AllWellFormed, Group, LayerCount, Int32, OfLayers, GroupsOf;
    if status.state != Available {
      return ScmStatus(status.state, [], 0, status.message);
    }
    var staged, changed, untracked, count := [], [], [], 0;
    var changes := status.changes;
    assert changes[..0] == [];
    NoGroups();
    var i := 0;
    while i < |changes|
      invariant i <= |changes|
      invariant Groups(staged, changed, untracked, count) == GroupsOf(changes[..i])
    {
      var change := changes[i];
      GroupsGrow(changes, i);
      var s, c, u := ResourcesOf(change);
      count := Int32(count + |change.availableLayers|);
      staged, changed, untracked := staged + s, changed + c, untracked + u;
      i := i + 1;
    }
    assert changes[..i] == changes;
    GroupsAre(changes);
    if AllWellFormed(changes) { GroupsShow(changes); }
    return ScmStatus(Available, [staged, changed, untracked], count, status.message);
  }

  /** The inner loop: one resource for each layer of a change. */
  method ResourcesOf(change: GitChange) returns (staged: seq<Resource>, changed: seq<Resource>,
      untracked: seq<Resource>)
    ensures staged == OfLayers(change, change.availableLayers, Staged)
    ensures changed == OfLayers(change, change.availableLayers, Unstaged)
    ensures untracked == OfLayers(change, change.availableLayers, Untracked)
  {
    staged, changed, untracked := [], [], [];
    var layers := change.availableLayers;
    var i := 0;
    while i < |layers|
      invariant i <= |layers|
      invariant staged == OfLayers(change, layers[..i], Staged)
      invariant changed == OfLayers(change, layers[..i], Unstaged)
      invariant untracked == OfLayers(change, layers[..i], Untracked)
    {
      assert layers[..i + 1][..i] == layers[..i];
      hide ResourceOf;
      var resource := ResourceOf(change, layers[i]);
      match layers[i] {
        case Staged => staged := staged + [resource];
        case Unstaged => changed := changed + [resource];
        case Untracked => untracked := untracked + [resource];
      }
      i := i + 1;
    }
    assert layers[..i] == layers;
  }

  // ---- conservation -------------------------------------------------------------------

  lemma {:induction false} LayersConserved(c: GitChange, layers: seq<Layer>)
    ensures |OfLayers(c, layers, Staged)| + |OfLayers(c, layers, Unstaged)| + |OfLayers(c, layers, Untracked)|
         == |layers|
  {
    if layers != [] {
      LayersConserved(c, layers[..|layers| - 1]);
    }
  }

  /** No layer is lost or shown twice: the groups together hold as many resources as the changes
      have layers. */
  lemma {:induction false} GroupsConserve(changes: seq<GitChange>)
    ensures |Group(changes, Staged)| + |Group(changes, Unstaged)| + |Group(changes, Untracked)| == LayerCount(changes)
  {
    if changes != [] {
      var last := changes[|changes| - 1];
      LayersConserved(last, last.availableLayers);
      GroupsConserve(changes[..|changes| - 1]);
    }
  }

  /** The reported count is the number of resources exactly while that fits 32 bits. */
  lemma CountIsTotalExactly(changes: seq<GitChange>)
    ensures
      var total := |Group(changes, Staged)| + |Group(changes, Unstaged)| + |Group(changes, Untracked)|;
      Int32(LayerCount(changes)) == total <==> total < 0x8000_0000
  {
    hide Int32, Group, LayerCount;
    GroupsConserve(changes);
    Int32Fits(LayerCount(changes));
  }

  /** The changes that have a layer, in order. */
  function With(changes: seq<GitChange>, layer: Layer): seq<GitChange> {
    if changes == [] then []
    else
      var last := changes[|changes| - 1];
      With(changes[..|changes| - 1], layer) + if layer in last.availableLayers then [last] else []
  }

  lemma {:induction false} ListedOnce(c: GitChange, layers: seq<Layer>, layer: Layer)
    requires forall i, j :: 0 <= i < j < |layers| ==> layers[i] != layers[j]
    ensures OfLayers(c, layers, layer) == if layer in layers then [ResourceOf(c, layer)] else []
  {
    if layers != [] {
      ListedOnce(c, layers[..|layers| - 1], layer);
    }
  }

  /** For a parsed status, a group is exactly the changes with its layer, once each and in order. */
  lemma {:induction false} GroupIsExact(changes: seq<GitChange>, layer: Layer)
    requires AllWellFormed(changes)
    ensures Group(changes, layer) == Each(With(changes, layer), layer)
  {
    if changes != [] {
      hide WellFormed, ResourceOf, OfLayers, Each;
      var before, last := changes[..|changes| - 1], changes[|changes| - 1];
      HiddenExactly(last);
      ListedOnce(last, last.availableLayers, layer);
      GroupIsExact(before, layer);
      EachOneMore(With(before, layer), last, layer);
    } else {
      assert Each([], layer) == [];
    }
  }

  /** One resource for each change, in order. */
  function Each(changes: seq<GitChange>, layer: Layer): (r: seq<Resource>)
    ensures |r| == |changes| && forall i :: 0 <= i < |r| ==> r[i] == ResourceOf(changes[i], layer)
  {
    seq(|changes|, i requires 0 <= i < |changes| => ResourceOf(changes[i], layer))
  }

  lemma EachOneMore(changes: seq<GitChange>, c: GitChange, layer: Layer)
    ensures Each(changes + [c], layer) == Each(changes, layer) + [ResourceOf(c, layer)]
    ensures changes + [] == changes && Each(changes, layer) + [] == Each(changes, layer)
  {
    hide ResourceOf;
  }

  lemma {:induction false} WithLayer(changes: seq<GitChange>, layer: Layer)
    requires AllWellFormed(changes)
    ensures forall c :: c in With(changes, layer) ==> WellFormed(c) && layer in c.availableLayers
  {
    if changes != [] {
      WithLayer(changes[..|changes| - 1], layer);
    }
  }

  lemma ShowsItself(c: GitChange, layer: Layer)
    requires WellFormed(c) && layer in c.availableLayers
    ensures Decorate(c, layer).letter == LetterOf(c, layer)
    ensures Decorate(c, layer).tooltip == Shown(c.indexStatus) + Shown(c.worktreeStatus)
  {
    hide IsSpace, TrimSpace;
    TrimTwo(c.indexStatus, c.worktreeStatus);
  }

  lemma GroupShows(changes: seq<GitChange>, layer: Layer)
    requires AllWellFormed(changes)
    ensures Shows(Group(changes, layer), With(changes, layer), layer, GroupId(layer))
  {
    hide Group, With, WellFormed, Decorate, LetterOf, Shown;
    GroupIsExact(changes, layer);
    WithLayer(changes, layer);
    var with := With(changes, layer);
    forall i | 0 <= i < |with|
      ensures Decorate(with[i], layer).letter == LetterOf(with[i], layer)
      ensures Decorate(with[i], layer).tooltip == Shown(with[i].indexStatus) + Shown(with[i].worktreeStatus)
    {
      ShowsItself(with[i], layer);
    }
  }

  lemma GroupsShow(changes: seq<GitChange>)
    requires AllWellFormed(changes)
    ensures Shows(Group(changes, Staged), With(changes, Staged), Staged, "staged")
    ensures Shows(Group(changes, Unstaged), With(changes, Unstaged), Unstaged, "changes")
    ensures Shows(Group(changes, Untracked), With(changes, Untracked), Untracked, "untracked")
  {
    hide Group, With, Shows, AllWellFormed;
    GroupShows(changes, Staged);
    GroupShows(changes, Unstaged);
    GroupShows(changes, Untracked);
  }

  /** A shown resource has a letter, and is struck through if and only if its own side of the
      change or the working tree is a deletion. */
  lemma DecorationMeans(c: GitChange, layer: Layer)
    requires WellFormed(c) && layer in c.availableLayers
    ensures
      var d := Decorate(c, layer);
      && |d.letter| == 1 && d.letter != " "
      && (d.strikeThrough <==> c.worktreeStatus == 'D' || (layer == Staged && c.indexStatus == 'D'))
      && (d.letter == "D" ==> d.strikeThrough)
  {
  }

  /** A change that Git reports appears in no group exactly if it is unmerged or has no status. */
  lemma MissingExactly(c: GitChange)
    requires WellFormed(c)
    ensures (Group([c], Staged) == [] && Group([c], Unstaged) == [] && Group([c], Untracked) == [])
       <==> c.unmerged || (c.indexStatus == ' ' && c.worktreeStatus == ' ')
  {
  }
}
