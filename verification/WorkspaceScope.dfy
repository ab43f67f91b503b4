/** Git reports paths from the repository root; a workspace may be a directory further down. */
module WorkspaceScope {
  import opened Common
  import opened Paths
  import opened Porcelain

  function WorkspaceRelativePath(value: string, prefix: string): Option<string> {
    if prefix == "" then Some(value)
    else if prefix + "/" <= value then Some(value[|prefix| + 1..])
    else None
  }

  function RepositoryPath(prefix: string, value: string): string {
    if prefix == "" then value else prefix + "/" + value
  }

  predicate Inside(value: string, prefix: string) {
    WorkspaceRelativePath(value, prefix).Some?
  }

  predicate ChangeInside(c: GitChange, prefix: string) {
    Inside(c.path, prefix) && (c.originalPath != "" ==> Inside(c.originalPath, prefix))
  }

  function Scoped(c: GitChange, prefix: string): GitChange
    requires ChangeInside(c, prefix)
  {
    c.(path := WorkspaceRelativePath(c.path, prefix).value,
       originalPath := if c.originalPath == "" then "" else WorkspaceRelativePath(c.originalPath, prefix).value)
  }

  function Unscoped(c: GitChange, prefix: string): GitChange {
    c.(path := RepositoryPath(prefix, c.path),
       originalPath := if c.originalPath == "" then "" else RepositoryPath(prefix, c.originalPath))
  }

  /** The changes of the workspace, with paths relative to it. */
  function Restricted(changes: seq<GitChange>, prefix: string): seq<GitChange> {
    if changes == [] then []
    else
      (if ChangeInside(changes[0], prefix) then [Scoped(changes[0], prefix)] else [])
      + Restricted(changes[1..], prefix)
  }

  method RestrictToWorkspace(changes: seq<GitChange>, prefix: string) returns (result: seq<GitChange>)
    ensures result == Restricted(changes, prefix)
  {
    hide WorkspaceRelativePath, Restricted;
    result := [];
    var i := 0;
    while i < |changes|
      invariant i <= |changes|
      invariant result + Restricted(changes[i..], prefix) == Restricted(changes, prefix)
    {
      var change := changes[i];
      RestrictOne(changes, i, prefix, result);
      i := i + 1;
      var path := WorkspaceRelativePath(change.path, prefix);
      if path.None? { continue; }
      var originalPath := change.originalPath;
      if originalPath != "" {
        var original := WorkspaceRelativePath(originalPath, prefix);
        if original.None? { continue; }
        originalPath := original.value;
      }
      result := result + [change.(path := path.value, originalPath := originalPath)];
    }
    RestrictNone(prefix);
    assert changes[i..] == [];
  }

  lemma RestrictOne(changes: seq<GitChange>, i: nat, prefix: string, result: seq<GitChange>)
    requires i < |changes|
    ensures result + Restricted(changes[i..], prefix) ==
      (if ChangeInside(changes[i], prefix) then result + [Scoped(changes[i], prefix)] else result)
      + Restricted(changes[i + 1..], prefix)
  {
    hide ChangeInside, Scoped;
    assert changes[i..][1..] == changes[i + 1..];
  }

  lemma RestrictNone(prefix: string)
    ensures Restricted([], prefix) == []
  {
  }

  // ---- inverses ---------------------------------------------------------------------

  lemma UnscopeAfterScope(prefix: string, value: string)
    requires Inside(value, prefix)
    ensures RepositoryPath(prefix, WorkspaceRelativePath(value, prefix).value) == value
  {
  }

  /** Scoping and unscoping a path are mutual inverses. */
  lemma ScopeInverse(prefix: string, value: string, scoped: string)
    ensures WorkspaceRelativePath(value, prefix) == Some(scoped) <==> value == RepositoryPath(prefix, scoped)
  {
  }

  /** A repository path inside the workspace stays a valid relative path when scoped. */
  lemma ScopedPathIsValid(prefix: string, value: string)
    requires IsRelativePath(value) && Inside(value, prefix)
    ensures IsRelativePath(WorkspaceRelativePath(value, prefix).value)
  {
    if prefix != "" {
      var scoped := value[|prefix| + 1..];
      assert value == prefix + "/" + scoped;
      SegmentsAfterSlash(prefix, scoped);
      NoSegments();
      assert forall c :: c in scoped ==> c in value;
    }
  }

  lemma NoSegments()
    ensures "" in Segments("")
  {
  }

  lemma {:induction false} SegmentsAfterSlash(head: string, tail: string)
    ensures |Segments(tail)| <= |Segments(head + "/" + tail)|
    ensures forall part <- Segments(tail) :: part in Segments(head + "/" + tail)
    decreases |head|
  {
    var value := head + "/" + tail;
    var n := FirstIndex(value, '/');
    if n < |head| {
      assert value[n + 1..] == head[n + 1..] + "/" + tail;
      SegmentsAfterSlash(head[n + 1..], tail);
    } else {
      assert forall i :: 0 <= i < |head| ==> value[i] == value[..n][i];
      FirstIndexIs(value, '/', |head|);
      assert value[n + 1..] == tail;
    }
  }

  function Kept(changes: seq<GitChange>, prefix: string): seq<GitChange> {
    if changes == [] then []
    else (if ChangeInside(changes[0], prefix) then [changes[0]] else []) + Kept(changes[1..], prefix)
  }

  function UnscopedAll(changes: seq<GitChange>, prefix: string): seq<GitChange> {
    if changes == [] then [] else [Unscoped(changes[0], prefix)] + UnscopedAll(changes[1..], prefix)
  }

  lemma UnscopedScoped(c: GitChange, prefix: string)
    requires ChangeInside(c, prefix) && WellFormed(c)
    ensures Unscoped(Scoped(c, prefix), prefix) == c && WellFormed(Scoped(c, prefix))
  {
    hide IsRelativePath, LayersOf, IsUnmerged, IsUntracked;
    UnscopeAfterScope(prefix, c.path);
    ScopedPathIsValid(prefix, c.path);
    if c.originalPath != "" {
      UnscopeAfterScope(prefix, c.originalPath);
      ScopedPathIsValid(prefix, c.originalPath);
      assert Scoped(c, prefix).originalPath != "" by { PathHasNoNul(Scoped(c, prefix).originalPath); }
    }
  }

  /** Restricting a parsed status keeps every change whose path and source lie inside the
      workspace, in order and complete: unscoping the result gives those changes back. */
  lemma {:induction false} RestrictionKeepsInside(changes: seq<GitChange>, prefix: string)
    requires AllWellFormed(changes)
    ensures UnscopedAll(Restricted(changes, prefix), prefix) == Kept(changes, prefix)
    ensures AllWellFormed(Restricted(changes, prefix))
  {
    if changes != [] {
      hide WellFormed, ChangeInside, Scoped, Unscoped;
      RestrictionKeepsInside(changes[1..], prefix);
      if ChangeInside(changes[0], prefix) {
        UnscopedScoped(changes[0], prefix);
        var scoped := Scoped(changes[0], prefix);
        assert Restricted(changes, prefix)[1..] == Restricted(changes[1..], prefix);
      } else {
        assert Restricted(changes, prefix) == Restricted(changes[1..], prefix);
      }
    }
  }

  lemma ScopedUnscoped(c: GitChange, prefix: string)
    ensures ChangeInside(Unscoped(c, prefix), prefix) && Scoped(Unscoped(c, prefix), prefix) == c
  {
  }

  /** The other way round: changes made in the workspace come back from the repository's view. */
  lemma {:induction false} RestrictionOfUnscoped(changes: seq<GitChange>, prefix: string)
    ensures Restricted(UnscopedAll(changes, prefix), prefix) == changes
  {
    if changes != [] {
      hide ChangeInside, Scoped, Unscoped;
      RestrictionOfUnscoped(changes[1..], prefix);
      ScopedUnscoped(changes[0], prefix);
      assert UnscopedAll(changes, prefix)[1..] == UnscopedAll(changes[1..], prefix);
      assert changes == [changes[0]] + changes[1..];
    }
  }

  // ---- staged changes outside ----------------------------------------------------------

  ghost predicate StagedOutsideExists(changes: seq<GitChange>, prefix: string) {
    exists c :: c in changes && Staged in c.availableLayers && !ChangeInside(c, prefix)
  }

  /** The check made before a commit. */
  method StagedOutsideWorkspace(changes: seq<GitChange>, prefix: string) returns (found: bool)
    ensures found <==> StagedOutsideExists(changes, prefix)
  {
    var i := 0;
    while i < |changes|
      invariant i <= |changes|
      invariant forall j :: 0 <= j < i && Staged in changes[j].availableLayers ==> ChangeInside(changes[j], prefix)
    {
      var change := changes[i];
      if Staged in change.availableLayers {
        if WorkspaceRelativePath(change.path, prefix).None? { return true; }
        if change.originalPath != "" && WorkspaceRelativePath(change.originalPath, prefix).None? { return true; }
      }
      i := i + 1;
    }
    return false;
  }
}
