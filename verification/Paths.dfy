/** Workspace paths: slash-separated, relative to the workspace root. */
module Paths {

  function StripTrailingSlashes(s: string): (r: string)
    ensures r <= s
    ensures r != "" ==> r[|r| - 1] != '/'
  {
    if s != "" && s[|s| - 1] == '/' then StripTrailingSlashes(s[..|s| - 1]) else s
  }

  function FirstIndex(s: string, c: char): (r: nat)
    ensures r <= |s| && c !in s[..r] && (r < |s| ==> s[r] == c)
  {
    if s == "" || s[0] == c then 0
    else
      var n := FirstIndex(s[1..], c);
      assert s[..n + 1] == [s[0]] + s[1..][..n];
      n + 1
  }

  lemma {:induction false} FirstIndexIs(s: string, c: char, n: nat)
    requires n < |s| && s[n] == c && c !in s[..n]
    ensures FirstIndex(s, c) == n
  {
  }

  /** `s.split('/')`. */
  function Segments(s: string): (r: seq<string>)
    ensures r != []
    decreases |s|
  {
    var n := FirstIndex(s, '/');
    if n == |s| then [s] else [s[..n]] + Segments(s[n + 1..])
  }

  predicate PlainSegments(s: string) {
    forall part <- Segments(s) :: part != "" && part != "." && part != ".."
  }

  /** `normalizeWorkspacePath`: the empty string marks an unusable path. */
  function Normalize(path: string): string {
    if path == "" || path[0] == '/' || '\\' in path || '\0' in path then ""
    else
      var normalized := StripTrailingSlashes(path);
      if normalized == "" || !PlainSegments(normalized) then "" else normalized
  }

  function LastIndex(s: string, c: char): (r: int)
    ensures -1 <= r < |s|
    ensures r >= 0 ==> s[r] == c
    ensures forall i :: r < i < |s| ==> s[i] != c
  {
    if s == "" then -1
    else if s[|s| - 1] == c then |s| - 1
    else LastIndex(s[..|s| - 1], c)
  }

  function ReplaceBackslashes(s: string): (r: string)
    ensures |r| == |s|
    ensures '\\' !in s ==> r == s
  {
    seq(|s|, i requires 0 <= i < |s| => if s[i] == '\\' then '/' else s[i])
  }

  /** `parentPath`. */
  function Parent(path: string): string {
    if path == "" || path == "/" || path == "." then ""
    else
      var normalized := StripTrailingSlashes(ReplaceBackslashes(path));
      var idx := LastIndex(normalized, '/');
      if idx <= 0 then "" else normalized[..idx]
  }

  /** The directory that holds a path, by the path alone. */
  function DirectoryOf(path: string): string {
    var idx := LastIndex(path, '/');
    if idx < 0 then "" else path[..idx]
  }

  lemma {:induction false} LastIndexIs(s: string, c: char, n: nat)
    requires n < |s| && s[n] == c && forall i :: n < i < |s| ==> s[i] != c
    ensures LastIndex(s, c) == n
  {
  }

  /** `parentPath` is the containing directory of every path made of a directory and a name. */
  lemma ParentIsDirectory(dir: string, name: string)
    requires name != "" && '/' !in name && '\\' !in name && '\\' !in dir
    ensures DirectoryOf(dir + "/" + name) == dir
    ensures Parent(dir + "/" + name) == dir
    ensures name != "." ==> Parent(name) == "" == DirectoryOf(name)
  {
    var path := dir + "/" + name;
    assert path[|dir|] == '/';
    assert forall i :: |dir| < i < |path| ==> path[i] == name[i - |dir| - 1];
    LastIndexIs(path, '/', |dir|);
    assert path[..|dir|] == dir;
    assert path[|path| - 1] == name[|name| - 1];
  }

  /** And of every path that a change event can name. */
  lemma ParentOfCanonical(path: string)
    requires Canonical(path)
    ensures Parent(path) == DirectoryOf(path)
  {
    assert path[|path| - 1] != '/';
  }

  /** The match used when a whole subtree is dropped. */
  predicate InSubtree(known: string, path: string) {
    path == "" || known == path || path + "/" <= known
  }

  function InSubtreeOf(keys: seq<string>, path: string): (r: seq<string>)
    ensures forall k :: k in r <==> k in keys && InSubtree(k, path)
  {
    if keys == [] then []
    else
      assert keys == [keys[0]] + keys[1..];
      (if InSubtree(keys[0], path) then [keys[0]] else []) + InSubtreeOf(keys[1..], path)
  }

  /** A path the agent can name in a change event (`ParseRelativePath` accepts it). */
  predicate Canonical(path: string) {
    path != "" && Normalize(path) == path
  }

  /** What `ParseRelativePath` accepts when the root is not allowed; that the path is clean
      follows from its segments. */
  predicate IsRelativePath(value: string) {
    value != "" && '\0' !in value && '\\' !in value && ':' !in value && PlainSegments(value)
  }

  function SetOf(s: seq<string>): (r: set<string>)
    ensures forall x :: x in r <==> x in s
  {
    set x | x in s
  }

  // ---- what these mean ------------------------------------------------------------

  function JoinNames(names: seq<string>): string {
    if names == [] then "" else if |names| == 1 then names[0] else names[0] + "/" + JoinNames(names[1..])
  }

  function Slashes(n: nat): (r: string)
    ensures |r| == n && forall i :: 0 <= i < n ==> r[i] == '/'
  {
    seq(n, i => '/')
  }

  /** Names that a path can be made of. */
  predicate PathNames(names: seq<string>) {
    names != [] && forall name <- names :: name != "" && name != "." && name != ".." && '/' !in name
  }

  lemma {:induction false} SegmentsRejoin(s: string)
    ensures JoinNames(Segments(s)) == s && forall part <- Segments(s) :: '/' !in part
    decreases |s|
  {
    var n := FirstIndex(s, '/');
    if n < |s| {
      SegmentsRejoin(s[n + 1..]);
      assert Segments(s)[1..] == Segments(s[n + 1..]);
      assert s == s[..n] + "/" + s[n + 1..];
    }
  }

  lemma {:induction false} SegmentsOfJoined(names: seq<string>)
    requires names != [] && forall name <- names :: '/' !in name
    ensures Segments(JoinNames(names)) == names
  {
    var first, s := names[0], JoinNames(names);
    assert first in names && '/' !in first;
    if |names| == 1 {
      assert s == first;
      assert FirstIndex(s, '/') == |s|;
    } else {
      assert s == first + "/" + JoinNames(names[1..]);
      assert s[..|first|] == first && s[|first| + 1..] == JoinNames(names[1..]);
      FirstIndexIs(s, '/', |first|);
      SegmentsOfJoined(names[1..]);
    }
  }

  lemma {:induction false} StripSlashes(s: string, n: nat)
    requires s != "" && s[|s| - 1] != '/'
    ensures StripTrailingSlashes(s + Slashes(n)) == s
  {
    var all := s + Slashes(n);
    if n > 0 {
      assert all[..|all| - 1] == s + Slashes(n - 1);
      StripSlashes(s, n - 1);
    } else {
      assert all == s;
    }
  }

  lemma {:induction false} StrippedSlashes(s: string) returns (n: nat)
    ensures s == StripTrailingSlashes(s) + Slashes(n)
  {
    if s != "" && s[|s| - 1] == '/' {
      n := StrippedSlashes(s[..|s| - 1]);
      n := n + 1;
      assert s == s[..|s| - 1] + "/";
    } else {
      n := 0;
    }
  }

  lemma {:induction false} JoinedEnds(names: seq<string>)
    requires PathNames(names)
    ensures JoinNames(names) != "" && JoinNames(names)[0] != '/' && JoinNames(names)[|JoinNames(names)| - 1] != '/'
  {
    var last := names[|names| - 1];
    assert names[0] in names && names[0][0] in names[0];
    if |names| == 1 {
      assert last[|last| - 1] in last;
    } else {
      assert forall name <- names[1..] :: name in names;
      JoinedEnds(names[1..]);
    }
  }

  predicate MadeOf(path: string, names: seq<string>, n: nat) {
    PathNames(names) && path == JoinNames(names) + Slashes(n)
  }

  /** A usable path is what names joined by slashes give, with any number of slashes behind, and is
      normalised to the names alone; every other path comes out empty. */
  lemma NormalizeExactly(path: string, r: string)
    requires r != ""
    ensures Normalize(path) == r <==>
      '\\' !in path && '\0' !in path
      && exists names, n :: MadeOf(path, names, n) && r == JoinNames(names)
  {
    if Normalize(path) == r {
      var n := StrippedSlashes(path);
      var names := Segments(r);
      SegmentsRejoin(r);
      assert MadeOf(path, names, n);
    }
    if '\\' !in path && '\0' !in path {
      if names, n :| MadeOf(path, names, n) && r == JoinNames(names) {
        JoinedEnds(names);
        StripSlashes(r, n);
        SegmentsOfJoined(names);
      }
    }
  }

  /** So the paths that change events carry are names joined by slashes. */
  lemma CanonicalExactly(path: string)
    ensures Canonical(path) <==>
      '\\' !in path && '\0' !in path && exists names :: PathNames(names) && path == JoinNames(names)
  {
    if Canonical(path) {
      SegmentsRejoin(path);
      assert PathNames(Segments(path));
    }
    if '\\' !in path && '\0' !in path {
      if names :| PathNames(names) && path == JoinNames(names) {
        JoinedEnds(names);
        assert path + Slashes(0) == path;
        StripSlashes(path, 0);
        SegmentsOfJoined(names);
      }
    }
  }

  /** And those that the agent accepts have no colon besides. */
  lemma RelativePathExactly(value: string)
    ensures IsRelativePath(value) <==>
      '\\' !in value && '\0' !in value && ':' !in value && exists names :: PathNames(names) && value == JoinNames(names)
  {
    if IsRelativePath(value) {
      SegmentsRejoin(value);
      assert PathNames(Segments(value));
    }
    if names :| PathNames(names) && value == JoinNames(names) {
      JoinedEnds(names);
      SegmentsOfJoined(names);
    }
  }

  /** A backslash separates directory and name as a slash does. */
  lemma ParentOfBackslashed(dir: string, name: string)
    requires name != "" && '/' !in name && '\\' !in name && '\\' !in dir
    ensures Parent(dir + "\\" + name) == dir
  {
    var path := dir + "\\" + name;
    var replaced := ReplaceBackslashes(path);
    assert replaced[|dir|] == '/' && replaced[..|dir|] == dir;
    assert forall i :: |dir| < i < |path| ==> path[i] == name[i - |dir| - 1] == replaced[i];
    LastIndexIs(replaced, '/', |dir|);
    assert path[|path| - 1] == name[|name| - 1];
  }
}
