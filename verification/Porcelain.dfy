/** The reader of `git status --porcelain=v1 -z`. */
module Porcelain {
  import opened Common
  import opened Paths

  datatype Layer = Staged | Unstaged | Untracked

  datatype GitChange = GitChange(
    path: string,
    originalPath: string,
    indexStatus: char,
    worktreeStatus: char,
    untracked: bool,
    unmerged: bool,
    availableLayers: seq<Layer>)

  const NUL: char := '\0'

  predicate RenameOrCopy(x: char, y: char) {
    x == 'R' || x == 'C' || y == 'R' || y == 'C'
  }

  predicate IsUntracked(x: char, y: char) {
    x == '?' && y == '?'
  }

  predicate IsUnmerged(x: char, y: char) {
    !IsUntracked(x, y) && (x == 'U' || y == 'U' || (x == 'A' && y == 'A') || (x == 'D' && y == 'D'))
  }

  /** The layers in which a change of this status can be shown. */
  function LayersOf(x: char, y: char): seq<Layer> {
    if IsUntracked(x, y) then [Layer.Untracked]
    else if IsUnmerged(x, y) then []
    else (if x != ' ' then [Layer.Staged] else []) + (if y != ' ' then [Layer.Unstaged] else [])
  }

  /** Each side of a status is shown by its own letter, the index first, except for the pair of an
      untracked path and the pairs of a conflict, which are shown as untracked and not at all. */
  lemma LayersExactly(x: char, y: char)
    ensures
      var layers := LayersOf(x, y);
      var conflict := x == 'U' || y == 'U' || [x, y] == "AA" || [x, y] == "DD";
      && ([x, y] == "??" ==> layers == [Layer.Untracked])
      && (conflict ==> layers == [])
      && ([x, y] != "??" && !conflict ==>
            && (x != ' ' && y != ' ' ==> layers == [Layer.Staged, Layer.Unstaged])
            && (x != ' ' && y == ' ' ==> layers == [Layer.Staged])
            && (x == ' ' && y != ' ' ==> layers == [Layer.Unstaged])
            && (x == ' ' && y == ' ' ==> layers == []))
      && (IsUnmerged(x, y) <==> conflict)
      && (IsUntracked(x, y) <==> [x, y] == "??")
  {
    assert forall a: char, b: char :: [x, y] == [a, b] <==> x == a && y == b;
    assert [x, y] == "??" <==> x == '?' && y == '?';
    assert [x, y] == "AA" <==> x == 'A' && y == 'A';
    assert [x, y] == "DD" <==> x == 'D' && y == 'D';
  }

  function Change(x: char, y: char, path: string, source: string): GitChange {
    GitChange(path, source, x, y, IsUntracked(x, y), IsUnmerged(x, y), LayersOf(x, y))
  }

  // ---- the reader -----------------------------------------------------------------

  datatype Read<T> = Read(value: T, rest: string)

  /** A NUL-terminated field. */
  function Field(data: string): (r: Result<Read<string>>)
    ensures r.Ok? ==> |r.value.rest| < |data| && data == r.value.value + [NUL] + r.value.rest && NUL !in r.value.value
    ensures r.Failed? ==> NUL !in data
  {
    var end := FirstIndex(data, NUL);
    if end == |data| then
      assert data[..end] == data;
      Failed
    else Ok(Read(data[..end], data[end + 1..]))
  }

  /** The source of a rename or copy follows in a field of its own. */
  function SourceField(x: char, y: char, data: string): Result<Read<string>> {
    if RenameOrCopy(x, y) then Field(data) else Ok(Read("", data))
  }

  function Record(data: string): (r: Result<Read<GitChange>>)
    ensures r.Ok? ==> |r.value.rest| < |data|
  {
    var field := Field(data);
    if field.Failed? || |field.value.value| < 4 then Failed
    else
      var record := field.value.value;
      var source := SourceField(record[0], record[1], field.value.rest);
      if source.Failed? || !IsRelativePath(record[3..]) then Failed
      else if source.value.value != "" && !IsRelativePath(source.value.value) then Failed
      else Ok(Read(Change(record[0], record[1], record[3..], source.value.value), source.value.rest))
  }

  function Parse(data: string): Result<seq<GitChange>>
    decreases |data|
  {
    if data == "" then Ok([])
    else
      var first := Record(data);
      if first.Failed? then Failed
      else
        var others := Parse(first.value.rest);
        if others.Failed? then Failed else Ok([first.value.value] + others.value)
  }

  /** Reading `data` after `changes` gives what reading `input` gives. */
  ghost predicate Resumes(input: string, changes: seq<GitChange>, data: string) {
    Parse(input) == match Parse(data) case Ok(later) => Ok(changes + later) case Failed => Failed
  }

  lemma RecordRead(input: string, changes: seq<GitChange>, data: string, change: GitChange, rest: string)
    requires Resumes(input, changes, data) && data != "" && Record(data) == Ok(Read(change, rest))
    ensures Resumes(input, changes + [change], rest)
  {
    hide Record;
    if Parse(rest).Ok? {
      assert changes + ([change] + Parse(rest).value) == (changes + [change]) + Parse(rest).value;
    }
  }

  lemma ReadFromStart(input: string)
    ensures Resumes(input, [], input)
  {
    if Parse(input).Ok? {
      assert [] + Parse(input).value == Parse(input).value;
    }
  }

  lemma ReadToEnd(input: string, changes: seq<GitChange>, data: string)
    requires Resumes(input, changes, data)
    ensures data == "" ==> Parse(input) == Ok(changes)
    ensures data != "" && Record(data).Failed? ==> Parse(input) == Failed
  {
    assert changes + [] == changes;
  }

  /** The two status letters become flags and layers. */
  method Classify(x: char, y: char) returns (untracked: bool, unmerged: bool, layers: seq<Layer>)
    ensures untracked == IsUntracked(x, y) && unmerged == IsUnmerged(x, y) && layers == LayersOf(x, y)
  {
    untracked, unmerged, layers := false, false, [];
    if x == '?' && y == '?' {
      untracked, layers := true, [Layer.Untracked];
    } else if x == 'U' || y == 'U' || [x, y] == ['A', 'A'] || [x, y] == ['D', 'D'] {
      unmerged := true;
    } else {
      if x != ' ' { layers := layers + [Layer.Staged]; }
      if y != ' ' { layers := layers + [Layer.Unstaged]; }
    }
  }

  method ReadRecord(data: string) returns (r: Result<Read<GitChange>>)
    ensures r == Record(data)
  {
    hide IsRelativePath, LayersOf, IsUnmerged, IsUntracked, FirstIndex;
    var end := FirstIndex(data, NUL);
    if end == |data| { return Failed; }
    var record, rest := data[..end], data[end + 1..];
    if |record| < 4 { return Failed; }
    var x, y, path, original := record[0], record[1], record[3..], "";
    var untracked, unmerged, layers := Classify(x, y);
    if RenameOrCopy(x, y) {
      end := FirstIndex(rest, NUL);
      if end == |rest| { return Failed; }
      original, rest := rest[..end], rest[end + 1..];
    }
    if !IsRelativePath(path) { return Failed; }
    if original != "" && !IsRelativePath(original) { return Failed; }
    return Ok(Read(GitChange(path, original, x, y, untracked, unmerged, layers), rest));
  }

  method ParseStatus(input: string) returns (r: Result<seq<GitChange>>)
    ensures r == Parse(input)
  {
    hide Parse, Resumes;
    ReadFromStart(input);
    var data := input;
    var changes: seq<GitChange> := [];
    while data != ""
      invariant Resumes(input, changes, data)
      decreases |data|
    {
      ReadToEnd(input, changes, data);
      var read := ReadRecord(data);
      if read.Failed? { return Failed; }
      RecordRead(input, changes, data, read.value.value, read.value.rest);
      changes, data := changes + [read.value.value], read.value.rest;
    }
    ReadToEnd(input, changes, data);
    return Ok(changes);
  }

  // ---- the writer -----------------------------------------------------------------

  /** A change as Git can report it: the derived fields follow from the two status letters, and
      only a rename or copy has a source. */
  predicate WellFormed(c: GitChange) {
    && c == Change(c.indexStatus, c.worktreeStatus, c.path, c.originalPath)
    && c.indexStatus != NUL && c.worktreeStatus != NUL
    && IsRelativePath(c.path)
    && (c.originalPath != "" ==> RenameOrCopy(c.indexStatus, c.worktreeStatus) && IsRelativePath(c.originalPath))
  }

  /** `XY PATH NUL`, followed by `SOURCE NUL` for a rename or copy. */
  function Print(c: GitChange, separator: char): string {
    [c.indexStatus, c.worktreeStatus, separator] + c.path + [NUL] +
    if RenameOrCopy(c.indexStatus, c.worktreeStatus) then c.originalPath + [NUL] else ""
  }

  function PrintAll(changes: seq<GitChange>, separators: string): string
    requires |separators| == |changes|
  {
    if changes == [] then "" else Print(changes[0], separators[0]) + PrintAll(changes[1..], separators[1..])
  }

  ghost predicate AllWellFormed(changes: seq<GitChange>) {
    forall c <- changes :: WellFormed(c)
  }

  /** Git's own layout has a blank between the status and the path. */
  function Blanks(n: nat): (r: string)
    ensures |r| == n && NUL !in r
  {
    seq(n, i => ' ')
  }

  // ---- round trips -----------------------------------------------------------------

  lemma FieldOf(text: string, rest: string)
    requires NUL !in text
    ensures Field(text + [NUL] + rest) == Ok(Read(text, rest))
  {
    var data := text + [NUL] + rest;
    assert data[..|text|] == text && data[|text| + 1..] == rest;
    FirstIndexIs(data, NUL, |text|);
  }

  lemma RecordOf(c: GitChange, separator: char, rest: string)
    requires WellFormed(c) && separator != NUL
    ensures Record(Print(c, separator) + rest) == Ok(Read(c, rest))
  {
    hide IsRelativePath, LayersOf, IsUntracked, IsUnmerged;
    PathHasNoNul(c.path);
    var x, y := c.indexStatus, c.worktreeStatus;
    var head := [x, y, separator] + c.path;
    var source := if RenameOrCopy(x, y) then c.originalPath + [NUL] else "";
    assert Print(c, separator) + rest == head + [NUL] + (source + rest);
    FieldOf(head, source + rest);
    assert head[3..] == c.path;
    if RenameOrCopy(x, y) {
      if c.originalPath != "" { PathHasNoNul(c.originalPath); }
      assert source + rest == c.originalPath + [NUL] + rest;
      FieldOf(c.originalPath, rest);
    } else {
      assert source + rest == rest;
    }
  }

  lemma PathHasNoNul(path: string)
    requires IsRelativePath(path)
    ensures NUL !in path && path != ""
  {
  }

  lemma ParseOne(data: string, c: GitChange, rest: string)
    requires Record(data) == Ok(Read(c, rest)) && Parse(rest).Ok?
    ensures Parse(data) == Ok([c] + Parse(rest).value)
  {
    hide Record;
    assert data != "" by { NoRecord(); }
  }

  lemma NoRecord()
    ensures Record("").Failed?
  {
  }

  /** Reading what was printed returns the same changes, with sources and layers. */
  lemma {:induction false} PrintedStatusIsRead(changes: seq<GitChange>, separators: string)
    requires |separators| == |changes| && AllWellFormed(changes) && NUL !in separators
    ensures Parse(PrintAll(changes, separators)) == Ok(changes)
  {
    if changes != [] {
      hide Record, Print, WellFormed;
      var rest := PrintAll(changes[1..], separators[1..]);
      RecordOf(changes[0], separators[0], rest);
      assert separators[0] in separators;
      PrintedStatusIsRead(changes[1..], separators[1..]);
      ParseOne(PrintAll(changes, separators), changes[0], rest);
      assert changes == [changes[0]] + changes[1..];
    }
  }

  /** A record is followed by a source exactly if one of its letters says rename or copy. */
  lemma SourceFollowsExactly(x: char, y: char, path: string, source: string)
    requires x != NUL && y != NUL && IsRelativePath(path) && IsRelativePath(source)
    ensures
      var record := [x, y, ' '] + path + [NUL];
      if 'R' in [x, y] || 'C' in [x, y]
      then Parse(record + (source + [NUL])) == Ok([Change(x, y, path, source)])
      else Parse(record) == Ok([Change(x, y, path, "")])
  {
    hide IsRelativePath, LayersOf, IsUnmerged, IsUntracked, Parse;
    var c := Change(x, y, path, if RenameOrCopy(x, y) then source else "");
    assert 'R' in [x, y] || 'C' in [x, y] <==> RenameOrCopy(x, y);
    assert [c][1..] == [] && " "[1..] == "";
    assert Print(c, ' ') + "" == Print(c, ' ');
    assert PrintAll([c], " ") == Print(c, ' ');
    var record := [x, y, ' '] + path + [NUL];
    assert record + "" == record;
    PrintedStatusIsRead([c], " ");
  }

  /** So Git's own output, with a blank in each record, is read back. */
  lemma GitStatusIsRead(changes: seq<GitChange>)
    requires AllWellFormed(changes)
    ensures Parse(PrintAll(changes, Blanks(|changes|))) == Ok(changes)
  {
    PrintedStatusIsRead(changes, Blanks(|changes|));
  }

  lemma SourceIsPrinted(x: char, y: char, data: string)
    requires SourceField(x, y, data).Ok?
    ensures
      var source := SourceField(x, y, data).value;
      data == (if RenameOrCopy(x, y) then source.value + [NUL] else "") + source.rest
      && (!RenameOrCopy(x, y) ==> source.value == "")
  {
    hide Field;
    assert "" + data == data;
  }

  lemma RecordIsPrinted(data: string) returns (separator: char)
    requires Record(data).Ok?
    ensures separator != NUL && WellFormed(Record(data).value.value)
    ensures data == Print(Record(data).value.value, separator) + Record(data).value.rest
  {
    hide IsRelativePath, LayersOf, IsUnmerged, IsUntracked, Field, SourceField;
    var field := Field(data).value;
    var record := field.value;
    separator := record[2];
    assert separator in record && record[0] in record && record[1] in record;
    var head := [record[0], record[1], separator] + record[3..];
    assert record == head;
    var source := SourceField(record[0], record[1], field.rest).value;
    SourceIsPrinted(record[0], record[1], field.rest);
    var tail := if RenameOrCopy(record[0], record[1]) then source.value + [NUL] else "";
    assert head + [NUL] + (tail + source.rest) == head + [NUL] + tail + source.rest;
  }

  /** Conversely the reader accepts nothing else: all of an accepted input is the print of the
      changes it returns, up to the byte between status and path, which it never looks at. */
  lemma {:induction false} ReadStatusIsPrinted(data: string) returns (separators: string)
    requires Parse(data).Ok?
    ensures |separators| == |Parse(data).value| && NUL !in separators
    ensures AllWellFormed(Parse(data).value) && data == PrintAll(Parse(data).value, separators)
    decreases |data|
  {
    if data == "" {
      separators := "";
    } else {
      hide Record, Print, WellFormed;
      var separator := RecordIsPrinted(data);
      var others := ReadStatusIsPrinted(Record(data).value.rest);
      separators := [separator] + others;
      assert Parse(data).value[1..] == Parse(Record(data).value.rest).value;
    }
  }

  /** The inputs that the reader accepts, and what it makes of them, in one statement. */
  lemma AcceptsExactly(data: string, changes: seq<GitChange>)
    ensures Parse(data) == Ok(changes)
       <==> AllWellFormed(changes) && exists separators ::
         |separators| == |changes| && NUL !in separators && data == PrintAll(changes, separators)
  {
    if Parse(data) == Ok(changes) {
      var separators := ReadStatusIsPrinted(data);
    }
    if AllWellFormed(changes) && exists separators ::
      |separators| == |changes| && NUL !in separators && data == PrintAll(changes, separators) {
      var separators :| |separators| == |changes| && NUL !in separators && data == PrintAll(changes, separators);
      PrintedStatusIsRead(changes, separators);
    }
  }

  /** A well-formed status is shown in no layer exactly if it is unmerged or blank. */
  lemma HiddenExactly(c: GitChange)
    requires WellFormed(c)
    ensures c.availableLayers == [] <==> c.unmerged || (c.indexStatus == ' ' && c.worktreeStatus == ' ')
    ensures forall i, j :: 0 <= i < j < |c.availableLayers| ==> c.availableLayers[i] != c.availableLayers[j]
  {
  }
}
