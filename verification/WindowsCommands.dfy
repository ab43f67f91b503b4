/** Argument quoting on Windows, against the backslash rules of `CommandLineToArgvW`. */
module WindowsCommands {
  import opened Common
  import opened CommandText

  predicate NeedsQuotes(value: string) {
    value == "" || exists c :: c in value && (c in {' ', '\t', '\n', '\r', '"', 0x0B as char} || IsControl(c))
  }

  function Backslashes(n: nat): (r: string)
    ensures |r| == n && forall i :: 0 <= i < n ==> r[i] == '\\'
  {
    seq(n, i => '\\')
  }

  /** The quoted form of what is left of a value, after `n` backslashes that are still held back. */
  function Encoded(value: string, n: nat): string {
    if value == "" then Backslashes(2 * n)
    else if value[0] == '\\' then Encoded(value[1..], n + 1)
    else if value[0] == '"' then Backslashes(2 * n + 1) + "\"" + Encoded(value[1..], 0)
    else Backslashes(n) + [value[0]] + Encoded(value[1..], 0)
  }

  function Quote(value: string): string {
    if NeedsQuotes(value) then "\"" + Encoded(value, 0) + "\"" else value
  }

  method QuoteCommandArgument(value: string) returns (r: string)
    ensures r == Quote(value)
  {
    if !NeedsQuotes(value) { return value; }
    r := "\"";
    var backslashes := 0;
    var i := 0;
    while i < |value|
      invariant i <= |value|
      invariant r + Encoded(value[i..], backslashes) == "\"" + Encoded(value, 0)
    {
      var character := value[i];
      assert value[i..][1..] == value[i + 1..];
      if character == '\\' {
        backslashes := backslashes + 1;
      } else if character == '"' {
        r, backslashes := r + Backslashes(backslashes * 2 + 1) + [character], 0;
      } else {
        r, backslashes := r + Backslashes(backslashes) + [character], 0;
      }
      i := i + 1;
    }
    assert value[i..] == "";
    r := r + Backslashes(backslashes * 2) + "\"";
  }

  // ---- how the system splits a command line ---------------------------------------------

  predicate IsBlank(c: char) {
    c == ' ' || c == '\t'
  }

  function Text(word: Option<string>): string {
    if word.Some? then word.value else ""
  }

  function Ends(word: Option<string>): seq<string> {
    if word.Some? then [word.value] else []
  }

  /** The arguments after the first: `n` backslashes have been read that may still belong to a
      quotation mark. 2n of them before a mark stand for n and the mark opens or closes; 2n+1
      stand for n and the mark is a character; elsewhere they stand for themselves. */
  function Arguments(text: string, word: Option<string>, quoted: bool, n: nat): seq<string> {
    if text == "" then Ends(if n > 0 then Some(Text(word) + Backslashes(n)) else word)
    else
      var c, rest := text[0], text[1..];
      if c == '\\' then Arguments(rest, Some(Text(word)), quoted, n + 1)
      else if c == '"' then
        var read := Text(word) + Backslashes(n / 2);
        if n % 2 == 1 then Arguments(rest, Some(read + "\""), quoted, 0)
        else Arguments(rest, Some(read), !quoted, 0)
      else if IsBlank(c) && !quoted then
        Ends(if n > 0 then Some(Text(word) + Backslashes(n)) else word) + Arguments(rest, None, false, 0)
      else Arguments(rest, Some(Text(word) + Backslashes(n) + [c]), quoted, 0)
  }

  /** The first argument is the program: backslashes mean nothing in it. */
  function Program(text: string, quoted: bool): (r: (string, string))
    ensures |r.1| <= |text|
  {
    if text == "" then ("", "")
    else if quoted then
      if text[0] == '"' then ("", text[1..])
      else var later := Program(text[1..], true); ([text[0]] + later.0, later.1)
    else if IsBlank(text[0]) then ("", text)
    else var later := Program(text[1..], false); ([text[0]] + later.0, later.1)
  }

  function CommandLineToArgv(text: string): seq<string> {
    var first := if text != "" && text[0] == '"' then Program(text[1..], true) else Program(text, false);
    [first.0] + Arguments(first.1, None, false, 0)
  }

  /** A text with a NUL cannot be handed to the system. */
  function ParseArguments(text: string): Result<seq<string>> {
    if '\0' in text then Failed else Ok(CommandLineToArgv(text))
  }

  // ---- arguments after the first -----------------------------------------------------------

  lemma MoreBackslashes(n: nat, k: nat)
    ensures Backslashes(n) + Backslashes(k) == Backslashes(n + k)
    ensures k > 0 ==> Backslashes(k) == ['\\'] + Backslashes(k - 1)
  {
  }

  lemma OneMore(n: nat)
    ensures Backslashes(n + 1) == Backslashes(n) + ['\\'] && Backslashes(0) == ""
  {
  }

  /** Held backslashes and what follows them, put together in either order. */
  lemma HeldThen(word: string, n: nat, c: char, tail: string)
    ensures word + Backslashes(n) + [c] + Backslashes(0) + tail == word + Backslashes(n) + ([c] + tail)
    ensures word + Backslashes(n + 1) + tail == word + Backslashes(n) + (['\\'] + tail)
    ensures Backslashes(0) == ""
  {
  }

  lemma {:induction false} BackslashesAreHeld(k: nat, rest: string, word: string, quoted: bool, n: nat)
    ensures Arguments(Backslashes(k) + rest, Some(word), quoted, n) == Arguments(rest, Some(word), quoted, n + k)
    decreases k
  {
    if k == 0 {
      assert Backslashes(0) + rest == rest;
    } else {
      MoreBackslashes(0, k);
      assert (Backslashes(k) + rest)[0] == '\\';
      assert (Backslashes(k) + rest)[1..] == Backslashes(k - 1) + rest;
      BackslashesAreHeld(k - 1, rest, word, quoted, n + 1);
    }
  }

  /** Reading the quoted form up to its closing mark gives the value back. */
  lemma {:induction false} EncodedIsRead(value: string, held: nat, rest: string, word: string)
    ensures Arguments(Encoded(value, held) + "\"" + rest, Some(word), true, 0)
         == Arguments(rest, Some(word + Backslashes(held) + value), false, 0)
  {
    hide Backslashes;
    var text := Encoded(value, held) + "\"" + rest;
    if value == "" {
      assert text == Backslashes(2 * held) + ("\"" + rest);
      BackslashesAreHeld(2 * held, "\"" + rest, word, true, 0);
      assert ("\"" + rest)[1..] == rest;
      assert word + Backslashes(held) + value == word + Backslashes(held);
    } else {
      var c, tail := value[0], value[1..];
      assert value == [c] + tail;
      HeldThen(word, held, c, tail);
      if c == '\\' {
        EncodedIsRead(tail, held + 1, rest, word);
      } else {
        var marked := if c == '"' then Backslashes(2 * held + 1) else Backslashes(held);
        var later := Encoded(tail, 0) + "\"" + rest;
        assert text == marked + ([c] + later);
        BackslashesAreHeld(if c == '"' then 2 * held + 1 else held, [c] + later, word, true, 0);
        assert ([c] + later)[1..] == later;
        EncodedIsRead(tail, 0, rest, word + Backslashes(held) + [c]);
      }
    }
  }

  predicate Boundary(rest: string) {
    rest == "" || IsBlank(rest[0])
  }

  lemma {:induction false} PlainIsRead(value: string, rest: string, word: Option<string>, n: nat)
    requires forall c :: c in value ==> c != '"' && !IsBlank(c)
    requires Boundary(rest) && (value != "" || word.Some?)
    ensures Arguments(value + rest, word, false, n)
         == Arguments(rest, Some(Text(word) + Backslashes(n) + value), false, 0)
  {
    hide Backslashes, IsBlank;
    if value == "" {
      assert value + rest == rest;
      assert Text(word) + Backslashes(n) + value == Text(word) + Backslashes(n);
      HeldThen(word.value, n, ' ', "");
      HeldAtBoundary(rest, word.value, n);
    } else {
      var c, tail := value[0], value[1..];
      assert c in value && value == [c] + tail;
      assert (value + rest)[1..] == tail + rest;
      assert forall d :: d in tail ==> d in value;
      HeldThen(Text(word), n, c, tail);
      PlainIsRead(tail, rest, if c == '\\' then Some(Text(word)) else Some(Text(word) + Backslashes(n) + [c]),
                  if c == '\\' then n + 1 else 0);
    }
  }

  lemma HeldAtBoundary(rest: string, word: string, n: nat)
    requires Boundary(rest)
    ensures Arguments(rest, Some(word), false, n) == Arguments(rest, Some(word + Backslashes(n)), false, 0)
  {
    assert word + Backslashes(0) == word;
  }

  lemma QuotedIsOneArgument(value: string, rest: string)
    requires Boundary(rest)
    ensures Arguments(Quote(value) + rest, None, false, 0) == Arguments(rest, Some(value), false, 0)
  {
    if NeedsQuotes(value) {
      assert (Quote(value) + rest)[1..] == Encoded(value, 0) + "\"" + rest;
      EncodedIsRead(value, 0, rest, "");
      assert "" + Backslashes(0) == "";
      assert "" + Backslashes(0) + value == value;
    } else {
      PlainIsRead(value, rest, None, 0);
      assert "" + Backslashes(0) + value == value;
    }
  }

  /** Every list of arguments comes back, whatever the values hold. */
  lemma {:induction false} ArgumentsRoundTrip(values: seq<string>)
    ensures Arguments(Join(Quoted(values, Quote)), None, false, 0) == values
  {
    if values != [] {
      var text := Join(Quoted(values, Quote));
      if |values| == 1 {
        assert text == Quote(values[0]) + "";
        QuotedIsOneArgument(values[0], "");
      } else {
        assert Quoted(values, Quote)[1..] == Quoted(values[1..], Quote);
        var rest := Join(Quoted(values[1..], Quote));
        assert text == Quote(values[0]) + (" " + rest);
        QuotedIsOneArgument(values[0], " " + rest);
        assert (" " + rest)[1..] == rest;
        ArgumentsRoundTrip(values[1..]);
        assert values == [values[0]] + values[1..];
      }
    }
  }

  // ---- the program --------------------------------------------------------------------------

  lemma {:induction false} PlainProgram(value: string, rest: string)
    requires forall c :: c in value ==> !IsBlank(c)
    requires Boundary(rest)
    ensures Program(value + rest, false) == (value, rest)
  {
    if value == "" {
      assert value + rest == rest;
    } else {
      assert value[0] in value;
      assert (value + rest)[1..] == value[1..] + rest;
      assert forall d :: d in value[1..] ==> d in value;
      PlainProgram(value[1..], rest);
      assert value == [value[0]] + value[1..];
    }
  }

  /** A quoted program is read up to the next mark, backslashes and all. */
  lemma {:induction false} QuotedProgram(value: string, rest: string)
    requires '"' !in value
    ensures Program(value + "\"" + rest, true) == (value, rest)
  {
    var text := value + "\"" + rest;
    if value == "" {
      assert text[1..] == rest;
    } else {
      assert value[0] in value;
      assert text[1..] == value[1..] + "\"" + rest;
      QuotedProgram(value[1..], rest);
      assert value == [value[0]] + value[1..];
    }
  }

  lemma {:induction false} ProgramHasNoMark(text: string)
    ensures '"' !in Program(text, true).0
  {
    if text != "" && text[0] != '"' {
      ProgramHasNoMark(text[1..]);
    }
  }

  function TrailingBackslashes(value: string): (n: nat)
    ensures n <= |value|
    ensures forall i :: |value| - n <= i < |value| ==> value[i] == '\\'
  {
    if value != "" && value[|value| - 1] == '\\' then TrailingBackslashes(value[..|value| - 1]) + 1 else 0
  }

  lemma Rejoin(before: string, c: char, tail: string, after: string)
    ensures before + [c] + ("" + tail + after) == before + [c] + tail + after == before + ([c] + tail) + after
  {
  }

  /** Without a mark, the encoder changes a value only by doubling the backslashes at its end. */
  lemma {:induction false} EncodedWithoutMark(value: string, held: nat) returns (n: nat)
    requires '"' !in value
    ensures Encoded(value, held) == Backslashes(held) + value + Backslashes(n)
    ensures n > 0 <==> if value == "" then held > 0 else value[|value| - 1] == '\\'
  {
    hide Backslashes;
    if value == "" {
      MoreBackslashes(held, held);
      n := held;
      assert Backslashes(held) + "" == Backslashes(held);
    } else {
      var c, tail := value[0], value[1..];
      assert c in value && value == [c] + tail;
      assert forall d :: d in tail ==> d in value;
      n := EncodedWithoutMark(tail, if c == '\\' then held + 1 else 0);
      OneMore(held);
      Rejoin(Backslashes(held), c, tail, Backslashes(n));
    }
  }

  /** Whether the system reads the encoded program name as it was given. */
  predicate ProgramSurvives(value: string) {
    !NeedsQuotes(value) || ('"' !in value && (value == "" || value[|value| - 1] != '\\'))
  }

  lemma QuotedProgramIsRead(value: string, rest: string)
    requires NeedsQuotes(value) && ProgramSurvives(value)
    ensures CommandLineToArgv(Quote(value) + rest) == [value] + Arguments(rest, None, false, 0)
  {
    hide NeedsQuotes, Backslashes, Arguments, Encoded;
    var n := EncodedWithoutMark(value, 0);
    OneMore(0);
    assert Backslashes(0) + value + Backslashes(0) == value;
    var text := "\"" + value + "\"" + rest;
    assert Quote(value) + rest == text;
    assert text[0] == '"' && text[1..] == value + "\"" + rest;
    QuotedProgram(value, rest);
  }

  lemma ProgramIsRead(value: string, rest: string)
    requires Boundary(rest) && ProgramSurvives(value)
    ensures CommandLineToArgv(Quote(value) + rest) == [value] + Arguments(rest, None, false, 0)
  {
    hide Arguments;
    if NeedsQuotes(value) {
      QuotedProgramIsRead(value, rest);
    } else {
      assert value[0] in value;
      PlainProgram(value, rest);
    }
  }

  /** Otherwise the name is cut at its first mark, or keeps doubled backslashes. */
  lemma ProgramIsMisread(value: string, rest: string)
    requires Boundary(rest) && !ProgramSurvives(value)
    ensures CommandLineToArgv(Quote(value) + rest)[0] != value
  {
    var text := Quote(value) + rest;
    assert text[1..] == Encoded(value, 0) + "\"" + rest;
    ProgramHasNoMark(text[1..]);
    if '"' !in value {
      var n := EncodedWithoutMark(value, 0);
      QuotedProgram(Encoded(value, 0), rest);
      assert |Encoded(value, 0)| > |value|;
    }
  }

  lemma {:induction false} JoinHasNoNul(values: seq<string>)
    ensures '\0' in Join(values) <==> exists v :: v in values && '\0' in v
  {
    if |values| > 1 {
      JoinHasNoNul(values[1..]);
      assert values == [values[0]] + values[1..];
    } else if |values| == 1 {
      assert values[0] in values;
    }
  }

  lemma {:induction false} EncodedKeepsNul(value: string, held: nat)
    ensures '\0' in Encoded(value, held) <==> '\0' in value
  {
    if value != "" {
      EncodedKeepsNul(value[1..], held + 1);
      EncodedKeepsNul(value[1..], 0);
      assert value == [value[0]] + value[1..];
    }
  }

  lemma QuoteKeepsNul(value: string)
    ensures '\0' in Quote(value) <==> '\0' in value
  {
    EncodedKeepsNul(value, 0);
  }

  lemma TextHasNoNul(command: seq<string>)
    ensures '\0' in Join(Quoted(command, Quote)) <==> exists v :: v in command && '\0' in v
  {
    hide Quote, Join;
    var quoted := Quoted(command, Quote);
    JoinHasNoNul(quoted);
    forall v
      ensures '\0' in Quote(v) <==> '\0' in v
    {
      QuoteKeepsNul(v);
    }
    if v :| v in command && '\0' in v {
      var i :| 0 <= i < |command| && command[i] == v;
      assert quoted[i] in quoted;
    }
  }

  /** Encoding a command and splitting the text gives the command back exactly if no value holds
      a NUL and the program name is one that survives. */
  lemma CommandRoundTripExactly(command: seq<string>)
    requires command != []
    ensures ParseArguments(Join(Quoted(command, Quote))) == Ok(command)
       <==> (forall v <- command :: '\0' !in v) && ProgramSurvives(command[0])
  {
    hide Quote, ProgramSurvives, CommandLineToArgv, NeedsQuotes, Arguments, Join;
    TextHasNoNul(command);
    var rest := Rest(command[1..]);
    FirstAndRest(command);
    if ProgramSurvives(command[0]) {
      ProgramIsRead(command[0], rest);
      RestIsRead(command[1..]);
      assert command == [command[0]] + command[1..];
    } else {
      ProgramIsMisread(command[0], rest);
    }
  }

  /** What follows the encoded program. */
  function Rest(values: seq<string>): (r: string)
    ensures Boundary(r)
  {
    if values == [] then "" else " " + Join(Quoted(values, Quote))
  }

  lemma FirstAndRest(command: seq<string>)
    requires command != []
    ensures Join(Quoted(command, Quote)) == Quote(command[0]) + Rest(command[1..])
  {
    assert Quoted(command, Quote)[1..] == Quoted(command[1..], Quote);
  }

  lemma RestIsRead(values: seq<string>)
    ensures Arguments(Rest(values), None, false, 0) == values
  {
    ArgumentsRoundTrip(values);
    if values != [] {
      assert Rest(values)[1..] == Join(Quoted(values, Quote));
    }
  }

  // ---- the scanner ------------------------------------------------------------------------

  /** Whether a quotation mark is open after the text: marks count unless an odd number of
      backslashes comes before them. */
  predicate Open(text: string) {
    if text == "" then false
    else
      var before := text[..|text| - 1];
      if text[|text| - 1] == '"' && TrailingBackslashes(before) % 2 == 0 then !Open(before) else Open(before)
  }

  ghost predicate ControlOutsideQuotes(text: string) {
    exists i :: 0 <= i < |text| && IsControl(text[i]) && !Open(text[..i])
  }

  method HasUnquotedShellControl(commandText: string) returns (found: bool)
    ensures found <==> ControlOutsideQuotes(commandText)
  {
    var inQuotes, backslashes := false, 0;
    for i := 0 to |commandText|
      invariant inQuotes == Open(commandText[..i])
      invariant backslashes == TrailingBackslashes(commandText[..i])
      invariant forall j :: 0 <= j < i && IsControl(commandText[j]) ==> Open(commandText[..j])
    {
      var value := commandText[i];
      assert commandText[..i + 1][..i] == commandText[..i];
      if value == '\\' {
        backslashes := backslashes + 1;
        continue;
      }
      if value == '"' {
        if backslashes % 2 == 0 {
          inQuotes := !inQuotes;
        }
        backslashes := 0;
        continue;
      }
      if !inQuotes && IsControl(value) { return true; }
      backslashes := 0;
    }
    return false;
  }

  /** The same from the front, with the state the scanner carries. */
  predicate Flags(text: string, quoted: bool, n: nat) {
    if text == "" then false
    else if text[0] == '\\' then Flags(text[1..], quoted, n + 1)
    else if text[0] == '"' then Flags(text[1..], if n % 2 == 0 then !quoted else quoted, 0)
    else (IsControl(text[0]) && !quoted) || Flags(text[1..], quoted, 0)
  }

  lemma {:induction false} FlagsFrom(text: string, i: nat)
    requires i <= |text|
    ensures Flags(text[i..], Open(text[..i]), TrailingBackslashes(text[..i]))
       <==> exists j :: i <= j < |text| && IsControl(text[j]) && !Open(text[..j])
    decreases |text| - i
  {
    if i < |text| {
      assert text[i..][1..] == text[i + 1..];
      assert text[..i + 1][..i] == text[..i];
      FlagsFrom(text, i + 1);
    }
  }

  lemma {:induction false} FlagsAfterBackslashes(k: nat, rest: string, quoted: bool, n: nat)
    ensures Flags(Backslashes(k) + rest, quoted, n) == Flags(rest, quoted, n + k)
    decreases k
  {
    if k == 0 {
      assert Backslashes(0) + rest == rest;
    } else {
      assert (Backslashes(k) + rest)[0] == '\\';
      assert (Backslashes(k) + rest)[1..] == Backslashes(k - 1) + rest;
      FlagsAfterBackslashes(k - 1, rest, quoted, n + 1);
    }
  }

  lemma {:induction false} FlagsAfterEncoded(value: string, held: nat, rest: string)
    ensures Flags(Encoded(value, held) + "\"" + rest, true, 0) == Flags(rest, false, 0)
  {
    hide Backslashes;
    var text := Encoded(value, held) + "\"" + rest;
    if value == "" {
      assert text == Backslashes(2 * held) + ("\"" + rest);
      FlagsAfterBackslashes(2 * held, "\"" + rest, true, 0);
      assert ("\"" + rest)[1..] == rest;
    } else {
      var c, tail := value[0], value[1..];
      if c == '\\' {
        FlagsAfterEncoded(tail, held + 1, rest);
      } else {
        var marked := if c == '"' then Backslashes(2 * held + 1) else Backslashes(held);
        var later := Encoded(tail, 0) + "\"" + rest;
        assert text == marked + ([c] + later);
        FlagsAfterBackslashes(if c == '"' then 2 * held + 1 else held, [c] + later, true, 0);
        assert ([c] + later)[1..] == later;
        FlagsAfterEncoded(tail, 0, rest);
      }
    }
  }

  lemma {:induction false} FlagsAfterPlain(value: string, rest: string, n: nat)
    requires forall c :: c in value ==> c != '"' && !IsControl(c)
    requires Boundary(rest)
    ensures Flags(value + rest, false, n) == Flags(rest, false, 0)
  {
    if value == "" {
      assert value + rest == rest;
    } else {
      assert value[0] in value;
      assert (value + rest)[1..] == value[1..] + rest;
      assert forall d :: d in value[1..] ==> d in value;
      FlagsAfterPlain(value[1..], rest, if value[0] == '\\' then n + 1 else 0);
    }
  }

  lemma FlagsAfterQuoted(value: string, rest: string)
    requires Boundary(rest)
    ensures Flags(Quote(value) + rest, false, 0) == Flags(rest, false, 0)
  {
    if NeedsQuotes(value) {
      assert (Quote(value) + rest)[1..] == Encoded(value, 0) + "\"" + rest;
      FlagsAfterEncoded(value, 0, rest);
    } else {
      FlagsAfterPlain(value, rest, 0);
    }
  }

  lemma {:induction false} JoinIsNotFlagged(values: seq<string>)
    ensures !Flags(Join(Quoted(values, Quote)), false, 0)
  {
    if values != [] {
      hide Quote, NeedsQuotes;
      FirstAndRest(values);
      FlagsAfterQuoted(values[0], Rest(values[1..]));
      JoinIsNotFlagged(values[1..]);
      if |values| > 1 {
        assert Rest(values[1..])[1..] == Join(Quoted(values[1..], Quote));
      }
    }
  }

  /** The scanner never objects to an encoded command. */
  lemma EncodedIsNeverFlagged(values: seq<string>)
    ensures !ControlOutsideQuotes(Join(Quoted(values, Quote)))
  {
    var text := Join(Quoted(values, Quote));
    JoinIsNotFlagged(values);
    FlagsFrom(text, 0);
    assert text[..0] == "" && text[0..] == text;
  }

  /** So parsing an encoded command gives its executable and arguments, exactly if no value holds
      a NUL and the program name survives. */
  lemma CommandParsesExactly(command: seq<string>)
    requires command != []
    ensures
      var text := Join(Quoted(command, Quote));
      ParseCommandText(ControlOutsideQuotes(text), ParseArguments(text)) == Ok(Parsed(command[0], command[1..]))
      <==> (forall v <- command :: '\0' !in v) && ProgramSurvives(command[0])
  {
    hide ControlOutsideQuotes, ProgramSurvives, CommandLineToArgv, Join, Quote;
    EncodedIsNeverFlagged(command);
    CommandRoundTripExactly(command);
    var split := ParseArguments(Join(Quoted(command, Quote)));
    if split.Ok? && split.value != [] && split.value[0] == command[0] && split.value[1..] == command[1..] {
      assert split.value == [split.value[0]] + split.value[1..];
      assert command == [command[0]] + command[1..];
      assert split.value == command;
    }
  }

  /** Behind encoded values the scanner goes on as at the start of a text. */
  lemma {:induction false} FlagsBehind(values: seq<string>, tail: string)
    requires values != []
    ensures Flags(Join(Quoted(values, Quote)) + " " + tail, false, 0) == Flags(tail, false, 0)
    decreases |values|
  {
    hide Quote, NeedsQuotes, Join, Backslashes;
    FirstAndRest(values);
    var rest := Rest(values[1..]) + " " + tail;
    assert Join(Quoted(values, Quote)) + " " + tail == Quote(values[0]) + rest;
    FlagsAfterQuoted(values[0], rest);
    if |values| == 1 {
      assert rest[1..] == tail;
    } else {
      FlagsBehind(values[1..], tail);
      assert rest[1..] == Join(Quoted(values[1..], Quote)) + " " + tail;
    }
  }

  /** Whatever was encoded before it, each of the five operators is found and the text refused. */
  lemma AppendedOperatorIsFlagged(values: seq<string>, operator: char, rest: string)
    requires values != [] && operator in ";&|<>"
    ensures
      var text := Join(Quoted(values, Quote)) + " " + ([operator] + rest);
      ControlOutsideQuotes(text) && ParseCommandText(ControlOutsideQuotes(text), ParseArguments(text)) == Failed
  {
    hide Quote, Join, CommandLineToArgv;
    var text := Join(Quoted(values, Quote)) + " " + ([operator] + rest);
    FlagsBehind(values, [operator] + rest);
    assert ([operator] + rest)[0] == operator;
    FlagsFrom(text, 0);
    assert text[..0] == "" && text[0..] == text;
  }

  // ---- what is left bare -------------------------------------------------------------------

  lemma {:induction false} EncodedIsNoShorter(value: string, held: nat)
    ensures |Encoded(value, held)| >= |value| + held
  {
    if value != "" {
      EncodedIsNoShorter(value[1..], if value[0] == '\\' then held + 1 else 0);
    }
  }

  /** A value is written as it is exactly if it is not empty and holds no blank, vertical tab, mark or
      operator. */
  lemma LeftBareExactly(value: string)
    ensures Quote(value) == value <==>
      value != "" && forall c <- value :: c !in " \t\n\r\";&|<>" && c != 0x0B as char
  {
    EncodedIsNoShorter(value, 0);
    assert NeedsQuotes(value) <==>
      value == "" || exists c :: c in value && (c in " \t\n\r\";&|<>" || c == 0x0B as char);
  }
}
