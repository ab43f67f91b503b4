/** Argument quoting outside Windows, against the quoting rules of a POSIX shell (POSIX.1-2017, XCU
    section 2.2). The parser of command texts splits words by those rules but expands nothing; a
    shell would also expand what stands outside quotes, which the reader notes. */
module PosixCommands {
  import opened Common
  import opened CommandText

  predicate IsSpecial(c: char) {
    c in {' ', '\t', '\n', '\r', '\\', '"', '\''} || IsControl(c)
  }

  /** `strings.ReplaceAll(value, "'", "'\\''")`. */
  function EscapeQuotes(value: string): string {
    if value == "" then "" else (if value[0] == '\'' then "'\\''" else [value[0]]) + EscapeQuotes(value[1..])
  }

  predicate NeedsQuotes(value: string) {
    exists c :: c in value && IsSpecial(c)
  }

  function QuoteCommandArgument(value: string): string {
    if value == "" then "''"
    else if !NeedsQuotes(value) then value
    else "'" + EscapeQuotes(value) + "'"
  }

  // ---- the shell's reading ---------------------------------------------------------

  /** `literal` tells whether a shell, too, would take these words as they stand: no parenthesis,
      dollar sign or backquote was met where it is special. */
  datatype Split = Words(words: seq<string>, literal: bool) | Operator | Unterminated
  datatype Mode = Plain | Escaped | Single | Double | DoubleEscaped

  predicate IsBlank(c: char) {
    c in {' ', '\t', '\n', '\r'}
  }

  function Add(word: Option<string>, text: string): Option<string> {
    Some((if word.Some? then word.value else "") + text)
  }

  function Ends(word: Option<string>): seq<string> {
    if word.Some? then [word.value] else []
  }

  function After(word: Option<string>, later: Split): Split {
    if later.Words? then later.(words := Ends(word) + later.words) else later
  }

  /** Special outside quotes (XCU section 2.2), besides blanks, quotes and the characters that the
      scanner looks for. */
  predicate Expands(c: char) {
    c == '(' || c == ')' || c == '$' || c == '`'
  }

  function Noting(special: bool, later: Split): Split {
    if later.Words? && special then later.(literal := false) else later
  }

  /** The words of the text, or the first of the characters `;&|<>` outside quotes that is met. */
  function Lex(text: string, mode: Mode, word: Option<string>): Split {
    if text == "" then
      if mode.Plain? then Words(Ends(word), true) else Unterminated
    else
      var c, rest := text[0], text[1..];
      match mode
      case Plain =>
        if IsBlank(c) then After(word, Lex(rest, Plain, None))
        else if c == '\\' then Lex(rest, Escaped, word)
        else if c == '\'' then Lex(rest, Single, Add(word, ""))
        else if c == '"' then Lex(rest, Double, Add(word, ""))
        else if IsControl(c) then Operator
        else Noting(Expands(c), Lex(rest, Plain, Add(word, [c])))
      case Escaped => Lex(rest, Plain, if c == '\n' then word else Add(word, [c]))
      case Single => if c == '\'' then Lex(rest, Plain, word) else Lex(rest, Single, Add(word, [c]))
      case Double =>
        if c == '"' then Lex(rest, Plain, word)
        else if c == '\\' then Lex(rest, DoubleEscaped, word)
        else Noting(c == '$' || c == '`', Lex(rest, Double, Add(word, [c])))
      case DoubleEscaped =>
        Lex(rest, Double,
            if c in {'$', '`', '"', '\\'} then Add(word, [c]) else if c == '\n' then word else Add(word, ['\\', c]))
  }

  function SplitText(text: string): Split {
    Lex(text, Plain, None)
  }

  /** What a splitter gives that knows the quoting rules and expands nothing. */
  function Arguments(text: string): Result<seq<string>> {
    var split := SplitText(text);
    if split.Words? then Ok(split.words) else Failed
  }

  /** What a shell gives, as far as it does not expand anything. */
  function ShellArguments(text: string): Result<seq<string>> {
    var split := SplitText(text);
    if split.Words? && split.literal then Ok(split.words) else Failed
  }

  // ---- the scanner --------------------------------------------------------------------

  /** Whether an operator is met does not depend on the word being read. */
  lemma {:induction false} OperatorWhateverTheWord(text: string, mode: Mode, a: Option<string>, b: Option<string>)
    ensures Lex(text, mode, a) == Operator <==> Lex(text, mode, b) == Operator
  {
    if text != "" {
      var c, rest := text[0], text[1..];
      match mode
      case Plain =>
        if !IsBlank(c) && c != '\\' && !IsControl(c) {
          OperatorWhateverTheWord(rest, if c == '\'' then Single else if c == '"' then Double else Plain,
                                  Add(a, if c == '\'' || c == '"' then "" else [c]),
                                  Add(b, if c == '\'' || c == '"' then "" else [c]));
        } else if c == '\\' {
          OperatorWhateverTheWord(rest, Escaped, a, b);
        }
      case Escaped =>
        OperatorWhateverTheWord(rest, Plain, a, b);
        OperatorWhateverTheWord(rest, Plain, Add(a, [c]), Add(b, [c]));
      case Single =>
        OperatorWhateverTheWord(rest, Plain, a, b);
        OperatorWhateverTheWord(rest, Single, Add(a, [c]), Add(b, [c]));
      case Double =>
        OperatorWhateverTheWord(rest, Plain, a, b);
        OperatorWhateverTheWord(rest, DoubleEscaped, a, b);
        OperatorWhateverTheWord(rest, Double, Add(a, [c]), Add(b, [c]));
      case DoubleEscaped =>
        OperatorWhateverTheWord(rest, Double, a, b);
        OperatorWhateverTheWord(rest, Double, Add(a, [c]), Add(b, [c]));
        OperatorWhateverTheWord(rest, Double, Add(a, ['\\', c]), Add(b, ['\\', c]));
    }
  }

  /** The scanner's state in the reader's terms. */
  function ModeOf(quote: char, escaped: bool): Mode {
    if quote == '\'' then Single
    else if quote == '"' then (if escaped then DoubleEscaped else Double)
    else if escaped then Escaped else Plain
  }

  /** The scanner flags a text exactly if one of the characters `;&|<>` is met outside quotes. */
  method HasUnquotedShellControl(commandText: string) returns (found: bool)
    ensures found <==> SplitText(commandText) == Operator
  {
    var quote := '\0';
    var escaped := false;
    for i := 0 to |commandText|
      invariant quote in {'\0', '\'', '"'} && (quote == '\'' ==> !escaped)
      invariant Lex(commandText[i..], ModeOf(quote, escaped), None) == Operator <==> SplitText(commandText) == Operator
    {
      var r := commandText[i];
      assert commandText[i..][1..] == commandText[i + 1..];
      OperatorForAnyWord(commandText[i + 1..]);
      if quote == '\'' {
        if r == quote { quote := '\0'; }
        continue;
      }
      if escaped {
        escaped := false;
        continue;
      }
      if r == '\\' {
        escaped := true;
        continue;
      }
      if quote == '"' {
        if r == quote { quote := '\0'; }
        continue;
      }
      if r == '\'' || r == '"' {
        quote := r;
        continue;
      }
      if IsControl(r) { return true; }
    }
    return false;
  }

  lemma OperatorForAnyWord(text: string)
    ensures forall mode, word :: Lex(text, mode, word) == Operator <==> Lex(text, mode, None) == Operator
  {
    forall mode, word
      ensures Lex(text, mode, word) == Operator <==> Lex(text, mode, None) == Operator
    {
      OperatorWhateverTheWord(text, mode, word, None);
    }
  }

  // ---- the round trip --------------------------------------------------------------------

  predicate HasExpansion(value: string) {
    exists c :: c in value && Expands(c)
  }

  lemma {:induction false} PlainIsRead(value: string, rest: string, word: Option<string>)
    requires forall c :: c in value ==> !IsSpecial(c)
    requires value != "" || word.Some?
    ensures Lex(value + rest, Plain, word) == Noting(HasExpansion(value), Lex(rest, Plain, Add(word, value)))
  {
    if value == "" {
      assert value + rest == rest;
      assert word.value + "" == word.value;
    } else {
      var c, tail := value[0], value[1..];
      assert c in value && value == [c] + tail;
      assert (value + rest)[1..] == tail + rest;
      assert forall d :: d in tail ==> d in value;
      PlainIsRead(tail, rest, Add(word, [c]));
      var before := if word.Some? then word.value else "";
      assert (before + [c]) + tail == before + value;
      assert HasExpansion(value) <==> Expands(c) || HasExpansion(tail);
    }
  }

  lemma {:induction false} EscapedIsRead(value: string, rest: string, word: string)
    ensures Lex(EscapeQuotes(value) + "'" + rest, Single, Some(word)) == Lex(rest, Plain, Some(word + value))
  {
    if value == "" {
      assert (EscapeQuotes(value) + "'" + rest)[1..] == rest && word + value == word;
    } else {
      var c, tail := value[0], EscapeQuotes(value[1..]) + "'" + rest;
      EscapedIsRead(value[1..], rest, word + [c]);
      assert word + [c] + value[1..] == word + value;
      var text := EscapeQuotes(value) + "'" + rest;
      if c == '\'' {
        assert text == ['\'', '\\', '\'', '\''] + tail;
        ReopenedQuote(tail, word);
      } else {
        assert text == [c] + tail;
      }
    }
  }

  /** A quote is written by leaving the quoted part, escaping it and going back. */
  lemma ReopenedQuote(tail: string, word: string)
    ensures Lex(['\'', '\\', '\'', '\''] + tail, Single, Some(word)) == Lex(tail, Single, Some(word + ['\'']))
  {
    assert (['\'', '\\', '\'', '\''] + tail)[1..] == ['\\', '\'', '\''] + tail;
    assert (['\\', '\'', '\''] + tail)[1..] == ['\'', '\''] + tail;
    assert (['\'', '\''] + tail)[1..] == ['\''] + tail;
    assert (['\''] + tail)[1..] == tail;
    assert word + ['\''] + "" == word + ['\''];
    assert Lex(['\''] + tail, Plain, Some(word + ['\''])) == Lex(tail, Single, Some(word + ['\'']));
    assert Lex(['\'', '\''] + tail, Escaped, Some(word)) == Lex(['\''] + tail, Plain, Some(word + ['\'']));
    assert Lex(['\\', '\'', '\''] + tail, Plain, Some(word)) == Lex(['\'', '\''] + tail, Escaped, Some(word));
  }

  /** The value is written without quotes and holds a character that a shell expands. */
  predicate BareExpansion(value: string) {
    value != "" && !NeedsQuotes(value) && HasExpansion(value)
  }

  /** An encoded argument is read as one word equal to it, whatever follows; a shell takes it as it
      stands exactly if it was quoted or holds nothing that expands. */
  lemma QuotedIsOneWord(value: string, rest: string)
    ensures Lex(QuoteCommandArgument(value) + rest, Plain, None)
         == Noting(BareExpansion(value), Lex(rest, Plain, Some(value)))
  {
    assert "" + value == value;
    if value != "" && !NeedsQuotes(value) {
      PlainIsRead(value, rest, None);
    } else {
      assert QuoteCommandArgument(value) == "'" + EscapeQuotes(value) + "'";
      hide NeedsQuotes, EscapeQuotes, Lex;
      var tail := EscapeQuotes(value) + "'" + rest;
      assert QuoteCommandArgument(value) + rest == ['\''] + tail;
      QuoteOpens(tail);
      EscapedIsRead(value, rest, "");
    }
  }

  lemma QuoteOpens(tail: string)
    ensures Lex(['\''] + tail, Plain, None) == Lex(tail, Single, Some(""))
  {
    var text := ['\''] + tail;
    assert text[0] == '\'' && text[1..] == tail;
    assert "" + "" == "";
  }

  predicate SomeBareExpansion(values: seq<string>) {
    exists v :: v in values && BareExpansion(v)
  }

  /** The quoting rules split an encoded command into its arguments, for every list of them; the
      words are literal exactly if no value left bare holds a character that expands. */
  lemma {:induction false} ArgumentsRoundTrip(values: seq<string>)
    ensures SplitText(Join(Quoted(values, QuoteCommandArgument))) == Words(values, !SomeBareExpansion(values))
  {
    if values != [] {
      hide BareExpansion, QuoteCommandArgument, Lex;
      assert values == [values[0]] + values[1..];
      assert SomeBareExpansion(values) <==> BareExpansion(values[0]) || SomeBareExpansion(values[1..]);
      hide SomeBareExpansion;
      var rest := if |values| == 1 then "" else " " + Join(Quoted(values[1..], QuoteCommandArgument));
      JoinFirst(values);
      QuotedIsOneWord(values[0], rest);
      ArgumentsRoundTrip(values[1..]);
      WordEnds(values[0], Join(Quoted(values[1..], QuoteCommandArgument)));
    } else {
      assert !SomeBareExpansion([]);
    }
  }

  lemma JoinFirst(values: seq<string>)
    requires values != []
    ensures Join(Quoted(values, QuoteCommandArgument)) == QuoteCommandArgument(values[0]) +
      if |values| == 1 then "" else " " + Join(Quoted(values[1..], QuoteCommandArgument))
  {
    hide QuoteCommandArgument;
    assert Quoted(values, QuoteCommandArgument)[1..] == Quoted(values[1..], QuoteCommandArgument);
  }

  /** A word ends at the end of the text or at a blank. */
  lemma WordEnds(word: string, rest: string)
    ensures Lex("", Plain, Some(word)) == Words([word], true)
    ensures Lex(" " + rest, Plain, Some(word)) == After(Some(word), Lex(rest, Plain, None))
  {
    assert (" " + rest)[0] == ' ' && (" " + rest)[1..] == rest;
  }

  /** For every command, with a splitter that applies the quoting rules and expands nothing, the
      encoded text is never flagged and parses to the executable and the arguments. A shell reads
      the same from it if and only if no value left bare holds a parenthesis, a dollar sign or a
      backquote. */
  lemma CommandRoundTrip(command: seq<string>)
    requires command != []
    ensures
      var text := Join(Quoted(command, QuoteCommandArgument));
      && SplitText(text) != Operator
      && ParseCommandText(SplitText(text) == Operator, Arguments(text)) == Ok(Parsed(command[0], command[1..]))
      && (ParseCommandText(SplitText(text) == Operator, ShellArguments(text)) == Ok(Parsed(command[0], command[1..]))
          <==> !SomeBareExpansion(command))
  {
    ArgumentsRoundTrip(command);
  }

  /** For instance `a$b` is left bare, and a shell would expand it. */
  lemma BareExpansionWitness()
    ensures QuoteCommandArgument("a$b") == "a$b" && ShellArguments("a$b") == Failed && Arguments("a$b") == Ok(["a$b"])
  {
    assert '$' in "a$b" && Expands('$');
    QuotedIsOneWord("a$b", "");
    assert QuoteCommandArgument("a$b") + "" == "a$b";
    assert Lex("", Plain, Some("a$b")) == Words(["a$b"], true);
  }

  // ---- operators are found -----------------------------------------------------------------

  /** Behind encoded values the reader goes on as at the start of a text. */
  lemma {:induction false} ReadBehind(values: seq<string>, tail: string)
    requires values != []
    ensures Lex(Join(Quoted(values, QuoteCommandArgument)) + " " + tail, Plain, None) == Operator <==>
      Lex(tail, Plain, None) == Operator
    decreases |values|
  {
    hide QuoteCommandArgument, Lex, BareExpansion, Join;
    JoinFirst(values);
    if |values| == 1 {
      QuotedIsOneWord(values[0], " " + tail);
      WordEnds(values[0], tail);
      BehindLast(values, tail);
    } else {
      var others := Join(Quoted(values[1..], QuoteCommandArgument));
      ReadBehind(values[1..], tail);
      QuotedIsOneWord(values[0], " " + (others + " " + tail));
      WordEnds(values[0], others + " " + tail);
      var text := Join(Quoted(values, QuoteCommandArgument)) + " " + tail;
      assert text == QuoteCommandArgument(values[0]) + (" " + (others + " " + tail));
    }
  }

  lemma BehindLast(values: seq<string>, tail: string)
    requires |values| == 1
    ensures Join(Quoted(values, QuoteCommandArgument)) + " " + tail == QuoteCommandArgument(values[0]) + (" " + tail)
  {
    JoinFirst(values);
    hide QuoteCommandArgument;
    assert QuoteCommandArgument(values[0]) + "" == QuoteCommandArgument(values[0]);
  }

  /** Whatever was encoded before it, each of the five operators is found and the text refused. */
  lemma AppendedOperatorIsFlagged(values: seq<string>, operator: char, rest: string)
    requires values != [] && operator in ";&|<>"
    ensures
      var text := Join(Quoted(values, QuoteCommandArgument)) + " " + ([operator] + rest);
      SplitText(text) == Operator && ParseCommandText(SplitText(text) == Operator, Arguments(text)) == Failed
  {
    ReadBehind(values, [operator] + rest);
    assert ([operator] + rest)[0] == operator;
  }

  // ---- what is left bare -------------------------------------------------------------------

  lemma {:induction false} EscapedIsNoShorter(value: string)
    ensures |EscapeQuotes(value)| >= |value|
  {
    if value != "" {
      EscapedIsNoShorter(value[1..]);
    }
  }

  /** A value is written as it is exactly if it is not empty and holds no blank, quote, backslash or
      operator. */
  lemma LeftBareExactly(value: string)
    ensures QuoteCommandArgument(value) == value <==>
      value != "" && forall c <- value :: c !in " \t\n\r\\\"';&|<>"
  {
    EscapedIsNoShorter(value);
    assert forall c :: IsSpecial(c) <==> c in " \t\n\r\\\"';&|<>";
  }
}
