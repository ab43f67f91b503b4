/** Command text made from arguments and read back, with the quoting of either platform. */
module CommandText {
  import opened Common
  import opened Text

  /** `strings.Join(values, " ")`. */
  function Join(values: seq<string>): string {
    if values == [] then "" else if |values| == 1 then values[0] else values[0] + " " + Join(values[1..])
  }

  function Quoted(values: seq<string>, quote: string -> string): (r: seq<string>)
    ensures |r| == |values| && forall i :: 0 <= i < |r| ==> r[i] == quote(values[i])
  {
    seq(|values|, i requires 0 <= i < |values| => quote(values[i]))
  }

  method CommandTextFromArguments(command: seq<string>, quote: string -> string) returns (r: Result<string>)
    ensures r == if command == [] || Blank(command[0]) then Failed else Ok(Join(Quoted(command, quote)))
  {
    if |command| == 0 { return Failed; }
    TrimIsExact(command[0]);
    hide Blank, Stripped, TrimSpace;
    var values: seq<string> := [];
    for i := 0 to |command|
      invariant values == Quoted(command, quote)[..i]
      invariant i > 0 ==> TrimSpace(command[0]) != ""
    {
      if i == 0 && TrimSpace(command[i]) == "" { return Failed; }
      values := values + [quote(command[i])];
    }
    assert values == Quoted(command, quote);
    return Ok(Join(values));
  }

  datatype Parsed = Parsed(executable: string, args: seq<string>)

  /** `parseCommandText`, given what the scanner and the splitter of the platform say. */
  function ParseCommandText(flagged: bool, split: Result<seq<string>>): Result<Parsed> {
    if flagged || split.Failed? || split.value == [] then Failed
    else Ok(Parsed(split.value[0], split.value[1..]))
  }

  predicate IsControl(c: char) {
    c == ';' || c == '&' || c == '|' || c == '<' || c == '>'
  }
}
