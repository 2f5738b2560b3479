/**
 * src/completer.rs: tab completion of the command word. Only the choice of
 * candidates is modelled; the line editor that calls it is not.
 */
module Completer {
  import Text

  /** `commands.iter().filter(|c| c.starts_with(partial)).map(|s| format!("{} ", s))`. */
  function Candidates(commands: seq<string>, partial: string): (r: seq<string>)
    ensures |r| <= |commands|
    ensures forall i :: 0 <= i < |r| ==>
              exists j :: 0 <= j < |commands| && partial <= commands[j] && r[i] == commands[j] + " "
    ensures forall j :: 0 <= j < |commands| && partial <= commands[j] ==> commands[j] + " " in r
  {
    if commands == [] then []
    else
      var rest := Candidates(commands[1..], partial);
      if partial <= commands[0] then [commands[0] + " "] + rest else rest
  }

  /** Candidates keep the order of `commands`: filtering distributes over concatenation. */
  lemma {:induction false} CandidatesAppend(a: seq<string>, b: seq<string>, partial: string)
    ensures Candidates(a + b, partial) == Candidates(a, partial) + Candidates(b, partial)
    decreases |a|
  {
    if a == [] {
      assert a + b == b;
    } else {
      assert (a + b)[0] == a[0] && (a + b)[1..] == a[1..] + b;
      CandidatesAppend(a[1..], b, partial);
    }
  }

  /** With an empty partial word every command is offered, in order. */
  lemma {:induction false} CandidatesOfEmptyPartial(commands: seq<string>)
    ensures Candidates(commands, "") == seq(|commands|, i requires 0 <= i < |commands| => commands[i] + " ")
  {
    if commands != [] {
      CandidatesOfEmptyPartial(commands[1..]);
      assert "" <= commands[0];
    }
  }

  datatype CommandCompleter = CommandCompleter(commands: seq<string>) {

    /**
     * `CommandCompleter::complete`. Candidates are offered, replacing the line
     * from position 0, while the text before the cursor is blank, or is one
     * word and the whole line does not end in a space; the partial word is
     * that word, or "" when there is none. Otherwise nothing is offered and
     * the start is the cursor.
     */
    function Complete(line: string, pos: nat): (r: (nat, seq<string>))
      requires pos <= |line|
      ensures Text.AllWhitespace(line[..pos]) ==> r == (0, Candidates(commands, ""))
      ensures var words := Text.SplitWhitespace(line[..pos]);
              |words| == 1 && !EndsWithSpace(line) ==>
                r == (0, Candidates(commands, words[0]))
      ensures r.0 == 0 || r == (pos, [])
      ensures r.0 == 0 <==>
                Text.AllWhitespace(line[..pos])
                || (|Text.SplitWhitespace(line[..pos])| == 1 && !EndsWithSpace(line))
    {
      var words := Text.SplitWhitespace(line[..pos]);
      Text.SplitWhitespaceEmptyIffBlank(line[..pos]);
      if |words| == 0 || (|words| == 1 && !EndsWithSpace(line)) then
        var partial := if |words| == 0 then "" else words[|words| - 1];
        (0, Candidates(commands, partial))
      else
        (pos, [])
    }
  }

  /** `line.ends_with(' ')`: only the space character counts. */
  predicate EndsWithSpace(line: string) {
    line != [] && line[|line| - 1] == ' '
  }
}
