/**
 * src/instruction.rs: a line of input split into a command word and its
 * arguments. There is no quoting and no escaping: every maximal run of
 * non-whitespace characters is one word.
 */
module Instruction {
  import Text

  datatype Instruction = Instruction(command: string, arguments: seq<string>)

  /**
   * `Instruction::new`. The first word becomes the command and the rest the
   * arguments. The source unwraps the first word, so a blank input panics;
   * that is the precondition here.
   */
  function New(input: string): (r: Instruction)
    requires !Text.AllWhitespace(input)
    ensures [r.command] + r.arguments == Text.SplitWhitespace(input)
    ensures r.command != [] && Text.NoWhitespace(r.command)
    ensures forall i :: 0 <= i < |r.arguments| ==>
              r.arguments[i] != [] && Text.NoWhitespace(r.arguments[i])
  {
    Text.SplitWhitespaceEmptyIffBlank(input);
    var words := Text.SplitWhitespace(input);
    assert words == [words[0]] + words[1..];
    Instruction(words[0], words[1..])
  }

  /** Whitespace around the input, however much, does not change the instruction. */
  lemma NewIgnoresPadding(w1: string, input: string, w2: string)
    requires Text.AllWhitespace(w1) && Text.AllWhitespace(w2)
    requires !Text.AllWhitespace(input)
    ensures !Text.AllWhitespace(w1 + input + w2)
    ensures New(w1 + input + w2) == New(input)
  {
    Text.SplitWhitespaceIgnoresPadding(w1, input, w2);
    Text.SplitWhitespaceEmptyIffBlank(input);
    Text.SplitWhitespaceEmptyIffBlank(w1 + input + w2);
  }

  /**
   * The command followed by the arguments holds every non-whitespace
   * character of the input, in order; quotes and backslashes are ordinary
   * characters and stay in the words verbatim.
   */
  lemma NewKeepsCharacters(input: string)
    requires !Text.AllWhitespace(input)
    ensures New(input).command + Text.Concat(New(input).arguments) == Text.RemoveWhitespace(input)
  {
    var r := New(input);
    Text.SplitWhitespaceKeepsCharacters(input);
    assert Text.Concat([r.command] + r.arguments) == r.command + Text.Concat(r.arguments) by {
      assert ([r.command] + r.arguments)[1..] == r.arguments;
    }
  }

  /**
   * Words written out with whitespace between them parse back to exactly
   * those words: the first is the command and the rest are the arguments.
   */
  lemma NewOfSeparatedWords(gaps: seq<string>, command: string, arguments: seq<string>)
    requires Text.WellSeparated(gaps, [command] + arguments)
    ensures !Text.AllWhitespace(Text.Interleave(gaps, [command] + arguments))
    ensures New(Text.Interleave(gaps, [command] + arguments)) == Instruction(command, arguments)
  {
    var line := Text.Interleave(gaps, [command] + arguments);
    Text.SplitWhitespaceOfInterleave(gaps, [command] + arguments);
    Text.SplitWhitespaceEmptyIffBlank(line);
  }
}
