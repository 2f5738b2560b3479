/**
 * src/main.rs: how one line of input is turned into an instruction and what
 * `handle_input` then does with it. The effects on the process (printing,
 * changing directory, exiting, spawning) are described by an `Effect` value;
 * what the operating system answers is supplied by a `Host`.
 */
module Dispatch {
  import opened Wrappers
  import Text
  import Instruction
  import ShellState
  import PathSearch

  /** The operating system's answers to the shell's probes. */
  datatype Host = Host(
    currentDir: Option<string>,  // `current_dir()`, None when it fails
    enters: string -> bool,      // `set_current_dir(d).is_ok()`
    present: string -> bool,     // `fs::metadata(p).is_ok()`
    launches: string -> bool)    // `Command::new(p).output().is_ok()`

  /** What one call of `handle_input` does. */
  datatype Effect =
    | Print(line: string)                        // `println!`
    | PrintError(line: string)                   // `eprintln!`
    | ChangeDirectory(dir: string)               // a successful `set_current_dir`
    | Exit(status: int)                          // `exit(status)`
    | Spawn(program: string, args: seq<string>)  // `Command::new(program).args(args).status()`
    | Panic                                      // an index out of bounds or a failed `unwrap`

  /**
   * The command names `handle_input` matches before falling back to PATH; the
   * same five names as `ShellState.Builtins`, written as match arms in the code.
   */
  predicate IsDispatchedBuiltin(command: string) {
    command == "pwd" || command == "cd" || command == "echo" || command == "type" || command == "exit"
  }

  /**
   * The loop in `main` trims the line read before building the instruction;
   * a blank line makes `Instruction::new` panic.
   */
  function ReadInstruction(line: string): (r: Instruction.Instruction)
    requires !Text.AllWhitespace(line)
    ensures r == Instruction.New(line)
  {
    Text.SplitWhitespaceOfTrim(line);
    Text.SplitWhitespaceEmptyIffBlank(line);
    Text.SplitWhitespaceEmptyIffBlank(Text.Trim(line));
    Instruction.New(Text.Trim(line))
  }

  /** `cd`'s target: `~` stands for HOME, anything else is taken literally. */
  function CdTarget(argument: string, home: string): string {
    if argument == "~" then home else argument
  }

  /**
   * `handle_input`: the printing, directory change, exit or spawn an
   * instruction ends in. For a command that is not a builtin the launch
   * probe `launches` has already run candidate programs before the spawn;
   * the model treats that probe as an answer only.
   */
  function HandleInput(instruction: Instruction.Instruction, shell: ShellState.Shell, host: Host): (r: Effect)
    requires ShellState.Ready(shell)
    ensures var command, arguments := instruction.command, instruction.arguments;
            var home := shell.environment["home"];
            && (r.Exit? <==> command == "exit" && Text.Concat(arguments) == "0")
            && (r.Exit? ==> r.status == 0)
            && (r.Panic? <==> (command == "cd" && arguments == []) || (command == "pwd" && host.currentDir.None?))
            && (r.ChangeDirectory? <==>
                  command == "cd" && arguments != [] && host.enters(CdTarget(arguments[0], home)))
            && (r.ChangeDirectory? ==> r.dir == CdTarget(arguments[0], home))
            && (command == "exit" && Text.Concat(arguments) != "0" ==> r == Print("exit: command not found"))
            && (command == "pwd" && host.currentDir.Some? ==> r == Print(host.currentDir.value))
    ensures var command, path := instruction.command, shell.environment["path"];
            var runnable := PathSearch.Locate(path, command, PathSearch.Launchable(host.present, host.launches));
            && (r.Spawn? <==> !IsDispatchedBuiltin(command) && runnable.Some?)
            && (r.Spawn? ==> r.program == command && r.args == instruction.arguments)
            && (r.PrintError? <==> !IsDispatchedBuiltin(command) && runnable.None?)
            && (r.PrintError? ==> r.line == command + ": command not found")
  {
    var home := shell.environment["home"];
    var path := shell.environment["path"];
    var command := instruction.command;
    var arguments := instruction.arguments;
    match command
    case "pwd" =>
      if host.currentDir.Some? then Print(host.currentDir.value) else Panic
    case "cd" =>
      if arguments == [] then Panic
      else
        var directory := arguments[0];
        if directory == "~" then
          if host.enters(home) then ChangeDirectory(home) else Print("Error navigating to home")
        else
          if host.enters(directory) then ChangeDirectory(directory)
          else Print("cd: " + directory + ": No such file or directory")
    case "echo" =>
      Print(Text.Trim(Text.Concat(arguments)))
    case "type" =>
      var name := Text.Concat(arguments);
      if name in shell.builtins then Print(name + " is a shell builtin")
      else Print(PathSearch.TypeReport(path, name, host.present))
    case "exit" =>
      if Text.Concat(arguments) == "0" then Exit(0) else Print("exit: command not found")
    case _ =>
      match PathSearch.Locate(path, command, PathSearch.Launchable(host.present, host.launches))
      case Some(_) => Spawn(command, arguments)
      case None => PrintError(command + ": command not found")
  }

  /**
   * `echo` prints its arguments glued together with no separator; the final
   * trim never removes anything, because the words hold no whitespace.
   */
  lemma EchoPrintsConcatenation(line: string, shell: ShellState.Shell, host: Host)
    requires ShellState.Ready(shell)
    requires !Text.AllWhitespace(line) && ReadInstruction(line).command == "echo"
    ensures HandleInput(ReadInstruction(line), shell, host) == Print(Text.Concat(ReadInstruction(line).arguments))
  {
    var arguments := ReadInstruction(line).arguments;
    Text.ConcatOfWords(arguments);
    Text.TrimOfWord(Text.Concat(arguments));
  }

  /**
   * `type` with a builtin name answers without searching PATH: the answer is
   * the builtin line whatever the filesystem holds.
   */
  lemma TypeOfBuiltinSkipsSearch(instruction: Instruction.Instruction, shell: ShellState.Shell,
                                 host: Host, otherPresent: string -> bool)
    requires ShellState.Ready(shell)
    requires instruction.command == "type" && Text.Concat(instruction.arguments) in shell.builtins
    ensures HandleInput(instruction, shell, host) == Print(Text.Concat(instruction.arguments) + " is a shell builtin")
    ensures HandleInput(instruction, shell, host) == HandleInput(instruction, shell, host.(present := otherPresent))
  {
  }

  /**
   * `type` with any other name prints the PATH report: where the first
   * existing candidate lives, or the not-found line when none exists.
   */
  lemma TypeOfOtherReportsPath(instruction: Instruction.Instruction, shell: ShellState.Shell, host: Host)
    requires ShellState.Ready(shell)
    requires instruction.command == "type" && Text.Concat(instruction.arguments) !in shell.builtins
    ensures var name, path := Text.Concat(instruction.arguments), shell.environment["path"];
            HandleInput(instruction, shell, host) == Print(PathSearch.TypeReport(path, name, host.present))
            && (HandleInput(instruction, shell, host) == Print(name + ": not found") <==>
                  forall j :: 0 <= j < |PathSearch.Directories(path)| ==>
                    !host.present(PathSearch.Candidate(PathSearch.Directories(path)[j], name)))
  {
    PathSearch.TypeReportNotFound(shell.environment["path"], Text.Concat(instruction.arguments), host.present);
  }

  /**
   * `cd` whose directory cannot be entered prints the error line naming the
   * argument as written, or the home error when the argument was `~`.
   */
  lemma CdFailureMessage(instruction: Instruction.Instruction, shell: ShellState.Shell, host: Host)
    requires ShellState.Ready(shell)
    requires instruction.command == "cd" && instruction.arguments != []
    requires !host.enters(CdTarget(instruction.arguments[0], shell.environment["home"]))
    ensures HandleInput(instruction, shell, host) ==
              if instruction.arguments[0] == "~" then Print("Error navigating to home")
              else Print("cd: " + instruction.arguments[0] + ": No such file or directory")
  {
  }
}
