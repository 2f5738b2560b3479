# rshell command-line front end, modelled in Dafny

rshell is a small interactive shell written in Rust. Each line read is split on
whitespace into a command word and its arguments. The command is then either
one of five builtins handled in place (`pwd`, `cd`, `echo`, `type`, `exit`) or
looked up along `PATH` and spawned. Beside that loop the repository holds:

- an output-redirection splitter for `>` and `1>`;
- a tab completer for the command word;
- two more copies of the PATH lookups, one reporting through a `ShellError`
  type and one returning plain strings.

This project models those pieces, one Dafny module per source file:

| module | file | models |
|---|---|---|
| `Text` | text.dfy | the Rust `str` operations the shell relies on: `split_whitespace`, `trim`, `split(':')`, `join("")` |
| `Instruction` | instruction.dfy | src/instruction.rs (and the identical copy at src/main.rs:9-25) |
| `Redirection` | redirection.dfy | src/redirection.rs |
| `Completer` | completer.dfy | src/completer.rs |
| `ShError` | sherror.dfy | src/sherror.rs |
| `PathSearch` | path_search.dfy | the PATH walk shared by src/shfile.rs, src/file.rs and src/main.rs, as specification functions |
| `ShFile` | shfile.dfy | src/shfile.rs, as loops proved against `PathSearch` |
| `File` | file.dfy | src/file.rs, as a loop proved against `PathSearch` |
| `ShellState` | shell.dfy | the configuration record of src/shell.rs |
| `Dispatch` | dispatch.dfy | src/main.rs: reading an instruction and `handle_input` |
| `Wrappers` | wrappers.dfy | `Option` and `Result` |

How the model represents the system:

- Strings are `seq<char>`. Whitespace is Rust's `char::is_whitespace`, the
  Unicode White_Space set.
- Probes of the operating system are parameters:
  - `present(p)` stands for `fs::metadata(p).is_ok()`;
  - `launches(p)` stands for `Command::new(p).output().is_ok()`;
  - `enters(d)` stands for `set_current_dir(d).is_ok()`;
  - `currentDir` stands for the result of `current_dir()`.
- What `handle_input` ends in is returned as an `Effect` value: a line printed
  to stdout or stderr, a directory change, an exit, a spawn, or a panic. The
  launch probe that precedes a spawn is not part of that value (see
  "## Left out").

The PATH loops are `for` loops with early return, as in the source. Each is
proved equal to `PathSearch.Locate`: the candidate `dir + "/" + command` of
the first `:`-separated PATH entry that passes the probe. The properties of
`Locate` are proved on their own.

Three functions in the source appear more than once. `is_executable` is
written out identically at src/shfile.rs:32-45, src/file.rs:16-29 and
src/main.rs:114-127; all three are modelled by `ShFile.IsExecutable`.
`executable_exists` at src/main.rs:100-112 prints the same line that the
src/file.rs:3-14 version returns. `File.ExecutableExists` models both, and
`Dispatch.HandleInput` prints that line for `type`.

What the code does, and does not do:

- the tokenizer has no quoting or escaping;
- only `>` and `1>` are recognised as redirections, always to stdout, and
  `main.rs` never calls the splitter;
- `echo` joins its arguments with no separator, so `echo a b` prints `ab`;
- there is no `cat` builtin, so the builtin list has five names;
- results carry a single channel;
- the completer has no tab-count state and never consults PATH: it filters
  only its own list of commands (src/completer.rs:23-27).

## Model

| member | source | states |
|---|---|---|
| `Text.SplitWhitespace` | src/instruction.rs:8 | every word produced by `split_whitespace` is non-empty and contains no whitespace character |
| `Text.SplitWhitespaceRecomposes` | src/instruction.rs:8 | every input equals its words interleaved with whitespace runs, with a non-empty run between neighbouring words, so the words are the maximal non-whitespace runs in order |
| `Text.SplitWhitespaceOfInterleave` | src/instruction.rs:8 | round trip: words written out with whitespace between them split back into exactly those words |
| `Text.SplitWhitespaceIgnoresPadding` | src/instruction.rs:8 | leading and trailing whitespace of any length does not change the words |
| `Text.SplitWhitespaceEmptyIffBlank` | src/instruction.rs:8-9 | there is no first word exactly when the input is all whitespace; this is the case where `unwrap` panics |
| `Text.SplitWhitespaceKeepsCharacters` | src/instruction.rs:8 | the words concatenated are the input's non-whitespace characters in order, so quotes and backslashes are kept verbatim |
| `Text.Trim` | src/main.rs:38 | `trim` returns the slice between the leading and the trailing whitespace runs; it neither starts nor ends with whitespace |
| `Text.SplitWhitespaceOfTrim` | src/main.rs:38 | trimming a line before splitting it does not change its words |
| `Text.TrimOfWord` | src/main.rs:68 | `trim` leaves a whitespace-free string unchanged |
| `Text.ConcatOfWords` | src/main.rs:68 | joining whitespace-free words with `""` yields a whitespace-free string |
| `Text.SplitOn` | src/shfile.rs:6 | `split(':')` yields at least one piece, and no piece contains `:` |
| `Text.JoinSplitOn` | src/shfile.rs:6 | the pieces joined with `:` give back PATH, so empty entries are kept |
| `Text.SplitOnJoin` | src/shfile.rs:6 | round trip: `:`-free entries joined with `:` split back into exactly those entries |
| `Instruction.New` | src/instruction.rs:7-16 | requires a non-blank input; the command followed by the arguments are the input's words; the command and every argument are non-empty and whitespace-free |
| `Instruction.NewIgnoresPadding` | src/instruction.rs:8 | `new(w1 + s + w2) == new(s)` for whitespace `w1`, `w2` |
| `Instruction.NewKeepsCharacters` | src/instruction.rs:8-14 | the command followed by the concatenated arguments is the input with its whitespace removed |
| `Instruction.NewOfSeparatedWords` | src/instruction.rs:8-14 | a command and arguments written out with whitespace between them parse back into that command and those arguments |
| `Redirection.New` | src/redirection.rs:7-12 | the redirection keeps the given type and path |
| `Redirection.Position` | src/redirection.rs:30 | returns the index of the first `>` or `1>` token, or `None` exactly when there is no such token |
| `Redirection.FindRedirection` | src/redirection.rs:21-47 | no operator: `Ok` with the arguments unchanged, type `None` and path `""`. First operator at `k` with a token after it: `Ok((args[..k], Stdout, args[k+1]))`. Operator last: `Err(false)`. The arguments returned are a prefix of the input with no operator token, and the type is never `Stderr` |
| `Completer.Candidates` | src/completer.rs:23-27 | every candidate is a command that starts with the partial word, followed by one space; every such command is offered; there are at most as many candidates as commands |
| `Completer.CandidatesAppend` | src/completer.rs:23-27 | candidates keep the order of `commands`: filtering a concatenation gives the concatenation of the filtered parts |
| `Completer.CandidatesOfEmptyPartial` | src/completer.rs:21-27 | with the partial word `""` every command is offered, in order, each followed by a space |
| `Completer.CommandCompleter.Complete` | src/completer.rs:12-33 | requires `pos` to be at most the length of `line`. If the text before `pos` is blank, all commands are offered from 0. If it is one word and the line does not end in a space, the commands extending that word are offered from 0. In every other case the result is `(pos, [])` |
| `ShError.FromIo` | src/sherror.rs:11-15 | converting an I/O error gives `IoError`, whose message is `None` |
| `ShError.GetErrorMessage` | src/sherror.rs:17-26 | the message is `None` exactly for `IoError`; every other kind yields `Some` of its own payload |
| `PathSearch.Directories` | src/shfile.rs:6 | the PATH entries, at least one, none containing `:`, joining back to PATH |
| `PathSearch.FirstFound` | src/shfile.rs:8-13 | the index of the first directory whose candidate `dir + "/" + command` passes the probe; `None` exactly when none does |
| `PathSearch.Locate` | src/shfile.rs:6-13 | `None` exactly when no candidate passes. Otherwise the result passes and is the candidate of a directory before which none passes |
| `PathSearch.TypeReportNotFound` | src/file.rs:3-14 | the `type` report is `command + ": not found"` exactly when no candidate exists |
| `PathSearch.EmptyPathProbesRoot` | src/shfile.rs:6-9 | an empty PATH probes only `"/" + command` |
| `ShFile.ExecutableExists` | src/shfile.rs:5-16 | `Ok(command + " is " + p)` for the first existing candidate `p`; otherwise `Err(ExecutableNotFound(command + ": not found"))`. Either payload is the string `File.ExecutableExists` returns |
| `ShFile.FindExecutables` | src/shfile.rs:18-30 | always returns the empty list |
| `ShFile.IsExecutable` | src/shfile.rs:32-45 | `Ok(p)` for the first candidate `p` that both exists and launches; a candidate that exists but does not launch is skipped; `Err(false)` when there is none |
| `File.ExecutableExists` | src/file.rs:3-14 | never fails; returns `command + " is " + p` for the first existing candidate `p`, else `command + ": not found"` |
| `ShellState.New` | src/shell.rs:10-29 | the environment holds exactly `path` and `home`, each the variable's value, or `""` when `env::var` returns an error (unset or not valid Unicode), and the builtins are `exit`, `echo`, `type`, `pwd`, `cd` |
| `Dispatch.ReadInstruction` | src/main.rs:15-24 | the copy of `Instruction::new` in main.rs, applied to the trimmed line as at line 38, gives the same instruction as the untrimmed line; a blank line panics |
| `Dispatch.HandleInput` | src/main.rs:44-98 | the shell exits, always with status 0, exactly for `exit` with joined argument `"0"`. It panics exactly for `cd` without an argument or `pwd` without a current directory. `cd` changes directory exactly when its target can be entered: the target is `home` for `~` and the argument otherwise. `exit` with any other argument prints `"exit: command not found"`; `pwd` prints the current directory. Any other command is spawned with its arguments when some PATH candidate exists and launches; otherwise `"<cmd>: command not found"` goes to stderr |
| `Dispatch.EchoPrintsConcatenation` | src/main.rs:68 | `echo` prints its arguments joined with no separator; the trim never removes anything |
| `Dispatch.TypeOfBuiltinSkipsSearch` | src/main.rs:69-74 | `type` with a builtin name prints `"<name> is a shell builtin"` whatever the filesystem holds, so no PATH search happens |
| `Dispatch.TypeOfOtherReportsPath` | src/main.rs:100-112 | `type` with any other name prints `"<name> is <dir>/<name>"` for the first existing candidate. It prints `"<name>: not found"` exactly when no candidate exists |
| `Dispatch.CdFailureMessage` | src/main.rs:52-66 | a `cd` that fails prints `"Error navigating to home"` for `~`, and otherwise `"cd: <dir>: No such file or directory"` with the argument as written |

## Left out

- The prompt and read loop of `main` (src/main.rs:27-42): the model keeps only the trim and the tokenizing of the line read.
- Carrying out an `Effect`: the printing, the directory change, `exit` and the child process are the operating system's work. `Dispatch.HandleInput` says which one happens and with what text.
- Dispatch.HandleInput: `.expect("Failed to execute process")` on a child that cannot be started (src/main.rs:92) is not modelled; `Spawn` stands for the call.
- Dispatch.HandleInput: the `unwrap` of `to_str()` on a non-UTF-8 working directory (src/main.rs:51) is not modelled; `currentDir` is already a string.
- The environment reads of `Shell::new` (src/shell.rs:11-19): the values of `PATH` and `HOME` are parameters of `ShellState.New`.
- Completer.CommandCompleter.Complete: `pos` counts characters, while Rust counts UTF-8 bytes. The two agree on ASCII lines; a byte offset inside a multi-byte character, which panics in Rust, has no counterpart here.
- The `rustyline` glue of the completer (the `Completer` trait, the derive macros, `Context`): `complete` always returns `Ok`, so the model returns the pair itself.
- `std::io::Error`: its contents are never read by the shell, so `ShError.IoFailure` only stands for it.
- ShFile.IsExecutable / Dispatch.HandleInput: the launch probe `Command::new(p).output()` (src/main.rs:121, src/shfile.rs:39, src/file.rs:23) runs each existing candidate once, without arguments, until one starts; only then does src/main.rs:89-92 spawn the command with its arguments. The model treats `launches` as an answer without side effects and reports only the final `Spawn`, so the extra runs of the program are not captured.
- Features not present in the code at all: quoting and escaping, `>>`, `2>` and append redirection, routing to stderr, `cat`, two-channel results, and a tab-count completion state machine.
