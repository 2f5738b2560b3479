/**
 * src/shell.rs: the shell's fixed configuration, a snapshot of PATH and HOME
 * and the list of builtin names.
 */
module ShellState {
  import opened Wrappers

  /** The names `type` reports as builtins; `Dispatch.IsDispatchedBuiltin` matches the same five. */
  const Builtins: seq<string> := ["exit", "echo", "type", "pwd", "cd"]

  datatype Shell = Shell(environment: map<string, string>, builtins: seq<string>)

  /** The shell can run a command: both environment entries are present. */
  predicate Ready(shell: Shell) {
    "path" in shell.environment && "home" in shell.environment
  }

  /**
   * `Shell::new`, given what `env::var("PATH")` and `env::var("HOME")`
   * returned (`None` for an error); a variable that is unset or not valid
   * Unicode becomes "".
   */
  function New(pathVar: Option<string>, homeVar: Option<string>): (r: Shell)
    ensures Ready(r) && r.environment.Keys == {"path", "home"}
    ensures r.environment["path"] == (if pathVar.Some? then pathVar.value else "")
    ensures r.environment["home"] == (if homeVar.Some? then homeVar.value else "")
    ensures r.builtins == Builtins
  {
    var path := match pathVar case Some(p) => p case None => "";
    var home := match homeVar case Some(p) => p case None => "";
    Shell(map["path" := path, "home" := home], Builtins)
  }
}
