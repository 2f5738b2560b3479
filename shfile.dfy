/**
 * src/shfile.rs: PATH lookups that report through `ShellError`. Each one
 * walks the directories of PATH in order and stops at the first hit.
 */
module ShFile {
  import opened Wrappers
  import opened ShError
  import Text
  import PathSearch

  /**
   * `executable_exists`: the `type` line for the first directory whose
   * candidate exists, or `ExecutableNotFound` carrying the not-found line.
   */
  method ExecutableExists(path: string, command: string, present: string -> bool)
    returns (r: Result<string, ShellError>)
    ensures r.Ok? <==> PathSearch.Locate(path, command, present).Some?
    ensures r.Ok? ==> r.value == command + " is " + PathSearch.Locate(path, command, present).value
    ensures r.Err? ==> r.error == ExecutableNotFound(command + ": not found")
    ensures r.Ok? ==> r.value == PathSearch.TypeReport(path, command, present)
    ensures r.Err? ==> r.error == ExecutableNotFound(PathSearch.TypeReport(path, command, present))
  {
    var directories := Text.SplitOn(path, ':');
    for i := 0 to |directories|
      invariant forall j :: 0 <= j < i ==> !present(PathSearch.Candidate(directories[j], command))
    {
      var fullPath := directories[i] + "/" + command;
      if present(fullPath) {
        return Ok(command + " is " + fullPath);
      }
    }
    return Err(ExecutableNotFound(command + ": not found"));
  }

  /**
   * `find_executables`: the loop builds each candidate but never adds one,
   * so the result is always empty.
   */
  method FindExecutables(path: string, partial: string) returns (executables: seq<string>)
    ensures executables == []
  {
    var directories := Text.SplitOn(path, ':');
    executables := [];
    for i := 0 to |directories| {
      var fullPath := directories[i] + "/" + partial;
      // the source tests `full_path.contains(partial)` here and does nothing either way
    }
  }

  /**
   * `is_executable`: the full path of the first candidate that exists and
   * launches; a candidate that exists but fails to launch is skipped.
   * `Err(false)` when PATH is exhausted.
   */
  method IsExecutable(path: string, command: string, present: string -> bool, launches: string -> bool)
    returns (r: Result<string, bool>)
    ensures r.Ok? <==> PathSearch.Locate(path, command, PathSearch.Launchable(present, launches)).Some?
    ensures r.Ok? ==> r.value == PathSearch.Locate(path, command, PathSearch.Launchable(present, launches)).value
    ensures r.Ok? ==> present(r.value) && launches(r.value)
    ensures r.Err? ==> r.error == false
  {
    var directories := Text.SplitOn(path, ':');
    for i := 0 to |directories|
      invariant forall j :: 0 <= j < i ==>
                  !PathSearch.Launchable(present, launches)(PathSearch.Candidate(directories[j], command))
    {
      var fullPath := directories[i] + "/" + command;
      if present(fullPath) {
        if launches(fullPath) {
          return Ok(fullPath);
        }
      }
    }
    return Err(false);
  }
}
