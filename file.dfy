/**
 * src/file.rs: the string-returning PATH lookup. Its loop is the same as
 * `ShFile.ExecutableExists`; only the result type differs.
 */
module File {
  import opened Wrappers
  import Text
  import PathSearch

  /**
   * `executable_exists`: never fails. The `type` line for the first
   * directory whose candidate exists, else the not-found line.
   */
  method ExecutableExists(path: string, command: string, present: string -> bool) returns (r: string)
    ensures r == PathSearch.TypeReport(path, command, present)
    ensures PathSearch.Locate(path, command, present).Some? ==>
              r == command + " is " + PathSearch.Locate(path, command, present).value
    ensures PathSearch.Locate(path, command, present).None? ==> r == command + ": not found"
  {
    var directories := Text.SplitOn(path, ':');
    for i := 0 to |directories|
      invariant forall j :: 0 <= j < i ==> !present(PathSearch.Candidate(directories[j], command))
    {
      var fullPath := directories[i] + "/" + command;
      if present(fullPath) {
        assert PathSearch.FirstFound(directories, command, present) == Some(i);
        return command + " is " + fullPath;
      }
    }
    assert PathSearch.FirstFound(directories, command, present) == None;
    return command + ": not found";
  }
}
