/**
 * The search through PATH shared by src/shfile.rs, src/file.rs and
 * src/main.rs, stated as functions. The filesystem and process probes of the
 * source are parameters: `present(p)` stands for `fs::metadata(p).is_ok()` and
 * `launches(p)` for `Command::new(p).output().is_ok()`.
 */
module PathSearch {
  import opened Wrappers
  import Text

  /** `path.split(':')`: empty entries are kept. */
  function Directories(path: string): (r: seq<string>)
    ensures |r| >= 1 && Text.JoinWith(r, ':') == path
    ensures forall i :: 0 <= i < |r| ==> ':' !in r[i]
  {
    Text.JoinSplitOn(path, ':');
    Text.SplitOn(path, ':')
  }

  /** `format!("{}/{}", directory, command)`. */
  function Candidate(directory: string, command: string): string {
    directory + "/" + command
  }

  /** The probe `is_executable` applies: the file exists and can be launched. */
  function Launchable(present: string -> bool, launches: string -> bool): string -> bool {
    p => present(p) && launches(p)
  }

  /** Index of the first directory whose candidate passes `ok`. */
  function FirstFound(dirs: seq<string>, command: string, ok: string -> bool): (r: Option<nat>)
    ensures r.Some? ==> r.value < |dirs| && ok(Candidate(dirs[r.value], command))
    ensures r.Some? ==> forall j :: 0 <= j < r.value ==> !ok(Candidate(dirs[j], command))
    ensures r.None? <==> forall j :: 0 <= j < |dirs| ==> !ok(Candidate(dirs[j], command))
  {
    if dirs == [] then None
    else if ok(Candidate(dirs[0], command)) then Some(0)
    else match FirstFound(dirs[1..], command, ok)
      case None => None
      case Some(k) => Some(k + 1)
  }

  /** The candidate of directory `k` is the first along PATH that passes `ok`. */
  ghost predicate FoundAt(path: string, command: string, ok: string -> bool, k: nat) {
    var dirs := Directories(path);
    && k < |dirs|
    && ok(Candidate(dirs[k], command))
    && forall j :: 0 <= j < k ==> !ok(Candidate(dirs[j], command))
  }

  /** The full path of the first candidate along PATH that passes `ok`, if any. */
  function Locate(path: string, command: string, ok: string -> bool): (r: Option<string>)
    ensures r.None? <==> forall j :: 0 <= j < |Directories(path)| ==> !ok(Candidate(Directories(path)[j], command))
    ensures r.Some? ==> ok(r.value)
    ensures r.Some? ==> exists k: nat :: FoundAt(path, command, ok, k) && r.value == Candidate(Directories(path)[k], command)
  {
    var dirs := Directories(path);
    match FirstFound(dirs, command, ok)
    case Some(k) => Some(Candidate(dirs[k], command))
    case None => None
  }

  /** The line `type` reports for a command looked up along PATH. */
  function TypeReport(path: string, command: string, present: string -> bool): string {
    match Locate(path, command, present)
    case Some(p) => command + " is " + p
    case None => command + ": not found"
  }

  /** The report is the not-found line exactly when no candidate exists. */
  lemma TypeReportNotFound(path: string, command: string, present: string -> bool)
    ensures TypeReport(path, command, present) == command + ": not found" <==>
              forall j :: 0 <= j < |Directories(path)| ==> !present(Candidate(Directories(path)[j], command))
  {
    var found := Locate(path, command, present);
    if found.Some? {
      var r := TypeReport(path, command, present);
      assert r[|command|] == ' ';
      assert (command + ": not found")[|command|] == ':';
    }
  }

  /** An empty PATH is one empty directory, so the only probe is `"/" + command`. */
  lemma EmptyPathProbesRoot(command: string, ok: string -> bool)
    ensures Locate("", command, ok) == if ok("/" + command) then Some("/" + command) else None
  {
    assert Directories("") == [""];
    assert Candidate("", command) == "/" + command;
  }
}
