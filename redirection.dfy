/**
 * src/redirection.rs: splitting an output redirection off the argument list.
 * Only the tokens `>` and `1>` are searched for; `>>`, `2>`, `1>>` and `2>>`
 * are ordinary arguments.
 */
module Redirection {
  import Wrappers

  datatype RedirType = Stdout | Stderr | None

  datatype Redirection = Redirection(rType: RedirType, path: string)

  /** `Redirection::new`: keeps the type and the path it is given. */
  function New(rType: RedirType, path: string): (r: Redirection)
    ensures r.rType == rType && r.path == path
  {
    Redirection(rType, path)
  }

  /** The tokens `find_redirection` looks for. */
  predicate IsOperator(token: string) {
    token == ">" || token == "1>"
  }

  /** `k` is the position of the first operator token of `args`. */
  ghost predicate FirstOperatorAt(args: seq<string>, k: nat) {
    k < |args| && IsOperator(args[k]) && forall j :: 0 <= j < k ==> !IsOperator(args[j])
  }

  /** `args.iter().position(|x| x == ">" || x == "1>")`. */
  function Position(args: seq<string>): (r: Wrappers.Option<nat>)
    ensures r.Some? ==> FirstOperatorAt(args, r.value)
    ensures r.None? <==> forall j :: 0 <= j < |args| ==> !IsOperator(args[j])
  {
    if args == [] then Wrappers.None
    else if IsOperator(args[0]) then Wrappers.Some(0)
    else match Position(args[1..])
      case None => Wrappers.None
      case Some(k) => Wrappers.Some(k + 1)
  }

  /**
   * `find_redirection`. With no operator the arguments come back unchanged
   * with an empty `None` redirection. Otherwise the first operator must be
   * followed by a path: the arguments before the operator are kept, the
   * redirection goes to stdout with that path, and everything after the path
   * is dropped. An operator in last position is the error `Err(false)`.
   */
  method FindRedirection(arguments: seq<string>) returns (r: Wrappers.Result<(seq<string>, Redirection), bool>)
    ensures (forall j :: 0 <= j < |arguments| ==> !IsOperator(arguments[j])) ==>
              r == Wrappers.Ok((arguments, Redirection(None, "")))
    ensures forall k: nat :: FirstOperatorAt(arguments, k) ==>
              r == if k + 1 < |arguments|
                   then Wrappers.Ok((arguments[..k], Redirection(Stdout, arguments[k + 1])))
                   else Wrappers.Err(false)
    ensures r.Ok? ==> r.value.0 <= arguments
    ensures r.Ok? ==> forall j :: 0 <= j < |r.value.0| ==> !IsOperator(r.value.0[j])
    ensures r.Ok? ==> r.value.1.rType != Stderr
  {
    var args := arguments;
    var redirection := Redirection(None, "");
    var i := |args|;
    var position := Position(args);
    if position.Some? {
      var index := position.value;
      i := index;
      if index + 1 < |args| {
        var operator := args[index];
        // the `2>` and fallback arms are unreachable: only `>` and `1>` are found
        var rType :=
          if operator == ">" then Stdout
          else if operator == "1>" then Stdout
          else if operator == "2>" then Stderr
          else None;
        redirection := redirection.(rType := rType);
        redirection := redirection.(path := args[index + 1]);
      } else {
        return Wrappers.Err(false);
      }
    }
    assert args[..|args|] == args;
    r := Wrappers.Ok((args[..i], redirection));
  }
}
