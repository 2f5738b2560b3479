/** src/sherror.rs: the shell's error type and the text it shows for each kind. */
module ShError {
  import opened Wrappers

  /** Stands for `std::io::Error`; the shell never looks inside one. */
  datatype IoFailure = IoFailure(description: string)

  datatype ShellError =
    | IoError(cause: IoFailure)
    | FileNotFound(msg: string)
    | InvalidArgument(msg: string)
    | ExecutionError(msg: string)
    | ExecutableNotFound(msg: string)

  /** `impl From<std::io::Error> for ShellError`. */
  function FromIo(error: IoFailure): (r: ShellError)
    ensures r.IoError? && r.cause == error
    ensures GetErrorMessage(r) == None
  {
    IoError(error)
  }

  /**
   * `get_error_message`: the message carried by every kind except an I/O
   * error, which has none of its own.
   */
  function GetErrorMessage(err: ShellError): (r: Option<string>)
    ensures r == None <==> err.IoError?
    ensures !err.IoError? ==> r == Some(err.msg)
  {
    match err
    case FileNotFound(msg) => Some(msg)
    case InvalidArgument(msg) => Some(msg)
    case ExecutionError(msg) => Some(msg)
    case ExecutableNotFound(msg) => Some(msg)
    case IoError(_) => None
  }
}
