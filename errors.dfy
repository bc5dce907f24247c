/**
 * The error and result types shared by the configurators and the symlink
 * phase, and the three-way outcome of running an external program.
 */
module Errors {
  import opened Wrappers
  import Text

  /** `SetupError`: a command that exited unsuccessfully, or an I/O
      failure described by its message. */
  datatype SetupError =
    | CommandFailed(command: string, exitCode: Option<int>)
    | IoError(message: string)

  /** `SetupResult<()>`. */
  datatype SetupResult = Ok | Err(error: SetupError)

  /** What `run_command` reports: the captured standard output of a
      successful run (`Ok(Some(stdout))`), an unsuccessful exit status
      (`Ok(None)`), or a failure to start the program (`Err(e)`, carried as
      the error's text). */
  datatype CommandOutcome =
    | Success(stdout: string)
    | NonZeroExit
    | SpawnFailed(reason: string)

  /** A program name and its arguments, as handed to `run_command`. */
  datatype Invocation = Invocation(program: string, args: seq<string>)

  /** `i32`'s `Display`. */
  function IntToString(n: int): (r: string)
    ensures r != []
  {
    if n < 0 then "-" + Text.NatToString(-n) else Text.NatToString(n)
  }

  /** `Option<i32>`'s `Debug`. */
  function ExitCodeText(code: Option<int>): string {
    match code
    case None => "None"
    case Some(n) => "Some(" + IntToString(n) + ")"
  }

  /** `SetupError`'s `Display`. */
  function ErrorText(e: SetupError): (r: string)
    ensures e.IoError? ==> r == "IO error: " + e.message
    ensures e.CommandFailed? ==> Text.StartsWith(r, "Command failed: '" + e.command + "'")
    ensures e.CommandFailed? && e.exitCode.None? ==>
      r == "Command failed: '" + e.command + "' (exit code: None)"
    ensures e.CommandFailed? && e.exitCode.Some? ==>
      r == "Command failed: '" + e.command + "' (exit code: Some(" + IntToString(e.exitCode.value) + "))"
  {
    match e
    case CommandFailed(command, code) =>
      assert ("Command failed: '" + command + "'" + " (exit code: " + ExitCodeText(code) + ")")
        [..|"Command failed: '" + command + "'"|] == "Command failed: '" + command + "'";
      "Command failed: '" + command + "'" + " (exit code: " + ExitCodeText(code) + ")"
    case IoError(message) => "IO error: " + message
  }
}
