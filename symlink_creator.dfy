/**
 * A symlink request and the shell-based creator: escape the destination,
 * build one `sh -c` command line, and map its outcome to a result.
 */
module SymlinkCreator {
  import opened Wrappers
  import opened Text
  import opened Errors

  /** `SymlinkConfig`: where the link points, where it goes, and which tool
      it configures. */
  datatype SymlinkConfig = SymlinkConfig(source: string, destination: string, installerName: string)

  /** Every space becomes a backslash and a space. */
  function EscapeSpaces(path: string): string {
    Replace(path, " ", "\\ ")
  }

  /** `mkdir -p $(dirname D) && ln -fsv S D`, with D the escaped
      destination and S the source as given. */
  function ShellCommand(config: SymlinkConfig): string {
    var dest := EscapeSpaces(config.destination);
    "mkdir -p $(dirname " + dest + ") && ln -fsv " + config.source + " " + dest
  }

  function ShellInvocation(config: SymlinkConfig): Invocation {
    Invocation("sh", ["-c", ShellCommand(config)])
  }

  /** `ShellSymlinkCreator::create`, with the process runner as a
      parameter. */
  function ShellCreate(config: SymlinkConfig, run: Invocation -> CommandOutcome): SetupResult {
    match run(ShellInvocation(config))
    case Success(_) => Ok
    case NonZeroExit => Err(CommandFailed(ShellCommand(config), None))
    case SpawnFailed(reason) => Err(IoError(reason))
  }

  /** Escaping adds one character per space. */
  lemma EscapeLength(path: string)
    ensures |EscapeSpaces(path)| == |path| + Count(path, ' ')
  {
    ReplaceCharLength(path, ' ', "\\ ");
  }

  /** In the escaped path every space is preceded by a backslash, so the
      shell never splits it. */
  lemma {:induction false} EscapedSpacesQuoted(path: string)
    ensures var e := EscapeSpaces(path);
      forall i :: 0 <= i < |e| && e[i] == ' ' ==> 0 < i && e[i - 1] == '\\'
    decreases |path|
  {
    if path != [] {
      var e := EscapeSpaces(path);
      var tail := EscapeSpaces(path[1..]);
      EscapedSpacesQuoted(path[1..]);
      if path[0] == ' ' {
        assert path[..1] == " ";
        assert e == "\\ " + tail;
        forall i | 0 <= i < |e| && e[i] == ' '
          ensures 0 < i && e[i - 1] == '\\'
        {
          if i >= 2 {
            assert e[i] == tail[i - 2];
          }
        }
      } else {
        assert path[..1] != " ";
        assert e == [path[0]] + tail;
        forall i | 0 <= i < |e| && e[i] == ' '
          ensures 0 < i && e[i - 1] == '\\'
        {
          assert e[i] == tail[i - 1];
        }
      }
    }
  }

  /** Turning each backslash-space back into a space restores a path that
      held no backslash. */
  lemma {:induction false} UnescapeSpaces(path: string)
    requires '\\' !in path
    ensures Replace(EscapeSpaces(path), "\\ ", " ") == path
    decreases |path|
  {
    if path != [] {
      var tail := EscapeSpaces(path[1..]);
      assert '\\' !in path[1..];
      UnescapeSpaces(path[1..]);
      if path[0] == ' ' {
        assert path[..1] == " ";
        var e := "\\ " + tail;
        assert EscapeSpaces(path) == e;
        assert e[..2] == "\\ " && e[2..] == tail;
      } else {
        assert path[..1] != " ";
        var e := [path[0]] + tail;
        assert EscapeSpaces(path) == e;
        assert path[0] != '\\';
        if |e| >= 2 {
          assert e[..2][0] == path[0];
        }
        assert e[1..] == tail;
        assert path == [path[0]] + path[1..];
      }
    }
  }

  /** The creator succeeds exactly when the command exits with status zero,
      whatever it prints; a non-zero exit reports the whole command line
      without an exit code, and a failure to start is an I/O error. */
  lemma ShellCreateOutcomes(config: SymlinkConfig, run: Invocation -> CommandOutcome)
    ensures ShellCreate(config, run) == Ok <==> run(ShellInvocation(config)).Success?
    ensures run(ShellInvocation(config)) == NonZeroExit <==>
      ShellCreate(config, run) == Err(CommandFailed(ShellCommand(config), None))
    ensures run(ShellInvocation(config)).SpawnFailed? ==>
      ShellCreate(config, run) == Err(IoError(run(ShellInvocation(config)).reason))
  {
  }
}
