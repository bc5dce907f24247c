/**
 * The VS Code configurator: read the installed extensions once from
 * `code --list-extensions`, then install each listed extension that is
 * missing, in list order, stopping at the first failed install.
 */
module Vscode {
  import opened Wrappers
  import opened Text
  import opened Errors
  import opened Logging

  /** The extensions the configurator ensures, in install order. */
  const Extensions: seq<string> := [
    "github.copilot-chat",
    "ms-dotnettools.csdevkit",
    "ms-dotnettools.csharp",
    "ms-dotnettools.vscode-dotnet-runtime",
    "pflannery.vscode-versionlens",
    "rust-lang.rust-analyzer",
    "vadimcn.vscode-lldb"
  ]

  const ListInvocation := Invocation("code", ["--list-extensions"])

  function InstallInvocation(ext: string): Invocation {
    Invocation("code", ["--install-extension", ext])
  }

  function InstallCommand(ext: string): string {
    "code --install-extension " + ext
  }

  function AlreadyLine(ext: string): LogLine {
    InfoLine("Extension already installed: " + ext)
  }

  function InstallingLine(ext: string): LogLine {
    InfoLine("Installing VS Code extension: " + ext)
  }

  function InstalledLine(ext: string): LogLine {
    OkLine("Install extension ->", ext)
  }

  /** `installed_extensions`: the trimmed lines of a successful listing;
      `None` for any other outcome. */
  function InstalledExtensions(listing: CommandOutcome): (r: Option<set<string>>)
    ensures r.Some? <==> listing.Success?
  {
    match listing
    case Success(stdout) =>
      Some(ListedNames(Lines(stdout)))
    case _ => None
  }

  /** The trimmed lines of a listing, as a set. */
  function ListedNames(ls: seq<string>): set<string> {
    set k | 0 <= k < |ls| :: Trim(ls[k])
  }

  lemma ListedNamesMembers(ls: seq<string>, e: string)
    ensures e in ListedNames(ls) <==> exists k :: 0 <= k < |ls| && Trim(ls[k]) == e
  {
    if exists k :: 0 <= k < |ls| && Trim(ls[k]) == e {
      var k :| 0 <= k < |ls| && Trim(ls[k]) == e;
      assert Trim(ls[k]) in ListedNames(ls);
    }
  }

  /** An extension is in the listed set exactly when some line of the
      listing, trimmed, is its id. */
  lemma InstalledExtensionsMembers(stdout: string, e: string)
    ensures var r := InstalledExtensions(Success(stdout));
      r.Some? && (e in r.value <==> exists k :: 0 <= k < |Lines(stdout)| && Trim(Lines(stdout)[k]) == e)
  {
    assert InstalledExtensions(Success(stdout)) == Some(ListedNames(Lines(stdout)));
    ListedNamesMembers(Lines(stdout), e);
  }

  /** `installed_extensions().unwrap_or_default()`. */
  function KnownExtensions(listing: CommandOutcome): set<string> {
    match InstalledExtensions(listing)
    case Some(s) => s
    case None => {}
  }

  /** The extensions of `exts` not in `installed`, in order. */
  function MissingFrom(exts: seq<string>, installed: set<string>): seq<string>
    decreases |exts|
  {
    if exts == [] then []
    else (if exts[0] in installed then [] else [exts[0]]) + MissingFrom(exts[1..], installed)
  }

  /** The missing extensions are exactly those of `exts` not in
      `installed`. */
  lemma {:induction false} MissingFromMembers(exts: seq<string>, installed: set<string>, e: string)
    ensures e in MissingFrom(exts, installed) <==> e in exts && e !in installed
    decreases |exts|
  {
    if exts != [] {
      MissingFromMembers(exts[1..], installed, e);
      assert exts == [exts[0]] + exts[1..];
    }
  }

  /** `should_run`: VS Code is detected and some extension is missing from
      the listing. */
  function ShouldRun(detected: bool, run: Invocation -> CommandOutcome): bool {
    detected && MissingFrom(Extensions, KnownExtensions(run(ListInvocation))) != []
  }

  /** `affected_files`: none. */
  function AffectedFiles(): seq<string> {
    []
  }

  /** The outcome of one install command. */
  function InstallResult(ext: string, outcome: CommandOutcome): SetupResult {
    match outcome
    case Success(_) => SetupResult.Ok
    case NonZeroExit => Err(CommandFailed(InstallCommand(ext), None))
    case SpawnFailed(reason) => Err(IoError(reason))
  }

  /** What the install loop does: its log lines, the extensions it tries to
      install, and its result. */
  datatype InstallRun = InstallRun(lines: seq<LogLine>, attempts: seq<string>, result: SetupResult)

  function InstallLoop(exts: seq<string>, installed: set<string>, run: Invocation -> CommandOutcome): InstallRun
    decreases |exts|
  {
    if exts == [] then InstallRun([], [], SetupResult.Ok)
    else
      var ext := exts[0];
      if ext in installed then
        var rest := InstallLoop(exts[1..], installed, run);
        InstallRun([AlreadyLine(ext)] + rest.lines, rest.attempts, rest.result)
      else if run(InstallInvocation(ext)).Success? then
        var rest := InstallLoop(exts[1..], installed, run);
        InstallRun([InstallingLine(ext), InstalledLine(ext)] + rest.lines, [ext] + rest.attempts, rest.result)
      else
        InstallRun([InstallingLine(ext)], [ext], InstallResult(ext, run(InstallInvocation(ext))))
  }

  /** `run_configure`: nothing when VS Code is not detected, otherwise the
      install loop over the buffered listing. */
  function Configure(detected: bool, run: Invocation -> CommandOutcome): InstallRun {
    if !detected then InstallRun([], [], SetupResult.Ok)
    else InstallLoop(Extensions, KnownExtensions(run(ListInvocation)), run)
  }

  /** `lines`/`attempts` done, followed by what the loop does on the rest. */
  function After(lines: seq<LogLine>, attempts: seq<string>, rest: InstallRun): InstallRun {
    InstallRun(lines + rest.lines, attempts + rest.attempts, rest.result)
  }

  lemma AlreadyStep(exts: seq<string>, installed: set<string>, run: Invocation -> CommandOutcome,
                    i: nat, done: seq<LogLine>, attempts: seq<string>)
    requires i < |exts| && exts[i] in installed
    ensures After(done, attempts, InstallLoop(exts[i..], installed, run))
      == After(done + [AlreadyLine(exts[i])], attempts, InstallLoop(exts[i + 1..], installed, run))
  {
    assert exts[i..][1..] == exts[i + 1..];
  }

  lemma InstalledStep(exts: seq<string>, installed: set<string>, run: Invocation -> CommandOutcome,
                      i: nat, done: seq<LogLine>, attempts: seq<string>)
    requires i < |exts| && exts[i] !in installed && run(InstallInvocation(exts[i])).Success?
    ensures After(done, attempts, InstallLoop(exts[i..], installed, run))
      == After(done + [InstallingLine(exts[i]), InstalledLine(exts[i])], attempts + [exts[i]],
               InstallLoop(exts[i + 1..], installed, run))
  {
    assert exts[i..][1..] == exts[i + 1..];
  }

  lemma FailedStep(exts: seq<string>, installed: set<string>, run: Invocation -> CommandOutcome,
                   i: nat, done: seq<LogLine>, attempts: seq<string>)
    requires i < |exts| && exts[i] !in installed && !run(InstallInvocation(exts[i])).Success?
    ensures After(done, attempts, InstallLoop(exts[i..], installed, run))
      == InstallRun(done + [InstallingLine(exts[i])], attempts + [exts[i]],
                    InstallResult(exts[i], run(InstallInvocation(exts[i]))))
  {
  }

  /** The loop of `run_configure`, on the extensions `exts` and the
      buffered listing `installed`. */
  method InstallMissing(logger: MemoryLogger, exts: seq<string>, installed: set<string>,
                        run: Invocation -> CommandOutcome)
    returns (res: SetupResult, ghost attempts: seq<string>)
    modifies logger
    ensures var r := InstallLoop(exts, installed, run);
      && logger.lines == old(logger.lines) + r.lines
      && logger.groups == old(logger.groups)
      && res == r.result && attempts == r.attempts
  {
    ghost var whole := InstallLoop(exts, installed, run);
    ghost var done: seq<LogLine> := [];
    attempts := [];
    var i := 0;
    while i < |exts|
      invariant 0 <= i <= |exts|
      invariant logger.lines == old(logger.lines) + done
      invariant logger.groups == old(logger.groups)
      invariant whole == After(done, attempts, InstallLoop(exts[i..], installed, run))
    {
      var ext := exts[i];
      if ext in installed {
        AlreadyStep(exts, installed, run, i, done, attempts);
        logger.Info("Extension already installed: " + ext);
        done := done + [AlreadyLine(ext)];
        i := i + 1;
        continue;
      }
      logger.Info("Installing VS Code extension: " + ext);
      var outcome := run(InstallInvocation(ext));
      match outcome {
        case Success(_) =>
          InstalledStep(exts, installed, run, i, done, attempts);
          logger.OkWithHighlight("Install extension ->", ext);
          done := done + [InstallingLine(ext), InstalledLine(ext)];
          attempts := attempts + [ext];
        case NonZeroExit =>
          FailedStep(exts, installed, run, i, done, attempts);
          return Err(CommandFailed("code --install-extension " + ext, None)), attempts + [ext];
        case SpawnFailed(e) =>
          FailedStep(exts, installed, run, i, done, attempts);
          return Err(IoError(e)), attempts + [ext];
      }
      i := i + 1;
    }
    assert exts[i..] == [];
    res := SetupResult.Ok;
  }

  /** `run_configure`, with the detector's answer as `detected` and the
      process runner as `run`. */
  method RunConfigure(logger: MemoryLogger, detected: bool, run: Invocation -> CommandOutcome)
    returns (res: SetupResult, ghost attempts: seq<string>)
    modifies logger
    ensures var r := Configure(detected, run);
      && logger.lines == old(logger.lines) + r.lines
      && logger.groups == old(logger.groups)
      && res == r.result && attempts == r.attempts
  {
    if !detected {
      return SetupResult.Ok, [];
    }
    var installed := KnownExtensions(run(ListInvocation));
    res, attempts := InstallMissing(logger, Extensions, installed, run);
  }

  /** `should_run` is true exactly when VS Code is detected and some listed
      extension is not among the buffered ones. */
  lemma ShouldRunIff(detected: bool, run: Invocation -> CommandOutcome)
    ensures ShouldRun(detected, run) <==>
      detected && exists k :: 0 <= k < |Extensions| && Extensions[k] !in KnownExtensions(run(ListInvocation))
  {
    var installed := KnownExtensions(run(ListInvocation));
    var missing := MissingFrom(Extensions, installed);
    if missing != [] {
      MissingFromMembers(Extensions, installed, missing[0]);
      var k :| 0 <= k < |Extensions| && Extensions[k] == missing[0];
    }
    if exists k :: 0 <= k < |Extensions| && Extensions[k] !in installed {
      var k :| 0 <= k < |Extensions| && Extensions[k] !in installed;
      MissingFromMembers(Extensions, installed, Extensions[k]);
    }
  }

  /** A loop that runs to the end tries exactly the missing extensions, in
      order, each with success, and logs two lines per install and one per
      extension already present. */
  lemma {:induction false} InstallLoopCompletes(exts: seq<string>, installed: set<string>,
                                                run: Invocation -> CommandOutcome)
    requires InstallLoop(exts, installed, run).result.Ok?
    ensures var r := InstallLoop(exts, installed, run);
      && r.attempts == MissingFrom(exts, installed)
      && (forall e :: e in r.attempts ==> run(InstallInvocation(e)).Success?)
      && |r.lines| == |exts| + |r.attempts|
    decreases |exts|
  {
    if exts != [] {
      InstallLoopCompletes(exts[1..], installed, run);
    }
  }

  /** The loop runs to the end exactly when every missing extension
      installs. */
  lemma {:induction false} InstallLoopOkIff(exts: seq<string>, installed: set<string>,
                                            run: Invocation -> CommandOutcome)
    ensures InstallLoop(exts, installed, run).result.Ok? <==>
      forall e :: e in MissingFrom(exts, installed) ==> run(InstallInvocation(e)).Success?
    decreases |exts|
  {
    if exts != [] {
      InstallLoopOkIff(exts[1..], installed, run);
      var m := MissingFrom(exts, installed);
      var tail := MissingFrom(exts[1..], installed);
      assert m == (if exts[0] in installed then [] else [exts[0]]) + tail;
      if exts[0] !in installed && !run(InstallInvocation(exts[0])).Success? {
        assert exts[0] in m;
      }
    }
  }

  /** The loop on `exts` stops at the `k`-th missing extension, whose
      install failed after every earlier missing one installed: the
      attempts are the missing extensions up to that one, the last log
      line announces it, and the error is the one its outcome gives. */
  predicate StopsAt(exts: seq<string>, installed: set<string>, run: Invocation -> CommandOutcome, k: nat) {
    var r := InstallLoop(exts, installed, run);
    var m := MissingFrom(exts, installed);
    && k < |m|
    && r.attempts == m[..k + 1]
    && (forall j :: 0 <= j < k ==> run(InstallInvocation(m[j])).Success?)
    && r.result == InstallResult(m[k], run(InstallInvocation(m[k])))
    && r.result != SetupResult.Ok
    && r.lines != [] && r.lines[|r.lines| - 1] == InstallingLine(m[k])
  }

  /** A failed loop stops at the first missing extension whose install
      fails, and only there. */
  lemma {:induction false} InstallLoopStops(exts: seq<string>, installed: set<string>,
                                            run: Invocation -> CommandOutcome) returns (k: nat)
    requires InstallLoop(exts, installed, run).result.Err?
    ensures StopsAt(exts, installed, run, k)
    decreases |exts|
  {
    if exts[0] in installed {
      k := InstallLoopStops(exts[1..], installed, run);
      StopsAfterAlready(exts, installed, run, k);
    } else if run(InstallInvocation(exts[0])).Success? {
      var k' := InstallLoopStops(exts[1..], installed, run);
      StopsAfterInstalled(exts, installed, run, k');
      k := k' + 1;
    } else {
      k := 0;
      StopsAtFirst(exts, installed, run);
    }
  }

  lemma StopsAfterAlready(exts: seq<string>, installed: set<string>, run: Invocation -> CommandOutcome, k: nat)
    requires exts != [] && exts[0] in installed && StopsAt(exts[1..], installed, run, k)
    ensures StopsAt(exts, installed, run, k)
  {
    var rest := InstallLoop(exts[1..], installed, run);
    var r := InstallLoop(exts, installed, run);
    var m := MissingFrom(exts, installed);
    assert m == MissingFrom(exts[1..], installed);
    assert r == InstallRun([AlreadyLine(exts[0])] + rest.lines, rest.attempts, rest.result);
    assert r.lines[|r.lines| - 1] == rest.lines[|rest.lines| - 1];
    assert k < |m|;
    assert r.attempts == m[..k + 1];
    assert r.result == InstallResult(m[k], run(InstallInvocation(m[k])));
    assert r.lines[|r.lines| - 1] == InstallingLine(m[k]);
  }

  lemma StopsAfterInstalled(exts: seq<string>, installed: set<string>, run: Invocation -> CommandOutcome, k: nat)
    requires exts != [] && exts[0] !in installed && run(InstallInvocation(exts[0])).Success?
    requires StopsAt(exts[1..], installed, run, k)
    ensures StopsAt(exts, installed, run, k + 1)
  {
    var rest := InstallLoop(exts[1..], installed, run);
    var r := InstallLoop(exts, installed, run);
    var m := MissingFrom(exts, installed);
    var tail := MissingFrom(exts[1..], installed);
    assert m == [exts[0]] + tail;
    assert m[..k + 2] == [exts[0]] + tail[..k + 1];
    assert r.lines == [InstallingLine(exts[0]), InstalledLine(exts[0])] + rest.lines;
    assert r.lines[|r.lines| - 1] == rest.lines[|rest.lines| - 1];
    assert forall j :: 1 <= j < k + 1 ==> m[j] == tail[j - 1];
  }

  lemma StopsAtFirst(exts: seq<string>, installed: set<string>, run: Invocation -> CommandOutcome)
    requires exts != [] && exts[0] !in installed && !run(InstallInvocation(exts[0])).Success?
    ensures StopsAt(exts, installed, run, 0)
  {
    var m := MissingFrom(exts, installed);
    assert m == [exts[0]] + MissingFrom(exts[1..], installed);
    assert m[..1] == [exts[0]];
  }

  /** When VS Code is not detected, `run_configure` succeeds, logs nothing
      and installs nothing. */
  lemma NotDetectedIsNoOp(run: Invocation -> CommandOutcome)
    ensures Configure(false, run) == InstallRun([], [], SetupResult.Ok)
  {
  }

  /** When VS Code is detected but `should_run` is false, `run_configure`
      would only log that each extension is already installed. */
  lemma NothingMissingInstallsNothing(run: Invocation -> CommandOutcome)
    requires !ShouldRun(true, run)
    ensures var r := Configure(true, run);
      r.result == SetupResult.Ok && r.attempts == [] && |r.lines| == |Extensions|
  {
    var installed := KnownExtensions(run(ListInvocation));
    InstallLoopOkIff(Extensions, installed, run);
    InstallLoopCompletes(Extensions, installed, run);
  }
}
