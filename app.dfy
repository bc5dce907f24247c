/**
 * The program's top level: the environment report, the phase pipeline of
 * `execute` (environment, settings, configurators, symlinks, stopping at
 * the first error), and what `main` makes of its outcome (the footer of
 * the report, the plain summary and the exit code).
 */
module App {
  import opened Wrappers
  import Text
  import opened Errors
  import opened Logging
  import CommonPlatform
  import SettingsPlatform
  import HomePath
  import SymlinkCreator
  import SymlinkSetup

  const EnvironmentHeading := "▶ Environment"
  const EnvironmentTitle := "Environment"
  const UnknownDirectory := "<unknown>"

  /** The directory of the executable as the report shows it: shortened
      with `~`, or `<unknown>` when the executable path has no parent. */
  function ExecutableDirectoryText(exeParent: Option<string>, home: Option<string>): string {
    match exeParent
    case Some(dir) => HomePath.ReplaceHomeWithTilde(dir, home)
    case None => UnknownDirectory
  }

  /** The four lines `log_environment_info` always logs: the heading, the
      platform, the working and the executable directory. */
  function EnvironmentHead(platform: CommonPlatform.Platform, cwd: string, exeParent: Option<string>,
                           home: Option<string>): seq<LogLine> {
    [ InfoLine(EnvironmentHeading),
      OkLine("Detected platform ->", CommonPlatform.AsStr(platform)),
      OkLine("Current working directory ->", HomePath.ReplaceHomeWithTilde(cwd, home)),
      OkLine("Executable directory ->", ExecutableDirectoryText(exeParent, home)) ]
  }

  /** The serial number line, when there is a serial number. */
  function SerialLines(serial: Option<string>): seq<LogLine> {
    match serial
    case Some(s) => [OkLine("Serial number ->", s)]
    case None => []
  }

  /** The lines `log_environment_info` logs. */
  function EnvironmentLines(platform: CommonPlatform.Platform, cwd: string, exeParent: Option<string>,
                            home: Option<string>, run: Invocation -> CommandOutcome): seq<LogLine> {
    EnvironmentHead(platform, cwd, exeParent, home) + SerialLines(CommonPlatform.SerialNumber(platform, run))
  }

  /** `log_environment_info`, with the working directory, the executable's
      parent directory, `$HOME` and the command runner as parameters. */
  method LogEnvironmentInfo(logger: MemoryLogger, platform: CommonPlatform.Platform, cwd: string,
                            exeParent: Option<string>, home: Option<string>, run: Invocation -> CommandOutcome)
    modifies logger
    ensures logger.lines == old(logger.lines) + EnvironmentLines(platform, cwd, exeParent, home, run)
    ensures logger.groups == old(logger.groups) + [GroupSummary(EnvironmentTitle, 0)]
  {
    ghost var start := logger.lines;
    logger.Info(EnvironmentHeading);
    logger.OkWithHighlight("Detected platform ->", CommonPlatform.AsStr(platform));
    logger.OkWithHighlight("Current working directory ->", HomePath.ReplaceHomeWithTilde(cwd, home));
    logger.OkWithHighlight("Executable directory ->", ExecutableDirectoryText(exeParent, home));
    assert logger.lines == start + EnvironmentHead(platform, cwd, exeParent, home);
    ghost var headed := logger.lines;
    var serial := CommonPlatform.SerialNumber(platform, run);
    if serial.Some? {
      logger.OkWithHighlight("Serial number ->", serial.value);
    }
    assert logger.lines == headed + SerialLines(serial);
    logger.AddGroup(EnvironmentTitle, 0);
  }

  /** The report always opens with the heading and four or five lines; the
      serial line appears only on macOS, so elsewhere no command is run and
      the runner makes no difference. */
  lemma EnvironmentShape(platform: CommonPlatform.Platform, cwd: string, exeParent: Option<string>,
                         home: Option<string>, run: Invocation -> CommandOutcome)
    ensures var ls := EnvironmentLines(platform, cwd, exeParent, home, run);
      && 4 <= |ls| <= 5
      && ls[0] == InfoLine(EnvironmentHeading)
      && (|ls| == 5 <==> CommonPlatform.SerialNumber(platform, run).Some?)
      && (|ls| == 5 ==> platform == CommonPlatform.MacOS && ls[4].highlight == CommonPlatform.SerialNumber(platform, run))
    ensures platform != CommonPlatform.MacOS ==>
      forall other: Invocation -> CommandOutcome ::
        EnvironmentLines(platform, cwd, exeParent, home, other) == EnvironmentLines(platform, cwd, exeParent, home, run)
  {
    if platform != CommonPlatform.MacOS {
      forall other: Invocation -> CommandOutcome
        ensures EnvironmentLines(platform, cwd, exeParent, home, other) == EnvironmentLines(platform, cwd, exeParent, home, run)
      {
        CommonPlatform.NoSerialElsewhere(platform, run);
        CommonPlatform.NoSerialElsewhere(platform, other);
      }
    }
  }

  /** What a phase whose code is not part of this model (the system
      settings, the configurator list) does: the lines and groups it logs
      and its result. */
  datatype PhaseEffect = PhaseEffect(lines: seq<LogLine>, groups: seq<GroupSummary>, result: SetupResult)

  /** Replay a phase's effect on the logger. */
  method ApplyPhase(logger: MemoryLogger, effect: PhaseEffect) returns (res: SetupResult)
    modifies logger
    ensures logger.lines == old(logger.lines) + effect.lines
    ensures logger.groups == old(logger.groups) + effect.groups
    ensures res == effect.result
  {
    logger.lines := logger.lines + effect.lines;
    logger.groups := logger.groups + effect.groups;
    res := effect.result;
  }

  /** Everything the run depends on outside this model: the target OS
      name, the working directory, the executable's parent directory,
      `$HOME`, the command runner, the tool detectors (by name), the
      symlink creator, and the effects of the settings and configurator
      phases. */
  datatype Host = Host(
    os: string,
    cwd: string,
    exeParent: Option<string>,
    home: Option<string>,
    run: Invocation -> CommandOutcome,
    detected: string -> bool,
    create: SymlinkCreator.SymlinkConfig -> SetupResult,
    settings: PhaseEffect,
    configurators: PhaseEffect)

  datatype Phase = EnvironmentPhase | SettingsPhase | ConfiguratorsPhase | SymlinksPhase

  /** What `execute` does: the lines and groups logged, the phases that
      ran, and the result. */
  datatype Execution = Execution(lines: seq<LogLine>, groups: seq<GroupSummary>, ran: seq<Phase>, result: SetupResult)

  const AllPhases := [EnvironmentPhase, SettingsPhase, ConfiguratorsPhase, SymlinksPhase]

  /** `exe_dir.join("config")`: `PathBuf::push` puts a separator between
      the two only when the directory is not empty and does not already
      end in one. */
  function ConfigDir(exeDir: string): (r: string)
    ensures exeDir == [] ==> r == "config"
    ensures exeDir != [] ==> Text.StartsWith(r, exeDir) && |r| >= 7 && r[|r| - 7..] == "/config"
  {
    if exeDir == [] then "config"
    else if exeDir[|exeDir| - 1] == '/' then exeDir + "config"
    else exeDir + "/config"
  }

  /** The join adds exactly one separator at the seam: the text after
      the directory never starts a doubled `/`. */
  lemma ConfigDirOneSeparator(exeDir: string)
    requires exeDir != []
    ensures var r := ConfigDir(exeDir);
      |exeDir| < |r| && !(r[|exeDir| - 1] == '/' && r[|exeDir|] == '/')
    ensures exeDir[|exeDir| - 1] != '/' ==> ConfigDir(exeDir) == exeDir + "/config"
  {
  }

  /** An executable at the root: its directory is `/`, and the first
      catalog source is `/config/.wezterm.lua`. */
  lemma RootConfigSource()
    ensures ConfigDir("/") == "/config"
    ensures SymlinkSetup.Catalog(ConfigDir("/"))[0].config.source == "/config/.wezterm.lua"
  {
    assert "/" + "config" == "/config";
    assert "/config" + "/.wezterm.lua" == "/config/.wezterm.lua";
  }

  /** The platform the settings layer detects, as the shared enum the
      environment report takes. */
  function HostPlatform(h: Host): CommonPlatform.Platform {
    SettingsPlatform.ToCommon(SettingsPlatform.Detect(h.os))
  }

  function HostEnvironmentLines(h: Host): seq<LogLine> {
    EnvironmentLines(HostPlatform(h), h.cwd, h.exeParent, h.home, h.run)
  }

  /** The symlink phase's walk over the catalog. */
  function HostSymlinks(h: Host): SymlinkSetup.Reconciled
    requires h.exeParent.Some?
  {
    SymlinkSetup.Reconcile(SymlinkSetup.Catalog(ConfigDir(h.exeParent.value)), h.detected, h.create)
  }

  /** `execute`: the environment report, then each phase in turn, the
      first error ending the run. */
  function Execute(h: Host): Execution
    requires h.exeParent.Some?
  {
    var env := HostEnvironmentLines(h);
    var envGroups := [GroupSummary(EnvironmentTitle, 0)];
    var s := h.settings;
    var c := h.configurators;
    if s.result.Err? then
      Execution(env + s.lines, envGroups + s.groups, AllPhases[..2], s.result)
    else if c.result.Err? then
      Execution(env + s.lines + c.lines, envGroups + s.groups + c.groups, AllPhases[..3], c.result)
    else
      var r := HostSymlinks(h);
      Execution(env + s.lines + c.lines + ([InfoLine(SymlinkSetup.Heading)] + r.lines),
                envGroups + s.groups + c.groups + SymlinkGroups(r),
                AllPhases, SymlinkResult(r))
  }

  /** The group the symlink phase records: one, unless it stopped. */
  function SymlinkGroups(r: SymlinkSetup.Reconciled): seq<GroupSummary> {
    if r.failure.None? then [GroupSummary(SymlinkSetup.GroupTitle, r.affected)] else []
  }

  function SymlinkResult(r: SymlinkSetup.Reconciled): SetupResult {
    if r.failure.None? then SetupResult.Ok else Err(r.failure.value)
  }

  /** `setup_symlinks` as a phase of `execute`. */
  method RunSymlinkPhase(logger: MemoryLogger, h: Host) returns (res: SetupResult)
    requires h.exeParent.Some?
    modifies logger
    ensures logger.lines == old(logger.lines) + ([InfoLine(SymlinkSetup.Heading)] + HostSymlinks(h).lines)
    ensures logger.groups == old(logger.groups) + SymlinkGroups(HostSymlinks(h))
    ensures res == SymlinkResult(HostSymlinks(h))
  {
    ghost var attempts;
    res, attempts := SymlinkSetup.SetupSymlinks(logger, ConfigDir(h.exeParent.value), h.detected, h.create);
  }

  /** `execute` on the logger. The executable must have a parent
      directory: the symlink phase gives up otherwise. */
  method ExecutePhases(logger: MemoryLogger, h: Host) returns (res: SetupResult, ghost ran: seq<Phase>)
    requires h.exeParent.Some?
    modifies logger
    ensures logger.lines == old(logger.lines) + Execute(h).lines
    ensures logger.groups == old(logger.groups) + Execute(h).groups
    ensures res == Execute(h).result && ran == Execute(h).ran
  {
    ghost var lines0, groups0 := logger.lines, logger.groups;
    ghost var env := HostEnvironmentLines(h);
    ghost var envGroups := [GroupSummary(EnvironmentTitle, 0)];
    var platform := SettingsPlatform.Detect(h.os);
    LogEnvironmentInfo(logger, SettingsPlatform.ToCommon(platform), h.cwd, h.exeParent, h.home, h.run);
    ran := [EnvironmentPhase, SettingsPhase];
    res := ApplyPhase(logger, h.settings);
    assert logger.lines == lines0 + (env + h.settings.lines);
    assert logger.groups == groups0 + (envGroups + h.settings.groups);
    if res.Err? {
      ExecuteStopsAtSettings(h);
      return;
    }
    ran := ran + [ConfiguratorsPhase];
    res := ApplyPhase(logger, h.configurators);
    assert logger.lines == lines0 + (env + h.settings.lines + h.configurators.lines);
    assert logger.groups == groups0 + (envGroups + h.settings.groups + h.configurators.groups);
    if res.Err? {
      ExecuteStopsAtConfigurators(h);
      return;
    }
    ran := ran + [SymlinksPhase];
    res := RunSymlinkPhase(logger, h);
    ExecuteRunsAll(h);
    ghost var r := HostSymlinks(h);
    assert logger.lines == lines0 + (env + h.settings.lines + h.configurators.lines + ([InfoLine(SymlinkSetup.Heading)] + r.lines));
    assert logger.groups == groups0 + (envGroups + h.settings.groups + h.configurators.groups + SymlinkGroups(r));
  }

  lemma ExecuteStopsAtSettings(h: Host)
    requires h.exeParent.Some? && h.settings.result.Err?
    ensures Execute(h) == Execution(HostEnvironmentLines(h) + h.settings.lines,
                                    [GroupSummary(EnvironmentTitle, 0)] + h.settings.groups,
                                    [EnvironmentPhase, SettingsPhase], h.settings.result)
  {
  }

  lemma ExecuteStopsAtConfigurators(h: Host)
    requires h.exeParent.Some? && h.settings.result.Ok? && h.configurators.result.Err?
    ensures Execute(h) == Execution(HostEnvironmentLines(h) + h.settings.lines + h.configurators.lines,
                                    [GroupSummary(EnvironmentTitle, 0)] + h.settings.groups + h.configurators.groups,
                                    [EnvironmentPhase, SettingsPhase, ConfiguratorsPhase], h.configurators.result)
  {
  }

  lemma ExecuteRunsAll(h: Host)
    requires h.exeParent.Some? && h.settings.result.Ok? && h.configurators.result.Ok?
    ensures var r := HostSymlinks(h);
      Execute(h) == Execution(
        HostEnvironmentLines(h) + h.settings.lines + h.configurators.lines + ([InfoLine(SymlinkSetup.Heading)] + r.lines),
        [GroupSummary(EnvironmentTitle, 0)] + h.settings.groups + h.configurators.groups + SymlinkGroups(r),
        AllPhases, SymlinkResult(r))
  {
  }

  /** The phases run in order and a run stops only at an error: the phases
      that ran lead the full list, settings always runs, and a run that
      stops early ends in the error of its last phase. */
  lemma ExecuteOrder(h: Host)
    requires h.exeParent.Some?
    ensures var e := Execute(h);
      && 2 <= |e.ran| <= |AllPhases|
      && e.ran == AllPhases[..|e.ran|]
      && (|e.ran| < |AllPhases| ==> e.result.Err?)
      && (e.ran[|e.ran| - 1] == SettingsPhase ==> e.result == h.settings.result)
      && (e.ran[|e.ran| - 1] == ConfiguratorsPhase ==> e.result == h.configurators.result)
      && (SymlinksPhase in e.ran <==> h.settings.result.Ok? && h.configurators.result.Ok?)
  {
    if h.settings.result.Err? {
      ExecuteStopsAtSettings(h);
      assert AllPhases[..2] == [EnvironmentPhase, SettingsPhase];
    } else if h.configurators.result.Err? {
      ExecuteStopsAtConfigurators(h);
      assert AllPhases[..3] == [EnvironmentPhase, SettingsPhase, ConfiguratorsPhase];
    } else {
      ExecuteRunsAll(h);
      assert AllPhases[..|AllPhases|] == AllPhases;
    }
  }

  /** A run succeeds exactly when settings and configurators succeed and
      every installed tool's link is created. */
  lemma ExecuteOkIff(h: Host)
    requires h.exeParent.Some?
    ensures Execute(h).result.Ok? <==>
      && h.settings.result.Ok?
      && h.configurators.result.Ok?
      && var entries := SymlinkSetup.Catalog(ConfigDir(h.exeParent.value));
         forall k :: 0 <= k < |entries| && h.detected(entries[k].detectorName) ==>
           h.create(entries[k].config) == SetupResult.Ok
  {
    SymlinkSetup.ReconcileCompletes(SymlinkSetup.Catalog(ConfigDir(h.exeParent.value)), h.detected, h.create);
  }

  /** Whatever fails, what was logged before it is kept: the environment
      report leads the lines, the settings phase's lines follow it, and the
      environment group leads the groups. */
  lemma ExecuteKeepsEarlierEntries(h: Host)
    requires h.exeParent.Some?
    ensures var e := Execute(h);
      && HostEnvironmentLines(h) + h.settings.lines <= e.lines
      && |e.groups| >= 1 && e.groups[0] == GroupSummary(EnvironmentTitle, 0)
      && (h.settings.result.Ok? ==> HostEnvironmentLines(h) + h.settings.lines + h.configurators.lines <= e.lines)
  {
    var e := Execute(h);
    var env := HostEnvironmentLines(h);
    var s := h.settings.lines;
    var c := h.configurators.lines;
    if h.settings.result.Ok? && h.configurators.result.Ok? {
      var r := HostSymlinks(h);
      assert e.lines == (env + s + c) + ([InfoLine(SymlinkSetup.Heading)] + r.lines);
    }
    if h.settings.result.Ok? {
      assert (env + s) + c <= e.lines;
    }
  }

  /** What `main` shows and returns: the footer of the report, the plain
      summary line, and the exit code. */
  datatype MainOutcome = MainOutcome(footer: string, summary: string, exitCode: int)

  /** `main`: run `execute` on a fresh logger, then derive the footer from
      the snapshot and the error, the summary from the groups, and exit
      with 1 exactly when `execute` failed. */
  method RunMain(h: Host) returns (out: MainOutcome)
    requires h.exeParent.Some?
    ensures var e := Execute(h);
      && out.summary == SummaryText(e.groups)
      && (e.result.Err? ==> out.footer == "Error: " + ErrorText(e.result.error))
      && (e.result.Ok? ==> out.footer == SummaryText(e.groups))
      && (out.exitCode == 1 <==> e.result.Err?)
      && (out.exitCode == 0 <==> e.result.Ok?)
  {
    var logger := new MemoryLogger();
    var res, ran := ExecutePhases(logger, h);
    var snapshot := logger.Snapshot();
    ghost var e := Execute(h);
    assert snapshot.groups == [] + e.groups == e.groups;
    var err := if res.Err? then Some(ErrorText(res.error)) else None;
    var footer := FooterText(snapshot, err);
    var summary := SummaryText(snapshot.groups);
    var exitCode := if res.Err? then 1 else 0;
    out := MainOutcome(footer, summary, exitCode);
  }

  /** The environment group is always recorded, so the summary is never
      `Summary: no changes`: it always opens with `Environment: 0`. */
  lemma SummaryNeverEmpty(h: Host)
    requires h.exeParent.Some?
    ensures SummaryText(Execute(h).groups) != NoChanges
    ensures Text.StartsWith(SummaryText(Execute(h).groups), SummaryHead + GroupPart(GroupSummary(EnvironmentTitle, 0)))
  {
    ExecuteKeepsEarlierEntries(h);
    NoChangesIff(Execute(h).groups);
    SummaryStartsWithFirstGroup(Execute(h).groups);
  }
}
