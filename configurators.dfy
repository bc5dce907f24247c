/**
 * The configurator protocol's default helpers: `run` asks `should_run`
 * once and either prints a skip message or hands over to `configure`;
 * `affected_files` defaults to no files.
 */
module Configurators {
  import opened Errors
  import Vscode
  import Yazi

  /** What `run` does: the lines it prints, how often it calls
      `configure`, and its result. */
  datatype RunOutcome = RunOutcome(printed: seq<string>, configureCalls: nat, result: SetupResult)

  function SkipLine(name: string): string {
    "Skipping " + name
  }

  /** `Configurator::run`, with the answer of `should_run` and the
      configure step as parameters. */
  function Run(name: string, shouldRun: bool, configure: () -> SetupResult): RunOutcome {
    if !shouldRun then RunOutcome([SkipLine(name)], 0, Ok)
    else RunOutcome([], 1, configure())
  }

  /** The default `affected_files`. */
  function DefaultAffectedFiles(): seq<string> {
    []
  }

  /** A skipped configurator succeeds without configuring, after printing
      its name. */
  lemma RunSkips(name: string, configure: () -> SetupResult)
    ensures Run(name, false, configure) == RunOutcome(["Skipping " + name], 0, Ok)
  {
  }

  /** A configurator that should run returns what `configure` returns,
      unchanged, prints nothing itself and configures once. */
  lemma RunDelegates(name: string, configure: () -> SetupResult)
    ensures Run(name, true, configure) == RunOutcome([], 1, configure())
  {
  }

  /** For VS Code, skipping never changes the result: whenever `should_run`
      is false, `run_configure` would have succeeded too. */
  lemma VscodeSkipAgrees(detected: bool, run: Invocation -> CommandOutcome)
    ensures Run("VSCode", Vscode.ShouldRun(detected, run), () => Vscode.Configure(detected, run).result).result
      == Vscode.Configure(detected, run).result
  {
    if detected && !Vscode.ShouldRun(detected, run) {
      Vscode.NothingMissingInstallsNothing(run);
    }
  }

  /** For Yazi, once it is detected, skipping never changes the result:
      `should_run` is false exactly when the package is listed, and then
      `run_configure` succeeds without installing. */
  lemma YaziSkipAgrees(run: Invocation -> CommandOutcome)
    ensures Run("Yazi", Yazi.ShouldRun(true, run), () => Yazi.Configure(run).result).result
      == Yazi.Configure(run).result
  {
  }

  /** An undetected Yazi is skipped even when `run_configure` alone would
      fail, since `run_configure` does not check the detector. */
  lemma YaziUndetectedSkips(run: Invocation -> CommandOutcome)
    ensures Run("Yazi", Yazi.ShouldRun(false, run), () => Yazi.Configure(run).result)
      == RunOutcome([SkipLine("Yazi")], 0, Ok)
  {
  }
}
