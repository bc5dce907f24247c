# mac-setup, modelled in Dafny

mac-setup is a command-line tool that brings a developer machine to a known
state. It runs four phases in order:

1. It reports the environment: the platform, the working directory, the
   executable directory and, on macOS, the serial number that its `ioreg`
   pattern finds (see Findings: as written, the pattern does not find it).
2. It applies operating-system settings.
3. It runs the configurators:
   - the `.zshrc` patcher sets the oh-my-zsh theme, extends the plugin list
     and appends missing `export` lines;
   - the VS Code extension installer;
   - the Yazi theme-package installer.
4. It creates one symlink per installed application from a fixed catalog.

Every step logs lines and per-phase group summaries into an in-memory
logger. `main` then prints a summary and exits with code 1 exactly when a
phase failed.

This project models the decision and text logic of that core and proves
properties of it:

- `.zshrc` patch (`Zshrc`, `ZshrcProperties`): an in-place `LineBuffer` class
  whose methods are proved against functional specifications
  (`UpdateOrAdd`, `ExtendPluginsSpec`, `AddExports`, `PatchLines`). The
  properties cover:
  - replace-or-insert placement;
  - order-preserving, duplicate-avoiding plugin merge;
  - append-only exports;
  - the rendered text's round trip through `lines()`;
  - idempotence of the whole patch.
- Symlink reconciliation (`SymlinkCreator`, `SymlinkSetup`):
  - the shell command built for a link;
  - the detector-gated loop over the catalog, proved against a
    specification function `Reconcile`.
- Configurators (`Configurators`, `Vscode`, `Yazi`):
  - the `should_run`/`configure` gate;
  - the buffered-set VS Code installer loop, proved against `InstallLoop`;
  - the Yazi package check.
- Run report (`Logging`, `App`):
  - the append-only `MemoryLogger` class;
  - footer and summary texts;
  - the environment report;
  - the ordered, abort-on-first-error phase pipeline and `main`'s exit code.
- Helpers:
  - the two `replace_home_with_tilde` variants (`HomePath` on path
    components, `HomeString` on substrings);
  - the two `Platform` enums;
  - the `ioreg` serial-number extraction (`CommonPlatform`);
  - Rust string operations the code relies on (`Text`: `trim`, `lines`,
    `split_whitespace`, `replace`, `contains`, `find`, decimal formatting).

The outside world is a set of parameters:

- Running a program is an oracle `run: Invocation -> CommandOutcome`. Its
  three outcomes are `Success(stdout)`, `NonZeroExit` and
  `SpawnFailed(reason)`, matching `Ok(Some)`, `Ok(None)` and `Err` of
  `run_command`.
- An application detector is `detected: string -> bool`, keyed by the
  detector's name.
- The symlink creator is `create: SymlinkConfig -> SetupResult`.
- `$HOME`, the target OS name, the working directory and the executable's
  parent directory are plain values.

## Model

| member | source | states |
|---|---|---|
| Text.TrimStart | src/configurators/zshrc.rs:145 | the result is a suffix of the input and starts with a non-whitespace character, or is empty |
| Text.TrimEnd | src/configurators/zshrc.rs:145 | the result is a prefix of the input and ends with a non-whitespace character, or is empty |
| Text.TrimUnchanged | src/configurators/vscode.rs:21 | a string with non-whitespace at both ends is its own trim |
| Text.IndexOf | src/configurators/zshrc.rs:110-111 | `find` gives the first index holding the character, or `None` exactly when it does not occur |
| Text.ContainsIff | src/configurators/yazi.rs:17 | `contains` holds iff the pattern occurs at some index |
| Text.Lines | src/configurators/zshrc.rs:74 | `lines()` yields pieces without line feeds, and none at all only for empty text |
| Text.LinesOfJoined | src/configurators/zshrc.rs:95 | joining non-empty lines with `\n` plus a final `\n` and splitting with `lines()` gives the lines back |
| Text.SplitWhitespaceWords | src/configurators/zshrc.rs:113-114 | `split_whitespace` yields only non-empty tokens without whitespace |
| Text.SplitJoined | src/configurators/zshrc.rs:113-128 | splitting words joined by single spaces gives the words back |
| Text.ReplaceRoundTrip | src/common.rs:7 | replacing a non-empty pattern by a fresh marker and the marker by the pattern restores the string |
| Text.ReplaceCharLength | src/symlinks/creator.rs:14 | replacing one character changes the length by the occurrence count times the length change |
| Text.DecimalRoundTrip | src/common/logging.rs:126 | the decimal text of a count reads back as that count |
| Errors.ErrorText | src/symlinks/mod.rs:26-35 | an I/O error shows as `IO error: <msg>`; a failed command shows as `Command failed: '<command>' (exit code: None)` or `... (exit code: Some(<n>))` with `<n>` in decimal |
| Logging.MemoryLogger.constructor | src/common/logging.rs:20-24 | a fresh logger has no lines and no groups |
| Logging.MemoryLogger.Info | src/common/logging.rs:47-49 | appends exactly one Info line without highlight and leaves the groups unchanged |
| Logging.MemoryLogger.Warn | src/common/logging.rs:50-52 | appends exactly one Warn line without highlight and leaves the groups unchanged |
| Logging.MemoryLogger.OkWithHighlight | src/common/logging.rs:53-55 | appends exactly one Ok line carrying the highlight and leaves the groups unchanged |
| Logging.MemoryLogger.AddGroup | src/common/logging.rs:57-59 | appends exactly one group and leaves the lines unchanged |
| Logging.MemoryLogger.Snapshot | src/common/logging.rs:61-66 | the snapshot equals the current lines and groups and changes nothing |
| Logging.FooterText | src/common/logging.rs:121-133 | with an error the footer is `Error: <e>`, otherwise the summary text of the groups |
| Logging.NoChangesIff | src/common/logging.rs:128-131 | the summary is `Summary: no changes` iff there are no groups |
| Logging.GroupPartCount | src/common/logging.rs:126 | a part is the title, `: `, then decimal digits reading back as the count |
| Logging.SummaryStartsWithFirstGroup | src/common/logging.rs:131 | with groups, the summary starts with `Summary — ` and the first group's part |
| SymlinkCreator.EscapeLength | src/symlinks/creator.rs:14 | the escaped destination is longer by exactly the number of spaces |
| SymlinkCreator.EscapedSpacesQuoted | src/symlinks/creator.rs:14 | every space of the escaped destination follows a backslash |
| SymlinkCreator.UnescapeSpaces | src/symlinks/creator.rs:14 | for a destination without backslashes, turning `\ ` back into a space restores it |
| SymlinkCreator.ShellCreateOutcomes | src/symlinks/creator.rs:15-28 | `Ok` iff `sh -c <command>` succeeds; a non-zero exit gives `CommandFailed(command, None)`; a spawn failure gives an I/O error |
| SymlinkSetup.LogEntry | src/symlinks/setup.rs:72-85 | one Ok line highlighted with the destination for an installed entry, one Warn line naming detector and installer otherwise |
| SymlinkSetup.ReconcileStep | src/symlinks/setup.rs:71-86 | one iteration logs the entry's line, counts it iff installed, and calls `create` iff installed |
| SymlinkSetup.ReconcileFails | src/symlinks/setup.rs:73 | the first failing `create` ends the loop with that error, logging nothing for the entry |
| SymlinkSetup.ReconcileEntries | src/symlinks/setup.rs:70-90 | the loop logs exactly the specification's lines; on success it adds one `Symlinks` group with the count; on failure it returns the error and adds no group |
| SymlinkSetup.SetupSymlinks | src/symlinks/setup.rs:16-91 | logs `▶ Create Symlinks` first, then reconciles the catalog under the `config` directory joined to the executable's directory |
| SymlinkSetup.ReconcileCompletes | src/symlinks/setup.rs:71-90 | the loop succeeds iff `create` succeeds for every entry whose detector reports installed |
| SymlinkSetup.ReconcileAllDone | src/symlinks/setup.rs:70-88 | on success: one line per entry in catalog order; the count is the number of installed entries; `create` was called exactly for those, in order |
| SymlinkSetup.ReconcileStops | src/symlinks/setup.rs:71-73 | on failure there is a first installed entry whose `create` failed; earlier installed entries succeeded; later entries were not examined |
| HomeString.UnreadableHomeUnchanged | src/common.rs:5-10 | with `$HOME` unset or not Unicode the string comes back unchanged |
| HomeString.AbsentHomeUnchanged | src/common.rs:7 | a string not containing `$HOME` comes back unchanged |
| HomeString.ExpandRestores | src/common.rs:7 | every occurrence is replaced: putting `$HOME` back for each `~` restores a string that had no `~` |
| HomeString.NoBoundaryCheck | src/common.rs:7 | `$HOME=/Users/bob` turns `/Users/bobby` into `~by` |
| HomeString.EmptyHomeEverywhere | src/common.rs:7 | an empty `$HOME` puts `~` at every character boundary |
| HomePath.UnsetUnchanged | src/common/utils.rs:7-13 | with `$HOME` unset the path is returned unchanged |
| HomePath.StripPrefixIff | src/common/utils.rs:9 | `strip_prefix` succeeds exactly when `$HOME`'s components lead the path's components |
| HomePath.StripNamesIff | src/common/utils.rs:9 | past the root, the walk succeeds exactly when `$HOME`'s names lead the path's names |
| HomePath.ComponentsOfPrefix | src/common/utils.rs:9 | a base without components leads every path; otherwise the roots must agree and the names lead |
| HomePath.UnderHome | src/common/utils.rs:9-10 | a path under `$HOME` is shown as `~/` and its own text after `$HOME`, trimmed of leading and trailing separators and `.` pieces |
| HomePath.InnerSeparatorsKept | src/common/utils.rs:9-10 | what follows `$HOME` is shown as written: doubled separators and `.` pieces inside it are kept |
| HomePath.DoubledSeparatorShown | src/common/utils.rs:9-10 | with `$HOME=/Users/bob`, `/Users/bob/a//b` is shown as `~/a//b` |
| HomePath.DotPieceShown | src/common/utils.rs:9-10 | with `$HOME=/Users/bob`, `/Users/bob/proj/./target` is shown as `~/proj/./target` |
| HomePath.HomeItself | src/common/utils.rs:9-10 | `$HOME` itself is shown as `~/` |
| HomePath.EmptyHomeLeadsAll | src/common/utils.rs:7-10 | an empty `$HOME` has no components, so every path is shown after `~/` in full |
| HomePath.PartingComponents | src/common/utils.rs:9-13 | when a component differs from `$HOME`'s the path is returned unchanged |
| HomePath.ExtendedNameNotShortened | src/common/utils.rs:9-13 | `/a/bX` is not shortened under `$HOME=/a/b`: the test is on whole components |
| CommonPlatform.DetectMaps | src/common/platform.rs:11-18 | `macos` and `windows` map to their variants; every other OS name maps to Linux |
| CommonPlatform.AsStrDistinct | src/common/platform.rs:20-26 | the display names are distinct per variant |
| CommonPlatform.NoSerialElsewhere | src/common/platform.rs:42 | Linux and Windows have no serial number, whatever the command oracle does |
| CommonPlatform.NoSerialWithoutIoreg | src/common/platform.rs:33-40 | on macOS a failed or unsuccessful `ioreg -l` gives no serial |
| CommonPlatform.FirstMatch | src/common/platform.rs:35-37 | a capture is non-empty and holds no `"` |
| CommonPlatform.SerialShape | src/common/platform.rs:34-37 | any serial found is non-empty and holds no `"` |
| CommonPlatform.ExtractFromOutput | src/common/platform.rs:34-37 | an `ioreg` output holding `"IOPlatformSerialNumber" = "<serial>"` yields that serial, whatever text before it holds no match |
| CommonPlatform.SkipNoMatch | src/common/platform.rs:36 | positions where no match starts are passed over: the leftmost match is the first position that matches |
| CommonPlatform.QuoteFreeNoMatch | src/common/platform.rs:34 | text without a `"` holds no match, since the key starts with `"` |
| CommonPlatform.WrittenPatternMissesSerial | src/common/platform.rs:34 | the pattern as written finds nothing in a standard `ioreg` line that the intended pattern matches |
| CommonPlatform.WrittenNeedsDoubleQuote | src/common/platform.rs:34 | the pattern as written can only match text containing two adjacent `"` |
| SettingsPlatform.DetectMaps | src/settings/platform.rs:11-16 | the three known OS names map to their variants; anything else falls back to Linux |
| SettingsPlatform.AsStrDistinct | src/settings/platform.rs:20-26 | the display names are distinct per variant |
| SettingsPlatform.AgreesWithCommon | src/settings/platform.rs:11-26 | both `Platform` enums detect the same platform and show the same name |
| Configurators.RunSkips | src/configurators/mod.rs:21-25 | when `should_run` is false `run` prints `Skipping <name>`, never calls `configure` and returns `Ok` |
| Configurators.RunDelegates | src/configurators/mod.rs:26 | when `should_run` is true `run` calls `configure` once and returns its result unchanged |
| Configurators.VscodeSkipAgrees | src/configurators/vscode.rs:81-88 | running the VS Code configurator through the gate returns the same result as calling `configure` directly |
| Configurators.YaziSkipAgrees | src/configurators/yazi.rs:51-57 | with Yazi detected, the gate does not change `configure`'s result |
| Configurators.YaziUndetectedSkips | src/configurators/yazi.rs:52-53 | with Yazi not detected, `run` only prints the skip line and returns `Ok` |
| Yazi.IsPackageInstalledIff | src/configurators/yazi.rs:15-20 | installed iff the listing succeeded and its stdout contains the name as a substring |
| Yazi.LongerNameCounts | src/configurators/yazi.rs:17 | a listed name that merely extends the package name counts as installed |
| Yazi.ListedIsNoOp | src/configurators/yazi.rs:24-30 | an already listed package gives `Ok` after the listing call alone |
| Yazi.InstallOutcomes | src/configurators/yazi.rs:33-42 | otherwise `ya pkg add` runs once; `Ok` iff it succeeds; a non-zero exit and a spawn failure give their own I/O messages |
| Yazi.FailureMessagesDiffer | src/configurators/yazi.rs:35-36 | the two failure messages are distinct |
| Yazi.ShouldRunAgrees | src/configurators/yazi.rs:51-57 | `should_run` is false iff Yazi is not detected or `configure` would stop after the listing |
| Vscode.InstalledExtensions | src/configurators/vscode.rs:16-27 | a set is returned iff the listing succeeded |
| Vscode.InstalledExtensionsMembers | src/configurators/vscode.rs:18-23 | the set holds exactly the trimmed stdout lines |
| Vscode.MissingFromMembers | src/configurators/vscode.rs:56-60 | an extension is to be installed iff it is listed and not in the installed set |
| Vscode.InstallMissing | src/configurators/vscode.rs:56-72 | the loop logs exactly the specification's lines, installs exactly its attempts and returns its result |
| Vscode.RunConfigure | src/configurators/vscode.rs:47-73 | `run_configure` logs, installs and returns what `Configure` specifies, with the listing fetched once |
| Vscode.AlreadyStep | src/configurators/vscode.rs:57-59 | an extension in the buffered set only logs `Extension already installed` |
| Vscode.InstalledStep | src/configurators/vscode.rs:62-64 | a missing extension whose install succeeds logs an info and an ok line highlighted with its id |
| Vscode.FailedStep | src/configurators/vscode.rs:62-68 | a missing extension whose install fails ends the loop with that failure |
| Vscode.ShouldRunIff | src/configurators/vscode.rs:81-88 | `should_run` holds iff VS Code is detected and some listed extension is absent from the buffered set |
| Vscode.InstallLoopCompletes | src/configurators/vscode.rs:56-72 | on success exactly the missing extensions were installed, in list order, all successfully, with one line per extension plus one per install |
| Vscode.InstallLoopOkIff | src/configurators/vscode.rs:56-72 | the loop succeeds iff every missing extension's install succeeds |
| Vscode.InstallLoopStops | src/configurators/vscode.rs:62-68 | on failure it stopped at the first missing extension whose install failed, after attempting exactly the missing ones before it |
| Vscode.NotDetectedIsNoOp | src/configurators/vscode.rs:49-51 | without VS Code nothing is logged or installed and the result is `Ok` |
| Vscode.NothingMissingInstallsNothing | src/configurators/vscode.rs:54-60 | when nothing is missing, `configure` installs nothing, logs one line per extension and returns `Ok` |
| Zshrc.Position | src/configurators/zshrc.rs:101-104 | `position` gives the first index satisfying the predicate, or `None` when none does |
| Zshrc.AddExportsStep | src/configurators/zshrc.rs:83-93 | the export loop handles one pair, then the rest against the lines that pair left |
| Zshrc.LineBuffer.constructor | src/configurators/zshrc.rs:74 | the buffer starts with the given lines |
| Zshrc.LineBuffer.Push | src/configurators/zshrc.rs:89-91 | appends exactly one line |
| Zshrc.LineBuffer.AddExportIfMissing | src/configurators/zshrc.rs:84-92 | the new lines are `AddExport` of the old ones |
| Zshrc.LineBuffer.UpdateOrAddLine | src/configurators/zshrc.rs:142-158 | the new lines are `UpdateOrAdd` of the old ones |
| Zshrc.LineBuffer.ExtendPlugins | src/configurators/zshrc.rs:99-139 | the new lines are `ExtendPluginsSpec` of the old ones; a `)` before `(` is reported as a panic |
| Zshrc.ModifyZshrcContent | src/configurators/zshrc.rs:73-96 | the returned text is `ModifyContent` of the input |
| ZshrcProperties.FindSettingFirst | src/configurators/zshrc.rs:144-147 | the first uncommented line whose trim starts with the prefix is the one found |
| ZshrcProperties.InsertPosIs | src/configurators/zshrc.rs:151-154 | the insert position is the first non-blank, non-comment line, or 0 |
| ZshrcProperties.UpdateReplacesFirst | src/configurators/zshrc.rs:144-148 | an existing setting's first line is replaced and nothing else changes |
| ZshrcProperties.UpdateInsertsWhenAbsent | src/configurators/zshrc.rs:149-157 | otherwise the line is inserted at the insert position and the count grows by one |
| ZshrcProperties.MergeKeepsExisting | src/configurators/zshrc.rs:121-125 | the existing tokens stay first, in order, duplicates included |
| ZshrcProperties.MergeMembers | src/configurators/zshrc.rs:121-125 | the merged list holds exactly the existing and the required plugins |
| ZshrcProperties.MergeAddsFresh | src/configurators/zshrc.rs:121-125 | each added plugin was absent from the existing list and is added once |
| ZshrcProperties.MergeAddedInOrder | src/configurators/zshrc.rs:121-125 | the added plugins appear in directive order |
| ZshrcProperties.MergeNoOp | src/configurators/zshrc.rs:121-125 | when every required plugin is present the list is unchanged |
| ZshrcProperties.ParsePluginsTokens | src/configurators/zshrc.rs:110-117 | the parsed tokens are whitespace-free words holding no `)` |
| ZshrcProperties.ParsePluginsPanics | src/configurators/zshrc.rs:110-112 | parsing panics iff there is a `(` and the first `)` comes before the first `(` |
| ZshrcProperties.ParsePluginsMissingParen | src/configurators/zshrc.rs:110-111 | a missing `(` or `)` gives the empty list |
| ZshrcProperties.ParsePluginsLine | src/configurators/zshrc.rs:112-128 | a rewritten plugins line parses back to its plugin list |
| ZshrcProperties.ExtendRewritesFirst | src/configurators/zshrc.rs:101-128 | the first uncommented plugins line becomes `plugins=(<merged>)` and nothing else changes |
| ZshrcProperties.ExtendPanics | src/configurators/zshrc.rs:112 | a `)` before `(` in that line panics |
| ZshrcProperties.ExtendInsertsWhenAbsent | src/configurators/zshrc.rs:129-137 | without a plugins line, `plugins=(<required>)` is inserted at the insert position |
| ZshrcProperties.ExportLineMatches | src/configurators/zshrc.rs:84-87 | an appended export line suppresses a later append of the same key |
| ZshrcProperties.AddExportsKeepsPrefix | src/configurators/zshrc.rs:83-93 | exports only append: the old lines are a prefix of the new |
| ZshrcProperties.AddExportsCovers | src/configurators/zshrc.rs:83-93 | afterwards every key has a matching line |
| ZshrcProperties.AddExportsNoOp | src/configurators/zshrc.rs:85-88 | keys that already match append nothing |
| ZshrcProperties.AddExportsAppends | src/configurators/zshrc.rs:89-91 | at most three lines per pair are appended, each blank, the marker comment or one of the export lines |
| ZshrcProperties.ThemeLineFacts | src/configurators/zshrc.rs:77 | the theme line is a theme setting, not a plugins setting, and a content line |
| ZshrcProperties.PluginsLineFacts | src/configurators/zshrc.rs:128-131 | the plugins line is a plugins setting and not a theme setting |
| ZshrcProperties.ThemeFixpoint | src/configurators/zshrc.rs:142-148 | a file whose first theme line is already the target is unchanged by the theme step |
| ZshrcProperties.PluginsFixpoint | src/configurators/zshrc.rs:99-128 | a file whose first plugins line already holds every required plugin is unchanged by the plugins step |
| ZshrcProperties.SettledFixpoint | src/configurators/zshrc.rs:73-93 | a settled file is unchanged by the whole patch |
| ZshrcProperties.ThemeStepSettles | src/configurators/zshrc.rs:142-158 | after the theme step the first theme line is the target line |
| ZshrcProperties.PluginsStepSettles | src/configurators/zshrc.rs:99-139 | after the plugins step the theme stays settled and the first plugins line holds every required plugin |
| ZshrcProperties.PatchSettles | src/configurators/zshrc.rs:73-93 | the patched lines are settled for theme, plugins and exports |
| ZshrcProperties.PatchIdempotent | src/configurators/zshrc.rs:73-93 | patching the patched lines again changes nothing |
| ZshrcProperties.PatchFresh | src/configurators/zshrc.rs:77-156 | with neither setting present, the plugins line lands before the theme line at the insert position, then the exports follow |
| ZshrcProperties.PatchExisting | src/configurators/zshrc.rs:77-148 | with both settings present, each first line is rewritten in place and the exports follow |
| ZshrcProperties.RenderRoundTrip | src/configurators/zshrc.rs:95 | the output ends in `\n` and splits back into the patched lines |
| ZshrcProperties.PatchKeepsClean | src/configurators/zshrc.rs:73-93 | clean lines stay clean and non-empty after patching |
| ZshrcProperties.ModifyContentIdempotent | src/configurators/zshrc.rs:73-96 | patching the text of a patched file with the same directive gives identical text |
| App.LogEnvironmentInfo | src/environment.rs:4-16 | logs the environment lines and exactly one `Environment` group of 0 |
| App.EnvironmentShape | src/environment.rs:5-13 | four lines, heading first, plus one serial line iff a serial is found, which only happens on macOS |
| App.ConfigDir | src/symlinks/setup.rs:24 | `exe_dir.join("config")` starts with the executable's directory and ends in `/config`; an empty directory gives `config` |
| App.ConfigDirOneSeparator | src/symlinks/setup.rs:24 | the join puts exactly one separator at the seam, and adds `/` only when the directory does not end in one |
| App.RootConfigSource | src/symlinks/setup.rs:24-31 | an executable at the root gets `/config`, so the WezTerm source is `/config/.wezterm.lua` |
| App.ApplyPhase | src/main.rs:49-51 | a phase's lines and groups are appended and its result returned |
| App.RunSymlinkPhase | src/main.rs:52 | the symlink phase logs its heading and the reconciliation lines, and adds the group only on success |
| App.ExecutePhases | src/main.rs:44-55 | the logger receives exactly `Execute`'s lines and groups and the result is `Execute`'s |
| App.ExecuteStopsAtSettings | src/main.rs:49 | a settings error ends `execute` after the settings phase |
| App.ExecuteStopsAtConfigurators | src/main.rs:51 | a configurator error ends `execute` after the configurator phase |
| App.ExecuteRunsAll | src/main.rs:45-54 | with both earlier phases successful, all four phases run and the symlink result is returned |
| App.ExecuteOrder | src/main.rs:44-55 | the phases that ran are a prefix of environment, settings, configurators, symlinks; an early stop is an error; symlinks run iff both earlier phases succeed |
| App.ExecuteOkIff | src/main.rs:44-55 | `execute` succeeds iff settings and configurators succeed and every installed catalog entry's link is created |
| App.ExecuteKeepsEarlierEntries | src/main.rs:46-52 | entries logged by earlier phases are kept, and the first group is `Environment: 0` |
| App.RunMain | src/main.rs:14-42 | footer from the snapshot and error; plain summary from the groups; exit code 1 iff `execute` failed |
| App.SummaryNeverEmpty | src/main.rs:26-35 | the environment group is always recorded, so the summary never reads `Summary: no changes` |

## Left out

- Running programs, probing the filesystem and reading environment
  variables are parameters. The model assumes a deterministic world: the
  same invocation always gets the same outcome, so a listing fetched twice
  (VS Code and Yazi fetch it in `should_run` and again in `configure`) gives
  the same answer both times.
- The detectors are booleans keyed by their names. PATH lookup, `.app`
  existence and `~/.oh-my-zsh` existence are not modelled.
- `render_ui`'s terminal drawing is not modelled. Only its footer text is,
  and a drawing failure does not change the exit path.
- `println!`/`print!`/`eprintln!` output is not modelled. The one exception
  is the skip line of `Configurator::run`, which is part of `RunOutcome`.
- OS settings (`apply_system_settings`) and `run_configurators` are not
  part of this model. Their sources are not among the core files. In
  `App.Host` each phase is an abstract `PhaseEffect`: the lines, groups and
  result it contributes.
- `App.Execute`, `App.ExecutePhases`, `App.RunMain` require an executable
  with a parent directory. `setup_symlinks` panics via `expect` when it has
  none; the panics of `current_dir`/`current_exe` are not modelled.
- The `.zshrc` file I/O (`get_zshrc_path`, `exists`, `run_configure`'s read
  and write) is not modelled; only the in-memory patch is.
- Paths in `HomePath` are `/`-separated strings. `Path::components` is
  modelled as a leading root, then the names, with empty and `.` pieces
  skipped. `strip_prefix` returns the path's own text after the matched
  names, trimmed at both ends of separators and `.` pieces, as
  `Components::as_path` does. A leading `.` of a relative path (Rust's
  `CurDir` component) is treated as a skipped piece, and `..` is compared
  as a name. A non-UTF-8 `$HOME` is not modelled there (it is in
  `HomeString`).
- HomePath.HomeItself: stated for a `$HOME` that is absolute, empty or
  starts with a name; a relative `$HOME` starting with `.` involves the
  `CurDir` component, which is not modelled.
- The ioreg regex is modelled as a leftmost-match scanner for its shape:
  key, optional whitespace, `=`, optional whitespace, then a quoted
  non-empty run without `"`. `get_serial_number` exists only when compiled
  for macOS; the model treats it as always present.
- App.LogEnvironmentInfo, App.EnvironmentLines, App.EnvironmentShape: the
  serial line is read with the corrected pattern (`CommonPlatform.SerialNumber`),
  as Findings describes. The program as written runs the pattern of
  `CommonPlatform.SerialNumberAsWritten`, which finds no serial in a standard
  `ioreg -l` output, so its report there has no serial line.
- Integers are unbounded. `usize` counts do not overflow for a five-entry
  catalog; an exit code is any integer.
- The source comes in two revisions of `SetupError` (`IoError(String)` and
  `Io(io::Error)`). The model has one `IoError(message)` and carries an
  `io::Error` as its text.
- `SymlinkConfig.success_message` is not used by the code and not modelled.
- `Text.SplitWhitespace` and `Text.Trim` use Unicode's White_Space set
  written out as code points; no other Unicode handling is modelled.

## Findings

| source | as written | input that shows it | evidently intended | confidence | as-written member | corrected member |
|---|---|---|---|---|---|---|
| src/common/platform.rs:34 | the pattern `"IOPlatformSerialNumber""\s*=\s*"([^"]+)"` requires two `"` after the key | the `ioreg -l` line `"IOPlatformSerialNumber" = "C02XYZ"` yields `None` | match `"IOPlatformSerialNumber"\s*=\s*"([^"]+)"` and return `C02XYZ` | not executed | CommonPlatform.WrittenPatternMissesSerial | CommonPlatform.ExtractFromOutput |
