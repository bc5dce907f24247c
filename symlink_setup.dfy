/**
 * The symlink phase: walk the catalog of tools in order; for each tool
 * that is installed create its link, otherwise log why it is skipped;
 * stop at the first creation error; record one group with the number of
 * links created.
 */
module SymlinkSetup {
  import opened Wrappers
  import opened Errors
  import opened Logging
  import opened SymlinkCreator

  /** A tool's detector (by name) and the link it wants. */
  datatype CatalogEntry = CatalogEntry(detectorName: string, config: SymlinkConfig)

  /** The catalog, with `configDir` the `config` directory next to the
      executable. */
  function Catalog(configDir: string): seq<CatalogEntry> {
    [ CatalogEntry("WezTerm", SymlinkConfig(configDir + "/.wezterm.lua", "~/.wezterm.lua", "WezTerm")),
      CatalogEntry("oh-my-zsh", SymlinkConfig(configDir + "/stefc.zsh-theme",
        "~/.oh-my-zsh/themes/stefc.zsh-theme", "oh-my-zsh")),
      CatalogEntry("Visual Studio Code", SymlinkConfig(configDir + "/code.settings.json",
        "~/Library/Application Support/Code/User/settings.json", "Visual Studio Code")),
      CatalogEntry("Yazi", SymlinkConfig(configDir + "/yazi.theme.toml", "~/.config/yazi/theme.toml", "Yazi")),
      CatalogEntry("Helix", SymlinkConfig(configDir + "/helix.config.toml", "~/.config/helix/config.toml", "Helix")) ]
  }

  const Heading := "▶ Create Symlinks"
  const CreatedMessage := "Symlink created successfully"
  const GroupTitle := "Symlinks"

  function SkipMessage(entry: CatalogEntry): string {
    entry.detectorName + " is not installed, skipping " + entry.config.installerName
    + " config symlink creation."
  }

  /** The log line an entry produces when its step goes through. */
  function EntryLine(entry: CatalogEntry, installed: bool): LogLine {
    if installed then OkLine(CreatedMessage, entry.config.destination) else WarnLine(SkipMessage(entry))
  }

  /** What the loop does on the entries: its log lines, the links created,
      the configurations handed to the creator, and the first error. */
  datatype Reconciled = Reconciled(lines: seq<LogLine>, affected: nat, attempts: seq<SymlinkConfig>,
                                   failure: Option<SetupError>)

  function Reconcile(entries: seq<CatalogEntry>, detected: string -> bool,
                     create: SymlinkConfig -> SetupResult): Reconciled
    decreases |entries|
  {
    if entries == [] then Reconciled([], 0, [], None)
    else
      var entry := entries[0];
      var installed := detected(entry.detectorName);
      if installed && create(entry.config).Err? then
        Reconciled([], 0, [entry.config], Some(create(entry.config).error))
      else
        var rest := Reconcile(entries[1..], detected, create);
        Reconciled([EntryLine(entry, installed)] + rest.lines,
                   rest.affected + (if installed then 1 else 0),
                   (if installed then [entry.config] else []) + rest.attempts,
                   rest.failure)
  }

  /** `done` followed by what the loop does on the remaining entries. */
  function After(lines: seq<LogLine>, affected: nat, attempts: seq<SymlinkConfig>, rest: Reconciled): Reconciled {
    Reconciled(lines + rest.lines, affected + rest.affected, attempts + rest.attempts, rest.failure)
  }

  /** Nothing done yet: `After` is the rest itself. */
  lemma AfterNothing(r: Reconciled)
    ensures After([], 0, [], r) == r
  {
    assert [] + r.lines == r.lines;
    assert [] + r.attempts == r.attempts;
  }

  /** The loop's progress after one entry that does not stop it. */
  lemma ReconcileStep(entries: seq<CatalogEntry>, detected: string -> bool, create: SymlinkConfig -> SetupResult,
                      i: nat, installed: bool, done: seq<LogLine>, affected: nat, attempts: seq<SymlinkConfig>)
    requires i < |entries| && installed == detected(entries[i].detectorName)
    requires !(installed && create(entries[i].config).Err?)
    ensures After(done, affected, attempts, Reconcile(entries[i..], detected, create))
      == After(done + [EntryLine(entries[i], installed)],
               affected + (if installed then 1 else 0),
               attempts + (if installed then [entries[i].config] else []),
               Reconcile(entries[i + 1..], detected, create))
  {
    assert entries[i..][1..] == entries[i + 1..];
  }

  /** The loop's outcome when the entry at `i` stops it. */
  lemma ReconcileFails(entries: seq<CatalogEntry>, detected: string -> bool, create: SymlinkConfig -> SetupResult,
                       i: nat, done: seq<LogLine>, affected: nat, attempts: seq<SymlinkConfig>)
    requires i < |entries|
    requires detected(entries[i].detectorName) && create(entries[i].config).Err?
    ensures var r := After(done, affected, attempts, Reconcile(entries[i..], detected, create));
      && r.lines == done
      && r.attempts == attempts + [entries[i].config]
      && r.failure == Some(create(entries[i].config).error)
  {
  }

  /** Log the line of an entry whose step goes through. */
  method LogEntry(logger: MemoryLogger, entry: CatalogEntry, installed: bool)
    modifies logger
    ensures logger.lines == old(logger.lines) + [EntryLine(entry, installed)]
    ensures logger.groups == old(logger.groups)
  {
    if installed {
      logger.OkWithHighlight(CreatedMessage, entry.config.destination);
    } else {
      logger.Warn(SkipMessage(entry));
    }
  }

  /** The loop of `setup_symlinks_impl` over `entries`, with the detectors
      as `detected` (by detector name) and the creator as `create`.
      `attempts` lists the configurations handed to the creator. */
  method ReconcileEntries(logger: MemoryLogger, entries: seq<CatalogEntry>, detected: string -> bool,
                          create: SymlinkConfig -> SetupResult)
    returns (res: SetupResult, ghost attempts: seq<SymlinkConfig>)
    modifies logger
    ensures var r := Reconcile(entries, detected, create);
      && logger.lines == old(logger.lines) + r.lines
      && attempts == r.attempts
      && (r.failure.None? ==> res == SetupResult.Ok && logger.groups == old(logger.groups) + [GroupSummary(GroupTitle, r.affected)])
      && (r.failure.Some? ==> res == Err(r.failure.value) && logger.groups == old(logger.groups))
  {
    ghost var whole := Reconcile(entries, detected, create);
    ghost var done: seq<LogLine> := [];
    attempts := [];
    var affected: nat := 0;
    var i := 0;
    assert entries[i..] == entries;
    AfterNothing(whole);
    while i < |entries|
      invariant 0 <= i <= |entries|
      invariant logger.lines == old(logger.lines) + done
      invariant logger.groups == old(logger.groups)
      invariant whole == After(done, affected, attempts, Reconcile(entries[i..], detected, create))
    {
      var entry := entries[i];
      var installed := detected(entry.detectorName);
      if installed {
        var created := create(entry.config);
        if created.Err? {
          ReconcileFails(entries, detected, create, i, done, affected, attempts);
          attempts := attempts + [entry.config];
          return created, attempts;
        }
      }
      LogEntry(logger, entry, installed);
      ReconcileStep(entries, detected, create, i, installed, done, affected, attempts);
      affected := affected + (if installed then 1 else 0);
      attempts := attempts + (if installed then [entry.config] else []);
      done := done + [EntryLine(entry, installed)];
      i := i + 1;
    }
    assert entries[i..] == [];
    logger.AddGroup(GroupTitle, affected);
    res := SetupResult.Ok;
  }

  /** `setup_symlinks_impl`: log the heading, then walk the catalog. */
  method SetupSymlinks(logger: MemoryLogger, configDir: string, detected: string -> bool,
                       create: SymlinkConfig -> SetupResult)
    returns (res: SetupResult, ghost attempts: seq<SymlinkConfig>)
    modifies logger
    ensures var r := Reconcile(Catalog(configDir), detected, create);
      && logger.lines == old(logger.lines) + [InfoLine(Heading)] + r.lines
      && attempts == r.attempts
      && (r.failure.None? ==> res == SetupResult.Ok && logger.groups == old(logger.groups) + [GroupSummary(GroupTitle, r.affected)])
      && (r.failure.Some? ==> res == Err(r.failure.value) && logger.groups == old(logger.groups))
  {
    logger.Info(Heading);
    res, attempts := ReconcileEntries(logger, Catalog(configDir), detected, create);
  }

  /** How many entries' tools are installed. */
  function CountInstalled(entries: seq<CatalogEntry>, detected: string -> bool): nat
    decreases |entries|
  {
    if entries == [] then 0
    else (if detected(entries[0].detectorName) then 1 else 0) + CountInstalled(entries[1..], detected)
  }

  /** The configurations of the entries whose tools are installed, in
      catalog order. */
  function InstalledConfigs(entries: seq<CatalogEntry>, detected: string -> bool): seq<SymlinkConfig>
    decreases |entries|
  {
    if entries == [] then []
    else
      var first := if detected(entries[0].detectorName) then [entries[0].config] else [];
      first + InstalledConfigs(entries[1..], detected)
  }

  /** The loop runs to the end exactly when every installed tool's link is
      created. */
  lemma {:induction false} ReconcileCompletes(entries: seq<CatalogEntry>, detected: string -> bool,
                                              create: SymlinkConfig -> SetupResult)
    ensures Reconcile(entries, detected, create).failure.None? <==>
      forall k :: 0 <= k < |entries| && detected(entries[k].detectorName) ==>
        create(entries[k].config) == SetupResult.Ok
    decreases |entries|
  {
    if entries != [] {
      ReconcileCompletes(entries[1..], detected, create);
      assert forall k :: 1 <= k < |entries| ==> entries[k] == entries[1..][k - 1];
    }
  }

  /** A run to the end logs one line per entry, in order: an ok line with
      the destination for an installed tool, a warning naming the detector
      and the installer otherwise; it hands exactly the installed tools'
      configurations to the creator and counts them. */
  lemma {:induction false} ReconcileAllDone(entries: seq<CatalogEntry>, detected: string -> bool,
                                            create: SymlinkConfig -> SetupResult)
    requires Reconcile(entries, detected, create).failure.None?
    ensures var r := Reconcile(entries, detected, create);
      && |r.lines| == |entries|
      && (forall k :: 0 <= k < |entries| ==>
            r.lines[k] == EntryLine(entries[k], detected(entries[k].detectorName)))
      && r.affected == CountInstalled(entries, detected)
      && r.attempts == InstalledConfigs(entries, detected)
    decreases |entries|
  {
    if entries != [] {
      ReconcileAllDone(entries[1..], detected, create);
      var r := Reconcile(entries, detected, create);
      var rest := Reconcile(entries[1..], detected, create);
      forall k | 1 <= k < |entries|
        ensures r.lines[k] == EntryLine(entries[k], detected(entries[k].detectorName))
      {
        assert r.lines[k] == rest.lines[k - 1];
        assert entries[1..][k - 1] == entries[k];
      }
    }
  }

  /** The walk stops at entry `k`: an installed tool whose link could not
      be created, after every earlier installed tool's link was created;
      every earlier entry is logged as usual, that error is the result, and
      the configurations handed over are the installed ones up to `k`. */
  predicate StopsAt(entries: seq<CatalogEntry>, detected: string -> bool,
                    create: SymlinkConfig -> SetupResult, k: nat) {
    var r := Reconcile(entries, detected, create);
    && k < |entries| && detected(entries[k].detectorName)
    && r.failure.Some?
    && create(entries[k].config) == Err(r.failure.value)
    && (forall j :: 0 <= j < k && detected(entries[j].detectorName) ==>
          create(entries[j].config) == SetupResult.Ok)
    && |r.lines| == k
    && (forall j :: 0 <= j < k ==> r.lines[j] == EntryLine(entries[j], detected(entries[j].detectorName)))
    && r.attempts == InstalledConfigs(entries[..k + 1], detected)
  }

  /** A stopped run stops at the first installed tool whose link cannot be
      created, and no later entry is handed to the creator. */
  lemma {:induction false} ReconcileStops(entries: seq<CatalogEntry>, detected: string -> bool,
                                          create: SymlinkConfig -> SetupResult) returns (k: nat)
    requires Reconcile(entries, detected, create).failure.Some?
    ensures StopsAt(entries, detected, create, k)
    decreases |entries|
  {
    if detected(entries[0].detectorName) && create(entries[0].config).Err? {
      k := 0;
      StopsAtFirst(entries, detected, create);
    } else {
      var k' := ReconcileStops(entries[1..], detected, create);
      StopsLater(entries, detected, create, k');
      k := k' + 1;
    }
  }

  lemma StopsAtFirst(entries: seq<CatalogEntry>, detected: string -> bool, create: SymlinkConfig -> SetupResult)
    requires entries != [] && detected(entries[0].detectorName) && create(entries[0].config).Err?
    ensures StopsAt(entries, detected, create, 0)
  {
    assert entries[..1] == [entries[0]];
    assert entries[..1][1..] == [];
  }

  lemma StopsLater(entries: seq<CatalogEntry>, detected: string -> bool, create: SymlinkConfig -> SetupResult, k: nat)
    requires entries != [] && !(detected(entries[0].detectorName) && create(entries[0].config).Err?)
    requires StopsAt(entries[1..], detected, create, k)
    ensures StopsAt(entries, detected, create, k + 1)
  {
    var r := Reconcile(entries, detected, create);
    var rest := Reconcile(entries[1..], detected, create);
    var installed := detected(entries[0].detectorName);
    assert r.lines == [EntryLine(entries[0], installed)] + rest.lines;
    assert r.attempts == (if installed then [entries[0].config] else []) + rest.attempts;
    forall j | 1 <= j < k + 1
      ensures r.lines[j] == EntryLine(entries[j], detected(entries[j].detectorName))
    {
      assert r.lines[j] == rest.lines[j - 1];
      assert entries[1..][j - 1] == entries[j];
    }
    forall j | 1 <= j < k + 1 && detected(entries[j].detectorName)
      ensures create(entries[j].config) == SetupResult.Ok
    {
      assert entries[1..][j - 1] == entries[j];
    }
    assert entries[..k + 2][1..] == entries[1..][..k + 1];
    assert entries[1..][k] == entries[k + 1];
  }
}
