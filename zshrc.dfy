/**
 * The `.zshrc` patcher: sets the oh-my-zsh theme, extends the plugin list
 * and appends missing `export` lines, on the file's lines.
 *
 * The functions state what the patch does to a sequence of lines; the class
 * `LineBuffer` and the method `ModifyZshrcContent` do it step by step on a
 * growable line vector, as the configurator does, and are proved to agree
 * with the functions.
 */
module Zshrc {
  import opened Wrappers
  import opened Text

  /** The configurator's settings: a theme, the plugins that must be
      enabled, and the environment variables to export. */
  datatype ZshrcConfig = ZshrcConfig(theme: string, plugins: seq<string>, envVars: seq<(string, string)>)

  /** `ZshrcConfigurator::default()`. */
  const DefaultConfig := ZshrcConfig("stefc", ["z", "gh"], [("HOMEBREW_NO_AUTO_UPDATE", "1")])

  const ThemePrefix := "ZSH_THEME"
  const PluginsPrefix := "plugins="
  const ExportComment := "# Added by mac-setup"

  function ThemeLine(theme: string): string {
    "ZSH_THEME=\"" + theme + "\""
  }

  function PluginsLine(plugins: seq<string>): string {
    "plugins=(" + Join(plugins, " ") + ")"
  }

  function ExportLine(key: string, value: string): string {
    "export " + key + "=" + value
  }

  /** A line that sets `prefix`: its trimmed form is not a comment and
      starts with `prefix`. */
  predicate IsSettingLine(line: string, prefix: string) {
    var t := Trim(line);
    !StartsWith(t, "#") && StartsWith(t, prefix)
  }

  /** A line that is neither blank nor a comment. */
  predicate IsContentLine(line: string) {
    var t := Trim(line);
    t != [] && !StartsWith(t, "#")
  }

  /** `Iterator::position`: the index of the first line satisfying `p`. */
  function Position(lines: seq<string>, p: string -> bool): (r: Option<nat>)
    ensures r.Some? ==> r.value < |lines| && p(lines[r.value])
    ensures r.Some? ==> forall j :: 0 <= j < r.value ==> !p(lines[j])
    ensures r.None? ==> forall j :: 0 <= j < |lines| ==> !p(lines[j])
    decreases |lines|
  {
    if lines == [] then None
    else if p(lines[0]) then Some(0)
    else match Position(lines[1..], p)
      case None => None
      case Some(k) => Some(k + 1)
  }

  /** The first line that sets `prefix`. */
  function FindSetting(lines: seq<string>, prefix: string): Option<nat> {
    Position(lines, line => IsSettingLine(line, prefix))
  }

  /** Where a missing line is inserted: before the first line that is
      neither blank nor a comment, or at the top if there is none. */
  function InsertPos(lines: seq<string>): nat {
    match Position(lines, IsContentLine)
    case Some(i) => i
    case None => 0
  }

  /** `k` is the insertion point of `lines`: the first content line, or 0
      when there is no content line. */
  predicate IsInsertionPoint(lines: seq<string>, k: nat) {
    || (k < |lines| && IsContentLine(lines[k]) && forall j :: 0 <= j < k ==> !IsContentLine(lines[j]))
    || (k == 0 && forall j :: 0 <= j < |lines| ==> !IsContentLine(lines[j]))
  }

  function Insert(lines: seq<string>, k: nat, line: string): seq<string>
    requires k <= |lines|
  {
    lines[..k] + [line] + lines[k..]
  }

  /** `update_or_add_line`. */
  function UpdateOrAdd(lines: seq<string>, prefix: string, newLine: string): seq<string> {
    match FindSetting(lines, prefix)
    case Some(i) => lines[i := newLine]
    case None => Insert(lines, InsertPos(lines), newLine)
  }

  /** The plugin list of a `plugins=` line: the whitespace-separated tokens
      between the first `(` and the first `)`; no tokens when either is
      missing; `None` where the slice panics, a `)` before the `(`. */
  function ParsePlugins(line: string): Option<seq<string>> {
    match IndexOf(line, '(')
    case None => Some([])
    case Some(start) =>
      match IndexOf(line, ')')
      case None => Some([])
      case Some(end) =>
        if end < start + 1 then None else Some(SplitWhitespace(line[start + 1..end]))
  }

  /** Appends each plugin of `toAdd`, in order, that the list does not hold
      yet (including those appended before it). */
  function MergePlugins(existing: seq<string>, toAdd: seq<string>): seq<string>
    decreases |toAdd|
  {
    if toAdd == [] then existing
    else MergePlugins(if toAdd[0] in existing then existing else existing + [toAdd[0]], toAdd[1..])
  }

  /** `extend_plugins`; `None` where it panics. */
  function ExtendPluginsSpec(lines: seq<string>, toAdd: seq<string>): Option<seq<string>> {
    match FindSetting(lines, PluginsPrefix)
    case Some(i) =>
      (match ParsePlugins(lines[i])
       case None => None
       case Some(existing) => Some(lines[i := PluginsLine(MergePlugins(existing, toAdd))]))
    case None => Some(Insert(lines, InsertPos(lines), PluginsLine(toAdd)))
  }

  /** A line that counts as an export of `key`: its trimmed form starts
      with `export <key>` or with `<key>=`. */
  predicate ExportMatches(line: string, key: string) {
    var t := Trim(line);
    StartsWith(t, "export " + key) || StartsWith(t, key + "=")
  }

  predicate HasExport(lines: seq<string>, key: string) {
    exists j :: 0 <= j < |lines| && ExportMatches(lines[j], key)
  }

  /** One step of the export loop. */
  function AddExport(lines: seq<string>, key: string, value: string): seq<string> {
    if HasExport(lines, key) then lines else lines + ["", ExportComment, ExportLine(key, value)]
  }

  /** The export loop: each pair sees the lines the earlier pairs left. */
  function AddExports(lines: seq<string>, envVars: seq<(string, string)>): seq<string>
    decreases |envVars|
  {
    if envVars == [] then lines
    else AddExports(AddExport(lines, envVars[0].0, envVars[0].1), envVars[1..])
  }

  /** Unrolls the export loop by one pair. */
  lemma AddExportsStep(lines: seq<string>, envVars: seq<(string, string)>, i: nat)
    requires i < |envVars|
    ensures AddExports(lines, envVars[i..])
      == AddExports(AddExport(lines, envVars[i].0, envVars[i].1), envVars[i + 1..])
  {
    assert envVars[i..][1..] == envVars[i + 1..];
  }

  /** The whole patch on lines; `None` where `extend_plugins` panics. */
  function PatchLines(lines: seq<string>, config: ZshrcConfig): Option<seq<string>> {
    var themed := UpdateOrAdd(lines, ThemePrefix, ThemeLine(config.theme));
    match ExtendPluginsSpec(themed, config.plugins)
    case None => None
    case Some(extended) => Some(AddExports(extended, config.envVars))
  }

  /** Lines joined with `\n`, plus one final `\n`. */
  function Render(lines: seq<string>): string {
    Join(lines, "\n") + "\n"
  }

  /** `modify_zshrc_content`. */
  function ModifyContent(content: string, config: ZshrcConfig): Option<string> {
    match PatchLines(Lines(content), config)
    case None => None
    case Some(patched) => Some(Render(patched))
  }

  /** The `Vec<String>` of lines the configurator edits in place. */
  class LineBuffer {
    var lines: seq<string>

    constructor (initial: seq<string>)
      ensures lines == initial
    {
      lines := initial;
    }

    /** `Vec::push`. */
    method Push(line: string)
      modifies this
      ensures lines == old(lines) + [line]
    {
      lines := lines + [line];
    }

    /** One pass of the export loop: unless some line already exports
        `key`, append a blank line, the marker comment and the export. */
    method AddExportIfMissing(key: string, value: string)
      modifies this
      ensures lines == AddExport(old(lines), key, value)
    {
      if !HasExport(lines, key) {
        Push("");
        Push(ExportComment);
        Push(ExportLine(key, value));
        assert lines == old(lines) + ["", ExportComment, ExportLine(key, value)];
      }
    }

    /** `update_or_add_line`: overwrite the first line setting `prefix`,
        or insert `newLine` at the insertion point. */
    method UpdateOrAddLine(prefix: string, newLine: string)
      modifies this
      ensures lines == UpdateOrAdd(old(lines), prefix, newLine)
    {
      match FindSetting(lines, prefix)
      case Some(pos) =>
        lines := lines[pos := newLine];
      case None =>
        var insertPos := InsertPos(lines);
        lines := lines[..insertPos] + [newLine] + lines[insertPos..];
    }

    /** `extend_plugins`: merge the required plugins into the first
        plugins line, or insert a new one. `panicked` reports the slice
        panic, in which case the lines are left as they were. */
    method ExtendPlugins(pluginsToAdd: seq<string>) returns (panicked: bool)
      modifies this
      ensures panicked <==> ExtendPluginsSpec(old(lines), pluginsToAdd).None?
      ensures !panicked ==> Some(lines) == ExtendPluginsSpec(old(lines), pluginsToAdd)
      ensures panicked ==> lines == old(lines)
    {
      match FindSetting(lines, PluginsPrefix)
      case Some(pos) =>
        var parsed := ParsePlugins(lines[pos]);
        if parsed.None? {
          return true;
        }
        var existing := parsed.value;
        var i := 0;
        while i < |pluginsToAdd|
          invariant 0 <= i <= |pluginsToAdd|
          invariant MergePlugins(existing, pluginsToAdd[i..]) == MergePlugins(parsed.value, pluginsToAdd)
        {
          if pluginsToAdd[i] !in existing {
            existing := existing + [pluginsToAdd[i]];
          }
          i := i + 1;
        }
        lines := lines[pos := PluginsLine(existing)];
        panicked := false;
      case None =>
        var insertPos := InsertPos(lines);
        lines := lines[..insertPos] + [PluginsLine(pluginsToAdd)] + lines[insertPos..];
        panicked := false;
    }
  }

  /** `modify_zshrc_content`: split the content into lines, set the theme,
      extend the plugins, append the missing exports and join the lines
      again; `None` where the plugins slice panics. */
  method ModifyZshrcContent(content: string, theme: string, pluginsToAdd: seq<string>,
                            envVars: seq<(string, string)>) returns (r: Option<string>)
    ensures r == ModifyContent(content, ZshrcConfig(theme, pluginsToAdd, envVars))
  {
    var buffer := new LineBuffer(Lines(content));
    buffer.UpdateOrAddLine(ThemePrefix, ThemeLine(theme));
    var panicked := buffer.ExtendPlugins(pluginsToAdd);
    if panicked {
      return None;
    }
    ghost var extended := buffer.lines;
    var i := 0;
    while i < |envVars|
      invariant 0 <= i <= |envVars|
      invariant AddExports(buffer.lines, envVars[i..]) == AddExports(extended, envVars)
    {
      var (key, value) := envVars[i];
      AddExportsStep(buffer.lines, envVars, i);
      buffer.AddExportIfMissing(key, value);
      i := i + 1;
    }
    assert envVars[i..] == [];
    r := Some(Render(buffer.lines));
  }
}
