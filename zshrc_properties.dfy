/**
 * What the `.zshrc` patch guarantees: which line the theme and plugin
 * settings land on, how the plugin list grows, what the export loop
 * appends, the output format, and that patching twice changes nothing.
 */
module ZshrcProperties {
  import opened Wrappers
  import opened Text
  import opened Zshrc

  // ----- Finding and placing a setting -----

  /** `position` finds the first line satisfying the predicate, and only
      that one. */
  lemma PositionFirst(lines: seq<string>, p: string -> bool, i: nat)
    requires i < |lines| && p(lines[i])
    requires forall j :: 0 <= j < i ==> !p(lines[j])
    ensures Position(lines, p) == Some(i)
  {
  }

  /** The first setting line is the one found. */
  lemma FindSettingFirst(lines: seq<string>, prefix: string, i: nat)
    requires i < |lines| && IsSettingLine(lines[i], prefix)
    requires forall j :: 0 <= j < i ==> !IsSettingLine(lines[j], prefix)
    ensures FindSetting(lines, prefix) == Some(i)
  {
    PositionFirst(lines, line => IsSettingLine(line, prefix), i);
  }

  lemma FindSettingNone(lines: seq<string>, prefix: string)
    requires forall j :: 0 <= j < |lines| ==> !IsSettingLine(lines[j], prefix)
    ensures FindSetting(lines, prefix) == None
  {
  }

  /** `InsertPos` is the insertion point, and the only one. */
  lemma InsertPosIs(lines: seq<string>, k: nat)
    requires IsInsertionPoint(lines, k)
    ensures InsertPos(lines) == k
  {
    if k < |lines| && IsContentLine(lines[k]) && forall j :: 0 <= j < k ==> !IsContentLine(lines[j]) {
      PositionFirst(lines, IsContentLine, k);
    }
  }

  lemma InsertPosIsInsertionPoint(lines: seq<string>)
    ensures IsInsertionPoint(lines, InsertPos(lines))
  {
  }

  /** With a setting line present, the first one is replaced by the new
      line and nothing else changes. */
  lemma UpdateReplacesFirst(lines: seq<string>, prefix: string, newLine: string, i: nat)
    requires i < |lines| && IsSettingLine(lines[i], prefix)
    requires forall j :: 0 <= j < i ==> !IsSettingLine(lines[j], prefix)
    ensures UpdateOrAdd(lines, prefix, newLine) == lines[i := newLine]
  {
    FindSettingFirst(lines, prefix, i);
  }

  /** With no setting line, the new line is inserted at the insertion
      point; the line count grows by one. */
  lemma UpdateInsertsWhenAbsent(lines: seq<string>, prefix: string, newLine: string, k: nat)
    requires forall j :: 0 <= j < |lines| ==> !IsSettingLine(lines[j], prefix)
    requires IsInsertionPoint(lines, k)
    ensures UpdateOrAdd(lines, prefix, newLine) == lines[..k] + [newLine] + lines[k..]
    ensures |UpdateOrAdd(lines, prefix, newLine)| == |lines| + 1
  {
    FindSettingNone(lines, prefix);
    InsertPosIs(lines, k);
  }

  // ----- Merging plugin lists -----

  /** `x` is a subsequence of `y`: `y` with some elements removed. */
  predicate IsSubsequence<T(==)>(x: seq<T>, y: seq<T>)
    decreases |y|
  {
    x == [] || (y != [] && ((x[0] == y[0] && IsSubsequence(x[1..], y[1..])) || IsSubsequence(x, y[1..])))
  }

  /** The existing plugins are kept, in place and in order. */
  lemma {:induction false} MergeKeepsExisting(existing: seq<string>, toAdd: seq<string>)
    ensures |existing| <= |MergePlugins(existing, toAdd)|
    ensures MergePlugins(existing, toAdd)[..|existing|] == existing
    decreases |toAdd|
  {
    if toAdd != [] {
      var next := if toAdd[0] in existing then existing else existing + [toAdd[0]];
      MergeKeepsExisting(next, toAdd[1..]);
      assert next[..|existing|] == existing;
    }
  }

  /** The merged list holds exactly the existing and the required plugins. */
  lemma {:induction false} MergeMembers(existing: seq<string>, toAdd: seq<string>, x: string)
    ensures x in MergePlugins(existing, toAdd) <==> x in existing || x in toAdd
    decreases |toAdd|
  {
    if toAdd != [] {
      var next := if toAdd[0] in existing then existing else existing + [toAdd[0]];
      MergeMembers(next, toAdd[1..], x);
      assert x in toAdd <==> x == toAdd[0] || x in toAdd[1..];
    }
  }

  /** Every appended plugin was missing from the existing list, and none is
      appended twice. */
  lemma {:induction false} MergeAddsFresh(existing: seq<string>, toAdd: seq<string>)
    ensures var m := MergePlugins(existing, toAdd);
      |existing| <= |m|
      && (forall i :: |existing| <= i < |m| ==> m[i] !in existing)
      && (forall i, j :: |existing| <= i < j < |m| ==> m[i] != m[j])
    decreases |toAdd|
  {
    MergeKeepsExisting(existing, toAdd);
    if toAdd != [] {
      var next := if toAdd[0] in existing then existing else existing + [toAdd[0]];
      MergeAddsFresh(next, toAdd[1..]);
      MergeKeepsExisting(next, toAdd[1..]);
      var m := MergePlugins(existing, toAdd);
      assert m == MergePlugins(next, toAdd[1..]);
      forall i | |existing| <= i < |m|
        ensures m[i] !in existing
      {
        if i >= |next| {
          assert m[i] !in next;
          assert forall y :: y in existing ==> y in next;
        } else {
          assert m[i] == next[i] == toAdd[0];
        }
      }
      forall i, j | |existing| <= i < j < |m|
        ensures m[i] != m[j]
      {
        if i < |next| {
          assert m[i] == next[i] == toAdd[0];
          assert toAdd[0] in next;
        }
      }
    }
  }

  /** The appended plugins come from the required list, in its order. */
  lemma {:induction false} MergeAddedInOrder(existing: seq<string>, toAdd: seq<string>)
    ensures |existing| <= |MergePlugins(existing, toAdd)|
    ensures IsSubsequence(MergePlugins(existing, toAdd)[|existing|..], toAdd)
    decreases |toAdd|
  {
    MergeKeepsExisting(existing, toAdd);
    if toAdd != [] {
      var m := MergePlugins(existing, toAdd);
      if toAdd[0] in existing {
        MergeAddedInOrder(existing, toAdd[1..]);
        var added := m[|existing|..];
        assert added == [] || IsSubsequence(added, toAdd[1..]);
      } else {
        var next := existing + [toAdd[0]];
        MergeAddedInOrder(next, toAdd[1..]);
        MergeKeepsExisting(next, toAdd[1..]);
        var added := m[|existing|..];
        assert added[0] == toAdd[0];
        assert added[1..] == m[|next|..];
      }
    }
  }

  /** Nothing is appended when every required plugin is already there. */
  lemma {:induction false} MergeNoOp(existing: seq<string>, toAdd: seq<string>)
    requires forall x :: x in toAdd ==> x in existing
    ensures MergePlugins(existing, toAdd) == existing
    decreases |toAdd|
  {
    if toAdd != [] {
      assert toAdd[0] in existing;
      MergeNoOp(existing, toAdd[1..]);
    }
  }

  // ----- Reading a plugins line -----

  /** The parsed plugins are tokens free of whitespace and of `)`. */
  lemma ParsePluginsTokens(line: string)
    requires ParsePlugins(line).Some?
    ensures Words(ParsePlugins(line).value)
    ensures TokensAvoid(ParsePlugins(line).value, ')')
  {
    match IndexOf(line, '(')
    case None =>
    case Some(start) =>
      match IndexOf(line, ')')
      case None =>
      case Some(end) =>
        if start + 1 <= end {
          PiecesAvoid(line[..end], start + 1, ')');
          assert line[start + 1..end] == line[..end][start + 1..];
          SplitWhitespaceAvoids(line[start + 1..end], ')');
          SplitWhitespaceWords(line[start + 1..end]);
        }
  }

  /** The slice panics exactly when the line holds a `(` and its first `)`
      comes before its first `(`. */
  lemma ParsePluginsPanics(line: string)
    ensures ParsePlugins(line).None? <==>
      '(' in line && exists i :: 0 <= i < |line| && line[i] == ')' && '(' !in line[..i]
  {
    if '(' in line && exists i :: 0 <= i < |line| && line[i] == ')' && '(' !in line[..i] {
      var i :| 0 <= i < |line| && line[i] == ')' && '(' !in line[..i];
      var start := IndexOf(line, '(').value;
      var end := IndexOf(line, ')').value;
    }
  }

  /** Without a `(` or without a `)` the existing list counts as empty. */
  lemma ParsePluginsMissingParen(line: string)
    requires '(' !in line || ')' !in line
    ensures ParsePlugins(line) == Some([])
  {
  }

  /** Reading back a plugins line gives the plugins it was written from. */
  lemma ParsePluginsLine(plugins: seq<string>)
    requires Words(plugins) && TokensAvoid(plugins, ')')
    ensures ParsePlugins(PluginsLine(plugins)) == Some(plugins)
  {
    var joined := Join(plugins, " ");
    var line := PluginsLine(plugins);
    assert line == "plugins=(" + joined + ")";
    if ')' in joined {
      JoinChars(plugins, " ", ')');
    }
    IndexOfAt(line, '(', 8) by {
      assert line[..8] == "plugins=";
    }
    IndexOfAt(line, ')', 9 + |joined|) by {
      assert line[..9 + |joined|] == "plugins=(" + joined;
    }
    assert line[9..9 + |joined|] == joined;
    SplitJoined(plugins);
  }

  // ----- Extending the plugins line -----

  /** With a plugins line present, the first one is rewritten from its
      parsed list merged with the required plugins. */
  lemma ExtendRewritesFirst(lines: seq<string>, toAdd: seq<string>, i: nat, existing: seq<string>)
    requires i < |lines| && IsSettingLine(lines[i], PluginsPrefix)
    requires forall j :: 0 <= j < i ==> !IsSettingLine(lines[j], PluginsPrefix)
    requires ParsePlugins(lines[i]) == Some(existing)
    ensures ExtendPluginsSpec(lines, toAdd) == Some(lines[i := PluginsLine(MergePlugins(existing, toAdd))])
  {
    FindSettingFirst(lines, PluginsPrefix, i);
  }

  /** The first plugins line with a `)` before its `(` makes the patch
      panic. */
  lemma ExtendPanics(lines: seq<string>, toAdd: seq<string>, i: nat)
    requires i < |lines| && IsSettingLine(lines[i], PluginsPrefix)
    requires forall j :: 0 <= j < i ==> !IsSettingLine(lines[j], PluginsPrefix)
    requires ParsePlugins(lines[i]) == None
    ensures ExtendPluginsSpec(lines, toAdd) == None
  {
    FindSettingFirst(lines, PluginsPrefix, i);
  }

  /** With no plugins line, one listing the required plugins as given
      (duplicates included) is inserted at the insertion point. */
  lemma ExtendInsertsWhenAbsent(lines: seq<string>, toAdd: seq<string>, k: nat)
    requires forall j :: 0 <= j < |lines| ==> !IsSettingLine(lines[j], PluginsPrefix)
    requires IsInsertionPoint(lines, k)
    ensures ExtendPluginsSpec(lines, toAdd) == Some(lines[..k] + [PluginsLine(toAdd)] + lines[k..])
  {
    FindSettingNone(lines, PluginsPrefix);
    InsertPosIs(lines, k);
  }

  // ----- Appending exports -----

  /** An appended export line counts as an export of its key. */
  lemma ExportLineMatches(key: string, value: string)
    ensures ExportMatches(ExportLine(key, value), key)
  {
    var head := "export " + key + "=";
    assert ExportLine(key, value) == head + value;
    TrimKeepsHead(head, value);
    var t := Trim(ExportLine(key, value));
    assert t[..|"export " + key|] == head[..|"export " + key|];
  }

  /** The export loop only appends: the original lines stay a prefix. */
  lemma {:induction false} AddExportsKeepsPrefix(lines: seq<string>, envVars: seq<(string, string)>)
    ensures |lines| <= |AddExports(lines, envVars)|
    ensures AddExports(lines, envVars)[..|lines|] == lines
    decreases |envVars|
  {
    if envVars != [] {
      var next := AddExport(lines, envVars[0].0, envVars[0].1);
      AddExportsKeepsPrefix(next, envVars[1..]);
      assert next[..|lines|] == lines;
    }
  }

  /** A line that is kept keeps counting as an export. */
  lemma HasExportKept(lines: seq<string>, longer: seq<string>, key: string)
    requires HasExport(lines, key)
    requires |lines| <= |longer| && longer[..|lines|] == lines
    ensures HasExport(longer, key)
  {
    var j :| 0 <= j < |lines| && ExportMatches(lines[j], key);
    assert longer[j] == longer[..|lines|][j];
  }

  /** After the loop every key of the list has an export. */
  lemma {:induction false} AddExportsCovers(lines: seq<string>, envVars: seq<(string, string)>)
    ensures ExportsSettled(AddExports(lines, envVars), envVars)
    decreases |envVars|
  {
    if envVars != [] {
      var (key, value) := envVars[0];
      var next := AddExport(lines, key, value);
      var r := AddExports(next, envVars[1..]);
      assert AddExports(lines, envVars) == r;
      AddExportCovers(lines, key, value);
      AddExportsCovers(next, envVars[1..]);
      AddExportsKeepsPrefix(next, envVars[1..]);
      HasExportKept(next, r, key);
      ExportsSettledCons(r, envVars);
    }
  }

  lemma ExportsSettledCons(lines: seq<string>, envVars: seq<(string, string)>)
    requires envVars != [] && HasExport(lines, envVars[0].0) && ExportsSettled(lines, envVars[1..])
    ensures ExportsSettled(lines, envVars)
  {
    forall i | 1 <= i < |envVars|
      ensures HasExport(lines, envVars[i].0)
    {
      assert envVars[i] == envVars[1..][i - 1];
    }
  }

  /** After one step its key has an export. */
  lemma AddExportCovers(lines: seq<string>, key: string, value: string)
    ensures HasExport(AddExport(lines, key, value), key)
  {
    if !HasExport(lines, key) {
      ExportLineMatches(key, value);
      assert AddExport(lines, key, value)[|lines| + 2] == ExportLine(key, value);
    }
  }

  /** Keys that already have an export add nothing. */
  lemma {:induction false} AddExportsNoOp(lines: seq<string>, envVars: seq<(string, string)>)
    requires forall i :: 0 <= i < |envVars| ==> HasExport(lines, envVars[i].0)
    ensures AddExports(lines, envVars) == lines
    decreases |envVars|
  {
    if envVars != [] {
      assert HasExport(lines, envVars[0].0);
      forall i | 0 <= i < |envVars[1..]|
        ensures HasExport(lines, envVars[1..][i].0)
      {
        assert envVars[1..][i] == envVars[i + 1];
      }
      AddExportsNoOp(lines, envVars[1..]);
    }
  }

  /** A line the export loop may append for `envVars`: a blank line, the
      marker comment, or the export line of a listed pair. */
  predicate AppendedLine(l: string, envVars: seq<(string, string)>) {
    l == "" || l == ExportComment || exists kv :: kv in envVars && l == ExportLine(kv.0, kv.1)
  }

  /** What the loop appends: at most three lines per pair, each blank, the
      marker comment, or the export line of a listed pair. */
  lemma {:induction false} AddExportsAppends(lines: seq<string>, envVars: seq<(string, string)>)
    ensures |AddExports(lines, envVars)| <= |lines| + 3 * |envVars|
    ensures forall j :: |lines| <= j < |AddExports(lines, envVars)| ==>
      AppendedLine(AddExports(lines, envVars)[j], envVars)
    decreases |envVars|
  {
    if envVars != [] {
      var next := AddExport(lines, envVars[0].0, envVars[0].1);
      AddExportsAppends(next, envVars[1..]);
      AddExportsKeepsPrefix(next, envVars[1..]);
      AddExportAppends(lines, envVars);
      var r := AddExports(lines, envVars);
      forall j | |lines| <= j < |r|
        ensures AppendedLine(r[j], envVars)
      {
        if j < |next| {
          assert r[j] == r[..|next|][j] == next[j];
        } else {
          AppendedLineWiden(r[j], envVars);
        }
      }
    }
  }

  /** The first step appends only lines of the first pair. */
  lemma AddExportAppends(lines: seq<string>, envVars: seq<(string, string)>)
    requires envVars != []
    ensures var next := AddExport(lines, envVars[0].0, envVars[0].1);
      |next| <= |lines| + 3 && forall j :: |lines| <= j < |next| ==> AppendedLine(next[j], envVars)
  {
    assert envVars[0] in envVars;
  }

  lemma AppendedLineWiden(l: string, envVars: seq<(string, string)>)
    requires envVars != [] && AppendedLine(l, envVars[1..])
    ensures AppendedLine(l, envVars)
  {
    if l != "" && l != ExportComment {
      var kv :| kv in envVars[1..] && l == ExportLine(kv.0, kv.1);
      assert kv in envVars;
    }
  }

  // ----- The synthesized lines -----

  /** The theme line sets the theme, is content, and is not a plugins
      line. */
  lemma ThemeLineFacts(theme: string)
    ensures IsSettingLine(ThemeLine(theme), ThemePrefix)
    ensures !IsSettingLine(ThemeLine(theme), PluginsPrefix)
    ensures IsContentLine(ThemeLine(theme))
  {
    var line := ThemeLine(theme);
    TrimUnchanged(line);
    assert line[..9] == ThemePrefix;
  }

  /** The plugins line sets the plugins and is not a theme line. */
  lemma PluginsLineFacts(plugins: seq<string>)
    ensures IsSettingLine(PluginsLine(plugins), PluginsPrefix)
    ensures !IsSettingLine(PluginsLine(plugins), ThemePrefix)
  {
    var line := PluginsLine(plugins);
    TrimUnchanged(line);
    assert line[..8] == PluginsPrefix;
  }

  /** A line cannot set both the theme and the plugins. */
  lemma SettingsDisjoint(line: string)
    ensures !(IsSettingLine(line, ThemePrefix) && IsSettingLine(line, PluginsPrefix))
  {
  }

  /** Appending lines does not move a setting that is already found. */
  lemma FindSettingExtend(lines: seq<string>, longer: seq<string>, prefix: string)
    requires FindSetting(lines, prefix).Some?
    requires |lines| <= |longer| && longer[..|lines|] == lines
    ensures FindSetting(longer, prefix) == FindSetting(lines, prefix)
  {
    var i := FindSetting(lines, prefix).value;
    forall j | 0 <= j <= i
      ensures longer[j] == lines[j]
    {
      assert longer[j] == longer[..|lines|][j];
    }
    FindSettingFirst(longer, prefix, i);
  }

  // ----- Patching twice -----

  /** The theme is set: the first theme line is the configured one. */
  predicate ThemeSettled(lines: seq<string>, theme: string) {
    match FindSetting(lines, ThemePrefix)
    case Some(i) => lines[i] == ThemeLine(theme)
    case None => false
  }

  /** The plugins are set: the first plugins line is written in the
      canonical form of a list holding every required plugin. */
  predicate PluginsSettled(lines: seq<string>, plugins: seq<string>) {
    match FindSetting(lines, PluginsPrefix)
    case Some(i) =>
      (match ParsePlugins(lines[i])
       case Some(listed) => lines[i] == PluginsLine(listed) && forall x :: x in plugins ==> x in listed
       case None => false)
    case None => false
  }

  predicate ExportsSettled(lines: seq<string>, envVars: seq<(string, string)>) {
    forall i :: 0 <= i < |envVars| ==> HasExport(lines, envVars[i].0)
  }

  /** Lines on which the patch has nothing left to do. */
  predicate Settled(lines: seq<string>, config: ZshrcConfig) {
    ThemeSettled(lines, config.theme) && PluginsSettled(lines, config.plugins)
    && ExportsSettled(lines, config.envVars)
  }

  /** Plugin names the canonical plugins line can carry: non-empty, without
      whitespace and without `)`. */
  predicate PluginNames(plugins: seq<string>) {
    Words(plugins) && TokensAvoid(plugins, ')')
  }

  /** A settled theme is left alone. */
  lemma ThemeFixpoint(lines: seq<string>, theme: string)
    requires ThemeSettled(lines, theme)
    ensures UpdateOrAdd(lines, ThemePrefix, ThemeLine(theme)) == lines
  {
    var i := FindSetting(lines, ThemePrefix).value;
    assert lines[i := ThemeLine(theme)] == lines;
  }

  /** A settled plugins line is left alone. */
  lemma PluginsFixpoint(lines: seq<string>, plugins: seq<string>)
    requires PluginsSettled(lines, plugins)
    ensures ExtendPluginsSpec(lines, plugins) == Some(lines)
  {
    var j := FindSetting(lines, PluginsPrefix).value;
    var listed := ParsePlugins(lines[j]).value;
    MergeNoOp(listed, plugins);
    assert lines[j := PluginsLine(listed)] == lines;
  }

  /** Settled lines are a fixed point of the patch. */
  lemma SettledFixpoint(lines: seq<string>, config: ZshrcConfig)
    requires Settled(lines, config)
    ensures PatchLines(lines, config) == Some(lines)
  {
    ThemeFixpoint(lines, config.theme);
    PluginsFixpoint(lines, config.plugins);
    AddExportsNoOp(lines, config.envVars);
  }

  /** After the theme step the theme is settled. */
  lemma ThemeStepSettles(lines: seq<string>, theme: string)
    ensures ThemeSettled(UpdateOrAdd(lines, ThemePrefix, ThemeLine(theme)), theme)
  {
    var line := ThemeLine(theme);
    var themed := UpdateOrAdd(lines, ThemePrefix, line);
    ThemeLineFacts(theme);
    match FindSetting(lines, ThemePrefix)
    case Some(i) =>
      FindSettingFirst(themed, ThemePrefix, i);
    case None =>
      var k := InsertPos(lines);
      assert themed == lines[..k] + [line] + lines[k..];
      assert themed[k] == line;
      forall j | 0 <= j < k
        ensures !IsSettingLine(themed[j], ThemePrefix)
      {
        assert themed[j] == lines[j];
      }
      FindSettingFirst(themed, ThemePrefix, k);
  }

  lemma PositionInserted(lines: seq<string>, k: nat, line: string, p: string -> bool)
    requires k <= |lines| && p(line)
    requires forall j :: 0 <= j < k ==> !p(lines[j])
    ensures Position(Insert(lines, k, line), p) == Some(k)
  {
    var inserted := Insert(lines, k, line);
    assert forall j :: 0 <= j < k ==> inserted[j] == lines[j];
    PositionFirst(inserted, p, k);
  }

  lemma PositionShifted(lines: seq<string>, k: nat, line: string, p: string -> bool, t: nat)
    requires k <= t && Position(lines, p) == Some(t)
    requires !p(line)
    ensures Position(Insert(lines, k, line), p) == Some(t + 1)
  {
    var inserted := Insert(lines, k, line);
    assert forall j :: 0 <= j < k ==> inserted[j] == lines[j];
    assert forall j :: k < j <= t + 1 ==> inserted[j] == lines[j - 1];
    PositionFirst(inserted, p, t + 1);
  }

  /** A setting line inserted before every earlier match is found. */
  lemma FindSettingInserted(lines: seq<string>, k: nat, line: string, prefix: string)
    requires k <= |lines| && IsSettingLine(line, prefix)
    requires forall j :: 0 <= j < k ==> !IsSettingLine(lines[j], prefix)
    ensures FindSetting(Insert(lines, k, line), prefix) == Some(k)
  {
    PositionInserted(lines, k, line, l => IsSettingLine(l, prefix));
  }

  /** A non-matching line inserted at or before the first match moves it
      down by one. */
  lemma FindSettingShifted(lines: seq<string>, k: nat, line: string, prefix: string, t: nat)
    requires k <= t && FindSetting(lines, prefix) == Some(t)
    requires !IsSettingLine(line, prefix)
    ensures FindSetting(Insert(lines, k, line), prefix) == Some(t + 1)
  {
    PositionShifted(lines, k, line, l => IsSettingLine(l, prefix), t);
  }

  /** Replacing the first match by another matching line keeps it first;
      replacing some other line by a non-matching one keeps the first match
      where it is. */
  lemma FindSettingReplaced(lines: seq<string>, q: nat, line: string, prefix: string, t: nat)
    requires q < |lines| && FindSetting(lines, prefix) == Some(t)
    requires if q == t then IsSettingLine(line, prefix) else !IsSettingLine(line, prefix)
    ensures FindSetting(lines[q := line], prefix) == Some(t)
  {
    FindSettingFirst(lines[q := line], prefix, t);
  }

  /** The merged list keeps the shape of plugin names. */
  lemma MergeKeepsNames(existing: seq<string>, plugins: seq<string>)
    requires PluginNames(existing) && PluginNames(plugins)
    ensures PluginNames(MergePlugins(existing, plugins))
    ensures forall x :: x in plugins ==> x in MergePlugins(existing, plugins)
  {
    var merged := MergePlugins(existing, plugins);
    forall k | 0 <= k < |merged|
      ensures merged[k] != [] && NoWhitespace(merged[k]) && ')' !in merged[k]
    {
      MergeMembers(existing, plugins, merged[k]);
    }
    forall x | x in plugins
      ensures x in merged
    {
      MergeMembers(existing, plugins, x);
    }
  }

  /** Rewriting an existing plugins line settles the plugins and keeps the
      theme settled. */
  lemma PluginsRewriteSettles(themed: seq<string>, theme: string, plugins: seq<string>, q: nat)
    requires ThemeSettled(themed, theme)
    requires PluginNames(plugins)
    requires FindSetting(themed, PluginsPrefix) == Some(q)
    requires ParsePlugins(themed[q]).Some?
    ensures ThemeSettled(ExtendPluginsSpec(themed, plugins).value, theme)
    ensures PluginsSettled(ExtendPluginsSpec(themed, plugins).value, plugins)
  {
    var t := FindSetting(themed, ThemePrefix).value;
    var existing := ParsePlugins(themed[q]).value;
    var merged := MergePlugins(existing, plugins);
    var line := PluginsLine(merged);
    var extended := themed[q := line];
    assert ExtendPluginsSpec(themed, plugins) == Some(extended);
    ThemeLineFacts(theme);
    PluginsLineFacts(merged);
    SettingsDisjoint(themed[q]);
    ParsePluginsTokens(themed[q]);
    MergeKeepsNames(existing, plugins);
    ParsePluginsLine(merged);
    FindSettingReplaced(themed, q, line, PluginsPrefix, q);
    FindSettingReplaced(themed, q, line, ThemePrefix, t);
  }

  /** Inserting a plugins line settles the plugins; the theme line moves
      down by one and stays settled. */
  lemma PluginsInsertSettles(themed: seq<string>, theme: string, plugins: seq<string>)
    requires ThemeSettled(themed, theme)
    requires PluginNames(plugins)
    requires FindSetting(themed, PluginsPrefix) == None
    ensures ThemeSettled(ExtendPluginsSpec(themed, plugins).value, theme)
    ensures PluginsSettled(ExtendPluginsSpec(themed, plugins).value, plugins)
  {
    var extended := Insert(themed, InsertPos(themed), PluginsLine(plugins));
    assert ExtendPluginsSpec(themed, plugins) == Some(extended);
    InsertedPluginsSettle(themed, plugins);
    InsertedPluginsKeepTheme(themed, theme, plugins);
  }

  lemma InsertedPluginsSettle(themed: seq<string>, plugins: seq<string>)
    requires PluginNames(plugins)
    requires FindSetting(themed, PluginsPrefix) == None
    ensures PluginsSettled(Insert(themed, InsertPos(themed), PluginsLine(plugins)), plugins)
  {
    var k := InsertPos(themed);
    var line := PluginsLine(plugins);
    var extended := Insert(themed, k, line);
    PluginsLineFacts(plugins);
    ParsePluginsLine(plugins);
    FindSettingAbsent(themed, PluginsPrefix);
    FindSettingInserted(themed, k, line, PluginsPrefix);
    assert extended[k] == line;
  }

  lemma FindSettingAbsent(lines: seq<string>, prefix: string)
    requires FindSetting(lines, prefix) == None
    ensures forall j :: 0 <= j < |lines| ==> !IsSettingLine(lines[j], prefix)
  {
    var p := line => IsSettingLine(line, prefix);
    assert forall j :: 0 <= j < |lines| ==> !p(lines[j]);
  }

  lemma InsertedPluginsKeepTheme(themed: seq<string>, theme: string, plugins: seq<string>)
    requires ThemeSettled(themed, theme)
    ensures ThemeSettled(Insert(themed, InsertPos(themed), PluginsLine(plugins)), theme)
  {
    var t := FindSetting(themed, ThemePrefix).value;
    var k := InsertPos(themed);
    var line := PluginsLine(plugins);
    var extended := Insert(themed, k, line);
    ThemeLineFacts(theme);
    PluginsLineFacts(plugins);
    InsertPosIsInsertionPoint(themed);
    assert IsContentLine(themed[t]);
    FindSettingShifted(themed, k, line, ThemePrefix, t);
    assert extended[t + 1] == themed[t];
  }

  /** After the plugins step the plugins are settled and the theme stays
      settled. */
  lemma PluginsStepSettles(themed: seq<string>, theme: string, plugins: seq<string>)
    requires ThemeSettled(themed, theme)
    requires PluginNames(plugins)
    requires ExtendPluginsSpec(themed, plugins).Some?
    ensures ThemeSettled(ExtendPluginsSpec(themed, plugins).value, theme)
    ensures PluginsSettled(ExtendPluginsSpec(themed, plugins).value, plugins)
  {
    match FindSetting(themed, PluginsPrefix)
    case Some(q) => PluginsRewriteSettles(themed, theme, plugins, q);
    case None => PluginsInsertSettles(themed, theme, plugins);
  }

  /** One patch settles any lines it does not panic on. */
  lemma PatchSettles(lines: seq<string>, config: ZshrcConfig)
    requires PluginNames(config.plugins)
    requires PatchLines(lines, config).Some?
    ensures Settled(PatchLines(lines, config).value, config)
  {
    var themed := UpdateOrAdd(lines, ThemePrefix, ThemeLine(config.theme));
    ThemeStepSettles(lines, config.theme);
    PluginsStepSettles(themed, config.theme, config.plugins);
    var extended := ExtendPluginsSpec(themed, config.plugins).value;
    var patched := AddExports(extended, config.envVars);
    AddExportsKeepsPrefix(extended, config.envVars);
    FindSettingExtend(extended, patched, ThemePrefix);
    FindSettingExtend(extended, patched, PluginsPrefix);
    var t := FindSetting(extended, ThemePrefix).value;
    var q := FindSetting(extended, PluginsPrefix).value;
    assert patched[t] == patched[..|extended|][t];
    assert patched[q] == patched[..|extended|][q];
    AddExportsCovers(extended, config.envVars);
  }

  /** Patching the patched lines again changes nothing. */
  lemma PatchIdempotent(lines: seq<string>, config: ZshrcConfig)
    requires PluginNames(config.plugins)
    requires PatchLines(lines, config).Some?
    ensures PatchLines(PatchLines(lines, config).value, config) == PatchLines(lines, config)
  {
    PatchSettles(lines, config);
    SettledFixpoint(PatchLines(lines, config).value, config);
  }

  // ----- Where the lines land -----

  /** A content line inserted at the insertion point is the new insertion
      point. */
  lemma InsertionPointKept(lines: seq<string>, k: nat, line: string)
    requires IsInsertionPoint(lines, k) && IsContentLine(line)
    ensures IsInsertionPoint(Insert(lines, k, line), k)
  {
    var inserted := Insert(lines, k, line);
    assert inserted[k] == line;
    assert forall j :: 0 <= j < k ==> inserted[j] == lines[j];
  }

  /** The lines after an insertion, index by index. */
  lemma InsertAt(lines: seq<string>, k: nat, line: string, j: nat)
    requires k <= |lines| && j < |lines| + 1
    ensures Insert(lines, k, line)[j] == if j < k then lines[j] else if j == k then line else lines[j - 1]
  {
  }

  /** Inserting a line that does not set `prefix` adds no setting line. */
  lemma NoSettingKept(lines: seq<string>, k: nat, line: string, prefix: string)
    requires k <= |lines| && !IsSettingLine(line, prefix)
    requires forall j :: 0 <= j < |lines| ==> !IsSettingLine(lines[j], prefix)
    ensures forall j :: 0 <= j < |lines| + 1 ==> !IsSettingLine(Insert(lines, k, line)[j], prefix)
  {
    forall j | 0 <= j < |lines| + 1
      ensures !IsSettingLine(Insert(lines, k, line)[j], prefix)
    {
      InsertAt(lines, k, line, j);
    }
  }

  /** With neither a theme nor a plugins line, both are inserted at the
      insertion point, the plugins line first, and the exports follow at
      the end. */
  lemma PatchFresh(lines: seq<string>, config: ZshrcConfig, k: nat)
    requires forall j :: 0 <= j < |lines| ==> !IsSettingLine(lines[j], ThemePrefix)
    requires forall j :: 0 <= j < |lines| ==> !IsSettingLine(lines[j], PluginsPrefix)
    requires IsInsertionPoint(lines, k)
    ensures PatchLines(lines, config) == Some(AddExports(
      lines[..k] + [PluginsLine(config.plugins), ThemeLine(config.theme)] + lines[k..], config.envVars))
  {
    var theme := ThemeLine(config.theme);
    var plugins := PluginsLine(config.plugins);
    UpdateInsertsWhenAbsent(lines, ThemePrefix, theme, k);
    var themed := Insert(lines, k, theme);
    ThemeLineFacts(config.theme);
    InsertionPointKept(lines, k, theme);
    NoSettingKept(lines, k, theme, PluginsPrefix);
    ExtendInsertsWhenAbsent(themed, config.plugins, k);
    InsertTwice(lines, k, theme, plugins);
    var both := lines[..k] + [plugins, theme] + lines[k..];
    assert ExtendPluginsSpec(UpdateOrAdd(lines, ThemePrefix, theme), config.plugins) == Some(both);
  }

  lemma InsertTwice(lines: seq<string>, k: nat, first: string, second: string)
    requires k <= |lines|
    ensures Insert(Insert(lines, k, first), k, second) == lines[..k] + [second, first] + lines[k..]
  {
    var once := Insert(lines, k, first);
    assert once[..k] == lines[..k];
    assert once[k..] == [first] + lines[k..];
  }

  /** With a theme line and a plugins line, the first of each is rewritten
      in place, every other line is kept where it was, and the exports
      follow at the end. */
  lemma PatchExisting(lines: seq<string>, config: ZshrcConfig, i: nat, j: nat, existing: seq<string>)
    requires i < |lines| && IsSettingLine(lines[i], ThemePrefix)
    requires forall x :: 0 <= x < i ==> !IsSettingLine(lines[x], ThemePrefix)
    requires j < |lines| && IsSettingLine(lines[j], PluginsPrefix)
    requires forall x :: 0 <= x < j ==> !IsSettingLine(lines[x], PluginsPrefix)
    requires ParsePlugins(lines[j]) == Some(existing)
    ensures i != j
    ensures PatchLines(lines, config) == Some(AddExports(
      lines[i := ThemeLine(config.theme)][j := PluginsLine(MergePlugins(existing, config.plugins))],
      config.envVars))
  {
    var theme := ThemeLine(config.theme);
    SettingsDisjoint(lines[i]);
    UpdateReplacesFirst(lines, ThemePrefix, theme, i);
    ThemeLineFacts(config.theme);
    FindSettingFirst(lines, PluginsPrefix, j);
    FindSettingReplaced(lines, i, theme, PluginsPrefix, j);
    ExtendRewritesFirst(lines[i := theme], config.plugins, j, existing);
  }

  // ----- The text round trip -----

  /** No line holds a `\n` or ends in a `\r`: what `lines()` gives back
      unchanged once joined. */
  predicate CleanLines(lines: seq<string>) {
    forall i :: 0 <= i < |lines| ==> '\n' !in lines[i] && !EndsWithCR(lines[i])
  }

  predicate NoLineBreak(s: string) {
    '\n' !in s && '\r' !in s
  }

  /** A configuration whose theme, keys and values hold no line break. */
  predicate CleanConfig(config: ZshrcConfig) {
    NoLineBreak(config.theme)
    && forall i :: 0 <= i < |config.envVars| ==>
      NoLineBreak(config.envVars[i].0) && NoLineBreak(config.envVars[i].1)
  }

  /** The rendered text splits back into the same lines and ends in a
      newline. */
  lemma RenderRoundTrip(lines: seq<string>)
    requires lines != [] && CleanLines(lines)
    ensures Lines(Render(lines)) == lines
    ensures Render(lines)[|Render(lines)| - 1] == '\n'
  {
    LinesOfJoined(lines);
  }

  lemma CleanReplaced(lines: seq<string>, i: nat, line: string)
    requires CleanLines(lines) && CleanLines([line]) && i < |lines|
    ensures CleanLines(lines[i := line])
  {
    assert line == [line][0];
  }

  lemma CleanInserted(lines: seq<string>, k: nat, line: string)
    requires CleanLines(lines) && CleanLines([line]) && k <= |lines|
    ensures CleanLines(Insert(lines, k, line))
  {
    var inserted := Insert(lines, k, line);
    forall j | 0 <= j < |inserted|
      ensures '\n' !in inserted[j] && !EndsWithCR(inserted[j])
    {
      if j < k {
        assert inserted[j] == lines[j];
      } else if j == k {
        assert inserted[j] == [line][0];
      } else {
        assert inserted[j] == lines[j - 1];
      }
    }
  }

  lemma CleanThemeLine(theme: string)
    requires NoLineBreak(theme)
    ensures CleanLines([ThemeLine(theme)])
  {
    assert [ThemeLine(theme)][0] == ThemeLine(theme);
  }

  lemma CleanPluginsLine(plugins: seq<string>)
    requires PluginNames(plugins)
    ensures CleanLines([PluginsLine(plugins)])
  {
    var joined := Join(plugins, " ");
    if '\n' in joined {
      JoinChars(plugins, " ", '\n');
    }
    assert [PluginsLine(plugins)][0] == PluginsLine(plugins);
  }

  lemma CleanExportLine(key: string, value: string)
    requires NoLineBreak(key) && NoLineBreak(value)
    ensures CleanLines([ExportLine(key, value)])
  {
    var line := ExportLine(key, value);
    if value != [] {
      assert line[|line| - 1] == value[|value| - 1];
    }
    assert [line][0] == line;
  }

  lemma {:induction false} CleanAddExports(lines: seq<string>, envVars: seq<(string, string)>)
    requires CleanLines(lines)
    requires forall i :: 0 <= i < |envVars| ==> NoLineBreak(envVars[i].0) && NoLineBreak(envVars[i].1)
    ensures CleanLines(AddExports(lines, envVars))
    decreases |envVars|
  {
    if envVars != [] {
      var (key, value) := envVars[0];
      var next := AddExport(lines, key, value);
      if !HasExport(lines, key) {
        CleanExportLine(key, value);
        var added := ["", ExportComment, ExportLine(key, value)];
        assert next == lines + added;
        assert added[2] == [ExportLine(key, value)][0];
        assert CleanLines(added);
      }
      assert forall i :: 0 <= i < |envVars[1..]| ==> envVars[1..][i] == envVars[i + 1];
      CleanAddExports(next, envVars[1..]);
    }
  }

  lemma ThemeStepClean(lines: seq<string>, theme: string)
    requires CleanLines(lines) && NoLineBreak(theme)
    ensures CleanLines(UpdateOrAdd(lines, ThemePrefix, ThemeLine(theme)))
    ensures UpdateOrAdd(lines, ThemePrefix, ThemeLine(theme)) != []
  {
    CleanThemeLine(theme);
    match FindSetting(lines, ThemePrefix)
    case Some(i) => CleanReplaced(lines, i, ThemeLine(theme));
    case None => CleanInserted(lines, InsertPos(lines), ThemeLine(theme));
  }

  lemma PluginsStepClean(lines: seq<string>, plugins: seq<string>)
    requires CleanLines(lines) && lines != [] && PluginNames(plugins)
    requires ExtendPluginsSpec(lines, plugins).Some?
    ensures CleanLines(ExtendPluginsSpec(lines, plugins).value)
    ensures ExtendPluginsSpec(lines, plugins).value != []
  {
    match FindSetting(lines, PluginsPrefix)
    case Some(q) =>
      var existing := ParsePlugins(lines[q]).value;
      var merged := MergePlugins(existing, plugins);
      ParsePluginsTokens(lines[q]);
      MergeKeepsNames(existing, plugins);
      CleanPluginsLine(merged);
      CleanReplaced(lines, q, PluginsLine(merged));
    case None =>
      CleanPluginsLine(plugins);
      CleanInserted(lines, InsertPos(lines), PluginsLine(plugins));
  }

  /** The patch keeps lines clean and never yields an empty file. */
  lemma PatchKeepsClean(lines: seq<string>, config: ZshrcConfig)
    requires CleanLines(lines) && CleanConfig(config) && PluginNames(config.plugins)
    requires PatchLines(lines, config).Some?
    ensures CleanLines(PatchLines(lines, config).value)
    ensures PatchLines(lines, config).value != []
  {
    var themed := UpdateOrAdd(lines, ThemePrefix, ThemeLine(config.theme));
    ThemeStepClean(lines, config.theme);
    PluginsStepClean(themed, config.plugins);
    var extended := ExtendPluginsSpec(themed, config.plugins).value;
    CleanAddExports(extended, config.envVars);
    AddExportsKeepsPrefix(extended, config.envVars);
  }

  /** Patching the patched text again gives the same text, provided the
      configuration holds no line breaks, its plugin names are tokens
      without `)`, and no line of the original ends in a stray `\r`. */
  lemma ModifyContentIdempotent(content: string, config: ZshrcConfig)
    requires CleanConfig(config) && PluginNames(config.plugins)
    requires forall i :: 0 <= i < |Lines(content)| ==> !EndsWithCR(Lines(content)[i])
    requires ModifyContent(content, config).Some?
    ensures ModifyContent(ModifyContent(content, config).value, config) == ModifyContent(content, config)
  {
    var lines := Lines(content);
    var patched := PatchLines(lines, config).value;
    PatchKeepsClean(lines, config);
    RenderRoundTrip(patched);
    PatchIdempotent(lines, config);
  }
}
