/**
 * The path-based home shortener: a path that has `$HOME` as a leading
 * run of whole components is shown as `~/` and the rest of its text.
 *
 * `Path::strip_prefix` compares components, but what it returns is the
 * remaining text of the path itself, trimmed at both ends the way
 * `Components::as_path` trims it: separators and `.` pieces between the
 * remaining names are kept as written.
 */
module HomePath {
  import opened Wrappers
  import opened Text

  /** A path component: the root of an absolute path, or a name. */
  datatype Component = RootDir | Normal(name: string)

  predicate Rooted(path: string) {
    path != [] && path[0] == '/'
  }

  /** The path after its root, if it has one. */
  function Body(path: string): string {
    if Rooted(path) then path[1..] else path
  }

  /** The text starts with a separator, or with a `.` piece. */
  predicate LeadingSkip(s: string) {
    s != [] && (s[0] == '/' || (s[0] == '.' && (|s| == 1 || s[1] == '/')))
  }

  /** The text ends with a separator, or with a `.` piece. */
  predicate TrailingSkip(s: string) {
    s != [] && (s[|s| - 1] == '/' || (s[|s| - 1] == '.' && (|s| == 1 || s[|s| - 2] == '/')))
  }

  /** `trim_left` of `Components`: drops leading separators and `.`
      pieces. */
  function TrimLeft(s: string): (r: string)
    ensures |r| <= |s| && r == s[|s| - |r|..]
    ensures !LeadingSkip(r)
    decreases |s|
  {
    if LeadingSkip(s) then TrimLeft(s[1..]) else s
  }

  /** `trim_right` of `Components`: drops trailing separators and `.`
      pieces. */
  function TrimRight(s: string): (r: string)
    ensures |r| <= |s| && r == s[..|r|]
    ensures !TrailingSkip(r)
    decreases |s|
  {
    if TrailingSkip(s) then TrimRight(s[..|s| - 1]) else s
  }

  /** Where the first piece of `t` ends: at its first separator, or at
      its end. */
  function PieceEnd(t: string): (e: nat)
    ensures e <= |t| && '/' !in t[..e]
    ensures e < |t| ==> t[e] == '/'
  {
    match IndexOf(t, '/')
    case None => assert t[..|t|] == t; |t|
    case Some(i) => i
  }

  /** One step of `Components::next` past the root: the first name of the
      body, and the text after it; `None` when no name is left. */
  function Split(s: string): (r: Option<(string, string)>)
    ensures r.Some? ==> r.value.0 != [] && |r.value.1| < |s|
  {
    var t := TrimLeft(s);
    if t == [] then None
    else
      var e := PieceEnd(t);
      Some((t[..e], t[e..]))
  }

  /** The names of a path's body, in the order `Components::next` yields
      them: empty and `.` pieces are skipped. */
  function BodyNames(s: string): seq<string>
    decreases |s|
  {
    match Split(s)
    case None => []
    case Some((name, rest)) => [name] + BodyNames(rest)
  }

  function AsComponents(names: seq<string>): (r: seq<Component>)
    ensures |r| == |names|
    ensures forall k :: 0 <= k < |names| ==> r[k] == Normal(names[k])
  {
    seq(|names|, k requires 0 <= k < |names| => Normal(names[k]))
  }

  /** The components of a path with or without a root, and these names. */
  function ComponentsOf(rooted: bool, names: seq<string>): seq<Component> {
    (if rooted then [RootDir] else []) + AsComponents(names)
  }

  /** `Path::components` for a `/`-separated path. */
  function Components(path: string): seq<Component> {
    ComponentsOf(Rooted(path), BodyNames(Body(path)))
  }

  predicate IsPrefix<T(==)>(x: seq<T>, y: seq<T>) {
    |x| <= |y| && y[..|x|] == x
  }

  /** `strip_prefix`'s walk once past the root: the names in `names` are
      consumed one by one from the body `s`, and the text left over is
      trimmed at both ends. */
  function StripNames(s: string, names: seq<string>): Option<string>
    decreases |s|
  {
    if names == [] then Some(TrimRight(TrimLeft(s)))
    else
      match Split(s)
      case None => None
      case Some((name, rest)) =>
        if name == names[0] then StripNames(rest, names[1..]) else None
  }

  /** `Path::strip_prefix`. A base without any component leaves the
      iterator untouched, so only the end of the path is trimmed. */
  function StripPrefix(path: string, base: string): Option<string> {
    var names := BodyNames(Body(base));
    if !Rooted(base) && names == [] then
      Some(if Rooted(path) then "/" + TrimRight(path[1..]) else TrimRight(path))
    else if Rooted(base) != Rooted(path) then None
    else StripNames(Body(path), names)
  }

  /** `replace_home_with_tilde(&Path)`, with `$HOME` as `home` (`None` when
      it is not set). */
  function ReplaceHomeWithTilde(path: string, home: Option<string>): string {
    match home
    case None => path
    case Some(h) =>
      match StripPrefix(path, h)
      case Some(rest) => "~/" + rest
      case None => path
  }

  /** With `$HOME` unset the path comes back unchanged. */
  lemma UnsetUnchanged(path: string)
    ensures ReplaceHomeWithTilde(path, None) == path
  {
  }

  /** A sequence leads `[n] + y` exactly when it starts with `n` and its
      tail leads `y`. */
  lemma PrefixCons<T>(n: T, y: seq<T>, x: seq<T>)
    requires x != []
    ensures IsPrefix(x, [n] + y) <==> x[0] == n && IsPrefix(x[1..], y)
  {
    var ny := [n] + y;
    if IsPrefix(x, ny) {
      assert x[0] == ny[..|x|][0];
      assert y[..|x| - 1] == ny[1..|x|];
      assert x[1..] == ny[..|x|][1..];
    }
    if x[0] == n && IsPrefix(x[1..], y) {
      assert ny[..|x|] == [n] + y[..|x| - 1];
      assert x == [x[0]] + x[1..];
    }
  }

  /** The walk over the body succeeds exactly when the names lead the
      body's names. */
  lemma {:induction false} StripNamesIff(s: string, names: seq<string>)
    ensures StripNames(s, names).Some? <==> IsPrefix(names, BodyNames(s))
    decreases |s|
  {
    if names != [] {
      match Split(s)
      case None =>
      case Some((name, rest)) =>
        StripNamesIff(rest, names[1..]);
        PrefixCons(name, BodyNames(rest), names);
    }
  }

  lemma AsComponentsPrefix(x: seq<string>, y: seq<string>)
    ensures IsPrefix(AsComponents(x), AsComponents(y)) <==> IsPrefix(x, y)
  {
    var cx, cy := AsComponents(x), AsComponents(y);
    if IsPrefix(cx, cy) {
      forall k | 0 <= k < |x|
        ensures y[k] == x[k]
      {
        assert cy[k] == cy[..|x|][k];
      }
      assert y[..|x|] == x;
    }
    if IsPrefix(x, y) {
      forall k | 0 <= k < |x|
        ensures cy[k] == cx[k]
      {
        assert y[k] == y[..|x|][k];
      }
      assert cy[..|x|] == cx;
    }
  }

  /** When one component list leads another: a list without components
      leads every list, and otherwise both have the same root and the
      names lead. */
  lemma ComponentsOfPrefix(rh: bool, hn: seq<string>, rp: bool, pn: seq<string>)
    ensures IsPrefix(ComponentsOf(rh, hn), ComponentsOf(rp, pn)) <==>
      ((!rh && hn == []) || (rh == rp && IsPrefix(hn, pn)))
  {
    var ch, cp := AsComponents(hn), AsComponents(pn);
    AsComponentsPrefix(hn, pn);
    if !rh && hn == [] {
      assert ComponentsOf(rh, hn) == [];
    } else if rh && !rp {
      assert ComponentsOf(rh, hn)[0] == RootDir;
      assert ComponentsOf(rp, pn) == cp;
    } else if !rh && rp {
      assert ComponentsOf(rh, hn) == ch;
      assert ch[0] == Normal(hn[0]);
      assert ComponentsOf(rp, pn)[0] == RootDir;
    } else if rh {
      assert ComponentsOf(rh, hn) == [RootDir] + ch && ComponentsOf(rp, pn) == [RootDir] + cp;
      PrefixCons(RootDir, cp, [RootDir] + ch);
      assert ([RootDir] + ch)[1..] == ch;
    } else {
      assert ComponentsOf(rh, hn) == ch && ComponentsOf(rp, pn) == cp;
    }
  }

  /** The prefix test is on whole components: the path is shortened
      exactly when `$HOME`'s components lead the path's. */
  lemma StripPrefixIff(path: string, home: string)
    ensures StripPrefix(path, home).Some? <==> IsPrefix(Components(home), Components(path))
  {
    var hn := BodyNames(Body(home));
    var pn := BodyNames(Body(path));
    ComponentsOfPrefix(Rooted(home), hn, Rooted(path), pn);
    StripNamesIff(Body(path), hn);
  }

  /** When a component differs from `$HOME`'s, the path is returned
      unchanged. */
  lemma PartingComponents(path: string, home: string, k: nat)
    requires k < |Components(home)| && k < |Components(path)|
    requires Components(home)[k] != Components(path)[k]
    ensures ReplaceHomeWithTilde(path, Some(home)) == path
  {
    StripPrefixIff(path, home);
  }

  /** A name as it appears between slashes, other than `.`. */
  predicate PlainName(a: string) {
    a != [] && a != "." && '/' !in a
  }

  predicate PlainNames(names: seq<string>) {
    forall k :: 0 <= k < |names| ==> PlainName(names[k])
  }

  /** Text that starts with a plain name followed by a separator or by
      nothing yields that name first. */
  lemma SplitPlain(n: string, rest: string)
    requires PlainName(n) && (rest == [] || rest[0] == '/')
    ensures Split(n + rest) == Some((n, rest))
  {
    var s := n + rest;
    assert s[0] == n[0];
    if |n| == 1 {
      assert n == [n[0]];
      assert n[0] != '.';
    } else {
      assert s[1] == n[1];
    }
    assert !LeadingSkip(s);
    assert TrimLeft(s) == s;
    assert s[..|n|] == n && s[|n|..] == rest;
    if rest == [] {
      assert s == n;
    } else {
      IndexOfAt(s, '/', |n|);
    }
  }

  /** A leading separator is skipped. */
  lemma TrimLeftSlash(u: string)
    ensures TrimLeft("/" + u) == TrimLeft(u)
  {
    assert ("/" + u)[1..] == u;
  }

  lemma SplitSlash(u: string)
    ensures Split("/" + u) == Split(u)
  {
    TrimLeftSlash(u);
  }

  lemma SkipSlashNames(u: string)
    ensures BodyNames("/" + u) == BodyNames(u)
  {
    SplitSlash(u);
  }

  lemma SkipSlashStrip(u: string, names: seq<string>)
    requires names != []
    ensures StripNames("/" + u, names) == StripNames(u, names)
  {
    SplitSlash(u);
  }

  /** Joining two or more names puts the first one before a separator. */
  lemma JoinCons(names: seq<string>, tail: string)
    requires |names| >= 2
    ensures Join(names, "/") + tail == names[0] + ("/" + (Join(names[1..], "/") + tail))
  {
  }

  /** A plain name followed by a separator is read as that name. */
  lemma NamesAfterPlain(n: string, u: string)
    requires PlainName(n)
    ensures BodyNames(n + ("/" + u)) == [n] + BodyNames(u)
  {
    SplitPlain(n, "/" + u);
    SkipSlashNames(u);
  }

  lemma StripAfterPlain(n: string, u: string, names: seq<string>)
    requires PlainName(n) && names != []
    ensures StripNames(n + ("/" + u), [n] + names) == StripNames(u, names)
  {
    SplitPlain(n, "/" + u);
    SkipSlashStrip(u, names);
    assert ([n] + names)[1..] == names;
  }

  lemma NamesOfPlain(n: string, tail: string)
    requires PlainName(n) && (tail == [] || tail[0] == '/')
    ensures BodyNames(n + tail) == [n] + BodyNames(tail)
  {
    SplitPlain(n, tail);
  }

  lemma StripOfPlain(n: string, tail: string)
    requires PlainName(n) && (tail == [] || tail[0] == '/')
    ensures StripNames(n + tail, [n]) == Some(TrimRight(TrimLeft(tail)))
  {
    SplitPlain(n, tail);
    var names := [n];
    assert names[1..] == [];
    StripNoNames(tail);
  }

  lemma StripNoNames(s: string)
    ensures StripNames(s, []) == Some(TrimRight(TrimLeft(s)))
  {
  }

  /** One step of `BodyNamesJoined`: the first name is read, then the
      names of the rest. */
  lemma NamesJoinedStep(names: seq<string>, tail: string)
    requires |names| >= 2 && PlainName(names[0])
    requires BodyNames(Join(names[1..], "/") + tail) == names[1..] + BodyNames(tail)
    ensures BodyNames(Join(names, "/") + tail) == names + BodyNames(tail)
  {
    var u := Join(names[1..], "/") + tail;
    JoinCons(names, tail);
    NamesAfterPlain(names[0], u);
    ConsAppend(names, BodyNames(tail));
  }

  lemma ConsAppend<T>(x: seq<T>, y: seq<T>)
    requires x != []
    ensures x + y == [x[0]] + (x[1..] + y)
  {
  }

  lemma NamesJoinedOne(names: seq<string>, tail: string)
    requires |names| == 1 && PlainName(names[0]) && (tail == [] || tail[0] == '/')
    ensures BodyNames(Join(names, "/") + tail) == names + BodyNames(tail)
  {
    var n := names[0];
    assert names == [n];
    assert Join(names, "/") == n;
    NamesOfPlain(n, tail);
  }

  /** The names of plain names joined by `/` and followed by a separator
      or nothing. */
  lemma {:induction false} BodyNamesJoined(names: seq<string>, tail: string)
    requires PlainNames(names) && (tail == [] || tail[0] == '/')
    ensures BodyNames(Join(names, "/") + tail) == names + BodyNames(tail)
    decreases |names|
  {
    if names == [] {
      assert Join(names, "/") + tail == tail;
      assert names + BodyNames(tail) == BodyNames(tail);
    } else if |names| == 1 {
      NamesJoinedOne(names, tail);
    } else {
      BodyNamesJoined(names[1..], tail);
      NamesJoinedStep(names, tail);
    }
  }

  /** One step of `StripJoined`. */
  lemma StripJoinedStep(names: seq<string>, tail: string)
    requires |names| >= 2 && PlainName(names[0])
    requires StripNames(Join(names[1..], "/") + tail, names[1..]) == Some(TrimRight(TrimLeft(tail)))
    ensures StripNames(Join(names, "/") + tail, names) == Some(TrimRight(TrimLeft(tail)))
  {
    var u := Join(names[1..], "/") + tail;
    JoinCons(names, tail);
    assert names == [names[0]] + names[1..];
    StripAfterPlain(names[0], u, names[1..]);
  }

  /** Walking past plain names joined by `/` leaves what follows them. */
  lemma {:induction false} StripJoined(names: seq<string>, tail: string)
    requires PlainNames(names) && (tail == [] || tail[0] == '/')
    ensures StripNames(Join(names, "/") + tail, names) == Some(TrimRight(TrimLeft(tail)))
    decreases |names|
  {
    if names == [] {
      assert Join(names, "/") + tail == tail;
    } else if |names| == 1 {
      StripOfPlain(names[0], tail);
      assert Join(names, "/") == names[0];
      assert names == [names[0]];
    } else {
      StripJoined(names[1..], tail);
      StripJoinedStep(names, tail);
    }
  }

  /** The names of `$HOME` written as `/` and plain names joined by `/`. */
  lemma HomeNames(names: seq<string>)
    requires PlainNames(names)
    ensures BodyNames(Body("/" + Join(names, "/"))) == names
  {
    assert Body("/" + Join(names, "/")) == Join(names, "/") + "";
    BodyNamesJoined(names, "");
    assert BodyNames("") == [];
  }

  /** A path under `$HOME` is shown as `~/` and the text after `$HOME`,
      without its leading and trailing separators and `.` pieces. */
  lemma UnderHome(names: seq<string>, rest: string)
    requires PlainNames(names)
    ensures var home := "/" + Join(names, "/");
      ReplaceHomeWithTilde(home + "/" + rest, Some(home)) == "~/" + TrimRight(TrimLeft(rest))
  {
    var home := "/" + Join(names, "/");
    HomeNames(names);
    WalkUnderHome(names, rest);
    ShownRooted(home + "/" + rest, home, names, TrimRight(TrimLeft(rest)));
  }

  /** The walk over `$HOME`'s names leaves the text after `$HOME`. */
  lemma WalkUnderHome(names: seq<string>, rest: string)
    requires PlainNames(names)
    ensures StripNames(Body("/" + Join(names, "/") + "/" + rest), names) == Some(TrimRight(TrimLeft(rest)))
  {
    var joined := Join(names, "/");
    assert Body("/" + joined + "/" + rest) == joined + ("/" + rest);
    StripJoined(names, "/" + rest);
    TrimLeftSlash(rest);
  }

  /** For an absolute `$HOME` and path, what the walk over the names
      leaves is shown after `~/`. */
  lemma ShownRooted(path: string, home: string, names: seq<string>, r: string)
    requires Rooted(home) && Rooted(path) && BodyNames(Body(home)) == names
    requires StripNames(Body(path), names) == Some(r)
    ensures ReplaceHomeWithTilde(path, Some(home)) == "~/" + r
  {
  }

  /** Text that neither starts nor ends with a separator or a `.` is kept
      as it is, whatever separators and `.` pieces it holds inside. */
  lemma KeptRemainder(rest: string)
    requires rest != [] && rest[0] != '/' && rest[0] != '.'
    requires rest[|rest| - 1] != '/' && rest[|rest| - 1] != '.'
    ensures TrimRight(TrimLeft(rest)) == rest
  {
    assert TrimLeft(rest) == rest;
  }

  /** A remainder that neither starts nor ends with a separator or a `.`
      is shown exactly as written after `~/`: doubled separators and `.`
      pieces inside it are kept. */
  lemma InnerSeparatorsKept(names: seq<string>, rest: string)
    requires PlainNames(names)
    requires rest != [] && rest[0] != '/' && rest[0] != '.'
    requires rest[|rest| - 1] != '/' && rest[|rest| - 1] != '.'
    ensures var home := "/" + Join(names, "/");
      ReplaceHomeWithTilde(home + "/" + rest, Some(home)) == "~/" + rest
  {
    UnderHome(names, rest);
    KeptRemainder(rest);
  }

  /** With `$HOME=/Users/bob`, `/Users/bob/a//b` is shown as `~/a//b`. */
  lemma DoubledSeparatorShown(home: string, path: string)
    requires home == "/Users/bob" && path == "/Users/bob/a//b"
    ensures ReplaceHomeWithTilde(path, Some(home)) == "~/a//b"
  {
    var names := ["Users", "bob"];
    UsersBob();
    assert "/" + Join(names, "/") == home;
    assert home + "/" + "a//b" == path;
    assert "~/" + "a//b" == "~/a//b";
    InnerSeparatorsKept(names, "a//b");
  }

  /** With `$HOME=/Users/bob`, `/Users/bob/proj/./target` is shown as
      `~/proj/./target`. */
  lemma DotPieceShown(home: string, path: string)
    requires home == "/Users/bob" && path == "/Users/bob/proj/./target"
    ensures ReplaceHomeWithTilde(path, Some(home)) == "~/proj/./target"
  {
    var names := ["Users", "bob"];
    UsersBob();
    assert "/" + Join(names, "/") == home;
    assert home + "/" + "proj/./target" == path;
    assert "~/" + "proj/./target" == "~/proj/./target";
    InnerSeparatorsKept(names, "proj/./target");
  }

  lemma UsersBob()
    ensures PlainNames(["Users", "bob"]) && Join(["Users", "bob"], "/") == "Users/bob"
  {
    var names := ["Users", "bob"];
    assert names[1..] == ["bob"];
    assert PlainName("Users") && PlainName("bob");
  }

  /** Walking a body past all of its own names leaves nothing. */
  lemma {:induction false} StripOwnNames(s: string)
    ensures StripNames(s, BodyNames(s)) == Some([])
    decreases |s|
  {
    match Split(s)
    case None =>
    case Some((name, rest)) =>
      assert ([name] + BodyNames(rest))[1..] == BodyNames(rest);
      StripOwnNames(rest);
  }

  /** `$HOME` itself is shown as `~/`, when it is absolute or starts with
      a name. */
  lemma HomeItself(home: string)
    requires Rooted(home) || !LeadingSkip(home)
    ensures ReplaceHomeWithTilde(home, Some(home)) == "~/"
  {
    if !Rooted(home) && home != [] {
      assert TrimLeft(home) == home;
      assert Split(home).Some?;
    }
    StripOwnNames(Body(home));
  }

  /** An empty `$HOME` has no components, so it leads every path: the
      whole path is shown after `~/`. */
  lemma EmptyHomeLeadsAll(path: string)
    requires path != [] && path[|path| - 1] != '/' && path[|path| - 1] != '.'
    ensures ReplaceHomeWithTilde(path, Some("")) == "~/" + path
  {
    assert BodyNames("") == [];
    if Rooted(path) {
      assert TrimRight(path[1..]) == path[1..];
      assert path == "/" + path[1..];
    } else {
      assert TrimRight(path) == path;
    }
  }

  /** For an absolute `$HOME` and path, a walk over the names that fails
      leaves the path as it is. */
  lemma KeptRooted(path: string, home: string, names: seq<string>)
    requires Rooted(home) && Rooted(path) && BodyNames(Body(home)) == names
    requires StripNames(Body(path), names).None?
    ensures ReplaceHomeWithTilde(path, Some(home)) == path
  {
  }

  /** A name that extends `$HOME`'s last name is a different component:
      with `$HOME=/Users/bob`, `/Users/bobby` comes back unchanged. */
  lemma ExtendedNameNotShortened(a: string, b: string, suffix: string)
    requires PlainName(a) && PlainName(b) && suffix != [] && '/' !in suffix
    ensures var home := "/" + a + "/" + b;
      ReplaceHomeWithTilde(home + suffix, Some(home)) == home + suffix
  {
    var home := "/" + a + "/" + b;
    var path := home + suffix;
    ExtendedName(b, suffix);
    TwoJoined(a, b);
    assert home == "/" + Join([a, b], "/");
    HomeNames([a, b]);
    ExtendedWalk(a, b, suffix);
    KeptRooted(path, home, [a, b]);
  }

  lemma TwoJoined(a: string, b: string)
    ensures Join([a, b], "/") == a + "/" + b
  {
    assert [a, b][1..] == [b];
  }

  /** A plain name with more characters after it is a plain name. */
  lemma ExtendedName(b: string, suffix: string)
    requires PlainName(b) && suffix != [] && '/' !in suffix
    ensures PlainName(b + suffix) && b + suffix != b
  {
    assert |b + suffix| > 1;
    forall i | 0 <= i < |b + suffix|
      ensures (b + suffix)[i] != '/'
    {
      if i < |b| { assert b[i] in b; } else { assert suffix[i - |b|] in suffix; }
    }
  }

  /** The walk over `/a/b` meets `b` followed by more characters, and
      fails. */
  lemma ExtendedWalk(a: string, b: string, suffix: string)
    requires PlainName(a) && PlainName(b + suffix) && b + suffix != b
    ensures StripNames(Body("/" + a + "/" + b + suffix), [a, b]).None?
  {
    var ext := b + suffix;
    assert Body("/" + a + "/" + b + suffix) == a + ("/" + ext);
    StripAfterPlain(a, ext, [b]);
    assert [a] + [b] == [a, b];
    SplitPlain(ext, "");
    assert ext + "" == ext;
  }
}
