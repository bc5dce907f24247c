/**
 * The string-based home shortener: every occurrence of `$HOME` in the
 * string becomes `~`, with no regard for path boundaries.
 */
module HomeString {
  import opened Text

  /** The value of an environment variable as the process sees it. */
  datatype EnvValue = Unset | NotUnicode | Value(text: string)

  /** `replace_home_with_tilde(String)`, with `$HOME` as `home`. */
  function ReplaceHomeWithTilde(path: string, home: EnvValue): string {
    match home
    case Value(h) => Replace(path, h, "~")
    case _ => path
  }

  /** Without a readable `$HOME` the string comes back unchanged. */
  lemma UnreadableHomeUnchanged(path: string, home: EnvValue)
    requires !home.Value?
    ensures ReplaceHomeWithTilde(path, home) == path
  {
  }

  /** A string in which `$HOME` does not occur comes back unchanged. */
  lemma AbsentHomeUnchanged(path: string, home: string)
    requires home != [] && !Contains(path, home)
    ensures ReplaceHomeWithTilde(path, Value(home)) == path
  {
    ReplaceAbsent(path, home, "~");
  }

  /** Every occurrence is replaced, so in a string that held no `~` each
      `~` of the result stands for one occurrence of `$HOME`: putting
      `$HOME` back restores the string. */
  lemma ExpandRestores(path: string, home: string)
    requires home != [] && '~' !in path
    ensures Replace(ReplaceHomeWithTilde(path, Value(home)), "~", home) == path
  {
    ReplaceRoundTrip(path, home, '~');
  }

  /** No boundary check: `$HOME=/Users/bob` turns `/Users/bobby` into
      `~by`. */
  lemma NoBoundaryCheck()
    ensures ReplaceHomeWithTilde("/Users/bobby", Value("/Users/bob")) == "~by"
  {
    var s := "/Users/bobby";
    var h := "/Users/bob";
    assert s[..|h|] == h;
    var rest := s[|h|..];
    assert rest == "by";
    assert ReplaceOccurrences(rest, h, "~") == rest;
  }

  /** An empty `$HOME` matches at every character boundary: a `~` before,
      between and after the characters, which keep their order. */
  lemma {:induction false} EmptyHomeEverywhere(path: string)
    ensures |ReplaceHomeWithTilde(path, Value(""))| == 2 * |path| + 1
    ensures forall i :: 0 <= i <= |path| ==> ReplaceHomeWithTilde(path, Value(""))[2 * i] == '~'
    ensures forall i :: 0 <= i < |path| ==> ReplaceHomeWithTilde(path, Value(""))[2 * i + 1] == path[i]
  {
    BoundariesShape(path);
    var r := ReplaceHomeWithTilde(path, Value(""));
    var b := ReplaceBoundaries(path, "~");
    assert r == "~" + b;
    forall i | 1 <= i <= |path|
      ensures r[2 * i] == '~'
    {
      assert r[2 * i] == b[2 * (i - 1) + 1];
    }
    forall i | 0 <= i < |path|
      ensures r[2 * i + 1] == path[i]
    {
      assert r[2 * i + 1] == b[2 * i];
    }
  }

  lemma {:induction false} BoundariesShape(s: string)
    ensures |ReplaceBoundaries(s, "~")| == 2 * |s|
    ensures forall i :: 0 <= i < |s| ==> ReplaceBoundaries(s, "~")[2 * i] == s[i]
    ensures forall i :: 0 <= i < |s| ==> ReplaceBoundaries(s, "~")[2 * i + 1] == '~'
    decreases |s|
  {
    if s != [] {
      BoundariesShape(s[1..]);
      var r := ReplaceBoundaries(s, "~");
      var tail := ReplaceBoundaries(s[1..], "~");
      assert r == [s[0], '~'] + tail;
      forall i | 1 <= i < |s|
        ensures r[2 * i] == s[i] && r[2 * i + 1] == '~'
      {
        assert r[2 * i] == tail[2 * (i - 1)];
        assert r[2 * i + 1] == tail[2 * (i - 1) + 1];
      }
    }
  }
}
