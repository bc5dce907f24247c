/**
 * The parts of Rust's `str` API that the reconciler relies on, stated over
 * `string` (a sequence of Unicode scalar values): `char::is_whitespace`,
 * `trim`, `starts_with`, `contains`, `find`, `lines`, `join`,
 * `split_whitespace`, `replace` and the decimal rendering of `usize`.
 */
module Text {
  import opened Wrappers

  /** `char::is_whitespace`, i.e. the Unicode White_Space property
      (also what `\s` matches in the `regex` crate). */
  predicate IsWhitespace(c: char) {
    var n := c as int;
    (0x09 <= n <= 0x0D) || n == 0x20 || n == 0x85 || n == 0xA0 || n == 0x1680
    || (0x2000 <= n <= 0x200A) || n == 0x2028 || n == 0x2029 || n == 0x202F
    || n == 0x205F || n == 0x3000
  }

  predicate NoWhitespace(s: string) {
    forall i :: 0 <= i < |s| ==> !IsWhitespace(s[i])
  }

  predicate StartsWith(s: string, prefix: string) {
    |prefix| <= |s| && s[..|prefix|] == prefix
  }

  /** `str::trim_start`: drops the leading whitespace. */
  function TrimStart(s: string): (r: string)
    ensures |r| <= |s| && r == s[|s| - |r|..]
    ensures r == [] || !IsWhitespace(r[0])
    ensures forall i :: 0 <= i < |s| - |r| ==> IsWhitespace(s[i])
    decreases |s|
  {
    if s != [] && IsWhitespace(s[0]) then TrimStart(s[1..]) else s
  }

  /** `str::trim_end`: drops the trailing whitespace. */
  function TrimEnd(s: string): (r: string)
    ensures |r| <= |s| && r == s[..|r|]
    ensures r == [] || !IsWhitespace(r[|r| - 1])
    ensures forall i :: |r| <= i < |s| ==> IsWhitespace(s[i])
    decreases |s|
  {
    if s != [] && IsWhitespace(s[|s| - 1]) then TrimEnd(s[..|s| - 1]) else s
  }

  /** `str::trim`. */
  function Trim(s: string): string {
    TrimEnd(TrimStart(s))
  }

  /** A string that starts with a non-whitespace character keeps that
      character, and everything up to its last non-whitespace character,
      under `trim`. */
  lemma TrimKeepsHead(a: string, b: string)
    requires a != [] && !IsWhitespace(a[0]) && !IsWhitespace(a[|a| - 1])
    ensures StartsWith(Trim(a + b), a)
  {
    TrimStartUnchanged(a + b);
    TrimEndKeepsHead(a, b);
  }

  lemma {:induction false} TrimEndKeepsHead(a: string, b: string)
    requires a != [] && !IsWhitespace(a[|a| - 1])
    ensures StartsWith(TrimEnd(a + b), a)
    decreases |b|
  {
    if b == [] {
      assert a + b == a;
    } else if IsWhitespace(b[|b| - 1]) {
      assert (a + b)[..|a + b| - 1] == a + b[..|b| - 1];
      TrimEndKeepsHead(a, b[..|b| - 1]);
    } else {
      assert (a + b)[..|a|] == a;
    }
  }

  lemma TrimUnchanged(s: string)
    requires s != [] && !IsWhitespace(s[0]) && !IsWhitespace(s[|s| - 1])
    ensures Trim(s) == s
  {
    TrimKeepsHead(s, []);
    assert s + [] == s;
  }

  /** `str::find` for a single character: the byte index of its first
      occurrence (the characters searched for here are ASCII, so byte and
      character indices agree up to that point). */
  function IndexOf(s: string, c: char): (r: Option<nat>)
    ensures r.Some? ==> r.value < |s| && s[r.value] == c && c !in s[..r.value]
    ensures r.None? ==> c !in s
    decreases |s|
  {
    if s == [] then None
    else if s[0] == c then Some(0)
    else match IndexOf(s[1..], c)
      case None => None
      case Some(k) =>
        assert s[..k + 1] == [s[0]] + s[1..][..k];
        Some(k + 1)
  }

  lemma IndexOfAt(s: string, c: char, k: nat)
    requires k < |s| && s[k] == c && c !in s[..k]
    ensures IndexOf(s, c) == Some(k)
  {
  }

  /** `str::contains` for a string pattern. */
  predicate Contains(s: string, pattern: string)
    decreases |s|
  {
    StartsWith(s, pattern) || (s != [] && Contains(s[1..], pattern))
  }

  /** `pattern` occurs in `s` starting at index `i`. */
  predicate OccursAt(s: string, pattern: string, i: int) {
    0 <= i && i + |pattern| <= |s| && s[i..i + |pattern|] == pattern
  }

  /** `Contains` finds the pattern at some position of `s`. */
  lemma {:induction false} ContainsIff(s: string, pattern: string)
    ensures Contains(s, pattern) <==> exists i :: OccursAt(s, pattern, i)
    decreases |s|
  {
    if StartsWith(s, pattern) {
      assert OccursAt(s, pattern, 0);
    } else if s != [] {
      ContainsIff(s[1..], pattern);
      if exists i :: OccursAt(s, pattern, i) {
        var i :| OccursAt(s, pattern, i);
        assert i != 0;
        assert s[1..][i - 1..i - 1 + |pattern|] == s[i..i + |pattern|];
        assert OccursAt(s[1..], pattern, i - 1);
      }
      if Contains(s[1..], pattern) {
        var i :| OccursAt(s[1..], pattern, i);
        assert s[1..][i..i + |pattern|] == s[i + 1..i + 1 + |pattern|];
        assert OccursAt(s, pattern, i + 1);
      }
    }
  }

  /** Removes one carriage return at the end, if any. */
  function StripCR(s: string): string {
    if s != [] && s[|s| - 1] == '\r' then s[..|s| - 1] else s
  }

  predicate EndsWithCR(s: string) {
    s != [] && s[|s| - 1] == '\r'
  }

  /** `str::lines`: split at `\n`, drop one `\r` right before each `\n`;
      a final line ending is optional and a bare final `\r` is kept. */
  function Lines(s: string): (r: seq<string>)
    ensures forall i :: 0 <= i < |r| ==> '\n' !in r[i]
    ensures s == [] <==> r == []
    decreases |s|
  {
    if s == [] then []
    else match IndexOf(s, '\n')
      case None => [s]
      case Some(i) =>
        var head := StripCR(s[..i]);
        assert forall j :: 0 <= j < |head| ==> head[j] == s[..i][j];
        [head] + Lines(s[i + 1..])
  }

  /** `[String]::join(sep)`. */
  function Join(parts: seq<string>, sep: string): string
    decreases |parts|
  {
    if parts == [] then []
    else if |parts| == 1 then parts[0]
    else parts[0] + sep + Join(parts[1..], sep)
  }

  /** Every character of a joined string comes from a part or from the
      separator. */
  lemma {:induction false} JoinChars(parts: seq<string>, sep: string, c: char)
    requires c in Join(parts, sep)
    ensures c in sep || exists k :: 0 <= k < |parts| && c in parts[k]
    decreases |parts|
  {
    if |parts| > 1 {
      var rest := Join(parts[1..], sep);
      assert Join(parts, sep) == parts[0] + sep + rest;
      if c !in parts[0] && c !in sep {
        assert c in rest;
        JoinChars(parts[1..], sep, c);
        var k :| 0 <= k < |parts[1..]| && c in parts[1..][k];
        assert c in parts[k + 1];
      }
    }
  }

  /** Reading back lines that were joined with `\n` and terminated by one
      `\n` gives the same lines, as long as no line holds a `\n` or ends in
      a `\r`. */
  lemma {:induction false} LinesOfJoined(ls: seq<string>)
    requires ls != []
    requires forall i :: 0 <= i < |ls| ==> '\n' !in ls[i] && !EndsWithCR(ls[i])
    ensures Lines(Join(ls, "\n") + "\n") == ls
    decreases |ls|
  {
    var l := ls[0];
    var s := Join(ls, "\n") + "\n";
    var rest := if |ls| == 1 then "" else Join(ls[1..], "\n") + "\n";
    assert s == l + "\n" + rest;
    IndexOfAt(s, '\n', |l|) by {
      assert s[..|l|] == l;
    }
    assert s[..|l|] == l;
    assert s[|l| + 1..] == rest;
    if |ls| > 1 {
      LinesOfJoined(ls[1..]);
    }
    assert Lines(s) == [l] + Lines(rest);
  }

  /** The length of the leading run of non-whitespace characters. */
  function WordLength(s: string): (n: nat)
    ensures n <= |s|
    ensures forall i :: 0 <= i < n ==> !IsWhitespace(s[i])
    ensures n < |s| ==> IsWhitespace(s[n])
    decreases |s|
  {
    if s == [] || IsWhitespace(s[0]) then 0 else 1 + WordLength(s[1..])
  }

  /** `str::split_whitespace`: the maximal runs of non-whitespace. */
  function SplitWhitespace(s: string): seq<string>
    decreases |s|
  {
    var t := TrimStart(s);
    if t == [] then []
    else
      var n := WordLength(t);
      [t[..n]] + SplitWhitespace(t[n..])
  }

  /** The tokens are non-empty and hold no whitespace. */
  lemma {:induction false} SplitWhitespaceWords(s: string)
    ensures Words(SplitWhitespace(s))
    decreases |s|
  {
    var t := TrimStart(s);
    if t != [] {
      var n := WordLength(t);
      SplitWhitespaceWords(t[n..]);
      FirstWordClean(t);
      WordsCons(t[..n], SplitWhitespace(t[n..]));
    }
  }

  lemma FirstWordClean(t: string)
    requires t != [] && !IsWhitespace(t[0])
    ensures WordLength(t) > 0 && NoWhitespace(t[..WordLength(t)])
  {
    var n := WordLength(t);
    forall i | 0 <= i < n
      ensures !IsWhitespace(t[..n][i])
    {
      assert t[..n][i] == t[i];
    }
  }

  lemma WordsCons(w: string, rest: seq<string>)
    requires w != [] && NoWhitespace(w) && Words(rest)
    ensures Words([w] + rest)
  {
    forall k | 1 <= k < |rest| + 1
      ensures ([w] + rest)[k] == rest[k - 1]
    {
    }
  }

  /** No token of `ws` holds `c`. */
  predicate TokensAvoid(ws: seq<string>, c: char) {
    forall k :: 0 <= k < |ws| ==> c !in ws[k]
  }

  lemma TokensAvoidCons(w: string, ws: seq<string>, c: char)
    requires c !in w && TokensAvoid(ws, c)
    ensures TokensAvoid([w] + ws, c)
  {
  }

  lemma PiecesAvoid(s: string, m: nat, c: char)
    requires m <= |s| && c !in s
    ensures c !in s[..m] && c !in s[m..]
  {
    assert s == s[..m] + s[m..];
  }

  /** A character absent from the input is absent from every token. */
  lemma {:induction false} SplitWhitespaceAvoids(s: string, c: char)
    requires c !in s
    ensures TokensAvoid(SplitWhitespace(s), c)
    decreases |s|
  {
    var t := TrimStart(s);
    if t != [] {
      var n := WordLength(t);
      PiecesAvoid(s, |s| - |t|, c);
      PiecesAvoid(t, n, c);
      SplitWhitespaceAvoids(t[n..], c);
      TokensAvoidCons(t[..n], SplitWhitespace(t[n..]), c);
    }
  }

  lemma TrimStartUnchanged(s: string)
    requires s == [] || !IsWhitespace(s[0])
    ensures TrimStart(s) == s
  {
  }

  lemma {:induction false} WordLengthOf(w: string, rest: string)
    requires NoWhitespace(w)
    requires rest == [] || IsWhitespace(rest[0])
    ensures WordLength(w + rest) == |w|
    decreases |w|
  {
    if w != [] {
      WordLengthOf(w[1..], rest);
      assert (w + rest)[1..] == w[1..] + rest;
    } else {
      assert w + rest == rest;
    }
  }

  /** A leading token followed by whitespace (or nothing) is split off. */
  lemma SplitWhitespaceStep(w: string, rest: string)
    requires w != [] && NoWhitespace(w)
    requires rest == [] || IsWhitespace(rest[0])
    ensures SplitWhitespace(w + rest) == [w] + SplitWhitespace(rest)
  {
    var s := w + rest;
    TrimStartUnchanged(s);
    WordLengthOf(w, rest);
    assert s[..|w|] == w;
    assert s[|w|..] == rest;
  }

  lemma SplitWhitespaceSingle(w: string)
    requires w != [] && NoWhitespace(w)
    ensures SplitWhitespace(w) == [w]
  {
    TrimStartUnchanged(w);
    WordLengthOf(w, []);
    assert w + [] == w;
    assert w[..|w|] == w;
    assert w[|w|..] == [];
  }

  lemma SplitWhitespaceSpace(rest: string)
    ensures SplitWhitespace(" " + rest) == SplitWhitespace(rest)
  {
    assert (" " + rest)[1..] == rest;
    assert TrimStart(" " + rest) == TrimStart(rest);
  }

  /** Tokens as `split_whitespace` yields them: non-empty, no whitespace. */
  predicate Words(words: seq<string>) {
    forall k :: 0 <= k < |words| ==> words[k] != [] && NoWhitespace(words[k])
  }

  /** Splitting a string of whitespace-free tokens joined by single spaces
      gives the tokens back. */
  lemma {:induction false} SplitJoined(words: seq<string>)
    requires Words(words)
    ensures SplitWhitespace(Join(words, " ")) == words
    decreases |words|
  {
    if |words| == 1 {
      SplitWhitespaceSingle(words[0]);
    } else if |words| > 1 {
      SplitJoined(words[1..]);
      SplitJoinedStep(words);
    }
  }

  /** One step of `SplitJoined`: the first token comes off, then the rest
      splits as before. */
  lemma SplitJoinedStep(words: seq<string>)
    requires |words| > 1 && words[0] != [] && NoWhitespace(words[0])
    requires SplitWhitespace(Join(words[1..], " ")) == words[1..]
    ensures SplitWhitespace(Join(words, " ")) == words
  {
    var rest := Join(words[1..], " ");
    JoinSpaceCons(words);
    SplitWordSpace(words[0], rest);
    assert [words[0]] + words[1..] == words;
  }

  /** A token, a space, and the rest: the token comes off and the space
      is skipped. */
  lemma SplitWordSpace(w: string, rest: string)
    requires w != [] && NoWhitespace(w)
    ensures SplitWhitespace(w + (" " + rest)) == [w] + SplitWhitespace(rest)
  {
    assert IsWhitespace((" " + rest)[0]);
    SplitWhitespaceStep(w, " " + rest);
    SplitWhitespaceSpace(rest);
  }

  lemma JoinSpaceCons(words: seq<string>)
    requires |words| > 1
    ensures Join(words, " ") == words[0] + (" " + Join(words[1..], " "))
  {
    assert words[0] + " " + Join(words[1..], " ") == words[0] + (" " + Join(words[1..], " "));
  }

  /** `str::replace(from, to)`: every non-overlapping occurrence of `from`,
      found left to right, is replaced by `to`; an empty `from` matches at
      every character boundary. */
  function Replace(s: string, from: string, to: string): string {
    if from == [] then to + ReplaceBoundaries(s, to) else ReplaceOccurrences(s, from, to)
  }

  /** The empty-pattern case: `to` after every character. */
  function ReplaceBoundaries(s: string, to: string): string
    decreases |s|
  {
    if s == [] then [] else [s[0]] + to + ReplaceBoundaries(s[1..], to)
  }

  function ReplaceOccurrences(s: string, from: string, to: string): string
    requires from != []
    decreases |s|
  {
    if |s| < |from| then s
    else if s[..|from|] == from then to + ReplaceOccurrences(s[|from|..], from, to)
    else [s[0]] + ReplaceOccurrences(s[1..], from, to)
  }

  /** A string without any occurrence of a non-empty pattern is unchanged. */
  lemma {:induction false} ReplaceAbsent(s: string, from: string, to: string)
    requires from != [] && !Contains(s, from)
    ensures Replace(s, from, to) == s
    decreases |s|
  {
    if |s| >= |from| {
      assert s[..|from|] != from;
      ReplaceAbsent(s[1..], from, to);
      assert s == [s[0]] + s[1..];
    }
  }

  /** Replacing a one-character pattern: the result is longer by
      `|to| - 1` for every occurrence. */
  lemma {:induction false} ReplaceCharLength(s: string, c: char, to: string)
    ensures |Replace(s, [c], to)| == |s| + Count(s, c) * (|to| - 1)
    decreases |s|
  {
    if s != [] {
      ReplaceCharLength(s[1..], c, to);
      ReplaceCharStep(s, c, to);
      var n := Count(s[1..], c);
      var k := |to| - 1;
      if s[0] == c {
        assert Count(s, c) == 1 + n;
        MulSucc(n, k);
      } else {
        assert Count(s, c) == n;
      }
    }
  }

  lemma MulSucc(n: int, k: int)
    ensures (1 + n) * k == k + n * k
  {
  }

  /** Replacing a one-character pattern, one character at a time. */
  lemma ReplaceCharStep(s: string, c: char, to: string)
    requires s != []
    ensures |Replace(s, [c], to)| == (if s[0] == c then |to| else 1) + |Replace(s[1..], [c], to)|
  {
    assert s[..1] == [s[0]];
  }

  /** The number of occurrences of a character. */
  function Count(s: string, c: char): (n: nat)
    ensures n <= |s|
    ensures n == 0 <==> c !in s
    decreases |s|
  {
    if s == [] then 0
    else
      assert c in s <==> s[0] == c || c in s[1..];
      (if s[0] == c then 1 else 0) + Count(s[1..], c)
  }

  /** Undoing a replacement of `from` by a character that the original
      string does not contain restores the original string. */
  lemma {:induction false} ReplaceRoundTrip(s: string, from: string, mark: char)
    requires from != [] && mark !in s
    ensures Replace(Replace(s, from, [mark]), [mark], from) == s
    decreases |s|
  {
    var once := Replace(s, from, [mark]);
    if |s| < |from| {
      ReplaceAbsentChar(s, mark, from);
    } else if s[..|from|] == from {
      var rest := s[|from|..];
      assert once == [mark] + Replace(rest, from, [mark]);
      ReplaceRoundTrip(rest, from, mark);
      assert once[..1] == [mark];
      assert once[1..] == Replace(rest, from, [mark]);
      assert s == from + rest;
    } else {
      var rest := s[1..];
      assert once == [s[0]] + Replace(rest, from, [mark]);
      ReplaceRoundTrip(rest, from, mark);
      assert once[..1] != [mark];
      assert once[1..] == Replace(rest, from, [mark]);
      assert s == [s[0]] + rest;
    }
  }

  lemma ReplaceAbsentChar(s: string, c: char, to: string)
    requires c !in s
    ensures Replace(s, [c], to) == s
  {
    if Contains(s, [c]) {
      ContainsCharIn(s, c);
    }
    ReplaceAbsent(s, [c], to);
  }

  lemma {:induction false} ContainsCharIn(s: string, c: char)
    requires Contains(s, [c])
    ensures c in s
    decreases |s|
  {
    if StartsWith(s, [c]) {
      assert s[0] == c;
    } else {
      ContainsCharIn(s[1..], c);
    }
  }

  /** The ASCII digit of a value below ten. */
  function Digit(d: nat): char
    requires d < 10
  {
    "0123456789"[d]
  }

  /** `usize`'s `Display`: decimal digits, no sign, no leading zero. */
  function NatToString(n: nat): (r: string)
    ensures r != [] && (|r| > 1 ==> r[0] != '0')
    ensures forall i :: 0 <= i < |r| ==> '0' <= r[i] <= '9'
    decreases n
  {
    if n < 10 then [Digit(n)] else NatToString(n / 10) + [Digit(n % 10)]
  }

  /** Reads decimal digits back. */
  function DecimalValue(s: string): nat
    requires forall i :: 0 <= i < |s| ==> '0' <= s[i] <= '9'
    decreases |s|
  {
    if s == [] then 0 else 10 * DecimalValue(s[..|s| - 1]) + (s[|s| - 1] as int - '0' as int)
  }

  lemma {:induction false} DecimalRoundTrip(n: nat)
    ensures DecimalValue(NatToString(n)) == n
    decreases n
  {
    if n >= 10 {
      DecimalRoundTrip(n / 10);
      var s := NatToString(n);
      assert s[..|s| - 1] == NatToString(n / 10);
    }
  }
}
