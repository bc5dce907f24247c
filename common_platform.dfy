/**
 * The platform the program runs on, its display name, and the Mac serial
 * number read from `ioreg -l`.
 */
module CommonPlatform {
  import opened Wrappers
  import opened Text
  import opened Errors

  datatype Platform = MacOS | Linux | Windows

  /** `Platform::detect`, with the target OS name as `os`. */
  function Detect(os: string): Platform {
    if os == "macos" then MacOS
    else if os == "linux" then Linux
    else if os == "windows" then Windows
    else Linux
  }

  /** `Platform::as_str`. */
  function AsStr(p: Platform): string {
    match p
    case MacOS => "macOS"
    case Linux => "Linux"
    case Windows => "Windows"
  }

  /** `Display for Platform`: exactly the name `as_str` gives. */
  function Display(p: Platform): string {
    AsStr(p)
  }

  /** `detect` recognises the three OS names and falls back to Linux for
      every other one. */
  lemma DetectMaps(os: string)
    ensures Detect(os) == MacOS <==> os == "macos"
    ensures Detect(os) == Windows <==> os == "windows"
    ensures Detect(os) == Linux <==> os != "macos" && os != "windows"
  {
  }

  /** The display names tell the platforms apart. */
  lemma AsStrDistinct(p: Platform, q: Platform)
    ensures AsStr(p) == AsStr(q) <==> p == q
  {
    if p != q {
      assert AsStr(p)[0] != AsStr(q)[0] || |AsStr(p)| != |AsStr(q)|;
    }
  }

  /** The key of the serial number in `ioreg -l` output, quotes included. */
  const SerialKey := "\"IOPlatformSerialNumber\""

  const IoregInvocation := Invocation("ioreg", ["-l"])

  /** A quoted run of at least one character other than `"`, at the
      start of `t`: `"([^"]+)"`. */
  function QuotedValue(t: string): (r: Option<string>)
    ensures r.Some? ==> r.value != [] && '"' !in r.value
  {
    if t == [] || t[0] != '"' then None
    else
      var body := t[1..];
      match IndexOf(body, '"')
      case None => None
      case Some(k) =>
        if k == 0 then None
        else
          assert '"' !in body[..k] by {
            forall j | 0 <= j < k
              ensures body[..k][j] != '"'
            {
            }
          }
          Some(body[..k])
  }

  /** What follows the key: `\s*=\s*` and the quoted value. */
  function AfterKey(t: string): (r: Option<string>)
    ensures r.Some? ==> r.value != [] && '"' !in r.value
  {
    var u := TrimStart(t);
    if u == [] || u[0] != '=' then None else QuotedValue(TrimStart(u[1..]))
  }

  /** The capture of `KEY\s*=\s*"([^"]+)"` for a match starting at `i`:
      the key, optional whitespace, `=`, optional whitespace, then a quoted
      run of at least one character other than `"`. */
  function MatchAt(s: string, key: string, i: nat): (r: Option<string>)
    requires i <= |s|
    ensures r.Some? ==> StartsWith(s[i..], key)
    ensures r.Some? ==> r.value != [] && '"' !in r.value
  {
    if !StartsWith(s[i..], key) then None else AfterKey(s[i + |key|..])
  }

  /** The capture of the leftmost match at or after `i`. */
  function FirstMatch(s: string, key: string, i: nat): (r: Option<string>)
    requires i <= |s|
    ensures r.Some? ==> r.value != [] && '"' !in r.value
    decreases |s| - i
  {
    if MatchAt(s, key, i).Some? then MatchAt(s, key, i)
    else if i == |s| then None
    else FirstMatch(s, key, i + 1)
  }

  /** `re.captures(stdout).and_then(|cap| cap.get(1))` for the pattern
      built on `key`. */
  function ExtractSerial(s: string, key: string): Option<string> {
    FirstMatch(s, key, 0)
  }

  /** `get_serial_number`, with the process runner as `run`, using the
      intended pattern. */
  function SerialNumber(p: Platform, run: Invocation -> CommandOutcome): Option<string> {
    match p
    case MacOS =>
      (match run(IoregInvocation)
       case Success(stdout) => ExtractSerial(stdout, SerialKey)
       case _ => None)
    case _ => None
  }

  /** The key as the pattern literal in the source spells it: a second
      quote follows the closing one. */
  const WrittenSerialKey := SerialKey + "\""

  /** `get_serial_number` with the pattern as written. */
  function SerialNumberAsWritten(p: Platform, run: Invocation -> CommandOutcome): Option<string> {
    match p
    case MacOS =>
      (match run(IoregInvocation)
       case Success(stdout) => ExtractSerial(stdout, WrittenSerialKey)
       case _ => None)
    case _ => None
  }

  /** Linux and Windows have no serial number, whatever any command would
      print. */
  lemma NoSerialElsewhere(p: Platform, run: Invocation -> CommandOutcome)
    requires p != MacOS
    ensures SerialNumber(p, run).None?
  {
  }

  /** On a Mac, a failed `ioreg` call gives no serial number. */
  lemma NoSerialWithoutIoreg(run: Invocation -> CommandOutcome)
    requires !run(IoregInvocation).Success?
    ensures SerialNumber(MacOS, run).None?
  {
  }

  /** A serial number, when there is one, is non-empty and holds no `"`. */
  lemma SerialShape(p: Platform, run: Invocation -> CommandOutcome)
    requires SerialNumber(p, run).Some?
    ensures SerialNumber(p, run).value != [] && '"' !in SerialNumber(p, run).value
  {
  }

  /** All characters of `w` are whitespace. */
  predicate AllWhitespace(w: string) {
    forall k :: 0 <= k < |w| ==> IsWhitespace(w[k])
  }

  lemma {:induction false} TrimStartSkips(w: string, t: string)
    requires AllWhitespace(w)
    requires t != [] && !IsWhitespace(t[0])
    ensures TrimStart(w + t) == t
    decreases |w|
  {
    if w != [] {
      assert (w + t)[1..] == w[1..] + t;
      TrimStartSkips(w[1..], t);
    } else {
      assert w + t == t;
    }
  }

  /** `"serial"` and whatever follows. */
  function Quoted(serial: string, rest: string): string {
    "\"" + serial + "\"" + rest
  }

  /** What follows the key on its line: `<ws> = <ws> "serial"`. */
  function Assignment(ws1: string, ws2: string, serial: string, rest: string): string {
    ws1 + ("=" + (ws2 + Quoted(serial, rest)))
  }

  lemma QuotedValueOf(serial: string, rest: string)
    requires serial != [] && '"' !in serial
    ensures QuotedValue(Quoted(serial, rest)) == Some(serial)
  {
    var t := Quoted(serial, rest);
    var body := serial + "\"" + rest;
    assert t[1..] == body;
    IndexOfAt(body, '"', |serial|);
    assert body[..|serial|] == serial;
  }

  lemma AfterKeyOf(ws1: string, ws2: string, serial: string, rest: string)
    requires AllWhitespace(ws1) && AllWhitespace(ws2)
    requires serial != [] && '"' !in serial
    ensures AfterKey(Assignment(ws1, ws2, serial, rest)) == Some(serial)
  {
    var quoted := Quoted(serial, rest);
    QuotedValueOf(serial, rest);
    var tail := "=" + (ws2 + quoted);
    TrimStartSkips(ws1, tail);
    assert tail[1..] == ws2 + quoted;
    TrimStartSkips(ws2, quoted);
  }

  /** A line `KEY <ws> = <ws> "serial"` is read back, whatever follows it. */
  lemma MatchesLine(key: string, ws1: string, ws2: string, serial: string, rest: string)
    requires AllWhitespace(ws1) && AllWhitespace(ws2)
    requires serial != [] && '"' !in serial
    ensures MatchAt(key + Assignment(ws1, ws2, serial, rest), key, 0) == Some(serial)
  {
    var tail := Assignment(ws1, ws2, serial, rest);
    var s := key + tail;
    assert s[0..][..|key|] == key;
    assert s[|key|..] == tail;
    AfterKeyOf(ws1, ws2, serial, rest);
  }

  /** No match of the pattern starts before position `n`. */
  predicate NoMatchBefore(s: string, key: string, n: nat)
    requires n <= |s|
  {
    forall j :: 0 <= j < n ==> MatchAt(s, key, j).None?
  }

  /** Positions where no match starts are passed over: the leftmost match
      from `i` is the leftmost match from `n`. */
  lemma {:induction false} SkipNoMatch(s: string, key: string, i: nat, n: nat)
    requires i <= n <= |s| && NoMatchBefore(s, key, n)
    ensures FirstMatch(s, key, i) == FirstMatch(s, key, n)
    decreases n - i
  {
    if i < n {
      assert MatchAt(s, key, i).None?;
      SkipNoMatch(s, key, i + 1, n);
    }
  }

  /** The intended pattern reads the serial number back from the first
      line of the output that holds it, whatever text comes before that
      line as long as no match starts in it. */
  lemma ExtractFromOutput(prefix: string, ws1: string, ws2: string, serial: string, rest: string)
    requires NoMatchBefore(prefix + (SerialKey + Assignment(ws1, ws2, serial, rest)), SerialKey, |prefix|)
    requires AllWhitespace(ws1) && AllWhitespace(ws2)
    requires serial != [] && '"' !in serial
    ensures ExtractSerial(prefix + (SerialKey + Assignment(ws1, ws2, serial, rest)), SerialKey) == Some(serial)
  {
    var line := SerialKey + Assignment(ws1, ws2, serial, rest);
    var s := prefix + line;
    SkipNoMatch(s, SerialKey, 0, |prefix|);
    MatchesLine(SerialKey, ws1, ws2, serial, rest);
    MatchAtShift(prefix, line, SerialKey);
  }

  /** Text without a `"` holds no match, since the key starts with `"`. */
  lemma QuoteFreeNoMatch(prefix: string, line: string)
    requires '"' !in prefix
    ensures NoMatchBefore(prefix + line, SerialKey, |prefix|)
  {
    var s := prefix + line;
    forall j | 0 <= j < |prefix|
      ensures MatchAt(s, SerialKey, j).None?
    {
      assert s[j] == prefix[j];
      NoMatchAtNonQuote(s, j);
    }
  }

  lemma NoMatchAtNonQuote(s: string, j: nat)
    requires j < |s| && s[j] != '"'
    ensures MatchAt(s, SerialKey, j).None?
  {
    assert SerialKey[0] == '"';
    assert s[j..][0] == s[j];
  }

  /** Matching at the start of `line` is matching after `prefix` in
      `prefix + line`. */
  lemma MatchAtShift(prefix: string, line: string, key: string)
    ensures MatchAt(prefix + line, key, |prefix|) == MatchAt(line, key, 0)
  {
    var s := prefix + line;
    assert s[|prefix|..] == line;
    assert line[0..] == line;
    if StartsWith(line, key) {
      assert s[|prefix| + |key|..] == line[|key|..];
    }
  }

  /** Two quotes in a row. */
  predicate HasDoubleQuote(s: string) {
    exists j :: 0 <= j < |s| - 1 && s[j] == '"' && s[j + 1] == '"'
  }

  /** The pattern as written needs `""` right after the key's name, so on
      output without two quotes in a row it never matches. */
  lemma WrittenNeedsDoubleQuote(s: string)
    requires !HasDoubleQuote(s)
    ensures ExtractSerial(s, WrittenSerialKey).None?
  {
    forall j | 0 <= j <= |s|
      ensures MatchAt(s, WrittenSerialKey, j).None?
    {
      if StartsWith(s[j..], WrittenSerialKey) {
        WrittenKeyQuotes(s, j);
      }
    }
    NoMatchFrom(s, WrittenSerialKey, 0);
  }

  /** Where the key as written occurs, two quotes follow each other. */
  lemma WrittenKeyQuotes(s: string, j: nat)
    requires j <= |s| && StartsWith(s[j..], WrittenSerialKey)
    ensures j + 24 < |s| && s[j + 23] == '"' && s[j + 24] == '"'
  {
    assert |SerialKey| == 24 && SerialKey[23] == '"';
    assert s[j..][23] == WrittenSerialKey[23];
    assert s[j..][24] == WrittenSerialKey[24];
  }

  lemma {:induction false} NoMatchFrom(s: string, key: string, i: nat)
    requires i <= |s|
    requires forall j :: i <= j <= |s| ==> MatchAt(s, key, j).None?
    ensures FirstMatch(s, key, i).None?
    decreases |s| - i
  {
    if i < |s| {
      NoMatchFrom(s, key, i + 1);
    }
  }

  lemma NoDoubleQuoteJoin(a: string, b: string)
    requires !HasDoubleQuote(a) && !HasDoubleQuote(b)
    requires a == [] || b == [] || a[|a| - 1] != '"' || b[0] != '"'
    ensures !HasDoubleQuote(a + b)
  {
    var s := a + b;
    forall j | 0 <= j < |s| - 1 && s[j] == '"'
      ensures s[j + 1] != '"'
    {
      if j + 1 < |a| {
        assert s[j] == a[j] && s[j + 1] == a[j + 1];
      } else if j >= |a| {
        assert s[j] == b[j - |a|] && s[j + 1] == b[j - |a| + 1];
      } else {
        assert s[j] == a[|a| - 1] && s[j + 1] == b[0];
      }
    }
  }

  lemma NoQuoteNoDoubleQuote(s: string)
    requires '"' !in s
    ensures !HasDoubleQuote(s)
  {
  }

  /** The line `ioreg` prints for the serial number has no two quotes in
      a row. */
  lemma SerialLineQuotes(serial: string)
    requires serial != [] && '"' !in serial
    ensures !HasDoubleQuote(SerialKey + Assignment(" ", " ", serial, ""))
  {
    assert !HasDoubleQuote(SerialKey) by {
      forall j | 0 <= j < |SerialKey| - 1 && SerialKey[j] == '"'
        ensures SerialKey[j + 1] != '"'
      {
      }
    }
    NoQuoteNoDoubleQuote(serial);
    NoDoubleQuoteJoin("\"", serial);
    NoDoubleQuoteJoin("\"" + serial, "\"");
    NoDoubleQuoteJoin("\"" + serial + "\"", "");
    var q := Quoted(serial, "");
    NoDoubleQuoteJoin(" ", q);
    NoDoubleQuoteJoin("=", " " + q);
    NoDoubleQuoteJoin(" ", "=" + (" " + q));
    NoDoubleQuoteJoin(SerialKey, Assignment(" ", " ", serial, ""));
  }

  /** `ioreg` prints the serial as `"IOPlatformSerialNumber" = "…"`: the
      pattern as written finds nothing there, the intended one finds the
      serial. */
  lemma WrittenPatternMissesSerial(serial: string)
    requires serial != [] && '"' !in serial
    ensures var line := SerialKey + Assignment(" ", " ", serial, "");
      && ExtractSerial(line, WrittenSerialKey).None?
      && ExtractSerial(line, SerialKey) == Some(serial)
  {
    var line := SerialKey + Assignment(" ", " ", serial, "");
    assert "" + line == line;
    ExtractFromOutput("", " ", " ", serial, "");
    SerialLineQuotes(serial);
    WrittenNeedsDoubleQuote(line);
  }
}
