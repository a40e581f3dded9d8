/**
 * Shared vocabulary of the model: optional values and raised Python
 * exceptions, the abstract regular-expression engine, and the handful of
 * Python string operations (`re.split`, `splitlines`, `strip`, slicing,
 * `int`, `str`) that the parsers of the plugin are built from.
 *
 * Byte strings and text strings are both `string`: one character stands
 * for one byte, and UTF-8 decoding is the identity. This is exact for
 * ASCII input; decoding errors are not modelled, and the bytes of a
 * multi-byte character are classified one by one.
 */
module Common {

  datatype Option<T> = None | Some(value: T)

  /** The outcome of a Python call: a value, or the exception it raises. */
  datatype Result<T> = Ok(value: T) | Raise(exception: string)

  /** What `re.search` reports: the span of the first match and the groups
      `group(1)`, `group(2)`, ... (so `group(i)` is `groups[i - 1]`). */
  datatype Match = Match(start: nat, end: nat, groups: seq<string>)

  /** A regular-expression engine: (pattern source, text) to the first match,
      like `re.compile(pattern).search(text)`. Patterns are kept as their
      source text, so two transitions compare equal exactly when Python's
      compiled patterns do. */
  type Engine = (string, string) -> Option<Match>

  /** `re.search` through the engine. A real engine reports spans inside the
      text; an answer outside it is read as no match. */
  function Search(engine: Engine, pattern: string, text: string): (r: Option<Match>)
    ensures r.Some? ==> r.value.start <= r.value.end <= |text|
    ensures r.Some? ==> engine(pattern, text) == r
  {
    match engine(pattern, text)
    case Some(m) => if m.start <= m.end <= |text| then Some(m) else None
    case None => None
  }

  /** The first index at or after k where `pattern` occurs in `text`. */
  function Find(pattern: string, text: string, k: nat): (r: Option<nat>)
    ensures r.Some? ==> k <= r.value && r.value + |pattern| <= |text|
    ensures r.Some? ==> text[r.value..r.value + |pattern|] == pattern
    ensures r.Some? ==> forall x :: k <= x < r.value ==> !(pattern <= text[x..])
    decreases |text| - k
  {
    if k + |pattern| > |text| then None
    else if pattern <= text[k..] then Some(k)
    else Find(pattern, text, k + 1)
  }

  /** A pattern whose first character does not occur in the text is not found. */
  lemma {:induction false} FindAbsent(pattern: string, text: string, k: nat)
    requires |pattern| > 0 && pattern[0] !in text
    ensures Find(pattern, text, k) == None
    decreases |text| - k
  {
    if k + |pattern| <= |text| {
      assert text[k] in text;
      FindAbsent(pattern, text, k + 1);
    }
  }

  /** An occurrence of the pattern at i is found when its first character
      does not occur between k and i. */
  lemma {:induction false} FindAt(pattern: string, text: string, k: nat, i: nat)
    requires |pattern| > 0 && k <= i && i + |pattern| <= |text|
    requires text[i..i + |pattern|] == pattern
    requires forall x :: k <= x < i ==> text[x] != pattern[0]
    ensures Find(pattern, text, k) == Some(i)
    decreases i - k
  {
    if k < i {
      assert !(pattern <= text[k..]) by { assert text[k..][0] == text[k]; }
      FindAt(pattern, text, k + 1, i);
    } else {
      assert pattern <= text[k..] by { assert text[k..][..|pattern|] == pattern; }
    }
  }

  /** An engine for patterns without special characters, each of which
      matches its own text: the leftmost occurrence. */
  function Literal(pattern: string, text: string): Option<Match>
  {
    match Find(pattern, text, 0)
    case Some(i) => Some(Match(i, i + |pattern|, []))
    case None => None
  }

  // ---------------------------------------------------------------------
  // Character classes

  /** Python's `\s` and `str.isspace()`. */
  predicate IsSpace(c: char)
  {
    c == ' ' || c == '\t' || c == '\n' || c == '\r' || c == '\U{0b}' || c == '\U{0c}'
    || c == '\U{1c}' || c == '\U{1d}' || c == '\U{1e}' || c == '\U{1f}'
    || c == '\U{85}' || c == '\U{a0}' || c == '\U{1680}' || '\U{2000}' <= c <= '\U{200a}'
    || c == '\U{2028}' || c == '\U{2029}' || c == '\U{202f}' || c == '\U{205f}' || c == '\U{3000}'
  }

  /** The whitespace removed by `bytes.strip()`. */
  predicate IsAsciiSpace(c: char)
  {
    c == ' ' || c == '\t' || c == '\n' || c == '\r' || c == '\U{0b}' || c == '\U{0c}'
  }

  /** The line boundaries of `str.splitlines()`. */
  predicate IsLineBreak(c: char)
  {
    c == '\n' || c == '\r' || c == '\U{0b}' || c == '\U{0c}' || c == '\U{1c}' || c == '\U{1d}'
    || c == '\U{1e}' || c == '\U{85}' || c == '\U{2028}' || c == '\U{2029}'
  }

  predicate IsDigit(c: char) { '0' <= c <= '9' }

  predicate AllDigits(s: string) { |s| > 0 && forall i :: 0 <= i < |s| ==> IsDigit(s[i]) }

  predicate NoSpace(s: string) { forall i :: 0 <= i < |s| ==> !IsSpace(s[i]) }

  predicate NoLineBreak(s: string) { forall i :: 0 <= i < |s| ==> !IsLineBreak(s[i]) }

  // ---------------------------------------------------------------------
  // Scanning

  /** The first index at or after k holding whitespace, or |s|. */
  function NextSpace(s: string, k: nat): (i: nat)
    requires k <= |s|
    ensures k <= i <= |s|
    ensures forall x :: k <= x < i ==> !IsSpace(s[x])
    ensures i < |s| ==> IsSpace(s[i])
    decreases |s| - k
  {
    if k == |s| || IsSpace(s[k]) then k else NextSpace(s, k + 1)
  }

  /** The first index at or after k holding no whitespace, or |s|. */
  function SkipSpace(s: string, k: nat): (i: nat)
    requires k <= |s|
    ensures k <= i <= |s|
    ensures forall x :: k <= x < i ==> IsSpace(s[x])
    ensures i < |s| ==> !IsSpace(s[i])
    decreases |s| - k
  {
    if k == |s| || !IsSpace(s[k]) then k else SkipSpace(s, k + 1)
  }

  /** The first index at or after k holding a line boundary, or |s|. */
  function NextLineBreak(s: string, k: nat): (i: nat)
    requires k <= |s|
    ensures k <= i <= |s|
    ensures forall x :: k <= x < i ==> !IsLineBreak(s[x])
    ensures i < |s| ==> IsLineBreak(s[i])
    decreases |s| - k
  {
    if k == |s| || IsLineBreak(s[k]) then k else NextLineBreak(s, k + 1)
  }

  /** The first index at or after k holding c, or |s|. */
  function NextChar(s: string, k: nat, c: char): (i: nat)
    requires k <= |s|
    ensures k <= i <= |s|
    ensures forall x :: k <= x < i ==> s[x] != c
    ensures i < |s| ==> s[i] == c
    decreases |s| - k
  {
    if k == |s| || s[k] == c then k else NextChar(s, k + 1, c)
  }

  /** `s.rfind(c)`: the last index holding c, or -1. */
  function RFind(s: string, c: char): (r: int)
    ensures -1 <= r < |s|
    ensures r >= 0 ==> s[r] == c
    ensures forall x :: r < x < |s| ==> s[x] != c
  {
    if s == [] then -1
    else if s[|s| - 1] == c then |s| - 1
    else RFind(s[..|s| - 1], c)
  }

  // ---------------------------------------------------------------------
  // Splitting and joining

  /** `sep.join(xs)`. */
  function Join(xs: seq<string>, sep: string): string
  {
    if xs == [] then [] else if |xs| == 1 then xs[0] else xs[0] + sep + Join(xs[1..], sep)
  }

  /** `re.split(r'\s+', s)`: the pieces between maximal runs of whitespace;
      a leading (trailing) run yields an empty first (last) piece. */
  function SplitWs(s: string): (r: seq<string>)
    ensures |r| >= 1
    ensures forall i :: 0 <= i < |r| ==> NoSpace(r[i])
    decreases |s|
  {
    var i := NextSpace(s, 0);
    if i == |s| then [s] else [s[..i]] + SplitWs(s[SkipSpace(s, i)..])
  }

  /** A word without whitespace is split into itself. */
  lemma SplitWsWord(w: string)
    requires NoSpace(w)
    ensures SplitWs(w) == [w]
  {
    assert NextSpace(w, 0) == |w|;
  }

  /** Splitting a word, one space and a rest that does not start with
      whitespace gives the word and then the pieces of the rest. */
  lemma SplitWsCons(w: string, rest: string)
    requires NoSpace(w) && (rest == [] || !IsSpace(rest[0]))
    ensures SplitWs(w + " " + rest) == [w] + SplitWs(rest)
  {
    var s := w + " " + rest;
    assert s[|w|] == ' ';
    assert NextSpace(s, 0) == |w|;
    assert SkipSpace(s, |w|) == |w| + 1;
    assert s[..|w|] == w && s[|w| + 1..] == rest;
  }

  /** Digits are neither whitespace nor colons. */
  lemma DigitsPlain(s: string)
    requires AllDigits(s)
    ensures NoSpace(s) && ':' !in s
  {
    assert forall x :: 0 <= x < |s| ==> IsDigit(s[x]);
  }

  /** `FILE:LINE` is one word when FILE is. */
  lemma LocationWord(file: string, line: string)
    requires NoSpace(file) && AllDigits(line)
    ensures NoSpace(file + ":" + line)
  {
    DigitsPlain(line);
    var last := file + ":" + line;
    forall x | 0 <= x < |last| ensures !IsSpace(last[x]) {
      if x < |file| { assert last[x] == file[x]; }
      else if x > |file| { assert last[x] == line[x - |file| - 1]; }
    }
  }

  /** `s.split(sep)` and `re.split(sep, s)` for a one-character separator. */
  function Split(s: string, sep: char): (r: seq<string>)
    ensures |r| >= 1
    ensures forall i :: 0 <= i < |r| ==> sep !in r[i]
    decreases |s|
  {
    var i := NextChar(s, 0, sep);
    if i == |s| then [s] else [s[..i]] + Split(s[i + 1..], sep)
  }

  /** Splitting on a separator and joining with it gives the string back. */
  lemma {:induction false} SplitJoin(s: string, sep: char)
    ensures Join(Split(s, sep), [sep]) == s
    decreases |s|
  {
    var i := NextChar(s, 0, sep);
    if i < |s| {
      var rest := s[i + 1..];
      SplitJoin(rest, sep);
      var xs := Split(s, sep);
      assert xs == [s[..i]] + Split(rest, sep);
      assert xs[0] == s[..i] && xs[1..] == Split(rest, sep);
      assert Join(xs, [sep]) == s[..i] + [sep] + Join(Split(rest, sep), [sep]);
      assert s == s[..i] + [sep] + rest;
    }
  }

  /** Words joined by single spaces split back into the words. */
  lemma {:induction false} JoinWords(ws: seq<string>)
    requires |ws| >= 1 && NoSpace(ws[0])
    requires forall i :: 1 <= i < |ws| ==> |ws[i]| > 0 && NoSpace(ws[i])
    ensures SplitWs(Join(ws, " ")) == ws
  {
    if |ws| == 1 {
      SplitWsWord(ws[0]);
    } else {
      var rest := Join(ws[1..], " ");
      JoinWords(ws[1..]);
      assert rest[0] == ws[1][0] by { JoinHead(ws[1..]); }
      SplitWsCons(ws[0], rest);
    }
  }

  lemma {:induction false} JoinHead(ws: seq<string>)
    requires |ws| >= 1 && |ws[0]| > 0
    ensures |Join(ws, " ")| > 0 && Join(ws, " ")[0] == ws[0][0]
  {
  }

  /** `FILE:LINE` splits at its one colon. */
  lemma SplitLocation(file: string, line: string)
    requires ':' !in file && ':' !in line
    ensures Split(file + ":" + line, ':') == [file, line]
  {
    var field := file + ":" + line;
    assert field[|file|] == ':';
    assert forall x :: 0 <= x < |file| ==> field[x] == file[x];
    assert NextChar(field, 0, ':') == |file|;
    assert field[..|file|] == file && field[|file| + 1..] == line;
    assert NextChar(line, 0, ':') == |line|;
  }

  /** Joining pieces that do not contain the separator and splitting the
      result gives the pieces back. */
  lemma {:induction false} JoinSplit(xs: seq<string>, sep: char)
    requires |xs| >= 1 && forall i :: 0 <= i < |xs| ==> sep !in xs[i]
    ensures Split(Join(xs, [sep]), sep) == xs
  {
    var s := Join(xs, [sep]);
    if |xs| == 1 {
      assert NextChar(s, 0, sep) == |s|;
    } else {
      var rest := Join(xs[1..], [sep]);
      JoinSplit(xs[1..], sep);
      assert s == xs[0] + [sep] + rest;
      assert s[|xs[0]|] == sep;
      assert forall x :: 0 <= x < |xs[0]| ==> s[x] == xs[0][x];
      assert NextChar(s, 0, sep) == |xs[0]|;
      assert s[..|xs[0]|] == xs[0] && s[|xs[0]| + 1..] == rest;
    }
  }

  /** `s.splitlines()`: lines without their boundaries, "\r\n" counting as
      one boundary and no empty piece after a final boundary. */
  function SplitLines(s: string): (r: seq<string>)
    ensures forall i :: 0 <= i < |r| ==> NoLineBreak(r[i])
    ensures s == [] <==> r == []
    decreases |s|
  {
    if s == [] then []
    else
      var i := NextLineBreak(s, 0);
      if i == |s| then [s]
      else if s[i] == '\r' && i + 1 < |s| && s[i + 1] == '\n' then [s[..i]] + SplitLines(s[i + 2..])
      else [s[..i]] + SplitLines(s[i + 1..])
  }

  /** `prefix` starts `s`. */
  predicate StartsWith(s: string, prefix: string) { prefix <= s }

  /** `s.endswith(suffix)`. */
  predicate EndsWith(s: string, suffix: string)
  {
    |suffix| <= |s| && s[|s| - |suffix|..] == suffix
  }

  /** `s[::-1]`. */
  function Reverse(s: string): (r: string)
    ensures |r| == |s|
    ensures forall i :: 0 <= i < |s| ==> r[i] == s[|s| - 1 - i]
  {
    if s == [] then [] else Reverse(s[1..]) + [s[0]]
  }

  lemma ReverseReverse(s: string)
    ensures Reverse(Reverse(s)) == s
  {
    assert forall i :: 0 <= i < |s| ==> Reverse(Reverse(s))[i] == s[i];
  }

  // ---------------------------------------------------------------------
  // Slicing and stripping

  /** A Python slice bound: negative counts from the end, then clamped to [0, n]. */
  function SliceIndex(i: int, n: nat): (r: nat)
    ensures r <= n
    ensures 0 <= i <= n ==> r == i
    ensures i > n ==> r == n
    ensures -(n as int) <= i < 0 ==> r == n + i
    ensures i < -(n as int) ==> r == 0
  {
    if i < 0 then (if i + n < 0 then 0 else i + n) else if i > n then n else i
  }

  /** `s[a:b]` with Python's rules for negative and out-of-range bounds. */
  function Slice(s: string, a: int, b: int): (r: string)
    ensures |r| <= |s|
    ensures SliceIndex(a, |s|) < SliceIndex(b, |s|) ==> r == s[SliceIndex(a, |s|)..SliceIndex(b, |s|)]
    ensures SliceIndex(a, |s|) >= SliceIndex(b, |s|) ==> r == []
  {
    var lo := SliceIndex(a, |s|);
    var hi := SliceIndex(b, |s|);
    if lo < hi then s[lo..hi] else []
  }

  function StripLeft(s: string): (r: string)
    ensures |r| <= |s| && r == s[|s| - |r|..]
    ensures forall i :: 0 <= i < |s| - |r| ==> IsAsciiSpace(s[i])
    ensures r == [] || !IsAsciiSpace(r[0])
  {
    if s != [] && IsAsciiSpace(s[0]) then StripLeft(s[1..]) else s
  }

  function StripRight(s: string): (r: string)
    ensures |r| <= |s| && r == s[..|r|]
    ensures forall i :: |r| <= i < |s| ==> IsAsciiSpace(s[i])
    ensures r == [] || !IsAsciiSpace(r[|r| - 1])
  {
    if s != [] && IsAsciiSpace(s[|s| - 1]) then StripRight(s[..|s| - 1]) else s
  }

  /** `bytes.strip()`. */
  function Strip(s: string): string
  {
    StripRight(StripLeft(s))
  }

  /** `command[len('handle-command '):]`: what follows the verb of a side
      command and one separator. */
  function CommandArgument(command: string): (r: string)
    ensures |command| >= 15 ==> command == command[..15] + r
    ensures |command| <= 15 ==> r == []
  {
    if |command| >= 15 then command[15..] else []
  }

  /** What the proxies return for a side command: the captured response
      after the echoed command and its newline, up to the last newline
      (where the prompt line starts), stripped of surrounding whitespace:
      `response[len(cmd) + 1:response.rfind(b'\n')].strip()`. */
  function HandleCommandAnswer(cmd: string, response: string): (r: string)
    ensures r == [] || (!IsAsciiSpace(r[0]) && !IsAsciiSpace(r[|r| - 1]))
    ensures RFind(response, '\n') >= 0 && |cmd| + 1 < RFind(response, '\n') ==>
              r == Strip(response[|cmd| + 1..RFind(response, '\n')])
    ensures RFind(response, '\n') == -1 && |cmd| + 1 < |response| - 1 ==>
              r == Strip(response[|cmd| + 1..|response| - 1])
  {
    Strip(Slice(response, |cmd| + 1, RFind(response, '\n')))
  }

  // ---------------------------------------------------------------------
  // Numbers

  function DigitValue(c: char): nat requires IsDigit(c) { (c as int) - ('0' as int) }

  function Digit(d: nat): (c: char)
    requires d < 10
    ensures IsDigit(c) && DigitValue(c) == d
  {
    ('0' as int + d) as char
  }

  /** The value of a string of decimal digits, most significant first. */
  function DigitsValue(s: string): nat
    requires forall i :: 0 <= i < |s| ==> IsDigit(s[i])
  {
    if s == [] then 0 else 10 * DigitsValue(s[..|s| - 1]) + DigitValue(s[|s| - 1])
  }

  /** `int(s)` on a token: an optional sign and one or more ASCII digits. */
  function ParseInt(s: string): (r: Option<int>)
    ensures r.Some? <==> AllDigits(s) || (|s| >= 2 && (s[0] == '+' || s[0] == '-') && AllDigits(s[1..]))
    ensures AllDigits(s) ==> r == Some(DigitsValue(s))
  {
    if AllDigits(s) then Some(DigitsValue(s))
    else if |s| >= 2 && s[0] == '+' && AllDigits(s[1..]) then Some(DigitsValue(s[1..]))
    else if |s| >= 2 && s[0] == '-' && AllDigits(s[1..]) then Some(-(DigitsValue(s[1..]) as int))
    else None
  }

  /** `str(n)` for a natural number. */
  function NatToString(n: nat): (s: string)
    ensures AllDigits(s)
    decreases n
  {
    if n < 10 then [Digit(n)] else NatToString(n / 10) + [Digit(n % 10)]
  }

  /** `str(i)`. */
  function IntToString(i: int): string
  {
    if i < 0 then "-" + NatToString(-i) else NatToString(i)
  }

  /** Printing a number in decimal and reading it back gives the number. */
  lemma {:induction false} NatToStringValue(n: nat)
    ensures DigitsValue(NatToString(n)) == n
    decreases n
  {
    var s := NatToString(n);
    if n >= 10 {
      NatToStringValue(n / 10);
      assert s[..|s| - 1] == NatToString(n / 10);
    }
  }

  lemma ParseNatToString(n: nat)
    ensures ParseInt(NatToString(n)) == Some(n)
  {
    NatToStringValue(n);
  }

  lemma {:induction false} NatToStringInjective(m: nat, n: nat)
    requires NatToString(m) == NatToString(n)
    ensures m == n
  {
    NatToStringValue(m);
    NatToStringValue(n);
  }
}
