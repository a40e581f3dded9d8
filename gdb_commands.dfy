/**
 * The pure parts of the custom GDB commands in lib/gdb_commands.py. The
 * text `gdb.execute` returns is a parameter, and what would be sent on the
 * socket is the result.
 *
 *   `nvim-gdb-info-sources`: every path in `info sources`, written
 *   backwards, sorted, one per line.
 *
 *   `nvim-gdb-info-breakpoints PATH ADDR`: the line numbers of the
 *   breakpoints whose file is a suffix of PATH, separated by spaces.
 */
module GdbCommands {
  import opened Common

  // ---------------------------------------------------------------------
  // nvim-gdb-info-sources

  /** A character that ends a path in `info sources`: `[^, \n]` fails. */
  predicate Stop(c: char) { c == ',' || c == ' ' || c == '\n' }

  /** The first index at or after k holding a stop character, or |s|. */
  function NextStop(s: string, k: nat): (i: nat)
    requires k <= |s|
    ensures k <= i <= |s|
    ensures forall x :: k <= x < i ==> !Stop(s[x])
    ensures i < |s| ==> Stop(s[i])
    decreases |s| - k
  {
    if k == |s| || Stop(s[k]) then k else NextStop(s, k + 1)
  }

  /** A path as `/[^, \n]+` matches it: a slash and at least one more
      character, none of them a stop character. */
  predicate IsPath(p: string)
  {
    |p| >= 2 && p[0] == '/' && forall x :: 0 <= x < |p| ==> !Stop(p[x])
  }

  /** `re.finditer(r'/[^, \n]+', s[k:])`: the matches, left to right. */
  function Paths(s: string, k: nat): (r: seq<string>)
    requires k <= |s|
    ensures forall i :: 0 <= i < |r| ==> IsPath(r[i])
    decreases |s| - k
  {
    var i := NextChar(s, k, '/');
    if i == |s| then []
    else
      var j := NextStop(s, i + 1);
      if j == i + 1 then Paths(s, i + 1)
      else [s[i..j]] + Paths(s, j)
  }

  /** Python's ordering of strings: by code point, a prefix first. */
  predicate LessEq(a: string, b: string)
  {
    a == [] || (b != [] && (a[0] < b[0] || (a[0] == b[0] && LessEq(a[1..], b[1..]))))
  }

  lemma LessEqTotal(a: string, b: string)
    ensures LessEq(a, b) || LessEq(b, a)
  {
  }

  lemma LessEqTransitive(a: string, b: string, c: string)
    requires LessEq(a, b) && LessEq(b, c)
    ensures LessEq(a, c)
  {
  }


  predicate Sorted(xs: seq<string>)
  {
    forall i, j :: 0 <= i < j < |xs| ==> LessEq(xs[i], xs[j])
  }

  /** x put into a sorted list before the first element above it. */
  function Insert(x: string, xs: seq<string>): (r: seq<string>)
    requires Sorted(xs)
    ensures Sorted(r) && multiset(r) == multiset(xs) + multiset{x}
  {
    if xs == [] then [x]
    else if LessEq(x, xs[0]) then
      forall j | 0 < j < |xs| ensures LessEq(x, xs[j]) {
        LessEqTransitive(x, xs[0], xs[j]);
      }
      [x] + xs
    else
      LessEqTotal(x, xs[0]);
      var rest := Insert(x, xs[1..]);
      assert multiset(xs) == multiset{xs[0]} + multiset(xs[1..]) by {
        assert xs == [xs[0]] + xs[1..];
      }
      forall j | 0 <= j < |rest| ensures LessEq(xs[0], rest[j]) {
        assert rest[j] in multiset(rest);
        if rest[j] != x {
          assert rest[j] in multiset(xs[1..]);
          var k :| 0 <= k < |xs[1..]| && xs[1..][k] == rest[j];
          assert xs[k + 1] == rest[j];
        }
      }
      [xs[0]] + rest
  }

  /** `sorted(xs)`. */
  function Sort(xs: seq<string>): (r: seq<string>)
    ensures Sorted(r) && multiset(r) == multiset(xs)
  {
    if xs == [] then []
    else
      assert xs == [xs[0]] + xs[1..];
      Insert(xs[0], Sort(xs[1..]))
  }

  /** Each string written backwards. */
  function ReverseAll(xs: seq<string>): (r: seq<string>)
    ensures |r| == |xs| && forall i :: 0 <= i < |xs| ==> r[i] == Reverse(xs[i])
  {
    seq(|xs|, i requires 0 <= i < |xs| => Reverse(xs[i]))
  }

  /** The sorted, reversed paths of `InfoSources.invoke`, before they are
      joined. */
  function SourceList(output: string): (r: seq<string>)
    ensures Sorted(r) && multiset(r) == multiset(ReverseAll(Paths(output, 0)))
  {
    Sort(ReverseAll(Paths(output, 0)))
  }

  /** `InfoSources.invoke`: the datagram it sends. */
  function InfoSources(output: string): string
  {
    Join(SourceList(output), "\n")
  }

  /** The reply splits back into the sorted list, and every line read
      backwards is a path: it ends with a slash and holds no separator. */
  lemma InfoSourcesLines(output: string)
    requires SourceList(output) != []
    ensures Split(InfoSources(output), '\n') == SourceList(output)
    ensures forall i :: 0 <= i < |SourceList(output)| ==> IsPath(Reverse(SourceList(output)[i]))
  {
    var r := SourceList(output);
    forall i | 0 <= i < |r| ensures IsPath(Reverse(r[i])) && '\n' !in r[i] {
      SourceLine(output, i);
    }
    JoinSplit(r, '\n');
  }

  /** One line of the list read backwards is a path, and holds no newline. */
  lemma SourceLine(output: string, i: nat)
    requires i < |SourceList(output)|
    ensures IsPath(Reverse(SourceList(output)[i])) && '\n' !in SourceList(output)[i]
  {
    var line := SourceList(output)[i];
    var ps := Paths(output, 0);
    assert line in multiset(ReverseAll(ps));
    var k :| 0 <= k < |ps| && ReverseAll(ps)[k] == line;
    ReverseReverse(ps[k]);
    assert Reverse(line) == ps[k];
    assert forall x :: 0 <= x < |line| ==> line[x] == ps[k][|ps[k]| - 1 - x];
  }

  // ---------------------------------------------------------------------
  // nvim-gdb-info-breakpoints

  /** `arg.split(" ")[0:2]`: the path and the reply address; an argument
      without a space raises. */
  function Arguments(arg: string): (r: Result<(string, string)>)
    ensures r.Ok? <==> ' ' in arg
  {
    var args := Split(arg, ' ');
    if |args| < 2 then
      assert NextChar(arg, 0, ' ') == |arg|;
      Raise("IndexError")
    else
      assert NextChar(arg, 0, ' ') < |arg|;
      Ok((args[0], args[1]))
  }

  /** The first index at or after k that does not hold a digit. */
  function SkipDigits(s: string, k: nat): (i: nat)
    requires k <= |s|
    ensures k <= i <= |s|
    ensures forall x :: k <= x < i ==> IsDigit(s[x])
    ensures i < |s| ==> !IsDigit(s[i])
    decreases |s| - k
  {
    if k == |s| || !IsDigit(s[k]) then k else SkipDigits(s, k + 1)
  }

  datatype Location = Location(file: string, line: string)

  /** The match of ` at ([^:]+):(\d+)` starting at p, if any: the file runs
      to the first colon after ` at `, and at least one digit follows. */
  function LocationAt(s: string, p: nat): (r: Option<(Location, nat)>)
    requires p + 4 <= |s| && s[p..p + 4] == " at "
    ensures r.Some? ==> p + 4 < r.value.1 <= |s|
    ensures r.Some? ==> |r.value.0.file| > 0 && ':' !in r.value.0.file && AllDigits(r.value.0.line)
  {
    var q := NextChar(s, p + 4, ':');
    if q == p + 4 || q == |s| then None
    else
      var e := SkipDigits(s, q + 1);
      if e == q + 1 then None
      else Some((Location(s[p + 4..q], s[q + 1..e]), e))
  }

  /** `re.finditer(r' at ([^:]+):(\d+)', s[k:])`: the locations, left to
      right; a start that fails is passed over. */
  function Locations(s: string, k: nat): (r: seq<Location>)
    requires k <= |s|
    ensures forall i :: 0 <= i < |r| ==> |r[i].file| > 0 && ':' !in r[i].file && AllDigits(r[i].line)
    decreases |s| - k
  {
    match Find(" at ", s, k)
    case None => []
    case Some(p) =>
      match LocationAt(s, p)
      case None => Locations(s, p + 1)
      case Some((loc, e)) => [loc] + Locations(s, e)
  }

  /** `[ln for (fl, ln) in locations if path.endswith(fl)]`. */
  function LinesIn(path: string, locs: seq<Location>): (r: seq<string>)
    ensures |r| <= |locs|
  {
    if locs == [] then []
    else (if EndsWith(path, locs[0].file) then [locs[0].line] else []) + LinesIn(path, locs[1..])
  }

  /** A line is reported exactly when some listed location of a file that
      ends the path has it. */
  lemma {:induction false} LinesInMembers(path: string, locs: seq<Location>, line: string)
    ensures line in LinesIn(path, locs) <==>
              exists i :: 0 <= i < |locs| && locs[i].line == line && EndsWith(path, locs[i].file)
  {
    if locs != [] {
      LinesInMembers(path, locs[1..], line);
      if exists i :: 0 <= i < |locs| && locs[i].line == line && EndsWith(path, locs[i].file) {
        var i :| 0 <= i < |locs| && locs[i].line == line && EndsWith(path, locs[i].file);
        if i > 0 {
          assert locs[1..][i - 1] == locs[i];
        }
      }
      if exists i :: 0 <= i < |locs[1..]| && locs[1..][i].line == line && EndsWith(path, locs[1..][i].file) {
        var i :| 0 <= i < |locs[1..]| && locs[1..][i].line == line && EndsWith(path, locs[1..][i].file);
        assert locs[i + 1] == locs[1..][i];
      }
    }
  }

  /** `InfoBreakpoints.invoke`: the reply address and the datagram. */
  function InfoBreakpoints(arg: string, output: string): Result<(string, string)>
  {
    match Arguments(arg)
    case Raise(e) => Raise(e)
    case Ok((path, addr)) => Ok((addr, Join(LinesIn(path, Locations(output, 0)), " ")))
  }

  /** Every reported line is a number when every location's is. */
  lemma {:induction false} LinesInDigits(path: string, locs: seq<Location>)
    requires forall i :: 0 <= i < |locs| ==> AllDigits(locs[i].line)
    ensures forall i :: 0 <= i < |LinesIn(path, locs)| ==> AllDigits(LinesIn(path, locs)[i])
  {
    if locs != [] {
      LinesInDigits(path, locs[1..]);
    }
  }

  /** The reply splits on spaces back into the reported lines, each a
      number. */
  lemma InfoBreakpointsReply(arg: string, output: string)
    requires ' ' in arg
    ensures var lines := LinesIn(Arguments(arg).value.0, Locations(output, 0));
      && InfoBreakpoints(arg, output) == Ok((Arguments(arg).value.1, Join(lines, " ")))
      && (forall i :: 0 <= i < |lines| ==> AllDigits(lines[i]))
      && (lines != [] ==> Split(Join(lines, " "), ' ') == lines)
  {
    var lines := LinesIn(Arguments(arg).value.0, Locations(output, 0));
    LinesInDigits(Arguments(arg).value.0, Locations(output, 0));
    forall i | 0 <= i < |lines| ensures ' ' !in lines[i] {
      DigitsPlain(lines[i]);
    }
    if lines != [] {
      JoinSplit(lines, ' ');
    }
  }
}
