/**
 * The pdb side of the oldest proxy, `_PdbFeatures` in lib/pdbproxy.py.
 * pdb has no `info breakpoints`, so `info-breakpoints FILE` is run as
 * `break` through an alias defined the first time it is needed, and the
 * reply is parsed into a table from line number to breakpoint id for FILE.
 * The two fields that change across calls are the file waiting for its
 * reply and whether the alias has been defined.
 */
module PdbProxy {
  import opened Common
  import Dict

  /** The fields of `_PdbFeatures` that change: the file whose breakpoints
      were asked for (`last_src`) and whether the alias exists. */
  datatype Features = Features(lastSrc: Option<string>, aliasSet: bool)

  const AppName := "PDB"
  /** The alias under which `break` is run; the marker that starts the
      reply. */
  const CommandBegin := "nvim-gdb-info-breakpoints  "
  /** Where pdb's reply ends: its prompt on a new line. */
  const CommandEnd := "\n(Pdb) "
  const AliasDefinition := "alias nvim-gdb-info-breakpoints break\n"

  /** `if not self.last_src`: no file, or the empty name. */
  predicate Pending(f: Features)
  {
    f.lastSrc.Some? && f.lastSrc.value != []
  }

  // ---------------------------------------------------------------------
  // The breakpoint table

  /** What one row of pdb's `break` listing contributes, or `None` when the
      row is skipped, also when parsing it raises: the first token must be
      an integer id, the second `breakpoint`, the fourth `yes`, and the last
      token `FILE:LINE...` with FILE the requested file. */
  function Row(lastSrc: string, row: string): Option<(string, int)>
  {
    var tokens := SplitWs(row);
    match ParseInt(tokens[0])
    case None => None
    case Some(bid) =>
      if |tokens| < 2 || tokens[1] != "breakpoint" then None
      else if |tokens| < 4 || tokens[3] != "yes" then None
      else
        var srcLine := Split(tokens[|tokens| - 1], ':');
        if srcLine[0] != lastSrc || |srcLine| < 2 then None
        else Some((srcLine[1], bid))
  }

  /** Four words joined by single spaces split back into the four words. */
  lemma SplitFour(a: string, b: string, c: string, d: string)
    requires NoSpace(a) && NoSpace(b) && NoSpace(c) && NoSpace(d)
    requires |b| > 0 && |c| > 0 && |d| > 0
    ensures SplitWs(a + " " + (b + " " + (c + " " + d))) == [a, b, c, d]
  {
    var cd := c + " " + d;
    var bcd := b + " " + cd;
    SplitWsWord(d);
    SplitWsCons(c, d);
    assert cd[0] == c[0];
    SplitWsCons(b, cd);
    assert bcd[0] == b[0];
    SplitWsCons(a, bcd);
  }

  /** Five words joined by single spaces split back into the five words. */
  lemma SplitFive(b: string, c: string, d: string, e: string, f: string)
    requires NoSpace(b) && NoSpace(c) && NoSpace(d) && NoSpace(e) && NoSpace(f)
    requires |c| > 0 && |d| > 0 && |e| > 0 && |f| > 0
    ensures SplitWs(b + " " + (c + " " + (d + " " + (e + " " + f)))) == [b, c, d, e, f]
  {
    var cdef := c + " " + (d + " " + (e + " " + f));
    SplitFour(c, d, e, f);
    assert cdef[0] == c[0];
    SplitWsCons(b, cdef);
  }

  /** Six words joined by single spaces split back into the six words. */
  lemma SplitSix(a: string, b: string, c: string, d: string, e: string, f: string)
    requires NoSpace(a) && NoSpace(b) && NoSpace(c) && NoSpace(d) && NoSpace(e) && NoSpace(f)
    requires |b| > 0 && |c| > 0 && |d| > 0 && |e| > 0 && |f| > 0
    ensures SplitWs(a + " " + (b + " " + (c + " " + (d + " " + (e + " " + f))))) == [a, b, c, d, e, f]
  {
    var bcdef := b + " " + (c + " " + (d + " " + (e + " " + f)));
    SplitFive(b, c, d, e, f);
    assert bcdef[0] == b[0];
    SplitWsCons(a, bcdef);
  }

  /** A row as pdb prints it, `1 breakpoint keep yes at /path:8`, yields
      its line and id exactly when it is enabled and in the requested
      file. */
  lemma RowFormat(lastSrc: string, id: nat, disp: string, enabled: string, file: string, line: string)
    requires |disp| > 0 && NoSpace(disp) && |enabled| > 0 && NoSpace(enabled)
    requires |file| > 0 && ':' !in file && NoSpace(file) && AllDigits(line)
    ensures Row(lastSrc, NatToString(id) + " " + ("breakpoint" + " " + (disp + " " + (enabled + " " + ("at" + " " + (file + ":" + line))))))
         == if enabled == "yes" && file == lastSrc then Some((line, id as int)) else None
  {
    var last := file + ":" + line;
    LocationWord(file, line);
    var id' := NatToString(id);
    DigitsPlain(id');
    assert NoSpace("breakpoint") && NoSpace("at");
    SplitSix(id', "breakpoint", disp, enabled, "at", last);
    var tokens := [id', "breakpoint", disp, enabled, "at", last];
    assert tokens[|tokens| - 1] == last;
    DigitsPlain(line);
    SplitLocation(file, line);
    ParseNatToString(id);
  }

  /** Add one row's contribution: a later row for the same line replaces
      the id. */
  function Add(breaks: Dict.Dict<string, int>, row: Option<(string, int)>): Dict.Dict<string, int>
  {
    match row
    case None => breaks
    case Some((line, id)) => Dict.Put(breaks, line, id)
  }

  /** The table built from the rows' contributions, first to last. */
  function Collect(rows: seq<Option<(string, int)>>): Dict.Dict<string, int>
  {
    if rows == [] then [] else Add(Collect(rows[..|rows| - 1]), rows[|rows| - 1])
  }

  /** The id the last row for a line gives it, if any row does. */
  function LastFor(rows: seq<Option<(string, int)>>, line: string): Option<int>
  {
    if rows == [] then None
    else
      var row := rows[|rows| - 1];
      if row.Some? && row.value.0 == line then Some(row.value.1) else LastFor(rows[..|rows| - 1], line)
  }

  /** The table maps each line to the id of the last row for it. */
  lemma {:induction false} CollectSpec(rows: seq<Option<(string, int)>>, line: string)
    ensures Dict.Unique(Collect(rows))
    ensures Dict.Get(Collect(rows), line) == LastFor(rows, line)
  {
    if rows != [] {
      var init := rows[..|rows| - 1];
      CollectSpec(init, line);
      var row := rows[|rows| - 1];
      if row.Some? {
        Dict.PutUnique(Collect(init), row.value.0, row.value.1);
      }
    }
  }

  /** Each line of the response, parsed. */
  function Parse(lastSrc: string, lines: seq<string>): (r: seq<Option<(string, int)>>)
    ensures |r| == |lines| && forall i :: 0 <= i < |lines| ==> r[i] == Row(lastSrc, lines[i])
  {
    seq(|lines|, i requires 0 <= i < |lines| => Row(lastSrc, lines[i]))
  }

  /** The table for a response, before it is JSON-encoded. */
  function Breakpoints(lastSrc: string, response: string): Dict.Dict<string, int>
  {
    Collect(Parse(lastSrc, SplitLines(response)))
  }

  // ---------------------------------------------------------------------
  // The two operations

  /** `ProcessResponse(response)`: nothing when no file is pending;
      otherwise the table for the pending file, and the file is forgotten. */
  function AfterProcessResponse(f: Features, response: string): (r: (Features, Option<Dict.Dict<string, int>>))
    ensures !Pending(f) ==> r == (f, None)
    ensures Pending(f) ==> r.0 == f.(lastSrc := None) && r.1.Some?
  {
    if !Pending(f) then (f, None)
    else (f.(lastSrc := None), Some(Breakpoints(f.lastSrc.value, response)))
  }

  /** `FilterCommand(command)`: `info-breakpoints FILE` makes FILE pending
      and runs the alias, defining it first if it does not exist yet; an
      `info-breakpoints` without a file raises (`tokens[1]`); any other
      command is run as it is. */
  function AfterFilterCommand(f: Features, command: string): (r: (Features, Result<string>))
  {
    var tokens := SplitWs(command);
    if tokens[0] == "info-breakpoints" then
      if |tokens| < 2 then (f, Raise("IndexError"))
      else
        var prefix := if f.aliasSet then [] else AliasDefinition;
        (Features(Some(tokens[1]), true), Ok(prefix + CommandBegin + "\n"))
    else (f, Ok(command))
  }

  /** The alias is defined by the first `info-breakpoints` only: after one
      the second runs the alias alone, and asks for its own file. */
  lemma AliasOnce(f: Features, first: string, second: string)
    requires SplitWs(first)[0] == "info-breakpoints" && |SplitWs(first)| >= 2
    requires SplitWs(second)[0] == "info-breakpoints" && |SplitWs(second)| >= 2
    ensures var (g, r1) := AfterFilterCommand(f, first);
      var (h, r2) := AfterFilterCommand(g, second);
      && r1 == Ok((if f.aliasSet then [] else AliasDefinition) + CommandBegin + "\n")
      && r2 == Ok(CommandBegin + "\n")
      && g.aliasSet && h.aliasSet
      && h.lastSrc == Some(SplitWs(second)[1])
  {
    assert [] + CommandBegin == CommandBegin;
  }

  /** A request followed by its reply gives the table for the requested
      file and leaves nothing pending. */
  lemma RequestThenReply(f: Features, command: string, response: string)
    requires SplitWs(command)[0] == "info-breakpoints" && |SplitWs(command)| >= 2
    requires SplitWs(command)[1] != []
    ensures var (g, _) := AfterFilterCommand(f, command);
      var (h, table) := AfterProcessResponse(g, response);
      && table == Some(Breakpoints(SplitWs(command)[1], response))
      && !Pending(h) && h.aliasSet
      && AfterProcessResponse(h, response) == (h, None)
  {
  }

  /** `_PdbFeatures`, whose fields the methods update in place. */
  class PdbFeatures {
    var lastSrc: Option<string>
    var aliasSet: bool

    function Value(): Features
      reads this
    {
      Features(lastSrc, aliasSet)
    }

    /** `__init__`: nothing pending, no alias yet. */
    constructor ()
      ensures Value() == Features(None, false)
    {
      lastSrc, aliasSet := None, false;
    }

    /** `ProcessResponse(response)`: the loop over the lines of the reply. */
    method ProcessResponse(response: string) returns (r: Option<Dict.Dict<string, int>>)
      modifies this
      ensures (Value(), r) == AfterProcessResponse(old(Value()), response)
      ensures r.Some? ==> Dict.Unique(r.value)
    {
      if lastSrc.None? || lastSrc.value == [] {
        return None;
      }
      var lines := SplitLines(response);
      ghost var rows := Parse(lastSrc.value, lines);
      var breaks: Dict.Dict<string, int> := [];
      for i := 0 to |lines|
        invariant breaks == Collect(rows[..i])
      {
        assert rows[..i + 1][..i] == rows[..i];
        var row := Row(lastSrc.value, lines[i]);
        if row.Some? {
          breaks := Dict.Put(breaks, row.value.0, row.value.1);
        }
      }
      assert rows[..|lines|] == rows;
      CollectSpec(rows, []);
      lastSrc := None;
      return Some(breaks);
    }

    /** `FilterCommand(command)`. */
    method FilterCommand(command: string) returns (r: Result<string>)
      modifies this
      ensures (Value(), r) == AfterFilterCommand(old(Value()), command)
    {
      var tokens := SplitWs(command);
      if tokens[0] == "info-breakpoints" {
        if |tokens| < 2 {
          return Raise("IndexError");
        }
        lastSrc := Some(tokens[1]);
        var cmd2 := [];
        if !aliasSet {
          cmd2 := AliasDefinition;
          aliasSet := true;
        }
        return Ok(cmd2 + CommandBegin + "\n");
      }
      return Ok(command);
    }
  }
}
