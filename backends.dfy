/**
 * The backend descriptions in rplugin/python3/gdb/backend/: how GDB and pdb
 * spell the plugin's generic commands, the filter applied to a captured
 * breakpoint listing before it goes to the location list (the same in
 * gdb.py, pdb.py and bashdb.py), pdb's breakpoint query, and the
 * transition tables the GDB and pdb parsers are built with.
 */
module Backends {
  import opened Common
  import Dict
  import opened Parsers

  // ---------------------------------------------------------------------
  // translate_command

  /** `Gdb.command_map`. */
  const GdbCommandMap: Dict.Dict<string, string> :=
    [("delete_breakpoints", "delete"), ("breakpoint", "break"), ("info breakpoints", "info breakpoints")]

  /** `Pdb.command_map`. */
  const PdbCommandMap: Dict.Dict<string, string> :=
    [("delete_breakpoints", "clear"), ("breakpoint", "break"), ("finish", "return"),
     ("print {}", "print({})"), ("info breakpoints", "break")]

  /** `self.command_map.get(command, command)`. */
  function Translate(commands: Dict.Dict<string, string>, command: string): string
  {
    Dict.GetOr(commands, command, command)
  }

  /** GDB renames two commands and keeps every other one. */
  lemma GdbTranslate(command: string)
    ensures Translate(GdbCommandMap, command) ==
              if command == "delete_breakpoints" then "delete"
              else if command == "breakpoint" then "break"
              else command
  {
    assert Dict.Keys(GdbCommandMap) == ["delete_breakpoints", "breakpoint", "info breakpoints"];
  }

  /** pdb renames its five commands and keeps every other one. */
  lemma PdbTranslate(command: string)
    ensures Translate(PdbCommandMap, command) ==
              if command == "delete_breakpoints" then "clear"
              else if command == "breakpoint" then "break"
              else if command == "finish" then "return"
              else if command == "print {}" then "print({})"
              else if command == "info breakpoints" then "break"
              else command
  {
    assert Dict.Keys(PdbCommandMap) == ["delete_breakpoints", "breakpoint", "finish", "print {}", "info breakpoints"];
  }

  // ---------------------------------------------------------------------
  // llist_filter_breakpoints

  predicate Header(s: string) { StartsWith(s, "Num") }

  /** `[s for s in locations if not s.startswith("Num")]`. */
  function LlistFilter(locations: seq<string>): (r: seq<string>)
    ensures |r| <= |locations|
    ensures forall i :: 0 <= i < |r| ==> !Header(r[i])
  {
    if locations == [] then []
    else (if Header(locations[0]) then [] else [locations[0]]) + LlistFilter(locations[1..])
  }

  /** The positions of the entries the filter keeps, in order. */
  function Kept(locations: seq<string>): seq<nat>
  {
    if locations == [] then []
    else
      var shifted := seq(|Kept(locations[1..])|, i requires 0 <= i < |Kept(locations[1..])| => Kept(locations[1..])[i] + 1);
      if Header(locations[0]) then shifted else [0] + shifted
  }

  /** The filter's output is the input at the positions `Kept`. */
  lemma {:induction false} KeptPicks(locations: seq<string>)
    ensures |Kept(locations)| == |LlistFilter(locations)|
    ensures forall i :: 0 <= i < |Kept(locations)| ==>
      Kept(locations)[i] < |locations| && LlistFilter(locations)[i] == locations[Kept(locations)[i]]
  {
    if locations != [] {
      KeptPicks(locations[1..]);
      var rest, kept := Kept(locations[1..]), LlistFilter(locations[1..]);
      assert forall i :: 0 <= i < |rest| ==> kept[i] == locations[1..][rest[i]] == locations[rest[i] + 1];
      if Header(locations[0]) {
        assert LlistFilter(locations) == kept;
      } else {
        assert LlistFilter(locations) == [locations[0]] + kept;
      }
    }
  }

  /** The positions `Kept` are increasing: the kept entries keep their
      order. */
  lemma {:induction false} KeptIncreasing(locations: seq<string>)
    ensures forall i, j :: 0 <= i < j < |Kept(locations)| ==> Kept(locations)[i] < Kept(locations)[j]
  {
    if locations != [] {
      KeptIncreasing(locations[1..]);
    }
  }

  /** An entry is kept exactly when it does not start with `Num`, and the
      kept entries keep their order: the output is the subsequence of the
      input at the positions `Kept`. */
  lemma {:induction false} LlistFilterMembers(locations: seq<string>, s: string)
    ensures s in LlistFilter(locations) <==> s in locations && !Header(s)
  {
    if locations != [] {
      LlistFilterMembers(locations[1..], s);
      assert locations == [locations[0]] + locations[1..];
    }
  }

  /** `Kept` holds exactly the positions of the entries that do not start
      with `Num`: together with `KeptPicks` and `KeptIncreasing`, the
      output is the input with the headers, and only they, removed. */
  lemma {:induction false} KeptAll(locations: seq<string>)
    ensures forall i :: 0 <= i < |locations| ==> (i in Kept(locations) <==> !Header(locations[i]))
  {
    if locations != [] {
      var rest := locations[1..];
      KeptAll(rest);
      var k := Kept(rest);
      var shifted := seq(|k|, j requires 0 <= j < |k| => k[j] + 1);
      assert forall i :: 1 <= i < |locations| ==> (i in shifted <==> i - 1 in k) by {
        forall i | 1 <= i < |locations|
          ensures i in shifted <==> i - 1 in k
        {
          if i in shifted {
            var j :| 0 <= j < |shifted| && shifted[j] == i;
            assert k[j] == i - 1;
          }
          if i - 1 in k {
            var j :| 0 <= j < |k| && k[j] == i - 1;
            assert shifted[j] == i;
          }
        }
      }
      assert 0 !in shifted;
      assert Kept(locations) == if Header(locations[0]) then shifted else [0] + shifted;
      forall i | 0 <= i < |locations|
        ensures i in Kept(locations) <==> !Header(locations[i])
      {
        if i > 0 {
          assert locations[i] == rest[i - 1];
          assert i in Kept(locations) <==> i in shifted;
        }
      }
    }
  }

  /** Filtering twice is filtering once. */
  lemma {:induction false} LlistFilterIdempotent(locations: seq<string>)
    ensures LlistFilter(LlistFilter(locations)) == LlistFilter(locations)
  {
    if locations != [] {
      LlistFilterIdempotent(locations[1..]);
      var r := LlistFilter(locations);
      if Header(locations[0]) {
        assert r == [] + LlistFilter(locations[1..]) == LlistFilter(locations[1..]);
      } else {
        assert r == [locations[0]] + LlistFilter(locations[1..]);
        assert r[0] == locations[0] && r[1..] == LlistFilter(locations[1..]);
      }
    }
  }

  // ---------------------------------------------------------------------
  // pdb's _BreakpointImpl.query

  /** What one line of pdb's `break` listing contributes: the line number
      and the id, for an enabled breakpoint in fname. A line that raises
      IndexError (too few words, no colon in the last word) is skipped. */
  function QueryRow(fname: string, row: string): Option<(string, string)>
  {
    var tokens := SplitWs(row);
    var bid := tokens[0];
    if |tokens| < 2 || tokens[1] != "breakpoint" then None
    else if |tokens| < 4 || tokens[3] != "yes" then None
    else
      var srcLine := Split(tokens[|tokens| - 1], ':');
      if fname != srcLine[0] || |srcLine| < 2 then None
      else Some((srcLine[1], bid))
  }

  function QueryRows(fname: string, lines: seq<string>): (r: seq<Option<(string, string)>>)
    ensures |r| == |lines| && forall i :: 0 <= i < |lines| ==> r[i] == QueryRow(fname, lines[i])
  {
    seq(|lines|, i requires 0 <= i < |lines| => QueryRow(fname, lines[i]))
  }

  /** `query(fname)` on the response to `break`: the loop over its lines. */
  method Query(fname: string, response: string) returns (breaks: Dict.Dict<string, seq<string>>)
    ensures breaks == Dict.Group(QueryRows(fname, SplitLines(response)))
    ensures Dict.Unique(breaks)
  {
    var lines := SplitLines(response);
    ghost var rows := QueryRows(fname, lines);
    breaks := [];
    for i := 0 to |lines|
      invariant breaks == Dict.Group(rows[..i])
    {
      assert rows[..i + 1][..i] == rows[..i];
      var row := QueryRow(fname, lines[i]);
      if row.Some? {
        breaks := Dict.Append(breaks, row.value.0, row.value.1);
      }
    }
    assert rows[..|lines|] == rows;
    Dict.GroupSpec(rows, []);
  }

  /** A line whose second word is not `breakpoint` contributes nothing. */
  lemma QuerySkips(fname: string, first: string, second: string, rest: string)
    requires NoSpace(first) && |second| > 0 && NoSpace(second) && second != "breakpoint"
    requires rest == [] || IsSpace(rest[0])
    ensures QueryRow(fname, first + " " + (second + rest)) == None
  {
    var tail := second + rest;
    assert tail[0] == second[0];
    SplitWsCons(first, tail);
    assert NextSpace(tail, 0) == |second| by {
      assert forall x :: 0 <= x < |second| ==> tail[x] == second[x];
      assert rest != [] ==> tail[|second|] == rest[0];
    }
    assert tail[..|second|] == second;
  }

  /** The header of the listing contributes nothing. */
  lemma QueryHeader(fname: string)
    ensures QueryRow(fname, "Num" + " " + ("Type" + "         Disp Enb   Where")) == None
  {
    assert NoSpace("Num") && NoSpace("Type") && IsSpace("         Disp Enb   Where"[0]);
    QuerySkips(fname, "Num", "Type", "         Disp Enb   Where");
  }

  /** A breakpoint row as pdb prints it contributes its line and id exactly
      when it is enabled and in fname. */
  lemma QueryRowFormat(fname: string, id: string, disp: string, enabled: string, file: string, line: string)
    requires |id| > 0 && NoSpace(id) && |disp| > 0 && NoSpace(disp) && |enabled| > 0 && NoSpace(enabled)
    requires |file| > 0 && NoSpace(file) && ':' !in file && AllDigits(line)
    ensures QueryRow(fname, Join([id, "breakpoint", disp, enabled, "at", file + ":" + line], " "))
         == if enabled == "yes" && file == fname then Some((line, id)) else None
  {
    var last := file + ":" + line;
    LocationWord(file, line);
    DigitsPlain(line);
    var ws := [id, "breakpoint", disp, enabled, "at", last];
    assert NoSpace("breakpoint") && NoSpace("at");
    assert |last| > 0;
    JoinWords(ws);
    SplitLocation(file, line);
  }

  // ---------------------------------------------------------------------
  // The parsers' transition tables

  /** The patterns of rplugin/python3/gdb/backend/gdb.py, as their source
      text. */
  const GdbPrompt := "\\x1a\\x1a\\x1a$"
  const GdbJump := "[\\r\\n]\\x1a\\x1a([^:]+):(\\d+):\\d+"
  const GdbContinuing := "[\\r\\n]Continuing\\."
  const GdbBreakpoint := "[\\r\\n]Breakpoint \\d+"

  /** The GDB parser as its constructor leaves it: `Continuing.` first
      when paused, and it starts running. */
  function GdbParser(): Fsm
  {
    Fsm([Transition(GdbBreakpoint, QueryB), Transition(GdbPrompt, QueryB), Transition(GdbJump, PausedJump)],
        [Transition(GdbContinuing, PausedContinue), Transition(GdbJump, PausedJump), Transition(GdbPrompt, QueryB)],
        Running, "\n", [])
  }

  /** `_ParserImpl.__init__` of the GDB backend. */
  method NewGdbParser(engine: Engine) returns (p: ParserImpl)
    requires PatternConsumes(engine, GdbContinuing) && PatternConsumes(engine, GdbJump)
    requires PatternConsumes(engine, GdbPrompt) && PatternConsumes(engine, GdbBreakpoint)
    ensures fresh(p) && p.Valid() && p.engine == engine && p.Value() == GdbParser()
  {
    p := new ParserImpl(engine);
    p.AddTrans(Paused, GdbContinuing, PausedContinue);
    p.AddTrans(Paused, GdbJump, PausedJump);
    p.AddTrans(Paused, GdbPrompt, QueryB);
    p.AddTrans(Running, GdbBreakpoint, QueryB);
    p.AddTrans(Running, GdbPrompt, QueryB);
    p.AddTrans(Running, GdbJump, PausedJump);
    p.current := Running;
  }

  /** While paused, `Continuing.` wins over the other two patterns: the
      program is reported continuing and the parser runs. */
  lemma GdbContinues(engine: Engine, f: Fsm)
    requires f.running == GdbParser().running && f.paused == GdbParser().paused && f.current == Paused
    requires Search(engine, GdbContinuing, f.buffer).Some?
    ensures var r := AfterSearch(engine, f);
      r.result == Ok(true) && r.fsm.current == Running && r.fsm.events == f.events + [ContinueProgram]
  {
  }

  /** Whatever fires while GDB runs, the parser ends up paused. */
  lemma GdbStops(engine: Engine, f: Fsm)
    requires f.running == GdbParser().running && f.current == Running
    ensures var r := AfterSearch(engine, f);
      r.result == Ok(true) ==> r.fsm.current == Paused
  {
  }

  /** The patterns of rplugin/python3/gdb/backend/pdb.py. */
  const PdbJump := "[\\r\\n ]> ([^(]+)\\((\\d+)\\)[^(]+\\(\\)"
  const PdbPrompt := "[\\r\\n]\\(Pdb\\+?\\+?\\) $"

  /** The pdb parser as its constructor leaves it: running, and a jump seen
      while running keeps it running. */
  function PdbParser(): Fsm
  {
    Fsm([Transition(PdbJump, RunningJump), Transition(PdbPrompt, QueryB)],
        [Transition(PdbJump, PausedJump), Transition(PdbPrompt, QueryB)],
        Running, "\n", [])
  }

  /** `_ParserImpl.__init__` of the pdb backend. */
  method NewPdbParser(engine: Engine) returns (p: ParserImpl)
    requires PatternConsumes(engine, PdbJump) && PatternConsumes(engine, PdbPrompt)
    ensures fresh(p) && p.Valid() && p.engine == engine && p.Value() == PdbParser()
  {
    p := new ParserImpl(engine);
    p.AddTrans(Paused, PdbJump, PausedJump);
    p.AddTrans(Paused, PdbPrompt, QueryB);
    p.AddTrans(Running, PdbJump, RunningJump);
    p.AddTrans(Running, PdbPrompt, QueryB);
    p.current := Running;
  }

  /** While pdb runs, a location is reported and the parser keeps running;
      only the prompt pauses it, and only when the jump pattern matches
      nowhere in the buffer, since the transitions are tried in list
      order. */
  lemma PdbRunning(engine: Engine, f: Fsm)
    requires f.running == PdbParser().running && f.current == Running
    ensures var r := AfterSearch(engine, f);
      && (Search(engine, PdbJump, f.buffer).Some? && r.result.Ok? ==>
            r.fsm.current == Running && |r.fsm.events| == |f.events| + 1
            && r.fsm.events[|f.events|].JumpToSource?)
      && (Search(engine, PdbJump, f.buffer).None? && Search(engine, PdbPrompt, f.buffer).Some? ==>
            r.result == Ok(true) && r.fsm.current == Paused && r.fsm.events == f.events + [QueryBreakpoints])
  {
    if Search(engine, PdbJump, f.buffer).None? && Search(engine, PdbPrompt, f.buffer).Some? {
      assert FirstMatch(engine, f.running, f.buffer, 0) == FirstMatch(engine, f.running, f.buffer, 1);
    }
  }

  /** In both shipped parsers the running and paused lists differ, so
      there `is_paused` and `is_running` as written agree with the intended
      tests: both answer yes only in a parser no backend has added
      transitions to. */
  lemma ShippedListsDiffer(f: Fsm)
    ensures GdbParser().running != GdbParser().paused && PdbParser().running != PdbParser().paused
    ensures (f.running == GdbParser().running && f.paused == GdbParser().paused)
            || (f.running == PdbParser().running && f.paused == PdbParser().paused) ==>
              IsPausedAsWritten(f) == IsPaused(f) && IsRunningAsWritten(f) == IsRunning(f)
              && IsPaused(f) != IsRunning(f)
  {
    assert GdbParser().running[0].action != GdbParser().paused[0].action;
    assert PdbParser().running[0].action != PdbParser().paused[0].action;
    if f.running != f.paused {
      StateTests(f);
    }
  }

  /** Once paused, pdb's parser stays paused. */
  lemma PdbStaysPaused(engine: Engine, f: Fsm)
    requires f.paused == PdbParser().paused && f.current == Paused
    ensures AfterSearch(engine, f).fsm.current == Paused
  {
  }
}
