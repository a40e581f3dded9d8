/**
 * lib/lldb_commands.py: the side channel that runs inside LLDB. Requests
 * arrive as datagrams `ID NAME ARGS...`; each is answered from the state of
 * the debugger, which is modelled as a value (the process state, the
 * selected frame, the breakpoints and their locations) together with the
 * two things the model cannot compute itself: LLDB's command interpreter
 * and `os.path.normpath`.
 */
module LldbCommands {
  import opened Common
  import Dict

  // ---------------------------------------------------------------------
  // The debugger, as the script sees it through the SB API

  /** `lldb.eState*`. */
  datatype ProcessState =
    | Invalid | Unloaded | Connected | Attaching | Launching | Stopped
    | Running | Stepping | Crashed | Detached | Exited | Suspended

  datatype FileSpec = FileSpec(directory: string, filename: string)

  datatype LineEntry = LineEntry(valid: bool, file: FileSpec, line: int)

  /** The selected frame of the selected thread, and its line entry. */
  datatype Frame = Frame(valid: bool, entry: LineEntry)

  /** A breakpoint and the line entries of its locations. */
  datatype Breakpoint = Breakpoint(enabled: bool, id: int, locations: seq<LineEntry>)

  datatype Debugger = Debugger(state: ProcessState, frame: Frame, breakpoints: seq<Breakpoint>)

  /** What `HandleCommand` leaves in the return object. */
  datatype CommandResult = CommandResult(error: string, output: string)

  /** The debugger with the command interpreter and path normalisation. */
  datatype Lldb = Lldb(debugger: Debugger, interpret: string -> CommandResult, normPath: string -> string)

  /** `os.path.join(a, b)`: an absolute b replaces a; otherwise a slash
      separates them unless a is empty or already ends with one. */
  function PathJoin(a: string, b: string): (r: string)
    ensures StartsWith(b, "/") ==> r == b
    ensures !StartsWith(b, "/") ==> EndsWith(r, b) && StartsWith(r, a)
  {
    if StartsWith(b, "/") then b
    else if a == [] || EndsWith(a, "/") then a + b
    else a + "/" + b
  }

  function PathOf(f: FileSpec): string
  {
    PathJoin(f.directory, f.filename)
  }

  // ---------------------------------------------------------------------
  // get_process_state and get_current_frame_location

  /** `get_process_state`. */
  function ProcessStateName(s: ProcessState): (r: string)
    ensures r == "running" <==> s == Running
    ensures r == "stopped" <==> s == Stopped
    ensures r == "running" || r == "stopped" || r == "other"
  {
    match s
    case Running => "running"
    case Stopped => "stopped"
    case _ => "other"
  }

  /** `[filepath, line]`, or `[]`. */
  datatype FrameLocation = NoFrame | FrameAt(path: string, line: int)

  /** `get_current_frame_location`. */
  function CurrentFrameLocation(f: Frame): (r: FrameLocation)
    ensures r.FrameAt? <==> f.valid && f.entry.valid
    ensures r.FrameAt? ==> r == FrameAt(PathOf(f.entry.file), f.entry.line)
  {
    if f.valid && f.entry.valid then FrameAt(PathOf(f.entry.file), f.entry.line)
    else NoFrame
  }

  // ---------------------------------------------------------------------
  // Breakpoints

  /** One location as `_enum_breaks` yields it: path, line and id. */
  datatype Hit = Hit(path: string, line: int, bid: string)

  /** The locations of one breakpoint that have a file name. */
  function LocationHits(bid: string, locs: seq<LineEntry>): (r: seq<Hit>)
    ensures |r| <= |locs|
  {
    if locs == [] then []
    else
      (if locs[0].file.filename == [] then [] else [Hit(PathOf(locs[0].file), locs[0].line, bid)])
      + LocationHits(bid, locs[1..])
  }

  /** `_enum_breaks`: the located hits of the enabled breakpoints, in
      breakpoint order and then location order. */
  function Hits(bps: seq<Breakpoint>): seq<Hit>
  {
    if bps == [] then []
    else (if bps[0].enabled then LocationHits(IntToString(bps[0].id), bps[0].locations) else [])
         + Hits(bps[1..])
  }

  /** A location is yielded exactly when it has a file name. */
  lemma {:induction false} LocationHitsMembers(bid: string, locs: seq<LineEntry>, h: Hit)
    ensures h in LocationHits(bid, locs) <==>
              exists j :: 0 <= j < |locs| && locs[j].file.filename != []
                          && h == Hit(PathOf(locs[j].file), locs[j].line, bid)
  {
    if locs != [] {
      LocationHitsMembers(bid, locs[1..], h);
      if exists j :: 0 <= j < |locs| && locs[j].file.filename != [] && h == Hit(PathOf(locs[j].file), locs[j].line, bid) {
        var j :| 0 <= j < |locs| && locs[j].file.filename != [] && h == Hit(PathOf(locs[j].file), locs[j].line, bid);
        if j > 0 {
          assert locs[1..][j - 1] == locs[j];
        }
      }
      if exists j :: 0 <= j < |locs[1..]| && locs[1..][j].file.filename != []
                     && h == Hit(PathOf(locs[1..][j].file), locs[1..][j].line, bid) {
        var j :| 0 <= j < |locs[1..]| && locs[1..][j].file.filename != []
                 && h == Hit(PathOf(locs[1..][j].file), locs[1..][j].line, bid);
        assert locs[j + 1] == locs[1..][j];
      }
    }
  }

  /** What `_enum_breaks` yields: a hit for each location with a file name
      of each enabled breakpoint, and nothing else. */
  lemma {:induction false} HitsMembers(bps: seq<Breakpoint>, h: Hit)
    ensures h in Hits(bps) <==>
              exists i :: 0 <= i < |bps| && bps[i].enabled && h in LocationHits(IntToString(bps[i].id), bps[i].locations)
  {
    if bps != [] {
      HitsMembers(bps[1..], h);
      if exists i :: 0 <= i < |bps| && bps[i].enabled && h in LocationHits(IntToString(bps[i].id), bps[i].locations) {
        var i :| 0 <= i < |bps| && bps[i].enabled && h in LocationHits(IntToString(bps[i].id), bps[i].locations);
        if i > 0 {
          assert bps[1..][i - 1] == bps[i];
        }
      }
      if exists i :: 0 <= i < |bps[1..]| && bps[1..][i].enabled
                     && h in LocationHits(IntToString(bps[1..][i].id), bps[1..][i].locations) {
        var i :| 0 <= i < |bps[1..]| && bps[1..][i].enabled
                 && h in LocationHits(IntToString(bps[1..][i].id), bps[1..][i].locations);
        assert bps[i + 1] == bps[1..][i];
      }
    }
  }

  /** What a hit contributes to the table for fname. */
  function HitRow(normPath: string -> string, fname: string, h: Hit): Option<(int, string)>
  {
    if fname == normPath(h.path) then Some((h.line, h.bid)) else None
  }

  function Rows(normPath: string -> string, fname: string, hits: seq<Hit>): (r: seq<Option<(int, string)>>)
    ensures |r| == |hits| && forall i :: 0 <= i < |hits| ==> r[i] == HitRow(normPath, fname, hits[i])
  {
    seq(|hits|, i requires 0 <= i < |hits| => HitRow(normPath, fname, hits[i]))
  }

  /** `_get_breaks(fname, debugger)`: the loop grouping ids by line. */
  method GetBreaks(normPath: string -> string, fname: string, hits: seq<Hit>) returns (breaks: Dict.Dict<int, seq<string>>)
    ensures breaks == Dict.Group(Rows(normPath, fname, hits))
    ensures Dict.Unique(breaks)
  {
    ghost var rows := Rows(normPath, fname, hits);
    breaks := [];
    for i := 0 to |hits|
      invariant breaks == Dict.Group(rows[..i])
    {
      assert rows[..i + 1][..i] == rows[..i];
      if fname == normPath(hits[i].path) {
        breaks := Dict.Append(breaks, hits[i].line, hits[i].bid);
      }
    }
    assert rows[..|hits|] == rows;
    Dict.GroupSpec(rows, 0);
  }

  /** The ids of the hits at a line of fname, in enumeration order. */
  function IdsAt(normPath: string -> string, fname: string, hits: seq<Hit>, line: int): seq<string>
  {
    if hits == [] then []
    else
      var h := hits[|hits| - 1];
      IdsAt(normPath, fname, hits[..|hits| - 1], line)
      + (if fname == normPath(h.path) && h.line == line then [h.bid] else [])
  }

  /** The table lists, for every line, the ids of the hits in fname at that
      line in enumeration order, and has no entry for a line without one. */
  lemma {:induction false} BreaksSpec(normPath: string -> string, fname: string, hits: seq<Hit>, line: int)
    ensures var ids := IdsAt(normPath, fname, hits, line);
      Dict.Get(Dict.Group(Rows(normPath, fname, hits)), line) == if ids == [] then None else Some(ids)
  {
    RowsIds(normPath, fname, hits, line);
    Dict.GroupSpec(Rows(normPath, fname, hits), line);
  }

  lemma {:induction false} RowsIds(normPath: string -> string, fname: string, hits: seq<Hit>, line: int)
    ensures Dict.ValuesFor(Rows(normPath, fname, hits), line) == IdsAt(normPath, fname, hits, line)
  {
    if hits != [] {
      var init := hits[..|hits| - 1];
      assert Rows(normPath, fname, hits)[..|hits| - 1] == Rows(normPath, fname, init);
      RowsIds(normPath, fname, init, line);
    }
  }

  /** One line of `_get_all_breaks`: `PATH:LINE breakpoint ID`. */
  function BreakLine(h: Hit): string
  {
    h.path + ":" + IntToString(h.line) + " breakpoint " + h.bid
  }

  function BreakLines(hits: seq<Hit>): (r: seq<string>)
    ensures |r| == |hits| && forall i :: 0 <= i < |hits| ==> r[i] == BreakLine(hits[i])
  {
    seq(|hits|, i requires 0 <= i < |hits| => BreakLine(hits[i]))
  }

  /** `_get_all_breaks`: the loop collecting one line per hit, joined. */
  method GetAllBreaks(hits: seq<Hit>) returns (r: string)
    ensures r == Join(BreakLines(hits), "\n")
  {
    var breaks: seq<string> := [];
    for i := 0 to |hits|
      invariant breaks == BreakLines(hits[..i])
    {
      breaks := breaks + [BreakLine(hits[i])];
    }
    assert hits[..|hits|] == hits;
    r := Join(breaks, "\n");
  }

  lemma NoNewlineInNumber(i: int)
    ensures '\n' !in IntToString(i)
  {
    var s := if i < 0 then NatToString(-i) else NatToString(i);
    assert forall x :: 0 <= x < |s| ==> IsDigit(s[x]);
  }

  /** When no path holds a newline, the listing splits back into one line
      per hit, in enumeration order. */
  lemma AllBreaksLines(hits: seq<Hit>)
    requires hits != []
    requires forall i :: 0 <= i < |hits| ==> '\n' !in hits[i].path && '\n' !in hits[i].bid
    ensures Split(Join(BreakLines(hits), "\n"), '\n') == BreakLines(hits)
  {
    forall i | 0 <= i < |hits| ensures '\n' !in BreakLine(hits[i]) {
      NoNewlineInNumber(hits[i].line);
    }
    JoinSplit(BreakLines(hits), '\n');
  }

  // ---------------------------------------------------------------------
  // The request loop

  /** `str.strip()`. */
  function StripText(s: string): (r: string)
    ensures r == [] || (!IsSpace(r[0]) && !IsSpace(r[|r| - 1]))
    ensures exists a, b :: 0 <= a <= b <= |s| && r == s[a..b]
    decreases |s|
  {
    if s != [] && IsSpace(s[0]) then
      var r := StripText(s[1..]);
      var a, b :| 0 <= a <= b <= |s[1..]| && r == s[1..][a..b];
      assert r == s[a + 1..b + 1];
      r
    else if s != [] && IsSpace(s[|s| - 1]) then
      var r := StripText(s[..|s| - 1]);
      var a, b :| 0 <= a <= b <= |s[..|s| - 1]| && r == s[..|s| - 1][a..b];
      assert r == s[a..b];
      r
    else
      assert s == s[0..|s|];
      s
  }

  /** A request: its id, its name and its arguments. */
  datatype Request = Request(id: int, name: string, args: seq<string>)

  /** `re.split(r"\s+", command)` and the three assignments after it: the
      id must be an integer and a name must follow. */
  function ParseRequest(data: string): (r: Result<Request>)
    ensures r.Ok? <==> ParseInt(SplitWs(data)[0]).Some? && |SplitWs(data)| >= 2
    ensures r.Ok? ==> SplitWs(data) == [SplitWs(data)[0], r.value.name] + r.value.args
  {
    var tokens := SplitWs(data);
    match ParseInt(tokens[0])
    case None => Raise("ValueError")
    case Some(id) =>
      if |tokens| < 2 then Raise("IndexError")
      else
        assert tokens == [tokens[0], tokens[1]] + tokens[2..];
        Ok(Request(id, tokens[1], tokens[2..]))
  }

  /** A request as the plugin writes it, the id and words separated by
      single spaces, parses back into its parts. */
  lemma {:induction false} RequestRoundTrip(id: nat, name: string, args: seq<string>)
    requires |name| > 0 && NoSpace(name)
    requires forall i :: 0 <= i < |args| ==> |args[i]| > 0 && NoSpace(args[i])
    ensures ParseRequest(Join([NatToString(id), name] + args, " ")) == Ok(Request(id, name, args))
  {
    DigitsPlain(NatToString(id));
    JoinWords([NatToString(id), name] + args);
    ParseNatToString(id);
    assert ([NatToString(id), name] + args)[2..] == args;
  }

  /** What the script sends for one request. */
  datatype Response =
    | Breaks(table: Dict.Dict<int, seq<string>>)
    | StateName(name: string)
    | Location(location: FrameLocation)
    | Text(text: string)

  /** The outcome of one datagram: a reply and the loop goes on, nothing and
      the loop goes on, a reply and the loop ends (`return`), or an uncaught
      exception that ends the loop. */
  datatype Outcome =
    | Reply(id: int, response: Response)
    | Quiet
    | Last(id: int, response: Response)
    | Crash(exception: string)

  predicate Ends(o: Outcome) { o.Last? || o.Crash? }

  /** The body of `_server`'s loop for one datagram. */
  function Step(l: Lldb, data: string): (o: Outcome)
  {
    match ParseRequest(data)
    case Raise(e) => Crash(e)
    case Ok(Request(id, name, args)) =>
      if name == "info-breakpoints" then
        if args == [] then Crash("IndexError")
        else Reply(id, Breaks(Dict.Group(Rows(l.normPath, l.normPath(args[0]), Hits(l.debugger.breakpoints)))))
      else if name == "get-process-state" then
        Reply(id, StateName(ProcessStateName(l.debugger.state)))
      else if name == "get-current-frame-location" then
        Reply(id, Location(CurrentFrameLocation(l.debugger.frame)))
      else if name == "handle-command" then
        // The IndexError of a missing argument is caught and logged.
        if args == [] then Quiet
        else if args[0] == "nvim-gdb-info-breakpoints" then
          Last(id, Text(Join(BreakLines(Hits(l.debugger.breakpoints)), "\n")))
        else
          var result := l.interpret(Join(args, " "));
          Reply(id, Text(StripText(result.error + result.output)))
      else Quiet
  }

  /** `handle-command nvim-gdb-info-breakpoints` is answered with the list
      of all breakpoints, and the loop ends. */
  lemma InfoBreakpointsEnds(l: Lldb, id: nat, rest: seq<string>)
    requires forall i :: 0 <= i < |rest| ==> |rest[i]| > 0 && NoSpace(rest[i])
    ensures var data := Join([NatToString(id), "handle-command", "nvim-gdb-info-breakpoints"] + rest, " ");
      Step(l, data) == Last(id, Text(Join(BreakLines(Hits(l.debugger.breakpoints)), "\n")))
  {
    InfoBreakpointsParses(id, rest);
    assert "handle-command" != "info-breakpoints" && "handle-command" != "get-process-state"
      && "handle-command" != "get-current-frame-location";
  }

  /** The datagram of `handle-command nvim-gdb-info-breakpoints` parses
      into its request. */
  lemma InfoBreakpointsParses(id: nat, rest: seq<string>)
    requires forall i :: 0 <= i < |rest| ==> |rest[i]| > 0 && NoSpace(rest[i])
    ensures ParseRequest(Join([NatToString(id), "handle-command", "nvim-gdb-info-breakpoints"] + rest, " "))
      == Ok(Request(id, "handle-command", ["nvim-gdb-info-breakpoints"] + rest))
  {
    var args := ["nvim-gdb-info-breakpoints"] + rest;
    assert NoSpace("handle-command");
    assert NoSpace("nvim-gdb-info-breakpoints");
    RequestRoundTrip(id, "handle-command", args);
    assert [NatToString(id), "handle-command"] + args
        == [NatToString(id), "handle-command", "nvim-gdb-info-breakpoints"] + rest;
  }

  /** A datagram sent back: the request id and the response. */
  datatype Sent = Sent(request: int, response: Response)

  /** What the loop sends for a run of datagrams and how many it reads
      before it ends (all of them if it never does). */
  datatype Session = Session(sent: seq<Sent>, read: nat)

  /** The session for the outcomes of the datagrams, in order. */
  function Run(os: seq<Outcome>): (r: Session)
    ensures r.read <= |os|
  {
    if os == [] then Session([], 0)
    else
      match os[0]
      case Crash(_) => Session([], 1)
      case Last(id, resp) => Session([Sent(id, resp)], 1)
      case Quiet => var r := Run(os[1..]); Session(r.sent, r.read + 1)
      case Reply(id, resp) => var r := Run(os[1..]); Session([Sent(id, resp)] + r.sent, r.read + 1)
  }

  /** The loop reads up to and including the first outcome that ends it,
      and no further. */
  lemma {:induction false} RunEnds(os: seq<Outcome>)
    ensures var n := Run(os).read;
      && (forall k :: 0 <= k < n - 1 ==> !Ends(os[k]))
      && (n < |os| ==> n > 0 && Ends(os[n - 1]))
  {
    if os != [] {
      RunEnds(os[1..]);
      var n := Run(os).read;
      if !Ends(os[0]) {
        forall k | 0 < k < n - 1 ensures !Ends(os[k]) {
          assert os[1..][k - 1] == os[k];
        }
        if n < |os| {
          assert os[1..][n - 2] == os[n - 1];
        }
      }
    }
  }

  function Outcomes(l: Lldb, ds: seq<string>): (os: seq<Outcome>)
    ensures |os| == |ds| && forall i :: 0 <= i < |ds| ==> os[i] == Step(l, ds[i])
  {
    seq(|ds|, i requires 0 <= i < |ds| => Step(l, ds[i]))
  }

  function Serve(l: Lldb, ds: seq<string>): Session
  {
    Run(Outcomes(l, ds))
  }

  /** The server reads up to and including the first datagram that ends
      it, and no further. */
  lemma ServeEnds(l: Lldb, ds: seq<string>)
    ensures var n := Serve(l, ds).read;
      && n <= |ds|
      && (forall k :: 0 <= k < n - 1 ==> !Ends(Step(l, ds[k])))
      && (n < |ds| ==> n > 0 && Ends(Step(l, ds[n - 1])))
  {
    RunEnds(Outcomes(l, ds));
  }

  /** What the rest of the datagrams give, from the one at `i`: the
      outcome of datagram `i` in front of what the ones after it give,
      unless it ends the loop. */
  lemma RunAt(os: seq<Outcome>, i: nat)
    requires i < |os|
    ensures os[i].Crash? ==> Run(os[i..]) == Session([], 1)
    ensures os[i].Last? ==> Run(os[i..]) == Session([Sent(os[i].id, os[i].response)], 1)
    ensures os[i].Quiet? ==> Run(os[i..]) == Session(Run(os[i + 1..]).sent, Run(os[i + 1..]).read + 1)
    ensures os[i].Reply? ==>
      Run(os[i..]) == Session([Sent(os[i].id, os[i].response)] + Run(os[i + 1..]).sent, Run(os[i + 1..]).read + 1)
  {
    assert os[i..][0] == os[i];
    assert os[i..][1..] == os[i + 1..];
  }

  /** What the loop sends for one outcome, and whether it stops there. */
  method Deliver(o: Outcome, sent: seq<Sent>) returns (sent': seq<Sent>, done: bool)
    ensures done == Ends(o)
    ensures sent' == sent + if o.Reply? || o.Last? then [Sent(o.id, o.response)] else []
  {
    match o {
      case Crash(_) =>
        sent', done := sent, true;
      case Last(id, resp) =>
        sent', done := sent + [Sent(id, resp)], true;
      case Quiet =>
        sent', done := sent, false;
      case Reply(id, resp) =>
        sent', done := sent + [Sent(id, resp)], false;
    }
  }

  /** The turn of `_server`'s loop that ends it has sent everything the
      datagrams give. */
  lemma DeliverEnds(os: seq<Outcome>, read: nat, sent: seq<Sent>, sent': seq<Sent>, total: Session)
    requires read < |os| && Ends(os[read])
    requires total == Session(sent + Run(os[read..]).sent, read + Run(os[read..]).read)
    requires sent' == sent + if os[read].Last? then [Sent(os[read].id, os[read].response)] else []
    ensures total == Session(sent', read + 1)
  {
    RunAt(os, read);
    if os[read].Crash? {
      assert sent + [] == sent;
    }
  }

  /** A turn of `_server`'s loop that does not end it keeps what it has
      sent in step with what the remaining datagrams give. */
  lemma DeliverContinues(os: seq<Outcome>, read: nat, sent: seq<Sent>, sent': seq<Sent>, total: Session)
    requires read < |os| && !Ends(os[read])
    requires total == Session(sent + Run(os[read..]).sent, read + Run(os[read..]).read)
    requires sent' == sent + if os[read].Reply? then [Sent(os[read].id, os[read].response)] else []
    ensures total == Session(sent' + Run(os[read + 1..]).sent, read + 1 + Run(os[read + 1..]).read)
  {
    RunAt(os, read);
    var rest := Run(os[read + 1..]).sent;
    if os[read].Reply? {
      var x := [Sent(os[read].id, os[read].response)];
      assert sent + (x + rest) == sent + x + rest;
    } else {
      assert sent + [] == sent;
    }
  }

  /** `_server`: the loop over the datagrams that arrive. */
  method Server(l: Lldb, ds: seq<string>) returns (sent: seq<Sent>, read: nat)
    ensures Session(sent, read) == Serve(l, ds)
  {
    ghost var os := Outcomes(l, ds);
    ghost var total := Run(os);
    sent, read := [], 0;
    var done := false;
    while !done && read < |ds|
      invariant read <= |ds|
      invariant done ==> total == Session(sent, read)
      invariant !done ==> total == Session(sent + Run(os[read..]).sent, read + Run(os[read..]).read)
      decreases |ds| - read, !done
    {
      var o := Step(l, ds[read]);
      ghost var before := sent;
      sent, done := Deliver(o, sent);
      if done {
        DeliverEnds(os, read, before, sent, total);
      } else {
        DeliverContinues(os, read, before, sent, total);
      }
      read := read + 1;
    }
    if !done {
      assert os[read..] == [];
    }
  }
}
