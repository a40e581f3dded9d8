/**
 * The oldest pty proxy, lib/BaseProxy.py, with the bashdb subclass
 * lib/bashdbproxy.py that turns side commands into bashdb commands. Besides
 * `handle-command` it understands `info-breakpoints FILE`, whose captured
 * reply is parsed into a table from line number to the ids of the enabled
 * breakpoints of FILE on that line.
 *
 * As in the other proxies, each operation is a function on a value `Proxy`
 * and the class `BashDbProxy` is proved to agree with those functions.
 */
module LegacyProxy {
  import opened Common
  import opened StreamFilters
  import opened FilterStack
  import Dict
  import ControlSequences

  /** What the captured reply of a side command is turned into. */
  datatype Handler =
    | NoHandler                      // the passthrough's `None`
    | InfoBreakpoints(lastSrc: string) // `ProcessInfoBreakpoints`
    | HandleCommand(cmd: string)     // `ProcessHandleCommand`

  /** What a handler returns: bytes, or the breakpoint table that is sent
      JSON-encoded. */
  datatype Answer = Text(text: string) | Table(breaks: Dict.Dict<string, seq<int>>)

  /** `if res:` -- the JSON text of a table is never empty. */
  predicate Truthy(a: Answer)
  {
    a.Table? || a.text != []
  }

  /** A datagram received: the sender and the bytes. */
  datatype Request = Request(peer: nat, data: string)

  /** A datagram sent: the address and the answer. */
  datatype Sent = Sent(to: nat, answer: Answer)

  datatype Proxy = Proxy(
    filters: Stack<Handler>,
    lastAddr: Option<nat>,   // unset until the first datagram
    stdout: string,
    master: string,
    sent: seq<Sent>)

  const Bottom: Entry<Handler> := Entry(Passthrough, NoHandler)
  /** `BashDbProxy.PROMPT`, as the pattern handed to the regular-expression
      engine. */
  const Prompt := "[\r\n]bashdb<\\(?\\d+\\)?> "

  predicate Sound(p: Proxy)
  {
    Stacked(p.filters) && p.filters[0] == Bottom
  }

  /** A filter above the passthrough has a handler and an address to send
      its answer to. */
  predicate Answerable(p: Proxy)
  {
    Sound(p) && (|p.filters| == 2 ==> p.lastAddr.Some? && !p.filters[1].handler.NoHandler?)
  }

  function Init(): (p: Proxy)
    ensures Answerable(p) && |p.filters| == 1
  {
    Proxy([Bottom], None, [], [], [])
  }

  // ---------------------------------------------------------------------
  // The breakpoint table

  /** `re.fullmatch('([^:]+):(\d+)', field)`: a nonempty file name without
      a colon, a colon, and one or more digits. */
  function Location(field: string): (r: Option<(string, string)>)
    ensures r.Some? ==> field == r.value.0 + ":" + r.value.1
    ensures r.Some? ==> |r.value.0| > 0 && ':' !in r.value.0 && AllDigits(r.value.1)
  {
    var i := NextChar(field, 0, ':');
    if 0 < i < |field| && AllDigits(field[i + 1..]) then
      assert field == field[..i] + ":" + field[i + 1..];
      Some((field[..i], field[i + 1..]))
    else None
  }

  /** Every field of that shape is recognised, and split at its colon. */
  lemma LocationFormat(file: string, line: string)
    requires |file| > 0 && ':' !in file && AllDigits(line)
    ensures Location(file + ":" + line) == Some((file, line))
  {
    var field := file + ":" + line;
    assert field[|file|] == ':';
    assert forall x :: 0 <= x < |file| ==> field[x] == file[x];
    assert NextChar(field, 0, ':') == |file|;
    assert field[..|file|] == file && field[|file| + 1..] == line;
  }

  /** What one row of `info breakpoints` adds to the table, or `None` when
      the row is skipped, also when parsing it raises: the fourth field must
      be `y`, the last must be `FILE:LINE` with FILE the requested file, and
      the first must be an integer, the breakpoint id. */
  function Row(lastSrc: string, row: string): Option<(string, int)>
  {
    var fields := SplitWs(row);
    if |fields| < 4 || fields[3] != "y" then None
    else
      match Location(fields[|fields| - 1])
      case None => None
      case Some((file, line)) =>
        if file != lastSrc then None
        else
          match ParseInt(fields[0])
          case None => None
          case Some(id) => Some((line, id))
  }

  /** Five words joined by single spaces split back into the five words. */
  lemma SplitFive(a: string, b: string, c: string, d: string, e: string)
    requires NoSpace(a) && NoSpace(b) && NoSpace(c) && NoSpace(d) && NoSpace(e)
    requires |b| > 0 && |c| > 0 && |d| > 0 && |e| > 0
    ensures SplitWs(a + " " + (b + " " + (c + " " + (d + " " + e)))) == [a, b, c, d, e]
  {
    var de := d + " " + e;
    var cde := c + " " + de;
    var bcde := b + " " + cde;
    SplitWsWord(e);
    SplitWsCons(d, e);
    assert de[0] == d[0];
    SplitWsCons(c, de);
    assert cde[0] == c[0];
    SplitWsCons(b, cde);
    assert bcde[0] == b[0];
    SplitWsCons(a, bcde);
  }

  /** A row as bashdb prints it yields its line and id exactly when it is
      enabled and in the requested file. */
  lemma RowFormat(lastSrc: string, id: nat, kind: string, disp: string, enabled: string, file: string, line: string)
    requires |kind| > 0 && NoSpace(kind) && |disp| > 0 && NoSpace(disp) && |enabled| > 0 && NoSpace(enabled)
    requires |file| > 0 && ':' !in file && NoSpace(file) && AllDigits(line)
    ensures Row(lastSrc, NatToString(id) + " " + (kind + " " + (disp + " " + (enabled + " " + (file + ":" + line)))))
         == if enabled == "y" && file == lastSrc then Some((line, id as int)) else None
  {
    var last := file + ":" + line;
    LocationWord(file, line);
    var id' := NatToString(id);
    DigitsPlain(id');
    SplitFive(id', kind, disp, enabled, last);
    LocationFormat(file, line);
    ParseNatToString(id);
  }

  /** Each line of the response, parsed. */
  function Parse(lastSrc: string, lines: seq<string>): (r: seq<Option<(string, int)>>)
    ensures |r| == |lines| && forall i :: 0 <= i < |lines| ==> r[i] == Row(lastSrc, lines[i])
  {
    seq(|lines|, i requires 0 <= i < |lines| => Row(lastSrc, lines[i]))
  }

  /** `ProcessInfoBreakpoints(last_src, response)`, the table before it is
      JSON-encoded: colour sequences are removed, then every line is parsed. */
  function Breakpoints(lastSrc: string, response: string): Dict.Dict<string, seq<int>>
  {
    Dict.Group(Parse(lastSrc, SplitLines(ControlSequences.Remove(ControlSequences.LetterM, response))))
  }

  /** `ProcessInfoBreakpoints`: the loop over the lines of the response. */
  method ProcessInfoBreakpoints(lastSrc: string, response: string) returns (breaks: Dict.Dict<string, seq<int>>)
    ensures breaks == Breakpoints(lastSrc, response)
    ensures Dict.Unique(breaks)
  {
    var lines := SplitLines(ControlSequences.Remove(ControlSequences.LetterM, response));
    ghost var rows := Parse(lastSrc, lines);
    breaks := [];
    for i := 0 to |lines|
      invariant breaks == Dict.Group(rows[..i])
    {
      assert rows[..i + 1][..i] == rows[..i];
      var row := Row(lastSrc, lines[i]);
      if row.Some? {
        breaks := Dict.Append(breaks, row.value.0, row.value.1);
      }
    }
    assert rows[..|lines|] == rows;
    Dict.GroupSpec(rows, []);
  }

  // ---------------------------------------------------------------------
  // The filter stack

  /** `_timeout()`. */
  function AfterTimeout(p: Proxy): (q: Proxy)
    requires Sound(p)
    ensures Sound(q) && |q.filters| == 1 && q == p.(filters := q.filters, stdout := q.stdout)
    ensures Armed(p.filters[|p.filters| - 1].filter) ==>
              q.stdout == p.stdout + Pending(p.filters[|p.filters| - 1].filter)
    ensures !Armed(p.filters[|p.filters| - 1].filter) ==> q.stdout == p.stdout
  {
    var (s, out) := Release(p.filters);
    p.(filters := s, stdout := p.stdout + out)
  }

  /** `set_filter(f, handler)`. */
  function AfterSetFilter(p: Proxy, e: Entry<Handler>): (r: (Proxy, bool))
    requires Sound(p)
    ensures Sound(r.0) && r.0 == p.(filters := r.0.filters)
  {
    var (s, out, accepted) := Push(p.filters, e);
    PushOnlyOne(p.filters, e);
    (p.(filters := s), accepted)
  }

  /** At most one side command at a time. */
  lemma SetFilterOnlyOne(p: Proxy, e: Entry<Handler>)
    requires Sound(p)
    ensures var (q, accepted) := AfterSetFilter(p, e);
      && (accepted <==> |p.filters| == 1)
      && (accepted ==> q == p.(filters := p.filters + [e]))
      && (!accepted ==> q == p)
  {
    PushOnlyOne(p.filters, e);
  }

  // ---------------------------------------------------------------------
  // Commands from the side channel

  /** `FilterCommand(command)`: the proxy and the bytes to run. An
      `info-breakpoints` without a file name raises (`tokens[1]`). */
  function AfterFilterCommand(p: Proxy, command: string): (r: (Proxy, Result<string>))
    requires Sound(p)
    ensures Sound(r.0) && r.0 == p.(filters := r.0.filters)
  {
    var tokens := SplitWs(command);
    if tokens[0] == "info-breakpoints" then
      if |tokens| < 2 then (p, Raise("IndexError"))
      else
        var (q, accepted) := AfterSetFilter(p, Entry(Stream([], Some(Prompt)), InfoBreakpoints(tokens[1])));
        (q, Ok(if accepted then "info breakpoints" else []))
    else if tokens[0] == "handle-command" then
      var cmd := CommandArgument(command);
      var (q, accepted) := AfterSetFilter(p, Entry(Stream([], Some(Prompt)), HandleCommand(cmd)));
      (q, Ok(if accepted then cmd else []))
    else (p, Ok(command))
  }

  /** `info-breakpoints FILE` runs `info breakpoints` with the table parser
      for FILE on top; `handle-command X` runs X with the answer handler on
      top; while another side command runs, both are dropped; any other
      command runs as it is. */
  lemma FilterCommandSpec(p: Proxy, command: string)
    requires Sound(p)
    ensures var (q, r) := AfterFilterCommand(p, command);
      var tokens := SplitWs(command);
      var filter := Stream([], Some(Prompt));
      && (tokens[0] == "info-breakpoints" && |tokens| >= 2 && |p.filters| == 1 ==>
            q == p.(filters := p.filters + [Entry(filter, InfoBreakpoints(tokens[1]))]) && r == Ok("info breakpoints"))
      && (tokens[0] == "info-breakpoints" && |tokens| == 1 ==> q == p && r == Raise("IndexError"))
      && (tokens[0] == "handle-command" && |p.filters| == 1 ==>
            q == p.(filters := p.filters + [Entry(filter, HandleCommand(CommandArgument(command)))])
            && r == Ok(CommandArgument(command)))
      && ((tokens[0] == "info-breakpoints" && |tokens| >= 2) || tokens[0] == "handle-command" ==>
            |p.filters| == 2 ==> q == p && r == Ok([]))
      && (tokens[0] != "info-breakpoints" && tokens[0] != "handle-command" ==> q == p && r == Ok(command))
  {
    var tokens := SplitWs(command);
    var filter := Stream([], Some(Prompt));
    if |tokens| >= 2 {
      SetFilterOnlyOne(p, Entry(filter, InfoBreakpoints(tokens[1])));
    }
    SetFilterOnlyOne(p, Entry(filter, HandleCommand(CommandArgument(command))));
  }

  /** The side-channel branch of `_process`: remember the sender, fail on an
      empty datagram (`data[-1]`), and write the translated command and a
      newline to the debugger unless it is empty. */
  function AfterReceiveCommand(p: Proxy, d: Request): (r: (Proxy, Result<()>))
    requires Sound(p)
    ensures Sound(r.0) && r.0.lastAddr == Some(d.peer) && r.0.sent == p.sent
  {
    var p1 := p.(lastAddr := Some(d.peer));
    if d.data == [] then (p1, Raise("IndexError"))
    else
      match AfterFilterCommand(p1, d.data)
      case (q, Raise(e)) => (q, Raise(e))
      case (q, Ok(command)) =>
        if command == [] then (q, Ok(())) else (q.(master := q.master + command + "\n"), Ok(()))
  }

  // ---------------------------------------------------------------------
  // Output of the debugger

  /** What the handler makes of the captured reply; `None` for the
      passthrough, whose handler cannot be called. */
  function Handle(h: Handler, filtered: string): (r: Option<Answer>)
    ensures r.Some? <==> !h.NoHandler?
  {
    match h
    case NoHandler => None
    case InfoBreakpoints(src) => Some(Table(Breakpoints(src, filtered)))
    case HandleCommand(cmd) => Some(Text(ControlSequences.CleanAnswer(cmd, filtered)))
  }

  /** `write_stdout(data)`: feed the top filter and show what it lets
      through; once it captures a nonempty reply, pop it and send the
      handler's answer to the last sender if the answer is not empty. */
  function AfterWriteStdout(engine: Engine, p: Proxy, data: string): (r: (Proxy, Result<()>))
    requires Sound(p)
    ensures Sound(r.0) && r.0.lastAddr == p.lastAddr && r.0.master == p.master
  {
    var (s, reply) := FeedTop(engine, p.filters, data);
    var p1 := p.(filters := s, stdout := p.stdout + reply.output);
    if reply.filtered.None? || reply.filtered.value == [] then (p1, Ok(()))
    else
      var p2 := p1.(filters := s[..1]);
      match Handle(s[1].handler, reply.filtered.value)
      case None => (p2, Raise("TypeError"))
      case Some(res) =>
        if !Truthy(res) then (p2, Ok(()))
        else if p.lastAddr.None? then (p2, Raise("AttributeError"))
        else (p2.(sent := p2.sent + [Sent(p.lastAddr.value, res)]), Ok(()))
  }

  /** With the passthrough alone, the debugger's output is shown as it is. */
  lemma WriteStdoutPassthrough(engine: Engine, p: Proxy, data: string)
    requires Sound(p) && |p.filters| == 1
    ensures AfterWriteStdout(engine, p, data) == (p.(stdout := p.stdout + data), Ok(()))
  {
  }

  /** When the prompt ends a nonempty capture, the text after it is shown,
      the passthrough is back alone, and the answer is sent to the last
      sender exactly when it is not empty. */
  lemma WriteStdoutCaptures(engine: Engine, p: Proxy, data: string, m: Match)
    requires Answerable(p) && |p.filters| == 2 && Armed(p.filters[1].filter)
    requires Search(engine, p.filters[1].filter.matcher.value, p.filters[1].filter.buffer + data) == Some(m)
    requires m.end > 0
    ensures var buf := p.filters[1].filter.buffer + data;
      var answer := Handle(p.filters[1].handler, buf[..m.end]).value;
      var q := p.(filters := [Bottom], stdout := p.stdout + buf[m.end..]);
      AfterWriteStdout(engine, p, data) ==
        (if Truthy(answer) then q.(sent := p.sent + [Sent(p.lastAddr.value, answer)]) else q, Ok(()))
  {
    var top := p.filters[1];
    var buf := top.filter.buffer + data;
    assert Feed(engine, top.filter, data) == (Stream([], None), Reply(buf[m.end..], Some(buf[..m.end])));
    var s := p.filters[1 := top.(filter := Stream([], None))];
    assert FeedTop(engine, p.filters, data) == (s, Reply(buf[m.end..], Some(buf[..m.end])));
    assert s[..1] == [Bottom];
    assert buf[..m.end] != [];
  }

  // ---------------------------------------------------------------------
  // User input and the main loop

  /** `stdin_read(data)`. */
  function AfterStdinRead(p: Proxy, data: string): (q: Proxy)
    ensures q == p.(master := p.master + data)
  {
    p.(master := p.master + data)
  }

  /** What `select` reports ready, each with the bytes read from it. */
  datatype Ready = Ready(child: Option<string>, stdin: Option<string>, command: Option<Request>)

  /** One pass of `_process`: the terminal is not polled while a side
      command runs; nothing ready is a timeout; otherwise the debugger comes
      first, then the user, then the side channel. */
  function AfterTurn(engine: Engine, p: Proxy, ready: Ready): (r: (Proxy, Result<()>))
    requires Sound(p)
    ensures Sound(r.0)
  {
    var stdin := if |p.filters| == 1 then ready.stdin else None;
    if ready.child.Some? then AfterWriteStdout(engine, p, ready.child.value)
    else if stdin.Some? then (AfterStdinRead(p, stdin.value), Ok(()))
    else if ready.command.Some? then AfterReceiveCommand(p, ready.command.value)
    else (AfterTimeout(p), Ok(()))
  }

  /** User input waits while a side command runs. */
  lemma StdinWaits(engine: Engine, p: Proxy, ready: Ready)
    requires Sound(p) && |p.filters| == 2
    ensures AfterTurn(engine, p, ready) == AfterTurn(engine, p, ready.(stdin := None))
  {
  }

  /** Every pass keeps the proxy answerable, and the only failures come from
      a malformed datagram: an empty one, or `info-breakpoints` without a
      file name. */
  lemma TurnAnswerable(engine: Engine, p: Proxy, ready: Ready)
    requires Answerable(p)
    ensures var (q, r) := AfterTurn(engine, p, ready);
      && Answerable(q)
      && (r.Raise? ==> r == Raise("IndexError") && ready.child.None? && ready.command.Some?
                       && (ready.command.value.data == [] || SplitWs(ready.command.value.data) == ["info-breakpoints"]))
  {
    var stdin := if |p.filters| == 1 then ready.stdin else None;
    if ready.child.None? && stdin.None? && ready.command.Some? && ready.command.value.data != [] {
      var d := ready.command.value;
      FilterCommandSpec(p.(lastAddr := Some(d.peer)), d.data);
    }
  }

  /** The bashdb proxy, whose fields the methods update in place. */
  class BashDbProxy {
    var filters: Stack<Handler>
    var lastAddr: Option<nat>
    var stdout: string
    var master: string
    var sent: seq<Sent>

    function Value(): Proxy
      reads this
    {
      Proxy(filters, lastAddr, stdout, master, sent)
    }

    ghost predicate Valid()
      reads this
    {
      Sound(Value())
    }

    /** `__init__`. */
    constructor ()
      ensures Valid() && Value() == Init()
    {
      filters, lastAddr, stdout, master, sent := [Bottom], None, [], [], [];
    }

    /** `_timeout()`. */
    method Timeout()
      requires Valid()
      modifies this
      ensures Valid() && Value() == AfterTimeout(old(Value()))
    {
      var top := filters[|filters| - 1];
      var (f, out) := StreamFilters.Expire(top.filter);
      stdout := stdout + out;
      if |filters| > 1 {
        filters := filters[..|filters| - 1];
      } else {
        filters := filters[|filters| - 1 := top.(filter := f)];
      }
    }

    /** `set_filter(f, handler)`. */
    method SetFilter(e: Entry<Handler>) returns (accepted: bool)
      requires Valid()
      modifies this
      ensures Valid() && (Value(), accepted) == AfterSetFilter(old(Value()), e)
    {
      if |filters| == 1 {
        Timeout();
        filters := filters + [e];
        return true;
      }
      return false;
    }

    /** `FilterCommand(command)`. */
    method FilterCommand(command: string) returns (r: Result<string>)
      requires Valid()
      modifies this
      ensures Valid() && (Value(), r) == AfterFilterCommand(old(Value()), command)
    {
      var tokens := SplitWs(command);
      if tokens[0] == "info-breakpoints" {
        if |tokens| < 2 {
          return Raise("IndexError");
        }
        var accepted := SetFilter(Entry(Stream([], Some(Prompt)), InfoBreakpoints(tokens[1])));
        return Ok(if accepted then "info breakpoints" else []);
      } else if tokens[0] == "handle-command" {
        var cmd := CommandArgument(command);
        var accepted := SetFilter(Entry(Stream([], Some(Prompt)), HandleCommand(cmd)));
        return Ok(if accepted then cmd else []);
      }
      return Ok(command);
    }

    /** The side-channel branch of `_process`. */
    method ReceiveCommand(d: Request) returns (r: Result<()>)
      requires Valid()
      modifies this
      ensures Valid() && (Value(), r) == AfterReceiveCommand(old(Value()), d)
    {
      lastAddr := Some(d.peer);
      if d.data == [] {
        return Raise("IndexError");
      }
      var command := FilterCommand(d.data);
      if command.Raise? {
        return Raise(command.exception);
      }
      if command.value != [] {
        master := master + command.value;
        master := master + "\n";
      }
      return Ok(());
    }

    /** The handler call of `write_stdout`. */
    method Call(h: Handler, filtered: string) returns (res: Option<Answer>)
      ensures res == Handle(h, filtered)
    {
      match h
      case NoHandler => return None;
      case InfoBreakpoints(src) =>
        var breaks := ProcessInfoBreakpoints(src, filtered);
        return Some(Table(breaks));
      case HandleCommand(cmd) => return Some(Text(ControlSequences.CleanAnswer(cmd, filtered)));
    }

    /** `write_stdout(data)`. */
    method WriteStdout(engine: Engine, data: string) returns (r: Result<()>)
      requires Valid()
      modifies this
      ensures Valid() && (Value(), r) == AfterWriteStdout(engine, old(Value()), data)
    {
      var top := filters[|filters| - 1];
      var (f, reply) := Feed(engine, top.filter, data);
      filters := filters[|filters| - 1 := top.(filter := f)];
      stdout := stdout + reply.output;
      if reply.filtered.None? || reply.filtered.value == [] {
        return Ok(());
      }
      filters := filters[..|filters| - 1];
      var res := Call(top.handler, reply.filtered.value);
      if res.None? {
        return Raise("TypeError");
      }
      if Truthy(res.value) {
        if lastAddr.None? {
          return Raise("AttributeError");
        }
        sent := sent + [Sent(lastAddr.value, res.value)];
      }
      return Ok(());
    }

    /** `stdin_read(data)`. */
    method StdinRead(data: string)
      modifies this
      ensures Value() == AfterStdinRead(old(Value()), data)
    {
      master := master + data;
    }

    /** One pass of `_process` with what `select` reported. */
    method Process(engine: Engine, ready: Ready) returns (r: Result<()>)
      requires Valid()
      modifies this
      ensures Valid() && (Value(), r) == AfterTurn(engine, old(Value()), ready)
    {
      var stdin := if |filters| == 1 then ready.stdin else None;
      if ready.child.Some? {
        r := WriteStdout(engine, ready.child.value);
      } else if stdin.Some? {
        StdinRead(stdin.value);
        r := Ok(());
      } else if ready.command.Some? {
        r := ReceiveCommand(ready.command.value);
      } else {
        Timeout();
        r := Ok(());
      }
    }
  }
}
