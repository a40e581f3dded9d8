/**
 * The older pty proxy, lib/base_proxy.py, with its GDB subclass
 * lib/gdb_proxy.py. The proxy sits between the user's terminal and the
 * debugger running in a pty. A datagram on its side channel is a command;
 * a `handle-command` is run with its reply concealed from the user by a
 * stream filter that waits for the prompt, and the captured reply goes back
 * to the sender of the last datagram.
 *
 * Each operation is a function on a value `Proxy` (the fields the class
 * keeps, the bytes written to the terminal and to the debugger, and the
 * datagrams sent); the class `BaseProxy` at the end updates its fields in
 * place and is proved to agree with those functions.
 */
module PtyProxy {
  import opened Common
  import opened StreamFilters
  import opened FilterStack
  import ControlSequences

  /** What the captured reply of a side command is turned into. */
  datatype Handler =
    | Ignore                 // `lambda _: None`, the passthrough's handler
    | Answer(cmd: string)    // `process_handle_command` of the base class
    | GdbAnswer(cmd: string) // the override in lib/gdb_proxy.py

  /** The base class with the prompt its subclass supplies, or the GDB proxy. */
  datatype Flavor = Plain(prompt: string) | Gdb

  /** A datagram: the peer address and the bytes. */
  datatype Datagram = Datagram(peer: nat, data: string)

  datatype Proxy = Proxy(
    filters: Stack<Handler>,
    lastAddr: Option<nat>,   // where the last command came from
    stdout: string,          // everything written to the user's terminal
    master: string,          // everything written to the debugger
    sent: seq<Datagram>)     // every reply sent on the side channel

  const Bottom: Entry<Handler> := Entry(Passthrough, Ignore)
  const HandleCommand := "handle-command"
  /** `GdbProxy.PROMPT`: GDB's annotated prompt. */
  const GdbPrompt := "\U{1a}\U{1a}\U{1a}"

  /** The stack shape every operation keeps. */
  predicate Sound(p: Proxy)
  {
    Stacked(p.filters) && p.filters[0] == Bottom
  }

  /** A filter above the passthrough can be answered: it has a handler that
      makes a reply and the reply has an address to go to. */
  predicate Answerable(p: Proxy)
  {
    Sound(p) && (|p.filters| == 2 ==> p.lastAddr.Some? && !p.filters[1].handler.Ignore?)
  }

  /** `__init__`: the passthrough alone and no sender yet. */
  function Init(): (p: Proxy)
    ensures Answerable(p) && |p.filters| == 1
  {
    Proxy([Bottom], None, [], [], [])
  }

  // ---------------------------------------------------------------------
  // The filter stack

  /** `_timeout()`. */
  function AfterTimeout(p: Proxy): (q: Proxy)
    requires Sound(p)
    ensures Sound(q) && |q.filters| == 1 && q == p.(filters := q.filters, stdout := q.stdout)
    ensures Armed(p.filters[|p.filters| - 1].filter) ==>
              q.stdout == p.stdout + Pending(p.filters[|p.filters| - 1].filter)
    ensures !Armed(p.filters[|p.filters| - 1].filter) ==> q.stdout == p.stdout
  {
    var (s, out) := Release(p.filters);
    p.(filters := s, stdout := p.stdout + out)
  }

  /** `set_filter(filt, handler)`. */
  function AfterSetFilter(p: Proxy, e: Entry<Handler>): (r: (Proxy, bool))
    requires Sound(p)
    ensures Sound(r.0) && r.0 == p.(filters := r.0.filters)
  {
    var (s, out, accepted) := Push(p.filters, e);
    PushOnlyOne(p.filters, e);
    (p.(filters := s), accepted)
  }

  /** At most one side command at a time: the entry is pushed exactly when
      only the passthrough is stacked, and a rejected call changes nothing. */
  lemma SetFilterOnlyOne(p: Proxy, e: Entry<Handler>)
    requires Sound(p)
    ensures var (q, accepted) := AfterSetFilter(p, e);
      && (accepted <==> |p.filters| == 1)
      && (accepted ==> q == p.(filters := p.filters + [e]))
      && (!accepted ==> q == p)
  {
    PushOnlyOne(p.filters, e);
  }

  // ---------------------------------------------------------------------
  // Commands from the side channel

  /** `re.split(r'\s+', command.decode())[0]`: the first word. */
  function Verb(command: string): string
  {
    SplitWs(command)[0]
  }

  /** The first word is `handle-command` exactly when the command starts
      with it and it is followed by whitespace or by nothing. */
  lemma VerbHandleCommand(command: string)
    ensures Verb(command) == HandleCommand <==>
      |command| >= 14 && command[..14] == HandleCommand && (|command| == 14 || IsSpace(command[14]))
  {
    var i := NextSpace(command, 0);
    assert Verb(command) == command[..i];
    if |command| >= 14 && command[..14] == HandleCommand && (|command| == 14 || IsSpace(command[14])) {
      forall k | 0 <= k < 14 ensures !IsSpace(command[k]) {
        assert command[k] == HandleCommand[k];
      }
      assert i == 14;
    }
  }

  /** The command run for a `handle-command`: the argument as it is, or for
      GDB prefixed with `server ` so that it stays out of the history. */
  function Translate(flavor: Flavor, command: string): (r: string)
    ensures flavor.Gdb? ==> r == "server " + CommandArgument(command)
    ensures flavor.Plain? ==> r == CommandArgument(command)
  {
    match flavor
    case Plain(_) => CommandArgument(command)
    case Gdb => "server " + CommandArgument(command)
  }

  /** `get_prompt()`. */
  function PromptOf(flavor: Flavor): string
  {
    match flavor
    case Plain(prompt) => prompt
    case Gdb => GdbPrompt
  }

  /** The handler a `handle-command` installs for its translated command. */
  function HandlerOf(flavor: Flavor, cmd: string): (h: Handler)
    ensures !h.Ignore?
  {
    match flavor
    case Plain(_) => Answer(cmd)
    case Gdb => GdbAnswer(cmd)
  }

  /** `filter_command(command)`: the proxy and the bytes to run. */
  function AfterFilterCommand(p: Proxy, flavor: Flavor, command: string): (r: (Proxy, string))
    requires Sound(p)
    ensures Sound(r.0) && r.0 == p.(filters := r.0.filters)
  {
    if Verb(command) == HandleCommand then
      var cmd := Translate(flavor, command);
      var (q, accepted) := AfterSetFilter(p, Entry(Stream([], Some(PromptOf(flavor))), HandlerOf(flavor, cmd)));
      (q, if accepted then cmd else [])
    else (p, command)
  }

  /** A `handle-command` is run translated, with the prompt filter and its
      handler on top of the passthrough; while another one is running it is
      dropped; any other command is run as it is and changes nothing. */
  lemma FilterCommandSpec(p: Proxy, flavor: Flavor, command: string)
    requires Sound(p)
    ensures var (q, run) := AfterFilterCommand(p, flavor, command);
      var cmd := Translate(flavor, command);
      && (Verb(command) != HandleCommand ==> q == p && run == command)
      && (Verb(command) == HandleCommand && |p.filters| == 1 ==>
            run == cmd
            && q == p.(filters := p.filters + [Entry(Stream([], Some(PromptOf(flavor))), HandlerOf(flavor, cmd))]))
      && (Verb(command) == HandleCommand && |p.filters| == 2 ==> q == p && run == [])
  {
    SetFilterOnlyOne(p, Entry(Stream([], Some(PromptOf(flavor))), HandlerOf(flavor, Translate(flavor, command))));
  }

  /** The side-channel branch of `_process_reads`: remember the sender, fail
      on an empty datagram (`data[-1]`), and write the translated command and
      a newline to the debugger unless it is empty. */
  function AfterReceiveCommand(p: Proxy, flavor: Flavor, d: Datagram): (r: (Proxy, Result<()>))
    requires Sound(p)
    ensures Sound(r.0) && r.0.lastAddr == Some(d.peer) && r.0.sent == p.sent
    ensures r.1.Raise? <==> d.data == []
  {
    var p1 := p.(lastAddr := Some(d.peer));
    if d.data == [] then (p1, Raise("IndexError"))
    else
      var (q, command) := AfterFilterCommand(p1, flavor, d.data);
      if command == [] then (q, Ok(())) else (q.(master := q.master + command + "\n"), Ok(()))
  }

  // ---------------------------------------------------------------------
  // Output of the debugger

  /** What the handler makes of the captured reply; `None` for the
      passthrough's handler. */
  function Handle(h: Handler, filtered: string): (r: Option<string>)
    ensures r.Some? <==> !h.Ignore?
  {
    match h
    case Ignore => None
    case Answer(cmd) => Some(HandleCommandAnswer(cmd, filtered))
    case GdbAnswer(cmd) => Some(ControlSequences.CleanAnswer(cmd, filtered))
  }

  /** `write_stdout(data)`: feed the top filter and show what it lets
      through; once it captures a nonempty reply, pop it and send what the
      handler makes of the reply to the last sender. */
  function AfterWriteStdout(engine: Engine, p: Proxy, data: string): (r: (Proxy, Result<()>))
    requires Sound(p)
    ensures Sound(r.0) && r.0.lastAddr == p.lastAddr && r.0.master == p.master
    ensures |r.0.sent| <= |p.sent| + 1
  {
    var (s, reply) := FeedTop(engine, p.filters, data);
    var p1 := p.(filters := s, stdout := p.stdout + reply.output);
    if reply.filtered.None? || reply.filtered.value == [] then (p1, Ok(()))
    else
      var p2 := p1.(filters := s[..1]);
      match Handle(s[1].handler, reply.filtered.value)
      case None => (p2, Raise("TypeError"))
      case Some(res) =>
        if p.lastAddr.None? then (p2, Raise("TypeError"))
        else (p2.(sent := p2.sent + [Datagram(p.lastAddr.value, res)]), Ok(()))
  }

  /** With the passthrough alone, the debugger's output is shown as it is. */
  lemma WriteStdoutPassthrough(engine: Engine, p: Proxy, data: string)
    requires Sound(p) && |p.filters| == 1
    ensures AfterWriteStdout(engine, p, data) == (p.(stdout := p.stdout + data), Ok(()))
  {
  }

  /** When the prompt ends a nonempty capture, the text after it is shown,
      the passthrough is back alone, and the handler's answer goes to the
      last sender. */
  lemma WriteStdoutCaptures(engine: Engine, p: Proxy, data: string, m: Match)
    requires Answerable(p) && |p.filters| == 2 && Armed(p.filters[1].filter)
    requires Search(engine, p.filters[1].filter.matcher.value, p.filters[1].filter.buffer + data) == Some(m)
    requires m.end > 0
    ensures var buf := p.filters[1].filter.buffer + data;
      AfterWriteStdout(engine, p, data) ==
        (p.(filters := [Bottom], stdout := p.stdout + buf[m.end..],
            sent := p.sent + [Datagram(p.lastAddr.value, Handle(p.filters[1].handler, buf[..m.end]).value)]),
         Ok(()))
  {
    var top := p.filters[1];
    var buf := top.filter.buffer + data;
    assert Feed(engine, top.filter, data) == (Stream([], None), Reply(buf[m.end..], Some(buf[..m.end])));
    var s := p.filters[1 := top.(filter := Stream([], None))];
    assert FeedTop(engine, p.filters, data) == (s, Reply(buf[m.end..], Some(buf[..m.end])));
    assert s[..1] == [Bottom];
    assert buf[..m.end] != [];
  }

  // ---------------------------------------------------------------------
  // User input and the main loop

  /** `stdin_read(data)`: the user's keys go to the debugger. */
  function AfterStdinRead(p: Proxy, data: string): (q: Proxy)
    ensures q == p.(master := p.master + data)
  {
    p.(master := p.master + data)
  }

  /** What `select` reports ready: the debugger's output, the user's input
      and a datagram, each with the bytes read from it. */
  datatype Ready = Ready(child: Option<string>, stdin: Option<string>, command: Option<Datagram>)

  /** One pass of `_process`: the terminal is not polled while a side
      command runs; nothing ready is a timeout; otherwise the debugger comes
      first, then the user, then the side channel. */
  function AfterTurn(engine: Engine, p: Proxy, flavor: Flavor, ready: Ready): (r: (Proxy, Result<()>))
    requires Sound(p)
    ensures Sound(r.0)
  {
    var stdin := if |p.filters| == 1 then ready.stdin else None;
    if ready.child.Some? then AfterWriteStdout(engine, p, ready.child.value)
    else if stdin.Some? then (AfterStdinRead(p, stdin.value), Ok(()))
    else if ready.command.Some? then AfterReceiveCommand(p, flavor, ready.command.value)
    else (AfterTimeout(p), Ok(()))
  }

  /** User input waits while a side command runs. */
  lemma StdinWaits(engine: Engine, p: Proxy, flavor: Flavor, ready: Ready)
    requires Sound(p) && |p.filters| == 2
    ensures AfterTurn(engine, p, flavor, ready) == AfterTurn(engine, p, flavor, ready.(stdin := None))
  {
  }

  /** Every pass keeps the proxy answerable, and the only failure is an
      empty datagram: a captured reply always has a handler and an address. */
  lemma TurnAnswerable(engine: Engine, p: Proxy, flavor: Flavor, ready: Ready)
    requires Answerable(p)
    ensures var (q, r) := AfterTurn(engine, p, flavor, ready);
      && Answerable(q)
      && (r.Raise? ==> r == Raise("IndexError") && ready.child.None? && ready.command == Some(Datagram(ready.command.value.peer, [])))
  {
    var stdin := if |p.filters| == 1 then ready.stdin else None;
    if ready.child.None? && stdin.None? && ready.command.Some? && ready.command.value.data != [] {
      var d := ready.command.value;
      FilterCommandSpec(p.(lastAddr := Some(d.peer)), flavor, d.data);
    }
  }

  /** The proxy whose fields the methods update in place. */
  class BaseProxy {
    var filters: Stack<Handler>
    var lastAddr: Option<nat>
    var stdout: string
    var master: string
    var sent: seq<Datagram>
    const flavor: Flavor

    function Value(): Proxy
      reads this
    {
      Proxy(filters, lastAddr, stdout, master, sent)
    }

    ghost predicate Valid()
      reads this
    {
      Sound(Value())
    }

    /** `__init__`. */
    constructor (flavor: Flavor)
      ensures Valid() && Value() == Init() && this.flavor == flavor
    {
      filters, lastAddr, stdout, master, sent := [Bottom], None, [], [], [];
      this.flavor := flavor;
    }

    /** `_timeout()`. */
    method Timeout()
      requires Valid()
      modifies this
      ensures Valid() && Value() == AfterTimeout(old(Value()))
    {
      var top := filters[|filters| - 1];
      var (f, out) := StreamFilters.Expire(top.filter);
      stdout := stdout + out;
      if |filters| > 1 {
        filters := filters[..|filters| - 1];
      } else {
        filters := filters[|filters| - 1 := top.(filter := f)];
      }
    }

    /** `set_filter(filt, handler)`. */
    method SetFilter(e: Entry<Handler>) returns (accepted: bool)
      requires Valid()
      modifies this
      ensures Valid() && (Value(), accepted) == AfterSetFilter(old(Value()), e)
    {
      if |filters| == 1 {
        Timeout();
        filters := filters + [e];
        return true;
      }
      return false;
    }

    /** `filter_command(command)`. */
    method FilterCommand(command: string) returns (run: string)
      requires Valid()
      modifies this
      ensures Valid() && (Value(), run) == AfterFilterCommand(old(Value()), flavor, command)
    {
      if Verb(command) == HandleCommand {
        var cmd := Translate(flavor, command);
        var accepted := SetFilter(Entry(Stream([], Some(PromptOf(flavor))), HandlerOf(flavor, cmd)));
        return if accepted then cmd else [];
      }
      return command;
    }

    /** The side-channel branch of `_process_reads`. */
    method ReceiveCommand(d: Datagram) returns (r: Result<()>)
      requires Valid()
      modifies this
      ensures Valid() && (Value(), r) == AfterReceiveCommand(old(Value()), flavor, d)
    {
      lastAddr := Some(d.peer);
      if d.data == [] {
        return Raise("IndexError");
      }
      var command := FilterCommand(d.data);
      if command != [] {
        master := master + command;
        master := master + "\n";
      }
      return Ok(());
    }

    /** `write_stdout(data)`. */
    method WriteStdout(engine: Engine, data: string) returns (r: Result<()>)
      requires Valid()
      modifies this
      ensures Valid() && (Value(), r) == AfterWriteStdout(engine, old(Value()), data)
    {
      var top := filters[|filters| - 1];
      var (f, reply) := Feed(engine, top.filter, data);
      filters := filters[|filters| - 1 := top.(filter := f)];
      stdout := stdout + reply.output;
      if reply.filtered.None? || reply.filtered.value == [] {
        return Ok(());
      }
      filters := filters[..|filters| - 1];
      var res := Handle(top.handler, reply.filtered.value);
      if res.None? || lastAddr.None? {
        return Raise("TypeError");
      }
      sent := sent + [Datagram(lastAddr.value, res.value)];
      return Ok(());
    }

    /** `stdin_read(data)`. */
    method StdinRead(data: string)
      modifies this
      ensures Value() == AfterStdinRead(old(Value()), data)
    {
      master := master + data;
    }

    /** One pass of `_process` with what `select` reported. */
    method Process(engine: Engine, ready: Ready) returns (r: Result<()>)
      requires Valid()
      modifies this
      ensures Valid() && (Value(), r) == AfterTurn(engine, old(Value()), flavor, ready)
    {
      var stdin := if |filters| == 1 then ready.stdin else None;
      if ready.child.Some? {
        r := WriteStdout(engine, ready.child.value);
      } else if stdin.Some? {
        StdinRead(stdin.value);
        r := Ok(());
      } else if ready.command.Some? {
        r := ReceiveCommand(ready.command.value);
      } else {
        Timeout();
        r := Ok(());
      }
    }
  }
}
