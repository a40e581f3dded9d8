/**
 * lib/proxy/base.py: the proxy that sits between the user's terminal, the
 * debugger running in a pseudo terminal and the plugin's side channel.
 *
 * The proxy keeps a stack of output filters, the passthrough at the bottom
 * and at most one side-command filter on top; a FIFO of side-channel
 * requests whose head is the request in flight; and the last complete user
 * command line, so that an empty line can repeat it. Everything it writes
 * is recorded: the bytes shown on the terminal (`stdout`), the bytes sent to
 * the debugger (`master`) and the replies sent over the side channel
 * (`sent`).
 *
 * The steps are first described on values (`Proxy` and the functions
 * below), where the properties are proved; the class `Base` updates its
 * fields in place and each of its methods is proved to agree with the
 * function of the same step.
 */
module ProxyBase {
  import opened Common
  import opened StreamFilters

  /** What becomes of the text a filter captured: the passthrough carries
      `lambda _: None`, a side command `process_handle_command(cmd, _)`. */
  datatype Handler = Ignore | Answer(cmd: string)

  /** An entry of the filter stack: the filter, the request id it answers
      and the handler of its captured text. */
  datatype Entry = Entry(filter: Filter, reqId: int, handler: Handler)

  /** A datagram from the plugin: the sender's address and the bytes. */
  datatype Request = Request(sender: nat, data: string)

  /** The JSON reply `{"request": id, "response": text}` sent to `to`. */
  datatype Response = Response(to: nat, request: int, response: string)

  /** `(Filter(), -1, lambda _: None)`, the bottom of the stack. */
  const Bottom := Entry(Passthrough, -1, Ignore)

  datatype Proxy = Proxy(
    filters: seq<Entry>,
    queue: seq<Request>,
    lastCommand: string,
    commandBuffer: string,
    stdout: string,
    master: string,
    sent: seq<Response>)

  /** The passthrough is always at the bottom and at most one side-command
      filter is stacked on it. */
  predicate Stacked(p: Proxy)
  {
    1 <= |p.filters| <= 2 && p.filters[0] == Bottom
  }

  /** The state `__init__` leaves behind. */
  function Init(): (p: Proxy)
    ensures Stacked(p) && p.queue == [] && p.lastCommand == []
  {
    Proxy([Bottom], [], [], [], [], [], [])
  }

  /** The filter the proxy currently feeds. */
  function Top(p: Proxy): Entry
    requires Stacked(p)
  {
    p.filters[|p.filters| - 1]
  }

  // ---------------------------------------------------------------------
  // The filter stack

  /** `_timeout()`: the top filter releases what it holds onto the terminal,
      and a side-command filter is dropped. */
  function AfterTimeout(p: Proxy): (q: Proxy)
    requires Stacked(p)
    ensures Stacked(q) && |q.filters| == 1
    ensures Armed(Top(p).filter) ==> q.stdout == p.stdout + Pending(Top(p).filter)
    ensures !Armed(Top(p).filter) ==> q.stdout == p.stdout
    ensures q.queue == p.queue && q.master == p.master && q.sent == p.sent
    ensures q.lastCommand == p.lastCommand && q.commandBuffer == p.commandBuffer
  {
    var top := Top(p);
    var (f, out) := Expire(top.filter);
    var p1 := p.(stdout := p.stdout + out);
    if |p.filters| > 1 then p1.(filters := p.filters[..|p.filters| - 1])
    else p1.(filters := p.filters[|p.filters| - 1 := top.(filter := f)])
  }

  /** `set_filter(filt, req_id, handler)`: accepted only when no side command
      is active; the top is timed out first, then the entry is pushed. */
  function AfterSetFilter(p: Proxy, e: Entry): (Proxy, bool)
    requires Stacked(p)
  {
    if |p.filters| == 1 then
      var p1 := AfterTimeout(p);
      (p1.(filters := p1.filters + [e]), true)
    else (p, false)
  }

  /** At most one side command at a time: the entry is pushed exactly when
      only the passthrough is stacked, and a rejected call changes nothing.
      Timing out the passthrough shows nothing. */
  lemma SetFilterOnlyOne(p: Proxy, e: Entry)
    requires Stacked(p)
    ensures var (q, accepted) := AfterSetFilter(p, e);
      && Stacked(q)
      && (accepted <==> |p.filters| == 1)
      && (accepted ==> q == p.(filters := p.filters + [e]))
      && (!accepted ==> q == p)
  {
  }

  // ---------------------------------------------------------------------
  // Side-channel requests

  /** The first index at or after k that does not hold a decimal digit. */
  function SkipDigits(s: string, k: nat): (i: nat)
    requires k <= |s|
    ensures k <= i <= |s|
    ensures forall x :: k <= x < i ==> IsDigit(s[x])
    ensures i < |s| ==> !IsDigit(s[i])
    decreases |s| - k
  {
    if k == |s| || !IsDigit(s[k]) then k else SkipDigits(s, k + 1)
  }

  /** The groups of `^(\d+) ([^ ]+) (.*)`: the request id, the request name
      and the rest of the first line. */
  datatype Parsed = Parsed(id: nat, name: string, rest: string)

  /** The first line of s, without its line ending: what `.*` matches. */
  function FirstLine(s: string): (l: string)
    ensures '\n' !in l && l <= s
  {
    s[..NextChar(s, 0, '\n')]
  }

  /** `re.match(rb'^(\d+) ([^ ]+) (.*)', command)`. Each group is greedy and
      the character after it cannot belong to it, so the groups end at the
      first non-digit, the next space and the first newline. */
  function ParseRequest(command: string): Option<Parsed>
  {
    var i := SkipDigits(command, 0);
    if i == 0 || i == |command| || command[i] != ' ' then None
    else
      var s := command[i + 1..];
      var j := NextChar(s, 0, ' ');
      if j == 0 || j == |s| then None
      else Some(Parsed(DigitsValue(command[..i]), s[..j], FirstLine(s[j + 1..])))
  }

  /** What the plugin sends, `<id> <name> <rest>`, followed by `tail`. */
  function Frame(r: Parsed, tail: string): string
  {
    NatToString(r.id) + ([' '] + (r.name + ([' '] + (r.rest + tail))))
  }

  /** What the plugin sends: `<id> <name> <rest>`. */
  function FormatRequest(r: Parsed): string
  {
    Frame(r, [])
  }

  lemma Halves(x: string, y: string)
    ensures (x + y)[..|x|] == x && (x + y)[|x|..] == y
  {
  }

  /** A scan for ch stops right after a first piece that does not hold ch,
      when ch or the end of the string follows it. */
  lemma FirstPiece(piece: string, after: string, ch: char)
    requires ch !in piece && (after == [] || after[0] == ch)
    ensures NextChar(piece + after, 0, ch) == |piece|
  {
    var s := piece + after;
    NextCharAt(s, 0, |piece|, ch) by {
      assert forall x :: 0 <= x < |piece| ==> s[x] == piece[x];
    }
  }

  /** A well-formed request is parsed back into its parts, whatever follows
      its first line. */
  lemma ParseFormatRequest(r: Parsed, tail: string)
    requires r.name != [] && ' ' !in r.name && '\n' !in r.rest
    requires tail == [] || tail[0] == '\n'
    ensures ParseRequest(FormatRequest(r) + tail) == Some(r)
  {
    FrameTail(r, tail);
    ParseFrame(r, tail);
  }

  lemma FrameTail(r: Parsed, tail: string)
    ensures FormatRequest(r) + tail == Frame(r, tail)
  {
    assert r.rest + [] == r.rest;
  }

  lemma ParseFrame(r: Parsed, tail: string)
    requires r.name != [] && ' ' !in r.name && '\n' !in r.rest
    requires tail == [] || tail[0] == '\n'
    ensures ParseRequest(Frame(r, tail)) == Some(r)
  {
    var digits := NatToString(r.id);
    DigitsPart(digits, r.name + ([' '] + (r.rest + tail)));
    NamePart(r.name, r.rest + tail);
    LinePart(r.rest, tail);
    NatToStringValue(r.id);
    ParseRequestAt(Frame(r, tail), |digits|, |r.name|);
  }

  lemma DigitsPart(digits: string, s: string)
    requires AllDigits(digits)
    ensures var c := digits + ([' '] + s);
      && SkipDigits(c, 0) == |digits| && 0 < |digits| < |c| && c[|digits|] == ' '
      && c[..|digits|] == digits && c[|digits| + 1..] == s
  {
    var c := digits + ([' '] + s);
    var i := |digits|;
    Halves(digits, [' '] + s);
    assert c[i] == ([' '] + s)[0];
    SkipDigitsAt(c, 0, i);
    assert c[i + 1..] == c[i..][1..];
  }

  lemma NamePart(name: string, line: string)
    requires name != [] && ' ' !in name
    ensures var s := name + ([' '] + line);
      && NextChar(s, 0, ' ') == |name| && |name| < |s| && s[..|name|] == name && s[|name| + 1..] == line
  {
    var s := name + ([' '] + line);
    FirstPiece(name, [' '] + line, ' ');
    Halves(name, [' '] + line);
    assert s[|name| + 1..] == s[|name|..][1..];
  }

  lemma LinePart(rest: string, tail: string)
    requires '\n' !in rest && (tail == [] || tail[0] == '\n')
    ensures FirstLine(rest + tail) == rest
  {
    FirstPiece(rest, tail, '\n');
    Halves(rest, tail);
  }

  /** ParseRequest once its scans are known. */
  lemma ParseRequestAt(command: string, i: nat, j: nat)
    requires 0 < i < |command| && command[i] == ' ' && SkipDigits(command, 0) == i
    requires 0 < j < |command[i + 1..]| && NextChar(command[i + 1..], 0, ' ') == j
    ensures ParseRequest(command)
      == Some(Parsed(DigitsValue(command[..i]), command[i + 1..][..j], FirstLine(command[i + 1..][j + 1..])))
  {
  }

  lemma {:induction false} SkipDigitsAt(s: string, k: nat, i: nat)
    requires k <= i <= |s|
    requires forall x :: k <= x < i ==> IsDigit(s[x])
    requires i < |s| ==> !IsDigit(s[i])
    ensures SkipDigits(s, k) == i
    decreases i - k
  {
    if k < i {
      SkipDigitsAt(s, k + 1, i);
    }
  }

  lemma {:induction false} NextCharAt(s: string, k: nat, i: nat, c: char)
    requires k <= i <= |s|
    requires forall x :: k <= x < i ==> s[x] != c
    requires i < |s| ==> s[i] == c
    ensures NextChar(s, k, c) == i
    decreases i - k
  {
    if k < i {
      NextCharAt(s, k + 1, i, c);
    }
  }

  /** The shape of a request: decimal digits, a space, a name without
      spaces, a space, the rest of the first line and whatever follows. */
  ghost predicate Shaped(command: string, digits: string, r: Parsed, tail: string)
  {
    && AllDigits(digits) && DigitsValue(digits) == r.id
    && r.name != [] && ' ' !in r.name && '\n' !in r.rest
    && (tail == [] || tail[0] == '\n')
    && command == digits + ([' '] + (r.name + ([' '] + (r.rest + tail))))
  }

  /** Whatever is parsed was written that way. */
  lemma ParseRequestShape(command: string)
    requires ParseRequest(command).Some?
    ensures exists digits: string, tail: string :: Shaped(command, digits, ParseRequest(command).value, tail)
  {
    var i := SkipDigits(command, 0);
    ParseRequestSome(command);
    var j := NextChar(command[i + 1..], 0, ' ');
    var line := command[i + 1..][j + 1..];
    ShapedAt(command, i, j);
  }

  /** The parts of a parsed command, cut at the first non-digit, the next
      space and the first newline. */
  lemma ShapedAt(command: string, i: nat, j: nat)
    requires 0 < i < |command| && command[i] == ' ' && SkipDigits(command, 0) == i
    requires 0 < j < |command[i + 1..]| && NextChar(command[i + 1..], 0, ' ') == j
    ensures var line := command[i + 1..][j + 1..];
      Shaped(command, command[..i], ParseRequest(command).value, line[NextChar(line, 0, '\n')..])
  {
    var s := command[i + 1..];
    var line := s[j + 1..];
    var k := NextChar(line, 0, '\n');
    ParseRequestAt(command, i, j);
    var r := ParseRequest(command).value;
    assert r.name == s[..j] && r.rest == line[..k];
    NameBeforeSpace(s, j);
    Reassemble(command, i, j, k);
  }

  /** The text before the first space holds no space. */
  lemma NameBeforeSpace(s: string, j: nat)
    requires 0 < j <= |s| && NextChar(s, 0, ' ') == j
    ensures s[..j] != [] && ' ' !in s[..j]
  {
    assert forall x :: 0 <= x < j ==> s[..j][x] == s[x];
  }

  /** What a successful parse has found. */
  lemma ParseRequestSome(command: string)
    requires ParseRequest(command).Some?
    ensures var i := SkipDigits(command, 0);
      && 0 < i < |command| && command[i] == ' '
      && 0 < NextChar(command[i + 1..], 0, ' ') < |command[i + 1..]|
  {
  }

  /** A string is put back together from the pieces around two spaces. */
  lemma Reassemble(command: string, i: nat, j: nat, k: nat)
    requires i < |command| && command[i] == ' '
    requires j < |command[i + 1..]| && command[i + 1..][j] == ' '
    requires k <= |command[i + 1..][j + 1..]|
    ensures var s := command[i + 1..];
      var line := s[j + 1..];
      command == command[..i] + ([' '] + (s[..j] + ([' '] + (line[..k] + line[k..]))))
  {
    var s := command[i + 1..];
    var line := s[j + 1..];
    var r := command[..i] + ([' '] + (s[..j] + ([' '] + (line[..k] + line[k..]))));
    assert |r| == |command|;
    forall x | 0 <= x < |r|
      ensures r[x] == command[x]
    {
      if x > i + 1 + j {
        assert r[x] == line[x - i - j - 2];
      }
    }
  }

  /** `filter_command(command)`: a `handle-command` request installs a
      prompt filter tagged with the request id and answers with the command
      to run; a rejected filter fails the source's assertion. */
  function AfterFilterCommand(p: Proxy, prompt: string, command: string): (r: (Proxy, Result<string>))
    requires Stacked(p)
    ensures Stacked(r.0) && r.0 == p.(filters := r.0.filters)
  {
    match ParseRequest(command)
    case Some(r) =>
      if r.name == "handle-command" then
        var (q, accepted) := AfterSetFilter(p, Entry(Stream([], Some(prompt)), r.id, Answer(r.rest)));
        if accepted then (q, Ok(r.rest)) else (q, Raise("AssertionError"))
      else (p, Ok(command))
    case None => (p, Ok(command))
  }

  /** A side command is run with its reply concealed: the prompt filter for
      its id sits on top of the passthrough. Any other command is run as it
      is and changes nothing. */
  lemma FilterCommandSpec(p: Proxy, prompt: string, command: string)
    requires Stacked(p)
    ensures var (q, r) := AfterFilterCommand(p, prompt, command);
      var req := ParseRequest(command);
      && Stacked(q)
      && (req.Some? && req.value.name == "handle-command" ==>
            && (r.Ok? <==> |p.filters| == 1)
            && (r.Ok? ==> r.value == req.value.rest
                          && q.filters == [Bottom, Entry(Stream([], Some(prompt)), req.value.id, Answer(req.value.rest))]))
      && (req.None? || req.value.name != "handle-command" ==> q == p && r == Ok(command))
  {
  }

  /** The line ending `_send_command` writes after a command (not Windows). */
  const Newline := "\n"

  /** `_send_command()`: translate the request at the head of the queue and
      write it to the debugger, unless it translated to nothing. */
  function AfterSendCommand(p: Proxy, prompt: string): (r: (Proxy, Result<()>))
    requires Stacked(p) && p.queue != []
    ensures Stacked(r.0) && r.0 == p.(filters := r.0.filters, master := r.0.master)
    ensures p.master <= r.0.master
  {
    var (q, r) := AfterFilterCommand(p, prompt, p.queue[0].data);
    match r
    case Raise(e) => (q, Raise(e))
    case Ok(command) =>
      if command == [] then (q, Ok(()))
      else (q.(master := q.master + command + Newline), Ok(()))
  }

  /** With only the passthrough stacked, the command at the head of the
      queue is sent: a side command pushes its prompt filter and has its
      argument written, any other command is written as it is; each with a
      line ending, and nothing at all when the text is empty. */
  lemma SendCommandSpec(p: Proxy, prompt: string)
    requires Stacked(p) && |p.filters| == 1 && p.queue != []
    ensures var (q, r) := AfterSendCommand(p, prompt);
      var next := p.queue[0].data;
      var req := ParseRequest(next);
      && r == Ok(())
      && (req.Some? && req.value.name == "handle-command" ==>
            && q.filters == [Bottom, Entry(Stream([], Some(prompt)), req.value.id, Answer(req.value.rest))]
            && q.master == p.master + (if req.value.rest == [] then [] else req.value.rest + Newline))
      && (req.None? || req.value.name != "handle-command" ==>
            && q.filters == [Bottom]
            && q.master == p.master + (if next == [] then [] else next + Newline))
  {
    assert p.filters == [Bottom];
    FilterCommandSpec(p, prompt, p.queue[0].data);
  }

  /** The side-channel branch of `_process_reads`: queue the request and send
      it if nothing else is in flight. `data[-1]` fails on an empty datagram. */
  function AfterReceiveCommand(p: Proxy, prompt: string, req: Request): (Proxy, Result<()>)
    requires Stacked(p)
  {
    if req.data == [] then (p, Raise("IndexError"))
    else
      var p1 := p.(queue := p.queue + [req]);
      if |p1.queue| == 1 then AfterSendCommand(p1, prompt) else (p1, Ok(()))
  }

  /** A request that arrives while another is queued is only queued: nothing
      is written to the debugger and the filters stay as they are. */
  lemma ReceiveWhileBusy(p: Proxy, prompt: string, req: Request)
    requires Stacked(p) && p.queue != [] && req.data != []
    ensures AfterReceiveCommand(p, prompt, req) == (p.(queue := p.queue + [req]), Ok(()))
  {
  }

  /** A request that arrives when the queue is empty is sent at once. */
  lemma ReceiveWhenIdle(p: Proxy, prompt: string, req: Request)
    requires Stacked(p) && p.queue == [] && req.data != []
    ensures var (q, _) := AfterReceiveCommand(p, prompt, req);
      q.queue == [req] && (ParseRequest(req.data).None? ==> q.master == p.master + req.data + Newline)
  {
  }

  /** A timeout drops the side-command filter but leaves its request at the
      head of the queue, so it is never answered and every later request is
      queued behind it without being sent. */
  lemma TimeoutStallsQueue(p: Proxy, prompt: string, req: Request)
    requires Stacked(p) && |p.filters| == 2 && p.queue != [] && req.data != []
    ensures var q := AfterTimeout(p);
      && |q.filters| == 1 && q.queue == p.queue
      && AfterReceiveCommand(q, prompt, req) == (q.(queue := q.queue + [req]), Ok(()))
  {
    ReceiveWhileBusy(AfterTimeout(p), prompt, req);
  }

  // ---------------------------------------------------------------------
  // Output of the debugger

  /** What the handler makes of the captured text; `None` for the
      passthrough's `lambda _: None`. */
  function Handle(h: Handler, filtered: string): Option<string>
  {
    match h
    case Ignore => None
    case Answer(cmd) => Some(HandleCommandAnswer(cmd, filtered))
  }

  /** The first half of `write_stdout`: feed the top filter, show what it
      lets through and keep what it captured. Only a side-command filter
      captures anything. */
  function FeedTop(engine: Engine, p: Proxy, data: string): (r: (Proxy, Option<string>))
    requires Stacked(p)
    ensures Stacked(r.0) && |r.0.filters| == |p.filters|
    ensures r.0.queue == p.queue && r.0.sent == p.sent && r.0.master == p.master
    ensures r.0.lastCommand == p.lastCommand && r.0.commandBuffer == p.commandBuffer
    ensures r.1.Some? ==> |p.filters| == 2
  {
    var top := Top(p);
    var (f, reply) := Feed(engine, top.filter, data);
    (p.(filters := p.filters[|p.filters| - 1 := top.(filter := f)],
        stdout := p.stdout + reply.output),
     reply.filtered)
  }

  /** The second half of `write_stdout`, once the side-command filter has
      been popped: answer the request at the head of the queue with what the
      handler made of the captured text, then send the next request. */
  function Complete(p: Proxy, prompt: string, top: Entry, filtered: string): (r: (Proxy, Result<()>))
    requires Stacked(p) && |p.filters| == 1
    ensures Stacked(r.0)
    ensures r.0 == p.(filters := r.0.filters, queue := r.0.queue, sent := r.0.sent, master := r.0.master)
  {
    var res := Handle(top.handler, filtered);
    if p.queue == [] then (p, Raise("IndexError"))
    else
      var head := p.queue[0];
      var p1 := p.(queue := p.queue[1..]);
      if res.None? then (p1, Raise("AttributeError"))
      else
        var p2 := p1.(sent := p1.sent + [Response(head.sender, top.reqId, res.value)]);
        if p2.queue != [] then AfterSendCommand(p2, prompt) else (p2, Ok(()))
  }

  /** `write_stdout(data)`: feed the top filter and show its output. When it
      captured a non-empty reply, drop the filter and complete the request. */
  function AfterWriteStdout(engine: Engine, p: Proxy, prompt: string, data: string): (r: (Proxy, Result<()>))
    requires Stacked(p)
    ensures Stacked(r.0)
  {
    var (p1, filtered) := FeedTop(engine, p, data);
    if filtered.None? || filtered.value == [] then (p1, Ok(()))
    else Complete(p1.(filters := p1.filters[..1]), prompt, Top(p), filtered.value)
  }

  /** With only the passthrough stacked the debugger's output is shown as it
      is and nothing else changes. */
  lemma WriteStdoutPassthrough(engine: Engine, p: Proxy, prompt: string, data: string)
    requires Stacked(p) && |p.filters| == 1
    ensures AfterWriteStdout(engine, p, prompt, data) == (p.(stdout := p.stdout + data), Ok(()))
  {
    assert p.filters[0 := Bottom] == p.filters;
  }

  /** While the side-command filter waits for the prompt, nothing is shown
      and nothing is answered. */
  lemma WriteStdoutWaits(engine: Engine, p: Proxy, prompt: string, data: string)
    requires Stacked(p) && |p.filters| == 2 && Armed(Top(p).filter)
    requires Feed(engine, Top(p).filter, data).1.filtered.None?
    ensures var (q, r) := AfterWriteStdout(engine, p, prompt, data);
      && r.Ok? && |q.filters| == 2 && q.stdout == p.stdout
      && q.queue == p.queue && q.sent == p.sent && q.master == p.master
      && Pending(Top(q).filter) == Pending(Top(p).filter) + data
  {
  }

  /** Completing a request answers the head of the queue with the processed
      reply under the filter's id; the next request, if any, is sent: a
      plain command is written followed by a newline, and a side command
      pushes its prompt filter and has its argument written. */
  lemma CompleteAnswers(p: Proxy, prompt: string, top: Entry, filtered: string)
    requires Stacked(p) && |p.filters| == 1 && p.queue != [] && top.handler.Answer?
    ensures var (q, r) := Complete(p, prompt, top, filtered);
      && q.stdout == p.stdout
      && q.queue == p.queue[1..]
      && |q.sent| == |p.sent| + 1 && q.sent[..|p.sent|] == p.sent
      && q.sent[|p.sent|] == Response(p.queue[0].sender, top.reqId,
                                      HandleCommandAnswer(top.handler.cmd, filtered))
      && (p.queue[1..] == [] ==> r == Ok(()) && q.filters == [Bottom] && q.master == p.master)
      && (p.queue[1..] != [] ==>
            var next := p.queue[1].data;
            var req := ParseRequest(next);
            && r == Ok(())
            && (req.Some? && req.value.name == "handle-command" ==>
                  && q.filters == [Bottom, Entry(Stream([], Some(prompt)), req.value.id, Answer(req.value.rest))]
                  && q.master == p.master + (if req.value.rest == [] then [] else req.value.rest + Newline))
            && (req.None? || req.value.name != "handle-command" ==>
                  && q.filters == [Bottom]
                  && q.master == p.master + (if next == [] then [] else next + Newline)))
  {
    var p2 := p.(queue := p.queue[1..], sent := p.sent + [Response(p.queue[0].sender, top.reqId,
                                      HandleCommandAnswer(top.handler.cmd, filtered))]);
    assert p.filters == [Bottom];
    if p2.queue != [] {
      assert p2.queue[0] == p.queue[1];
      SendCommandSpec(p2, prompt);
    }
  }

  /** When the side-command filter captures the reply, the filter is dropped,
      what follows the prompt is shown and the request is completed. */
  lemma WriteStdoutCaptures(engine: Engine, p: Proxy, prompt: string, data: string)
    requires Stacked(p) && |p.filters| == 2
    requires var reply := Feed(engine, Top(p).filter, data).1;
      reply.filtered.Some? && reply.filtered.value != []
    ensures var reply := Feed(engine, Top(p).filter, data).1;
      AfterWriteStdout(engine, p, prompt, data)
        == Complete(p.(filters := [Bottom], stdout := p.stdout + reply.output), prompt, Top(p), reply.filtered.value)
  {
    var (p1, filtered) := FeedTop(engine, p, data);
    assert p1.filters[..1] == [Bottom];
    assert p1.(filters := p1.filters[..1]) == p.(filters := [Bottom], stdout := p.stdout + Feed(engine, Top(p).filter, data).1.output);
  }

  // ---------------------------------------------------------------------
  // Input of the user

  /** The line endings `stdin_read` looks for: `[\r\n]`. */
  predicate IsEol(c: char) { c == '\r' || c == '\n' }

  /** The first index at or after k holding `\r` or `\n`, or |s|. */
  function NextEol(s: string, k: nat): (i: nat)
    requires k <= |s|
    ensures k <= i <= |s|
    ensures forall x :: k <= x < i ==> !IsEol(s[x])
    ensures i < |s| ==> IsEol(s[i])
    decreases |s| - k
  {
    if k == |s| || IsEol(s[k]) then k else NextEol(s, k + 1)
  }

  /** Where the loop of `stdin_read` cuts a completed line: one byte past the
      line ending (`m.end() + 1`), clamped to the buffer as slicing does. */
  function Cut(buf: string): (c: nat)
    requires NextEol(buf, 0) < |buf|
    ensures NextEol(buf, 0) < c <= |buf|
  {
    var e := NextEol(buf, 0) + 1;
    if e + 1 <= |buf| then e + 1 else |buf|
  }

  /** The last command and the bytes left over once every completed line
      has been taken. */
  datatype Taken = Taken(last: string, rest: string)

  /** The loop of `stdin_read`: every completed line in turn becomes the last
      command. */
  function TakeLines(buf: string, last: string): (r: Taken)
    ensures NextEol(r.rest, 0) == |r.rest|
    ensures |r.rest| <= |buf|
    decreases |buf|
  {
    if NextEol(buf, 0) == |buf| then Taken(last, buf)
    else TakeLines(buf[Cut(buf)..], buf[..Cut(buf)])
  }

  /** The last line that `stdin_read` takes from the buffer ends with a line
      ending, or with one byte after it. */
  predicate EndsLine(l: string)
  {
    (|l| >= 1 && IsEol(l[|l| - 1])) || (|l| >= 2 && IsEol(l[|l| - 2]))
  }

  /** When no line is complete the loop changes nothing. */
  lemma TakeLinesNone(buf: string, last: string)
    requires forall i :: 0 <= i < |buf| ==> !IsEol(buf[i])
    ensures TakeLines(buf, last) == Taken(last, buf)
  {
  }

  /** l followed by rest is how buf ends. */
  predicate EndsWith2(buf: string, l: string, rest: string)
  {
    && |l| + |rest| <= |buf| && rest == buf[|buf| - |rest|..]
    && l == buf[|buf| - |rest| - |l|..|buf| - |rest|]
  }

  /** The loop consumes the buffer front to back: once a line is complete,
      the new last command is the last completed line, and it and the
      leftover are the end of the buffer, in that order. */
  lemma {:induction false} TakeLinesSuffix(buf: string, last: string)
    requires NextEol(buf, 0) < |buf|
    ensures var r := TakeLines(buf, last);
      EndsLine(r.last) && EndsWith2(buf, r.last, r.rest)
    decreases |buf|
  {
    var c := Cut(buf);
    var r := TakeLines(buf[c..], buf[..c]);
    if NextEol(buf[c..], 0) < |buf[c..]| {
      TakeLinesSuffix(buf[c..], buf[..c]);
      SuffixShift(buf, c, r.last, r.rest);
    } else {
      CutLine(buf);
    }
  }

  /** The line cut from the buffer ends with its line ending or one byte
      after it, and it and what follows make up the buffer. */
  lemma CutLine(buf: string)
    requires NextEol(buf, 0) < |buf|
    ensures EndsLine(buf[..Cut(buf)]) && EndsWith2(buf, buf[..Cut(buf)], buf[Cut(buf)..])
  {
    var n, c := NextEol(buf, 0), Cut(buf);
    var l, rest := buf[..c], buf[c..];
    assert l[n] == buf[n] && IsEol(l[n]);
    if n == c - 1 {
      assert IsEol(l[|l| - 1]);
    } else {
      assert n == c - 2 && IsEol(l[|l| - 2]);
    }
    assert |l| == c && |rest| == |buf| - c;
    assert rest == buf[|buf| - |rest|..];
    assert l == buf[|buf| - |rest| - |l|..|buf| - |rest|];
  }

  /** The end of the rest of a buffer is the end of the buffer. */
  lemma SuffixShift(buf: string, c: nat, l: string, rest: string)
    requires c <= |buf| && EndsWith2(buf[c..], l, rest)
    ensures EndsWith2(buf, l, rest)
  {
  }

  /** The leftover never holds a line ending. */
  lemma TakeLinesClean(buf: string, last: string)
    ensures var r := TakeLines(buf, last);
      forall i :: 0 <= i < |r.rest| ==> !IsEol(r.rest[i])
  {
    var r := TakeLines(buf, last);
    assert NextEol(r.rest, 0) == |r.rest|;
  }

  /** `stdin_read(data)`. A buffer that is exactly one line ending repeats
      the last command (or sends the line ending when there is none yet);
      otherwise the data goes to the debugger and completed lines are
      remembered. */
  function AfterStdinRead(p: Proxy, data: string): (q: Proxy)
  {
    var buf := p.commandBuffer + data;
    if |buf| == 1 && IsEol(buf[0]) then
      p.(master := p.master + (if p.lastCommand != [] then p.lastCommand else data), commandBuffer := [])
    else
      var r := TakeLines(buf, p.lastCommand);
      p.(master := p.master + data, lastCommand := r.last, commandBuffer := r.rest)
  }

  /** `stdin_read` leaves the filters, the queue, the terminal and the replies
      alone; the user's data reaches the debugger unless it is the lone line
      ending that repeats the last command; that lone line ending is sent as
      it is when there is no last command, and it empties the buffer; no
      line ending stays buffered. */
  lemma StdinReadSpec(p: Proxy, data: string)
    ensures var q := AfterStdinRead(p, data);
      var buf := p.commandBuffer + data;
      && q.filters == p.filters && q.queue == p.queue && q.stdout == p.stdout && q.sent == p.sent
      && (forall i :: 0 <= i < |q.commandBuffer| ==> !IsEol(q.commandBuffer[i]))
      && (|buf| == 1 && IsEol(buf[0]) && p.lastCommand != [] ==> q.master == p.master + p.lastCommand)
      && (|buf| == 1 && IsEol(buf[0]) && p.lastCommand == [] ==> q.master == p.master + data)
      && (|buf| == 1 && IsEol(buf[0]) ==> q.commandBuffer == [] && q.lastCommand == p.lastCommand)
      && (!(|buf| == 1 && IsEol(buf[0])) ==> q.master == p.master + data)
  {
    TakeLinesClean(p.commandBuffer + data, p.lastCommand);
  }

  // ---------------------------------------------------------------------
  // One turn of the main loop

  /** What a turn of `run_loop` finds ready, with the data each ready source
      yields: output of the debugger, input of the user, a datagram. */
  datatype Ready = Ready(child: Option<string>, stdin: Option<string>, command: Option<Request>)

  /** One turn of `run_loop`: a timeout when nothing is ready, otherwise
      exactly one source, the debugger first, then the user, then the side
      channel (`_process_reads`). */
  function AfterTurn(engine: Engine, p: Proxy, prompt: string, ready: Ready): (Proxy, Result<()>)
    requires Stacked(p)
  {
    if ready.child.Some? then AfterWriteStdout(engine, p, prompt, ready.child.value)
    else if ready.stdin.Some? then (AfterStdinRead(p, ready.stdin.value), Ok(()))
    else if ready.command.Some? then AfterReceiveCommand(p, prompt, ready.command.value)
    else (AfterTimeout(p), Ok(()))
  }

  /** The stack invariant survives every turn that does not raise. */
  lemma TurnValid(engine: Engine, p: Proxy, prompt: string, ready: Ready)
    requires Stacked(p)
    ensures Stacked(AfterTurn(engine, p, prompt, ready).0)
  {
  }

  // ---------------------------------------------------------------------
  // The proxy object

  /** The proxy as the source keeps it: fields updated in place. `prompt`
      stands for what `get_prompt()` returns for the debugger at hand. */
  class Base {
    var filters: seq<Entry>
    var queue: seq<Request>
    var lastCommand: string
    var commandBuffer: string
    var stdout: string
    var master: string
    var sent: seq<Response>
    const prompt: string

    function Value(): Proxy
      reads this
    {
      Proxy(filters, queue, lastCommand, commandBuffer, stdout, master, sent)
    }

    ghost predicate Valid()
      reads this
    {
      Stacked(Value())
    }

    /** `__init__`: the passthrough alone, an empty queue, no last command. */
    constructor (prompt: string)
      ensures Valid() && Value() == Init() && this.prompt == prompt
    {
      filters, queue, lastCommand, commandBuffer := [Bottom], [], [], [];
      stdout, master, sent := [], [], [];
      this.prompt := prompt;
    }

    /** `_timeout()`. */
    method Timeout()
      requires Valid()
      modifies this
      ensures Valid() && Value() == AfterTimeout(old(Value()))
    {
      var top := filters[|filters| - 1];
      var (f, out) := Expire(top.filter);
      stdout := stdout + out;
      if |filters| > 1 {
        filters := filters[..|filters| - 1];
      } else {
        filters := filters[|filters| - 1 := top.(filter := f)];
      }
    }

    /** `set_filter(filt, req_id, handler)`. */
    method SetFilter(e: Entry) returns (accepted: bool)
      requires Valid()
      modifies this
      ensures Valid() && (Value(), accepted) == AfterSetFilter(old(Value()), e)
    {
      if |filters| == 1 {
        Timeout();
        filters := filters + [e];
        return true;
      }
      return false;
    }

    /** `filter_command(command)`. */
    method FilterCommand(command: string) returns (r: Result<string>)
      requires Valid()
      modifies this
      ensures Valid() && (Value(), r) == AfterFilterCommand(old(Value()), prompt, command)
    {
      var m := ParseRequest(command);
      if m.Some? && m.value.name == "handle-command" {
        var accepted := SetFilter(Entry(Stream([], Some(prompt)), m.value.id, Answer(m.value.rest)));
        if !accepted {
          return Raise("AssertionError");
        }
        return Ok(m.value.rest);
      }
      return Ok(command);
    }

    /** `_send_command()`. */
    method SendCommand() returns (r: Result<()>)
      requires Valid() && queue != []
      modifies this
      ensures Valid() && (Value(), r) == AfterSendCommand(old(Value()), prompt)
    {
      var command := FilterCommand(queue[0].data);
      if command.Raise? {
        return Raise(command.exception);
      }
      if command.value != [] {
        master := master + command.value + Newline;
      }
      return Ok(());
    }

    /** The side-channel branch of `_process_reads`. */
    method ReceiveCommand(req: Request) returns (r: Result<()>)
      requires Valid()
      modifies this
      ensures Valid() && (Value(), r) == AfterReceiveCommand(old(Value()), prompt, req)
    {
      if req.data == [] {
        return Raise("IndexError");
      }
      queue := queue + [req];
      if |queue| == 1 {
        r := SendCommand();
      } else {
        r := Ok(());
      }
    }

    /** `write_stdout(data)`. */
    method WriteStdout(engine: Engine, data: string) returns (r: Result<()>)
      requires Valid()
      modifies this
      ensures Valid() && (Value(), r) == AfterWriteStdout(engine, old(Value()), prompt, data)
    {
      var top := filters[|filters| - 1];
      var (f, reply) := Feed(engine, top.filter, data);
      filters := filters[|filters| - 1 := top.(filter := f)];
      stdout := stdout + reply.output;
      if reply.filtered.None? || reply.filtered.value == [] {
        return Ok(());
      }
      filters := filters[..1];
      r := CompleteRequest(top, reply.filtered.value);
    }

    /** The second half of `write_stdout`, once the side-command filter has
        been popped. */
    method CompleteRequest(top: Entry, filtered: string) returns (r: Result<()>)
      requires Valid() && |filters| == 1
      modifies this
      ensures Valid() && (Value(), r) == Complete(old(Value()), prompt, top, filtered)
    {
      var res := Handle(top.handler, filtered);
      if queue == [] {
        return Raise("IndexError");
      }
      var head := queue[0];
      queue := queue[1..];
      if res.None? {
        return Raise("AttributeError");
      }
      sent := sent + [Response(head.sender, top.reqId, res.value)];
      if queue != [] {
        r := SendCommand();
      } else {
        r := Ok(());
      }
    }

    /** `stdin_read(data)`: the loop takes completed lines off the command
        buffer one at a time. */
    method StdinRead(data: string)
      modifies this
      ensures Value() == AfterStdinRead(old(Value()), data)
    {
      commandBuffer := commandBuffer + data;
      if |commandBuffer| == 1 && IsEol(commandBuffer[0]) {
        master := master + (if lastCommand != [] then lastCommand else data);
        commandBuffer := [];
        return;
      }
      master := master + data;
      ghost var goal := TakeLines(commandBuffer, lastCommand);
      while true
        invariant TakeLines(commandBuffer, lastCommand) == goal
        invariant Value() == AfterStdinRead(old(Value()), data).(lastCommand := lastCommand, commandBuffer := commandBuffer)
        decreases |commandBuffer|
      {
        var e := NextEol(commandBuffer, 0);
        if e == |commandBuffer| {
          assert goal == Taken(lastCommand, commandBuffer);
          break;
        }
        var cut := if e + 2 <= |commandBuffer| then e + 2 else |commandBuffer|;
        lastCommand := commandBuffer[..cut];
        commandBuffer := commandBuffer[cut..];
      }
    }

    /** One turn of `run_loop`. */
    method Turn(engine: Engine, ready: Ready) returns (r: Result<()>)
      requires Valid()
      modifies this
      ensures Valid() && (Value(), r) == AfterTurn(engine, old(Value()), prompt, ready)
    {
      if ready.child.Some? {
        r := WriteStdout(engine, ready.child.value);
      } else if ready.stdin.Some? {
        StdinRead(ready.stdin.value);
        r := Ok(());
      } else if ready.command.Some? {
        r := ReceiveCommand(ready.command.value);
      } else {
        Timeout();
        r := Ok(());
      }
    }
  }
}
