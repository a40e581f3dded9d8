/**
 * rplugin/python3/gdb/backend/parser_impl.py: the state machine that reads
 * the debugger's console output. Each of the two states, running and
 * paused, holds an ordered list of transitions (a pattern and a handler).
 * Output is appended to a buffer; the first transition of the current
 * state whose pattern matches the buffer fires, the buffer is cut after
 * the match, and the handler chooses the next state after telling the
 * plugin what it saw. This repeats until no transition matches.
 *
 * Patterns go through the abstract engine of `Common`. What the handlers
 * tell the plugin (`continue_program`, `jump_to_source`,
 * `query_breakpoints`) is recorded as a log of events.
 */
module Parsers {
  import opened Common

  datatype Which = Running | Paused

  /** The handlers a transition can have: the three of `ParserImpl` and
      `_running_jump` of the pdb parser. */
  datatype Action = PausedContinue | PausedJump | QueryB | RunningJump

  datatype Transition = Transition(pattern: string, action: Action)

  /** A call on the parser's handler. */
  datatype Event = ContinueProgram | JumpToSource(file: string, line: int) | QueryBreakpoints

  /** The parser's fields as a value; `current` says which list `state`
      refers to. */
  datatype Fsm = Fsm(running: seq<Transition>, paused: seq<Transition>, current: Which,
                     buffer: string, events: seq<Event>)

  /** `self.state`: the list of the current state. */
  function StateList(f: Fsm): seq<Transition>
  {
    if f.current == Running then f.running else f.paused
  }

  /** Every match of the pattern ends after the start of the text. The
      plugin's patterns all consume at least one character; with a pattern
      that can match the empty string at the start, `feed` would never
      return. */
  ghost predicate PatternConsumes(engine: Engine, pattern: string)
  {
    forall t :: Search(engine, pattern, t).Some? ==> Search(engine, pattern, t).value.end > 0
  }

  /** Every pattern in the parser's two lists consumes. */
  ghost predicate Consumes(engine: Engine, f: Fsm)
  {
    && (forall i :: 0 <= i < |f.running| ==> PatternConsumes(engine, f.running[i].pattern))
    && (forall i :: 0 <= i < |f.paused| ==> PatternConsumes(engine, f.paused[i].pattern))
  }

  /** The patterns of the current state consume. */
  lemma StateListConsumes(engine: Engine, f: Fsm, i: nat)
    requires Consumes(engine, f) && i < |StateList(f)|
    ensures PatternConsumes(engine, StateList(f)[i].pattern)
  {
  }

  /** The state a handler leads to when it returns. */
  function Target(a: Action): Which
  {
    match a
    case PausedContinue => Running
    case PausedJump => Paused
    case QueryB => Paused
    case RunningJump => Running
  }

  /** A handler's state and events, or the exception it raises:
      `match.group(1)`, `match.group(2)` and `int(line)` for the jumps. */
  datatype Fired = Fired(state: Which, events: seq<Event>)

  function Fire(a: Action, m: Match): (r: Result<Fired>)
    ensures r.Ok? ==> r.value.state == Target(a) && |r.value.events| == 1
    ensures (a == PausedContinue || a == QueryB) ==> r.Ok?
    ensures r.Ok? && (a == PausedJump || a == RunningJump) ==>
              |m.groups| >= 2 && ParseInt(m.groups[1]).Some?
              && r.value.events == [JumpToSource(m.groups[0], ParseInt(m.groups[1]).value)]
  {
    match a
    case PausedContinue => Ok(Fired(Running, [ContinueProgram]))
    case QueryB => Ok(Fired(Paused, [QueryBreakpoints]))
    case _ =>
      if |m.groups| < 2 then Raise("IndexError")
      else
        match ParseInt(m.groups[1])
        case None => Raise("ValueError")
        case Some(line) => Ok(Fired(Target(a), [JumpToSource(m.groups[0], line)]))
  }

  /** The first transition, at or after index k, whose pattern matches. */
  datatype Hit = Hit(index: nat, m: Match)

  function FirstMatch(engine: Engine, ts: seq<Transition>, text: string, k: nat): (r: Option<Hit>)
    requires k <= |ts|
    ensures r.Some? ==> k <= r.value.index < |ts| && Search(engine, ts[r.value.index].pattern, text) == Some(r.value.m)
    ensures r.Some? ==> forall j :: k <= j < r.value.index ==> Search(engine, ts[j].pattern, text).None?
    ensures r.None? <==> forall j :: k <= j < |ts| ==> Search(engine, ts[j].pattern, text).None?
    decreases |ts| - k
  {
    if k == |ts| then None
    else
      match Search(engine, ts[k].pattern, text)
      case Some(m) => Some(Hit(k, m))
      case None => FirstMatch(engine, ts, text, k + 1)
  }

  /** The parser after a call and what the call returned or raised. */
  datatype Outcome<T> = Outcome(fsm: Fsm, result: Result<T>)

  /** `_search()`: fire the first matching transition of the current
      state, if any. The buffer is cut before the handler runs, so a
      handler that raises leaves the cut buffer and the old state. */
  function AfterSearch(engine: Engine, f: Fsm): (r: Outcome<bool>)
    ensures r.fsm.running == f.running && r.fsm.paused == f.paused
    ensures r.result == Ok(false) <==> FirstMatch(engine, StateList(f), f.buffer, 0).None?
    ensures r.result == Ok(false) ==> r.fsm == f
    ensures r.result != Ok(false) ==>
              var hit := FirstMatch(engine, StateList(f), f.buffer, 0).value;
              && r.fsm.buffer == f.buffer[hit.m.end..]
              && (r.result.Ok? ==> r.fsm.current == Target(StateList(f)[hit.index].action)
                                   && |r.fsm.events| == |f.events| + 1 && r.fsm.events[..|f.events|] == f.events)
              && (r.result.Raise? ==> r.fsm.current == f.current && r.fsm.events == f.events)
  {
    match FirstMatch(engine, StateList(f), f.buffer, 0)
    case None => Outcome(f, Ok(false))
    case Some(Hit(i, m)) =>
      var g := f.(buffer := f.buffer[m.end..]);
      match Fire(StateList(f)[i].action, m)
      case Raise(e) => Outcome(g, Raise(e))
      case Ok(Fired(w, evs)) =>
        assert (f.events + evs)[..|f.events|] == f.events;
        Outcome(g.(current := w, events := f.events + evs), Ok(true))
  }

  /** `while self._search(): pass`. */
  function Drain(engine: Engine, f: Fsm): (r: Outcome<()>)
    requires Consumes(engine, f)
    ensures r.fsm.running == f.running && r.fsm.paused == f.paused
    decreases |f.buffer|
  {
    var s := AfterSearch(engine, f);
    match s.result
    case Raise(e) => Outcome(s.fsm, Raise(e))
    case Ok(more) =>
      if !more then Outcome(f, Ok(()))
      else
        var hit := FirstMatch(engine, StateList(f), f.buffer, 0).value;
        StateListConsumes(engine, f, hit.index);
        assert |s.fsm.buffer| < |f.buffer|;
        Drain(engine, s.fsm)
  }

  /** Draining stops only when no transition of the state it ends in
      matches what is left of the buffer; what is left is a suffix of the
      buffer it started with. */
  lemma {:induction false} DrainSettles(engine: Engine, f: Fsm)
    requires Consumes(engine, f)
    ensures var r := Drain(engine, f);
      && (r.result.Ok? ==> FirstMatch(engine, StateList(r.fsm), r.fsm.buffer, 0).None?)
      && |r.fsm.buffer| <= |f.buffer| && r.fsm.buffer == f.buffer[|f.buffer| - |r.fsm.buffer|..]
    decreases |f.buffer|
  {
    var s := AfterSearch(engine, f);
    if s.result == Ok(true) {
      DrainSettles(engine, s.fsm);
      var r := Drain(engine, s.fsm);
      var hit := FirstMatch(engine, StateList(f), f.buffer, 0).value;
      assert s.fsm.buffer == f.buffer[hit.m.end..];
      assert r.fsm.buffer == f.buffer[|f.buffer| - |r.fsm.buffer|..];
    } else if s.result.Raise? {
      var hit := FirstMatch(engine, StateList(f), f.buffer, 0).value;
      assert s.fsm.buffer == f.buffer[hit.m.end..];
    }
  }

  /** What `feed` appends for one line: the line, or a newline for an
      empty one. */
  function Chunk(line: string): (c: string)
    ensures |c| > 0
    ensures line != [] ==> c == line
  {
    if line != [] then line else "\n"
  }

  /** `feed(lines)`: every line is appended and drained in turn; an
      exception stops the feed. */
  function AfterFeed(engine: Engine, f: Fsm, lines: seq<string>): (r: Outcome<()>)
    requires Consumes(engine, f)
    ensures r.fsm.running == f.running && r.fsm.paused == f.paused
    decreases |lines|
  {
    if lines == [] then Outcome(f, Ok(()))
    else
      var d := Drain(engine, f.(buffer := f.buffer + Chunk(lines[0])));
      if d.result.Raise? then d else AfterFeed(engine, d.fsm, lines[1..])
  }

  /** Feeding lines in two calls is feeding them in one. */
  lemma {:induction false} FeedConcat(engine: Engine, f: Fsm, a: seq<string>, b: seq<string>)
    requires Consumes(engine, f)
    ensures var ra := AfterFeed(engine, f, a);
      AfterFeed(engine, f, a + b) == if ra.result.Raise? then ra else AfterFeed(engine, ra.fsm, b)
    decreases |a|
  {
    if a != [] {
      assert (a + b)[0] == a[0] && (a + b)[1..] == a[1..] + b;
      var d := Drain(engine, f.(buffer := f.buffer + Chunk(a[0])));
      if d.result.Ok? {
        FeedConcat(engine, d.fsm, a[1..], b);
      }
    } else {
      assert a + b == b;
    }
  }

  /** After a feed that raises nothing, no transition of the current state
      matches the buffer. */
  lemma {:induction false} FeedSettles(engine: Engine, f: Fsm, lines: seq<string>)
    requires Consumes(engine, f)
    requires FirstMatch(engine, StateList(f), f.buffer, 0).None?
    ensures var r := AfterFeed(engine, f, lines);
      r.result.Ok? ==> FirstMatch(engine, StateList(r.fsm), r.fsm.buffer, 0).None?
    decreases |lines|
  {
    if lines != [] {
      var f1 := f.(buffer := f.buffer + Chunk(lines[0]));
      DrainSettles(engine, f1);
      var d := Drain(engine, f1);
      if d.result.Ok? {
        FeedSettles(engine, d.fsm, lines[1..]);
      }
    }
  }

  /** The state a fresh parser starts in, before a backend adds its
      transitions: paused, both lists empty, the buffer a newline. */
  function Fresh(): Fsm
  {
    Fsm([], [], Paused, "\n", [])
  }

  /** `is_paused()` as written: `self.state == self.paused` compares the
      lists by value. */
  function IsPausedAsWritten(f: Fsm): bool { StateList(f) == f.paused }

  /** `is_running()` as written. */
  function IsRunningAsWritten(f: Fsm): bool { StateList(f) == f.running }

  /** While the two lists are equal, in particular in a fresh parser, both
      tests answer yes. */
  lemma BothStatesAsWritten(f: Fsm)
    requires f.running == f.paused
    ensures IsPausedAsWritten(f) && IsRunningAsWritten(f)
    ensures IsPausedAsWritten(Fresh()) && IsRunningAsWritten(Fresh())
  {
  }

  /** The tests as intended: which list `state` is. */
  function IsPaused(f: Fsm): (b: bool)
    ensures b ==> StateList(f) == f.paused
    ensures f.running != f.paused ==> (b <==> StateList(f) == f.paused)
  {
    f.current == Paused
  }

  function IsRunning(f: Fsm): (b: bool)
    ensures b <==> !IsPaused(f)
  {
    f.current == Running
  }

  /** Where the lists differ, the tests as written agree with the intended
      ones, and exactly one of them holds. */
  lemma StateTests(f: Fsm)
    requires f.running != f.paused
    ensures IsPausedAsWritten(f) == IsPaused(f) && IsRunningAsWritten(f) == IsRunning(f)
    ensures IsPaused(f) != IsRunning(f)
  {
  }

  /** `ParserImpl`, whose fields the methods update in place. */
  class ParserImpl {
    const engine: Engine
    var running: seq<Transition>
    var paused: seq<Transition>
    var current: Which
    var buffer: string
    var events: seq<Event>

    function Value(): Fsm
      reads this
    {
      Fsm(running, paused, current, buffer, events)
    }

    ghost predicate Valid()
      reads this
    {
      Consumes(engine, Value())
    }

    /** `__init__`: paused, no transitions, a newline buffered. */
    constructor (engine: Engine)
      ensures Valid() && this.engine == engine && Value() == Fresh()
    {
      this.engine := engine;
      running, paused, current, buffer, events := [], [], Paused, "\n", [];
    }

    /** `add_trans(state, matcher, func)`: the transition goes last in the
        list of that state. */
    method AddTrans(which: Which, pattern: string, action: Action)
      requires Valid() && PatternConsumes(engine, pattern)
      modifies this
      ensures Valid()
      ensures which == Running ==> Value() == old(Value()).(running := old(running) + [Transition(pattern, action)])
      ensures which == Paused ==> Value() == old(Value()).(paused := old(paused) + [Transition(pattern, action)])
    {
      if which == Running {
        running := running + [Transition(pattern, action)];
      } else {
        paused := paused + [Transition(pattern, action)];
      }
    }

    /** `_search()`: the loop over the current state's transitions. */
    method Search() returns (r: Result<bool>)
      requires Valid()
      modifies this
      ensures Valid() && Outcome(Value(), r) == AfterSearch(engine, old(Value()))
    {
      var ts := if current == Running then running else paused;
      for i := 0 to |ts|
        invariant Value() == old(Value())
        invariant FirstMatch(engine, ts, buffer, 0) == FirstMatch(engine, ts, buffer, i)
      {
        var m := Common.Search(engine, ts[i].pattern, buffer);
        if m.Some? {
          buffer := buffer[m.value.end..];
          var fired := Fire(ts[i].action, m.value);
          if fired.Raise? {
            return Raise(fired.exception);
          }
          current := fired.value.state;
          events := events + fired.value.events;
          return Ok(true);
        }
      }
      return Ok(false);
    }

    /** `while self._search(): pass`. */
    method DrainBuffer() returns (r: Result<()>)
      requires Valid()
      modifies this
      ensures Valid() && Outcome(Value(), r) == Drain(engine, old(Value()))
    {
      var more := true;
      while more
        invariant Valid()
        invariant more ==> Drain(engine, old(Value())) == Drain(engine, Value())
        invariant !more ==> Drain(engine, old(Value())) == Outcome(Value(), Ok(()))
        decreases |buffer|, more
      {
        ghost var before := Value();
        var s := Search();
        if s.Raise? {
          return Raise(s.exception);
        }
        more := s.value;
        if more {
          var hit := FirstMatch(engine, StateList(before), before.buffer, 0).value;
          StateListConsumes(engine, before, hit.index);
          assert |buffer| < |before.buffer|;
        }
      }
      return Ok(());
    }

    /** `feed(lines)`. */
    method Feed(lines: seq<string>) returns (r: Result<()>)
      requires Valid()
      modifies this
      ensures Valid() && Outcome(Value(), r) == AfterFeed(engine, old(Value()), lines)
    {
      for i := 0 to |lines|
        invariant Valid()
        invariant AfterFeed(engine, old(Value()), lines) == AfterFeed(engine, Value(), lines[i..])
      {
        assert lines[i..][0] == lines[i] && lines[i..][1..] == lines[i + 1..];
        buffer := buffer + Chunk(lines[i]);
        var d := DrainBuffer();
        if d.Raise? {
          return d;
        }
      }
      assert lines[|lines|..] == [];
      return Ok(());
    }
  }
}
