/**
 * rplugin/python3/gdb/scm.py: the older, line-by-line form of the state
 * machine. Each line is offered to the transitions of the current state in
 * order; a transition whose handler returns a state that is truthy (a
 * non-empty list) moves the machine there, and the rest are not tried.
 * The handlers' effects on the cursor and on Neovim are recorded as events.
 */
module Scm {
  import opened Common
  import opened Parsers

  /** `pausedContinue`, `pausedJump` and `queryB`. */
  datatype ScmAction = Continue | Jump | Query

  datatype ScmTransition = ScmTransition(pattern: string, action: ScmAction)

  /** `cursor.hide()` and the two Lua calls. */
  datatype ScmEvent = HideCursor | LuaJump(file: string, line: string) | LuaQueryBreakpoints

  /** The fields of `BaseScm`; `current` is `None` until a state is set. */
  datatype Machine = Machine(running: seq<ScmTransition>, paused: seq<ScmTransition>,
                             current: Option<Which>, events: seq<ScmEvent>)

  function ListOf(s: Machine, w: Which): seq<ScmTransition>
  {
    if w == Running then s.running else s.paused
  }

  /** The state a handler returns when its pattern matches. */
  function ScmTarget(a: ScmAction): Which
  {
    if a == Continue then Running else Paused
  }

  /** What a handler returned (`None` when its pattern did not match) and
      what it did. */
  datatype Called = Called(next: Option<Which>, events: seq<ScmEvent>)

  /** A handler on one line; `pausedJump` raises when the match lacks its
      two groups. */
  function Call(engine: Engine, t: ScmTransition, line: string): (r: Result<Called>)
    ensures Search(engine, t.pattern, line).None? ==> r == Ok(Called(None, []))
    ensures r.Ok? && Search(engine, t.pattern, line).Some? ==>
              r.value.next == Some(ScmTarget(t.action)) && |r.value.events| == 1
    ensures r.Raise? <==> Search(engine, t.pattern, line).Some? && t.action == Jump
                          && |Search(engine, t.pattern, line).value.groups| < 2
  {
    match Search(engine, t.pattern, line)
    case None => Ok(Called(None, []))
    case Some(m) =>
      match t.action
      case Continue => Ok(Called(Some(Running), [HideCursor]))
      case Query => Ok(Called(Some(Paused), [LuaQueryBreakpoints]))
      case Jump =>
        if |m.groups| < 2 then Raise("IndexError")
        else Ok(Called(Some(Paused), [LuaJump(m.groups[0], m.groups[1])]))
  }

  /** A transition that moves the machine on this line: its pattern matches
      and the list it returns is not empty. */
  predicate Fires(engine: Engine, s: Machine, t: ScmTransition, line: string)
  {
    Search(engine, t.pattern, line).Some? && |ListOf(s, ScmTarget(t.action))| > 0
  }

  datatype ScmOutcome = ScmOutcome(machine: Machine, result: Result<()>)

  /** The inner loop of `feed` from transition k on. */
  function LineFrom(engine: Engine, s: Machine, ts: seq<ScmTransition>, k: nat, line: string): (r: ScmOutcome)
    requires k <= |ts|
    ensures r.machine.running == s.running && r.machine.paused == s.paused
    decreases |ts| - k
  {
    if k == |ts| then ScmOutcome(s, Ok(()))
    else
      match Call(engine, ts[k], line)
      case Raise(e) => ScmOutcome(s, Raise(e))
      case Ok(Called(next, evs)) =>
        var s1 := s.(events := s.events + evs);
        if next.Some? && |ListOf(s, next.value)| > 0 then ScmOutcome(s1.(current := next), Ok(()))
        else LineFrom(engine, s1, ts, k + 1, line)
  }

  /** One line through the current state: `for matcher, func in
      self.state` raises a TypeError while there is no state. */
  function AfterLine(engine: Engine, s: Machine, line: string): (r: ScmOutcome)
    ensures r.machine.running == s.running && r.machine.paused == s.paused
  {
    if s.current.None? then ScmOutcome(s, Raise("TypeError"))
    else LineFrom(engine, s, ListOf(s, s.current.value), 0, line)
  }

  /** `feed(lines)`: the lines one after the other, until one raises. */
  function AfterScmFeed(engine: Engine, s: Machine, lines: seq<string>): (r: ScmOutcome)
    ensures r.machine.running == s.running && r.machine.paused == s.paused
    decreases |lines|
  {
    if lines == [] then ScmOutcome(s, Ok(()))
    else
      var o := AfterLine(engine, s, lines[0]);
      if o.result.Raise? then o else AfterScmFeed(engine, o.machine, lines[1..])
  }

  /** The first transition from k on that fires decides the state; if none
      does, the state stays. */
  lemma {:induction false} LineFromSpec(engine: Engine, s: Machine, ts: seq<ScmTransition>, k: nat, line: string)
    requires k <= |ts|
    ensures var r := LineFrom(engine, s, ts, k, line);
      r.result.Ok? ==>
        && ((forall j :: k <= j < |ts| ==> !Fires(engine, s, ts[j], line)) ==> r.machine.current == s.current)
        && (forall i :: k <= i < |ts| && Fires(engine, s, ts[i], line)
                        && (forall j :: k <= j < i ==> !Fires(engine, s, ts[j], line))
                        ==> r.machine.current == Some(ScmTarget(ts[i].action)))
    decreases |ts| - k
  {
    if k < |ts| {
      var c := Call(engine, ts[k], line);
      if c.Ok? {
        var s1 := s.(events := s.events + c.value.events);
        LineFromSpec(engine, s1, ts, k + 1, line);
        assert forall t :: Fires(engine, s1, t, line) == Fires(engine, s, t, line);
      }
    }
  }

  /** A line moves the machine to the target of the first transition of the
      current state that fires, and leaves it where it is when none does. */
  lemma FirstFiringWins(engine: Engine, s: Machine, line: string)
    requires s.current.Some?
    ensures var r := AfterLine(engine, s, line);
      var ts := ListOf(s, s.current.value);
      r.result.Ok? ==>
        && ((forall j :: 0 <= j < |ts| ==> !Fires(engine, s, ts[j], line)) ==> r.machine.current == s.current)
        && (forall i :: 0 <= i < |ts| && Fires(engine, s, ts[i], line)
                        && (forall j :: 0 <= j < i ==> !Fires(engine, s, ts[j], line))
                        ==> r.machine.current == Some(ScmTarget(ts[i].action)))
  {
    LineFromSpec(engine, s, ListOf(s, s.current.value), 0, line);
  }

  /** Lines are handled independently: feeding two batches is feeding
      them together. */
  lemma {:induction false} ScmFeedConcat(engine: Engine, s: Machine, a: seq<string>, b: seq<string>)
    ensures var ra := AfterScmFeed(engine, s, a);
      AfterScmFeed(engine, s, a + b) == if ra.result.Raise? then ra else AfterScmFeed(engine, ra.machine, b)
    decreases |a|
  {
    if a != [] {
      assert (a + b)[0] == a[0] && (a + b)[1..] == a[1..] + b;
      var o := AfterLine(engine, s, a[0]);
      if o.result.Ok? {
        ScmFeedConcat(engine, o.machine, a[1..], b);
      }
    } else {
      assert a + b == b;
    }
  }

  /** `BaseScm`, whose fields the methods update in place. */
  class BaseScm {
    const engine: Engine
    var running: seq<ScmTransition>
    var paused: seq<ScmTransition>
    var current: Option<Which>
    var events: seq<ScmEvent>

    function Value(): Machine
      reads this
    {
      Machine(running, paused, current, events)
    }

    /** `__init__`: no transitions and no state. */
    constructor (engine: Engine)
      ensures this.engine == engine && Value() == Machine([], [], None, [])
    {
      this.engine := engine;
      running, paused, current, events := [], [], None, [];
    }

    /** `addTrans(state, matcher, func)`. */
    method AddTrans(which: Which, pattern: string, action: ScmAction)
      modifies this
      ensures which == Running ==> Value() == old(Value()).(running := old(running) + [ScmTransition(pattern, action)])
      ensures which == Paused ==> Value() == old(Value()).(paused := old(paused) + [ScmTransition(pattern, action)])
    {
      if which == Running {
        running := running + [ScmTransition(pattern, action)];
      } else {
        paused := paused + [ScmTransition(pattern, action)];
      }
    }

    /** `pausedContinue(matcher, line)`: hides the cursor on a match. */
    method PausedContinue(pattern: string, line: string) returns (next: Option<Which>)
      modifies this
      ensures var c := Call(engine, ScmTransition(pattern, Continue), line);
        c.Ok? && next == c.value.next && Value() == old(Value()).(events := old(events) + c.value.events)
    {
      var m := Common.Search(engine, pattern, line);
      if m.Some? {
        events := events + [HideCursor];
        return Some(Running);
      }
      return None;
    }

    /** `pausedJump(matcher, line)`: asks Neovim to jump to `m[1]:m[2]`. */
    method PausedJump(pattern: string, line: string) returns (next: Result<Option<Which>>)
      modifies this
      ensures match Call(engine, ScmTransition(pattern, Jump), line)
              case Raise(e) => next == Raise(e) && Value() == old(Value())
              case Ok(c) => next == Ok(c.next) && Value() == old(Value()).(events := old(events) + c.events)
    {
      var m := Common.Search(engine, pattern, line);
      if m.Some? {
        if |m.value.groups| < 2 {
          return Raise("IndexError");
        }
        events := events + [LuaJump(m.value.groups[0], m.value.groups[1])];
        return Ok(Some(Paused));
      }
      return Ok(None);
    }

    /** `queryB(matcher, line)`: asks Neovim to query breakpoints. */
    method QueryBreakpointsOn(pattern: string, line: string) returns (next: Option<Which>)
      modifies this
      ensures var c := Call(engine, ScmTransition(pattern, Query), line);
        c.Ok? && next == c.value.next && Value() == old(Value()).(events := old(events) + c.value.events)
    {
      var m := Common.Search(engine, pattern, line);
      if m.Some? {
        events := events + [LuaQueryBreakpoints];
        return Some(Paused);
      }
      return None;
    }

    /** `feed(lines)`: the nested loops over lines and transitions. */
    method Feed(lines: seq<string>) returns (r: Result<()>)
      modifies this
      ensures ScmOutcome(Value(), r) == AfterScmFeed(engine, old(Value()), lines)
    {
      for n := 0 to |lines|
        invariant AfterScmFeed(engine, old(Value()), lines) == AfterScmFeed(engine, Value(), lines[n..])
      {
        assert lines[n..][0] == lines[n] && lines[n..][1..] == lines[n + 1..];
        if current.None? {
          return Raise("TypeError");
        }
        var ts := ListOf(Value(), current.value);
        ghost var start := Value();
        for k := 0 to |ts|
          invariant running == start.running && paused == start.paused && current == start.current
          invariant AfterLine(engine, start, lines[n]) == LineFrom(engine, Value(), ts, k, lines[n])
        {
          var next: Option<Which>;
          match ts[k].action {
            case Continue =>
              next := PausedContinue(ts[k].pattern, lines[n]);
            case Jump =>
              var j := PausedJump(ts[k].pattern, lines[n]);
              if j.Raise? {
                return Raise(j.exception);
              }
              next := j.value;
            case Query =>
              next := QueryBreakpointsOn(ts[k].pattern, lines[n]);
          }
          if next.Some? && |ListOf(Value(), next.value)| > 0 {
            current := next;
            break;
          }
        }
      }
      assert lines[|lines|..] == [];
      return Ok(());
    }
  }
}
