/**
 * rplugin/python3/gdb/breakpoint.py: the breakpoints known per file, and
 * the signs that mark them in a buffer. Signs are numbered from 5000, one
 * per line that holds breakpoints, and named after how many breakpoints the
 * line holds. The full path of a buffer (`expand('#buf:p')`), the length
 * of the `sign_breakpoint` setting and the backend's answer to a query are
 * parameters; the `sign_place`/`sign_unplace` calls are recorded in order.
 */
module Breakpoint {
  import opened Common
  import Dict
  import Config

  /** `{line -> [id]}` for one file, in the order the backend listed it. */
  type Lines = Dict.Dict<string, seq<string>>

  datatype SignCall =
    | PlaceSign(id: int, name: string, buf: int, line: string)
    | UnplaceSign(id: int)

  /** The fields of `Breakpoint` and the calls made. */
  datatype Breaks = Breaks(breaks: map<string, Lines>, maxSignId: int, calls: seq<SignCall>)

  const FirstSignId := 5000

  /** `_get_sign_name(count)`: the count, capped at the last configured
      sign. */
  function SignName(count: int, maxCount: int): string
  {
    "GdbBreakpoint" + IntToString(if count < maxCount then count else maxCount - 1)
  }

  /** Lines with fewer breakpoints than there are configured signs get a
      sign of their own; all the others share the last one. */
  lemma SignNames(c1: nat, c2: nat, maxCount: nat)
    requires c1 != c2
    ensures c1 < maxCount && c2 < maxCount ==> SignName(c1, maxCount) != SignName(c2, maxCount)
    ensures c1 >= maxCount - 1 && c2 >= maxCount - 1 ==> SignName(c1, maxCount) == SignName(c2, maxCount)
  {
    if c1 < maxCount && c2 < maxCount && SignName(c1, maxCount) == SignName(c2, maxCount) {
      var p := "GdbBreakpoint";
      assert (p + NatToString(c1))[|p|..] == NatToString(c1);
      assert (p + NatToString(c2))[|p|..] == NatToString(c2);
      NatToStringInjective(c1, c2);
    }
  }

  /** A name `_define_signs` gives a breakpoint sign when `maxCount` signs
      are configured: GdbBreakpoint1 to GdbBreakpoint{maxCount}. */
  predicate DefinedSign(name: string, maxCount: int)
  {
    exists i :: 1 <= i <= maxCount && name == Config.BreakSignName(i)
  }

  lemma BreakSignNameInjective(i: nat, j: nat)
    requires Config.BreakSignName(i) == Config.BreakSignName(j)
    ensures i == j
  {
    var p := "GdbBreakpoint";
    assert Config.BreakSignName(i)[|p|..] == NatToString(i);
    assert Config.BreakSignName(j)[|p|..] == NatToString(j);
    NatToStringInjective(i, j);
  }

  /** As written, `_get_sign_name` caps the count at one less than the
      number of configured signs, while the signs are defined from 1: the
      last defined sign is never placed, and with a single configured sign
      every line gets a sign that was never defined. */
  lemma SignNameAsWritten(count: nat, maxCount: nat)
    requires 1 <= count && 1 <= maxCount
    ensures SignName(count, maxCount) != Config.BreakSignName(maxCount)
    ensures maxCount == 1 ==> !DefinedSign(SignName(count, maxCount), maxCount)
  {
    var idx := if count < maxCount then count else maxCount - 1;
    assert SignName(count, maxCount) == Config.BreakSignName(idx);
    if SignName(count, maxCount) == Config.BreakSignName(maxCount) {
      BreakSignNameInjective(idx, maxCount);
    }
    if maxCount == 1 && DefinedSign(SignName(count, maxCount), maxCount) {
      var i :| 1 <= i <= maxCount && SignName(count, maxCount) == Config.BreakSignName(i);
      BreakSignNameInjective(idx, i);
    }
  }

  /** With the ten default signs, a line holding ten breakpoints is marked
      with the ninth sign rather than the "ten or more" one. */
  lemma TenBreakpointsAsWritten()
    ensures SignName(10, 10) == Config.BreakSignName(9)
    ensures SignName(10, 10) != Config.BreakSignName(10)
  {
    SignNameAsWritten(10, 10);
  }

  /** The name evidently intended: the count, capped at the last sign
      defined. */
  function FixedSignName(count: int, maxCount: int): string
  {
    Config.BreakSignName(if count < maxCount then count else maxCount)
  }

  /** Every line with breakpoints gets a defined sign; counts below the
      number of signs get their own, and every other count the last one. */
  lemma FixedSignDefined(count: nat, maxCount: nat)
    requires 1 <= count && 1 <= maxCount
    ensures DefinedSign(FixedSignName(count, maxCount), maxCount)
    ensures count >= maxCount ==> FixedSignName(count, maxCount) == Config.BreakSignName(maxCount)
  {
    var idx := if count < maxCount then count else maxCount;
    assert 1 <= idx <= maxCount && FixedSignName(count, maxCount) == Config.BreakSignName(idx);
  }

  /** Each defined sign is used by some count, so none is dead. */
  lemma FixedSignsAllUsed(i: nat, maxCount: nat)
    requires 1 <= i <= maxCount
    ensures FixedSignName(i, maxCount) == Config.BreakSignName(i)
    ensures forall c :: 1 <= c && c != i && (c < maxCount || i < maxCount) ==> FixedSignName(c, maxCount) != FixedSignName(i, maxCount)
  {
    forall c | 1 <= c && c != i && (c < maxCount || i < maxCount)
      ensures FixedSignName(c, maxCount) != FixedSignName(i, maxCount)
    {
      if FixedSignName(c, maxCount) == FixedSignName(i, maxCount) {
        BreakSignNameInjective(if c < maxCount then c else maxCount, i);
      }
    }
  }

  /** The lines of a file, or none (`breaks.get(bpath, {})`). */
  function LinesOf(breaks: map<string, Lines>, path: string): Lines
  {
    if path in breaks then breaks[path] else []
  }

  /** The signs `_set_signs` places: one per line, numbered from 5000. */
  function Placements(lines: Lines, buf: int, maxCount: int): (cs: seq<SignCall>)
    ensures |cs| == |lines|
  {
    seq(|lines|, i requires 0 <= i < |lines| =>
      PlaceSign(FirstSignId + i, SignName(|lines[i].1|, maxCount), buf, lines[i].0))
  }

  /** `_set_signs(buf)`: nothing when the buffer is unknown. */
  function SetSigns(b: Breaks, buf: int, bufPath: string, maxCount: int): Breaks
  {
    if buf == -1 then b
    else
      var lines := LinesOf(b.breaks, bufPath);
      b.(maxSignId := FirstSignId - 1 + |lines|, calls := b.calls + Placements(lines, buf, maxCount))
  }

  /** The removals `clear_signs` asks for: ids 5000 to `max_sign_id`. */
  function Unplacements(maxSignId: int): (cs: seq<SignCall>)
  {
    var n := if maxSignId >= FirstSignId then maxSignId - FirstSignId + 1 else 0;
    seq(n, i requires 0 <= i < n => UnplaceSign(FirstSignId + i))
  }

  /** `clear_signs()`. */
  function ClearSigns(b: Breaks): Breaks
  {
    b.(maxSignId := 0, calls := b.calls + Unplacements(b.maxSignId))
  }

  /** `query(buf, fname)`, the backend having answered `table`. */
  function AfterQuery(b: Breaks, buf: int, fname: string, table: Lines, bufPath: string, maxCount: int): Breaks
  {
    SetSigns(ClearSigns(b.(breaks := b.breaks[fname := table])), buf, bufPath, maxCount)
  }

  /** `reset_signs()`. */
  function AfterReset(b: Breaks): Breaks
  {
    ClearSigns(b.(breaks := map[]))
  }

  /** `get_for_file(fname, line)`: the ids, or `None` for the `{}` returned
      when the file or the line is unknown. */
  function GetForFile(breaks: map<string, Lines>, fname: string, line: int): Option<seq<string>>
  {
    Dict.Get(LinesOf(breaks, fname), IntToString(line))
  }

  /** `_set_signs` on a real buffer places one sign per line of the buffer's
      file, with consecutive ids from 5000, at that line and named after its
      breakpoint count, and records the last id in `max_sign_id`. */
  lemma SetSignsSpec(b: Breaks, buf: int, bufPath: string, maxCount: int)
    requires buf != -1
    ensures var r := SetSigns(b, buf, bufPath, maxCount);
      var lines := LinesOf(b.breaks, bufPath);
      var added := r.calls[|b.calls|..];
      && r.breaks == b.breaks
      && r.maxSignId == 4999 + |lines|
      && |added| == |lines|
      && forall i :: 0 <= i < |added| ==>
           added[i] == PlaceSign(5000 + i, SignName(|lines[i].1|, maxCount), buf, lines[i].0)
  {
    var r := SetSigns(b, buf, bufPath, maxCount);
    assert r.calls[|b.calls|..] == Placements(LinesOf(b.breaks, bufPath), buf, maxCount);
  }

  /** `query` stores the answer for `fname` and touches no other file's
      breakpoints; `get_for_file` then reads the answer back. */
  lemma QueryReplacesOnly(b: Breaks, buf: int, fname: string, table: Lines, bufPath: string, maxCount: int, line: int)
    ensures var r := AfterQuery(b, buf, fname, table, bufPath, maxCount);
      && r.breaks[fname] == table
      && (forall f :: f != fname ==> (f in r.breaks <==> f in b.breaks))
      && (forall f :: f != fname && f in b.breaks ==> r.breaks[f] == b.breaks[f])
      && GetForFile(r.breaks, fname, line) == Dict.Get(table, IntToString(line))
  {
  }

  /** `reset_signs` forgets every file. */
  lemma ResetForgets(b: Breaks, fname: string, line: int)
    ensures AfterReset(b).breaks == map[] && AfterReset(b).maxSignId == 0
    ensures GetForFile(AfterReset(b).breaks, fname, line) == None
  {
  }

  // ---------------------------------------------------------------------
  // Which breakpoint signs Neovim shows after the calls made

  /** A sign is placed under its id and removed by id in every buffer. */
  function Apply(shown: set<int>, c: SignCall): set<int>
  {
    match c
    case PlaceSign(id, _, _, _) => shown + {id}
    case UnplaceSign(id) => shown - {id}
  }

  function Replay(shown: set<int>, calls: seq<SignCall>): set<int>
    decreases |calls|
  {
    if calls == [] then shown else Replay(Apply(shown, calls[0]), calls[1..])
  }

  lemma {:induction false} ReplayConcat(shown: set<int>, a: seq<SignCall>, b: seq<SignCall>)
    ensures Replay(shown, a + b) == Replay(Replay(shown, a), b)
    decreases |a|
  {
    if a == [] {
      assert a + b == b;
    } else {
      assert (a + b)[0] == a[0] && (a + b)[1..] == a[1..] + b;
      ReplayConcat(Apply(shown, a[0]), a[1..], b);
    }
  }

  /** Placing ids lo, lo+1, ... adds exactly them. */
  lemma {:induction false} ReplayPlacements(shown: set<int>, cs: seq<SignCall>, lo: int)
    requires forall i :: 0 <= i < |cs| ==> cs[i].PlaceSign? && cs[i].id == lo + i
    ensures forall id :: id in Replay(shown, cs) <==> id in shown || lo <= id < lo + |cs|
    decreases |cs|
  {
    if cs != [] {
      ReplayPlacements(Apply(shown, cs[0]), cs[1..], lo + 1);
    }
  }

  /** Removing ids lo, lo+1, ... takes exactly them away. */
  lemma {:induction false} ReplayUnplacements(shown: set<int>, cs: seq<SignCall>, lo: int)
    requires forall i :: 0 <= i < |cs| ==> cs[i] == UnplaceSign(lo + i)
    ensures forall id :: id in Replay(shown, cs) <==> id in shown && !(lo <= id < lo + |cs|)
    decreases |cs|
  {
    if cs != [] {
      ReplayUnplacements(Apply(shown, cs[0]), cs[1..], lo + 1);
    }
  }

  /** The signs shown are among the ids `clear_signs` would remove. */
  predicate Tracked(b: Breaks, shown: set<int>)
  {
    forall id :: id in Replay(shown, b.calls) ==> FirstSignId <= id <= b.maxSignId
  }

  /** `clear_signs` removes every breakpoint sign that is shown. */
  lemma ClearRemovesAll(b: Breaks, shown: set<int>)
    requires Tracked(b, shown)
    ensures Replay(shown, ClearSigns(b).calls) == {}
    ensures Tracked(ClearSigns(b), shown)
  {
    var u := Unplacements(b.maxSignId);
    ReplayConcat(shown, b.calls, u);
    ReplayUnplacements(Replay(shown, b.calls), u, FirstSignId);
    var r := Replay(shown, ClearSigns(b).calls);
    assert forall id :: id !in r;
  }

  /** After `query`, the signs shown are exactly one per line of the
      buffer's file, numbered from 5000, when the buffer is known, and none
      otherwise: no sign of an earlier query is left behind. */
  lemma QueryShowsCurrent(b: Breaks, shown: set<int>, buf: int, fname: string, table: Lines, bufPath: string, maxCount: int)
    requires Tracked(b, shown)
    ensures var r := AfterQuery(b, buf, fname, table, bufPath, maxCount);
      && Tracked(r, shown)
      && forall id :: id in Replay(shown, r.calls) <==> buf != -1 && 5000 <= id <= 4999 + |LinesOf(r.breaks, bufPath)|
  {
    var b1 := b.(breaks := b.breaks[fname := table]);
    var c := ClearSigns(b1);
    ClearRemovesAll(b1, shown);
    if buf != -1 {
      var lines := LinesOf(c.breaks, bufPath);
      var ps := Placements(lines, buf, maxCount);
      ReplayConcat(shown, c.calls, ps);
      ReplayPlacements(Replay(shown, c.calls), ps, FirstSignId);
    }
  }

  /** `reset_signs` leaves no breakpoint sign shown. */
  lemma ResetShowsNone(b: Breaks, shown: set<int>)
    requires Tracked(b, shown)
    ensures Replay(shown, AfterReset(b).calls) == {}
  {
    ClearRemovesAll(b.(breaks := map[]), shown);
  }

  /** `Breakpoint`, whose fields the methods update in place. */
  class BreakpointSigns {
    var breaks: map<string, Lines>
    var maxSignId: int
    var calls: seq<SignCall>

    function Value(): Breaks
      reads this
    {
      Breaks(breaks, maxSignId, calls)
    }

    /** `__init__`: no breakpoints known and no signs. */
    constructor ()
      ensures Value() == Breaks(map[], 0, [])
    {
      breaks, maxSignId, calls := map[], 0, [];
    }

    /** `clear_signs()`. */
    method ClearSignsNow()
      modifies this
      ensures Value() == ClearSigns(old(Value()))
    {
      ghost var u := Unplacements(maxSignId);
      var i := FirstSignId;
      while i <= maxSignId
        invariant FirstSignId <= i <= FirstSignId + |u|
        invariant calls == old(calls) + u[..i - FirstSignId]
        invariant maxSignId == old(maxSignId) && breaks == old(breaks)
      {
        assert u[..i + 1 - FirstSignId] == u[..i - FirstSignId] + [UnplaceSign(i)];
        calls := calls + [UnplaceSign(i)];
        i := i + 1;
      }
      assert u[..|u|] == u;
      maxSignId := 0;
    }

    /** `_set_signs(buf)`. */
    method SetSignsNow(buf: int, bufPath: string, maxCount: int)
      modifies this
      ensures Value() == SetSigns(old(Value()), buf, bufPath, maxCount)
    {
      if buf != -1 {
        var signId := FirstSignId - 1;
        var lines := LinesOf(breaks, bufPath);
        ghost var ps := Placements(lines, buf, maxCount);
        for i := 0 to |lines|
          invariant signId == FirstSignId - 1 + i
          invariant calls == old(calls) + ps[..i]
          invariant breaks == old(breaks) && maxSignId == old(maxSignId)
        {
          signId := signId + 1;
          var name := SignName(|lines[i].1|, maxCount);
          assert ps[..i + 1] == ps[..i] + [PlaceSign(signId, name, buf, lines[i].0)];
          calls := calls + [PlaceSign(signId, name, buf, lines[i].0)];
        }
        assert ps[..|lines|] == ps;
        maxSignId := signId;
      }
    }

    /** `query(buf, fname)`, the backend having answered `table`. */
    method Query(buf: int, fname: string, table: Lines, bufPath: string, maxCount: int)
      modifies this
      ensures Value() == AfterQuery(old(Value()), buf, fname, table, bufPath, maxCount)
    {
      breaks := breaks[fname := table];
      ClearSignsNow();
      SetSignsNow(buf, bufPath, maxCount);
    }

    /** `reset_signs()`. */
    method ResetSigns()
      modifies this
      ensures Value() == AfterReset(old(Value()))
    {
      breaks := map[];
      ClearSignsNow();
    }

    /** `get_for_file(fname, line)`. */
    method GetForFileNow(fname: string, line: int) returns (r: Option<seq<string>>)
      ensures fname !in breaks ==> r == None
      ensures fname in breaks ==> r == Dict.Get(breaks[fname], IntToString(line))
    {
      var lines := if fname in breaks then breaks[fname] else [];
      r := Dict.Get(lines, IntToString(line));
    }
  }
}
