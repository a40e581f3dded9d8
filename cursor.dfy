/**
 * rplugin/python3/gdb/cursor.py: the sign that marks the current line in
 * the jump window. To avoid a flicker of the sign column, `show` places the
 * sign under a new id and only then removes the old one, so the id
 * alternates between 4999 and 4998. The `sign_place`/`sign_unplace` calls
 * made to Neovim are recorded in order.
 */
module Cursor {

  /** `sign_place(id, 'NvimGdb', 'GdbCurrentLine', buf, {'lnum': line})`
      and `sign_unplace('NvimGdb', {'id': id, 'buffer': buf})`. */
  datatype SignCall = Place(id: int, buf: int, line: int) | Unplace(id: int, buf: int)

  /** The fields of `Cursor` (-1 stands for "not set") and the calls made. */
  datatype CursorState = CursorState(buf: int, line: int, signId: int, calls: seq<SignCall>)

  /** `__init__`. */
  function Fresh(): CursorState
  {
    CursorState(-1, -1, -1, [])
  }

  /** The id `show` gives the sign, from the id it had. */
  function NextId(previous: int): (id: int)
    ensures previous == -1 ==> id == 4999
    ensures previous == 4999 ==> id == 4998
    ensures previous == 4998 ==> id == 4999
  {
    4999 + (if previous != -1 then 4998 - previous else 0)
  }

  /** The ids a cursor can hold. */
  predicate IdOk(s: CursorState)
  {
    s.signId == -1 || s.signId == 4998 || s.signId == 4999
  }

  /** `hide()`. */
  function AfterHide(s: CursorState): CursorState
  {
    if s.signId != -1 then s.(signId := -1, calls := s.calls + [Unplace(s.signId, s.buf)])
    else s
  }

  /** `show()`: the new sign first, when there is somewhere to put it; the
      old one is removed after it. */
  function AfterShow(s: CursorState): CursorState
  {
    var id := NextId(s.signId);
    var placed := if s.line != -1 && s.buf != -1 then [Place(id, s.buf, s.line)] else [];
    var removed := if s.signId != -1 then [Unplace(s.signId, s.buf)] else [];
    s.(signId := id, calls := s.calls + placed + removed)
  }

  /** `set(buf, line)`. */
  function AfterSet(s: CursorState, buf: int, line: int): CursorState
  {
    s.(buf := buf, line := line)
  }

  /** Every operation keeps the id among -1, 4998 and 4999; `show` always
      changes it, to the other of 4998 and 4999, and two `show`s in a row
      bring a shown sign back to its id. */
  lemma IdsAlternate(s: CursorState)
    requires IdOk(s)
    ensures IdOk(AfterShow(s)) && IdOk(AfterHide(s)) && IdOk(AfterSet(s, s.buf, s.line))
    ensures AfterShow(s).signId != -1 && AfterShow(s).signId != s.signId
    ensures s.signId != -1 ==> AfterShow(AfterShow(s)).signId == s.signId
    ensures AfterHide(s).signId == -1
  {
  }

  /** `show` asks Neovim to place a sign exactly when both the buffer and
      the line are set, at that buffer and line and under the new id. */
  lemma ShowPlacesOnlyWhenSet(s: CursorState)
    ensures var r := AfterShow(s);
      (exists c :: c in r.calls[|s.calls|..] && c.Place?) <==> s.buf != -1 && s.line != -1
    ensures var r := AfterShow(s);
      forall c :: c in r.calls[|s.calls|..] && c.Place? ==> c == Place(r.signId, s.buf, s.line)
  {
    var r := AfterShow(s);
    var added := r.calls[|s.calls|..];
    if s.buf != -1 && s.line != -1 {
      assert added[0] == Place(r.signId, s.buf, s.line);
    }
  }

  /** When a sign was shown and a new one is placed, the new one is placed
      first, under another id, and only then is the old one removed. */
  lemma ShowPlacesBeforeUnplacing(s: CursorState)
    requires IdOk(s) && s.signId != -1 && s.buf != -1 && s.line != -1
    ensures var r := AfterShow(s);
      r.calls == s.calls + [Place(r.signId, s.buf, s.line), Unplace(s.signId, s.buf)]
      && r.signId != s.signId
  {
  }

  /** `hide` twice is `hide` once. */
  lemma HideIdempotent(s: CursorState)
    ensures AfterHide(AfterHide(s)) == AfterHide(s)
  {
  }

  /** `set` changes only the buffer and the line. */
  lemma SetKeepsSign(s: CursorState, buf: int, line: int)
    ensures var r := AfterSet(s, buf, line);
      r.signId == s.signId && r.calls == s.calls && r.buf == buf && r.line == line
  {
  }

  // ---------------------------------------------------------------------
  // Which current-line signs Neovim shows after the calls made

  /** A placed sign is known by its id and buffer; placing an id again in
      the same buffer moves it, and removing one only looks in the buffer
      named. */
  function Apply(shown: set<(int, int)>, c: SignCall): set<(int, int)>
  {
    match c
    case Place(id, buf, _) => shown + {(id, buf)}
    case Unplace(id, buf) => shown - {(id, buf)}
  }

  function Shown(calls: seq<SignCall>): set<(int, int)>
    decreases |calls|
  {
    if calls == [] then {} else Apply(Shown(calls[..|calls| - 1]), calls[|calls| - 1])
  }

  lemma ShownSnoc(calls: seq<SignCall>, c: SignCall)
    ensures Shown(calls + [c]) == Apply(Shown(calls), c)
  {
    assert (calls + [c])[..|calls|] == calls;
  }

  /** The signs shown are at most the one the cursor knows about. */
  predicate Tracked(s: CursorState)
  {
    forall p :: p in Shown(s.calls) ==> s.signId != -1 && p == (s.signId, s.buf)
  }

  /** While the buffer stays the same, `show` leaves exactly one sign, the
      new one, when it can place it, and none otherwise; `hide` leaves none. */
  lemma ShowInSameBuffer(s: CursorState)
    requires IdOk(s) && Tracked(s)
    ensures Shown(AfterShow(s).calls) == if s.buf != -1 && s.line != -1 then {(AfterShow(s).signId, s.buf)} else {}
    ensures Tracked(AfterShow(s))
    ensures Shown(AfterHide(s).calls) == {}
  {
    var id := NextId(s.signId);
    var placed := if s.line != -1 && s.buf != -1 then [Place(id, s.buf, s.line)] else [];
    var removed := if s.signId != -1 then [Unplace(s.signId, s.buf)] else [];
    if placed != [] {
      ShownSnoc(s.calls, placed[0]);
      assert s.calls + placed == s.calls + [placed[0]];
    } else {
      assert s.calls + placed == s.calls;
    }
    if removed != [] {
      ShownSnoc(s.calls + placed, removed[0]);
      assert s.calls + placed + removed == (s.calls + placed) + [removed[0]];
    } else {
      assert s.calls + placed + removed == s.calls + placed;
    }
    if s.signId != -1 {
      ShownSnoc(s.calls, Unplace(s.signId, s.buf));
    }
  }

  /** `show` after `set` moved the cursor to another buffer removes the old
      id from the new buffer, where it is not, and the old buffer keeps its
      sign: two current-line signs are shown. */
  lemma StaleSignAsWritten()
    ensures var s := AfterShow(AfterSet(AfterShow(AfterSet(Fresh(), 1, 10)), 2, 20));
      Shown(s.calls) == {(4999, 1), (4998, 2)}
  {
    var s1 := AfterShow(AfterSet(Fresh(), 1, 10));
    assert s1.calls == [Place(4999, 1, 10)];
    assert Shown(s1.calls) == {(4999, 1)} by {
      ShownSnoc([], Place(4999, 1, 10));
    }
    var s2 := AfterShow(AfterSet(s1, 2, 20));
    assert s2.calls == s1.calls + [Place(4998, 2, 20)] + [Unplace(4999, 2)];
    ShownSnoc(s1.calls, Place(4998, 2, 20));
    ShownSnoc(s1.calls + [Place(4998, 2, 20)], Unplace(4999, 2));
  }

  /** The cursor as it evidently should be: it remembers the buffer its
      sign was placed in and removes the sign from there. */
  datatype FixedCursor = FixedCursor(cursor: CursorState, signBuf: int)

  function FixedShow(f: FixedCursor): FixedCursor
  {
    var s := f.cursor;
    var id := NextId(s.signId);
    var placed := if s.line != -1 && s.buf != -1 then [Place(id, s.buf, s.line)] else [];
    var removed := if s.signId != -1 then [Unplace(s.signId, f.signBuf)] else [];
    FixedCursor(s.(signId := id, calls := s.calls + placed + removed), s.buf)
  }

  function FixedHide(f: FixedCursor): FixedCursor
  {
    var s := f.cursor;
    if s.signId != -1 then FixedCursor(s.(signId := -1, calls := s.calls + [Unplace(s.signId, f.signBuf)]), f.signBuf)
    else f
  }

  function FixedSet(f: FixedCursor, buf: int, line: int): FixedCursor
  {
    f.(cursor := AfterSet(f.cursor, buf, line))
  }

  /** At most the sign the cursor knows about is shown, where it put it. */
  predicate FixedTracked(f: FixedCursor)
  {
    forall p :: p in Shown(f.cursor.calls) ==> f.cursor.signId != -1 && p == (f.cursor.signId, f.signBuf)
  }

  /** With the buffer remembered, every operation keeps at most one
      current-line sign on screen, whatever buffers the cursor visits. */
  lemma FixedShowsOne(f: FixedCursor, buf: int, line: int)
    requires IdOk(f.cursor) && FixedTracked(f)
    ensures FixedTracked(FixedSet(f, buf, line))
    ensures FixedTracked(FixedShow(f)) && FixedTracked(FixedHide(f))
    ensures Shown(FixedHide(f).cursor.calls) == {}
  {
    var s := f.cursor;
    var id := NextId(s.signId);
    var placed := if s.line != -1 && s.buf != -1 then [Place(id, s.buf, s.line)] else [];
    var removed := if s.signId != -1 then [Unplace(s.signId, f.signBuf)] else [];
    if placed != [] {
      ShownSnoc(s.calls, placed[0]);
      assert s.calls + placed == s.calls + [placed[0]];
    } else {
      assert s.calls + placed == s.calls;
    }
    if removed != [] {
      ShownSnoc(s.calls + placed, removed[0]);
      assert s.calls + placed + removed == (s.calls + placed) + [removed[0]];
    } else {
      assert s.calls + placed + removed == s.calls + placed;
    }
    if s.signId != -1 {
      ShownSnoc(s.calls, Unplace(s.signId, f.signBuf));
    }
  }

  /** The same run as in `StaleSignAsWritten` leaves one sign, in the
      buffer the cursor moved to. */
  lemma FixedNoStaleSign()
    ensures var f := FixedShow(FixedSet(FixedShow(FixedSet(FixedCursor(Fresh(), -1), 1, 10)), 2, 20));
      Shown(f.cursor.calls) == {(4998, 2)}
  {
    var f1 := FixedShow(FixedSet(FixedCursor(Fresh(), -1), 1, 10));
    assert f1.cursor.calls == [Place(4999, 1, 10)];
    assert Shown(f1.cursor.calls) == {(4999, 1)} by {
      ShownSnoc([], Place(4999, 1, 10));
    }
    var f2 := FixedShow(FixedSet(f1, 2, 20));
    assert f2.cursor.calls == f1.cursor.calls + [Place(4998, 2, 20)] + [Unplace(4999, 1)];
    ShownSnoc(f1.cursor.calls, Place(4998, 2, 20));
    ShownSnoc(f1.cursor.calls + [Place(4998, 2, 20)], Unplace(4999, 1));
  }

  /** `Cursor`, whose fields the methods update in place. */
  class Cursor {
    var buf: int
    var line: int
    var signId: int
    var calls: seq<SignCall>

    function Value(): CursorState
      reads this
    {
      CursorState(buf, line, signId, calls)
    }

    constructor ()
      ensures Value() == Fresh()
    {
      buf, line, signId, calls := -1, -1, -1, [];
    }

    /** `hide()`. */
    method Hide()
      modifies this
      ensures Value() == AfterHide(old(Value()))
    {
      if signId != -1 {
        calls := calls + [Unplace(signId, buf)];
        signId := -1;
      }
    }

    /** `show()`. */
    method Show()
      modifies this
      ensures Value() == AfterShow(old(Value()))
    {
      var oldId := signId;
      signId := 4999 + (if oldId != -1 then 4998 - oldId else 0);
      if line != -1 && buf != -1 {
        calls := calls + [Place(signId, buf, line)];
      }
      if oldId != -1 {
        calls := calls + [Unplace(oldId, buf)];
      }
    }

    /** `set(buf, line)`. */
    method Set(buf: int, line: int)
      modifies this
      ensures Value() == AfterSet(old(Value()), buf, line)
    {
      this.buf := buf;
      this.line := line;
    }
  }
}
