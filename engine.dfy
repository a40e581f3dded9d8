/**
 * The two pieces of logic of the test engine that drives Neovim: the
 * quoting of keystrokes for the log (`Engine._quote_keys`) and the
 * grouping of the signs placed in the buffers (`Engine.get_signs`).
 *
 * Neovim is not attached: the buffers and the signs `sign_getplaced`
 * reports in each of them are the input of `GetSigns`.
 */
module Engine {
  import opened Common
  import Dict

  // ---------------------------------------------------------------------
  // Key quoting

  const Backspace: char := '\U{8}'

  /** The four control characters `_quote_keys` spells out. */
  predicate Special(c: char)
  {
    c == '\n' || c == '\r' || c == '\t' || c == Backspace
  }

  /** `s.replace(c, rep)` for a one-character pattern. */
  function Replace(s: string, c: char, rep: string): string
  {
    if s == [] then []
    else Replace(s[..|s| - 1], c, rep) + (if s[|s| - 1] == c then rep else [s[|s| - 1]])
  }

  /** `_quote_keys(keys)`: four `replace` calls, one after the other. */
  function QuoteKeys(keys: string): string
  {
    Replace(Replace(Replace(Replace(keys, '\n', "\\n"), '\r', "\\r"), '\t', "\\t"), Backspace, "\\b")
  }

  /** How one character of the keys is written in the log. */
  function Escape(c: char): (r: string)
    ensures Special(c) ==> |r| == 2 && r[0] == '\\'
    ensures !Special(c) ==> r == [c]
  {
    if c == '\n' then "\\n"
    else if c == '\r' then "\\r"
    else if c == '\t' then "\\t"
    else if c == Backspace then "\\b"
    else [c]
  }

  /** The keys escaped character by character, in one pass. */
  function EscapeAll(s: string): string
  {
    if s == [] then [] else EscapeAll(s[..|s| - 1]) + Escape(s[|s| - 1])
  }

  /** The number of control characters among the keys. */
  function CountSpecial(s: string): nat
  {
    if s == [] then 0 else CountSpecial(s[..|s| - 1]) + (if Special(s[|s| - 1]) then 1 else 0)
  }

  lemma {:induction false} ReplaceConcat(a: string, b: string, c: char, rep: string)
    ensures Replace(a + b, c, rep) == Replace(a, c, rep) + Replace(b, c, rep)
    decreases |b|
  {
    if b == [] {
      assert a + b == a;
    } else {
      var init := b[..|b| - 1];
      assert (a + b)[..|a + b| - 1] == a + init;
      ReplaceConcat(a, init, c, rep);
    }
  }

  lemma ReplaceOne(x: char, c: char, rep: string)
    ensures Replace([x], c, rep) == if x == c then rep else [x]
  {
    assert [x][..0] == [];
  }

  lemma ReplaceTwo(x: char, y: char, c: char, rep: string)
    requires x != c && y != c
    ensures Replace([x, y], c, rep) == [x, y]
  {
    assert [x, y][..1] == [x];
    ReplaceOne(x, c, rep);
  }

  /** Each replacement only introduces a backslash and a letter, which the
      later replacements leave alone, so one character is quoted alone. */
  lemma QuoteOne(c: char)
    ensures QuoteKeys([c]) == Escape(c)
  {
    ReplaceOne(c, '\n', "\\n");
    if c == '\n' {
      ReplaceTwo('\\', 'n', '\r', "\\r");
      ReplaceTwo('\\', 'n', '\t', "\\t");
      ReplaceTwo('\\', 'n', Backspace, "\\b");
    } else {
      ReplaceOne(c, '\r', "\\r");
      if c == '\r' {
        ReplaceTwo('\\', 'r', '\t', "\\t");
        ReplaceTwo('\\', 'r', Backspace, "\\b");
      } else {
        ReplaceOne(c, '\t', "\\t");
        if c == '\t' {
          ReplaceTwo('\\', 't', Backspace, "\\b");
        } else {
          ReplaceOne(c, Backspace, "\\b");
        }
      }
    }
  }

  /** Quoting keys is quoting their parts. */
  lemma QuoteConcat(a: string, b: string)
    ensures QuoteKeys(a + b) == QuoteKeys(a) + QuoteKeys(b)
  {
    var s1, t1 := Replace(a, '\n', "\\n"), Replace(b, '\n', "\\n");
    ReplaceConcat(a, b, '\n', "\\n");
    var s2, t2 := Replace(s1, '\r', "\\r"), Replace(t1, '\r', "\\r");
    ReplaceConcat(s1, t1, '\r', "\\r");
    var s3, t3 := Replace(s2, '\t', "\\t"), Replace(t2, '\t', "\\t");
    ReplaceConcat(s2, t2, '\t', "\\t");
    ReplaceConcat(s3, t3, Backspace, "\\b");
  }

  /** The chain of `replace` calls is the one-pass escaping. */
  lemma {:induction false} QuoteKeysEscape(s: string)
    ensures QuoteKeys(s) == EscapeAll(s)
    decreases |s|
  {
    if s != [] {
      var init := s[..|s| - 1];
      assert s == init + [s[|s| - 1]];
      QuoteConcat(init, [s[|s| - 1]]);
      QuoteOne(s[|s| - 1]);
      QuoteKeysEscape(init);
    } else {
      assert QuoteKeys(s) == [];
    }
  }

  lemma {:induction false} EscapeAllShape(s: string)
    ensures |EscapeAll(s)| == |s| + CountSpecial(s)
    ensures forall i :: 0 <= i < |EscapeAll(s)| ==> !Special(EscapeAll(s)[i])
    ensures CountSpecial(s) == 0 ==> EscapeAll(s) == s
    decreases |s|
  {
    if s != [] {
      var init := s[..|s| - 1];
      EscapeAllShape(init);
      var e := Escape(s[|s| - 1]);
      assert Special(s[|s| - 1]) ==> !Special(e[0]) && !Special(e[1]);
      forall i | 0 <= i < |EscapeAll(s)| ensures !Special(EscapeAll(s)[i]) {
        if i >= |EscapeAll(init)| {
          assert EscapeAll(s)[i] == e[i - |EscapeAll(init)|];
        } else {
          assert EscapeAll(s)[i] == EscapeAll(init)[i];
        }
      }
      if CountSpecial(s) == 0 {
        assert s == init + [s[|s| - 1]];
      }
    }
  }

  /** `_quote_keys` writes each of `\n`, `\r`, `\t` and `\b` as a backslash
      and its letter, keeps every other character where it was, leaves no
      control character of the four behind, and lengthens the keys by one
      character per replacement. */
  lemma QuoteKeysSpec(s: string)
    ensures forall c :: QuoteKeys([c]) == if Special(c) then Escape(c) else [c]
    ensures forall a, b :: QuoteKeys(a + b) == QuoteKeys(a) + QuoteKeys(b)
    ensures CountSpecial(s) == 0 ==> QuoteKeys(s) == s
    ensures forall i :: 0 <= i < |QuoteKeys(s)| ==> !Special(QuoteKeys(s)[i])
    ensures |QuoteKeys(s)| == |s| + CountSpecial(s)
  {
    forall c ensures QuoteKeys([c]) == if Special(c) then Escape(c) else [c] {
      QuoteOne(c);
    }
    forall a, b ensures QuoteKeys(a + b) == QuoteKeys(a) + QuoteKeys(b) {
      QuoteConcat(a, b);
    }
    QuoteKeysEscape(s);
    EscapeAllShape(s);
  }

  // ---------------------------------------------------------------------
  // Sign grouping

  const CurrentLine := "GdbCurrentLine"
  const BreakPrefix := "GdbBreakpoint"

  /** One entry of the `signs` list `sign_getplaced` reports. */
  datatype Sign = Sign(name: string, lnum: int)

  /** A buffer: whether it is valid and loaded, its file name, and the
      `signs` list of each entry `sign_getplaced` returns for it. */
  datatype Buffer = Buffer(loaded: bool, name: string, placed: seq<seq<Sign>>)

  /** The dictionary `get_signs` returns: the `"cur"` and `"break"` keys,
      when present. */
  datatype Signs = Signs(cur: Option<string>, brk: Option<Dict.Dict<int, seq<int>>>)

  /** `os.path.basename(name)`. */
  function Basename(name: string): string
  {
    name[RFind(name, '/') + 1..]
  }

  /** The signs of a buffer, entry after entry. */
  function Flatten(placed: seq<seq<Sign>>): seq<Sign>
  {
    if placed == [] then [] else Flatten(placed[..|placed| - 1]) + placed[|placed| - 1]
  }

  function SignsOf(b: Buffer): seq<Sign>
  {
    Flatten(b.placed)
  }

  /** The breakpoint number of a sign named `GdbBreakpoint<num>`, parsed as
      `int` parses it. */
  function BreakNumber(name: string): Option<int>
    requires StartsWith(name, BreakPrefix)
  {
    ParseInt(name[|BreakPrefix|..])
  }

  /** The body of the inner loop of `get_signs` for one sign: at most one
      current-line sign, and the line of each breakpoint sign appended to
      the list of its number. */
  function SignStep(cur: Option<string>, breaks: Dict.Dict<int, seq<int>>, bname: string, s: Sign)
    : Result<(Option<string>, Dict.Dict<int, seq<int>>)>
  {
    if s.name == CurrentLine then
      if cur.Some? then Raise("AssertionError") else Ok((Some(bname + ":" + IntToString(s.lnum)), breaks))
    else if StartsWith(s.name, BreakPrefix) then
      match BreakNumber(s.name)
      case None => Raise("ValueError")
      case Some(num) => Ok((cur, Dict.Append(breaks, num, s.lnum)))
    else Ok((cur, breaks))
  }

  /** The inner loops of `get_signs` over the signs of one buffer, from a
      `"cur"` entry already found or not, with a fresh `breaks`. */
  function ScanSigns(cur: Option<string>, bname: string, signs: seq<Sign>)
    : Result<(Option<string>, Dict.Dict<int, seq<int>>)>
  {
    if signs == [] then Ok((cur, []))
    else
      match ScanSigns(cur, bname, signs[..|signs| - 1])
      case Raise(e) => Raise(e)
      case Ok((c, breaks)) => SignStep(c, breaks, bname, signs[|signs| - 1])
  }

  /** One buffer of the outer loop of `get_signs`. */
  function ScanBuffer(ret: Signs, b: Buffer): Result<Signs>
  {
    if !b.loaded then Ok(ret)
    else
      match ScanSigns(ret.cur, Basename(b.name), SignsOf(b))
      case Raise(e) => Raise(e)
      case Ok((cur, breaks)) => Ok(Signs(cur, if breaks != [] then Some(breaks) else ret.brk))
  }

  /** `get_signs()` over the given buffers. */
  function Scan(bufs: seq<Buffer>): Result<Signs>
  {
    if bufs == [] then Ok(Signs(None, None))
    else
      match Scan(bufs[..|bufs| - 1])
      case Raise(e) => Raise(e)
      case Ok(ret) => ScanBuffer(ret, bufs[|bufs| - 1])
  }

  // The reference definitions the scan is checked against

  /** The number of current-line signs. */
  function CurCount(signs: seq<Sign>): nat
  {
    if signs == [] then 0
    else CurCount(signs[..|signs| - 1]) + (if signs[|signs| - 1].name == CurrentLine then 1 else 0)
  }

  /** Whether every breakpoint sign's number is a number. */
  predicate AllParse(signs: seq<Sign>)
  {
    forall i :: 0 <= i < |signs| && StartsWith(signs[i].name, BreakPrefix) ==> BreakNumber(signs[i].name).Some?
  }

  /** The (number, line) pair a breakpoint sign contributes. */
  function BreakRow(s: Sign): Option<(int, int)>
  {
    if StartsWith(s.name, BreakPrefix) && BreakNumber(s.name).Some? then Some((BreakNumber(s.name).value, s.lnum))
    else None
  }

  function BreakRows(signs: seq<Sign>): seq<Option<(int, int)>>
  {
    if signs == [] then [] else BreakRows(signs[..|signs| - 1]) + [BreakRow(signs[|signs| - 1])]
  }

  /** Whether a buffer has a breakpoint sign. */
  predicate HasBreaks(signs: seq<Sign>)
  {
    exists i :: 0 <= i < |signs| && StartsWith(signs[i].name, BreakPrefix)
  }

  /** The current-line signs over the loaded buffers. */
  function CurCountAll(bufs: seq<Buffer>): nat
  {
    if bufs == [] then 0
    else CurCountAll(bufs[..|bufs| - 1]) + (if bufs[|bufs| - 1].loaded then CurCount(SignsOf(bufs[|bufs| - 1])) else 0)
  }

  predicate AllParseAll(bufs: seq<Buffer>)
  {
    forall i :: 0 <= i < |bufs| && bufs[i].loaded ==> AllParse(SignsOf(bufs[i]))
  }

  lemma GroupNonEmpty(rows: seq<Option<(int, int)>>, k: int, v: int)
    requires Some((k, v)) in rows
    ensures Dict.Group(rows) != []
  {
    Dict.GroupSpec(rows, k);
    ValuesForMember(rows, k, v);
  }

  lemma {:induction false} ValuesForMember(rows: seq<Option<(int, int)>>, k: int, v: int)
    requires Some((k, v)) in rows
    ensures v in Dict.ValuesFor(rows, k)
    decreases |rows|
  {
    var init := rows[..|rows| - 1];
    if Some((k, v)) != rows[|rows| - 1] {
      assert rows == init + [rows[|rows| - 1]];
      ValuesForMember(init, k, v);
    }
  }

  lemma {:induction false} GroupEmpty(rows: seq<Option<(int, int)>>)
    requires forall i :: 0 <= i < |rows| ==> rows[i].None?
    ensures Dict.Group(rows) == []
    decreases |rows|
  {
    if rows != [] {
      GroupEmpty(rows[..|rows| - 1]);
    }
  }

  /** The signs of one loaded buffer are scanned without an exception
      exactly when at most one current-line sign is found in all and every
      breakpoint number parses; the `"cur"` entry is then set exactly when
      one was found. */
  lemma {:induction false} ScanSignsSpec(cur: Option<string>, bname: string, signs: seq<Sign>)
    ensures ScanSigns(cur, bname, signs).Ok? <==>
      AllParse(signs) && (if cur.Some? then 1 else 0) + CurCount(signs) <= 1
    ensures ScanSigns(cur, bname, signs).Ok? ==>
      var c := ScanSigns(cur, bname, signs).value.0;
      (c.Some? <==> cur.Some? || CurCount(signs) == 1) && (cur.Some? ==> c == cur)
    decreases |signs|
  {
    if signs != [] {
      var init := signs[..|signs| - 1];
      var s := signs[|signs| - 1];
      ScanSignsSpec(cur, bname, init);
      assert forall i :: 0 <= i < |init| ==> init[i] == signs[i];
      assert AllParse(signs) <==> AllParse(init) && (StartsWith(s.name, BreakPrefix) ==> BreakNumber(s.name).Some?);
      assert CurCount(signs) == CurCount(init) + if s.name == CurrentLine then 1 else 0;
      assert !StartsWith(CurrentLine, BreakPrefix) by {
        assert CurrentLine[3] != BreakPrefix[3];
      }
      match ScanSigns(cur, bname, init)
      case Raise(e) =>
      case Ok((c, breaks)) =>
        assert ScanSigns(cur, bname, signs) == SignStep(c, breaks, bname, s);
    }
  }

  /** A buffer scanned without an exception leaves in `breaks` the
      grouping of its breakpoint signs' (number, line) pairs. */
  lemma {:induction false} ScanSignsGroups(cur: Option<string>, bname: string, signs: seq<Sign>)
    requires ScanSigns(cur, bname, signs).Ok?
    ensures ScanSigns(cur, bname, signs).value.1 == Dict.Group(BreakRows(signs))
    decreases |signs|
  {
    if signs != [] {
      var init := signs[..|signs| - 1];
      var s := signs[|signs| - 1];
      assert ScanSigns(cur, bname, init).Ok?;
      ScanSignsGroups(cur, bname, init);
      var (c, breaks) := ScanSigns(cur, bname, init).value;
      var rows := BreakRows(signs);
      assert rows[..|rows| - 1] == BreakRows(init) && rows[|rows| - 1] == BreakRow(s);
      assert Dict.Group(rows) == Dict.AddRow(breaks, BreakRow(s));
      assert ScanSigns(cur, bname, signs) == SignStep(c, breaks, bname, s);
    }
  }

  /** With every number parsing, a buffer's grouping is empty exactly when
      it has no breakpoint sign. */
  lemma GroupEmptyIff(signs: seq<Sign>)
    requires AllParse(signs)
    ensures Dict.Group(BreakRows(signs)) == [] <==> !HasBreaks(signs)
  {
    if HasBreaks(signs) {
      var i :| 0 <= i < |signs| && StartsWith(signs[i].name, BreakPrefix);
      BreakRowAt(signs, i);
      GroupNonEmpty(BreakRows(signs), BreakNumber(signs[i].name).value, signs[i].lnum);
    } else {
      BreakRowsNone(signs);
      GroupEmpty(BreakRows(signs));
    }
  }

  lemma {:induction false} BreakRowAt(signs: seq<Sign>, i: nat)
    requires i < |signs|
    ensures |BreakRows(signs)| == |signs| && BreakRow(signs[i]) in BreakRows(signs)
    decreases |signs|
  {
    var init := signs[..|signs| - 1];
    assert BreakRows(signs) == BreakRows(init) + [BreakRow(signs[|signs| - 1])];
    if i < |init| {
      BreakRowAt(init, i);
      assert init[i] == signs[i];
    } else if init != [] {
      BreakRowAt(init, 0);
    }
  }

  /** Every breakpoint sign of a scanned buffer has a row. */
  lemma {:induction false} BreakRowsNone(signs: seq<Sign>)
    requires !HasBreaks(signs)
    ensures forall i :: 0 <= i < |BreakRows(signs)| ==> BreakRows(signs)[i].None?
    decreases |signs|
  {
    if signs != [] {
      var init := signs[..|signs| - 1];
      assert !HasBreaks(init) by {
        forall i | 0 <= i < |init| ensures !StartsWith(init[i].name, BreakPrefix) {
          assert init[i] == signs[i];
        }
      }
      BreakRowsNone(init);
    }
  }

  /** `get_signs` raises exactly when two current-line signs are placed in
      all, or a breakpoint sign's number does not parse; otherwise `"cur"`
      is present exactly when there is one current-line sign. */
  lemma {:induction false} ScanRaises(bufs: seq<Buffer>)
    ensures Scan(bufs).Ok? <==> AllParseAll(bufs) && CurCountAll(bufs) <= 1
    ensures Scan(bufs).Ok? ==> (Scan(bufs).value.cur.Some? <==> CurCountAll(bufs) == 1)
    decreases |bufs|
  {
    if bufs != [] {
      var init := bufs[..|bufs| - 1];
      var b := bufs[|bufs| - 1];
      ScanRaises(init);
      assert AllParseAll(bufs) <==> AllParseAll(init) && (b.loaded ==> AllParse(SignsOf(b))) by {
        assert forall i :: 0 <= i < |init| ==> init[i] == bufs[i];
      }
      if Scan(init).Ok? && b.loaded {
        ScanSignsSpec(Scan(init).value.cur, Basename(b.name), SignsOf(b));
      }
    }
  }

  /** Whether a buffer leaves `"break"` as it was: it is not loaded, or
      has no breakpoint sign. */
  predicate Quiet(b: Buffer)
  {
    b.loaded ==> !HasBreaks(SignsOf(b))
  }

  /** The grouping of a buffer's breakpoint signs. */
  function Grouping(b: Buffer): Dict.Dict<int, seq<int>>
  {
    Dict.Group(BreakRows(SignsOf(b)))
  }

  /** The `"break"` entry is the grouping of the last loaded buffer that
      has breakpoint signs: an earlier buffer's grouping is overwritten. */
  predicate BreaksFrom(bufs: seq<Buffer>, brk: Option<Dict.Dict<int, seq<int>>>)
  {
    match brk
    case None => forall i :: 0 <= i < |bufs| ==> Quiet(bufs[i])
    case Some(d) =>
      exists i :: 0 <= i < |bufs| && !Quiet(bufs[i]) && d == Grouping(bufs[i]) &&
        forall j :: i < j < |bufs| ==> Quiet(bufs[j])
  }

  lemma BreaksFromNew(init: seq<Buffer>, b: Buffer)
    requires !Quiet(b)
    ensures BreaksFrom(init + [b], Some(Grouping(b)))
  {
    assert (init + [b])[|init|] == b;
  }

  lemma BreaksFromOld(init: seq<Buffer>, b: Buffer, brk: Option<Dict.Dict<int, seq<int>>>)
    requires BreaksFrom(init, brk)
    requires Quiet(b)
    ensures BreaksFrom(init + [b], brk)
  {
    var bufs := init + [b];
    match brk
    case None =>
      forall i | 0 <= i < |bufs| ensures Quiet(bufs[i]) {
        if i < |init| { assert bufs[i] == init[i]; }
      }
    case Some(d) =>
      var i :| 0 <= i < |init| && !Quiet(init[i]) && d == Grouping(init[i]) &&
        forall j :: i < j < |init| ==> Quiet(init[j]);
      assert bufs[i] == init[i];
      forall j | i < j < |bufs| ensures Quiet(bufs[j]) {
        if j < |init| { assert bufs[j] == init[j]; }
      }
  }

  lemma {:induction false} ScanBreaks(bufs: seq<Buffer>)
    requires Scan(bufs).Ok?
    ensures BreaksFrom(bufs, Scan(bufs).value.brk)
    decreases |bufs|
  {
    if bufs != [] {
      var init := bufs[..|bufs| - 1];
      var b := bufs[|bufs| - 1];
      assert bufs == init + [b];
      ScanBreaks(init);
      var prev := Scan(init).value;
      if b.loaded {
        var signs := SignsOf(b);
        ScanSignsSpec(prev.cur, Basename(b.name), signs);
        ScanSignsGroups(prev.cur, Basename(b.name), signs);
        GroupEmptyIff(signs);
        if HasBreaks(signs) {
          BreaksFromNew(init, b);
          return;
        }
      }
      BreaksFromOld(init, b, prev.brk);
    }
  }

  /** Each number of a buffer's grouping lists the lines of that buffer's
      `GdbBreakpoint<number>` signs, in the order they are listed. */
  lemma BufferGroups(signs: seq<Sign>, num: int)
    ensures Dict.Unique(Dict.Group(BreakRows(signs)))
    ensures Dict.Get(Dict.Group(BreakRows(signs)), num) ==
      if Dict.ValuesFor(BreakRows(signs), num) == [] then None else Some(Dict.ValuesFor(BreakRows(signs), num))
  {
    Dict.GroupSpec(BreakRows(signs), num);
  }

  // ---------------------------------------------------------------------
  // The loops of `get_signs`

  /** `get_signs()`: the loop over the buffers, the entries of each, and
      the signs of each entry. */
  method GetSigns(bufs: seq<Buffer>) returns (r: Result<Signs>)
    ensures r == Scan(bufs)
  {
    var ret := Signs(None, None);
    for i := 0 to |bufs|
      invariant Scan(bufs[..i]) == Ok(ret)
    {
      assert bufs[..i + 1][..i] == bufs[..i];
      var b := bufs[i];
      if !b.loaded {
        continue;
      }
      var bname := Basename(b.name);
      var cur := ret.cur;
      var breaks: Dict.Dict<int, seq<int>> := [];
      for j := 0 to |b.placed|
        invariant ScanSigns(ret.cur, bname, Flatten(b.placed[..j])) == Ok((cur, breaks))
      {
        var entry := b.placed[j];
        assert Flatten(b.placed[..j]) + entry[..0] == Flatten(b.placed[..j]);
        for k := 0 to |entry|
          invariant ScanSigns(ret.cur, bname, Flatten(b.placed[..j]) + entry[..k]) == Ok((cur, breaks))
        {
          ScanSnoc(ret.cur, bname, Flatten(b.placed[..j]) + entry[..k], entry[k]);
          SliceSnoc(Flatten(b.placed[..j]), entry, k);
          var next := SignStep(cur, breaks, bname, entry[k]);
          if next.Raise? {
            ScanStops(ret.cur, bname, Flatten(b.placed[..j]) + entry[..k + 1], b, j, k + 1);
            ScanBufferPrefix(bufs, i, ret, next.exception);
            return Raise(next.exception);
          }
          cur, breaks := next.value.0, next.value.1;
        }
        FlattenSnoc(b.placed, j);
      }
      assert b.placed[..|b.placed|] == b.placed;
      ret := Signs(cur, if breaks != [] then Some(breaks) else ret.brk);
    }
    assert bufs[..|bufs|] == bufs;
    r := Ok(ret);
  }

  lemma SliceSnoc(done: seq<Sign>, entry: seq<Sign>, k: nat)
    requires k < |entry|
    ensures done + entry[..k + 1] == done + entry[..k] + [entry[k]]
  {
    assert entry[..k + 1] == entry[..k] + [entry[k]];
  }

  lemma FlattenSnoc(placed: seq<seq<Sign>>, j: nat)
    requires j < |placed|
    ensures Flatten(placed[..j + 1]) == Flatten(placed[..j]) + placed[j][..|placed[j]|]
  {
    assert placed[..j + 1][..j] == placed[..j];
    assert placed[j][..|placed[j]|] == placed[j];
  }

  lemma ScanSnoc(cur: Option<string>, bname: string, signs: seq<Sign>, s: Sign)
    ensures ScanSigns(cur, bname, signs + [s]) ==
      match ScanSigns(cur, bname, signs)
      case Raise(e) => Raise(e)
      case Ok((c, breaks)) => SignStep(c, breaks, bname, s)
  {
    assert (signs + [s])[..|signs|] == signs;
  }

  /** Once a sign raises, the rest of the buffer's signs are not looked at. */
  lemma ScanStops(cur: Option<string>, bname: string, done: seq<Sign>, b: Buffer, j: nat, k: nat)
    requires j < |b.placed| && k <= |b.placed[j]|
    requires done == Flatten(b.placed[..j]) + b.placed[j][..k]
    requires ScanSigns(cur, bname, done).Raise?
    ensures ScanSigns(cur, bname, SignsOf(b)) == ScanSigns(cur, bname, done)
  {
    FlattenPrefix(b.placed, j);
    assert done <= SignsOf(b) by {
      assert b.placed[j][..k] <= b.placed[j];
    }
    ScanRaisedPrefix(cur, bname, done, SignsOf(b));
  }

  lemma {:induction false} FlattenPrefix(placed: seq<seq<Sign>>, j: nat)
    requires j < |placed|
    ensures Flatten(placed[..j]) + placed[j] <= Flatten(placed)
    decreases |placed|
  {
    var init := placed[..|placed| - 1];
    if j < |placed| - 1 {
      assert placed[..j] == init[..j] && placed[j] == init[j];
      FlattenPrefix(init, j);
    } else {
      assert placed[..j] == init;
    }
  }

  lemma {:induction false} ScanRaisedPrefix(cur: Option<string>, bname: string, a: seq<Sign>, b: seq<Sign>)
    requires a <= b && ScanSigns(cur, bname, a).Raise?
    ensures ScanSigns(cur, bname, b) == ScanSigns(cur, bname, a)
    decreases |b|
  {
    if |b| > |a| {
      assert a <= b[..|b| - 1];
      ScanRaisedPrefix(cur, bname, a, b[..|b| - 1]);
    } else {
      assert a == b;
    }
  }

  /** An exception in one buffer is the exception of `get_signs`. */
  lemma ScanBufferPrefix(bufs: seq<Buffer>, i: nat, ret: Signs, e: string)
    requires i < |bufs| && Scan(bufs[..i]) == Ok(ret)
    requires ScanBuffer(ret, bufs[i]) == Raise(e)
    ensures Scan(bufs) == Raise(e)
  {
    assert bufs[..i + 1][..i] == bufs[..i];
    ScanRaisedFrom(bufs, i + 1);
  }

  lemma {:induction false} ScanRaisedFrom(bufs: seq<Buffer>, n: nat)
    requires n <= |bufs| && Scan(bufs[..n]).Raise?
    ensures Scan(bufs) == Scan(bufs[..n])
    decreases |bufs| - n
  {
    if n < |bufs| {
      assert bufs[..n + 1][..n] == bufs[..n];
      ScanRaisedFrom(bufs, n + 1);
    } else {
      assert bufs[..n] == bufs;
    }
  }
}
