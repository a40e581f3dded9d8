/**
 * test/spy_ui.py: a Neovim UI client that mirrors the screen Neovim draws
 * into a grid of cells, for the tests to read. The redraw notifications
 * resize, clear, write and scroll the grid; `flush` renders it into the
 * text `screen`. The connection to Neovim is left out: notifications are
 * given as a sequence of events.
 *
 * The grid is a list of rows, each a list of cells, indexed the way
 * Python indexes lists: a negative index counts from the end, and an
 * index outside the list raises IndexError, which ends the redraw with
 * the cells written so far left in place.
 */
module SpyUI {
  import opened Common

  type Grid = seq<seq<string>>

  const Space: string := " "

  /** `range(n)` is empty for a negative n, and `[' '] * n` is `[]`. */
  function Size(n: int): nat
  {
    if n < 0 then 0 else n
  }

  /** h rows of w cells each. */
  predicate Shaped(g: Grid, h: nat, w: nat)
  {
    |g| == h && forall r :: 0 <= r < |g| ==> |g[r]| == w
  }

  /** The position `xs[i]` denotes in a list of n elements, if any. */
  function PyIndex(i: int, n: nat): (r: Option<nat>)
    ensures r.Some? <==> -(n as int) <= i < n
    ensures r.Some? ==> r.value < n && r.value == (if i >= 0 then i else n + i)
  {
    if 0 <= i < n then Some(i)
    else if -(n as int) <= i < 0 then Some((n + i) as nat)
    else None
  }

  function BlankRow(w: nat): seq<string>
  {
    seq(w, i => Space)
  }

  function BlankGrid(h: nat, w: nat): (g: Grid)
    ensures Shaped(g, h, w)
    ensures forall r, c :: 0 <= r < h && 0 <= c < w ==> g[r][c] == Space
  {
    seq(h, i => BlankRow(w))
  }

  /** `grid[r][c]`, or None for IndexError. */
  function Read(g: Grid, r: int, c: int): Option<string>
  {
    match PyIndex(r, |g|)
    case None => None
    case Some(i) =>
      match PyIndex(c, |g[i]|)
      case None => None
      case Some(j) => Some(g[i][j])
  }

  /** `grid[r][c] = x`, or None for IndexError. */
  function Write(g: Grid, r: int, c: int, x: string): (res: Option<Grid>)
    ensures res.Some? <==> Read(g, r, c).Some?
    ensures res.Some? ==> |res.value| == |g| && forall i :: 0 <= i < |g| ==> |res.value[i]| == |g[i]|
  {
    match PyIndex(r, |g|)
    case None => None
    case Some(i) =>
      match PyIndex(c, |g[i]|)
      case None => None
      case Some(j) => Some(g[i := g[i][j := x]])
  }

  // ---------------------------------------------------------------------
  // Cell assignments, one at a time

  /** The right-hand side of a cell assignment: a value, None when
      computing it raised IndexError, or another cell of the grid. */
  datatype Source = Given(x: Option<string>) | CellAt(r: int, c: int)

  /** `grid[r][c] = src`. */
  datatype Action = Assign(r: int, c: int, src: Source)

  /** The grid, and whether an assignment has raised. */
  datatype Run = Run(grid: Grid, failed: bool)

  /** One assignment: the right-hand side is evaluated first; once one
      has raised, nothing more happens. */
  function Step(run: Run, a: Action): Run
  {
    if run.failed then run
    else
      var v := match a.src case Given(x) => x case CellAt(r, c) => Read(run.grid, r, c);
      if v.None? then Run(run.grid, true)
      else
        match Write(run.grid, a.r, a.c, v.value)
        case None => Run(run.grid, true)
        case Some(g) => Run(g, false)
  }

  /** The assignments, first to last. */
  function Exec(run: Run, acts: seq<Action>): Run
  {
    if acts == [] then run else Step(Exec(run, acts[..|acts| - 1]), acts[|acts| - 1])
  }

  lemma {:induction false} ExecConcat(run: Run, a: seq<Action>, b: seq<Action>)
    ensures Exec(run, a + b) == Exec(Exec(run, a), b)
    decreases |b|
  {
    if b == [] {
      assert a + b == a;
    } else {
      assert (a + b)[..|a + b| - 1] == a + b[..|b| - 1];
      ExecConcat(run, a, b[..|b| - 1]);
    }
  }

  lemma {:induction false} ExecFailed(run: Run, acts: seq<Action>)
    requires run.failed
    ensures Exec(run, acts) == run
  {
    if acts != [] {
      ExecFailed(run, acts[..|acts| - 1]);
    }
  }

  /** Once an assignment has raised, the later ones change nothing. */
  lemma ExecPrefix(run: Run, a: seq<Action>, b: seq<Action>)
    requires a <= b && Exec(run, a).failed
    ensures Exec(run, b) == Exec(run, a)
  {
    assert b == a + b[|a|..];
    ExecConcat(run, a, b[|a|..]);
    ExecFailed(Exec(run, a), b[|a|..]);
  }

  /** Assignments to existing cells keep the shape of the grid. */
  lemma {:induction false} ExecShape(run: Run, acts: seq<Action>, h: nat, w: nat)
    requires Shaped(run.grid, h, w)
    ensures Shaped(Exec(run, acts).grid, h, w)
  {
    if acts != [] {
      ExecShape(run, acts[..|acts| - 1], h, w);
    }
  }

  // ---------------------------------------------------------------------
  // The assignments each operation performs

  /** `for col in range(from, to): grid[row][col] = ' '`. */
  function EolActions(row: int, from: int, to: int): seq<Action>
  {
    seq(Size(to - from), i => Assign(row, from + i, Given(Some(Space))))
  }

  /** `for col, char in enumerate(text): text_row[c0 + col] = char[0]`,
      where `char[0]` raises for an empty parameter list. */
  function PutActions(row: int, c0: int, text: seq<seq<string>>): seq<Action>
  {
    seq(|text|, k requires 0 <= k < |text| =>
      Assign(row, c0 + k, Given(if text[k] == [] then None else Some(text[k][0]))))
  }

  /** `for col in range(left, right): grid[row][col] = grid[row + rows][col]`. */
  function CopyRow(row: int, rows: int, left: int, right: int): seq<Action>
  {
    seq(Size(right - left), i => Assign(row, left + i, CellAt(row + rows, left + i)))
  }

  /** The rows `_scroll` visits: `range(top, bot - rows)` upwards when
      rows > 0, `range(bot - 1, top - rows - 1, -1)` downwards otherwise. */
  function ScrolledRows(top: int, bot: int, rows: int): seq<int>
  {
    if rows > 0 then seq(Size(bot - rows - top), i => top + i)
    else seq(Size(bot - top + rows), i => bot - 1 - i)
  }

  function ScrollActions(rowList: seq<int>, rows: int, left: int, right: int): seq<Action>
  {
    if rowList == [] then []
    else ScrollActions(rowList[..|rowList| - 1], rows, left, right) + CopyRow(rowList[|rowList| - 1], rows, left, right)
  }

  lemma {:induction false} ScrollActionsPrefix(rowList: seq<int>, i: nat, rows: int, left: int, right: int)
    requires i <= |rowList|
    ensures ScrollActions(rowList[..i], rows, left, right) <= ScrollActions(rowList, rows, left, right)
    decreases |rowList|
  {
    if i < |rowList| {
      var init := rowList[..|rowList| - 1];
      assert rowList[..i] == init[..i];
      ScrollActionsPrefix(init, i, rows, left, right);
    } else {
      assert rowList[..i] == rowList;
    }
  }

  /** A row copy of `_scroll` that raises ends it. */
  lemma ScrollStopsAfter(run: Run, rowList: seq<int>, k: nat, rows: int, left: int, right: int)
    requires k < |rowList|
    requires Exec(run, ScrollActions(rowList[..k + 1], rows, left, right)).failed
    ensures Exec(run, ScrollActions(rowList, rows, left, right)) ==
      Exec(run, ScrollActions(rowList[..k + 1], rows, left, right))
  {
    ScrollActionsPrefix(rowList, k + 1, rows, left, right);
    ExecPrefix(run, ScrollActions(rowList[..k + 1], rows, left, right), ScrollActions(rowList, rows, left, right));
  }

  // ---------------------------------------------------------------------
  // The state of the UI and the redraw operations on it

  /** `scroll_region`. */
  datatype Region = Region(top: int, bot: int, left: int, right: int)

  datatype UI = UI(width: int, height: int, row: int, col: int, region: Region, grid: Grid, screen: string)

  /** The grid has `height` rows of `width` cells. */
  predicate Wf(ui: UI)
  {
    Shaped(ui.grid, Size(ui.height), Size(ui.width))
  }

  function Outcome(ui: UI, run: Run): (UI, Result<()>)
  {
    (ui.(grid := run.grid), if run.failed then Raise("IndexError") else Ok(()))
  }

  /** `_resize(width, height)`. */
  function Resized(ui: UI, width: int, height: int): (u: UI)
    requires Wf(ui)
    ensures Wf(u)
  {
    ui.(grid := seq(Size(height), r requires 0 <= r => seq(Size(width), c requires 0 <= c =>
                  if r < Size(ui.height) && c < Size(ui.width) then ui.grid[r][c] else Space)),
        width := width, height := height)
  }

  /** `_clear()`. */
  function Cleared(ui: UI): (u: UI)
    requires Wf(ui)
    ensures Wf(u)
  {
    ui.(grid := BlankGrid(Size(ui.height), Size(ui.width)))
  }

  /** `_eol_clear()`. */
  function EolCleared(ui: UI): (o: (UI, Result<()>))
    requires Wf(ui)
    ensures Wf(o.0)
  {
    var run := Exec(Run(ui.grid, false), EolActions(ui.row, ui.col, ui.width));
    ExecShape(Run(ui.grid, false), EolActions(ui.row, ui.col, ui.width), Size(ui.height), Size(ui.width));
    Outcome(ui, run)
  }

  /** `_put(text)`: the row is looked up before any cell is written, and
      the cursor moves only when every cell was written. */
  function Put(ui: UI, text: seq<seq<string>>): (o: (UI, Result<()>))
    requires Wf(ui)
    ensures Wf(o.0)
  {
    if PyIndex(ui.row, |ui.grid|).None? then (ui, Raise("IndexError"))
    else
      var run := Exec(Run(ui.grid, false), PutActions(ui.row, ui.col, text));
      ExecShape(Run(ui.grid, false), PutActions(ui.row, ui.col, text), Size(ui.height), Size(ui.width));
      if run.failed then Outcome(ui, run)
      else (ui.(grid := run.grid, col := ui.col + |text|), Ok(()))
  }

  /** `_scroll(rows)` within `scroll_region`. */
  function Scrolled(ui: UI, rows: int): (o: (UI, Result<()>))
    requires Wf(ui)
    ensures Wf(o.0)
  {
    var R := ui.region;
    var acts := ScrollActions(ScrolledRows(R.top, R.bot, rows), rows, R.left, R.right);
    ExecShape(Run(ui.grid, false), acts, Size(ui.height), Size(ui.width));
    Outcome(ui, Exec(Run(ui.grid, false), acts))
  }

  // ---------------------------------------------------------------------
  // Rendering

  /** `"-" * n`. */
  function Dashes(n: int): string
  {
    seq(Size(n), i => '-')
  }

  function Border(width: int): string
  {
    "+" + Dashes(width) + "+"
  }

  /** `''.join(row)`. */
  function Concat(cells: seq<string>): string
  {
    if cells == [] then "" else Concat(cells[..|cells| - 1]) + cells[|cells| - 1]
  }

  /** The lines `to_str` builds: a border, one framed line per row, a border. */
  function Lines(g: Grid, width: int): seq<string>
  {
    [Border(width)] + seq(|g|, i requires 0 <= i < |g| => "|" + Concat(g[i]) + "|") + [Border(width)]
  }

  /** `"\n".join(lines)`. */
  function JoinLines(lines: seq<string>): string
  {
    if lines == [] then ""
    else if |lines| == 1 then lines[0]
    else JoinLines(lines[..|lines| - 1]) + "\n" + lines[|lines| - 1]
  }

  /** `to_str()`. */
  function Render(g: Grid, width: int): string
  {
    JoinLines(Lines(g, width))
  }

  /** Cells of one character each are joined into a line holding them in
      order. */
  lemma {:induction false} ConcatSingles(cells: seq<string>)
    requires forall j :: 0 <= j < |cells| ==> |cells[j]| == 1
    ensures |Concat(cells)| == |cells|
    ensures forall j :: 0 <= j < |cells| ==> Concat(cells)[j] == cells[j][0]
  {
    if cells != [] {
      ConcatSingles(cells[..|cells| - 1]);
    }
  }

  /** The rendering has `height + 2` lines framed by borders; when every
      cell is one character, every line is `width + 2` characters long and
      shows each cell at its row and column. */
  lemma RenderShape(g: Grid, h: nat, w: nat)
    requires Shaped(g, h, w)
    ensures |Lines(g, w)| == h + 2
    ensures Lines(g, w)[0] == Lines(g, w)[h + 1] == Border(w)
    ensures |Border(w)| == w + 2
    ensures (forall r, c :: 0 <= r < h && 0 <= c < w ==> |g[r][c]| == 1) ==>
      (forall i :: 0 <= i < h + 2 ==> |Lines(g, w)[i]| == w + 2) &&
      (forall r, c :: 0 <= r < h && 0 <= c < w ==> Lines(g, w)[r + 1][c + 1] == g[r][c][0])
  {
    if forall r, c :: 0 <= r < h && 0 <= c < w ==> |g[r][c]| == 1 {
      forall r | 0 <= r < h
        ensures |Concat(g[r])| == w && forall c :: 0 <= c < w ==> Concat(g[r])[c] == g[r][c][0]
      {
        ConcatSingles(g[r]);
      }
    }
  }

  // ---------------------------------------------------------------------
  // Redraw notifications

  /** `IGNORE_REDRAW`. */
  const IgnoreRedraw: set<string> := {
    "mode_info_set", "mode_change", "mouse_on", "mouse_off",
    "option_set", "default_colors_set",
    "hl_group_set", "hl_attr_define",
    "grid_cursor_goto", "busy_start", "busy_stop",
    "update_fg", "update_bg", "update_sp", "highlight_set",
    "win_viewport"
  }

  /** One element of a `redraw` notification: the command name, its first
      parameter list `arg[1]` (numbers) and all its parameter lists
      `arg[1:]` (for `put`, the cells as lists of strings). An element
      without any parameter list has `cells == []`. */
  datatype Event = Event(cmd: string, par: seq<int>, cells: seq<seq<string>>)

  /** One event of `_redraw`: `par = arg[1]` is read before anything else,
      so an element without parameters raises IndexError whatever its
      command; calling a handler with the wrong number of parameters raises
      TypeError; an unknown command is only printed. */
  function Apply(ui: UI, e: Event): (o: (UI, Result<()>))
    requires Wf(ui)
    ensures Wf(o.0)
    ensures e.cells == [] ==> o == (ui, Raise("IndexError"))
  {
    if e.cells == [] then (ui, Raise("IndexError"))
    else if e.cmd in IgnoreRedraw then (ui, Ok(()))
    else if e.cmd == "resize" then
      if |e.par| != 2 then (ui, Raise("TypeError")) else (Resized(ui, e.par[0], e.par[1]), Ok(()))
    else if e.cmd == "clear" then (Cleared(ui), Ok(()))
    else if e.cmd == "eol_clear" then EolCleared(ui)
    else if e.cmd == "cursor_goto" then
      if |e.par| != 2 then (ui, Raise("TypeError")) else (ui.(row := e.par[0], col := e.par[1]), Ok(()))
    else if e.cmd == "put" then Put(ui, e.cells)
    else if e.cmd == "set_scroll_region" then
      if |e.par| != 4 then (ui, Raise("TypeError"))
      else (ui.(region := Region(e.par[0], e.par[1], e.par[2], e.par[3])), Ok(()))
    else if e.cmd == "scroll" then
      if |e.par| != 1 then (ui, Raise("TypeError")) else Scrolled(ui, e.par[0])
    else if e.cmd == "flush" then (ui.(screen := Render(ui.grid, ui.width)), Ok(()))
    else (ui, Ok(()))
  }

  /** `_redraw(args)`: the events in order, until one raises. */
  function Redrawn(ui: UI, events: seq<Event>): (o: (UI, Result<()>))
    requires Wf(ui)
    ensures Wf(o.0)
  {
    if events == [] then (ui, Ok(()))
    else
      var o := Redrawn(ui, events[..|events| - 1]);
      if o.1.Raise? then o else Apply(o.0, events[|events| - 1])
  }

  // ---------------------------------------------------------------------
  // What the operations mean

  /** Growing the grid and shrinking it back restores it. */
  lemma ResizeRoundTrip(ui: UI, width: int, height: int)
    requires Wf(ui) && Size(ui.width) <= width && Size(ui.height) <= height
    ensures Resized(Resized(ui, width, height), ui.width, ui.height).grid == ui.grid
  {
    var back := Resized(Resized(ui, width, height), ui.width, ui.height).grid;
    forall r | 0 <= r < |ui.grid| ensures back[r] == ui.grid[r] {
      assert |back[r]| == |ui.grid[r]|;
    }
  }

  /** Clearing blanks every cell and keeps everything else. */
  lemma ClearMeaning(ui: UI)
    requires Wf(ui)
    ensures Cleared(ui) == ui.(grid := Cleared(ui).grid)
    ensures forall r, c :: 0 <= r < Size(ui.height) && 0 <= c < Size(ui.width) ==> Cleared(ui).grid[r][c] == Space
    ensures Render(Cleared(ui).grid, ui.width) == Render(BlankGrid(Size(ui.height), Size(ui.width)), ui.width)
  {
  }

  lemma {:induction false} EolSteps(g: Grid, h: nat, w: nat, row: nat, c0: nat, n: nat)
    requires Shaped(g, h, w) && row < h && c0 + n <= w
    ensures var run := Exec(Run(g, false), EolActions(row, c0, c0 + n));
      !run.failed && Shaped(run.grid, h, w) &&
      forall i, j :: 0 <= i < h && 0 <= j < w ==>
        run.grid[i][j] == if i == row && c0 <= j < c0 + n then Space else g[i][j]
  {
    if n > 0 {
      EolSteps(g, h, w, row, c0, n - 1);
      assert EolActions(row, c0, c0 + n)[..n - 1] == EolActions(row, c0, c0 + n - 1);
    }
  }

  /** With the cursor inside the grid, `_eol_clear` blanks the cursor row
      from the cursor column to the end and changes nothing else. */
  lemma EolClearMeaning(ui: UI)
    requires Wf(ui) && 0 <= ui.row < Size(ui.height) && 0 <= ui.col
    ensures EolCleared(ui).1 == Ok(())
    ensures EolCleared(ui).0 == ui.(grid := EolCleared(ui).0.grid)
    ensures forall i, j :: 0 <= i < Size(ui.height) && 0 <= j < Size(ui.width) ==>
      EolCleared(ui).0.grid[i][j] == if i == ui.row && j >= ui.col then Space else ui.grid[i][j]
  {
    if ui.col < ui.width {
      EolSteps(ui.grid, Size(ui.height), Size(ui.width), ui.row, ui.col, ui.width - ui.col);
    }
  }

  /** Beyond the last row, `_eol_clear` raises IndexError before writing,
      unless the cursor is past the last column, when it does nothing. */
  lemma EolClearOutside(ui: UI)
    requires Wf(ui) && ui.row >= Size(ui.height)
    ensures ui.col < ui.width ==> EolCleared(ui) == (ui, Raise("IndexError"))
    ensures ui.col >= ui.width ==> EolCleared(ui) == (ui, Ok(()))
  {
    var acts := EolActions(ui.row, ui.col, ui.width);
    if ui.col < ui.width {
      assert [acts[0]] <= acts;
      assert Exec(Run(ui.grid, false), [acts[0]]).failed by {
        assert [acts[0]][..0] == [];
      }
      ExecPrefix(Run(ui.grid, false), [acts[0]], acts);
      assert [acts[0]][..0] == [];
    }
  }

  lemma {:induction false} PutSteps(g: Grid, h: nat, w: nat, row: nat, c0: nat, text: seq<seq<string>>)
    requires Shaped(g, h, w) && row < h && c0 + |text| <= w
    requires forall k :: 0 <= k < |text| ==> text[k] != []
    ensures var run := Exec(Run(g, false), PutActions(row, c0, text));
      !run.failed && Shaped(run.grid, h, w) &&
      forall i, j :: 0 <= i < h && 0 <= j < w ==>
        run.grid[i][j] == if i == row && c0 <= j < c0 + |text| then text[j - c0][0] else g[i][j]
  {
    if text != [] {
      var init := text[..|text| - 1];
      PutSteps(g, h, w, row, c0, init);
      assert PutActions(row, c0, text)[..|text| - 1] == PutActions(row, c0, init);
    }
  }

  /** With the cursor inside the grid and room for the text, `_put` writes
      the first string of each parameter list into consecutive cells from
      the cursor, moves the cursor past them, and changes nothing else. */
  lemma PutMeaning(ui: UI, text: seq<seq<string>>)
    requires Wf(ui) && 0 <= ui.row < Size(ui.height) && 0 <= ui.col && ui.col + |text| <= Size(ui.width)
    requires forall k :: 0 <= k < |text| ==> text[k] != []
    ensures Put(ui, text).1 == Ok(())
    ensures Put(ui, text).0 == ui.(grid := Put(ui, text).0.grid, col := ui.col + |text|)
    ensures forall i, j :: 0 <= i < Size(ui.height) && 0 <= j < Size(ui.width) ==>
      Put(ui, text).0.grid[i][j] == if i == ui.row && ui.col <= j < ui.col + |text| then text[j - ui.col][0] else ui.grid[i][j]
  {
    PutSteps(ui.grid, Size(ui.height), Size(ui.width), ui.row, ui.col, text);
  }

  /** Text running past the last column raises IndexError and leaves the
      cursor where it was. */
  lemma PutOverflow(ui: UI, text: seq<seq<string>>)
    requires Wf(ui) && 0 <= ui.row < Size(ui.height) && 0 <= ui.col <= Size(ui.width) < ui.col + |text|
    requires forall k :: 0 <= k < |text| ==> text[k] != []
    ensures Put(ui, text).1 == Raise("IndexError")
    ensures Put(ui, text).0.col == ui.col
  {
    var n := Size(ui.width) - ui.col;
    var acts := PutActions(ui.row, ui.col, text);
    var run0 := Run(ui.grid, false);
    PutSteps(ui.grid, Size(ui.height), Size(ui.width), ui.row, ui.col, text[..n]);
    assert acts[..n] == PutActions(ui.row, ui.col, text[..n]);
    assert acts[..n + 1][..n] == acts[..n];
    assert Exec(run0, acts[..n + 1]).failed;
    ExecPrefix(run0, acts[..n + 1], acts);
  }

  /** Row `row` of g2 is row `src` of g1 on columns left..right-1, and
      every other cell is as in g1. */
  predicate RowCopied(g1: Grid, g2: Grid, h: nat, w: nat, row: int, src: int, left: int, right: int)
    requires Shaped(g1, h, w) && 0 <= src < h
  {
    Shaped(g2, h, w) &&
    forall i, j {:trigger g2[i][j]} :: 0 <= i < h && 0 <= j < w ==>
      g2[i][j] == if i == row && left <= j < right then g1[src][j] else g1[i][j]
  }

  lemma ExecSnoc(run: Run, a: seq<Action>, x: Action)
    ensures Exec(run, a + [x]) == Step(Exec(run, a), x)
  {
    assert (a + [x])[..|a|] == a;
  }

  lemma CopyRowLast(row: int, rows: int, left: int, c: int)
    requires left <= c
    ensures CopyRow(row, rows, left, c + 1) == CopyRow(row, rows, left, c) + [Assign(row, c, CellAt(row + rows, c))]
  {
  }

  lemma {:induction false} CopySteps(g: Grid, h: nat, w: nat, row: nat, rows: int, left: nat, right: nat)
    requires Shaped(g, h, w) && row < h && 0 <= row + rows < h && left <= right <= w
    ensures var run := Exec(Run(g, false), CopyRow(row, rows, left, right));
      !run.failed && RowCopied(g, run.grid, h, w, row, row + rows, left, right)
    decreases right - left
  {
    if left < right {
      var c := right - 1;
      CopySteps(g, h, w, row, rows, left, c);
      var a := CopyRow(row, rows, left, c);
      CopyRowLast(row, rows, left, c);
      ExecSnoc(Run(g, false), a, Assign(row, c, CellAt(row + rows, c)));
      var g1 := Exec(Run(g, false), a).grid;
      assert RowCopied(g, g1, h, w, row, row + rows, left, c);
      assert g1[row + rows][c] == g[row + rows][c];
      assert Read(g1, row + rows, c) == Some(g[row + rows][c]);
      var g2 := g1[row := g1[row][c := g[row + rows][c]]];
      assert Write(g1, row, c, g[row + rows][c]) == Some(g2);
      forall i, j | 0 <= i < h && 0 <= j < w
        ensures g2[i][j] == if i == row && left <= j < right then g[row + rows][j] else g[i][j]
      {
        if i == row && j == c {
        } else {
          assert g2[i][j] == g1[i][j];
          assert g1[i][j] == if i == row && left <= j < c then g[row + rows][j] else g[i][j];
        }
      }
    } else {
      assert CopyRow(row, rows, left, right) == [];
    }
  }

  /** Whether `_scroll(rows)` replaces cell (i, j): inside the region's
      columns, on a row whose source row `i + rows` is inside the region. */
  predicate Moved(R: Region, rows: int, i: int, j: int)
  {
    R.left <= j < R.right &&
    (if rows > 0 then R.top <= i < R.bot - rows else R.top - rows <= i < R.bot)
  }

  /** Whether row i is among the first k rows `_scroll(rows)` visits. */
  predicate Visited(R: Region, rows: int, k: int, i: int)
  {
    if rows > 0 then i < R.top + k else i >= R.bot - k
  }

  /** The grid after the first k visited rows have been copied. */
  predicate ScrolledSoFar(g: Grid, g1: Grid, h: nat, w: nat, R: Region, rows: int, k: int)
    requires Shaped(g, h, w) && 0 <= R.top && R.bot <= h
  {
    Shaped(g1, h, w) &&
    forall i, j :: 0 <= i < h && 0 <= j < w ==>
      g1[i][j] == if Moved(R, rows, i, j) && Visited(R, rows, k, i) then g[i + rows][j] else g[i][j]
  }

  /** Copying the k-th visited row reads a row not yet visited. */
  lemma ScrollRowStep(g: Grid, g1: Grid, g2: Grid, h: nat, w: nat, R: Region, rows: int, k: nat, row: int)
    requires Shaped(g, h, w) && 0 <= R.top && R.bot <= h && 0 <= R.left <= R.right <= w
    requires 0 < k <= |ScrolledRows(R.top, R.bot, rows)|
    requires ScrolledSoFar(g, g1, h, w, R, rows, k - 1)
    requires row == ScrolledRows(R.top, R.bot, rows)[k - 1]
    requires 0 <= row + rows < h && RowCopied(g1, g2, h, w, row, row + rows, R.left, R.right)
    ensures ScrolledSoFar(g, g2, h, w, R, rows, k)
  {
    assert row == if rows > 0 then R.top + k - 1 else R.bot - k;
    forall i, j | 0 <= i < h && 0 <= j < w
      ensures g2[i][j] == if Moved(R, rows, i, j) && Visited(R, rows, k, i) then g[i + rows][j] else g[i][j]
    {
      if i == row && R.left <= j < R.right {
        assert Moved(R, rows, i, j) && Visited(R, rows, k, i);
        assert !Visited(R, rows, k - 1, row + rows);
        assert g2[i][j] == g1[row + rows][j] == g[row + rows][j];
      } else {
        assert g2[i][j] == g1[i][j];
        assert i != row ==> (Visited(R, rows, k, i) <==> Visited(R, rows, k - 1, i));
      }
    }
  }

  lemma {:induction false} ScrollSteps(g: Grid, h: nat, w: nat, R: Region, rows: int, k: nat)
    requires Shaped(g, h, w) && 0 <= R.top && R.bot <= h && 0 <= R.left <= R.right <= w
    requires k <= |ScrolledRows(R.top, R.bot, rows)|
    ensures var run := Exec(Run(g, false), ScrollActions(ScrolledRows(R.top, R.bot, rows)[..k], rows, R.left, R.right));
      !run.failed && ScrolledSoFar(g, run.grid, h, w, R, rows, k)
  {
    var rl := ScrolledRows(R.top, R.bot, rows);
    if k == 0 {
      assert rl[..0] == [];
    } else {
      ScrollSteps(g, h, w, R, rows, k - 1);
      var before := ScrollActions(rl[..k - 1], rows, R.left, R.right);
      var prev := Exec(Run(g, false), before);
      var row := rl[k - 1];
      assert rl[..k][..k - 1] == rl[..k - 1];
      ExecConcat(Run(g, false), before, CopyRow(row, rows, R.left, R.right));
      assert 0 <= row < h && 0 <= row + rows < h;
      assert prev == Run(prev.grid, false);
      CopySteps(prev.grid, h, w, row, rows, R.left, R.right);
      var g2 := Exec(prev, CopyRow(row, rows, R.left, R.right)).grid;
      assert RowCopied(prev.grid, g2, h, w, row, row + rows, R.left, R.right);
      assert ScrolledSoFar(g, prev.grid, h, w, R, rows, k - 1);
      assert Shaped(g, h, w) && 0 <= R.top && R.bot <= h && 0 <= R.left <= R.right <= w;
      ScrollRowStep(g, prev.grid, g2, h, w, R, rows, k, row);
    }
  }

  /** Inside a scroll region that lies within the grid, `_scroll(rows)`
      moves the region's contents up by `rows` rows (down for a negative
      count): each cell whose source row is in the region takes that
      row's old value, and every other cell keeps its own. */
  lemma ScrollMeaning(ui: UI, rows: int)
    requires Wf(ui)
    requires 0 <= ui.region.top && ui.region.bot <= Size(ui.height)
    requires 0 <= ui.region.left <= ui.region.right <= Size(ui.width)
    ensures Scrolled(ui, rows).1 == Ok(())
    ensures Scrolled(ui, rows).0 == ui.(grid := Scrolled(ui, rows).0.grid)
    ensures forall i, j :: 0 <= i < Size(ui.height) && 0 <= j < Size(ui.width) ==>
      Scrolled(ui, rows).0.grid[i][j] == if Moved(ui.region, rows, i, j) then ui.grid[i + rows][j] else ui.grid[i][j]
  {
    var R := ui.region;
    var rl := ScrolledRows(R.top, R.bot, rows);
    ScrollSteps(ui.grid, Size(ui.height), Size(ui.width), R, rows, |rl|);
    assert rl[..|rl|] == rl;
  }

  /** Once an event raises, the rest of the notification is not handled. */
  lemma {:induction false} RedrawnStops(ui: UI, a: seq<Event>, b: seq<Event>)
    requires Wf(ui) && a <= b && Redrawn(ui, a).1.Raise?
    ensures Redrawn(ui, b) == Redrawn(ui, a)
    decreases |b|
  {
    if |b| > |a| {
      assert b[..|b| - 1][..|a|] == a;
      RedrawnStops(ui, a, b[..|b| - 1]);
    } else {
      assert b == a;
    }
  }

  /** Events named in `IGNORE_REDRAW` that carry parameters change
      nothing. */
  lemma {:induction false} IgnoredChangeNothing(ui: UI, events: seq<Event>)
    requires Wf(ui)
    requires forall k :: 0 <= k < |events| ==> events[k].cmd in IgnoreRedraw && events[k].cells != []
    ensures Redrawn(ui, events) == (ui, Ok(()))
  {
    if events != [] {
      IgnoredChangeNothing(ui, events[..|events| - 1]);
    }
  }

  /** An element without parameters, ignored or not, raises IndexError
      and leaves the UI as it was; the elements after it are not handled. */
  lemma MissingParametersRaise(ui: UI, before: seq<Event>, e: Event, after: seq<Event>)
    requires Wf(ui) && e.cells == [] && Redrawn(ui, before).1.Ok?
    ensures Redrawn(ui, before + [e] + after) == (Redrawn(ui, before).0, Raise("IndexError"))
  {
    var pre := before + [e];
    assert pre[..|pre| - 1] == before;
    assert pre <= before + [e] + after;
    RedrawnStops(ui, pre, before + [e] + after);
  }

  /** After a notification ending in `flush` is handled, `screen` is the
      rendering of the grid. */
  lemma FlushShowsGrid(ui: UI, events: seq<Event>)
    requires Wf(ui) && events != [] && events[|events| - 1].cmd == "flush"
    requires Redrawn(ui, events).1.Ok?
    ensures Redrawn(ui, events).0.screen == Render(Redrawn(ui, events).0.grid, Redrawn(ui, events).0.width)
  {
  }

  /** The screen a new UI starts with. */
  function Initial(): UI
  {
    UI(80, 25, 0, 0, Region(0, 0, 0, 0), BlankGrid(25, 80), Render(BlankGrid(25, 80), 80))
  }

  // ---------------------------------------------------------------------
  // The UI, updated in place

  class SpyUI {
    var width: int
    var height: int
    var row: int
    var col: int
    var region: Region
    var grid: Grid
    var screen: string

    function Value(): UI
      reads this
    {
      UI(width, height, row, col, region, grid, screen)
    }

    predicate Valid()
      reads this
    {
      Wf(Value())
    }

    /** `SpyUI.__init__`, without attaching to Neovim. */
    constructor()
      ensures Valid() && Value() == Initial()
    {
      var g: Grid := [];
      for r := 0 to 25
        invariant g == BlankGrid(r, 80)
      {
        g := g + [BlankRow(80)];
      }
      width, height := 80, 25;
      row, col := 0, 0;
      region := Region(0, 0, 0, 0);
      grid := g;
      screen := Render(g, 80);
    }

    /** `_resize(width, height)`. */
    method Resize(w: int, h: int)
      requires Valid()
      modifies this
      ensures Valid() && Value() == Resized(old(Value()), w, h)
    {
      var newGrid: Grid := [];
      for r := 0 to Size(h)
        invariant newGrid == BlankGrid(r, Size(w))
      {
        newGrid := newGrid + [BlankRow(Size(w))];
      }
      var rows := if Size(height) < Size(h) then Size(height) else Size(h);
      var cols := if Size(width) < Size(w) then Size(width) else Size(w);
      for r := 0 to rows
        invariant Shaped(newGrid, Size(h), Size(w))
        invariant forall i, j :: 0 <= i < Size(h) && 0 <= j < Size(w) ==>
          newGrid[i][j] == if i < r && j < cols then grid[i][j] else Space
      {
        for c := 0 to cols
          invariant Shaped(newGrid, Size(h), Size(w))
          invariant forall i, j :: 0 <= i < Size(h) && 0 <= j < Size(w) ==>
            newGrid[i][j] == if (i < r || (i == r && j < c)) && j < cols then grid[i][j] else Space
        {
          newGrid := newGrid[r := newGrid[r][c := grid[r][c]]];
        }
      }
      ghost var spec := Resized(Value(), w, h).grid;
      forall i | 0 <= i < Size(h) ensures newGrid[i] == spec[i] {
        assert |newGrid[i]| == |spec[i]|;
      }
      grid := newGrid;
      width, height := w, h;
    }

    /** `_clear()`. */
    method Clear()
      requires Valid()
      modifies this
      ensures Valid() && Value() == Cleared(old(Value()))
    {
      for r := 0 to Size(height)
        invariant Shaped(old(grid), Size(height), Size(width))
        invariant Shaped(grid, Size(height), Size(width))
        invariant forall i, j :: 0 <= i < Size(height) && 0 <= j < Size(width) ==>
          grid[i][j] == if i < r then Space else old(grid)[i][j]
        invariant Value() == old(Value()).(grid := grid)
      {
        for c := 0 to Size(width)
          invariant Shaped(old(grid), Size(height), Size(width))
          invariant Shaped(grid, Size(height), Size(width))
          invariant forall i, j :: 0 <= i < Size(height) && 0 <= j < Size(width) ==>
            grid[i][j] == if i < r || (i == r && j < c) then Space else old(grid)[i][j]
          invariant Value() == old(Value()).(grid := grid)
        {
          grid := grid[r := grid[r][c := Space]];
        }
      }
      ghost var spec := BlankGrid(Size(height), Size(width));
      forall i | 0 <= i < Size(height) ensures grid[i] == spec[i] {
        assert |grid[i]| == |spec[i]|;
      }
    }

    /** One cell assignment of a loop: reports whether it raised. */
    method Perform(a: Action) returns (ok: bool)
      modifies this
      ensures Run(grid, !ok) == Step(Run(old(grid), false), a)
      ensures Value() == old(Value()).(grid := grid)
    {
      var v: Option<string>;
      match a.src {
        case Given(x) => v := x;
        case CellAt(r, c) => v := Read(grid, r, c);
      }
      if v.None? {
        return false;
      }
      var next := Write(grid, a.r, a.c, v.value);
      if next.None? {
        return false;
      }
      grid := next.value;
      ok := true;
    }

    /** `_eol_clear()`. */
    method EolClear() returns (res: Result<()>)
      requires Valid()
      modifies this
      ensures Valid() && (Value(), res) == EolCleared(old(Value()))
    {
      ghost var run0 := Run(grid, false);
      ghost var acts := EolActions(row, col, width);
      var c := col;
      while c < width
        invariant col <= c && (c <= width || c == col)
        invariant Run(grid, false) == Exec(run0, EolActions(row, col, c))
        invariant Value() == old(Value()).(grid := grid)
        decreases width - c
      {
        var ok := Perform(Assign(row, c, Given(Some(Space))));
        assert EolActions(row, col, c + 1) == EolActions(row, col, c) + [Assign(row, c, Given(Some(Space)))];
        if !ok {
          assert EolActions(row, col, c + 1) <= acts;
          ExecPrefix(run0, EolActions(row, col, c + 1), acts);
          ExecShape(run0, acts, Size(height), Size(width));
          return Raise("IndexError");
        }
        c := c + 1;
      }
      assert EolActions(row, col, c) == acts;
      ExecShape(run0, acts, Size(height), Size(width));
      res := Ok(());
    }

    /** `_cursor_goto(row, col)`. */
    method CursorGoto(r: int, c: int)
      modifies this
      ensures Value() == old(Value()).(row := r, col := c)
    {
      row, col := r, c;
    }

    /** `_put(text)`. */
    method PutText(text: seq<seq<string>>) returns (res: Result<()>)
      requires Valid()
      modifies this
      ensures Valid() && (Value(), res) == Put(old(Value()), text)
    {
      if PyIndex(row, |grid|).None? {
        return Raise("IndexError");
      }
      ghost var run0 := Run(grid, false);
      ghost var acts := PutActions(row, col, text);
      for k := 0 to |text|
        invariant Run(grid, false) == Exec(run0, acts[..k])
        invariant Value() == old(Value()).(grid := grid)
      {
        var a := Assign(row, col + k, Given(if text[k] == [] then None else Some(text[k][0])));
        assert acts[..k + 1][..k] == acts[..k] && acts[k] == a;
        ghost var before := Run(grid, false);
        var ok := Perform(a);
        assert Exec(run0, acts[..k + 1]) == Step(before, a);
        if !ok {
          ExecPrefix(run0, acts[..k + 1], acts);
          ExecShape(run0, acts, Size(height), Size(width));
          return Raise("IndexError");
        }
      }
      assert acts[..|text|] == acts;
      ExecShape(run0, acts, Size(height), Size(width));
      col := col + |text|;
      res := Ok(());
    }

    /** `_set_scroll_region(top, bot, left, right)`. */
    method SetScrollRegion(top: int, bot: int, left: int, right: int)
      modifies this
      ensures Value() == old(Value()).(region := Region(top, bot, left, right))
    {
      region := Region(top, bot, left, right);
    }

    /** One row of `_scroll`: `for col in range(left, right)`. */
    method CopyRowNow(r: int, rows: int, left: int, right: int) returns (ok: bool)
      modifies this
      ensures Run(grid, !ok) == Exec(Run(old(grid), false), CopyRow(r, rows, left, right))
      ensures Value() == old(Value()).(grid := grid)
    {
      ghost var run0 := Run(grid, false);
      var c := left;
      while c < right
        invariant left <= c && (c <= right || c == left)
        invariant Run(grid, false) == Exec(run0, CopyRow(r, rows, left, c))
        invariant Value() == old(Value()).(grid := grid)
        decreases right - c
      {
        ok := Perform(Assign(r, c, CellAt(r + rows, c)));
        CopyRowLast(r, rows, left, c);
        ExecSnoc(run0, CopyRow(r, rows, left, c), Assign(r, c, CellAt(r + rows, c)));
        if !ok {
          assert CopyRow(r, rows, left, c + 1) <= CopyRow(r, rows, left, right);
          ExecPrefix(run0, CopyRow(r, rows, left, c + 1), CopyRow(r, rows, left, right));
          return;
        }
        c := c + 1;
      }
      assert CopyRow(r, rows, left, c) == CopyRow(r, rows, left, right);
      ok := true;
    }

    /** `_scroll(rows)`. */
    method Scroll(rows: int) returns (res: Result<()>)
      requires Valid()
      modifies this
      ensures Valid() && (Value(), res) == Scrolled(old(Value()), rows)
    {
      ghost var run0 := Run(grid, false);
      var rl := ScrolledRows(region.top, region.bot, rows);
      ghost var acts := ScrollActions(rl, rows, region.left, region.right);
      for k := 0 to |rl|
        invariant Run(grid, false) == Exec(run0, ScrollActions(rl[..k], rows, region.left, region.right))
        invariant Value() == old(Value()).(grid := grid)
      {
        ghost var before := ScrollActions(rl[..k], rows, region.left, region.right);
        assert rl[..k + 1][..k] == rl[..k];
        var ok := CopyRowNow(rl[k], rows, region.left, region.right);
        ExecConcat(run0, before, CopyRow(rl[k], rows, region.left, region.right));
        if !ok {
          ScrollStopsAfter(run0, rl, k, rows, region.left, region.right);
          ExecShape(run0, acts, Size(height), Size(width));
          return Raise("IndexError");
        }
      }
      assert rl[..|rl|] == rl;
      ExecShape(run0, acts, Size(height), Size(width));
      res := Ok(());
    }

    /** `flush`: the screen is rendered from the grid. */
    method Flush()
      modifies this
      ensures Value() == old(Value()).(screen := Render(grid, width))
    {
      screen := Render(grid, width);
    }

    /** One event of `_redraw`. */
    method Handle(e: Event) returns (res: Result<()>)
      requires Valid()
      modifies this
      ensures Valid() && (Value(), res) == Apply(old(Value()), e)
    {
      if e.cells == [] {
        return Raise("IndexError");
      }
      res := Ok(());
      if e.cmd in IgnoreRedraw {
        return;
      }
      if e.cmd == "resize" {
        if |e.par| != 2 {
          return Raise("TypeError");
        }
        Resize(e.par[0], e.par[1]);
      } else if e.cmd == "clear" {
        Clear();
      } else if e.cmd == "eol_clear" {
        res := EolClear();
      } else if e.cmd == "cursor_goto" {
        if |e.par| != 2 {
          return Raise("TypeError");
        }
        CursorGoto(e.par[0], e.par[1]);
      } else if e.cmd == "put" {
        res := PutText(e.cells);
      } else if e.cmd == "set_scroll_region" {
        if |e.par| != 4 {
          return Raise("TypeError");
        }
        SetScrollRegion(e.par[0], e.par[1], e.par[2], e.par[3]);
      } else if e.cmd == "scroll" {
        if |e.par| != 1 {
          return Raise("TypeError");
        }
        res := Scroll(e.par[0]);
      } else if e.cmd == "flush" {
        Flush();
      }
    }

    /** `_redraw(args)`. */
    method Redraw(events: seq<Event>) returns (res: Result<()>)
      requires Valid()
      modifies this
      ensures Valid() && (Value(), res) == Redrawn(old(Value()), events)
    {
      for i := 0 to |events|
        invariant Valid() && (Value(), Ok(())) == Redrawn(old(Value()), events[..i])
      {
        assert events[..i + 1][..i] == events[..i];
        res := Handle(events[i]);
        if res.Raise? {
          RedrawnStops(old(Value()), events[..i + 1], events);
          return;
        }
      }
      assert events[..|events|] == events;
      res := Ok(());
    }
  }
}
