/** The terminal screen state of src/terminal.rs: two grids of cells, a
    cursor, the dimensions and the tab registry, and the effect of the
    parser callbacks (`print`, `execute` and the empty dispatch callbacks)
    on them. The escape-sequence parser itself is not part of this model:
    its output is a sequence of `Event`s. */
module Terminal {
  import opened Types

  datatype Color = Color(r: u8, g: u8, b: u8, a: u8)

  datatype Attributes = Attributes(
    bold: bool, italic: bool, underline: bool, strikethrough: bool, blink: bool)

  datatype Cell = Cell(c: char, fg: Color, bg: Color, attrs: Attributes)

  datatype Tab = Tab(title: string, hasActivity: bool, processId: u32)

  /** The values `#[derive(Default)]` gives: all-zero colour, no attribute,
      and the NUL glyph. */
  const DefaultColor := Color(0, 0, 0, 0)
  const DefaultAttributes := Attributes(false, false, false, false, false)
  const DefaultCell := Cell('\0', DefaultColor, DefaultColor, DefaultAttributes)

  /** The control bytes `execute` reacts to. */
  const LF: u8 := 0x0A
  const CR: u8 := 0x0D
  const HT: u8 := 0x09

  /** A buffer: a sequence of rows of cells. */
  type Grid = seq<seq<Cell>>

  /** `g` has exactly `rows` rows, each of exactly `cols` cells. */
  predicate Shaped(g: Grid, rows: nat, cols: nat) {
    |g| == rows && forall i :: 0 <= i < |g| ==> |g[i]| == cols
  }

  /** `vec![x; n]`. */
  function Filled<T>(n: nat, x: T): (r: seq<T>)
    ensures |r| == n && forall i :: 0 <= i < n ==> r[i] == x
  {
    seq(n, _ => x)
  }

  /** `Vec::resize(n, fill)`: keeps the first `n` elements and pads with
      copies of `fill` up to length `n`. */
  function ResizeVec<T>(v: seq<T>, n: nat, fill: T): (r: seq<T>)
    ensures |r| == n
    ensures forall i :: 0 <= i < n ==> r[i] == if i < |v| then v[i] else fill
  {
    if n <= |v| then v[..n] else v + Filled(n - |v|, fill)
  }

  /** The fields of `TerminalState`, as one value. */
  datatype TerminalState = TerminalState(
    cursorX: nat,
    cursorY: nat,
    rows: nat,
    cols: nat,
    buffer: Grid,
    altBuffer: Grid,
    usingAltBuffer: bool,
    tabs: seq<Tab>,
    activeTab: nat)
  {
    /** The buffer `print` writes to. */
    function Active(): Grid {
      if usingAltBuffer then altBuffer else buffer
    }

    /** The buffer `print` leaves alone. */
    function Inactive(): Grid {
      if usingAltBuffer then buffer else altBuffer
    }

    /** The guard of `print`: the cursor lies in [0, rows) x [0, cols). */
    predicate CursorInBounds() {
      cursorY < rows && cursorX < cols
    }

    /** What `print` needs of the active buffer not to index out of range:
        when the guard holds, the cell under the cursor exists. */
    predicate PrintSafe() {
      CursorInBounds() ==> cursorY < |Active()| && cursorX < |Active()[cursorY]|
    }

    /** The grid-shape invariant for the active buffer. */
    predicate ActiveShaped()
      ensures ActiveShaped() ==> PrintSafe()
    {
      Shaped(Active(), rows, cols)
    }

    /** The tab registry's invariant: the active index names a tab, and
        the active tab never carries an activity flag. */
    predicate TabsValid() {
      activeTab < |tabs| && !tabs[activeTab].hasActivity
    }

    /** This state with `g` as its active buffer. */
    function WithActive(g: Grid): (r: TerminalState)
      ensures r.Active() == g && r.Inactive() == Inactive()
      ensures r.usingAltBuffer == usingAltBuffer
    {
      if usingAltBuffer then this.(altBuffer := g) else this.(buffer := g)
    }
  }

  /** `Perform::print`: inside the bounds, only the glyph of the cell under
      the cursor in the active buffer changes, and the cursor moves one
      column right, wrapping to column 0 of the next row at the right edge
      (the next row may be `rows`: there is no scrolling). Outside the
      bounds nothing changes. */
  function Printed(s: TerminalState, ch: char): (r: TerminalState)
    requires s.PrintSafe()
    ensures !s.CursorInBounds() ==> r == s
    ensures s.CursorInBounds() ==>
      r == s.WithActive(r.Active()).(cursorX := r.cursorX, cursorY := r.cursorY)
    ensures s.CursorInBounds() ==>
      && |r.Active()| == |s.Active()|
      && (forall i :: 0 <= i < |s.Active()| ==> |r.Active()[i]| == |s.Active()[i]|)
      && (forall i, j :: 0 <= i < |s.Active()| && 0 <= j < |s.Active()[i]| ==>
            r.Active()[i][j] ==
              if i == s.cursorY && j == s.cursorX then s.Active()[i][j].(c := ch)
              else s.Active()[i][j])
    ensures s.CursorInBounds() && s.cursorX + 1 < s.cols ==>
      r.cursorX == s.cursorX + 1 && r.cursorY == s.cursorY
    ensures s.CursorInBounds() && s.cursorX + 1 == s.cols ==>
      r.cursorX == 0 && r.cursorY == s.cursorY + 1
    ensures s.CursorInBounds() ==> r.cursorX < r.cols
    ensures s.ActiveShaped() ==> r.ActiveShaped()
  {
    if !s.CursorInBounds() then s
    else
      var g := s.Active();
      var row := g[s.cursorY];
      var t := s.WithActive(g[s.cursorY := row[s.cursorX := row[s.cursorX].(c := ch)]]);
      var x := s.cursorX + 1;
      if x >= s.cols then t.(cursorX := 0, cursorY := s.cursorY + 1)
      else t.(cursorX := x)
  }

  /** `(x + 8) & !7`: the tab stop after column `x`. Clearing the low three
      bits rounds down to a multiple of 8 (see `MaskRoundsDown`). */
  function TabStop(x: nat): (r: nat)
    ensures r % 8 == 0 && x < r <= x + 8
  {
    (x + 8) - (x + 8) % 8
  }

  /** On a 64-bit word, `& !7` is rounding down to a multiple of 8. */
  lemma MaskRoundsDown(y: bv64)
    ensures y & !7 == y - y % 8
  {
  }

  /** The tab stop is the least multiple of 8 beyond `x`. */
  lemma TabStopIsLeast(x: nat, m: nat)
    requires m % 8 == 0 && x < m
    ensures TabStop(x) <= m
  {
  }

  /** `Perform::execute`: only the cursor can move. A line feed goes to
      column 0 of the next row, a carriage return to column 0 of the same
      row, a tab to the next multiple of 8 (unclamped); every other byte
      leaves the state alone. */
  function Executed(s: TerminalState, b: u8): (r: TerminalState)
    ensures r == s.(cursorX := r.cursorX, cursorY := r.cursorY)
    ensures b == LF ==> r.cursorX == 0 && r.cursorY == s.cursorY + 1
    ensures b == CR ==> r.cursorX == 0 && r.cursorY == s.cursorY
    ensures b == HT ==>
      && r.cursorY == s.cursorY
      && r.cursorX % 8 == 0
      && s.cursorX < r.cursorX <= s.cursorX + 8
    ensures b != LF && b != CR && b != HT ==> r == s
  {
    if b == LF then s.(cursorX := 0, cursorY := s.cursorY + 1)
    else if b == CR then s.(cursorX := 0)
    else if b == HT then s.(cursorX := TabStop(s.cursorX))
    else s
  }

  /** The callbacks the parser makes, with their arguments. */
  datatype Event =
    | Print(ch: char)
    | Execute(byte: u8)
    | Hook(params: seq<seq<u16>>, intermediates: seq<u8>, ignore: bool, action: char)
    | Put(byte: u8)
    | Unhook
    | OscDispatch(oscParams: seq<seq<u8>>, bellTerminated: bool)
    | CsiDispatch(params: seq<seq<u16>>, intermediates: seq<u8>, ignore: bool, action: char)
    | EscDispatch(intermediates: seq<u8>, ignore: bool, byte: u8)

  /** One callback applied to the state. The six dispatch callbacks are
      empty, so only `Print` and `Execute` have an effect; no callback
      touches the dimensions, the inactive buffer or the tabs. */
  function Performed(s: TerminalState, e: Event): (r: TerminalState)
    requires e.Print? ==> s.PrintSafe()
    ensures !e.Print? && !e.Execute? ==> r == s
    ensures r.rows == s.rows && r.cols == s.cols && r.usingAltBuffer == s.usingAltBuffer
    ensures r.Inactive() == s.Inactive() && r.tabs == s.tabs && r.activeTab == s.activeTab
    ensures s.ActiveShaped() ==> r.ActiveShaped()
  {
    match e
    case Print(ch) => Printed(s, ch)
    case Execute(b) => Executed(s, b)
    case _ => s
  }

  /** The callbacks of a whole input, in arrival order. The active buffer
      keeps its shape, and the dimensions, the other buffer and the tabs
      are never touched. */
  function Run(s: TerminalState, es: seq<Event>): (r: TerminalState)
    requires s.ActiveShaped()
    ensures r.ActiveShaped()
    ensures r.rows == s.rows && r.cols == s.cols && r.usingAltBuffer == s.usingAltBuffer
    ensures r.Inactive() == s.Inactive() && r.tabs == s.tabs && r.activeTab == s.activeTab
    decreases |es|
  {
    if es == [] then s else Run(Performed(s, es[0]), es[1..])
  }

  /** Running two inputs one after the other is running their concatenation. */
  lemma {:induction false} RunConcat(s: TerminalState, a: seq<Event>, b: seq<Event>)
    requires s.ActiveShaped()
    ensures Run(s, a + b) == Run(Run(s, a), b)
    decreases |a|
  {
    if a == [] {
      assert a + b == b;
    } else {
      assert (a + b)[0] == a[0];
      assert (a + b)[1..] == a[1..] + b;
      RunConcat(Performed(s, a[0]), a[1..], b);
    }
  }

  /** The `Print` events of a string, one per character. */
  function Prints(cs: string): (es: seq<Event>)
    ensures |es| == |cs|
    ensures forall i :: 0 <= i < |cs| ==> es[i] == Print(cs[i])
  {
    seq(|cs|, i requires 0 <= i < |cs| => Print(cs[i]))
  }

  /** `row` with the glyphs of the cells from column `x` on replaced, one
      after the other, by the characters of `cs`: each of those cells keeps
      its colours and attributes, and every other cell is untouched. */
  function WrittenFrom(row: seq<Cell>, x: nat, cs: string): (r: seq<Cell>)
    requires x + |cs| <= |row|
    ensures |r| == |row|
    ensures forall j :: 0 <= j < |row| ==>
      r[j] == if x <= j < x + |cs| then row[j].(c := cs[j - x]) else row[j]
    decreases |cs|
  {
    if cs == [] then row
    else
      WrittenFrom(row[x := Cell(cs[0], row[x].fg, row[x].bg, row[x].attrs)], x + 1, cs[1..])
  }

  /** One step of `WrittenFrom`: write the first character, then the rest
      from the next column. */
  lemma WrittenFromStep(row: seq<Cell>, x: nat, cs: string)
    requires 0 < |cs| && x + |cs| <= |row|
    ensures WrittenFrom(row, x, cs) ==
      WrittenFrom(row[x := Cell(cs[0], row[x].fg, row[x].bg, row[x].attrs)], x + 1, cs[1..])
  {
  }

  /** The first of a run of prints inside the bounds: the rest of the run
      starts from a state whose cursor has moved one cell along the row, or
      to the start of the next row at the right edge. */
  lemma FirstPrint(s: TerminalState, cs: string) returns (t: TerminalState)
    requires s.ActiveShaped() && s.CursorInBounds() && 0 < |cs|
    ensures t.ActiveShaped() && t.rows == s.rows && t.cols == s.cols
    ensures Run(s, Prints(cs)) == Run(t, Prints(cs[1..]))
    ensures s.cursorX + 1 < s.cols ==> t.cursorX == s.cursorX + 1 && t.cursorY == s.cursorY
    ensures s.cursorX + 1 == s.cols ==> t.cursorX == 0 && t.cursorY == s.cursorY + 1
  {
    var es := Prints(cs);
    t := Printed(s, cs[0]);
    assert es[0] == Print(cs[0]);
    assert es[1..] == Prints(cs[1..]);
  }

  /** Where the cursor ends after a run of prints that fits in its row:
      just after the run, or at column 0 of the next row when the run reaches
      the right edge. */
  lemma {:induction false} RunOfPrintsCursor(s: TerminalState, cs: string)
    requires s.ActiveShaped() && s.CursorInBounds()
    requires s.cursorX + |cs| <= s.cols
    ensures var r := Run(s, Prints(cs));
      && (s.cursorX + |cs| < s.cols ==> r.cursorX == s.cursorX + |cs| && r.cursorY == s.cursorY)
      && (s.cursorX + |cs| == s.cols ==> r.cursorX == 0 && r.cursorY == s.cursorY + 1)
    decreases |cs|
  {
    if cs == [] {
      assert Prints(cs) == [];
    } else {
      var t := FirstPrint(s, cs);
      if |cs| == 1 {
        assert Prints(cs[1..]) == [];
      } else {
        RunOfPrintsCursor(t, cs[1..]);
      }
    }
  }

  /** `print` applied to each character in turn. */
  function PrintAll(s: TerminalState, cs: string): (r: TerminalState)
    requires s.ActiveShaped()
    decreases |cs|
  {
    if cs == [] then s else PrintAll(Printed(s, cs[0]), cs[1..])
  }

  /** A run of `Print` events is `print` applied to each character. */
  lemma {:induction false} RunIsPrintAll(s: TerminalState, cs: string)
    requires s.ActiveShaped()
    ensures Run(s, Prints(cs)) == PrintAll(s, cs)
    decreases |cs|
  {
    var es := Prints(cs);
    if cs == [] {
      assert es == [];
    } else {
      assert es[0] == Print(cs[0]);
      assert es[1..] == Prints(cs[1..]);
      RunIsPrintAll(Printed(s, cs[0]), cs[1..]);
    }
  }

  /** What a run of prints that fits in the cursor's row does to the active
      buffer: that row is `WrittenFrom` the cursor column, every other row
      is kept. */
  lemma {:induction false} PrintAllGrid(s: TerminalState, cs: string)
    requires s.ActiveShaped() && s.CursorInBounds()
    requires s.cursorX + |cs| <= s.cols
    ensures PrintAll(s, cs).Active() ==
      s.Active()[s.cursorY := WrittenFrom(s.Active()[s.cursorY], s.cursorX, cs)]
    decreases |cs|
  {
    var g: Grid := s.Active();
    if cs == [] {
      assert PrintAll(s, cs) == s;
      assert WrittenFrom(g[s.cursorY], s.cursorX, cs) == g[s.cursorY];
      assert g[s.cursorY := g[s.cursorY]] == g;
    } else {
      var t := Printed(s, cs[0]);
      var cell := g[s.cursorY][s.cursorX];
      var mid := g[s.cursorY][s.cursorX := Cell(cs[0], cell.fg, cell.bg, cell.attrs)];
      var w := WrittenFrom(mid, s.cursorX + 1, cs[1..]);
      WrittenFromStep(g[s.cursorY], s.cursorX, cs);
      assert WrittenFrom(g[s.cursorY], s.cursorX, cs) == w;
      assert t.Active() == g[s.cursorY := mid];
      if |cs| > 1 {
        PrintAllGrid(t, cs[1..]);
      }
    }
  }

  /** Printing a run of characters that fits in the rest of the cursor's row
      writes them left to right into that row's glyphs (`WrittenFrom`) and
      leaves every other row, the other buffer, the dimensions and the tabs
      alone; the cursor ends just after them, or at column 0 of the next row
      when they reach the right edge. */
  lemma RunOfPrints(s: TerminalState, cs: string)
    requires s.ActiveShaped() && s.CursorInBounds()
    requires s.cursorX + |cs| <= s.cols
    ensures var r := Run(s, Prints(cs));
      && (s.cursorX + |cs| < s.cols ==> r.cursorX == s.cursorX + |cs| && r.cursorY == s.cursorY)
      && (s.cursorX + |cs| == s.cols ==> r.cursorX == 0 && r.cursorY == s.cursorY + 1)
      && r.Active() == s.Active()[s.cursorY := WrittenFrom(s.Active()[s.cursorY], s.cursorX, cs)]
      && r.Inactive() == s.Inactive() && r.rows == s.rows && r.cols == s.cols
      && r.tabs == s.tabs && r.activeTab == s.activeTab
  {
    RunOfPrintsCursor(s, cs);
    RunIsPrintAll(s, cs);
    PrintAllGrid(s, cs);
  }

  /** Once the cursor has wrapped past the last row, printing never changes
      anything again: every later `print` fails the bounds guard. */
  lemma {:induction false} PrintsPastLastRowAreNoOps(s: TerminalState, cs: string)
    requires s.ActiveShaped() && s.cursorY >= s.rows
    ensures Run(s, Prints(cs)) == s
    decreases |cs|
  {
    var es := Prints(cs);
    if cs != [] {
      assert es[0] == Print(cs[0]);
      assert es[1..] == Prints(cs[1..]);
      PrintsPastLastRowAreNoOps(s, cs[1..]);
    }
  }

  /** Printing never takes the cursor column out of [0, cols): inside the
      bounds it stays below `cols` by wrapping, outside nothing moves. */
  lemma {:induction false} PrintsKeepColumnInRange(s: TerminalState, cs: string)
    requires s.ActiveShaped() && s.cursorX < s.cols
    ensures Run(s, Prints(cs)).cursorX < s.cols
    decreases |cs|
  {
    var es := Prints(cs);
    if cs != [] {
      assert es[0] == Print(cs[0]);
      assert es[1..] == Prints(cs[1..]);
      PrintsKeepColumnInRange(Printed(s, cs[0]), cs[1..]);
    }
  }

  /** A tab from the last column of a grid whose width is a multiple of 8
      leaves the cursor at column `cols`, outside the grid, and the next
      `print` is then a no-op: `execute` does not clamp. */
  lemma TabFromLastColumnLeavesGrid(s: TerminalState, ch: char)
    requires s.ActiveShaped() && 0 < s.cols && s.cols % 8 == 0 && s.cursorX == s.cols - 1
    ensures Executed(s, HT).cursorX == s.cols
    ensures Printed(Executed(s, HT), ch) == Executed(s, HT)
  {
  }

  /** A carriage return followed by a line feed moves the cursor to column 0
      of the next row and changes nothing else. */
  lemma CarriageReturnLineFeed(s: TerminalState)
    requires s.ActiveShaped()
    ensures Run(s, [Execute(CR), Execute(LF)]) == s.(cursorX := 0, cursorY := s.cursorY + 1)
  {
    var es: seq<Event> := [Execute(CR), Execute(LF)];
    var t := Executed(s, CR);
    assert es[1..] == [Execute(LF)];
    assert Run(t, es[1..]) == Run(Executed(t, LF), []);
  }

  /** From the top-left corner, a word shorter than a row and then a
      carriage return and a line feed: the word starts row 0 and the cursor
      is at the start of row 1. */
  lemma WordThenNewLine(s: TerminalState, word: string) returns (c: TerminalState)
    requires s.ActiveShaped() && s.rows >= 2 && s.cursorX == 0 && s.cursorY == 0
    requires |word| < s.cols
    ensures c == Run(s, Prints(word) + [Execute(CR), Execute(LF)])
    ensures c.ActiveShaped() && c.rows == s.rows && c.cols == s.cols
    ensures c.cursorX == 0 && c.cursorY == 1
    ensures c.Active() == s.Active()[0 := WrittenFrom(s.Active()[0], 0, word)]
  {
    var ctl: seq<Event> := [Execute(CR), Execute(LF)];
    RunConcat(s, Prints(word), ctl);
    RunOfPrints(s, word);
    var h := Run(s, Prints(word));
    CarriageReturnLineFeed(h);
    c := Run(h, ctl);
  }

  /** From the top-left corner, a word shorter than a row, a carriage return
      and a line feed, and then exactly one row's worth of characters: the
      word starts row 0, the characters fill row 1, and the cursor wraps to
      (0, 2). */
  lemma {:induction false} WordThenFullRow(s: TerminalState, word: string, line: string)
    requires s.ActiveShaped() && s.rows >= 2 && s.cursorX == 0 && s.cursorY == 0
    requires |word| < s.cols && |line| == s.cols
    ensures var r := Run(s, Prints(word) + [Execute(CR), Execute(LF)] + Prints(line));
      && r.cursorX == 0 && r.cursorY == 2
      && (forall j :: 0 <= j < |word| ==> r.Active()[0][j].c == word[j])
      && (forall j :: 0 <= j < |line| ==> r.Active()[1][j].c == line[j])
  {
    RunConcat(s, Prints(word) + [Execute(CR), Execute(LF)], Prints(line));
    var c := WordThenNewLine(s, word);
    RunOfPrints(c, line);
    var r := Run(c, Prints(line));
    assert r.Active()[0] == WrittenFrom(s.Active()[0], 0, word);
    assert r.Active()[1] == WrittenFrom(c.Active()[1], 0, line);
  }

  /** The instance of `WordThenFullRow` on an 80-column grid: "Hello", then
      eighty 'A's. */
  lemma HelloThenFullRow(s: TerminalState)
    requires s.ActiveShaped() && s.cols == 80 && s.rows >= 2
    requires s.cursorX == 0 && s.cursorY == 0
    ensures var r := Run(s, Prints("Hello") + [Execute(CR), Execute(LF)] + Prints(Filled(80, 'A')));
      && r.cursorX == 0 && r.cursorY == 2
      && (forall j :: 0 <= j < 5 ==> r.Active()[0][j].c == "Hello"[j])
      && (forall j :: 0 <= j < 80 ==> r.Active()[1][j].c == 'A')
  {
    WordThenFullRow(s, "Hello", Filled(80, 'A'));
  }

  /** `resize`'s effect on one grid: `Vec::resize` on the rows (new rows are
      rows of default cells), then on every row. The result has the new
      shape, keeps the cells of the overlapping rectangle and holds default
      cells everywhere else. */
  function Reshaped(g: Grid, rows: nat, cols: nat): (r: Grid)
    ensures Shaped(r, rows, cols)
    ensures forall i, j :: 0 <= i < rows && 0 <= j < cols ==>
      r[i][j] == if i < |g| && j < |g[i]| then g[i][j] else DefaultCell
  {
    var padded := ResizeVec(g, rows, Filled(cols, DefaultCell));
    seq(rows, i requires 0 <= i < rows => ResizeVec(padded[i], cols, DefaultCell))
  }

  /** `Terminal::resize` as written: new dimensions and a reshaped primary
      buffer. The alternate buffer, the cursor (not clamped) and the tabs are
      unchanged, and zero dimensions are accepted. */
  function Resized(s: TerminalState, rows: nat, cols: nat): (r: TerminalState)
    ensures r == s.(rows := rows, cols := cols, buffer := r.buffer)
    ensures Shaped(r.buffer, rows, cols)
    ensures forall i, j :: 0 <= i < rows && 0 <= j < cols ==>
      r.buffer[i][j] ==
        if i < |s.buffer| && j < |s.buffer[i]| then s.buffer[i][j] else DefaultCell
    ensures !s.usingAltBuffer ==> r.ActiveShaped()
  {
    s.(rows := rows, cols := cols, buffer := Reshaped(s.buffer, rows, cols))
  }

  /** The defect of `resize` as written: with the alternate buffer active, a
      resize that adds rows leaves the alternate buffer short, and with the
      cursor on the new last row `print` passes its bounds guard but the
      cell it would write does not exist (an index out of range). */
  lemma GrowWithAltBufferBreaksPrint(s: TerminalState, rows: nat, cols: nat)
    requires s.usingAltBuffer && s.ActiveShaped()
    requires s.rows < rows && 0 < cols
    ensures var t := Resized(s, rows, cols).(cursorX := 0, cursorY := rows - 1);
      t.CursorInBounds() && !t.PrintSafe()
  {
  }

  /** `resize` as evidently intended: both buffers take the new shape, so
      the active one is shaped whichever it is, and cells of the overlapping
      rectangle survive in both. */
  function ResizedBoth(s: TerminalState, rows: nat, cols: nat): (r: TerminalState)
    ensures r == s.(rows := rows, cols := cols, buffer := r.buffer, altBuffer := r.altBuffer)
    ensures Shaped(r.buffer, rows, cols) && Shaped(r.altBuffer, rows, cols)
    ensures r.ActiveShaped()
    ensures forall i, j :: 0 <= i < rows && 0 <= j < cols ==>
      && r.buffer[i][j] ==
           (if i < |s.buffer| && j < |s.buffer[i]| then s.buffer[i][j] else DefaultCell)
      && r.altBuffer[i][j] ==
           (if i < |s.altBuffer| && j < |s.altBuffer[i]| then s.altBuffer[i][j] else DefaultCell)
  {
    s.(rows := rows, cols := cols,
       buffer := Reshaped(s.buffer, rows, cols),
       altBuffer := Reshaped(s.altBuffer, rows, cols))
  }

  /** Cell (`i`, `j`) lies inside every one of the `sizes`. */
  predicate InAll(i: nat, j: nat, sizes: seq<(nat, nat)>) {
    forall k :: 0 <= k < |sizes| ==> i < sizes[k].0 && j < sizes[k].1
  }

  /** Inside every size is inside the first and inside all the others. */
  lemma InAllCons(sizes: seq<(nat, nat)>)
    requires sizes != []
    ensures forall i: nat, j: nat :: InAll(i, j, sizes) <==>
      i < sizes[0].0 && j < sizes[0].1 && InAll(i, j, sizes[1..])
  {
    forall i: nat, j: nat
      ensures InAll(i, j, sizes) <==> i < sizes[0].0 && j < sizes[0].1 && InAll(i, j, sizes[1..])
    {
      if i < sizes[0].0 && j < sizes[0].1 && InAll(i, j, sizes[1..]) {
        forall k | 0 <= k < |sizes|
          ensures i < sizes[k].0 && j < sizes[k].1
        {
          if k > 0 {
            assert sizes[k] == sizes[1..][k - 1];
          }
        }
      }
      if InAll(i, j, sizes) {
        forall k | 0 <= k < |sizes| - 1
          ensures i < sizes[1..][k].0 && j < sizes[1..][k].1
        {
          assert sizes[1..][k] == sizes[k + 1];
        }
      }
    }
  }

  /** A sequence of `resize` calls as written. Only the dimensions and the
      primary buffer change; the buffer ends in the last shape, and a cell
      keeps its content exactly when it was inside every intermediate shape:
      what a shrink cuts off a later grow does not bring back. */
  function ResizeAll(s: TerminalState, sizes: seq<(nat, nat)>): (r: TerminalState)
    ensures r == s.(rows := r.rows, cols := r.cols, buffer := r.buffer)
    ensures sizes != [] ==>
      && r.rows == sizes[|sizes| - 1].0 && r.cols == sizes[|sizes| - 1].1
      && Shaped(r.buffer, r.rows, r.cols)
      && (forall i, j :: 0 <= i < r.rows && 0 <= j < r.cols ==>
            r.buffer[i][j] ==
              if InAll(i, j, sizes) && i < |s.buffer| && j < |s.buffer[i]| then s.buffer[i][j]
              else DefaultCell)
      && (!s.usingAltBuffer ==> r.ActiveShaped())
    decreases |sizes|
  {
    if sizes == [] then s
    else
      var t := Resized(s, sizes[0].0, sizes[0].1);
      var r := ResizeAll(t, sizes[1..]);
      InAllCons(sizes);
      r
  }

  /** `create_new_tab`: exactly one tab is appended, with the given title and
      no activity; earlier tabs and the active index are kept. */
  function WithNewTab(s: TerminalState, title: string): (r: TerminalState)
    ensures r == s.(tabs := r.tabs)
    ensures |r.tabs| == |s.tabs| + 1 && r.tabs[..|s.tabs|] == s.tabs
    ensures r.tabs[|s.tabs|] == Tab(title, false, 0)
    ensures s.TabsValid() ==> r.TabsValid()
  {
    s.(tabs := s.tabs + [Tab(title, false, 0)])
  }

  /** `mark_tab_activity`: the flag of tab `i` is set when `i` names a tab
      other than the active one; otherwise nothing changes. */
  function WithTabActivity(s: TerminalState, i: nat): (r: TerminalState)
    ensures r == s.(tabs := r.tabs) && |r.tabs| == |s.tabs|
    ensures forall k :: 0 <= k < |s.tabs| ==>
      r.tabs[k] == if k == i && i != s.activeTab then s.tabs[k].(hasActivity := true) else s.tabs[k]
    ensures i >= |s.tabs| || i == s.activeTab ==> r == s
    ensures s.TabsValid() ==> r.TabsValid()
  {
    if i != s.activeTab && i < |s.tabs| then
      s.(tabs := s.tabs[i := s.tabs[i].(hasActivity := true)])
    else s
  }

  /** `switch_tab`: out of range nothing changes; otherwise tab `i` becomes
      active and only its flag is cleared. Afterwards the registry's
      invariant holds, whatever held before. */
  function WithTabSwitched(s: TerminalState, i: nat): (r: TerminalState)
    ensures i >= |s.tabs| ==> r == s
    ensures i < |s.tabs| ==>
      && r == s.(tabs := r.tabs, activeTab := i)
      && |r.tabs| == |s.tabs|
      && (forall k :: 0 <= k < |s.tabs| ==>
            r.tabs[k] == if k == i then s.tabs[k].(hasActivity := false) else s.tabs[k])
      && r.TabsValid()
  {
    if i < |s.tabs| then
      s.(activeTab := i, tabs := s.tabs[i := s.tabs[i].(hasActivity := false)])
    else s
  }

  /** Marking the active tab is a no-op; marking another tab sets its flag;
      switching to that tab clears it again. */
  lemma MarkThenSwitch(s: TerminalState, i: nat)
    requires s.TabsValid() && i < |s.tabs|
    ensures i == s.activeTab ==> WithTabActivity(s, i) == s && !s.tabs[i].hasActivity
    ensures i != s.activeTab ==> WithTabActivity(s, i).tabs[i].hasActivity
    ensures !WithTabSwitched(WithTabActivity(s, i), i).tabs[i].hasActivity
  {
  }

  /** `Terminal`, holding the fields of its `TerminalState` (the parser and
      the configuration it also holds are not part of this model). */
  class Terminal {
    var cursorX: nat
    var cursorY: nat
    var rows: nat
    var cols: nat
    var buffer: Grid
    var altBuffer: Grid
    var usingAltBuffer: bool
    var tabs: seq<Tab>
    var activeTab: nat

    /** The state these fields make up. */
    function State(): TerminalState
      reads this
    {
      TerminalState(cursorX, cursorY, rows, cols, buffer, altBuffer, usingAltBuffer, tabs, activeTab)
    }

    /** `Terminal::new`: 24 rows of 80 default cells in both buffers, the
        cursor at the origin, the primary buffer active, and one tab called
        "Terminal" without activity, which is the active one. */
    constructor ()
      ensures rows == 24 && cols == 80
      ensures Shaped(buffer, 24, 80) && Shaped(altBuffer, 24, 80)
      ensures forall i, j :: 0 <= i < 24 && 0 <= j < 80 ==>
        buffer[i][j] == DefaultCell && altBuffer[i][j] == DefaultCell
      ensures cursorX == 0 && cursorY == 0 && !usingAltBuffer
      ensures tabs == [Tab("Terminal", false, 0)] && activeTab == 0
      ensures State().ActiveShaped() && State().TabsValid()
    {
      cursorX, cursorY := 0, 0;
      rows, cols := 24, 80;
      buffer := Filled(24, Filled(80, DefaultCell));
      altBuffer := Filled(24, Filled(80, DefaultCell));
      usingAltBuffer := false;
      tabs := [Tab("Terminal", false, 0)];
      activeTab := 0;
    }

    /** `Terminal::resize`, row by row as the source's loop does. */
    method Resize(newRows: nat, newCols: nat)
      modifies this
      ensures State() == Resized(old(State()), newRows, newCols)
    {
      rows := newRows;
      cols := newCols;
      buffer := ResizeVec(buffer, newRows, Filled(newCols, DefaultCell));
      ghost var padded := buffer;
      var i := 0;
      while i < |buffer|
        invariant |buffer| == newRows && 0 <= i <= |buffer|
        invariant forall k :: 0 <= k < i ==> buffer[k] == ResizeVec(padded[k], newCols, DefaultCell)
        invariant forall k :: i <= k < |buffer| ==> buffer[k] == padded[k]
        invariant State() == old(State()).(rows := newRows, cols := newCols, buffer := buffer)
      {
        buffer := buffer[i := ResizeVec(buffer[i], newCols, DefaultCell)];
        i := i + 1;
      }
      assert buffer == Reshaped(old(buffer), newRows, newCols);
    }

    method CreateNewTab(title: string)
      modifies this
      ensures State() == WithNewTab(old(State()), title)
    {
      tabs := tabs + [Tab(title, false, 0)];
    }

    method MarkTabActivity(tabIndex: nat)
      modifies this
      ensures State() == WithTabActivity(old(State()), tabIndex)
    {
      if tabIndex != activeTab && tabIndex < |tabs| {
        tabs := tabs[tabIndex := tabs[tabIndex].(hasActivity := true)];
      }
    }

    method SwitchTab(tabIndex: nat)
      modifies this
      ensures State() == WithTabSwitched(old(State()), tabIndex)
    {
      if tabIndex < |tabs| {
        activeTab := tabIndex;
        tabs := tabs[tabIndex := tabs[tabIndex].(hasActivity := false)];
      }
    }

    /** `Perform::print`, writing one glyph of the active buffer in place. */
    method Print(ch: char)
      requires State().PrintSafe()
      modifies this
      ensures State() == Printed(old(State()), ch)
    {
      if cursorY < rows && cursorX < cols {
        if usingAltBuffer {
          altBuffer := altBuffer[cursorY := altBuffer[cursorY][cursorX := altBuffer[cursorY][cursorX].(c := ch)]];
        } else {
          buffer := buffer[cursorY := buffer[cursorY][cursorX := buffer[cursorY][cursorX].(c := ch)]];
        }
        cursorX := cursorX + 1;
        if cursorX >= cols {
          cursorX := 0;
          cursorY := cursorY + 1;
        }
      }
    }

    /** `Perform::execute`. */
    method Execute(b: u8)
      modifies this
      ensures State() == Executed(old(State()), b)
    {
      if b == LF {
        cursorX := 0;
        cursorY := cursorY + 1;
      } else if b == CR {
        cursorX := 0;
      } else if b == HT {
        cursorX := TabStop(cursorX);
      }
    }

    /** The parser invoking one callback; `hook`, `put`, `unhook`,
        `osc_dispatch`, `csi_dispatch` and `esc_dispatch` are empty. */
    method Perform(e: Event)
      requires e.Print? ==> State().PrintSafe()
      modifies this
      ensures State() == Performed(old(State()), e)
    {
      match e {
        case Print(ch) => Print(ch);
        case Execute(b) => Execute(b);
        case _ =>
      }
    }

    /** The callbacks of one input, in order (standing for `process_input`). */
    method ProcessEvents(es: seq<Event>)
      requires State().ActiveShaped()
      modifies this
      ensures State() == Run(old(State()), es)
    {
      var i := 0;
      while i < |es|
        invariant 0 <= i <= |es|
        invariant State().ActiveShaped()
        invariant Run(old(State()), es) == Run(State(), es[i..])
      {
        assert es[i..][0] == es[i] && es[i..][1..] == es[i + 1..];
        Perform(es[i]);
        i := i + 1;
      }
    }
  }
}
