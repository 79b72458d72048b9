/** Wide glyphs and their continuation cells: which characters keep them together. */
module TerminalPairing {
  import opened Options
  import opened Terminal

  predicate WideCell(t: Tables, cell: Cell) {
    cell != "" && t.wide(cell[0])
  }

  /** A continuation follows a wide glyph, and a wide glyph has its continuation. */
  predicate PairedAt(t: Tables, row: Row, x: nat)
    requires x < |row|
  {
    && (row[x] == "" ==> x > 0 && WideCell(t, row[x - 1]))
    && (WideCell(t, row[x]) ==> x + 1 < |row| && row[x + 1] == "")
  }

  ghost predicate PairedRow(t: Tables, row: Row) {
    forall x: nat :: x < |row| ==> PairedAt(t, row, x)
  }

  ghost predicate PairedGrid(t: Tables, g: Grid) {
    forall y :: 0 <= y < |g| ==> PairedRow(t, g[y])
  }

  ghost predicate Paired(t: Tables, f: Face) {
    PairedGrid(t, f.d.cells) && (f.alternate.Some? ==> PairedGrid(t, f.alternate.value.cells))
  }

  // ---------------------------------------------------------------------------
  // Rows

  /** What clearing one cell of a paired row leaves. */
  lemma ClearCellPairs(t: Tables, row: Row, x: nat)
    requires !t.wide(' ') && PairedRow(t, row) && x < |row|
    ensures var r := ClearCell(row, x);
            && PairedRow(t, r) && r[x] == " "
            && forall i :: 0 <= i < |row| && i != x ==>
                 r[i] == if (i == x - 1 && row[x] == "") || (i == x + 1 && row[x + 1] == "") then " " else row[i]
  {
    var r := ClearCell(row, x);
    assert PairedAt(t, row, x);
    assert x > 0 ==> PairedAt(t, row, x - 1);
    assert x + 1 < |row| ==> PairedAt(t, row, x + 1);
    assert x + 2 < |row| ==> PairedAt(t, row, x + 2);
    forall i: nat | i < |row| ensures PairedAt(t, r, i) {
      assert PairedAt(t, row, i);
    }
  }

  /**
   Erasing a span of a paired row blanks the span and the halves cut off at its two
   ends, touches nothing else and keeps the row paired.
   */
  lemma {:induction false} EraseSpanPairs(t: Tables, row: Row, lo: int, hi: int)
    requires !t.wide(' ') && PairedRow(t, row) && 0 <= lo < hi <= |row|
    ensures var r := EraseSpan(row, lo, hi);
            && PairedRow(t, r)
            && forall i :: 0 <= i < |row| ==>
                 r[i] == if lo <= i < hi || (i == lo - 1 && row[lo] == "") || (i == hi && row[hi] == "") then " " else row[i]
    decreases hi - lo
  {
    hide ClearCell;
    ClearCellPairs(t, row, lo);
    if lo + 1 < hi {
      var once := ClearCell(row, lo);
      EraseSpanPairs(t, once, lo + 1, hi);
      assert PairedAt(t, row, lo);
      if row[hi - 1] != "" && hi < |row| {
        assert PairedAt(t, row, hi);
      }
    }
  }

  lemma PlacePairs(t: Tables, row: Row, x: nat, c: char)
    requires !t.wide(' ') && PairedRow(t, row) && x + GlyphWidth(t, c) <= |row|
    ensures PairedRow(t, PlaceInRow(row, x, GlyphWidth(t, c), c, false))
  {
    hide EraseSpan;
    var n := GlyphWidth(t, c);
    var r := PlaceInRow(row, x, n, c, false);
    EraseSpanPairs(t, row, x, x + n);
    var cleared := EraseSpan(row, x, x + n);
    forall i: nat | i < |r| ensures PairedAt(t, r, i) {
      assert PairedAt(t, cleared, i);
      assert x > 0 ==> PairedAt(t, cleared, x - 1);
      assert x + n < |r| ==> PairedAt(t, cleared, x + n);
    }
  }

  /** Inserting blanks only reaches the first shifted cell when it is erased for the glyph. */
  lemma InsertedRow(row: Row, x: nat, n: nat, c: char)
    requires 1 <= n <= 2 && x + n <= |row|
    ensures var r := PlaceInRow(row, x, n, c, true);
            && r[x] == [c] && (n == 2 ==> r[x + 1] == "")
            && (forall i :: 0 <= i < x ==> r[i] == row[i])
            && (forall i :: x + n <= i < |row| ==> r[i] == if i == x + n && row[x] == "" then " " else row[i - n])
  {
    hide EraseSpan;
    var ready := InsertBlanks(row, x, n);
    var once := ClearCell(ready, x);
    assert forall i :: x + n <= i < |row| ==> ready[i] == row[i - n];
    EraseOne(ready, x);
    if n == 2 {
      EraseTwo(ready, x);
      assert once == ready;
    }
  }

  lemma EraseOne(row: Row, x: nat)
    requires x < |row|
    ensures EraseSpan(row, x, x + 1) == ClearCell(row, x)
  {
  }

  lemma EraseTwo(row: Row, x: nat)
    requires x + 1 < |row|
    ensures EraseSpan(row, x, x + 2) == ClearCell(ClearCell(row, x), x + 1)
  {
    hide ClearCell;
    EraseOne(ClearCell(row, x), x + 1);
  }

  /** In insert mode a glyph keeps a row paired exactly when it splits no pair at the cursor or at the margin. */
  lemma InsertPairs(t: Tables, row: Row, x: nat, n: nat, c: char)
    requires !t.wide(' ') && PairedRow(t, row) && n == GlyphWidth(t, c) && x + n <= |row|
    ensures PairedRow(t, PlaceInRow(row, x, n, c, true)) <==> row[x] != "" && row[|row| - n] != ""
  {
    var r := PlaceInRow(row, x, n, c, true);
    InsertedRow(row, x, n, c);
    assert PairedAt(t, row, x);
    assert PairedAt(t, row, |row| - n);
    if row[x] == "" {
      assert !PairedAt(t, r, x - 1);
    } else if row[|row| - n] == "" {
      assert PairedAt(t, row, |row| - n - 1);
      assert !PairedAt(t, r, |row| - 1);
    } else {
      ShiftedStaysPaired(t, row, r, x, n, c);
    }
  }

  lemma ShiftedStaysPaired(t: Tables, row: Row, r: Row, x: nat, n: nat, c: char)
    requires !t.wide(' ') && PairedRow(t, row) && n == GlyphWidth(t, c) && x + n <= |row| == |r|
    requires row[x] != "" && row[|row| - n] != ""
    requires r[x] == [c] && (n == 2 ==> r[x + 1] == "")
    requires forall i :: 0 <= i < x ==> r[i] == row[i]
    requires forall i :: x + n <= i < |row| ==> r[i] == row[i - n]
    ensures PairedRow(t, r)
  {
    assert PairedAt(t, row, x);
    forall i: nat | i < |r| ensures PairedAt(t, r, i) {
      if i < x {
        assert PairedAt(t, row, i);
      } else if i >= x + n {
        assert PairedAt(t, row, i - n);
      }
    }
  }

  function WholeAt(row: Row, x: nat): (r: Row)
    requires x < |row|
    ensures |r| == |row|
  {
    if row[x] == "" then ClearCell(row, x) else row
  }

  /** The cell that ends up next to the cut is not half a glyph. */
  predicate ShiftSafe(row: Row, x: nat, final: char, amount: nat)
    requires x < |row| && 1 <= amount && x + amount <= |row|
  {
    var cut := if final == '@' then |row| - amount else x + amount;
    cut == |row| || WholeAt(row, x)[cut] != ""
  }

  lemma ShiftPairs(t: Tables, row: Row, x: nat, final: char, amount: nat)
    requires !t.wide(' ') && PairedRow(t, row) && x < |row| && 1 <= amount && x + amount <= |row|
    ensures PairedRow(t, ShiftedRow(row, x, final, amount)) <==> ShiftSafe(row, x, final, amount)
  {
    var whole := WholeAt(row, x);
    ClearCellPairs(t, row, x);
    assert PairedRow(t, whole) && whole[x] != "";
    if final == '@' {
      InsertBlankPairs(t, whole, x, amount);
    } else {
      DeletePairs(t, whole, x, amount);
    }
  }

  lemma InsertBlankPairs(t: Tables, row: Row, x: nat, amount: nat)
    requires !t.wide(' ') && PairedRow(t, row) && x < |row| && 1 <= amount && x + amount <= |row| && row[x] != ""
    ensures PairedRow(t, InsertBlanks(row, x, amount)) <==> row[|row| - amount] != ""
  {
    var r := InsertBlanks(row, x, amount);
    var cut := |row| - amount;
    assert PairedAt(t, row, cut) && PairedAt(t, row, x);
    if row[cut] == "" {
      assert PairedAt(t, row, cut - 1);
      assert r[|row| - 1] == row[cut - 1];
      assert !PairedAt(t, r, |row| - 1);
    } else {
      forall i: nat | i < |r| ensures PairedAt(t, r, i) {
        if i < x {
          assert PairedAt(t, row, i);
          assert r[i] == row[i];
        } else if i >= x + amount {
          assert PairedAt(t, row, i - amount);
          assert r[i] == row[i - amount];
        }
      }
    }
  }

  lemma DeletePairs(t: Tables, row: Row, x: nat, amount: nat)
    requires !t.wide(' ') && PairedRow(t, row) && x < |row| && 1 <= amount && x + amount <= |row| && row[x] != ""
    ensures PairedRow(t, DeleteCells(row, x, amount)) <==> x + amount == |row| || row[x + amount] != ""
  {
    var r := DeleteCells(row, x, amount);
    var cut := x + amount;
    assert PairedAt(t, row, x);
    if cut < |row| && row[cut] == "" {
      assert r[x] == row[cut];
      assert x > 0 ==> PairedAt(t, row, x - 1) && r[x - 1] == row[x - 1];
      assert !PairedAt(t, r, x);
    } else {
      forall i: nat | i < |r| ensures PairedAt(t, r, i) {
        if i < x {
          assert PairedAt(t, row, i);
          assert r[i] == row[i];
          assert i + 1 < x ==> r[i + 1] == row[i + 1];
        } else if i + amount < |row| {
          assert PairedAt(t, row, i + amount);
          assert r[i] == row[i + amount];
        }
      }
    }
  }

  /** Appending to a grapheme keeps a row paired exactly when the cell is not a continuation. */
  lemma AttachPairs(t: Tables, row: Row, x: nat, c: char)
    requires PairedRow(t, row) && x < |row|
    ensures PairedRow(t, row[x := row[x] + [c]]) <==> row[x] != ""
  {
    var r := row[x := row[x] + [c]];
    assert PairedAt(t, row, x);
    if row[x] == "" {
      assert PairedAt(t, row, x - 1);
      assert !PairedAt(t, r, x - 1);
    } else {
      forall i: nat | i < |r| ensures PairedAt(t, r, i) {
        assert PairedAt(t, row, i);
      }
    }
  }

  // ---------------------------------------------------------------------------
  // Grids and displays

  lemma RowReplaced(t: Tables, g: Grid, y: nat, row: Row)
    requires PairedGrid(t, g) && y < |g|
    ensures PairedGrid(t, g[y := row]) <==> PairedRow(t, row)
  {
    assert g[y := row][y] == row;
  }

  lemma BlankPairs(t: Tables, w: nat, h: nat)
    requires !t.wide(' ')
    ensures PairedRow(t, Blanks(w)) && PairedGrid(t, BlankGrid(w, h))
  {
  }

  lemma ScrollPairs(t: Tables, g: Grid, top: int, bottom: int, count: int, w: nat)
    requires !t.wide(' ') && 0 <= top <= bottom < |g| && GridOk(g, w, |g|) && PairedGrid(t, g)
    ensures PairedGrid(t, ScrollRows(g, top, bottom, count, w))
  {
    BlankPairs(t, w, 0);
    var r := ScrollRows(g, top, bottom, count, w);
    forall y | 0 <= y < |r| ensures PairedRow(t, r[y]) {
      assert r[y] == Blanks(w) || r[y] in g;
    }
  }

  lemma ErasePairs(t: Tables, d: Display, y: int, start: int, end: int)
    requires !t.wide(' ') && DisplayOk(d) && 0 <= y < d.height && PairedGrid(t, d.cells)
    ensures PairedGrid(t, Erase(d, y, start, end).cells)
  {
    var lo, hi := Max(0, start), Min(d.width, end);
    if lo < hi {
      EraseSpanPairs(t, d.cells[y], lo, hi);
    }
    RowReplaced(t, d.cells, y, EraseSpan(d.cells[y], lo, hi));
  }

  lemma EraseRowsPairs(t: Tables, d: Display, from: int, to: int)
    requires !t.wide(' ') && DisplayOk(d) && 0 <= from && to <= d.height && PairedGrid(t, d.cells)
    ensures PairedGrid(t, EraseRows(d, from, to).cells)
  {
    forall y | 0 <= y < d.height ensures PairedRow(t, EraseSpan(d.cells[y], 0, d.width)) {
      EraseSpanPairs(t, d.cells[y], 0, d.width);
    }
  }

  lemma LinefeedPairs(t: Tables, d: Display)
    requires !t.wide(' ') && DisplayOk(d) && PairedGrid(t, d.cells)
    ensures PairedGrid(t, Linefeed(d).cells)
  {
    ScrollPairs(t, d.cells, d.top, d.bottom, 1, d.width);
  }

  lemma WrapPairs(t: Tables, d: Display, n: nat)
    requires !t.wide(' ') && DisplayOk(d) && PairedGrid(t, d.cells)
    ensures PairedGrid(t, WrapFor(d, n).cells)
  {
    LinefeedPairs(t, d.(x := 0));
  }

  /** The printable characters that keep the pairing. */
  predicate PutKeeps(d: Display, t: Tables, c: char)
    requires DisplayOk(d)
  {
    if (Combining(t, c) || d.join) && d.last.Some? then d.cells[d.last.value.1][d.last.value.0] != ""
    else
      Combining(t, c) ||
      var n := GlyphWidth(t, c);
      var b := WrapFor(d, n);
      var row := b.cells[b.y];
      n > b.width - b.x || !b.insert || (row[b.x] != "" && row[b.width - n] != "")
  }

  lemma PutPairs(t: Tables, d: Display, c: char)
    requires !t.wide(' ') && DisplayOk(d) && PairedGrid(t, d.cells)
    ensures PairedGrid(t, Put(d, t, c).cells) <==> PutKeeps(d, t, c)
  {
    if (Combining(t, c) || d.join) && d.last.Some? {
      var (x, y) := d.last.value;
      AttachPairs(t, d.cells[y], x, c);
      RowReplaced(t, d.cells, y, d.cells[y][x := d.cells[y][x] + [c]]);
    } else if !Combining(t, c) {
      PlaceScreenPairs(t, d, c);
    }
  }

  lemma PlaceScreenPairs(t: Tables, d: Display, c: char)
    requires !t.wide(' ') && DisplayOk(d) && PairedGrid(t, d.cells)
    requires !Combining(t, c) && !(d.join && d.last.Some?)
    ensures PairedGrid(t, Put(d, t, c).cells) <==> PutKeeps(d, t, c)
  {
    var n := GlyphWidth(t, c);
    WrapPairs(t, d, n);
    PlacePairsGrid(t, WrapFor(d, n), n, c);
  }

  lemma PlacePairsGrid(t: Tables, b: Display, n: nat, c: char)
    requires !t.wide(' ') && DisplayOk(b) && PairedGrid(t, b.cells) && n == GlyphWidth(t, c)
    ensures PairedGrid(t, Place(b, n, c).cells)
        <==> n > b.width - b.x || !b.insert || (b.cells[b.y][b.x] != "" && b.cells[b.y][b.width - n] != "")
  {
    hide PlaceInRow, PairedRow;
    if n <= b.width - b.x {
      var row := b.cells[b.y];
      RowReplaced(t, b.cells, b.y, PlaceInRow(row, b.x, n, c, b.insert));
      if b.insert {
        InsertPairs(t, row, b.x, n, c);
      } else {
        PlacePairs(t, row, b.x, c);
      }
    }
  }

  lemma EraseDisplayPairs(t: Tables, d: Display, first: nat)
    requires !t.wide(' ') && DisplayOk(d) && PairedGrid(t, d.cells)
    ensures PairedGrid(t, EraseDisplay(d, first).cells)
  {
    if first == 2 {
      BlankPairs(t, d.width, d.height);
    } else if first == 0 {
      ErasePairs(t, d, d.y, d.x, d.width);
      EraseRowsPairs(t, Erase(d, d.y, d.x, d.width), d.y + 1, d.height);
    } else if first == 1 {
      EraseRowsPairs(t, d, 0, d.y);
      ErasePairs(t, EraseRows(d, 0, d.y), d.y, 0, d.x + 1);
    }
  }

  predicate EditKeeps(d: Display, final: char, first: nat)
    requires DisplayOk(d)
  {
    final == '@' || final == 'P' ==> ShiftSafe(d.cells[d.y], d.x, final, Min(OrOne(first), d.width - d.x))
  }

  lemma ShiftRowPairs(t: Tables, d: Display, final: char, n: nat)
    requires !t.wide(' ') && DisplayOk(d) && PairedGrid(t, d.cells) && n >= 1
    ensures PairedGrid(t, ShiftRow(d, final, n).cells)
        <==> ShiftSafe(d.cells[d.y], d.x, final, Min(n, d.width - d.x))
  {
    var amount := Min(n, d.width - d.x);
    ShiftPairs(t, d.cells[d.y], d.x, final, amount);
    RowReplaced(t, d.cells, d.y, ShiftedRow(d.cells[d.y], d.x, final, amount));
  }

  lemma ScrollEditPairs(t: Tables, d: Display, final: char, first: nat)
    requires !t.wide(' ') && DisplayOk(d) && PairedGrid(t, d.cells) && final in "LMST"
    ensures PairedGrid(t, Edit(d, final, first).cells)
  {
    hide PairedGrid, ScrollRows, EraseDisplay, Erase, ShiftRow;
    var n: int := OrOne(first);
    if final == 'L' || final == 'T' {
      n := 0 - n;
    }
    var top := if final == 'S' || final == 'T' then d.top else d.y;
    if top <= d.bottom {
      ScrollPairs(t, d.cells, top, d.bottom, n, d.width);
    }
  }

  lemma EditPairs(t: Tables, d: Display, final: char, first: nat)
    requires !t.wide(' ') && DisplayOk(d) && PairedGrid(t, d.cells)
    ensures PairedGrid(t, Edit(d, final, first).cells) <==> EditKeeps(d, final, first)
  {
    var n: int := OrOne(first);
    if final == 'J' {
      EraseDisplayPairs(t, d, first);
    } else if final == 'K' {
      ErasePairs(t, d, d.y, if first != 0 then 0 else d.x, if first == 1 then d.x + 1 else d.width);
    } else if final == 'X' {
      ErasePairs(t, d, d.y, d.x, d.x + n);
    } else if final == '@' || final == 'P' {
      ShiftRowPairs(t, d, final, n);
    } else if final in "LMST" {
      ScrollEditPairs(t, d, final, first);
    }
  }

  // ---------------------------------------------------------------------------
  // Whole screens

  lemma {:induction false} ModesPair(t: Tables, f: Face, private: bool, enabled: bool, modes: seq<nat>)
    requires !t.wide(' ') && FaceOk(f) && Paired(t, f)
    ensures Paired(t, SetModes(f, private, enabled, modes))
    decreases |modes|
  {
    if modes != [] {
      BlankPairs(t, f.d.width, f.d.height);
      ModesPair(t, SetMode(f, private, enabled, modes[0]), private, enabled, modes[1..]);
    }
  }

  lemma ControlPairs(t: Tables, f: Face, final: char, raw: string)
    requires !t.wide(' ') && FaceOk(f) && Paired(t, f)
    ensures Paired(t, Control(f, t, final, raw))
        <==> (Parameters(t, raw).Some? ==> EditKeeps(f.d, final, Parameters(t, raw).value[0]))
  {
    var p := Parameters(t, raw);
    if p.Some? {
      var private := raw != "" && raw[0] == '?';
      if final in "hl" {
        ModesPair(t, f, private, final == 'h', p.value);
      } else {
        EditPairs(t, f.d, final, p.value[0]);
      }
    }
  }

  /** What has to hold before a character for the pairing to survive it. */
  predicate Keeps(s: Screen, t: Tables, c: char)
    requires Valid(s)
  {
    var code := c as int;
    if s.mode == Csi && '@' <= c <= '~' then
      var p := Parameters(t, s.sequence);
      p.Some? ==> EditKeeps(s.face.d, c, p.value[0])
    else
      s.mode == Text && code >= 32 && !(0x7f <= code <= 0x9f) ==> PutKeeps(s.face.d, t, c)
  }

  lemma ShowPairs(t: Tables, d: Display, c: char)
    requires !t.wide(' ') && DisplayOk(d) && PairedGrid(t, d.cells)
    ensures PairedGrid(t, Show(d, t, c).cells)
        <==> (c as int >= 32 && !(0x7f <= c as int <= 0x9f) ==> PutKeeps(d, t, c))
  {
    var code := c as int;
    if code in {10, 11, 12} {
      LinefeedPairs(t, d);
    } else if code >= 32 && !(0x7f <= code <= 0x9f) {
      PutPairs(t, d, c);
    }
  }

  lemma EscapePairs(t: Tables, d: Display, c: char)
    requires !t.wide(' ') && DisplayOk(d) && PairedGrid(t, d.cells)
    ensures PairedGrid(t, EscapeCommand(d, c).cells)
  {
    hide PairedGrid, Linefeed, ScrollRows, BlankGrid;
    if c == 'D' {
      LinefeedPairs(t, d);
    } else if c == 'E' {
      LinefeedPairs(t, d.(x := 0));
    } else if c == 'M' {
      ScrollPairs(t, d.cells, d.top, d.bottom, -1, d.width);
    } else if c == 'c' {
      BlankPairs(t, d.width, d.height);
    }
  }

  /** One character keeps every wide glyph together exactly when `Keeps` allows it. */
  lemma StepPairs(t: Tables, s: Screen, c: char)
    requires !t.wide(' ') && Valid(s) && Paired(t, s.face)
    ensures Paired(t, Consume(s, t, c).face) <==> Keeps(s, t, c)
  {
    hide PairedGrid, Parameters, EditKeeps, PutKeeps, Control, EscapeCommand, Show;
    if s.mode == Csi {
      ControlPairs(t, s.face, c, s.sequence);
    } else if s.mode == Escape {
      EscapePairs(t, s.face.d, c);
    } else if s.mode == Text {
      ShowPairs(t, s.face.d, c);
    }
  }

  // ---------------------------------------------------------------------------
  // Streams that keep every glyph, by the stream alone

  /** Where a character takes the parser, which never looks at the screen. */
  function Parsed(mode: Mode, sequence: string, t: Tables, c: char): (r: (Mode, string))
    requires |sequence| <= MAX_SEQUENCE
    ensures |r.1| <= MAX_SEQUENCE
  {
    var s := Consume(Screen(Fresh(1, 1).face, mode, sequence), t, c);
    (s.mode, s.sequence)
  }

  lemma ParserAlone(s: Screen, t: Tables, c: char)
    requires Valid(s)
    ensures (Consume(s, t, c).mode, Consume(s, t, c).sequence) == Parsed(s.mode, s.sequence, t, c)
  {
    hide Control, EscapeCommand, Show, FaceOk;
  }

  /** The control sequence turns insert mode on. */
  predicate SetsInsert(t: Tables, raw: string, final: char) {
    final == 'h' && !(raw != "" && raw[0] == '?') && Parameters(t, raw).Some? && 4 in Parameters(t, raw).value
  }

  /** No combining mark or joiner, no character insertion or deletion, and no insert mode. */
  predicate Harmless(mode: Mode, sequence: string, t: Tables, c: char) {
    && (mode == Text && c as int >= 32 ==> !Combining(t, c))
    && (mode == Csi ==> c != '@' && c != 'P' && !SetsInsert(t, sequence, c))
  }

  /** Every character of the stream is harmless where the parser meets it. */
  predicate Tame(mode: Mode, sequence: string, t: Tables, input: string)
    requires |sequence| <= MAX_SEQUENCE
    decreases |input|
  {
    input == "" ||
    (Harmless(mode, sequence, t, input[0]) &&
     var (m, q) := Parsed(mode, sequence, t, input[0]); Tame(m, q, t, input[1..]))
  }

  predicate Calm(d: Display) {
    !d.insert && !d.join
  }

  lemma {:induction false} ModesCalm(f: Face, private: bool, enabled: bool, modes: seq<nat>)
    requires FaceOk(f) && Calm(f.d) && !(enabled && !private && 4 in modes)
    ensures Calm(SetModes(f, private, enabled, modes).d)
    decreases |modes|
  {
    if modes != [] {
      ModesCalm(SetMode(f, private, enabled, modes[0]), private, enabled, modes[1..]);
    }
  }

  lemma EditCalm(d: Display, final: char, first: nat)
    requires DisplayOk(d) && Calm(d)
    ensures Calm(Edit(d, final, first))
  {
    hide GridOk, EraseSpan, ShiftedRow, ScrollRows, BlankGrid;
  }

  lemma MoveCalm(d: Display, x: int, y: int)
    requires DisplayOk(d) && !d.insert
    ensures Calm(Move(d, x, y))
  {
    hide GridOk, Max, Min;
  }

  lemma CursorCalm(d: Display, final: char, n: nat)
    requires DisplayOk(d) && Calm(d)
    ensures Calm(CursorMove(d, final, n))
  {
    hide GridOk, Move, Max, Min;
    forall x, y ensures Calm(Move(d, x, y)) {
      MoveCalm(d, x, y);
    }
  }

  lemma MarginsCalm(d: Display, values: seq<nat>)
    requires DisplayOk(d) && Calm(d) && |values| > 0
    ensures Calm(SetMargins(d, values))
  {
    hide GridOk, Max, Min;
  }

  lemma PositionCalm(d: Display, final: char, private: bool, values: seq<nat>)
    requires DisplayOk(d) && Calm(d) && |values| > 0
    ensures Calm(Position(d, final, private, values))
  {
    hide GridOk, Move, CursorMove, SetMargins, Max, Min;
    CursorCalm(d, final, OrOne(values[0]));
    MarginsCalm(d, values);
    forall x, y ensures Calm(Move(d, x, y)) {
      MoveCalm(d, x, y);
    }
  }

  lemma ControlCalm(f: Face, t: Tables, final: char, raw: string)
    requires FaceOk(f) && Calm(f.d) && !SetsInsert(t, raw, final)
    ensures Calm(Control(f, t, final, raw).d)
  {
    hide SetModes, Edit, Position, GridOk;
    var p := Parameters(t, raw);
    if p.Some? {
      if final in "hl" {
        ModesCalm(f, raw != "" && raw[0] == '?', final == 'h', p.value);
      } else {
        EditCalm(f.d, final, p.value[0]);
        PositionCalm(f.d, final, raw != "" && raw[0] == '?', p.value);
      }
    }
  }

  lemma ShowCalm(t: Tables, d: Display, c: char)
    requires DisplayOk(d) && Calm(d) && (c as int >= 32 ==> !Combining(t, c))
    ensures Calm(Show(d, t, c))
  {
    hide GridOk, Move, Linefeed, Put, Combining;
    forall x, y ensures Calm(Move(d, x, y)) {
      MoveCalm(d, x, y);
    }
    LinefeedCalm(d);
    if c as int >= 32 {
      GlyphCalm(t, d, c);
    }
  }

  lemma LinefeedCalm(d: Display)
    requires DisplayOk(d) && !d.insert
    ensures Calm(Linefeed(d))
  {
    hide GridOk, ScrollRows;
  }

  lemma WrapCalm(d: Display, n: nat)
    requires DisplayOk(d) && Calm(d)
    ensures Calm(WrapFor(d, n))
  {
    hide GridOk, Linefeed;
    LinefeedCalm(d.(x := 0));
  }

  lemma PlaceCalm(d: Display, n: nat, c: char)
    requires DisplayOk(d) && Calm(d) && 1 <= n <= 2
    ensures Calm(Place(d, n, c))
  {
    hide GridOk, PlaceInRow;
  }

  lemma GlyphCalm(t: Tables, d: Display, c: char)
    requires DisplayOk(d) && Calm(d) && !Combining(t, c)
    ensures Calm(Put(d, t, c))
  {
    hide GridOk, WrapFor, Place, Combining;
    var n := GlyphWidth(t, c);
    WrapCalm(d, n);
    PlaceCalm(WrapFor(d, n), n, c);
  }

  lemma CommandCalm(d: Display, c: char)
    requires DisplayOk(d) && Calm(d)
    ensures Calm(EscapeCommand(d, c))
  {
    hide GridOk, ScrollRows, BlankGrid;
  }

  /** A harmless character keeps the screen calm and is one that keeps every glyph. */
  lemma HarmlessStep(t: Tables, s: Screen, c: char)
    requires Valid(s) && Calm(s.face.d) && Harmless(s.mode, s.sequence, t, c)
    ensures Calm(Consume(s, t, c).face.d) && Keeps(s, t, c)
  {
    hide Control, EscapeCommand, Show, GridOk, Parameters, SetsInsert, Combining;
    if s.mode == Csi {
      ControlCalm(s.face, t, c, s.sequence);
    } else if s.mode == Escape {
      CommandCalm(s.face.d, c);
    } else if s.mode == Text {
      ShowCalm(t, s.face.d, c);
      if c as int >= 32 {
        PutCalm(t, s.face.d, c);
      }
    }
  }

  lemma PutCalm(t: Tables, d: Display, c: char)
    requires DisplayOk(d) && Calm(d) && !Combining(t, c)
    ensures PutKeeps(d, t, c)
  {
    hide GridOk, ScrollRows, Combining;
  }

  /**
   Whatever the screen shows, a stream without combining marks, character insertion or
   deletion and insert mode never parts a wide glyph: not by wrapping, scrolling, erasing,
   overwriting, moving, switching screens or resetting.
   */
  lemma {:induction false} RunPairs(t: Tables, s: Screen, input: string)
    requires !t.wide(' ') && Valid(s) && Paired(t, s.face) && Calm(s.face.d) && Tame(s.mode, s.sequence, t, input)
    ensures var r := Run(s, t, input).face; Paired(t, r) && Calm(r.d)
    decreases |input|
  {
    if input != "" {
      hide Consume, Harmless, Paired, Calm, Keeps, Valid;
      HarmlessStep(t, s, input[0]);
      StepPairs(t, s, input[0]);
      ParserAlone(s, t, input[0]);
      RunPairs(t, Consume(s, t, input[0]), input[1..]);
    }
  }

  /** On a fresh screen the stream alone decides. */
  lemma FreshPairs(t: Tables, w: nat, h: nat, input: string)
    requires !t.wide(' ') && 1 <= w && 1 <= h && Tame(Text, "", t, input)
    ensures Paired(t, Run(Fresh(w, h), t, input).face)
  {
    BlankPairs(t, w, h);
    RunPairs(t, Fresh(w, h), input);
  }
}
