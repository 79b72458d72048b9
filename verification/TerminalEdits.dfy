/**
 What the control sequences of the screen observer (scripts/m4_terminal_screen.py) that
 change the grid leave in every cell: erasing, inserting, deleting and scrolling.
 */
module TerminalEdits {
  import opened Options
  import opened Texts
  import opened Terminal
  import opened TerminalAlternate
  import opened TerminalControl

  /** Nothing but cells has changed. */
  predicate OnlyCells(s: Screen, r: Screen) {
    && r.mode == Text && r.sequence == "" && r.face.alternate == s.face.alternate
    && r.face.d == s.face.d.(cells := r.face.d.cells)
  }

  lemma RunEdit(s: Screen, t: Tables, ps: seq<string>, final: char)
    requires Takes(s, t, ps) && final in "JKX@PLMST"
    ensures Run(s, t, Command(ps, final)) == Screen(s.face.(d := Edit(s.face.d, final, Param(ps[0]))), Text, "")
  {
    hide Run, Edit, Parameters, Joined, Values;
    RunControl(s, t, ps, final);
  }

  // ---------------------------------------------------------------------------
  // Erasing

  /** Columns `lo..hi` hold right halves of wide glyphs only. */
  predicate Halves(row: Row, lo: int, hi: int) {
    forall c :: lo <= c < hi && 0 <= c < |row| ==> row[c] == ""
  }

  /**
   Columns `lo..hi` are blank, and so are the halves of glyphs cut at either end; the rest is as
   before. Behind a span of nothing but right halves the next cell has no glyph in the span.
   */
  predicate Erased(was: Row, now: Row, lo: int, hi: int) {
    && |now| == |was|
    && forall c :: 0 <= c < |was| ==>
         now[c] == if lo <= c < hi || (c == lo - 1 && lo < hi && lo < |was| && was[lo] == "")
                      || (c == hi && lo < hi && was[hi] == "" && !(lo > 0 && Halves(was, lo, hi)))
                   then " " else was[c]
  }

  predicate AllBlank(row: Row) {
    forall c :: 0 <= c < |row| ==> row[c] == " "
  }

  lemma {:induction false} SpanErased(row: Row, lo: int, hi: int)
    requires 0 <= lo && hi <= |row|
    ensures Erased(row, EraseSpan(row, lo, hi), lo, hi)
    decreases hi - lo
  {
    if lo < hi {
      hide ClearCell;
      var once := ClearCell(row, lo);
      CellErased(row, lo);
      SpanErased(once, lo + 1, hi);
      if lo + 1 < hi {
        assert Halves(once, lo + 1, hi) <==> lo > 0 && Halves(row, lo, hi) by {
          HalvesLeft(row, once, lo, hi);
        }
      }
    }
  }

  lemma CellErased(row: Row, x: nat)
    requires x < |row|
    ensures Erased(row, ClearCell(row, x), x, x + 1)
  {
    assert Halves(row, x, x + 1) <==> row[x] == "";
  }

  lemma HalvesLeft(row: Row, once: Row, lo: nat, hi: nat)
    requires lo + 1 < hi <= |row| && Erased(row, once, lo, lo + 1)
    ensures Halves(once, lo + 1, hi) <==> lo > 0 && Halves(row, lo, hi)
  {
    assert Halves(row, lo, lo + 1) <==> row[lo] == "";
    if Halves(once, lo + 1, hi) {
      assert once[lo + 1] == "";
      forall c | lo <= c < hi ensures row[c] == "" {
        assert c > lo ==> once[c] == "";
      }
    }
  }

  /** A whole row is blank afterwards, whatever was in it. */
  lemma {:induction false} SpanBlank(row: Row, lo: int, hi: int)
    requires 0 <= lo && hi <= |row|
    ensures forall c :: lo <= c < hi ==> EraseSpan(row, lo, hi)[c] == " "
    ensures forall c :: 0 <= c < |row| && row[c] == " " ==> EraseSpan(row, lo, hi)[c] == " "
    decreases hi - lo
  {
    if lo < hi {
      SpanBlank(ClearCell(row, lo), lo + 1, hi);
    }
  }

  /** From where to where `K` and `X` erase in the row of the cursor. */
  function EraseFrom(d: Display, final: char, first: nat): (lo: int) {
    if final == 'K' && first != 0 then 0 else d.x
  }

  function EraseTo(d: Display, final: char, first: nat): (hi: int) {
    if final == 'X' then Least(d.width, d.x + (if first == 0 then 1 else first))
    else if first == 1 then d.x + 1
    else if first <= 2 then d.width
    else 0
  }

  /** `K` erases from the cursor, up to and including it, or the whole row; `X` a number of characters. */
  lemma LineErased(s: Screen, t: Tables, ps: seq<string>, final: char)
    requires Takes(s, t, ps) && (final == 'K' || final == 'X')
    ensures var d, r, first := s.face.d, Run(s, t, Command(ps, final)), Param(ps[0]);
            && OnlyCells(s, r) && |r.face.d.cells| == |d.cells|
            && (forall y :: 0 <= y < d.height && y != d.y ==> r.face.d.cells[y] == d.cells[y])
            && Erased(d.cells[d.y], r.face.d.cells[d.y], EraseFrom(d, final, first), EraseTo(d, final, first))
  {
    hide Run, Param, Command, EraseSpan, Erased;
    RunEdit(s, t, ps, final);
    EditErases(s.face.d, final, Param(ps[0]));
  }

  lemma EditErases(d: Display, final: char, first: nat)
    requires DisplayOk(d) && (final == 'K' || final == 'X')
    ensures var r := Edit(d, final, first);
            && r == d.(cells := r.cells) && (forall y :: 0 <= y < d.height && y != d.y ==> r.cells[y] == d.cells[y])
            && Erased(d.cells[d.y], r.cells[d.y], EraseFrom(d, final, first), EraseTo(d, final, first))
  {
    hide EraseSpan, Erased;
    var lo, hi := EraseFrom(d, final, first), EraseTo(d, final, first);
    SpanErased(d.cells[d.y], lo, hi);
    if final == 'K' && first > 2 {
      NoneErased(d.cells[d.y], lo);
    }
  }

  lemma NoneErased(row: Row, lo: int)
    requires lo >= 0
    ensures Erased(row, row, lo, 0)
  {
  }

  /** `J` erases from the cursor to the end, from the beginning to the cursor, or everything; `3` and above do nothing. */
  lemma ScreenErased(s: Screen, t: Tables, ps: seq<string>)
    requires Takes(s, t, ps)
    ensures var d, r, first := s.face.d, Run(s, t, Command(ps, 'J')), Param(ps[0]);
            && OnlyCells(s, r) && |r.face.d.cells| == |d.cells|
            && forall y :: 0 <= y < d.height ==> RowErased(d, r.face.d.cells[y], first, y)
  {
    hide Run, Param, Command, RowErased;
    RunEdit(s, t, ps, 'J');
    EditErasesScreen(s.face.d, Param(ps[0]));
  }

  /** What `J` leaves of row `y`. */
  predicate RowErased(d: Display, now: Row, first: nat, y: nat)
    requires DisplayOk(d) && y < d.height
  {
    if first > 2 || (first == 0 && y < d.y) || (first == 1 && y > d.y) then now == d.cells[y]
    else if first == 2 || y != d.y then AllBlank(now) && |now| == d.width
    else Erased(d.cells[y], now, if first == 0 then d.x else 0, if first == 0 then d.width else d.x + 1)
  }

  lemma EditErasesScreen(d: Display, first: nat)
    requires DisplayOk(d)
    ensures var r := Edit(d, 'J', first);
            r == d.(cells := r.cells) && |r.cells| == d.height && forall y :: 0 <= y < d.height ==> RowErased(d, r.cells[y], first, y)
  {
    hide EraseSpan, Erased, RowErased;
    EditIsErase(d, first);
    var r := Edit(d, 'J', first);
    forall y | 0 <= y < d.height ensures RowErased(d, r.cells[y], first, y) {
      EditErasesRow(d, first, y);
    }
  }

  /** `J`, row by row. */
  function RowAfterErase(d: Display, first: nat, y: nat): (row: Row)
    requires DisplayOk(d) && y < d.height
  {
    if first > 2 || (first == 0 && y < d.y) || (first == 1 && y > d.y) then d.cells[y]
    else if first == 2 then Blanks(d.width)
    else if y != d.y then EraseSpan(d.cells[y], 0, d.width)
    else if first == 0 then EraseSpan(d.cells[y], d.x, d.width)
    else EraseSpan(d.cells[y], 0, d.x + 1)
  }

  lemma EditIsErase(d: Display, first: nat)
    requires DisplayOk(d)
    ensures var r := Edit(d, 'J', first);
            r == d.(cells := r.cells) && |r.cells| == d.height && forall y :: 0 <= y < d.height ==> r.cells[y] == RowAfterErase(d, first, y)
  {
    hide Edit, EraseDisplay, RowAfterErase, DisplayOk;
    EditErasesDisplay(d, first);
    if first == 0 {
      BelowErased(d);
    } else if first == 1 {
      AboveErased(d);
    } else {
      OthersErased(d, first);
    }
  }

  lemma EditErasesDisplay(d: Display, first: nat)
    requires DisplayOk(d)
    ensures Edit(d, 'J', first) == EraseDisplay(d, first)
  {
    hide EraseDisplay;
  }

  lemma BelowErased(d: Display)
    requires DisplayOk(d)
    ensures var r := EraseDisplay(d, 0);
            r == d.(cells := r.cells) && |r.cells| == d.height && forall y :: 0 <= y < d.height ==> r.cells[y] == RowAfterErase(d, 0, y)
  {
    hide EraseSpan, RowOk;
  }

  lemma AboveErased(d: Display)
    requires DisplayOk(d)
    ensures var r := EraseDisplay(d, 1);
            r == d.(cells := r.cells) && |r.cells| == d.height && forall y :: 0 <= y < d.height ==> r.cells[y] == RowAfterErase(d, 1, y)
  {
    hide EraseSpan, RowOk;
  }

  lemma OthersErased(d: Display, first: nat)
    requires DisplayOk(d) && first >= 2
    ensures var r := EraseDisplay(d, first);
            r == d.(cells := r.cells) && |r.cells| == d.height && forall y :: 0 <= y < d.height ==> r.cells[y] == RowAfterErase(d, first, y)
  {
    hide EraseSpan, RowOk;
  }

  lemma EditErasesRow(d: Display, first: nat, y: nat)
    requires DisplayOk(d) && y < d.height
    ensures RowErased(d, RowAfterErase(d, first, y), first, y)
  {
    hide EraseSpan, Erased;
    assert RowOk(d.cells[y], d.width);
    if y == d.y {
      SpanErased(d.cells[y], d.x, d.width);
      SpanErased(d.cells[y], 0, d.x + 1);
    } else {
      SpanBlank(d.cells[y], 0, d.width);
    }
  }

  // ---------------------------------------------------------------------------
  // Scrolling

  /** Rows `top..bottom` have moved up by `n`, or down if it is negative, and blank rows have come in. */
  predicate Scrolled(was: Grid, now: Grid, w: nat, top: int, bottom: int, n: int)
    requires 0 <= top <= bottom < |was|
  {
    && |now| == |was|
    && forall y :: 0 <= y < |was| ==>
         if top <= y <= bottom then
           (if top <= y + n <= bottom then now[y] == was[y + n] else AllBlank(now[y]) && |now[y]| == w)
         else now[y] == was[y]
  }

  lemma RowsScroll(g: Grid, top: int, bottom: int, n: int, w: nat)
    requires 0 <= top <= bottom < |g| && GridOk(g, w, |g|) && n != 0
    ensures Scrolled(g, ScrollRows(g, top, bottom, n, w), w, top, bottom, n)
  {
    hide GridOk;
    var r := ScrollRows(g, top, bottom, n, w);
    var size := bottom + 1 - top;
    var amount := Min(if n < 0 then -n else n, size);
    assert |r| == |g|;
    forall y | 0 <= y < |g| ensures
      if top <= y <= bottom then
        (if top <= y + n <= bottom then r[y] == g[y + n] else AllBlank(r[y]) && |r[y]| == w)
      else r[y] == g[y]
    {
      if n > 0 && top <= y <= bottom && y + n > bottom {
        assert r[y] == BlankGrid(w, amount)[y - (bottom + 1 - amount)];
      } else if n < 0 && top <= y <= bottom && y + n < top {
        assert r[y] == BlankGrid(w, amount)[y - top];
      }
    }
  }

  /** The first row that scrolls, and by how much. */
  function ScrollFrom(d: Display, final: char): (top: int) {
    if final == 'L' || final == 'M' then d.y else d.top
  }

  function ScrollBy(final: char, n: int): (count: int) {
    if final == 'S' || final == 'M' then n else 0 - n
  }

  /** `S` and `T` scroll within the margins; `L` and `M` from the row of the cursor, if that is within them. */
  lemma LinesScrolled(s: Screen, t: Tables, ps: seq<string>, final: char)
    requires Takes(s, t, ps) && final in "LMST"
    ensures var d, r := s.face.d, Run(s, t, Command(ps, final));
            && OnlyCells(s, r)
            && if d.top <= ScrollFrom(d, final) <= d.bottom then
                 Scrolled(d.cells, r.face.d.cells, d.width, ScrollFrom(d, final), d.bottom, ScrollBy(final, Count(ps[0])))
               else r.face.d.cells == d.cells
  {
    hide Run, Param, Command, Scrolled, Edit;
    RunEdit(s, t, ps, final);
    EditScrolls(s.face.d, final, Param(ps[0]));
  }

  lemma EditScrolls(d: Display, final: char, first: nat)
    requires DisplayOk(d) && final in "LMST"
    ensures var r := Edit(d, final, first);
            && r == d.(cells := r.cells)
            && if d.top <= ScrollFrom(d, final) <= d.bottom then
                 Scrolled(d.cells, r.cells, d.width, ScrollFrom(d, final), d.bottom, ScrollBy(final, if first == 0 then 1 else first))
               else r.cells == d.cells
  {
    hide Scrolled, ScrollRows, RowOk;
    if d.top <= ScrollFrom(d, final) <= d.bottom {
      RowsScroll(d.cells, ScrollFrom(d, final), d.bottom, ScrollBy(final, if first == 0 then 1 else first), d.width);
    }
  }

  // ---------------------------------------------------------------------------
  // Inserting and deleting characters

  /** The row of the cursor with the glyph cut there blanked first. */
  predicate Cut(was: Row, mid: Row, x: nat) {
    && |mid| == |was|
    && forall c :: 0 <= c < |was| ==>
         mid[c] == if x < |was| && was[x] == "" && (c == x || c + 1 == x || (x == 0 && c == 1 && was[1] == "")) then " " else was[c]
  }

  lemma ClearsHalf(row: Row, x: nat)
    requires x < |row|
    ensures Cut(row, if row[x] == "" then ClearCell(row, x) else row, x)
  {
  }

  /** `@` puts blanks in at the cursor and pushes the rest out to the right; `P` takes characters out and pulls the rest in. */
  predicate Shifted(was: Row, now: Row, x: nat, final: char, n: nat) {
    && |now| == |was|
    && forall c :: 0 <= c < |was| ==>
         now[c] == if c < x then was[c]
                   else if final == '@' then (if c < x + n then " " else was[c - n])
                   else if c + n < |was| then was[c + n] else " "
  }

  lemma CharactersShifted(s: Screen, t: Tables, ps: seq<string>, final: char) returns (mid: Row)
    requires Takes(s, t, ps) && (final == '@' || final == 'P')
    ensures var d, r, n := s.face.d, Run(s, t, Command(ps, final)), Count(ps[0]);
            && OnlyCells(s, r) && |r.face.d.cells| == |d.cells|
            && (forall y :: 0 <= y < d.height && y != d.y ==> r.face.d.cells[y] == d.cells[y])
            && Cut(d.cells[d.y], mid, d.x) && Shifted(mid, r.face.d.cells[d.y], d.x, final, n)
  {
    hide Run, Param, Command, Cut, Shifted;
    RunEdit(s, t, ps, final);
    mid := EditShifts(s.face.d, final, Param(ps[0]));
  }

  lemma EditShifts(d: Display, final: char, first: nat) returns (mid: Row)
    requires DisplayOk(d) && (final == '@' || final == 'P')
    ensures var r := Edit(d, final, first);
            && r == d.(cells := r.cells) && (forall y :: 0 <= y < d.height && y != d.y ==> r.cells[y] == d.cells[y])
            && Cut(d.cells[d.y], mid, d.x) && Shifted(mid, r.cells[d.y], d.x, final, if first == 0 then 1 else first)
  {
    hide Cut, Shifted, ShiftedRow, Edit;
    var row, n: nat := d.cells[d.y], if first == 0 then 1 else first;
    EditIsShift(d, final, first);
    mid := RowShifts(row, d.x, final, n);
  }

  lemma EditIsShift(d: Display, final: char, first: nat)
    requires DisplayOk(d) && (final == '@' || final == 'P')
    ensures var r, n := Edit(d, final, first), if first == 0 then 1 else first; var row := d.cells[d.y];
            |row| == d.width && r == d.(cells := d.cells[d.y := ShiftedRow(row, d.x, final, Least(n, d.width - d.x))])
  {
    hide ShiftedRow;
    assert RowOk(d.cells[d.y], d.width);
    hide GridOk;
  }

  lemma RowShifts(row: Row, x: nat, final: char, n: nat) returns (mid: Row)
    requires x < |row| && (final == '@' || final == 'P')
    ensures Cut(row, mid, x) && Shifted(mid, ShiftedRow(row, x, final, Least(n, |row| - x)), x, final, n)
  {
    hide Cut, Shifted, ClearCell, InsertBlanks, DeleteCells;
    mid := if row[x] == "" then ClearCell(row, x) else row;
    ClearsHalf(row, x);
    Shifts(mid, x, final, n, Min(n, |row| - x));
  }

  lemma Shifts(row: Row, x: nat, final: char, n: nat, amount: nat)
    requires x < |row| && amount == Min(n, |row| - x) && (final == '@' || final == 'P')
    ensures Shifted(row, if final == '@' then InsertBlanks(row, x, amount) else DeleteCells(row, x, amount), x, final, n)
  {
  }
}
