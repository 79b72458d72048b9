/**
 The grid in memory (scripts/m4_terminal_screen.py): a page is a list of rows, rows are
 lists of cells, and both are edited in place. What keeps a page a grid is that no row
 is in it twice.
 */
module TerminalPage {
  import opened Terminal

  /** One row object. */
  class Line {
    var cells: Row

    constructor (width: nat)
      ensures cells == Blanks(width)
    {
      cells := Blanks(width);
    }

    method Set(x: int, c: Cell)
      requires 0 <= x < |cells|
      modifies this
      ensures cells == old(cells)[x := c]
    {
      cells := cells[x := c];
    }

    /** A cell goes, with the other half of a wide glyph it belongs to. */
    method Clear(x: int)
      requires 0 <= x < |cells|
      modifies this
      ensures cells == ClearCell(old(cells), x)
    {
      if cells[x] == "" && x > 0 {
        Set(x - 1, " ");
      } else if x + 1 < |cells| && cells[x + 1] == "" {
        Set(x + 1, " ");
      }
      Set(x, " ");
    }

    method Erase(start: int, end: int)
      modifies this
      ensures cells == EraseSpan(old(cells), Max(0, start), Min(|old(cells)|, end))
    {
      hide ClearCell;
      var x, limit := Max(0, start), Min(|cells|, end);
      while x < limit
        invariant Max(0, start) <= x <= Max(Max(0, start), limit) && |cells| == |old(cells)|
        invariant EraseSpan(cells, x, limit) == EraseSpan(old(cells), Max(0, start), limit)
      {
        Clear(x);
        x := x + 1;
      }
    }

    /** Blanks at `x` push the rest right; what falls off the end is dropped. */
    method Push(x: int, n: nat)
      requires 0 <= x && x + n <= |cells|
      modifies this
      ensures cells == InsertBlanks(old(cells), x, n)
    {
      var width := |cells|;
      cells := cells[..x] + Blanks(n) + cells[x..];
      cells := cells[..width];
      assert cells == InsertBlanks(old(cells), x, n);
    }

    /** Cells at `x` go and the rest moves left; blanks fill up the row. */
    method Pull(x: int, n: nat)
      requires 0 <= x && x + n <= |cells|
      modifies this
      ensures cells == DeleteCells(old(cells), x, n)
    {
      cells := cells[..x] + cells[x + n..];
      cells := cells + Blanks(n);
    }

    /** Puts a glyph of `n` columns into an erased span. */
    method Draw(x: int, n: nat, c: char, insert: bool)
      requires 1 <= n <= 2 && 0 <= x && x + n <= |cells|
      modifies this
      ensures cells == PlaceInRow(old(cells), x, n, c, insert)
    {
      hide EraseSpan, InsertBlanks;
      if insert {
        Push(x, n);
      }
      Erase(x, x + n);
      Set(x, [c]);
      if n == 2 {
        Set(x + 1, "");
      }
    }
  }

  /** What a list of row objects shows. */
  ghost function Shows(rows: seq<Line>): (g: Grid)
    reads rows
    ensures |g| == |rows| && forall r :: 0 <= r < |rows| ==> g[r] == rows[r].cells
  {
    seq(|rows|, r requires 0 <= r < |rows| reads rows => rows[r].cells)
  }

  ghost predicate Separate(rows: seq<Line>) {
    forall i, j :: 0 <= i < j < |rows| ==> rows[i] != rows[j]
  }

  ghost predicate Disjoint(a: seq<Line>, b: seq<Line>) {
    forall l :: l in a ==> l !in b
  }

  lemma SeparateConcat(a: seq<Line>, b: seq<Line>)
    requires Separate(a) && Separate(b) && Disjoint(a, b)
    ensures Separate(a + b)
  {
    forall i, j | 0 <= i < |a| <= j < |a| + |b| ensures (a + b)[i] != (a + b)[j] {
      assert a[i] in a && b[j - |a|] in b;
    }
  }

  lemma DisjointConcat(a: seq<Line>, b: seq<Line>, c: seq<Line>)
    requires Disjoint(a, c) && Disjoint(b, c)
    ensures Disjoint(a + b, c)
  {
  }

  /** The region `from..to` replaced by some of its rows and some new ones: still no row twice. */
  lemma SeparateRoll(rows: seq<Line>, from: nat, to: nat, lo: nat, hi: nat, blanks: seq<Line>, up: bool)
    requires Separate(rows) && Separate(blanks) && Disjoint(rows, blanks) && from <= lo <= hi <= to <= |rows|
    ensures Separate(rows[..from] + (if up then rows[lo..hi] + blanks else blanks + rows[lo..hi]) + rows[to..])
  {
    var a, b, c := rows[..from], rows[lo..hi], rows[to..];
    assert Disjoint(b, blanks) && Disjoint(blanks, b);
    var moved := if up then b + blanks else blanks + b;
    SeparateConcat(b, blanks);
    SeparateConcat(blanks, b);
    assert Disjoint(b, c) && Disjoint(blanks, c) && Disjoint(b, a) && Disjoint(blanks, a);
    DisjointConcat(b, blanks, c);
    DisjointConcat(blanks, b, c);
    DisjointConcat(b, blanks, a);
    DisjointConcat(blanks, b, a);
    assert Disjoint(a, moved);
    SeparateConcat(a, moved);
    DisjointConcat(a, moved, c);
    SeparateConcat(a + moved, c);
  }

  lemma ShowsConcat(a: seq<Line>, b: seq<Line>)
    ensures Shows(a + b) == Shows(a) + Shows(b)
  {
  }

  lemma ShowsRoll(a: seq<Line>, b: seq<Line>, c: seq<Line>, d: seq<Line>)
    ensures Shows(a + (b + c) + d) == Shows(a) + Shows(b) + Shows(c) + Shows(d)
  {
    ShowsConcat(a + (b + c), d);
    ShowsConcat(a, b + c);
    ShowsConcat(b, c);
    assert Shows(a) + (Shows(b) + Shows(c)) + Shows(d) == Shows(a) + Shows(b) + Shows(c) + Shows(d);
  }

  method BlankLines(width: nat, n: nat) returns (rows: seq<Line>)
    ensures |rows| == n && Separate(rows) && fresh(rows) && Shows(rows) == BlankGrid(width, n)
  {
    rows := [];
    while |rows| < n
      invariant |rows| <= n && Separate(rows) && fresh(rows)
      invariant forall r :: 0 <= r < |rows| ==> rows[r].cells == Blanks(width)
    {
      var line := new Line(width);
      rows := rows + [line];
    }
  }

  lemma ScrollUpShows(rows: seq<Line>, top: nat, bottom: nat, amount: nat, blanks: seq<Line>, count: int, width: nat)
    requires top <= bottom < |rows| && GridOk(Shows(rows), width, |rows|) && count > 0
    requires amount == Min(count, bottom + 1 - top) && Shows(blanks) == BlankGrid(width, amount)
    ensures Shows(rows[..top] + (rows[top + amount..bottom + 1] + blanks) + rows[bottom + 1..])
            == ScrollRows(Shows(rows), top, bottom, count, width)
  {
    hide GridOk;
    var g := Shows(rows);
    ShowsRoll(rows[..top], rows[top + amount..bottom + 1], blanks, rows[bottom + 1..]);
    assert Shows(rows[..top]) == g[..top] && Shows(rows[top + amount..bottom + 1]) == g[top + amount..bottom + 1];
    assert Shows(rows[bottom + 1..]) == g[bottom + 1..];
  }

  lemma ScrollDownShows(rows: seq<Line>, top: nat, bottom: nat, amount: nat, blanks: seq<Line>, count: int, width: nat)
    requires top <= bottom < |rows| && GridOk(Shows(rows), width, |rows|) && count <= 0
    requires amount == Min(-count, bottom + 1 - top) && Shows(blanks) == BlankGrid(width, amount)
    ensures Shows(rows[..top] + (blanks + rows[top..bottom + 1 - amount]) + rows[bottom + 1..])
            == ScrollRows(Shows(rows), top, bottom, count, width)
  {
    hide GridOk;
    var g := Shows(rows);
    ShowsRoll(rows[..top], blanks, rows[top..bottom + 1 - amount], rows[bottom + 1..]);
    assert Shows(rows[..top]) == g[..top] && Shows(rows[top..bottom + 1 - amount]) == g[top..bottom + 1 - amount];
    assert Shows(rows[bottom + 1..]) == g[bottom + 1..];
  }

  /** Rows move by reference within the region, and new blank rows fill the gap. */
  method Rolled(rows: seq<Line>, top: int, bottom: int, count: int, width: nat) returns (moved: seq<Line>)
    requires Separate(rows) && 0 <= top <= bottom < |rows| && GridOk(Shows(rows), width, |rows|)
    ensures Separate(moved) && Shows(moved) == ScrollRows(Shows(rows), top, bottom, count, width)
    ensures forall l :: l in moved ==> l in rows || fresh(l)
  {
    hide GridOk, Separate, ScrollRows, BlankGrid;
    var region := rows[top..bottom + 1];
    var amount := Min(if count < 0 then -count else count, |region|);
    var blanks := BlankLines(width, amount);
    assert Disjoint(rows, blanks);
    if count > 0 {
      assert region[amount..] == rows[top + amount..bottom + 1];
      moved := rows[..top] + (region[amount..] + blanks) + rows[bottom + 1..];
      SeparateRoll(rows, top, bottom + 1, top + amount, bottom + 1, blanks, true);
      ScrollUpShows(rows, top, bottom, amount, blanks, count, width);
    } else {
      assert region[..|region| - amount] == rows[top..bottom + 1 - amount];
      moved := rows[..top] + (blanks + region[..|region| - amount]) + rows[bottom + 1..];
      SeparateRoll(rows, top, bottom + 1, top, bottom + 1 - amount, blanks, false);
      ScrollDownShows(rows, top, bottom, amount, blanks, count, width);
    }
  }

  /** The list of rows, itself an object. */
  class Page {
    var rows: seq<Line>

    ghost predicate Valid()
      reads this
    {
      Separate(rows)
    }

    ghost function Lines(): set<Line>
      reads this
    {
      set l | l in rows
    }

    ghost function Cells(): (g: Grid)
      reads this, rows
    {
      Shows(rows)
    }

    constructor (width: nat, height: nat)
      ensures Valid() && fresh(rows) && Cells() == BlankGrid(width, height)
    {
      var lines := BlankLines(width, height);
      rows := lines;
    }

    method Erase(y: int, start: int, end: int)
      requires Valid() && 0 <= y < |rows|
      modifies rows[y]
      ensures Cells() == old(Cells())[y := EraseSpan(old(Cells())[y], Max(0, start), Min(|old(Cells())[y]|, end))]
    {
      hide EraseSpan;
      rows[y].Erase(start, end);
    }

    /** Whole rows, top to bottom. */
    method EraseRows(from: int, to: int)
      requires Valid() && 0 <= from && to <= |rows|
      modifies rows
      ensures |Cells()| == |old(Cells())|
      ensures forall y :: 0 <= y < |rows| ==>
                Cells()[y] == if from <= y < to then EraseSpan(old(Cells())[y], 0, |old(Cells())[y]|) else old(Cells())[y]
    {
      hide EraseSpan;
      var y := from;
      while y < to
        invariant from <= y <= Max(from, to)
        invariant forall r :: 0 <= r < |rows| ==>
                    rows[r].cells == if from <= r < y then EraseSpan(old(Cells())[r], 0, |old(Cells())[r]|) else old(Cells())[r]
      {
        Erase(y, 0, |rows[y].cells|);
        y := y + 1;
      }
    }

    /** Appends to the grapheme in a cell. */
    method Attach(x: int, y: int, c: char)
      requires Valid() && 0 <= y < |rows| && 0 <= x < |rows[y].cells|
      modifies rows[y]
      ensures Cells() == old(Cells())[y := old(Cells())[y][x := old(Cells())[y][x] + [c]]]
    {
      rows[y].Set(x, rows[y].cells[x] + [c]);
    }

    /** Puts a glyph of `n` columns where there is room for it. */
    method Draw(x: int, y: int, n: nat, c: char, insert: bool)
      requires Valid() && 0 <= y < |rows| && 1 <= n <= 2 && 0 <= x && x + n <= |rows[y].cells|
      modifies rows[y]
      ensures Cells() == old(Cells())[y := PlaceInRow(old(Cells())[y], x, n, c, insert)]
    {
      hide PlaceInRow;
      rows[y].Draw(x, n, c, insert);
    }

    /** Inserts or deletes characters, a halved glyph first cleared. */
    method Shift(x: int, y: int, final: char, n: nat)
      requires Valid() && 0 <= y < |rows| && 0 <= x < |rows[y].cells| && x + n <= |rows[y].cells|
      modifies rows[y]
      ensures Cells() == old(Cells())[y := ShiftedRow(old(Cells())[y], x, final, n)]
    {
      hide ClearCell, InsertBlanks, DeleteCells;
      var line := rows[y];
      if line.cells[x] == "" {
        line.Clear(x);
      }
      if final == '@' {
        line.Push(x, n);
      } else {
        line.Pull(x, n);
      }
    }

    method Scroll(top: int, bottom: int, count: int, width: nat)
      requires Valid() && 0 <= top <= bottom < |rows| && GridOk(Cells(), width, |rows|)
      modifies this
      ensures Valid() && Cells() == ScrollRows(old(Cells()), top, bottom, count, width)
      ensures forall l :: l in rows ==> l in old(rows) || fresh(l)
    {
      hide GridOk, Separate, ScrollRows;
      var moved := Rolled(rows, top, bottom, count, width);
      rows := moved;
    }
  }
}
