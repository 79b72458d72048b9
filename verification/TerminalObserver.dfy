/** The observer object: fields and rows that each character updates in place, step by step. */
module TerminalObserver {
  import opened Options
  import opened Terminal
  import opened TerminalPage
  import TerminalAlternate

  predicate Dimensions(width: int, height: int) {
    1 <= width <= 4096 && 1 <= height <= 4096 && width * height <= 1_000_000
  }

  /** What entering the alternate screen keeps: the page object itself, not a copy. */
  datatype Saved = Saved(page: Page, x: int, y: int, top: int, bottom: int)

  class TerminalScreen {
    const width: nat
    const height: nat
    const tables: Tables
    var page: Page
    var x: int
    var y: int
    var savedX: int
    var savedY: int
    var top: int
    var bottom: int
    var wrap: bool
    var pendingWrap: bool
    var origin: bool
    var insert: bool
    var alternate: Option<Saved>
    var mode: Mode
    var sequence: string
    var last: Option<(int, int)>
    var join: bool

    /** The page put aside, if any, and its rows. */
    ghost function SavedPage(): set<Page>
      reads `alternate
    {
      if alternate.Some? then {alternate.value.page} else {}
    }

    ghost function SavedLines(): set<Line>
      reads `alternate, SavedPage()
    {
      if alternate.Some? then set l | l in alternate.value.page.rows else {}
    }

    /** The two pages are different objects, and no row object is in a page twice or in both. */
    ghost predicate Apart()
      reads `page, page, `alternate, SavedPage()
    {
      && page.Valid()
      && (alternate.Some? ==>
            var p := alternate.value.page; p != page && p.Valid() && Disjoint(p.rows, page.rows))
    }

    ghost function Cells(): Grid
      reads `page, page, page.rows
    {
      page.Cells()
    }

    ghost function D(): Display
      reads this, page, page.rows
    {
      Display(width, height, Cells(), x, y, savedX, savedY, top, bottom, wrap, pendingWrap, origin, insert, last, join)
    }

    ghost function Aside(): Option<Primary>
      reads `alternate, SavedPage(), SavedLines()
    {
      if alternate.None? then None
      else var p := alternate.value; Some(Primary(p.page.Cells(), p.x, p.y, p.top, p.bottom))
    }

    ghost function F(): Face
      reads this, page, page.rows, SavedPage(), SavedLines()
    {
      Face(D(), Aside())
    }

    /** The screen the fields and rows stand for. */
    ghost function View(): Screen
      reads this, page, page.rows, SavedPage(), SavedLines()
    {
      Screen(F(), mode, sequence)
    }

    /** Drawing stays on the page in view or a new one, with old or new rows, and what was put aside is untouched. */
    twostate predicate Stayed()
      reads `page, page, `alternate, SavedPage(), SavedLines()
    {
      && (page == old(page) || fresh(page)) && fresh(page.Lines() - old(page.Lines()))
      && alternate == old(alternate) && SavedLines() == old(SavedLines()) && Apart() && Aside() == old(Aside())
    }

    /** Every page and row object of the screen. */
    ghost function Objects(): set<object>
      reads `page, page, `alternate, SavedPage()
    {
      {page} + page.Lines() + SavedPage() + SavedLines()
    }

    /** The pages are still apart, and every object is one the screen had or a new one. */
    twostate predicate Kept()
      reads `page, page, `alternate, SavedPage()
    {
      Apart() && fresh(Objects() - old(Objects()))
    }

    /** Nothing was written to the rows put aside. */
    twostate lemma AsideKept()
      requires alternate == old(alternate)
      requires alternate.Some? ==>
                 var rows := old(alternate.value.page.rows);
                 alternate.value.page.rows == rows && forall l :: l in rows ==> l.cells == old(l.cells)
      ensures Aside() == old(Aside())
    {
      if alternate.Some? {
        assert Shows(alternate.value.page.rows) == old(Shows(alternate.value.page.rows));
      }
    }

    constructor (width: nat, height: nat, tables: Tables)
      requires Dimensions(width, height)
      ensures Apart() && View() == Fresh(width, height) && this.tables == tables && fresh(page) && fresh(page.rows) && alternate.None?
    {
      this.width, this.height, this.tables := width, height, tables;
      page := new Page(width, height);
      x, y, savedX, savedY := 0, 0, 0, 0;
      top, bottom := 0, height - 1;
      wrap, pendingWrap, origin, insert := true, false, false, false;
      alternate := None;
      mode, sequence := Text, "";
      last, join := None, false;
    }

    /** No wrap is due, and no glyph takes a combining mark. */
    method Unmark()
      requires Apart()
      modifies `pendingWrap, `last, `join
      ensures Stayed() && D() == old(D()).(pendingWrap := false, last := None, join := false)
    {
      hide Separate, Disjoint, Shows;
      pendingWrap := false;
      last := None;
      join := false;
    }

    method Move(nx: int, ny: int)
      requires Apart() && DisplayOk(D())
      modifies `x, `y, `pendingWrap, `last, `join
      ensures Stayed() && D() == Terminal.Move(old(D()), nx, ny)
    {
      hide DisplayOk, Separate, Disjoint, Shows;
      x := Max(0, Min(width - 1, nx));
      y := Max(0, Min(height - 1, ny));
      Unmark();
    }

    method Scroll(count: int)
      requires Apart() && DisplayOk(D())
      modifies page
      ensures Stayed() && D() == Terminal.Scroll(old(D()), count)
    {
      hide ScrollRows, RowOk;
      page.Scroll(top, bottom, count, width);
    }

    method Linefeed()
      requires Apart() && DisplayOk(D())
      modifies page, `y, `pendingWrap, `last, `join
      ensures Stayed() && D() == Terminal.Linefeed(old(D()))
    {
      hide Terminal.Scroll, DisplayOk, Separate, Disjoint, Shows;
      if y == bottom {
        Scroll(1);
      } else {
        y := Min(height - 1, y + 1);
      }
      Unmark();
    }

    method Erase(row: int, start: int, end: int)
      requires Apart() && DisplayOk(D()) && 0 <= row < height
      modifies page.Lines()
      ensures Stayed() && D() == Terminal.Erase(old(D()), row, start, end)
    {
      hide EraseSpan;
      page.Erase(row, start, end);
      AsideKept();
    }

    /** Whole rows, top to bottom. */
    method EraseAll(from: int, to: int)
      requires Apart() && DisplayOk(D()) && 0 <= from && to <= height
      modifies page.Lines()
      ensures Stayed() && D() == EraseRows(old(D()), from, to)
    {
      hide EraseSpan;
      page.EraseRows(from, to);
      AsideKept();
      assert Cells() == EraseRows(old(D()), from, to).cells;
    }

    method Extend(c: char)
      requires Apart() && DisplayOk(D()) && last.Some?
      modifies page.Lines()
      ensures Stayed() && D() == Terminal.Attach(old(D()), c).(join := join)
    {
      var (column, row) := last.value;
      if |page.rows[row].cells[column]| < MAX_CELL {
        page.Attach(column, row, c);
        AsideKept();
      }
    }

    method Attach(c: char)
      requires Apart() && DisplayOk(D()) && last.Some?
      modifies page.Lines(), `join
      ensures Stayed() && D() == Terminal.Attach(old(D()), c)
    {
      hide DisplayOk, Separate, Disjoint, Shows, Terminal.Attach;
      Extend(c);
      JoinsLast(old(D()), c);
      join := c == ZWJ;
    }

    /** To the start of the next line. */
    method NextLine()
      requires Apart() && DisplayOk(D())
      modifies page, `x, `y, `pendingWrap, `last, `join
      ensures Stayed() && D() == Terminal.Linefeed(old(D()).(x := 0))
    {
      hide Terminal.Linefeed, Separate, Disjoint, Shows;
      x := 0;
      Linefeed();
    }

    method WrapFor(n: nat)
      requires Apart() && DisplayOk(D())
      modifies page, `x, `y, `pendingWrap, `last, `join
      ensures Stayed() && D() == Terminal.WrapFor(old(D()), n)
    {
      hide Terminal.Linefeed, DisplayOk, Separate, Disjoint, Shows;
      if pendingWrap || (n == 2 && x == width - 1 && wrap) {
        if wrap {
          NextLine();
        }
        pendingWrap := false;
      }
    }

    method Draw(n: nat, c: char)
      requires Apart() && DisplayOk(D()) && 1 <= n <= 2 && x + n <= width
      modifies page.Lines()
      ensures Stayed() && D() == WithRow(old(D()), y, PlaceInRow(old(Cells())[y], x, n, c, insert))
    {
      hide PlaceInRow;
      page.Draw(x, y, n, c, insert);
      AsideKept();
    }

    method WaitAtMargin()
      requires Apart()
      modifies `x, `pendingWrap
      ensures Stayed() && D() == old(D()).(x := width - 1, pendingWrap := wrap)
    {
      hide Separate, Disjoint, Shows;
      x := width - 1;
      pendingWrap := wrap;
    }

    /** The cursor moves on, or waits at the margin. */
    method StepOn(n: nat)
      requires Apart()
      modifies `x, `pendingWrap
      ensures Stayed()
      ensures D() == if old(x) + n >= width then old(D()).(x := width - 1, pendingWrap := wrap) else old(D()).(x := old(x) + n)
    {
      hide Separate, Disjoint, Shows;
      x := x + n;
      if x >= width {
        WaitAtMargin();
      }
    }

    method Remember()
      requires Apart() && DisplayOk(D())
      modifies `last
      ensures Stayed() && DisplayOk(D()) && D() == old(D()).(last := Some((x, y)))
    {
      hide GridOk, Separate, Disjoint, Shows;
      last := Some((x, y));
    }

    method PlaceGlyph(n: nat, c: char)
      requires Apart() && DisplayOk(D()) && 1 <= n <= 2
      modifies page.Lines(), `x, `pendingWrap, `last
      ensures Stayed() && D() == Terminal.Place(old(D()), n, c)
    {
      hide PlaceInRow, Separate, Disjoint, Shows, DisplayOk;
      if n <= width - x {
        Draw(n, c);
        Remember();
        StepOn(n);
      }
    }

    method Put(c: char)
      requires Apart() && DisplayOk(D())
      modifies page, page.Lines(), `x, `y, `pendingWrap, `last, `join
      ensures Stayed() && D() == Terminal.Put(old(D()), tables, c)
    {
      hide Terminal.Place, Terminal.WrapFor, Terminal.Attach;
      var combining := Combining(tables, c);
      if (combining || join) && last.Some? {
        Attach(c);
      } else if !combining {
        var n := GlyphWidth(tables, c);
        WrapFor(n);
        PlaceGlyph(n, c);
      }
    }

    // -------------------------------------------------------------------------
    // Control sequences

    method CursorMove(final: char, n: nat)
      requires Apart() && DisplayOk(D())
      modifies `x, `y, `pendingWrap, `last, `join
      ensures Stayed() && D() == Terminal.CursorMove(old(D()), final, n)
    {
      hide Terminal.Move, DisplayOk, Separate, Disjoint, Shows;
      if final == 'A' {
        Move(x, Max(if origin then top else 0, y - n));
      } else if final in "Be" {
        Move(x, Min(if origin then bottom else height - 1, y + n));
      } else if final in "Ca" {
        Move(x + n, y);
      } else if final == 'D' {
        Move(x - n, y);
      } else if final == 'E' {
        Move(0, y + n);
      } else if final == 'F' {
        Move(0, y - n);
      } else if final in "G`" {
        Move(n - 1, y);
      } else {
        Move(x, n - 1 + if origin then top else 0);
      }
    }

    /** A blank page in place of the one in view. */
    method Wipe()
      requires Apart()
      modifies `page
      ensures Stayed() && D() == old(D()).(cells := BlankGrid(width, height))
    {
      page := new Page(width, height);
    }

    method EraseDisplay(first: nat)
      requires Apart() && DisplayOk(D())
      modifies `page, page.Lines()
      ensures Stayed() && D() == Terminal.EraseDisplay(old(D()), first)
    {
      hide Terminal.Erase, EraseRows, BlankGrid, Separate, Disjoint, Shows;
      if first == 2 {
        Wipe();
      } else if first == 0 {
        Erase(y, x, width);
        EraseAll(y + 1, height);
      } else if first == 1 {
        EraseAll(0, y);
        Erase(y, 0, x + 1);
      }
    }

    method ShiftRow(final: char, n: nat)
      requires Apart() && DisplayOk(D()) && n >= 1
      modifies page.Lines()
      ensures Stayed() && D() == Terminal.ShiftRow(old(D()), final, n)
    {
      hide ShiftedRow;
      page.Shift(x, y, final, Min(n, width - x));
      AsideKept();
    }

    /** Insert and delete line scroll the part of the region below the cursor. */
    method ScrollBelow(count: int)
      requires Apart() && DisplayOk(D()) && top <= y <= bottom
      modifies page, `top
      ensures Stayed() && D() == old(D()).(cells := ScrollRows(old(Cells()), y, bottom, count, width))
    {
      hide ScrollRows;
      var above := top;
      top := y;
      Scroll(count);
      top := above;
    }

    method EraseEdit(final: char, first: nat)
      requires Apart() && DisplayOk(D()) && final in "JKX"
      modifies page, page.Lines(), `page
      ensures Stayed() && D() == Terminal.Edit(old(D()), final, first)
    {
      hide Terminal.Erase, Terminal.EraseDisplay, ScrollRows, Separate, Disjoint, Shows, GridOk;
      var n: int := OrOne(first);
      if final == 'J' {
        EraseDisplay(first);
      } else if final == 'K' {
        if first <= 2 {
          Erase(y, if first != 0 then 0 else x, if first == 1 then x + 1 else width);
        }
      } else {
        Erase(y, x, x + n);
      }
    }

    method ScrollEdit(final: char, first: nat)
      requires Apart() && DisplayOk(D()) && final in "LMST"
      modifies page, `top
      ensures Stayed() && D() == Terminal.Edit(old(D()), final, first)
    {
      hide Terminal.Scroll, ScrollRows, Separate, Disjoint, Shows, GridOk;
      var n: int := OrOne(first);
      if final in "LM" {
        if top <= y <= bottom {
          ScrollBelow(if final == 'L' then 0 - n else n);
        }
      } else {
        Scroll(if final == 'S' then n else 0 - n);
      }
    }

    method Edit(final: char, first: nat)
      requires Apart() && DisplayOk(D()) && final in "JKX@PLMST"
      modifies page, page.Lines(), `page, `top
      ensures Stayed() && D() == Terminal.Edit(old(D()), final, first)
    {
      hide Terminal.ShiftRow, Separate, Disjoint, Shows, DisplayOk;
      if final in "JKX" {
        EraseEdit(final, first);
      } else if final in "@P" {
        ShiftRow(final, OrOne(first));
      } else {
        ScrollEdit(final, first);
      }
    }

    method SaveCursor()
      requires Apart()
      modifies `savedX, `savedY
      ensures Stayed() && D() == old(D()).(savedX := x, savedY := y)
    {
      hide Separate, Disjoint, Shows;
      savedX, savedY := x, y;
    }

    method SetMargins(values: seq<nat>)
      requires Apart() && DisplayOk(D()) && |values| > 0
      modifies `x, `y, `top, `bottom, `pendingWrap, `last, `join
      ensures Stayed() && D() == Terminal.SetMargins(old(D()), values)
    {
      hide Terminal.Move, GridOk, Separate, Disjoint, Shows;
      var n := OrOne(values[0]);
      var lowest := if |values| > 1 && values[1] != 0 then values[1] else height;
      if 1 <= n < lowest <= height {
        top, bottom := n - 1, lowest - 1;
        Move(0, if origin then top else 0);
      }
    }

    method Position(final: char, private: bool, values: seq<nat>)
      requires Apart() && DisplayOk(D()) && |values| > 0
      modifies `x, `y, `savedX, `savedY, `top, `bottom, `pendingWrap, `last, `join
      ensures Stayed() && D() == Terminal.Position(old(D()), final, private, values)
    {
      hide Terminal.Move, Terminal.CursorMove, Terminal.SetMargins, DisplayOk, Separate, Disjoint, Shows;
      var n := OrOne(values[0]);
      if final in "Hf" {
        var column := if |values| > 1 then OrOne(values[1]) else 1;
        Move(column - 1, if origin then Min(bottom, top + n - 1) else n - 1);
      } else if final in "ABCDEFG`ade" {
        CursorMove(final, n);
      } else if final == 'r' && !private {
        SetMargins(values);
      } else if final == 's' {
        SaveCursor();
      } else if final == 'u' {
        Move(savedX, savedY);
      }
    }

    /** Full margins and the cursor in the corner. */
    method Home()
      requires Apart() && DisplayOk(D())
      modifies `x, `y, `top, `bottom, `pendingWrap, `last, `join
      ensures Stayed() && D() == Terminal.Move(old(D()).(top := 0, bottom := height - 1), 0, 0)
    {
      hide Terminal.Move, GridOk, Separate, Disjoint, Shows;
      top, bottom := 0, height - 1;
      Move(0, 0);
    }

    /** A blank page comes into view, and the page so far is put aside as it is. */
    method PutAside()
      requires Apart() && alternate.None?
      modifies `page, `alternate
      ensures Kept() && alternate.Some? && alternate.value.page == old(page)
      ensures F() == Face(old(D()).(cells := BlankGrid(width, height)), Some(Primary(old(Cells()), x, y, top, bottom)))
    {
      hide BlankGrid, Separate;
      alternate := Some(Saved(page, x, y, top, bottom));
      page := new Page(width, height);
    }

    method EnterAlternate()
      requires Apart() && FaceOk(F()) && alternate.None?
      modifies `page, `x, `y, `top, `bottom, `alternate, `pendingWrap, `last, `join
      ensures Kept() && F() == Enter(old(F())) && alternate.Some? && alternate.value.page == old(page)
    {
      EnterOk(F());
      hide Terminal.Move, BlankGrid, DisplayOk, FaceOk, Separate, Disjoint, Shows;
      PutAside();
      Home();
    }

    /** The page put aside comes back into view. */
    method LeaveAlternate()
      requires Apart() && FaceOk(F()) && alternate.Some?
      modifies `page, `x, `y, `top, `bottom, `alternate, `pendingWrap, `last, `join
      ensures Kept() && F() == Leave(old(F())) && page == old(alternate.value.page)
    {
      hide Terminal.Move, Separate;
      var p := alternate.value;
      page, top, bottom := p.page, p.top, p.bottom;
      alternate := None;
      Move(p.x, p.y);
    }

    method SetWrap(enabled: bool)
      requires Apart()
      modifies `wrap, `pendingWrap
      ensures Stayed() && D() == old(D()).(wrap := enabled, pendingWrap := false)
    {
      hide Separate, Disjoint, Shows;
      wrap := enabled;
      pendingWrap := false;
    }

    method SetOrigin(enabled: bool)
      requires Apart() && DisplayOk(D())
      modifies `x, `y, `origin, `pendingWrap, `last, `join
      ensures Stayed() && D() == Terminal.Move(old(D()).(origin := enabled), 0, if enabled then top else 0)
    {
      hide Terminal.Move, GridOk, Separate, Disjoint, Shows;
      origin := enabled;
      Move(0, if enabled then top else 0);
    }

    method SetInsert(enabled: bool)
      requires Apart()
      modifies `insert
      ensures Stayed() && D() == old(D()).(insert := enabled)
    {
      hide Separate, Disjoint, Shows;
      insert := enabled;
    }

    method SwitchScreen(enabled: bool)
      requires Apart() && FaceOk(F())
      modifies `page, `x, `y, `top, `bottom, `alternate, `pendingWrap, `last, `join
      ensures Kept() && F() == if enabled then Enter(old(F())) else Leave(old(F()))
    {
      hide Enter, Leave, FaceOk, Separate, Disjoint, Shows;
      if enabled && alternate.None? {
        EnterAlternate();
      } else if !enabled && alternate.Some? {
        LeaveAlternate();
      } else {
        SwitchIdle(F(), enabled);
      }
    }

    method SetMode(private: bool, enabled: bool, number: nat)
      requires Apart() && FaceOk(F())
      modifies `page, `x, `y, `top, `bottom, `wrap, `pendingWrap, `origin, `insert, `alternate, `last, `join
      ensures Kept() && F() == Terminal.SetMode(old(F()), private, enabled, number)
    {
      hide Terminal.Move, Enter, Leave, GridOk, Separate, Disjoint, Shows;
      if private && number == 7 {
        SetWrap(enabled);
      } else if private && number == 6 {
        SetOrigin(enabled);
      } else if !private && number == 4 {
        SetInsert(enabled);
      } else if private && number in {47, 1047, 1049} {
        SwitchScreen(enabled);
      }
    }

    method SetModes(private: bool, enabled: bool, modes: seq<nat>)
      requires Apart() && FaceOk(F())
      modifies `page, `x, `y, `top, `bottom, `wrap, `pendingWrap, `origin, `insert, `alternate, `last, `join
      ensures Kept() && F() == Terminal.SetModes(old(F()), private, enabled, modes)
    {
      hide Terminal.SetMode, FaceOk, F, Separate, Disjoint;
      var i := 0;
      assert modes[0..] == modes;
      while i < |modes|
        invariant 0 <= i <= |modes| && FaceOk(F()) && Kept()
        invariant Terminal.SetModes(F(), private, enabled, modes[i..]) == Terminal.SetModes(old(F()), private, enabled, modes)
      {
        assert modes[i..][0] == modes[i] && modes[i..][1..] == modes[i + 1..];
        SetMode(private, enabled, modes[i]);
        i := i + 1;
      }
    }

    method Control(final: char, raw: string)
      requires Apart() && FaceOk(F())
      modifies page, page.Lines()
      modifies `page, `x, `y, `savedX, `savedY, `top, `bottom, `wrap, `pendingWrap, `origin, `insert, `alternate, `last, `join
      ensures Kept() && F() == Terminal.Control(old(F()), tables, final, raw)
    {
      hide Terminal.SetModes, Terminal.Edit, Terminal.Position, Parameters, GridOk, Separate, Disjoint, Shows;
      var private := raw != "" && raw[0] == '?';
      var parameters := Parameters(tables, raw);
      if parameters.Some? {
        var values := parameters.value;
        if final in "hl" {
          SetModes(private, final == 'h', values);
        } else if final in "JKX@PLMST" {
          Edit(final, values[0]);
        } else {
          Position(final, private, values);
        }
      }
    }

    // -------------------------------------------------------------------------
    // Characters

    method ClearModes()
      requires Apart()
      modifies `origin, `insert, `wrap
      ensures Stayed() && D() == old(D()).(origin := false, insert := false, wrap := true)
    {
      hide Separate, Disjoint, Shows;
      origin, insert, wrap := false, false, true;
    }

    method Forget()
      requires Apart()
      modifies `alternate
      ensures Kept() && F() == Face(old(D()), None)
    {
      alternate := None;
    }

    method ResetScreen()
      requires Apart() && FaceOk(F())
      modifies `page, `x, `y, `top, `bottom, `wrap, `pendingWrap, `origin, `insert, `alternate, `last, `join
      ensures Kept() && F() == Face(Reset(old(D())), None)
    {
      EnterOk(F());
      hide Terminal.Move, BlankGrid, FaceOk, GridOk, Separate, Disjoint, Shows;
      Wipe();
      ClearModes();
      Forget();
      Home();
    }

    method Command(c: char)
      requires Apart() && DisplayOk(D()) && c != 'c'
      modifies page, `x, `y, `savedX, `savedY, `pendingWrap, `last, `join
      ensures Stayed() && D() == EscapeCommand(old(D()), c)
    {
      hide Terminal.Move, Terminal.Linefeed, Terminal.Scroll, DisplayOk, Separate, Disjoint, Shows;
      if c == '7' {
        SaveCursor();
      } else if c == '8' {
        Move(savedX, savedY);
      } else if c == 'D' {
        Linefeed();
      } else if c == 'E' {
        NextLine();
      } else if c == 'M' {
        if y == top {
          Scroll(-1);
        } else {
          Move(x, y - 1);
        }
      }
    }

    /** The parser moves on; nothing on the screen changes. */
    method Parse(m: Mode, q: string)
      requires Apart()
      modifies `mode, `sequence
      ensures Apart() && Objects() == old(Objects()) && View() == Screen(old(F()), m, q)
    {
      hide Separate, Disjoint, Shows;
      mode, sequence := m, q;
    }

    /** A command after the escape character. */
    method Commanded(c: char)
      requires Apart() && FaceOk(F())
      modifies this, page
      ensures Kept()
      ensures View() == Screen(Face(EscapeCommand(old(D()), c), if c == 'c' then None else old(Aside())), old(mode), old(sequence))
    {
      hide FaceOk, Reset, GridOk, Separate, Disjoint, Shows;
      assert DisplayOk(D()) by { EnterOk(F()); }
      if c == 'c' {
        ResetScreen();
      } else {
        Command(c);
      }
    }

    method Escaped(c: char)
      requires Apart() && Valid(View())
      modifies this, page
      ensures Kept() && View() == EscapeFinal(old(View()), c)
    {
      hide EscapeCommand, FaceOk, Separate, Disjoint, Shows;
      if c == '[' {
        Parse(Csi, "");
      } else if c in "]P^_X" {
        Parse(Str, sequence);
      } else if c in "()*+-%#" {
        Parse(EscapeIntermediate, sequence);
      } else {
        Parse(Text, sequence);
        Commanded(c);
      }
    }

    method Shown(c: char)
      requires Apart() && DisplayOk(D())
      modifies page, page.Lines(), `x, `y, `pendingWrap, `last, `join
      ensures Stayed() && D() == Show(old(D()), tables, c)
    {
      hide Terminal.Move, Terminal.Linefeed, Terminal.Put, DisplayOk, Separate, Disjoint, Shows;
      var code := c as int;
      if code == 13 {
        Move(0, y);
      } else if code in {10, 11, 12} {
        Linefeed();
      } else if code == 8 {
        Move(x - 1, y);
      } else if code == 9 {
        Move(Min(width - 1, (x / 8 + 1) * 8), y);
      } else if code >= 32 && !(0x7f <= code <= 0x9f) {
        Put(c);
      }
    }

    method ParseControl(c: char)
      requires Apart() && Valid(View()) && (mode == Csi || mode == CsiDiscard)
      modifies this, page, page.Lines()
      ensures Kept() && View() == ControlByte(old(View()), tables, c)
    {
      hide Terminal.Control, FaceOk, Separate, Disjoint, Shows;
      if '@' <= c <= '~' {
        if mode == Csi {
          Control(c, sequence);
        }
        Parse(Text, "");
      } else if mode == Csi {
        if |sequence + [c]| > MAX_SEQUENCE {
          Parse(CsiDiscard, "");
        } else {
          Parse(Csi, sequence + [c]);
        }
      }
    }

    method ParseText(c: char)
      requires Apart() && Valid(View())
      modifies this, page, page.Lines()
      ensures Kept() && View() == TextChar(old(View()), tables, c)
    {
      hide Show, GridOk, Separate, Disjoint, Shows;
      var code := c as int;
      if code == 0x9b {
        Parse(Csi, "");
      } else if code in {0x90, 0x9d, 0x9e, 0x9f} {
        Parse(Str, sequence);
      } else {
        Shown(c);
      }
    }

    method Consume(c: char)
      requires Apart() && Valid(View())
      modifies this, page, page.Lines()
      ensures Kept() && View() == Terminal.Consume(old(View()), tables, c)
    {
      hide Valid, EscapeFinal, ControlByte, TextChar, Separate, Disjoint, Shows;
      var code := c as int;
      if mode == Str || mode == StrEscape {
        if code == 7 || code == 0x9c || (mode == StrEscape && c == '\\') {
          Parse(Text, sequence);
        } else {
          Parse(if c == ESC then StrEscape else Str, sequence);
        }
      } else if code == 0x18 || code == 0x1a {
        Parse(Text, "");
      } else if c == ESC {
        Parse(Escape, sequence);
      } else if mode == Escape {
        Escaped(c);
      } else if mode == EscapeIntermediate {
        if '0' <= c <= '~' {
          Parse(Text, sequence);
        }
      } else if mode == Csi || mode == CsiDiscard {
        ParseControl(c);
      } else {
        ParseText(c);
      }
    }

    /** One decoded character, on any of the screen's objects. */
    method Take(c: char)
      requires Apart() && Valid(View())
      modifies this, Objects()
      ensures Kept() && View() == Terminal.Consume(old(View()), tables, c)
    {
      hide Terminal.Consume, Valid, Separate, Disjoint, Shows;
      Consume(c);
    }

    /** All decoded characters of one read; the screen stays valid and its pages apart throughout. */
    method Feed(input: string)
      requires Apart() && Valid(View())
      modifies this, Objects()
      ensures Kept() && View() == Run(old(View()), tables, input) && Valid(View())
    {
      hide Terminal.Consume, Valid, View;
      var i := 0;
      assert input[0..] == input;
      while i < |input|
        invariant 0 <= i <= |input| && Valid(View()) && Kept()
        invariant Run(View(), tables, input[i..]) == Run(old(View()), tables, input)
      {
        assert input[i..][0] == input[i] && input[i..][1..] == input[i + 1..];
        Take(input[i]);
        i := i + 1;
      }
    }
  }

  /** The constructor's guard: a bounded nonempty screen or nothing. */
  method Open(width: int, height: int, tables: Tables) returns (screen: TerminalScreen?)
    ensures screen != null <==> Dimensions(width, height)
    ensures screen != null ==> fresh(screen) && fresh(screen.Objects()) && screen.Apart()
    ensures screen != null ==> screen.View() == Fresh(width, height) && screen.tables == tables
  {
    if Dimensions(width, height) {
      screen := new TerminalScreen(width, height, tables);
    } else {
      screen := null;
    }
  }

  /**
   The round trip on the object: however the alternate page and its rows are edited,
   the page put aside comes back with every cell, the cursor and the margins, unless the
   drawing ends inside an open string.
   */
  method RoundTrip(screen: TerminalScreen, enter: string, input: string, leave: string)
    requires screen.Apart() && Valid(screen.View()) && screen.alternate.None?
    requires TerminalAlternate.Parked(screen.View()) && TerminalAlternate.AsciiDigits(screen.tables)
    requires TerminalAlternate.SwitchMode(enter) && TerminalAlternate.SwitchMode(leave)
    requires TerminalAlternate.StaysAlternate(Run(screen.View(), screen.tables, TerminalAlternate.Switch(enter, 'h')), screen.tables, input)
    modifies screen, screen.Objects()
    ensures screen.Kept()
    ensures var m := Run(old(screen.View()), screen.tables, TerminalAlternate.Switch(enter, 'h') + input);
            && (screen.alternate.None? <==> TerminalAlternate.Parked(m))
            && (TerminalAlternate.Parked(m) ==>
                  var d, r := old(screen.D()), screen.D();
                  r.cells == d.cells && r.x == d.x && r.y == d.y && r.top == d.top && r.bottom == d.bottom)
  {
    TerminalAlternate.AlternateRoundTrip(screen.View(), screen.tables, enter, input, leave);
    screen.Feed(TerminalAlternate.Switch(enter, 'h') + input + TerminalAlternate.Switch(leave, 'l'));
  }

  /** A blank grid in place of another keeps a display in shape. */
  lemma JoinsLast(d: Display, c: char)
    requires DisplayOk(d) && d.last.Some?
    ensures Terminal.Attach(d, c).join == (c == ZWJ)
  {
    hide DisplayOk;
  }

  lemma EnterOk(f: Face)
    requires FaceOk(f)
    ensures DisplayOk(f.d) && DisplayOk(f.d.(cells := BlankGrid(f.d.width, f.d.height)))
  {
  }

  /** Entering twice and leaving without having entered do nothing. */
  lemma SwitchIdle(f: Face, enabled: bool)
    requires FaceOk(f) && f.alternate.Some? == enabled
    ensures (if enabled then Enter(f) else Leave(f)) == f
  {
  }
}
