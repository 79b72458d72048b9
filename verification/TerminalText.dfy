/** Printable ASCII on a fresh screen: the observer refines a closed form. */
module TerminalText {
  import opened Terminal

  /** What the Unicode tables say about printable ASCII. */
  ghost predicate PlainAscii(t: Tables) {
    forall c: char :: ' ' <= c <= '~' ==> !t.wide(c) && !t.mark(c)
  }

  predicate Printable(str: string) {
    forall i :: 0 <= i < |str| ==> ' ' <= str[i] <= '~'
  }

  /** Rows scrolled off the top once `n` characters have been written. */
  function Skipped(n: nat, w: nat, h: nat): (k: nat)
    requires w >= 1
  {
    var rows := (n + w - 1) / w;
    if rows > h then rows - h else 0
  }

  function CellOf(str: string, i: nat): (c: Cell) {
    if i < |str| then [str[i]] else " "
  }

  /** Row `r`, column `c` shows character `(k + r) * w + c`, or a blank past the end. */
  predicate CellShows(g: Grid, str: string, k: nat, w: nat, h: nat, r: nat, c: nat)
    requires GridOk(g, w, h) && r < h && c < w
  {
    g[r][c] == CellOf(str, (k + r) * w + c)
  }

  ghost predicate GridShows(g: Grid, str: string, k: nat, w: nat, h: nat) {
    && GridOk(g, w, h)
    && forall r: nat, c: nat :: r < h && c < w ==> CellShows(g, str, k, w, h, r, c)
  }

  /** The cursor sits after character `n`, with the wrap deferred at the end of a row. */
  ghost predicate CursorAfter(d: Display, n: nat, k: nat) {
    if n == 0 then d.x == 0 && d.y == 0 && !d.pendingWrap && k == 0
    else
      && n == (k + d.y) * d.width + (if d.pendingWrap then d.width else d.x)
      && (d.pendingWrap ==> d.x == d.width - 1)
      && (!d.pendingWrap ==> d.x > 0)
  }

  /** Default modes and whole-screen margins. */
  predicate Plain(d: Display) {
    DisplayOk(d) && d.wrap && !d.insert && !d.join && d.top == 0 && d.bottom == d.height - 1
  }

  ghost predicate Shows(d: Display, str: string, k: nat) {
    Plain(d) && GridShows(d.cells, str, k, d.width, d.height) && CursorAfter(d, |str|, k)
  }

  lemma RowsApart(a: nat, b: nat, w: nat)
    requires a < b
    ensures a * w + w <= b * w
  {
    assert (b - 1) * w + w == b * w;
    if a < b - 1 {
      RowsApart(a, b - 1, w);
    }
  }

  lemma IndexUnique(a: nat, c: nat, b: nat, d: nat, w: nat)
    requires c < w && d < w && a * w + c == b * w + d
    ensures a == b && c == d
  {
    if a < b {
      RowsApart(a, b, w);
    } else if b < a {
      RowsApart(b, a, w);
    }
  }

  /** A one-column glyph in a row without wide glyphs changes one cell. */
  lemma PlaceOne(row: Row, x: nat, c: char)
    requires x < |row| && row[x] != "" && (x + 1 < |row| ==> row[x + 1] != "")
    ensures PlaceInRow(row, x, 1, c, false) == row[x := [c]]
  {
    assert EraseSpan(row, x, x + 1) == ClearCell(row, x) == row[x := " "];
  }

  /** Writing the next character into its cell. */
  lemma PlaceShows(g: Grid, str: string, k: nat, w: nat, h: nat, x: nat, y: nat, c: char)
    requires GridShows(g, str, k, w, h) && x < w && y < h
    requires |str| == (k + y) * w + x
    ensures GridShows(g[y := PlaceInRow(g[y], x, 1, c, false)], str + [c], k, w, h)
  {
    assert CellShows(g, str, k, w, h, y, x);
    assert x + 1 < w ==> CellShows(g, str, k, w, h, y, x + 1);
    PlaceOne(g[y], x, c);
    var g' := g[y := g[y][x := [c]]];
    forall r: nat, d: nat | r < h && d < w ensures CellShows(g', str + [c], k, w, h, r, d) {
      NextCell(g, str, k, w, h, x, y, c, r, d);
    }
  }

  lemma NextCell(g: Grid, str: string, k: nat, w: nat, h: nat, x: nat, y: nat, c: char, r: nat, d: nat)
    requires GridShows(g, str, k, w, h) && x < w && y < h && r < h && d < w
    requires |str| == (k + y) * w + x
    ensures CellShows(g[y := g[y][x := [c]]], str + [c], k, w, h, r, d)
  {
    var i := (k + r) * w + d;
    assert CellShows(g, str, k, w, h, r, d);
    if i == |str| {
      IndexUnique(k + r, d, k + y, x, w);
    } else {
      assert !(r == y && d == x);
    }
  }

  /** Scrolling the whole screen by one row. */
  lemma ScrollShows(g: Grid, str: string, k: nat, w: nat, h: nat)
    requires h >= 1 && GridShows(g, str, k, w, h) && |str| <= (k + h) * w
    ensures GridShows(ScrollRows(g, 0, h - 1, 1, w), str, k + 1, w, h)
  {
    var g', k' := ScrollRows(g, 0, h - 1, 1, w), k + 1;
    forall r: nat, c: nat | r < h && c < w ensures CellShows(g', str, k', w, h, r, c) {
      if r < h - 1 {
        assert g'[r] == g[r + 1];
        assert CellShows(g, str, k, w, h, r + 1, c);
        assert k + 1 + r == k + (r + 1);
      } else {
        assert k + 1 + r == k + h;
        assert g'[r] == Blanks(w);
      }
    }
  }

  /** A deferred wrap moves to the start of the next row, scrolling only when there is none. */
  lemma WrapShows(d: Display, str: string, k: nat) returns (k': nat)
    requires Shows(d, str, k) && d.pendingWrap && |str| > 0
    ensures var r := WrapFor(d, 1);
            && Plain(r) && !r.pendingWrap && r.x == 0
            && GridShows(r.cells, str, k', d.width, d.height)
            && |str| == (k' + r.y) * d.width
    ensures k' == if d.y == d.height - 1 then k + 1 else k
  {
    assert (k + d.y) * d.width + d.width == (k + d.y + 1) * d.width;
    if d.y == d.height - 1 {
      k' := k + 1;
      ScrollShows(d.cells, str, k, d.width, d.height);
    } else {
      k' := k;
    }
  }

  /** One more printable character. */
  lemma StepShows(d: Display, t: Tables, str: string, k: nat, c: char) returns (k': nat)
    requires PlainAscii(t) && ' ' <= c <= '~'
    requires Shows(d, str, k)
    ensures Shows(Put(d, t, c), str + [c], k')
    ensures k' == if d.pendingWrap && d.y == d.height - 1 then k + 1 else k
    ensures Put(d, t, c).y == if d.pendingWrap && d.y < d.height - 1 then d.y + 1 else d.y
  {
    var b := WrapFor(d, 1);
    if d.pendingWrap {
      k' := WrapShows(d, str, k);
    } else {
      k' := k;
    }
    assert Put(d, t, c) == Place(b, 1, c);
    PlaceShows(b.cells, str, k', d.width, d.height, b.x, b.y, c);
  }

  lemma RowsFilled(n: nat, q: nat, x: nat, w: nat)
    requires 1 <= x <= w && n == q * w + x
    ensures (n + w - 1) / w == q + 1
  {
    assert n + w - 1 == (q + 1) * w + (x - 1);
    DivideUnique(n + w - 1, q + 1, x - 1, w);
  }

  lemma DivideUnique(n: nat, q: nat, x: nat, w: nat)
    requires x < w && n == q * w + x
    ensures n / w == q
  {
    assert n == (n / w) * w + n % w;
    IndexUnique(n / w, n % w, q, x, w);
  }

  /** A screen that shows `n` characters has scrolled off exactly the rows that do not fit. */
  lemma ScrolledOff(d: Display, str: string, k: nat)
    requires Shows(d, str, k)
    ensures |str| > 0 ==> (|str| + d.width - 1) / d.width == k + d.y + 1
  {
    if |str| > 0 {
      RowsFilled(|str|, k + d.y, if d.pendingWrap then d.width else d.x, d.width);
    }
  }

  /** How the number of lost rows grows with one more character. */
  lemma SkippedNext(d: Display, d': Display, str: string, k: nat, str': string, k': nat)
    requires Shows(d, str, k) && Shows(d', str', k') && |str'| == |str| + 1
    requires d'.width == d.width && d'.height == d.height
    requires k == Skipped(|str|, d.width, d.height)
    requires k' == if d.pendingWrap && d.y == d.height - 1 then k + 1 else k
    requires d'.y == if d.pendingWrap && d.y < d.height - 1 then d.y + 1 else d.y
    ensures k' == Skipped(|str'|, d.width, d.height)
  {
    ScrolledOff(d, str, k);
    ScrolledOff(d', str', k');
  }

  lemma ShowsNothing(w: nat, h: nat)
    requires 1 <= w && 1 <= h
    ensures Skipped(0, w, h) == 0 && Shows(Fresh(w, h).face.d, "", 0)
  {
    DivideUnique(w - 1, 0, w - 1, w);
  }

  lemma PrintablePuts(s: Screen, t: Tables, c: char)
    requires Valid(s) && s.mode == Text && ' ' <= c <= '~'
    ensures Consume(s, t, c) == s.(face := s.face.(d := Put(s.face.d, t, c)))
  {
  }

  lemma {:induction false} ShowsAll(w: nat, h: nat, t: Tables, str: string)
    requires 1 <= w && 1 <= h && PlainAscii(t) && Printable(str)
    ensures var s := Run(Fresh(w, h), t, str);
            s.mode == Text && Shows(s.face.d, str, Skipped(|str|, w, h))
  {
    if str == "" {
      ShowsNothing(w, h);
    } else {
      var n := |str| - 1;
      var before, c := str[..n], str[n];
      assert str == before + [c];
      ShowsAll(w, h, t, before);
      RunAppend(Fresh(w, h), t, before, [c]);
      var s := Run(Fresh(w, h), t, before);
      var k := Skipped(n, w, h);
      var k' := StepShows(s.face.d, t, before, k, c);
      var next := s.(face := s.face.(d := Put(s.face.d, t, c)));
      RunOne(s, t, c);
      PrintablePuts(s, t, c);
      SkippedNext(s.face.d, next.face.d, before, k, str, k');
    }
  }

  /** The wrap is pending exactly when the last row is full. */
  lemma PendingAtRowEnd(d: Display, str: string, k: nat)
    requires Shows(d, str, k)
    ensures d.pendingWrap <==> str != "" && |str| % d.width == 0
  {
    var n, w := |str|, d.width;
    if n > 0 {
      var q := if d.pendingWrap then k + d.y + 1 else k + d.y;
      var x := if d.pendingWrap then 0 else d.x;
      assert n == q * w + x;
      assert n == (n / w) * w + n % w;
      IndexUnique(n / w, n % w, q, x, w);
    }
  }

  /**
   Any printable ASCII text on a fresh screen: row `r`, column `c` holds character
   `(k + r) * w + c` and blanks fill the rest, where `k` rows have scrolled off; a
   text that exactly fills its last row leaves the wrap pending and scrolls nothing.
   */
  lemma AsciiClosedForm(w: nat, h: nat, t: Tables, str: string)
    requires 1 <= w && 1 <= h && PlainAscii(t) && Printable(str)
    ensures var d := Run(Fresh(w, h), t, str).face.d;
            var k := Skipped(|str|, w, h);
            && (forall r: nat, c: nat :: r < h && c < w ==> CellShows(d.cells, str, k, w, h, r, c))
            && CursorAfter(d, |str|, k)
            && (d.pendingWrap <==> str != "" && |str| % w == 0)
  {
    ShowsAll(w, h, t, str);
    PendingAtRowEnd(Run(Fresh(w, h), t, str).face.d, str, Skipped(|str|, w, h));
  }
}
