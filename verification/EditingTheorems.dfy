// What a person sees of the editing sequences: which lines and cells go where, on the visible lines,
// and for the sequences that do not always do what they stand for, exactly when they do.
module EditingTheorems {
  import opened Cells
  import opened ScreenSpec
  import opened TerminalSpec

  function Visible(v: View): (r: seq<Line>)
    requires ViewOk(v)
    ensures |r| == v.height && LinesOk(r, v.width)
  {
    v.lines[v.Scrollback()..]
  }

  function History(v: View): seq<Line>
    requires ViewOk(v)
  {
    v.lines[..v.Scrollback()]
  }

  // ---- The scrollback ----

  /** A whole-screen scroll moves the visible lines up and appends the ones that leave to the scrollback,
      which keeps its newest 500. */
  lemma HistorySplits(lines: seq<Line>, width: nat, height: nat, k: nat)
    requires LinesOk(lines, width) && height <= |lines| && k <= height
    ensures var r, n := PushHistory(lines, width, height, k), |lines| - height;
      && |r| >= height
      && r[|r| - height..] == lines[n + k..] + BlankLines(k, width)
      && r[..|r| - height] == LastAtMost(lines[..n] + lines[n..n + k], 500)
  {
    var r, n := PushHistory(lines, width, height, k), |lines| - height;
    var all := lines + BlankLines(k, width);
    assert lines[..n] + lines[n..n + k] == lines[..n + k];
    assert all[n + k..] == lines[n + k..] + BlankLines(k, width);
    if |all| > height + MAX_SCROLLBACK {
      var d := |all| - (height + MAX_SCROLLBACK);
      assert r == all[d..];
      assert r[..|r| - height] == all[d..n + k] == lines[..n + k][d..];
    } else {
      assert all[..n + k] == lines[..n + k];
    }
  }

  /** Scrolling j lines and then k is scrolling j + k: the cut at 500 lines loses nothing it would have kept. */
  lemma HistoryComposes(lines: seq<Line>, width: nat, height: nat, j: nat, k: nat)
    requires LinesOk(lines, width)
    ensures PushHistory(PushHistory(lines, width, height, j), width, height, k)
      == PushHistory(lines, width, height, j + k)
  {
    var most := height + MAX_SCROLLBACK;
    var all := lines + BlankLines(j, width);
    assert all + BlankLines(k, width) == lines + BlankLines(j + k, width);
    if |all| > most {
      var d := |all| - most;
      assert all[d..] + BlankLines(k, width) == (all + BlankLines(k, width))[d..];
    }
  }

  /** A line feed on the last line of an unrestricted main screen scrolls one line into the history. */
  lemma LineFeedScrolls(t: Term)
    requires TermOk(t) && t.top == 0 && t.bottom == t.v.height && t.v.y == t.v.height - 1 && !t.v.alternate
    ensures LineFeed(t) == t.(v := t.v.(lines := PushHistory(t.v.lines, t.v.width, t.v.height, 1)))
  {
    hide UtfOk, PushHistory, ShiftRegion;
  }

  /** n line feeds there: all lines that left are in the history, in order, or at least the last 500. */
  lemma {:induction false} LineFeedsScroll(t: Term, n: nat)
    requires TermOk(t) && t.top == 0 && t.bottom == t.v.height && t.v.y == t.v.height - 1 && !t.v.alternate
    ensures LineFeeds(t, n) == t.(v := t.v.(lines := PushHistory(t.v.lines, t.v.width, t.v.height, n)))
  {
    hide ViewOk, UtfOk, LineFeed, PushHistory;
    if n == 0 {
      assert PushHistory(t.v.lines, t.v.width, t.v.height, 0) == t.v.lines by {
        PushNothing(t.v);
      }
    } else {
      LineFeedsScroll(t, n - 1);
      LineFeedScrolls(LineFeeds(t, n - 1));
      assert LinesOk(t.v.lines, t.v.width) by {
        ViewLines(t.v);
      }
      HistoryComposes(t.v.lines, t.v.width, t.v.height, n - 1, 1);
    }
  }

  lemma ViewLines(v: View)
    requires ViewOk(v)
    ensures LinesOk(v.lines, v.width) && v.height <= |v.lines|
  {
  }

  lemma PushNothing(v: View)
    requires ViewOk(v) && !v.alternate
    ensures PushHistory(v.lines, v.width, v.height, 0) == v.lines
  {
    assert v.lines + BlankLines(0, v.width) == v.lines;
  }

  // ---- Scrolling ----

  /** The cell that the strips a rectangle leaves behind are filled with. */
  function ScrollFill(v: View, g: Region, incX: int, color: Color): Cell {
    if incX == 0 && g.x == 0 && g.w == v.width then BLANK else Cell(SPACE, Look(color), Plain)
  }

  // What a move of the rectangle g makes of the cell in line r and column c: a cell it moves onto holds what the
  // cell it comes from held, one it leaves behind is blank, any other is what it was.
  predicate CellMoved(before: seq<Line>, after: seq<Line>, g: Region, incX: int, incY: int, fill: Cell, r: nat, c: nat)
    requires r < |before| == |after| && c < |before[r]| == |after[r]|
  {
    if Vacated(g, incX, incY, r, c) then after[r][c] == fill
    else if g.Moved(incX, incY).Has(r, c) then
      0 <= r - incY < |before| && 0 <= c - incX < |before[r - incY]| && after[r][c] == before[r - incY][c - incX]
    else after[r][c] == before[r][c]
  }

  /** Scrolling is a move of the clipped rectangle, for every cell of the screen, whether the lines that leave are
      kept in the history or not; the cursor stays. */
  lemma ScrollMovesCells(v: View, x: int, y: int, w: int, h: int, incX: int, incY: int, color: Color, r: nat, c: nat)
    requires ViewOk(v) && r < v.height && c < v.width
    requires ClipScroll(v.width, v.height, x, y, w, h, incX, incY).Scrolling?
    ensures var g := ClipScroll(v.width, v.height, x, y, w, h, incX, incY).g;
      CellMoved(Visible(v), Visible(ScrollView(v, x, y, w, h, incX, incY, color)), g, incX, incY,
        ScrollFill(v, g, incX, color), r, c)
    ensures var u := ScrollView(v, x, y, w, h, incX, incY, color); u.x == v.x && u.y == v.y
  {
    hide ClipScroll, PushHistory, ShiftRegion, CellMoved;
    var g := ClipScroll(v.width, v.height, x, y, w, h, incX, incY).g;
    if incX == 0 && g.x == 0 && g.w == v.width && incY < 0 && !v.alternate && g.y == -incY && g.h == v.height + incY {
      HistoryCell(v, g, incY, r, c);
    } else {
      ShiftedCell(v, g, incX, incY, ScrollFill(v, g, incX, color), r, c);
    }
  }

  lemma HistoryCell(v: View, g: Region, incY: int, r: nat, c: nat)
    requires ViewOk(v) && r < v.height && c < v.width && 0 <= v.height + incY && incY < 0
      && g == Region(0, -incY, v.width, v.height + incY)
    ensures var lines := PushHistory(v.lines, v.width, v.height, -incY);
      |lines| >= v.height && CellMoved(Visible(v), lines[|lines| - v.height..], g, 0, incY, BLANK, r, c)
  {
    hide PushHistory, LastAtMost;
    HistorySplits(v.lines, v.width, v.height, -incY);
    var lines := PushHistory(v.lines, v.width, v.height, -incY);
    var after := v.lines[v.Scrollback() - incY..] + BlankLines(-incY, v.width);
    assert after[r] == if r < v.height + incY then Visible(v)[r - incY] else Repeat(BLANK, v.width);
  }

  lemma ShiftedCell(v: View, g: Region, incX: int, incY: int, fill: Cell, r: nat, c: nat)
    requires ViewOk(v) && g.Within(v.width, v.height) && g.Moved(incX, incY).Within(v.width, v.height) && r < v.height
      && c < v.width
    ensures var lines := ShiftRegion(v.lines, v.width, g.Moved(0, v.Scrollback()), incX, incY, fill);
      CellMoved(Visible(v), lines[v.Scrollback()..], g, incX, incY, fill, r, c)
  {
    assert Vacated(g.Moved(0, v.Scrollback()), incX, incY, v.Scrollback() + r, c) == Vacated(g, incX, incY, r, c);
  }

  // ---- Lines ----

  /** Lines [y, y + h) of the screen move up by n, over the n lines above them. The visible result is the
      same whether the lines pushed out are kept in the history or not. */
  lemma LinesUp(v: View, y: nat, h: nat, n: int, color: Color)
    requires ViewOk(v) && 0 < n <= y && y + h <= v.height
    ensures Visible(ScrollView(v, 0, y, v.width, h, 0, -n, color))
         == Visible(v)[..y - n] + Visible(v)[y..y + h] + BlankLines(n, v.width) + Visible(v)[y + h..]
    ensures History(ScrollView(v, 0, y, v.width, h, 0, -n, color))
         == if !v.alternate && y == n && h == v.height - n
           then LastAtMost(History(v) + Visible(v)[..n], 500) else History(v)
  {
    hide ViewOk, LinesOk, BlankLines, ScrollView, ShiftRegion, PushHistory;
    ViewLines(v);
    if !v.alternate && y == n && h == v.height - n {
      ScrollsWhole(v, n, color);
      WholeScreenUp(v, n);
    } else {
      ScrollsPart(v, y, h, n, color);
      ShiftUp(v.lines, v.width, v.Scrollback(), y, h, n);
    }
  }

  lemma ScrollsWhole(v: View, n: int, color: Color)
    requires ViewOk(v) && 0 < n <= v.height && !v.alternate
    ensures ScrollView(v, 0, n, v.width, v.height - n, 0, -n, color)
      == v.(lines := PushHistory(v.lines, v.width, v.height, n))
  {
    hide PushHistory, LinesOk;
    ClipLines(v, n, v.height - n, -n);
  }

  lemma ScrollsPart(v: View, y: nat, h: nat, n: int, color: Color)
    requires ViewOk(v) && 0 < n <= y && y + h <= v.height && (v.alternate || y != n || h != v.height - n)
    ensures ScrollView(v, 0, y, v.width, h, 0, -n, color)
         == v.(lines := ShiftRegion(v.lines, v.width, Region(0, y + v.Scrollback(), v.width, h), 0, -n, BLANK))
  {
    hide ShiftRegion, LinesOk;
    ClipLines(v, y, h, -n);
  }

  lemma ClipLines(v: View, y: nat, h: nat, incY: int)
    requires ViewOk(v) && y + h <= v.height && 0 <= y + incY && y + h + incY <= v.height
    ensures ClipScroll(v.width, v.height, 0, y, v.width, h, 0, incY) == Scrolling(Region(0, y, v.width, h))
  {
  }

  lemma WholeScreenUp(v: View, n: nat)
    requires ViewOk(v) && 0 < n <= v.height && !v.alternate
    ensures var r := PushHistory(v.lines, v.width, v.height, n);
      && |r| >= v.height
      && r[|r| - v.height..] == Visible(v)[..0] + Visible(v)[n..v.height] + BlankLines(n, v.width)
        + Visible(v)[v.height..]
      && r[..|r| - v.height] == LastAtMost(History(v) + Visible(v)[..n], 500)
  {
    hide PushHistory, LastAtMost;
    HistorySplits(v.lines, v.width, v.height, n);
    assert Visible(v)[..0] + Visible(v)[n..v.height] == v.lines[v.Scrollback() + n..];
    assert Visible(v)[..n] == v.lines[v.Scrollback()..v.Scrollback() + n];
  }

  lemma ShiftUp(lines: seq<Line>, width: nat, sb: nat, y: nat, h: nat, n: int)
    requires LinesOk(lines, width) && 0 < n <= y && sb + y + h <= |lines|
    ensures var r := ShiftRegion(lines, width, Region(0, y + sb, width, h), 0, -n, BLANK);
      && r[sb..] == lines[sb..][..y - n] + lines[sb..][y..y + h] + BlankLines(n, width) + lines[sb..][y + h..]
      && r[..sb] == lines[..sb]
  {
    hide ShiftRegion;
    var r := ShiftRegion(lines, width, Region(0, y + sb, width, h), 0, -n, BLANK);
    forall i | 0 <= i < |lines|
      ensures r[i] == if i < sb then lines[i] else
        (lines[sb..][..y - n] + lines[sb..][y..y + h] + BlankLines(n, width) + lines[sb..][y + h..])[i - sb]
    {
      ShiftWholeLines(lines, width, y + sb, h, -n, i);
    }
  }

  lemma LinesDown(v: View, y: nat, h: nat, n: nat, color: Color)
    requires ViewOk(v) && 0 < n && y + h + n <= v.height
    ensures Visible(ScrollView(v, 0, y, v.width, h, 0, n, color))
         == Visible(v)[..y] + BlankLines(n, v.width) + Visible(v)[y..y + h] + Visible(v)[y + h + n..]
    ensures History(ScrollView(v, 0, y, v.width, h, 0, n, color)) == History(v)
  {
    hide ShiftRegion, PushHistory, LastAtMost, ViewOk, LinesOk, BlankLines;
    ViewLines(v);
    ClipLines(v, y, h, n);
    hide ClipScroll;
    ShiftDown(v.lines, v.width, v.Scrollback(), y, h, n);
  }

  lemma ShiftDown(lines: seq<Line>, width: nat, sb: nat, y: nat, h: nat, n: nat)
    requires LinesOk(lines, width) && 0 < n && sb + y + h + n <= |lines|
    ensures var r := ShiftRegion(lines, width, Region(0, y + sb, width, h), 0, n, BLANK);
      && r[sb..] == lines[sb..][..y] + BlankLines(n, width) + lines[sb..][y..y + h] + lines[sb..][y + h + n..]
      && r[..sb] == lines[..sb]
  {
    hide ShiftRegion;
    var r := ShiftRegion(lines, width, Region(0, y + sb, width, h), 0, n, BLANK);
    forall i | 0 <= i < |lines|
      ensures r[i] == if i < sb then lines[i] else
        (lines[sb..][..y] + BlankLines(n, width) + lines[sb..][y..y + h] + lines[sb..][y + h + n..])[i - sb]
    {
      ShiftWholeLines(lines, width, y + sb, h, n, i);
    }
  }

  /** "Insert lines" puts n blank lines before the cursor's; the last n above the bottom margin are lost. */
  lemma InsertLines(t: Term, number: nat)
    requires TermOk(t) && t.v.y < t.bottom
    ensures var n, s := Count(number, t.bottom - t.v.y), Visible(t.v);
      && Visible(CsiL(t, number).v) == s[..t.v.y] + BlankLines(n, t.v.width) + s[t.v.y..t.bottom - n] + s[t.bottom..]
      && History(CsiL(t, number).v) == History(t.v)
  {
    hide ViewOk, UtfOk, ScrollView;
    var n := Count(number, t.bottom - t.v.y);
    LinesDown(t.v, t.v.y, t.bottom - t.v.y - n, n, t.pen.color);
  }

  /** "Delete lines" removes n lines from the cursor's on; n blank lines come in at the bottom margin. The deleted
      lines go to the history exactly when they are the first ones of a main screen without margins. */
  lemma DeleteLines(t: Term, number: nat)
    requires TermOk(t) && t.v.y < t.bottom
    ensures var n, s := Count(number, t.bottom - t.v.y), Visible(t.v);
      && Visible(CsiM(t, number).v) == s[..t.v.y] + s[t.v.y + n..t.bottom] + BlankLines(n, t.v.width) + s[t.bottom..]
      && History(CsiM(t, number).v) ==
        if !t.v.alternate && t.v.y == 0 && t.bottom == t.v.height then LastAtMost(History(t.v) + s[..n], 500)
        else History(t.v)
  {
    hide ViewOk, UtfOk, ScrollView, History, LastAtMost, LinesOk, BlankLines;
    var n := Count(number, t.bottom - t.v.y);
    LinesUp(t.v, t.v.y + n, t.bottom - t.v.y - n, n, t.pen.color);
  }

  /** Deleting the lines just inserted brings back all but the lost ones. */
  lemma DeleteUndoesInsert(t: Term, number: nat)
    requires TermOk(t) && t.v.y < t.bottom
    ensures var n, s := Count(number, t.bottom - t.v.y), Visible(t.v);
      Visible(CsiM(CsiL(t, number), number).v) == s[..t.bottom - n] + BlankLines(n, t.v.width) + s[t.bottom..]
  {
    hide ViewOk, UtfOk, ScrollView, History, LastAtMost, LinesOk, BlankLines;
    var n, s := Count(number, t.bottom - t.v.y), Visible(t.v);
    var u := CsiL(t, number);
    assert u.v.y == t.v.y && u.bottom == t.bottom && u.v.width == t.v.width by {
      ScrollKeepsSize(t.v, 0, t.v.y, t.v.width, t.bottom - t.v.y - n, 0, n, t.pen.color);
    }
    InsertLines(t, number);
    DeleteLines(u, number);
    LinesInsertedAndDeleted(s, Visible(u.v), t.v.y, t.bottom, n, BlankLines(n, t.v.width));
  }

  lemma LinesInsertedAndDeleted<T>(s: seq<T>, p: seq<T>, y: nat, b: nat, n: int, blanks: seq<T>)
    requires 0 <= n && y + n <= b <= |s| && |blanks| == n && p == s[..y] + blanks + s[y..b - n] + s[b..]
    ensures |p| == |s| && p[..y] + p[y + n..b] + blanks + p[b..] == s[..b - n] + blanks + s[b..]
  {
    assert p[y + n..b] == s[y..b - n];
    assert s[..y] + s[y..b - n] == s[..b - n];
    assert p[..y] == s[..y] && p[b..] == s[b..];
  }

  /** A line feed on the last line of the margins moves the lines inside them up. */
  lemma LineFeedAtBottom(t: Term)
    requires TermOk(t) && t.v.y == t.bottom - 1
    ensures var s := Visible(t.v);
      Visible(LineFeed(t).v) == s[..t.top] + s[t.top + 1..t.bottom] + BlankLines(1, t.v.width) + s[t.bottom..]
    ensures LineFeed(t).v.x == t.v.x && LineFeed(t).v.y == t.v.y
  {
    hide ViewOk, UtfOk, ScrollView;
    LinesUp(t.v, t.top + 1, t.bottom - t.top - 1, 1, t.pen.color);
  }

  /** A reverse line feed on their first line moves them down. */
  lemma ReverseFeedAtTop(t: Term)
    requires TermOk(t) && t.v.y == t.top
    ensures var s := Visible(t.v);
      Visible(ReverseFeed(t).v) == s[..t.top] + BlankLines(1, t.v.width) + s[t.top..t.bottom - 1] + s[t.bottom..]
    ensures History(ReverseFeed(t).v) == History(t.v) && ReverseFeed(t).v.x == t.v.x && ReverseFeed(t).v.y == t.v.y
  {
    hide ViewOk, UtfOk, ScrollView;
    LinesDown(t.v, t.top, t.bottom - t.top - 1, 1, t.pen.color);
  }

  // ---- Cells of the cursor's line ----

  function CursorLine(v: View): (line: Line)
    requires ViewOk(v)
    ensures |line| == v.width
  {
    v.lines[v.Scrollback() + v.y]
  }

  function WithCursorLine(v: View, line: Line): (r: seq<Line>)
    requires ViewOk(v) && |line| == v.width
  {
    v.lines[v.Scrollback() + v.y := line]
  }

  function Fill(t: Term): Cell { Cell(SPACE, Look(t.pen.color), Plain) }

  function Deleted(line: Line, x: nat, n: nat, fill: Cell): (r: Line)
    requires x + n <= |line|
    ensures |r| == |line|
  {
    line[..x] + line[x + n..] + Repeat(fill, n)
  }

  function Inserted(line: Line, x: nat, n: nat, fill: Cell): (r: Line)
    requires x + n <= |line|
    ensures |r| == |line|
  {
    line[..x] + Repeat(fill, n) + line[x..|line| - n]
  }

  lemma ShiftInLine(lines: seq<Line>, width: nat, row: nat, x: nat, w: nat, incX: int, fill: Cell)
    requires LinesOk(lines, width) && row < |lines| && 0 < w && x + w <= width && 0 <= x + incX
      && x + w + incX <= width && incX != 0
    requires incX < 0 ==> x + w == width
    requires incX > 0 ==> x + w + incX == width
    ensures ShiftRegion(lines, width, Region(x, row, w, 1), incX, 0, fill)
         == lines[row := if incX < 0 then Deleted(lines[row], x + incX, -incX, fill)
           else Inserted(lines[row], x, incX, fill)]
  {
    var g := Region(x, row, w, 1);
    var r := ShiftRegion(lines, width, g, incX, 0, fill);
    var line := if incX < 0 then Deleted(lines[row], x + incX, -incX, fill) else Inserted(lines[row], x, incX, fill);
    forall i | 0 <= i < |lines| ensures r[i] == lines[row := line][i] {
      if i == row {
        assert |lines[row]| == width;
        assert r[i] == line;
      }
    }
  }

  lemma ScrollInLine(v: View, x: nat, w: int, incX: int, color: Color)
    requires ViewOk(v) && incX != 0 && 0 <= w && x + w <= v.width && 0 <= x + incX && x + w + incX <= v.width
    requires incX < 0 ==> x + w == v.width
    requires incX > 0 ==> x + w + incX == v.width
    ensures var fill, line := Cell(SPACE, Look(color), Plain), CursorLine(v);
      ScrollView(v, x, v.y, w, 1, incX, 0, color).lines
      == if w == 0 then v.lines
         else if incX < 0 then WithCursorLine(v, Deleted(line, x + incX, -incX, fill))
         else WithCursorLine(v, Inserted(line, x, incX, fill))
  {
    hide ShiftRegion, PushHistory;
    if w > 0 {
      assert ClipScroll(v.width, v.height, x, v.y, w, 1, incX, 0) == Scrolling(Region(x, v.y, w, 1));
      ShiftInLine(v.lines, v.width, v.Scrollback() + v.y, x, w, incX, Cell(SPACE, Look(color), Plain));
    }
  }

  predicate AllFrom(line: Line, x: nat, c: Cell) {
    forall i :: x <= i < |line| ==> line[i] == c
  }

  /** "Delete characters" deletes n characters, exactly when the count does not reach the end of the line
      (or there is nothing to delete but blanks): otherwise the scroller finds nothing to move and leaves. */
  lemma DeleteCharactersIff(t: Term, number: nat)
    requires TermOk(t)
    ensures var x, n, line := t.v.x, Count(number, t.v.width - t.v.x), CursorLine(t.v);
      CsiP(t, number).v.lines == WithCursorLine(t.v, Deleted(line, x, n, Fill(t)))
      <==> x + n < t.v.width || AllFrom(line, x, Fill(t))
    ensures t.v.x + Count(number, t.v.width - t.v.x) == t.v.width ==> CsiP(t, number) == t
  {
    hide UtfOk, ScrollView;
    var x, n, line := t.v.x, Count(number, t.v.width - t.v.x), CursorLine(t.v);
    var w, fill := t.v.width - x - n, Fill(t);
    ScrollInLine(t.v, x + n, w, -n, t.pen.color);
    ScrollKeepsSize(t.v, x + n, t.v.y, w, 1, -n, 0, t.pen.color);
    if w == 0 {
      hide ViewOk;
      assert Deleted(line, x, n, fill) == line[..x] + Repeat(fill, n);
      SameTail(line, x, fill);
      ReplaceLine(t.v, Deleted(line, x, n, fill));
    }
  }

  /** "Insert characters" inserts n blanks, exactly when they do not reach the end of the line (or they
      would replace blanks only). */
  lemma InsertCharactersIff(t: Term, number: nat)
    requires TermOk(t)
    ensures var x, n, line := t.v.x, Count(number, t.v.width - t.v.x), CursorLine(t.v);
      CsiAt(t, number).v.lines == WithCursorLine(t.v, Inserted(line, x, n, Fill(t)))
      <==> x + n < t.v.width || AllFrom(line, x, Fill(t))
  {
    hide UtfOk, ScrollView;
    var x, n, line := t.v.x, Count(number, t.v.width - t.v.x), CursorLine(t.v);
    var w, fill := t.v.width - x - n, Fill(t);
    ScrollInLine(t.v, x, w, n, t.pen.color);
    if w == 0 {
      hide ViewOk;
      assert Inserted(line, x, n, fill) == line[..x] + Repeat(fill, n);
      SameTail(line, x, fill);
      ReplaceLine(t.v, Inserted(line, x, n, fill));
    }
  }

  lemma SameTail(line: Line, x: nat, c: Cell)
    requires x <= |line|
    ensures line == line[..x] + Repeat(c, |line| - x) <==> AllFrom(line, x, c)
  {
    var other := line[..x] + Repeat(c, |line| - x);
    if AllFrom(line, x, c) {
      assert line == other;
    } else {
      var i :| x <= i < |line| && line[i] != c;
      assert other[i] == c;
    }
  }

  lemma ReplaceLine(v: View, line: Line)
    requires ViewOk(v) && |line| == v.width
    ensures v.lines == WithCursorLine(v, line) <==> CursorLine(v) == line
  {
    var row := v.Scrollback() + v.y;
    assert WithCursorLine(v, line)[row] == line;
  }

  /** Deleting the characters just inserted brings back the line but for the ones pushed over its end. */
  lemma DeleteUndoesInsertCharacters(t: Term, number: nat)
    requires TermOk(t) && t.v.x + Count(number, t.v.width - t.v.x) < t.v.width
    ensures var n, line := Count(number, t.v.width - t.v.x), CursorLine(t.v);
      CsiP(CsiAt(t, number), number).v.lines == WithCursorLine(t.v, line[..t.v.width - n] + Repeat(Fill(t), n))
  {
    hide ViewOk, UtfOk, ScrollView, CsiP, CursorLine, WithCursorLine;
    var x, n, line := t.v.x, Count(number, t.v.width - t.v.x), CursorLine(t.v);
    InsertCharactersIff(t, number);
    var u := CsiAt(t, number);
    ScrollKeepsSize(t.v, x, t.v.y, t.v.width - x - n, 1, n, 0, t.pen.color);
    DeleteCharactersIff(u, number);
    WriteCursorLine(t.v, u.v, Inserted(line, x, n, Fill(t)));
    var once := Inserted(line, x, n, Fill(t));
    DeletedInserted(line, x, n, Fill(t));
    WriteTwice(t.v, u.v, once, Deleted(once, x, n, Fill(t)));
  }

  lemma DeletedInserted(line: Line, x: nat, n: nat, fill: Cell)
    requires x + n <= |line|
    ensures Deleted(Inserted(line, x, n, fill), x, n, fill) == line[..|line| - n] + Repeat(fill, n)
  {
    var once := Inserted(line, x, n, fill);
    assert once[x + n..] == line[x..|line| - n];
    assert once[..x] == line[..x];
    assert line[..x] + line[x..|line| - n] == line[..|line| - n];
  }

  /** In insert mode a character pushes the rest of its line to the right; the last character is lost. */
  lemma InsertModePrints(t: Term, u: CodeUnit)
    requires TermOk(t) && t.m.insert && !t.needWrap
    ensures var x, line := t.v.x, CursorLine(t.v);
      Print(t, u).v.lines == WithCursorLine(t.v,
        line[..x] + [Glyph(u, t.pen.color, t.pen.style)] + line[x..t.v.width - 1])
  {
    hide ViewOk, UtfOk, ScrollView, CursorLine, WithCursorLine;
    var x, line := t.v.x, CursorLine(t.v);
    CursorInside(t.v);
    if x == t.v.width - 1 {
      PutCharLine(t, u);
      NoRoomToInsert(t);
      assert line[x..x] == line[x + 1..] == [];
    } else {
      InsertModeShifts(t, u);
    }
  }

  lemma CursorInside(v: View)
    requires ViewOk(v)
    ensures v.x < v.width
  {
  }

  lemma NoRoomToInsert(t: Term)
    requires TermOk(t) && !t.needWrap && t.v.x == t.v.width - 1
    ensures BeforeChar(t) == t
  {
    hide ViewOk, UtfOk, ShiftRegion, PushHistory;
  }

  lemma InsertModeShifts(t: Term, u: CodeUnit)
    requires TermOk(t) && t.m.insert && !t.needWrap && t.v.x < t.v.width - 1
    ensures var x, line := t.v.x, CursorLine(t.v);
      Print(t, u).v.lines == WithCursorLine(t.v,
        line[..x] + [Glyph(u, t.pen.color, t.pen.style)] + line[x..t.v.width - 1])
  {
    hide ViewOk, UtfOk, ScrollView, CursorLine, WithCursorLine;
    var x, line := t.v.x, CursorLine(t.v);
    ScrollInLine(t.v, x, t.v.width - x - 1, 1, t.pen.color);
    ScrollKeepsSize(t.v, x, t.v.y, t.v.width - x - 1, 1, 1, 0, t.pen.color);
    var b := BeforeChar(t);
    var widened := Inserted(line, x, 1, Fill(t));
    WriteCursorLine(t.v, b.v, widened);
    PutCharLine(b, u);
    var cell := Glyph(u, t.pen.color, t.pen.style);
    assert widened[..x] + [cell] + widened[x + 1..] == line[..x] + [cell] + line[x..t.v.width - 1];
    WriteTwice(t.v, b.v, widened, widened[..x] + [cell] + widened[x + 1..]);
  }

  /** A character replaces the cell at the cursor. */
  lemma PutCharLine(t: Term, u: CodeUnit)
    requires TermOk(t)
    ensures var x, line := t.v.x, CursorLine(t.v);
      PutChar(t, u).v.lines == WithCursorLine(t.v, line[..x] + [Glyph(u, t.pen.color, t.pen.style)] + line[x + 1..])
  {
    hide UtfOk;
    assert Paint([u], t.pen.color, t.pen.style) == [Glyph(u, t.pen.color, t.pen.style)];
  }

  lemma WriteCursorLine(v: View, r: View, line: Line)
    requires ViewOk(v) && |line| == v.width && ViewOk(r) && r == v.(lines := r.lines)
      && r.lines == WithCursorLine(v, line)
    ensures CursorLine(r) == line
  {
  }

  lemma WriteTwice(v: View, r: View, line: Line, again: Line)
    requires ViewOk(v) && |line| == |again| == v.width && ViewOk(r) && r == v.(lines := r.lines)
      && r.lines == WithCursorLine(v, line)
    ensures WithCursorLine(r, again) == WithCursorLine(v, again)
  {
  }

  // ---- Erasing ----

  /** The lines with everything from the cursor to the end of the screen replaced. */
  function ErasedBelow(v: View, fill: Cell): (r: seq<Line>)
    requires ViewOk(v)
    ensures |r| == |v.lines| && LinesOk(r, v.width)
  {
    var row := v.Scrollback() + v.y;
    seq(|v.lines|, i requires 0 <= i < |v.lines| =>
      seq(v.width, j requires 0 <= j < v.width => if i > row || (i == row && j >= v.x) then fill else v.lines[i][j]))
  }

  /** "Erase in display" from the cursor on erases everything from the cursor on, exactly when the cursor is
      not on the last line but one, or the last line is blank already: that line is forgotten. */
  lemma EraseBelowIff(t: Term)
    requires TermOk(t)
    ensures var fill := Cell(SPACE, Look(t.pen.color), t.pen.style);
      CsiJ(t, 0).v.lines == ErasedBelow(t.v, fill)
      <==> t.v.y != t.v.height - 2 || AllFrom(t.v.lines[|t.v.lines| - 1], 0, fill)
  {
    hide UtfOk, FillRegion, ErasedBelow, AllFrom;
    var v, fill := t.v, Cell(SPACE, Look(t.pen.color), t.pen.style);
    var row := v.Scrollback() + v.y;
    var one := FillRegion(v.lines, v.width, Region(v.x, row, v.width - v.x, 1), fill);
    if v.y < v.height - 2 {
      assert CsiJ(t, 0).v.lines == FillRegion(one, v.width, Region(0, row + 1, v.width, v.height - v.y - 1), fill);
      TwoFills(v, fill);
    } else {
      assert CsiJ(t, 0).v.lines == one;
      OneFill(v, fill);
    }
  }

  lemma TwoFills(v: View, fill: Cell)
    requires ViewOk(v)
    ensures var row := v.Scrollback() + v.y;
      var one := FillRegion(v.lines, v.width, Region(v.x, row, v.width - v.x, 1), fill);
      FillRegion(one, v.width, Region(0, row + 1, v.width, v.height - v.y - 1), fill) == ErasedBelow(v, fill)
  {
    var row := v.Scrollback() + v.y;
    var one := FillRegion(v.lines, v.width, Region(v.x, row, v.width - v.x, 1), fill);
    var two := FillRegion(one, v.width, Region(0, row + 1, v.width, v.height - v.y - 1), fill);
    forall i | 0 <= i < |v.lines| ensures two[i] == ErasedBelow(v, fill)[i] {
    }
  }

  lemma OneFill(v: View, fill: Cell)
    requires ViewOk(v) && v.y >= v.height - 2
    ensures FillRegion(v.lines, v.width, Region(v.x, v.Scrollback() + v.y, v.width - v.x, 1), fill)
      == ErasedBelow(v, fill)
      <==> v.y == v.height - 1 || AllFrom(v.lines[|v.lines| - 1], 0, fill)
  {
    var row, last := v.Scrollback() + v.y, |v.lines| - 1;
    var one, e := FillRegion(v.lines, v.width, Region(v.x, row, v.width - v.x, 1), fill), ErasedBelow(v, fill);
    forall i | 0 <= i <= row ensures one[i] == e[i] {
    }
    if row < last {
      assert one[last] == v.lines[last] && e[last] == Repeat(fill, v.width);
      SameTail(v.lines[last], 0, fill);
      assert v.lines[last][..0] + Repeat(fill, v.width) == Repeat(fill, v.width);
    }
  }

  /** "Erase in display" up to the cursor erases everything up to and including the cursor. */
  lemma EraseAbove(t: Term, i: nat, j: nat)
    requires TermOk(t) && i < |t.v.lines| && j < t.v.width
    ensures var row := t.v.Scrollback() + t.v.y;
      CsiJ(t, 1).v.lines[i][j] ==
        if t.v.Scrollback() <= i && (i < row || (i == row && j <= t.v.x))
          then Cell(SPACE, Look(t.pen.color), t.pen.style)
        else t.v.lines[i][j]
  {
    hide UtfOk, FillRegion;
    var v, fill := t.v, Cell(SPACE, Look(t.pen.color), t.pen.style);
    var row := v.Scrollback() + v.y;
    if v.y > 0 {
      var one := FillRegion(v.lines, v.width, Region(0, v.Scrollback(), v.width, v.y), fill);
      assert CsiJ(t, 1).v.lines == FillRegion(one, v.width, Region(0, row, v.x + 1, 1), fill);
      FilledCell(v.lines, v.width, Region(0, v.Scrollback(), v.width, v.y), fill, i, j);
      FilledCell(one, v.width, Region(0, row, v.x + 1, 1), fill, i, j);
    } else {
      FilledCell(v.lines, v.width, Region(0, row, v.x + 1, 1), fill, i, j);
    }
  }

  /** "Erase in display" of all of the display erases it and keeps the history. */
  lemma EraseAll(t: Term, i: nat, j: nat)
    requires TermOk(t) && i < |t.v.lines| && j < t.v.width
    ensures CsiJ(t, 2).v.lines[i][j] == if t.v.Scrollback() <= i then Cell(SPACE, Look(t.pen.color), t.pen.style)
      else t.v.lines[i][j]
  {
    hide UtfOk;
  }

  /** A new terminal with one column and two lines, the letter A on line `row`, the cursor on the first line. */
  function LetterA(fonts: Fonts, row: nat): (t: Term)
    requires row < 2
    ensures TermOk(t)
  {
    var a := Cell(0x41, DEFAULT_COLOR, Plain);
    var t := Initial(1, 2, fonts, false);
    t.(v := t.v.(lines := if row == 0 then [[a], [BLANK]] else [[BLANK], [a]]))
  }

  /** "Erase in display" leaves the letter on the last line. */
  lemma LetterNotErased(fonts: Fonts)
    ensures CsiJ(LetterA(fonts, 1), 0).v.lines == [[BLANK], [Cell(0x41, DEFAULT_COLOR, Plain)]]
  {
    hide UtfOk;
    var t := LetterA(fonts, 1);
    hide LetterA;
    var r := CsiJ(t, 0).v.lines;
    assert |r| == 2 && r[0][0] == BLANK && r[1][0] == t.v.lines[1][0] && LinesOk(r, 1);
    OneColumn(r);
  }

  lemma OneColumn(r: seq<Line>)
    requires |r| == 2 && LinesOk(r, 1)
    ensures r == [[r[0][0]], [r[1][0]]]
  {
    assert r[0] == [r[0][0]] && r[1] == [r[1][0]];
  }

  /** "Delete characters" leaves the letter in the last column. */
  lemma LetterNotDeleted(fonts: Fonts)
    ensures CsiP(LetterA(fonts, 0), 1).v.lines == [[Cell(0x41, DEFAULT_COLOR, Plain)], [BLANK]]
  {
    hide UtfOk, CsiP;
    DeleteCharactersIff(LetterA(fonts, 0), 1);
  }

  // ---- Running text ----

  /** Printable characters one after the other. */
  function Prints(t: Term, us: seq<CodeUnit>): (r: Term)
    requires TermOk(t)
    ensures TermOk(r)
  {
    if us == [] then t else Print(Prints(t, us[..|us| - 1]), us[|us| - 1])
  }

  /** Text typed over the rest of a line: it replaces the cells it covers, the cursor goes behind it, and filling
      the last column leaves a wrap pending. */
  function Typed(t: Term, us: seq<CodeUnit>): (r: Term)
    requires TermOk(t) && us != [] && t.v.x + |us| <= t.v.width
    ensures TermOk(r)
  {
    hide UtfOk;
    var v := t.v.(lines := PutCells(t.v.lines, t.v.Scrollback() + t.v.y, t.v.x, Paint(us, t.pen.color, t.pen.style)),
                  x := Min(t.v.x + |us|, t.v.width - 1));
    t.(v := v, needWrap := t.v.x + |us| == t.v.width && t.m.autoWrap, lastChar := us[|us| - 1])
  }

  /** Text that fits is typed there. */
  lemma {:induction false} TextInLine(t: Term, us: seq<CodeUnit>)
    requires TermOk(t) && !t.m.insert && !t.needWrap && t.v.x + |us| <= t.v.width && us != []
    ensures Prints(t, us) == Typed(t, us)
  {
    hide ViewOk, UtfOk, Typed, PutChar, Print;
    var n := |us| - 1;
    if n == 0 {
      assert us == [us[0]] && us[..0] == [];
      PrintPlain(t, us[0]);
      TypedOne(t, us[0]);
    } else {
      TextInLine(t, us[..n]);
      TypedMore(t, us);
      PrintPlain(Typed(t, us[..n]), us[n]);
    }
  }

  lemma PrintPlain(t: Term, u: CodeUnit)
    requires TermOk(t) && !t.m.insert && !t.needWrap
    ensures Print(t, u) == PutChar(t, u)
  {
    hide ViewOk, UtfOk, PutChar;
  }

  lemma TypedOne(t: Term, u: CodeUnit)
    requires TermOk(t) && !t.needWrap && t.v.x + 1 <= t.v.width
    ensures PutChar(t, u) == Typed(t, [u])
  {
    hide UtfOk, PutCells, Paint, LinesOk;
  }

  lemma TypedMore(t: Term, us: seq<CodeUnit>)
    requires TermOk(t) && |us| > 1 && t.v.x + |us| <= t.v.width
    ensures var w := Typed(t, us[..|us| - 1]);
      !w.needWrap && w.m == t.m && PutChar(w, us[|us| - 1]) == Typed(t, us)
  {
    hide UtfOk, PutCells, Paint, LinesOk;
    var n := |us| - 1;
    var row := t.v.Scrollback() + t.v.y;
    LineWidth(t.v.lines, t.v.width, row);
    PutCellsAppend(t.v.lines, row, t.v.x, Paint(us[..n], t.pen.color, t.pen.style),
      Paint([us[n]], t.pen.color, t.pen.style));
    PaintSplit(us, n, t.pen.color, t.pen.style);
  }

  lemma PaintSplit(us: seq<CodeUnit>, n: nat, color: Color, style: Style)
    requires n < |us|
    ensures Paint(us[..n], color, style) + Paint([us[n]], color, style) == Paint(us[..n + 1], color, style)
    ensures us[..|us|] == us
  {
  }

  /** The line that the cursor is on when it returns to the first column: in origin mode one inside the margins. */
  function ReturnLine(t: Term): int {
    if t.m.offset then Max(Min(t.v.y, t.bottom - 1), t.top) else t.v.y
  }

  /** The character behind a full line goes to the beginning of the next one; at the bottom margin the lines move
      up first, as a line feed makes them, and on the last line of the screen below the margins it stays there. */
  lemma TextWraps(t: Term, u: CodeUnit)
    requires TermOk(t) && !t.m.insert && t.needWrap
    ensures var r, y, fed := Print(t, u), ReturnLine(t), LineFeed(Cr(t));
      && r.v.x == Min(1, t.v.width - 1)
      && r.v.y == (if y == t.bottom - 1 || y == t.v.height - 1 then y else y + 1) < r.v.height
      && (y != t.bottom - 1 ==> fed.v.lines == t.v.lines)
      && r.v.lines == PutCells(fed.v.lines, fed.v.Scrollback() + r.v.y, 0, Paint([u], t.pen.color, t.pen.style))
  {
    hide ViewOk, UtfOk, Paint, Put, ScrollView;
    var fed := LineFeed(Cr(t));
    Fed(t);
    PutAtCursor(fed, u);
  }

  lemma Fed(t: Term)
    requires TermOk(t)
    ensures var fed, y := LineFeed(Cr(t)), ReturnLine(t);
      && fed == t.(v := fed.v, needWrap := false) && fed.v.x == 0 && fed.v.width == t.v.width
      && fed.v.height == t.v.height
      && fed.v.y == (if y == t.bottom - 1 || y == t.v.height - 1 then y else y + 1)
      && (y != t.bottom - 1 ==> fed.v.lines == t.v.lines)
  {
    hide UtfOk, ScrollView, LinesOk;
    ScrollKeepsSize(Cr(t).v, 0, t.top + 1, t.v.width, t.bottom - t.top - 1, 0, -1, t.pen.color);
  }

  lemma PutAtCursor(t: Term, u: CodeUnit)
    requires TermOk(t)
    ensures var r := PutChar(t, u);
      && r.v.x == Min(t.v.x + 1, t.v.width - 1) && r.v.y == t.v.y < r.v.height
      && r.v.lines == PutCells(t.v.lines, t.v.Scrollback() + t.v.y, t.v.x, Paint([u], t.pen.color, t.pen.style))
  {
    hide UtfOk, PutCells, Paint;
  }

  // ---- Moving and resetting ----

  function Distance(a: int, b: int): nat { if a < b then b - a else a - b }

  /** The cursor goes to the allowed position that is nearest to the one asked for: inside the screen, and in
      origin mode inside the margins. */
  lemma GoesToNearest(t: Term, x: int, y: int, column: nat, line: nat)
    requires TermOk(t) && column < t.v.width
    requires if t.m.offset then t.top <= line < t.bottom else line < t.v.height
    ensures var r := GotoXY(t, x, y);
      && r.v == t.v.(x := r.v.x, y := r.v.y) && !r.needWrap
      && (if t.m.offset then t.top <= r.v.y < t.bottom else r.v.y < t.v.height)
      && Distance(r.v.x, x) <= Distance(column, x) && Distance(r.v.y, y) <= Distance(line, y)
  {
    hide UtfOk;
  }

  /** A reset leaves the main screen, blank, with the cursor in its first column and line, and all modes, margins
      and tab stops as in the beginning; only the history and what was saved remain. */
  lemma ResetClears(t: Term)
    requires TermOk(t)
    ensures var r, n := Reset(t), Initial(t.v.width, t.v.height, t.env.fonts, t.env.utf);
      && r == n.(v := r.v, g := r.g, pen := r.pen, p := t.p, saved := t.saved)
      && !r.v.alternate && r.v.x == 0 && r.v.y == 0
      && forall i :: 0 <= i < r.v.height ==>
        Visible(r.v)[i] == Repeat(Cell(SPACE, Look(r.pen.color), r.pen.style), r.v.width)
  {
    hide UtfOk, Clear, ColorOf;
    var w := GotoXY(EnableAlternateScreen(ResetModes(t), false), 0, 0);
    hide ViewOk;
    ClearedScreen(w.v, w.pen.color, w.pen.style);
  }

  /** Attributes and character sets are those of a new terminal if and only if the main screen was shown, or
      nothing else had been saved with it: leaving the alternate screen restores after the reset. */
  lemma ResetIsNewIff(t: Term)
    requires TermOk(t)
    ensures Reset(t).pen == DEFAULT_PEN && Reset(t).g == DEFAULT_GLYPHS <==>
      || !t.v.alternate || t.saved.main.NothingSaved?
      || (t.saved.main.attr == DEFAULT_ATTR && t.saved.useG == 0 && t.saved.gmap == DEFAULT_GLYPHS.gmap)
  {
    hide UtfOk, Clear, ColorOf, ViewOk;
    DefaultColors();
  }

  lemma DefaultColors()
    ensures ColorOf(DEFAULT_ATTR) == DEFAULT_COLOR && StyleOf(DEFAULT_ATTR) == Plain
  {
  }

  /** Clearing the whole screen blanks every visible line. */
  lemma ClearedScreen(v: View, color: Color, style: Style)
    requires ViewOk(v)
    ensures var r := Clear(v, 0, 0, v.width, v.height, color, style);
      && r == v.(lines := r.lines)
      && forall i :: 0 <= i < v.height ==> Visible(r)[i] == Repeat(Cell(SPACE, Look(color), style), v.width)
  {
    var r := Clear(v, 0, 0, v.width, v.height, color, style);
    forall i | 0 <= i < v.height ensures Visible(r)[i] == Repeat(Cell(SPACE, Look(color), style), v.width) {
    }
  }

  // ---- Saving the cursor ----

  /** The colours and the table in use are those that the attributes and the selected set call for. */
  predicate UpToDate(t: Term)
    requires TermOk(t)
  {
    t.pen == Pen(t.pen.attr, ColorOf(t.pen.attr), StyleOf(t.pen.attr)) && t.g.translate == t.g.gmap[t.g.useG]
  }

  /** Restoring brings back what was saved, whatever happened to cursor, attributes and character sets in
      between, but for a pending wrap; the line, exactly when it is inside the margins or origin mode is off. */
  lemma RestoreAfterSave(t: Term, u: Term)
    requires TermOk(t) && TermOk(u) && UpToDate(t)
    requires u.saved == SaveCursor(t).saved && u.v.alternate == t.v.alternate && u.v.width == t.v.width
      && u.v.height == t.v.height
    ensures var r := RestoreCursor(u);
      && r.v.x == t.v.x && r.pen == t.pen && r.g.useG == t.g.useG && r.g.gmap == t.g.gmap
      && r.g.translate == t.g.translate && !r.needWrap
      && (r.v.y == t.v.y <==> !u.m.offset || u.top <= t.v.y < u.bottom)
  {
    hide UtfOk, ColorOf;
  }
}
