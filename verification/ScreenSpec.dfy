// What the screen operations mean on lines of cells. A view is the scrollback lines followed by the
// visible ones; coordinates in `Region` count lines from the first scrollback line.
module ScreenSpec {
  import opened Cells

  const MAX_SCROLLBACK: nat := 500

  // `lines` is the active screen (scrollback, then `height` visible lines), `hidden` the other one.
  datatype View = View(width: nat, height: nat, lines: seq<Line>, hidden: seq<Line>, alternate: bool, x: nat, y: nat)
  {
    /** The number of lines that have been scrolled off the top. */
    function Scrollback(): int { |lines| - height }
  }

  predicate LinesOk(lines: seq<Line>, width: nat) {
    forall i :: 0 <= i < |lines| ==> |lines[i]| == width
  }

  ghost predicate ViewOk(v: View) {
    && 0 < v.width && 0 < v.height && v.x < v.width && v.y < v.height
    && v.height <= |v.lines| <= v.height + (if v.alternate then 0 else MAX_SCROLLBACK)
    && v.height <= |v.hidden| <= v.height + (if v.alternate then MAX_SCROLLBACK else 0)
    && LinesOk(v.lines, v.width) && LinesOk(v.hidden, v.width)
  }

  // A rectangle of cells: columns [x, x + w) of lines [y, y + h).
  datatype Region = Region(x: int, y: int, w: int, h: int)
  {
    predicate Has(r: int, c: int) { y <= r < y + h && x <= c < x + w }

    predicate Within(width: nat, lines: nat) {
      0 <= x && 0 <= w && x + w <= width && 0 <= y && 0 <= h && y + h <= lines
    }

    /** Moved down by incY lines and right by incX columns. */
    function Moved(incX: int, incY: int): Region { Region(x + incX, y + incY, w, h) }
  }

  /** Writes cells into one line. */
  function PutCells(lines: seq<Line>, row: nat, x: nat, cells: seq<Cell>): (r: seq<Line>)
    requires row < |lines| && x + |cells| <= |lines[row]|
    ensures |r| == |lines|
  {
    lines[row := Overwrite(lines[row], x, cells)]
  }

  /** Every cell of a rectangle becomes c. */
  function FillRegion(lines: seq<Line>, width: nat, g: Region, c: Cell): (r: seq<Line>)
    requires LinesOk(lines, width)
    ensures |r| == |lines| && LinesOk(r, width)
  {
    seq(|lines|, i requires 0 <= i < |lines| =>
      seq(width, j requires 0 <= j < width => if g.Has(i, j) then c else lines[i][j]))
  }

  // The cells that a region moving by (incX, incY) leaves behind and that are blanked.
  predicate Vacated(g: Region, incX: int, incY: int, r: int, c: int) {
    || (incX > 0 && Region(g.x, g.y, incX, g.h).Has(r, c))
    || (incX < 0 && Region(g.x + g.w + incX, g.y, -incX, g.h).Has(r, c))
    || (incY > 0 && Region(g.x, g.y, g.w, incY).Has(r, c))
    || (incY < 0 && Region(g.x, g.y + g.h + incY, g.w, -incY).Has(r, c))
  }

  /** A rectangle moves by (incX, incY): cells it moves onto take the moved contents, cells it leaves
      behind become `fill`, all others keep theirs. */
  function ShiftRegion(lines: seq<Line>, width: nat, g: Region, incX: int, incY: int, fill: Cell): (r: seq<Line>)
    requires LinesOk(lines, width) && g.Within(width, |lines|)
    ensures |r| == |lines| && LinesOk(r, width)
  {
    seq(|lines|, i requires 0 <= i < |lines| =>
      seq(width, j requires 0 <= j < width =>
        if Vacated(g, incX, incY, i, j) then fill
        else if g.Moved(incX, incY).Has(i, j) then lines[i - incY][j - incX]
        else lines[i][j]))
  }

  /** The last n elements. */
  function LastAtMost<T>(s: seq<T>, n: nat): seq<T> {
    if |s| <= n then s else s[|s| - n..]
  }

  function BlankLines(n: nat, width: nat): (r: seq<Line>)
    ensures |r| == n && LinesOk(r, width)
  {
    seq(n, _ => Repeat(BLANK, width))
  }

  /** The whole screen moves up by k lines, the lines moved off its top joining the scrollback. */
  function PushHistory(lines: seq<Line>, width: nat, height: nat, k: nat): (r: seq<Line>)
    requires LinesOk(lines, width)
    ensures LinesOk(r, width)
  {
    LastAtMost(lines + BlankLines(k, width), height + MAX_SCROLLBACK)
  }

  // The clipped region of a scroll and whether it scrolls at all.
  datatype Clip = NoScroll | Scrolling(g: Region)

  /** VT100.scrollRegion's clipping. The rectangle is in screen coordinates. */
  function ClipScroll(width: nat, height: nat, x: int, y: int, w: int, h: int, incX: int, incY: int): (clip: Clip)
    ensures clip.Scrolling? ==>
      clip.g.Within(width, height) && clip.g.Moved(incX, incY).Within(width, height) && clip.g.w > 0
  {
    var x' := Max(x, Max(-incX, 0));
    var w' := Min(x + w, width - Max(incX, 0)) - x';
    var y' := Max(y, Max(-incY, 0));
    var h' := Min(y + h, height - Max(incY, 0)) - y';
    if w' <= 0 || h' < 0 then NoScroll else Scrolling(Region(x', y', w', h'))
  }

  /** VT100.clearRegion's clipping. */
  function ClipClear(width: nat, height: nat, x: int, y: int, w: int, h: int): (g: Region)
    ensures g.Within(width, height)
  {
    var x', y' := Max(x, 0), Max(y, 0);
    var w', h' := Min(x + w, width) - x', Min(y + h, height) - y';
    if w' <= 0 || h' <= 0 then Region(0, 0, 0, 0) else Region(x', y', w', h')
  }

  /** Writing text: its cells replace those from (x, y) on and the cursor moves behind them, though no
      further than the last column. */
  function Put(v: View, x: nat, y: nat, text: seq<CodeUnit>, color: Color, style: Style): (r: View)
    requires ViewOk(v) && x + |text| <= v.width && y < v.height
    ensures ViewOk(r)
  {
    v.(lines := PutCells(v.lines, v.Scrollback() + y, x, Paint(text, color, style)),
       x := Min(x + |text|, v.width - 1), y := y)
  }

  function Clear(v: View, x: int, y: int, w: int, h: int, color: Color, style: Style): (r: View)
    requires ViewOk(v)
    ensures ViewOk(r) && r.x == v.x && r.y == v.y
  {
    var g := ClipClear(v.width, v.height, x, y, w, h);
    v.(lines := FillRegion(v.lines, v.width, g.Moved(0, v.Scrollback()), Cell(SPACE, Look(color), style)))
  }

  function ScrollView(v: View, x: int, y: int, w: int, h: int, incX: int, incY: int, color: Color): (r: View)
    requires ViewOk(v)
    ensures ViewOk(r) && r.x == v.x && r.y == v.y
  {
    match ClipScroll(v.width, v.height, x, y, w, h, incX, incY)
    case NoScroll => v
    case Scrolling(g) =>
      var wholeLines := incX == 0 && g.x == 0 && g.w == v.width;
      if wholeLines && incY < 0 && !v.alternate && g.y == -incY && g.h == v.height + incY then
        v.(lines := PushHistory(v.lines, v.width, v.height, -incY))
      else
        // Whole lines are blanked with default colours, pieces of lines with the current ones.
        var fill := if wholeLines then BLANK else Cell(SPACE, Look(color), Plain);
        v.(lines := ShiftRegion(v.lines, v.width, g.Moved(0, v.Scrollback()), incX, incY, fill))
  }

  // ---- Lines written one after the other ----

  lemma PutCellsAppend(lines: seq<Line>, row: nat, x: nat, a: seq<Cell>, b: seq<Cell>)
    requires row < |lines| && x + |a| + |b| <= |lines[row]|
    ensures PutCells(PutCells(lines, row, x, a), row, x + |a|, b) == PutCells(lines, row, x, a + b)
  {
    var line := lines[row];
    assert Overwrite(Overwrite(line, x, a), x + |a|, b) == Overwrite(line, x, a + b);
  }

  lemma PutCellsNothing(lines: seq<Line>, row: nat, x: nat)
    requires row < |lines| && x <= |lines[row]|
    ensures PutCells(lines, row, x, []) == lines
  {
    assert Overwrite(lines[row], x, []) == lines[row];
  }

  /** Filling a rectangle from the bottom up, one line at a time. */
  lemma FillRegionStep(lines: seq<Line>, width: nat, x: nat, y: nat, w: nat, h: nat, c: Cell)
    requires LinesOk(lines, width) && x + w <= width && y + h < |lines|
    ensures FillRegion(lines, width, Region(x, y, w, h + 1), c)
         == PutCells(FillRegion(lines, width, Region(x, y + 1, w, h), c), y, x, Repeat(c, w))
  {
    var below := FillRegion(lines, width, Region(x, y + 1, w, h), c);
    var all := FillRegion(lines, width, Region(x, y, w, h + 1), c);
    assert forall j :: 0 <= j < width ==> all[y][j] == Overwrite(below[y], x, Repeat(c, w))[j];
    assert all[y] == Overwrite(below[y], x, Repeat(c, w));
    forall i | 0 <= i < |lines| && i != y ensures all[i] == below[i] {
    }
  }

  lemma FillNothing(lines: seq<Line>, width: nat, g: Region, c: Cell)
    requires LinesOk(lines, width) && (g.w <= 0 || g.h <= 0)
    ensures FillRegion(lines, width, g, c) == lines
  {
    forall i | 0 <= i < |lines| ensures FillRegion(lines, width, g, c)[i] == lines[i] {
    }
  }

  lemma FillEverything(lines: seq<Line>, width: nat)
    requires LinesOk(lines, width)
    ensures FillRegion(lines, width, Region(0, 0, width, |lines|), BLANK) == BlankLines(|lines|, width)
  {
    var all := FillRegion(lines, width, Region(0, 0, width, |lines|), BLANK);
    forall i | 0 <= i < |lines| ensures all[i] == Repeat(BLANK, width) {
    }
  }

  function CopiedRow(lines: seq<Line>, width: nat, g: Region, incX: int, incY: int, lo: int, hi: int, i: nat): (r: Line)
    requires LinesOk(lines, width) && g.Within(width, |lines|) && g.Moved(incX, incY).Within(width, |lines|)
    requires g.y <= lo && hi <= g.y + g.h && i < |lines|
    ensures |r| == width
  {
    hide Overwrite;
    if lo <= i - incY < hi then Overwrite(lines[i], g.x + incX, lines[i - incY][g.x..g.x + g.w]) else lines[i]
  }

  /** Lines [lo, hi) of a moving rectangle copied to where they move, the rest as it was. */
  function CopyRows(lines: seq<Line>, width: nat, g: Region, incX: int, incY: int, lo: int, hi: int): (r: seq<Line>)
    requires LinesOk(lines, width) && g.Within(width, |lines|) && g.Moved(incX, incY).Within(width, |lines|)
    requires g.y <= lo && hi <= g.y + g.h
    ensures |r| == |lines| && LinesOk(r, width)
  {
    hide Overwrite;
    seq(|lines|, i requires 0 <= i < |lines| => CopiedRow(lines, width, g, incX, incY, lo, hi, i))
  }

  lemma CopyRowsNothing(lines: seq<Line>, width: nat, g: Region, incX: int, incY: int, i: int)
    requires LinesOk(lines, width) && g.Within(width, |lines|) && g.Moved(incX, incY).Within(width, |lines|)
    requires g.y <= i <= g.y + g.h
    ensures CopyRows(lines, width, g, incX, incY, i, i) == lines
  {
  }

  lemma CopyRowsAt(lines: seq<Line>, width: nat, g: Region, incX: int, incY: int, lo: int, hi: int, k: nat)
    requires LinesOk(lines, width) && g.Within(width, |lines|) && g.Moved(incX, incY).Within(width, |lines|)
    requires g.y <= lo && hi <= g.y + g.h && k < |lines|
    ensures CopyRows(lines, width, g, incX, incY, lo, hi)[k] ==
      if lo <= k - incY < hi then Overwrite(lines[k], g.x + incX, lines[k - incY][g.x..g.x + g.w]) else lines[k]
  {
  }

  /** Copying in ascending order is safe when the rectangle moves up, in descending order when it moves down:
      the line read next has not been written yet. */
  lemma CopyRowsStep(lines: seq<Line>, width: nat, g: Region, incX: int, incY: int, lo: int, hi: int, i: int)
    requires LinesOk(lines, width) && g.Within(width, |lines|) && g.Moved(incX, incY).Within(width, |lines|)
    requires g.y <= lo <= hi <= g.y + g.h
    requires (incY <= 0 && i == hi < g.y + g.h) || (incY > 0 && g.y <= i == lo - 1)
    ensures var done := CopyRows(lines, width, g, incX, incY, lo, hi);
      PutCells(done, i + incY, g.x + incX, done[i][g.x..g.x + g.w])
      == CopyRows(lines, width, g, incX, incY, Min(lo, i), Max(hi, i + 1))
  {
    hide Overwrite, CopyRows;
    var done := CopyRows(lines, width, g, incX, incY, lo, hi);
    CopyRowsAt(lines, width, g, incX, incY, lo, hi, i);
    var next := PutCells(done, i + incY, g.x + incX, done[i][g.x..g.x + g.w]);
    forall k | 0 <= k < |lines|
      ensures next[k] == CopyRows(lines, width, g, incX, incY, Min(lo, i), Max(hi, i + 1))[k]
    {
      CopyRowsAt(lines, width, g, incX, incY, lo, hi, k);
      CopyRowsAt(lines, width, g, incX, incY, Min(lo, i), Max(hi, i + 1), k);
    }
  }

  /** Copying the lines of a rectangle and then clearing the strips it leaves behind is one move. */
  lemma CopyThenClear(lines: seq<Line>, width: nat, g: Region, incX: int, incY: int, fill: Cell)
    requires LinesOk(lines, width) && g.Within(width, |lines|) && g.Moved(incX, incY).Within(width, |lines|)
    ensures var copied := CopyRows(lines, width, g, incX, incY, g.y, g.y + g.h);
      var stripX := if incX >= 0 then Region(g.x, g.y, incX, g.h) else Region(g.x + g.w + incX, g.y, -incX, g.h);
      var stripY := if incY >= 0 then Region(g.x, g.y, g.w, incY) else Region(g.x, g.y + g.h + incY, g.w, -incY);
      FillRegion(FillRegion(copied, width, stripX, fill), width, stripY, fill)
      == ShiftRegion(lines, width, g, incX, incY, fill)
  {
    var copied := CopyRows(lines, width, g, incX, incY, g.y, g.y + g.h);
    var stripX := if incX >= 0 then Region(g.x, g.y, incX, g.h) else Region(g.x + g.w + incX, g.y, -incX, g.h);
    var stripY := if incY >= 0 then Region(g.x, g.y, g.w, incY) else Region(g.x, g.y + g.h + incY, g.w, -incY);
    var cleared := FillRegion(FillRegion(copied, width, stripX, fill), width, stripY, fill);
    var moved := ShiftRegion(lines, width, g, incX, incY, fill);
    hide ShiftRegion, FillRegion, CopyRows;
    forall i | 0 <= i < |lines| ensures cleared[i] == moved[i] {
      forall j | 0 <= j < width ensures cleared[i][j] == moved[i][j] {
        CopiedCell(lines, width, g, incX, incY, i, j);
        FilledCell(copied, width, stripX, fill, i, j);
        FilledCell(FillRegion(copied, width, stripX, fill), width, stripY, fill, i, j);
        ShiftedCell(lines, width, g, incX, incY, fill, i, j);
      }
    }
  }

  lemma CopiedCell(lines: seq<Line>, width: nat, g: Region, incX: int, incY: int, i: nat, j: nat)
    requires LinesOk(lines, width) && g.Within(width, |lines|) && g.Moved(incX, incY).Within(width, |lines|)
      && i < |lines| && j < width
    ensures CopyRows(lines, width, g, incX, incY, g.y, g.y + g.h)[i][j] ==
      if g.Moved(incX, incY).Has(i, j) then lines[i - incY][j - incX] else lines[i][j]
  {
  }

  lemma FilledCell(lines: seq<Line>, width: nat, g: Region, c: Cell, i: nat, j: nat)
    requires LinesOk(lines, width) && i < |lines| && j < width
    ensures FillRegion(lines, width, g, c)[i][j] == if g.Has(i, j) then c else lines[i][j]
  {
  }

  lemma ShiftedCell(lines: seq<Line>, width: nat, g: Region, incX: int, incY: int, fill: Cell, i: nat, j: nat)
    requires LinesOk(lines, width) && g.Within(width, |lines|) && i < |lines| && j < width
    ensures ShiftRegion(lines, width, g, incX, incY, fill)[i][j] ==
      if Vacated(g, incX, incY, i, j) then fill
      else if g.Moved(incX, incY).Has(i, j) then lines[i - incY][j - incX]
      else lines[i][j]
  {
  }

  /** Moving whole lines up or down by incY. */
  lemma ShiftWholeLines(lines: seq<Line>, width: nat, y: nat, h: nat, incY: int, i: nat)
    requires LinesOk(lines, width) && y + h <= |lines| && 0 <= y + incY && y + h + incY <= |lines| && i < |lines|
    ensures ShiftRegion(lines, width, Region(0, y, width, h), 0, incY, BLANK)[i]
         == if (incY > 0 && y <= i < y + incY) || (incY < 0 && y + h + incY <= i < y + h) then Repeat(BLANK, width)
            else if y + incY <= i < y + h + incY then lines[i - incY]
            else lines[i]
  {
  }

  lemma LineWidth(lines: seq<Line>, width: nat, row: nat)
    requires LinesOk(lines, width) && row < |lines|
    ensures |lines[row]| == width
  {
  }

  /** Scrolling changes nothing but the lines. */
  lemma ScrollKeepsSize(v: View, x: int, y: int, w: int, h: int, incX: int, incY: int, color: Color)
    requires ViewOk(v)
    ensures var r := ScrollView(v, x, y, w, h, incX, incY, color);
      r == v.(lines := r.lines)
  {
    hide ShiftRegion, PushHistory, ClipScroll;
  }
}
