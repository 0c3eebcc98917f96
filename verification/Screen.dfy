// The screen of the terminal as the browser holds it: a list of row elements, the first ones being
// the scrollback. The methods change that list in place, as the VT100 methods of the same names do,
// and each is proved to do to the displayed cells what the function of ScreenSpec says.
module ScreenRows {
  import opened Cells
  import opened RowRuns
  import opened ScreenSpec

  ghost predicate RowOk(row: Row, width: nat) {
    && |RowCells(row)| <= width
    && (row.Div? ==> row.runs != [] && Merged(row.runs))
  }

  ghost predicate RowsOk(rows: seq<Row>, width: nat) {
    forall i :: 0 <= i < |rows| ==> RowOk(rows[i], width)
  }

  /** What row i displays: missing rows are blank. */
  ghost function RowLine(rows: seq<Row>, i: nat, width: nat): (line: Line)
    requires RowsOk(rows, width)
    ensures |line| == width
  {
    if i < |rows| then PadTo(RowCells(rows[i]), width) else Repeat(BLANK, width)
  }

  ghost function LinesOf(rows: seq<Row>, width: nat, height: nat): (lines: seq<Line>)
    requires RowsOk(rows, width)
    ensures |lines| == Max(|rows|, height) && LinesOk(lines, width)
  {
    seq(Max(|rows|, height), i requires 0 <= i < Max(|rows|, height) => RowLine(rows, i, width))
  }

  /** The element that VT100.insertBlankLine creates. The colour gets lost on the way: it is stored in a
      property that the browser ignores. */
  function BlankRow(width: nat, color: Color, style: Style): Row {
    if Look(color) != DEFAULT_COLOR && style == Plain then Pre
    else Div([Run(Spaces(width), Unset, style)])
  }

  function InsertRow(rows: seq<Row>, y: nat, row: Row): seq<Row> {
    if y < |rows| then rows[..y] + [row] + rows[y..] else rows + [row]
  }

  lemma BlankRowIsBlank(width: nat, color: Color)
    ensures RowOk(BlankRow(width, color, Plain), width)
    ensures PadTo(RowCells(BlankRow(width, color, Plain)), width) == Repeat(BLANK, width)
  {
    if BlankRow(width, color, Plain).Div? {
      FlattenSingle(Run(Spaces(width), Unset, Plain));
      assert Paint(Spaces(width), Unset, Plain) == Repeat(BLANK, width);
    }
  }

  /** Appending blank rows while rows are missing does not change what is displayed. */
  lemma AppendBlankRow(rows: seq<Row>, width: nat, height: nat, color: Color)
    requires RowsOk(rows, width) && |rows| < height
    ensures RowsOk(rows + [BlankRow(width, color, Plain)], width)
    ensures LinesOf(rows + [BlankRow(width, color, Plain)], width, height) == LinesOf(rows, width, height)
  {
    hide PadTo, BlankRow, RowCells;
    BlankRowIsBlank(width, color);
    var rows' := rows + [BlankRow(width, color, Plain)];
    forall i | 0 <= i < height ensures RowLine(rows', i, width) == RowLine(rows, i, width) {
    }
  }

  lemma OverwriteWider(before: seq<Cell>, after: seq<Cell>, n: nat, width: nat, x: nat, text: seq<Cell>)
    requires |before| <= n && |after| <= n <= width && x + |text| <= n
    requires PadTo(after, n) == Overwrite(PadTo(before, n), x, text)
    ensures PadTo(after, width) == Overwrite(PadTo(before, width), x, text)
  {
    assert PadTo(after, width) == PadTo(after, n) + Repeat(BLANK, width - n);
    assert PadTo(before, width) == PadTo(before, n) + Repeat(BLANK, width - n);
  }

  /** Rewriting one row rewrites one line. */
  lemma ReplaceRow(rows: seq<Row>, width: nat, height: nat, i: nat, row: Row, x: nat, cells: seq<Cell>)
    requires RowsOk(rows, width) && i < |rows| && RowOk(row, width) && x + |cells| <= width
    requires PadTo(RowCells(row), width) == Overwrite(PadTo(RowCells(rows[i]), width), x, cells)
    ensures RowsOk(rows[i := row], width)
    ensures LinesOf(rows[i := row], width, height) == PutCells(LinesOf(rows, width, height), i, x, cells)
  {
    hide PadTo, RowCells, Overwrite, RowOk;
  }

  // ---- Scrolling whole rows by removing and inserting row elements ----

  function Without(rows: seq<Row>, at: nat, n: nat): seq<Row> {
    if |rows| <= at then rows else rows[..at] + rows[Min(at + n, |rows|)..]
  }

  function WithBlankRows(rows: seq<Row>, at: nat, n: nat, blank: Row): seq<Row> {
    var p := Min(at, |rows|);
    rows[..p] + seq(n, _ => blank) + rows[p..]
  }

  lemma BlankRowsCount(rows: seq<Row>, at: nat, n: nat, blank: Row)
    ensures |WithBlankRows(rows, at, n, blank)| == |rows| + n
  {
  }

  lemma InsertOneMore(rows: seq<Row>, at: nat, n: nat, blank: Row)
    ensures InsertRow(WithBlankRows(rows, at, n, blank), at, blank) == WithBlankRows(rows, at, n + 1, blank)
  {
  }

  lemma RemoveOneMore(rows: seq<Row>, at: nat, n: nat)
    requires at < |Without(rows, at, n)|
    ensures Without(rows, at, n)[..at] + Without(rows, at, n)[at + 1..] == Without(rows, at, n + 1)
  {
  }

  function ScrolledUp(rows: seq<Row>, nsb: nat, at: nat, h: nat, k: nat, blank: Row): seq<Row> {
    var rows1 := Without(rows, at, k);
    if nsb > 0 || |rows1| > at + h then WithBlankRows(rows1, at + h, k, blank) else rows1
  }

  function ScrolledDown(rows: seq<Row>, at: nat, h: nat, k: nat, blank: Row): seq<Row> {
    WithBlankRows(Without(rows, at + h, k), at, k, blank)
  }

  ghost predicate BlankOne(blank: Row, width: nat) {
    RowOk(blank, width) && PadTo(RowCells(blank), width) == Repeat(BLANK, width)
  }

  /** What line i displays when the whole lines [y, y + h) have moved down by incY. */
  ghost function ShiftedLine(rows: seq<Row>, width: nat, y: nat, h: nat, incY: int, i: nat): Line
    requires RowsOk(rows, width) && 0 <= y + incY
  {
    if (incY > 0 && y <= i < y + incY) || (incY < 0 && y + h + incY <= i < y + h) then Repeat(BLANK, width)
    else if y + incY <= i < y + h + incY then RowLine(rows, i - incY, width)
    else RowLine(rows, i, width)
  }

  lemma LinesShifted(rows: seq<Row>, rows2: seq<Row>, width: nat, height: nat, y: nat, h: nat, incY: int)
    requires RowsOk(rows, width) && RowsOk(rows2, width) && Max(|rows|, height) == Max(|rows2|, height)
    requires y + h <= Max(|rows|, height) && 0 <= y + incY && y + h + incY <= Max(|rows|, height)
    requires forall i: nat :: i < Max(|rows|, height) ==>
      RowLine(rows2, i, width) == ShiftedLine(rows, width, y, h, incY, i)
    ensures LinesOf(rows2, width, height) == ShiftRegion(LinesOf(rows, width, height), width, Region(0, y, width, h),
      0, incY, BLANK)
  {
    hide RowsOk, RowLine, ShiftRegion;
    var lines := LinesOf(rows, width, height);
    forall i | 0 <= i < |lines| ensures LinesOf(rows2, width, height)[i]
      == ShiftRegion(lines, width, Region(0, y, width, h), 0, incY, BLANK)[i]
    {
      ShiftWholeLines(lines, width, y, h, incY, i);
    }
  }

  // Row i of a screen, where missing rows count as <pre> rows, which show the same.
  function RowAt(rows: seq<Row>, i: nat): Row {
    if i < |rows| then rows[i] else Pre
  }

  lemma RowLineAt(rows: seq<Row>, i: nat, width: nat)
    requires RowsOk(rows, width)
    ensures RowLine(rows, i, width) == PadTo(RowCells(RowAt(rows, i)), width)
  {
  }

  lemma PadPre(width: nat)
    ensures RowCells(Pre) == [] && PadTo([], width) == Repeat(BLANK, width)
  {
  }

  // Where a row comes from: from row j, or it is blank and so is what row j would be.
  predicate ComesFrom(r: Row, rows: seq<Row>, j: nat, blank: Row) {
    r == RowAt(rows, j) || (r == blank && |rows| <= j)
  }

  lemma ScrolledDownAt(rows: seq<Row>, at: nat, h: nat, k: nat, blank: Row, i: nat)
    ensures var r := RowAt(ScrolledDown(rows, at, h, k, blank), i);
      if at <= i < at + k then r == blank || r == Pre
      else ComesFrom(r, rows, if at + k <= i < at + k + h then i - k else i, blank)
  {
    var rows1 := Without(rows, at + h, k);
    var p := Min(at, |rows1|);
    var rows2 := ScrolledDown(rows, at, h, k, blank);
    assert p <= i < p + k ==> rows2[i] == blank;
    assert p + k <= i < |rows2| ==> rows2[i] == rows1[i - k];
    assert i < p ==> rows2[i] == rows1[i];
  }

  lemma ScrolledUpAt(rows: seq<Row>, nsb: nat, at: nat, h: nat, k: nat, blank: Row, i: nat)
    requires nsb > 0 ==> at + h + k <= |rows|
    ensures var r := RowAt(ScrolledUp(rows, nsb, at, h, k, blank), i);
      if at + h <= i < at + h + k then r == blank || r == Pre
      else ComesFrom(r, rows, if at <= i < at + h then i + k else i, blank)
  {
    var rows1 := Without(rows, at, k);
    var rows2 := ScrolledUp(rows, nsb, at, h, k, blank);
    if nsb > 0 || |rows1| > at + h {
      assert at + h <= i < at + h + k ==> rows2[i] == blank;
      assert at + h + k <= i < |rows2| ==> rows2[i] == rows1[i - k];
      assert i < at + h ==> rows2[i] == rows1[i];
    }
  }

  lemma RowLineFrom(rows: seq<Row>, r: Row, j: nat, blank: Row, width: nat)
    requires RowsOk(rows, width) && BlankOne(blank, width) && ComesFrom(r, rows, j, blank)
    ensures |RowCells(r)| <= width && PadTo(RowCells(r), width) == RowLine(rows, j, width)
  {
    hide RowCells, PadTo;
    RowLineAt(rows, j, width);
    PadPre(width);
  }

  lemma ScrolledDownLine(rows: seq<Row>, width: nat, at: nat, h: nat, k: nat, blank: Row, i: nat)
    requires RowsOk(rows, width) && BlankOne(blank, width) && RowsOk(ScrolledDown(rows, at, h, k, blank), width)
    ensures RowLine(ScrolledDown(rows, at, h, k, blank), i, width) == ShiftedLine(rows, width, at, h, k, i)
  {
    hide RowCells, PadTo, RowsOk, ScrolledDown, RowAt, RowLine, ComesFrom;
    var rows2 := ScrolledDown(rows, at, h, k, blank);
    ScrolledDownAt(rows, at, h, k, blank, i);
    RowLineAt(rows2, i, width);
    if at <= i < at + k {
      PadPre(width);
    } else {
      RowLineFrom(rows, RowAt(rows2, i), if at + k <= i < at + k + h then i - k else i, blank, width);
    }
  }

  /** Rows [at, at + h) move down by k rows. */
  lemma ScrollDownLines(rows: seq<Row>, width: nat, height: nat, at: nat, h: nat, k: nat, blank: Row)
    requires RowsOk(rows, width) && BlankOne(blank, width)
    requires var nsb := Max(0, |rows| - height); nsb <= at && at + k + h <= nsb + height
    ensures var rows2 := ScrolledDown(rows, at, h, k, blank);
      && RowsOk(rows2, width) && Max(0, |rows2| - height) == Max(0, |rows| - height)
      && LinesOf(rows2, width, height) == ShiftRegion(LinesOf(rows, width, height), width, Region(0, at, width, h), 0,
        k, BLANK)
  {
    hide RowsOk, ScrolledDown, RowLine, LinesOf, ShiftedLine, ShiftRegion, BlankOne;
    ScrolledDownRows(rows, width, height, at, h, k, blank);
    var rows2 := ScrolledDown(rows, at, h, k, blank);
    forall i: nat | i < Max(|rows|, height) ensures RowLine(rows2, i, width) == ShiftedLine(rows, width, at, h, k, i) {
      ScrolledDownLine(rows, width, at, h, k, blank, i);
    }
    LinesShifted(rows, rows2, width, height, at, h, k);
  }

  lemma ScrolledDownRows(rows: seq<Row>, width: nat, height: nat, at: nat, h: nat, k: nat, blank: Row)
    requires RowsOk(rows, width) && BlankOne(blank, width)
    requires var nsb := Max(0, |rows| - height); nsb <= at && at + k + h <= nsb + height
    ensures var rows2 := ScrolledDown(rows, at, h, k, blank);
      RowsOk(rows2, width) && Max(0, |rows2| - height) == Max(0, |rows| - height)
  {
    hide RowCells, PadTo, RowOk;
  }

  lemma ScrolledUpLine(rows: seq<Row>, width: nat, nsb: nat, at: nat, h: nat, k: int, blank: Row, i: nat)
    requires 0 < k && (nsb > 0 ==> at + h + k <= |rows|)
    requires RowsOk(rows, width) && BlankOne(blank, width) && RowsOk(ScrolledUp(rows, nsb, at, h, k, blank), width)
    ensures RowLine(ScrolledUp(rows, nsb, at, h, k, blank), i, width) == ShiftedLine(rows, width, at + k, h, -k, i)
  {
    hide RowCells, PadTo, RowsOk, ScrolledUp, RowAt, RowLine, ComesFrom;
    var rows2 := ScrolledUp(rows, nsb, at, h, k, blank);
    ScrolledUpAt(rows, nsb, at, h, k, blank, i);
    RowLineAt(rows2, i, width);
    if at + h <= i < at + h + k {
      PadPre(width);
    } else {
      RowLineFrom(rows, RowAt(rows2, i), if at <= i < at + h then i + k else i, blank, width);
    }
  }

  /** Rows [at + k, at + k + h) move up by k rows. */
  lemma ScrollUpLines(rows: seq<Row>, width: nat, height: nat, at: nat, h: nat, k: int, blank: Row)
    requires RowsOk(rows, width) && BlankOne(blank, width) && 0 < k
    requires var nsb := Max(0, |rows| - height); nsb <= at && at + k + h <= nsb + height
    ensures var nsb := Max(0, |rows| - height);
      var rows2 := ScrolledUp(rows, nsb, at, h, k, blank);
      && RowsOk(rows2, width) && Max(0, |rows2| - height) == nsb
      && LinesOf(rows2, width, height) == ShiftRegion(LinesOf(rows, width, height), width,
        Region(0, at + k, width, h), 0, -k, BLANK)
  {
    hide RowsOk, ScrolledUp, RowLine, LinesOf, ShiftedLine, ShiftRegion, BlankOne;
    ScrolledUpRows(rows, width, height, at, h, k, blank);
    var nsb := Max(0, |rows| - height);
    var rows2 := ScrolledUp(rows, nsb, at, h, k, blank);
    forall i: nat | i < Max(|rows|, height) ensures RowLine(rows2, i, width)
      == ShiftedLine(rows, width, at + k, h, -k, i) {
      ScrolledUpLine(rows, width, nsb, at, h, k, blank, i);
    }
    LinesShifted(rows, rows2, width, height, at + k, h, -k);
  }

  lemma ScrolledUpRows(rows: seq<Row>, width: nat, height: nat, at: nat, h: nat, k: nat, blank: Row)
    requires RowsOk(rows, width) && BlankOne(blank, width)
    requires var nsb := Max(0, |rows| - height); nsb <= at && at + k + h <= nsb + height
    ensures var rows2 := ScrolledUp(rows, Max(0, |rows| - height), at, h, k, blank);
      RowsOk(rows2, width) && Max(0, |rows2| - height) == Max(0, |rows| - height)
  {
    hide RowCells, PadTo, RowOk;
  }

  /** The whole screen moves up by k rows into the scrollback, of which the oldest rows may go. */
  function Pushed(rows: seq<Row>, height: nat, k: nat, filler: Row, blank: Row): seq<Row> {
    var full := WithBlankRows(rows, |rows|, Max(0, height - |rows|), filler);
    LastAtMost(WithBlankRows(full, |full|, k, blank), height + MAX_SCROLLBACK)
  }

  lemma PushedLines(rows: seq<Row>, width: nat, height: nat, k: nat, filler: Row, blank: Row)
    requires RowsOk(rows, width) && BlankOne(filler, width) && BlankOne(blank, width)
    ensures var rows2 := Pushed(rows, height, k, filler, blank);
      && height <= |rows2| <= height + MAX_SCROLLBACK && RowsOk(rows2, width)
      && LinesOf(rows2, width, height) == PushHistory(LinesOf(rows, width, height), width, height, k)
  {
    hide RowCells, PadTo, RowOk;
    var rows2 := Pushed(rows, height, k, filler, blank);
    PushedSize(rows, width, height, k, filler, blank);
    forall i | 0 <= i < |rows2| ensures LinesOf(rows2, width, height)[i]
      == PushHistory(LinesOf(rows, width, height), width, height, k)[i] {
      PushedLine(rows, width, height, k, filler, blank, i);
    }
  }

  lemma PushedSize(rows: seq<Row>, width: nat, height: nat, k: nat, filler: Row, blank: Row)
    requires RowsOk(rows, width) && BlankOne(filler, width) && BlankOne(blank, width)
    ensures var rows2 := Pushed(rows, height, k, filler, blank);
      && height <= |rows2| == |PushHistory(LinesOf(rows, width, height), width, height, k)| <= height + MAX_SCROLLBACK
      && RowsOk(rows2, width)
  {
    hide RowCells, PadTo, RowOk;
  }

  lemma PushedLine(rows: seq<Row>, width: nat, height: nat, k: nat, filler: Row, blank: Row, i: nat)
    requires RowsOk(rows, width) && BlankOne(filler, width) && BlankOne(blank, width)
    requires i < |Pushed(rows, height, k, filler, blank)|
      == |PushHistory(LinesOf(rows, width, height), width, height, k)|
    ensures RowLine(Pushed(rows, height, k, filler, blank), i, width)
      == PushHistory(LinesOf(rows, width, height), width, height, k)[i]
  {
    hide RowCells, PadTo, RowOk;
  }
}

module ScreenClass {
  import opened Cells
  import opened RowRuns
  import opened ScreenSpec
  import opened ScreenRows

  class Screen {
    const width: nat
    const height: nat
    var rows: seq<Row>           // childNodes of console[currentScreen]
    var otherRows: seq<Row>      // childNodes of console[1 - currentScreen]
    var currentScreen: nat
    var numScrollbackLines: nat
    var cursorX: nat
    var cursorY: nat

    ghost predicate Valid()
      reads this
    {
      && 0 < width && 0 < height && currentScreen < 2
      && RowsOk(rows, width) && RowsOk(otherRows, width)
      && numScrollbackLines == Max(0, |rows| - height)
      && |rows| <= height + (if currentScreen == 0 then MAX_SCROLLBACK else 0)
      && |otherRows| <= height + (if currentScreen == 0 then 0 else MAX_SCROLLBACK)
      && cursorX < width && cursorY < height
    }

    ghost function Lines(): (lines: seq<Line>)
      requires Valid()
      reads this
      ensures |lines| == numScrollbackLines + height && LinesOk(lines, width)
    {
      LinesOf(rows, width, height)
    }

    ghost function Abs(): (v: View)
      requires Valid()
      reads this
      ensures ViewOk(v) && v.Scrollback() == numScrollbackLines
      ensures v.width == width && v.height == height && v.x == cursorX && v.y == cursorY
    {
      View(width, height, Lines(), LinesOf(otherRows, width, height), currentScreen == 1, cursorX, cursorY)
    }

    constructor (w: nat, h: nat)
      requires 0 < w && 0 < h
      ensures Valid() && width == w && height == h
      ensures Abs() == View(w, h, BlankLines(h, w), BlankLines(h, w), false, 0, 0)
    {
      width, height := w, h;
      rows, otherRows, currentScreen, numScrollbackLines, cursorX, cursorY := [], [], 0, 0, 0, 0;
      new;
      assert Lines() == BlankLines(h, w);
    }

    method InsertBlankLine(y: nat, color: Color, style: Style)
      modifies this`rows
      ensures rows == InsertRow(old(rows), y, BlankRow(width, color, style))
    {
      var line := if Look(color) != DEFAULT_COLOR && style == Plain then Pre
                  else Div([Run(Spaces(width), Unset, style)]);
      rows := if |rows| > y then rows[..y] + [line] + rows[y..] else rows + [line];
    }

    /** Creates missing rows at the end of the page, up to row yIdx. */
    method CreateRows(yIdx: nat)
      requires Valid() && yIdx < numScrollbackLines + height
      modifies this`rows
      ensures Valid() && Abs() == old(Abs()) && yIdx < |rows|
    {
      while |rows| <= yIdx
        invariant Valid() && Abs() == old(Abs())
        decreases yIdx + 1 - |rows|
      {
        AppendBlankRow(rows, width, height, Unset);
        InsertBlankLine(yIdx, Unset, Plain);
      }
    }

    /** Writes a text into the row list and positions the cursor behind it. */
    method PutString(x: nat, y: nat, text: seq<CodeUnit>, color: Color, style: Style)
      requires Valid() && x + |text| <= width && y < height
      modifies this
      ensures Valid() && Abs() == Put(old(Abs()), x, y, text, color, style)
    {
      hide RowsOk, LinesOf, PutCells, Paint;
      var yIdx := y + numScrollbackLines;
      if |text| > 0 {
        PaintLook(text, color, style);
        CreateRows(yIdx);
        WriteText(x, yIdx, text, Look(color), style);
      } else {
        PutNothing(Abs(), x, y, color, style);
      }
      cursorX := x + |text|;
      if cursorX >= width {
        cursorX := width - 1;
      }
      cursorY := yIdx - numScrollbackLines;
    }

    /** The part of PutString that edits row yIdx, promoting a <pre> to a <div> with an empty <span>. */
    method WriteText(x: nat, yIdx: nat, text: seq<CodeUnit>, color: Color, style: Style)
      requires Valid() && x + |text| <= width && yIdx < |rows| && text != [] && color != Unset
      modifies this`rows
      ensures Valid()
      ensures Abs() == old(Abs()).(lines := PutCells(old(Lines()), yIdx, x, Paint(text, color, style)))
    {
      var runs := if rows[yIdx].Div? then rows[yIdx].runs else [Run([], Unset, Plain)];
      FlattenSingle(Run([], Unset, Plain));
      assert Flatten(runs) == RowCells(rows[yIdx]);
      var row := WriteRow(runs, x, text, color, style);
      ghost var n, cells := Max(|Flatten(runs)|, x + |text|), Paint(text, color, style);
      OverwriteWider(Flatten(runs), RowCells(row), n, width, x, cells);
      ReplaceRow(rows, width, height, yIdx, row, x, cells);
      rows := rows[yIdx := row];
    }

    /** One side of a rectangle, cut so that it stays inside when it moves by inc. */
    method ClipSide(at0: int, size0: int, limit: nat, inc: int) returns (at: int, size: int)
      ensures at == Max(at0, Max(-inc, 0)) && size == Min(at0 + size0, limit - Max(inc, 0)) - at
    {
      var before, behind := if inc < 0 then -inc else 0, if inc > 0 then inc else 0;
      at := if at0 < before then before else at0;
      size := size0 + at0;
      if size > limit - behind {
        size := limit - behind;
      }
      size := size - at;
    }

    /** Clips a rectangle to the screen. */
    method ClipToScreen(x0: int, y0: int, w0: int, h0: int) returns (x: int, y: int, w: int, h: int)
      ensures ClipClear(width, height, x0, y0, w0, h0) == if w <= 0 || h <= 0 then Region(0, 0, 0, 0)
        else Region(x, y, w, h)
      ensures 0 <= x && 0 <= y && (w > 0 && h > 0 ==> x + w <= width && y + h <= height)
    {
      x, w := ClipSide(x0, w0, width, 0);
      y, h := ClipSide(y0, h0, height, 0);
    }

    /** Blanks a rectangle, row by row from the bottom; the cursor stays. */
    method ClearRegion(x0: int, y0: int, w0: int, h0: int, color: Color, style: Style)
      requires Valid()
      modifies this
      ensures Valid() && Abs() == Clear(old(Abs()), x0, y0, w0, h0, color, style)
    {
      hide FillRegion, RowsOk, LinesOf, LinesOk, BlankLines, ClipClear;
      var x, y, w, h := ClipToScreen(x0, y0, w0, h0);
      ghost var g := ClipClear(width, height, x0, y0, w0, h0).Moved(0, numScrollbackLines);
      ghost var fill := Cell(SPACE, Look(color), style);
      if w <= 0 || h <= 0 {
        FillNothing(Lines(), width, g, fill);
        return;
      }
      if numScrollbackLines == 0 && w == width && h == height && Look(color) == DEFAULT_COLOR && style == Plain {
        FillEverything(Lines(), width);
        RemoveAll();
        MoveCursor(cursorX, cursorY);
      } else {
        ClearRows(x, y, w, h, color, style);
      }
    }

    method RemoveAll()
      requires Valid() && numScrollbackLines == 0
      modifies this`rows
      ensures Valid() && Abs() == old(Abs()).(lines := BlankLines(height, width))
    {
      rows := [];
      assert Lines() == BlankLines(height, width);
    }

    /** Positions the cursor, which is putString of an empty text. */
    method MoveCursor(x: nat, y: nat)
      requires Valid() && x < width && y < height
      modifies this
      ensures Valid() && Abs() == old(Abs()).(x := x, y := y)
    {
      PutNothing(Abs(), x, y, Unset, Plain);
      PutString(x, y, [], Unset, Plain);
    }

    method ClearRows(x: nat, y: nat, w: nat, h: nat, color: Color, style: Style)
      requires Valid() && x + w <= width && y + h <= height
      modifies this
      ensures Valid()
      ensures Abs() == old(Abs()).(lines := FillRegion(old(Lines()), width, Region(x, y + numScrollbackLines, w, h),
        Cell(SPACE, Look(color), style)))
    {
      hide FillRegion, RowsOk, LinesOf, LinesOk;
      var cx, cy := cursorX, cursorY;
      var s := Spaces(w);
      ghost var lines, nsb, fill := Lines(), numScrollbackLines, Cell(SPACE, Look(color), style);
      var i := y + h;
      FillNothing(lines, width, Region(x, i + nsb, w, 0), fill);
      PaintSpaces(w, color, style);
      while i > y
        invariant Valid() && y <= i <= y + h && numScrollbackLines == nsb
          && Lines() == FillRegion(lines, width, Region(x, i + nsb, w, y + h - i), fill)
        invariant Abs().(x := cx, y := cy) == old(Abs()).(lines := Lines())
      {
        i := i - 1;
        FillRegionStep(lines, width, x, i + nsb, w, y + h - i - 1, fill);
        PutString(x, i, s, color, style);
      }
      MoveCursor(cx, cy);
    }

    /** Copies w cells of row sY from column sX on to (dX, dY); rows count from the first scrollback row. */
    method CopyLineSegment(dX: nat, dY: nat, sX: nat, sY: nat, w: nat)
      requires Valid() && dX + w <= width && sX + w <= width
      requires numScrollbackLines <= dY < numScrollbackLines + height && sY < numScrollbackLines + height
      modifies this
      ensures Valid()
      ensures Abs() == old(Abs()).(lines := PutCells(old(Lines()), dY, dX, old(Lines())[sY][sX..sX + w]))
    {
      hide RowsOk, LinesOf, PutCells;
      var segments := ReadSegments(sX, sY, w);
      var cx, cy := cursorX, cursorY;
      PutSegments(dX, dY, segments);
      MoveCursor(cx, cy);
    }

    /** The part of CopyLineSegment that reads. */
    method ReadSegments(sX: nat, sY: nat, w: nat) returns (segments: seq<Run>)
      requires Valid() && sX + w <= width && sY < numScrollbackLines + height
      ensures Flatten(segments) == Lines()[sY][sX..sX + w]
    {
      if sY < |rows| && rows[sY].Div? {
        segments := CollectSegments(rows[sY].runs, sX, w, width);
      } else {
        segments := [Run(Spaces(w), Unset, Plain)];
        BlankSegment(w, width, sX);
      }
    }

    method PutSegments(dX: nat, dY: nat, segments: seq<Run>)
      requires Valid() && dX + |Flatten(segments)| <= width
      requires numScrollbackLines <= dY < numScrollbackLines + height
      modifies this
      ensures Valid()
      ensures Abs().(x := old(cursorX), y := old(cursorY))
        == old(Abs()).(lines := PutCells(old(Lines()), dY, dX, Flatten(segments)))
    {
      hide RowsOk, LinesOf, PutCells, Flatten;
      ghost var lines := Lines();
      var i, x := 0, dX;
      assert segments[..0] == [];
      FlattenNothing();
      PutCellsNothing(lines, dY, dX);
      while i < |segments|
        invariant i <= |segments| && Valid() && numScrollbackLines == old(numScrollbackLines)
        invariant x == dX + |Flatten(segments[..i])| && |Flatten(segments[..i])| <= |Flatten(segments)|
        invariant Lines() == PutCells(lines, dY, dX, Flatten(segments[..i]))
        invariant Abs().(x := old(cursorX), y := old(cursorY)) == old(Abs()).(lines := Lines())
      {
        FlattenSnoc(segments, i);
        FlattenPrefix(segments, i + 1);
        PutCellsAppend(lines, dY, dX, Flatten(segments[..i]), RunCells(segments[i]));
        PutString(x, dY - numScrollbackLines, segments[i].text, segments[i].color, segments[i].style);
        x := x + |segments[i].text|;
        i := i + 1;
      }
      assert segments[..i] == segments;
    }

    method RemoveRows(at: nat, n: nat)
      modifies this`rows
      ensures rows == Without(old(rows), at, n)
    {
      var i := n;
      assert Without(rows, at, 0) == rows;
      while i > 0 && |rows| > at
        invariant 0 <= i <= n && rows == Without(old(rows), at, n - i)
        decreases i
      {
        i := i - 1;
        RemoveOneMore(old(rows), at, n - i - 1);
        rows := rows[..at] + rows[at + 1..];
      }
      assert i > 0 ==> Without(old(rows), at, n) == Without(old(rows), at, n - i);
    }

    method InsertBlankLines(at: nat, n: nat, color: Color)
      modifies this`rows
      ensures rows == WithBlankRows(old(rows), at, n, BlankRow(width, color, Plain))
    {
      hide BlankRow;
      var i := 0;
      ghost var blank := BlankRow(width, color, Plain);
      assert WithBlankRows(rows, at, 0, blank) == rows;
      while i < n
        invariant i <= n && rows == WithBlankRows(old(rows), at, i, blank)
      {
        InsertOneMore(old(rows), at, i, blank);
        InsertBlankLine(at, color, Plain);
        i := i + 1;
      }
    }

    /** Counts the scrollback rows anew and removes the oldest ones when there are too many. */
    method TrimHistory()
      requires height <= |rows|
      modifies this`rows, this`numScrollbackLines
      ensures rows == LastAtMost(old(rows), height + MAX_SCROLLBACK) && numScrollbackLines == |rows| - height
    {
      numScrollbackLines := |rows| - height;
      ghost var was, dropped := rows, 0;
      while numScrollbackLines > MAX_SCROLLBACK
        invariant numScrollbackLines == |was| - dropped - height
        invariant 0 <= dropped <= Max(0, |was| - (height + MAX_SCROLLBACK)) && rows == was[dropped..]
      {
        assert was[dropped..][1..] == was[dropped + 1..];
        dropped := dropped + 1;
        rows := rows[1..];
        numScrollbackLines := numScrollbackLines - 1;
      }
    }

    /** The rows that leave at the top are kept as history, the newest ones of it. */
    method ScrollIntoHistory(k: nat, color: Color)
      requires Valid() && currentScreen == 0
      modifies this`rows, this`numScrollbackLines
      ensures Valid() && Abs() == old(Abs()).(lines := PushHistory(old(Lines()), width, height, k))
    {
      hide RowsOk, LinesOf, BlankRow, WithBlankRows, LastAtMost, PushHistory;
      ghost var filler, blank := BlankRow(width, Unset, Plain), BlankRow(width, color, Plain);
      BlankRowIsBlank(width, Unset);
      BlankRowIsBlank(width, color);
      PushedLines(rows, width, height, k, filler, blank);
      // The console must have at least as many lines as the terminal is high
      InsertBlankLines(|rows|, if |rows| < height then height - |rows| else 0, Unset);
      ghost var full := rows;
      InsertBlankLines(|rows|, k, color);
      BlankRowsCount(old(rows), |old(rows)|, Max(0, height - |old(rows)|), filler);
      BlankRowsCount(full, |full|, k, blank);
      TrimHistory();
      assert rows == Pushed(old(rows), height, k, filler, blank);
    }

    /** Scrolls whole rows up by removing and inserting row elements. */
    method ScrollRowsUp(y: nat, h: nat, k: int, color: Color)
      requires Valid() && 0 < k <= y && y + h <= height
      modifies this`rows
      ensures Valid()
      ensures Abs() == old(Abs()).(lines := ShiftRegion(old(Lines()), width,
        Region(0, y + numScrollbackLines, width, h), 0, -k, BLANK))
    {
      hide RowsOk, LinesOf, BlankRow, ShiftRegion;
      var at := numScrollbackLines + y - k;
      BlankRowIsBlank(width, color);
      ScrollUpLines(rows, width, height, at, h, k, BlankRow(width, color, Plain));
      RemoveRows(at, k);
      if numScrollbackLines > 0 || |rows| > at + h {
        InsertBlankLines(at + h, k, color);
      }
    }

    method ScrollRowsDown(y: nat, h: nat, k: nat, color: Color)
      requires Valid() && y + h + k <= height
      modifies this`rows
      ensures Valid()
      ensures Abs() == old(Abs()).(lines := ShiftRegion(old(Lines()), width,
        Region(0, y + numScrollbackLines, width, h), 0, k, BLANK))
    {
      hide RowsOk, LinesOf, BlankRow, ShiftRegion, Without, WithBlankRows;
      BlankRowIsBlank(width, color);
      ScrollDownLines(rows, width, height, numScrollbackLines + y, h, k, BlankRow(width, color, Plain));
      RemoveRows(numScrollbackLines + y + h, k);
      InsertBlankLines(numScrollbackLines + y, k, color);
    }

    /** Moves a rectangle by copying pieces of rows, in the order that reads each before it is written. */
    method CopyRegion(g: Region, incX: int, incY: int)
      requires Valid() && g.Within(width, height) && g.Moved(incX, incY).Within(width, height)
      modifies this
      ensures Valid()
      ensures var at := g.Moved(0, old(numScrollbackLines));
        Abs() == old(Abs()).(lines := CopyRows(old(Lines()), width, at, incX, incY, at.y, at.y + at.h))
    {
      hide RowsOk, LinesOf, CopyRows, PutCells;
      ghost var lines, at := Lines(), g.Moved(0, numScrollbackLines);
      var first, last := g.y + numScrollbackLines, g.y + numScrollbackLines + g.h;
      if incY <= 0 {
        // the lines move up, or stay where they are
        var i := first;
        CopyRowsNothing(lines, width, at, incX, incY, i);
        while i < last
          invariant first <= i <= last && Valid() && numScrollbackLines == old(numScrollbackLines)
          invariant Abs() == old(Abs()).(lines := CopyRows(lines, width, at, incX, incY, first, i))
        {
          CopyRowsStep(lines, width, at, incX, incY, first, i, i);
          CopyLineSegment(g.x + incX, i + incY, g.x, i, g.w);
          i := i + 1;
        }
      } else {
        // Scrolling down
        var i := last;
        CopyRowsNothing(lines, width, at, incX, incY, i);
        while i > first
          invariant first <= i <= last && Valid() && numScrollbackLines == old(numScrollbackLines)
          invariant Abs() == old(Abs()).(lines := CopyRows(lines, width, at, incX, incY, i, last))
        {
          i := i - 1;
          CopyRowsStep(lines, width, at, incX, incY, i + 1, last, i);
          CopyLineSegment(g.x + incX, i + incY, g.x, i, g.w);
        }
      }
    }

    /** Moves a rectangle by copying, then clears the strips it leaves behind. */
    method ScrollSegments(g: Region, incX: int, incY: int, color: Color)
      requires Valid() && g.Within(width, height) && g.Moved(incX, incY).Within(width, height)
      modifies this
      ensures Valid()
      ensures Abs() == old(Abs()).(lines := ShiftRegion(old(Lines()), width, g.Moved(0, old(numScrollbackLines)),
        incX, incY, Cell(SPACE, Look(color), Plain)))
    {
      hide RowsOk, LinesOf, CopyRows, FillRegion, ShiftRegion;
      ghost var at, fill := g.Moved(0, numScrollbackLines), Cell(SPACE, Look(color), Plain);
      CopyThenClear(Lines(), width, at, incX, incY, fill);
      CopyRegion(g, incX, incY);
      ghost var copied := Lines();
      var stripX := if incX >= 0 then Region(g.x, g.y, incX, g.h) else Region(g.x + g.w + incX, g.y, -incX, g.h);
      var stripY := if incY >= 0 then Region(g.x, g.y, g.w, incY) else Region(g.x, g.y + g.h + incY, g.w, -incY);
      ClearStrip(stripX, color);
      ClearStrip(stripY, color);
    }

    /** Clears a strip, if there is one. */
    method ClearStrip(g: Region, color: Color)
      requires Valid() && g.Within(width, height)
      modifies this
      ensures Valid()
      ensures Abs() == old(Abs()).(lines := FillRegion(old(Lines()), width, g.Moved(0, old(numScrollbackLines)),
        Cell(SPACE, Look(color), Plain)))
    {
      hide RowsOk, LinesOf, FillRegion;
      if g.w > 0 && g.h > 0 {
        ClearRegion(g.x, g.y, g.w, g.h, color, Plain);
      } else {
        FillNothing(Lines(), width, g.Moved(0, numScrollbackLines), Cell(SPACE, Look(color), Plain));
      }
    }

    method ScrollWholeRows(y: nat, h: nat, incY: int, color: Color)
      requires Valid() && 0 <= y + incY && y + h <= height && y + h + incY <= height
      modifies this
      ensures Valid()
      ensures Abs() == old(Abs()).(lines :=
        if incY < 0 && old(currentScreen) == 0 && y == -incY && h == height + incY
        then PushHistory(old(Lines()), width, height, y)
        else ShiftRegion(old(Lines()), width, Region(0, y + old(numScrollbackLines), width, h), 0, incY, BLANK))
    {
      hide RowsOk, LinesOf, ShiftRegion, PushHistory;
      if incY < 0 {
        if currentScreen == 0 && y == -incY && h == height + incY {
          ScrollIntoHistory(y, color);
        } else {
          ScrollRowsUp(y, h, -incY, color);
        }
      } else {
        ScrollRowsDown(y, h, incY, color);
      }
    }

    /** Shows the other one of the two screens. */
    method SwitchScreens()
      requires Valid()
      modifies this
      ensures Valid() && Abs() == old(Abs()).(lines := old(Abs()).hidden, hidden := old(Abs()).lines,
        alternate := !old(Abs()).alternate)
    {
      hide RowsOk, LinesOf;
      rows, otherRows, currentScreen := otherRows, rows, 1 - currentScreen;
      numScrollbackLines := if |rows| > height then |rows| - height else 0;
    }

    /** Clips a rectangle so that it stays on the screen when it moves by (incX, incY). */
    method ClipToTerminal(x0: int, y0: int, w0: int, h0: int, incX: int, incY: int)
      returns (x: int, y: int, w: int, h: int)
      ensures ClipScroll(width, height, x0, y0, w0, h0, incX, incY) == if w <= 0 || h < 0 then NoScroll
        else Scrolling(Region(x, y, w, h))
    {
      x, w := ClipSide(x0, w0, width, incX);
      y, h := ClipSide(y0, h0, height, incY);
    }

    /** Moves a rectangle of the screen by (incX, incY). Whole rows are moved as elements, everything else
        is copied; the style, which can only be an underline, never fills what the rectangle leaves behind. */
    method ScrollRegion(x0: int, y0: int, w0: int, h0: int, incX: int, incY: int, color: Color, style: Style)
      requires Valid()
      modifies this
      ensures Valid() && Abs() == ScrollView(old(Abs()), x0, y0, w0, h0, incX, incY, color)
    {
      hide RowsOk, LinesOf, ShiftRegion, PushHistory, ClipScroll;
      var x, y, w, h := ClipToTerminal(x0, y0, w0, h0, incX, incY);
      if w <= 0 || h < 0 {
        return;
      }
      var cx, cy := cursorX, cursorY;
      if incX == 0 && x == 0 && w == width {
        ScrollWholeRows(y, h, incY, color);
      } else {
        ScrollSegments(Region(x, y, w, h), incX, incY, color);
      }
      MoveCursor(cx, cy);
    }
  }

  lemma PaintSpaces(w: nat, color: Color, style: Style)
    ensures Paint(Spaces(w), color, style) == Repeat(Cell(SPACE, Look(color), style), w)
  {
  }

  lemma PaintLook(text: seq<CodeUnit>, color: Color, style: Style)
    ensures Paint(text, Look(color), style) == Paint(text, color, style)
  {
  }

  lemma PutNothing(v: View, x: nat, y: nat, color: Color, style: Style)
    requires ViewOk(v) && x <= v.width && y < v.height
    ensures Put(v, x, y, [], color, style) == v.(x := Min(x, v.width - 1), y := y)
  {
    PutCellsNothing(v.lines, v.Scrollback() + y, x);
  }
}
