// The reference picture of the terminal: lines of cells. A cell is a character with a colour and a
// style; a line is a sequence of cells exactly as wide as the terminal.
module Cells {

  // A UTF-16 code unit, as JavaScript strings hold them.
  type CodeUnit = n: int | 0 <= n < 0x1_0000

  const SPACE: CodeUnit := 0x20
  const NBSP: CodeUnit := 0xA0

  // A class name of the form "ansiF bgAnsiB", or the missing/empty class name.
  datatype Color = Unset | Ansi(fg: nat, bg: nat)

  const DEFAULT_COLOR := Ansi(0, 15)

  // The only two style texts that the terminal ever produces: '' and 'text-decoration:underline;'.
  datatype Style = Plain | Underline

  datatype Cell = Cell(ch: CodeUnit, color: Color, style: Style)

  type Line = seq<Cell>

  const BLANK := Cell(SPACE, DEFAULT_COLOR, Plain)

  /** The colour that a class name displays as: a missing class shows the default colours. */
  function Look(color: Color): Color {
    if color.Unset? then DEFAULT_COLOR else color
  }

  /** The cell that one code unit displays as; a non-breaking space looks like a space. */
  function Glyph(u: CodeUnit, color: Color, style: Style): Cell {
    Cell(if u == NBSP then SPACE else u, Look(color), style)
  }

  function Paint(text: seq<CodeUnit>, color: Color, style: Style): (cells: seq<Cell>)
    ensures |cells| == |text|
  {
    seq(|text|, i requires 0 <= i < |text| => Glyph(text[i], color, style))
  }

  function Spaces(n: nat): (s: seq<CodeUnit>)
    ensures |s| == n
  {
    seq(n, _ => SPACE)
  }

  function Repeat(c: Cell, n: nat): (s: seq<Cell>)
    ensures |s| == n
  {
    seq(n, _ => c)
  }

  /** The cells, continued with default blanks up to width w. */
  function PadTo(cells: seq<Cell>, w: nat): (line: seq<Cell>)
    requires |cells| <= w
    ensures |line| == w
  {
    cells + Repeat(BLANK, w - |cells|)
  }

  /** The line with the cells from x on replaced. */
  function Overwrite(line: seq<Cell>, x: nat, cells: seq<Cell>): (r: seq<Cell>)
    requires x + |cells| <= |line|
    ensures |r| == |line|
  {
    line[..x] + cells + line[x + |cells|..]
  }

  function Max(a: int, b: int): int { if a < b then b else a }

  function Min(a: int, b: int): int { if a < b then a else b }
}
