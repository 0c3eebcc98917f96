// The terminal as a machine that takes one code unit at a time: every printable character is put on
// the screen at once, every other one changes the state of the escape parser or does what it says.
module TerminalSpec {
  import opened Cells
  import opened ScreenSpec

  datatype Charset = Latin1 | Graphics | Cp437 | DirectToFont

  type GlyphTable = t: seq<CodeUnit> | |t| == 256 witness seq(256, _ => SPACE)

  // The four translation tables. Nothing below depends on their entries.
  datatype Fonts = Fonts(latin1: GlyphTable, graphics: GlyphTable, cp437: GlyphTable, direct: GlyphTable)
  {
    function Table(c: Charset): GlyphTable {
      match c
      case Latin1 => latin1
      case Graphics => graphics
      case Cp437 => cp437
      case DirectToFont => direct
    }
  }

  // The bits of VT100.attr: two colours of four bits and the flags.
  datatype Attr = Attr(fg: nat, bg: nat, underline: bool, reverse: bool, dim: bool, bright: bool, blink: bool)

  const DEFAULT_ATTR := Attr(0, 15, false, false, false, false, false)

  // VT100.isEsc. The state ESgotpars is left in the step that enters it and has no value here.
  datatype Esc =
    | EsNormal | EsEsc | EsSquare | EsGetPars | EsDeviceAttr | EsFuncKey | EsHash | EsSetG(g: nat)
    | EsBang | EsPercent | EsNonStd | EsPalette | EsStatus | EsSS2 | EsSS3

  datatype Response = DeviceId | SecondaryDA | StatusOk | CursorAt(row: int, col: int)

  datatype Saved = NothingSaved | Saved(x: int, y: int, attr: Attr)

  datatype Modes = Modes(autoWrap: bool, insert: bool, crLf: bool, offset: bool, applKeys: bool, cursorKeys: bool,
    mouse: bool)

  datatype Glyphs = Glyphs(dispCtrl: bool, toggleMeta: bool, useG: nat, gmap: seq<Charset>, translate: Charset)

  datatype Utf = Utf(enabled: bool, count: int, bits: int)

  datatype Pen = Pen(attr: Attr, color: Color, style: Style)

  const DEFAULT_PEN := Pen(DEFAULT_ATTR, DEFAULT_COLOR, Plain)

  const DEFAULT_GLYPHS := Glyphs(false, false, 0, [Latin1, Graphics, Cp437, DirectToFont], Latin1)

  // Parameters of a control sequence; a parameter beyond the first sixteen may never have been given.
  datatype Params = Params(npar: nat, par: map<int, nat>, question: bool)

  datatype SavedState = SavedState(main: Saved, alt: Saved, useG: nat, gmap: seq<Charset>)

  // What never changes: the translation tables and whether the user prefers UTF-8.
  datatype Env = Env(fonts: Fonts, utf: bool)

  datatype Term = Term(
    v: View, esc: Esc, needWrap: bool, m: Modes, g: Glyphs, u: Utf, pen: Pen, p: Params,
    top: nat, bottom: nat, lastChar: CodeUnit, tabs: map<int, bool>, saved: SavedState, env: Env)

  /** The collected bits of a character that is still `count` continuation bytes short: fewer than
      31 - 6 * count. */
  predicate UtfOk(count: int, c: int) {
    0 <= count <= 5 && 0 <= c < [0x8000_0000, 0x200_0000, 0x8_0000, 0x2000, 0x80, 2][count]
  }

  /** What holds of the terminal at all times. */
  ghost predicate TermOk(t: Term) {
    && ViewOk(t.v)
    && t.top < t.bottom <= t.v.height
    && UtfOk(t.u.count, t.u.bits)
    && t.g.useG < 4 && |t.g.gmap| == 4 && t.saved.useG < 4 && |t.saved.gmap| == 4
    && (t.esc.EsSetG? ==> t.esc.g < 4)
  }

  /** A new terminal. */
  function Initial(width: nat, height: nat, fonts: Fonts, utf: bool): (t: Term)
    requires 0 < width && 0 < height
    ensures TermOk(t)
  {
    Term(View(width, height, BlankLines(height, width), BlankLines(height, width), false, 0, 0), EsNormal, false,
         Modes(true, false, false, false, false, false, false), DEFAULT_GLYPHS, Utf(utf, 0, 0),
         DEFAULT_PEN, Params(0, map[], false), 0, height, SPACE, map[],
         SavedState(NothingSaved, NothingSaved, 0, DEFAULT_GLYPHS.gmap), Env(fonts, utf))
  }

  // ---- Cursor movement ----

  function GotoXY(t: Term, x: int, y: int): (r: Term)
    requires TermOk(t)
    ensures TermOk(r)
  {
    hide UtfOk;
    var minY, maxY := if t.m.offset then t.top else 0, if t.m.offset then t.bottom else t.v.height;
    t.(v := t.v.(x := Max(Min(x, t.v.width - 1), 0), y := Max(Min(y, maxY - 1), minY)), needWrap := false)
  }

  function GotoXaY(t: Term, x: int, y: int): (r: Term)
    requires TermOk(t)
    ensures TermOk(r)
  {
    hide ViewOk, UtfOk;
    GotoXY(t, x, if t.m.offset then t.top + y else y)
  }

  function Scroll(t: Term, x: int, y: int, w: int, h: int, incX: int, incY: int): (r: Term)
    requires TermOk(t)
    ensures TermOk(r)
  {
    hide ViewOk, UtfOk;
    t.(v := ScrollView(t.v, x, y, w, h, incX, incY, t.pen.color))
  }

  function Erase(t: Term, x: int, y: int, w: int, h: int): (r: Term)
    requires TermOk(t)
    ensures TermOk(r)
  {
    hide ViewOk, UtfOk;
    t.(v := Clear(t.v, x, y, w, h, t.pen.color, t.pen.style))
  }

  function Bs(t: Term): (r: Term)
    requires TermOk(t)
    ensures TermOk(r)
  {
    hide ViewOk, UtfOk;
    if t.v.x > 0 then GotoXY(t, t.v.x - 1, t.v.y) else t
  }

  function Cr(t: Term): (r: Term)
    requires TermOk(t)
    ensures TermOk(r)
  {
    hide ViewOk, UtfOk;
    GotoXY(t, 0, t.v.y)
  }

  function LineFeed(t: Term): (r: Term)
    requires TermOk(t)
    ensures TermOk(r)
  {
    hide ViewOk, UtfOk;
    if t.v.y == t.bottom - 1 then Scroll(t, 0, t.top + 1, t.v.width, t.bottom - t.top - 1, 0, -1)
    else if t.v.y < t.v.height - 1 then GotoXY(t, t.v.x, t.v.y + 1)
    else t
  }

  function LineFeeds(t: Term, n: nat): (r: Term)
    requires TermOk(t)
    ensures TermOk(r)
  {
    hide ViewOk, UtfOk;
    if n == 0 then t else LineFeed(LineFeeds(t, n - 1))
  }

  /** The count of a line feed, clipped to the height of the terminal. */
  function LineCount(t: Term, count: int): nat
    requires TermOk(t)
  {
    Max(1, Min(count, t.v.height))
  }

  function ReverseFeed(t: Term): (r: Term)
    requires TermOk(t)
    ensures TermOk(r)
  {
    hide ViewOk, UtfOk;
    if t.v.y == t.top then Scroll(t, 0, t.top, t.v.width, t.bottom - t.top - 1, 0, 1)
    else if t.v.y > 0 then GotoXY(t, t.v.x, t.v.y - 1)
    else t
  }

  function ReverseFeeds(t: Term, n: nat): (r: Term)
    requires TermOk(t)
    ensures TermOk(r)
  {
    hide ViewOk, UtfOk;
    if n == 0 then t else ReverseFeed(ReverseFeeds(t, n - 1))
  }

  function Ri(t: Term, count: int): (r: Term)
    requires TermOk(t)
    ensures TermOk(r)
  {
    hide ViewOk, UtfOk;
    ReverseFeeds(t, LineCount(t, count)).(needWrap := false)
  }

  predicate IsTabStop(tabs: map<int, bool>, c: int) {
    if c in tabs then tabs[c] else c % 8 == 0
  }

  /** The next tab stop right of column c, or one column further than the loop bound. */
  function TabRight(tabs: map<int, bool>, width: nat, c: int): int
    decreases width - c
  {
    if c >= width || IsTabStop(tabs, c + 1) then c + 1 else TabRight(tabs, width, c + 1)
  }

  function TabsRight(tabs: map<int, bool>, width: nat, c: int, n: nat): int {
    if n == 0 then c else TabRight(tabs, width, TabsRight(tabs, width, c, n - 1))
  }

  function TabLeft(tabs: map<int, bool>, c: int): int
    decreases c
  {
    if c <= 0 || IsTabStop(tabs, c - 1) then c - 1 else TabLeft(tabs, c - 1)
  }

  function TabsLeft(tabs: map<int, bool>, c: int, n: nat): int {
    if n == 0 then c else TabLeft(tabs, TabsLeft(tabs, c, n - 1))
  }

  function Ht(t: Term, count: nat): (r: Term)
    requires TermOk(t)
    ensures TermOk(r)
  {
    hide ViewOk, UtfOk;
    var cx := Min(TabsRight(t.tabs, t.v.width, t.v.x, count), t.v.width - 1);
    if cx != t.v.x then GotoXY(t, cx, t.v.y) else t
  }

  function Rt(t: Term, count: nat): (r: Term)
    requires TermOk(t)
    ensures TermOk(r)
  {
    hide ViewOk, UtfOk;
    var cx := Max(TabsLeft(t.tabs, t.v.x, count), 0);
    if cx != t.v.x then GotoXY(t, cx, t.v.y) else t
  }

  // ---- Attributes ----

  function StyleOf(a: Attr): Style { if a.underline then Underline else Plain }

  function Flip8(c: nat): nat { if (c / 8) % 2 == 0 then c + 8 else c - 8 }

  /** The class name that VT100.updateStyle computes. */
  function ColorOf(a: Attr): Color {
    var bg0, fg0 := if a.reverse then a.fg else a.bg, if a.reverse then a.bg else a.fg;
    var fg1 := if a.dim && !a.reverse then 8 else if a.bright && (fg0 / 8) % 2 == 0 then fg0 + 8 else fg0;
    var bg1 := if a.blink then Flip8(bg0) else bg0;
    var fg2 := if bg1 == fg1 then (if Flip8(fg1) == 7 then 8 else Flip8(fg1)) else fg1;
    var fg3 := if bg1 == 7 && fg2 >= 8 then (if fg2 - 8 == 7 then 8 else fg2 - 8) else fg2;
    Ansi(fg3, bg1)
  }

  function WithAttr(t: Term, a: Attr): (r: Term)
    requires TermOk(t)
    ensures TermOk(r)
  {
    hide ViewOk, UtfOk;
    t.(pen := Pen(a, ColorOf(a), StyleOf(a)))
  }

  /** One parameter of "select graphic rendition". */
  function SgrAttr(a: Attr, p: nat): Attr {
    if p == 0 then DEFAULT_ATTR
    else if p == 1 then a.(dim := false, bright := true)
    else if p == 2 then a.(bright := false, dim := true)
    else if p == 4 then a.(underline := true)
    else if p == 5 then a.(blink := true)
    else if p == 7 then a.(reverse := true)
    else if p == 21 || p == 22 then a.(bright := false, dim := false)
    else if p == 24 then a.(underline := false)
    else if p == 25 then a.(blink := false)
    else if p == 27 then a.(reverse := false)
    else if p == 38 then a.(dim := false, bright := false, fg := 0, underline := true)
    else if p == 39 then a.(dim := false, bright := false, fg := 0, underline := false)
    else if p == 49 then a.(bg := 15)
    else if 30 <= p <= 37 then a.(fg := p - 30)
    else if 40 <= p <= 47 then a.(bg := p - 40)
    else a
  }

  function Sgr(t: Term, p: nat): (r: Term)
    requires TermOk(t)
    ensures TermOk(r)
  {
    hide ViewOk, UtfOk;
    if p == 10 then t.(g := t.g.(translate := t.g.gmap[t.g.useG], dispCtrl := false, toggleMeta := false))
    else if p == 11 then t.(g := t.g.(translate := Cp437, dispCtrl := true, toggleMeta := false))
    else if p == 12 then t.(g := t.g.(translate := Cp437, dispCtrl := true, toggleMeta := true))
    else t.(pen := t.pen.(attr := SgrAttr(t.pen.attr, p)))
  }

  /** The first n parameters, one after the other; a parameter that was never given is skipped. */
  function Sgrs(t: Term, n: nat): (r: Term)
    requires TermOk(t)
    ensures TermOk(r)
  {
    hide ViewOk, UtfOk, Sgr;
    if n == 0 then t
    else
      var r := Sgrs(t, n - 1);
      if n - 1 in t.p.par then Sgr(r, t.p.par[n - 1]) else r
  }

  function Csim(t: Term): (r: Term)
    requires TermOk(t)
    ensures TermOk(r)
  {
    hide ViewOk, UtfOk;
    var r := Sgrs(t, t.p.npar + 1);
    WithAttr(r, r.pen.attr)
  }

  // ---- Saving, the alternate screen, modes ----

  function SaveCursor(t: Term): (r: Term)
    requires TermOk(t)
    ensures TermOk(r)
  {
    hide ViewOk, UtfOk;
    var s := Saved(t.v.x, t.v.y, t.pen.attr);
    if t.v.alternate then t.(saved := SavedState(t.saved.main, s, t.g.useG, t.g.gmap))
    else t.(saved := SavedState(s, t.saved.alt, t.g.useG, t.g.gmap))
  }

  function RestoreCursor(t: Term): (r: Term)
    requires TermOk(t)
    ensures TermOk(r)
  {
    hide ViewOk, UtfOk;
    match if t.v.alternate then t.saved.alt else t.saved.main
    case NothingSaved => t
    case Saved(x, y, attr) =>
      GotoXY(WithAttr(t, attr).(g := t.g.(useG := t.saved.useG, gmap := t.saved.gmap,
        translate := t.saved.gmap[t.saved.useG]), needWrap := false), x, y)
  }

  /** The other one of the two screens becomes the active one. */
  function SwitchView(v: View): (r: View)
    requires ViewOk(v)
    ensures ViewOk(r)
  {
    v.(lines := v.hidden, hidden := v.lines, alternate := !v.alternate)
  }

  function EnableAlternateScreen(t: Term, state: bool): (r: Term)
    requires TermOk(t)
    ensures TermOk(r)
  {
    hide ViewOk, UtfOk;
    if state == t.v.alternate then t
    else if state then
      var s := SaveCursor(t);
      var u := GotoXY(s.(v := SwitchView(s.v)), 0, 0);
      u.(v := Clear(u.v, 0, 0, u.v.width, u.v.height, Unset, Plain))
    else RestoreCursor(t.(v := SwitchView(t.v)))
  }

  /** The part of a reset that does not touch the screen. */
  function ResetModes(t: Term): (r: Term)
    requires TermOk(t)
    ensures TermOk(r)
  {
    hide ViewOk;
    t.(esc := EsNormal, needWrap := false, m := Modes(true, false, false, false, false, false, false),
      g := DEFAULT_GLYPHS, u := Utf(t.env.utf, 0, 0), pen := DEFAULT_PEN,
      top := 0, bottom := t.v.height, lastChar := SPACE, tabs := map[])
  }

  function Reset(t: Term): (r: Term)
    requires TermOk(t)
    ensures TermOk(r)
  {
    hide ViewOk, UtfOk;
    var w := GotoXY(EnableAlternateScreen(ResetModes(t), false), 0, 0);
    Erase(w, 0, 0, w.v.width, w.v.height)
  }

  function Mode(t: Term, p: nat, state: bool): (r: Term)
    requires TermOk(t)
    ensures TermOk(r)
  {
    hide ViewOk, UtfOk;
    if t.p.question then
      if p == 1 then t.(m := t.m.(cursorKeys := state))
      else if p == 6 then t.(m := t.m.(offset := state))
      else if p == 7 then t.(m := t.m.(autoWrap := state))
      else if p == 9 || p == 1000 then t.(m := t.m.(mouse := state))
      else if p == 47 || p == 1047 || p == 1049 then EnableAlternateScreen(t, state)
      else t
    else if p == 3 then t.(g := t.g.(dispCtrl := state))
    else if p == 4 then t.(m := t.m.(insert := state))
    else if p == 20 then t.(m := t.m.(crLf := state))
    else t
  }

  function SetModes(t: Term, n: nat, state: bool): (r: Term)
    requires TermOk(t)
    ensures TermOk(r)
  {
    hide ViewOk, UtfOk, Mode;
    if n == 0 then t
    else
      var r := SetModes(t, n - 1, state);
      if n - 1 in t.p.par then Mode(r, t.p.par[n - 1], state) else r
  }

  // ---- Editing ----

  /** A count of characters or lines: 0 stands for 1, and there are no more than `limit`. */
  function Count(number: nat, limit: int): int { Min(if number == 0 then 1 else number, limit) }

  /** Insert spaces. */
  function CsiAt(t: Term, number: nat): (r: Term)
    requires TermOk(t)
    ensures TermOk(r)
  {
    hide ViewOk, UtfOk;
    var n := Count(number, t.v.width - t.v.x);
    Scroll(t, t.v.x, t.v.y, t.v.width - t.v.x - n, 1, n, 0).(needWrap := false)
  }

  /** Delete characters. */
  function CsiP(t: Term, number: nat): (r: Term)
    requires TermOk(t)
    ensures TermOk(r)
  {
    hide ViewOk, UtfOk;
    var n := Count(number, t.v.width - t.v.x);
    Scroll(t, t.v.x + n, t.v.y, t.v.width - t.v.x - n, 1, -n, 0)
  }

  /** Insert lines. */
  function CsiL(t: Term, number: nat): (r: Term)
    requires TermOk(t)
    ensures TermOk(r)
  {
    hide ViewOk, UtfOk;
    if t.v.y >= t.bottom then t
    else
      var n := Count(number, t.bottom - t.v.y);
      Scroll(t, 0, t.v.y, t.v.width, t.bottom - t.v.y - n, 0, n)
  }

  /** Delete lines. */
  function CsiM(t: Term, number: nat): (r: Term)
    requires TermOk(t)
    ensures TermOk(r)
  {
    hide ViewOk, UtfOk;
    if t.v.y >= t.bottom then t
    else
      var n := Count(number, t.bottom - t.v.y);
      Scroll(t, 0, t.v.y + n, t.v.width, t.bottom - t.v.y - n, 0, -n)
  }

  /** Erase characters. */
  function CsiX(t: Term, number: nat): (r: Term)
    requires TermOk(t)
    ensures TermOk(r)
  {
    hide ViewOk, UtfOk;
    Erase(t, t.v.x, t.v.y, Count(number, t.v.width - t.v.x), 1)
  }

  /** Erase in display. */
  function CsiJ(t: Term, number: nat): (r: Term)
    requires TermOk(t)
    ensures TermOk(r)
  {
    hide ViewOk, UtfOk;
    if number == 0 then
      var u := Erase(t, t.v.x, t.v.y, t.v.width - t.v.x, 1);
      if u.v.y < u.v.height - 2 then Erase(u, 0, u.v.y + 1, u.v.width, u.v.height - u.v.y - 1) else u
    else if number == 1 then
      var u := if t.v.y > 0 then Erase(t, 0, 0, t.v.width, t.v.y) else t;
      Erase(u, 0, u.v.y, u.v.x + 1, 1)
    else if number == 2 then Erase(t, 0, 0, t.v.width, t.v.height)
    else t
  }

  /** Erase in line. */
  function CsiK(t: Term, number: nat): (r: Term)
    requires TermOk(t)
    ensures TermOk(r)
  {
    hide ViewOk, UtfOk;
    if number == 0 then Erase(t, t.v.x, t.v.y, t.v.width - t.v.x, 1)
    else if number == 1 then Erase(t, 0, t.v.y, t.v.x + 1, 1)
    else if number == 2 then Erase(t, 0, t.v.y, t.v.width, 1)
    else t
  }

  // ---- The escape parser ----

  /** A parameter as a count: one that is 0 or was not given stands for 1. */
  function ParOr1(t: Term, i: nat): nat {
    if i in t.p.par && t.p.par[i] != 0 then t.p.par[i] else 1
  }

  function Par(t: Term, i: nat): nat {
    if i in t.p.par then t.p.par[i] else 0
  }

  function Zeros(n: nat): map<int, nat> {
    if n == 0 then map[] else Zeros(n - 1)[n - 1 := 0]
  }

  /** The character with the meta bit that is looked up in a translation table. */
  function MetaIndex(t: Term, ch: CodeUnit): (i: nat)
    requires ch < 256
    ensures i < 256
  {
    if t.g.toggleMeta && ch < 128 then ch + 128 else ch
  }

  // What becomes of a character on its way to the screen.
  datatype Glyphed = Skip | Draw(u: CodeUnit)

  function Render(fonts: Fonts, table: Charset, t: Term, ch: CodeUnit): Glyphed {
    var u := if ch < 256 then fonts.Table(table)[MetaIndex(t, ch)] else ch;
    if u / 256 == 0xF0 then Draw(u % 256)
    else if u == 0xFEFF || 0x200A <= u <= 0x200F then Skip
    else Draw(u)
  }

  /** The parser state that a character behind an escape leads to. */
  function Introduced(ch: CodeUnit): (e: Esc)
    ensures e.EsSetG? ==> e.g < 4
  {
    if ch == 0x25 then EsPercent
    else if ch == 0x28 then EsSetG(0)
    else if ch == 0x2D || ch == 0x29 then EsSetG(1)
    else if ch == 0x2E || ch == 0x2A then EsSetG(2)
    else if ch == 0x2F || ch == 0x2B then EsSetG(3)
    else if ch == 0x23 then EsHash
    else if ch == 0x4E then EsSS2
    else if ch == 0x4F then EsSS3
    else if ch == 0x5B then EsSquare
    else if ch == 0x5D then EsNonStd
    else EsNormal
  }

  /** The characters behind an escape that save, restore or move the cursor, or reset the terminal. */
  function EscCursor(t: Term, ch: CodeUnit): (r: Term)
    requires TermOk(t)
    ensures TermOk(r)
  {
    hide ViewOk, UtfOk;
    if ch == 0x37 then SaveCursor(t)
    else if ch == 0x38 then RestoreCursor(t)
    else if ch == 0x44 then LineFeed(t)
    else if ch == 0x45 then LineFeed(Cr(t))
    else if ch == 0x4D then Ri(t, 1)
    else Reset(t)
  }

  function EscEsc(t0: Term, ch: CodeUnit): (r: Term)
    requires TermOk(t0)
    ensures TermOk(r)
  {
    hide ViewOk, UtfOk, Introduced, EscCursor;
    var t := t0.(esc := EsNormal);
    if ch in {0x37, 0x38, 0x44, 0x45, 0x4D, 0x63} then EscCursor(t, ch)
    else if ch == 0x3E then t.(m := t.m.(applKeys := false))
    else if ch == 0x3D then t.(m := t.m.(applKeys := true))
    else if ch == 0x48 then SetTab(t, true)
    else t0.(esc := Introduced(ch))
  }

  function EscNonStd(t: Term, ch: CodeUnit): (r: Term)
    requires TermOk(t)
    ensures TermOk(r)
  {
    hide ViewOk, UtfOk;
    if 0x30 <= ch <= 0x32 then t.(esc := EsStatus)
    else if ch == 0x50 then StartPars(t, 7, EsPalette)
    else t.(esc := EsNormal)
  }

  function EscPalette(t: Term, ch: CodeUnit): (r: Term)
    requires TermOk(t)
    ensures TermOk(r)
  {
    hide ViewOk, UtfOk;
    if 0x30 <= ch <= 0x39 || 0x41 <= ch <= 0x46 || 0x61 <= ch <= 0x66 then
      var digit := if ch <= 0x39 then ch - 0x30 else if ch <= 0x46 then ch - 55 else ch - 87;
      var u := t.(p := t.p.(par := t.p.par[t.p.npar := digit], npar := t.p.npar + 1));
      if t.p.npar + 1 == 7 then u.(esc := EsNormal) else u
    else t.(esc := EsNormal)
  }

  lemma ZerosAreZero(n: nat, i: nat)
    requires i < n
    ensures i in Zeros(n) && Zeros(n)[i] == 0
  {
  }

  /** A control sequence begins: no parameters yet. */
  function StartPars(t: Term, n: nat, esc: Esc): (r: Term)
    requires TermOk(t) && !esc.EsSetG?
    ensures TermOk(r)
  {
    hide ViewOk, UtfOk;
    t.(p := t.p.(npar := 0, par := Zeros(n)), esc := esc)
  }

  function WithQuestion(t: Term, question: bool): (r: Term)
    requires TermOk(t)
    ensures TermOk(r)
  {
    hide ViewOk, UtfOk;
    t.(p := t.p.(question := question))
  }

  function EscSquare(t: Term, ch: CodeUnit): (r: Term)
    requires TermOk(t)
    ensures TermOk(r)
  {
    hide ViewOk, UtfOk, EscGetPars, StartPars;
    if ch == 0x5B then StartPars(t, 16, EsGetPars).(esc := EsFuncKey)
    else if ch == 0x3F then WithQuestion(StartPars(t, 16, EsGetPars), true)
    else EscGetPars(WithQuestion(StartPars(t, 16, EsGetPars), false), ch)
  }

  /** A digit of the current parameter, or a semicolon behind it. */
  function WithCharacter(p: Params, ch: CodeUnit): Params
    requires ch == 0x3B || 0x30 <= ch <= 0x39
  {
    if ch == 0x3B then p.(npar := p.npar + 1)
    else p.(par := p.par[p.npar := 10 * (if p.npar in p.par then p.par[p.npar] else 0) + (ch - 0x30)])
  }

  function EscGetPars(t: Term, ch: CodeUnit): (r: Term)
    requires TermOk(t)
    ensures TermOk(r)
  {
    hide ViewOk, UtfOk, EscGotPars;
    if ch == 0x3B || 0x30 <= ch <= 0x39 then t.(p := WithCharacter(t.p, ch))
    else if t.esc.EsDeviceAttr? then t.(esc := EsNormal)
    else EscGotPars(t.(esc := EsNormal), ch)
  }

  /** The final character of a control sequence. */
  function EscGotPars(t: Term, ch: CodeUnit): (r: Term)
    requires TermOk(t)
    ensures TermOk(r)
  {
    hide ViewOk, UtfOk, CsiMove, CsiEdit, CsiOther, SetModes, WithQuestion;
    if t.p.question then
      WithQuestion(if ch == 0x68 then SetModes(t, t.p.npar + 1, true)
        else if ch == 0x6C then SetModes(t, t.p.npar + 1, false) else t, false)
    else if ch == 0x21 then t.(esc := EsBang)
    else if ch == 0x3E then (if t.p.npar == 0 then t.(esc := EsDeviceAttr) else t)
    else if 0x40 <= ch <= 0x49 || ch in {0x60, 0x61, 0x64, 0x65, 0x66, 0x5A} then CsiMove(t, ch)
    else if 0x4A <= ch <= 0x58 then CsiEdit(t, ch)
    else CsiOther(t, ch)
  }

  /** Sequences that move the cursor. */
  function CsiMove(t: Term, ch: CodeUnit): (r: Term)
    requires TermOk(t)
    ensures TermOk(r)
  {
    hide ViewOk, UtfOk;
    var n := ParOr1(t, 0);
    if ch == 0x40 then CsiAt(t, Par(t, 0))
    else if ch == 0x47 || ch == 0x60 then GotoXY(t, Par(t, 0) - 1, t.v.y)
    else if ch == 0x41 then GotoXY(t, t.v.x, t.v.y - n)
    else if ch == 0x42 || ch == 0x65 then GotoXY(t, t.v.x, t.v.y + n)
    else if ch == 0x43 || ch == 0x61 then GotoXY(t, t.v.x + n, t.v.y)
    else if ch == 0x44 then GotoXY(t, t.v.x - n, t.v.y)
    else if ch == 0x45 then GotoXY(t, 0, t.v.y + n)
    else if ch == 0x46 then GotoXY(t, 0, t.v.y - n)
    else if ch == 0x64 then GotoXaY(t, t.v.x, Par(t, 0) - 1)
    else if ch == 0x48 || ch == 0x66 then GotoXaY(t, Par(t, 1) - 1, Par(t, 0) - 1)
    else if ch == 0x49 then Ht(t, n)
    else Rt(t, n)
  }

  /** Sequences that change what is on the screen. */
  function CsiEdit(t: Term, ch: CodeUnit): (r: Term)
    requires TermOk(t)
    ensures TermOk(r)
  {
    hide ViewOk, UtfOk;
    if ch == 0x4A then CsiJ(t, Par(t, 0))
    else if ch == 0x4B then CsiK(t, Par(t, 0))
    else if ch == 0x4C then CsiL(t, Par(t, 0))
    else if ch == 0x4D then CsiM(t, Par(t, 0))
    else if ch == 0x50 then CsiP(t, Par(t, 0))
    else if ch == 0x58 then CsiX(t, Par(t, 0))
    else if ch == 0x53 then LineFeeds(t, LineCount(t, ParOr1(t, 0)))
    else if ch == 0x54 then Ri(t, ParOr1(t, 0))
    else t
  }

  function SetTab(t: Term, stop: bool): (r: Term)
    requires TermOk(t)
    ensures TermOk(r)
  {
    hide ViewOk, UtfOk;
    t.(tabs := t.tabs[t.v.x := stop])
  }

  /** Clearing a tab stop: the one at the cursor, or all of them. */
  function ClearTab(t: Term, which: nat): (r: Term)
    requires TermOk(t)
    ensures TermOk(r)
  {
    hide ViewOk, UtfOk;
    if which == 0 then SetTab(t, false)
    else if which == 2 || which == 3 then t.(tabs := ClearedTabs(t.v.width))
    else t
  }

  /** Setting the scroll region moves the cursor to its home position. */
  function SetMargins(t: Term, top: nat, bottom: nat): (r: Term)
    requires TermOk(t) && 0 < top
    ensures TermOk(r)
  {
    hide ViewOk, UtfOk;
    if top < bottom <= t.v.height then GotoXaY(t.(top := top - 1, bottom := bottom), 0, 0) else t
  }

  function ClearedTabs(width: nat): map<int, bool> {
    if width == 0 then map[] else ClearedTabs(width - 1)[width - 1 := false]
  }

  /** Sequences that change modes, margins and tab stops, or save and restore the cursor. */
  function CsiOther(t: Term, ch: CodeUnit): (r: Term)
    requires TermOk(t)
    ensures TermOk(r)
  {
    hide ViewOk, UtfOk, Csim, SetModes, SaveCursor, RestoreCursor, ClearTab, SetMargins;
    if ch == 0x6D then Csim(t)
    else if ch == 0x67 then ClearTab(t, Par(t, 0))
    else if ch == 0x68 then SetModes(t, t.p.npar + 1, true)
    else if ch == 0x6C then SetModes(t, t.p.npar + 1, false)
    else if ch == 0x72 then SetMargins(t, ParOr1(t, 0), if Par(t, 1) != 0 then Par(t, 1) else t.v.height)
    else if ch == 0x73 then SaveCursor(t)
    else if ch == 0x75 then RestoreCursor(t)
    else t
  }

  // ---- Answers to the host ----

  /** The cursor position as VT100.cursorReport gives it. */
  function CursorReport(t: Term): Response {
    CursorAt(t.v.y + (if t.m.offset then t.top + 1 else 1), t.v.x + 1)
  }

  function CsiReply(t: Term, ch: CodeUnit): seq<Response> {
    if t.p.question then []
    else if ch == 0x63 && Par(t, 0) == 0 then [DeviceId]
    else if ch == 0x6E && Par(t, 0) == 5 then [StatusOk]
    else if ch == 0x6E && Par(t, 0) == 6 then [CursorReport(t)]
    else []
  }

  function ParsReply(t: Term, ch: CodeUnit): seq<Response> {
    if t.esc.EsDeviceAttr? then (if ch == 0x63 && 0 in t.p.par && t.p.par[0] == 0 then [SecondaryDA] else [])
    else CsiReply(t, ch)
  }

  function ParsExpansion(t: Term, ch: CodeUnit): seq<CodeUnit>
    requires TermOk(t)
  {
    if ch == 0x62 && !t.p.question && !t.esc.EsDeviceAttr? then Copies(t.lastChar, RepeatCount(t)) else []
  }

  /** What VT100.doControl appends to the answer string. */
  function Reply(t: Term, ch: CodeUnit): seq<Response> {
    if IsControl(t, ch) then (if ch == 0x9A then [DeviceId] else [])
    else match t.esc
      case EsEsc => if ch == 0x5A then [DeviceId] else []
      case EsSquare => if ch == 0x63 then [DeviceId] else []
      case EsGetPars => ParsReply(t, ch)
      case EsDeviceAttr => ParsReply(t, ch)
      case _ => []
  }

  function EscSetG(t: Term, g: nat, ch: CodeUnit): (r: Term)
    requires TermOk(t) && g < 4
    ensures TermOk(r)
  {
    hide ViewOk, UtfOk;
    var gmap := if ch == 0x30 then t.g.gmap[g := Graphics] else if ch == 0x42 then t.g.gmap[g := Latin1]
      else if ch == 0x55 then t.g.gmap[g := Cp437] else if ch == 0x4B then t.g.gmap[g := DirectToFont] else t.g.gmap;
    if t.g.useG == g then t.(esc := EsNormal, g := t.g.(gmap := gmap, translate := gmap[g]))
    else t.(esc := EsNormal, g := t.g.(gmap := gmap))
  }

  /** What a single shift makes of the character behind it, with the table G2 or G3. */
  function Shifted(t: Term, g: nat, ch: CodeUnit): Glyphed
    requires TermOk(t) && g < 4
  {
    if ch < 256 then Render(t.env.fonts, t.g.gmap[g], t, ch) else Draw(ch)
  }

  function EscShift(t: Term, g: nat, ch: CodeUnit): (r: Term)
    requires TermOk(t) && g < 4
    ensures TermOk(r)
  {
    hide ViewOk, UtfOk;
    match Shifted(t, g, ch)
    case Skip => t.(esc := EsNormal)
    case Draw(u) => t.(esc := EsNormal, lastChar := u)
  }

  function EscPercent(t: Term, ch: CodeUnit): (r: Term)
    requires TermOk(t)
    ensures TermOk(r)
  {
    hide ViewOk, UtfOk;
    if ch == 0x40 then t.(esc := EsNormal, u := t.u.(enabled := false))
    else if ch == 0x47 || ch == 0x38 then t.(esc := EsNormal, u := t.u.(enabled := true))
    else t.(esc := EsNormal)
  }

  /** A character that belongs to an escape sequence. */
  function EscChar(t: Term, ch: CodeUnit): (r: Term)
    requires TermOk(t)
    ensures TermOk(r)
  {
    hide ViewOk, UtfOk, EscEsc, EscSquare, EscGetPars, EscSetG, EscNonStd, EscPalette, EscShift, EscPercent;
    match t.esc
    case EsNormal => t
    case EsEsc => EscEsc(t, ch)
    case EsSquare => EscSquare(t, ch)
    case EsGetPars => EscGetPars(t, ch)
    case EsDeviceAttr => EscGetPars(t, ch)
    case EsFuncKey => t.(esc := EsNormal)
    case EsHash => t.(esc := EsNormal)
    case EsSetG(g) => EscSetG(t, g, ch)
    case EsBang => t.(esc := EsNormal)
    case EsPercent => EscPercent(t, ch)
    case EsNonStd => EscNonStd(t, ch)
    case EsPalette => EscPalette(t, ch)
    case EsStatus => if ch == 0x07 then t.(esc := EsNormal) else t
    case EsSS2 => EscShift(t, 2, ch)
    case EsSS3 => EscShift(t, 3, ch)
  }

  function Copies(c: CodeUnit, n: nat): seq<CodeUnit> {
    seq(n, _ => c)
  }

  lemma OneCopy(c: CodeUnit)
    ensures Copies(c, 1) == [c]
  {
  }

  /** How often "repeat" repeats. */
  function RepeatCount(t: Term): nat
    requires TermOk(t)
  {
    Min(ParOr1(t, 0), t.v.width * t.v.height)
  }

  /** The string that VT100.doControl wants to have fed to the terminal next: the repetitions of "repeat",
      or the character behind a single shift. */
  function Expansion(t: Term, ch: CodeUnit): seq<CodeUnit>
    requires TermOk(t)
  {
    if IsControl(t, ch) then []
    else match t.esc
      case EsSquare => if ch == 0x62 then [t.lastChar] else []
      case EsGetPars => ParsExpansion(t, ch)
      case EsSS2 => (match Shifted(t, 2, ch) case Skip => [] case Draw(u) => [u])
      case EsSS3 => (match Shifted(t, 3, ch) case Skip => [] case Draw(u) => [u])
      case _ => []
  }

  // Characters that act in whatever state the parser is in.
  predicate IsControl(t: Term, ch: CodeUnit) {
    || ch in {0x00, 0x08, 0x09, 0x0A, 0x0B, 0x0C, 0x0D, 0x0E, 0x0F, 0x18, 0x1A, 0x1B, 0x7F}
    || ch in {0x84, 0x85, 0x88, 0x8D, 0x8E, 0x8F, 0x9A, 0x9B}
    || (ch == 0x07 && !t.esc.EsStatus?)
  }

  /** The parser state that a control character leads to. */
  function Announced(ch: CodeUnit): (e: Esc)
    ensures !e.EsSetG?
  {
    if ch == 0x1B then EsEsc else if ch == 0x8E then EsSS2 else if ch == 0x8F then EsSS3
    else if ch == 0x9B then EsSquare
    else EsNormal
  }

  /** G0 or G1 becomes the character set in use. */
  function LockingShift(t: Term, g: nat): (r: Term)
    requires TermOk(t) && g < 2
    ensures TermOk(r)
  {
    hide ViewOk, UtfOk;
    t.(g := t.g.(useG := g, translate := t.g.gmap[g], dispCtrl := g == 1))
  }

  function NewLine(t: Term): (r: Term)
    requires TermOk(t)
    ensures TermOk(r)
  {
    hide ViewOk, UtfOk;
    var u := LineFeed(t);
    if u.m.crLf then Cr(u) else u
  }

  function ControlChar(t: Term, ch: CodeUnit): (r: Term)
    requires TermOk(t)
    ensures TermOk(r)
  {
    hide ViewOk, UtfOk, Announced;
    if ch in {0x18, 0x1A, 0x1B, 0x8E, 0x8F, 0x9B} then t.(esc := Announced(ch))
    else if ch == 0x08 then Bs(t)
    else if ch == 0x09 then Ht(t, 1)
    else if ch in {0x0A, 0x0B, 0x0C, 0x84} then NewLine(t)
    else if ch == 0x0D then Cr(t)
    else if ch == 0x85 then LineFeed(Cr(t))
    else if ch == 0x0E then LockingShift(t, 1)
    else if ch == 0x0F then LockingShift(t, 0)
    else if ch == 0x88 then SetTab(t, true)
    else if ch == 0x8D then Ri(t, 1)
    else t
  }

  /** VT100.doControl: the new state. */
  function Control(t: Term, ch: CodeUnit): (r: Term)
    requires TermOk(t)
    ensures TermOk(r)
  {
    hide ViewOk, UtfOk, ControlChar, EscChar;
    if IsControl(t, ch) then ControlChar(t, ch) else EscChar(t, ch)
  }

  // ---- The incremental UTF-8 decoder ----

  datatype Decoded = Pending | Char(ch: CodeUnit)

  /** JavaScript's (c << 6) | low, with its wrap-around to 32 bits, for six low bits. */
  function ShiftIn(c: int, low: int): int {
    var u := (c * 64 + low) % 0x1_0000_0000;
    if u >= 0x8000_0000 then u - 0x1_0000_0000 else u
  }

  /** The number of continuation bytes that a leading byte announces, and the bits it carries. */
  function Leading(ch: CodeUnit): (nat, nat) {
    var b := ch % 256;
    if b / 32 == 6 then (1, b % 32)
    else if b / 16 == 14 then (2, b % 16)
    else if b / 8 == 30 then (3, b % 8)
    else if b / 4 == 62 then (4, b % 4)
    else if b / 2 == 126 then (5, b % 2)
    else (0, 0)
  }

  predicate IsContinuation(t: Term, ch: CodeUnit) {
    ch > 0x7F && t.u.count > 0 && (ch % 256) / 64 == 2
  }

  /** The character that this byte completes, if any. */
  function Decode(t: Term, ch: CodeUnit): Decoded {
    if !t.u.enabled || ch <= 0x7F then Char(ch)
    else if IsContinuation(t, ch) && t.u.count == 1 then
      var c := ShiftIn(t.u.bits, ch % 64);
      Char(if c > 0xFFFF || c < 0 then 0xFFFD else c)
    else Pending
  }

  function DecodeState(t: Term, ch: CodeUnit): (r: Term)
    requires TermOk(t)
    ensures TermOk(r)
  {
    hide ViewOk, UtfOk, Leading, ShiftIn;
    DecodeOk(t, ch);
    if !t.u.enabled then t
    else if ch <= 0x7F then t.(u := t.u.(count := 0))
    else if IsContinuation(t, ch) then t.(u := t.u.(bits := ShiftIn(t.u.bits, ch % 64), count := t.u.count - 1))
    else if Leading(ch).0 == 0 then t.(u := t.u.(count := 0))
    else t.(u := t.u.(count := Leading(ch).0, bits := Leading(ch).1))
  }

  /** The decoder's accumulator never overflows 32 bits, so the shift is one of plain numbers. */
  lemma ShiftInOk(count: int, c: int, low: int)
    requires UtfOk(count, c) && count > 0 && 0 <= low < 64
    ensures ShiftIn(c, low) == c * 64 + low && UtfOk(count - 1, ShiftIn(c, low))
  {
  }

  lemma LeadingOk(ch: CodeUnit)
    ensures UtfOk(Leading(ch).0, Leading(ch).1)
  {
  }

  lemma DecodeOk(t: Term, ch: CodeUnit)
    requires TermOk(t)
    ensures UtfOk(0, t.u.bits) && UtfOk(Leading(ch).0, Leading(ch).1)
    ensures IsContinuation(t, ch) ==> UtfOk(t.u.count - 1, ShiftIn(t.u.bits, ch % 64))
  {
    hide ViewOk, Leading, ShiftIn;
    LeadingOk(ch);
    if IsContinuation(t, ch) {
      ShiftInOk(t.u.count, t.u.bits, ch % 64);
    }
  }

  // ---- Characters ----

  predicate CtrlAction(i: nat) { i in {0, 7, 8, 9, 10, 11, 12, 13, 14, 15, 24, 26, 27} }

  predicate CtrlAlways(i: nat) { i in {0, 8, 10, 12, 13, 14, 15, 27} }

  predicate IsNormal(t: Term, ch: CodeUnit) {
    && (32 <= ch <= 127 || ch >= 160 || (t.u.enabled && ch >= 128)
        || !(if t.g.dispCtrl then CtrlAlways(ch % 32) else CtrlAction(ch % 32)))
    && (ch != 0x7F || t.g.dispCtrl)
  }

  /** One printable character: a pending line wrap, insert mode, the character itself. */
  function Print(t: Term, u: CodeUnit): (r: Term)
    requires TermOk(t)
    ensures TermOk(r)
  {
    hide ViewOk, UtfOk;
    PutChar(BeforeChar(t), u)
  }

  function BeforeChar(t: Term): (r: Term)
    requires TermOk(t)
    ensures TermOk(r)
  {
    hide ViewOk, UtfOk;
    var t1 := if t.needWrap then LineFeed(Cr(t)) else t;
    if t1.m.insert then Scroll(t1, t1.v.x, t1.v.y, t1.v.width - t1.v.x - 1, 1, 1, 0) else t1
  }

  function PutChar(t: Term, u: CodeUnit): (r: Term)
    requires TermOk(t)
    ensures TermOk(r)
  {
    hide UtfOk;
    t.(v := Put(t.v, t.v.x, t.v.y, [u], t.pen.color, t.pen.style), lastChar := u,
       needWrap := if t.v.x + 1 >= t.v.width then t.m.autoWrap else t.needWrap)
  }

  // ---- Feeding strings ----

  /** A decoded character that is printed. */
  predicate IsPrinted(t: Term, ch: CodeUnit) {
    IsNormal(t, ch) && t.esc.EsNormal?
  }

  /** One decoded character. */
  function StepChar(t: Term, ch: CodeUnit): (r: Term)
    requires TermOk(t)
    ensures TermOk(r)
  {
    hide ViewOk, UtfOk, Control, Print;
    if IsPrinted(t, ch) then
      match Render(t.env.fonts, t.g.translate, t, ch)
      case Skip => t
      case Draw(u) => Print(t, u)
    else Control(t, ch)
  }

  /** One code unit, without what it expands to. */
  function Step(t: Term, ch: CodeUnit): (r: Term)
    requires TermOk(t)
    ensures TermOk(r)
  {
    hide ViewOk, UtfOk, StepChar, Decode, DecodeState;
    match Decode(t, ch)
    case Pending => DecodeState(t, ch)
    case Char(c) => StepChar(DecodeState(t, ch), c)
  }

  /** What one code unit expands to. */
  function StepExpansion(t: Term, ch: CodeUnit): seq<CodeUnit>
    requires TermOk(t)
  {
    match Decode(t, ch)
    case Pending => []
    case Char(c) => if IsPrinted(DecodeState(t, ch), c) then [] else Expansion(DecodeState(t, ch), c)
  }

  function StepReply(t: Term, ch: CodeUnit): seq<Response>
    requires TermOk(t)
  {
    match Decode(t, ch)
    case Pending => []
    case Char(c) => if IsPrinted(DecodeState(t, ch), c) then [] else Reply(DecodeState(t, ch), c)
  }

  /** A string none of whose characters expands to anything. */
  function Steps(t: Term, s: seq<CodeUnit>): (r: Term)
    requires TermOk(t)
    ensures TermOk(r)
  {
    if s == [] then t else Step(Steps(t, s[..|s| - 1]), s[|s| - 1])
  }

  function StepsReply(t: Term, s: seq<CodeUnit>): seq<Response>
    requires TermOk(t)
  {
    if s == [] then [] else StepsReply(t, s[..|s| - 1]) + StepReply(Steps(t, s[..|s| - 1]), s[|s| - 1])
  }

  /** One code unit and what it expands to. */
  function Feed(t: Term, ch: CodeUnit): (r: Term)
    requires TermOk(t)
    ensures TermOk(r)
  {
    Steps(Step(t, ch), StepExpansion(t, ch))
  }

  function FeedReply(t: Term, ch: CodeUnit): seq<Response>
    requires TermOk(t)
  {
    StepReply(t, ch) + StepsReply(Step(t, ch), StepExpansion(t, ch))
  }

  /** The reference terminal: the string one code unit after the other, each shown at once. */
  function Run(t: Term, s: seq<CodeUnit>): (r: Term)
    requires TermOk(t)
    ensures TermOk(r)
  {
    if s == [] then t else Feed(Run(t, s[..|s| - 1]), s[|s| - 1])
  }

  function RunReply(t: Term, s: seq<CodeUnit>): seq<Response>
    requires TermOk(t)
  {
    if s == [] then [] else RunReply(t, s[..|s| - 1]) + FeedReply(Run(t, s[..|s| - 1]), s[|s| - 1])
  }
}
