// What holds over whole runs of the terminal: text is never drawn in the colour of its background, and the
// main screen with its history, cursor and attributes survives whatever happens on the alternate one.
module TerminalRuns {
  import opened Cells
  import opened ScreenSpec
  import opened TerminalSpec
  import opened Batching
  import opened TerminalInput
  import EditingTheorems

  predicate AttrOk(a: Attr) { a.fg < 16 && a.bg < 16 }

  predicate SavedOk(s: Saved) { s.Saved? ==> AttrOk(s.attr) }

  // The colours of the pen differ, and so will those of every pen that can be restored.
  predicate Legible(t: Term) {
    && AttrOk(t.pen.attr) && SavedOk(t.saved.main) && SavedOk(t.saved.alt)
    && t.pen.color.Ansi? && t.pen.color.fg != t.pen.color.bg
  }

  /** What VT100.updateStyle chooses never paints text in its background colour. */
  lemma ColorsDiffer(a: Attr)
    requires AttrOk(a)
    ensures ColorOf(a).Ansi? && ColorOf(a).fg < 16 && ColorOf(a).bg < 16 && ColorOf(a).fg != ColorOf(a).bg
  {
  }

  predicate ColorOk(color: Color) { Look(color).fg != Look(color).bg }

  predicate LinesLegible(lines: seq<Line>) {
    forall i, j :: 0 <= i < |lines| && 0 <= j < |lines[i]| ==> lines[i][j].color.Ansi? && ColorOk(lines[i][j].color)
  }

  // No cell of either screen, nor of the history, has the colour of its background.
  predicate Shown(v: View) { LinesLegible(v.lines) && LinesLegible(v.hidden) }

  /** The lines that have been scrolled off the main screen, whichever screen is shown. */
  function MainHistory(v: View): seq<Line> {
    var lines := if v.alternate then v.hidden else v.lines;
    if |lines| >= v.height then lines[..|lines| - v.height] else []
  }

  // The history h' is h with more lines appended, cut to the newest 500.
  ghost predicate Extends(h: seq<Line>, h': seq<Line>) {
    h' == h || exists more: seq<Line> :: h' == LastAtMost(h + more, 500)
  }

  lemma ExtendsTransitive(a: seq<Line>, b: seq<Line>, c: seq<Line>)
    requires Extends(a, b) && Extends(b, c)
    ensures Extends(a, c)
  {
    if a != b && b != c {
      var m: seq<Line> :| b == LastAtMost(a + m, MAX_SCROLLBACK);
      var n: seq<Line> :| c == LastAtMost(b + n, MAX_SCROLLBACK);
      assert a + m + n == a + (m + n);
      CutTwice(a + m, n);
      assert c == LastAtMost(a + (m + n), MAX_SCROLLBACK);
    }
  }

  lemma CutTwice(a: seq<Line>, n: seq<Line>)
    ensures LastAtMost(LastAtMost(a, MAX_SCROLLBACK) + n, MAX_SCROLLBACK) == LastAtMost(a + n, MAX_SCROLLBACK)
  {
    if |a| > MAX_SCROLLBACK {
      var d := |a| - MAX_SCROLLBACK;
      assert a[d..] + n == (a + n)[d..];
    }
  }

  datatype Sets = Sets(useG: nat, gmap: seq<Charset>)

  /** The character sets in use. */
  function InUse(t: Term): Sets { Sets(t.g.useG, t.g.gmap) }

  /** The character sets saved: both screens share one place for them. */
  function SavedSets(t: Term): Sets { Sets(t.saved.useG, t.saved.gmap) }

  // What every step keeps that neither switches screens nor saves.
  ghost predicate Kept(t: Term, r: Term) {
    && r.env == t.env && r.v.width == t.v.width && r.v.height == t.v.height
    && r.v.alternate == t.v.alternate && r.v.hidden == t.v.hidden
    && (t.v.alternate ==> r.saved.main == t.saved.main) && SavedSets(r) == SavedSets(t)
    && (Legible(t) ==> Legible(r) && (Shown(t.v) ==> Shown(r.v)))
    && Extends(MainHistory(t.v), MainHistory(r.v))
  }

  // What holds of the steps that do: as long as the alternate screen is shown, the other one is kept, and the sets
  // that are saved stay, or become those in use.
  ghost predicate Guarded(t: Term, r: Term) {
    && r.env == t.env && r.v.width == t.v.width && r.v.height == t.v.height
    && (t.v.alternate && r.v.alternate ==>
          && r.v.hidden == t.v.hidden && r.saved.main == t.saved.main
          && (SavedSets(r) == SavedSets(t) || SavedSets(r) == InUse(t)))
    && (Legible(t) ==> Legible(r) && (Shown(t.v) ==> Shown(r.v)))
    && Extends(MainHistory(t.v), MainHistory(r.v))
  }

  lemma KeptTransitive(a: Term, b: Term, c: Term)
    requires Kept(a, b) && Kept(b, c)
    ensures Kept(a, c)
  {
    hide Legible, Shown, MainHistory, Extends;
    ExtendsTransitive(MainHistory(a.v), MainHistory(b.v), MainHistory(c.v));
  }

  lemma HistoryTransitive(a: Term, b: Term, c: Term)
    requires Extends(MainHistory(a.v), MainHistory(b.v)) && Extends(MainHistory(b.v), MainHistory(c.v))
    ensures Extends(MainHistory(a.v), MainHistory(c.v))
  {
    hide MainHistory, Extends;
    ExtendsTransitive(MainHistory(a.v), MainHistory(b.v), MainHistory(c.v));
  }

  lemma PushLegible(lines: seq<Line>, width: nat, height: nat, k: nat)
    requires LinesOk(lines, width) && LinesLegible(lines)
    ensures LinesLegible(PushHistory(lines, width, height, k))
  {
    assert LinesLegible(lines + BlankLines(k, width));
  }

  lemma ShiftLegible(lines: seq<Line>, width: nat, g: Region, incX: int, incY: int, fill: Cell)
    requires LinesOk(lines, width) && g.Within(width, |lines|) && g.Moved(incX, incY).Within(width, |lines|)
    requires LinesLegible(lines) && fill.color.Ansi? && ColorOk(fill.color)
    ensures LinesLegible(ShiftRegion(lines, width, g, incX, incY, fill))
  {
  }

  lemma FillLegible(lines: seq<Line>, width: nat, g: Region, c: Cell)
    requires LinesOk(lines, width) && LinesLegible(lines) && c.color.Ansi? && ColorOk(c.color)
    ensures LinesLegible(FillRegion(lines, width, g, c))
  {
  }

  lemma PutLegible(v: View, x: nat, y: nat, text: seq<CodeUnit>, color: Color, style: Style)
    requires ViewOk(v) && x + |text| <= v.width && y < v.height && Shown(v) && ColorOk(color)
    ensures Shown(Put(v, x, y, text, color, style))
  {
    var row := v.Scrollback() + y;
    var line := Overwrite(v.lines[row], x, Paint(text, color, style));
    forall j | 0 <= j < |line| ensures line[j].color.Ansi? && ColorOk(line[j].color) {
      if x <= j < x + |text| {
        assert line[j] == Paint(text, color, style)[j - x];
      } else {
        assert line[j] == v.lines[row][j];
      }
    }
  }

  lemma ScrollLegible(v: View, x: int, y: int, w: int, h: int, incX: int, incY: int, color: Color)
    requires ViewOk(v) && Shown(v) && ColorOk(color)
    ensures Shown(ScrollView(v, x, y, w, h, incX, incY, color))
  {
    hide LinesLegible, ShiftRegion, PushHistory, ClipScroll;
    match ClipScroll(v.width, v.height, x, y, w, h, incX, incY)
    case NoScroll =>
    case Scrolling(g) =>
      var wholeLines := incX == 0 && g.x == 0 && g.w == v.width;
      var fill := if wholeLines then BLANK else Cell(SPACE, Look(color), Plain);
      if wholeLines && incY < 0 && !v.alternate && g.y == -incY && g.h == v.height + incY {
        PushLegible(v.lines, v.width, v.height, -incY);
      } else {
        ShiftLegible(v.lines, v.width, g.Moved(0, v.Scrollback()), incX, incY, fill);
      }
  }

  // What both scrolling and clearing leave alone.
  ghost predicate SameBut(v: View, r: View, color: Color) {
    && r.width == v.width && r.height == v.height && r.alternate == v.alternate && r.hidden == v.hidden
    && (Shown(v) && ColorOk(color) ==> Shown(r))
    && Extends(MainHistory(v), MainHistory(r))
  }

  lemma ScrollExtends(v: View, x: int, y: int, w: int, h: int, incX: int, incY: int, color: Color)
    requires ViewOk(v)
    ensures Extends(MainHistory(v), MainHistory(ScrollView(v, x, y, w, h, incX, incY, color)))
  {
    hide ShiftRegion, PushHistory, ClipScroll, LastAtMost;
    match ClipScroll(v.width, v.height, x, y, w, h, incX, incY)
    case NoScroll =>
    case Scrolling(g) =>
      if incX == 0 && g.x == 0 && g.w == v.width && incY < 0 && !v.alternate && g.y == -incY && g.h == v.height + incY {
        EditingTheorems.HistorySplits(v.lines, v.width, v.height, -incY);
      } else {
        var fill := if incX == 0 && g.x == 0 && g.w == v.width then BLANK else Cell(SPACE, Look(color), Plain);
        HistoryNotShifted(v, g, incX, incY, fill);
      }
  }

  lemma HistoryNotShifted(v: View, g: Region, incX: int, incY: int, fill: Cell)
    requires ViewOk(v) && g.Within(v.width, v.height) && g.Moved(incX, incY).Within(v.width, v.height)
    ensures var lines := ShiftRegion(v.lines, v.width, g.Moved(0, v.Scrollback()), incX, incY, fill);
      lines[..v.Scrollback()] == v.lines[..v.Scrollback()]
  {
    var lines := ShiftRegion(v.lines, v.width, g.Moved(0, v.Scrollback()), incX, incY, fill);
    forall i | 0 <= i < v.Scrollback() ensures lines[i] == v.lines[i] {
    }
  }

  lemma HistoryNotCleared(v: View, g: Region, fill: Cell)
    requires ViewOk(v) && g.Within(v.width, v.height)
    ensures var lines := FillRegion(v.lines, v.width, g.Moved(0, v.Scrollback()), fill);
      lines[..v.Scrollback()] == v.lines[..v.Scrollback()]
  {
    var lines := FillRegion(v.lines, v.width, g.Moved(0, v.Scrollback()), fill);
    forall i | 0 <= i < v.Scrollback() ensures lines[i] == v.lines[i] {
    }
  }

  lemma ScrollKeeps(t: Term)
    ensures forall v, x, y, w, h, incX, incY, color :: ViewOk(v) ==>
      SameBut(v, ScrollView(v, x, y, w, h, incX, incY, color), color)
    ensures Legible(t) ==> ColorOk(t.pen.color)
  {
    hide ViewOk, ShiftRegion, PushHistory, ClipScroll, Shown, ScrollView, MainHistory, Extends;
    forall v, x, y, w, h, incX, incY, color | ViewOk(v)
      ensures SameBut(v, ScrollView(v, x, y, w, h, incX, incY, color), color) {
      ScrollKeepsSize(v, x, y, w, h, incX, incY, color);
      ScrollExtends(v, x, y, w, h, incX, incY, color);
      if Shown(v) && ColorOk(color) {
        ScrollLegible(v, x, y, w, h, incX, incY, color);
      }
    }
  }

  lemma ClearSame(v: View, x: int, y: int, w: int, h: int, color: Color, style: Style)
    requires ViewOk(v)
    ensures SameBut(v, Clear(v, x, y, w, h, color, style), color)
    ensures MainHistory(Clear(v, x, y, w, h, color, style)) == MainHistory(v)
  {
    hide FillRegion, ClipClear, LinesLegible;
    var g := ClipClear(v.width, v.height, x, y, w, h);
    HistoryNotCleared(v, g, Cell(SPACE, Look(color), style));
    if Shown(v) && ColorOk(color) {
      FillLegible(v.lines, v.width, g.Moved(0, v.Scrollback()), Cell(SPACE, Look(color), style));
    }
  }

  lemma ClearKeeps(t: Term)
    ensures forall v, x, y, w, h, color, style :: ViewOk(v) ==>
      SameBut(v, Clear(v, x, y, w, h, color, style), color)
        && MainHistory(Clear(v, x, y, w, h, color, style)) == MainHistory(v)
    ensures Legible(t) ==> ColorOk(t.pen.color)
  {
    hide ViewOk, Clear, SameBut, MainHistory;
    forall v, x, y, w, h, color, style | ViewOk(v)
      ensures SameBut(v, Clear(v, x, y, w, h, color, style), color)
        && MainHistory(Clear(v, x, y, w, h, color, style)) == MainHistory(v)
    {
      ClearSame(v, x, y, w, h, color, style);
    }
  }

  lemma LineFeedKept(t: Term)
    requires TermOk(t)
    ensures Kept(t, LineFeed(t))
  {
    hide ViewOk, UtfOk, LinesLegible, ScrollView, Legible;
    ScrollKeeps(t);
    LegiblePen(t, LineFeed(t));
  }

  lemma MoveKept(t: Term)
    requires TermOk(t)
    ensures Kept(t, Cr(t)) && Kept(t, Bs(t)) && Kept(t, Ht(t, 1))
  {
    hide ViewOk, UtfOk, LinesLegible, Legible, TabsRight;
    LegiblePen(t, Cr(t));
    LegiblePen(t, Bs(t));
    LegiblePen(t, Ht(t, 1));
  }

  lemma {:induction false} LineFeedsKept(t: Term, n: nat)
    requires TermOk(t)
    ensures Kept(t, LineFeeds(t, n))
  {
    hide ViewOk, UtfOk, LinesLegible, LineFeed, Legible;
    if n > 0 {
      LineFeedsKept(t, n - 1);
      LineFeedKept(LineFeeds(t, n - 1));
      KeptTransitive(t, LineFeeds(t, n - 1), LineFeeds(t, n));
    }
  }

  lemma ReverseFeedKept(t: Term)
    requires TermOk(t)
    ensures Kept(t, ReverseFeed(t))
  {
    hide ViewOk, UtfOk, LinesLegible, ScrollView, Legible;
    ScrollKeeps(t);
    LegiblePen(t, ReverseFeed(t));
  }

  lemma {:induction false} ReverseFeedsKept(t: Term, n: nat)
    requires TermOk(t)
    ensures Kept(t, ReverseFeeds(t, n))
  {
    hide ViewOk, UtfOk, LinesLegible, ReverseFeed, Legible;
    if n > 0 {
      ReverseFeedsKept(t, n - 1);
      ReverseFeedKept(ReverseFeeds(t, n - 1));
      KeptTransitive(t, ReverseFeeds(t, n - 1), ReverseFeeds(t, n));
    }
  }

  lemma SgrKept(t: Term, p: nat)
    requires TermOk(t)
    ensures Kept(t, Sgr(t, p))
  {
    hide ViewOk, UtfOk, LinesLegible;
  }

  lemma {:induction false} SgrsKept(t: Term, n: nat)
    requires TermOk(t)
    ensures Kept(t, Sgrs(t, n))
  {
    hide ViewOk, UtfOk, LinesLegible, Sgr, Legible;
    if n > 0 {
      SgrsKept(t, n - 1);
      if n - 1 in t.p.par {
        SgrKept(Sgrs(t, n - 1), t.p.par[n - 1]);
        KeptTransitive(t, Sgrs(t, n - 1), Sgrs(t, n));
      }
    }
  }

  lemma CsimKept(t: Term)
    requires TermOk(t)
    ensures Kept(t, Csim(t))
  {
    hide ViewOk, UtfOk, LinesLegible, ColorOf;
    SgrsKept(t, t.p.npar + 1);
    var r := Sgrs(t, t.p.npar + 1);
    if AttrOk(r.pen.attr) {
      ColorsDiffer(r.pen.attr);
    }
  }

  lemma RestoreKept(t: Term)
    requires TermOk(t)
    ensures Kept(t, RestoreCursor(t))
  {
    hide ViewOk, UtfOk, LinesLegible, ColorOf;
    var s := if t.v.alternate then t.saved.alt else t.saved.main;
    if s.Saved? && AttrOk(s.attr) {
      ColorsDiffer(s.attr);
    }
  }

  lemma SaveGuarded(t: Term)
    requires TermOk(t)
    ensures Guarded(t, SaveCursor(t))
  {
    hide ViewOk, UtfOk, LinesLegible;
  }

  lemma AlternateGuarded(t: Term, state: bool)
    requires TermOk(t)
    ensures var r := EnableAlternateScreen(t, state);
      Guarded(t, r) && r.v.alternate == state && (t.v.alternate == state ==> r == t)
  {
    hide ViewOk, UtfOk, LinesLegible, Clear, RestoreCursor, SwitchView, SaveCursor, Legible;
    ClearKeeps(t);
    SwitchKeeps(t.v);
    SaveGuarded(t);
    if t.v.alternate && !state {
      RestoreKept(t.(v := SwitchView(t.v)));
      LegiblePen(t, t.(v := SwitchView(t.v)));
    } else if state && !t.v.alternate {
      var s := SaveCursor(t);
      assert s.v == t.v by {
        SaveKeepsView(t);
      }
      LegiblePen(s, EnableAlternateScreen(t, state));
    }
  }

  lemma SaveKeepsView(t: Term)
    requires TermOk(t)
    ensures SaveCursor(t).v == t.v
  {
    hide ViewOk, UtfOk, LinesLegible;
  }

  lemma SwitchKeeps(v: View)
    requires ViewOk(v)
    ensures var r := SwitchView(v);
      && r.width == v.width && r.height == v.height && r.alternate == !v.alternate
      && Shown(r) == Shown(v) && MainHistory(r) == MainHistory(v)
  {
    hide ViewOk;
  }

  lemma LegiblePen(t: Term, r: Term)
    requires r.pen == t.pen && r.saved == t.saved
    ensures Legible(r) == Legible(t)
  {
  }

  lemma ModeGuarded(t: Term, p: nat, state: bool)
    requires TermOk(t)
    ensures Guarded(t, Mode(t, p, state))
    ensures var r := Mode(t, p, state);
      && (r.v.alternate == t.v.alternate || r.v.alternate == state)
      && (t.v.alternate && r.v.alternate ==> SavedSets(r) == SavedSets(t))
  {
    hide ViewOk, UtfOk, LinesLegible, EnableAlternateScreen;
    AlternateGuarded(t, state);
  }

  lemma {:induction false} SetModesGuarded(t: Term, n: nat, state: bool)
    requires TermOk(t)
    ensures Guarded(t, SetModes(t, n, state))
    ensures var r := SetModes(t, n, state);
      && (r.v.alternate == t.v.alternate || r.v.alternate == state)
      && (t.v.alternate && r.v.alternate ==> SavedSets(r) == SavedSets(t))
  {
    hide ViewOk, UtfOk, LinesLegible, Mode, Legible;
    if n > 0 {
      SetModesGuarded(t, n - 1, state);
      if n - 1 in t.p.par {
        ModeGuarded(SetModes(t, n - 1, state), t.p.par[n - 1], state);
        HistoryTransitive(t, SetModes(t, n - 1, state), SetModes(t, n, state));
      }
    }
  }

  lemma ResetGuarded(t: Term)
    requires TermOk(t)
    ensures Guarded(t, Reset(t)) && !Reset(t).v.alternate
  {
    hide ViewOk, UtfOk, LinesLegible, EnableAlternateScreen, Clear;
    ClearKeeps(t);
    AlternateGuarded(ResetModes(t), false);
  }

  /** Moving the cursor keeps everything else. */
  lemma MovedKept(t: Term, r: Term)
    requires TermOk(t) && r.v == t.v.(x := r.v.x, y := r.v.y) && r.pen == t.pen && r.saved == t.saved && r.env == t.env
    ensures Kept(t, r)
  {
    hide ViewOk, UtfOk, LinesLegible, Legible, Extends;
    LegiblePen(t, r);
    ExtendsItself(MainHistory(t.v));
  }

  lemma GotoKept(t: Term, x: int, y: int)
    requires TermOk(t)
    ensures Kept(t, GotoXY(t, x, y))
  {
    hide ViewOk, UtfOk, Kept;
    MovedKept(t, GotoXY(t, x, y));
  }

  lemma GotoAbsoluteKept(t: Term, x: int, y: int)
    requires TermOk(t)
    ensures Kept(t, GotoXaY(t, x, y))
  {
    hide ViewOk, UtfOk, Kept, GotoXY;
    GotoKept(t, x, if t.m.offset then t.top + y else y);
  }

  lemma TabKept(t: Term, n: nat)
    requires TermOk(t)
    ensures Kept(t, Ht(t, n)) && Kept(t, Rt(t, n))
  {
    hide ViewOk, UtfOk, Kept, TabsRight, TabsLeft;
    MovedKept(t, Ht(t, n));
    MovedKept(t, Rt(t, n));
  }

  lemma InsertKept(t: Term, n: nat)
    requires TermOk(t)
    ensures Kept(t, CsiAt(t, n))
  {
    hide ViewOk, UtfOk, LinesLegible, ScrollView, Legible;
    ScrollKeeps(t);
    LegiblePen(t, CsiAt(t, n));
  }

  lemma CsiMoveKept(t: Term, ch: CodeUnit)
    requires TermOk(t)
    ensures Kept(t, CsiMove(t, ch))
  {
    hide ViewOk, UtfOk, TermOk, Kept, GotoXY, GotoXaY, Ht, Rt, CsiAt;
    var n := ParOr1(t, 0);
    if ch == 0x40 {
      InsertKept(t, Par(t, 0));
    } else if ch == 0x47 || ch == 0x60 {
      GotoKept(t, Par(t, 0) - 1, t.v.y);
    } else if ch in {0x41, 0x42, 0x65} {
      GotoKept(t, t.v.x, t.v.y - n);
      GotoKept(t, t.v.x, t.v.y + n);
    } else if ch in {0x43, 0x61, 0x44} {
      GotoKept(t, t.v.x + n, t.v.y);
      GotoKept(t, t.v.x - n, t.v.y);
    } else if ch == 0x45 || ch == 0x46 {
      GotoKept(t, 0, t.v.y + n);
      GotoKept(t, 0, t.v.y - n);
    } else if ch in {0x64, 0x48, 0x66} {
      GotoAbsoluteKept(t, t.v.x, Par(t, 0) - 1);
      GotoAbsoluteKept(t, Par(t, 1) - 1, Par(t, 0) - 1);
    } else {
      TabKept(t, n);
    }
  }

  lemma CsiEraseKept(t: Term, n: nat)
    requires TermOk(t)
    ensures Kept(t, CsiJ(t, n)) && Kept(t, CsiK(t, n)) && Kept(t, CsiX(t, n))
  {
    hide ViewOk, UtfOk, LinesLegible, Clear, Legible;
    ClearKeeps(t);
    LegiblePen(t, CsiJ(t, n));
    LegiblePen(t, CsiK(t, n));
    LegiblePen(t, CsiX(t, n));
  }

  lemma CsiShiftKept(t: Term, n: nat)
    requires TermOk(t)
    ensures Kept(t, CsiL(t, n)) && Kept(t, CsiM(t, n)) && Kept(t, CsiP(t, n))
  {
    hide ViewOk, UtfOk, LinesLegible, ScrollView, Legible;
    ScrollKeeps(t);
    LegiblePen(t, CsiL(t, n));
    LegiblePen(t, CsiM(t, n));
    LegiblePen(t, CsiP(t, n));
  }

  lemma RiKept(t: Term, n: int)
    requires TermOk(t)
    ensures Kept(t, Ri(t, n))
  {
    hide ViewOk, UtfOk, LinesLegible, Legible;
    ReverseFeedsKept(t, LineCount(t, n));
    LegiblePen(ReverseFeeds(t, LineCount(t, n)), Ri(t, n));
  }

  lemma CsiEditKept(t: Term, ch: CodeUnit)
    requires TermOk(t)
    ensures Kept(t, CsiEdit(t, ch))
  {
    hide ViewOk, UtfOk, TermOk, Kept, CsiJ, CsiK, CsiX, CsiL, CsiM, CsiP, Ri, LineFeeds;
    if ch in {0x4A, 0x4B, 0x58} {
      CsiEraseKept(t, Par(t, 0));
    } else if ch in {0x4C, 0x4D, 0x50} {
      CsiShiftKept(t, Par(t, 0));
    } else if ch == 0x53 {
      LineFeedsKept(t, LineCount(t, ParOr1(t, 0)));
    } else if ch == 0x54 {
      RiKept(t, ParOr1(t, 0));
    } else {
      KeptItself(t);
    }
  }

  lemma MarginsAndTabsKept(t: Term, n: nat, top: nat, bottom: nat)
    requires TermOk(t) && 0 < top
    ensures Kept(t, ClearTab(t, n)) && Kept(t, SetMargins(t, top, bottom))
  {
    hide ViewOk, UtfOk, Kept;
    MovedKept(t, ClearTab(t, n));
    MovedKept(t, SetMargins(t, top, bottom));
  }

  lemma KeptGuarded(t: Term, r: Term)
    requires Kept(t, r)
    ensures Guarded(t, r)
  {
    hide Legible, Shown, MainHistory, Extends;
  }

  lemma CsiOtherGuarded(t: Term, ch: CodeUnit)
    requires TermOk(t)
    ensures Guarded(t, CsiOther(t, ch))
  {
    hide ViewOk, UtfOk, TermOk, Kept, Guarded, Csim, SetModes, SaveCursor, RestoreCursor, ClearTab, SetMargins;
    if ch == 0x6D {
      CsimKept(t);
    } else if ch == 0x68 || ch == 0x6C {
      SetModesGuarded(t, t.p.npar + 1, ch == 0x68);
    } else if ch == 0x73 {
      SaveGuarded(t);
    } else if ch == 0x75 {
      RestoreKept(t);
    } else {
      MarginsAndTabsKept(t, Par(t, 0), ParOr1(t, 0), if Par(t, 1) != 0 then Par(t, 1) else t.v.height);
      KeptItself(t);
    }
    if ch !in {0x68, 0x6C, 0x73} {
      KeptGuarded(t, CsiOther(t, ch));
    }
  }

  lemma KeptItself(t: Term)
    ensures Kept(t, t)
  {
    hide MainHistory, Extends;
    ExtendsItself(MainHistory(t.v));
  }

  // Terminals that differ in nothing that matters here.
  predicate SameShow(t: Term, u: Term) {
    u.v == t.v && u.pen == t.pen && u.saved == t.saved && u.env == t.env && InUse(u) == InUse(t)
  }

  lemma GuardedSame(t: Term, t': Term, r: Term, r': Term)
    requires Guarded(t, r) && SameShow(t', t) && SameShow(r, r')
    ensures Guarded(t', r')
  {
    hide MainHistory, Extends, LinesLegible;
  }

  lemma QuestionSame(t: Term)
    requires TermOk(t)
    ensures SameShow(t, WithQuestion(t, false))
  {
    hide ViewOk, UtfOk;
  }

  lemma EscGotParsGuarded(t: Term, ch: CodeUnit)
    requires TermOk(t)
    ensures Guarded(t, EscGotPars(t, ch))
  {
    hide ViewOk, UtfOk, TermOk, Kept, Guarded, CsiMove, CsiEdit, CsiOther, SetModes, WithQuestion;
    if t.p.question {
      SetModesGuarded(t, t.p.npar + 1, ch == 0x68);
      KeptItself(t);
      KeptGuarded(t, t);
      var u := if ch == 0x68 then SetModes(t, t.p.npar + 1, true)
        else if ch == 0x6C then SetModes(t, t.p.npar + 1, false) else t;
      QuestionSame(u);
      GuardedSame(t, t, u, WithQuestion(u, false));
    } else if ch == 0x21 || ch == 0x3E {
      MovedKept(t, EscGotPars(t, ch));
      KeptGuarded(t, EscGotPars(t, ch));
    } else {
      CsiMoveKept(t, ch);
      CsiEditKept(t, ch);
      KeptGuarded(t, CsiMove(t, ch));
      KeptGuarded(t, CsiEdit(t, ch));
      CsiOtherGuarded(t, ch);
    }
  }

  lemma EscGetParsGuarded(t: Term, ch: CodeUnit)
    requires TermOk(t)
    ensures Guarded(t, EscGetPars(t, ch))
  {
    hide ViewOk, UtfOk, LinesLegible, EscGotPars, Legible;
    EscGotParsGuarded(t.(esc := EsNormal), ch);
    LegiblePen(t, t.(esc := EsNormal));
    if ch == 0x3B || 0x30 <= ch <= 0x39 {
      LegiblePen(t, EscGetPars(t, ch));
    }
  }

  lemma EscSquareGuarded(t: Term, ch: CodeUnit)
    requires TermOk(t)
    ensures Guarded(t, EscSquare(t, ch))
  {
    hide ViewOk, UtfOk, LinesLegible, EscGetPars, Legible;
    var u := WithQuestion(StartPars(t, 16, EsGetPars), false);
    LegiblePen(t, u);
    EscGetParsGuarded(u, ch);
    if ch == 0x5B || ch == 0x3F {
      LegiblePen(t, EscSquare(t, ch));
    }
  }

  lemma EscEscGuarded(t: Term, ch: CodeUnit)
    requires TermOk(t)
    ensures Guarded(t, EscEsc(t, ch))
  {
    hide ViewOk, UtfOk, LinesLegible, MainHistory, SaveCursor, RestoreCursor, Reset, Ri, Legible, LineFeed, Cr, SetTab;
    var u := t.(esc := EsNormal);
    LegiblePen(t, u);
    if ch == 0x37 {
      SaveGuarded(u);
    } else if ch == 0x38 {
      RestoreKept(u);
    } else if ch == 0x63 {
      ResetGuarded(u);
    } else if ch == 0x4D {
      RiKept(u, 1);
    } else if ch == 0x44 {
      LineFeedKept(u);
    } else if ch == 0x45 {
      MoveKept(u);
      LineFeedKept(Cr(u));
      KeptTransitive(u, Cr(u), LineFeed(Cr(u)));
    } else if ch == 0x48 {
      SetTabKept(u, true);
    } else {
      EscEscSmall(t, ch);
    }
  }

  lemma SetTabKept(t: Term, stop: bool)
    requires TermOk(t)
    ensures Kept(t, SetTab(t, stop))
  {
    hide ViewOk, UtfOk, Kept;
    MovedKept(t, SetTab(t, stop));
  }

  lemma EscEscSmall(t: Term, ch: CodeUnit)
    requires TermOk(t) && ch !in {0x37, 0x38, 0x63, 0x4D, 0x44, 0x45, 0x48}
    ensures Kept(t, EscEsc(t, ch))
  {
    hide ViewOk, UtfOk, Kept, SaveCursor, RestoreCursor, Reset, Ri, LineFeed, Cr, SetTab;
    MovedKept(t, EscEsc(t, ch));
  }

  lemma ControlCharKept(t: Term, ch: CodeUnit)
    requires TermOk(t)
    ensures Kept(t, ControlChar(t, ch))
  {
    hide ViewOk, UtfOk, LinesLegible, Bs, Cr, Ht, LineFeed, SetTab, Ri, Legible;
    if ch == 0x8D {
      RiKept(t, 1);
    } else if ch in {0x08, 0x09, 0x0D} {
      MoveKept(t);
    } else if ch in {0x0A, 0x0B, 0x0C, 0x84} {
      LineFeedKept(t);
      MoveKept(LineFeed(t));
      KeptTransitive(t, LineFeed(t), Cr(LineFeed(t)));
    } else if ch == 0x85 {
      MoveKept(t);
      LineFeedKept(Cr(t));
      KeptTransitive(t, Cr(t), LineFeed(Cr(t)));
    } else if ch == 0x88 {
      SetTabKept(t, true);
    } else {
      LegiblePen(t, ControlChar(t, ch));
    }
  }

  lemma ControlGuarded(t: Term, ch: CodeUnit)
    requires TermOk(t)
    ensures Guarded(t, Control(t, ch))
  {
    hide ViewOk, UtfOk, TermOk, Kept, Guarded, ControlChar, EscChar, IsControl;
    if IsControl(t, ch) {
      ControlCharKept(t, ch);
      KeptGuarded(t, ControlChar(t, ch));
    } else {
      EscCharGuarded(t, ch);
    }
  }

  lemma EscCharGuarded(t: Term, ch: CodeUnit)
    requires TermOk(t)
    ensures Guarded(t, EscChar(t, ch))
  {
    hide ViewOk, UtfOk, Kept, Guarded, EscEsc, EscSquare, EscGetPars, Render;
    match t.esc
    case EsEsc => EscEscGuarded(t, ch);
    case EsSquare => EscSquareGuarded(t, ch);
    case EsGetPars => EscGetParsGuarded(t, ch);
    case EsDeviceAttr => EscGetParsGuarded(t, ch);
    case _ =>
      MovedKept(t, EscChar(t, ch));
      KeptGuarded(t, EscChar(t, ch));
  }

  lemma PutCharKept(t: Term, u: CodeUnit)
    requires TermOk(t)
    ensures Kept(t, PutChar(t, u))
  {
    hide UtfOk, LinesLegible, Legible, LinesOk, Extends;
    LegiblePen(t, PutChar(t, u));
    ColorFromPen(t);
    HistoryNotWritten(t.v, u, t.pen.color, t.pen.style);
    ExtendsItself(MainHistory(t.v));
    if Shown(t.v) && Legible(t) {
      PutLegible(t.v, t.v.x, t.v.y, [u], t.pen.color, t.pen.style);
    }
    hide PutCells;
  }

  lemma ExtendsItself(h: seq<Line>)
    ensures Extends(h, h)
  {
  }

  lemma HistoryNotWritten(v: View, u: CodeUnit, color: Color, style: Style)
    requires ViewOk(v)
    ensures MainHistory(Put(v, v.x, v.y, [u], color, style)) == MainHistory(v)
  {
    hide Overwrite, Paint;
    var r := Put(v, v.x, v.y, [u], color, style);
    assert r.lines[..v.Scrollback()] == v.lines[..v.Scrollback()];
  }

  lemma ColorFromPen(t: Term)
    ensures Legible(t) ==> ColorOk(t.pen.color)
  {
  }

  lemma WrapKept(t: Term)
    requires TermOk(t)
    ensures Kept(t, if t.needWrap then LineFeed(Cr(t)) else t)
  {
    hide ViewOk, UtfOk, LinesLegible, LineFeed, Cr, Legible, MainHistory;
    if t.needWrap {
      MoveKept(t);
      LineFeedKept(Cr(t));
      KeptTransitive(t, Cr(t), LineFeed(Cr(t)));
    }
  }

  lemma MakeRoomKept(t: Term)
    requires TermOk(t)
    ensures Kept(t, Scroll(t, t.v.x, t.v.y, t.v.width - t.v.x - 1, 1, 1, 0))
  {
    hide ViewOk, UtfOk, LinesLegible, ScrollView, Legible;
    ScrollKeeps(t);
    LegiblePen(t, Scroll(t, t.v.x, t.v.y, t.v.width - t.v.x - 1, 1, 1, 0));
  }

  lemma PrintKept(t: Term, u: CodeUnit)
    requires TermOk(t)
    ensures Kept(t, Print(t, u))
  {
    hide ViewOk, UtfOk, LinesLegible, Scroll, LineFeed, Cr, PutChar, Legible, MainHistory;
    var w := if t.needWrap then LineFeed(Cr(t)) else t;
    WrapKept(t);
    var b := BeforeChar(t);
    if w.m.insert {
      MakeRoomKept(w);
      KeptTransitive(t, w, b);
    }
    PutCharKept(b, u);
    KeptTransitive(t, b, Print(t, u));
  }

  /** One code unit keeps the text legible and, on the alternate screen, everything of the main one. */
  lemma StepGuarded(t: Term, ch: CodeUnit)
    requires TermOk(t)
    ensures Guarded(t, Step(t, ch))
  {
    hide ViewOk, UtfOk, TermOk, Guarded, Kept, StepChar, DecodeState;
    var d := DecodeState(t, ch);
    DecodeSame(t, ch);
    match Decode(t, ch)
    case Pending =>
      KeptItself(t);
      KeptGuarded(t, t);
      GuardedSame(t, t, t, d);
    case Char(c) =>
      StepCharGuarded(d, c);
      GuardedSame(d, t, StepChar(d, c), StepChar(d, c));
  }

  lemma DecodeSame(t: Term, ch: CodeUnit)
    requires TermOk(t)
    ensures SameShow(t, DecodeState(t, ch))
  {
    hide ViewOk, UtfOk, Leading, ShiftIn;
  }

  lemma StepCharGuarded(t: Term, c: CodeUnit)
    requires TermOk(t)
    ensures Guarded(t, StepChar(t, c))
  {
    hide ViewOk, UtfOk, TermOk, Guarded, Kept, Control, Print, Render, IsPrinted;
    if IsPrinted(t, c) {
      match Render(t.env.fonts, t.g.translate, t, c)
      case Skip =>
        KeptItself(t);
        KeptGuarded(t, t);
      case Draw(u) =>
        PrintKept(t, u);
        KeptGuarded(t, Print(t, u));
    } else {
      ControlGuarded(t, c);
    }
  }

  // ---- Whole runs ----

  /** A step that expands into something switches no screens. */
  lemma ExpandingStepKept(t: Term, ch: CodeUnit)
    requires TermOk(t) && StepExpansion(t, ch) != []
    ensures Kept(t, Step(t, ch))
  {
    hide ViewOk, UtfOk, Kept, StepChar, Expansion, Leading, ShiftIn;
    var d := DecodeState(t, ch);
    DecodeSame(t, ch);
    var c := Decode(t, ch).ch;
    ExpandingSame(d, c);
    KeptItself(t);
    KeptSame(t, t, t, Step(t, ch));
  }

  lemma ExpandingSame(t: Term, c: CodeUnit)
    requires TermOk(t) && !IsPrinted(t, c) && Expansion(t, c) != []
    ensures SameShow(t, StepChar(t, c))
  {
    hide ViewOk, UtfOk, Render, CsiMove, CsiEdit, Csim, SetModes, SaveCursor, RestoreCursor, IsNormal;
  }

  /** Neither do the steps that the expansion is made of. */
  lemma InertStepKept(t: Term, c: CodeUnit)
    requires TermOk(t) && Inert(t, c)
    ensures Kept(t, Step(t, c))
  {
    hide ViewOk, UtfOk, TermOk, Kept, Leading, ShiftIn, StepChar, DecodeState, Inert;
    var d := DecodeState(t, c);
    DecodeSame(t, c);
    match Decode(t, c)
    case Pending =>
      KeptItself(t);
      KeptSame(t, t, t, d);
    case Char(u) =>
      InertDecoded(t, c, d);
      InertCharKept(d, u);
      KeptSame(d, t, StepChar(d, u), StepChar(d, u));
  }

  lemma KeptSame(t: Term, t': Term, r: Term, r': Term)
    requires Kept(t, r) && SameShow(t', t) && SameShow(r, r')
    ensures Kept(t', r')
  {
    hide MainHistory, Extends, LinesLegible;
  }

  lemma InertDecoded(t: Term, c: CodeUnit, d: Term)
    requires TermOk(t) && Inert(t, c) && d == DecodeState(t, c) && Decode(t, c).Char?
    ensures Decode(t, c).ch == c && (d.esc == EsNormal || d.esc == Announced(c))
  {
    hide ViewOk, UtfOk, Leading, ShiftIn;
  }

  lemma InertCharKept(t: Term, c: CodeUnit)
    requires TermOk(t) && (t.esc == EsNormal || t.esc == Announced(c))
    ensures Kept(t, StepChar(t, c))
  {
    hide ViewOk, UtfOk, TermOk, Kept, ControlChar, Print, Render, IsNormal, EscEsc, EscSquare, EscShift;
    if IsPrinted(t, c) {
      match Render(t.env.fonts, t.g.translate, t, c)
      case Skip => KeptItself(t);
      case Draw(u) => PrintKept(t, u);
    } else if IsControl(t, c) {
      ControlCharKept(t, c);
    } else {
      KeptItself(t);
    }
  }

  lemma {:induction false} CopiesKept(t: Term, c: CodeUnit, n: nat)
    requires TermOk(t) && Inert(t, c)
    ensures Kept(t, Steps(t, Copies(c, n)))
  {
    hide ViewOk, UtfOk, LinesLegible, Legible, Step, Inert;
    if n > 0 {
      assert Copies(c, n)[..n - 1] == Copies(c, n - 1);
      CopiesKept(t, c, n - 1);
      InertRun(t, c, n - 1);
      InertStepKept(Steps(t, Copies(c, n - 1)), c);
      KeptTransitive(t, Steps(t, Copies(c, n - 1)), Steps(t, Copies(c, n)));
    }
  }

  lemma FeedGuarded(t: Term, ch: CodeUnit)
    requires TermOk(t)
    ensures Guarded(t, Feed(t, ch))
  {
    hide ViewOk, UtfOk, LinesLegible, Legible, Step, Inert, StepExpansion;
    StepGuarded(t, ch);
    if StepExpansion(t, ch) != [] {
      ExpandingStepKept(t, ch);
      var c, n := ExpansionIsCopies(t, ch);
      CopiesKept(Step(t, ch), c, n);
      HistoryTransitive(t, Step(t, ch), Feed(t, ch));
    }
  }

  /** The history is a log: whatever the host sends, lines are only appended to it, and only the oldest are
      dropped, when there are more than 500. */
  lemma {:induction false} HistoryIsALog(t: Term, s: seq<CodeUnit>)
    requires TermOk(t)
    ensures Extends(MainHistory(t.v), MainHistory(Run(t, s).v))
  {
    hide ViewOk, UtfOk, LinesLegible, Legible, Feed, MainHistory, Extends;
    if s == [] {
      ExtendsItself(MainHistory(t.v));
    } else {
      var front := Run(t, s[..|s| - 1]);
      HistoryIsALog(t, s[..|s| - 1]);
      FeedGuarded(front, s[|s| - 1]);
      HistoryTransitive(t, front, Run(t, s));
    }
  }

  /** As long as the alternate screen is shown, nothing the host sends changes the main one, its history, or
      the cursor and attributes saved with it. */
  lemma {:induction false} MainScreenUntouched(t: Term, s: seq<CodeUnit>)
    requires TermOk(t) && t.v.alternate
    requires forall i :: 0 <= i <= |s| ==> Run(t, s[..i]).v.alternate
    ensures Run(t, s).v.hidden == t.v.hidden && Run(t, s).saved.main == t.saved.main
    ensures Run(t, s).v.width == t.v.width && Run(t, s).v.height == t.v.height && Run(t, s).v.alternate
  {
    hide ViewOk, UtfOk, LinesLegible, Legible, Feed;
    assert s[..|s|] == s;
    if s != [] {
      var front := s[..|s| - 1];
      forall i | 0 <= i <= |front| ensures Run(t, front[..i]).v.alternate {
        assert front[..i] == s[..i];
      }
      MainScreenUntouched(t, front);
      FeedGuarded(Run(t, front), s[|s| - 1]);
    }
  }

  /** Meanwhile the sets that are saved are the ones from before, or those in use at some time. */
  lemma {:induction false} SavedSetsWereUsed(t: Term, s: seq<CodeUnit>)
    requires TermOk(t) && t.v.alternate
    requires forall i :: 0 <= i <= |s| ==> Run(t, s[..i]).v.alternate
    ensures SavedSets(Run(t, s)) == SavedSets(t)
      || exists i :: 0 <= i < |s| && SavedSets(Run(t, s)) == InUse(Run(t, s[..i]))
  {
    hide ViewOk, UtfOk, LinesLegible, Legible, Feed, InUse, SavedSets;
    assert s[..|s|] == s;
    if s != [] {
      var n := |s| - 1;
      var front := s[..n];
      assert forall i :: 0 <= i <= n ==> front[..i] == s[..i];
      SavedSetsWereUsed(t, front);
      FeedGuarded(Run(t, front), s[n]);
    }
  }

  /** A full-screen program comes and goes: whatever it sends while it has the alternate screen, leaving that
      screen shows the lines, the history and the attributes from before, and the cursor in its column; also in
      its line, exactly when the program did not turn on origin mode or set margins that hold that line. The
      character sets are then those saved last, which were in use at some time since; they are the ones from before
      exactly when those are still the ones saved. */
  lemma FullScreenProgram(t: Term, s: seq<CodeUnit>)
    requires TermOk(t) && !t.v.alternate
    requires forall i :: 0 <= i <= |s| ==> Run(EnableAlternateScreen(t, true), s[..i]).v.alternate
    ensures var u := Run(EnableAlternateScreen(t, true), s);
      var r := EnableAlternateScreen(u, false);
      && r.v.lines == t.v.lines && !r.v.alternate && r.pen.attr == t.pen.attr && r.v.x == t.v.x
      && (r.v.y == t.v.y <==> !u.m.offset || u.top <= t.v.y < u.bottom)
      && (InUse(r) == InUse(t) <==> SavedSets(u) == InUse(t)) && r.g.translate == r.g.gmap[r.g.useG]
      && exists i :: 0 <= i <= |s| && InUse(r) == InUse(Run(EnableAlternateScreen(t, true), s[..i]))
  {
    hide UtfOk, LinesLegible, Legible, Run, InUse, SavedSets;
    var a := EnableAlternateScreen(t, true);
    MainScreenUntouched(a, s);
    EnteringSaves(t);
    LeavingRestores(Run(a, s), t.v.x, t.v.y, t.pen.attr);
    SavedSetsWereUsed(a, s);
    assert s[..0] == [] && Run(a, []) == a by {
      RunNothing(a);
    }
    assert InUse(Run(a, s[..0])) == InUse(t);
  }

  /** A program that selects the graphics set as G0 and saves the cursor overwrites the sets of the main screen. */
  lemma SetsOverwritten(t: Term)
    requires TermOk(t) && !t.v.alternate && t.g.gmap[0] != Graphics
    ensures var u := Run(EnableAlternateScreen(t, true), [0x1B, 0x28, 0x30] + [0x1B, 0x37]);
      u.v.alternate && InUse(EnableAlternateScreen(u, false)) != InUse(t)
  {
    hide UtfOk, ViewOk, LinesLegible, Legible, Run;
    var a := EnableAlternateScreen(t, true);
    EnteringSaves(t);
    ChunkIndependence(a, [0x1B, 0x28, 0x30], [0x1B, 0x37]);
    var w := Run(a, [0x1B, 0x28, 0x30]);
    SelectsGraphics(a);
    SavesSets(w);
    LeavesWith(Run(w, [0x1B, 0x37]));
  }

  lemma LeavesWith(u: Term)
    requires TermOk(u) && u.v.alternate && u.saved.main.Saved?
    ensures InUse(EnableAlternateScreen(u, false)) == SavedSets(u)
  {
    hide ViewOk, UtfOk, ColorOf;
  }

  lemma SelectsGraphics(t: Term)
    requires TermOk(t)
    ensures var r := Run(t, [0x1B, 0x28, 0x30]); r.g.gmap[0] == Graphics && r.v == t.v && r.saved == t.saved
  {
    hide ViewOk, UtfOk, Run, Feed;
    var e := Idle(t).(esc := EsEsc);
    IdleTwice(t);
    RunOne(t, 0x1B);
    EscapeFeed(t);
    RunSnoc(t, [0x1B], 0x28);
    AfterEscape(e);
    RunSnoc(t, [0x1B] + [0x28], 0x30);
    GraphicsFeed(e.(esc := EsSetG(0)));
    assert [0x1B] + [0x28] + [0x30] == [0x1B, 0x28, 0x30];
  }

  lemma GraphicsFeed(e: Term)
    requires TermOk(e) && e.esc == EsSetG(0) && e.u == Idle(e).u
    ensures var r := Feed(e, 0x30); r.g.gmap[0] == Graphics && r.v == e.v && r.saved == e.saved
  {
    hide ViewOk, UtfOk, Feed;
    IdleTwice(e);
    AsciiFeed(e, 0x30);
  }

  lemma AfterEscape(e: Term)
    requires TermOk(e) && e.esc == EsEsc && e.u == Idle(e).u
    ensures Feed(e, 0x28) == e.(esc := EsSetG(0)) && Feed(e, 0x37) == SaveCursor(e.(esc := EsNormal))
  {
    hide ViewOk, UtfOk, Feed, SaveCursor, RestoreCursor, LineFeed, Ri, Reset;
    IdleTwice(e);
    AsciiFeed(e, 0x28);
    AsciiFeed(e, 0x37);
  }

  lemma SavesSets(t: Term)
    requires TermOk(t)
    ensures var r := Run(t, [0x1B, 0x37]);
      SavedSets(r) == InUse(t) && r.v == t.v && (t.v.alternate ==> r.saved.main == t.saved.main)
  {
    hide ViewOk, UtfOk, Run, Feed;
    IdleTwice(t);
    RunOne(t, 0x1B);
    EscapeFeed(t);
    RunSnoc(t, [0x1B], 0x37);
    AfterEscape(Idle(t).(esc := EsEsc));
    assert [0x1B] + [0x37] == [0x1B, 0x37];
  }

  /** The alternate screen begins blank, with the cursor in its first column and, outside of origin mode, line. */
  lemma AlternateBeginsBlank(t: Term, i: nat)
    requires TermOk(t) && !t.v.alternate && i < t.v.height
    ensures var a := EnableAlternateScreen(t, true);
      && a.v.alternate && a.v.x == 0 && (!t.m.offset ==> a.v.y == 0)
      && EditingTheorems.Visible(a.v)[i] == Repeat(BLANK, t.v.width)
  {
    hide UtfOk, Clear;
    var s := SaveCursor(t);
    var u := GotoXY(s.(v := SwitchView(s.v)), 0, 0);
    hide ViewOk;
    EditingTheorems.ClearedScreen(u.v, Unset, Plain);
  }

  lemma EnteringSaves(t: Term)
    requires TermOk(t) && !t.v.alternate
    ensures var a := EnableAlternateScreen(t, true);
      a.v.alternate && a.v.hidden == t.v.lines && a.saved.main == Saved(t.v.x, t.v.y, t.pen.attr)
      && a.v.width == t.v.width && a.v.height == t.v.height
      && InUse(a) == InUse(t) && SavedSets(a) == InUse(t)
  {
    hide ViewOk, UtfOk, FillRegion, ClipClear;
  }

  lemma LeavingRestores(u: Term, x: nat, y: nat, attr: Attr)
    requires TermOk(u) && u.v.alternate && u.saved.main == Saved(x, y, attr) && x < u.v.width && y < u.v.height
    ensures var r := EnableAlternateScreen(u, false);
      r.v.lines == u.v.hidden && !r.v.alternate && r.pen.attr == attr && r.v.x == x
        && (r.v.y == y <==> !u.m.offset || u.top <= y < u.bottom)
      && InUse(r) == SavedSets(u) && r.g.translate == r.g.gmap[r.g.useG]
  {
    hide ViewOk, UtfOk, ColorOf;
  }

  /** Whatever the host sends, the pen stays legible, and so does everything on both screens and in the history. */
  lemma {:induction false} AlwaysLegible(t: Term, s: seq<CodeUnit>)
    requires TermOk(t) && Legible(t) && Shown(t.v)
    ensures Legible(Run(t, s)) && Shown(Run(t, s).v)
  {
    hide ViewOk, UtfOk, LinesLegible, Legible, Feed;
    if s != [] {
      AlwaysLegible(t, s[..|s| - 1]);
      FeedGuarded(Run(t, s[..|s| - 1]), s[|s| - 1]);
    }
  }

  /** So it is from the beginning. */
  lemma LegibleFromTheStart(width: nat, height: nat, fonts: Fonts, utf: bool, s: seq<CodeUnit>)
    requires 0 < width && 0 < height
    ensures Legible(Run(Initial(width, height, fonts, utf), s)) && Shown(Run(Initial(width, height, fonts, utf), s).v)
  {
    assert Legible(Initial(width, height, fonts, utf)) && Shown(Initial(width, height, fonts, utf).v);
    AlwaysLegible(Initial(width, height, fonts, utf), s);
  }
}
