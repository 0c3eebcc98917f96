// The terminal emulator: the fields and methods of VT100 that interpret the characters from the host.
// Each method is proved to do to the abstract terminal what the function of TerminalSpec says; the
// last one, Vt100, collects printable characters and writes them in one go, and is proved to leave
// the same terminal as showing each character at once.
module TerminalClass {
  import opened Cells
  import opened ScreenSpec
  import opened ScreenClass
  import opened TerminalSpec
  import opened Batching

  class Terminal {
    const screen: Screen
    const env: Env
    var isEsc: Esc
    var needWrap: bool
    var modes: Modes
    var glyphs: Glyphs           // useGMap, GMap, translate, dispCtrl, toggleMeta
    var utf: Utf                 // utfEnabled, utfCount, utfChar
    var pen: Pen                 // attr, color, style
    var params: Params           // npar, par, isQuestionMark
    var top: nat
    var bottom: nat
    var lastCharacter: CodeUnit
    var userTabStop: map<int, bool>
    var saved: SavedState
    var respondString: seq<Response>

    ghost predicate Valid()
      reads this, screen
    {
      screen.Valid() && TermOk(State())
    }

    ghost function State(): Term
      requires screen.Valid()
      reads this, screen
    {
      Term(screen.Abs(), isEsc, needWrap, modes, glyphs, utf, pen, params, top, bottom, lastCharacter, userTabStop,
        saved, env)
    }

    ghost function Abs(): (t: Term)
      requires Valid()
      reads this, screen
      ensures TermOk(t)
    {
      State()
    }

    constructor (width: nat, height: nat, fonts: Fonts, utf: bool)
      requires 0 < width && 0 < height
      ensures fresh(screen) && Is(Initial(width, height, fonts, utf), [])
    {
      screen := new Screen(width, height);
      env := Env(fonts, utf);
      isEsc, needWrap, modes := EsNormal, false, Modes(true, false, false, false, false, false, false);
      this.utf, pen, glyphs, params := Utf(utf, 0, 0), DEFAULT_PEN, DEFAULT_GLYPHS, Params(0, map[], false);
      top, bottom, lastCharacter, userTabStop := 0, height, SPACE, map[];
      saved := SavedState(NothingSaved, NothingSaved, 0, DEFAULT_GLYPHS.gmap);
      respondString := [];
    }

    /** The terminal is t and has answered `out` so far. */
    ghost predicate Is(t: Term, out: seq<Response>)
      reads this, screen
    {
      Valid() && Abs() == t && respondString == out
    }

    // ---- Cursor movement ----

    /** v, but not below lo and less than hi. */
    method Clip(v: int, lo: int, hi: int) returns (r: int)
      ensures r == Max(Min(v, hi - 1), lo)
    {
      r := v;
      if r >= hi {
        r := hi - 1;
      }
      if r < lo {
        r := lo;
      }
    }

    method GotoXY(x0: int, y0: int)
      requires Valid()
      modifies this, screen
      ensures Is(TerminalSpec.GotoXY(old(Abs()), x0, y0), old(respondString))
    {
      hide ViewOk, UtfOk;
      var minY, maxY := if modes.offset then top else 0, if modes.offset then bottom else screen.height;
      var x := Clip(x0, 0, screen.width);
      var y := Clip(y0, minY, maxY);
      screen.MoveCursor(x, y);
      needWrap := false;
    }

    method GotoXaY(x: int, y: int)
      requires Valid()
      modifies this, screen
      ensures Is(TerminalSpec.GotoXaY(old(Abs()), x, y), old(respondString))
    {
      hide ViewOk, UtfOk, TerminalSpec.GotoXY;
      GotoXY(x, if modes.offset then top + y else y);
    }

    method ScrollRegion(x: int, y: int, w: int, h: int, incX: int, incY: int)
      requires Valid()
      modifies this, screen
      ensures Is(Scroll(old(Abs()), x, y, w, h, incX, incY), old(respondString))
    {
      hide ViewOk, UtfOk, ScrollView;
      screen.ScrollRegion(x, y, w, h, incX, incY, pen.color, pen.style);
    }

    method ClearRegion(x: int, y: int, w: int, h: int)
      requires Valid()
      modifies this, screen
      ensures Is(Erase(old(Abs()), x, y, w, h), old(respondString))
    {
      hide ViewOk, UtfOk, Clear;
      screen.ClearRegion(x, y, w, h, pen.color, pen.style);
    }

    method Bs()
      requires Valid()
      modifies this, screen
      ensures Is(TerminalSpec.Bs(old(Abs())), old(respondString))
    {
      hide ViewOk, UtfOk, TerminalSpec.GotoXY;
      if screen.cursorX > 0 {
        GotoXY(screen.cursorX - 1, screen.cursorY);
      }
    }

    method Cr()
      requires Valid()
      modifies this, screen
      ensures Is(TerminalSpec.Cr(old(Abs())), old(respondString))
    {
      hide ViewOk, UtfOk, TerminalSpec.GotoXY;
      GotoXY(0, screen.cursorY);
    }

    method LineFeedOnce()
      requires Valid()
      modifies this, screen
      ensures Is(LineFeed(old(Abs())), old(respondString))
    {
      hide ViewOk, UtfOk, TerminalSpec.GotoXY, Scroll;
      if screen.cursorY == bottom - 1 {
        ScrollRegion(0, top + 1, screen.width, bottom - top - 1, 0, -1);
      } else if screen.cursorY < screen.height - 1 {
        GotoXY(screen.cursorX, screen.cursorY + 1);
      }
    }

    method Lf(count0: nat)
      requires Valid()
      modifies this, screen
      ensures Is(LineFeeds(old(Abs()), LineCount(old(Abs()), count0)), old(respondString))
    {
      hide ViewOk, UtfOk, LineFeed;
      var count := Clip(count0, 1, screen.height + 1);
      var i := 0;
      while i < count
        invariant 0 <= i <= count && Is(LineFeeds(old(Abs()), i), old(respondString))
      {
        LineFeedOnce();
        i := i + 1;
      }
    }

    method ReverseFeedOnce()
      requires Valid()
      modifies this, screen
      ensures Is(ReverseFeed(old(Abs())), old(respondString))
    {
      hide ViewOk, UtfOk, TerminalSpec.GotoXY, Scroll;
      if screen.cursorY == top {
        ScrollRegion(0, top, screen.width, bottom - top - 1, 0, 1);
      } else if screen.cursorY > 0 {
        GotoXY(screen.cursorX, screen.cursorY - 1);
      }
    }

    method Ri(count0: nat)
      requires Valid()
      modifies this, screen
      ensures Is(TerminalSpec.Ri(old(Abs()), count0), old(respondString))
    {
      hide ViewOk, UtfOk, ReverseFeed;
      var count := Clip(count0, 1, screen.height + 1);
      var i := 0;
      while i < count
        invariant 0 <= i <= count && Is(ReverseFeeds(old(Abs()), i), old(respondString))
      {
        ReverseFeedOnce();
        i := i + 1;
      }
      needWrap := false;
    }

    predicate TabStop(c: int)
      reads this
      ensures TabStop(c) == IsTabStop(userTabStop, c)
    {
      if c in userTabStop then userTabStop[c] else c % 8 == 0
    }

    method Ht(count: nat)
      requires Valid()
      modifies this, screen
      ensures Is(TerminalSpec.Ht(old(Abs()), count), old(respondString))
    {
      hide ViewOk, UtfOk, TerminalSpec.GotoXY;
      var cx: int := screen.cursorX;
      var i := 0;
      while i < count
        modifies {}
        invariant i <= count && cx == TabsRight(userTabStop, screen.width, screen.cursorX, i)
      {
        cx := NextTab(cx);
        i := i + 1;
      }
      if cx > screen.width - 1 {
        cx := screen.width - 1;
      }
      if cx != screen.cursorX {
        GotoXY(cx, screen.cursorY);
      }
    }

    method NextTab(c: int) returns (cx: int)
      ensures cx == TabRight(userTabStop, screen.width, c)
    {
      cx := c + 1;
      while cx <= screen.width && !TabStop(cx)
        invariant TabRight(userTabStop, screen.width, cx - 1) == TabRight(userTabStop, screen.width, c)
        decreases screen.width - cx
      {
        cx := cx + 1;
      }
    }

    method Rt(count: nat)
      requires Valid()
      modifies this, screen
      ensures Is(TerminalSpec.Rt(old(Abs()), count), old(respondString))
    {
      hide ViewOk, UtfOk, TerminalSpec.GotoXY;
      var cx: int := screen.cursorX;
      var i := 0;
      while i < count
        modifies {}
        invariant i <= count && cx == TabsLeft(userTabStop, screen.cursorX, i)
      {
        cx := PreviousTab(cx);
        i := i + 1;
      }
      if cx < 0 {
        cx := 0;
      }
      if cx != screen.cursorX {
        GotoXY(cx, screen.cursorY);
      }
    }

    method PreviousTab(c: int) returns (cx: int)
      ensures cx == TabLeft(userTabStop, c)
    {
      cx := c - 1;
      while cx >= 0 && !TabStop(cx)
        invariant TabLeft(userTabStop, cx + 1) == TabLeft(userTabStop, c)
        decreases cx
      {
        cx := cx - 1;
      }
    }

    // ---- Attributes, modes, saved state ----

    method UpdateStyle()
      requires Valid()
      modifies this
      ensures Is(WithAttr(old(Abs()), old(pen.attr)), old(respondString))
    {
      hide ViewOk, UtfOk, ColorOf;
      pen := Pen(pen.attr, ColorOf(pen.attr), StyleOf(pen.attr));
    }

    method Csim()
      requires Valid()
      modifies this
      ensures Is(TerminalSpec.Csim(old(Abs())), old(respondString))
    {
      hide ViewOk, UtfOk, Sgr, WithAttr;
      var i := 0;
      while i <= params.npar
        invariant i <= params.npar + 1 && params == old(params) && Is(Sgrs(old(Abs()), i), old(respondString))
      {
        if i in params.par {
          SelectRendition(params.par[i]);
        }
        i := i + 1;
      }
      UpdateStyle();
    }

    method SelectRendition(p: nat)
      requires Valid()
      modifies this`pen, this`glyphs
      ensures Is(Sgr(old(Abs()), p), old(respondString))
    {
      hide ViewOk, UtfOk, SgrAttr;
      if p == 10 {
        glyphs := glyphs.(translate := glyphs.gmap[glyphs.useG], dispCtrl := false, toggleMeta := false);
      } else if p == 11 {
        glyphs := glyphs.(translate := Cp437, dispCtrl := true, toggleMeta := false);
      } else if p == 12 {
        glyphs := glyphs.(translate := Cp437, dispCtrl := true, toggleMeta := true);
      } else {
        pen := pen.(attr := SgrAttr(pen.attr, p));
      }
    }

    method SaveCursor()
      requires Valid()
      modifies this
      ensures Is(TerminalSpec.SaveCursor(old(Abs())), old(respondString))
    {
      hide ViewOk, UtfOk;
      var s := Saved(screen.cursorX, screen.cursorY, pen.attr);
      if screen.currentScreen == 1 {
        saved := SavedState(saved.main, s, glyphs.useG, glyphs.gmap);
      } else {
        saved := SavedState(s, saved.alt, glyphs.useG, glyphs.gmap);
      }
    }

    method RestoreCursor()
      requires Valid()
      modifies this, screen
      ensures Is(TerminalSpec.RestoreCursor(old(Abs())), old(respondString))
    {
      hide ViewOk, UtfOk, TerminalSpec.GotoXY, ColorOf;
      var s := if screen.currentScreen == 1 then saved.alt else saved.main;
      if s.NothingSaved? {
        return;
      }
      pen := Pen(s.attr, ColorOf(s.attr), StyleOf(s.attr));
      glyphs := glyphs.(useG := saved.useG, gmap := saved.gmap, translate := saved.gmap[saved.useG]);
      needWrap := false;
      GotoXY(s.x, s.y);
    }

    method EnableAlternateScreen(state: bool)
      requires Valid()
      modifies this, screen
      ensures Is(TerminalSpec.EnableAlternateScreen(old(Abs()), state), old(respondString))
    {
      hide ViewOk, UtfOk, TerminalSpec.GotoXY, TerminalSpec.RestoreCursor, Clear;
      if state == (screen.currentScreen == 1) {
        return;
      }
      if state {
        SaveCursor();
        screen.SwitchScreens();
        GotoXY(0, 0);
        screen.ClearRegion(0, 0, screen.width, screen.height, Unset, Plain);
      } else {
        screen.SwitchScreens();
        RestoreCursor();
      }
    }

    method ResetFields()
      modifies this`isEsc, this`needWrap, this`modes, this`utf, this`pen, this`glyphs, this`top, this`bottom,
        this`lastCharacter, this`userTabStop
      ensures isEsc == EsNormal && !needWrap && modes == Modes(true, false, false, false, false, false, false)
      ensures utf == Utf(env.utf, 0, 0) && pen == DEFAULT_PEN && glyphs == DEFAULT_GLYPHS
      ensures top == 0 && bottom == screen.height && lastCharacter == SPACE && userTabStop == map[]
    {
      isEsc, needWrap, modes := EsNormal, false, Modes(true, false, false, false, false, false, false);
      utf, pen, glyphs := Utf(env.utf, 0, 0), DEFAULT_PEN, DEFAULT_GLYPHS;
      top, bottom, lastCharacter, userTabStop := 0, screen.height, SPACE, map[];
    }

    method ResetModes()
      requires Valid()
      modifies this
      ensures Is(TerminalSpec.ResetModes(old(Abs())), old(respondString))
    {
      assert UtfOk(0, 0);
      hide ViewOk, UtfOk;
      ResetFields();
    }

    method Reset()
      requires Valid()
      modifies this, screen
      ensures Is(TerminalSpec.Reset(old(Abs())), old(respondString))
    {
      hide ViewOk, UtfOk, TerminalSpec.GotoXY, TerminalSpec.EnableAlternateScreen, TerminalSpec.ResetModes, Erase;
      ResetModes();
      EnableAlternateScreen(false);
      GotoXY(0, 0);
      ClearRegion(0, 0, screen.width, screen.height);
    }

    method SetMode(state: bool)
      requires Valid()
      modifies this, screen
      ensures Is(SetModes(old(Abs()), old(params.npar) + 1, state), old(respondString))
    {
      hide ViewOk, UtfOk, Mode;
      ghost var given := params;
      var i, n, par := 0, params.npar + 1, params.par;
      while i < n
        invariant i <= n && Is(SetModes(old(Abs()), i, state), old(respondString))
      {
        if i in par {
          SetOneMode(par[i], state);
        }
        i := i + 1;
      }
    }

    method SetOneMode(p: nat, state: bool)
      requires Valid()
      modifies this, screen
      ensures Is(Mode(old(Abs()), p, state), old(respondString))
    {
      hide ViewOk, UtfOk, TerminalSpec.EnableAlternateScreen;
      if params.question {
        if p == 1 {
          modes := modes.(cursorKeys := state);
        } else if p == 6 {
          modes := modes.(offset := state);
        } else if p == 7 {
          modes := modes.(autoWrap := state);
        } else if p == 1000 || p == 9 {
          modes := modes.(mouse := state);
        } else if p == 1047 || p == 1049 || p == 47 {
          EnableAlternateScreen(state);
        }
      } else {
        if p == 3 {
          glyphs := glyphs.(dispCtrl := state);
        } else if p == 4 {
          modes := modes.(insert := state);
        } else if p == 20 {
          modes := modes.(crLf := state);
        }
      }
    }

    // ---- Editing ----

    method CsiAt(number0: nat)
      requires Valid()
      modifies this, screen
      ensures Is(TerminalSpec.CsiAt(old(Abs()), number0), old(respondString))
    {
      hide ViewOk, UtfOk, Scroll;
      var number := if number0 == 0 then 1 else number0;
      if number > screen.width - screen.cursorX {
        number := screen.width - screen.cursorX;
      }
      ScrollRegion(screen.cursorX, screen.cursorY, screen.width - screen.cursorX - number, 1, number, 0);
      needWrap := false;
    }

    method CsiP(number0: nat)
      requires Valid()
      modifies this, screen
      ensures Is(TerminalSpec.CsiP(old(Abs()), number0), old(respondString))
    {
      hide ViewOk, UtfOk, Scroll;
      var number: int := if number0 == 0 then 1 else number0;
      if number > screen.width - screen.cursorX {
        number := screen.width - screen.cursorX;
      }
      ScrollRegion(screen.cursorX + number, screen.cursorY, screen.width - screen.cursorX - number, 1, -number, 0);
    }

    method CsiL(number0: nat)
      requires Valid()
      modifies this, screen
      ensures Is(TerminalSpec.CsiL(old(Abs()), number0), old(respondString))
    {
      hide ViewOk, UtfOk, Scroll;
      if screen.cursorY >= bottom {
        return;
      }
      var number := if number0 == 0 then 1 else number0;
      if number > bottom - screen.cursorY {
        number := bottom - screen.cursorY;
      }
      ScrollRegion(0, screen.cursorY, screen.width, bottom - screen.cursorY - number, 0, number);
    }

    method CsiM(number0: nat)
      requires Valid()
      modifies this, screen
      ensures Is(TerminalSpec.CsiM(old(Abs()), number0), old(respondString))
    {
      hide ViewOk, UtfOk, Scroll;
      if screen.cursorY >= bottom {
        return;
      }
      var number: int := if number0 == 0 then 1 else number0;
      if number > bottom - screen.cursorY {
        number := bottom - screen.cursorY;
      }
      ScrollRegion(0, screen.cursorY + number, screen.width, bottom - screen.cursorY - number, 0, -number);
    }

    method CsiX(number0: nat)
      requires Valid()
      modifies this, screen
      ensures Is(TerminalSpec.CsiX(old(Abs()), number0), old(respondString))
    {
      hide ViewOk, UtfOk, Erase;
      var number := if number0 == 0 then 1 else number0;
      if number > screen.width - screen.cursorX {
        number := screen.width - screen.cursorX;
      }
      ClearRegion(screen.cursorX, screen.cursorY, number, 1);
    }

    method CsiJ(number: nat)
      requires Valid()
      modifies this, screen
      ensures Is(TerminalSpec.CsiJ(old(Abs()), number), old(respondString))
    {
      hide ViewOk, UtfOk, Clear;
      if number == 0 {
        ClearRegion(screen.cursorX, screen.cursorY, screen.width - screen.cursorX, 1);
        if screen.cursorY < screen.height - 2 {
          ClearRegion(0, screen.cursorY + 1, screen.width, screen.height - screen.cursorY - 1);
        }
      } else if number == 1 {
        if screen.cursorY > 0 {
          ClearRegion(0, 0, screen.width, screen.cursorY);
        }
        ClearRegion(0, screen.cursorY, screen.cursorX + 1, 1);
      } else if number == 2 {
        ClearRegion(0, 0, screen.width, screen.height);
      }
    }

    method CsiK(number: nat)
      requires Valid()
      modifies this, screen
      ensures Is(TerminalSpec.CsiK(old(Abs()), number), old(respondString))
    {
      hide ViewOk, UtfOk, Erase;
      if number == 0 {
        ClearRegion(screen.cursorX, screen.cursorY, screen.width - screen.cursorX, 1);
      } else if number == 1 {
        ClearRegion(0, screen.cursorY, screen.cursorX + 1, 1);
      } else if number == 2 {
        ClearRegion(0, screen.cursorY, screen.width, 1);
      }
    }

    // ---- The escape parser ----

    method EscEsc(ch: CodeUnit)
      requires Valid()
      modifies this, screen
      ensures Is(TerminalSpec.EscEsc(old(Abs()), ch), old(respondString) + (if ch == 0x5A then [DeviceId] else []))
    {
      hide ViewOk, UtfOk, Introduced, TerminalSpec.EscCursor, SetTab;
      isEsc := EsNormal;
      if 0x23 <= ch <= 0x2F || ch in {0x4E, 0x4F, 0x5B, 0x5D} {
        Introduce(ch);
      } else if ch in {0x37, 0x38, 0x44, 0x45, 0x4D, 0x63} {
        EscCursor(ch);
      } else if ch == 0x3E {
        modes := modes.(applKeys := false);
      } else if ch == 0x3D {
        modes := modes.(applKeys := true);
      } else if ch == 0x48 {
        SetTabStop(true);
      } else {
        IntroducesNothing(ch);
        if ch == 0x5A {
          respondString := respondString + [DeviceId];
        }
      }
    }

    lemma IntroducesNothing(ch: CodeUnit)
      requires !(0x23 <= ch <= 0x2F) && ch !in {0x4E, 0x4F, 0x5B, 0x5D}
      ensures Introduced(ch) == EsNormal
    {
    }

    method SetTabStop(stop: bool)
      requires Valid()
      modifies this`userTabStop
      ensures Is(SetTab(old(Abs()), stop), old(respondString))
    {
      hide ViewOk, UtfOk;
      userTabStop := userTabStop[screen.cursorX := stop];
    }

    /** The characters behind an escape that save, restore or move the cursor, or reset the terminal. */
    method EscCursor(ch: CodeUnit)
      requires Valid() && ch in {0x37, 0x38, 0x44, 0x45, 0x4D, 0x63} && isEsc == EsNormal
      modifies this, screen
      ensures Is(TerminalSpec.EscCursor(old(Abs()), ch), old(respondString))
    {
      hide ViewOk, UtfOk, TerminalSpec.SaveCursor, TerminalSpec.RestoreCursor, LineFeed, TerminalSpec.Cr,
        TerminalSpec.Ri, TerminalSpec.Reset, SetTab;
      if ch == 0x37 {
        SaveCursor();
      } else if ch == 0x38 {
        RestoreCursor();
      } else if ch == 0x44 {
        LineFeedOnce();
      } else if ch == 0x45 {
        Cr();
        LineFeedOnce();
      } else if ch == 0x4D {
        Ri(1);
      } else {
        Reset();
      }
    }

    /** The characters behind an escape that only set the state of the parser. */
    method Introduce(ch: CodeUnit)
      requires Valid() && (0x23 <= ch <= 0x2F || ch in {0x4E, 0x4F, 0x5B, 0x5D}) && isEsc == EsNormal
      modifies this`isEsc
      ensures Is(old(Abs()).(esc := Introduced(ch)), old(respondString))
    {
      hide ViewOk, UtfOk;
      match ch
      case 0x25 => isEsc := EsPercent;
      case 0x28 => isEsc := EsSetG(0);
      case 0x2D => isEsc := EsSetG(1);
      case 0x29 => isEsc := EsSetG(1);
      case 0x2E => isEsc := EsSetG(2);
      case 0x2A => isEsc := EsSetG(2);
      case 0x2F => isEsc := EsSetG(3);
      case 0x2B => isEsc := EsSetG(3);
      case 0x23 => isEsc := EsHash;
      case 0x4E => isEsc := EsSS2;
      case 0x4F => isEsc := EsSS3;
      case 0x5B => isEsc := EsSquare;
      case 0x5D => isEsc := EsNonStd;
      case _ =>
    }

    method EscNonStd(ch: CodeUnit)
      requires Valid()
      modifies this
      ensures Is(TerminalSpec.EscNonStd(old(Abs()), ch), old(respondString))
    {
      hide ViewOk, UtfOk, Zeros;
      if 0x30 <= ch <= 0x32 {
        isEsc := EsStatus;
      } else if ch == 0x50 {
        params := params.(npar := 0, par := Zeros(7));
        isEsc := EsPalette;
      } else {
        isEsc := EsNormal;
      }
    }

    method EscPalette(ch: CodeUnit)
      requires Valid()
      modifies this
      ensures Is(TerminalSpec.EscPalette(old(Abs()), ch), old(respondString))
    {
      hide ViewOk, UtfOk;
      if 0x30 <= ch <= 0x39 || 0x41 <= ch <= 0x46 || 0x61 <= ch <= 0x66 {
        var digit := if ch <= 0x39 then ch - 0x30 else if ch <= 0x46 then ch - 55 else ch - 87;
        params := params.(par := params.par[params.npar := digit], npar := params.npar + 1);
        if params.npar == 7 {
          isEsc := EsNormal;
        }
      } else {
        isEsc := EsNormal;
      }
    }

    method EscSquare(ch: CodeUnit) returns (lineBuf: seq<CodeUnit>)
      requires Valid()
      modifies this, screen
      ensures Is(TerminalSpec.EscSquare(old(Abs()), ch), old(respondString) + (if ch == 0x63 then [DeviceId] else []))
      ensures lineBuf == if ch == 0x62 then [old(lastCharacter)] else []
    {
      hide ViewOk, UtfOk, TerminalSpec.EscGetPars, TerminalSpec.StartPars;
      lineBuf := [];
      StartPars();
      if ch == 0x5B {
        isEsc := EsFuncKey;
      } else {
        SetQuestion(ch == 0x3F);
        if ch != 0x3F {
          OneCopy(lastCharacter);
          lineBuf := EscGetPars(ch);
        }
      }
    }

    method SetQuestion(question: bool)
      requires Valid()
      modifies this`params
      ensures Is(WithQuestion(old(Abs()), question), old(respondString)) && params == old(params).(question := question)
    {
      hide ViewOk, UtfOk;
      params := params.(question := question);
    }

    method StartPars()
      requires Valid()
      modifies this`params, this`isEsc
      ensures Is(TerminalSpec.StartPars(old(Abs()), 16, EsGetPars), old(respondString)) && isEsc == EsGetPars
      ensures params.npar == 0 && 0 in params.par && params.par[0] == 0
    {
      hide ViewOk, UtfOk;
      ZerosAreZero(16, 0);
      params := params.(npar := 0, par := Zeros(16));
      isEsc := EsGetPars;
    }

    method ReadParameter(ch: CodeUnit)
      requires Valid() && (ch == 0x3B || 0x30 <= ch <= 0x39)
      modifies this`params
      ensures Is(old(Abs()).(p := WithCharacter(old(Abs()).p, ch)), old(respondString))
    {
      hide ViewOk, UtfOk;
      if ch == 0x3B {
        params := params.(npar := params.npar + 1);
      } else {
        var p := if params.npar in params.par then params.par[params.npar] else 0;
        params := params.(par := params.par[params.npar := 10 * p + (ch - 0x30)]);
      }
    }

    method EscGetPars(ch: CodeUnit) returns (lineBuf: seq<CodeUnit>)
      requires Valid()
      modifies this, screen
      ensures Is(TerminalSpec.EscGetPars(old(Abs()), ch), old(respondString) + ParsReply(old(Abs()), ch))
      ensures lineBuf == ParsExpansion(old(Abs()), ch)
    {
      hide ViewOk, UtfOk, TerminalSpec.EscGotPars, WithCharacter;
      lineBuf := [];
      if ch == 0x3B || 0x30 <= ch <= 0x39 {
        ReadParameter(ch);
      } else if isEsc == EsDeviceAttr {
        if ch == 0x63 && 0 in params.par && params.par[0] == 0 {
          respondString := respondString + [SecondaryDA];
        }
        isEsc := EsNormal;
      } else {
        isEsc := EsNormal;
        lineBuf := EscGotPars(ch);
      }
    }

    method EscGotPars(ch: CodeUnit) returns (lineBuf: seq<CodeUnit>)
      requires Valid()
      modifies this, screen
      ensures Is(TerminalSpec.EscGotPars(old(Abs()), ch), old(respondString) + CsiReply(old(Abs()), ch))
      ensures lineBuf == if ch == 0x62 && !old(params.question)
        then Copies(old(lastCharacter), RepeatCount(old(Abs()))) else []
    {
      hide ViewOk, UtfOk, TerminalSpec.CsiMove, TerminalSpec.CsiEdit, TerminalSpec.CsiOther, SetModes;
      lineBuf := [];
      if params.question {
        if ch == 0x68 {
          SetMode(true);
        } else if ch == 0x6C {
          SetMode(false);
        }
        params := params.(question := false);
      } else if ch == 0x62 {
        lineBuf := RepeatLast();
        CsiOther(ch);
      } else if ch == 0x21 {
        isEsc := EsBang;
      } else if ch == 0x3E {
        if params.npar == 0 {
          isEsc := EsDeviceAttr;
        }
      } else if 0x40 <= ch <= 0x49 || ch in {0x60, 0x61, 0x64, 0x65, 0x66, 0x5A} {
        CsiMove(ch);
      } else if 0x4A <= ch <= 0x58 {
        CsiEdit(ch);
      } else {
        CsiOther(ch);
      }
    }

    method RepeatLast() returns (lineBuf: seq<CodeUnit>)
      requires Valid()
      ensures lineBuf == Copies(lastCharacter, RepeatCount(Abs()))
    {
      hide ViewOk, UtfOk;
      var c := ParameterOr1(0);
      if c > screen.width * screen.height {
        c := screen.width * screen.height;
      }
      lineBuf := [];
      while |lineBuf| < c
        invariant |lineBuf| <= c && lineBuf == Copies(lastCharacter, |lineBuf|)
      {
        lineBuf := lineBuf + [lastCharacter];
      }
    }

    function Parameter(i: nat): nat
      reads this
    {
      if i in params.par then params.par[i] else 0
    }

    function ParameterOr1(i: nat): nat
      reads this
    {
      if i in params.par && params.par[i] != 0 then params.par[i] else 1
    }

    method CsiMove(ch: CodeUnit)
      requires Valid()
      modifies this, screen
      ensures Is(TerminalSpec.CsiMove(old(Abs()), ch), old(respondString))
    {
      hide ViewOk, UtfOk, TerminalSpec.CsiAt, TerminalSpec.GotoXY, TerminalSpec.GotoXaY, TerminalSpec.Ht,
        TerminalSpec.Rt;
      var x: int, y: int, n: int := screen.cursorX, screen.cursorY, ParameterOr1(0);
      match ch
      case 0x40 => CsiAt(Parameter(0));
      case 0x47 => GotoXY(Parameter(0) - 1, y);
      case 0x60 => GotoXY(Parameter(0) - 1, y);
      case 0x41 => GotoXY(x, y - n);
      case 0x42 => GotoXY(x, y + n);
      case 0x65 => GotoXY(x, y + n);
      case 0x43 => GotoXY(x + n, y);
      case 0x61 => GotoXY(x + n, y);
      case 0x44 => GotoXY(x - n, y);
      case 0x45 => GotoXY(0, y + n);
      case 0x46 => GotoXY(0, y - n);
      case 0x64 => GotoXaY(x, Parameter(0) - 1);
      case 0x48 => GotoXaY(Parameter(1) - 1, Parameter(0) - 1);
      case 0x66 => GotoXaY(Parameter(1) - 1, Parameter(0) - 1);
      case 0x49 => Ht(n);
      case _ => Rt(n);
    }

    method CsiEdit(ch: CodeUnit)
      requires Valid()
      modifies this, screen
      ensures Is(TerminalSpec.CsiEdit(old(Abs()), ch), old(respondString))
    {
      hide ViewOk, UtfOk, TerminalSpec.CsiJ, TerminalSpec.CsiK, TerminalSpec.CsiL, TerminalSpec.CsiM,
        TerminalSpec.CsiP, TerminalSpec.CsiX, LineFeeds, TerminalSpec.Ri;
      var number, n := Parameter(0), ParameterOr1(0);
      match ch
      case 0x4A => CsiJ(number);
      case 0x4B => CsiK(number);
      case 0x4C => CsiL(number);
      case 0x4D => CsiM(number);
      case 0x50 => CsiP(number);
      case 0x58 => CsiX(number);
      case 0x53 => Lf(n);
      case 0x54 => Ri(n);
      case _ =>
    }

    method CsiOther(ch: CodeUnit)
      requires Valid()
      modifies this, screen
      ensures Is(TerminalSpec.CsiOther(old(Abs()), ch),
        old(respondString) + (if old(params.question) then [] else CsiReply(old(Abs()), ch)))
      ensures lastCharacter == old(lastCharacter) || ch != 0x62
    {
      hide ViewOk, UtfOk, TerminalSpec.Csim, SetModes, TerminalSpec.SaveCursor, TerminalSpec.RestoreCursor,
        TerminalSpec.ClearTab, TerminalSpec.SetMargins;
      match ch
      case 0x6D => Csim();
      case 0x63 => if Parameter(0) == 0 && !params.question { respondString := respondString + [DeviceId]; }
      case 0x67 => ClearTab(Parameter(0));
      case 0x68 => SetMode(true);
      case 0x6C => SetMode(false);
      case 0x6E => if !params.question { SendReport(Parameter(0)); }
      case 0x72 => SetMargins(ParameterOr1(0), if Parameter(1) != 0 then Parameter(1) else screen.height);
      case 0x73 => SaveCursor();
      case 0x75 => RestoreCursor();
      case _ =>
    }

    method SendReport(which: nat)
      requires Valid()
      modifies this`respondString
      ensures Is(old(Abs()), old(respondString) + if which == 5 then [StatusOk]
        else if which == 6 then [CursorReport(old(Abs()))] else [])
    {
      hide ViewOk, UtfOk;
      if which == 5 {
        respondString := respondString + [StatusOk];
      } else if which == 6 {
        respondString := respondString + [CursorAt(screen.cursorY + (if modes.offset then top + 1 else 1),
          screen.cursorX + 1)];
      }
    }

    method ClearTab(which: nat)
      requires Valid()
      modifies this
      ensures Is(TerminalSpec.ClearTab(old(Abs()), which), old(respondString))
    {
      hide ViewOk, UtfOk;
      if which == 0 {
        SetTabStop(false);
      } else if which == 2 || which == 3 {
        ClearAllTabs();
      }
    }

    method ClearAllTabs()
      modifies this`userTabStop
      ensures userTabStop == ClearedTabs(screen.width)
    {
      userTabStop := map[];
      var i := 0;
      while i < screen.width
        invariant i <= screen.width && userTabStop == ClearedTabs(i)
      {
        userTabStop := userTabStop[i := false];
        i := i + 1;
      }
    }

    method SetMargins(t: nat, b: nat)
      requires Valid() && 0 < t
      modifies this, screen
      ensures Is(TerminalSpec.SetMargins(old(Abs()), t, b), old(respondString))
    {
      hide ViewOk, UtfOk, TerminalSpec.GotoXaY;
      if t < b && b <= screen.height {
        top := t - 1;
        bottom := b;
        GotoXaY(0, 0);
      }
    }

    method EscSetG(g: nat, ch: CodeUnit)
      requires Valid() && g < 4
      modifies this
      ensures Is(TerminalSpec.EscSetG(old(Abs()), g, ch), old(respondString))
    {
      hide ViewOk, UtfOk;
      isEsc := EsNormal;
      var gmap := glyphs.gmap;
      match ch {
        case 0x30 => gmap := gmap[g := Graphics];
        case 0x42 => gmap := gmap[g := Latin1];
        case 0x55 => gmap := gmap[g := Cp437];
        case 0x4B => gmap := gmap[g := DirectToFont];
        case _ =>
      }
      glyphs := glyphs.(gmap := gmap);
      if glyphs.useG == g {
        glyphs := glyphs.(translate := gmap[g]);
      }
    }

    /** Looks a character up in a translation table; None is one that is not shown. */
    method Translate(table: Charset, ch0: CodeUnit) returns (g: Glyphed)
      requires Valid()
      ensures g == Render(env.fonts, table, Abs(), ch0)
    {
      var ch := ch0;
      if ch < 256 {
        ch := env.fonts.Table(table)[if glyphs.toggleMeta && ch < 128 then ch + 128 else ch];
      }
      if ch / 256 == 0xF0 {
        g := Draw(ch % 256);
      } else if ch == 0xFEFF || (ch >= 0x200A && ch <= 0x200F) {
        g := Skip;
      } else {
        g := Draw(ch);
      }
    }

    method EscShift(g: nat, ch: CodeUnit) returns (lineBuf: seq<CodeUnit>)
      requires Valid() && g < 4
      modifies this
      ensures Is(TerminalSpec.EscShift(old(Abs()), g, ch), old(respondString))
      ensures lineBuf == match Shifted(old(Abs()), g, ch) case Skip => [] case Draw(u) => [u]
    {
      hide ViewOk, UtfOk, Render;
      lineBuf := [];
      var shown := Draw(ch);
      if ch < 256 {
        shown := Translate(glyphs.gmap[g], ch);
      }
      if shown.Draw? {
        lastCharacter := shown.u;
        lineBuf := [lastCharacter];
      }
      isEsc := EsNormal;
    }

    method EscPercent(ch: CodeUnit)
      requires Valid()
      modifies this
      ensures Is(TerminalSpec.EscPercent(old(Abs()), ch), old(respondString))
    {
      hide ViewOk, UtfOk;
      isEsc := EsNormal;
      if ch == 0x40 {
        utf := utf.(enabled := false);
      } else if ch == 0x47 || ch == 0x38 {
        utf := utf.(enabled := true);
      }
    }

    method EscChar(ch: CodeUnit) returns (lineBuf: seq<CodeUnit>)
      requires Valid() && !IsControl(Abs(), ch)
      modifies this, screen
      ensures Is(TerminalSpec.EscChar(old(Abs()), ch), old(respondString) + Reply(old(Abs()), ch))
      ensures lineBuf == Expansion(old(Abs()), ch)
    {
      hide ViewOk, UtfOk, TerminalSpec.EscEsc, TerminalSpec.EscSquare, TerminalSpec.EscGetPars, TerminalSpec.EscSetG,
        TerminalSpec.EscNonStd, TerminalSpec.EscPalette, TerminalSpec.EscShift, TerminalSpec.EscPercent,
        IsControl, Shifted;
      lineBuf := [];
      match isEsc
      case EsNormal =>
      case EsEsc => EscEsc(ch);
      case EsSquare => lineBuf := EscSquare(ch);
      case EsGetPars => lineBuf := EscGetPars(ch);
      case EsDeviceAttr => lineBuf := EscGetPars(ch);
      case EsFuncKey => isEsc := EsNormal;
      case EsHash => isEsc := EsNormal;
      case EsSetG(g) => EscSetG(g, ch);
      case EsBang => isEsc := EsNormal;
      case EsPercent => EscPercent(ch);
      case EsNonStd => EscNonStd(ch);
      case EsPalette => EscPalette(ch);
      case EsStatus => if ch == 0x07 { isEsc := EsNormal; }
      case EsSS2 => lineBuf := EscShift(2, ch);
      case EsSS3 => lineBuf := EscShift(3, ch);
    }

    method ControlChar(ch: CodeUnit)
      requires Valid() && IsControl(Abs(), ch)
      modifies this, screen
      ensures Is(TerminalSpec.ControlChar(old(Abs()), ch), old(respondString) + Reply(old(Abs()), ch))
    {
      hide ViewOk, UtfOk, TerminalSpec.Bs, TerminalSpec.Ht, LineFeed, TerminalSpec.NewLine, TerminalSpec.Cr,
        TerminalSpec.Ri, IsControl, SetTab, LockingShift, Announced;
      match ch
      case 0x08 => Bs();
      case 0x09 => Ht(1);
      case 0x0A => NewLine();
      case 0x0B => NewLine();
      case 0x0C => NewLine();
      case 0x84 => NewLine();
      case 0x0D => Cr();
      case 0x85 => Cr(); LineFeedOnce();
      case 0x0E => ShiftTo(1);
      case 0x0F => ShiftTo(0);
      case 0x18 => Announce(ch);
      case 0x1A => Announce(ch);
      case 0x1B => Announce(ch);
      case 0x88 => SetTabStop(true);
      case 0x8D => Ri(1);
      case 0x8E => Announce(ch);
      case 0x8F => Announce(ch);
      case 0x9A => respondString := respondString + [DeviceId];
      case 0x9B => Announce(ch);
      case _ =>
    }

    method Announce(ch: CodeUnit)
      requires Valid()
      modifies this`isEsc
      ensures Is(old(Abs()).(esc := Announced(ch)), old(respondString))
    {
      hide ViewOk, UtfOk;
      match ch
      case 0x1B => isEsc := EsEsc;
      case 0x8E => isEsc := EsSS2;
      case 0x8F => isEsc := EsSS3;
      case 0x9B => isEsc := EsSquare;
      case _ => isEsc := EsNormal;
    }

    method ShiftTo(g: nat)
      requires Valid() && g < 2
      modifies this`glyphs
      ensures Is(LockingShift(old(Abs()), g), old(respondString))
    {
      hide ViewOk, UtfOk;
      glyphs := glyphs.(useG := g, translate := glyphs.gmap[g], dispCtrl := g == 1);
    }

    method NewLine()
      requires Valid()
      modifies this, screen
      ensures Is(TerminalSpec.NewLine(old(Abs())), old(respondString))
    {
      hide ViewOk, UtfOk, LineFeed, TerminalSpec.Cr;
      LineFeedOnce();
      if modes.crLf {
        Cr();
      }
    }

    method DoControl(ch: CodeUnit) returns (lineBuf: seq<CodeUnit>)
      requires Valid()
      modifies this, screen
      ensures Is(Control(old(Abs()), ch), old(respondString) + Reply(old(Abs()), ch))
      ensures lineBuf == Expansion(old(Abs()), ch)
    {
      hide ViewOk, UtfOk, TerminalSpec.ControlChar, TerminalSpec.EscChar, Reply;
      if ch in {0x00, 0x08, 0x09, 0x0A, 0x0B, 0x0C, 0x0D, 0x0E, 0x0F, 0x18, 0x1A, 0x1B, 0x7F} ||
         ch in {0x84, 0x85, 0x88, 0x8D, 0x8E, 0x8F, 0x9A, 0x9B} || (ch == 0x07 && isEsc != EsStatus) {
        lineBuf := [];
        ControlChar(ch);
      } else {
        lineBuf := EscChar(ch);
      }
    }

    // ---- Characters from the host ----

    /** The incremental UTF-8 decoder. */
    method DecodeUnit(ch: CodeUnit) returns (d: Decoded)
      requires Valid()
      modifies this`utf
      ensures Is(DecodeState(old(Abs()), ch), old(respondString)) && d == Decode(old(Abs()), ch)
    {
      DecodeOk(Abs(), ch);
      hide ViewOk, UtfOk, ShiftIn, Leading;
      d := Char(ch);
      if utf.enabled {
        if ch > 0x7F {
          if utf.count > 0 && (ch % 256) / 64 == 2 {
            utf := utf.(bits := ShiftIn(utf.bits, ch % 64), count := utf.count - 1);
            d := if utf.count > 0 then Pending else Char(if utf.bits > 0xFFFF || utf.bits < 0 then 0xFFFD
              else utf.bits);
          } else {
            var (count, bits) := Leading(ch);
            utf := if count == 0 then utf.(count := 0) else utf.(count := count, bits := bits);
            d := Pending;
          }
        } else {
          utf := utf.(count := 0);
        }
      }
    }

    /** Writes a collected text at the cursor: of one that does not fit, the beginning and its last character. */
    method RenderString(s0: seq<CodeUnit>)
      requires Valid() && s0 != []
      modifies this, screen
      ensures Is(Flush(old(Abs()), s0), old(respondString))
    {
      hide ViewOk, UtfOk, Put;
      var s := s0;
      var incX := |s|;
      if incX > screen.width - screen.cursorX {
        incX := screen.width - screen.cursorX;
        s := s[..incX - 1] + [s[|s| - 1]];
      }
      screen.PutString(screen.cursorX, screen.cursorY, s, pen.color, pen.style);
    }

    /** Collects one printable character, after a pending line wrap and, in insert mode, after making room. */
    method Collect(u: CodeUnit, lineBuf0: seq<CodeUnit>) returns (lineBuf: seq<CodeUnit>)
      requires Valid()
      modifies this, screen
      ensures Valid() && respondString == old(respondString)
        && Flush(Abs(), lineBuf) == Print(Flush(old(Abs()), lineBuf0), u)
    {
      hide ViewOk, UtfOk, Put, PutChar, Flush, LineFeed, TerminalSpec.Cr, Scroll;
      ghost var naive := Flush(Abs(), lineBuf0);
      FlushKeeps(Abs(), lineBuf0);
      lineBuf := lineBuf0;
      if needWrap || modes.insert {
        if lineBuf != [] {
          RenderString(lineBuf);
          lineBuf := [];
        }
        FlushNothing(Abs());
        MakeRoom();
        FlushNothing(Abs());
      }
      assert Flush(Abs(), lineBuf) == BeforeChar(naive);
      FlushSnoc(Abs(), lineBuf, u);
      CollectOne(u, |lineBuf| + 1);
      lineBuf := lineBuf + [u];
    }

    method MakeRoom()
      requires Valid()
      modifies this, screen
      ensures Is(BeforeChar(old(Abs())), old(respondString))
    {
      hide ViewOk, UtfOk, LineFeed, TerminalSpec.Cr, Scroll;
      if needWrap {
        Cr();
        LineFeedOnce();
      }
      if modes.insert {
        ScrollRegion(screen.cursorX, screen.cursorY, screen.width - screen.cursorX - 1, 1, 1, 0);
      }
    }

    method CollectOne(u: CodeUnit, count: nat)
      requires Valid()
      modifies this
      ensures Is(Collected(old(Abs()), count, u), old(respondString))
    {
      hide ViewOk, UtfOk;
      lastCharacter := u;
      if screen.cursorX + count >= screen.width {
        needWrap := modes.autoWrap;
      }
    }

    /** One decoded character: collected when it is printable, obeyed otherwise. */
    method Character(ch: CodeUnit, lineBuf0: seq<CodeUnit>) returns (lineBuf: seq<CodeUnit>, expand: seq<CodeUnit>)
      requires Valid()
      modifies this, screen
      ensures var naive := Flush(old(Abs()), lineBuf0);
        && Valid() && respondString == old(respondString) + (if IsPrinted(naive, ch) then [] else Reply(naive, ch))
        && Flush(Abs(), lineBuf) == StepChar(naive, ch)
        && expand == (if IsPrinted(naive, ch) then [] else Expansion(naive, ch))
        && (expand != [] ==> lineBuf == [])
    {
      hide ViewOk, UtfOk, Flush, Print, Control, Render, IsNormal, Reply, Expansion;
      ghost var naive := Flush(Abs(), lineBuf0);
      FlushPrinted(Abs(), lineBuf0, ch);
      lineBuf, expand := lineBuf0, [];
      var normal := IsNormalCharacter(ch);
      if normal && isEsc.EsNormal? {
        var shown := Translate(glyphs.translate, ch);
        if shown.Draw? {
          lineBuf := Collect(shown.u, lineBuf);
        }
      } else {
        FlushNothing(Abs());
        if lineBuf != [] {
          RenderString(lineBuf);
          lineBuf := [];
        }
        expand := DoControl(ch);
        FlushNothing(Abs());
      }
    }

    method IsNormalCharacter(ch: CodeUnit) returns (b: bool)
      requires Valid()
      ensures b == IsNormal(Abs(), ch)
    {
      b := ((ch >= 32 && ch <= 127) || ch >= 160 || (utf.enabled && ch >= 128) ||
            !(if glyphs.dispCtrl then CtrlAlways(ch % 32) else CtrlAction(ch % 32))) &&
           (ch != 0x7F || glyphs.dispCtrl);
    }

    /** One code unit. What is shown afterwards, once the collected characters are written, is what it shows
        when each character is written at once. */
    method FeedUnit(ch: CodeUnit, lineBuf0: seq<CodeUnit>) returns (lineBuf: seq<CodeUnit>, expand: seq<CodeUnit>)
      requires Valid()
      modifies this, screen
      ensures var naive := Flush(old(Abs()), lineBuf0);
        && Valid() && respondString == old(respondString) + StepReply(naive, ch)
        && Flush(Abs(), lineBuf) == Step(naive, ch)
        && expand == StepExpansion(naive, ch)
        && (expand != [] ==> lineBuf == [])
    {
      hide ViewOk, UtfOk, Flush, StepChar, IsPrinted, Reply, Expansion, Decode, DecodeState;
      FlushDecode(Abs(), lineBuf0, ch);
      lineBuf, expand := lineBuf0, [];
      var d := DecodeUnit(ch);
      if d.Char? {
        lineBuf, expand := Character(d.ch, lineBuf);
      }
    }

    /** Feeds a string to the terminal and answers the host. The outcome is that of the reference terminal. */
    method Vt100(s: seq<CodeUnit>) returns (answer: seq<Response>)
      requires Valid()
      modifies this, screen
      ensures Is(Run(old(Abs()), s), RunReply(old(Abs()), s)) && answer == RunReply(old(Abs()), s)
      decreases if Quiet(Abs(), s) then 0 else 1
    {
      hide ViewOk, UtfOk, Flush, Step, StepReply, StepExpansion, Run, RunReply, Quiet;
      ghost var t0 := Abs();
      RunNothing(t0);
      respondString := [];
      var lineBuf := [];
      FlushNothing(t0);
      var i := 0;
      while i < |s|
        invariant i <= |s| && Valid() && Flush(Abs(), lineBuf) == Run(t0, s[..i])
          && respondString == RunReply(t0, s[..i])
        decreases |s| - i
      {
        RunOneMore(t0, s, i);
        ExpansionsAreQuiet(Run(t0, s[..i]), s[i]);
        var expand;
        lineBuf, expand := FeedUnit(s[i], lineBuf);
        if expand != [] {
          FlushNothing(Abs());
          var r := respondString;
          var nested := Vt100(expand);
          respondString := r + nested;
          FlushNothing(Abs());
        }
        i := i + 1;
      }
      assert s[..i] == s;
      if lineBuf != [] {
        RenderString(lineBuf);
      } else {
        FlushNothing(Abs());
      }
      answer := respondString;
    }
  }
}
