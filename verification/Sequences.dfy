// What control sequences do for the host that writes them: erasing in a line cell by cell, and what is left of
// a list of graphic renditions or of modes, each of which may change or undo what the ones before it did.
module Sequences {
  import opened Cells
  import opened ScreenSpec
  import opened TerminalSpec
  import opened Batching
  import opened TerminalInput

  // ---- Erasing ----

  /** Whether "erase in line" erases column j. */
  predicate InErased(number: nat, x: nat, j: nat) {
    (number == 0 && j >= x) || (number == 1 && j <= x) || number == 2
  }

  /** "Erase in line" blanks the cells of the cursor's line from the cursor on, up to and with it, or all, in the
      current colours, and changes nothing else. */
  lemma EraseInLine(t: Term, number: nat, i: nat, j: nat)
    requires TermOk(t) && i < |t.v.lines| && j < t.v.width
    ensures var r, u := Run(t, Sequence([number], 0x4B)), ReadAll(t, [number]);
      && r == u.(v := u.v.(lines := r.v.lines)) && |r.v.lines| == |t.v.lines| && |r.v.lines[i]| == t.v.width
      && r.v.lines[i][j] ==
        if i == t.v.Scrollback() + t.v.y && InErased(number, t.v.x, j) then Cell(SPACE, Look(t.pen.color), t.pen.style)
        else t.v.lines[i][j]
  {
    hide ViewOk, UtfOk, Run, Sequence, EscGotPars, CsiK, ReadAll;
    SequenceActs(t, [number], 0x4B);
    var u := ReadAll(t, [number]);
    EraseLineActs(u);
    CellsErasedInLine(u, number, i, j);
  }

  lemma EraseLineActs(u: Term)
    requires TermOk(u) && !u.p.question
    ensures EscGotPars(u, 0x4B) == CsiK(u, Par(u, 0)) && EscGotPars(u, 0x58) == CsiX(u, Par(u, 0))
  {
    hide ViewOk, UtfOk, CsiK, CsiX;
  }

  lemma CellsErasedInLine(u: Term, number: nat, i: nat, j: nat)
    requires TermOk(u) && i < |u.v.lines| && j < u.v.width
    ensures var r := CsiK(u, number);
      && r == u.(v := u.v.(lines := r.v.lines)) && |r.v.lines| == |u.v.lines| && |r.v.lines[i]| == u.v.width
      && r.v.lines[i][j] ==
        if i == u.v.Scrollback() + u.v.y && InErased(number, u.v.x, j) then Cell(SPACE, Look(u.pen.color), u.pen.style)
        else u.v.lines[i][j]
  {
    hide UtfOk;
  }

  /** "Erase characters" blanks the given number of cells from the cursor on, at least one and no further than the
      end of the line, and changes nothing else: unlike "delete characters" also when they reach it. */
  lemma EraseCharacters(t: Term, number: nat, i: nat, j: nat)
    requires TermOk(t) && i < |t.v.lines| && j < t.v.width
    ensures var r, u := Run(t, Sequence([number], 0x58)), ReadAll(t, [number]);
      && r == u.(v := u.v.(lines := r.v.lines)) && |r.v.lines| == |t.v.lines| && |r.v.lines[i]| == t.v.width
      && r.v.lines[i][j] ==
        if i == t.v.Scrollback() + t.v.y && t.v.x <= j < t.v.x + Max(number, 1)
          then Cell(SPACE, Look(t.pen.color), t.pen.style)
        else t.v.lines[i][j]
  {
    hide ViewOk, UtfOk, Run, Sequence, EscGotPars, CsiX, ReadAll;
    SequenceActs(t, [number], 0x58);
    var u := ReadAll(t, [number]);
    EraseLineActs(u);
    CharactersErased(u, number, i, j);
  }

  lemma CharactersErased(u: Term, number: nat, i: nat, j: nat)
    requires TermOk(u) && i < |u.v.lines| && j < u.v.width
    ensures var r := CsiX(u, number);
      && r == u.(v := u.v.(lines := r.v.lines)) && |r.v.lines| == |u.v.lines| && |r.v.lines[i]| == u.v.width
      && r.v.lines[i][j] ==
        if i == u.v.Scrollback() + u.v.y && u.v.x <= j < u.v.x + Max(number, 1)
          then Cell(SPACE, Look(u.pen.color), u.pen.style)
        else u.v.lines[i][j]
  {
    hide UtfOk;
  }

  // ---- Lists of parameters ----

  datatype Found = Nowhere | Found(p: nat)

  /** The last parameter that is one of these. */
  function LastOf(ps: seq<nat>, among: set<nat>): Found {
    if ps == [] then Nowhere
    else if ps[|ps| - 1] in among then Found(ps[|ps| - 1])
    else LastOf(ps[..|ps| - 1], among)
  }

  lemma {:induction false} LastOfIs(ps: seq<nat>, among: set<nat>, p: nat)
    ensures LastOf(ps, among) == Found(p) <==>
      exists i :: 0 <= i < |ps| && ps[i] == p && p in among && forall k :: i < k < |ps| ==> ps[k] !in among
    ensures LastOf(ps, among) == Nowhere <==> forall i :: 0 <= i < |ps| ==> ps[i] !in among
  {
    if ps != [] && ps[|ps| - 1] !in among {
      var front := ps[..|ps| - 1];
      LastOfIs(front, among, p);
      assert forall i :: 0 <= i < |front| ==> front[i] == ps[i];
      if LastOf(ps, among) == Found(p) {
        var i :| 0 <= i < |front| && front[i] == p && p in among && forall k :: i < k < |front| ==> front[k] !in among;
        assert ps[i] == p;
      }
    }
  }

  const UNDERLINES := {0, 4, 24, 38, 39}
  const REVERSES := {0, 7, 27}
  const BLINKS := {0, 5, 25}
  const INTENSITIES := {0, 1, 2, 21, 22, 38, 39}
  const FOREGROUNDS := {0, 30, 31, 32, 33, 34, 35, 36, 37, 38, 39}
  const BACKGROUNDS := {0, 40, 41, 42, 43, 44, 45, 46, 47, 49}
  const FONTS := {10, 11, 12}

  function Flag(f: Found, was: bool, on: set<nat>): bool { if f.Found? then f.p in on else was }

  function Colour(f: Found, was: nat, first: nat, default: nat): nat {
    if f.Nowhere? then was else if first <= f.p <= first + 7 then f.p - first else default
  }

  /** What a list of graphic renditions makes of the attributes: each attribute is decided by the last parameter
      that speaks of it. Number 38 sets the underline as well as the colour, and 22 takes dim and bright away. */
  function Rendered(a: Attr, ps: seq<nat>): Attr {
    Attr(Colour(LastOf(ps, FOREGROUNDS), a.fg, 30, 0), Colour(LastOf(ps, BACKGROUNDS), a.bg, 40, 15),
         Flag(LastOf(ps, UNDERLINES), a.underline, {4, 38}), Flag(LastOf(ps, REVERSES), a.reverse, {7}),
         Flag(LastOf(ps, INTENSITIES), a.dim, {2}), Flag(LastOf(ps, INTENSITIES), a.bright, {1}),
         Flag(LastOf(ps, BLINKS), a.blink, {5}))
  }

  /** And of the character tables: 10 selects the one shifted in, 11 and 12 the code page. */
  function FontSelected(g: Glyphs, ps: seq<nat>): Glyphs
    requires g.useG < |g.gmap|
  {
    match LastOf(ps, FONTS)
    case Nowhere => g
    case Found(p) =>
      var table := if p == 10 then g.gmap[g.useG] else Cp437;
      g.(translate := table, dispCtrl := p != 10, toggleMeta := p == 12)
  }

  lemma RenderedSnoc(a: Attr, ps: seq<nat>, p: nat)
    ensures Rendered(a, ps + [p]) == SgrAttr(Rendered(a, ps), p)
  {
    ColoursSnoc(a, ps, p);
    IntensitySnoc(a, ps, p);
    FlagsSnoc(a, ps, p);
    hide Rendered, SgrAttr;
  }

  lemma ColoursSnoc(a: Attr, ps: seq<nat>, p: nat)
    ensures var r, s := Rendered(a, ps + [p]), SgrAttr(Rendered(a, ps), p); r.fg == s.fg && r.bg == s.bg
  {
    hide LastOf, Flag;
    LastSnoc(ps, p, FOREGROUNDS);
    LastSnoc(ps, p, BACKGROUNDS);
    if 30 <= p <= 37 {
    } else if 40 <= p <= 47 {
    }
  }

  lemma IntensitySnoc(a: Attr, ps: seq<nat>, p: nat)
    ensures var r, s := Rendered(a, ps + [p]), SgrAttr(Rendered(a, ps), p); r.dim == s.dim && r.bright == s.bright
  {
    hide LastOf, Colour;
    LastSnoc(ps, p, INTENSITIES);
  }

  lemma FlagsSnoc(a: Attr, ps: seq<nat>, p: nat)
    ensures var r, s := Rendered(a, ps + [p]), SgrAttr(Rendered(a, ps), p);
      r.underline == s.underline && r.reverse == s.reverse && r.blink == s.blink
  {
    hide LastOf, Colour;
    LastSnoc(ps, p, UNDERLINES);
    LastSnoc(ps, p, REVERSES);
    LastSnoc(ps, p, BLINKS);
  }

  lemma LastSnoc(ps: seq<nat>, p: nat, among: set<nat>)
    ensures LastOf(ps + [p], among) == if p in among then Found(p) else LastOf(ps, among)
  {
    assert (ps + [p])[..|ps|] == ps;
  }

  ghost predicate Holds(t: Term, ps: seq<nat>) {
    t.p.npar == |ps| - 1 && forall i :: 0 <= i < |ps| ==> i in t.p.par && t.p.par[i] == ps[i]
  }

  lemma {:induction false} SgrsAre(t: Term, ps: seq<nat>, n: nat)
    requires TermOk(t) && Holds(t, ps) && n <= |ps|
    ensures Sgrs(t, n) == t.(g := FontSelected(t.g, ps[..n]), pen := t.pen.(attr := Rendered(t.pen.attr, ps[..n])))
  {
    hide ViewOk, UtfOk, Rendered, FontSelected, Sgr;
    if n == 0 {
      NothingSelected(t.pen.attr, t.g, ps[..0]);
    } else {
      SgrsAre(t, ps, n - 1);
      assert ps[..n] == ps[..n - 1] + [ps[n - 1]];
      SgrIs(t, Sgrs(t, n - 1), ps[..n - 1], ps[n - 1]);
    }
  }

  lemma NothingSelected(a: Attr, g: Glyphs, ps: seq<nat>)
    requires ps == [] && g.useG < |g.gmap|
    ensures Rendered(a, ps) == a && FontSelected(g, ps) == g
  {
  }

  lemma SgrIs(t: Term, u: Term, ps: seq<nat>, p: nat)
    requires TermOk(t) && TermOk(u)
    requires u == t.(g := FontSelected(t.g, ps), pen := t.pen.(attr := Rendered(t.pen.attr, ps)))
    ensures Sgr(u, p) == t.(g := FontSelected(t.g, ps + [p]), pen := t.pen.(attr := Rendered(t.pen.attr, ps + [p])))
  {
    hide ViewOk, UtfOk, Rendered, SgrAttr;
    RenderedSnoc(t.pen.attr, ps, p);
    LastSnoc(ps, p, FONTS);
    FontNumber(u.pen.attr, p);
    hide LastOf;
  }

  lemma FontNumber(a: Attr, p: nat)
    ensures p in FONTS ==> SgrAttr(a, p) == a
  {
  }

  /** "Select graphic rendition" with any list of parameters: the attributes, the colours and style that they stand
      for, and the character table; nothing else changes. */
  lemma GraphicRendition(t: Term, ps: seq<nat>)
    requires TermOk(t) && ps != []
    ensures var r, a := Run(t, Sequence(ps, 0x6D)), Rendered(t.pen.attr, ps);
      r == ReadAll(t, ps).(pen := Pen(a, ColorOf(a), StyleOf(a)), g := FontSelected(t.g, ps))
  {
    hide ViewOk, UtfOk, Run, Sequence, EscGotPars, ReadAll, Rendered, FontSelected, ColorOf, StyleOf;
    SequenceActs(t, ps, 0x6D);
    var u := ReadAll(t, ps);
    RenditionActs(u);
    assert ps[..|ps|] == ps;
    SgrsAre(u, ps, |ps|);
  }

  lemma RenditionActs(u: Term)
    requires TermOk(u) && !u.p.question
    ensures EscGotPars(u, 0x6D) == WithAttr(Sgrs(u, u.p.npar + 1), Sgrs(u, u.p.npar + 1).pen.attr)
  {
    hide ViewOk, UtfOk, TermOk, Sgrs, WithAttr, EscGotPars, CsiOther;
    OtherFinal(u, 0x6D);
    OtherActs(u);
  }

  lemma OtherFinal(u: Term, final: CodeUnit)
    requires TermOk(u) && !u.p.question && final in {0x68, 0x6C, 0x6D}
    ensures EscGotPars(u, final) == CsiOther(u, final)
  {
    hide ViewOk, UtfOk, TermOk, CsiMove, CsiEdit, CsiOther, SetModes;
  }

  lemma OtherActs(u: Term)
    requires TermOk(u)
    ensures CsiOther(u, 0x6D) == Csim(u)
  {
    hide ViewOk, UtfOk, TermOk, Csim, SetModes, ClearTab, SetMargins, SaveCursor, RestoreCursor;
  }

  // ---- Colours ----

  /** Plain attributes show the colours they name; reverse video exchanges them. */
  lemma ColoursShown(a: Attr)
    requires a.fg < 8 && a.bg < 16 && a.fg != a.bg && !a.dim && !a.bright && !a.blink
    requires a.reverse ==> !(a.fg == 7 && a.bg >= 8)
    ensures ColorOf(a) == if a.reverse then Ansi(a.bg, a.fg) else Ansi(a.fg, a.bg)
    ensures StyleOf(a) == Underline <==> a.underline
  {
  }

  /** Bright takes the foreground from the upper eight colours, dim makes it grey, blink exchanges the halves for
      the background; but no bright colour on the light grey, number 7. */
  lemma ShadesShown(a: Attr)
    requires a.fg < 8 && a.bg < 16 && a.bg != 7 && !a.reverse
    ensures a.bright && !a.dim && !a.blink && a.bg != a.fg + 8 ==> ColorOf(a) == Ansi(a.fg + 8, a.bg)
    ensures a.dim && !a.blink && a.bg != 8 ==> ColorOf(a) == Ansi(8, a.bg)
    ensures a.blink && !a.bright && !a.dim && a.bg != 15 && a.bg != a.fg + 8 ==>
      ColorOf(a) == Ansi(a.fg, if a.bg < 8 then a.bg + 8 else a.bg - 8)
  {
  }

  /** Text in the colour of its background gets the other half's shade of it, or grey. */
  lemma ClashAvoided(a: Attr)
    requires a.fg == a.bg < 8 && !a.dim && !a.bright && !a.blink
    ensures ColorOf(a) == if a.bg == 7 then Ansi(8, 7) else Ansi(a.bg + 8, a.bg)
  {
  }

  /** "ESC [ 7 m" on a new terminal: white on black instead of black on white. */
  lemma ReverseVideo(t: Term)
    requires TermOk(t) && t.pen == DEFAULT_PEN
    ensures Run(t, Sequence([7], 0x6D)).pen.color == Ansi(15, 0) && t.pen.color == Ansi(0, 15)
  {
    hide ViewOk, UtfOk, Run, Sequence, ColorOf, Rendered;
    GraphicRendition(t, [7]);
    var a := Rendered(t.pen.attr, [7]);
    ReversedDefault(a);
    ColoursShown(a);
  }

  lemma ReversedDefault(a: Attr)
    requires a == Rendered(DEFAULT_ATTR, [7])
    ensures a == DEFAULT_ATTR.(reverse := true)
  {
    OnlyOne(7, UNDERLINES);
    OnlyOne(7, FOREGROUNDS);
    OnlyOne(7, BACKGROUNDS);
    OnlyOne(7, REVERSES);
    OnlyOne(7, INTENSITIES);
    OnlyOne(7, BLINKS);
    hide LastOf;
  }

  lemma OnlyOne(p: nat, among: set<nat>)
    ensures LastOf([p], among) == if p in among then Found(p) else Nowhere
  {
    assert [p][..0] == [];
  }

  // ---- Modes ----

  predicate Among(ps: seq<nat>, among: set<nat>) { exists i :: 0 <= i < |ps| && ps[i] in among }

  /** A mode has the given state if its number is in the list, and otherwise stays. */
  function Switched(ps: seq<nat>, among: set<nat>, was: bool, state: bool): bool {
    if Among(ps, among) then state else was
  }

  // The modes and screen that a list of numbers leads to; behind a question mark the numbers mean other modes.
  predicate ModesSwitched(t: Term, r: Term, ps: seq<nat>, state: bool) {
    if t.p.question then
      && r.m.cursorKeys == Switched(ps, {1}, t.m.cursorKeys, state)
      && r.m.offset == Switched(ps, {6}, t.m.offset, state)
      && r.m.autoWrap == Switched(ps, {7}, t.m.autoWrap, state)
      && r.m.mouse == Switched(ps, {9, 1000}, t.m.mouse, state)
      && r.v.alternate == Switched(ps, {47, 1047, 1049}, t.v.alternate, state)
      && r.m.insert == t.m.insert && r.m.crLf == t.m.crLf && r.g.dispCtrl == t.g.dispCtrl
      && r.m.applKeys == t.m.applKeys
    else
      && r.m == t.m.(insert := Switched(ps, {4}, t.m.insert, state), crLf := Switched(ps, {20}, t.m.crLf, state))
      && r == t.(m := r.m, g := t.g.(dispCtrl := Switched(ps, {3}, t.g.dispCtrl, state)))
  }

  lemma AmongSnoc(ps: seq<nat>, p: nat, among: set<nat>)
    ensures Among(ps + [p], among) <==> Among(ps, among) || p in among
  {
    var all := ps + [p];
    if i :| 0 <= i < |all| && all[i] in among {
      assert i < |ps| ==> ps[i] in among;
    }
    if i :| 0 <= i < |ps| && ps[i] in among {
      assert all[i] in among;
    }
    assert all[|ps|] == p;
  }

  /** "Set mode" and "reset mode" with any list of numbers, in any order. */
  lemma {:induction false} ModesAre(t: Term, ps: seq<nat>, n: nat, state: bool)
    requires TermOk(t) && Holds(t, ps) && n <= |ps|
    ensures ModesSwitched(t, SetModes(t, n, state), ps[..n], state) && SetModes(t, n, state).p == t.p
  {
    hide ViewOk, UtfOk, ModesSwitched, Mode;
    if n == 0 {
      NoneSwitched(t, ps[..0], state);
    } else {
      ModesAre(t, ps, n - 1, state);
      assert ps[..n] == ps[..n - 1] + [ps[n - 1]];
      ModeSwitched(t, SetModes(t, n - 1, state), ps[..n - 1], ps[n - 1], state);
    }
  }

  lemma NoneSwitched(t: Term, ps: seq<nat>, state: bool)
    requires ps == []
    ensures ModesSwitched(t, t, ps, state)
  {
  }

  lemma ModeSwitched(t: Term, u: Term, ps: seq<nat>, p: nat, state: bool)
    requires TermOk(u) && ModesSwitched(t, u, ps, state) && u.p == t.p
    ensures ModesSwitched(t, Mode(u, p, state), ps + [p], state) && Mode(u, p, state).p == t.p
  {
    hide ViewOk, UtfOk, ModesSwitched, Mode;
    if t.p.question {
      PrivateSwitched(t, u, ps, p, state);
    } else {
      PublicSwitched(t, u, ps, p, state);
    }
  }

  lemma PublicSwitched(t: Term, u: Term, ps: seq<nat>, p: nat, state: bool)
    requires TermOk(u) && ModesSwitched(t, u, ps, state) && u.p == t.p && !t.p.question
    ensures ModesSwitched(t, Mode(u, p, state), ps + [p], state) && Mode(u, p, state).p == t.p
  {
    hide ViewOk, UtfOk, TermOk, Among, Mode;
    AmongSnoc(ps, p, {3});
    AmongSnoc(ps, p, {4});
    AmongSnoc(ps, p, {20});
    PublicMode(u, p, state);
  }

  lemma PublicMode(u: Term, p: nat, state: bool)
    requires TermOk(u) && !u.p.question
    ensures var r := Mode(u, p, state);
      && r == u.(m := r.m, g := u.g.(dispCtrl := if p == 3 then state else u.g.dispCtrl))
      && r.m == u.m.(insert := if p == 4 then state else u.m.insert, crLf := if p == 20 then state else u.m.crLf)
  {
    hide ViewOk, UtfOk, TermOk, EnableAlternateScreen;
  }

  lemma PrivateSwitched(t: Term, u: Term, ps: seq<nat>, p: nat, state: bool)
    requires TermOk(u) && ModesSwitched(t, u, ps, state) && u.p == t.p && t.p.question
    ensures ModesSwitched(t, Mode(u, p, state), ps + [p], state) && Mode(u, p, state).p == t.p
  {
    hide ViewOk, UtfOk, TermOk, Among, Mode;
    AmongSnoc(ps, p, {1});
    AmongSnoc(ps, p, {6});
    AmongSnoc(ps, p, {7});
    AmongSnoc(ps, p, {9, 1000});
    AmongSnoc(ps, p, {47, 1047, 1049});
    PrivateMode(u, p, state);
  }

  lemma PrivateMode(u: Term, p: nat, state: bool)
    requires TermOk(u) && u.p.question
    ensures var r := Mode(u, p, state);
      && r.p == u.p && r.m.insert == u.m.insert && r.m.crLf == u.m.crLf && r.m.applKeys == u.m.applKeys
      && r.g.dispCtrl == u.g.dispCtrl
      && r.m.cursorKeys == (if p == 1 then state else u.m.cursorKeys)
        && r.m.offset == (if p == 6 then state else u.m.offset)
      && r.m.autoWrap == (if p == 7 then state else u.m.autoWrap)
        && r.m.mouse == (if p == 9 || p == 1000 then state else u.m.mouse)
      && r.v.alternate == if p == 47 || p == 1047 || p == 1049 then state else u.v.alternate
  {
    hide ViewOk, UtfOk, TermOk, EnableAlternateScreen;
    if p == 47 || p == 1047 || p == 1049 {
      AlternateKeepsModes(u, state);
    } else if p == 9 || p == 1000 {
    } else if p == 1 {
    } else if p == 6 {
    }
  }

  /** Written by the host: "ESC [ numbers h" and "ESC [ numbers l". */
  lemma SwitchingModes(t: Term, ps: seq<nat>, state: bool)
    requires TermOk(t) && ps != []
    ensures ModesSwitched(ReadAll(t, ps), Run(t, Sequence(ps, if state then 0x68 else 0x6C)), ps, state)
  {
    hide ViewOk, UtfOk, Run, Sequence, EscGotPars, ReadAll, ModesSwitched, SetModes;
    SequenceActs(t, ps, if state then 0x68 else 0x6C);
    var u := ReadAll(t, ps);
    ModesActs(u, state);
    assert ps[..|ps|] == ps;
    ModesAre(u, ps, |ps|, state);
  }

  lemma ModesActs(u: Term, state: bool)
    requires TermOk(u) && !u.p.question
    ensures EscGotPars(u, if state then 0x68 else 0x6C) == SetModes(u, u.p.npar + 1, state)
  {
    hide ViewOk, UtfOk, TermOk, SetModes, EscGotPars, CsiOther;
    OtherFinal(u, if state then 0x68 else 0x6C);
    if state {
      OtherSets(u);
    } else {
      OtherResets(u);
    }
  }

  lemma OtherSets(u: Term)
    requires TermOk(u)
    ensures CsiOther(u, 0x68) == SetModes(u, u.p.npar + 1, true)
  {
    hide ViewOk, UtfOk, TermOk, Csim, SetModes, ClearTab, SetMargins, SaveCursor, RestoreCursor;
  }

  lemma OtherResets(u: Term)
    requires TermOk(u)
    ensures CsiOther(u, 0x6C) == SetModes(u, u.p.npar + 1, false)
  {
    hide ViewOk, UtfOk, TermOk, Csim, SetModes, ClearTab, SetMargins, SaveCursor, RestoreCursor;
  }

  lemma AlternateKeepsModes(t: Term, state: bool)
    requires TermOk(t)
    ensures var r := EnableAlternateScreen(t, state);
      r.m == t.m && r.p == t.p && r.v.alternate == state && r.g.dispCtrl == t.g.dispCtrl
  {
    hide UtfOk, ViewOk, Clear, ColorOf;
    ClearKeeps(GotoXY(SaveCursor(t).(v := SwitchView(SaveCursor(t).v)), 0, 0).v);
  }

  lemma ClearKeeps(v: View)
    requires ViewOk(v)
    ensures Clear(v, 0, 0, v.width, v.height, Unset, Plain).alternate == v.alternate
  {
  }

  // ---- Private modes ----

  /** A digit or a semicolon. */
  predicate IsParameter(ch: CodeUnit) { 0x30 <= ch <= 0x39 || ch == 0x3B }

  lemma {:induction false} WrittenIsParameters(ps: seq<nat>)
    requires ps != []
    ensures forall i :: 0 <= i < |Written(ps)| ==> IsParameter(Written(ps)[i])
  {
    hide Decimal;
    if |ps| > 1 {
      WrittenIsParameters(ps[..|ps| - 1]);
    }
  }

  lemma ParameterFeed(t: Term, ch: CodeUnit)
    requires TermOk(t) && t.esc == EsGetPars && IsParameter(ch)
    ensures Feed(WithQuestion(t, true), ch) == WithQuestion(Feed(t, ch), true) && Feed(t, ch).esc == EsGetPars
  {
    hide ViewOk, UtfOk, Feed;
    ParserStep(t, ch);
    ParserStep(WithQuestion(t, true), ch);
  }

  /** The question mark has no part in how parameters are read. */
  lemma {:induction false} QuestionRead(t: Term, s: seq<CodeUnit>)
    requires TermOk(t) && t.esc == EsGetPars && forall i :: 0 <= i < |s| ==> IsParameter(s[i])
    ensures Run(WithQuestion(t, true), s) == WithQuestion(Run(t, s), true) && Run(t, s).esc == EsGetPars
  {
    hide ViewOk, UtfOk, TermOk, Feed, WithQuestion, IsParameter;
    if s == [] {
      QuestionKeeps(t);
    } else {
      QuestionRead(t, s[..|s| - 1]);
      ParameterFeed(Run(t, s[..|s| - 1]), s[|s| - 1]);
    }
  }

  lemma QuestionKeeps(t: Term)
    requires TermOk(t)
    ensures var u := WithQuestion(t, true); u.esc == t.esc && u.u == t.u && u.p.question
  {
    hide ViewOk, UtfOk;
  }

  function PrivateSequence(ps: seq<nat>, final: CodeUnit): seq<CodeUnit>
    requires ps != []
  {
    [0x1B, 0x5B] + [0x3F] + Written(ps) + [final]
  }

  lemma QuestionFeed(t: Term)
    requires TermOk(t) && t.u == Idle(t).u
    ensures Run(t.(esc := EsSquare), [0x3F]) == WithQuestion(Opened(t), true)
  {
    hide ViewOk, UtfOk, Feed, Zeros;
    RunOne(t.(esc := EsSquare), 0x3F);
    AsciiFeed(t.(esc := EsSquare), 0x3F);
  }

  /** "ESC [ ? numbers h" and "ESC [ ? numbers l", whatever the parser was in the middle of. */
  lemma SwitchingPrivateModes(t: Term, ps: seq<nat>, state: bool)
    requires TermOk(t) && ps != []
    ensures ModesSwitched(WithQuestion(ReadAll(t, ps), true),
      Run(t, PrivateSequence(ps, if state then 0x68 else 0x6C)), ps, state)
  {
    hide ViewOk, UtfOk, TermOk, Run, Written, ReadAll, ModesSwitched, SetModes, Idle, Reading, Opened, WithQuestion,
      EscGotPars, Feed;
    var final := if state then 0x68 else 0x6C;
    var before := PrivateBefore(t, ps);
    RunSnoc(t, before, final);
    PrivateFinal(t, ps, final);
    var u := WithQuestion(ReadAll(t, ps), true);
    PrivateHolds(t, ps);
    assert ps[..|ps|] == ps;
    ModesAre(u, ps, |ps|, state);
    PrivateActs(u, ps, state);
  }

  /** Up to the final character. */
  lemma PrivateBefore(t: Term, ps: seq<nat>) returns (before: seq<CodeUnit>)
    requires TermOk(t) && ps != []
    ensures Run(t, before) == WithQuestion(Reading(t, ps), true)
    ensures forall final :: PrivateSequence(ps, final) == before + [final]
  {
    hide ViewOk, UtfOk, TermOk, Run, Written, Idle, Reading, Opened, WithQuestion, Feed;
    before := [0x1B, 0x5B] + [0x3F] + Written(ps);
    var w := Idle(t);
    IdleTwice(t);
    EscapeBracket(t);
    ChunkIndependence(t, [0x1B, 0x5B], [0x3F]);
    QuestionFeed(w);
    OpenedIdle(t);
    ChunkIndependence(t, [0x1B, 0x5B] + [0x3F], Written(ps));
    WrittenIsParameters(ps);
    QuestionRead(Opened(w), Written(ps));
    ParametersReadFrom(w, ps);
    ReadingOfIdle(t, ps);
  }

  lemma OpenedIdle(t: Term)
    requires TermOk(t)
    ensures Opened(Idle(t)).esc == EsGetPars && Idle(t) == t.(u := Idle(t).u)
  {
    hide ViewOk, UtfOk, Zeros;
  }

  lemma ReadingOfIdle(t: Term, ps: seq<nat>)
    requires TermOk(t) && ps != []
    ensures Reading(Idle(t), ps) == Reading(t, ps)
  {
    hide ViewOk, UtfOk, Given;
  }

  lemma PrivateFinal(t: Term, ps: seq<nat>, final: CodeUnit)
    requires TermOk(t) && ps != [] && (final == 0x68 || final == 0x6C)
    ensures Feed(WithQuestion(Reading(t, ps), true), final) == EscGotPars(WithQuestion(ReadAll(t, ps), true), final)
  {
    hide ViewOk, UtfOk, EscGotPars, Feed, Given;
    ReadingFields(t, ps);
    AsciiFeed(WithQuestion(Reading(t, ps), true), final);
  }

  lemma PrivateHolds(t: Term, ps: seq<nat>)
    requires TermOk(t) && ps != []
    ensures Holds(WithQuestion(ReadAll(t, ps), true), ps) && WithQuestion(ReadAll(t, ps), true).p.question
  {
    hide ViewOk, UtfOk, Given;
    forall i | 0 <= i < |ps| ensures i in Given(ps) && Given(ps)[i] == ps[i] {
      GivenAt(ps, i);
    }
  }

  lemma PrivateActs(u: Term, ps: seq<nat>, state: bool)
    requires TermOk(u) && u.p.question && ModesSwitched(u, SetModes(u, u.p.npar + 1, state), ps, state)
    ensures ModesSwitched(u, EscGotPars(u, if state then 0x68 else 0x6C), ps, state)
  {
    hide ViewOk, UtfOk, TermOk, SetModes, Switched;
  }
}
