// "Repeat" (ESC [ n b): the terminal keeps the last character as it was drawn and takes it as input again, n
// times. When that draws the character again, and what it does when it does not.
module Repeated {
  import opened Cells
  import opened ScreenSpec
  import opened TerminalSpec
  import opened Batching
  import opened EditingTheorems
  import opened TerminalInput

  function RepSequence(n: nat): seq<CodeUnit> { [0x1B, 0x5B] + Written([n]) + [0x62] }

  /** The terminal behind such a sequence, before the repetitions. */
  function Behind(t: Term, n: nat): (r: Term)
    requires TermOk(t)
    ensures TermOk(r)
  {
    hide ViewOk, UtfOk;
    Reading(t, [n]).(esc := EsNormal)
  }

  function Times(t: Term, n: nat): (k: nat)
    requires TermOk(t)
    ensures k > 0
  {
    TimesPositive(t);
    Min(if n == 0 then 1 else n, t.v.width * t.v.height)
  }

  lemma TimesPositive(t: Term)
    requires TermOk(t)
    ensures t.v.width * t.v.height > 0
  {
  }

  lemma RepeatIsInput(t: Term, n: nat)
    requires TermOk(t)
    ensures Run(t, RepSequence(n)) == Steps(Behind(t, n), Copies(t.lastChar, Times(t, n)))
    ensures Inert(Behind(t, n), t.lastChar)
  {
    hide ViewOk, UtfOk, Feed, Run, Steps, Copies, Idle;
    ParametersRead(t, [n]);
    var s := RepSequence(n);
    assert s[..|s| - 1] == [0x1B, 0x5B] + Written([n]);
    RunLast(t, s);
    FinalB(t, n);
    IdleCount(t);
  }

  lemma IdleCount(t: Term)
    requires TermOk(t)
    ensures Idle(t).u.enabled ==> Idle(t).u.count == 0
    ensures Idle(t) == t.(u := Idle(t).u) && Idle(t).u.enabled == t.u.enabled
  {
  }

  lemma FinalB(t: Term, n: nat)
    requires TermOk(t) && Par(Reading(t, [n]), 0) == n
    ensures Feed(Reading(t, [n]), 0x62) == Steps(Behind(t, n), Copies(t.lastChar, Times(t, n)))
  {
    hide ViewOk, UtfOk, Steps, CsiMove, CsiEdit, Csim, SetModes, SaveCursor, RestoreCursor, ClearTab, SetMargins,
      Render, IsNormal, Copies, Zeros;
    var r := Reading(t, [n]);
    assert DecodeState(r, 0x62) == r;
    assert Decode(r, 0x62) == Char(0x62);
    assert Given([n]) == Given([n][..0])[0 := n];
    assert RepeatCount(r) == Times(t, n);
  }

  // ---- One repetition ----

  /** Taken as input, the character draws itself: it is not sent through the decoder, it is no control character,
      and the table leads it to itself. */
  predicate DrawsItself(t: Term, c: CodeUnit) {
    !(t.u.enabled && c > 0x7F) && IsNormal(t, c) && Render(t.env.fonts, t.g.translate, t, c) == Draw(c)
  }

  lemma StepOutside(t: Term, c: CodeUnit)
    requires TermOk(t) && t.esc == EsNormal && !(t.u.enabled && c > 0x7F) && t.u == Idle(t).u
    ensures Step(t, c) == StepChar(t, c)
  {
    hide ViewOk, UtfOk, StepChar, ShiftIn, Leading;
  }

  lemma NoCopies(c: CodeUnit)
    ensures Copies(c, 0) == []
  {
  }

  lemma CopiesSnoc(c: CodeUnit, n: nat)
    requires n > 0
    ensures Copies(c, n) != [] && Copies(c, n)[..|Copies(c, n)| - 1] == Copies(c, n - 1)
      && Copies(c, n)[|Copies(c, n)| - 1] == c
  {
  }

  lemma PrintKeeps(t: Term, u: CodeUnit)
    requires TermOk(t)
    ensures Print(t, u) == t.(v := Print(t, u).v, needWrap := Print(t, u).needWrap, lastChar := u)
  {
    hide ViewOk, UtfOk, Put, ScrollView;
  }

  lemma {:induction false} PrintsKeep(t: Term, c: CodeUnit, n: nat)
    requires TermOk(t)
    ensures Prints(t, Copies(c, n)) == t.(v := Prints(t, Copies(c, n)).v,
      needWrap := Prints(t, Copies(c, n)).needWrap, lastChar := Prints(t, Copies(c, n)).lastChar)
  {
    hide ViewOk, UtfOk, Print, Copies;
    if n == 0 {
      NoCopies(c);
    } else {
      CopiesSnoc(c, n);
      PrintsKeep(t, c, n - 1);
      PrintKeeps(Prints(t, Copies(c, n - 1)), c);
    }
  }

  // ---- All repetitions, by what the character is ----

  /** A character that is not ASCII goes through the UTF-8 decoder once more and shows nothing. */
  lemma {:induction false} DecodedAgain(t: Term, c: CodeUnit, n: nat)
    requires TermOk(t) && Inert(t, c) && t.u.enabled && c > 0x7F
    ensures var r := Steps(t, Copies(c, n)); r == t.(u := r.u) && r.u.enabled
  {
    hide ViewOk, UtfOk, Step, Copies, Inert;
    if n == 0 {
      NoCopies(c);
    } else {
      CopiesSnoc(c, n);
      DecodedAgain(t, c, n - 1);
      InertRun(t, c, n - 1);
      DecodedOnce(Steps(t, Copies(c, n - 1)), c);
    }
  }

  lemma DecodedOnce(t: Term, c: CodeUnit)
    requires TermOk(t) && Inert(t, c) && t.u.enabled && c > 0x7F
    ensures Step(t, c) == t.(u := Step(t, c).u) && Step(t, c).u.enabled
  {
    hide ViewOk, UtfOk, Leading, ShiftIn, StepChar;
    assert Decode(t, c) == Pending;
  }

  /** A character that the table leads to d is drawn as d, each time. */
  lemma {:induction false} LookedUpAgain(t: Term, c: CodeUnit, d: CodeUnit, n: nat)
    requires TermOk(t) && t.esc == EsNormal && t.u == Idle(t).u && !(t.u.enabled && c > 0x7F)
    requires IsNormal(t, c) && Render(t.env.fonts, t.g.translate, t, c) == Draw(d)
    ensures Steps(t, Copies(c, n)) == Prints(t, Copies(d, n))
  {
    hide ViewOk, UtfOk, Print, Step, Copies, IsNormal, Render;
    if n == 0 {
      NoCopies(c);
      NoCopies(d);
    } else {
      CopiesSnoc(c, n);
      CopiesSnoc(d, n);
      LookedUpAgain(t, c, d, n - 1);
      var u := Prints(t, Copies(d, n - 1));
      PrintsKeep(t, d, n - 1);
      SameRendering(t, u, c);
      StepOutside(u, c);
    }
  }

  lemma SameRendering(t: Term, u: Term, c: CodeUnit)
    requires TermOk(t) && TermOk(u) && u.g == t.g && u.u == t.u && u.env == t.env
    ensures IsNormal(u, c) == IsNormal(t, c) && Idle(u).u == Idle(t).u
    ensures Render(u.env.fonts, u.g.translate, u, c) == Render(t.env.fonts, t.g.translate, t, c)
  {
    hide ViewOk, UtfOk;
  }

  /** A character that the table leads to one without a shape is not shown. */
  lemma {:induction false} SkippedAgain(t: Term, c: CodeUnit, n: nat)
    requires TermOk(t) && t.esc == EsNormal && t.u == Idle(t).u && !(t.u.enabled && c > 0x7F)
    requires IsNormal(t, c) && Render(t.env.fonts, t.g.translate, t, c) == Skip
    ensures Steps(t, Copies(c, n)) == t
  {
    hide ViewOk, UtfOk, Step, Copies, IsNormal, Render;
    if n == 0 {
      NoCopies(c);
    } else {
      CopiesSnoc(c, n);
      SkippedAgain(t, c, n - 1);
      StepOutside(t, c);
    }
  }

  // ---- What comes of "repeat" ----

  /** UTF-8 and a character that is not ASCII: nothing is shown. */
  lemma RepeatDecoded(t: Term, n: nat)
    requires TermOk(t) && t.u.enabled && t.lastChar > 0x7F
    ensures Run(t, RepSequence(n)).v == t.v
  {
    hide ViewOk, UtfOk, Steps, Run, Copies, RepSequence, Inert;
    RepeatIsInput(t, n);
    BehindKeeps(t, n);
    DecodedAgain(Behind(t, n), t.lastChar, Times(t, n));
  }

  function Controlled(u: Term, c: CodeUnit, k: nat): (r: Term)
    requires TermOk(u)
  {
    hide ViewOk, UtfOk, Control;
    Steps(Control(u, c), Copies(c, k))
  }

  /** A character that is a control character when it comes as input acts as one. */
  lemma RepeatControls(t: Term, n: nat)
    requires TermOk(t) && !(t.u.enabled && t.lastChar > 0x7F) && !IsNormal(t, t.lastChar)
    ensures Run(t, RepSequence(n)) == Controlled(Behind(t, n), t.lastChar, Times(t, n) - 1)
  {
    hide ViewOk, UtfOk, Steps, Run, Copies, RepSequence, Inert, IsNormal, Control;
    var u := Behind(t, n);
    RepeatIsInput(t, n);
    BehindKeeps(t, n);
    SameCharacterHandling(t, u, t.lastChar);
    StepOutside(u, t.lastChar);
    FirstCopy(u, t.lastChar, Times(t, n));
  }

  lemma RepeatSkips(t: Term, n: nat)
    requires TermOk(t) && !(t.u.enabled && t.lastChar > 0x7F) && IsNormal(t, t.lastChar)
    requires Render(t.env.fonts, t.g.translate, t, t.lastChar) == Skip
    ensures Run(t, RepSequence(n)) == Behind(t, n)
  {
    hide ViewOk, UtfOk, Steps, Run, Copies, RepSequence, Inert, IsNormal, Render;
    var u := Behind(t, n);
    RepeatIsInput(t, n);
    BehindKeeps(t, n);
    SameCharacterHandling(t, u, t.lastChar);
    SkippedAgain(u, t.lastChar, Times(t, n));
  }

  /** Any other character is looked up in the table once more, and what is found there is drawn. */
  lemma RepeatDraws(t: Term, n: nat, d: CodeUnit)
    requires TermOk(t) && !(t.u.enabled && t.lastChar > 0x7F) && IsNormal(t, t.lastChar)
    requires Render(t.env.fonts, t.g.translate, t, t.lastChar) == Draw(d)
    ensures Run(t, RepSequence(n)) == Prints(Behind(t, n), Copies(d, Times(t, n)))
  {
    hide ViewOk, UtfOk, Steps, Run, Copies, RepSequence, Inert, IsNormal, Render, Prints;
    var u := Behind(t, n);
    RepeatIsInput(t, n);
    BehindKeeps(t, n);
    SameCharacterHandling(t, u, t.lastChar);
    LookedUpAgain(u, t.lastChar, d, Times(t, n));
  }

  lemma BehindKeeps(t: Term, n: nat)
    requires TermOk(t)
    ensures var u := Behind(t, n);
      u == t.(esc := EsNormal, p := u.p, u := u.u) && u.u == Idle(u).u && u.u.enabled == t.u.enabled
  {
    hide ViewOk, UtfOk;
  }

  lemma SameCharacterHandling(t: Term, u: Term, c: CodeUnit)
    requires u.g == t.g && u.u.enabled == t.u.enabled && u.env == t.env
    ensures IsNormal(u, c) == IsNormal(t, c) && DrawsItself(u, c) == DrawsItself(t, c)
    ensures Render(u.env.fonts, u.g.translate, u, c) == Render(t.env.fonts, t.g.translate, t, c)
  {
  }

  lemma {:induction false} FirstCopy(t: Term, c: CodeUnit, k: nat)
    requires TermOk(t) && k > 0
    ensures Steps(t, Copies(c, k)) == Steps(Step(t, c), Copies(c, k - 1))
  {
    hide ViewOk, UtfOk, Step, Copies;
    CopiesSnoc(c, k);
    if k == 1 {
      NoCopies(c);
    } else {
      CopiesSnoc(c, k - 1);
      FirstCopy(t, c, k - 1);
    }
  }

  // ---- When it repeats ----

  /** n repetitions are drawn: of the last character, as many as fit on the screen at most, no number counting as 1. */
  ghost predicate Repeats(t: Term, n: nat)
    requires TermOk(t)
  {
    Run(t, RepSequence(n)) == Prints(Behind(t, n), Copies(t.lastChar, Times(t, n)))
  }

  // The same character tables and the same last character, whatever is on the screen.
  predicate SameCharacters(t: Term, w: Term) {
    w.g == t.g && w.u.enabled == t.u.enabled && w.env == t.env && w.lastChar == t.lastChar
  }

  /** "Repeat" draws the last character again, however often and whatever is on the screen, if and only if this
      character, taken as input, draws itself. */
  lemma RepeatIff(t: Term)
    requires TermOk(t)
    ensures (forall w: Term, n: nat | TermOk(w) && SameCharacters(t, w) :: Repeats(w, n))
      <==> DrawsItself(t, t.lastChar)
  {
    hide ViewOk, UtfOk, Repeats, DrawsItself;
    if DrawsItself(t, t.lastChar) {
      forall w: Term, n: nat | TermOk(w) && SameCharacters(t, w) ensures Repeats(w, n) {
        SameCharacterHandling(t, w, t.lastChar);
        DrawnAgain(w, n);
      }
    } else {
      var w := Sheet(t);
      SameCharacterHandling(t, w, t.lastChar);
      NotDrawnOnSheet(t);
      assert !Repeats(w, 1);
    }
  }

  lemma DrawnAgain(t: Term, n: nat)
    requires TermOk(t) && DrawsItself(t, t.lastChar)
    ensures Repeats(t, n)
  {
    hide ViewOk, UtfOk, IsNormal, Render, Run, RepSequence, Prints;
    RepeatDraws(t, n, t.lastChar);
  }

  /** An empty screen of three lines and two columns, the cursor in its middle line. */
  function Sheet(t: Term): (w: Term)
    requires TermOk(t)
    ensures TermOk(w) && SameCharacters(t, w)
  {
    var b := Initial(2, 3, t.env.fonts, false);
    b.(v := b.v.(y := 1), g := t.g, u := t.u, env := t.env, lastChar := t.lastChar)
  }

  lemma NotDrawnOnSheet(t: Term)
    requires TermOk(t) && !DrawsItself(t, t.lastChar)
    ensures !Repeats(Sheet(t), 1)
  {
    hide ViewOk, UtfOk, IsNormal, Render, Run, RepSequence, Steps, Control, Print, Prints;
    var w, c := Sheet(t), t.lastChar;
    var u := Behind(w, 1);
    BehindKeeps(w, 1);
    SameCharacterHandling(t, w, c);
    OneCopy(c);
    PrintsOne(u, c);
    PrintOnSheet(u, c);
    if t.u.enabled && c > 0x7F {
      RepeatDecoded(w, 1);
    } else if !IsNormal(w, c) {
      RepeatControls(w, 1);
      SameCharacterHandling(w, u, c);
      ControlOnSheet(u, c);
      StepsNothing(Control(u, c), c);
    } else {
      match Render(w.env.fonts, w.g.translate, w, c)
      case Skip => RepeatSkips(w, 1);
      case Draw(d) =>
        RepeatDraws(w, 1, d);
        OneCopy(d);
        PrintsOne(u, d);
        PrintOnSheet(u, d);
    }
  }

  lemma StepsNothing(t: Term, c: CodeUnit)
    requires TermOk(t)
    ensures Steps(t, Copies(c, 0)) == t
  {
  }

  lemma PrintsOne(t: Term, c: CodeUnit)
    requires TermOk(t)
    ensures Prints(t, [c]) == Print(t, c)
  {
    hide ViewOk, UtfOk, Print;
    assert [c][..0] == [];
  }

  // The empty screen, whatever the parser read before.
  predicate OnSheet(u: Term) {
    && u.v == View(2, 3, BlankLines(3, 2), BlankLines(3, 2), false, 0, 1) && u.top == 0 && u.bottom == 3
    && u.m == Modes(true, false, false, false, false, false, false) && !u.needWrap && u.esc == EsNormal
  }

  lemma PrintOnSheet(u: Term, c: CodeUnit)
    requires TermOk(u) && OnSheet(u)
    ensures var r := Print(u, c); r.v.x == 1 && r.lastChar == c
    ensures c !in {SPACE, NBSP} ==> Print(u, c).v.lines != u.v.lines
  {
    hide UtfOk;
    var r := Print(u, c);
    assert r.v.lines[1][0] == Glyph(c, u.pen.color, u.pen.style);
    assert u.v.lines[1][0] == BLANK;
  }

  lemma ControlOnSheet(u: Term, c: CodeUnit)
    requires TermOk(u) && OnSheet(u) && !IsNormal(u, c)
    ensures Control(u, c).v.lines == u.v.lines && c !in {SPACE, NBSP}
  {
    hide UtfOk, ViewOk, ScrollView, TabsRight;
    assert LineCount(u, 1) == 1 && ReverseFeeds(u, 0) == u;
    assert ReverseFeeds(u, 1) == ReverseFeed(u);
  }

  // ---- Inputs for which it fails ----

  /** UTF-8: of a character that is not drawn as ASCII, no repetition is shown. */
  lemma AccentNotRepeated(t: Term, cp: nat, u: CodeUnit, n: nat)
    requires TermOk(t) && t.u.enabled && t.esc == EsNormal && 0x80 <= cp < 0x8000_0000 && u > 0x7F
    requires Render(t.env.fonts, t.g.translate, t, if cp > 0xFFFF then 0xFFFD else cp) == Draw(u)
    ensures Run(t, Utf8(cp) + RepSequence(n)).v == Print(t.(u := Utf(true, 0, cp)), u).v
  {
    hide ViewOk, Utf8, Print, Run, RepSequence, Render;
    Utf8Draws(t, cp, u);
    var p := Print(t.(u := Utf(true, 0, cp)), u);
    AsPrinted(t.(u := Utf(true, 0, cp)), u, p);
    ThenRepeat(t, Utf8(cp), n, p);
    RepeatDecoded(p, n);
  }

  lemma AsPrinted(t: Term, u: CodeUnit, p: Term)
    requires TermOk(t) && p == Print(t, u)
    ensures p.lastChar == u && p.u == t.u && p.g == t.g && p.env == t.env
  {
    hide ViewOk, UtfOk, Print;
    PrintKeeps(t, u);
  }

  lemma ThenRepeat(t: Term, s: seq<CodeUnit>, n: nat, p: Term)
    requires TermOk(t) && Run(t, s) == p
    ensures TermOk(p) && Run(t, s + RepSequence(n)) == Run(p, RepSequence(n))
  {
    hide ViewOk, UtfOk, Run, RepSequence;
    ChunkIndependence(t, s, RepSequence(n));
  }

  /** UTF-8 and the private character F00A: it is drawn with glyph 10 of the font, and repeated as line feeds. */
  lemma GlyphRepeatedAsLineFeed(t: Term, n: nat)
    requires TermOk(t) && t.u.enabled && t.esc == EsNormal && !t.m.crLf
    ensures var p := Print(t.(u := Utf(true, 0, 0xF00A)), 0x0A);
      && Run(t, Utf8(0xF00A)) == p
      && Run(t, Utf8(0xF00A) + RepSequence(n)) == LineFeeds(Behind(p, n), Times(p, n))
  {
    hide ViewOk, Utf8, Print, Run, RepSequence, LineFeeds, Steps;
    Utf8Draws(t, 0xF00A, 0x0A);
    var p := Print(t.(u := Utf(true, 0, 0xF00A)), 0x0A);
    PrintKeeps(t.(u := Utf(true, 0, 0xF00A)), 0x0A);
    ThenRepeat(t, Utf8(0xF00A), n, p);
    RepeatIsInput(p, n);
    BehindKeeps(p, n);
    LineFeedSteps(Behind(p, n), Times(p, n));
  }

  lemma {:induction false} LineFeedSteps(t: Term, n: nat)
    requires TermOk(t) && t.esc == EsNormal && t.u == Idle(t).u && !t.m.crLf
    ensures Steps(t, Copies(0x0A, n)) == LineFeeds(t, n)
    ensures var r := LineFeeds(t, n); r == t.(v := r.v, needWrap := r.needWrap)
  {
    hide ViewOk, UtfOk, Step, Copies, ScrollView;
    if n == 0 {
      NoCopies(0x0A);
    } else {
      CopiesSnoc(0x0A, n);
      LineFeedSteps(t, n - 1);
      LineFeedStep(LineFeeds(t, n - 1));
    }
  }

  lemma LineFeedStep(t: Term)
    requires TermOk(t) && t.esc == EsNormal && t.u == Idle(t).u && !t.m.crLf
    ensures Step(t, 0x0A) == LineFeed(t)
    ensures LineFeed(t) == t.(v := LineFeed(t).v, needWrap := LineFeed(t).needWrap)
  {
    hide ViewOk, UtfOk, ScrollView;
    StepOutside(t, 0x0A);
  }

  /** Code page 437 without UTF-8, for its entries at AE and AB: byte AE draws AB, and repeating it draws BD. */
  lemma LookedUpTwice(t: Term, n: nat)
    requires TermOk(t) && !t.u.enabled && t.esc == EsNormal && t.g.translate == Cp437 && !t.g.toggleMeta
    requires t.env.fonts.cp437[0xAE] == 0xAB && t.env.fonts.cp437[0xAB] == 0xBD
    ensures Run(t, [0xAE]) == Print(t, 0xAB)
    ensures var u := Print(t, 0xAB); Run(t, [0xAE] + RepSequence(n)) == Prints(Behind(u, n), Copies(0xBD, Times(u, n)))
  {
    hide ViewOk, UtfOk, Print, Run, RepSequence, Prints, Step, StepChar, Render, IsNormal;
    var p := Print(t, 0xAB);
    CodePageStep(t);
    AsPrinted(t, 0xAB, p);
    ThenRepeat(t, [0xAE], n, p);
    CodePageLookup(p);
    RepeatDraws(p, n, 0xBD);
  }

  lemma CodePageStep(t: Term)
    requires TermOk(t) && !t.u.enabled && t.esc == EsNormal && t.g.translate == Cp437 && !t.g.toggleMeta
      && t.env.fonts.cp437[0xAE] == 0xAB
    ensures Run(t, [0xAE]) == Print(t, 0xAB)
  {
    hide ViewOk, UtfOk, Print, Run;
    RunOne(t, 0xAE);
    StepOutside(t, 0xAE);
  }

  lemma CodePageLookup(t: Term)
    requires t.g.translate == Cp437 && !t.g.toggleMeta && t.env.fonts.cp437[0xAB] == 0xBD
    ensures IsNormal(t, 0xAB) && Render(t.env.fonts, t.g.translate, t, 0xAB) == Draw(0xBD)
  {
  }
}
