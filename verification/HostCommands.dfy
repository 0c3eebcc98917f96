// What each control character, escape and control sequence does for the host that writes it.
module HostCommands {
  import opened Cells
  import opened ScreenSpec
  import opened TerminalSpec
  import opened Batching
  import opened EditingTheorems
  import opened TerminalInput
  import opened CursorMoves

  // ---- Control characters ----

  /** Tabulators, vertical tabulators, bells and cancels are drawn instead where control characters are displayed. */
  predicate ActsOn(t: Term, c: CodeUnit) {
    t.esc != EsNormal || !t.g.dispCtrl || c in {0x00, 0x08, 0x0A, 0x0C, 0x0D, 0x0E, 0x0F, 0x1B}
  }

  /** A control character acts whatever the parser is in the middle of. */
  lemma ControlFeed(t: Term, c: CodeUnit)
    requires TermOk(t) && ActsOn(t, c)
    requires c in {0x00, 0x08, 0x09, 0x0A, 0x0B, 0x0C, 0x0D, 0x0E, 0x0F, 0x18, 0x1A, 0x1B, 0x7F}
      || (c == 0x07 && !t.esc.EsStatus?)
    ensures Run(t, [c]) == ControlChar(Idle(t), c) && RunReply(t, [c]) == []
  {
    hide ViewOk, UtfOk, Run, Feed, ControlChar, RunReply, Idle;
    RunOne(t, c);
    ReplyOne(t, c);
    ControlActs(t, c);
    AsciiReply(t, c);
    AsciiFeed(t, c);
  }

  lemma ReplyOne(t: Term, c: CodeUnit)
    requires TermOk(t)
    ensures RunReply(t, [c]) == FeedReply(t, c)
  {
    hide ViewOk, UtfOk, FeedReply;
    assert [c][..0] == [];
  }

  lemma ControlActs(t: Term, c: CodeUnit)
    requires TermOk(t) && ActsOn(t, c)
    requires c in {0x00, 0x08, 0x09, 0x0A, 0x0B, 0x0C, 0x0D, 0x0E, 0x0F, 0x18, 0x1A, 0x1B, 0x7F}
      || (c == 0x07 && !t.esc.EsStatus?)
    ensures var u := Idle(t);
      !IsPrinted(u, c) && Expansion(u, c) == [] && Control(u, c) == ControlChar(u, c) && Reply(u, c) == []
  {
    hide ViewOk, UtfOk, ControlChar, EscChar;
  }

  /** The answers to an ASCII character that is not drawn and does not expand. */
  lemma AsciiReply(t: Term, ch: CodeUnit)
    requires TermOk(t) && ch <= 0x7F && !IsPrinted(Idle(t), ch) && Expansion(Idle(t), ch) == []
    ensures FeedReply(t, ch) == Reply(Idle(t), ch)
  {
    hide ViewOk, UtfOk, Leading, ShiftIn, Control, Expansion, IsPrinted, Reply;
    assert DecodeState(t, ch) == Idle(t);
    assert Decode(t, ch) == Char(ch);
    assert StepExpansion(t, ch) == [];
  }

  /** Backspace goes one column back, unless the cursor is in the first one. */
  lemma Backspace(t: Term)
    requires TermOk(t)
    ensures AcrossTo(Idle(t), Run(t, [0x08]), Max(t.v.x - 1, 0))
  {
    hide ViewOk, UtfOk, Run, GotoXY;
    ControlFeed(t, 0x08);
    IdleIs(t);
    Sizes(t);
    GoingMoves(Idle(t), t.v.x - 1, t.v.y);
  }

  /** Carriage return. */
  lemma CarriageReturn(t: Term)
    requires TermOk(t)
    ensures var u, r := Idle(t), Run(t, [0x0D]);
      r == u.(v := u.v.(x := 0, y := r.v.y), needWrap := false) && r.v.y == Row(t, t.v.y)
  {
    hide ViewOk, UtfOk, Run, GotoXY;
    ControlFeed(t, 0x0D);
    IdleIs(t);
    Sizes(t);
    GoingMoves(Idle(t), 0, t.v.y);
  }

  /** Line feed, vertical tabulator and form feed are line feeds; in newline mode a carriage return follows. */
  lemma LineFeeding(t: Term, c: CodeUnit)
    requires TermOk(t) && c in {0x0A, 0x0B, 0x0C} && ActsOn(t, c)
    ensures Run(t, [c]) == if t.m.crLf then Cr(LineFeed(Idle(t))) else LineFeed(Idle(t))
  {
    hide ViewOk, UtfOk, Run, LineFeed, Cr;
    ControlFeed(t, c);
    IdleIs(t);
    FeedKeepsModes(Idle(t));
  }

  lemma FeedKeepsModes(t: Term)
    requires TermOk(t)
    ensures LineFeed(t).m == t.m
  {
    hide ViewOk, UtfOk, ScrollView;
  }

  /** A line feed above the bottom margin, or below it, goes down one line, if there is one. */
  lemma LineFeedGoesDown(t: Term)
    requires TermOk(t) && t.v.y != t.bottom - 1
    ensures var r := LineFeed(t);
      if t.v.y == t.v.height - 1 then r == t
      else r == t.(v := t.v.(y := r.v.y), needWrap := false) && r.v.y == Row(t, t.v.y + 1)
  {
    hide ViewOk, UtfOk, GotoXY;
    Sizes(t);
    GoingMoves(t, t.v.x, t.v.y + 1);
  }

  /** And a reverse line feed up. */
  lemma ReverseFeedGoesUp(t: Term)
    requires TermOk(t) && t.v.y != t.top
    ensures var r := ReverseFeed(t);
      if t.v.y == 0 then r == t else r == t.(v := t.v.(y := r.v.y), needWrap := false) && r.v.y == Row(t, t.v.y - 1)
  {
    hide ViewOk, UtfOk, GotoXY;
    Sizes(t);
    GoingMoves(t, t.v.x, t.v.y - 1);
  }

  /** Shift out selects the set G1, and from then on control characters are displayed. */
  lemma ShiftingOut(t: Term)
    requires TermOk(t)
    ensures var u := Idle(t); Run(t, [0x0E]) == u.(g := u.g.(useG := 1, translate := u.g.gmap[1], dispCtrl := true))
  {
    hide ViewOk, UtfOk, Run, Idle;
    ControlFeed(t, 0x0E);
  }

  /** Shift in selects the set G0 and ends that. */
  lemma ShiftingIn(t: Term)
    requires TermOk(t)
    ensures var u := Idle(t); Run(t, [0x0F]) == u.(g := u.g.(useG := 0, translate := u.g.gmap[0], dispCtrl := false))
  {
    hide ViewOk, UtfOk, Run, Idle;
    ControlFeed(t, 0x0F);
  }

  /** Cancel and substitute end what the parser is reading; null, delete and bell do nothing. */
  lemma CancelAndNothing(t: Term, c: CodeUnit)
    requires TermOk(t) && ActsOn(t, c) && c in {0x00, 0x07, 0x18, 0x1A, 0x7F} && (c == 0x07 ==> !t.esc.EsStatus?)
    ensures Run(t, [c]) == if c == 0x18 || c == 0x1A then Idle(t).(esc := EsNormal) else Idle(t)
  {
    hide ViewOk, UtfOk, Run, Idle, ControlChar;
    ControlFeed(t, c);
    CancelOrNothing(Idle(t), c);
  }

  lemma CancelOrNothing(t: Term, c: CodeUnit)
    requires TermOk(t) && c in {0x00, 0x07, 0x18, 0x1A, 0x7F}
    ensures ControlChar(t, c) == if c == 0x18 || c == 0x1A then t.(esc := EsNormal) else t
  {
    hide ViewOk, UtfOk, Bs, Ht, NewLine, Cr, LineFeed, LockingShift, SetTab, Ri;
  }

  /** Without UTF-8, the control characters of the upper half that are not drawn. */
  lemma UpperControlFeed(t: Term, c: CodeUnit)
    requires TermOk(t) && !t.u.enabled && c in {0x88, 0x8D, 0x8E, 0x8F, 0x9A, 0x9B}
    requires t.esc != EsNormal || !t.g.dispCtrl
    ensures Run(t, [c]) == ControlChar(t, c) && RunReply(t, [c]) == Reply(t, c)
  {
    hide ViewOk, UtfOk, Run, ControlChar, RunReply, Leading, ShiftIn, EscChar;
    RunOne(t, c);
    ReplyOne(t, c);
    assert c % 32 in {0x08, 0x0D, 0x0E, 0x0F, 0x1A, 0x1B};
    assert !IsPrinted(t, c) && StepExpansion(t, c) == [];
  }

  /** They are the two-character escapes in one: ESC H, ESC M, ESC Z. */
  lemma UpperTabStop(t: Term)
    requires TermOk(t) && !t.u.enabled && (t.esc != EsNormal || !t.g.dispCtrl)
    ensures Run(t, [0x88]) == t.(tabs := t.tabs[t.v.x := true])
  {
    hide ViewOk, UtfOk, Run, RunReply;
    UpperControlFeed(t, 0x88);
  }

  lemma UpperReverseFeed(t: Term)
    requires TermOk(t) && !t.u.enabled && (t.esc != EsNormal || !t.g.dispCtrl)
    ensures Run(t, [0x8D]) == ReverseFeed(t).(needWrap := false)
  {
    hide ViewOk, UtfOk, Run, RunReply, ReverseFeed, Ri;
    UpperControlFeed(t, 0x8D);
    OneReverse(t);
  }

  lemma UpperIdentity(t: Term)
    requires TermOk(t) && !t.u.enabled && (t.esc != EsNormal || !t.g.dispCtrl)
    ensures Run(t, [0x9A]) == t && RunReply(t, [0x9A]) == [DeviceId]
  {
    hide ViewOk, UtfOk, Run, RunReply;
    UpperControlFeed(t, 0x9A);
  }

  lemma OneReverse(t: Term)
    requires TermOk(t)
    ensures Ri(t, 1) == ReverseFeed(t).(needWrap := false)
  {
    hide ViewOk, UtfOk, ReverseFeed;
    Sizes(t);
    assert ReverseFeeds(t, 1) == ReverseFeed(ReverseFeeds(t, 0));
  }

  // ---- Escapes of one character ----

  /** The terminal behind an escape character, as far as the character after it is concerned. */
  function Escaped(t: Term): (r: Term)
    requires TermOk(t)
    ensures TermOk(r)
  {
    hide ViewOk, UtfOk;
    Idle(t).(esc := EsNormal)
  }

  lemma IdleEsc(t: Term, e: Esc)
    requires TermOk(t) && (e.EsSetG? ==> e.g < 4)
    ensures var w := Idle(t).(esc := e);
      TermOk(w) && w.u == Idle(w).u && w.esc == e && w.(esc := EsNormal) == Escaped(t)
  {
    hide ViewOk, UtfOk;
  }

  lemma EscapeActs(t: Term, c: CodeUnit)
    requires TermOk(t) && 0x20 <= c <= 0x7E
    ensures Run(t, [0x1B, c]) == EscEsc(Idle(t).(esc := EsEsc), c)
  {
    hide ViewOk, UtfOk, TermOk, Run, Feed, EscEsc, Idle;
    EscapeFeed(t);
    RunOne(t, 0x1B);
    RunSnoc(t, [0x1B], c);
    assert [0x1B] + [c] == [0x1B, c];
    IdleEsc(t, EsEsc);
    EscapedFeed(Idle(t).(esc := EsEsc), c);
  }

  lemma EscapeReplies(t: Term, c: CodeUnit)
    requires TermOk(t) && 0x20 <= c <= 0x7E
    ensures RunReply(t, [0x1B, c]) == if c == 0x5A then [DeviceId] else []
  {
    hide ViewOk, UtfOk, Run, RunReply, Feed, FeedReply, EscEsc, Idle;
    EscapeFeed(t);
    RunOne(t, 0x1B);
    ControlFeed(t, 0x1B);
    ReplyOne(Idle(t).(esc := EsEsc), c);
    ChunkIndependence(t, [0x1B], [c]);
    assert [0x1B] + [c] == [0x1B, c];
    IdleEsc(t, EsEsc);
    EscapedFeed(Idle(t).(esc := EsEsc), c);
  }

  lemma EscapedFeed(e: Term, c: CodeUnit)
    requires TermOk(e) && e.esc == EsEsc && e.u == Idle(e).u && 0x20 <= c <= 0x7E
    ensures Feed(e, c) == EscEsc(e, c) && FeedReply(e, c) == if c == 0x5A then [DeviceId] else []
  {
    hide ViewOk, UtfOk, Feed, FeedReply, EscEsc;
    IdleTwice(e);
    AsciiFeed(e, c);
    AsciiReply(e, c);
  }

  /** ESC 7 saves cursor, attributes and character sets; ESC 8 restores what was saved for the screen shown. */
  lemma SavingAndRestoring(t: Term)
    requires TermOk(t)
    ensures var u, r := Escaped(t), Run(t, [0x1B, 0x37]);
      && r == u.(saved := r.saved) && r.saved.useG == t.g.useG && r.saved.gmap == t.g.gmap
      && (if t.v.alternate then r.saved.alt else r.saved.main) == Saved(t.v.x, t.v.y, t.pen.attr)
      && (if t.v.alternate then r.saved.main == t.saved.main else r.saved.alt == t.saved.alt)
    ensures Run(t, [0x1B, 0x38]) == RestoreCursor(Escaped(t))
  {
    hide ViewOk, UtfOk, Run, RestoreCursor;
    EscapeActs(t, 0x37);
    EscapeActs(t, 0x38);
    IdleIs(t);
  }

  lemma CursorLetter(t: Term, c: CodeUnit)
    requires TermOk(t) && c in {0x37, 0x38, 0x44, 0x45, 0x4D, 0x63}
    ensures Run(t, [0x1B, c]) == EscCursor(Escaped(t), c)
  {
    hide ViewOk, UtfOk, TermOk, Run, EscCursor, Idle;
    EscapeActs(t, c);
  }

  /** ESC D feeds one line, ESC E goes to the beginning of the next one. */
  lemma FeedingForward(t: Term)
    requires TermOk(t)
    ensures Run(t, [0x1B, 0x44]) == LineFeed(Escaped(t)) && Run(t, [0x1B, 0x45]) == LineFeed(Cr(Escaped(t)))
  {
    hide ViewOk, UtfOk, TermOk, Run, LineFeed, Cr, Ri, Reset, Escaped;
    CursorLetter(t, 0x44);
    CursorLetter(t, 0x45);
  }

  /** ESC M feeds one line back. */
  lemma FeedingBack(t: Term)
    requires TermOk(t)
    ensures Run(t, [0x1B, 0x4D]) == ReverseFeed(Escaped(t)).(needWrap := false)
  {
    hide ViewOk, UtfOk, TermOk, Run, ReverseFeed, Ri, Escaped;
    CursorLetter(t, 0x4D);
    OneReverse(Escaped(t));
  }

  /** ESC c resets the terminal. */
  lemma Resetting(t: Term)
    requires TermOk(t)
    ensures Run(t, [0x1B, 0x63]) == Reset(Escaped(t))
  {
    hide ViewOk, UtfOk, TermOk, Run, Reset, Escaped;
    CursorLetter(t, 0x63);
  }

  /** ESC H sets a tab stop, ESC = and ESC > switch the keypad, ESC Z asks for the kind of terminal. */
  lemma StopKeypadAndIdentity(t: Term)
    requires TermOk(t)
    ensures var u := Escaped(t);
      && Run(t, [0x1B, 0x48]) == u.(tabs := u.tabs[t.v.x := true])
      && Run(t, [0x1B, 0x3D]) == u.(m := u.m.(applKeys := true))
      && Run(t, [0x1B, 0x3E]) == u.(m := u.m.(applKeys := false))
      && Run(t, [0x1B, 0x5A]) == u && RunReply(t, [0x1B, 0x5A]) == [DeviceId]
  {
    hide ViewOk, UtfOk, Run, RunReply;
    EscapeActs(t, 0x48);
    EscapeActs(t, 0x3D);
    EscapeActs(t, 0x3E);
    EscapeActs(t, 0x5A);
    EscapeReplies(t, 0x5A);
    IdleIs(t);
  }

  // ---- Escapes of two characters ----

  lemma EscapeThen(t: Term, mark: CodeUnit, c: CodeUnit)
    requires TermOk(t) && 0x20 <= mark <= 0x7E && mark !in {0x37, 0x38, 0x44, 0x45, 0x4D, 0x63, 0x3E, 0x3D, 0x48}
    ensures Run(t, [0x1B, mark, c]) == Feed(Idle(t).(esc := Introduced(mark)), c)
  {
    hide ViewOk, UtfOk, Run, Feed, Introduced;
    EscapeActs(t, mark);
    RunSnoc(t, [0x1B, mark], c);
    assert [0x1B, mark] + [c] == [0x1B, mark, c];
  }

  /** The set that a character behind an escape speaks of. */
  function Designated(mark: CodeUnit): nat {
    if mark == 0x28 then 0 else if mark in {0x29, 0x2D} then 1 else if mark in {0x2A, 0x2E} then 2 else 3
  }

  lemma SetGFeed(w: Term, g: nat, letter: CodeUnit)
    requires TermOk(w) && g < 4 && w.esc == EsSetG(g) && w.u == Idle(w).u && 0x20 <= letter <= 0x7E
    ensures Feed(w, letter) == EscSetG(w, g, letter)
  {
    hide ViewOk, UtfOk, Feed, EscSetG;
    IdleTwice(w);
    AsciiFeed(w, letter);
  }

  lemma MarkMeans(mark: CodeUnit)
    requires mark in {0x28, 0x29, 0x2A, 0x2B, 0x2D, 0x2E, 0x2F}
    ensures Introduced(mark) == EsSetG(Designated(mark))
  {
  }

  // The set g becomes the one that the letter names.
  predicate SetChosen(t: Term, r: Term, g: nat, letter: CodeUnit) {
    && g < |t.g.gmap| == |r.g.gmap| && r == t.(g := r.g) && r.g == t.g.(gmap := r.g.gmap, translate := r.g.translate)
    && (forall k :: 0 <= k < |t.g.gmap| && k != g ==> r.g.gmap[k] == t.g.gmap[k])
    && r.g.gmap[g] == (
      if letter == 0x30 then Graphics else if letter == 0x42 then Latin1 else if letter == 0x55 then Cp437
      else if letter == 0x4B then DirectToFont else t.g.gmap[g])
    && r.g.translate == if t.g.useG == g then r.g.gmap[g] else t.g.translate
  }

  lemma SetGChooses(w: Term, g: nat, letter: CodeUnit)
    requires TermOk(w) && g < 4
    ensures SetChosen(w.(esc := EsNormal), EscSetG(w, g, letter), g, letter)
  {
    hide ViewOk, UtfOk;
  }

  /** ESC ( 0 and the like: the set becomes the graphics, Latin-1 or code page table, or the font itself; another letter
      changes nothing. The set in use changes at once. */
  lemma CharacterSet(t: Term, mark: CodeUnit, letter: CodeUnit)
    requires TermOk(t) && mark in {0x28, 0x29, 0x2A, 0x2B, 0x2D, 0x2E, 0x2F} && 0x20 <= letter <= 0x7E
    ensures SetChosen(Escaped(t), Run(t, [0x1B, mark, letter]), Designated(mark), letter)
  {
    hide ViewOk, UtfOk, TermOk, Run, Feed, Idle, Introduced, Escaped, EscSetG, SetChosen;
    EscapeThen(t, mark, letter);
    MarkMeans(mark);
    IdleEsc(t, EsSetG(Designated(mark)));
    var w := Idle(t).(esc := EsSetG(Designated(mark)));
    SetGFeed(w, Designated(mark), letter);
    SetGChooses(w, Designated(mark), letter);
  }

  lemma PercentFeed(w: Term, letter: CodeUnit)
    requires TermOk(w) && w.esc == EsPercent && w.u == Idle(w).u && 0x20 <= letter <= 0x7E
    ensures Feed(w, letter) == EscPercent(w, letter)
  {
    hide ViewOk, UtfOk, Feed, EscPercent;
    IdleTwice(w);
    AsciiFeed(w, letter);
  }

  /** ESC % @ turns UTF-8 off, ESC % G and ESC % 8 turn it on. */
  lemma Utf8Switched(t: Term, letter: CodeUnit)
    requires TermOk(t) && 0x20 <= letter <= 0x7E
    ensures Run(t, [0x1B, 0x25, letter]) == var u := Escaped(t);
      u.(u := u.u.(enabled := if letter == 0x40 then false else letter == 0x47 || letter == 0x38 || t.u.enabled))
  {
    hide ViewOk, UtfOk, Run, Feed, Idle;
    EscapeThen(t, 0x25, letter);
    IdleEsc(t, EsPercent);
    IdleIs(t);
    PercentFeed(Idle(t).(esc := EsPercent), letter);
  }

  /** ESC # and any character are ignored. */
  lemma HashIgnored(t: Term, c: CodeUnit)
    requires TermOk(t) && 0x20 <= c <= 0x7E
    ensures Run(t, [0x1B, 0x23, c]) == Escaped(t)
  {
    hide ViewOk, UtfOk, Run, Feed, Idle, Escaped;
    EscapeThen(t, 0x23, c);
    IdleEsc(t, EsHash);
    HashFeed(Idle(t).(esc := EsHash), c);
  }

  lemma HashFeed(w: Term, c: CodeUnit)
    requires TermOk(w) && w.esc == EsHash && w.u == Idle(w).u && 0x20 <= c <= 0x7E
    ensures Feed(w, c) == w.(esc := EsNormal)
  {
    hide ViewOk, UtfOk, Feed;
    IdleTwice(w);
    AsciiFeed(w, c);
  }

  /** ESC N and ESC O: the next character is looked up in G2, or G3, and what is found there is then taken as input. */
  lemma SingleShift(t: Term, mark: CodeUnit, c: CodeUnit, e: CodeUnit)
    requires TermOk(t) && (mark == 0x4E || mark == 0x4F) && 0x20 <= c <= 0x7E && !t.g.toggleMeta
    requires e == t.env.fonts.Table(t.g.gmap[if mark == 0x4E then 2 else 3])[c]
    requires !(0xF000 <= e <= 0xF0FF) && e != 0xFEFF && !(0x200A <= e <= 0x200F)
    ensures Run(t, [0x1B, mark, c]) == Step(Escaped(t).(lastChar := e), e)
  {
    hide ViewOk, UtfOk, TermOk, Run, Step, Feed, Idle, Escaped;
    EscapeThen(t, mark, c);
    ShiftedFeed(t, if mark == 0x4E then EsSS2 else EsSS3, c, e);
  }

  lemma ShiftedFeed(t: Term, esc: Esc, c: CodeUnit, e: CodeUnit)
    requires TermOk(t) && (esc == EsSS2 || esc == EsSS3) && 0x20 <= c <= 0x7E && !t.g.toggleMeta
    requires e == t.env.fonts.Table(t.g.gmap[if esc == EsSS2 then 2 else 3])[c]
    requires !(0xF000 <= e <= 0xF0FF) && e != 0xFEFF && !(0x200A <= e <= 0x200F)
    ensures Feed(Idle(t).(esc := esc), c) == Step(Escaped(t).(lastChar := e), e)
  {
    hide ViewOk, UtfOk, StepChar;
    var w := Idle(t).(esc := esc);
    IdleTwice(t);
    IdleIs(t);
    assert Shifted(w, if esc == EsSS2 then 2 else 3, c) == Draw(e);
    ShiftStep(w, c, e);
    OneStep(Escaped(t).(lastChar := e), e);
  }

  lemma ShiftStep(w: Term, c: CodeUnit, e: CodeUnit)
    requires TermOk(w) && (w.esc == EsSS2 || w.esc == EsSS3) && w.u == Idle(w).u && 0x20 <= c <= 0x7E
    requires Shifted(w, if w.esc == EsSS2 then 2 else 3, c) == Draw(e)
    ensures Step(w, c) == w.(esc := EsNormal, lastChar := e) && StepExpansion(w, c) == [e]
  {
    hide ViewOk, UtfOk, Shifted, Leading, ShiftIn;
    IdleTwice(w);
    assert DecodeState(w, c) == w && Decode(w, c) == Char(c);
  }

  lemma OneStep(t: Term, c: CodeUnit)
    requires TermOk(t)
    ensures Steps(t, [c]) == Step(t, c)
  {
    hide ViewOk, UtfOk, Step;
    assert [c][..0] == [];
  }

  // ---- Control sequences that edit ----

  lemma EditActs(u: Term, final: CodeUnit)
    requires TermOk(u) && !u.p.question && 0x4A <= final <= 0x58
    ensures EscGotPars(u, final) == CsiEdit(u, final)
  {
    hide ViewOk, UtfOk, TermOk, CsiMove, CsiEdit, CsiOther, SetModes;
  }

  lemma Editing(t: Term, ps: seq<nat>, final: CodeUnit)
    requires TermOk(t) && ps != [] && 0x4A <= final <= 0x58
    ensures Run(t, Sequence(ps, final)) == CsiEdit(ReadAll(t, ps), final)
  {
    hide ViewOk, UtfOk, TermOk, Run, Sequence, ReadAll, EscGotPars, CsiEdit;
    SequenceActs(t, ps, final);
    ReadKeeps(t, ps);
    EditActs(ReadAll(t, ps), final);
  }

  /** "ESC [ n @" inserts characters. */
  lemma InsertsCharacters(t: Term, n: nat)
    requires TermOk(t)
    ensures Run(t, Sequence([n], 0x40)) == CsiAt(ReadAll(t, [n]), n)
  {
    hide ViewOk, UtfOk, TermOk, Run, Sequence, ReadAll, CsiAt;
    Parameter(t, [n], 0);
    Moving(t, [n], 0x40);
  }

  /** "ESC [ n J" erases in the display. */
  lemma ErasesDisplay(t: Term, n: nat)
    requires TermOk(t)
    ensures Run(t, Sequence([n], 0x4A)) == CsiJ(ReadAll(t, [n]), n)
  {
    hide ViewOk, UtfOk, TermOk, Run, Sequence, ReadAll, CsiJ, CsiK, CsiL, CsiM, CsiP, CsiX;
    Parameter(t, [n], 0);
    Editing(t, [n], 0x4A);
  }

  /** "ESC [ n L" inserts lines. */
  lemma InsertsLines(t: Term, n: nat)
    requires TermOk(t)
    ensures Run(t, Sequence([n], 0x4C)) == CsiL(ReadAll(t, [n]), n)
  {
    hide ViewOk, UtfOk, TermOk, Run, Sequence, ReadAll, CsiJ, CsiK, CsiL, CsiM, CsiP, CsiX;
    Parameter(t, [n], 0);
    Editing(t, [n], 0x4C);
  }

  /** "ESC [ n M" deletes lines. */
  lemma DeletesLines(t: Term, n: nat)
    requires TermOk(t)
    ensures Run(t, Sequence([n], 0x4D)) == CsiM(ReadAll(t, [n]), n)
  {
    hide ViewOk, UtfOk, TermOk, Run, Sequence, ReadAll, CsiJ, CsiK, CsiL, CsiM, CsiP, CsiX;
    Parameter(t, [n], 0);
    Editing(t, [n], 0x4D);
  }

  /** "ESC [ n P" deletes characters. */
  lemma DeletesCharacters(t: Term, n: nat)
    requires TermOk(t)
    ensures Run(t, Sequence([n], 0x50)) == CsiP(ReadAll(t, [n]), n)
  {
    hide ViewOk, UtfOk, TermOk, Run, Sequence, ReadAll, CsiJ, CsiK, CsiL, CsiM, CsiP, CsiX;
    Parameter(t, [n], 0);
    Editing(t, [n], 0x50);
  }

  /** "ESC [ n S" feeds lines, no more than the screen has. */
  lemma FeedsLines(t: Term, n: nat)
    requires TermOk(t)
    ensures Run(t, Sequence([n], 0x53)) == LineFeeds(ReadAll(t, [n]), Min(Max(n, 1), t.v.height))
  {
    hide ViewOk, UtfOk, Run, Sequence, ReadAll, CsiJ, CsiK, CsiL, CsiM, CsiP, CsiX, LineFeeds;
    Parameter(t, [n], 0);
    ReadKeeps(t, [n]);
    Sizes(t);
    Editing(t, [n], 0x53);
  }

  /** "ESC [ n T" feeds them back. */
  lemma FeedsLinesBack(t: Term, n: nat)
    requires TermOk(t)
    ensures Run(t, Sequence([n], 0x54)) == ReverseFeeds(ReadAll(t, [n]), Min(Max(n, 1), t.v.height)).(needWrap := false)
  {
    hide ViewOk, UtfOk, Run, Sequence, ReadAll, CsiJ, CsiK, CsiL, CsiM, CsiP, CsiX, ReverseFeeds;
    Parameter(t, [n], 0);
    ReadKeeps(t, [n]);
    Sizes(t);
    Editing(t, [n], 0x54);
  }

  /** Of the ways to erase there are three; other numbers erase nothing. */
  lemma OtherErasesNothing(t: Term, n: nat)
    requires TermOk(t) && n > 2
    ensures Run(t, Sequence([n], 0x4A)) == ReadAll(t, [n]) && Run(t, Sequence([n], 0x4B)) == ReadAll(t, [n])
  {
    hide ViewOk, UtfOk, TermOk, Run, Sequence, ReadAll, CsiL, CsiM, CsiP, CsiX, Erase;
    Parameter(t, [n], 0);
    Editing(t, [n], 0x4A);
    Editing(t, [n], 0x4B);
  }

  /** Characters and lines are counted from 1, 0 being 1, and no more than there is room for. */
  lemma CountedFromOne(n: nat, room: int)
    requires room > 0
    ensures 1 <= Count(n, room) <= room
    ensures n == 0 ==> Count(n, room) == 1
    ensures 0 < n <= room ==> Count(n, room) == n
    ensures n >= room ==> Count(n, room) == room
  {
  }

  // ---- Margins, tab stops, saving ----

  lemma OtherActs(u: Term, final: CodeUnit)
    requires TermOk(u) && !u.p.question && 0x59 <= final <= 0x7E && final !in {0x5A, 0x60, 0x61, 0x64, 0x65, 0x66}
    ensures EscGotPars(u, final) == CsiOther(u, final)
  {
    hide ViewOk, UtfOk, TermOk, CsiMove, CsiEdit, CsiOther, SetModes;
  }

  lemma Other(t: Term, ps: seq<nat>, final: CodeUnit)
    requires TermOk(t) && ps != [] && 0x59 <= final <= 0x7E && final !in {0x5A, 0x60, 0x61, 0x62, 0x64, 0x65, 0x66}
    ensures Run(t, Sequence(ps, final)) == CsiOther(ReadAll(t, ps), final)
  {
    hide ViewOk, UtfOk, TermOk, Run, Sequence, ReadAll, EscGotPars, CsiOther;
    SequenceActs(t, ps, final);
    ReadKeeps(t, ps);
    OtherActs(ReadAll(t, ps), final);
  }

  // r is u with these margins and the cursor at home, or u when there are no such lines.
  predicate Margins(u: Term, r: Term, first: nat, last: nat) {
    if 1 <= first < last <= u.v.height then
      && r == u.(top := first - 1, bottom := last, v := u.v.(x := 0, y := r.v.y), needWrap := false)
      && r.v.y == if u.m.offset then first - 1 else 0
    else r == u
  }

  /** "ESC [ first ; last r" sets the margins; 0 for the last line means the last one of the screen. */
  lemma SetsMargins(t: Term, ps: seq<nat>)
    requires TermOk(t) && |ps| == 2
    ensures Margins(ReadAll(t, ps), Run(t, Sequence(ps, 0x72)), Max(ps[0], 1), if ps[1] != 0 then ps[1] else t.v.height)
  {
    hide ViewOk, UtfOk, TermOk, Run, Sequence, ReadAll, CsiOther, Margins;
    Parameter(t, ps, 0);
    Parameter(t, ps, 1);
    ReadKeeps(t, ps);
    Other(t, ps, 0x72);
    MarginsActs(ReadAll(t, ps));
  }

  lemma MarginsActs(u: Term)
    requires TermOk(u)
    ensures Margins(u, CsiOther(u, 0x72), ParOr1(u, 0), if Par(u, 1) != 0 then Par(u, 1) else u.v.height)
  {
    hide UtfOk, Csim, SetModes, SaveCursor, RestoreCursor, ClearTab;
  }

  /** "ESC [ 0 g" clears the tab stop at the cursor, 2 and 3 clear all of them, other numbers none. */
  lemma ClearsTabs(t: Term, n: nat)
    requires TermOk(t)
    ensures var u, r := ReadAll(t, [n]), Run(t, Sequence([n], 0x67));
      && r == u.(tabs := r.tabs)
      && (n == 0 ==> r.tabs == t.tabs[t.v.x := false])
      && (n == 2 || n == 3 ==> forall c :: c in r.tabs <==> 0 <= c < t.v.width)
      && (n == 2 || n == 3 ==> forall c :: 0 <= c < t.v.width ==> !Stop(r, c))
      && (n !in {0, 2, 3} ==> r.tabs == t.tabs)
  {
    hide ViewOk, UtfOk, TermOk, Run, Sequence, ReadAll, CsiOther, ClearedTabs;
    Parameter(t, [n], 0);
    ReadKeeps(t, [n]);
    Other(t, [n], 0x67);
    ClearActs(ReadAll(t, [n]));
    AllCleared(t.v.width);
  }

  lemma ClearActs(u: Term)
    requires TermOk(u)
    ensures CsiOther(u, 0x67) == ClearTab(u, Par(u, 0))
  {
    hide ViewOk, UtfOk, TermOk, Csim, SetModes, SaveCursor, RestoreCursor, ClearTab, SetMargins;
  }

  lemma AllCleared(width: nat)
    ensures forall c :: c in ClearedTabs(width) <==> 0 <= c < width
    ensures forall c :: c in ClearedTabs(width) ==> !ClearedTabs(width)[c]
  {
  }

  /** "ESC [ s" saves and "ESC [ u" restores, as ESC 7 and ESC 8 do. */
  lemma SavesAndRestores(t: Term, ps: seq<nat>)
    requires TermOk(t) && ps != []
    ensures Run(t, Sequence(ps, 0x73)) == SaveCursor(ReadAll(t, ps))
      && Run(t, Sequence(ps, 0x75)) == RestoreCursor(ReadAll(t, ps))
  {
    hide ViewOk, UtfOk, TermOk, Run, Sequence, ReadAll, CsiOther, SaveCursor, RestoreCursor;
    Other(t, ps, 0x73);
    Other(t, ps, 0x75);
    SaveActs(ReadAll(t, ps));
    RestoreActs(ReadAll(t, ps));
  }

  lemma SaveActs(u: Term)
    requires TermOk(u)
    ensures CsiOther(u, 0x73) == SaveCursor(u)
  {
    hide ViewOk, UtfOk, TermOk, Csim, SetModes, SaveCursor, RestoreCursor, ClearTab, SetMargins;
  }

  lemma RestoreActs(u: Term)
    requires TermOk(u)
    ensures CsiOther(u, 0x75) == RestoreCursor(u)
  {
    hide ViewOk, UtfOk, TermOk, Csim, SetModes, SaveCursor, RestoreCursor, ClearTab, SetMargins;
  }

  /** Sequences with any other final letter are read and ignored; two of them ask for an answer only. */
  lemma SequenceIgnored(t: Term, ps: seq<nat>, final: CodeUnit)
    requires TermOk(t) && ps != []
    requires final in {0x4E, 0x4F, 0x51, 0x52, 0x55, 0x56, 0x57, 0x63, 0x6E, 0x71, 0x70, 0x74, 0x76, 0x77, 0x78, 0x79,
      0x7A}
    ensures Run(t, Sequence(ps, final)) == ReadAll(t, ps)
  {
    hide ViewOk, UtfOk, TermOk, Run, Sequence, ReadAll, CsiOther, CsiEdit;
    if final < 0x59 {
      Editing(t, ps, final);
      EditIgnores(ReadAll(t, ps), final);
    } else {
      Other(t, ps, final);
      OtherIgnores(ReadAll(t, ps), final);
    }
  }

  lemma EditIgnores(u: Term, final: CodeUnit)
    requires TermOk(u) && final in {0x4E, 0x4F, 0x51, 0x52, 0x55, 0x56, 0x57}
    ensures CsiEdit(u, final) == u
  {
    hide ViewOk, UtfOk, TermOk, CsiJ, CsiK, CsiL, CsiM, CsiP, CsiX, LineFeeds, Ri;
  }

  lemma OtherIgnores(u: Term, final: CodeUnit)
    requires TermOk(u) && final in {0x63, 0x6E, 0x71, 0x70, 0x74, 0x76, 0x77, 0x78, 0x79, 0x7A}
    ensures CsiOther(u, final) == u
  {
    hide ViewOk, UtfOk, TermOk, Csim, SetModes, SaveCursor, RestoreCursor, ClearTab, SetMargins;
  }

  // ---- Answers ----

  lemma {:induction false} ParametersReply(t: Term, s: seq<CodeUnit>)
    requires TermOk(t) && t.esc == EsGetPars && forall i :: 0 <= i < |s| ==> 0x30 <= s[i] <= 0x39 || s[i] == 0x3B
    ensures RunReply(t, s) == [] && Run(t, s).esc == EsGetPars
  {
    hide ViewOk, UtfOk, Feed, FeedReply;
    if s != [] {
      var front := Run(t, s[..|s| - 1]);
      ParametersReply(t, s[..|s| - 1]);
      ParameterReply(front, s[|s| - 1]);
      ParserStep(front, s[|s| - 1]);
      StillReading(front, s[|s| - 1]);
    }
  }

  lemma StillReading(t: Term, ch: CodeUnit)
    requires TermOk(t) && t.esc == EsGetPars && (0x30 <= ch <= 0x39 || ch == 0x3B)
    ensures Feed(t, ch).esc == EsGetPars
  {
    hide ViewOk, UtfOk, Feed;
    ParserStep(t, ch);
  }

  lemma ParameterReply(t: Term, ch: CodeUnit)
    requires TermOk(t) && t.esc == EsGetPars && (0x30 <= ch <= 0x39 || ch == 0x3B)
    ensures FeedReply(t, ch) == []
  {
    hide ViewOk, UtfOk, FeedReply;
    AsciiReply(t, ch);
  }

  /** What a written sequence answers. */
  lemma SequenceReplies(t: Term, ps: seq<nat>, final: CodeUnit)
    requires TermOk(t) && ps != [] && 0x40 <= final <= 0x7E && final != 0x62
    ensures RunReply(t, Sequence(ps, final)) == CsiReply(ReadAll(t, ps), final)
  {
    hide ViewOk, UtfOk, TermOk, Run, RunReply, Written, CsiReply, FeedReply, Idle, Reading, ReadAll;
    var s := [0x1B, 0x5B] + Written(ps);
    ParametersRead(t, ps);
    ReadingReply(t, ps);
    ReadingFields(t, ps);
    ReplySnoc(t, s, final);
    FinalReply(Reading(t, ps), final);
    ReadFromReading(t, ps);
  }

  lemma ReadFromReading(t: Term, ps: seq<nat>)
    requires TermOk(t) && ps != []
    ensures Reading(t, ps).(esc := EsNormal) == ReadAll(t, ps)
  {
    hide ViewOk, UtfOk, Reading;
  }

  lemma ReplySnoc(t: Term, s: seq<CodeUnit>, ch: CodeUnit)
    requires TermOk(t)
    ensures RunReply(t, s + [ch]) == RunReply(t, s) + FeedReply(Run(t, s), ch)
  {
    hide ViewOk, UtfOk, FeedReply;
    assert (s + [ch])[..|s|] == s;
  }

  lemma ReadingReply(t: Term, ps: seq<nat>)
    requires TermOk(t) && ps != []
    ensures RunReply(t, [0x1B, 0x5B] + Written(ps)) == []
  {
    hide ViewOk, UtfOk, TermOk, Run, RunReply, FeedReply, Feed, Idle, Opened, Written;
    var w := Idle(t);
    IdleTwice(t);
    EscapeBracket(t);
    EscapeReplies(t, 0x5B);
    ChunkIndependence(t, [0x1B, 0x5B], Written(ps));
    var sq := w.(esc := EsSquare);
    var s := Written(ps);
    var front, rest := [s[0]], s[1..];
    assert s == front + rest;
    DigitsAndSemicolons(ps);
    ChunkIndependence(sq, front, rest);
    RunOne(sq, s[0]);
    ReplyOne(sq, s[0]);
    FirstDigit(w, s[0]);
    FirstReply(w, s[0]);
    OpenedReads(w);
    StillReading(Opened(w), s[0]);
    ParametersReply(Run(sq, front), rest);
  }

  lemma OpenedReads(t: Term)
    requires TermOk(t)
    ensures Opened(t).esc == EsGetPars
  {
    hide ViewOk, UtfOk, Zeros;
  }

  lemma {:induction false} DigitsAndSemicolons(ps: seq<nat>)
    requires ps != []
    ensures forall i :: 0 <= i < |Written(ps)| ==> 0x30 <= Written(ps)[i] <= 0x39 || Written(ps)[i] == 0x3B
  {
    hide Decimal;
    if |ps| > 1 {
      DigitsAndSemicolons(ps[..|ps| - 1]);
    }
  }

  lemma FirstReply(t: Term, ch: CodeUnit)
    requires TermOk(t) && t.u == Idle(t).u && 0x30 <= ch <= 0x39
    ensures FeedReply(t.(esc := EsSquare), ch) == []
  {
    hide ViewOk, UtfOk, FeedReply;
    AsciiReply(t.(esc := EsSquare), ch);
  }

  lemma FinalReply(u: Term, final: CodeUnit)
    requires TermOk(u) && u.esc == EsGetPars && u.u == Idle(u).u && 0x40 <= final <= 0x7E && final != 0x62
    ensures FeedReply(u, final) == CsiReply(u.(esc := EsNormal), final)
  {
    hide ViewOk, UtfOk, FeedReply;
    IdleTwice(u);
    AsciiReply(u, final);
  }

  /** "ESC [ 6 n" is answered with the cursor position, counted from 1, to which origin mode adds the top margin;
      5 asks whether all is well, "ESC [ c" what kind of terminal this is; nothing else is answered. */
  lemma Answers(t: Term, n: nat, final: CodeUnit)
    requires TermOk(t) && 0x40 <= final <= 0x7E && final != 0x62
    ensures RunReply(t, Sequence([n], final)) ==
      if final == 0x6E && n == 6 then [CursorAt(t.v.y + 1 + (if t.m.offset then t.top else 0), t.v.x + 1)]
      else if final == 0x6E && n == 5 then [StatusOk]
      else if final == 0x63 && n == 0 then [DeviceId]
      else []
  {
    hide ViewOk, UtfOk, TermOk, RunReply, Sequence, ReadAll;
    SequenceReplies(t, [n], final);
    Parameter(t, [n], 0);
    ReadKeeps(t, [n]);
  }

  // ---- What is skipped ----

  lemma BracketThen(t: Term, c: CodeUnit)
    requires TermOk(t)
    ensures Run(t, [0x1B, 0x5B, c]) == Feed(Idle(t).(esc := EsSquare), c)
    ensures RunReply(t, [0x1B, 0x5B, c]) == FeedReply(Idle(t).(esc := EsSquare), c)
  {
    hide ViewOk, UtfOk, Run, RunReply, Feed, FeedReply, Idle;
    EscapeBracket(t);
    EscapeReplies(t, 0x5B);
    RunSnoc(t, [0x1B, 0x5B], c);
    ReplySnoc(t, [0x1B, 0x5B], c);
    assert [0x1B, 0x5B] + [c] == [0x1B, 0x5B, c];
  }

  /** A function key, ESC [ [ and any character, is skipped. */
  lemma FunctionKeySkipped(t: Term, c: CodeUnit)
    requires TermOk(t) && 0x20 <= c <= 0x7E
    ensures var r := Run(t, [0x1B, 0x5B, 0x5B, c]); r == Escaped(t).(p := r.p)
  {
    hide ViewOk, UtfOk, Run, Feed, Zeros;
    BracketThen(t, 0x5B);
    RunSnoc(t, [0x1B, 0x5B, 0x5B], c);
    assert [0x1B, 0x5B, 0x5B] + [c] == [0x1B, 0x5B, 0x5B, c];
    hide Idle, Escaped;
    var w := Idle(t).(esc := EsSquare);
    IdleEsc(t, EsSquare);
    KeyBegins(w);
    KeyFeed(Feed(w, 0x5B), c);
  }

  lemma KeyBegins(w: Term)
    requires TermOk(w) && w.esc == EsSquare && w.u == Idle(w).u
    ensures var k := Feed(w, 0x5B); k == w.(esc := EsFuncKey, p := k.p) && k.u == Idle(k).u
  {
    hide ViewOk, UtfOk, Feed, Zeros;
    IdleTwice(w);
    AsciiFeed(w, 0x5B);
  }

  lemma KeyFeed(k: Term, c: CodeUnit)
    requires TermOk(k) && k.esc == EsFuncKey && k.u == Idle(k).u && 0x20 <= c <= 0x7E
    ensures Feed(k, c) == k.(esc := EsNormal)
  {
    hide ViewOk, UtfOk, Feed;
    IdleTwice(k);
    AsciiFeed(k, c);
  }

  /** "ESC [ > c" asks for more about the terminal. */
  lemma SecondaryIdentity(t: Term)
    requires TermOk(t)
    ensures RunReply(t, [0x1B, 0x5B, 0x3E, 0x63]) == [SecondaryDA]
  {
    hide ViewOk, UtfOk, Run, RunReply, Feed, FeedReply, Zeros;
    BracketThen(t, 0x3E);
    ReplySnoc(t, [0x1B, 0x5B, 0x3E], 0x63);
    assert [0x1B, 0x5B, 0x3E] + [0x63] == [0x1B, 0x5B, 0x3E, 0x63];
    IdleEsc(t, EsSquare);
    AskedFeed(Idle(t).(esc := EsSquare));
    AskedReply(Feed(Idle(t).(esc := EsSquare), 0x3E));
  }

  lemma AskedFeed(w: Term)
    requires TermOk(w) && w.esc == EsSquare && w.u == Idle(w).u
    ensures FeedReply(w, 0x3E) == []
    ensures var r := Feed(w, 0x3E); r.esc == EsDeviceAttr && r.u == Idle(r).u && r.p.par == Zeros(16)
  {
    hide ViewOk, UtfOk, Feed, FeedReply, Zeros;
    IdleTwice(w);
    AsciiFeed(w, 0x3E);
    AsciiReply(w, 0x3E);
  }

  lemma AskedReply(w: Term)
    requires TermOk(w) && w.esc == EsDeviceAttr && w.u == Idle(w).u && w.p.par == Zeros(16)
    ensures FeedReply(w, 0x63) == [SecondaryDA]
  {
    hide ViewOk, UtfOk, FeedReply, Zeros;
    ZerosAreZero(16, 0);
    IdleTwice(w);
    AsciiReply(w, 0x63);
  }

  /** A title, "ESC ] 0" and text up to a bell, is skipped. */
  lemma TitleSkipped(t: Term, k: CodeUnit, title: seq<CodeUnit>)
    requires TermOk(t) && 0x30 <= k <= 0x32 && forall i :: 0 <= i < |title| ==> 0x20 <= title[i] <= 0x7E
    ensures Run(t, [0x1B, 0x5D, k] + title + [0x07]) == Escaped(t)
  {
    hide ViewOk, UtfOk, Run, Feed, Introduced;
    EscapeThen(t, 0x5D, k);
    IdleEsc(t, EsNonStd);
    TitleBegins(Idle(t).(esc := EsNonStd), k);
    var w := Idle(t).(esc := EsStatus);
    IdleEsc(t, EsStatus);
    ChunkIndependence(t, [0x1B, 0x5D, k], title);
    TitleText(w, title);
    RunSnoc(t, [0x1B, 0x5D, k] + title, 0x07);
    TitleEnds(w);
  }

  lemma TitleBegins(w: Term, k: CodeUnit)
    requires TermOk(w) && w.esc == EsNonStd && w.u == Idle(w).u && 0x30 <= k <= 0x32
    ensures Introduced(0x5D) == EsNonStd && Feed(w, k) == w.(esc := EsStatus)
  {
    hide ViewOk, UtfOk, Feed;
    IdleTwice(w);
    AsciiFeed(w, k);
  }

  lemma {:induction false} TitleText(w: Term, title: seq<CodeUnit>)
    requires TermOk(w) && w.esc == EsStatus && w.u == Idle(w).u
      && forall i :: 0 <= i < |title| ==> 0x20 <= title[i] <= 0x7E
    ensures Run(w, title) == w
  {
    hide ViewOk, UtfOk, TermOk, Feed, Idle;
    if title != [] {
      TitleText(w, title[..|title| - 1]);
      TitleLetter(w, title[|title| - 1]);
    }
  }

  lemma TitleLetter(w: Term, c: CodeUnit)
    requires TermOk(w) && w.esc == EsStatus && w.u == Idle(w).u && 0x20 <= c <= 0x7E
    ensures Feed(w, c) == w
  {
    hide ViewOk, UtfOk, Feed;
    IdleTwice(w);
    AsciiFeed(w, c);
  }

  lemma TitleEnds(w: Term)
    requires TermOk(w) && w.esc == EsStatus && w.u == Idle(w).u
    ensures Feed(w, 0x07) == w.(esc := EsNormal)
  {
    hide ViewOk, UtfOk, Feed;
    IdleTwice(w);
    AsciiFeed(w, 0x07);
  }
}
