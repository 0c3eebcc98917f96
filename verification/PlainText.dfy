// What ordinary characters look like: which ones are drawn, through which table, and the lines they make.
module PlainText {
  import opened Cells
  import opened ScreenSpec
  import opened TerminalSpec
  import opened Batching
  import opened EditingTheorems
  import opened TerminalInput

  /** The entry of the table in use that a character is looked up at, one further half up with the meta bit on. */
  function Entry(t: Term, c: CodeUnit): CodeUnit
    requires c < 0x100
  {
    var i := if t.g.toggleMeta && c < 0x80 then c + 0x80 else c;
    match t.g.translate
    case Latin1 => t.env.fonts.latin1[i]
    case Graphics => t.env.fonts.graphics[i]
    case Cp437 => t.env.fonts.cp437[i]
    case DirectToFont => t.env.fonts.direct[i]
  }

  /** A table entry, or a decoded character, that stands for itself. */
  predicate Shape(u: CodeUnit) { !(0xF000 <= u <= 0xF0FF) && u != 0xFEFF && !(0x200A <= u <= 0x200F) }

  /** The characters that are drawn however they come: printable ASCII, and without UTF-8 the upper half from A0 on. */
  predicate Printable(t: Term, c: CodeUnit) { 0x20 <= c <= 0x7E || (!t.u.enabled && 0xA0 <= c <= 0xFF) }

  /** Such a character is drawn as what its table says. */
  lemma CharacterDrawn(t: Term, c: CodeUnit)
    requires TermOk(t) && t.esc == EsNormal && Printable(t, c) && Shape(Entry(t, c))
    ensures Run(t, [c]) == Print(Idle(t), Entry(t, c))
  {
    hide ViewOk, UtfOk, Print, Run;
    RunOne(t, c);
    PrintableFeed(t, c, Entry(t, c));
  }

  lemma PrintableFeed(t: Term, c: CodeUnit, u: CodeUnit)
    requires TermOk(t) && t.esc == EsNormal && (c <= 0x7F || !t.u.enabled) && IsNormal(t, c)
    requires Render(t.env.fonts, t.g.translate, t, c) == Draw(u)
    ensures Feed(t, c) == Print(Idle(t), u)
  {
    hide ViewOk, UtfOk, Print, Leading, ShiftIn, Render, IsNormal;
    assert DecodeState(t, c) == Idle(t) && Decode(t, c) == Char(c);
    SameLook(t, Idle(t), c);
    assert StepExpansion(t, c) == [];
  }

  lemma SameLook(t: Term, u: Term, c: CodeUnit)
    requires u.g == t.g && u.u.enabled == t.u.enabled && u.env == t.env
    ensures IsNormal(u, c) == IsNormal(t, c)
    ensures Render(u.env.fonts, u.g.translate, u, c) == Render(t.env.fonts, t.g.translate, t, c)
  {
  }

  /** An entry from F000 to F0FF is drawn as one of the 256 glyphs of the font. */
  lemma GlyphDrawn(t: Term, c: CodeUnit)
    requires TermOk(t) && t.esc == EsNormal && Printable(t, c) && 0xF000 <= Entry(t, c) <= 0xF0FF
    ensures Run(t, [c]) == Print(Idle(t), Entry(t, c) - 0xF000)
  {
    hide ViewOk, UtfOk, Print, Run;
    RunOne(t, c);
    PrintableFeed(t, c, Entry(t, c) - 0xF000);
  }

  /** The control characters that are drawn, too: those that do nothing, and of the others, where control characters
      are displayed, the ones that it is safe to display. */
  lemma ControlDrawn(t: Term, c: CodeUnit)
    requires TermOk(t) && t.esc == EsNormal && (c < 0x20 || c == 0x7F) && Shape(Entry(t, c))
    requires if t.g.dispCtrl then c !in {0x00, 0x08, 0x0A, 0x0C, 0x0D, 0x0E, 0x0F, 0x1B}
      else c !in {0x00, 0x07, 0x08, 0x09, 0x0A, 0x0B, 0x0C, 0x0D, 0x0E, 0x0F, 0x18, 0x1A, 0x1B, 0x7F}
    ensures Run(t, [c]) == Print(Idle(t), Entry(t, c))
  {
    hide ViewOk, UtfOk, TermOk, Print, Run, IsNormal, Render, Entry;
    ControlIsNormal(t, c);
    RunOne(t, c);
    LookedUp(t, c);
    PrintableFeed(t, c, Entry(t, c));
  }

  lemma ControlIsNormal(t: Term, c: CodeUnit)
    requires c < 0x20 || c == 0x7F
    requires if t.g.dispCtrl then c !in {0x00, 0x08, 0x0A, 0x0C, 0x0D, 0x0E, 0x0F, 0x1B}
      else c !in {0x00, 0x07, 0x08, 0x09, 0x0A, 0x0B, 0x0C, 0x0D, 0x0E, 0x0F, 0x18, 0x1A, 0x1B, 0x7F}
    ensures IsNormal(t, c)
  {
    assert c < 0x20 ==> c % 32 == c;
  }

  lemma LookedUp(t: Term, c: CodeUnit)
    requires c < 0x100 && Shape(Entry(t, c))
    ensures Render(t.env.fonts, t.g.translate, t, c) == Draw(Entry(t, c))
  {
  }

  // ---- Decoded characters ----

  /** A character above the tables, sent as UTF-8: drawn as itself, as a glyph of the font, or, being one of the
      marks without a width, not at all. Beyond 16 bits it is the replacement character. */
  lemma Utf8Shown(t: Term, cp: nat)
    requires TermOk(t) && t.u.enabled && t.esc == EsNormal && 0x100 <= cp < 0x8000_0000
    ensures var r, u := Run(t, Utf8(cp)), t.(u := Utf(true, 0, cp));
      if cp > 0xFFFF then r == Print(u, 0xFFFD)
      else if 0xF000 <= cp <= 0xF0FF then r == Print(u, cp - 0xF000)
      else if cp == 0xFEFF || 0x200A <= cp <= 0x200F then r == u
      else r == Print(u, cp)
  {
    hide ViewOk, Run, Utf8, Print;
    if cp == 0xFEFF || 0x200A <= cp <= 0x200F {
      Utf8Skipped(t, cp);
    } else {
      var u := if cp > 0xFFFF then 0xFFFD else if 0xF000 <= cp <= 0xF0FF then cp - 0xF000 else cp;
      Utf8Draws(t, cp, u);
    }
  }

  lemma Utf8Skipped(t: Term, cp: nat)
    requires TermOk(t) && t.u.enabled && t.esc == EsNormal && (cp == 0xFEFF || 0x200A <= cp <= 0x200F)
    ensures Run(t, Utf8(cp)) == t.(u := Utf(true, 0, cp))
  {
    hide ViewOk, UtfOk, Utf8, Decode, DecodeState, Run;
    Utf8Decodes(t, cp);
    var n := Continuations(cp);
    var before := t.(u := Utf(true, 1, cp / 64));
    assert StepExpansion(before, Utf8(cp)[n]) == [];
  }

  /** And one from 80 to FF is looked up in the table. */
  lemma Utf8LookedUp(t: Term, cp: nat)
    requires TermOk(t) && t.u.enabled && t.esc == EsNormal && 0x80 <= cp <= 0xFF && Shape(Entry(t, cp))
    ensures Run(t, Utf8(cp)) == Print(t.(u := Utf(true, 0, cp)), Entry(t, cp))
  {
    hide ViewOk, UtfOk, Run, Utf8, Print;
    Utf8Draws(t, cp, Entry(t, cp));
  }

  /** A byte that neither continues a character nor begins one is not shown, and ends what was begun. */
  lemma StrayByteIgnored(t: Term, b: CodeUnit)
    requires TermOk(t) && t.u.enabled && 0x80 <= b <= 0xFF && ((b <= 0xBF && t.u.count == 0) || b >= 0xFE)
    ensures Run(t, [b]) == t.(u := t.u.(count := 0))
  {
    hide ViewOk, UtfOk, Run, StepChar, ShiftIn;
    RunOne(t, b);
    assert Leading(b).0 == 0 && !IsContinuation(t, b);
    hide Leading;
    assert Decode(t, b) == Pending;
  }

  // ---- Text ----

  /** The table in use shows printable ASCII as it is. */
  predicate Ascii(t: Term) {
    !t.g.toggleMeta && forall c :: 0x20 <= c <= 0x7E ==> Entry(t, c) == c
  }

  lemma AsciiDrawn(t: Term, c: CodeUnit)
    requires TermOk(t) && t.esc == EsNormal && Ascii(t) && 0x20 <= c <= 0x7E
    ensures Feed(t, c) == Print(Idle(t), c)
  {
    hide ViewOk, UtfOk, Print, Entry, Feed;
    assert Entry(t, c) == c;
    CharacterDrawn(t, c);
    RunOne(t, c);
  }

  lemma PrintStays(t: Term, u: CodeUnit)
    requires TermOk(t)
    ensures var r := Print(t, u); r.esc == t.esc && r.u == t.u && r.g == t.g && r.env == t.env
  {
    hide ViewOk, UtfOk, Put, ScrollView;
  }

  lemma {:induction false} PrintsStay(t: Term, s: seq<CodeUnit>)
    requires TermOk(t)
    ensures var r := Prints(t, s); r.esc == t.esc && r.u == t.u && r.g == t.g && r.env == t.env
  {
    hide ViewOk, UtfOk, Print;
    if s != [] {
      PrintsStay(t, s[..|s| - 1]);
      PrintStays(Prints(t, s[..|s| - 1]), s[|s| - 1]);
    }
  }

  /** Text of printable ASCII is drawn, character by character. */
  lemma {:induction false} TextDrawn(t: Term, s: seq<CodeUnit>)
    requires TermOk(t) && t.esc == EsNormal && Ascii(t) && s != [] && forall i :: 0 <= i < |s| ==> 0x20 <= s[i] <= 0x7E
    ensures Run(t, s) == Prints(Idle(t), s)
  {
    hide ViewOk, UtfOk, Print, Ascii, Feed, Idle;
    var front, c := s[..|s| - 1], s[|s| - 1];
    IdleLook(t);
    if front == [] {
      assert s == [c];
      AsciiDrawn(t, c);
      PrintsLast(Idle(t), s);
      assert Prints(Idle(t), front) == Idle(t);
      RunOne(t, c);
    } else {
      TextDrawn(t, front);
      var u := Prints(Idle(t), front);
      PrintsStay(Idle(t), front);
      SameAscii(t, u);
      AsciiDrawn(u, c);
      RunLast(t, s);
      IdleCarries(t, u);
      PrintsLast(Idle(t), s);
    }
  }

  lemma IdleCarries(t: Term, u: Term)
    requires TermOk(t) && TermOk(u) && u.u == Idle(t).u
    ensures Idle(u) == u
  {
    hide ViewOk, UtfOk;
  }

  lemma PrintsLast(t: Term, s: seq<CodeUnit>)
    requires TermOk(t) && s != []
    ensures Prints(t, s) == Print(Prints(t, s[..|s| - 1]), s[|s| - 1])
  {
    hide ViewOk, UtfOk, Print;
  }

  lemma IdleLook(t: Term)
    requires TermOk(t)
    ensures var u := Idle(t); u.esc == t.esc && u.g == t.g && u.env == t.env && Idle(u) == u && u.u == Idle(u).u
  {
    hide ViewOk, UtfOk;
  }

  lemma SameAscii(t: Term, u: Term)
    requires Ascii(t) && u.g == t.g && u.env == t.env
    ensures Ascii(u)
  {
    assert forall c: CodeUnit :: c < 0x100 ==> Entry(u, c) == Entry(t, c);
  }

  /** Text that fits on the rest of the line replaces the cells it covers, with the cursor behind it. */
  lemma TextTyped(t: Term, s: seq<CodeUnit>)
    requires TermOk(t) && t.esc == EsNormal && Ascii(t) && s != [] && forall i :: 0 <= i < |s| ==> 0x20 <= s[i] <= 0x7E
    requires !t.m.insert && !t.needWrap && t.v.x + |s| <= t.v.width
    ensures Run(t, s) == Typed(Idle(t), s)
  {
    hide ViewOk, UtfOk, Run, Prints, Typed, Ascii;
    TextDrawn(t, s);
    TextInLine(Idle(t), s);
  }

  /** Its cells, one by one: the text in the colours of the pen, from the cursor on; everything else as it was. */
  lemma TextCells(t: Term, s: seq<CodeUnit>, i: nat, j: nat)
    requires TermOk(t) && t.esc == EsNormal && Ascii(t) && s != [] && forall k :: 0 <= k < |s| ==> 0x20 <= s[k] <= 0x7E
    requires !t.m.insert && !t.needWrap && t.v.x + |s| <= t.v.width && i < |t.v.lines| && j < t.v.width
    ensures var r := Run(t, s);
      && |r.v.lines| == |t.v.lines| && |r.v.lines[i]| == t.v.width
      && r.v.lines[i][j] == (
        if i == t.v.Scrollback() + t.v.y && t.v.x <= j < t.v.x + |s|
          then Cell(s[j - t.v.x], Look(t.pen.color), t.pen.style)
        else t.v.lines[i][j])
      && r.v.x == Min(t.v.x + |s|, t.v.width - 1) && r.v.y == t.v.y
      && r.needWrap == (t.v.x + |s| == t.v.width && t.m.autoWrap)
  {
    hide ViewOk, UtfOk, Run, Ascii;
    TextTyped(t, s);
    TypedCells(Idle(t), s, i, j);
  }

  lemma TypedCells(t: Term, s: seq<CodeUnit>, i: nat, j: nat)
    requires TermOk(t) && s != [] && forall k :: 0 <= k < |s| ==> 0x20 <= s[k] <= 0x7E
    requires t.v.x + |s| <= t.v.width && i < |t.v.lines| && j < t.v.width
    ensures var r := Typed(t, s);
      && |r.v.lines| == |t.v.lines| && |r.v.lines[i]| == t.v.width
      && r.v.lines[i][j] == (
        if i == t.v.Scrollback() + t.v.y && t.v.x <= j < t.v.x + |s|
          then Cell(s[j - t.v.x], Look(t.pen.color), t.pen.style)
        else t.v.lines[i][j])
  {
    hide UtfOk;
  }

  /** On a new terminal whose first table shows ASCII as it is, for one: what is typed is what is seen. */
  lemma NewTerminalShows(width: nat, height: nat, fonts: Fonts, utf: bool, s: seq<CodeUnit>, j: nat)
    requires 0 < height && s != [] && |s| <= width && j < |s| && forall k :: 0 <= k < |s| ==> 0x20 <= s[k] <= 0x7E
    requires forall c :: 0x20 <= c <= 0x7E ==> fonts.latin1[c] == c
    ensures var r := Run(Initial(width, height, fonts, utf), s);
      |r.v.lines| > 0 && |r.v.lines[0]| == width && r.v.lines[0][j] == Cell(s[j], DEFAULT_COLOR, Plain)
  {
    hide ViewOk, UtfOk, Run;
    var t := Initial(width, height, fonts, utf);
    TextCells(t, s, 0, j);
  }
}
