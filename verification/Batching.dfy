// Why collecting printable characters and writing them in one go shows the same as writing them one
// by one, why expansions never expand again, and why a string may be cut anywhere.
module Batching {
  import opened Cells
  import opened ScreenSpec
  import opened TerminalSpec

  // ---- Writing collected characters ----

  /** VT100.renderString's cut: of a text that runs over the last column, the first n - 1 characters and
      the very last one are written, n being the room that is left. */
  function Cut(text: seq<CodeUnit>, room: nat): (r: seq<CodeUnit>)
    requires 0 < room
    ensures |r| == Min(|text|, room)
  {
    if |text| <= room then text else text[..room - 1] + [text[|text| - 1]]
  }

  /** The terminal after the collected characters are written. */
  function Flush(t: Term, lineBuf: seq<CodeUnit>): (r: Term)
    requires TermOk(t)
    ensures TermOk(r)
  {
    if lineBuf == [] then t
    else t.(v := Put(t.v, t.v.x, t.v.y, Cut(lineBuf, t.v.width - t.v.x), t.pen.color, t.pen.style))
  }

  lemma PaintSnoc(text: seq<CodeUnit>, u: CodeUnit, color: Color, style: Style)
    ensures Paint(text + [u], color, style) == Paint(text, color, style) + Paint([u], color, style)
  {
  }

  /** Writing over the last column once more replaces the last cell. */
  lemma OverwriteLast(line: Line, x: nat, front: seq<Cell>, a: seq<Cell>, b: seq<Cell>)
    requires |a| == |b| == 1 && x + |front| + 1 == |line|
    ensures Overwrite(Overwrite(line, x, front + a), |line| - 1, b) == Overwrite(line, x, front + b)
  {
    var once := Overwrite(line, x, front + a);
    assert once == line[..x] + front + a;
    assert once[..|line| - 1] == line[..x] + front;
    assert Overwrite(line, x, front + b) == line[..x] + front + b;
  }

  lemma PutLast(lines: seq<Line>, row: nat, x: nat, front: seq<Cell>, a: seq<Cell>, b: seq<Cell>)
    requires row < |lines| && |a| == |b| == 1 && x + |front| + 1 == |lines[row]|
    ensures PutCells(PutCells(lines, row, x, front + a), row, |lines[row]| - 1, b) == PutCells(lines, row, x, front + b)
  {
    OverwriteLast(lines[row], x, front, a, b);
    hide Overwrite;
  }

  /** Writing a cut text and then one more character, at the place where the cursor then is, is writing
      the longer text, cut. */
  lemma PutSnoc(v: View, text: seq<CodeUnit>, u: CodeUnit, color: Color, style: Style)
    requires ViewOk(v) && text != []
    ensures var room := v.width - v.x;
      var w := Put(v, v.x, v.y, Cut(text, room), color, style);
      Put(w, w.x, w.y, [u], color, style) == Put(v, v.x, v.y, Cut(text + [u], room), color, style)
  {
    hide PutCells, Paint, LinesOk;
    var room := v.width - v.x;
    var row := v.Scrollback() + v.y;
    assert |v.lines[row]| == v.width by {
      LineWidth(v.lines, v.width, row);
    }
    var w := Put(v, v.x, v.y, Cut(text, room), color, style);
    if |text| < room {
      PaintSnoc(text, u, color, style);
      PutCellsAppend(v.lines, row, v.x, Paint(text, color, style), Paint([u], color, style));
    } else {
      var front := text[..room - 1];
      var last := if |text| == room then text[room - 1] else text[|text| - 1];
      assert Cut(text, room) == front + [last];
      assert Cut(text + [u], room) == front + [u];
      PaintSnoc(front, last, color, style);
      PaintSnoc(front, u, color, style);
      PutLast(v.lines, row, v.x, Paint(front, color, style), Paint([last], color, style), Paint([u], color, style));
    }
  }

  /** What VT100.vt100 does to its other fields when it collects one more character. */
  function Collected(t: Term, count: nat, u: CodeUnit): (r: Term)
    requires TermOk(t)
    ensures TermOk(r)
  {
    hide ViewOk, UtfOk;
    t.(lastChar := u, needWrap := if t.v.x + count >= t.v.width then t.m.autoWrap else t.needWrap)
  }

  /** Collecting one more character and writing all of them is writing all but that one and then that one. */
  lemma FlushSnoc(t: Term, lineBuf: seq<CodeUnit>, u: CodeUnit)
    requires TermOk(t)
    ensures Flush(Collected(t, |lineBuf| + 1, u), lineBuf + [u]) == PutChar(Flush(t, lineBuf), u)
  {
    hide ViewOk, UtfOk, Put, Cut;
    assert lineBuf + [u] != [];
    if lineBuf == [] {
      assert lineBuf + [u] == [u] == Cut([u], t.v.width - t.v.x) by {
        CutOne(t.v, u);
      }
    } else {
      PutSnoc(t.v, lineBuf, u, t.pen.color, t.pen.style);
      FlushCursor(t, lineBuf);
    }
  }

  lemma CutOne(v: View, u: CodeUnit)
    requires ViewOk(v)
    ensures Cut([u], v.width - v.x) == [u]
  {
  }

  lemma FlushNothing(t: Term)
    requires TermOk(t)
    ensures Flush(t, []) == t
  {
  }

  lemma FlushKeeps(t: Term, lineBuf: seq<CodeUnit>)
    requires TermOk(t)
    ensures Flush(t, lineBuf).needWrap == t.needWrap && Flush(t, lineBuf).m == t.m
  {
    hide ViewOk, UtfOk, Put;
  }

  lemma FlushCursor(t: Term, lineBuf: seq<CodeUnit>)
    requires TermOk(t) && lineBuf != []
    ensures Flush(t, lineBuf).v.x == Min(t.v.x + |lineBuf|, t.v.width - 1) && Flush(t, lineBuf).v.width == t.v.width
  {
  }

  /** Writing the collected characters is independent of the decoder and of what a character is. */
  lemma FlushDecode(t: Term, lineBuf: seq<CodeUnit>, ch: CodeUnit)
    requires TermOk(t)
    ensures Decode(Flush(t, lineBuf), ch) == Decode(t, ch)
    ensures DecodeState(Flush(t, lineBuf), ch) == Flush(DecodeState(t, ch), lineBuf)
  {
    hide ViewOk, UtfOk, Put, ShiftIn, Leading;
  }

  lemma FlushPrinted(t: Term, lineBuf: seq<CodeUnit>, ch: CodeUnit)
    requires TermOk(t)
    ensures IsPrinted(Flush(t, lineBuf), ch) == IsPrinted(t, ch)
    ensures Render(t.env.fonts, t.g.translate, Flush(t, lineBuf), ch) == Render(t.env.fonts, t.g.translate, t, ch)
    ensures Flush(t, lineBuf).g == t.g && Flush(t, lineBuf).env == t.env
  {
    hide ViewOk, UtfOk, Put;
  }

  // ---- Expansions ----

  /** A terminal for which a run of the character c never completes an escape sequence. */
  ghost predicate Inert(t: Term, c: CodeUnit) {
    && (t.esc == EsNormal || t.esc == Announced(c))
    && (t.u.enabled && c > 0x7F ==> t.u.count == 0 || (c % 256) / 64 != 2)
  }

  lemma LeadingNotContinuation(c: CodeUnit)
    ensures Leading(c).0 > 0 ==> (c % 256) / 64 == 3
  {
  }

  lemma PrintKeepsParser(t: Term, u: CodeUnit)
    requires TermOk(t)
    ensures Print(t, u).esc == t.esc && Print(t, u).u == t.u
  {
    hide ViewOk, UtfOk, Put, ScrollView;
  }

  lemma ControlCharParser(t: Term, c: CodeUnit)
    requires TermOk(t) && IsControl(t, c) && (t.esc == EsNormal || t.esc == Announced(c))
    ensures ControlChar(t, c).u == t.u
    ensures ControlChar(t, c).esc == EsNormal || ControlChar(t, c).esc == Announced(c)
  {
    hide ViewOk, UtfOk, Put, ScrollView, TabsRight;
    ReverseFeedsParser(t, LineCount(t, 1));
  }

  lemma {:induction false} ReverseFeedsParser(t: Term, n: nat)
    requires TermOk(t)
    ensures ReverseFeeds(t, n).esc == t.esc && ReverseFeeds(t, n).u == t.u
  {
    hide ViewOk, UtfOk, ScrollView;
    if n > 0 {
      ReverseFeedsParser(t, n - 1);
    }
  }

  /** A step of such a run expands to nothing and leads to such a terminal again. */
  lemma InertStep(t: Term, c: CodeUnit)
    requires TermOk(t) && Inert(t, c)
    ensures StepExpansion(t, c) == [] && Inert(Step(t, c), c)
  {
    hide ViewOk, UtfOk, Leading, ShiftIn, Print, Control, Render, Expansion;
    LeadingNotContinuation(c);
    if t.u.enabled && c > 0x7F {
      assert Decode(t, c) == Pending;
    } else {
      InertChar(DecodeState(t, c), c);
    }
  }

  lemma InertChar(t: Term, c: CodeUnit)
    requires TermOk(t) && (t.esc == EsNormal || t.esc == Announced(c))
    ensures !IsPrinted(t, c) ==> Expansion(t, c) == []
    ensures StepChar(t, c).u == t.u && (StepChar(t, c).esc == EsNormal || StepChar(t, c).esc == Announced(c))
  {
    hide ViewOk, UtfOk, Print, ControlChar, Render, IsNormal, Shifted, EscEsc, EscSquare, EscShift;
    if IsPrinted(t, c) {
      match Render(t.env.fonts, t.g.translate, t, c)
      case Skip =>
      case Draw(u) => PrintKeepsParser(t, u);
    } else if IsControl(t, c) {
      ControlCharParser(t, c);
    } else {
      assert t.esc == EsNormal;
    }
  }

  lemma {:induction false} InertRun(t: Term, c: CodeUnit, n: nat)
    requires TermOk(t) && Inert(t, c)
    ensures Inert(Steps(t, Copies(c, n)), c)
  {
    hide ViewOk, UtfOk, Step, Inert;
    if n > 0 {
      assert Copies(c, n)[..n - 1] == Copies(c, n - 1);
      InertRun(t, c, n - 1);
      InertStep(Steps(t, Copies(c, n - 1)), c);
    }
  }

  /** No part of the string expands to anything. */
  ghost predicate Quiet(t: Term, s: seq<CodeUnit>)
    requires TermOk(t)
  {
    forall i :: 0 <= i < |s| ==> StepExpansion(Run(t, s[..i]), s[i]) == []
  }

  lemma {:induction false} QuietRun(t: Term, s: seq<CodeUnit>)
    requires TermOk(t) && forall i :: 0 <= i < |s| ==> StepExpansion(Steps(t, s[..i]), s[i]) == []
    ensures Run(t, s) == Steps(t, s) && RunReply(t, s) == StepsReply(t, s)
  {
    hide ViewOk, UtfOk, Step, StepReply, StepExpansion;
    if s != [] {
      var front := s[..|s| - 1];
      forall i | 0 <= i < |front| ensures StepExpansion(Steps(t, front[..i]), front[i]) == [] {
        assert front[..i] == s[..i];
      }
      QuietRun(t, front);
    }
  }

  /** What an expansion consists of: copies of one character, fed to a terminal outside of any escape
      sequence and of any multi-byte character. */
  lemma ExpansionIsCopies(t: Term, ch: CodeUnit) returns (c: CodeUnit, n: nat)
    requires TermOk(t) && StepExpansion(t, ch) != []
    ensures StepExpansion(t, ch) == Copies(c, n) && Inert(Step(t, ch), c)
  {
    hide ViewOk, UtfOk, ShiftIn, Leading, Render, IsNormal, EscSetG, EscEsc, CsiMove, CsiEdit;
    var d := DecodeState(t, ch);
    var u := Decode(t, ch).ch;
    assert d.u.enabled ==> d.u.count == 0;
    if d.esc == EsSS2 || d.esc == EsSS3 {
      c, n := Shifted(d, if d.esc == EsSS2 then 2 else 3, u).u, 1;
      OneCopy(c);
    } else if d.esc == EsSquare {
      c, n := d.lastChar, 1;
      OneCopy(c);
    } else {
      c, n := d.lastChar, RepeatCount(d);
    }
  }

  /** The string that a control character expands to never expands again: vt100's recursion is one level deep. */
  lemma ExpansionsAreQuiet(t: Term, ch: CodeUnit)
    requires TermOk(t)
    ensures forall i :: 0 <= i < |StepExpansion(t, ch)| ==>
      StepExpansion(Steps(Step(t, ch), StepExpansion(t, ch)[..i]), StepExpansion(t, ch)[i]) == []
    ensures Quiet(Step(t, ch), StepExpansion(t, ch))
    ensures Run(Step(t, ch), StepExpansion(t, ch)) == Steps(Step(t, ch), StepExpansion(t, ch))
    ensures RunReply(Step(t, ch), StepExpansion(t, ch)) == StepsReply(Step(t, ch), StepExpansion(t, ch))
  {
    hide ViewOk, UtfOk, Step, StepReply, StepExpansion, Inert;
    var t1, s := Step(t, ch), StepExpansion(t, ch);
    if s != [] {
      var c, n := ExpansionIsCopies(t, ch);
      forall i | 0 <= i < |s| ensures StepExpansion(Steps(t1, s[..i]), s[i]) == [] {
        assert s[..i] == Copies(c, i) && s[i] == c;
        InertRun(t1, c, i);
        InertStep(Steps(t1, s[..i]), c);
      }
      forall i | 0 <= i < |s| ensures StepExpansion(Run(t1, s[..i]), s[i]) == [] {
        forall k | 0 <= k < i ensures StepExpansion(Steps(t1, s[..i][..k]), s[..i][k]) == [] {
          assert s[..i][..k] == s[..k];
        }
        QuietRun(t1, s[..i]);
      }
    }
    QuietRun(t1, s);
  }

  lemma RunNothing(t: Term)
    requires TermOk(t)
    ensures Run(t, []) == t && RunReply(t, []) == []
  {
  }

  lemma RunOneMore(t: Term, s: seq<CodeUnit>, i: nat)
    requires TermOk(t) && i < |s|
    ensures var before := Run(t, s[..i]);
      && Run(t, s[..i + 1]) == Steps(Step(before, s[i]), StepExpansion(before, s[i]))
      && RunReply(t, s[..i + 1]) == RunReply(t, s[..i]) + StepReply(before, s[i])
        + StepsReply(Step(before, s[i]), StepExpansion(before, s[i]))
      && (StepExpansion(before, s[i]) == [] ==>
        && Run(t, s[..i + 1]) == Step(before, s[i])
        && RunReply(t, s[..i + 1]) == RunReply(t, s[..i]) + StepReply(before, s[i]))
      && (StepExpansion(before, s[i]) != [] ==> !Quiet(t, s))
  {
    hide ViewOk, UtfOk, Step, StepReply, StepExpansion;
    assert s[..i + 1][..i] == s[..i];
  }

  // ---- Cutting strings ----

  /** Feeding a string in two pieces is feeding it whole, wherever the cut is: also inside an escape sequence
      or inside a multi-byte character. The answers to the host are those to the pieces, one after the other. */
  lemma {:induction false} ChunkIndependence(t: Term, s1: seq<CodeUnit>, s2: seq<CodeUnit>)
    requires TermOk(t)
    ensures Run(t, s1 + s2) == Run(Run(t, s1), s2)
    ensures RunReply(t, s1 + s2) == RunReply(t, s1) + RunReply(Run(t, s1), s2)
  {
    hide ViewOk, UtfOk, Feed, FeedReply;
    if s2 == [] {
      assert s1 + s2 == s1;
    } else {
      var front, last := s2[..|s2| - 1], s2[|s2| - 1];
      assert (s1 + s2)[..|s1 + s2| - 1] == s1 + front && (s1 + s2)[|s1 + s2| - 1] == last;
      ChunkIndependence(t, s1, front);
    }
  }
}
