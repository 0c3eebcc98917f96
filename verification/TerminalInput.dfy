// What strings from the host mean: encoded characters, control sequences with their decimal parameters, the
// answer to a cursor position request fed back, and tabulators.
module TerminalInput {
  import opened Cells
  import opened ScreenSpec
  import opened TerminalSpec
  import opened Batching

  // ---- UTF-8 ----

  /** The number of continuation bytes of a code point, up to 31 bits. */
  function Continuations(cp: nat): (n: nat)
    ensures n <= 5
  {
    if cp < 0x80 then 0 else if cp < 0x800 then 1 else if cp < 0x1_0000 then 2
    else if cp < 0x20_0000 then 3 else if cp < 0x400_0000 then 4 else 5
  }

  /** What is left of a code point without its low 6 * n bits. */
  function High(cp: nat, n: nat): nat {
    if n == 0 then cp else High(cp / 64, n - 1)
  }

  /** The n continuation bytes for the low 6 * n bits. */
  function LowBytes(cp: nat, n: nat): (r: seq<CodeUnit>)
    ensures |r| == n
  {
    if n == 0 then [] else LowBytes(cp / 64, n - 1) + [0x80 + cp % 64]
  }

  function LeadByte(n: nat, bits: nat): (b: CodeUnit)
    requires 1 <= n <= 5 && bits < [0, 32, 16, 8, 4, 2][n]
    ensures 0xC0 <= b < 0xFE
  {
    [0, 0xC0, 0xE0, 0xF0, 0xF8, 0xFC][n] + bits
  }

  lemma LeadFits(cp: nat)
    requires 0x80 <= cp < 0x8000_0000
    ensures var n := Continuations(cp); High(cp, n) < [0, 32, 16, 8, 4, 2][n]
  {
    var n := Continuations(cp);
    if n == 1 {
      assert High(cp, 1) == High(cp / 64, 0) == cp / 64;
    } else if n == 2 {
      assert High(cp, 2) == High(cp / 64, 1) == High(cp / 64 / 64, 0);
    } else if n == 3 {
      assert High(cp, 3) == High(cp / 64, 2) == High(cp / 64 / 64, 1) == High(cp / 64 / 64 / 64, 0);
    } else if n == 4 {
      assert High(cp, 4) == High(cp / 64, 3) == High(cp / 64 / 64, 2) == High(cp / 64 / 64 / 64, 1)
        == High(cp / 64 / 64 / 64 / 64, 0);
    } else {
      assert High(cp, 5) == High(cp / 64, 4) == High(cp / 64 / 64, 3) == High(cp / 64 / 64 / 64, 2)
        == High(cp / 64 / 64 / 64 / 64, 1)
          == High(cp / 64 / 64 / 64 / 64 / 64, 0);
    }
  }

  /** The UTF-8 form of a code point that is not ASCII (RFC 3629 section 3, and the longer forms before it). */
  function Utf8(cp: nat): (s: seq<CodeUnit>)
    requires 0x80 <= cp < 0x8000_0000
    ensures |s| == Continuations(cp) + 1
  {
    LeadFits(cp);
    var n := Continuations(cp);
    [LeadByte(n, High(cp, n))] + LowBytes(cp, n)
  }

  lemma LeadByteLeads(n: nat, bits: nat)
    requires 1 <= n <= 5 && bits < [0, 32, 16, 8, 4, 2][n]
    ensures var b := LeadByte(n, bits); Leading(b) == (n, bits) && (b % 256) / 64 == 3
  {
    if n == 1 {
      assert LeadByte(n, bits) == 0xC0 + bits;
    } else if n == 2 {
      assert LeadByte(n, bits) == 0xE0 + bits;
    } else if n == 3 {
      assert LeadByte(n, bits) == 0xF0 + bits;
    } else if n == 4 {
      assert LeadByte(n, bits) == 0xF8 + bits;
    } else {
      assert LeadByte(n, bits) == 0xFC + bits;
    }
  }

  lemma LeadStep(t: Term, n: nat, bits: nat)
    requires TermOk(t) && t.u.enabled && 1 <= n <= 5 && bits < [0, 32, 16, 8, 4, 2][n]
    ensures Run(t, [LeadByte(n, bits)]) == t.(u := Utf(true, n, bits))
  {
    hide ViewOk, UtfOk, Run, LeadByte;
    var b := LeadByte(n, bits);
    LeadByteLeads(n, bits);
    RunOne(t, b);
    LeadingByteFeed(t, b);
  }

  lemma LeadingByteFeed(t: Term, b: CodeUnit)
    requires TermOk(t) && t.u.enabled && b > 0x7F && Leading(b).0 > 0 && (b % 256) / 64 == 3
    ensures Feed(t, b) == t.(u := Utf(true, Leading(b).0, Leading(b).1))
  {
    hide ViewOk, UtfOk, StepChar, Leading;
    assert Decode(t, b) == Pending;
  }

  lemma ContinuationStep(t: Term, low: nat)
    requires TermOk(t) && t.u.enabled && t.u.count > 1 && low < 64
    ensures Feed(t, 0x80 + low) == t.(u := Utf(true, t.u.count - 1, t.u.bits * 64 + low))
  {
    hide ViewOk, StepChar;
    var b := 0x80 + low;
    assert IsContinuation(t, b) && b % 64 == low;
    ShiftInOk(t.u.count, t.u.bits, low);
    hide UtfOk, ShiftIn;
    assert Decode(t, b) == Pending;
  }

  lemma NoLowBytes(c: nat, lead: seq<CodeUnit>)
    ensures lead + LowBytes(c, 0) == lead
  {
  }

  lemma LowBytesSnoc(c: nat, j: nat, lead: seq<CodeUnit>)
    requires j > 0
    ensures lead + LowBytes(c, j) == lead + LowBytes(c / 64, j - 1) + [0x80 + c % 64]
    ensures High(c, j) == High(c / 64, j - 1)
  {
  }

  /** From any state of the decoder, after the leading byte and j of n continuation bytes it holds the bits
      that these carry. */
  lemma {:induction false} PartialDecode(t: Term, c: nat, n: nat, j: nat)
    requires TermOk(t) && t.u.enabled && 1 <= n <= 5 && j < n && High(c, j) < [0, 32, 16, 8, 4, 2][n]
    ensures Run(t, [LeadByte(n, High(c, j))] + LowBytes(c, j)) == t.(u := Utf(true, n - j, c))
  {
    hide ViewOk, UtfOk, LeadByte, Feed, Run, LowBytes, TermOk;
    var lead := [LeadByte(n, High(c, j))];
    if j == 0 {
      LeadStep(t, n, c);
      NoLowBytes(c, lead);
    } else {
      PartialDecode(t, c / 64, n, j - 1);
      var front := lead + LowBytes(c / 64, j - 1);
      LowBytesSnoc(c, j, lead);
      RunSnoc(t, front, 0x80 + c % 64);
      ContinuationStep(Run(t, front), c % 64);
    }
  }

  /** The bytes of a character, whatever the decoder was in the middle of, are decoded to that character, or
      to the replacement character when it needs more than 16 bits; before the last byte nothing happens. */
  lemma Utf8Decodes(t: Term, cp: nat)
    requires TermOk(t) && t.u.enabled && 0x80 <= cp < 0x8000_0000
    ensures var n, s := Continuations(cp), Utf8(cp);
      var before := t.(u := Utf(true, 1, cp / 64));
      && (forall i :: 0 < i <= n ==> exists c, k :: Run(t, s[..i]) == t.(u := Utf(true, k, c)))
      && Run(t, s[..n]) == before && Run(t, s) == Feed(before, s[n])
      && Decode(before, s[n]) == Char(if cp > 0xFFFF then 0xFFFD else cp)
      && DecodeState(before, s[n]) == t.(u := Utf(true, 0, cp))
  {
    hide ViewOk, LeadByte, Feed, Leading, Run;
    var n, s := Continuations(cp), Utf8(cp);
    forall i | 0 < i <= n ensures Run(t, s[..i]) == t.(u := Utf(true, n - i + 1, High(cp, n - i + 1))) {
      BeforeLastByte(t, cp, i);
    }
    assert Run(t, s[..n]) == t.(u := Utf(true, 1, High(cp, 1)));
    assert High(cp, 1) == High(cp / 64, 0) == cp / 64;
    LastByte(t, cp);
    RunLast(t, s);
  }

  lemma RunLast(t: Term, s: seq<CodeUnit>)
    requires TermOk(t) && s != []
    ensures Run(t, s) == Feed(Run(t, s[..|s| - 1]), s[|s| - 1])
  {
  }

  lemma BeforeLastByte(t: Term, cp: nat, i: nat)
    requires TermOk(t) && t.u.enabled && 0x80 <= cp < 0x8000_0000 && 0 < i <= Continuations(cp)
    ensures var k := Continuations(cp) - i + 1;
      Run(t, Utf8(cp)[..i]) == t.(u := Utf(true, k, High(cp, k)))
  {
    hide ViewOk, UtfOk, LeadByte, Run;
    LeadFits(cp);
    var n := Continuations(cp);
    PrefixOfUtf8(cp, n, n - i + 1);
    PartialDecode(t, High(cp, n - i + 1), n, i - 1);
    assert Utf8(cp)[..i] == [LeadByte(n, High(cp, n))] + LowBytes(cp, n)[..i - 1];
  }

  lemma LastByte(t: Term, cp: nat)
    requires TermOk(t) && t.u.enabled && 0x80 <= cp < 0x8000_0000 && UtfOk(1, cp / 64)
    ensures var before, b := t.(u := Utf(true, 1, cp / 64)), Utf8(cp)[Continuations(cp)];
      && Decode(before, b) == Char(if cp > 0xFFFF then 0xFFFD else cp)
      && DecodeState(before, b) == t.(u := Utf(true, 0, cp))
  {
    hide ViewOk, LeadByte, Leading;
    ShiftInOk(1, cp / 64, cp % 64);
    assert Utf8(cp)[Continuations(cp)] == 0x80 + cp % 64;
    hide UtfOk, ShiftIn;
  }

  /** Dropping the last k continuation bytes is encoding the code point without its low 6 * k bits. */
  lemma {:induction false} PrefixOfUtf8(cp: nat, n: nat, k: nat)
    requires k <= n
    ensures High(High(cp, k), n - k) == High(cp, n) && LowBytes(High(cp, k), n - k) == LowBytes(cp, n)[..n - k]
  {
    if k > 0 {
      PrefixOfUtf8(cp / 64, n - 1, k - 1);
    }
  }

  /** So a character that is printable is drawn. */
  lemma Utf8Draws(t: Term, cp: nat, u: CodeUnit)
    requires TermOk(t) && t.u.enabled && t.esc == EsNormal && 0x80 <= cp < 0x8000_0000
    requires Render(t.env.fonts, t.g.translate, t, if cp > 0xFFFF then 0xFFFD else cp) == Draw(u)
    ensures Run(t, Utf8(cp)) == Print(t.(u := Utf(true, 0, cp)), u)
  {
    hide ViewOk, UtfOk, Utf8, Print, Decode, DecodeState;
    Utf8Decodes(t, cp);
    var n := Continuations(cp);
    var before := t.(u := Utf(true, 1, cp / 64));
    assert StepExpansion(before, Utf8(cp)[n]) == [];
  }

  // ---- Control sequences ----

  /** An ASCII character ends whatever multi-byte character was begun. */
  function Idle(t: Term): (r: Term)
    requires TermOk(t)
    ensures TermOk(r)
  {
    hide ViewOk;
    if t.u.enabled then t.(u := t.u.(count := 0)) else t
  }

  function Decimal(n: nat): (s: seq<CodeUnit>)
    ensures s != [] && forall i :: 0 <= i < |s| ==> 0x30 <= s[i] <= 0x39
  {
    if n < 10 then [0x30 + n] else Decimal(n / 10) + [0x30 + n % 10]
  }

  /** Parameters as they are written, with semicolons between them. */
  function Written(ps: seq<nat>): (s: seq<CodeUnit>)
    requires ps != []
    ensures s != [] && 0x30 <= s[0] <= 0x39
  {
    if |ps| == 1 then Decimal(ps[0]) else Written(ps[..|ps| - 1]) + [0x3B] + Decimal(ps[|ps| - 1])
  }

  /** The parameters that the parser then holds. */
  function Given(ps: seq<nat>): map<int, nat> {
    if ps == [] then Zeros(16) else Given(ps[..|ps| - 1])[|ps| - 1 := ps[|ps| - 1]]
  }

  lemma {:induction false} GivenAt(ps: seq<nat>, i: nat)
    ensures i < |ps| ==> i in Given(ps) && Given(ps)[i] == ps[i]
    ensures i >= |ps| && i in Given(ps) ==> Given(ps)[i] == 0
  {
    if ps != [] {
      GivenAt(ps[..|ps| - 1], i);
    } else {
      ZeroOrAbsent(16, i);
    }
  }

  lemma ZeroOrAbsent(n: nat, i: nat)
    ensures i in Zeros(n) ==> Zeros(n)[i] == 0
  {
  }

  function WithPar(t: Term, n: nat): (r: Term)
    requires TermOk(t)
    ensures TermOk(r)
  {
    hide ViewOk, UtfOk;
    t.(p := t.p.(par := t.p.par[t.p.npar := n]))
  }

  /** An ASCII character that is not printed and does not expand. */
  lemma AsciiFeed(t: Term, ch: CodeUnit)
    requires TermOk(t) && ch <= 0x7F && !IsPrinted(Idle(t), ch) && Expansion(Idle(t), ch) == []
    ensures Feed(t, ch) == Control(Idle(t), ch)
  {
    hide ViewOk, UtfOk, Leading, ShiftIn, Control, Expansion, IsPrinted, Render;
    assert DecodeState(t, ch) == Idle(t);
    assert Decode(t, ch) == Char(ch);
    assert StepExpansion(t, ch) == [];
  }

  lemma ParserStep(t: Term, ch: CodeUnit)
    requires TermOk(t) && t.esc == EsGetPars && (0x30 <= ch <= 0x39 || ch == 0x3B)
    ensures Feed(t, ch) == if ch == 0x3B then Idle(t).(p := t.p.(npar := t.p.npar + 1))
      else WithPar(Idle(t), 10 * Par(t, t.p.npar) + (ch - 0x30))
  {
    hide ViewOk, UtfOk, EscGotPars, Feed;
    AsciiFeed(t, ch);
  }

  /** The digits of a number set the current parameter to it. */
  lemma {:induction false} DigitsRead(t: Term, n: nat)
    requires TermOk(t) && t.esc == EsGetPars && Par(t, t.p.npar) == 0
    ensures Run(t, Decimal(n)) == WithPar(Idle(t), n)
  {
    hide ViewOk, UtfOk, Feed, Run, Decimal, WithPar, Idle, Par;
    DecimalSnoc(n);
    if n < 10 {
      RunOne(t, 0x30 + n);
      DigitStep(t, n);
    } else {
      DigitsRead(t, n / 10);
      RunSnoc(t, Decimal(n / 10), 0x30 + n % 10);
      MoreDigits(t, n / 10, n % 10);
    }
  }

  lemma DecimalSnoc(n: nat)
    ensures Decimal(n) == if n < 10 then [0x30 + n] else Decimal(n / 10) + [0x30 + n % 10]
  {
  }

  lemma RunSnoc(t: Term, s: seq<CodeUnit>, ch: CodeUnit)
    requires TermOk(t)
    ensures Run(t, s + [ch]) == Feed(Run(t, s), ch)
  {
    hide ViewOk, UtfOk, Feed;
    assert (s + [ch])[..|s|] == s;
  }

  lemma DigitStep(t: Term, d: nat)
    requires TermOk(t) && t.esc == EsGetPars && Par(t, t.p.npar) == 0 && d < 10
    ensures Feed(t, 0x30 + d) == WithPar(Idle(t), d)
  {
    hide ViewOk, UtfOk, Feed;
    ParserStep(t, 0x30 + d);
  }

  lemma MoreDigits(t: Term, n: nat, d: nat)
    requires TermOk(t) && t.esc == EsGetPars && d < 10
    ensures Feed(WithPar(Idle(t), n), 0x30 + d) == WithPar(Idle(t), 10 * n + d)
  {
    hide ViewOk, UtfOk, Feed;
    var u := WithPar(Idle(t), n);
    ParserStep(u, 0x30 + d);
    assert u.p.par[u.p.npar := 10 * n + d] == t.p.par[t.p.npar := 10 * n + d];
  }

  function Reading(t: Term, ps: seq<nat>): (r: Term)
    requires TermOk(t) && ps != []
    ensures TermOk(r)
  {
    hide ViewOk, UtfOk;
    Idle(t).(esc := EsGetPars, p := Params(|ps| - 1, Given(ps), false))
  }

  /** The state from which a first digit does the same as from the state behind "ESC [". */
  function Opened(t: Term): (r: Term)
    requires TermOk(t)
    ensures TermOk(r)
  {
    hide ViewOk, UtfOk;
    Idle(t).(esc := EsGetPars, p := Params(0, Zeros(16), false))
  }

  lemma EscapeFeed(t: Term)
    requires TermOk(t)
    ensures Feed(t, 0x1B) == Idle(t).(esc := EsEsc)
  {
    hide ViewOk, UtfOk, Feed, Bs, Cr, Ht, Ri, LineFeed, SetTab;
    AsciiFeed(t, 0x1B);
  }

  lemma BracketFeed(t: Term)
    requires TermOk(t)
    ensures Feed(t.(esc := EsEsc), 0x5B) == Idle(t).(esc := EsSquare)
  {
    hide ViewOk, UtfOk, Feed, Cr, Ri, LineFeed, SetTab, SaveCursor, RestoreCursor, Reset;
    AsciiFeed(t.(esc := EsEsc), 0x5B);
  }

  lemma EscapeBracket(t: Term)
    requires TermOk(t)
    ensures Run(t, [0x1B, 0x5B]) == Idle(t).(esc := EsSquare)
  {
    hide ViewOk, UtfOk, Feed, Run, Idle;
    IdleTwice(t);
    EscapeFeed(t);
    RunOne(t, 0x1B);
    var u := Idle(t).(esc := EsEsc);
    BracketFeed(Idle(t));
    RunOne(u, 0x5B);
    ChunkIndependence(t, [0x1B], [0x5B]);
    assert [0x1B, 0x5B] == [0x1B] + [0x5B];
  }

  lemma RunOne(t: Term, ch: CodeUnit)
    requires TermOk(t)
    ensures Run(t, [ch]) == Feed(t, ch)
  {
    hide ViewOk, UtfOk, Feed;
    assert [ch][..0] == [];
  }

  lemma SquareDigit(t: Term, ch: CodeUnit)
    requires TermOk(t) && t.u == Idle(t).u && 0x30 <= ch <= 0x39
    ensures Feed(t.(esc := EsSquare), ch) == EscGetPars(Opened(t), ch)
  {
    hide ViewOk, UtfOk, EscGetPars, Feed, Zeros;
    AsciiFeed(t.(esc := EsSquare), ch);
  }

  lemma FirstDigit(t: Term, ch: CodeUnit)
    requires TermOk(t) && t.u == Idle(t).u && 0x30 <= ch <= 0x39
    ensures Feed(t.(esc := EsSquare), ch) == Feed(Opened(t), ch)
  {
    hide ViewOk, UtfOk, EscGotPars, Feed;
    SquareDigit(t, ch);
    ParserStep(Opened(t), ch);
    ZeroOrAbsent(16, 0);
  }

  lemma SameFirst(t: Term, u: Term, s: seq<CodeUnit>)
    requires TermOk(t) && TermOk(u) && s != [] && Feed(t, s[0]) == Feed(u, s[0])
    ensures Run(t, s) == Run(u, s)
  {
    hide ViewOk, UtfOk, Feed;
    assert [s[0]] + s[1..] == s && [s[0]][..0] == [];
    ChunkIndependence(t, [s[0]], s[1..]);
    ChunkIndependence(u, [s[0]], s[1..]);
  }

  lemma {:induction false} ParametersReadFrom(t: Term, ps: seq<nat>)
    requires TermOk(t) && ps != [] && t.u == Idle(t).u
    ensures Run(Opened(t), Written(ps)) == Reading(t, ps)
  {
    hide ViewOk, UtfOk, Feed, Run, Zeros;
    if |ps| == 1 {
      ZeroOrAbsent(16, 0);
      DigitsRead(Opened(t), ps[0]);
      assert ps[..0] == [];
      assert Written(ps) == Decimal(ps[0]);
      assert Given(ps) == Zeros(16)[0 := ps[0]];
      assert Idle(Opened(t)) == Opened(t);
    } else {
      ParametersReadFrom(t, ps[..|ps| - 1]);
      OneMoreParameter(t, ps);
    }
  }

  function NextPar(t: Term): (r: Term)
    requires TermOk(t)
    ensures TermOk(r)
  {
    hide ViewOk, UtfOk;
    t.(p := t.p.(npar := t.p.npar + 1))
  }

  lemma OneMoreParameter(t: Term, ps: seq<nat>)
    requires TermOk(t) && |ps| > 1 && t.u == Idle(t).u
    requires Run(Opened(t), Written(ps[..|ps| - 1])) == Reading(t, ps[..|ps| - 1])
    ensures Run(Opened(t), Written(ps)) == Reading(t, ps)
  {
    hide ViewOk, UtfOk, Feed, Run, Zeros, Decimal, Idle, WithPar, Reading, Opened, Written, Given, NextPar, TermOk, Par;
    WrittenSnoc(ps);
    var front, last := ps[..|ps| - 1], ps[|ps| - 1];
    ReadingIdle(t, ps);
    SemicolonRead(Reading(t, front));
    ChunkIndependence(Opened(t), Written(front), [0x3B]);
    DigitsRead(NextPar(Reading(t, front)), last);
    ChunkIndependence(Opened(t), Written(front) + [0x3B], Decimal(last));
  }

  lemma WrittenSnoc(ps: seq<nat>)
    requires |ps| > 1
    ensures Written(ps) == Written(ps[..|ps| - 1]) + [0x3B] + Decimal(ps[|ps| - 1])
  {
  }

  lemma ReadingIdle(t: Term, ps: seq<nat>)
    requires TermOk(t) && |ps| > 1 && t.u == Idle(t).u
    ensures Reading(t, ps[..|ps| - 1]).u == Idle(Reading(t, ps[..|ps| - 1])).u
    ensures Reading(t, ps[..|ps| - 1]).esc == NextPar(Reading(t, ps[..|ps| - 1])).esc == EsGetPars
    ensures Par(NextPar(Reading(t, ps[..|ps| - 1])), NextPar(Reading(t, ps[..|ps| - 1])).p.npar) == 0
    ensures WithPar(Idle(NextPar(Reading(t, ps[..|ps| - 1]))), ps[|ps| - 1]) == Reading(t, ps)
  {
    hide ViewOk, UtfOk, Zeros;
    GivenAt(ps[..|ps| - 1], |ps| - 1);
  }

  lemma SemicolonRead(u: Term)
    requires TermOk(u) && u.esc == EsGetPars && u.u == Idle(u).u
    ensures Run(u, [0x3B]) == NextPar(u)
  {
    hide ViewOk, UtfOk, Feed;
    assert [0x3B][..0] == [];
    ParserStep(u, 0x3B);
  }

  lemma IdleTwice(t: Term)
    requires TermOk(t)
    ensures t.u == Idle(t).u ==> Idle(t) == t
    ensures Idle(t).u == Idle(Idle(t)).u && Idle(Idle(t)) == Idle(t)
    ensures forall p: Params :: Idle(t.(esc := EsGetPars, p := p)).u == Idle(t).u
  {
  }

  /** "ESC [" and decimal parameters, in whatever state the parser was, are read as these parameters: as many
      as are given, of whatever size. */
  lemma ParametersRead(t: Term, ps: seq<nat>)
    requires TermOk(t) && ps != []
    ensures Run(t, [0x1B, 0x5B] + Written(ps)) == Reading(t, ps)
    ensures forall i :: 0 <= i < |ps| ==> Par(Reading(t, ps), i) == ps[i]
  {
    hide ViewOk, UtfOk, Feed, Idle;
    EscapeBracket(t);
    ChunkIndependence(t, [0x1B, 0x5B], Written(ps));
    var w := Idle(t);
    IdleTwice(t);
    FirstDigit(w, Written(ps)[0]);
    SameFirst(w.(esc := EsSquare), Opened(w), Written(ps));
    ParametersReadFrom(w, ps);
    forall i | 0 <= i < |ps| ensures Par(Reading(t, ps), i) == ps[i] {
      GivenAt(ps, i);
    }
  }

  // ---- Whole sequences ----

  function Sequence(ps: seq<nat>, final: CodeUnit): seq<CodeUnit>
    requires ps != []
  {
    [0x1B, 0x5B] + Written(ps) + [final]
  }

  function ReadAll(t: Term, ps: seq<nat>): (r: Term)
    requires TermOk(t) && ps != []
    ensures TermOk(r)
  {
    hide ViewOk, UtfOk;
    Reading(t, ps).(esc := EsNormal)
  }

  /** A sequence is its parameters and then its final character, whatever the parser was in the middle of. */
  lemma SequenceActs(t: Term, ps: seq<nat>, final: CodeUnit)
    requires TermOk(t) && ps != [] && 0x40 <= final <= 0x7E && final != 0x62
    ensures Run(t, Sequence(ps, final)) == EscGotPars(ReadAll(t, ps), final)
    ensures var u := ReadAll(t, ps);
      u == t.(esc := EsNormal, p := u.p, u := u.u) && !u.p.question && u.p.npar == |ps| - 1
    ensures forall i :: 0 <= i < |ps| ==> i in ReadAll(t, ps).p.par && ReadAll(t, ps).p.par[i] == ps[i]
  {
    hide ViewOk, UtfOk, Feed, Run, Written, EscGotPars, Idle;
    ParametersRead(t, ps);
    var s := Sequence(ps, final);
    assert s[..|s| - 1] == [0x1B, 0x5B] + Written(ps);
    RunLast(t, s);
    ReadingFields(t, ps);
    FinalCharacter(Reading(t, ps), final);
    forall i | 0 <= i < |ps| ensures i in ReadAll(t, ps).p.par && ReadAll(t, ps).p.par[i] == ps[i] {
      GivenAt(ps, i);
    }
  }

  lemma ReadingFields(t: Term, ps: seq<nat>)
    requires TermOk(t) && ps != []
    ensures var u := Reading(t, ps);
      && u == t.(esc := EsGetPars, p := u.p, u := u.u) && u.p == Params(|ps| - 1, Given(ps), false) && u.u == Idle(u).u
  {
    hide ViewOk, UtfOk;
    IdleTwice(t);
  }

  lemma FinalCharacter(u: Term, final: CodeUnit)
    requires TermOk(u) && u.esc == EsGetPars && !u.p.question && u.u == Idle(u).u && 0x40 <= final <= 0x7E
      && final != 0x62
    ensures Feed(u, final) == EscGotPars(u.(esc := EsNormal), final)
  {
    hide ViewOk, UtfOk, EscGotPars, Feed;
    IdleTwice(u);
    AsciiFeed(u, final);
  }

  /** A sequence without any number is one whose only number is 0. */
  lemma NoNumberIsZero(t: Term, final: CodeUnit)
    requires TermOk(t) && 0x40 <= final <= 0x7E && final != 0x5B && final != 0x62
    ensures Run(t, [0x1B, 0x5B, final]) == Run(t, Sequence([0], final))
  {
    hide ViewOk, UtfOk, TermOk, Run, Sequence, Feed, EscGotPars, ReadAll, Idle;
    EscapeBracket(t);
    RunSnoc(t, [0x1B, 0x5B], final);
    IdleTwice(t);
    assert [0x1B, 0x5B] + [final] == [0x1B, 0x5B, final];
    SequenceActs(t, [0], final);
    SquareFinal(Idle(t), final);
    ReadZero(t);
  }

  lemma SquareFinal(t: Term, final: CodeUnit)
    requires TermOk(t) && t.u == Idle(t).u && 0x40 <= final <= 0x7E && final != 0x5B && final != 0x62
    ensures Feed(t.(esc := EsSquare), final) == EscGotPars(Opened(t).(esc := EsNormal), final)
  {
    hide ViewOk, UtfOk, EscGotPars, Feed, Zeros;
    AsciiFeed(t.(esc := EsSquare), final);
  }

  lemma ReadZero(t: Term)
    requires TermOk(t)
    ensures Opened(Idle(t)).(esc := EsNormal) == ReadAll(t, [0])
  {
    hide ViewOk, UtfOk, Zeros;
    ZerosAreZero(16, 0);
    assert [0][..0] == [];
    assert Given([0]) == Zeros(16)[0 := 0] == Zeros(16);
  }

  // ---- Cursor reports ----

  /** "ESC [ row ; column H", with the position 1-based, moves the cursor there, from any parser state. */
  lemma CursorPosition(t: Term, row: nat, col: nat)
    requires TermOk(t)
    ensures Run(t, Sequence([row, col], 0x48)) == GotoXaY(ReadAll(t, [row, col]), col - 1, row - 1)
  {
    hide ViewOk, UtfOk, TermOk, Run, Sequence, EscGotPars, ReadAll, GotoXaY;
    var ps := [row, col];
    SequenceActs(t, ps, 0x48);
    assert ps[0] == row && ps[1] == col;
    PositionActs(ReadAll(t, ps), row, col);
  }

  lemma PositionActs(u: Term, row: nat, col: nat)
    requires TermOk(u) && !u.p.question && Par(u, 0) == row && Par(u, 1) == col
    ensures EscGotPars(u, 0x48) == GotoXaY(u, col - 1, row - 1)
  {
    hide ViewOk, UtfOk, TermOk, GotoXY, CsiAt, Ht, Rt, CsiEdit, CsiOther;
  }

  /** Sending the reported cursor position back puts the cursor where it is, exactly when origin mode is off,
      or the cursor is on the last line of the margins, or the margins begin at the top and hold the cursor:
      in origin mode the report adds the top margin that the line already counts. */
  lemma CursorReportIff(t: Term)
    requires TermOk(t)
    ensures var at := CursorReport(t);
      var r := Run(t, Sequence([at.row, at.col], 0x48));
      && r.v.x == t.v.x
      && (r.v.y == t.v.y <==> !t.m.offset || t.v.y == t.bottom - 1 || (t.top == 0 && t.v.y < t.bottom))
  {
    hide UtfOk, Run, Sequence, ReadAll;
    var at := CursorReport(t);
    CursorPosition(t, at.row, at.col);
    SequenceActs(t, [at.row, at.col], 0x48);
  }

  // ---- Tabulators ----

  /** A tabulator goes to the next tab stop, or to the last column when there is none. */
  lemma TabStopRight(t: Term)
    requires TermOk(t)
    ensures var x := Ht(t, 1).v.x;
      && (forall k :: t.v.x < k < x ==> !IsTabStop(t.tabs, k))
      && (x == t.v.width - 1 || (t.v.x < x && IsTabStop(t.tabs, x)))
      && (t.v.x < t.v.width - 1 ==> t.v.x < x < t.v.width)
  {
    hide ViewOk, UtfOk;
    ViewCursor(t.v);
    NextStop(t.tabs, t.v.width, t.v.x);
    assert TabsRight(t.tabs, t.v.width, t.v.x, 1)
      == TabRight(t.tabs, t.v.width, TabsRight(t.tabs, t.v.width, t.v.x, 0));
  }

  lemma ViewCursor(v: View)
    requires ViewOk(v)
    ensures v.x < v.width && v.y < v.height
  {
  }

  lemma {:induction false} NextStop(tabs: map<int, bool>, width: nat, c: int)
    requires c < width
    ensures c < TabRight(tabs, width, c) <= width + 1
    ensures forall k :: c < k < TabRight(tabs, width, c) && k <= width ==> !IsTabStop(tabs, k)
    ensures TabRight(tabs, width, c) <= width ==> IsTabStop(tabs, TabRight(tabs, width, c))
    decreases width - c
  {
    if !IsTabStop(tabs, c + 1) && c + 1 < width {
      NextStop(tabs, width, c + 1);
    }
  }

  /** A back tabulator goes to the previous tab stop, or to the first column. */
  lemma TabStopLeft(t: Term)
    requires TermOk(t)
    ensures var x := Rt(t, 1).v.x;
      && (forall k :: x < k < t.v.x ==> !IsTabStop(t.tabs, k))
      && (x == 0 || (x < t.v.x && IsTabStop(t.tabs, x)))
      && (t.v.x > 0 ==> x < t.v.x)
  {
    hide ViewOk, UtfOk;
    ViewCursor(t.v);
    PreviousStop(t.tabs, t.v.x);
    assert TabsLeft(t.tabs, t.v.x, 1) == TabLeft(t.tabs, TabsLeft(t.tabs, t.v.x, 0));
  }

  lemma {:induction false} PreviousStop(tabs: map<int, bool>, c: int)
    requires 0 <= c
    ensures -2 <= TabLeft(tabs, c) < c
    ensures forall k :: TabLeft(tabs, c) < k < c && k >= 0 ==> !IsTabStop(tabs, k)
    ensures TabLeft(tabs, c) >= 0 ==> IsTabStop(tabs, TabLeft(tabs, c))
  {
    if c > 0 && !IsTabStop(tabs, c - 1) {
      PreviousStop(tabs, c - 1);
    }
  }
}
