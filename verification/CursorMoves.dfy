// Where the cursor is after the sequences that move it, as the host writes them.
module CursorMoves {
  import opened Cells
  import opened ScreenSpec
  import opened TerminalSpec
  import opened Batching
  import opened TerminalInput

  /** The number nearest to a among lo, ..., hi - 1. */
  function Within(a: int, lo: int, hi: int): int { if a < lo then lo else if a >= hi then hi - 1 else a }

  /** The line that is reached by asking for line y: in origin mode one inside the margins. */
  function Row(t: Term, y: int): int {
    if t.m.offset then Within(y, t.top, t.bottom) else Within(y, 0, t.v.height)
  }

  // r is t with nothing changed but where the cursor is, that no wrap is pending, and what the parser has read.
  predicate OnlyCursor(t: Term, r: Term) {
    && r == t.(v := t.v.(x := r.v.x, y := r.v.y), esc := EsNormal, p := r.p, u := r.u, needWrap := false)
    && r.u.enabled == t.u.enabled
  }

  /** After the written sequence the cursor is as near to column x of line y as it may go. */
  ghost predicate Leads(t: Term, ps: seq<nat>, final: CodeUnit, x: int, y: int)
    requires TermOk(t) && ps != []
  {
    var r := Run(t, Sequence(ps, final));
    OnlyCursor(t, r) && r.v.x == Within(x, 0, t.v.width) && r.v.y == Row(t, y)
  }

  lemma OnlyMoved(t: Term, u: Term, r: Term, x: int, y: int)
    requires TermOk(t) && u == t.(esc := EsNormal, p := u.p, u := u.u) && u.u.enabled == t.u.enabled
    requires r == u.(v := u.v.(x := Within(x, 0, u.v.width), y := Row(u, y)), needWrap := false)
    ensures OnlyCursor(t, r) && r.v.x == Within(x, 0, t.v.width) && r.v.y == Row(t, y)
  {
    hide TermOk;
    assert t.top < t.bottom && 0 < t.v.width && 0 < t.v.height by {
      Sizes(t);
    }
  }

  lemma Sizes(t: Term)
    requires TermOk(t)
    ensures t.top < t.bottom <= t.v.height && 0 < t.v.width && 0 < t.v.height && t.v.x < t.v.width && t.v.y < t.v.height
  {
  }

  lemma GoingMoves(u: Term, x: int, y: int)
    requires TermOk(u)
    ensures var r := GotoXY(u, x, y);
      r == u.(v := u.v.(x := Within(x, 0, u.v.width), y := Row(u, y)), needWrap := false)
  {
    hide UtfOk;
  }

  lemma ReadKeeps(t: Term, ps: seq<nat>)
    requires TermOk(t) && ps != []
    ensures var u := ReadAll(t, ps);
      u == t.(esc := EsNormal, p := u.p, u := u.u) && u.u.enabled == t.u.enabled && !u.p.question
  {
    hide ViewOk, UtfOk, Given;
  }

  lemma Parameter(t: Term, ps: seq<nat>, i: nat)
    requires TermOk(t) && i < |ps|
    ensures Par(ReadAll(t, ps), i) == ps[i] && ParOr1(ReadAll(t, ps), i) == Max(ps[i], 1)
  {
    hide ViewOk, UtfOk, Given;
    GivenAt(ps, i);
  }

  lemma MoveActs(u: Term, final: CodeUnit)
    requires TermOk(u) && !u.p.question && (0x40 <= final <= 0x49 || final in {0x60, 0x61, 0x64, 0x65, 0x66, 0x5A})
    ensures EscGotPars(u, final) == CsiMove(u, final)
  {
    hide ViewOk, UtfOk, TermOk, CsiMove, CsiEdit, CsiOther, SetModes;
  }

  lemma Moving(t: Term, ps: seq<nat>, final: CodeUnit)
    requires TermOk(t) && ps != [] && (0x40 <= final <= 0x49 || final in {0x60, 0x61, 0x64, 0x65, 0x66, 0x5A})
    ensures Run(t, Sequence(ps, final)) == CsiMove(ReadAll(t, ps), final)
  {
    hide ViewOk, UtfOk, TermOk, Run, Sequence, ReadAll, EscGotPars, CsiMove;
    SequenceActs(t, ps, final);
    MoveActs(ReadAll(t, ps), final);
  }

  // ---- Relative moves ----

  /** "ESC [ n A" moves the cursor up by n lines; as everywhere here, no number or 0 counts as 1. */
  lemma CursorUp(t: Term, n: nat)
    requires TermOk(t)
    ensures Leads(t, [n], 0x41, t.v.x, t.v.y - Max(n, 1))
  {
    hide ViewOk, UtfOk, TermOk, Run, Sequence, ReadAll, GotoXY, GotoXaY, CsiAt, Ht, Rt, Within, Row, OnlyCursor;
    Parameter(t, [n], 0);
    ReadKeeps(t, [n]);
    Moving(t, [n], 0x41);
    var u, r := ReadAll(t, [n]), Run(t, Sequence([n], 0x41));
    GoingMoves(u, t.v.x, t.v.y - Max(n, 1));
    OnlyMoved(t, u, r, t.v.x, t.v.y - Max(n, 1));
  }

  /** "ESC [ n B" and "ESC [ n e": down. */
  lemma CursorDown(t: Term, n: nat, final: CodeUnit)
    requires TermOk(t) && (final == 0x42 || final == 0x65)
    ensures Leads(t, [n], final, t.v.x, t.v.y + Max(n, 1))
  {
    hide ViewOk, UtfOk, TermOk, Run, Sequence, ReadAll, GotoXY, GotoXaY, CsiAt, Ht, Rt, Within, Row, OnlyCursor;
    Parameter(t, [n], 0);
    ReadKeeps(t, [n]);
    Moving(t, [n], final);
    var u, r := ReadAll(t, [n]), Run(t, Sequence([n], final));
    GoingMoves(u, t.v.x, t.v.y + Max(n, 1));
    OnlyMoved(t, u, r, t.v.x, t.v.y + Max(n, 1));
  }

  /** "ESC [ n C" and "ESC [ n a": right. */
  lemma CursorRight(t: Term, n: nat, final: CodeUnit)
    requires TermOk(t) && (final == 0x43 || final == 0x61)
    ensures Leads(t, [n], final, t.v.x + Max(n, 1), t.v.y)
  {
    hide ViewOk, UtfOk, TermOk, Run, Sequence, ReadAll, GotoXY, GotoXaY, CsiAt, Ht, Rt, Within, Row, OnlyCursor;
    Parameter(t, [n], 0);
    ReadKeeps(t, [n]);
    Moving(t, [n], final);
    var u, r := ReadAll(t, [n]), Run(t, Sequence([n], final));
    GoingMoves(u, t.v.x + Max(n, 1), t.v.y);
    OnlyMoved(t, u, r, t.v.x + Max(n, 1), t.v.y);
  }

  /** "ESC [ n D": left. */
  lemma CursorLeft(t: Term, n: nat)
    requires TermOk(t)
    ensures Leads(t, [n], 0x44, t.v.x - Max(n, 1), t.v.y)
  {
    hide ViewOk, UtfOk, TermOk, Run, Sequence, ReadAll, GotoXY, GotoXaY, CsiAt, Ht, Rt, Within, Row, OnlyCursor;
    Parameter(t, [n], 0);
    ReadKeeps(t, [n]);
    Moving(t, [n], 0x44);
    var u, r := ReadAll(t, [n]), Run(t, Sequence([n], 0x44));
    GoingMoves(u, t.v.x - Max(n, 1), t.v.y);
    OnlyMoved(t, u, r, t.v.x - Max(n, 1), t.v.y);
  }

  /** "ESC [ n E": down, to the first column. */
  lemma NextLine(t: Term, n: nat)
    requires TermOk(t)
    ensures Leads(t, [n], 0x45, 0, t.v.y + Max(n, 1))
  {
    hide ViewOk, UtfOk, TermOk, Run, Sequence, ReadAll, GotoXY, GotoXaY, CsiAt, Ht, Rt, Within, Row, OnlyCursor;
    Parameter(t, [n], 0);
    ReadKeeps(t, [n]);
    Moving(t, [n], 0x45);
    var u, r := ReadAll(t, [n]), Run(t, Sequence([n], 0x45));
    GoingMoves(u, 0, t.v.y + Max(n, 1));
    OnlyMoved(t, u, r, 0, t.v.y + Max(n, 1));
  }

  /** "ESC [ n F": up, to the first column. */
  lemma PreviousLine(t: Term, n: nat)
    requires TermOk(t)
    ensures Leads(t, [n], 0x46, 0, t.v.y - Max(n, 1))
  {
    hide ViewOk, UtfOk, TermOk, Run, Sequence, ReadAll, GotoXY, GotoXaY, CsiAt, Ht, Rt, Within, Row, OnlyCursor;
    Parameter(t, [n], 0);
    ReadKeeps(t, [n]);
    Moving(t, [n], 0x46);
    var u, r := ReadAll(t, [n]), Run(t, Sequence([n], 0x46));
    GoingMoves(u, 0, t.v.y - Max(n, 1));
    OnlyMoved(t, u, r, 0, t.v.y - Max(n, 1));
  }

  // ---- Absolute moves ----

  /** "ESC [ n G" and "ESC [ n `": to column n, counted from 1. */
  lemma ToColumn(t: Term, n: nat, final: CodeUnit)
    requires TermOk(t) && (final == 0x47 || final == 0x60)
    ensures Leads(t, [n], final, n - 1, t.v.y)
  {
    hide ViewOk, UtfOk, TermOk, Run, Sequence, ReadAll, GotoXY, GotoXaY, CsiAt, Ht, Rt, Within, Row, OnlyCursor;
    Parameter(t, [n], 0);
    ReadKeeps(t, [n]);
    Moving(t, [n], final);
    var u, r := ReadAll(t, [n]), Run(t, Sequence([n], final));
    GoingMoves(u, n - 1, t.v.y);
    OnlyMoved(t, u, r, n - 1, t.v.y);
  }

  /** The line asked for by its number is counted from the top margin in origin mode. */
  function FromOrigin(t: Term, y: int): int { if t.m.offset then t.top + y else y }

  lemma AbsoluteIs(u: Term, x: int, y: int)
    requires TermOk(u)
    ensures GotoXaY(u, x, y) == GotoXY(u, x, FromOrigin(u, y))
  {
    hide ViewOk, UtfOk, GotoXY;
  }

  /** "ESC [ n d": to line n, counted from 1. */
  lemma ToLine(t: Term, n: nat)
    requires TermOk(t)
    ensures Leads(t, [n], 0x64, t.v.x, FromOrigin(t, n - 1))
  {
    hide ViewOk, UtfOk, TermOk, Run, Sequence, ReadAll, GotoXY, GotoXaY, CsiAt, Ht, Rt, Within, Row, OnlyCursor;
    Parameter(t, [n], 0);
    ReadKeeps(t, [n]);
    Moving(t, [n], 0x64);
    AbsoluteIs(ReadAll(t, [n]), t.v.x, n - 1);
    var u, r := ReadAll(t, [n]), Run(t, Sequence([n], 0x64));
    GoingMoves(u, t.v.x, FromOrigin(t, n - 1));
    OnlyMoved(t, u, r, t.v.x, FromOrigin(t, n - 1));
  }

  /** "ESC [ row ; column H" and "ESC [ row ; column f", both counted from 1. */
  lemma ToPosition(t: Term, ps: seq<nat>, final: CodeUnit)
    requires TermOk(t) && |ps| == 2 && (final == 0x48 || final == 0x66)
    ensures var row: int, column: int := ps[0], ps[1]; Leads(t, ps, final, column - 1, FromOrigin(t, row - 1))
  {
    hide ViewOk, UtfOk, TermOk, Run, Sequence, ReadAll, GotoXY, GotoXaY, CsiAt, Ht, Rt, Within, Row, OnlyCursor;
    var row: int, column: int := ps[0], ps[1];
    Parameter(t, ps, 0);
    Parameter(t, ps, 1);
    ReadKeeps(t, ps);
    Moving(t, ps, final);
    AbsoluteIs(ReadAll(t, ps), column - 1, row - 1);
    var u, r := ReadAll(t, ps), Run(t, Sequence(ps, final));
    GoingMoves(u, column - 1, FromOrigin(t, row - 1));
    OnlyMoved(t, u, r, column - 1, FromOrigin(t, row - 1));
  }

  // ---- Tabulators ----

  /** A column is a tab stop when it was set, or when it was not cleared and is a multiple of 8. */
  predicate Stop(t: Term, c: int) { if c in t.tabs then t.tabs[c] else c % 8 == 0 }

  /** The number of tab stops right of column a, up to column b. */
  function Stops(t: Term, a: int, b: int): (n: nat)
    decreases b - a
  {
    if b <= a then 0 else Stops(t, a, b - 1) + if Stop(t, b) then 1 else 0
  }

  lemma {:induction false} NoStops(t: Term, a: int, b: int, c: int)
    requires a <= b <= c && forall k :: b < k <= c ==> !Stop(t, k)
    ensures Stops(t, a, c) == Stops(t, a, b)
    decreases c - b
  {
    if b < c {
      NoStops(t, a, b, c - 1);
    }
  }

  lemma {:induction false} StopsGrow(t: Term, a: int, b: int, c: int)
    requires a <= b <= c
    ensures Stops(t, a, b) <= Stops(t, a, c)
    decreases c - b
  {
    if b < c {
      StopsGrow(t, a, b, c - 1);
    }
  }

  lemma {:induction false} StopsFrom(t: Term, a: int, b: int, c: int)
    requires a <= b <= c
    ensures Stops(t, a, c) == Stops(t, a, b) + Stops(t, b, c)
    decreases c - b
  {
    if b < c {
      StopsFrom(t, a, b, c - 1);
    }
  }

  /** x is the first column with n stops up to it, or the last column when there are not so many. */
  predicate Forward(t: Term, n: nat, x: int) {
    t.v.x <= x < t.v.width && Stops(t, t.v.x, x - 1) < n && (x == t.v.width - 1 || Stops(t, t.v.x, x) == n)
  }

  /** x is the last column with n stops from it on, or the first column when there are not so many. */
  predicate Backward(t: Term, n: nat, x: int) {
    0 <= x <= t.v.x && Stops(t, x, t.v.x - 1) < n && (x == 0 || Stops(t, x - 1, t.v.x - 1) == n)
  }

  lemma {:induction false} CountRight(t: Term, x: nat, n: nat)
    requires x < t.v.width && n > 0
    ensures var c := TabsRight(t.tabs, t.v.width, x, n);
      c > x && if c <= t.v.width then Stop(t, c) && Stops(t, x, c) == n else Stops(t, x, t.v.width) < n
  {
    var w, before := t.v.width, TabsRight(t.tabs, t.v.width, x, n - 1);
    if n > 1 {
      CountRight(t, x, n - 1);
    }
    hide Stops, Stop;
    var c := TabsRight(t.tabs, w, x, n);
    assert c == TabRight(t.tabs, w, before);
    if before < w {
      assert Stops(t, x, before) == n - 1 by {
        NothingBetween(t, x);
      }
      NextStop(t.tabs, w, before);
      SameStops(t);
      OneStopFurther(t, x, before, c);
    } else if before == w {
      assert c == w + 1;
    }
  }

  lemma NothingBetween(t: Term, x: int)
    ensures Stops(t, x, x) == 0
  {
  }

  lemma SameStops(t: Term)
    ensures forall c :: Stop(t, c) == IsTabStop(t.tabs, c)
  {
  }

  lemma OneStopFurther(t: Term, x: int, before: int, c: int)
    requires x <= before < c <= t.v.width + 1
    requires (forall k :: before < k < c && k <= t.v.width ==> !Stop(t, k)) && (c <= t.v.width ==> Stop(t, c))
    ensures if c <= t.v.width then Stops(t, x, c) == Stops(t, x, before) + 1
      else Stops(t, x, t.v.width) == Stops(t, x, before)
  {
    hide Stop;
    NoStops(t, x, before, c - 1);
  }

  lemma RightIsForward(t: Term, n: nat)
    requires TermOk(t) && n > 0
    ensures Forward(t, n, Min(TabsRight(t.tabs, t.v.width, t.v.x, n), t.v.width - 1))
  {
    hide Stop;
    Sizes(t);
    hide TermOk;
    var w: int, x: int, c := t.v.width, t.v.x, TabsRight(t.tabs, t.v.width, t.v.x, n);
    CountRight(t, x, n);
    if c >= w && x <= w - 2 {
      StopsGrow(t, x, w - 2, w - 1);
      StopsGrow(t, x, w - 1, w);
    }
  }

  lemma {:induction false} CountLeft(t: Term, x: nat, n: nat)
    requires n > 0
    ensures var c := TabsLeft(t.tabs, x, n);
      c < x && if c >= 0 then Stop(t, c) && Stops(t, c - 1, x - 1) == n else Stops(t, -1, x - 1) < n
  {
    var before := TabsLeft(t.tabs, x, n - 1);
    if n > 1 {
      CountLeft(t, x, n - 1);
    }
    hide Stops, Stop;
    var c := TabsLeft(t.tabs, x, n);
    assert c == TabLeft(t.tabs, before);
    if before >= 0 {
      assert Stops(t, before - 1, x - 1) == n - 1 by {
        if n == 1 {
          NothingBetween(t, x - 1);
        }
      }
      PreviousStop(t.tabs, before);
      SameStops(t);
      OneStopBack(t, x, before, c);
    }
  }

  lemma OneStopBack(t: Term, x: int, before: int, c: int)
    requires -2 <= c < before <= x && before >= 0
    requires (forall k :: c < k < before && k >= 0 ==> !Stop(t, k)) && (c >= 0 ==> Stop(t, c))
    ensures if c >= 0 then Stops(t, c - 1, x - 1) == Stops(t, before - 1, x - 1) + 1
      else Stops(t, -1, x - 1) == Stops(t, before - 1, x - 1)
  {
    if c >= 0 {
      NoStops(t, c - 1, c, before - 1);
      StopsFrom(t, c - 1, before - 1, x - 1);
    } else {
      NoStops(t, -1, -1, before - 1);
      StopsFrom(t, -1, before - 1, x - 1);
    }
  }

  lemma LeftIsBackward(t: Term, n: nat)
    requires TermOk(t) && n > 0
    ensures Backward(t, n, Max(TabsLeft(t.tabs, t.v.x, n), 0))
  {
    hide Stop;
    var x, c := t.v.x, TabsLeft(t.tabs, t.v.x, n);
    CountLeft(t, x, n);
    if x == 0 {
    } else if c >= 0 {
      StopsFrom(t, c - 1, c, x - 1);
      StopsFrom(t, c, c, x - 1);
    } else {
      StopsFrom(t, -1, 0, x - 1);
    }
  }

  // r is t with the cursor moved to column x, if it is not there, which clears a pending wrap and in origin mode
  // enters the margins.
  predicate AcrossTo(t: Term, r: Term, x: int) {
    if x == t.v.x then r == t
    else r == t.(v := t.v.(x := r.v.x, y := r.v.y), needWrap := false) && r.v.x == x && r.v.y == Row(t, t.v.y)
  }

  /** r is u with the cursor n tab stops further right, or left. */
  predicate TabsRightBy(u: Term, r: Term, n: nat) { AcrossTo(u, r, r.v.x) && Forward(u, n, r.v.x) }

  predicate TabsLeftBy(u: Term, r: Term, n: nat) { AcrossTo(u, r, r.v.x) && Backward(u, n, r.v.x) }

  lemma TabsAct(t: Term, n: nat)
    requires TermOk(t) && n > 0
    ensures TabsRightBy(t, Ht(t, n), n) && TabsLeftBy(t, Rt(t, n), n)
  {
    hide ViewOk, UtfOk, TabsRight, TabsLeft, Forward, Backward, GotoXY;
    Sizes(t);
    RightIsForward(t, n);
    LeftIsBackward(t, n);
    var right, left := Min(TabsRight(t.tabs, t.v.width, t.v.x, n), t.v.width - 1), Max(TabsLeft(t.tabs, t.v.x, n), 0);
    ForwardInside(t, n, right);
    BackwardInside(t, n, left);
    GoingMoves(t, right, t.v.y);
    GoingMoves(t, left, t.v.y);
  }

  lemma ForwardInside(t: Term, n: nat, x: int)
    requires Forward(t, n, x)
    ensures Within(x, 0, t.v.width) == x
  {
  }

  lemma BackwardInside(t: Term, n: nat, x: int)
    requires Backward(t, n, x) && t.v.x < t.v.width
    ensures Within(x, 0, t.v.width) == x
  {
  }

  /** "ESC [ n I" goes n tab stops to the right, no further than the last column. */
  lemma TabsForward(t: Term, n: nat)
    requires TermOk(t)
    ensures TabsRightBy(ReadAll(t, [n]), Run(t, Sequence([n], 0x49)), Max(n, 1))
  {
    hide ViewOk, UtfOk, TermOk, Run, Sequence, ReadAll, GotoXY, GotoXaY, CsiAt, Ht, Rt, TabsRightBy, TabsLeftBy;
    Parameter(t, [n], 0);
    ReadKeeps(t, [n]);
    Moving(t, [n], 0x49);
    TabsAct(ReadAll(t, [n]), Max(n, 1));
  }

  /** "ESC [ n Z" goes n to the left, no further than the first. */
  lemma TabsBackward(t: Term, n: nat)
    requires TermOk(t)
    ensures TabsLeftBy(ReadAll(t, [n]), Run(t, Sequence([n], 0x5A)), Max(n, 1))
  {
    hide ViewOk, UtfOk, TermOk, Run, Sequence, ReadAll, GotoXY, GotoXaY, CsiAt, Ht, Rt, TabsRightBy, TabsLeftBy;
    Parameter(t, [n], 0);
    ReadKeeps(t, [n]);
    Moving(t, [n], 0x5A);
    TabsAct(ReadAll(t, [n]), Max(n, 1));
  }

  /** The tabulator character goes to the next stop, whatever the parser is doing; where control characters are
      displayed it is drawn instead. */
  lemma TabCharacter(t: Term)
    requires TermOk(t) && (!t.g.dispCtrl || t.esc != EsNormal)
    ensures TabsRightBy(Idle(t), Run(t, [0x09]), 1)
  {
    hide ViewOk, UtfOk, Run, Feed, Ht, TabsRightBy, TabsLeftBy;
    RunOne(t, 0x09);
    AsciiFeed(t, 0x09);
    TabsAct(Idle(t), 1);
  }

  /** On a terminal whose stops nobody has touched that is the next multiple of 8. */
  lemma EveryEighth(t: Term)
    requires TermOk(t) && t.tabs == map[] && (!t.g.dispCtrl || t.esc != EsNormal)
    ensures Run(t, [0x09]).v.x == Min(t.v.x + 8 - t.v.x % 8, t.v.width - 1)
  {
    hide ViewOk, UtfOk, Run, Forward;
    TabCharacter(t);
    IdleIs(t);
    hide TermOk;
    NextMultiple(Idle(t), Run(t, [0x09]).v.x);
  }

  lemma NextMultiple(t: Term, r: int)
    requires t.tabs == map[] && Forward(t, 1, r)
    ensures r == Min(t.v.x + 8 - t.v.x % 8, t.v.width - 1)
  {
    var x: int := t.v.x;
    var next := x + 8 - x % 8;
    NoStops(t, x, x, next - 1);
    if r > next {
      StopsGrow(t, x, next, r - 1);
    } else if r < next {
      StopsGrow(t, x, r, next - 1);
    }
  }

  lemma IdleIs(t: Term)
    requires TermOk(t)
    ensures Idle(t) == t.(u := Idle(t).u) && Idle(t).u.enabled == t.u.enabled
  {
    hide ViewOk, UtfOk;
  }
}
