// One row of the screen as the browser holds it: a list of <span> elements, each a text with one
// class name and one style. The methods here are the steps of VT100.putString on such a list.
module RowRuns {
  import opened Cells

  datatype Run = Run(text: seq<CodeUnit>, color: Color, style: Style)

  // A row is either a <pre> element, which shows nothing, or a <div> with a list of <span>s.
  datatype Row = Pre | Div(runs: seq<Run>)

  function RunCells(r: Run): (cells: seq<Cell>)
    ensures |cells| == |r.text|
  {
    Paint(r.text, r.color, r.style)
  }

  function Flatten(runs: seq<Run>): seq<Cell> {
    if runs == [] then [] else RunCells(runs[0]) + Flatten(runs[1..])
  }

  function RowCells(row: Row): seq<Cell> {
    match row
    case Pre => []
    case Div(runs) => Flatten(runs)
  }

  predicate SameLook(a: Run, b: Run) {
    a.color == b.color && a.style == b.style
  }

  /** No two neighbouring <span>s have the same class name and style. */
  predicate Merged(runs: seq<Run>) {
    forall i :: 0 < i < |runs| ==> !SameLook(runs[i - 1], runs[i])
  }

  predicate IsBlankText(s: seq<CodeUnit>) {
    forall i :: 0 <= i < |s| ==> s[i] == SPACE || s[i] == NBSP
  }

  /** A <span> that pruning removes from the end of a row. */
  predicate Prunable(r: Run) {
    r.color == DEFAULT_COLOR && r.style == Plain && IsBlankText(r.text)
  }

  lemma {:induction false} FlattenAppend(a: seq<Run>, b: seq<Run>)
    ensures Flatten(a + b) == Flatten(a) + Flatten(b)
  {
    if a == [] {
      assert a + b == b;
    } else {
      assert (a + b)[0] == a[0] && (a + b)[1..] == a[1..] + b;
      FlattenAppend(a[1..], b);
    }
  }

  lemma FlattenSingle(r: Run)
    ensures Flatten([r]) == RunCells(r)
  {
    assert Flatten([r]) == RunCells(r) + Flatten([]);
  }

  lemma FlattenSnoc(runs: seq<Run>, k: nat)
    requires k < |runs|
    ensures Flatten(runs[..k + 1]) == Flatten(runs[..k]) + RunCells(runs[k])
  {
    hide Flatten, RunCells;
    assert runs[..k + 1] == runs[..k] + [runs[k]];
    FlattenAppend(runs[..k], [runs[k]]);
    FlattenSingle(runs[k]);
  }

  lemma FlattenSplit(runs: seq<Run>, k: nat)
    requires k < |runs|
    ensures Flatten(runs) == Flatten(runs[..k]) + RunCells(runs[k]) + Flatten(runs[k + 1..])
    ensures Flatten(runs[..k + 1]) == Flatten(runs[..k]) + RunCells(runs[k])
  {
    hide Flatten, RunCells;
    FlattenSnoc(runs, k);
    assert runs == runs[..k + 1] + runs[k + 1..];
    FlattenAppend(runs[..k + 1], runs[k + 1..]);
  }

  lemma MergedCons(r: Run, rest: seq<Run>)
    ensures Merged([r] + rest) <==> Merged(rest) && (rest != [] ==> !SameLook(r, rest[0]))
  {
    var all := [r] + rest;
    if Merged(all) {
      forall i | 0 < i < |rest| ensures !SameLook(rest[i - 1], rest[i]) {
        assert rest[i - 1] == all[i] && rest[i] == all[i + 1];
      }
      if rest != [] {
        assert all[0] == r && all[1] == rest[0];
      }
    }
  }

  lemma MergedSnoc(rest: seq<Run>, r: Run)
    ensures Merged(rest + [r]) <==> Merged(rest) && (rest != [] ==> !SameLook(rest[|rest| - 1], r))
  {
    var all := rest + [r];
    if Merged(all) {
      forall i | 0 < i < |rest| ensures !SameLook(rest[i - 1], rest[i]) {
        assert rest[i - 1] == all[i - 1] && rest[i] == all[i];
      }
      if rest != [] {
        assert all[|rest|] == r && all[|rest| - 1] == rest[|rest| - 1];
      }
    }
  }

  lemma MergedSplit(runs: seq<Run>, k: nat)
    requires Merged(runs) && k < |runs|
    ensures Merged(runs[..k] + [runs[k]]) && Merged([runs[k]] + runs[k + 1..])
    ensures Merged(runs[..k]) && Merged(runs[k + 1..])
  {
    assert runs[..k] + [runs[k]] == runs[..k + 1];
    assert [runs[k]] + runs[k + 1..] == runs[k..];
    MergedCons(runs[k], runs[k + 1..]);
  }

  lemma PaintAppend(a: seq<CodeUnit>, b: seq<CodeUnit>, color: Color, style: Style)
    ensures Paint(a + b, color, style) == Paint(a, color, style) + Paint(b, color, style)
  {
  }

  /** Finds the <span> that holds column x, or the last one when the row ends before x. */
  method FindRun(runs: seq<Run>, x: nat) returns (k: nat, xPos: nat)
    requires runs != []
    ensures k < |runs| && xPos == |Flatten(runs[..k])| <= x
    ensures xPos == x || k == |runs| - 1 || x < xPos + |runs[k].text|
  {
    k, xPos := 0, 0;
    while k + 1 < |runs| && xPos < x
      invariant k < |runs| && xPos == |Flatten(runs[..k])| <= x
    {
      var len := |runs[k].text|;
      if xPos + len > x {
        break;
      }
      FlattenSplit(runs, k);
      xPos := xPos + len;
      k := k + 1;
    }
  }

  /** Appends spaces until the text is n units long. */
  method PadText(start: seq<CodeUnit>, n: nat) returns (s: seq<CodeUnit>)
    requires |start| < n
    ensures s == start + Spaces(n - |start|)
  {
    s := start + [SPACE];
    while |s| < n
      invariant |start| <= |s| <= n && s == start + Spaces(|s| - |start|)
    {
      s := s + [SPACE];
    }
  }

  lemma PaintPadded(start: seq<CodeUnit>, n: nat)
    requires |start| <= n
    ensures Paint(start + Spaces(n - |start|), DEFAULT_COLOR, Plain) == PadTo(Paint(start, DEFAULT_COLOR, Plain), n)
  {
  }

  lemma PadAfter(a: seq<Cell>, b: seq<Cell>, n: nat)
    requires |a| + |b| <= n
    ensures a + PadTo(b, n - |a|) == PadTo(a + b, n)
  {
  }

  /** Makes the row reach column x: pads the last <span>, or a new one when the last is styled. */
  method PadRuns(runs: seq<Run>, k: nat, xPos: nat, x: nat) returns (out: seq<Run>, k': nat, xPos': nat)
    requires k < |runs| && xPos == |Flatten(runs[..k])| <= x && Merged(runs)
    requires xPos == x || k == |runs| - 1 || x < xPos + |runs[k].text|
    ensures k' < |out| && xPos' == |Flatten(out[..k'])| <= x <= xPos' + |out[k'].text| && Merged(out)
    ensures Flatten(out) == PadTo(Flatten(runs), Max(|Flatten(runs)|, x))
  {
    hide Flatten, Merged, PadTo;
    FlattenSplit(runs, k);
    out, k', xPos' := runs, k, xPos;
    if xPos + |runs[k].text| < x {
      assert runs == runs[..k + 1] == runs[..k] + [runs[k]];
      var last := runs[k];
      if last.color != DEFAULT_COLOR || last.style != Plain {
        k' := k + 1;
        xPos' := xPos + |last.text|;
        var s := PadText([], x - xPos');
        out := AppendRun(runs, Run(s, DEFAULT_COLOR, Plain));
        PaintPadded([], x - xPos');
        PadAfter(Flatten(runs), [], x);
        assert Flatten(runs) + [] == Flatten(runs);
      } else {
        var s := PadText(last.text, x - xPos);
        MergedSnoc(runs[..k], last);
        out := AppendRun(runs[..k], last.(text := s));
        PaintPadded(last.text, x - xPos);
        PadAfter(Flatten(runs[..k]), RunCells(last), x);
      }
    } else {
      PadNothing(Flatten(runs));
    }
  }

  lemma PadNothing(cells: seq<Cell>)
    ensures PadTo(cells, |cells|) == cells
  {
  }

  method AppendRun(runs: seq<Run>, r: Run) returns (out: seq<Run>)
    requires Merged(runs) && (runs != [] ==> !SameLook(runs[|runs| - 1], r))
    ensures out == runs + [r] && out[..|runs|] == runs && Merged(out) && Flatten(out) == Flatten(runs) + RunCells(r)
  {
    hide Flatten, Merged;
    out := runs + [r];
    MergedSnoc(runs, r);
    FlattenAppend(runs, [r]);
    FlattenSingle(r);
  }

  // What writing a text over columns [x, x + |text|) of a row leaves: `left` holds the <span>s before
  // the one with the text, `span` is that one, `right` are the following ones. When `del` is positive
  // the text runs over that many cells, which `right` still holds.
  ghost predicate Written(all: seq<Cell>, x: nat, text: seq<Cell>, del: int, left: seq<Run>, span: Run, right: seq<Run>)
  {
    && Merged(left) && Merged(right)
    && del <= |text| && x + |text| - Max(del, 0) <= |all| && x <= |all|
    && Flatten(left) + RunCells(span) + Flatten(right) == all[..x] + text + all[x + |text| - Max(del, 0)..]
    && (del > 0 ==> Flatten(left) + RunCells(span) == all[..x] + text)
  }

  /** Covering a piece of the <span> m over columns [|a|, |a| + |m|] from x on, with the text inside it. */
  lemma WrittenOver(a: seq<Cell>, m: seq<Cell>, b: seq<Cell>, x: nat, text: seq<Cell>,
                    left: seq<Run>, span: Run, right: seq<Run>)
    requires |a| <= x <= |a| + |m| && Merged(left) && Merged(right)
    requires Flatten(left) == a && Flatten(right) == b
    requires RunCells(span) == m[..x - |a|] + text + (if x + |text| <= |a| + |m| then m[x + |text| - |a|..] else [])
    ensures Written(a + m + b, x, text, x + |text| - (|a| + |m|), left, span, right)
  {
    hide Flatten, RunCells, Merged;
    var head, tail := m[..x - |a|], if x + |text| <= |a| + |m| then m[x + |text| - |a|..] else [];
    AroundText(a, m, b, x, |text|);
    FivePieces(a, head, text, tail, b);
  }

  /** What lies before the text and behind it, in three pieces of which the middle one holds its beginning. */
  lemma AroundText(a: seq<Cell>, m: seq<Cell>, b: seq<Cell>, x: nat, len: nat)
    requires |a| <= x <= |a| + |m|
    ensures var all, del := a + m + b, x + len - (|a| + |m|);
      && all[..x] == a + m[..x - |a|]
      && all[x + len - Max(del, 0)..] == (if x + len <= |a| + |m| then m[x + len - |a|..] else []) + b
  {
  }

  lemma FivePieces(a: seq<Cell>, head: seq<Cell>, text: seq<Cell>, tail: seq<Cell>, b: seq<Cell>)
    ensures a + (head + text + tail) + b == (a + head) + text + (tail + b)
    ensures tail == [] ==> a + (head + text + tail) == (a + head) + text
  {
  }

  /** Covering a piece of it with the text in a <span> of its own. */
  lemma WrittenApart(a: seq<Cell>, m: seq<Cell>, b: seq<Cell>, x: nat, text: seq<Cell>,
                     left: seq<Run>, span: Run, right: seq<Run>)
    requires |a| <= x <= |a| + |m| && Merged(left) && Merged(right)
    requires Flatten(left) == a + m[..x - |a|] && RunCells(span) == text
    requires Flatten(right) == (if x + |text| <= |a| + |m| then m[x + |text| - |a|..] else []) + b
    ensures Written(a + m + b, x, text, x + |text| - (|a| + |m|), left, span, right)
  {
    hide Flatten, RunCells, Merged;
    AroundText(a, m, b, x, |text|);
  }

  /** Writes the text at column x. What column x's <span> held behind the text stays behind it. */
  method SpliceText(runs: seq<Run>, k: nat, xPos: nat, x: nat, text: seq<CodeUnit>, color: Color, style: Style)
    returns (left: seq<Run>, span: Run, right: seq<Run>, del: int)
    requires k < |runs| && xPos == |Flatten(runs[..k])| <= x <= xPos + |runs[k].text| && Merged(runs)
    requires text != []
    ensures span.color == color && span.style == style
    ensures del == x + |text| - (xPos + |runs[k].text|)
    ensures Written(Flatten(runs), x, Paint(text, color, style), del, left, span, right)
  {
    hide Flatten, Merged, Written;
    left, span, right := runs[..k], runs[k], runs[k + 1..];
    ghost var a, m, b := Flatten(left), RunCells(span), Flatten(right);
    FlattenSplit(runs, k);
    MergedSplit(runs, k);
    del := |text| - |span.text| + x - xPos;
    if span.color == color && span.style == style {
      // Overwrite part of the <span>
      span := SpliceOver(span, x - xPos, text);
      WrittenOver(a, m, b, x, Paint(text, color, style), left, span, right);
    } else if xPos == x {
      // A text shorter than the current <span> goes into a new one before it
      left, span, right := SpliceBefore(left, span, right, text, color, style);
      assert a + m[..0] == a;
      WrittenApart(a, m, b, x, Paint(text, color, style), left, span, right);
    } else {
      left, span, right := SpliceInside(left, span, right, x - xPos, text, color, style);
      WrittenApart(a, m, b, x, Paint(text, color, style), left, span, right);
    }
  }

  /** Replaces a piece of a <span> that already looks right. */
  method SpliceOver(span: Run, p: nat, text: seq<CodeUnit>) returns (span': Run)
    requires p <= |span.text|
    ensures SameLook(span, span')
    ensures RunCells(span') == RunCells(span)[..p] + Paint(text, span.color, span.style)
                               + (if p + |text| <= |span.text| then RunCells(span)[p + |text|..] else [])
  {
    var tail := if p + |text| <= |span.text| then span.text[p + |text|..] else [];
    span' := span.(text := span.text[..p] + text + tail);
    PaintAppend(span.text[..p] + text, tail, span.color, span.style);
    PaintAppend(span.text[..p], text, span.color, span.style);
    assert Paint(span.text[..p], span.color, span.style) == RunCells(span)[..p];
  }

  /** Replaces the start of a <span>: the whole of it, or its first |text| units. */
  method SpliceBefore(left: seq<Run>, span: Run, right: seq<Run>, text: seq<CodeUnit>, color: Color, style: Style)
    returns (left': seq<Run>, span': Run, right': seq<Run>)
    requires Merged(left) && Merged([span] + right)
    ensures span' == Run(text, color, style) && left' == left && Merged(right')
    ensures Flatten(right') == (if |text| <= |span.text| then RunCells(span)[|text|..] else []) + Flatten(right)
  {
    MergedCons(span, right);
    left', span', right' := left, Run(text, color, style), right;
    if |text| < |span.text| {
      right' := [span.(text := span.text[|text|..])] + right;
      MergedCons(right'[0], right);
      PrependRest(span, |text|, right);
    }
  }

  /** Replaces a piece of a <span> from its unit p on: the units before stay in it, the ones behind the
      text go into a new <span> that looks the same. */
  method SpliceInside(left: seq<Run>, span: Run, right: seq<Run>, p: nat, text: seq<CodeUnit>, color: Color,
    style: Style)
    returns (left': seq<Run>, span': Run, right': seq<Run>)
    requires p <= |span.text| && Merged(left + [span]) && Merged([span] + right)
    ensures span' == Run(text, color, style) && Merged(left') && Merged(right')
    ensures Flatten(left') == Flatten(left) + RunCells(span)[..p]
    ensures Flatten(right') == (if p + |text| <= |span.text| then RunCells(span)[p + |text|..] else []) + Flatten(right)
  {
    MergedCons(span, right);
    MergedSnoc(left, span);
    var before := span.(text := span.text[..p]);
    MergedSnoc(left, before);
    left', span', right' := left + [before], Run(text, color, style), right;
    FlattenAppend(left, [before]);
    assert Flatten([before]) == RunCells(before) == RunCells(span)[..p];
    if p + |text| < |span.text| {
      right' := [span.(text := span.text[p + |text|..])] + right;
      MergedCons(right'[0], right);
      PrependRest(span, p + |text|, right);
    }
  }

  lemma PrependRest(span: Run, n: nat, right: seq<Run>)
    requires n <= |span.text|
    ensures Flatten([span.(text := span.text[n..])] + right) == RunCells(span)[n..] + Flatten(right)
  {
    FlattenAppend([span.(text := span.text[n..])], right);
    assert Flatten([span.(text := span.text[n..])]) == RunCells(span)[n..];
  }

  /** Deletes the cells that the new text has run over from the following <span>s. */
  method DeleteOverrun(right: seq<Run>, del0: int) returns (out: seq<Run>)
    requires Merged(right)
    ensures Merged(out)
    ensures Flatten(out) == Flatten(right)[Min(Max(del0, 0), |Flatten(right)|)..]
  {
    out := right;
    var del := Max(del0, 0);
    while del > 0 && out != []
      invariant 0 <= del <= Max(del0, 0) && Merged(out)
      invariant Max(del0, 0) - del <= |Flatten(right)|
      invariant Flatten(out) == Flatten(right)[Max(del0, 0) - del..]
      decreases |out|
    {
      var s := out[0].text;
      if |s| <= del {
        del := del - |s|;
        out := out[1..];
      } else {
        PrependRest(out[0], del, out[1..]);
        out := [out[0].(text := s[del..])] + out[1..];
        del := 0;
        break;
      }
    }
  }

  /** Merges the written <span> with the next one, when both look the same. */
  method MergeNext(span: Run, right: seq<Run>) returns (span': Run, right': seq<Run>)
    requires Merged(right)
    ensures SameLook(span, span') && Merged([span'] + right')
    ensures RunCells(span') + Flatten(right') == RunCells(span) + Flatten(right)
  {
    span', right' := span, right;
    if right != [] && SameLook(span, right[0]) {
      span', right' := span.(text := span.text + right[0].text), right[1..];
      PaintAppend(span.text, right[0].text, span.color, span.style);
      assert right == [right[0]] + right[1..];
      MergedCons(right[0], right[1..]);
    }
    MergedCons(span', right');
  }

  /** Merges the written <span> with the one before it, when both look the same. */
  method MergePrevious(left: seq<Run>, span: Run, right: seq<Run>) returns (runs: seq<Run>)
    requires Merged(left) && Merged([span] + right)
    ensures runs != [] && Merged(runs)
    ensures Flatten(runs) == Flatten(left) + RunCells(span) + Flatten(right)
  {
    hide Flatten;
    var left', span' := left, span;
    if left != [] && SameLook(left[|left| - 1], span) {
      left', span' := left[..|left| - 1], span.(text := left[|left| - 1].text + span.text);
      PaintAppend(left[|left| - 1].text, span.text, span.color, span.style);
      FlattenSnoc(left, |left| - 1);
      assert left[..|left|] == left == left' + [left[|left| - 1]];
      assert RunCells(span') == RunCells(left[|left| - 1]) + RunCells(span);
      MergedSnoc(left', left[|left| - 1]);
      MergedCons(span, right);
      MergedCons(span', right);
    }
    runs := left' + [span'] + right;
    MergedJoin(left', span', right);
    FlattenAppend(left' + [span'], right);
    FlattenAppend(left', [span']);
    FlattenSingle(span');
    assert Flatten(left') + RunCells(span') == Flatten(left) + RunCells(span);
  }

  lemma MergedJoin(left: seq<Run>, span: Run, right: seq<Run>)
    requires Merged(left) && (left != [] ==> !SameLook(left[|left| - 1], span)) && Merged([span] + right)
    ensures Merged(left + [span] + right)
  {
    var all, tail := left + [span] + right, [span] + right;
    forall i | 0 < i < |all| ensures !SameLook(all[i - 1], all[i]) {
      if i < |left| {
        assert all[i - 1] == left[i - 1] && all[i] == left[i];
      } else if i > |left| {
        assert all[i - 1] == tail[i - |left| - 1] && all[i] == tail[i - |left|];
      }
    }
  }

  /** Prunes blank <span>s with default look from the end of the row; a row that loses all of them
      becomes a <pre>. What the row shows does not change. */
  method Prune(runs: seq<Run>) returns (row: Row)
    requires runs != [] && Merged(runs)
    ensures |RowCells(row)| <= |Flatten(runs)| && PadTo(RowCells(row), |Flatten(runs)|) == Flatten(runs)
    ensures row.Div? ==> row.runs != [] && Merged(row.runs) && !Prunable(row.runs[|row.runs| - 1])
  {
    var rest := runs;
    while Prunable(rest[|rest| - 1])
      invariant rest != [] && Merged(rest) && |Flatten(rest)| <= |Flatten(runs)|
      invariant PadTo(Flatten(rest), |Flatten(runs)|) == Flatten(runs)
      decreases |rest|
    {
      var last := |rest| - 1;
      FlattenSplit(rest, last);
      assert RunCells(rest[last]) == Repeat(BLANK, |rest[last].text|);
      PadShorter(Flatten(rest[..last]), |rest[last].text|, |Flatten(runs)|);
      if last == 0 {
        row := Pre;
        return;
      }
      rest := rest[..last];
    }
    row := Div(rest);
  }

  lemma PadShorter(cells: seq<Cell>, n: nat, w: nat)
    requires |cells| + n <= w
    ensures PadTo(cells + Repeat(BLANK, n), w) == PadTo(cells, w)
  {
  }

  /** Once the overrun is deleted, the row is the old one, padded, with the text written over it. */
  lemma WrittenOverrun(before: seq<Cell>, all: seq<Cell>, x: nat, text: seq<Cell>, del: int, front: seq<Cell>,
    rest: seq<Cell>)
    requires all == PadTo(before, Max(|before|, x)) && del <= |text| && text != []
    requires x + |text| - Max(del, 0) <= |all|
    requires front + rest == all[..x] + text + all[x + |text| - Max(del, 0)..]
    requires del > 0 ==> front == all[..x] + text
    ensures var n := Max(|before|, x + |text|);
      front + rest[Min(Max(del, 0), |rest|)..] == Overwrite(PadTo(before, n), x, text)
  {
    var n := Max(|before|, x + |text|);
    var padded := PadTo(before, n);
    assert padded[..x] == all[..x];
    if del <= 0 {
      assert all == before;
      assert rest[0..] == rest;
      assert all[x + |text|..] == padded[x + |text|..];
    } else {
      assert rest == (front + rest)[|front|..] == all[x + |text| - del..];
      if del <= |rest| {
        assert rest[del..] == all[x + |text|..] == padded[x + |text|..];
      } else {
        assert padded[x + |text|..] == [];
      }
    }
  }

  /** VT100.putString, on the row it writes to: exactly the cells [x, x + |text|) of what the row shows are
      replaced, the row being continued with default blanks where it is too short. */
  method WriteRow(runs: seq<Run>, x: nat, text: seq<CodeUnit>, color: Color, style: Style) returns (row: Row)
    requires runs != [] && Merged(runs) && text != [] && color != Unset
    ensures row.Div? ==> row.runs != [] && Merged(row.runs) && !Prunable(row.runs[|row.runs| - 1])
    ensures var n := Max(|Flatten(runs)|, x + |text|);
      |RowCells(row)| <= n && PadTo(RowCells(row), n)
        == Overwrite(PadTo(Flatten(runs), n), x, Paint(text, color, style))
  {
    hide Flatten, RunCells, Merged, Overwrite, PadTo;
    var left, span, right := WriteRuns(runs, x, text, color, style);
    span, right := MergeNext(span, right);
    var merged := MergePrevious(left, span, right);
    assert Flatten(merged) == Flatten(left) + (RunCells(span) + Flatten(right));
    row := Prune(merged);
  }

  /** The part of VT100.putString before the merging: splits, pads, overwrites, deletes overrun <span>s. */
  method WriteRuns(runs: seq<Run>, x: nat, text: seq<CodeUnit>, color: Color, style: Style)
    returns (left: seq<Run>, span: Run, right: seq<Run>)
    requires runs != [] && Merged(runs) && text != []
    ensures Merged(left) && Merged(right)
    ensures Flatten(left) + (RunCells(span) + Flatten(right))
         == Overwrite(PadTo(Flatten(runs), Max(|Flatten(runs)|, x + |text|)), x, Paint(text, color, style))
  {
    hide Flatten, Merged, RunCells, Overwrite, PadTo;
    var k, xPos := FindRun(runs, x);
    var padded;
    padded, k, xPos := PadRuns(runs, k, xPos, x);
    var del;
    left, span, right, del := SpliceText(padded, k, xPos, x, text, color, style);
    ghost var front, rest := Flatten(left) + RunCells(span), Flatten(right);
    right := DeleteOverrun(right, del);
    WrittenOverrun(Flatten(runs), Flatten(padded), x, Paint(text, color, style), del, front, rest);
    assert Flatten(left) + (RunCells(span) + Flatten(right)) == front + Flatten(right);
  }

  /** VT100.copyLineSegment, the part that reads: w cells from column sX on, as pieces of equal look. */
  method CollectSegments(runs: seq<Run>, sX: nat, w0: nat, width: nat) returns (segments: seq<Run>)
    requires |Flatten(runs)| <= width && sX + w0 <= width
    ensures Flatten(segments) == PadTo(Flatten(runs), width)[sX..sX + w0]
  {
    hide Flatten, RunCells, PadTo;
    segments := [];
    var k, x, w: int := 0, 0, w0;
    FlattenNothing();
    assert runs[..0] == [];
    while k < |runs| && w > 0
      invariant k <= |runs| && x == |Flatten(runs[..k])| && w == w0 - Max(0, x - sX)
      invariant Flatten(segments) == Flatten(runs[..k])[Min(sX, x)..Min(x, sX + w0)]
      decreases |runs| - k
    {
      var s := runs[k].text;
      var len := |s|;
      FlattenSnoc(runs, k);
      var o := if sX > x then sX - x else 0;
      if x + len > sX {
        var piece := runs[k].(text := s[o..Min(o + w, len)]);
        FlattenAppend(segments, [piece]);
        FlattenSingle(piece);
        PaintSlice(runs[k], o, Min(o + w, len));
        WindowGrows(Flatten(runs[..k]), RunCells(runs[k]), sX, w0);
        segments := segments + [piece];
        w := w - (len - o);
      } else {
        assert (Flatten(runs[..k]) + RunCells(runs[k]))[x + len..x + len] == [];
      }
      x := x + len;
      k := k + 1;
    }
    FlattenPrefix(runs, k);
    assert k == |runs| ==> runs[..k] == runs;
    WindowEnds(Flatten(runs), Flatten(runs[..k]), sX, w0, width);
    if w > 0 {
      var rest := Run(Spaces(w), Unset, Plain);
      FlattenAppend(segments, [rest]);
      FlattenSingle(rest);
      PaintBlanks(rest, w);
      segments := segments + [rest];
    }
  }

  lemma FlattenNothing()
    ensures Flatten([]) == []
  {
  }

  lemma FlattenPrefix(runs: seq<Run>, k: nat)
    requires k <= |runs|
    ensures Flatten(runs[..k]) <= Flatten(runs)
  {
    hide Flatten;
    assert runs == runs[..k] + runs[k..];
    FlattenAppend(runs[..k], runs[k..]);
  }

  lemma PaintSlice(r: Run, lo: nat, hi: nat)
    requires lo <= hi <= |r.text|
    ensures RunCells(r.(text := r.text[lo..hi])) == RunCells(r)[lo..hi]
  {
  }

  lemma PaintBlanks(r: Run, n: nat)
    requires r == Run(Spaces(n), Unset, Plain)
    ensures RunCells(r) == Repeat(BLANK, n)
  {
  }

  lemma WindowGrows(front: seq<Cell>, span: seq<Cell>, sX: nat, w: nat)
    requires |front| < sX + w && sX < |front| + |span|
    ensures var x, n := |front|, |front| + |span|;
      var o := Max(sX - x, 0);
      var rest := w - Max(0, x - sX);
      (front + span)[Min(sX, n)..Min(n, sX + w)] == front[Min(sX, x)..Min(x, sX + w)] + span[o..Min(o + rest, |span|)]
  {
  }

  lemma WindowEnds(all: seq<Cell>, front: seq<Cell>, sX: nat, w: nat, width: nat)
    requires front <= all && |all| <= width && sX + w <= width
    requires front == all || w <= Max(0, |front| - sX)
    ensures var x := |front|; var rest := w - Max(0, x - sX);
      PadTo(all, width)[sX..sX + w] == front[Min(sX, x)..Min(x, sX + w)] + Repeat(BLANK, Max(rest, 0))
  {
  }

  /** What is read of a row that is missing or a <pre>. */
  lemma BlankSegment(w: nat, width: nat, sX: nat)
    requires sX + w <= width
    ensures Flatten([Run(Spaces(w), Unset, Plain)]) == PadTo([], width)[sX..sX + w] == Repeat(BLANK, width)[sX..sX + w]
  {
    FlattenSingle(Run(Spaces(w), Unset, Plain));
    PaintBlanks(Run(Spaces(w), Unset, Plain), w);
  }
}
