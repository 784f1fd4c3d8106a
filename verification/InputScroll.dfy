/** The wrapping input window: koder_agent/core/interactive.py, class _InputWindow. */
module InputScroll {
  import opened Prelude

  datatype Fragment = Fragment(style: string, text: string)

  datatype Content = Content(lines: seq<seq<Fragment>>, cursorX: int, cursorY: nat)

  predicate Shaped(c: Content)
  {
    c.cursorY < |c.lines|
  }

  const ZERO_WIDTH := "[ZeroWidthEscape]"

  predicate Contains(s: string, part: string)
  {
    part <= s || (s != "" && Contains(s[1..], part))
  }

  predicate Stands(s: string, part: string, i: nat)
  {
    i + |part| <= |s| && s[i..i + |part|] == part
  }

  lemma {:induction false} ContainsIff(s: string, part: string)
    ensures Contains(s, part) <==> exists i: nat :: Stands(s, part, i)
  {
    if part <= s {
      assert Stands(s, part, 0);
    } else if s != "" {
      ContainsIff(s[1..], part);
      if Contains(s[1..], part) {
        var i: nat :| Stands(s[1..], part, i);
        assert Stands(s, part, i + 1);
      }
      if i: nat :| Stands(s, part, i) {
        assert i > 0 && Stands(s[1..], part, i - 1);
      }
    }
  }

  function Min(a: int, b: int): int
  {
    if b < a then b else a
  }

  function Max(a: int, b: int): int
  {
    if b > a then b else a
  }

  function Distance(a: int, b: int): nat
  {
    if a < b then b - a else a - b
  }

  // ------------------------------------------------------------------- wrapping

  /** The characters that take part in wrapping. */
  function Visible(line: seq<Fragment>): string
  {
    if line == [] then ""
    else
      var last := line[|line| - 1];
      Visible(line[..|line| - 1]) + (if Contains(last.style, ZERO_WIDTH) then "" else last.text)
  }

  /** The row of the last character drawn and the columns used on it. */
  datatype Pen = Pen(row: nat, x: nat)

  function Drawn(width: int, w: char -> nat, s: string): Pen
    decreases |s|
  {
    if s == "" then Pen(0, 0)
    else
      var pen := Drawn(width, w, s[..|s| - 1]);
      var size := w(s[|s| - 1]);
      if pen.x + size > width then Pen(pen.row + 1, size) else Pen(pen.row, pen.x + size)
  }

  /** The row on which character k is drawn. */
  function RowOf(width: int, w: char -> nat, s: string, k: nat): nat
    requires k < |s|
  {
    Drawn(width, w, s[..k + 1]).row
  }

  function Rows(width: int, w: char -> nat, s: string): nat
  {
    Drawn(width, w, s).row + 1
  }

  function CursorRow(width: int, w: char -> nat, s: string, column: Option<int>): Option<nat>
  {
    if column.Some? && 0 <= column.value < |s| then Some(RowOf(width, w, s, column.value)) else None
  }

  function Span(w: char -> nat, s: string): nat
  {
    if s == "" then 0 else Span(w, s[..|s| - 1]) + w(s[|s| - 1])
  }

  lemma DrawOne(width: int, w: char -> nat, s: string, k: nat)
    requires k < |s|
    ensures var pen := Drawn(width, w, s[..k]);
            Drawn(width, w, s[..k + 1]) ==
              if pen.x + w(s[k]) > width then Pen(pen.row + 1, w(s[k])) else Pen(pen.row, pen.x + w(s[k]))
  {
    assert s[..k + 1][..k] == s[..k];
  }

  lemma SpanOne(w: char -> nat, s: string, j: nat, k: nat)
    requires j <= k < |s|
    ensures Span(w, s[j..k + 1]) == Span(w, s[j..k]) + w(s[k])
  {
    assert s[j..k + 1][..k - j] == s[j..k];
  }

  /** The columns used on a row are the widths of its characters so far. */
  lemma {:induction false} RowHolds(width: int, w: char -> nat, s: string, j: nat, k: nat)
    requires j <= k < |s| && RowOf(width, w, s, j) == RowOf(width, w, s, k)
    requires j > 0 ==> RowOf(width, w, s, j - 1) < RowOf(width, w, s, j)
    ensures Drawn(width, w, s[..k + 1]).x == Span(w, s[j..k + 1])
    decreases k
  {
    DrawOne(width, w, s, k);
    SpanOne(w, s, j, k);
    if j < k {
      RowsGrow(width, w, s, j, k - 1);
      RowHolds(width, w, s, j, k - 1);
    } else {
      assert s[j..k] == "";
      if j > 0 {
        assert s[..j - 1 + 1] == s[..j];
      } else {
        assert s[..0] == "";
      }
    }
  }

  lemma {:induction false} RowsGrow(width: int, w: char -> nat, s: string, j: nat, k: nat)
    requires j <= k < |s|
    ensures RowOf(width, w, s, j) <= RowOf(width, w, s, k) <= RowOf(width, w, s, j) + (k - j)
    decreases k
  {
    if j < k {
      DrawOne(width, w, s, k);
      assert s[..k - 1 + 1] == s[..k];
      RowsGrow(width, w, s, j, k - 1);
    }
  }

  /** Every row fits the window, unless a single character is wider than the window. */
  lemma {:induction false} RowsFit(width: int, w: char -> nat, s: string, j: nat, k: nat)
    requires j < k < |s| && RowOf(width, w, s, j) == RowOf(width, w, s, k)
    ensures Span(w, s[j..k + 1]) <= width
  {
    var i := RowStart(width, w, s, j);
    RowsGrow(width, w, s, i, j);
    RowHolds(width, w, s, i, k);
    DrawOne(width, w, s, k);
    RowsGrow(width, w, s, j, k - 1);
    assert s[..k - 1 + 1] == s[..k];
    SpanOfPart(w, s, i, j, k + 1);
  }

  lemma {:induction false} SpanOfPart(w: char -> nat, s: string, i: nat, j: nat, k: nat)
    requires i <= j <= k <= |s|
    ensures Span(w, s[j..k]) <= Span(w, s[i..k])
    decreases k
  {
    if j < k {
      SpanOne(w, s, j, k - 1);
      SpanOne(w, s, i, k - 1);
      SpanOfPart(w, s, i, j, k - 1);
    } else {
      assert s[j..k] == "";
    }
  }

  lemma {:induction false} RowStart(width: int, w: char -> nat, s: string, k: nat) returns (j: nat)
    requires k < |s|
    ensures j <= k && RowOf(width, w, s, j) == RowOf(width, w, s, k)
    ensures j > 0 ==> RowOf(width, w, s, j - 1) < RowOf(width, w, s, j)
    decreases k
  {
    j := k;
    if k > 0 {
      RowsGrow(width, w, s, k - 1, k);
      if RowOf(width, w, s, k - 1) == RowOf(width, w, s, k) {
        j := RowStart(width, w, s, k - 1);
      }
    }
  }

  /** A row ends only where the next character does not fit on it. */
  lemma {:induction false} BreaksAreNeeded(width: int, w: char -> nat, s: string, j: nat, k: nat)
    requires j < k < |s| && RowOf(width, w, s, j) == RowOf(width, w, s, k - 1) < RowOf(width, w, s, k)
    requires j > 0 ==> RowOf(width, w, s, j - 1) < RowOf(width, w, s, j)
    ensures Span(w, s[j..k + 1]) > width
  {
    RowHolds(width, w, s, j, k - 1);
    assert s[..k - 1 + 1] == s[..k];
    DrawOne(width, w, s, k);
    SpanOne(w, s, j, k);
  }

  /** Rows count from 0: the first character is on the first row if the window is wide enough
      for it, and a text has one row more than its last character's number, or one. */
  lemma RowsCount(width: int, w: char -> nat, s: string)
    ensures s == "" ==> Rows(width, w, s) == 1
    ensures s != "" ==> Rows(width, w, s) == RowOf(width, w, s, |s| - 1) + 1
    ensures s != "" ==> RowOf(width, w, s, 0) == if w(s[0]) <= width then 0 else 1
  {
    if s != "" {
      assert s[..|s| - 1 + 1] == s;
      DrawOne(width, w, s, 0);
      assert s[..0] == "";
    }
  }

  // ------------------------------------------------------------------ scrolling

  function Sum(h: seq<nat>, a: nat, b: nat): nat
    requires b <= |h|
    decreases b - a
  {
    if a >= b then 0 else h[a] + Sum(h, a + 1, b)
  }

  /** Going up from line i while the lines up to `end` fit the limit. */
  function BackUp(h: seq<nat>, i: nat, end: nat, limit: int): (m: nat)
    requires i <= end <= |h|
    ensures m <= i
  {
    if i == 0 || Sum(h, i - 1, end) > limit then i else BackUp(h, i - 1, end, limit)
  }

  /** BackUp finds exactly the starts from which the lines before `end` fit. */
  lemma {:induction false} BackUpIff(h: seq<nat>, i: nat, end: nat, limit: int, m: nat)
    requires m <= i <= end <= |h|
    ensures BackUp(h, i, end, limit) <= m <==> m == i || Sum(h, m, end) <= limit
    decreases i
  {
    if i > 0 && m < i {
      SumShrinks(h, m, i - 1, end);
      if Sum(h, i - 1, end) <= limit {
        BackUpIff(h, i - 1, end, limit, m);
      }
    }
  }

  lemma {:induction false} SumShrinks(h: seq<nat>, a: nat, b: nat, end: nat)
    requires a <= b <= end <= |h|
    ensures Sum(h, b, end) <= Sum(h, a, end)
    decreases b - a
  {
    if a < b {
      SumShrinks(h, a + 1, b, end);
    }
  }

  lemma {:induction false} SumSplits(h: seq<nat>, a: nat, b: nat, end: nat)
    requires a <= b <= end <= |h|
    ensures Sum(h, a, end) == Sum(h, a, b) + Sum(h, b, end)
    decreases b - a
  {
    if a < b {
      SumSplits(h, a + 1, b, end);
    }
  }

  /** The highest position that still fills the window to its last row. */
  function Topmost(h: seq<nat>, height: int): nat
    requires |h| > 0
  {
    Min(BackUp(h, |h|, |h|, height), |h| - 1)
  }

  /** The previous position, moved between the limits. */
  function Clamp(was: int, lowest: int, highest: int, topmost: int, beyond: bool): int
  {
    var v := Min(Max(was, Min(topmost, lowest)), highest);
    Max(0, if beyond then v else Min(v, topmost))
  }

  function ScrollTo(h: seq<nat>, y: nat, height: int, top: nat, bottom: nat, beyond: bool, was: int): int
    requires y < |h|
  {
    Clamp(was, Min(BackUp(h, y + 1, y + 1, height - bottom), y), BackUp(h, y, y, top), Topmost(h, height), beyond)
  }

  /** Within the cursor's own line, when it is taller than the window. */
  function ScrollWithin(row: nat, rows: nat, height: int, was: int): int
  {
    Min(Max(was, Max(0, row - height + 1)), Min(row, Max(0, rows - height)))
  }

  /** The window shows the whole cursor line when it starts at line v. */
  predicate Shows(h: seq<nat>, y: nat, height: int, v: int)
    requires y < |h|
  {
    0 <= v <= y && Sum(h, v, y + 1) <= height
  }

  /** From any previous position and with any offsets the cursor's line ends up whole in
      the window. */
  lemma CursorIsShown(h: seq<nat>, y: nat, height: int, top: nat, bottom: nat, beyond: bool, was: int)
    requires y < |h| && h[y] <= height - top
    ensures Shows(h, y, height, ScrollTo(h, y, height, top, bottom, beyond, was))
  {
    var low := BackUp(h, y + 1, y + 1, height);
    BackUpIff(h, y + 1, y + 1, height, y);
    forall v: nat | low <= v <= y ensures Shows(h, y, height, v) {
      BackUpIff(h, y + 1, y + 1, height, v);
    }
    LowestIsHighEnough(h, y, height, bottom);
    HighestIsHighEnough(h, y, height, top);
    TopmostIsHighEnough(h, y, height);
  }

  lemma LowestIsHighEnough(h: seq<nat>, y: nat, height: int, bottom: nat)
    requires y < |h| && h[y] <= height
    ensures Min(BackUp(h, y + 1, y + 1, height - bottom), y) >= BackUp(h, y + 1, y + 1, height)
  {
    var m := Min(BackUp(h, y + 1, y + 1, height - bottom), y);
    BackUpIff(h, y + 1, y + 1, height, y);
    BackUpIff(h, y + 1, y + 1, height - bottom, m);
    BackUpIff(h, y + 1, y + 1, height, m);
  }

  lemma HighestIsHighEnough(h: seq<nat>, y: nat, height: int, top: nat)
    requires y < |h| && h[y] <= height - top
    ensures BackUp(h, y, y, top) >= BackUp(h, y + 1, y + 1, height)
  {
    var m := BackUp(h, y, y, top);
    BackUpIff(h, y, y, top, m);
    SumSplits(h, m, y, y + 1);
    assert Sum(h, y, y + 1) == h[y];
    BackUpIff(h, y + 1, y + 1, height, m);
  }

  lemma TopmostIsHighEnough(h: seq<nat>, y: nat, height: int)
    requires y < |h| && h[y] <= height
    ensures Topmost(h, height) >= BackUp(h, y + 1, y + 1, height)
  {
    var m := Topmost(h, height);
    BackUpIff(h, y + 1, y + 1, height, y);
    if m <= y && m < |h| - 1 {
      BackUpIff(h, |h|, |h|, height, m);
      SumSplits(h, m, y + 1, |h|);
      BackUpIff(h, y + 1, y + 1, height, m);
    }
  }

  /** With no scroll offsets the window moves no further than it must: no position that
      shows the cursor's line, and that does not scroll past the end where that is not
      allowed, is nearer to the previous one. */
  lemma MovesLeast(h: seq<nat>, y: nat, height: int, beyond: bool, was: int, v: int)
    requires y < |h| && h[y] <= height && Shows(h, y, height, v) && (beyond || v <= Topmost(h, height))
    requires forall i :: 0 <= i < |h| ==> h[i] >= 1
    ensures Distance(was, ScrollTo(h, y, height, 0, 0, beyond, was)) <= Distance(was, v)
  {
    BackUpIff(h, y + 1, y + 1, height, v);
    BackUpIff(h, y + 1, y + 1, height, y);
    TopmostIsHighEnough(h, y, height);
    assert BackUp(h, y, y, 0) == y by {
      if y > 0 {
        assert Sum(h, y - 1, y) == h[y - 1];
      }
    }
  }

  /** Where scrolling past the end is not allowed no line is hidden above that would still
      fit below. */
  lemma WindowStaysFull(h: seq<nat>, y: nat, height: int, top: nat, bottom: nat, was: int)
    requires y < |h|
    ensures var v := ScrollTo(h, y, height, top, bottom, false, was);
            0 <= v <= y && (v > 0 ==> Sum(h, v - 1, |h|) > height)
  {
    var v := ScrollTo(h, y, height, top, bottom, false, was);
    if v > 0 {
      BackUpIff(h, |h|, |h|, height, v - 1);
    }
  }

  /** Below the start of the text the cursor's line is not so high that one more line above it
      would still fit the offset at the top. */
  lemma TopOffsetIsKept(h: seq<nat>, y: nat, height: int, top: nat, bottom: nat, beyond: bool, was: int)
    requires y < |h|
    ensures var v := ScrollTo(h, y, height, top, bottom, beyond, was);
            0 <= v <= y && (v > 0 ==> Sum(h, v - 1, y) > top)
  {
    var v := ScrollTo(h, y, height, top, bottom, beyond, was);
    if v > 0 {
      BackUpIff(h, y, y, top, v - 1);
    }
  }

  lemma ClampKeepsLowest(was: int, lowest: int, highest: int, topmost: int, beyond: bool)
    ensures var v := Clamp(was, lowest, highest, topmost, beyond);
            v >= lowest || v >= highest || v >= topmost
  {
  }

  /** And the offset at the bottom is kept too, wherever neither the one at the top nor the
      end of the text stands against it. */
  lemma BottomOffsetIsKept(h: seq<nat>, y: nat, height: int, top: nat, bottom: nat, beyond: bool, was: int)
    requires y < |h| && h[y] <= height - bottom
    ensures var v := ScrollTo(h, y, height, top, bottom, beyond, was);
            0 <= v <= y && (Sum(h, v, y) > top && Sum(h, v, |h|) > height ==> Sum(h, v, y + 1) <= height - bottom)
  {
    TopOffsetIsKept(h, y, height, top, bottom, beyond, was);
    var v: nat := ScrollTo(h, y, height, top, bottom, beyond, was);
    if Sum(h, v, y) > top && Sum(h, v, |h|) > height {
      ClampKeepsLowest(was, Min(BackUp(h, y + 1, y + 1, height - bottom), y), BackUp(h, y, y, top), Topmost(h, height), beyond);
      BackUpIff(h, y, y, top, v);
      BackUpIff(h, |h|, |h|, height, v);
      BottomFits(h, y, height - bottom, v);
    }
  }

  lemma BottomFits(h: seq<nat>, y: nat, limit: int, v: nat)
    requires y < |h| && h[y] <= limit && Min(BackUp(h, y + 1, y + 1, limit), y) <= v <= y
    ensures Sum(h, v, y + 1) <= limit
  {
    assert Sum(h, y, y + 1) == h[y];
    BackUpIff(h, y + 1, y + 1, limit, y);
    BackUpIff(h, y + 1, y + 1, limit, v);
  }

  /** Scrolling again from the new position changes nothing. */
  lemma ScrollIsStable(h: seq<nat>, y: nat, height: int, top: nat, bottom: nat, beyond: bool, was: int)
    requires y < |h|
    ensures var v := ScrollTo(h, y, height, top, bottom, beyond, was);
            ScrollTo(h, y, height, top, bottom, beyond, v) == v
  {
  }

  /** A line taller than the window is scrolled by rows: the cursor's row is shown, no row
      past the line's end is, and no position with both is nearer to the previous one. */
  lemma CursorRowIsShown(row: nat, rows: nat, height: int, was: int)
    requires row < rows && height > 0
    ensures var v := ScrollWithin(row, rows, height, was);
            && 0 <= v <= row < v + height && (v > 0 ==> v + height <= rows)
            && forall u :: 0 <= u <= row < u + height && (u > 0 ==> u + height <= rows) ==>
                 Distance(was, v) <= Distance(was, u)
  {
  }

  // ------------------------------------------------------------------ the window

  /** The rendered rows of every line. */
  function Heights(c: Content, width: int, w: char -> nat): (h: seq<nat>)
    ensures |h| == |c.lines| && forall i :: 0 <= i < |h| ==> h[i] >= 1
  {
    seq(|c.lines|, i requires 0 <= i < |c.lines| => Rows(width, w, Visible(c.lines[i])))
  }

  lemma DrawNext(width: int, w: char -> nat, s: string, c: char, column: Option<int>)
    ensures var pen, next := Drawn(width, w, s), Drawn(width, w, s + [c]);
            && next == (if pen.x + w(c) > width then Pen(pen.row + 1, w(c)) else Pen(pen.row, pen.x + w(c)))
            && CursorRow(width, w, s + [c], column) ==
                 if column == Some(|s|) then Some(next.row) else CursorRow(width, w, s, column)
  {
    assert (s + [c])[..|s|] == s && (s + [c])[..|s| + 1] == s + [c];
    if column.Some? && 0 <= column.value < |s| {
      assert (s + [c])[..column.value + 1] == s[..column.value + 1];
    }
  }

  /** The loop's variables after the characters of `s`. */
  ghost predicate Traced(width: int, w: char -> nat, s: string, column: Option<int>, pen: Pen, col: nat, found: Option<nat>)
  {
    Drawn(width, w, s) == pen && col == |s| && found == CursorRow(width, w, s, column)
  }

  lemma TraceNext(width: int, w: char -> nat, before: string, text: string, j: nat, column: Option<int>,
                  pen: Pen, found: Option<nat>)
    requires j < |text| && Traced(width, w, before + text[..j], column, pen, |before| + j, found)
    ensures var next := if pen.x + w(text[j]) > width then Pen(pen.row + 1, w(text[j])) else Pen(pen.row, pen.x + w(text[j]));
            Traced(width, w, before + text[..j + 1], column, next, |before| + j + 1,
                   if column == Some(|before| + j) then Some(next.row) else found)
  {
    DrawNext(width, w, before + text[..j], text[j], column);
    assert before + text[..j] + [text[j]] == before + text[..j + 1];
  }

  lemma VisibleOne(line: seq<Fragment>, i: nat)
    requires i < |line|
    ensures Visible(line[..i + 1]) ==
      Visible(line[..i]) + (if Contains(line[i].style, ZERO_WIDTH) then "" else line[i].text)
  {
    assert line[..i + 1][..i] == line[..i];
  }

  class InputWindow {
    var verticalScroll: int
    var verticalScroll2: int
    const charWidth: char -> nat
    const top: nat
    const bottom: nat
    const hasLinePrefix: bool
    const beyondBottom: bool

    constructor (charWidth: char -> nat, top: nat, bottom: nat, hasLinePrefix: bool, beyondBottom: bool)
      ensures this.charWidth == charWidth && this.top == top && this.bottom == bottom
      ensures this.hasLinePrefix == hasLinePrefix && this.beyondBottom == beyondBottom
      ensures verticalScroll == verticalScroll2 == 0
    {
      this.charWidth, this.top, this.bottom := charWidth, top, bottom;
      this.hasLinePrefix, this.beyondBottom := hasLinePrefix, beyondBottom;
      verticalScroll, verticalScroll2 := 0, 0;
    }

    /** The inner loop: the characters of one fragment, from where `seen` ended. */
    method DrawFragment(text: string, width: int, column: Option<int>, pen: Pen, col: nat, found: Option<nat>, ghost seen: string)
      returns (pen': Pen, col': nat, found': Option<nat>)
      requires Traced(width, charWidth, seen, column, pen, col, found)
      ensures Traced(width, charWidth, seen + text, column, pen', col', found')
    {
      var row: nat, x: nat := pen.row, pen.x;
      col', found' := col, found;
      assert seen + text[..0] == seen;
      for j := 0 to |text|
        invariant col' == |seen| + j
        invariant Traced(width, charWidth, seen + text[..j], column, Pen(row, x), col', found')
      {
        TraceNext(width, charWidth, seen, text, j, column, Pen(row, x), found');
        var size := charWidth(text[j]);
        if x + size > width {
          row := row + 1;
          x := 0;
        }
        if column.Some? && col' == column.value {
          found' := Some(row);
        }
        col' := col' + 1;
        x := x + size;
      }
      assert text[..|text|] == text;
      pen' := Pen(row, x);
    }

    method WrappedLineMetrics(content: Content, width: int, lineno: nat, column: Option<int>)
      returns (cursorRow: Option<nat>, rows: nat)
      requires lineno < |content.lines|
      ensures cursorRow == CursorRow(width, charWidth, Visible(content.lines[lineno]), column)
      ensures rows == Rows(width, charWidth, Visible(content.lines[lineno]))
    {
      var line := content.lines[lineno];
      cursorRow := None;
      var pen, col: nat := Pen(0, 0), 0;
      for i := 0 to |line|
        invariant Drawn(width, charWidth, Visible(line[..i])) == pen
        invariant col == |Visible(line[..i])|
        invariant cursorRow == CursorRow(width, charWidth, Visible(line[..i]), column)
      {
        VisibleOne(line, i);
        if Contains(line[i].style, ZERO_WIDTH) {
          assert Visible(line[..i + 1]) == Visible(line[..i]);
          continue;
        }
        pen, col, cursorRow := DrawFragment(line[i].text, width, column, pen, col, cursorRow, Visible(line[..i]));
      }
      assert line[..|line|] == line;
      rows := pen.row + 1;
    }

    /** Each of the three backward loops: from line `from` up, as long as the lines passed
        fit the limit; `start` is the answer if even the first does not. */
    method FirstThatFits(content: Content, width: int, from: int, start: nat, limit: int) returns (m: nat)
      requires -1 <= from < |content.lines| && (start == from || start == from + 1)
      ensures m == Min(BackUp(Heights(content, width, charWidth), from + 1, from + 1, limit), start)
    {
      ghost var h := Heights(content, width, charWidth);
      var used: nat := 0;
      var lineno := from;
      m := start;
      while lineno >= 0
        invariant -1 <= lineno <= from
        invariant used == Sum(h, lineno + 1, from + 1)
        invariant m == Min(lineno + 1, start)
        invariant BackUp(h, from + 1, from + 1, limit) == BackUp(h, lineno + 1, from + 1, limit)
      {
        var _, rows := WrappedLineMetrics(content, width, lineno, None);
        used := used + rows;
        if used > limit {
          return;
        }
        m := lineno;
        lineno := lineno - 1;
      }
    }

    /** The last part of _scroll_when_linewrapping, for a cursor line that fits. */
    method ClampScroll(content: Content, width: int, height: int, was: int) returns (v: int)
      requires Shaped(content)
      ensures v == ScrollTo(Heights(content, width, charWidth), content.cursorY, height, top, bottom, beyondBottom, was)
    {
      var y := content.cursorY;
      var lowest := FirstThatFits(content, width, y, y, height - bottom);
      var highest := FirstThatFits(content, width, (y as int) - 1, y, top);
      var last := |content.lines| - 1;
      var topmost := FirstThatFits(content, width, last, last, height);
      ghost var h := Heights(content, width, charWidth);
      assert Topmost(h, height) == topmost && BackUp(h, y, y, top) == highest;
      v := Max(was, Min(topmost, lowest));
      v := Min(v, highest);
      if !beyondBottom {
        v := Min(v, topmost);
      }
      v := Max(0, v);
      assert v == Clamp(was, lowest, highest, topmost, beyondBottom);
    }

    /** superScroll and superScroll2 are what the inherited scrolling leaves, and are
        arbitrary. */
    method ScrollWhenLinewrapping(content: Content, width: int, height: int, superScroll: int, superScroll2: int)
      requires Shaped(content)
      modifies this
      ensures
        var h, y := Heights(content, width, charWidth), content.cursorY;
        var row := CursorRow(width, charWidth, Visible(content.lines[y]), Some(content.cursorX));
        if width <= 0 || height <= 0 || hasLinePrefix || row.None? then
          verticalScroll == superScroll && verticalScroll2 == superScroll2
        else if h[y] > height - top then
          verticalScroll == y && verticalScroll2 == ScrollWithin(row.value, h[y], height, superScroll2)
        else
          verticalScroll == ScrollTo(h, y, height, top, bottom, beyondBottom, superScroll) && verticalScroll2 == 0
    {
      verticalScroll, verticalScroll2 := superScroll, superScroll2;
      if width <= 0 || height <= 0 {
        return;
      }
      if hasLinePrefix {
        return;
      }
      var y := content.cursorY;
      var cursorRow, rows := WrappedLineMetrics(content, width, y, Some(content.cursorX));
      if cursorRow.None? {
        return;
      }
      if rows > height - top {
        verticalScroll := y;
        var minimum := Max(0, cursorRow.value - height + 1);
        var maximum := Min(cursorRow.value, Max(0, rows - height));
        verticalScroll2 := Min(Max(verticalScroll2, minimum), maximum);
        return;
      }
      verticalScroll2 := 0;
      verticalScroll := ClampScroll(content, width, height, verticalScroll);
    }

    /** Whatever the inherited scrolling left, the cursor ends on screen. */
    method ScrollShowsCursor(content: Content, width: int, height: int, superScroll: int, superScroll2: int)
      requires Shaped(content) && width > 0 && height > 0 && !hasLinePrefix
      requires 0 <= content.cursorX < |Visible(content.lines[content.cursorY])|
      modifies this
      ensures
        var h, y := Heights(content, width, charWidth), content.cursorY;
        var row := RowOf(width, charWidth, Visible(content.lines[y]), content.cursorX);
        if h[y] > height - top then verticalScroll == y && verticalScroll2 <= row < verticalScroll2 + height
        else verticalScroll2 == 0 && Shows(h, y, height, verticalScroll)
    {
      ScrollWhenLinewrapping(content, width, height, superScroll, superScroll2);
      ghost var h, y := Heights(content, width, charWidth), content.cursorY;
      ghost var text := Visible(content.lines[y]);
      ghost var row := RowOf(width, charWidth, text, content.cursorX);
      RowsGrow(width, charWidth, text, content.cursorX, |text| - 1);
      assert text[..|text|] == text;
      if h[y] > height - top {
        CursorRowIsShown(row, h[y], height, superScroll2);
      } else {
        CursorIsShown(h, y, height, top, bottom, beyondBottom, superScroll);
      }
    }
  }
}
