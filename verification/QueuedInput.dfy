/** Queued user input: koder_agent/core/queued_input.py, QueuedInputManager and the two
    functions that add queued input to a tool's output and take it off again. */
module QueuedInput {
  import opened Prelude

  // ------------------------------------------------------------------------ strip

  /** The characters Python's str.strip removes. */
  predicate IsSpace(c: char)
  {
    var n := c as int;
    9 <= n <= 13 || 28 <= n <= 32 || n == 0x85 || n == 0xA0 || n == 0x1680 || 0x2000 <= n <= 0x200A
    || n == 0x2028 || n == 0x2029 || n == 0x202F || n == 0x205F || n == 0x3000
  }

  lemma SpaceIs(c: char)
    ensures IsSpace(c) <==>
      c in "\t\n\r \U{000B}\U{000C}\U{001C}\U{001D}\U{001E}\U{001F}\U{0085}\U{00A0}\U{1680}\U{2028}\U{2029}\U{202F}\U{205F}\U{3000}"
      || '\U{2000}' <= c <= '\U{200A}'
  {
  }

  function Trim(s: string): string
    decreases |s|
  {
    if s == "" then ""
    else if IsSpace(s[0]) then Trim(s[1..])
    else if IsSpace(s[|s| - 1]) then Trim(s[..|s| - 1])
    else s
  }

  predicate Blank(s: string)
  {
    forall i :: 0 <= i < |s| ==> IsSpace(s[i])
  }

  predicate Trimmed(s: string)
  {
    s == "" || (!IsSpace(s[0]) && !IsSpace(s[|s| - 1]))
  }

  /** Trimming takes white space off both ends and nothing else. */
  lemma {:induction false} TrimTakesSpace(s: string) returns (before: string, after: string)
    ensures s == before + Trim(s) + after && Blank(before) && Blank(after) && Trimmed(Trim(s))
    decreases |s|
  {
    if s == "" {
      before, after := "", "";
    } else if IsSpace(s[0]) {
      before, after := TrimTakesSpace(s[1..]);
      before := [s[0]] + before;
    } else if IsSpace(s[|s| - 1]) {
      before, after := TrimTakesSpace(s[..|s| - 1]);
      after := after + [s[|s| - 1]];
    } else {
      before, after := "", "";
    }
  }

  lemma {:induction false} TrimIsEmptyIff(s: string)
    ensures Trim(s) == "" <==> Blank(s)
    decreases |s|
  {
    if s != "" {
      if IsSpace(s[0]) {
        TrimIsEmptyIff(s[1..]);
        assert Blank(s) <==> Blank(s[1..]) by {
          assert s == [s[0]] + s[1..];
        }
      } else if IsSpace(s[|s| - 1]) {
        TrimIsEmptyIff(s[..|s| - 1]);
        assert s[..|s| - 1][0] == s[0];
      }
    }
  }

  // ------------------------------------------------------------------- the manager

  class QueuedInputManager {
    var items: seq<string>

    constructor ()
      ensures items == []
    {
      items := [];
    }

    method Enqueue(text: string)
      modifies this
      ensures items == Enqueued(old(items), text)
    {
      var clean := Trim(text);
      if clean == "" {
        return;
      }
      items := items + [clean];
    }

    method DrainForToolResult() returns (drained: seq<string>)
      modifies this
      ensures drained == old(items) && items == []
    {
      if items == [] {
        return [];
      }
      drained := items;
      items := [];
    }

    method HasPending() returns (pending: bool)
      ensures pending <==> items != []
    {
      return items != [];
    }
  }

  function Enqueued(items: seq<string>, text: string): seq<string>
  {
    if Trim(text) == "" then items else items + [Trim(text)]
  }

  datatype Op = Enqueue(text: string) | Drain

  /** The pending items after a run, and all batches drained during it in order. */
  datatype Queue = Queue(pending: seq<string>, batches: seq<seq<string>>)

  function Apply(q: Queue, op: Op): Queue
  {
    match op
    case Enqueue(text) => q.(pending := Enqueued(q.pending, text))
    case Drain => Queue([], q.batches + [q.pending])
  }

  function Run(q: Queue, ops: seq<Op>): Queue
    decreases ops
  {
    if ops == [] then q else Run(Apply(q, ops[0]), ops[1..])
  }

  function Concat(batches: seq<seq<string>>): seq<string>
  {
    if batches == [] then [] else Concat(batches[..|batches| - 1]) + batches[|batches| - 1]
  }

  /** What was typed: the trimmed inputs that are not blank, in order. */
  function Typed(ops: seq<Op>): seq<string>
  {
    if ops == [] then []
    else (if ops[0].Enqueue? && !Blank(ops[0].text) then [Trim(ops[0].text)] else []) + Typed(ops[1..])
  }

  /** Nothing typed is lost, repeated or reordered, however enqueues and drains interleave. */
  lemma {:induction false} NothingIsLost(q: Queue, ops: seq<Op>)
    ensures var r := Run(q, ops); Concat(r.batches) + r.pending == Concat(q.batches) + q.pending + Typed(ops)
    decreases ops
  {
    if ops != [] {
      var v := Apply(q, ops[0]);
      if ops[0].Drain? {
        assert v.batches[..|q.batches|] == q.batches;
        assert Concat(v.batches) + v.pending == Concat(q.batches) + q.pending;
      } else {
        TrimIsEmptyIff(ops[0].text);
      }
      NothingIsLost(v, ops[1..]);
    }
  }

  /** has_pending is false exactly when everything typed has been drained. */
  lemma PendingMeansUndelivered(ops: seq<Op>)
    ensures var r := Run(Queue([], []), ops); r.pending == [] <==> Concat(r.batches) == Typed(ops)
  {
    NothingIsLost(Queue([], []), ops);
    var r := Run(Queue([], []), ops);
    assert |Concat(r.batches) + r.pending| == |Concat(r.batches)| + |r.pending|;
    assert Concat(r.batches) + [] == Concat(r.batches);
  }

  // ------------------------------------------------------------ append and strip

  const HEADER := "[Queued user input]"
  const MARKER := "\n\n" + HEADER
  const ADVICE_WHAT := "The user submitted the following input "
  const ADVICE_WHEN := "while this tool was running. "
  const ADVICE_HOW := "Treat it as additional user instruction "
  const ADVICE_WHY := "now that the tool result is available."
  const ADVICE := ADVICE_WHAT + ADVICE_WHEN + ADVICE_HOW + ADVICE_WHY

  function Digits(n: nat): (d: string)
    ensures d != "" && forall i :: 0 <= i < |d| ==> '0' <= d[i] <= '9'
  {
    (if n < 10 then "" else Digits(n / 10)) + ["0123456789"[n % 10]]
  }

  function Label(n: nat): string
  {
    "\n" + Digits(n) + ". "
  }

  /** The numbered lines, each after a line break. */
  function Numbered(items: seq<string>): string
  {
    if items == [] then "" else Numbered(items[..|items| - 1]) + Label(|items|) + items[|items| - 1]
  }

  function Instructions(items: seq<string>): string
  {
    "\n" + ADVICE + Numbered(items)
  }

  function Block(items: seq<string>): string
  {
    HEADER + Instructions(items)
  }

  /** None stands for an output that is None; any other is its string. */
  function Base(output: Option<string>): string
  {
    if output.Some? then output.value else ""
  }

  function Append(output: Option<string>, items: seq<string>): string
  {
    var base := Base(output);
    if items == [] then base
    else if Trim(base) != "" then base + "\n\n" + Block(items)
    else Block(items)
  }

  function DigitValue(c: char): nat
  {
    if '0' <= c <= '9' then c as int - '0' as int else 0
  }

  function Number(digits: string): nat
  {
    if digits == "" then 0 else 10 * Number(digits[..|digits| - 1]) + DigitValue(digits[|digits| - 1])
  }

  lemma OneDigit(k: nat)
    requires k < 10
    ensures DigitValue("0123456789"[k]) == k
  {
  }

  lemma NumberOneMore(digits: string, c: char)
    ensures Number(digits + [c]) == 10 * Number(digits) + DigitValue(c)
  {
    assert (digits + [c])[..|digits|] == digits;
  }

  lemma LastDigit(n: nat, c: char)
    requires c == "0123456789"[n % 10]
    ensures Digits(n) == (if n < 10 then "" else Digits(n / 10)) + [c]
  {
  }

  /** Labels count in decimal, without leading zeros. */
  lemma {:induction false} DigitsCount(n: nat)
    ensures Number(Digits(n)) == n && (n > 0 ==> Digits(n)[0] != '0')
  {
    var c := "0123456789"[n % 10];
    OneDigit(n % 10);
    LastDigit(n, c);
    if n >= 10 {
      DigitsCount(n / 10);
      NumberOneMore(Digits(n / 10), c);
    } else {
      NumberOneMore("", c);
    }
  }

  lemma Assoc(a: string, b: string, c: string)
    ensures a + (b + c) == (a + b) + c
  {
  }

  /** A line of the block: the item after its number. */
  lemma NumberedNext(items: seq<string>, item: string, line: string)
    requires line == "\n" + Digits(|items| + 1) + ". " + item
    ensures Numbered(items + [item]) == Numbered(items) + line
  {
    assert (items + [item])[..|items|] == items;
    Assoc(Numbered(items), Label(|items| + 1), item);
  }

  /** The text of an output is kept and followed by the block after an empty line, unless
      there is none or it is blank: then the block stands alone. */
  lemma AppendIs(output: Option<string>, items: seq<string>)
    requires items != []
    ensures Append(output, items) ==
      (if output.Some? && !Blank(output.value) then output.value + "\n\n" else "") + Block(items)
  {
    TrimIsEmptyIff(Base(output));
    assert "" + Block(items) == Block(items);
  }

  /** The block is the header, the advice and the first item; */
  lemma BlockFirst(item: string, line: string)
    requires line == "\n" + Digits(1) + ". " + item
    ensures Block([item]) == HEADER + ("\n" + ADVICE + line)
  {
    NumberedNext([], item, line);
    assert [] + [item] == [item];
    assert Numbered([]) + line == line;
  }

  /** every further item is one more numbered line at its end. */
  lemma BlockNext(items: seq<string>, item: string, line: string)
    requires line == "\n" + Digits(|items| + 1) + ". " + item
    ensures Block(items + [item]) == Block(items) + line
  {
    NumberedNext(items, item, line);
    Assoc("\n" + ADVICE, Numbered(items), line);
    Assoc(HEADER, Instructions(items), line);
  }

  lemma AppendNothing(output: Option<string>)
    ensures Append(output, []) == if output.Some? then output.value else ""
  {
  }

  /** Where the text first has the part. */
  function Find(text: string, part: string): (i: Option<nat>)
    ensures i.Some? ==> i.value <= |text| - |part| && text[i.value..i.value + |part|] == part
    decreases |text|
  {
    if |text| < |part| then None
    else if part <= text then Some(0)
    else if text == "" then None
    else
      var rest := Find(text[1..], part);
      if rest.None? then None
      else
        assert text[rest.value + 1..rest.value + 1 + |part|] == text[1..][rest.value..rest.value + |part|];
        Some(rest.value + 1)
  }

  function Strip(output: Option<string>): string
  {
    var text := Base(output);
    var at := Find(text, MARKER);
    if at.Some? then text[..at.value]
    else if HEADER <= text then ""
    else text
  }

  predicate At(text: string, part: string, i: nat)
  {
    i <= |text| - |part| && text[i..i + |part|] == part
  }

  lemma {:induction false} FindsFirst(text: string, part: string, i: nat)
    requires At(text, part, i)
    ensures Find(text, part).Some? && Find(text, part).value <= i
    decreases |text|
  {
    if i == 0 {
      assert part == text[..|part|];
    } else if !(part <= text) {
      assert text[1..][i - 1..i - 1 + |part|] == text[i..i + |part|];
      FindsFirst(text[1..], part, i - 1);
    }
  }

  /** The last character of the marker stands nowhere else in it, so two of its places in a
      text never overlap. */
  lemma NoOverlap(text: string, i: nat, j: nat)
    requires i < j && At(text, MARKER, i) && At(text, MARKER, j)
    ensures i + |MARKER| <= j
  {
    if j < i + |MARKER| {
      var d := j - i;
      var m := |MARKER| - 1;
      assert text[i..i + |MARKER|][m] == text[i + m];
      assert text[j..j + |MARKER|][m - d] == text[i + m];
      assert MARKER[m] == ']' && MARKER[m - d] == ']';
      OnlyLast(m - d);
    }
  }

  lemma OnlyLast(i: nat)
    requires i < |MARKER| && MARKER[i] == ']'
    ensures i == |MARKER| - 1
  {
    assert |MARKER| == 21;
  }

  lemma EarlierIsInside(base: string, tail: string, at: nat)
    requires At(base + MARKER + tail, MARKER, at) && at < |base|
    ensures At(base, MARKER, at)
  {
    var text := base + MARKER + tail;
    assert text[|base|..|base| + |MARKER|] == MARKER;
    NoOverlap(text, at, |base|);
    assert base[at..at + |MARKER|] == text[at..at + |MARKER|];
  }

  lemma InsideIsEarlier(base: string, rest: string, at: nat)
    requires At(base, MARKER, at)
    ensures At(base + rest, MARKER, at)
  {
    assert base[at..at + |MARKER|] == (base + rest)[at..at + |MARKER|];
  }

  /** The marker is first found where it was added, unless the text before holds it. */
  lemma FoundWhereAdded(base: string, tail: string)
    ensures var at := Find(base + MARKER + tail, MARKER);
            at.Some? && at.value <= |base| && (at.value == |base| <==> Find(base, MARKER).None?)
  {
    var text := base + MARKER + tail;
    assert At(text, MARKER, |base|);
    FindsFirst(text, MARKER, |base|);
    var at := Find(text, MARKER).value;
    if at < |base| {
      EarlierIsInside(base, tail, at);
      FindsFirst(base, MARKER, at);
    } else if Find(base, MARKER).Some? {
      var i := Find(base, MARKER).value;
      InsideIsEarlier(base, MARKER + tail, i);
      assert base + (MARKER + tail) == text;
      FindsFirst(text, MARKER, i);
    }
  }

  lemma Regroup(a: string, b: string, c: string, d: string)
    ensures a + b + (c + d) == a + (b + c) + d
  {
  }

  lemma StripAt(a: string, b: string, c: string)
    ensures (a + b + c)[..|a|] == a
  {
  }

  /** Stripping undoes appending exactly on the outputs that do not hold the marker
      themselves: for outputs that are not blank. */
  lemma StripUndoesAppendIff(output: Option<string>, items: seq<string>)
    requires !Blank(Base(output)) && items != []
    ensures Strip(Some(Append(output, items))) == Base(output) <==> Find(Base(output), MARKER).None?
  {
    var base, tail := Base(output), Instructions(items);
    TrimIsEmptyIff(base);
    Regroup(base, "\n\n", HEADER, tail);
    FoundWhereAdded(base, tail);
    StripAt(base, MARKER, tail);
  }

  lemma AtIndex(text: string, i: nat, k: nat)
    requires At(text, MARKER, i) && k < |MARKER|
    ensures text[i + k] == MARKER[k]
  {
    assert text[i..i + |MARKER|][k] == text[i + k];
  }

  /** No place of the marker touches the label of a queued line. */
  lemma LabelBreaksMarker(before: string, n: nat, item: string, i: nat)
    requires At(before + Label(n) + item, MARKER, i)
    ensures i + |MARKER| <= |before| || i >= |before| + |Label(n)|
  {
    var text, s := before + Label(n) + item, |before|;
    assert MARKER[0] == '\n' && MARKER[1] == '\n' && MARKER[2] == '[';
    assert forall k :: 2 <= k < |MARKER| ==> MARKER[k] != '\n';
    assert forall k :: 0 <= k < |Label(n)| ==> text[s + k] == Label(n)[k];
    AtIndex(text, i, 0);
    if i <= s < i + |MARKER| {
      AtIndex(text, i, s - i);
      if s - i < 2 {
        AtIndex(text, i, s - i + 1);
      }
    }
  }

  lemma LastLine(prefix: string, items: seq<string>)
    requires items != []
    ensures prefix + Numbered(items) ==
      prefix + Numbered(items[..|items| - 1]) + Label(|items|) + items[|items| - 1]
  {
    Regroup3(prefix, Numbered(items[..|items| - 1]), Label(|items|), items[|items| - 1]);
  }

  lemma Regroup3(a: string, b: string, c: string, d: string)
    ensures a + (b + c + d) == a + b + c + d
  {
  }

  lemma ShiftRight(before: string, item: string, j: nat)
    requires At(item, MARKER, j)
    ensures At(before + item, MARKER, |before| + j)
  {
    assert (before + item)[|before| + j..|before| + j + |MARKER|] == item[j..j + |MARKER|];
  }

  lemma ShiftLeft(before: string, item: string, i: nat)
    requires At(before + item, MARKER, i)
    ensures i + |MARKER| <= |before| ==> At(before, MARKER, i)
    ensures i >= |before| ==> At(item, MARKER, i - |before|)
  {
    if i + |MARKER| <= |before| {
      assert before[i..i + |MARKER|] == (before + item)[i..i + |MARKER|];
    }
    if i >= |before| {
      assert item[i - |before|..i - |before| + |MARKER|] == (before + item)[i..i + |MARKER|];
    }
  }

  lemma {:induction false} MarkerIsInAnItem(prefix: string, items: seq<string>, i: nat)
    requires At(prefix + Numbered(items), MARKER, i)
    ensures At(prefix, MARKER, i) || exists k :: 0 <= k < |items| && Find(items[k], MARKER).Some?
    decreases |items|
  {
    if items == [] {
      assert prefix + "" == prefix;
    } else {
      var n := |items|;
      var before, item := prefix + Numbered(items[..n - 1]), items[n - 1];
      LastLine(prefix, items);
      LabelBreaksMarker(before, n, item, i);
      ShiftLeft(before + Label(n), item, i);
      if i + |MARKER| <= |before| {
        ShiftLeft(before, Label(n), i);
        MarkerIsInAnItem(prefix, items[..n - 1], i);
      } else {
        FindsFirst(item, MARKER, i - |before + Label(n)|);
      }
    }
  }

  lemma Inside2(a: string, b: string, c: string, i: nat)
    requires At(a, MARKER, i)
    ensures At(a + b + c, MARKER, i)
  {
    InsideIsEarlier(a, b, i);
    InsideIsEarlier(a + b, c, i);
  }

  lemma LastItemIsInBlock(prefix: string, items: seq<string>) returns (i: nat)
    requires items != [] && Find(items[|items| - 1], MARKER).Some?
    ensures At(prefix + Numbered(items), MARKER, i)
  {
    var n := |items|;
    var before, at := prefix + Numbered(items[..n - 1]) + Label(n), Find(items[n - 1], MARKER).value;
    LastLine(prefix, items);
    ShiftRight(before, items[n - 1], at);
    i := |before| + at;
  }

  lemma {:induction false} ItemIsInBlock(prefix: string, items: seq<string>, k: nat) returns (i: nat)
    requires k < |items| && Find(items[k], MARKER).Some?
    ensures At(prefix + Numbered(items), MARKER, i)
    decreases |items|
  {
    if k == |items| - 1 {
      i := LastItemIsInBlock(prefix, items);
    } else {
      i := ItemIsInBlock(prefix, items[..|items| - 1], k);
      LastLine(prefix, items);
      Inside2(prefix + Numbered(items[..|items| - 1]), Label(|items|), items[|items| - 1], i);
    }
  }

  predicate NoBreak(s: string)
  {
    forall k :: 0 <= k < |s| ==> s[k] != '\n'
  }

  lemma AdviceHasNoBreak()
    ensures NoBreak(ADVICE) && NoBreak(HEADER)
  {
    assert NoBreak(ADVICE_WHAT);
    assert NoBreak(ADVICE_WHEN);
    assert NoBreak(ADVICE_HOW);
    assert NoBreak(ADVICE_WHY);
  }

  lemma NoMarkerBetween(head: string, tail: string, i: nat)
    requires NoBreak(head) && NoBreak(tail)
    ensures !At(head + "\n" + tail, MARKER, i)
  {
    if At(head + "\n" + tail, MARKER, i) {
      AtIndex(head + "\n" + tail, i, 0);
      AtIndex(head + "\n" + tail, i, 1);
    }
  }

  /** The block holds the marker exactly if a queued item does. */
  lemma BlockHoldsMarkerIff(items: seq<string>)
    ensures Find(Block(items), MARKER).Some? <==> exists k :: 0 <= k < |items| && Find(items[k], MARKER).Some?
  {
    AdviceHasNoBreak();
    FrontAndLines(HEADER, ADVICE, items);
    BlockIsFrontAndLines(HEADER, ADVICE, Numbered(items));
  }

  lemma BlockIsFrontAndLines(a: string, b: string, c: string)
    ensures a + ("\n" + b + c) == a + "\n" + b + c
  {
  }

  lemma FrontAndLines(head: string, tail: string, items: seq<string>)
    requires NoBreak(head) && NoBreak(tail)
    ensures Find(head + "\n" + tail + Numbered(items), MARKER).Some? <==>
      exists k :: 0 <= k < |items| && Find(items[k], MARKER).Some?
  {
    var front := head + "\n" + tail;
    if Find(front + Numbered(items), MARKER).Some? {
      var i := Find(front + Numbered(items), MARKER).value;
      NoMarkerBetween(head, tail, i);
      MarkerIsInAnItem(front, items, i);
    }
    if k :| 0 <= k < |items| && Find(items[k], MARKER).Some? {
      var i := ItemIsInBlock(front, items, k);
      FindsFirst(front + Numbered(items), MARKER, i);
    }
  }

  lemma StripOfBlock(text: string)
    requires HEADER <= text
    ensures Strip(Some(text)) == "" <==> Find(text, MARKER).None?
  {
    if Find(text, MARKER).Some? {
      AtIndex(text, Find(text, MARKER).value, 0);
      assert text[0] == HEADER[0] == '[';
      assert MARKER[0] == '\n';
    }
  }

  /** For a blank output nothing of the block is left exactly if no queued item quotes the
      marker; one that does leaves part of the block in view. */
  lemma StripHidesBlockIff(output: Option<string>, items: seq<string>)
    requires Blank(Base(output)) && items != []
    ensures Strip(Some(Append(output, items))) == "" <==>
      forall k :: 0 <= k < |items| ==> Find(items[k], MARKER).None?
  {
    TrimIsEmptyIff(Base(output));
    BlockHoldsMarkerIff(items);
    StripOfBlock(Block(items));
  }

  /** Without queued input nothing is appended, and stripping changes exactly the outputs
      that look as if something had been. */
  lemma StripIsIdentityIff(output: Option<string>)
    ensures Append(output, []) == Base(output)
    ensures Strip(Some(Append(output, []))) == Base(output) <==>
      Find(Base(output), MARKER).None? && !(HEADER <= Base(output))
  {
    var base := Base(output);
    if Find(base, MARKER).Some? {
      assert |base[..Find(base, MARKER).value]| < |base|;
    }
  }
}
