/** What a line read does to the queue, and exactly when it loses or repeats text. */
module LineRead {
  import opened Ring

  /** The text one line read hands out and the tail it leaves, step for step: search the first
      segment; if it is used up without a newline, go on at the front of the storage; if it is
      longer than the line, look again past the full line. */
  function LineOutcome(buf: seq<char>, n: nat, head: nat, tail: nat, lineSize: nat): (r: (seq<char>, nat))
    requires |buf| == n + 1 && head < n && tail < n && buf[n] == NUL
  {
    var consumable := (if head <= tail && head != tail then n else head) - tail;
    var willConsume := Min(lineSize, consumable);
    var text := buf[tail..tail + willConsume];
    if FindNewline(buf, tail) != -1 then
      FinishOutcome(buf, n, head, tail, lineSize, [], consumable, willConsume)
    else if consumable == willConsume then
      SpillOutcome(buf, n, head, tail, lineSize, text)
    else
      FinishOutcome(buf, n, head, tail, lineSize, text, head, Min(lineSize - willConsume, head))
  }

  /** The first segment is used up as `text`, with no newline in it. */
  function SpillOutcome(buf: seq<char>, n: nat, head: nat, tail: nat, lineSize: nat, text: seq<char>)
    : (r: (seq<char>, nat))
    requires |buf| == n + 1 && head < n && tail < n && buf[n] == NUL && |text| <= lineSize
    ensures |r.0| <= lineSize && r.1 < n
  {
    if !(head <= tail && head != tail) then
      (text, head)
    else
      var lineEnd := FindNewline(buf, 0);
      if lineEnd == -1 then (text, 0) else
      var extra := Min(lineSize - |text|, lineEnd + 1);
      (text + buf[..extra], Slot(0, extra, n))
  }

  /** The line so far is `text`; of what follows it in storage, `consumable` characters are taken to
      be there and `willConsume` fit. */
  function FinishOutcome(buf: seq<char>, n: nat, head: nat, tail: nat, lineSize: nat,
                         text: seq<char>, consumable: nat, willConsume: nat): (r: (seq<char>, nat))
    requires |buf| == n + 1 && head < n && tail < n
    requires tail + |text| < n && tail + |text| + willConsume <= n
  {
    var from := tail + |text|;
    var lineEnd := FindNewline(buf, from);
    var extra := if lineEnd == -1 then willConsume else Min(willConsume, lineEnd - from + 1);
    (text + buf[from..from + extra],
     if |text| + extra <= consumable then Slot(from, extra, n)
     else if head <= from && head != tail then (if lineEnd == -1 then |text| + willConsume else lineSize)
     else head)
  }

  lemma LineOutcomeInRange(buf: seq<char>, n: nat, head: nat, tail: nat, lineSize: nat)
    requires |buf| == n + 1 && head < n && tail < n && buf[n] == NUL
    ensures var (text, tail') := LineOutcome(buf, n, head, tail, lineSize); |text| <= lineSize && tail' < n
  {
  }

  /** Where a line read departs from the queue: the contents wrap, the first segment holds no
      newline, and either it is longer than the line while the line is longer than `head`, or it is
      shorter than the line while nothing is queued at the front and a stale newline sits there. */
  predicate LineMisreads(buf: seq<char>, n: nat, head: nat, tail: nat, lineSize: nat)
    requires |buf| == n + 1 && head < n && tail < n
  {
    && Wrapped(head, tail)
    && '\n' !in First(buf, n, head, tail)
    && (|| head < lineSize < n - tail
        || (head == 0 && n - tail < lineSize && FindNewline(buf, 0) != -1))
  }

  // ---- `LineOutcome` worked out, case by case of the search ---------------------------------------

  lemma OutcomeAtNewline(buf: seq<char>, n: nat, head: nat, tail: nat, lineSize: nat)
    requires |buf| == n + 1 && head < n && tail < n && buf[n] == NUL && FindNewline(buf, tail) != -1
    ensures var extra := Min(Min(lineSize, |First(buf, n, head, tail)|), FindNewline(buf, tail) - tail + 1);
            LineOutcome(buf, n, head, tail, lineSize) == (buf[tail..tail + extra], Slot(tail, extra, n))
  {
    hide FindNewline, First, Slot;
    var extra := Min(Min(lineSize, |First(buf, n, head, tail)|), FindNewline(buf, tail) - tail + 1);
    EmptyPrefix([], buf[tail..tail + extra]);
  }

  lemma OutcomeOfLongSegment(buf: seq<char>, n: nat, head: nat, tail: nat, lineSize: nat)
    requires |buf| == n + 1 && head < n && tail < n && buf[n] == NUL
    requires FindNewline(buf, tail) == -1 && lineSize < |First(buf, n, head, tail)|
    ensures LineOutcome(buf, n, head, tail, lineSize)
         == (buf[tail..tail + lineSize], if Wrapped(head, tail) && head < lineSize then lineSize else tail + lineSize)
  {
    hide FindNewline, First, FinishOutcome;
    FinishFullLine(buf, n, head, tail, lineSize, buf[tail..tail + lineSize]);
  }

  lemma FinishFullLine(buf: seq<char>, n: nat, head: nat, tail: nat, lineSize: nat, text: seq<char>)
    requires |buf| == n + 1 && head < n && tail < n
    requires |text| == lineSize && tail + lineSize < n
    ensures FinishOutcome(buf, n, head, tail, lineSize, text, head, 0)
         == (text, if lineSize <= head then tail + lineSize
                   else if head <= tail + lineSize && head != tail then lineSize
                   else head)
  {
    var from := tail + lineSize;
    assert Slot(from, 0, n) == from;
    hide FindNewline, Slot;
    assert text + buf[from..from + 0] == text;
  }

  lemma OutcomeOfShortSegment(buf: seq<char>, n: nat, head: nat, tail: nat, lineSize: nat)
    requires |buf| == n + 1 && head < n && tail < n && buf[n] == NUL
    requires FindNewline(buf, tail) == -1 && |First(buf, n, head, tail)| <= lineSize
    ensures LineOutcome(buf, n, head, tail, lineSize)
         == SpillOutcome(buf, n, head, tail, lineSize, First(buf, n, head, tail))
  {
    hide FindNewline, Slot, SpillOutcome;
    assert buf[tail..tail + |First(buf, n, head, tail)|] == First(buf, n, head, tail);
  }

  // ---- what the search finds -------------------------------------------------------------------

  lemma TextHasNoNul(buf: seq<char>, n: nat, head: nat, tail: nat)
    requires |buf| == n + 1 && head < n && tail < n && Terminated(buf, n, head, tail)
    ensures var a := First(buf, n, head, tail);
            && tail + |a| <= n && a == buf[tail..tail + |a|]
            && (head != tail ==> buf[tail + |a|] == NUL)
            && (head > 0 ==> buf[head] == NUL) && buf[n] == NUL
    ensures forall i :: tail <= i < tail + |First(buf, n, head, tail)| ==> buf[i] != NUL
    ensures Second(buf, n, head, tail) == buf[0..|Second(buf, n, head, tail)|]
    ensures forall i :: 0 <= i < |Second(buf, n, head, tail)| ==> buf[i] != NUL
  {
    var a, b := First(buf, n, head, tail), Second(buf, n, head, tail);
    forall i | tail <= i < tail + |a|
      ensures buf[i] != NUL
    {
      assert (a + b)[i - tail] == buf[i];
    }
    forall i | 0 <= i < |b|
      ensures buf[i] != NUL
    {
      assert (a + b)[|a| + i] == buf[i];
    }
  }

  /** From inside the first segment of a terminated text, the search sees the rest of that segment. */
  lemma SearchFirst(buf: seq<char>, n: nat, head: nat, tail: nat)
    requires |buf| == n + 1 && head < n && tail < n && Terminated(buf, n, head, tail) && head != tail
    ensures buf[n] == NUL
    ensures var e := FirstNewline(First(buf, n, head, tail));
            FindNewline(buf, tail) == if e == -1 then -1 else tail + e
  {
    hide First, Second, Terminated, FindNewline, FirstNewline;
    TextHasNoNul(buf, n, head, tail);
    var a := First(buf, n, head, tail);
    var end := tail + |a|;
    FindNewlineInText(buf, tail, end);
    var e := FindNewline(buf, tail);
    if e != -1 {
      FirstNewlineIs(a, e - tail);
    }
  }

  /** From the front of the storage, the search sees the second segment, unless that is empty. */
  lemma SearchSecond(buf: seq<char>, n: nat, head: nat, tail: nat)
    requires |buf| == n + 1 && head < n && tail < n && Terminated(buf, n, head, tail) && Wrapped(head, tail)
    requires head > 0
    ensures FindNewline(buf, 0) == FirstNewline(Second(buf, n, head, tail))
  {
    hide First, Second, Terminated, FindNewline, FirstNewline;
    TextHasNoNul(buf, n, head, tail);
    FindNewlineInText(buf, 0, head);
    var e := FindNewline(buf, 0);
    if e != -1 {
      FirstNewlineIs(Second(buf, n, head, tail), e);
    }
  }

  // ---- the three ways a line ends ----------------------------------------------------------------

  /** A newline in the first segment: the line ends there or is cut when full. */
  lemma NewlineAhead(buf: seq<char>, n: nat, head: nat, tail: nat, lineSize: nat)
    requires |buf| == n + 1 && head < n && tail < n && Terminated(buf, n, head, tail) && head != tail
    requires '\n' in First(buf, n, head, tail)
    ensures var line := NextLine(First(buf, n, head, tail), Second(buf, n, head, tail), lineSize);
            && line <= First(buf, n, head, tail)
            && LineOutcome(buf, n, head, tail, lineSize) == (line, Slot(tail, |line|, n))
  {
    hide First, Second, Terminated, FindNewline, FirstNewline, Slot, LineOutcome, NextLine;
    SearchFirst(buf, n, head, tail);
    var a, b := First(buf, n, head, tail), Second(buf, n, head, tail);
    NextLineAtNewline(a, b, lineSize);
    OutcomeAtNewline(buf, n, head, tail, lineSize);
    var extra := Min(Min(lineSize, |a|), FirstNewline(a) + 1);
    hide Min;
    AdvanceRefines(buf, n, head, tail, extra);
  }

  /** No newline in a first segment longer than the line. */
  lemma LongSegment(buf: seq<char>, n: nat, head: nat, tail: nat, lineSize: nat)
    requires |buf| == n + 1 && head < n && tail < n && Terminated(buf, n, head, tail) && head != tail
    requires '\n' !in First(buf, n, head, tail) && lineSize < |First(buf, n, head, tail)|
    ensures var line := NextLine(First(buf, n, head, tail), Second(buf, n, head, tail), lineSize);
            && line <= First(buf, n, head, tail) && |line| == lineSize
            && LineOutcome(buf, n, head, tail, lineSize)
            == (line, if Wrapped(head, tail) && head < lineSize then lineSize else Slot(tail, |line|, n))
  {
    hide First, Second, Terminated, FindNewline, FirstNewline, Slot, LineOutcome, NextLine;
    SearchFirst(buf, n, head, tail);
    var a, b := First(buf, n, head, tail), Second(buf, n, head, tail);
    NextLineCut(a, b, lineSize);
    OutcomeOfLongSegment(buf, n, head, tail, lineSize);
    AdvanceRefines(buf, n, head, tail, lineSize);
  }

  /** Nothing queued: nothing handed out, whatever stale text the search runs into. */
  lemma NothingQueued(buf: seq<char>, n: nat, head: nat, lineSize: nat)
    requires |buf| == n + 1 && head < n && buf[n] == NUL
    ensures LineOutcome(buf, n, head, head, lineSize) == ([], head)
  {
    hide FindNewline;
    assert Slot(head, 0, n) == head;
    assert [] + buf[head..head + 0] == [];
  }

  /** The first segment fits the line and holds no newline. */
  lemma ShortSegment(buf: seq<char>, n: nat, head: nat, tail: nat, lineSize: nat)
    requires |buf| == n + 1 && head < n && tail < n && Terminated(buf, n, head, tail) && head != tail
    requires '\n' !in First(buf, n, head, tail) && |First(buf, n, head, tail)| <= lineSize
    requires !LineMisreads(buf, n, head, tail, lineSize)
    ensures var a, b := First(buf, n, head, tail), Second(buf, n, head, tail);
            var line := NextLine(a, b, lineSize);
            LineOutcome(buf, n, head, tail, lineSize) ==
            (line, if !Wrapped(head, tail) then head else Slot(0, |line| - |a|, n))
            && a <= line
  {
    hide First, Second, Terminated, FindNewline, FirstNewline, Slot, LineOutcome, NextLine;
    SearchFirst(buf, n, head, tail);
    OutcomeOfShortSegment(buf, n, head, tail, lineSize);
    if FirstNewline(Second(buf, n, head, tail)) == -1 {
      NextLineWithout(First(buf, n, head, tail), Second(buf, n, head, tail), lineSize);
    } else {
      NextLineInSecond(First(buf, n, head, tail), Second(buf, n, head, tail), lineSize);
    }
    TextHasNoNul(buf, n, head, tail);
    SlotStep(0, 0, n);
    assert First(buf, n, head, tail) + buf[..0] == First(buf, n, head, tail);
    if Wrapped(head, tail) && head > 0 {
      SearchSecond(buf, n, head, tail);
      var extra := Min(lineSize - |First(buf, n, head, tail)|, FindNewline(buf, 0) + 1);
      assert FindNewline(buf, 0) != -1 ==> Second(buf, n, head, tail)[..extra] == buf[..extra];
    }
  }

  /** A line read hands out the next line and takes exactly it off the queue, if and only if the
      storage is not in one of the two states of `LineMisreads`. */
  lemma LineReadIsExact(buf: seq<char>, n: nat, head: nat, tail: nat, lineSize: nat)
    requires |buf| == n + 1 && head < n && tail < n && Terminated(buf, n, head, tail)
    ensures LineOutcome(buf, n, head, tail, lineSize).1 < n
    ensures var (text, tail') := LineOutcome(buf, n, head, tail, lineSize);
            text + View(buf, n, head, tail') == View(buf, n, head, tail)
            <==> !LineMisreads(buf, n, head, tail, lineSize)
    ensures !LineMisreads(buf, n, head, tail, lineSize) ==>
              var (text, tail') := LineOutcome(buf, n, head, tail, lineSize);
              text == NextLine(First(buf, n, head, tail), Second(buf, n, head, tail), lineSize)
  {
    LineOutcomeInRange(buf, n, head, tail, lineSize);
    if LineMisreads(buf, n, head, tail, lineSize) {
      MisreadLosesText(buf, n, head, tail, lineSize);
    } else {
      LineReadRefines(buf, n, head, tail, lineSize);
    }
  }

  lemma LineReadRefines(buf: seq<char>, n: nat, head: nat, tail: nat, lineSize: nat)
    requires |buf| == n + 1 && head < n && tail < n && Terminated(buf, n, head, tail)
    requires !LineMisreads(buf, n, head, tail, lineSize)
    ensures LineOutcome(buf, n, head, tail, lineSize).1 < n
    ensures var (text, tail') := LineOutcome(buf, n, head, tail, lineSize);
            && text == NextLine(First(buf, n, head, tail), Second(buf, n, head, tail), lineSize)
            && text + View(buf, n, head, tail') == View(buf, n, head, tail)
  {
    hide First, Second, FirstNewline, FindNewline, LineOutcome, NextLine, Slot;
    var a, b := First(buf, n, head, tail), Second(buf, n, head, tail);
    var line := NextLine(a, b, lineSize);
    NextLineIsLine(a, b, lineSize);
    if head == tail {
      NothingQueued(buf, n, head, lineSize);
      NextLineCut(a, b, 0);
    } else if '\n' in a {
      NewlineAhead(buf, n, head, tail, lineSize);
      AdvanceRefines(buf, n, head, tail, |line|);
    } else if lineSize < |a| {
      LongSegment(buf, n, head, tail, lineSize);
      AdvanceRefines(buf, n, head, tail, |line|);
    } else {
      ShortSegment(buf, n, head, tail, lineSize);
      AdvanceIntoSecond(buf, n, head, tail, |line| - |a|);
    }
  }

  /** Using up the first segment and `k` items of the second. */
  lemma AdvanceIntoSecond(buf: seq<char>, n: nat, head: nat, tail: nat, k: nat)
    requires |buf| == n + 1 && head < n && tail < n && head != tail
    requires k <= |Second(buf, n, head, tail)|
    ensures var a, b := First(buf, n, head, tail), Second(buf, n, head, tail);
            && Slot(0, k, n) == k
            && View(buf, n, head, if Wrapped(head, tail) then k else head) == b[k..]
            && (a + b)[..|a| + k] + b[k..] == a + b
  {
    SlotAhead(0, k, n);
  }

  lemma MisreadLosesText(buf: seq<char>, n: nat, head: nat, tail: nat, lineSize: nat)
    requires |buf| == n + 1 && head < n && tail < n && Terminated(buf, n, head, tail)
    requires LineMisreads(buf, n, head, tail, lineSize)
    ensures LineOutcome(buf, n, head, tail, lineSize).1 < n
    ensures var (text, tail') := LineOutcome(buf, n, head, tail, lineSize);
            |text| + |View(buf, n, head, tail')| > |View(buf, n, head, tail)|
    ensures lineSize < n - tail ==> LineOutcome(buf, n, head, tail, lineSize).1 == lineSize
  {
    hide First, Second, Terminated, FirstNewline, FindNewline, LineOutcome, NextLine, Slot;
    TerminatedText(buf, n, head, tail);
    LineOutcomeInRange(buf, n, head, tail, lineSize);
    if lineSize < n - tail {
      LongSegment(buf, n, head, tail, lineSize);
    } else {
      SearchFirst(buf, n, head, tail);
      assert FirstNewline(First(buf, n, head, tail)) == -1;
      OutcomeOfShortSegment(buf, n, head, tail, lineSize);
    }
  }
}
