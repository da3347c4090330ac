/** Printing the log: read lines until the buffer is empty. When that prints everything that was
    queued, once and in order, and when it cannot. */
module LogDrain {
  import opened Ring
  import opened LineRead
  import opened CircularBuffers

  const SERIAL_LOG_BUFFER_LEN: nat := 160

  /** Index of the last newline of `v`, or -1. */
  function LastNewline(v: seq<char>): (r: int)
    ensures r == -1 <==> '\n' !in v
    ensures r != -1 ==> 0 <= r < |v| && v[r] == '\n'
    ensures forall i :: r < i < |v| ==> v[i] != '\n'
  {
    if v == [] then -1
    else if v[|v| - 1] == '\n' then |v| - 1
    else
      assert v == v[..|v| - 1] + [v[|v| - 1]];
      LastNewline(v[..|v| - 1])
  }

  /** The unfinished line at the end of the first segment. */
  function LooseEnd(a: seq<char>): (r: nat)
    ensures r <= |a|
  {
    |a| - (LastNewline(a) + 1)
  }

  /** What a caller can check before draining: the contents do not wrap, or the line is no longer
      than what is queued at the front of the storage, or the unfinished line at the end of storage
      fits the line and will not be joined to stale text. */
  predicate Drains(buf: seq<char>, n: nat, head: nat, tail: nat, lineSize: nat)
    requires |buf| == n + 1 && head < n && tail < n
  {
    || !Wrapped(head, tail)
    || lineSize <= head
    || (var loose := LooseEnd(First(buf, n, head, tail));
        || loose == 0
        || (loose <= lineSize && (head > 0 || loose == lineSize || FindNewline(buf, 0) == -1)))
  }

  /** Every line read of the drain takes exactly the next line off the queue. */
  ghost predicate Lossless(buf: seq<char>, n: nat, head: nat, tail: nat, lineSize: nat)
    requires |buf| == n + 1 && head < n && tail < n && Terminated(buf, n, head, tail) && lineSize > 0
    decreases |View(buf, n, head, tail)|
  {
    head == tail ||
    (!LineMisreads(buf, n, head, tail, lineSize) &&
     (ReadShrinks(buf, n, head, tail, lineSize);
      Lossless(buf, n, head, LineOutcome(buf, n, head, tail, lineSize).1, lineSize)))
  }

  /** A line read that does not misread leaves a terminated, strictly shorter queue. */
  lemma ReadShrinks(buf: seq<char>, n: nat, head: nat, tail: nat, lineSize: nat)
    requires |buf| == n + 1 && head < n && tail < n && Terminated(buf, n, head, tail)
    requires lineSize > 0 && head != tail && !LineMisreads(buf, n, head, tail, lineSize)
    ensures var tail' := LineOutcome(buf, n, head, tail, lineSize).1;
            && tail' < n && Terminated(buf, n, head, tail')
            && |View(buf, n, head, tail')| < |View(buf, n, head, tail)|
            && head != tail' - 1
  {
    hide First, Second, LineOutcome, NextLine;
    LineReadRefines(buf, n, head, tail, lineSize);
    var line, tail' := LineOutcome(buf, n, head, tail, lineSize).0, LineOutcome(buf, n, head, tail, lineSize).1;
    NextLineIsLine(First(buf, n, head, tail), Second(buf, n, head, tail), lineSize);
    assert forall c :: c in View(buf, n, head, tail') ==> c in line + View(buf, n, head, tail');
  }

  /** Reading part of the first segment leaves its rest as the first segment. */
  lemma FirstAfter(buf: seq<char>, n: nat, head: nat, tail: nat, k: nat)
    requires |buf| == n + 1 && head < n && tail < n && Wrapped(head, tail)
    requires k <= |First(buf, n, head, tail)|
    ensures k < |First(buf, n, head, tail)| ==>
              Wrapped(head, Slot(tail, k, n)) && First(buf, n, head, Slot(tail, k, n)) == First(buf, n, head, tail)[k..]
    ensures k == |First(buf, n, head, tail)| ==> !Wrapped(head, Slot(tail, k, n))
  {
    SlotAhead(tail, k, n);
  }

  /** Reading a line off the front of a segment that holds a newline does not change its loose end. */
  lemma LooseEndAfter(a: seq<char>, k: nat)
    requires '\n' in a && k <= FirstNewline(a) + 1
    ensures LooseEnd(a[k..]) == LooseEnd(a)
  {
    hide FirstNewline, LastNewline;
    var p, q := LastNewline(a), LastNewline(a[k..]);
    assert forall i :: k <= i < |a| ==> a[i] == a[k..][i - k];
    if q != -1 {
      assert a[k + q] == '\n';
    } else {
      assert p == FirstNewline(a);
    }
  }

  /** No read of the drain misreads exactly when the condition holds: it is decided by the first
      state. */
  lemma {:induction false} LosslessExactly(buf: seq<char>, n: nat, head: nat, tail: nat, lineSize: nat)
    requires |buf| == n + 1 && head < n && tail < n && Terminated(buf, n, head, tail) && lineSize > 0
    ensures Lossless(buf, n, head, tail, lineSize) <==> Drains(buf, n, head, tail, lineSize)
    decreases |View(buf, n, head, tail)|
  {
    hide First, Second, LineOutcome, NextLine, Terminated, View, FirstNewline, FindNewline, LooseEnd,
         LastNewline;
    if head != tail {
      TerminatedText(buf, n, head, tail);
      if !LineMisreads(buf, n, head, tail, lineSize) {
        ReadShrinks(buf, n, head, tail, lineSize);
        LosslessExactly(buf, n, head, LineOutcome(buf, n, head, tail, lineSize).1, lineSize);
        DrainsStep(buf, n, head, tail, lineSize);
      } else {
        NoNewlineAllLoose(First(buf, n, head, tail));
      }
    }
  }

  lemma NoNewlineAllLoose(a: seq<char>)
    ensures '\n' !in a ==> LooseEnd(a) == |a|
  {
  }

  /** The condition carries over from one read to the next, both ways. */
  lemma DrainsStep(buf: seq<char>, n: nat, head: nat, tail: nat, lineSize: nat)
    requires |buf| == n + 1 && head < n && tail < n && Terminated(buf, n, head, tail)
    requires lineSize > 0 && head != tail && !LineMisreads(buf, n, head, tail, lineSize)
    ensures LineOutcome(buf, n, head, tail, lineSize).1 < n
    ensures Drains(buf, n, head, tail, lineSize) <==>
            Drains(buf, n, head, LineOutcome(buf, n, head, tail, lineSize).1, lineSize)
  {
    hide First, Second, LineOutcome, NextLine, Terminated, View, FirstNewline, FindNewline, LooseEnd,
         LastNewline, Slot;
    var a, b := First(buf, n, head, tail), Second(buf, n, head, tail);
    var line := NextLine(a, b, lineSize);
    NoNewlineAllLoose(a);
    NextLineIsLine(a, b, lineSize);
    if !Wrapped(head, tail) {
      StaysUnwrapped(buf, n, head, tail, lineSize);
    } else if '\n' in a {
      NewlineAhead(buf, n, head, tail, lineSize);
      NextLineAtNewline(a, b, lineSize);
      FirstAfter(buf, n, head, tail, |line|);
      LooseEndAfter(a, |line|);
      NoNewlineAllLoose([]);
      assert |line| == |a| ==> a[|line|..] == [];
    } else if lineSize < |a| {
      LongSegment(buf, n, head, tail, lineSize);
      FirstAfter(buf, n, head, tail, |line|);
    } else {
      ShortSegment(buf, n, head, tail, lineSize);
      AdvanceIntoSecond(buf, n, head, tail, |line| - |a|);
    }
  }

  lemma StaysUnwrapped(buf: seq<char>, n: nat, head: nat, tail: nat, lineSize: nat)
    requires |buf| == n + 1 && head < n && tail < n && Terminated(buf, n, head, tail)
    requires head != tail && !Wrapped(head, tail)
    ensures !Wrapped(head, LineOutcome(buf, n, head, tail, lineSize).1)
  {
    hide First, Second, LineOutcome, NextLine, Terminated, View, FirstNewline, FindNewline, Slot;
    var a, b := First(buf, n, head, tail), Second(buf, n, head, tail);
    var line := NextLine(a, b, lineSize);
    if '\n' in a {
      NewlineAhead(buf, n, head, tail, lineSize);
      SlotAhead(tail, |line|, n);
    } else if lineSize < |a| {
      LongSegment(buf, n, head, tail, lineSize);
      SlotAhead(tail, |line|, n);
    } else {
      ShortSegment(buf, n, head, tail, lineSize);
    }
  }

  // ---- what is printed -----------------------------------------------------------------------------

  /** All that the first `k` line reads hand out, and the tail they leave. */
  function Drained(buf: seq<char>, n: nat, head: nat, tail: nat, lineSize: nat, k: nat): (r: (seq<char>, nat))
    requires |buf| == n + 1 && head < n && tail < n && buf[n] == NUL
    ensures r.1 < n
    decreases k
  {
    if k == 0 then ([], tail) else
    var (text, at) := Drained(buf, n, head, tail, lineSize, k - 1);
    LineOutcomeInRange(buf, n, head, at, lineSize);
    var (line, next) := LineOutcome(buf, n, head, at, lineSize);
    (text + line, next)
  }

  /** At some point the buffer is empty, and `text` was handed out until then. */
  ghost predicate HandsOut(buf: seq<char>, n: nat, head: nat, tail: nat, lineSize: nat, text: seq<char>)
    requires |buf| == n + 1 && head < n && tail < n && buf[n] == NUL
  {
    exists k: nat :: Drained(buf, n, head, tail, lineSize, k) == (text, head)
  }

  /** At some point the buffer is empty, and what was handed out is what was queued. */
  ghost predicate PrintsOnce(buf: seq<char>, n: nat, head: nat, tail: nat, lineSize: nat)
    requires |buf| == n + 1 && head < n && tail < n && buf[n] == NUL
  {
    HandsOut(buf, n, head, tail, lineSize, View(buf, n, head, tail))
  }

  lemma {:induction false} DrainedFromNext(buf: seq<char>, n: nat, head: nat, tail: nat, lineSize: nat, k: nat)
    requires |buf| == n + 1 && head < n && tail < n && buf[n] == NUL
    ensures LineOutcome(buf, n, head, tail, lineSize).1 < n
    ensures var (line, next) := LineOutcome(buf, n, head, tail, lineSize);
            var rest := Drained(buf, n, head, next, lineSize, k);
            Drained(buf, n, head, tail, lineSize, k + 1) == (line + rest.0, rest.1)
    decreases k
  {
    hide LineOutcome;
    LineOutcomeInRange(buf, n, head, tail, lineSize);
    var (line, next) := LineOutcome(buf, n, head, tail, lineSize);
    if k == 0 {
      assert Drained(buf, n, head, tail, lineSize, 0) == ([], tail);
      EmptyPrefix([], line);
      assert line + [] == line;
    } else {
      DrainedFromNext(buf, n, head, tail, lineSize, k - 1);
      var at := Drained(buf, n, head, next, lineSize, k - 1);
      LineOutcomeInRange(buf, n, head, at.1, lineSize);
      ConcatAssoc(line, at.0, LineOutcome(buf, n, head, at.1, lineSize).0);
    }
  }

  lemma ConcatAssoc(a: seq<char>, b: seq<char>, c: seq<char>)
    ensures a + b + c == a + (b + c)
  {
  }

  /** Drains without a misread print everything. */
  lemma {:induction false} LosslessPrints(buf: seq<char>, n: nat, head: nat, tail: nat, lineSize: nat) returns (k: nat)
    requires |buf| == n + 1 && head < n && tail < n && Terminated(buf, n, head, tail) && lineSize > 0
    requires Lossless(buf, n, head, tail, lineSize)
    ensures buf[n] == NUL && Drained(buf, n, head, tail, lineSize, k) == (View(buf, n, head, tail), head)
    decreases |View(buf, n, head, tail)|
  {
    hide First, Second, LineOutcome, NextLine, Terminated, View;
    TerminatedText(buf, n, head, tail);
    if head == tail {
      EmptyView(buf, n, head);
      k := 0;
    } else {
      ReadShrinks(buf, n, head, tail, lineSize);
      LineReadRefines(buf, n, head, tail, lineSize);
      var rest := LosslessPrints(buf, n, head, LineOutcome(buf, n, head, tail, lineSize).1, lineSize);
      DrainedFromNext(buf, n, head, tail, lineSize, rest);
      k := rest + 1;
    }
  }

  /** However it goes wrong, a line read hands out or leaves at least as much as was there. */
  lemma ReadNeverLoses(buf: seq<char>, n: nat, head: nat, tail: nat, lineSize: nat)
    requires |buf| == n + 1 && head < n && tail < n && buf[n] == NUL
    ensures LineOutcome(buf, n, head, tail, lineSize).1 < n
    ensures var (line, next) := LineOutcome(buf, n, head, tail, lineSize);
            |line| + |View(buf, n, head, next)| >= |View(buf, n, head, tail)|
  {
    hide LineOutcome, FindNewline, Slot;
    LineOutcomeInRange(buf, n, head, tail, lineSize);
    if FindNewline(buf, tail) != -1 {
      OutcomeAtNewline(buf, n, head, tail, lineSize);
      SlotAhead(tail, Min(Min(lineSize, |First(buf, n, head, tail)|), FindNewline(buf, tail) - tail + 1), n);
    } else if lineSize < |First(buf, n, head, tail)| {
      OutcomeOfLongSegment(buf, n, head, tail, lineSize);
    } else {
      OutcomeOfShortSegment(buf, n, head, tail, lineSize);
      SpillNeverLoses(buf, n, head, tail, lineSize);
    }
  }

  lemma SpillNeverLoses(buf: seq<char>, n: nat, head: nat, tail: nat, lineSize: nat)
    requires |buf| == n + 1 && head < n && tail < n && buf[n] == NUL && |First(buf, n, head, tail)| <= lineSize
    ensures var (line, next) := SpillOutcome(buf, n, head, tail, lineSize, First(buf, n, head, tail));
            |line| + |View(buf, n, head, next)| >= |View(buf, n, head, tail)|
  {
    hide FindNewline, Slot;
    if FindNewline(buf, 0) != -1 {
      SlotAhead(0, Min(lineSize - |First(buf, n, head, tail)|, FindNewline(buf, 0) + 1), n);
    }
  }

  /** After any number of reads either every one was faithful so far, or there is more text than there
      was. */
  lemma {:induction false} FaithfulOrMore(buf: seq<char>, n: nat, head: nat, tail: nat, lineSize: nat, k: nat)
    requires |buf| == n + 1 && head < n && tail < n && Terminated(buf, n, head, tail) && lineSize > 0
    ensures buf[n] == NUL
    ensures var (text, at) := Drained(buf, n, head, tail, lineSize, k);
            || |text| + |View(buf, n, head, at)| > |View(buf, n, head, tail)|
            || (Terminated(buf, n, head, at)
                && (Drains(buf, n, head, at, lineSize) <==> Drains(buf, n, head, tail, lineSize))
                && |text| + |View(buf, n, head, at)| == |View(buf, n, head, tail)|)
    decreases k
  {
    hide First, Second, LineOutcome, NextLine, Terminated, View, FindNewline, LooseEnd, Drains, LineMisreads;
    TerminatedText(buf, n, head, tail);
    if k > 0 {
      FaithfulOrMore(buf, n, head, tail, lineSize, k - 1);
      var at := Drained(buf, n, head, tail, lineSize, k - 1).1;
      ReadNeverLoses(buf, n, head, at, lineSize);
      if Terminated(buf, n, head, at) {
        if head == at {
          NothingQueued(buf, n, head, lineSize);
        } else if LineMisreads(buf, n, head, at, lineSize) {
          MisreadLosesText(buf, n, head, at, lineSize);
        } else {
          ReadShrinks(buf, n, head, at, lineSize);
          LineReadRefines(buf, n, head, at, lineSize);
          DrainsStep(buf, n, head, at, lineSize);
        }
      }
    }
  }

  /** Draining prints every queued character once, in order, and ends, exactly when the condition
      holds on the state it starts from. */
  lemma DrainsExactly(buf: seq<char>, n: nat, head: nat, tail: nat, lineSize: nat)
    requires |buf| == n + 1 && head < n && tail < n && Terminated(buf, n, head, tail) && lineSize > 0
    ensures buf[n] == NUL
    ensures PrintsOnce(buf, n, head, tail, lineSize) <==> Drains(buf, n, head, tail, lineSize)
  {
    hide First, Second, LineOutcome, NextLine, Terminated, View, FindNewline, LooseEnd, Drained, Lossless;
    TerminatedText(buf, n, head, tail);
    if Drains(buf, n, head, tail, lineSize) {
      LosslessExactly(buf, n, head, tail, lineSize);
      var k := LosslessPrints(buf, n, head, tail, lineSize);
    }
    if k: nat :| Drained(buf, n, head, tail, lineSize, k) == (View(buf, n, head, tail), head) {
      FaithfulOrMore(buf, n, head, tail, lineSize, k);
      EmptyView(buf, n, head);
    }
  }

  // ---- printAvailableLogging ---------------------------------------------------------------------

  function Flatten(lines: seq<seq<char>>): seq<char> {
    if lines == [] then [] else Flatten(lines[..|lines| - 1]) + lines[|lines| - 1]
  }

  /** A line as it is printed: without its own newline, and with one. */
  function Printed(line: seq<char>): (r: seq<char>)
    requires line != []
    ensures line[|line| - 1] == '\n' ==> r == line
    ensures line[|line| - 1] != '\n' ==> r == line + ['\n']
  {
    (if line[|line| - 1] == '\n' then line[..|line| - 1] else line) + ['\n']
  }

  function PrintedAll(lines: seq<seq<char>>): seq<char>
    requires [] !in lines
  {
    if lines == [] then [] else PrintedAll(lines[..|lines| - 1]) + Printed(lines[|lines| - 1])
  }

  /** Line reads that empty the buffer at some point; otherwise the drain runs for ever. */
  ghost predicate DrainEnds(buf: seq<char>, n: nat, head: nat, tail: nat, lineSize: nat)
    requires |buf| == n + 1 && head < n && tail < n && buf[n] == NUL
  {
    exists k: nat :: Drained(buf, n, head, tail, lineSize, k).1 == head
  }

  /** An empty buffer stays empty. */
  lemma {:induction false} DrainedStays(buf: seq<char>, n: nat, head: nat, tail: nat, lineSize: nat, j: nat, k: nat)
    requires |buf| == n + 1 && head < n && tail < n && buf[n] == NUL && j <= k
    requires Drained(buf, n, head, tail, lineSize, j).1 == head
    ensures Drained(buf, n, head, tail, lineSize, k) == Drained(buf, n, head, tail, lineSize, j)
    decreases k
  {
    hide LineOutcome;
    if j < k {
      DrainedStays(buf, n, head, tail, lineSize, j, k - 1);
      NothingQueued(buf, n, head, lineSize);
      var text := Drained(buf, n, head, tail, lineSize, k - 1).0;
      assert text + [] == text;
    }
  }

  /** One more read at the end, and none at all. */
  lemma DrainedMore(buf: seq<char>, n: nat, head: nat, tail: nat, lineSize: nat, k: nat)
    requires |buf| == n + 1 && head < n && tail < n && buf[n] == NUL
    ensures Drained(buf, n, head, tail, lineSize, 0) == ([], tail)
    ensures var (text, at) := Drained(buf, n, head, tail, lineSize, k);
            var (line, next) := LineOutcome(buf, n, head, at, lineSize);
            Drained(buf, n, head, tail, lineSize, k + 1) == (text + line, next)
  {
    hide LineOutcome;
  }

  /** A drain that meets the condition ends, with the contents as its output, however long it runs. */
  lemma DrainsAll(buf: seq<char>, n: nat, head: nat, tail: nat, lineSize: nat, text: seq<char>)
    requires |buf| == n + 1 && head < n && tail < n && Terminated(buf, n, head, tail) && lineSize > 0
    requires Drains(buf, n, head, tail, lineSize)
    ensures buf[n] == NUL && DrainEnds(buf, n, head, tail, lineSize)
    ensures HandsOut(buf, n, head, tail, lineSize, text) ==> text == View(buf, n, head, tail)
  {
    hide View, Terminated, Drains, Drained;
    DrainsExactly(buf, n, head, tail, lineSize);
    var all: nat :| Drained(buf, n, head, tail, lineSize, all) == (View(buf, n, head, tail), head);
    assert Drained(buf, n, head, tail, lineSize, all).1 == head;
    if k: nat :| Drained(buf, n, head, tail, lineSize, k) == (text, head) {
      if k <= all {
        DrainedStays(buf, n, head, tail, lineSize, k, all);
      } else {
        DrainedStays(buf, n, head, tail, lineSize, all, k);
      }
    }
  }

  /** A state the drain never leaves: the tail already sits where a misread line puts it. */
  lemma DrainCanStick(buf: seq<char>, n: nat, head: nat, lineSize: nat)
    requires |buf| == n + 1 && head < lineSize < n && Terminated(buf, n, head, lineSize)
    requires lineSize < n - lineSize && '\n' !in First(buf, n, head, lineSize)
    ensures LineOutcome(buf, n, head, lineSize, lineSize).1 == lineSize
    ensures |LineOutcome(buf, n, head, lineSize, lineSize).0| == lineSize
  {
    LongSegment(buf, n, head, lineSize, lineSize);
  }

  /** In such a state no number of reads empties the buffer. */
  lemma {:induction false} StuckForEver(buf: seq<char>, n: nat, head: nat, lineSize: nat, k: nat)
    requires |buf| == n + 1 && head < lineSize < n && buf[n] == NUL
    requires LineOutcome(buf, n, head, lineSize, lineSize).1 == lineSize
    ensures Drained(buf, n, head, lineSize, lineSize, k).1 == lineSize
    decreases k
  {
    hide LineOutcome;
    if k > 0 {
      StuckForEver(buf, n, head, lineSize, k - 1);
    }
  }

  /** Such states are reached: one long write without a newline, to a new buffer at least twice as long
      as a line, and the drain never ends. */
  method FillUntilStuck(log: CircularBuffer, items: seq<char>, lineSize: nat)
    requires log.Valid() && log.Text() && log.head == log.tail == 0
    requires 0 < lineSize && 2 * lineSize < log.fixedSize && |items| == log.fixedSize + lineSize - 1 < 65536
    requires NUL !in items && '\n' !in items
    modifies log, log.buffer
    ensures log.Valid() && log.Text() && log.Contents() == Newest(items, log.fixedSize - 1)
    ensures !DrainEnds(log.buffer[..], log.fixedSize, log.head, log.tail, lineSize)
  {
    hide Terminated, Slot, View, Newest, DrainEnds;
    ghost var n := log.fixedSize;
    EmptyView(log.buffer[..], n, 0);
    EmptyPrefix([], items);
    log.WriteString(items);
    SlotIsMod(0, |items|, n);
    ModUnique(|items|, n, 1, lineSize - 1);
    FilledIsStuck(log.buffer[..], n, log.head, log.tail, items, lineSize);
  }

  /** The newest items of such a write fill the ring behind a head just below the line size. */
  lemma FilledIsStuck(buf: seq<char>, n: nat, head: nat, tail: nat, items: seq<char>, lineSize: nat)
    requires |buf| == n + 1 && 0 < lineSize && 2 * lineSize < n && head == lineSize - 1 && tail < n
    requires Terminated(buf, n, head, tail) && '\n' !in items && |items| >= n - 1
    requires View(buf, n, head, tail) == Newest(items, n - 1)
    ensures buf[n] == NUL && !DrainEnds(buf, n, head, tail, lineSize)
  {
    hide Terminated, LineOutcome, Drained;
    NoNewlineQueued(buf, n, head, tail, items);
    TerminatedText(buf, n, head, tail);
    assert tail == lineSize;
    DrainCanStick(buf, n, head, lineSize);
    forall k: nat
      ensures Drained(buf, n, head, lineSize, lineSize, k).1 == lineSize
    {
      StuckForEver(buf, n, head, lineSize, k);
    }
  }

  lemma NoNewlineQueued(buf: seq<char>, n: nat, head: nat, tail: nat, items: seq<char>)
    requires |buf| == n + 1 && head < n && tail < n && '\n' !in items && |items| >= n - 1
    requires View(buf, n, head, tail) == Newest(items, n - 1)
    ensures '\n' !in First(buf, n, head, tail) && |View(buf, n, head, tail)| == n - 1
  {
    hide First, Second;
    var a, b := First(buf, n, head, tail), Second(buf, n, head, tail);
    assert forall c :: c in a ==> c in a + b;
  }

  /** Reads lines until the log is empty and prints them. A buffer that reports itself full first
      has one line read off and dropped. It asks for no more than that the reads come to an end; the
      dropped text and the lines are what the reads hand out, and if the condition held on entry they
      are what was queued. */
  method PrintAvailableLogging(log: CircularBuffer, line: array<char>)
    returns (dropped: seq<char>, lines: seq<seq<char>>, printed: seq<char>)
    requires log.Valid() && log.buffer[log.fixedSize] == NUL
    requires line != log.buffer && line.Length == SERIAL_LOG_BUFFER_LEN
    requires DrainEnds(log.buffer[..], log.fixedSize, log.head, log.tail, SERIAL_LOG_BUFFER_LEN - 1)
    modifies log, line
    ensures log.Valid() && log.Contents() == [] && log.buffer[..] == old(log.buffer[..])
    ensures HandsOut(log.buffer[..], log.fixedSize, old(log.head), old(log.tail), SERIAL_LOG_BUFFER_LEN - 1,
                     dropped + Flatten(lines))
    ensures forall l :: l in lines ==> 0 < |l| < SERIAL_LOG_BUFFER_LEN
    ensures old(log.Text() && Drains(log.buffer[..], log.fixedSize, log.head, log.tail, SERIAL_LOG_BUFFER_LEN - 1)) ==>
              && dropped + Flatten(lines) == old(log.Contents())
              && forall l :: l in lines ==> '\n' !in l[..|l| - 1]
    ensures dropped == if |old(log.Contents())| == log.fixedSize - 1 && old(log.tail) != 0
                       then LineOutcome(log.buffer[..], log.fixedSize, old(log.head), old(log.tail),
                                        SERIAL_LOG_BUFFER_LEN - 1).0
                       else []
    ensures [] !in lines && printed == PrintedAll(lines)
  {
    hide Terminated, View, Drains, DrainEnds, HandsOut, Flatten, PrintedAll, LineOutcome;
    dropped := [];
    ghost var buf, n, head, start, size := log.buffer[..], log.fixedSize, log.head, log.tail, SERIAL_LOG_BUFFER_LEN - 1;
    ghost var good := log.Text() && Drains(buf, n, head, start, size);
    EmptyView(buf, n, start);
    var full := log.Full();
    if full {
      DrainEndsLater(buf, n, head, start, size);
      dropped := ReadLine(log, line);
    }
    lines, printed := PrintLines(log, line);
    if full { HandsOutBefore(buf, n, head, start, size, Flatten(lines)); }
    EmptyPrefix([], Flatten(lines));
    EmptyView(buf, n, head);
    if good { DrainsAll(buf, n, head, start, size, dropped + Flatten(lines)); }
    log.ClearIfEmpty();
  }

  lemma DrainEndsLater(buf: seq<char>, n: nat, head: nat, tail: nat, lineSize: nat)
    requires |buf| == n + 1 && head < n && tail < n && buf[n] == NUL && head != tail
    requires DrainEnds(buf, n, head, tail, lineSize)
    ensures LineOutcome(buf, n, head, tail, lineSize).1 < n
    ensures DrainEnds(buf, n, head, LineOutcome(buf, n, head, tail, lineSize).1, lineSize)
  {
    hide LineOutcome;
    var k: nat :| Drained(buf, n, head, tail, lineSize, k).1 == head;
    DrainedFromNext(buf, n, head, tail, lineSize, k - 1);
  }

  lemma HandsOutBefore(buf: seq<char>, n: nat, head: nat, tail: nat, lineSize: nat, text: seq<char>)
    requires |buf| == n + 1 && head < n && tail < n && buf[n] == NUL
    ensures LineOutcome(buf, n, head, tail, lineSize).1 < n
    ensures var (line, next) := LineOutcome(buf, n, head, tail, lineSize);
            HandsOut(buf, n, head, next, lineSize, text) ==> HandsOut(buf, n, head, tail, lineSize, line + text)
  {
    hide LineOutcome, Drained;
    LineOutcomeInRange(buf, n, head, tail, lineSize);
    var next := LineOutcome(buf, n, head, tail, lineSize).1;
    if k: nat :| Drained(buf, n, head, next, lineSize, k) == (text, head) {
      DrainedFromNext(buf, n, head, tail, lineSize, k);
    }
  }

  /** The loop of the drain. */
  method PrintLines(log: CircularBuffer, line: array<char>) returns (lines: seq<seq<char>>, printed: seq<char>)
    requires log.Shape() && log.buffer[log.fixedSize] == NUL && (log.maxed ==> log.Valid())
    requires line != log.buffer && line.Length == SERIAL_LOG_BUFFER_LEN
    requires DrainEnds(log.buffer[..], log.fixedSize, log.head, log.tail, SERIAL_LOG_BUFFER_LEN - 1)
    modifies log`tail, log`maxed, line
    ensures log.Valid() && log.tail == log.head
    ensures HandsOut(log.buffer[..], log.fixedSize, log.head, old(log.tail), SERIAL_LOG_BUFFER_LEN - 1, Flatten(lines))
    ensures [] !in lines && printed == PrintedAll(lines)
    ensures forall l :: l in lines ==> 0 < |l| < SERIAL_LOG_BUFFER_LEN
    ensures old(log.Text() && Drains(log.buffer[..], log.fixedSize, log.head, log.tail, SERIAL_LOG_BUFFER_LEN - 1)) ==>
              forall l :: l in lines ==> '\n' !in l[..|l| - 1]
  {
    hide Terminated, View, Drains, Drained, Flatten, PrintedAll, Printed, LineOutcome;
    lines, printed := [], [];
    ghost var buf, n, head, start, size := log.buffer[..], log.fixedSize, log.head, log.tail, SERIAL_LOG_BUFFER_LEN - 1;
    ghost var good := log.Text() && Drains(buf, n, head, start, size);
    ghost var left: nat :| Drained(buf, n, head, start, size, left).1 == head;
    ghost var done := 0;
    DrainedMore(buf, n, head, start, size, 0);
    EmptyOutput();
    while !log.Empty()
      invariant log.Shape() && log.buffer[..] == buf && log.head == head && (log.maxed ==> log.Valid())
      invariant good ==> log.Text() && Drains(buf, n, head, log.tail, size)
      invariant Drained(buf, n, head, start, size, done) == (Flatten(lines), log.tail)
      invariant Drained(buf, n, head, log.tail, size, left).1 == head
      invariant [] !in lines && printed == PrintedAll(lines)
      invariant forall l :: l in lines ==> 0 < |l| < SERIAL_LOG_BUFFER_LEN && (good ==> '\n' !in l[..|l| - 1])
      decreases left
    {
      DrainedMore(buf, n, head, log.tail, size, 0);
      DrainedMore(buf, n, head, start, size, done);
      DrainedFromNext(buf, n, head, log.tail, size, left - 1);
      var next := ReadLine(log, line);
      OneMoreLine(lines, next);
      var put := PutLine(line, |next|);
      lines, printed := lines + [next], printed + put;
      done, left := done + 1, left - 1;
    }
  }

  lemma EmptyOutput()
    ensures Flatten([]) == [] && PrintedAll([]) == []
  {
  }

  lemma OneMoreLine(lines: seq<seq<char>>, next: seq<char>)
    ensures Flatten(lines + [next]) == Flatten(lines) + next
    ensures [] !in lines && next != [] ==> PrintedAll(lines + [next]) == PrintedAll(lines) + Printed(next)
  {
    assert (lines + [next])[..|lines|] == lines;
  }

  /** Puts out the first `length` characters of a line one by one, and a newline after them. */
  method PutLine(line: array<char>, length: nat) returns (put: seq<char>)
    requires 0 < length <= line.Length
    ensures put == Printed(line[..length])
  {
    var len := length;
    if line[len - 1] == '\n' {
      len := len - 1;
    }
    put := [];
    for i := 0 to len
      invariant put == line[..i]
    {
      put := put + [line[i]];
    }
    put := put + ['\n'];
    assert line[..length][..len] == line[..len];
  }

  /** One line read of the drain, with what it keeps. */
  method ReadLine(log: CircularBuffer, line: array<char>) returns (text: seq<char>)
    requires log.Shape() && log.buffer[log.fixedSize] == NUL && !log.Empty()
    requires line != log.buffer && line.Length == SERIAL_LOG_BUFFER_LEN
    modifies log`tail, log`maxed, line
    ensures log.Shape() && !log.maxed
    ensures (text, log.tail) ==
            LineOutcome(log.buffer[..], log.fixedSize, log.head, old(log.tail), SERIAL_LOG_BUFFER_LEN - 1)
    ensures 0 < |text| < SERIAL_LOG_BUFFER_LEN && line[..|text|] == text
    ensures old(log.Text() && Drains(log.buffer[..], log.fixedSize, log.head, log.tail, SERIAL_LOG_BUFFER_LEN - 1)) ==>
              && log.Text() && Drains(log.buffer[..], log.fixedSize, log.head, log.tail, SERIAL_LOG_BUFFER_LEN - 1)
              && '\n' !in text[..|text| - 1]
  {
    hide First, Second, LineOutcome, NextLine, Terminated, View, LineMisreads, Drains;
    ghost var buf, n, head, tail, size := log.buffer[..], log.fixedSize, log.head, log.tail, SERIAL_LOG_BUFFER_LEN - 1;
    LineNotEmpty(buf, n, head, tail, size);
    if log.Text() && Drains(buf, n, head, tail, size) {
      LosslessExactly(buf, n, head, tail, size);
      TerminatedText(buf, n, head, tail);
      ReadShrinks(buf, n, head, tail, size);
      DrainsStep(buf, n, head, tail, size);
      LineReadRefines(buf, n, head, tail, size);
      NextLineIsLine(First(buf, n, head, tail), Second(buf, n, head, tail), size);
    }
    var length := log.ConsumeLine(line, SERIAL_LOG_BUFFER_LEN - 1);
    text := line[..length];
  }

  lemma LineNotEmpty(buf: seq<char>, n: nat, head: nat, tail: nat, lineSize: nat)
    requires |buf| == n + 1 && head < n && tail < n && buf[n] == NUL && head != tail && lineSize > 0
    ensures LineOutcome(buf, n, head, tail, lineSize).0 != []
  {
  }
}
