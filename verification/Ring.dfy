/** The abstract queue behind the log buffer, and the search routine it borrows from the C library.

    A ring of `n` usable slots keeps one extra slot at index `n` for a terminating NUL. The queue it
    stands for is read off the storage by `View`; at most `n - 1` items are held. */
module Ring {

  const NUL: char := '\0'

  /** The first physical segment runs to the end of storage exactly when the contents wrap. */
  predicate Wrapped(head: nat, tail: nat) {
    head < tail
  }

  /** The part of the queue that is contiguous in storage, starting at the oldest item. */
  function First(buf: seq<char>, n: nat, head: nat, tail: nat): (v: seq<char>)
    requires |buf| == n + 1 && head < n && tail < n
    ensures |v| == if Wrapped(head, tail) then n - tail else head - tail
  {
    if Wrapped(head, tail) then buf[tail..n] else buf[tail..head]
  }

  /** The rest of it, at the front of the storage. */
  function Second(buf: seq<char>, n: nat, head: nat, tail: nat): (v: seq<char>)
    requires |buf| == n + 1 && head < n && tail < n
    ensures |v| == if Wrapped(head, tail) then head else 0
  {
    if Wrapped(head, tail) then buf[..head] else []
  }

  /** The queued items, oldest first. */
  function View(buf: seq<char>, n: nat, head: nat, tail: nat): (v: seq<char>)
    requires |buf| == n + 1 && head < n && tail < n
  {
    First(buf, n, head, tail) + Second(buf, n, head, tail)
  }

  /** Slot `j` holds a queued item. */
  predicate Live(n: nat, head: nat, tail: nat, j: nat) {
    j < n && if Wrapped(head, tail) then j < head || tail <= j else tail <= j < head
  }

  /** What a line read relies on: no NUL is queued, and NULs stand after the newest item and in the
      spare slot. */
  predicate Terminated(buf: seq<char>, n: nat, head: nat, tail: nat)
    requires |buf| == n + 1 && head < n && tail < n
  {
    && NUL !in View(buf, n, head, tail)
    && (head > 0 ==> buf[head] == NUL)
    && buf[n] == NUL
  }

  /** The newest `k` items of `s`. */
  function Newest(s: seq<char>, k: nat): (r: seq<char>)
    ensures |r| == if |s| < k then |s| else k
  {
    if |s| <= k then s else s[|s| - k..]
  }

  function Next(i: nat, n: nat): (r: nat)
    requires i < n
    ensures r < n
  {
    if i + 1 == n then 0 else i + 1
  }

  /** The slot `k` places after `i`. */
  function Slot(i: nat, k: nat, n: nat): (r: nat)
    requires i < n
    ensures r < n
  {
    if k == 0 then i else Next(Slot(i, k - 1, n), n)
  }

  // ---- modular arithmetic -------------------------------------------------------------------

  lemma {:induction false} ModSucc(a: nat, n: nat)
    requires n > 0
    ensures (a + 1) % n == Next(a % n, n)
    ensures (a % n + 1) % n == (a + 1) % n
  {
    if a >= n {
      ModSub(a, n);
      ModSub(a + 1, n);
      ModSucc(a - n, n);
    } else {
      ModUnique(a, n, 0, a);
      if a + 1 < n {
        ModUnique(a + 1, n, 0, a + 1);
      } else {
        ModUnique(n, n, 1, 0);
      }
    }
  }

  lemma {:induction false} SlotIsMod(i: nat, k: nat, n: nat)
    requires i < n
    ensures Slot(i, k, n) == (i + k) % n
  {
    if k == 0 {
      ModUnique(i, n, 0, i);
    } else {
      SlotIsMod(i, k - 1, n);
      ModSucc(i + k - 1, n);
    }
  }

  lemma {:induction false} SlotAhead(i: nat, k: nat, n: nat)
    requires i < n && i + k <= n
    ensures Slot(i, k, n) == if i + k == n then 0 else i + k
  {
    if k > 0 {
      SlotAhead(i, k - 1, n);
    }
  }

  lemma ModSub(a: nat, n: nat)
    requires 0 < n <= a
    ensures a % n == (a - n) % n
  {
    var q, r := (a - n) / n, (a - n) % n;
    assert a == (q + 1) * n + r by {
      assert (q + 1) * n == q * n + n;
    }
    ModUnique(a, n, q + 1, r);
  }

  lemma ModUnique(a: nat, n: nat, q: int, r: nat)
    requires r < n && a == q * n + r
    ensures a % n == r
  {
    var q', r' := a / n, a % n;
    assert a == q' * n + r';
    assert (q - q') * n == r' - r by {
      assert (q - q') * n == q * n - q' * n;
    }
    assert (q' - q) * n == r - r' by {
      assert (q' - q) * n == q' * n - q * n;
    }
    if q > q' {
      MulAtLeast(q - q', n);
    } else if q < q' {
      MulAtLeast(q' - q, n);
    }
  }

  lemma {:induction false} MulAtLeast(k: nat, n: nat)
    requires k > 0
    ensures k * n >= n
  {
    if k > 1 {
      MulAtLeast(k - 1, n);
      assert k * n == (k - 1) * n + n;
    }
  }

  // ---- one push on the abstract queue --------------------------------------------------------

  /** Putting one character at `head`, advancing it, and advancing `tail` when the ring was full,
      appends to the queue and drops the oldest item when there is no room. */
  lemma PushRefines(buf: seq<char>, n: nat, head: nat, tail: nat, c: char)
    requires |buf| == n + 1 && head < n && tail < n
    ensures var head' := Next(head, n);
            var tail' := if head' == tail then Next(tail, n) else tail;
            View(buf[head := c], n, head', tail') == Newest(View(buf, n, head, tail) + [c], n - 1)
  {
    hide View;
    ViewAfterPush(buf, n, head, tail, c);
  }

  /** Where each queued item is stored. */
  lemma ViewAt(buf: seq<char>, n: nat, head: nat, tail: nat)
    requires |buf| == n + 1 && head < n && tail < n
    ensures |View(buf, n, head, tail)| == if Wrapped(head, tail) then n - tail + head else head - tail
    ensures forall i :: 0 <= i < |View(buf, n, head, tail)| ==>
              View(buf, n, head, tail)[i] == buf[if tail + i < n then tail + i else tail + i - n]
  {
  }

  lemma ViewAfterPush(buf: seq<char>, n: nat, head: nat, tail: nat, c: char)
    requires |buf| == n + 1 && head < n && tail < n
    ensures |View(buf, n, head, tail)| < n
    ensures var v, head' := View(buf, n, head, tail), Next(head, n);
            if head' == tail then
              |v| == n - 1 && View(buf[head := c], n, head', Next(tail, n)) == (v + [c])[1..]
            else
              |v| < n - 1 && View(buf[head := c], n, head', tail) == v + [c]
  {
    hide View;
    ViewAt(buf, n, head, tail);
    ViewAt(buf[head := c], n, Next(head, n), tail);
    ViewAt(buf[head := c], n, Next(head, n), Next(tail, n));
  }

  lemma NewestKeepsOut(a: seq<char>, b: seq<char>, k: nat, c: char)
    requires c !in a && c !in b
    ensures c !in Newest(a + b, k)
  {
    assert forall x :: x in Newest(a + b, k) ==> x in a + b;
  }

  lemma EmptyPrefix(e: seq<char>, s: seq<char>)
    requires |e| == 0
    ensures e + s == s
  {
  }

  /** Moving `tail` over the first `k` items of the first segment takes them off the queue. */
  lemma AdvanceRefines(buf: seq<char>, n: nat, head: nat, tail: nat, k: nat)
    requires |buf| == n + 1 && head < n && tail < n
    requires k <= |First(buf, n, head, tail)|
    ensures tail + k <= n && Slot(tail, k, n) == if tail + k == n then 0 else tail + k
    ensures buf[tail..tail + k] == First(buf, n, head, tail)[..k]
    ensures View(buf, n, head, Slot(tail, k, n)) == First(buf, n, head, tail)[k..] + Second(buf, n, head, tail)
    ensures buf[tail..tail + k] + View(buf, n, head, Slot(tail, k, n)) == View(buf, n, head, tail)
  {
    SlotAhead(tail, k, n);
    var a, b := First(buf, n, head, tail), Second(buf, n, head, tail);
    if Wrapped(head, tail) && tail + k == n {
      assert First(buf, n, head, 0) == b;
    }
    TakeDrop(a, b, k);
  }

  lemma TakeDrop(a: seq<char>, b: seq<char>, k: nat)
    requires k <= |a|
    ensures a[..k] + (a[k..] + b) == a + b
    ensures (a + b)[..k] == a[..k]
  {
  }

  lemma ConsumeRefines(buf: seq<char>, n: nat, head: nat, tail: nat)
    requires |buf| == n + 1 && head < n && tail < n && head != tail
    ensures [buf[tail]] + View(buf, n, head, Next(tail, n)) == View(buf, n, head, tail)
    ensures Terminated(buf, n, head, tail) ==> Terminated(buf, n, head, Next(tail, n))
  {
    AdvanceRefines(buf, n, head, tail, 1);
    assert buf[tail..tail + 1] == [buf[tail]];
    assert forall c :: c in View(buf, n, head, Next(tail, n)) ==> c in View(buf, n, head, tail);
  }

  lemma NewestCompose(a: seq<char>, b: seq<char>, k: nat)
    ensures Newest(Newest(a, k) + b, k) == Newest(a + b, k)
  {
    if |a| > k {
      assert Newest(a, k) + b == (a + b)[|a| - k..];
    }
  }

  /** One round of a string write: with the first `count` characters in, the next one goes in. */
  lemma AppendRefines(buf: seq<char>, n: nat, head: nat, tail: nat, v: seq<char>, items: seq<char>, count: nat)
    requires |buf| == n + 1 && head < n && tail < n && count < |items|
    requires View(buf, n, head, tail) == Newest(v + items[..count], n - 1)
    ensures var head' := Next(head, n);
            var tail' := if head' == tail then Next(tail, n) else tail;
            View(buf[head := items[count]], n, head', tail') == Newest(v + items[..count + 1], n - 1)
  {
    hide View, Newest;
    PushRefines(buf, n, head, tail, items[count]);
    NewestCompose(v + items[..count], [items[count]], n - 1);
    assert v + items[..count] + [items[count]] == v + items[..count + 1];
  }

  /** The state of a string write after `count` characters: `h` is the next slot and `t` the place
      the oldest item moved to, while the fields `head` and `tail` stay put. Once `maxed` is set the
      ring is full behind `h`; until then nothing was dropped. */
  predicate Copied(buf: seq<char>, n: nat, head: nat, tail: nat, maxed: bool, h: nat, t: nat,
                   v: seq<char>, items: seq<char>, count: nat)
    requires |buf| == n + 1 && head < n && h < n && t < n && count <= |items|
  {
    && h == Slot(head, count, n)
    && View(buf, n, h, t) == Newest(v + items[..count], n - 1)
    && if maxed then t == Next(h, n) else t == tail && h != tail - 1
  }

  lemma CopiedAtStart(buf: seq<char>, n: nat, head: nat, tail: nat, maxed: bool, items: seq<char>)
    requires |buf| == n + 1 && head < n && tail < n && (maxed <==> head == tail - 1)
    ensures Copied(buf, n, head, tail, maxed, head, tail, View(buf, n, head, tail), items, 0)
  {
    var v := View(buf, n, head, tail);
    assert v + items[..0] == v;
  }

  /** One round of the copying loop, with the test it makes on the slot just written. */
  lemma CopiedRound(buf: seq<char>, n: nat, head: nat, tail: nat, maxed: bool, h: nat, t: nat,
                    v: seq<char>, items: seq<char>, count: nat)
    requires |buf| == n + 1 && head < n && tail < n && h < n && t < n && count < |items|
    requires Copied(buf, n, head, tail, maxed, h, t, v, items, count)
    ensures h == Slot(head, count, n)
    ensures var h' := Slot(h, 1, n);
            Copied(buf[h := items[count]], n, head, tail,
                   maxed || h' == tail - 1 || (tail == 0 && h == n - 1),
                   h', if h' == t then Next(t, n) else t, v, items, count + 1)
  {
    AppendRefines(buf, n, h, t, v, items, count);
    SlotStep(h, 0, n);
    SlotStep(head, count, n);
  }

  lemma CopiedAtEnd(buf: seq<char>, n: nat, head: nat, tail: nat, maxed: bool, h: nat, t: nat,
                    v: seq<char>, items: seq<char>)
    requires |buf| == n + 1 && head < n && tail < n && h < n && t < n
    requires Copied(buf, n, head, tail, maxed, h, t, v, items, |items|)
    ensures h == Slot(head, |items|, n) && View(buf, n, h, t) == Newest(v + items, n - 1)
    ensures t == if maxed then Slot(head, |items| + 1, n) else tail
    ensures !maxed ==> h != tail - 1
    ensures items == [] ==> h == head
  {
    assert items[..|items|] == items;
    SlotStep(head, |items|, n);
  }

  lemma SlotStep(i: nat, k: nat, n: nat)
    requires i < n
    ensures Slot(i, 0, n) == i
    ensures Slot(i, k + 1, n) == Next(Slot(i, k, n), n)
    ensures Slot(i, 1, n) == Next(i, n)
  {
    assert Slot(i, 1, n) == Next(Slot(i, 0, n), n);
  }

  /** The slot after the newest item and the spare slot are not part of the queue. */
  lemma ViewIgnoresDeadSlot(buf: seq<char>, n: nat, head: nat, tail: nat, j: nat, c: char)
    requires |buf| == n + 1 && head < n && tail < n && j <= n
    requires !Live(n, head, tail, j)
    ensures View(buf[j := c], n, head, tail) == View(buf, n, head, tail)
  {
  }

  /** A single-item write: appends and drops the oldest as a string write does, except that a full
      ring whose oldest item sits in slot 0 is not recognised as full and comes out empty. */
  lemma ItemRefines(buf: seq<char>, n: nat, head: nat, tail: nat, item: char)
    requires |buf| == n + 1 && head < n && tail < n
    ensures var emptied := n > 1 && tail == 0 && head == n - 1;
            var buf', h := buf[head := item][head + 1 := NUL], Slot(head, 1, n);
            var t := if head == tail - 1 then Slot(head, 2, n) else tail;
            && (View(buf', n, h, t) == Newest(View(buf, n, head, tail) + [item], n - 1) <==> !emptied)
            && (emptied ==> View(buf', n, h, t) == [])
            && (!emptied && item != NUL && Terminated(buf, n, head, tail) ==> Terminated(buf', n, h, t))
  {
    hide View, Newest;
    SlotStep(head, 0, n);
    SlotStep(head, 1, n);
    var h := Next(head, n);
    var t := if h == tail then Next(tail, n) else tail;
    PushRefines(buf, n, head, tail, item);
    ViewIgnoresDeadSlot(buf[head := item], n, h, t, head + 1, NUL);
    if n > 1 && tail == 0 && head == n - 1 {
      EmptyView(buf[head := item][head + 1 := NUL], n, 0);
    } else if item != NUL && Terminated(buf, n, head, tail) {
      NewestKeepsOut(View(buf, n, head, tail), [item], n - 1, NUL);
    }
  }

  lemma EmptyView(buf: seq<char>, n: nat, i: nat)
    requires |buf| == n + 1 && i < n
    ensures View(buf, n, i, i) == []
  {
  }

  lemma TerminatedText(buf: seq<char>, n: nat, head: nat, tail: nat)
    requires |buf| == n + 1 && head < n && tail < n
    ensures Terminated(buf, n, head, tail) ==> NUL !in View(buf, n, head, tail) && buf[n] == NUL
  {
  }

  /** The end of a string write: terminating after the last character written, at `pos`, touches no
      queued item and leaves a terminated text if there was one. */
  lemma TerminateRefines(buf: seq<char>, n: nat, head: nat, tail: nat, pos: nat, v: seq<char>, items: seq<char>)
    requires |buf| == n + 1 && head < n && tail < n && pos < n && head == Next(pos, n)
    requires View(buf, n, head, tail) == Newest(v + items, n - 1)
    ensures View(buf[pos + 1 := NUL], n, head, tail) == Newest(v + items, n - 1)
    ensures NUL !in v && NUL !in items && buf[n] == NUL ==> Terminated(buf[pos + 1 := NUL], n, head, tail)
  {
    ViewIgnoresDeadSlot(buf, n, head, tail, pos + 1, NUL);
    if NUL !in v && NUL !in items {
      NewestKeepsOut(v, items, n - 1, NUL);
    }
  }

  lemma LiveSlotIsInView(buf: seq<char>, n: nat, head: nat, tail: nat, j: nat, c: char) returns (i: nat)
    requires |buf| == n + 1 && head < n && tail < n
    requires Live(n, head, tail, j)
    ensures i < |View(buf, n, head, tail)| && View(buf, n, head, tail)[i] == buf[j]
    ensures View(buf[j := c], n, head, tail)[i] == c
  {
    i := if tail <= j then j - tail else n - tail + j;
  }

  // ---- strchr(s, '\n') -----------------------------------------------------------------------

  /** The position of the first newline at or after `from`, before any NUL; -1 when there is none. */
  function FindNewline(s: seq<char>, from: nat): (r: int)
    requires from <= |s|
    ensures r == -1 || (from <= r < |s| && s[r] == '\n')
    ensures r != -1 ==> forall k :: from <= k < r ==> s[k] != '\n' && s[k] != NUL
    decreases |s| - from
  {
    if from == |s| || s[from] == NUL then -1
    else if s[from] == '\n' then from
    else FindNewline(s, from + 1)
  }

  /** On a text that is NUL-terminated at `end`, the search covers exactly `s[from..end]`. */
  lemma {:induction false} FindNewlineInText(s: seq<char>, from: nat, end: nat)
    requires from <= end < |s| && s[end] == NUL
    requires forall k :: from <= k < end ==> s[k] != NUL
    ensures FindNewline(s, from) < end
    ensures FindNewline(s, from) == -1 <==> '\n' !in s[from..end]
    decreases end - from
  {
    if from < end && s[from] != '\n' {
      FindNewlineInText(s, from + 1, end);
      assert s[from..end] == [s[from]] + s[from + 1..end];
    }
  }

  // ---- lines ---------------------------------------------------------------------------------

  /** Index of the first newline of `v`, or -1. */
  function FirstNewline(v: seq<char>): (r: int)
    ensures r == -1 <==> '\n' !in v
    ensures r != -1 ==> 0 <= r < |v| && v[r] == '\n'
  {
    if v == [] then -1
    else if v[0] == '\n' then 0
    else
      var k := FirstNewline(v[1..]);
      assert v == [v[0]] + v[1..];
      if k == -1 then -1 else k + 1
  }

  lemma {:induction false} NoNewlineBefore(v: seq<char>)
    ensures forall i :: 0 <= i < FirstNewline(v) ==> v[i] != '\n'
  {
    if v != [] && v[0] != '\n' {
      NoNewlineBefore(v[1..]);
    }
  }

  lemma FirstNewlineIs(v: seq<char>, k: nat)
    requires k < |v| && v[k] == '\n' && forall i :: 0 <= i < k ==> v[i] != '\n'
    ensures FirstNewline(v) == k
  {
    assert v[k] in v;
    NoNewlineBefore(v);
  }

  /** A newline in the first part of a queue is the first one of the whole. */
  lemma FirstNewlineOfConcat(a: seq<char>, b: seq<char>)
    ensures FirstNewline(a) != -1 ==> FirstNewline(a + b) == FirstNewline(a)
    ensures FirstNewline(a) == -1 && FirstNewline(b) != -1 ==> FirstNewline(a + b) == |a| + FirstNewline(b)
    ensures FirstNewline(a) == -1 && FirstNewline(b) == -1 ==> FirstNewline(a + b) == -1
  {
    NoNewlineBefore(a);
    NoNewlineBefore(b);
    if FirstNewline(a) != -1 {
      FirstNewlineIs(a + b, FirstNewline(a));
    } else if FirstNewline(b) != -1 {
      FirstNewlineIs(a + b, |a| + FirstNewline(b));
    }
  }

  lemma FirstNewlineInFirst(a: seq<char>, b: seq<char>)
    requires FirstNewline(a) != -1
    ensures FirstNewline(a + b) == FirstNewline(a)
  {
    FirstNewlineOfConcat(a, b);
  }

  function Min(a: nat, b: nat): nat { if a < b then a else b }

  /** The line a reader should get from a queue whose contiguous part is `a` and whose rest is `b`:
      up to and including the first newline, or, when there is none, what is contiguous; never more
      than `limit`. */
  function NextLine(a: seq<char>, b: seq<char>, limit: nat): seq<char> {
    CutAt(a, b, limit, FirstNewline(a + b))
  }

  function CutAt(a: seq<char>, b: seq<char>, limit: nat, k: int): seq<char>
    requires -1 <= k < |a| + |b|
  {
    if k == -1 then a[..Min(limit, |a|)] else (a + b)[..Min(limit, k + 1)]
  }

  lemma NextLineIsLine(a: seq<char>, b: seq<char>, limit: nat)
    ensures var line := NextLine(a, b, limit);
            && |line| <= limit && line <= a + b
            && (a != [] && limit > 0 ==> line != [])
            && (forall i :: 0 <= i < |line| - 1 ==> line[i] != '\n')
  {
    FirstNewlineOfConcat(a, b);
    NoNewlineBefore(a + b);
  }

  lemma NextLineAtNewline(a: seq<char>, b: seq<char>, limit: nat)
    requires FirstNewline(a) != -1
    ensures NextLine(a, b, limit) == a[..Min(Min(limit, |a|), FirstNewline(a) + 1)]
  {
    hide FirstNewline, NextLine, CutAt, Min;
    FirstNewlineInFirst(a, b);
    NextLineIsCut(a, b, limit, FirstNewline(a));
    CutBeforeSecond(a, b, limit, FirstNewline(a));
  }

  lemma NextLineIsCut(a: seq<char>, b: seq<char>, limit: nat, k: int)
    requires FirstNewline(a + b) == k
    ensures NextLine(a, b, limit) == CutAt(a, b, limit, k)
  {
    hide FirstNewline, CutAt;
  }

  lemma CutBeforeSecond(a: seq<char>, b: seq<char>, limit: nat, k: int)
    requires 0 <= k < |a|
    ensures CutAt(a, b, limit, k) == a[..Min(Min(limit, |a|), k + 1)]
  {
    TakeDrop(a, b, Min(limit, k + 1));
  }

  lemma NextLineCut(a: seq<char>, b: seq<char>, limit: nat)
    requires FirstNewline(a) == -1 && limit <= |a|
    ensures NextLine(a, b, limit) == a[..limit]
  {
    hide FirstNewline, CutAt;
    FirstNewlineOfConcat(a, b);
    CutInFirst(a, b, limit, FirstNewline(a + b));
  }

  lemma NextLineInSecond(a: seq<char>, b: seq<char>, limit: nat)
    requires FirstNewline(a) == -1 && FirstNewline(b) != -1 && |a| <= limit
    ensures NextLine(a, b, limit) == a + b[..Min(limit - |a|, FirstNewline(b) + 1)]
  {
    hide FirstNewline, NextLine, CutAt, Min;
    FirstNewlineOfConcat(a, b);
    NextLineIsCut(a, b, limit, |a| + FirstNewline(b));
    CutInSecond(a, b, limit, FirstNewline(b));
  }

  lemma NextLineWithout(a: seq<char>, b: seq<char>, limit: nat)
    requires FirstNewline(a) == -1 && FirstNewline(b) == -1 && |a| <= limit
    ensures NextLine(a, b, limit) == a
  {
    hide FirstNewline, NextLine, CutAt, Min;
    FirstNewlineOfConcat(a, b);
    NextLineIsCut(a, b, limit, -1);
    CutNowhere(a, b, limit);
  }

  lemma CutNowhere(a: seq<char>, b: seq<char>, limit: nat)
    requires |a| <= limit
    ensures CutAt(a, b, limit, -1) == a
  {
  }

  lemma CutInFirst(a: seq<char>, b: seq<char>, limit: nat, k: int)
    requires k == -1 || |a| <= k < |a| + |b|
    requires limit <= |a|
    ensures CutAt(a, b, limit, k) == a[..limit]
  {
    TakeDrop(a, b, limit);
  }

  lemma CutInSecond(a: seq<char>, b: seq<char>, limit: nat, k: int)
    requires 0 <= k < |b| && |a| <= limit
    ensures CutAt(a, b, limit, |a| + k) == a + b[..Min(limit - |a|, k + 1)]
  {
    assert (a + b)[..|a| + Min(limit - |a|, k + 1)] == a + b[..Min(limit - |a|, k + 1)];
  }
}
