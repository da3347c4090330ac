/** The overwriting log buffer: a ring of characters with drop-oldest writes, block reads, and a
    line read that leans on NUL terminators kept in the storage. */
module CircularBuffers {
  import opened Ring
  import opened LineRead

  class CircularBuffer {
    const fixedSize: nat
    const buffer: array<char>
    var head: nat
    var tail: nat
    var maxed: bool
    var willClearIfEmpty: bool

    /** Indices are in range. */
    ghost predicate Shape()
      reads this
    {
      0 < fixedSize < 65536 && buffer.Length == fixedSize + 1 && head < fixedSize && tail < fixedSize
    }

    ghost predicate Valid()
      reads this
    {
      Shape() && (maxed <==> head == tail - 1)
    }

    ghost function Contents(): (v: seq<char>)
      requires Shape()
      reads this, buffer
    {
      View(buffer[..], fixedSize, head, tail)
    }

    ghost function Contiguous(): (k: nat)
      requires Shape()
      reads this, buffer
      ensures k <= |Contents()|
    {
      |First(buffer[..], fixedSize, head, tail)|
    }

    ghost predicate Text()
      requires Shape()
      reads this, buffer
    {
      Terminated(buffer[..], fixedSize, head, tail)
    }

    constructor (size: nat)
      requires 0 < size < 65536
      ensures Valid() && fresh(buffer) && fixedSize == size
      ensures Contents() == [] && head == tail == 0
    {
      fixedSize := size;
      buffer := new char[size + 1];
      head, tail, maxed, willClearIfEmpty := 0, 0, false, false;
    }

    predicate Empty()
      reads this
    {
      head == tail
    }

    /** The flag `Full` misses one full state: `tail == 0`. */
    method Full() returns (r: bool)
      requires Valid()
      ensures r <==> |Contents()| == fixedSize - 1 && tail != 0
    {
      r := maxed;
    }

    /** `(from + k) % fixed_size`, as every index step is computed. */
    method Wrap(from: nat, k: nat) returns (p: nat)
      requires Shape() && from < fixedSize
      ensures p == Slot(from, k, fixedSize)
    {
      SlotIsMod(from, k, fixedSize);
      p := (from + k) % fixedSize;
    }

    method WriteItem(item: char)
      requires Valid()
      modifies this`head, this`tail, this`maxed, this`willClearIfEmpty, buffer
      ensures Valid()
      ensures buffer[..] == old(buffer[..])[old(head) := item][old(head) + 1 := NUL]
      ensures head == Slot(old(head), 1, fixedSize)
      ensures var emptied := fixedSize > 1 && old(tail) == 0 && old(head) == fixedSize - 1;
              && (Contents() == Newest(old(Contents()) + [item], fixedSize - 1) <==> !emptied)
              && (emptied ==> Contents() == [])
              && (!emptied && item != NUL && old(Text()) ==> Text())
    {
      hide View, Newest, Terminated, Slot;
      ghost var buf := buffer[..];
      ItemRefines(buf, fixedSize, head, tail, item);
      willClearIfEmpty := false;
      buffer[head] := item;
      buffer[head + 1] := NUL;
      if maxed {
        tail := Wrap(head, 2);
      }
      head := Wrap(head, 1);
      maxed := head == tail - 1;
      assert buffer[..] == buf[old(head) := item][old(head) + 1 := NUL];
    }

    /** Writes a NUL-terminated string given without its terminator. Of the old contents followed by
        the string, the newest `fixedSize - 1` items stay. The empty string only puts its terminator
        into slot 1, whatever is there (see EmptyStringClobbers). */
    method WriteString(items: seq<char>)
      requires Valid()
      requires NUL !in items && |items| < 65536
      modifies this`head, this`tail, this`maxed, this`willClearIfEmpty, buffer
      ensures Valid()
      ensures head == Slot(old(head), |items|, fixedSize)
      ensures items != [] ==> Contents() == Newest(old(Contents()) + items, fixedSize - 1)
      ensures items != [] && old(Text()) ==> Text()
      ensures items == [] ==> tail == old(tail) && buffer[..] == old(buffer[..])[1 := NUL]
    {
      hide View, Newest, Terminated, Slot, Copied;
      ghost var v := Contents();
      TerminatedText(buffer[..], fixedSize, head, tail);
      willClearIfEmpty := false;
      var pos, count, h, t := CopyIn(items);
      ghost var buf := buffer[..];
      CopiedAtEnd(buf, fixedSize, head, tail, maxed, h, t, v, items);
      SlotStep(pos, 0, fixedSize);
      if items != [] {
        TerminateRefines(buf, fixedSize, h, t, pos, v, items);
      }
      buffer[pos + 1] := NUL;
      assert buffer[..] == buf[pos + 1 := NUL];
      if maxed {
        tail := Wrap(head, count + 1);
      }
      head := Wrap(head, count);
      maxed := head == tail - 1;
    }

    /** The copying loop of a string write: `head` and `tail` stay put, and `maxed` comes out as
        whether anything had to make room or the ring just filled up. */
    method CopyIn(items: seq<char>) returns (pos: nat, count: nat, ghost h: nat, ghost t: nat)
      requires Valid()
      requires NUL !in items && |items| < 65536
      modifies this`maxed, buffer
      ensures count == |items| && h < fixedSize && t < fixedSize
      ensures Copied(buffer[..], fixedSize, head, tail, maxed, h, t, old(Contents()), items, count)
      ensures count == 0 ==> pos == 0 && t == tail && buffer[..] == old(buffer[..])
      ensures count > 0 ==> pos < fixedSize && h == Slot(pos, 1, fixedSize)
      ensures buffer[fixedSize] == old(buffer[fixedSize])
    {
      hide View, Newest, Copied, Slot;
      pos, count, h, t := 0, 0, head, tail;
      ghost var buf, v := buffer[..], Contents();
      CopiedAtStart(buf, fixedSize, head, tail, maxed, items);
      while count < |items|
        invariant count <= |items| && h < fixedSize && t < fixedSize && buf == buffer[..]
        invariant Copied(buf, fixedSize, head, tail, maxed, h, t, v, items, count)
        invariant count == 0 ==> pos == 0 && t == tail && buf == old(buffer[..])
        invariant count > 0 ==> pos < fixedSize && h == Slot(pos, 1, fixedSize)
        invariant buf[fixedSize] == old(buffer[fixedSize])
      {
        CopiedRound(buf, fixedSize, head, tail, maxed, h, t, v, items, count);
        pos := CopyOne(items[count], count);
        buf := buf[pos := items[count]];
        count := count + 1;
        h := Slot(pos, 1, fixedSize);
        t := if h == t then Next(t, fixedSize) else t;
      }
    }

    /** The body of the copying loop: one character into its slot, and the fullness test. */
    method CopyOne(item: char, count: nat) returns (pos: nat)
      requires Shape()
      modifies this`maxed, buffer
      ensures pos == Slot(head, count, fixedSize)
      ensures buffer[..] == old(buffer[..])[pos := item]
      ensures maxed <==>
              old(maxed) || Slot(pos, 1, fixedSize) == tail - 1 || (tail == 0 && pos == fixedSize - 1)
    {
      pos := Wrap(head, count);
      buffer[pos] := item;
      var next := Wrap(pos, 1);
      if next == tail - 1 || (tail == 0 && pos == fixedSize - 1) {
        maxed := true;
      }
    }

    method Clear()
      requires Shape()
      modifies this`head, this`tail, this`maxed, buffer
      ensures Valid() && Contents() == []
      ensures buffer[..] == old(buffer[..])[0 := NUL]
    {
      head := 0;
      tail := 0;
      buffer[tail] := NUL;
      maxed := false;
    }

    method ClearIfEmpty()
      requires Valid()
      modifies this`head, this`tail, this`maxed, this`willClearIfEmpty
      ensures Valid() && Contents() == old(Contents())
      ensures old(head) == old(tail) ==> head == tail == 0
      ensures old(head) != old(tail) ==> head == old(head) && tail == old(tail)
    {
      willClearIfEmpty := true;
      if Empty() && willClearIfEmpty {
        head, tail := 0, 0;
        maxed := false;
      }
    }

    method Consume() returns (item: char)
      requires Valid()
      modifies this`tail, this`maxed
      ensures Valid()
      ensures old(Contents()) == [] ==> item == NUL && Contents() == []
      ensures old(Contents()) != [] ==> [item] + Contents() == old(Contents())
      ensures old(Text()) ==> Text()
    {
      hide First, Second, Terminated;
      if Empty() {
        return NUL;
      }
      item := buffer[tail];
      ConsumeRefines(buffer[..], fixedSize, head, tail);
      tail := Wrap(tail, 1);
      maxed := false;
    }

    /** Hands out the whole first segment in place: `count` items from slot `start`. */
    method ConsumeBlock() returns (start: nat, count: nat)
      requires Valid()
      modifies this`tail, this`maxed
      ensures Valid()
      ensures start + count <= fixedSize && count == old(Contiguous())
      ensures buffer[start..start + count] + Contents() == old(Contents())
    {
      count := (if head <= tail && !Empty() then fixedSize else head) - tail;
      start := tail;
      if head <= tail && !Empty() {
        tail := 0;
      } else {
        tail := head;
      }
      maxed := false;
    }

    method ConsumeBlockInto(block: array<char>, blockSize: nat) returns (count: nat)
      requires Valid() && block != buffer && blockSize <= block.Length && blockSize < 65536
      modifies this`tail, this`maxed, block
      ensures Shape()
      ensures count == Min(blockSize, old(Contiguous())) && count <= block.Length
      ensures block[..count] + Contents() == old(Contents())
      ensures forall k :: count <= k < block.Length ==> block[k] == old(block[k])
      ensures Valid() <==> !(blockSize == 0 && old(maxed))
    {
      hide First, Second, View, Slot;
      var from;
      from, count := TakeBlock(blockSize);
      ghost var buf := buffer[..];
      CopyOut(block, 0, from, count);
      assert buffer[..] == buf && block[..0 + count] == buf[from..from + count];
    }

    /** Takes at most `blockSize` items of the first segment off the queue, in place. */
    method TakeBlock(blockSize: nat) returns (from: nat, count: nat)
      requires Valid()
      modifies this`tail, this`maxed
      ensures Shape() && !maxed
      ensures count == Min(blockSize, old(Contiguous())) && from + count <= fixedSize
      ensures buffer[..][from..from + count] + Contents() == old(Contents())
      ensures head == tail - 1 <==> blockSize == 0 && old(maxed)
    {
      hide First, Second, View, Slot;
      var consumable := (if head <= tail && !Empty() then fixedSize else head) - tail;
      from, count := tail, Min(blockSize, consumable);
      AdvanceRefines(buffer[..], fixedSize, head, tail, count);
      EmptyView(buffer[..], fixedSize, head);
      if blockSize < consumable {
        tail := Wrap(tail, count);
      } else if head <= tail && !Empty() {
        tail := 0;
      } else {
        tail := head;
      }
      maxed := false;
    }

    /** Copies at most `lineSize` characters and a terminator to `line`, ending at a newline if it
        finds one. What it hands out and where `tail` goes is `LineOutcome`; LineReadIsExact says
        when that agrees with the queue. The field `maxed` is dropped without a check. */
    method ConsumeLine(line: array<char>, lineSize: nat) returns (length: nat)
      requires Shape() && buffer[fixedSize] == NUL
      requires line != buffer && lineSize < line.Length && lineSize < 65536
      modifies this`tail, this`maxed, line
      ensures Shape() && !maxed && length <= lineSize
      ensures line[..length] == LineOutcome(old(buffer[..]), fixedSize, head, old(tail), lineSize).0
      ensures tail == LineOutcome(old(buffer[..]), fixedSize, head, old(tail), lineSize).1
      ensures line[length] == NUL && forall k :: length < k < line.Length ==> line[k] == old(line[k])
    {
      var text := TakeLine(lineSize);
      length := |text|;
      forall k | 0 <= k < length {
        line[k] := text[k];
      }
      line[length] := NUL;
    }

    /** The decisions of a line read; the text is collected as a value and stored by the caller. */
    method TakeLine(lineSize: nat) returns (text: seq<char>)
      requires Shape() && buffer[fixedSize] == NUL && lineSize < 65536
      modifies this`tail, this`maxed
      ensures Shape() && !maxed && |text| <= lineSize
      ensures (text, tail) == LineOutcome(buffer[..], fixedSize, head, old(tail), lineSize)
    {
      hide SpillOutcome, FinishOutcome, FindNewline, Slot;
      LineOutcomeInRange(buffer[..], fixedSize, head, tail, lineSize);
      var consumable := (if head <= tail && !Empty() then fixedSize else head) - tail;
      var willConsume := Min(lineSize, consumable);
      text := [];
      if FindNewline(buffer[..], tail) == -1 {
        text := buffer[..][tail..tail + willConsume];
        if consumable == willConsume {
          text := SpillLine(lineSize, text);
          return;
        }
        consumable := head;
        willConsume := Min(lineSize - |text|, consumable);
      }
      text := FinishLine(lineSize, text, consumable, willConsume);
    }

    /** The first segment is used up without a newline: the line goes on at the front of the storage
        if the contents wrap and a newline is found there. */
    method SpillLine(lineSize: nat, text: seq<char>) returns (text': seq<char>)
      requires Shape() && buffer[fixedSize] == NUL && |text| <= lineSize
      modifies this`tail, this`maxed
      ensures Shape() && !maxed
      ensures (text', tail) == SpillOutcome(buffer[..], fixedSize, head, old(tail), lineSize, text)
    {
      text' := text;
      maxed := false;
      if head <= tail && !Empty() {
        tail := 0;
        var lineEnd := FindNewline(buffer[..], tail);
        if lineEnd != -1 {
          var extra := Min(lineSize - |text|, lineEnd - tail + 1);
          text' := text + buffer[..][..extra];
          tail := Wrap(tail, extra);
        }
      } else {
        tail := head;
      }
    }

    /** The last part of a line read: what is left of the line, and where `tail` goes. */
    method FinishLine(lineSize: nat, text: seq<char>, consumable: nat, willConsume: nat) returns (text': seq<char>)
      requires Shape() && tail + |text| < fixedSize && tail + |text| + willConsume <= fixedSize
      requires FinishOutcome(buffer[..], fixedSize, head, tail, lineSize, text, consumable, willConsume).1 < fixedSize
      modifies this`tail, this`maxed
      ensures Shape() && !maxed
      ensures (text', tail)
           == FinishOutcome(buffer[..], fixedSize, head, old(tail), lineSize, text, consumable, willConsume)
    {
      hide FindNewline, Slot;
      var tailCopy := tail + |text|;
      var lineEnd := FindNewline(buffer[..], tailCopy);
      var lineExtra := willConsume;
      if lineEnd != -1 {
        lineExtra := Min(willConsume, lineEnd - tailCopy + 1);
      }
      text' := text + buffer[..][tailCopy..tailCopy + lineExtra];
      maxed := false;
      if |text| + lineExtra <= consumable {
        tailCopy := Wrap(tailCopy, lineExtra);
      } else if head <= tailCopy && !Empty() {
        if lineEnd == -1 {
          tailCopy := |text| + willConsume;
        } else {
          tailCopy := lineSize;
        }
      } else {
        tailCopy := head;
      }
      tail := tailCopy;
    }

    /** memcpy out of the storage. */
    method CopyOut(dest: array<char>, at: nat, from: nat, len: nat)
      requires dest != buffer && at + len <= dest.Length && from + len <= buffer.Length
      modifies dest
      ensures dest[..at + len] == old(dest[..at]) + buffer[..][from..from + len]
      ensures forall k :: at + len <= k < dest.Length ==> dest[k] == old(dest[k])
    {
      ghost var buf := buffer[..];
      for k := 0 to len
        invariant dest[..at + k] == old(dest[..at]) + buf[from..from + k]
        invariant forall i :: at + k <= i < dest.Length ==> dest[i] == old(dest[i])
      {
        dest[at + k] := buffer[from + k];
        assert dest[..at + k + 1] == dest[..at + k] + [buf[from + k]];
        assert buf[from..from + k + 1] == buf[from..from + k] + [buf[from + k]];
      }
    }
  }

  /** Writing the empty string leaves the queue alone exactly when slot 1 holds no queued item. */
  lemma EmptyStringClobbers(buf: seq<char>, n: nat, head: nat, tail: nat)
    requires |buf| == n + 1 && head < n && tail < n
    requires NUL !in View(buf, n, head, tail)
    ensures View(buf[1 := NUL], n, head, tail) == View(buf, n, head, tail) <==> !Live(n, head, tail, 1)
  {
    if Live(n, head, tail, 1) {
      var i := LiveSlotIsInView(buf, n, head, tail, 1, NUL);
      assert View(buf, n, head, tail)[i] != NUL;
    } else {
      ViewIgnoresDeadSlot(buf, n, head, tail, 1, NUL);
    }
  }
}
