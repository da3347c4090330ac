/** Exactly how large a frame may be for its parse loop to end whatever the frame holds. Beyond that
    the 16-bit cursor can be made to wrap and run round the frame for ever, header included. */
module ParseEnds {
  import opened Bytes
  import opened BinaryIO
  import opened PacketFormat
  import opened TrackerState

  // ---- rounds ------------------------------------------------------------------------------------

  /** `k` rounds of a parse loop, without regard to its guard. */
  function Rounds(buf: seq<Byte>, s: Cursor, k: nat): Cursor {
    if k == 0 then s else Cached(Step(buf, Rounds(buf, s, k - 1)))
  }

  /** The guard of the loop fails. */
  predicate Stops(buf: seq<Byte>, tail: U16, s: Cursor) {
    s.base.malformed || Remainder(buf, s.pos) <= StopAt(tail, s.base.payloadLength)
  }

  ghost predicate Ends(buf: seq<Byte>, tail: U16, s: Cursor) {
    exists k: nat :: k > 0 && Stops(buf, tail, Rounds(buf, s, k))
  }

  /** The loop of the parser run on a frame ends. */
  ghost predicate FrameEnds(frame: seq<Byte>, offset: U16) {
    var ptype, version := TypeAt(frame, offset), ByteAt(frame, offset);
    var (base, pos) := ParseHeader(frame, ptype, version, Advance(Advance(offset, 1), 1));
    Ends(frame, Remainder(frame, pos), Cursor(base, EmptyBody(ptype), pos))
  }

  ghost predicate AllEnd(ptype: Byte, size: nat) {
    forall frame: seq<Byte>, offset: U16 ::
      |frame| == size && Parses(frame, offset) && TypeAt(frame, offset) == ptype ==> FrameEnds(frame, offset)
  }

  lemma {:induction false} RoundsFromNext(buf: seq<Byte>, s: Cursor, k: nat)
    ensures Rounds(buf, s, k + 1) == Rounds(buf, Cached(Step(buf, s)), k)
  {
    hide Step, Cached;
    if k > 0 {
      RoundsFromNext(buf, s, k - 1);
    }
  }

  /** On a buffer that fits, the loop is the rounds up to the first one after which its guard fails. */
  lemma {:induction false} LoopIsRounds(buf: seq<Byte>, tail: U16, s: Cursor) returns (k: nat)
    requires Fits(buf, s.body)
    ensures k > 0 && Stops(buf, tail, Rounds(buf, s, k))
    ensures forall j: nat :: 0 < j < k ==> !Stops(buf, tail, Rounds(buf, s, j))
    ensures Cached(TlvLoop(buf, tail, s)) == Rounds(buf, s, k)
    decreases Left(buf, s.pos)
  {
    hide Step, OwnLength, Stops;
    var next := Cached(Step(buf, s));
    RoundsFromNext(buf, s, 0);
    GuardIsStop(buf, tail, s);
    if Stops(buf, tail, next) {
      k := 1;
    } else {
      var rest := LoopIsRounds(buf, tail, next);
      k := rest + 1;
      RoundsFromNext(buf, s, rest);
      forall j: nat | 0 < j < k
        ensures !Stops(buf, tail, Rounds(buf, s, j))
      {
        RoundsFromNext(buf, s, j - 1);
      }
    }
  }

  lemma GuardIsStop(buf: seq<Byte>, tail: U16, s: Cursor)
    requires Fits(buf, s.body)
    ensures var next := Cached(Step(buf, s));
            if Stops(buf, tail, next) then Cached(TlvLoop(buf, tail, s)) == next
            else && Fits(buf, next.body) && TlvLoop(buf, tail, s) == TlvLoop(buf, tail, next)
                 && Left(buf, next.pos) < Left(buf, s.pos)
  {
    hide Step, OwnLength;
    StepProgress(buf, s);
  }

  // ---- frames that are read for ever ---------------------------------------------------------------

  /** Where the last field before the end starts: reading it carries the cursor past the end. */
  function LastField(ptype: Byte, n: nat): nat {
    if ptype == TYPE_ANNOUNCE then (if n == 65534 then 65278 else 65276)
    else if n == 65534 then 65529 else 65528
  }

  /** Version 1, the type, a ttl, a payload length that reaches the end of the frame, zeros, and a few
      bytes that keep the second and every later pass on the track of the first. */
  function LoopByte(ptype: Byte, n: nat, i: nat): Byte
    requires 65278 <= n < 0x1_0000
  {
    var z := LastField(ptype, n);
    if i == 0 then 1
    else if i == 1 then ptype
    else if i == 2 then 3
    else if i == 12 then (n - 22) / 256
    else if i == 13 then (n - 22) % 256
    else if i == z then (if ptype == TYPE_MESSAGE then MSG_LATITUDE else PREF_LATITUDE)
    else if i == z + 1 then (if ptype == TYPE_ANNOUNCE then 255 else 4)
    else if ptype == TYPE_ANNOUNCE then (if i == 4 then 17 else 0)
    else if n == 65534 then (if i == 3 then 18 else if i == 23 then 1 else 0)
    else if ptype == TYPE_MESSAGE then (if i == 5 then 16 else 0)
    else if i == 128 then 1 else 0
  }

  function LoopFrame(ptype: Byte, n: nat): (frame: seq<Byte>)
    requires 65278 <= n < 0x1_0000
    ensures |frame| == n && forall i :: 0 <= i < n ==> frame[i] == LoopByte(ptype, n, i)
  {
    seq(n, i requires 0 <= i < n => LoopByte(ptype, n, i))
  }

  /** The positions at which a round starts. */
  predicate OnTrack(ptype: Byte, n: nat, pos: U16) {
    if ptype == TYPE_ANNOUNCE then
      (22 <= pos <= LastField(ptype, n) && pos % 2 == 0) || (pos == 65534 && n != 65534) || pos == 0 || pos == 3
    else if n == 65534 then
      pos == 22 || (25 <= pos <= 65529 && pos % 2 == 1) || pos == 65535 || pos == 2
    else
      (22 <= pos <= 65528 && pos % 2 == 0) || pos == 65534 || pos == 0
      || pos == (if ptype == TYPE_MESSAGE then 4 else 127)
  }

  predicate LoopsFor(ptype: Byte, n: nat) {
    ptype in {TYPE_ANNOUNCE, TYPE_MESSAGE, TYPE_PREFERENCES} && MaxBuffer(EmptyBody(ptype)) < n < 0x1_0000
  }

  /** A round that skips a field of bytes. */
  lemma SkipRound(buf: seq<Byte>, s: Cursor, ty: Byte, len: Byte, next: U16)
    requires ByteAt(buf, s.pos) == ty && ByteAt(buf, Advance(s.pos, 1)) == len && FieldOf(s.body, ty) == Field.Bytes
    requires next == Advance(Advance(s.pos, 1), 1) + len <= |buf|
    ensures Step(buf, s).base == s.base && Step(buf, s).pos == next
  {
    hide ByteAt, FieldOf, SetBytes;
  }

  lemma NumberRound(buf: seq<Byte>, s: Cursor, ty: Byte)
    requires ByteAt(buf, s.pos) == ty && ByteAt(buf, Advance(s.pos, 1)) == 4 && FieldOf(s.body, ty) == Latitude
    ensures Step(buf, s).base == s.base && Step(buf, s).pos == Advance(Advance(Advance(s.pos, 1), 1), 4)
  {
    hide ByteAt, FieldOf, ReadAt;
  }

  lemma NeighboursRound(buf: seq<Byte>, s: Cursor)
    requires ByteAt(buf, s.pos) == ANN_NEIGHBOURS && ByteAt(buf, Advance(s.pos, 1)) == 255 && s.body.AnnounceBody?
    ensures Step(buf, s).base == s.base && Step(buf, s).pos == AfterIds(Advance(Advance(s.pos, 1), 1), 32)
  {
    hide ByteAt, ReadRoute, AfterIds;
  }

  lemma {:induction false} IdsWrap(pos: U16, count: nat)
    requires pos + 8 * count == 0x1_0000
    ensures AfterIds(pos, count) == 0
    decreases count
  {
    if count > 1 {
      IdsWrap(Advance(pos, 8), count - 1);
    }
  }

  lemma LoopBytes(ptype: Byte, n: nat, i: nat)
    requires 65278 <= n < 0x1_0000
    ensures ByteAt(LoopFrame(ptype, n), i) == if i < n then LoopByte(ptype, n, i) else 0
  {
    hide LoopByte;
  }

  lemma AnnounceTrack(n: nat, s: Cursor)
    requires LoopsFor(TYPE_ANNOUNCE, n) && s.body.AnnounceBody? && OnTrack(TYPE_ANNOUNCE, n, s.pos)
    ensures var r := Step(LoopFrame(TYPE_ANNOUNCE, n), s);
            r.base == s.base && OnTrack(TYPE_ANNOUNCE, n, r.pos)
  {
    hide Step, LoopFrame, ByteAt, AfterIds;
    var buf, z := LoopFrame(TYPE_ANNOUNCE, n), LastField(TYPE_ANNOUNCE, n);
    LoopBytes(TYPE_ANNOUNCE, n, s.pos);
    LoopBytes(TYPE_ANNOUNCE, n, Advance(s.pos, 1));
    if s.pos == z {
      NeighboursRound(buf, s);
      if n == 65534 { IdsWrap(z + 2, 32); }
    } else if s.pos == 65534 {
      SkipRound(buf, s, 0, 0, 0);
    } else if s.pos == 0 {
      SkipRound(buf, s, 1, 1, 3);
    } else if s.pos == 3 {
      SkipRound(buf, s, 0, 17, 22);
    } else {
      SkipRound(buf, s, 0, 0, s.pos + 2);
    }
  }

  lemma NumberTrack(ptype: Byte, n: nat, s: Cursor)
    requires LoopsFor(ptype, n) && ptype != TYPE_ANNOUNCE
    requires SameKind(s.body, EmptyBody(ptype)) && OnTrack(ptype, n, s.pos)
    ensures var r := Step(LoopFrame(ptype, n), s);
            r.base == s.base && OnTrack(ptype, n, r.pos)
  {
    hide Step, LoopFrame, ByteAt;
    var buf, z := LoopFrame(ptype, n), LastField(ptype, n);
    LoopBytes(ptype, n, s.pos);
    LoopBytes(ptype, n, Advance(s.pos, 1));
    if s.pos == z {
      NumberRound(buf, s, if ptype == TYPE_MESSAGE then MSG_LATITUDE else PREF_LATITUDE);
    } else if s.pos == 65535 {
      SkipRound(buf, s, 0, 1, 2);
    } else if s.pos == 2 {
      SkipRound(buf, s, 3, 18, 22);
    } else if s.pos == 22 && n == 65534 {
      SkipRound(buf, s, 0, 1, 25);
    } else if s.pos == 65534 {
      SkipRound(buf, s, 0, 0, 0);
    } else if s.pos == 0 {
      SkipRound(buf, s, 1, ptype, ptype + 2);
    } else if s.pos == 4 {
      SkipRound(buf, s, 0, 16, 22);
    } else if s.pos == 127 && n != 65534 {
      SkipRound(buf, s, 0, 1, 130);
    } else {
      SkipRound(buf, s, if s.pos == 128 && n != 65534 && ptype == TYPE_PREFERENCES then 1 else 0, 0, s.pos + 2);
    }
  }

  lemma {:induction false} StaysOnTrack(ptype: Byte, n: nat, s: Cursor, k: nat)
    requires LoopsFor(ptype, n) && SameKind(s.body, EmptyBody(ptype)) && OnTrack(ptype, n, s.pos)
    requires s.base.payloadLength > 0
    ensures var r := Rounds(LoopFrame(ptype, n), s, k);
            r.base == s.base && SameKind(r.body, s.body) && OnTrack(ptype, n, r.pos)
  {
    hide Step, LoopFrame, OnTrack, OwnLength;
    if k > 0 {
      StaysOnTrack(ptype, n, s, k - 1);
      var r := Rounds(LoopFrame(ptype, n), s, k - 1);
      if ptype == TYPE_ANNOUNCE { AnnounceTrack(n, r); } else { NumberTrack(ptype, n, r); }
    }
  }

  lemma LoopHeader(ptype: Byte, n: nat)
    requires LoopsFor(ptype, n)
    ensures var (base, pos) := ParseHeader(LoopFrame(ptype, n), ptype, 1, 2);
            base.payloadLength == n - 22 && !base.malformed && pos == 22
  {
    hide LoopFrame, ByteAt, ReadRoute;
    var buf := LoopFrame(ptype, n);
    LoopBytes(ptype, n, 11);
    LoopBytes(ptype, n, 12);
    LoopBytes(ptype, n, 13);
    LengthAt(buf, 12, n - 22);
    NoBits();
  }

  lemma LengthAt(buf: seq<Byte>, pos: nat, v: nat)
    requires pos + 2 <= |buf| && ByteAt(buf, pos) == v / 256 && ByteAt(buf, pos + 1) == v % 256 && v < 0x1_0000
    ensures ReadAt(buf, pos, 2) == v
  {
    Digits2(buf[pos..pos + 2]);
  }

  lemma NoBits()
    ensures !HasBit(0, FLAG_HAS_RECIPIENT) && !HasBit(0, FLAG_HAS_ROUTE)
  {
  }

  /** The frame is a well-formed start of a packet, and its parse never ends. */
  lemma LoopFrameNeverEnds(ptype: Byte, n: nat)
    requires LoopsFor(ptype, n)
    ensures var frame := LoopFrame(ptype, n);
            |frame| == n && Parses(frame, 0) && TypeAt(frame, 0) == ptype && !FrameEnds(frame, 0)
  {
    hide Step, Rounds, LoopFrame, OnTrack, ParseHeader, ByteAt;
    var frame := LoopFrame(ptype, n);
    LoopBytes(ptype, n, 0);
    LoopBytes(ptype, n, 1);
    LoopHeader(ptype, n);
    var s := Cursor(ParseHeader(frame, ptype, 1, 2).0, EmptyBody(ptype), 22);
    StartsOnTrack(ptype, n);
    forall k: nat
      ensures !Stops(frame, n - 22, Rounds(frame, s, k))
    {
      StaysOnTrack(ptype, n, s, k);
      TrackAvoidsEnd(ptype, n, Rounds(frame, s, k).pos);
    }
  }

  lemma StartsOnTrack(ptype: Byte, n: nat)
    requires LoopsFor(ptype, n)
    ensures OnTrack(ptype, n, 22)
  {
  }

  lemma TrackAvoidsEnd(ptype: Byte, n: nat, pos: U16)
    requires LoopsFor(ptype, n) && OnTrack(ptype, n, pos)
    ensures pos != n
  {
  }

  /** Every frame of a type and size is parsed to an end exactly up to the largest size that keeps the
      cursor from wrapping: 65277 bytes for announces, 65529 for messages and preferences. */
  lemma EndsExactly(ptype: Byte, size: nat)
    requires ptype in {TYPE_ANNOUNCE, TYPE_MESSAGE, TYPE_PREFERENCES} && size < 0x1_0000
    ensures AllEnd(ptype, size) <==> size <= MaxBuffer(EmptyBody(ptype))
  {
    hide FrameEnds, LoopFrame, ByteAt;
    if size <= MaxBuffer(EmptyBody(ptype)) {
      forall frame: seq<Byte>, offset: U16 | |frame| == size && Parses(frame, offset) && TypeAt(frame, offset) == ptype
        ensures FrameEnds(frame, offset)
      {
        FittingFrameEnds(frame, offset);
      }
    } else {
      LoopFrameNeverEnds(ptype, size);
    }
  }

  lemma FittingFrameEnds(frame: seq<Byte>, offset: U16)
    requires Fits(frame, EmptyBody(TypeAt(frame, offset)))
    ensures FrameEnds(frame, offset)
  {
    hide ParseHeader, Ends, Stops, Rounds, ByteAt, TlvLoop;
    var ptype, version := TypeAt(frame, offset), ByteAt(frame, offset);
    var (base, pos) := ParseHeader(frame, ptype, version, Advance(Advance(offset, 1), 1));
    var k := LoopIsRounds(frame, Remainder(frame, pos), Cursor(base, EmptyBody(ptype), pos));
    StopEnds(frame, Remainder(frame, pos), Cursor(base, EmptyBody(ptype), pos), k);
  }

  lemma StopEnds(buf: seq<Byte>, tail: U16, s: Cursor, k: nat)
    requires k > 0 && Stops(buf, tail, Rounds(buf, s, k))
    ensures Ends(buf, tail, s)
  {
  }
}
