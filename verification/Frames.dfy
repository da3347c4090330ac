/** Whole frames: exactly which packets survive being written, sent with anything behind them, and
    parsed again; what a parse loop consumes; and what relaying does to the bytes. */
module Frames {
  import opened Bytes
  import opened BinaryIO
  import opened PacketFormat
  import opened RoundTrip

  /** The type byte says what the body is. */
  predicate Typed(p: Packet) {
    p.base.ptype == match p.body
                    case MessageBody(_, _, _, _, _, _, _, _, _) => TYPE_MESSAGE
                    case AnnounceBody(_, _, _, _, _, _, _) => TYPE_ANNOUNCE
                    case PreferencesBody(_, _, _, _, _, _) => TYPE_PREFERENCES
  }

  /** The stored payload length, if any, is that of the body. */
  predicate Fresh(p: Packet) {
    p.base.payloadLength == 0 || p.base.payloadLength == OwnLength(p.body)
  }

  predicate Signed(p: Packet) {
    HasBit(p.base.flags, FLAG_HAS_SIGNATURE)
  }

  /** A received frame: the version and type bytes have been read. */
  function ParseFrame(buf: seq<Byte>, ptype: Byte): Cursor
    requires Fits(buf, EmptyBody(ptype))
  {
    ParsePacket(buf, ptype, 1, 2)
  }

  /** What a packet comes back as: clipped, with the computed length, unsent fields at their defaults. */
  function Restored(p: Packet): Packet {
    Packet(ParsedHeader(p.base, OwnLength(p.body)), Canonical(p.body))
  }

  function PayloadEnd(p: Packet): (r: U16)
    ensures r <= 2343
  {
    HeaderPieces(p.base, OwnLength(p.body));
    |EncodeHeader(p.base, OwnLength(p.body))| + OwnLength(p.body)
  }

  lemma FrameParts(p: Packet, junk: seq<Byte>)
    requires Fresh(p)
    ensures var h, e := EncodeHeader(p.base, OwnLength(p.body)), EncodeAll(Tlvs(p.body));
            var buf := WritePacket(p) + junk;
            && |buf| == |h| + |e| + |EncodeTrailer(p.base)| + |junk|
            && buf[..|h|] == h && buf[|h|..|h| + |e|] == e
            && buf[|h| + |e|..] == EncodeTrailer(p.base) + junk
  {
    hide EncodeHeader, EncodeAll, EncodeTrailer, Tlvs;
    var h, e, t := EncodeHeader(p.base, OwnLength(p.body)), EncodeAll(Tlvs(p.body)), EncodeTrailer(p.base);
    assert WritePacket(p) + junk == h + (e + (t + junk));
    assert h + (e + (t + junk)) == h + e + (t + junk);
    Piece(h, e, t + junk);
  }

  /** The header and the payload of a written packet are taken exactly, whatever follows. */
  lemma PayloadRoundTrip(p: Packet, junk: seq<Byte>)
    requires Typed(p) && Fresh(p) && Framed(p.body) && OwnLength(p.body) > 0
    requires Fits(WritePacket(p) + junk, p.body)
    ensures ParseFrame(WritePacket(p) + junk, p.base.ptype) ==
            TakeSignature(WritePacket(p) + junk, Cursor(Restored(p).base, Restored(p).body, PayloadEnd(p)))
  {
    hide EncodeHeader, EncodeAll, EncodeTrailer, Tlvs, ParseHeader, TlvLoop, TakeSignature, Canonical,
         OwnLength, ApplyAll, AllWellTyped, WritePacket;
    var buf := WritePacket(p) + junk;
    var h, ts := EncodeHeader(p.base, OwnLength(p.body)), Tlvs(p.body);
    FrameParts(p, junk);
    Framing(p.body);
    HeaderRoundTrip(buf, p.base, OwnLength(p.body));
    FieldsRoundTrip(p.body);
    assert ts != [] by { NothingEncoded(); }
    LoopOverTlvs(buf, Remainder(buf, |h|), Cursor(Restored(p).base, EmptyLike(p.body), |h|), ts);
  }

  lemma NothingEncoded()
    ensures EncodeAll([]) == []
  {
  }

  /** Unsigned packets: for every trailing junk, parsing gives back the packet and stops at the end
      of its payload. */
  ghost predicate RoundTripsAlways(p: Packet)
    requires Typed(p)
  {
    forall junk: seq<Byte> :: Fits(WritePacket(p) + junk, p.body) ==>
      ParseFrame(WritePacket(p) + junk, p.base.ptype) == Cursor(Restored(p).base, Restored(p).body, PayloadEnd(p))
  }

  lemma UnsignedRoundTrip(p: Packet, junk: seq<Byte>)
    requires Typed(p) && Fresh(p) && !Signed(p) && Framed(p.body) && OwnLength(p.body) > 0
    requires Fits(WritePacket(p) + junk, p.body)
    ensures ParseFrame(WritePacket(p) + junk, p.base.ptype) == Cursor(Restored(p).base, Restored(p).body, PayloadEnd(p))
  {
    hide ParsePacket, WritePacket, Canonical, OwnLength, HasBit;
    PayloadRoundTrip(p, junk);
  }

  // ---- when it does not ------------------------------------------------------------------------

  /** A frame with an empty payload: the padding byte is taken for a field and runs off the end. */
  lemma EmptyPayloadIsMalformed(p: Packet)
    requires Typed(p) && Fresh(p) && !Signed(p) && OwnLength(p.body) == 0
    ensures Fits(WritePacket(p) + [], p.body)
    ensures ParseFrame(WritePacket(p) + [], p.base.ptype).base.malformed
  {
    hide EncodeHeader, EncodeAll, Tlvs, ParseHeader, OwnLength, WritePacket;
    var buf := WritePacket(p) + [];
    var h := EncodeHeader(p.base, 0);
    FrameParts(p, []);
    Framing(p.body);
    HeaderPieces(p.base, 0);
    HeaderRoundTrip(buf, p.base, 0);
    assert buf[|h|..][0] == 0;
    assert Step(buf, Cursor(ParsedHeader(p.base, 0), EmptyLike(p.body), |h|)).base.malformed;
  }

  /** A field under another type leaves the channel and the neighbours alone. */
  lemma StepKeeps(buf: seq<Byte>, s: Cursor)
    ensures SameKind(Step(buf, s).body, s.body)
    ensures s.body.MessageBody? && ByteAt(buf, s.pos) != MSG_CHANNEL ==> Step(buf, s).body.channel == s.body.channel
    ensures s.body.AnnounceBody? && ByteAt(buf, s.pos) != ANN_NEIGHBOURS ==>
              Step(buf, s).body.neighbours == s.body.neighbours
  {
    hide ByteAt, ReadAt, Advance;
  }

  /** What is counted but not written starts no frame. */
  lemma FirstType(body: Body)
    requires !Framed(body) && Tlvs(body) != []
    ensures body.MessageBody? ==> Tlvs(body)[0].ty != MSG_CHANNEL
    ensures body.AnnounceBody? ==> Tlvs(body)[0].ty != ANN_NEIGHBOURS
  {
    assert forall ty, s :: forall t :: t in TextTlv(ty, s) ==> t.ty == ty;
    assert forall ty, v: nat :: forall t :: t in NumberTlv(ty, v, 1) ==> t.ty == ty;
    assert forall ty, v: nat :: forall t :: t in NumberTlv(ty, v, 4) ==> t.ty == ty;
    hide TextTlv, NumberTlv;
    assert Tlvs(body)[0] in Tlvs(body);
  }

  /** A payload declared longer than what follows the header is parsed for exactly one field: the
      loop guard is unsigned, and its bound wraps. (A version 2 length within 64 KiB of its maximum
      wraps back to a bound a 16-bit remainder can exceed.) */
  lemma OverlongIsOneField(buf: seq<Byte>, tail: U16, s: Cursor)
    requires Fits(buf, s.body) && tail < s.base.payloadLength <= 0xFFFF_0000
    ensures TlvLoop(buf, tail, s) == if Step(buf, s).base.malformed then Step(buf, s) else Cached(Step(buf, s))
  {
    hide Step, OwnLength;
    StepProgress(buf, s);
    StepKeepsLength(buf, s);
  }

  lemma StepKeepsLength(buf: seq<Byte>, s: Cursor)
    ensures Step(buf, s).base == s.base || Step(buf, s).base == s.base.(malformed := true)
  {
    hide ByteAt, ReadAt, Advance;
  }

  /** A channel without content, or more than 31 neighbours: the parser stops after one field and
      the channel or the neighbours do not come back. */
  lemma UnframedIsLost(p: Packet)
    requires Typed(p) && Fresh(p) && !Signed(p) && !Framed(p.body)
    ensures Fits(WritePacket(p) + [], p.body)
    ensures ParseFrame(WritePacket(p) + [], p.base.ptype).body != Canonical(p.body)
  {
    hide EncodeHeader, EncodeAll, Tlvs, ParseHeader, OwnLength, WritePacket, TlvLoop, Step, ByteAt;
    var buf := WritePacket(p) + [];
    var h := EncodeHeader(p.base, OwnLength(p.body));
    FrameParts(p, []);
    Framing(p.body);
    HeaderPieces(p.base, OwnLength(p.body));
    HeaderRoundTrip(buf, p.base, OwnLength(p.body));
    var s := Cursor(ParsedHeader(p.base, OwnLength(p.body)), EmptyLike(p.body), |h|);
    OverlongIsOneField(buf, Remainder(buf, |h|), s);
    FirstByteOfPayload(p, buf, |h|);
    StepKeeps(buf, s);
  }

  lemma FirstByteOfPayload(p: Packet, buf: seq<Byte>, pos: nat)
    requires !Framed(p.body) && !Signed(p)
    requires pos + |EncodeAll(Tlvs(p.body))| <= |buf|
    requires buf[pos..pos + |EncodeAll(Tlvs(p.body))|] == EncodeAll(Tlvs(p.body))
    requires buf[pos + |EncodeAll(Tlvs(p.body))|..] == EncodeTrailer(p.base) + []
    ensures p.body.MessageBody? ==> ByteAt(buf, pos) != MSG_CHANNEL
    ensures p.body.AnnounceBody? ==> ByteAt(buf, pos) != ANN_NEIGHBOURS
  {
    hide Tlvs, HasBit;
    var ts := Tlvs(p.body);
    if ts == [] {
      assert buf[pos..][0] == 0;
    } else {
      FirstType(p.body);
      assert buf[pos..pos + |EncodeAll(ts)|][0] == ts[0].ty;
    }
  }

  /** The round trip for packets without a signature: it holds for every trailing junk exactly when
      the payload is not empty and everything its length counts is written. */
  lemma RoundTripExactly(p: Packet)
    requires Typed(p) && Fresh(p) && !Signed(p)
    ensures RoundTripsAlways(p) <==> Framed(p.body) && OwnLength(p.body) > 0
  {
    hide ParsePacket, WritePacket, Canonical, OwnLength, HasBit, Framed, PayloadEnd;
    if Framed(p.body) && OwnLength(p.body) > 0 {
      forall junk: seq<Byte> | Fits(WritePacket(p) + junk, p.body)
        ensures ParseFrame(WritePacket(p) + junk, p.base.ptype)
                == Cursor(Restored(p).base, Restored(p).body, PayloadEnd(p))
      {
        UnsignedRoundTrip(p, junk);
      }
    } else if !Framed(p.body) {
      UnframedIsLost(p);
    } else {
      EmptyPayloadIsMalformed(p);
    }
  }

  // ---- signatures ----------------------------------------------------------------------------------

  /** The writer puts a length byte in front of the signature and the parser does not expect one, so
      what is read back is shifted by a byte. */
  ghost predicate SignatureSurvives(p: Packet)
    requires Typed(p)
  {
    forall junk: seq<Byte> :: Fits(WritePacket(p) + junk, p.body) ==>
      var r := ParseFrame(WritePacket(p) + junk, p.base.ptype);
      !r.base.malformed && r.base.signature == p.base.signature
  }

  function Repeat(b: Byte, k: nat): (s: seq<Byte>)
    ensures |s| == k && forall i :: 0 <= i < k ==> s[i] == b
  {
    seq(k, _ => b)
  }

  lemma {:induction false} ShiftFixesRepeats(s: seq<Byte>, b: Byte, i: nat)
    requires i < |s| && s == ([b] + s)[..|s|]
    ensures s[i] == b
  {
    if i > 0 {
      ShiftFixesRepeats(s, b, i - 1);
      assert s[i] == ([b] + s)[..|s|][i];
    }
  }

  lemma SignatureRead(p: Packet, junk: seq<Byte>)
    requires Typed(p) && Fresh(p) && Signed(p) && Framed(p.body) && OwnLength(p.body) > 0
    requires Fits(WritePacket(p) + junk, p.body)
    ensures var t := [|p.base.signature| % 256] + p.base.signature + [0] + junk;
            var r := ParseFrame(WritePacket(p) + junk, p.base.ptype);
            if |t| < SIGNATURE_LENGTH then r.base.malformed
            else !r.base.malformed && r.base.signature == t[..SIGNATURE_LENGTH]
  {
    hide EncodeHeader, EncodeAll, Tlvs, ParsePacket, WritePacket, Canonical, OwnLength, HasBit, Framed;
    PayloadRoundTrip(p, junk);
    FrameParts(p, junk);
    Framing(p.body);
    var buf, end := WritePacket(p) + junk, PayloadEnd(p);
    var t := [|p.base.signature| % 256] + p.base.signature + [0] + junk;
    assert EncodeTrailer(p.base) + junk == t;
    assert buf[end..] == t;
    assert |t| >= SIGNATURE_LENGTH ==> buf[end..end + SIGNATURE_LENGTH] == t[..SIGNATURE_LENGTH];
  }

  /** A signature survives only if being shifted by its own length byte does not change it. */
  lemma SignatureExactly(p: Packet)
    requires Typed(p) && Fresh(p) && Signed(p) && Framed(p.body) && OwnLength(p.body) > 0
    requires |p.base.signature| <= SIGNATURE_LENGTH
    ensures SignatureSurvives(p) <==> p.base.signature == Repeat(64, SIGNATURE_LENGTH)
  {
    hide ParsePacket, WritePacket, Canonical, OwnLength, HasBit, Framed;
    var sig := p.base.signature;
    SmallFrame(p);
    SignatureRead(p, []);
    var t := [|sig| % 256] + sig + [0] + [];
    if SignatureSurvives(p) {
      assert |sig| == SIGNATURE_LENGTH;
      assert t[..SIGNATURE_LENGTH] == ([64] + sig)[..SIGNATURE_LENGTH];
      forall i | 0 <= i < SIGNATURE_LENGTH
        ensures sig[i] == 64
      {
        ShiftFixesRepeats(sig, 64, i);
      }
    }
    if sig == Repeat(64, SIGNATURE_LENGTH) {
      forall junk: seq<Byte> | Fits(WritePacket(p) + junk, p.body)
        ensures var r := ParseFrame(WritePacket(p) + junk, p.base.ptype);
                !r.base.malformed && r.base.signature == sig
      {
        SignatureRead(p, junk);
        assert ([64] + sig + [0] + junk)[..SIGNATURE_LENGTH] == sig;
      }
    }
  }

  lemma SmallFrame(p: Packet)
    requires Fresh(p) && |p.base.signature| <= SIGNATURE_LENGTH
    ensures Fits(WritePacket(p) + [], p.body)
  {
    hide EncodeHeader, EncodeAll, Tlvs, WritePacket, OwnLength, HasBit;
    FrameParts(p, []);
    Framing(p.body);
    HeaderPieces(p.base, OwnLength(p.body));
  }

  // ---- what a parse loop consumes --------------------------------------------------------------------

  /** A loop that ends without complaint, on a payload no longer than what follows the header, has
      read at least that payload and is still inside the buffer. */
  lemma {:induction false} LoopConsumes(buf: seq<Byte>, start: nat, s: Cursor)
    requires Fits(buf, s.body) && start <= |buf| && start <= s.pos <= 0xFFFD && !s.base.malformed
    ensures var tail := |buf| - start;
            var r := TlvLoop(buf, tail, s);
            !r.base.malformed && r.base.payloadLength <= tail ==>
              r.pos <= |buf| && r.pos - start >= r.base.payloadLength
    decreases Left(buf, s.pos)
  {
    hide Step, OwnLength;
    var tail: U16 := |buf| - start;
    StepProgress(buf, s);
    var next := Step(buf, s);
    if !next.base.malformed {
      var cached := Cached(next);
      if Remainder(buf, cached.pos) > StopAt(tail, cached.base.payloadLength) {
        LoopConsumes(buf, start, cached);
      }
    }
  }

  /** The same for a whole packet of either version, read from anywhere in a buffer that holds its
      header. */
  lemma ParseConsumes(buf: seq<Byte>, ptype: Byte, version: Byte, pos: U16)
    requires Fits(buf, EmptyBody(ptype)) && ParseHeader(buf, ptype, version, pos).1 <= |buf|
    ensures var (base, start) := ParseHeader(buf, ptype, version, pos);
            var r := TlvLoop(buf, |buf| - start, Cursor(base, EmptyBody(ptype), start));
            && (!r.base.malformed && r.base.payloadLength <= |buf| - start ==>
                  r.pos <= |buf| && r.pos - start >= r.base.payloadLength)
            && (!Signed(Packet(base, r.body)) ==> ParsePacket(buf, ptype, version, pos) == r)
  {
    hide ParseHeader, TlvLoop;
    var (base, start) := ParseHeader(buf, ptype, version, pos);
    LoopConsumes(buf, start, Cursor(base, EmptyBody(ptype), start));
    LoopKeepsFlags(buf, |buf| - start, Cursor(base, EmptyBody(ptype), start));
  }

  lemma {:induction false} LoopKeepsFlags(buf: seq<Byte>, tail: U16, s: Cursor)
    requires Fits(buf, s.body)
    ensures TlvLoop(buf, tail, s).base.flags == s.base.flags
    decreases Left(buf, s.pos)
  {
    hide Step, OwnLength;
    StepProgress(buf, s);
    StepKeepsLength(buf, s);
    var next := Step(buf, s);
    if !next.base.malformed && Remainder(buf, next.pos) > StopAt(tail, Cached(next).base.payloadLength) {
      LoopKeepsFlags(buf, tail, Cached(next));
    }
  }

  // ---- preferences -----------------------------------------------------------------------------------

  /** operator== on preferences compares the bodies. */
  predicate SamePreferences(a: Body, b: Body)
    requires a.PreferencesBody? && b.PreferencesBody?
  {
    && a.key == b.key && a.ssid == b.ssid && a.password == b.password
    && a.latitude == b.latitude && a.longitude == b.longitude && a.altitude == b.altitude
  }

  /** Preferences written to flash and read back with the rest of the sector behind them compare
      equal exactly when no string is longer than 255 bytes; and they are accepted unless there is
      nothing to write and what follows cannot pass for one field. */
  lemma PreferencesRoundTrip(p: Packet, junk: seq<Byte>)
    requires p.body.PreferencesBody? && Typed(p) && Fresh(p) && !Signed(p)
    requires Fits(WritePacket(p) + junk, EmptyBody(TYPE_PREFERENCES))
    ensures var r := ParseFrame(WritePacket(p) + junk, TYPE_PREFERENCES);
            && r.body == Canonical(p.body)
            && (SamePreferences(r.body, p.body) <==>
                  |p.body.key| <= 255 && |p.body.ssid| <= 255 && |p.body.password| <= 255)
            && (!r.base.malformed <==> OwnLength(p.body) > 0 || (junk != [] && junk[0] < |junk|))
  {
    hide ParsePacket, WritePacket, OwnLength, HasBit, PayloadEnd;
    if OwnLength(p.body) > 0 {
      UnsignedRoundTrip(p, junk);
    } else {
      EmptyPreferences(p, junk);
    }
    ClipIsIdentity(p.body.key);
    ClipIsIdentity(p.body.ssid);
    ClipIsIdentity(p.body.password);
  }

  lemma ClipIsIdentity(s: seq<Byte>)
    ensures Clip(s) == s <==> |s| <= 255
  {
  }

  lemma EmptyPreferences(p: Packet, junk: seq<Byte>)
    requires p.body.PreferencesBody? && Typed(p) && Fresh(p) && !Signed(p) && OwnLength(p.body) == 0
    requires Fits(WritePacket(p) + junk, EmptyBody(TYPE_PREFERENCES))
    ensures p.body == EMPTY_PREFERENCES
    ensures var r := ParseFrame(WritePacket(p) + junk, TYPE_PREFERENCES);
            && r.body == EMPTY_PREFERENCES
            && (!r.base.malformed <==> junk != [] && junk[0] < |junk|)
  {
    hide EncodeHeader, EncodeAll, Tlvs, ParseHeader, WritePacket, TlvLoop, Step, OwnLength, HasBit, Remainder;
    NothingSet(p.body);
    var buf := WritePacket(p) + junk;
    var h := EncodeHeader(p.base, 0);
    FrameParts(p, junk);
    Framing(p.body);
    HeaderPieces(p.base, 0);
    HeaderRoundTrip(buf, p.base, 0);
    RemainderInside(buf, |h|);
    assert EncodeTrailer(p.base) == [0];
    var t := [0] + junk;
    assert buf[|h|..] == t;
    assert buf[|h|] == t[0] && (junk != [] ==> buf[|h| + 1] == t[1]);
    OneUnknownField(buf, Cursor(ParsedHeader(p.base, 0), EMPTY_PREFERENCES, |h|));
  }

  lemma RemainderInside(buf: seq<Byte>, pos: nat)
    requires pos <= |buf| < 0x1_0000
    ensures Remainder(buf, pos) == |buf| - pos
  {
  }

  lemma NothingSet(body: Body)
    requires body.PreferencesBody? && OwnLength(body) == 0
    ensures body == EMPTY_PREFERENCES
  {
  }

  /** With no length declared and no field set, one unknown field ends the loop. */
  lemma OneUnknownField(buf: seq<Byte>, s: Cursor)
    requires s.pos < |buf| && Fits(buf, s.body) && buf[s.pos] == 0
    requires s.body == EMPTY_PREFERENCES && s.base.payloadLength == 0 && !s.base.malformed
    ensures var r := TlvLoop(buf, |buf| - s.pos, s);
            && r.body == EMPTY_PREFERENCES && r.base.flags == s.base.flags
            && (!r.base.malformed <==> s.pos + 1 < |buf| && s.pos + 2 + buf[s.pos + 1] <= |buf|)
  {
    hide Step, OwnLength, Remainder, StopAt;
    UnknownField(buf, s);
    EmptyLength();
    var next := Step(buf, s);
    if !next.base.malformed {
      assert Remainder(buf, next.pos) < |buf| - s.pos;
      assert StopAt(|buf| - s.pos, 0) == |buf| - s.pos;
    }
  }

  lemma EmptyLength()
    ensures OwnLength(EMPTY_PREFERENCES) == 0
  {
  }

  lemma UnknownField(buf: seq<Byte>, s: Cursor)
    requires s.pos < |buf| && Fits(buf, s.body) && buf[s.pos] == 0 && s.body == EMPTY_PREFERENCES
    ensures var r := Step(buf, s);
            if s.pos + 1 < |buf| && s.pos + 2 + buf[s.pos + 1] <= |buf| then
              r == s.(pos := s.pos + 2 + buf[s.pos + 1])
            else
              r.body == s.body && r.base == s.base.(malformed := true)
  {
    hide ReadAt, ReadRoute, AfterIds;
  }

  // ---- relaying --------------------------------------------------------------------------------------

  /** What a node stores of a received packet and sends on. */
  function Relayed(r: Packet, handle: U16): Packet
    requires r.base.ttl > 0
  {
    r.(base := r.base.(ttl := r.base.ttl - 1, sendingHandle := handle))
  }

  predicate HasLocation(body: Body) {
    body.latitude != 0 || body.longitude != 0 || body.altitude != 0
  }

  /** The clipped body is written as the same fields, except for the location of an announce. */
  lemma CanonicalTlvs(body: Body)
    ensures Tlvs(Canonical(body)) == Tlvs(body) <==> !(body.AnnounceBody? && HasLocation(body))
    ensures body.AnnounceBody? && HasLocation(body) ==> |Tlvs(Canonical(body))| < |Tlvs(body)|
  {
    ClipTwice();
  }

  lemma ClipTwice()
    ensures forall s: seq<Byte> :: Clip(Clip(s)) == Clip(s) && (Clip(s) == [] <==> s == [])
  {
  }

  /** The frame a relay sends for a frame it received. */
  function Relay(frame: seq<Byte>, ptype: Byte, handle: U16): seq<Byte>
    requires Fits(frame, EmptyBody(ptype))
    requires ParseFrame(frame, ptype).base.ttl > 0
  {
    var r := ParseFrame(frame, ptype);
    WritePacket(Relayed(Packet(r.base, r.body), handle))
  }

  /** Relaying changes the ttl byte and nothing else, for every packet that round-trips, except an
      announce that carries a location: its frame comes out shorter than its declared length. */
  lemma RelayExactly(p: Packet, junk: seq<Byte>, handle: U16)
    requires Typed(p) && Fresh(p) && !Signed(p) && Framed(p.body) && OwnLength(p.body) > 0 && p.base.ttl > 0
    requires Fits(WritePacket(p) + junk, p.body)
    ensures ParseFrame(WritePacket(p) + junk, p.base.ptype).base.ttl == p.base.ttl && |WritePacket(p)| > 2
    ensures Relay(WritePacket(p) + junk, p.base.ptype, handle) == WritePacket(p)[2 := p.base.ttl - 1]
            <==> !(p.body.AnnounceBody? && HasLocation(p.body))
  {
    hide ParsePacket, Canonical, Tlvs, OwnLength, HasBit, Framed, EncodeHeader, EncodeAll, EncodeTrailer;
    UnsignedRoundTrip(p, junk);
    CanonicalTlvs(p.body);
    RelayedHeader(p.base, OwnLength(p.body), handle);
    if p.body.AnnounceBody? && HasLocation(p.body) {
      ShorterAnnounce(p.body);
      HeaderPieces(p.base, OwnLength(p.body));
    }
  }

  lemma RelayedHeader(base: Header, payload: U16, handle: U16)
    requires base.ttl > 0
    ensures |EncodeHeader(base, payload)| > 2
    ensures EncodeHeader(ParsedHeader(base, payload).(ttl := base.ttl - 1, sendingHandle := handle), payload)
         == EncodeHeader(base, payload)[2 := base.ttl - 1]
    ensures !HasBit(base.flags, FLAG_HAS_SIGNATURE) ==>
              EncodeTrailer(ParsedHeader(base, payload).(ttl := base.ttl - 1, sendingHandle := handle))
                  == EncodeTrailer(base)
  {
  }

  /** The location fields are the last ones an announce is written with. */
  lemma ShorterAnnounce(body: Body)
    requires body.AnnounceBody? && HasLocation(body)
    ensures |EncodeAll(Tlvs(Canonical(body)))| < |EncodeAll(Tlvs(body))|
  {
    hide EncodeAll, TextTlv, NeighbourTlvs;
    ClipTwice();
    var c := Canonical(body);
    var init := TextTlv(ANN_NICKNAME, body.name) + TextTlv(ANN_NOISE_KEY, body.noiseKey)
              + TextTlv(ANN_SIGNING_KEY, body.signingKey) + NeighbourTlvs(body.neighbours);
    SameTexts(body.name, ANN_NICKNAME);
    SameTexts(body.noiseKey, ANN_NOISE_KEY);
    SameTexts(body.signingKey, ANN_SIGNING_KEY);
    LocationLengthIs(MSG_LATITUDE, MSG_LONGITUDE, MSG_ALTITUDE, body);
    EncodedLength(init, LocationTlvs(MSG_LATITUDE, MSG_LONGITUDE, MSG_ALTITUDE, body));
    assert Tlvs(c) == init + [];
    EncodedLength(init, []);
    NothingEncoded();
  }

  lemma SameTexts(s: seq<Byte>, ty: Byte)
    ensures TextTlv(ty, Clip(s)) == TextTlv(ty, s)
  {
  }

  /** What leaves a node for a frame that reaches it. */
  datatype Outgoing = Nothing | Send(frame: seq<Byte>)

  function Hop(frame: seq<Byte>, ptype: Byte, handle: U16): Outgoing
    requires Fits(frame, EmptyBody(ptype))
  {
    var r := ParseFrame(frame, ptype);
    if !r.base.malformed && r.base.ttl > 1 then Send(Relay(frame, ptype, handle)) else Nothing
  }

  /** The frame after passing through nodes that receive it on the given handles. */
  function Hops(frame: seq<Byte>, ptype: Byte, handles: seq<U16>): Outgoing {
    if handles == [] then Send(frame) else
    match Hops(frame, ptype, handles[..|handles| - 1])
    case Nothing => Nothing
    case Send(last) => if Fits(last, EmptyBody(ptype)) then Hop(last, ptype, handles[|handles| - 1]) else Nothing
  }

  function WithTtl(p: Packet, ttl: Byte): Packet {
    p.(base := p.base.(ttl := ttl))
  }

  lemma WrittenWithTtl(p: Packet, ttl: Byte)
    ensures |WritePacket(p)| > 2 && WritePacket(WithTtl(p, ttl)) == WritePacket(p)[2 := ttl]
  {
    hide HasBit, EncodeAll, Tlvs, OwnLength;
    var h := EncodeHeader(p.base, PayloadLength(p.base, p.body));
    assert EncodeHeader(p.base.(ttl := ttl), PayloadLength(p.base, p.body)) == h[2 := ttl];
  }

  /** A message of ttl t is passed on by t - 1 nodes, byte for byte but for the ttl counting down, and
      by no more. */
  lemma {:induction false} HopsExactly(p: Packet, handles: seq<U16>)
    requires Typed(p) && Fresh(p) && !Signed(p) && Framed(p.body) && OwnLength(p.body) > 0
    requires !(p.body.AnnounceBody? && HasLocation(p.body)) && p.base.ttl > 0
    ensures |WritePacket(p)| > 2
    ensures Hops(WritePacket(p), p.base.ptype, handles) ==
            if |handles| < p.base.ttl then Send(WritePacket(p)[2 := p.base.ttl - |handles|]) else Nothing
    decreases |handles|
  {
    hide ParsePacket, WritePacket, Canonical, Tlvs, OwnLength, HasBit, Framed;
    WrittenWithTtl(p, p.base.ttl);
    var n := |handles|;
    if n > 0 {
      HopsExactly(p, handles[..n - 1]);
      if n - 1 < p.base.ttl {
        var q := WithTtl(p, p.base.ttl - (n - 1));
        WrittenWithTtl(p, q.base.ttl);
        SmallUnsignedFrame(q);
        assert WritePacket(q) + [] == WritePacket(q);
        UnsignedRoundTrip(q, []);
        RelayExactly(q, [], handles[n - 1]);
        WrittenWithTtl(p, q.base.ttl - 1);
      }
    }
  }

  lemma SmallUnsignedFrame(p: Packet)
    requires Fresh(p) && !Signed(p)
    ensures |WritePacket(p)| <= 2400 && Fits(WritePacket(p) + [], p.body)
  {
    hide EncodeHeader, EncodeAll, Tlvs, WritePacket, OwnLength, HasBit;
    FrameParts(p, []);
    Framing(p.body);
    HeaderPieces(p.base, OwnLength(p.body));
    assert WritePacket(p) + [] == WritePacket(p);
  }
}
