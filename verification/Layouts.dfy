/** The format on the air, in numbers: where each field of a frame of either version lies, and that the
    parser takes it from there. Version 2 is read but never written by this code. */
module Layouts {
  import opened Bytes
  import opened BinaryIO
  import opened PacketFormat
  import opened RoundTrip

  // ---- pieces of a buffer ------------------------------------------------------------------------

  /** The bytes `s` lie at `pos`. */
  predicate Holds(buf: seq<Byte>, pos: nat, s: seq<Byte>) {
    pos + |s| <= |buf| && buf[pos..pos + |s|] == s
  }

  lemma HoldsBoth(buf: seq<Byte>, pos: nat, a: seq<Byte>, b: seq<Byte>)
    ensures Holds(buf, pos, a + b) <==> Holds(buf, pos, a) && Holds(buf, pos + |a|, b)
  {
    if Holds(buf, pos, a + b) {
      assert buf[pos..pos + |a|] == (a + b)[..|a|] == a;
      assert buf[pos + |a|..pos + |a| + |b|] == (a + b)[|a|..] == b;
    }
    if Holds(buf, pos, a) && Holds(buf, pos + |a|, b) {
      assert buf[pos..pos + |a + b|] == buf[pos..pos + |a|] + buf[pos + |a|..pos + |a| + |b|];
    }
  }

  lemma HoldsByte(buf: seq<Byte>, pos: nat, b: Byte)
    requires Holds(buf, pos, [b]) && |buf| < 0x1_0000
    ensures ByteAt(buf, pos) == b && Advance(pos, 1) == pos + 1
  {
    assert buf[pos..pos + 1][0] == b;
  }

  lemma HoldsNumber(buf: seq<Byte>, pos: nat, v: nat, k: nat)
    requires Holds(buf, pos, BigEndian(v, k)) && v < Pow256(k) && |buf| < 0x1_0000
    ensures ReadAt(buf, pos, k) == v && Advance(pos, k) == pos + k
  {
    ReadAtSlice(buf, pos, k, v);
  }

  lemma HoldsIds(buf: seq<Byte>, pos: nat, ids: seq<U64>)
    requires Holds(buf, pos, EncodeIds(ids)) && |buf| < 0x1_0000
    ensures ReadRoute(buf, pos, |ids|) == ids && AfterIds(pos, |ids|) == pos + 8 * |ids|
  {
    ReadIdsInBuffer(buf, pos, |ids|);
    IdsRoundTrip(ids);
  }

  // ---- the header --------------------------------------------------------------------------------

  predicate IsAddressed(flags: Byte) {
    flags % 2 == 1
  }

  predicate IsSigned(flags: Byte) {
    flags / 2 % 2 == 1
  }

  predicate IsRouted(version: Byte, flags: Byte) {
    version == 2 && flags / 8 % 2 == 1
  }

  /** After the version and the type: ttl, time, flags, a payload length of 2 bytes in version 1 and 4
      in version 2, sender, and as the flags say recipient and, in version 2, a counted list of ids. */
  function HeaderLayout(version: Byte, h: Header): seq<Byte>
    requires |h.route| < 256
  {
    [h.ttl] + (BigEndian(h.timestamp, 8) + ([h.flags] + (BigEndian(h.payloadLength, if version == 1 then 2 else 4)
    + (BigEndian(h.sender, 8) + ((if IsAddressed(h.flags) then BigEndian(h.recipient, 8) else [])
    + (if IsRouted(version, h.flags) then [|h.route|] + EncodeIds(h.route) else []))))))
  }

  /** What a parser knows of it: fields that are not sent are empty. */
  function HeaderHeard(version: Byte, ptype: Byte, h: Header): Header {
    Header(ptype, h.ttl, h.timestamp, h.flags, 0, h.payloadLength, h.sender,
           if IsAddressed(h.flags) then h.recipient else 0,
           if IsRouted(version, h.flags) then h.route else [], [], false)
  }

  /** Fields that are not sent make no difference. */
  lemma SameHeaderLayout(g: Header, h: Header)
    requires |g.route| < 256 && |h.route| < 256 && g.ttl == h.ttl && g.timestamp == h.timestamp
    requires g.flags == h.flags && g.payloadLength == h.payloadLength && g.sender == h.sender
    requires IsAddressed(h.flags) ==> g.recipient == h.recipient
    ensures HeaderLayout(1, g) == HeaderLayout(1, h)
  {
    hide BigEndian, IsAddressed;
  }

  lemma FlagBits(flags: Byte)
    ensures HasBit(flags, FLAG_HAS_RECIPIENT) <==> IsAddressed(flags)
    ensures HasBit(flags, FLAG_HAS_SIGNATURE) <==> IsSigned(flags)
    ensures HasBit(flags, FLAG_HAS_ROUTE) <==> flags / 8 % 2 == 1
  {
  }

  /** Wherever it lies, a header of either version is parsed field by field, the route in order, up to
      its end. */
  lemma HeaderParsed(buf: seq<Byte>, version: Byte, ptype: Byte, h: Header, pos: U16)
    requires |buf| < 0x1_0000 && 1 <= version <= 2 && |h.route| < 256
    requires version == 1 ==> h.payloadLength < 0x1_0000
    requires Holds(buf, pos, HeaderLayout(version, h))
    ensures ParseHeader(buf, ptype, version, pos) == (HeaderHeard(version, ptype, h), pos + |HeaderLayout(version, h)|)
  {
    hide HasBit, BigEndian, ReadAt, ByteAt, EncodeIds, ReadRoute, AfterIds, Holds, Advance, IsAddressed;
    Widths();
    FlagBits(h.flags);
    var width := if version == 1 then 2 else 4;
    var ids := if IsRouted(version, h.flags) then [|h.route|] + EncodeIds(h.route) else [];
    var to' := if IsAddressed(h.flags) then BigEndian(h.recipient, 8) else [];
    var fromSender := BigEndian(h.sender, 8) + (to' + ids);
    var fromLength := BigEndian(h.payloadLength, width) + fromSender;
    var fromFlags := [h.flags] + fromLength;
    HoldsBoth(buf, pos, [h.ttl], BigEndian(h.timestamp, 8) + fromFlags);
    HoldsBoth(buf, pos + 1, BigEndian(h.timestamp, 8), fromFlags);
    HoldsBoth(buf, pos + 9, [h.flags], fromLength);
    HoldsBoth(buf, pos + 10, BigEndian(h.payloadLength, width), fromSender);
    HoldsBoth(buf, pos + 10 + width, BigEndian(h.sender, 8), to' + ids);
    HoldsBoth(buf, pos + 18 + width, to', ids);
    HoldsByte(buf, pos, h.ttl);
    HoldsNumber(buf, pos + 1, h.timestamp, 8);
    HoldsByte(buf, pos + 9, h.flags);
    HoldsNumber(buf, pos + 10, h.payloadLength, width);
    HoldsNumber(buf, pos + 10 + width, h.sender, 8);
    if IsAddressed(h.flags) { HoldsNumber(buf, pos + 18 + width, h.recipient, 8); }
    if IsRouted(version, h.flags) {
      HoldsBoth(buf, pos + 18 + width + |to'|, [|h.route|], EncodeIds(h.route));
      HoldsByte(buf, pos + 18 + width + |to'|, |h.route|);
      HoldsIds(buf, pos + 19 + width + |to'|, h.route);
    } else {
      NoIds(buf, pos + 18 + width + |to'|);
    }
  }

  lemma NoIds(buf: seq<Byte>, pos: U16)
    ensures ReadRoute(buf, pos, 0) == [] && AfterIds(pos, 0) == pos
  {
  }

  // ---- whole frames of either version ------------------------------------------------------------

  /** A signature, if the flags announce one, follows the payload as 64 bytes. */
  function WithSignature(base: Header, signature: seq<Byte>): Header {
    if IsSigned(base.flags) then base.(signature := signature) else base
  }

  /** A frame of either version, wherever it lies and whatever follows, with a payload of any fields of
      the lengths their types call for: the parser makes of it exactly its header, its fields one after
      the other, and its signature, and stops behind it. */
  lemma FrameParsed(buf: seq<Byte>, version: Byte, ptype: Byte, h: Header, ts: seq<Tlv>, signature: seq<Byte>, pos: U16)
    requires Fits(buf, EmptyBody(ptype)) && 1 <= version <= 2 && |h.route| < 256
    requires ts != [] && h.payloadLength == |EncodeAll(ts)| && (version == 1 ==> h.payloadLength < 0x1_0000)
    requires AllWellTyped(EmptyBody(ptype), ts)
    requires |signature| == if IsSigned(h.flags) then 64 else 0
    requires Holds(buf, pos, HeaderLayout(version, h) + (EncodeAll(ts) + signature))
    ensures ParsePacket(buf, ptype, version, pos) ==
            Cursor(WithSignature(HeaderHeard(version, ptype, h), signature), ApplyAll(EmptyBody(ptype), ts),
                   pos + |HeaderLayout(version, h)| + h.payloadLength + |signature|)
  {
    hide HeaderLayout, EncodeAll, ParseHeader, TlvLoop, ApplyAll, AllWellTyped, IsAddressed, IsRouted, EmptyBody,
         HasBit, IsSigned;
    var l, e := HeaderLayout(version, h), EncodeAll(ts);
    HoldsBoth(buf, pos, l, e + signature);
    HoldsBoth(buf, pos + |l|, e, signature);
    HeaderParsed(buf, version, ptype, h, pos);
    FlagBits(h.flags);
    EncodedIsLong(ts);
    var s := Cursor(HeaderHeard(version, ptype, h), EmptyBody(ptype), pos + |l|);
    LoopOverTlvs(buf, Remainder(buf, s.pos), s, ts);
  }

  // ---- frames without a length -------------------------------------------------------------------

  /** One field counts for no more than it takes. */
  lemma OneFieldCounts(ptype: Byte, t: Tlv)
    requires WellTyped(EmptyBody(ptype), t)
    ensures OwnLength(Apply(EmptyBody(ptype), t)) <= |Encode(t)|
  {
    hide DecodeIds, FromBigEndian, BigEndian;
    OneFieldOfIds(t.value);
  }

  lemma {:induction false} OneFieldOfIds(s: seq<Byte>)
    ensures |s| % 8 == 0 ==> 8 * |DecodeIds(s)| == |s|
    decreases |s|
  {
    if |s| % 8 == 0 && s != [] { OneFieldOfIds(s[8..]); }
  }

  /** A frame that declares no payload length is read for one field, whatever follows it, and then has
      the length of what that field set. */
  lemma UndeclaredIsOneField(buf: seq<Byte>, version: Byte, ptype: Byte, h: Header, t: Tlv, pos: U16)
    requires Fits(buf, EmptyBody(ptype)) && 1 <= version <= 2 && |h.route| < 256
    requires h.payloadLength == 0 && !IsSigned(h.flags) && WellTyped(EmptyBody(ptype), t)
    requires Holds(buf, pos, HeaderLayout(version, h) + Encode(t))
    ensures ParsePacket(buf, ptype, version, pos) ==
            var body := Apply(EmptyBody(ptype), t);
            Cursor(HeaderHeard(version, ptype, h).(payloadLength := OwnLength(body)), body,
                   pos + |HeaderLayout(version, h)| + |Encode(t)|)
  {
    hide HeaderLayout, Encode, ParseHeader, Apply, WellTyped, IsAddressed, IsRouted, EmptyBody, HasBit, IsSigned,
         OwnLength, Step;
    HoldsBoth(buf, pos, HeaderLayout(version, h), Encode(t));
    HeaderParsed(buf, version, ptype, h, pos);
    FlagBits(h.flags);
    OneFieldCounts(ptype, t);
    StepOnTlv(buf, Cursor(HeaderHeard(version, ptype, h), EmptyBody(ptype), pos + |HeaderLayout(version, h)|), t);
  }

  // ---- frames that are refused -------------------------------------------------------------------

  /** A number under a length that is not its own. */
  predicate BadNumber(ptype: Byte, ty: Byte, length: Byte) {
    || (ptype == 0x02 && ty == 0x7b && length != 1)
    || (ptype == 0x02 && ty in {0x78, 0x79, 0x7a, 0x7c} && length != 4)
    || (ptype == 0x01 && ty in {0x7d, 0x7e, 0x7f} && length != 4)
    || (ptype == 0x7d && ty in {0x04, 0x05, 0x06} && length != 4)
  }

  /** A field taken as bytes. */
  predicate IsBytes(ptype: Byte, ty: Byte) {
    && (ptype == 0x02 ==> ty !in {0x78, 0x79, 0x7a, 0x7b, 0x7c})
    && (ptype == 0x01 ==> ty !in {0x04, 0x7d, 0x7e, 0x7f})
    && (ptype == 0x7d ==> ty !in {0x04, 0x05, 0x06})
  }

  /** What is wrong with the field at `pos`: a number's length is not its own, or bytes run past the end
      of the buffer. */
  predicate BadField(buf: seq<Byte>, ptype: Byte, pos: nat) {
    && pos + 2 <= |buf| < 0x1_0000
    && (BadNumber(ptype, buf[pos], buf[pos + 1])
        || (IsBytes(ptype, buf[pos]) && pos + 2 + buf[pos + 1] > |buf|))
  }

  lemma BadStep(buf: seq<Byte>, ptype: Byte, s: Cursor)
    requires ptype in {0x01, 0x02, 0x7d} && BadField(buf, ptype, s.pos) && SameKind(s.body, EmptyBody(ptype))
    ensures Step(buf, s).base.malformed && Step(buf, s).body == s.body
  {
    hide ReadAt, SetBytes, SetNumber, ReadRoute, AfterIds;
  }

  /** A parser behind good fields and before a bad one that belongs to the payload. */
  lemma {:induction false} LoopRefuses(buf: seq<Byte>, tail: U16, ptype: Byte, s: Cursor, ts: seq<Tlv>)
    requires Fits(buf, s.body) && ptype in {0x01, 0x02, 0x7d} && SameKind(s.body, EmptyBody(ptype))
    requires Holds(buf, s.pos, EncodeAll(ts)) && AllWellTyped(s.body, ts)
    requires BadField(buf, ptype, s.pos + |EncodeAll(ts)|)
    requires !s.base.malformed && 0 < s.base.payloadLength <= tail
    requires |buf| - (s.pos + |EncodeAll(ts)|) > tail - s.base.payloadLength
    ensures TlvLoop(buf, tail, s).base.malformed && TlvLoop(buf, tail, s).body == ApplyAll(s.body, ts)
    decreases |ts|
  {
    hide Step, Apply, WellTyped, Encode, BadField, EmptyBody, Holds;
    if ts == [] {
      BadStep(buf, ptype, s);
    } else {
      var e, rest := Encode(ts[0]), EncodeAll(ts[1..]);
      assert EncodeAll(ts) == e + rest;
      HoldsBoth(buf, s.pos, e, rest);
      HoldsIs(buf, s.pos, e);
      HoldsIs(buf, s.pos + |e|, rest);
      StepOnTlv(buf, s, ts[0]);
      var next := Step(buf, s);
      KindKeepsTypes(s.body, next.body, ts[1..]);
      LoopRefuses(buf, tail, ptype, next, ts[1..]);
    }
  }

  lemma HoldsIs(buf: seq<Byte>, pos: nat, s: seq<Byte>)
    requires Holds(buf, pos, s)
    ensures pos + |s| <= |buf| && buf[pos..pos + |s|] == s
  {
  }

  /** A frame with a bad field in its payload is malformed, and what came before that field is kept. */
  lemma FrameRefused(buf: seq<Byte>, version: Byte, ptype: Byte, h: Header, ts: seq<Tlv>, pos: U16)
    requires ptype in {0x01, 0x02, 0x7d} && Fits(buf, EmptyBody(ptype)) && 1 <= version <= 2 && |h.route| < 256
    requires version == 1 ==> h.payloadLength < 0x1_0000
    requires AllWellTyped(EmptyBody(ptype), ts) && Holds(buf, pos, HeaderLayout(version, h) + EncodeAll(ts))
    requires pos + |HeaderLayout(version, h)| + h.payloadLength <= |buf| && |EncodeAll(ts)| < h.payloadLength
    requires BadField(buf, ptype, pos + |HeaderLayout(version, h)| + |EncodeAll(ts)|)
    ensures var r := ParsePacket(buf, ptype, version, pos);
            r.base.malformed && r.body == ApplyAll(EmptyBody(ptype), ts)
  {
    hide HeaderLayout, EncodeAll, ParseHeader, TlvLoop, ApplyAll, AllWellTyped, IsAddressed, IsRouted, EmptyBody,
         HasBit, IsSigned, BadField, Holds;
    var l, e := HeaderLayout(version, h), EncodeAll(ts);
    HoldsBoth(buf, pos, l, e);
    HeaderParsed(buf, version, ptype, h, pos);
    var s := Cursor(HeaderHeard(version, ptype, h), EmptyBody(ptype), pos + |l|);
    LoopRefuses(buf, Remainder(buf, s.pos), ptype, s, ts);
  }

  // ---- the fields of a payload -------------------------------------------------------------------

  /** The first 255 bytes of a text behind its type and their number; an empty text is left out. */
  function Text(ty: Byte, s: seq<Byte>): seq<Byte> {
    if s == [] then [] else if |s| <= 255 then [ty, |s|] + s else [ty, 255] + s[..255]
  }

  /** A 32-bit number, signed ones as two's complement; zero is left out. */
  function Word(ty: Byte, v: int): seq<Byte> {
    var u := v % 0x1_0000_0000;
    if v == 0 then [] else [ty, 4, u / 0x100_0000, u / 0x1_0000 % 256, u / 0x100 % 256, u % 256]
  }

  function Octet(ty: Byte, v: Byte): seq<Byte> {
    if v == 0 then [] else [ty, 1, v]
  }

  /** The fields in the order in which they are written, under their type numbers. */
  function PayloadLayout(body: Body): seq<Byte> {
    match body
    case MessageBody(id, nickname, content, channel, replyId, messageFlags, latitude, longitude, altitude) =>
      Text(0x00, id) + Text(0x7d, nickname)
      + (if channel != [] && content != [] then Text(0x7f, channel) + Text(0x7e, content) else Text(0x01, content))
      + Octet(0x7b, messageFlags) + Word(0x7c, replyId)
      + (Word(0x78, latitude) + Word(0x79, longitude) + Word(0x7a, altitude))
    case AnnounceBody(name, noiseKey, signingKey, neighbours, latitude, longitude, altitude) =>
      Text(0x01, name) + Text(0x02, noiseKey) + Text(0x03, signingKey)
      + (if 0 < |neighbours| <= 31 then [0x04, 8 * |neighbours|] + EncodeIds(neighbours) else [])
      + (Word(0x78, latitude) + Word(0x79, longitude) + Word(0x7a, altitude))
    case PreferencesBody(key, ssid, password, latitude, longitude, altitude) =>
      Text(0x01, key) + Text(0x02, ssid) + Text(0x03, password)
      + (Word(0x04, latitude) + Word(0x05, longitude) + Word(0x06, altitude))
  }

  lemma TextIs(ty: Byte, s: seq<Byte>)
    ensures EncodeAll(TextTlv(ty, s)) == Text(ty, s)
  {
    if s != [] { OneField(TextTlv(ty, s)[0]); }
  }

  lemma OneField(t: Tlv)
    ensures EncodeAll([t]) == [t.ty, |t.value|] + t.value
  {
    assert [t][1..] == [];
  }

  lemma WordIs(ty: Byte, v: int)
    requires -0x8000_0000 <= v < 0x1_0000_0000
    ensures EncodeAll(NumberTlv(ty, v % 0x1_0000_0000, 4)) == Word(ty, v)
  {
    hide BigEndian;
    var u := v % 0x1_0000_0000;
    Bytes4(u);
    if v != 0 { OneField(NumberTlv(ty, u, 4)[0]); }
  }

  lemma OctetIs(ty: Byte, v: Byte)
    ensures EncodeAll(NumberTlv(ty, v, 1)) == Octet(ty, v)
  {
    if v != 0 {
      assert BigEndian(v, 1) == BigEndian(v / 256, 0) + [v % 256];
      OneField(NumberTlv(ty, v, 1)[0]);
    }
  }

  lemma UnsignedIsModulo(v: I32)
    ensures ToUnsigned(v) == v % 0x1_0000_0000
  {
  }

  lemma PlaceIs(lat: Byte, lon: Byte, alt: Byte, body: Body)
    ensures EncodeAll(LocationTlvs(lat, lon, alt, body)) ==
            Word(lat, body.latitude) + Word(lon, body.longitude) + Word(alt, body.altitude)
  {
    hide EncodeAll, NumberTlv, Word;
    UnsignedIsModulo(body.latitude);
    UnsignedIsModulo(body.longitude);
    UnsignedIsModulo(body.altitude);
    WordIs(lat, body.latitude);
    WordIs(lon, body.longitude);
    WordIs(alt, body.altitude);
    var a, b := NumberTlv(lat, ToUnsigned(body.latitude), 4), NumberTlv(lon, ToUnsigned(body.longitude), 4);
    EncodeConcat(a, b);
    EncodeConcat(a + b, NumberTlv(alt, ToUnsigned(body.altitude), 4));
  }

  lemma NeighboursIs(ids: seq<U64>)
    ensures EncodeAll(NeighbourTlvs(ids)) == if 0 < |ids| <= 31 then [0x04, 8 * |ids|] + EncodeIds(ids) else []
  {
    if 0 < |ids| <= 31 { OneField(NeighbourTlvs(ids)[0]); }
  }

  /** Every payload is written as laid out here. */
  lemma PayloadIs(body: Body)
    ensures EncodeAll(Tlvs(body)) == PayloadLayout(body)
  {
    hide EncodeAll, TextTlv, NumberTlv, LocationTlvs, NeighbourTlvs, Text, Word, Octet;
    match body
    case MessageBody(id, nickname, content, channel, replyId, messageFlags, _, _, _) =>
      var a, b := TextTlv(MSG_ID, id), TextTlv(MSG_NICKNAME, nickname);
      var c := if channel != [] && content != []
               then TextTlv(MSG_CHANNEL, channel) + TextTlv(MSG_CHANNEL_CONTENT, content)
               else TextTlv(MSG_CONTENT, content);
      var d, e := NumberTlv(MSG_FLAGS, messageFlags, 1), NumberTlv(MSG_REPLY_TO, replyId, 4);
      TextIs(MSG_ID, id);
      TextIs(MSG_NICKNAME, nickname);
      TextIs(MSG_CHANNEL, channel);
      TextIs(MSG_CHANNEL_CONTENT, content);
      TextIs(MSG_CONTENT, content);
      EncodeConcat(TextTlv(MSG_CHANNEL, channel), TextTlv(MSG_CHANNEL_CONTENT, content));
      OctetIs(MSG_FLAGS, messageFlags);
      WordIs(MSG_REPLY_TO, replyId);
      PlaceIs(MSG_LATITUDE, MSG_LONGITUDE, MSG_ALTITUDE, body);
      EncodeConcat(a, b);
      EncodeConcat(a + b, c);
      EncodeConcat(a + b + c, d);
      EncodeConcat(a + b + c + d, e);
      EncodeConcat(a + b + c + d + e, LocationTlvs(MSG_LATITUDE, MSG_LONGITUDE, MSG_ALTITUDE, body));
    case AnnounceBody(name, noiseKey, signingKey, neighbours, _, _, _) =>
      var a, b, c := TextTlv(ANN_NICKNAME, name), TextTlv(ANN_NOISE_KEY, noiseKey),
          TextTlv(ANN_SIGNING_KEY, signingKey);
      TextIs(ANN_NICKNAME, name);
      TextIs(ANN_NOISE_KEY, noiseKey);
      TextIs(ANN_SIGNING_KEY, signingKey);
      NeighboursIs(neighbours);
      PlaceIs(MSG_LATITUDE, MSG_LONGITUDE, MSG_ALTITUDE, body);
      EncodeConcat(a, b);
      EncodeConcat(a + b, c);
      EncodeConcat(a + b + c, NeighbourTlvs(neighbours));
      EncodeConcat(a + b + c + NeighbourTlvs(neighbours),
                   LocationTlvs(MSG_LATITUDE, MSG_LONGITUDE, MSG_ALTITUDE, body));
    case PreferencesBody(key, ssid, password, _, _, _) =>
      var a, b, c := TextTlv(PREF_KEY, key), TextTlv(PREF_SSID, ssid), TextTlv(PREF_PASSWORD, password);
      TextIs(PREF_KEY, key);
      TextIs(PREF_SSID, ssid);
      TextIs(PREF_PASSWORD, password);
      PlaceIs(PREF_LATITUDE, PREF_LONGITUDE, PREF_ALTITUDE, body);
      EncodeConcat(a, b);
      EncodeConcat(a + b, c);
      EncodeConcat(a + b + c, LocationTlvs(PREF_LATITUDE, PREF_LONGITUDE, PREF_ALTITUDE, body));
  }

  /** The type byte that goes with a body. */
  function TypeNumber(body: Body): Byte {
    match body
    case MessageBody(_, _, _, _, _, _, _, _, _) => 0x02
    case AnnounceBody(_, _, _, _, _, _, _) => 0x01
    case PreferencesBody(_, _, _, _, _, _) => 0x7d
  }

  /** A body laid out in a frame of either version comes back, its texts clipped. */
  lemma BodyParsed(buf: seq<Byte>, version: Byte, h: Header, body: Body, signature: seq<Byte>, pos: U16)
    requires Fits(buf, body) && 1 <= version <= 2 && |h.route| < 256 && Framed(body)
    requires 0 < |PayloadLayout(body)| == h.payloadLength && |signature| == if IsSigned(h.flags) then 64 else 0
    requires Holds(buf, pos, HeaderLayout(version, h) + (PayloadLayout(body) + signature))
    ensures Fits(buf, EmptyBody(TypeNumber(body)))
    ensures ParsePacket(buf, TypeNumber(body), version, pos) ==
            Cursor(WithSignature(HeaderHeard(version, TypeNumber(body), h), signature), Canonical(body),
                   pos + |HeaderLayout(version, h)| + h.payloadLength + |signature|)
  {
    hide HeaderLayout, EncodeAll, PayloadLayout, ParsePacket, ApplyAll, AllWellTyped, Tlvs, Canonical, IsSigned,
         HeaderHeard, Holds, OwnLength;
    PayloadIs(body);
    FieldsRoundTrip(body);
    Framing(body);
    assert Tlvs(body) != [] by { NothingLaidOut(); }
    FrameParsed(buf, version, TypeNumber(body), h, Tlvs(body), signature, pos);
  }

  lemma NothingLaidOut()
    ensures EncodeAll([]) == []
  {
  }

  /** Every packet is written as a version 1 frame: version, type, header, payload, a signature behind
      its length if the flags call for one, and a zero byte. */
  lemma FrameIs(p: Packet)
    requires |p.base.route| < 256
    ensures WritePacket(p) ==
            [1, p.base.ptype] + HeaderLayout(1, p.base.(payloadLength := PayloadLength(p.base, p.body)))
            + PayloadLayout(p.body)
            + (if IsSigned(p.base.flags) then [|p.base.signature| % 256] + p.base.signature else []) + [0]
  {
    hide EncodeAll, PayloadLayout, Tlvs, BigEndian, OwnLength, HasBit, IsAddressed, IsSigned;
    PayloadIs(p.body);
    FlagBits(p.base.flags);
    HeaderIs(p.base, PayloadLength(p.base, p.body));
  }

  lemma HeaderIs(base: Header, payload: U32)
    requires |base.route| < 256
    ensures EncodeHeader(base, payload) == [1, base.ptype] + HeaderLayout(1, base.(payloadLength := payload))
  {
    hide BigEndian, HasBit, IsAddressed;
    FlagBits(base.flags);
  }

  // ---- two smoke reports -----------------------------------------------------------------------------

  const SMOKE_DETECTOR: seq<Byte> :=
    [0x53, 0x6d, 0x6f, 0x6b, 0x65, 0x44, 0x65, 0x74, 0x65, 0x63, 0x74, 0x6f, 0x72, 0x3a, 0x34, 0x38, 0x37, 0x32]

  /** Version 1, a message, ttl 7; time; flags, length, sender; id; nickname; channel and content. */
  const BOOTED_FRAME: seq<Byte> :=
    [0x01, 0x02] + ([0x07] + [0x00, 0x00, 0x01, 0x9f, 0x4c, 0x69, 0xf4, 0x00]
                    + [0x00, 0x00, 0x33, 0x00, 0x00, 0x72, 0x48, 0x60, 0xb2, 0xf1, 0x80])
    + ([0x00, 0x0d] + [0x4c, 0x69, 0xf4, 0x00, 0x3f, 0x00, 0x00, 0x72, 0x48, 0x60, 0xb2, 0xf1, 0x80]
       + ([0x7d, 0x12] + SMOKE_DETECTOR)
       + ([0x7f, 0x06, 0x23, 0x73, 0x6d, 0x6f, 0x6b, 0x65] + ([0x7e, 0x06] + [0x42, 0x6f, 0x6f, 0x74, 0x65, 0x64])))
    + [0x00]

  const SMOKE_SEEN_FRAME: seq<Byte> :=
    [0x01, 0x02] + ([0x07] + [0x00, 0x00, 0x01, 0x9f, 0x4c, 0x6b, 0xc8, 0xc0]
                    + [0x00, 0x00, 0x3e, 0x00, 0x00, 0x72, 0x48, 0x60, 0xb2, 0xf1, 0x80])
    + ([0x00, 0x0d] + [0x4c, 0x6b, 0xc8, 0xc0, 0xa7, 0x00, 0x00, 0x72, 0x48, 0x60, 0xb2, 0xf1, 0x80]
       + ([0x7d, 0x12] + SMOKE_DETECTOR)
       + ([0x7f, 0x06, 0x23, 0x73, 0x6d, 0x6f, 0x6b, 0x65]
          + ([0x7e, 0x11] + [0x42, 0x6f, 0x6f, 0x74, 0x65, 0x64, 0x2b, 0x53, 0x6d, 0x6f, 0x6b, 0x65, 0x20, 0x73, 0x65,
                             0x65, 0x6e])))
    + [0x00]

  /** A message of "#smoke" from node 0x724860b2f180. */
  function SmokeReport(timestamp: U64, length: U32, id: seq<Byte>, content: seq<Byte>): Packet {
    Packet(Header(0x02, 7, timestamp, 0, 0, length, 0x7248_60b2_f180, 0, [], [], false),
           MessageBody(id, SMOKE_DETECTOR, content, [0x23, 0x73, 0x6d, 0x6f, 0x6b, 0x65], 0, 0, 0, 0, 0))
  }

  /** "Booted". */
  const BOOTED_MESSAGE := SmokeReport(0x19f_4c69_f400, 51,
    [0x4c, 0x69, 0xf4, 0x00, 0x3f, 0x00, 0x00, 0x72, 0x48, 0x60, 0xb2, 0xf1, 0x80],
    [0x42, 0x6f, 0x6f, 0x74, 0x65, 0x64])

  /** "Booted+Smoke seen". */
  const SMOKE_SEEN_MESSAGE := SmokeReport(0x19f_4c6b_c8c0, 62,
    [0x4c, 0x6b, 0xc8, 0xc0, 0xa7, 0x00, 0x00, 0x72, 0x48, 0x60, 0xb2, 0xf1, 0x80],
    [0x42, 0x6f, 0x6f, 0x74, 0x65, 0x64, 0x2b, 0x53, 0x6d, 0x6f, 0x6b, 0x65, 0x20, 0x73, 0x65, 0x65, 0x6e])

  lemma EightBytes(s: seq<Byte>, v: nat)
    requires |s| == 8
    requires v == s[0] as int * 0x100_0000_0000_0000 + s[1] as int * 0x1_0000_0000_0000
                  + s[2] as int * 0x100_0000_0000 + s[3] as int * 0x1_0000_0000
                  + s[4] as int * 0x100_0000 + s[5] as int * 0x1_0000 + s[6] as int * 0x100 + s[7]
    ensures BigEndian(v, 8) == s
  {
    hide BigEndian;
    Digits8(s);
    BigEndianInverse(s);
  }

  lemma LengthBytes(v: Byte)
    ensures BigEndian(v, 2) == [0, v]
  {
    hide BigEndian;
    Bytes2(v);
  }

  lemma ReportHeader(m: Packet, timestamp: seq<Byte>, length: Byte)
    requires m.base == Header(0x02, 7, m.base.timestamp, 0, 0, length, 0x7248_60b2_f180, 0, [], [], false)
    requires BigEndian(m.base.timestamp, 8) == timestamp
    ensures HeaderLayout(1, m.base) ==
            [7] + timestamp + [0, 0, length, 0x00, 0x00, 0x72, 0x48, 0x60, 0xb2, 0xf1, 0x80]
  {
    hide BigEndian;
    LengthBytes(length);
    EightBytes([0x00, 0x00, 0x72, 0x48, 0x60, 0xb2, 0xf1, 0x80], 0x7248_60b2_f180);
  }

  lemma ReportPayload(timestamp: U64, length: U32, id: seq<Byte>, content: seq<Byte>)
    requires 0 < |id| < 256 && 0 < |content| < 256
    ensures PayloadLayout(SmokeReport(timestamp, length, id, content).body) ==
            [0x00, |id|] + id + ([0x7d, 0x12] + SMOKE_DETECTOR)
            + ([0x7f, 0x06, 0x23, 0x73, 0x6d, 0x6f, 0x6b, 0x65] + ([0x7e, |content|] + content))
  {
    var channel: seq<Byte> := [0x23, 0x73, 0x6d, 0x6f, 0x6b, 0x65];
    assert Text(0x7f, channel) == [0x7f, 0x06] + channel == [0x7f, 0x06, 0x23, 0x73, 0x6d, 0x6f, 0x6b, 0x65];
    assert Text(0x7d, SMOKE_DETECTOR) == [0x7d, 0x12] + SMOKE_DETECTOR;
  }

  lemma ReportFrame(timestamp: U64, length: Byte, id: seq<Byte>, content: seq<Byte>, stamp: seq<Byte>)
    requires 0 < |id| < 256 && 0 < |content| < 256 && length > 0 && BigEndian(timestamp, 8) == stamp
    ensures WritePacket(SmokeReport(timestamp, length, id, content)) ==
            [1, 0x02] + ([7] + stamp + [0, 0, length, 0x00, 0x00, 0x72, 0x48, 0x60, 0xb2, 0xf1, 0x80])
            + ([0x00, |id|] + id + ([0x7d, 0x12] + SMOKE_DETECTOR)
               + ([0x7f, 0x06, 0x23, 0x73, 0x6d, 0x6f, 0x6b, 0x65] + ([0x7e, |content|] + content)))
            + [0]
  {
    hide BigEndian, WritePacket, OwnLength, PayloadLayout, HeaderLayout;
    var m := SmokeReport(timestamp, length, id, content);
    FrameIs(m);
    assert m.base.(payloadLength := PayloadLength(m.base, m.body)) == m.base;
    ReportHeader(m, stamp, length);
    ReportPayload(timestamp, length, id, content);
  }

  /** The two smoke reports are written, byte for byte, as these frames. */
  lemma SmokeReportFrames()
    ensures WritePacket(BOOTED_MESSAGE) == BOOTED_FRAME
    ensures WritePacket(SMOKE_SEEN_MESSAGE) == SMOKE_SEEN_FRAME
  {
    hide BigEndian, WritePacket;
    var stamp: seq<Byte>, later: seq<Byte> :=
      [0x00, 0x00, 0x01, 0x9f, 0x4c, 0x69, 0xf4, 0x00], [0x00, 0x00, 0x01, 0x9f, 0x4c, 0x6b, 0xc8, 0xc0];
    EightBytes(stamp, 0x19f_4c69_f400);
    ReportFrame(0x19f_4c69_f400, 51, BOOTED_MESSAGE.body.id, BOOTED_MESSAGE.body.content, stamp);
    EightBytes(later, 0x19f_4c6b_c8c0);
    ReportFrame(0x19f_4c6b_c8c0, 62, SMOKE_SEEN_MESSAGE.body.id, SMOKE_SEEN_MESSAGE.body.content, later);
  }
}
