/** The frame format as the code reads and writes it: what a header parse, one round of a parse loop,
    a whole loop and a packet write compute, for messages, announces and preferences alike. */
module PacketFormat {
  import opened Bytes
  import opened BinaryIO

  // ---- entities --------------------------------------------------------------------------------

  const TYPE_ANNOUNCE: Byte := 0x01
  const TYPE_MESSAGE: Byte := 0x02
  const TYPE_PREFERENCES: Byte := 0x7d

  const FLAG_HAS_RECIPIENT := 1
  const FLAG_HAS_SIGNATURE := 2
  const FLAG_HAS_ROUTE := 8

  const SIGNATURE_LENGTH := 64

  /** The fields of every packet. */
  datatype Header = Header(ptype: Byte, ttl: Byte, timestamp: U64, flags: Byte, sendingHandle: U16,
                           payloadLength: U32, sender: U64, recipient: U64, route: seq<U64>,
                           signature: seq<Byte>, malformed: bool)

  /** What the three kinds of packet carry. */
  datatype Body =
    | MessageBody(id: seq<Byte>, nickname: seq<Byte>, content: seq<Byte>, channel: seq<Byte>,
                  replyId: U32, messageFlags: Byte, latitude: I32, longitude: I32, altitude: I32)
    | AnnounceBody(name: seq<Byte>, noiseKey: seq<Byte>, signingKey: seq<Byte>, neighbours: seq<U64>,
                   latitude: I32, longitude: I32, altitude: I32)
    | PreferencesBody(key: seq<Byte>, ssid: seq<Byte>, password: seq<Byte>,
                      latitude: I32, longitude: I32, altitude: I32)

  datatype Packet = Packet(base: Header, body: Body)

  const EMPTY_MESSAGE := MessageBody([], [], [], [], 0, 0, 0, 0, 0)
  const EMPTY_ANNOUNCE := AnnounceBody([], [], [], [], 0, 0, 0)
  const EMPTY_PREFERENCES := PreferencesBody([], [], [], 0, 0, 0)

  predicate SameKind(a: Body, b: Body) {
    (a.MessageBody? <==> b.MessageBody?) && (a.AnnounceBody? <==> b.AnnounceBody?)
  }

  // ---- fields by type --------------------------------------------------------------------------

  /** How a parser takes a field: as a number of fixed width, as neighbour ids, or as bytes. */
  datatype Field = Flags | ReplyTo | Latitude | Longitude | Altitude | Neighbours | Bytes

  const MSG_ID: Byte := 0x00
  const MSG_CONTENT: Byte := 0x01
  const MSG_LATITUDE: Byte := 0x78
  const MSG_LONGITUDE: Byte := 0x79
  const MSG_ALTITUDE: Byte := 0x7a
  const MSG_FLAGS: Byte := 0x7b
  const MSG_REPLY_TO: Byte := 0x7c
  const MSG_NICKNAME: Byte := 0x7d
  const MSG_CHANNEL_CONTENT: Byte := 0x7e
  const MSG_CHANNEL: Byte := 0x7f

  const ANN_NICKNAME: Byte := 0x01
  const ANN_NOISE_KEY: Byte := 0x02
  const ANN_SIGNING_KEY: Byte := 0x03
  const ANN_NEIGHBOURS: Byte := 0x04
  const ANN_LATITUDE: Byte := 0x7d
  const ANN_LONGITUDE: Byte := 0x7e
  const ANN_ALTITUDE: Byte := 0x7f

  const PREF_KEY: Byte := 0x01
  const PREF_SSID: Byte := 0x02
  const PREF_PASSWORD: Byte := 0x03
  const PREF_LATITUDE: Byte := 0x04
  const PREF_LONGITUDE: Byte := 0x05
  const PREF_ALTITUDE: Byte := 0x06

  function FieldOf(body: Body, ty: Byte): (f: Field)
    ensures f == Neighbours ==> body.AnnounceBody?
  {
    match body
    case MessageBody(_, _, _, _, _, _, _, _, _) =>
      if ty == MSG_FLAGS then Flags
      else if ty == MSG_REPLY_TO then ReplyTo
      else if ty == MSG_LATITUDE then Latitude
      else if ty == MSG_LONGITUDE then Longitude
      else if ty == MSG_ALTITUDE then Altitude
      else Bytes
    case AnnounceBody(_, _, _, _, _, _, _) =>
      if ty == ANN_LATITUDE then Latitude
      else if ty == ANN_LONGITUDE then Longitude
      else if ty == ANN_ALTITUDE then Altitude
      else if ty == ANN_NEIGHBOURS then Neighbours
      else Bytes
    case PreferencesBody(_, _, _, _, _, _) =>
      if ty == PREF_LATITUDE then Latitude
      else if ty == PREF_LONGITUDE then Longitude
      else if ty == PREF_ALTITUDE then Altitude
      else Bytes
  }

  function Width(f: Field): nat {
    if f == Flags then 1 else 4
  }

  function WithLatitude(body: Body, v: I32): Body { body.(latitude := v) }

  function WithLongitude(body: Body, v: I32): Body { body.(longitude := v) }

  function WithAltitude(body: Body, v: I32): Body { body.(altitude := v) }

  function SetNumber(body: Body, f: Field, v: nat): (r: Body)
    requires v < Pow256(Width(f))
    ensures SameKind(r, body)
  {
    Widths();
    match f
    case Flags => if body.MessageBody? then body.(messageFlags := v) else body
    case ReplyTo => if body.MessageBody? then body.(replyId := v) else body
    case Latitude => WithLatitude(body, ToSigned(v))
    case Longitude => WithLongitude(body, ToSigned(v))
    case Altitude => WithAltitude(body, ToSigned(v))
    case _ => body
  }

  /** Types no parser knows are skipped. */
  function SetBytes(body: Body, ty: Byte, data: seq<Byte>): (r: Body)
    ensures SameKind(r, body)
  {
    match body
    case MessageBody(_, _, _, _, _, _, _, _, _) =>
      if ty == MSG_ID then body.(id := data)
      else if ty == MSG_CONTENT then body.(content := data)
      else if ty == MSG_NICKNAME then body.(nickname := data)
      else if ty == MSG_CHANNEL then body.(channel := data)
      else if ty == MSG_CHANNEL_CONTENT then body.(content := data)
      else body
    case AnnounceBody(_, _, _, _, _, _, _) =>
      if ty == ANN_NICKNAME then body.(name := data)
      else if ty == ANN_NOISE_KEY then body.(noiseKey := data)
      else if ty == ANN_SIGNING_KEY then body.(signingKey := data)
      else body
    case PreferencesBody(_, _, _, _, _, _) =>
      if ty == PREF_KEY then body.(key := data)
      else if ty == PREF_SSID then body.(ssid := data)
      else if ty == PREF_PASSWORD then body.(password := data)
      else body
  }

  // ---- reading ---------------------------------------------------------------------------------

  /** The largest buffers on which the parse loops end: beyond them the 16-bit cursor can wrap and
      go round for ever (ParseEnds.EndsExactly). A neighbour field can carry the cursor 256 bytes
      past the end of the buffer, a number 4 bytes. */
  function MaxBuffer(body: Body): nat {
    if body.AnnounceBody? then 65277 else 65529
  }

  predicate Fits(buf: seq<Byte>, body: Body) {
    |buf| <= MaxBuffer(body)
  }

  /** Small enough for packets of every kind. */
  const MAX_BUFFER := 65277

  function ReadRoute(buf: seq<Byte>, pos: U16, count: nat): (r: seq<U64>)
    ensures |r| == count
    decreases count
  {
    Widths();
    if count == 0 then [] else [ReadAt(buf, pos, 8)] + ReadRoute(buf, Advance(pos, 8), count - 1)
  }

  function AfterIds(pos: U16, count: nat): (r: U16)
    ensures pos + 8 * count < 0x1_0000 ==> r == pos + 8 * count
    decreases count
  {
    if count == 0 then pos else AfterIds(Advance(pos, 8), count - 1)
  }

  /** The fields every packet starts with, from `pos` on. */
  function ParseHeader(buf: seq<Byte>, ptype: Byte, version: Byte, pos: U16): (r: (Header, U16))
    ensures r.0.ptype == ptype && !r.0.malformed && r.0.sendingHandle == 0
  {
    Widths();
    ReadAtIsByteAt(buf, pos);
    var ttl, p1 := ByteAt(buf, pos), Advance(pos, 1);
    var timestamp, p2 := ReadAt(buf, p1, 8), Advance(p1, 8);
    var flags, p3 := ByteAt(buf, p2), Advance(p2, 1);
    var width := if version == 1 then 2 else if version == 2 then 4 else 0;
    var length, p4 := if width == 0 then 0 else ReadAt(buf, p3, width), if width == 0 then p3 else Advance(p3, width);
    var sender, p5 := ReadAt(buf, p4, 8), Advance(p4, 8);
    var addressed := HasBit(flags, FLAG_HAS_RECIPIENT);
    var recipient, p6 := if addressed then ReadAt(buf, p5, 8) else 0, if addressed then Advance(p5, 8) else p5;
    var routed := version == 2 && HasBit(flags, FLAG_HAS_ROUTE);
    var hops, p7 := if routed then ByteAt(buf, p6) else 0, if routed then Advance(p6, 1) else p6;
    (Header(ptype, ttl, timestamp, flags, 0, length, sender, recipient, ReadRoute(buf, p7, hops), [], false),
     AfterIds(p7, hops))
  }

  /** A parse in progress. */
  datatype Cursor = Cursor(base: Header, body: Body, pos: U16)

  function Malformed(s: Cursor, pos: U16): Cursor {
    Cursor(s.base.(malformed := true), s.body, pos)
  }

  /** How many 8-byte reads a neighbour field of `len` bytes causes: the last one may run past it. */
  function IdCount(len: nat): (r: nat)
    ensures 8 * r < len + 8 && len <= 8 * r
  {
    (len + 7) / 8
  }

  /** One round of a parse loop: a type, a length, and a value taken by type. */
  function Step(buf: seq<Byte>, s: Cursor): (r: Cursor)
    ensures SameKind(r.body, s.body)
  {
    Widths();
    var ty, p1 := ByteAt(buf, s.pos), Advance(s.pos, 1);
    var len, p2 := ByteAt(buf, p1), Advance(p1, 1);
    match FieldOf(s.body, ty)
    case Bytes =>
      (match DataAt(buf, p2, len)
       case Missing => Malformed(s, Advance(p2, len))
       case Found(data) => s.(body := SetBytes(s.body, ty, data), pos := Advance(p2, len)))
    case Neighbours =>
      s.(body := s.body.(neighbours := s.body.neighbours + ReadRoute(buf, p2, IdCount(len))),
         pos := AfterIds(p2, IdCount(len)))
    case f =>
      if len == Width(f) then
        s.(body := SetNumber(s.body, f, ReadAt(buf, p2, Width(f))), pos := Advance(p2, Width(f)))
      else
        Malformed(s, p2)
  }

  /** The declared length of the payload, or, when none is declared, the length of what was set. */
  function VariableLength(size: nat): nat {
    2 + if size < 255 then size else 255
  }

  function TextLength(s: seq<Byte>): (r: nat)
    ensures r <= 257
  {
    if s == [] then 0 else VariableLength(|s|)
  }

  function NumberLength(v: int, width: nat): (r: nat)
    ensures r <= 257
  {
    if v == 0 then 0 else VariableLength(width)
  }

  function NeighboursLength(ids: seq<U64>): (r: nat)
    ensures r <= 250
  {
    if ids == [] then 0 else 2 + if |ids| * 8 < 248 then |ids| * 8 else 248
  }

  function LocationLength(body: Body): (r: nat)
    ensures r <= 771
  {
    NumberLength(body.latitude, 4) + NumberLength(body.longitude, 4) + NumberLength(body.altitude, 4)
  }

  function OwnLength(body: Body): (r: U32)
    ensures r <= 2313
  {
    match body
    case MessageBody(id, nickname, content, channel, replyId, messageFlags, _, _, _) =>
      TextLength(id) + TextLength(nickname) + TextLength(channel) + TextLength(content)
      + NumberLength(messageFlags, 1) + NumberLength(replyId, 4) + LocationLength(body)
    case AnnounceBody(name, noiseKey, signingKey, neighbours, _, _, _) =>
      TextLength(name) + TextLength(noiseKey) + TextLength(signingKey)
      + NeighboursLength(neighbours)
      + LocationLength(body)
    case PreferencesBody(key, ssid, password, _, _, _) =>
      TextLength(key) + TextLength(ssid) + TextLength(password) + LocationLength(body)
  }

  function PayloadLength(base: Header, body: Body): U32 {
    if base.payloadLength > 0 then base.payloadLength else OwnLength(body)
  }

  /** Asking for the length stores it. */
  function Cached(s: Cursor): Cursor {
    s.(base := s.base.(payloadLength := PayloadLength(s.base, s.body)))
  }

  /** `tail - payload` in unsigned 32-bit arithmetic: the remainder at which the loop stops. */
  function StopAt(tail: U16, payload: U32): (r: U32)
    ensures payload <= tail ==> r == tail - payload
    ensures payload > tail ==> r == 0x1_0000_0000 - (payload - tail)
  {
    (tail - payload) % 0x1_0000_0000
  }

  /** What a cursor still has before it. The last two positions of the 16-bit range come before the
      first: a type and a length read there wrap it to the front. */
  function Left(buf: seq<Byte>, pos: U16): nat {
    if pos > 0xFFFD then |buf| + 2 else if pos <= |buf| then |buf| - pos + 1 else 0
  }

  /** Every round that does not end the parse moves forward. */
  lemma StepProgress(buf: seq<Byte>, s: Cursor)
    requires Fits(buf, s.body)
    ensures Step(buf, s).base.malformed || Left(buf, Step(buf, s).pos) < Left(buf, s.pos)
    ensures |buf| < s.pos <= 0xFFFD ==> Step(buf, s).base.malformed
    ensures s.pos <= |buf| && !Step(buf, s).base.malformed ==> s.pos + 2 <= Step(buf, s).pos <= 0xFFFD
  {
  }

  /** The parse loop: rounds until the packet is malformed or the payload has been read. */
  function TlvLoop(buf: seq<Byte>, tail: U16, s: Cursor): (r: Cursor)
    requires Fits(buf, s.body)
    ensures SameKind(r.body, s.body)
    decreases Left(buf, s.pos)
  {
    StepProgress(buf, s);
    var next := Step(buf, s);
    if next.base.malformed then next else
    var cached := Cached(next);
    if Remainder(buf, cached.pos) > StopAt(tail, cached.base.payloadLength)
    then TlvLoop(buf, tail, cached)
    else cached
  }

  /** The signature, if the flags announce one, is the next 64 bytes. */
  function TakeSignature(buf: seq<Byte>, s: Cursor): (r: Cursor) {
    if s.base.malformed || !HasBit(s.base.flags, FLAG_HAS_SIGNATURE) then s else
    match DataAt(buf, s.pos, SIGNATURE_LENGTH)
    case Missing => Malformed(s.(base := s.base.(signature := [])), Advance(s.pos, SIGNATURE_LENGTH))
    case Found(data) => s.(base := s.base.(signature := data), pos := Advance(s.pos, SIGNATURE_LENGTH))
  }

  function EmptyBody(ptype: Byte): Body {
    if ptype == TYPE_MESSAGE then EMPTY_MESSAGE
    else if ptype == TYPE_ANNOUNCE then EMPTY_ANNOUNCE
    else EMPTY_PREFERENCES
  }

  /** A whole packet after its version and type bytes, and where the reader ends up. */
  function ParsePacket(buf: seq<Byte>, ptype: Byte, version: Byte, pos: U16): (r: Cursor)
    requires Fits(buf, EmptyBody(ptype))
    ensures SameKind(r.body, EmptyBody(ptype))
  {
    var (base, p) := ParseHeader(buf, ptype, version, pos);
    TakeSignature(buf, TlvLoop(buf, Remainder(buf, p), Cursor(base, EmptyBody(ptype), p)))
  }

  // ---- writing ---------------------------------------------------------------------------------

  datatype RawTlv = Tlv(ty: Byte, value: seq<Byte>)
  type Tlv = t: RawTlv | |t.value| < 256 witness Tlv(0, [])

  function Clip(s: seq<Byte>): (r: seq<Byte>)
    ensures |r| <= 255
  {
    if |s| <= 255 then s else s[..255]
  }

  function TextTlv(ty: Byte, s: seq<Byte>): seq<Tlv> {
    if s == [] then [] else [Tlv(ty, Clip(s))]
  }

  function NumberTlv(ty: Byte, v: nat, width: nat): seq<Tlv>
    requires width < 256
  {
    if v == 0 then [] else [Tlv(ty, BigEndian(v, width))]
  }

  function LocationTlvs(lat: Byte, lon: Byte, alt: Byte, body: Body): seq<Tlv> {
    NumberTlv(lat, ToUnsigned(body.latitude), 4)
    + NumberTlv(lon, ToUnsigned(body.longitude), 4)
    + NumberTlv(alt, ToUnsigned(body.altitude), 4)
  }

  function EncodeIds(ids: seq<U64>): (r: seq<Byte>)
    ensures |r| == 8 * |ids|
  {
    if ids == [] then [] else BigEndian(ids[0], 8) + EncodeIds(ids[1..])
  }

  function NeighbourTlvs(ids: seq<U64>): seq<Tlv> {
    if 0 < |ids| <= 31 then [Tlv(ANN_NEIGHBOURS, EncodeIds(ids))] else []
  }

  /** The fields a packet's payload is written as, in order. A channel without content is not
      written; more than 31 neighbours are not written; an announce writes its location under the
      types that messages use. */
  function Tlvs(body: Body): seq<Tlv> {
    match body
    case MessageBody(id, nickname, content, channel, replyId, messageFlags, _, _, _) =>
      TextTlv(MSG_ID, id) + TextTlv(MSG_NICKNAME, nickname)
      + (if channel != [] && content != [] then
           TextTlv(MSG_CHANNEL, channel) + TextTlv(MSG_CHANNEL_CONTENT, content)
         else TextTlv(MSG_CONTENT, content))
      + NumberTlv(MSG_FLAGS, messageFlags, 1) + NumberTlv(MSG_REPLY_TO, replyId, 4)
      + LocationTlvs(MSG_LATITUDE, MSG_LONGITUDE, MSG_ALTITUDE, body)
    case AnnounceBody(name, noiseKey, signingKey, neighbours, _, _, _) =>
      TextTlv(ANN_NICKNAME, name) + TextTlv(ANN_NOISE_KEY, noiseKey) + TextTlv(ANN_SIGNING_KEY, signingKey)
      + NeighbourTlvs(neighbours)
      + LocationTlvs(MSG_LATITUDE, MSG_LONGITUDE, MSG_ALTITUDE, body)
    case PreferencesBody(key, ssid, password, _, _, _) =>
      TextTlv(PREF_KEY, key) + TextTlv(PREF_SSID, ssid) + TextTlv(PREF_PASSWORD, password)
      + LocationTlvs(PREF_LATITUDE, PREF_LONGITUDE, PREF_ALTITUDE, body)
  }

  function Encode(t: Tlv): (r: seq<Byte>)
    ensures |r| == 2 + |t.value|
  {
    [t.ty, |t.value|] + t.value
  }

  function EncodeAll(ts: seq<Tlv>): seq<Byte> {
    if ts == [] then [] else Encode(ts[0]) + EncodeAll(ts[1..])
  }

  lemma {:induction false} EncodeConcat(a: seq<Tlv>, b: seq<Tlv>)
    ensures EncodeAll(a + b) == EncodeAll(a) + EncodeAll(b)
    decreases |a|
  {
    if a == [] {
      assert a + b == b;
    } else {
      EncodeConcat(a[1..], b);
      assert (a + b)[1..] == a[1..] + b;
    }
  }

  /** Frames are always written as version 1. */
  function EncodeHeader(base: Header, payload: U32): seq<Byte> {
    [1, base.ptype, base.ttl] + BigEndian(base.timestamp, 8) + [base.flags] + BigEndian(payload, 2)
    + BigEndian(base.sender, 8)
    + (if HasBit(base.flags, FLAG_HAS_RECIPIENT) then BigEndian(base.recipient, 8) else [])
  }

  /** A signature goes out behind a length byte; a zero byte of padding ends every frame. */
  function EncodeTrailer(base: Header): seq<Byte> {
    (if HasBit(base.flags, FLAG_HAS_SIGNATURE) then [|base.signature| % 256] + base.signature else []) + [0]
  }

  function WritePacket(p: Packet): seq<Byte> {
    EncodeHeader(p.base, PayloadLength(p.base, p.body)) + EncodeAll(Tlvs(p.body)) + EncodeTrailer(p.base)
  }
}
