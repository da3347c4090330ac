/** What survives the trip through bytes: for which packets parsing gives back what was written. */
module RoundTrip {
  import opened Bytes
  import opened BinaryIO
  import opened PacketFormat

  // ---- applying fields one by one ---------------------------------------------------------------

  function DecodeIds(s: seq<Byte>): (ids: seq<U64>)
    requires |s| % 8 == 0
  {
    if s == [] then [] else
    Widths();
    FromBigEndianBound(s[..8]);
    [FromBigEndian(s[..8])] + DecodeIds(s[8..])
  }

  /** The value has the length its type calls for. */
  predicate WellTyped(body: Body, t: Tlv) {
    match FieldOf(body, t.ty)
    case Bytes => true
    case Neighbours => |t.value| % 8 == 0
    case f => |t.value| == Width(f)
  }

  function Apply(body: Body, t: Tlv): (r: Body)
    requires WellTyped(body, t)
    ensures SameKind(r, body)
  {
    match FieldOf(body, t.ty)
    case Bytes => SetBytes(body, t.ty, t.value)
    case Neighbours =>
      body.(neighbours := body.neighbours + DecodeIds(t.value))
    case f =>
      FromBigEndianBound(t.value);
      SetNumber(body, f, FromBigEndian(t.value))
  }

  predicate AllWellTyped(body: Body, ts: seq<Tlv>) {
    forall t :: t in ts ==> WellTyped(body, t)
  }

  function ApplyAll(body: Body, ts: seq<Tlv>): (r: Body)
    requires AllWellTyped(body, ts)
    ensures SameKind(r, body)
    decreases |ts|
  {
    if ts == [] then body else
    KindKeepsTypes(body, Apply(body, ts[0]), ts[1..]);
    ApplyAll(Apply(body, ts[0]), ts[1..])
  }

  lemma {:induction false} ApplyConcat(body: Body, a: seq<Tlv>, b: seq<Tlv>)
    requires AllWellTyped(body, a) && AllWellTyped(body, b)
    ensures AllWellTyped(body, a + b) && AllWellTyped(ApplyAll(body, a), b)
    ensures ApplyAll(body, a + b) == ApplyAll(ApplyAll(body, a), b)
    decreases |a|
  {
    hide Apply, WellTyped;
    KindKeepsTypes(body, ApplyAll(body, a), b);
    if a == [] {
      assert a + b == b;
    } else {
      assert (a + b)[1..] == a[1..] + b;
      KindKeepsTypes(body, Apply(body, a[0]), a[1..]);
      KindKeepsTypes(body, Apply(body, a[0]), b);
      ApplyConcat(Apply(body, a[0]), a[1..], b);
    }
  }

  // ---- one round on one field --------------------------------------------------------------------

  lemma {:induction false} IdsRoundTrip(ids: seq<U64>)
    ensures DecodeIds(EncodeIds(ids)) == ids
  {
    if ids != [] {
      Widths();
      BigEndianRoundTrip(ids[0], 8);
      IdsRoundTrip(ids[1..]);
      var s := EncodeIds(ids);
      assert s[..8] == BigEndian(ids[0], 8) && s[8..] == EncodeIds(ids[1..]);
    }
  }

  /** Reading ids out of a buffer that holds them. */
  lemma {:induction false} ReadIdsInBuffer(buf: seq<Byte>, pos: nat, count: nat)
    requires pos + 8 * count <= |buf| < 0x1_0000
    ensures ReadRoute(buf, pos, count) == DecodeIds(buf[pos..pos + 8 * count])
    ensures AfterIds(pos, count) == pos + 8 * count
    decreases count
  {
    if count > 0 {
      ReadIdsInBuffer(buf, pos + 8, count - 1);
      var s := buf[pos..pos + 8 * count];
      assert s[..8] == buf[pos..pos + 8] && s[8..] == buf[pos + 8..pos + 8 + 8 * (count - 1)];
    }
  }

  lemma TlvInBuffer(buf: seq<Byte>, pos: nat, t: Tlv)
    requires |buf| < 0x1_0000 && pos + |Encode(t)| <= |buf|
    requires buf[pos..pos + |Encode(t)|] == Encode(t)
    ensures Advance(pos, 1) == pos + 1 && Advance(pos + 1, 1) == pos + 2
    ensures ByteAt(buf, pos) == t.ty && ByteAt(buf, pos + 1) == |t.value|
    ensures pos + 2 + |t.value| <= |buf| && buf[pos + 2..pos + 2 + |t.value|] == t.value
    ensures Advance(pos + 2, |t.value|) == pos + 2 + |t.value|
  {
    var e := Encode(t);
    assert buf[pos..pos + |e|][0] == buf[pos];
    assert buf[pos..pos + |e|][1] == buf[pos + 1];
    assert buf[pos + 2..pos + 2 + |t.value|] == e[2..];
  }

  /** A parser in front of an encoded field takes exactly that field. */
  lemma StepOnTlv(buf: seq<Byte>, s: Cursor, t: Tlv)
    requires |buf| < 0x1_0000 && s.pos + |Encode(t)| <= |buf|
    requires buf[s.pos..s.pos + |Encode(t)|] == Encode(t)
    requires WellTyped(s.body, t)
    ensures Step(buf, s) == s.(body := Apply(s.body, t), pos := s.pos + |Encode(t)|)
  {
    hide Encode, Step, Apply, WellTyped, FieldOf;
    TlvInBuffer(buf, s.pos, t);
    if FieldOf(s.body, t.ty) == Field.Bytes {
      StepOnBytes(buf, s, t);
    } else if FieldOf(s.body, t.ty) == Neighbours {
      StepOnIds(buf, s, t);
    } else {
      StepOnNumber(buf, s, t);
    }
  }

  /** The field `t` starts at `pos`. */
  predicate TlvAt(buf: seq<Byte>, pos: nat, t: Tlv) {
    && |buf| < 0x1_0000 && pos + 2 + |t.value| <= |buf|
    && ByteAt(buf, pos) == t.ty && ByteAt(buf, pos + 1) == |t.value|
    && buf[pos + 2..pos + 2 + |t.value|] == t.value
  }

  lemma StepOnBytes(buf: seq<Byte>, s: Cursor, t: Tlv)
    requires TlvAt(buf, s.pos, t) && FieldOf(s.body, t.ty) == Field.Bytes
    ensures Step(buf, s) == s.(body := Apply(s.body, t), pos := s.pos + 2 + |t.value|)
  {
    hide ByteAt, FieldOf, SetBytes, SetNumber, ReadRoute, AfterIds, ReadAt;
  }

  lemma StepOnIds(buf: seq<Byte>, s: Cursor, t: Tlv)
    requires TlvAt(buf, s.pos, t) && FieldOf(s.body, t.ty) == Neighbours && WellTyped(s.body, t)
    ensures Step(buf, s) == s.(body := Apply(s.body, t), pos := s.pos + 2 + |t.value|)
  {
    hide ByteAt, FieldOf, SetBytes, SetNumber, ReadRoute, AfterIds, ReadAt, DecodeIds;
    var n := |t.value| / 8;
    assert IdCount(|t.value|) == n && 8 * n == |t.value|;
    ReadIdsInBuffer(buf, s.pos + 2, n);
  }

  lemma StepOnNumber(buf: seq<Byte>, s: Cursor, t: Tlv)
    requires TlvAt(buf, s.pos, t) && WellTyped(s.body, t)
    requires FieldOf(s.body, t.ty) != Field.Bytes && FieldOf(s.body, t.ty) != Neighbours
    ensures Step(buf, s) == s.(body := Apply(s.body, t), pos := s.pos + 2 + |t.value|)
  {
    hide ByteAt, FieldOf, SetBytes, SetNumber, ReadRoute, AfterIds, FromBigEndian;
  }

  /** A parser in front of a whole payload takes exactly its fields and stops where it ends. */
  lemma {:induction false} LoopOverTlvs(buf: seq<Byte>, tail: U16, s: Cursor, ts: seq<Tlv>)
    requires Fits(buf, s.body) && s.pos + |EncodeAll(ts)| <= |buf| && ts != []
    requires buf[s.pos..s.pos + |EncodeAll(ts)|] == EncodeAll(ts)
    requires AllWellTyped(s.body, ts)
    requires !s.base.malformed && 0 < s.base.payloadLength <= tail
    requires |buf| - (s.pos + |EncodeAll(ts)|) == tail - s.base.payloadLength
    ensures TlvLoop(buf, tail, s) == s.(body := ApplyAll(s.body, ts), pos := s.pos + |EncodeAll(ts)|)
    decreases |ts|
  {
    hide Step, Apply, WellTyped, Encode;
    var e, rest := Encode(ts[0]), EncodeAll(ts[1..]);
    assert EncodeAll(ts) == e + rest;
    assert buf[s.pos..s.pos + |e|] == (e + rest)[..|e|] == e;
    StepOnTlv(buf, s, ts[0]);
    var next := Step(buf, s);
    if ts[1..] != [] {
      assert buf[next.pos..next.pos + |rest|] == (e + rest)[|e|..] == rest;
      KindKeepsTypes(s.body, next.body, ts[1..]);
      EncodedIsLong(ts[1..]);
      LoopOverTlvs(buf, tail, next, ts[1..]);
    } else {
      assert EncodeAll(ts[1..]) == [];
      assert ApplyAll(next.body, ts[1..]) == next.body;
    }
  }

  lemma EncodedIsLong(ts: seq<Tlv>)
    ensures ts != [] ==> |EncodeAll(ts)| >= 2
  {
  }

  lemma KindKeepsTypes(a: Body, b: Body, ts: seq<Tlv>)
    requires SameKind(a, b)
    ensures AllWellTyped(a, ts) <==> AllWellTyped(b, ts)
  {
    assert forall t: Tlv :: WellTyped(a, t) <==> WellTyped(b, t);
  }

  // ---- the header ----------------------------------------------------------------------------------

  /** The header a parser makes of a written one. */
  function ParsedHeader(base: Header, payload: U16): Header {
    Header(base.ptype, base.ttl, base.timestamp, base.flags, 0, payload, base.sender,
           if HasBit(base.flags, FLAG_HAS_RECIPIENT) then base.recipient else 0, [], [], false)
  }

  /** A piece of a text, found where it was put. */
  lemma Piece(pre: seq<Byte>, mid: seq<Byte>, post: seq<Byte>)
    ensures (pre + mid + post)[|pre|..|pre| + |mid|] == mid
  {
  }

  lemma HeaderPieces(base: Header, payload: U16)
    ensures var e := EncodeHeader(base, payload);
            && |e| == (if HasBit(base.flags, FLAG_HAS_RECIPIENT) then 30 else 22)
            && e[0] == 1 && e[1] == base.ptype && e[2] == base.ttl && e[11] == base.flags
            && e[3..11] == BigEndian(base.timestamp, 8)
            && e[12..14] == BigEndian(payload, 2)
            && e[14..22] == BigEndian(base.sender, 8)
            && (HasBit(base.flags, FLAG_HAS_RECIPIENT) ==> e[22..30] == BigEndian(base.recipient, 8))
  {
    hide HasBit, BigEndian;
    var e := EncodeHeader(base, payload);
    var r := if HasBit(base.flags, FLAG_HAS_RECIPIENT) then BigEndian(base.recipient, 8) else [];
    var a, b, c := BigEndian(base.timestamp, 8), BigEndian(payload, 2), BigEndian(base.sender, 8);
    var h := [1, base.ptype, base.ttl];
    assert e == h + a + ([base.flags] + b + c + r);
    Piece(h, a, [base.flags] + b + c + r);
    assert e == (h + a + [base.flags]) + b + (c + r);
    Piece(h + a + [base.flags], b, c + r);
    Piece(h + a + [base.flags] + b, c, r);
    assert e == (h + a + [base.flags] + b + c) + r + [];
    Piece(h + a + [base.flags] + b + c, r, []);
  }

  lemma HeaderRoundTrip(buf: seq<Byte>, base: Header, payload: U16)
    requires |EncodeHeader(base, payload)| <= |buf| < 0x1_0000
    requires buf[..|EncodeHeader(base, payload)|] == EncodeHeader(base, payload)
    ensures ParseHeader(buf, base.ptype, 1, 2) == (ParsedHeader(base, payload), |EncodeHeader(base, payload)|)
  {
    hide HasBit, EncodeHeader, ReadAt;
    Widths();
    HeaderPieces(base, payload);
    var e := EncodeHeader(base, payload);
    assert buf[2] == e[2] && buf[11] == e[11];
    assert buf[3..11] == e[3..11] && buf[12..14] == e[12..14] && buf[14..22] == e[14..22];
    ReadAtSlice(buf, 3, 8, base.timestamp);
    ReadAtSlice(buf, 12, 2, payload);
    ReadAtSlice(buf, 14, 8, base.sender);
    if HasBit(base.flags, FLAG_HAS_RECIPIENT) {
      assert buf[22..30] == e[22..30];
      ReadAtSlice(buf, 22, 8, base.recipient);
    }
  }

  // ---- the payload ---------------------------------------------------------------------------------

  /** What a body comes back as: strings clipped, and for an announce no location, because it goes
      out under types its parser does not know. */
  function Canonical(body: Body): Body {
    match body
    case MessageBody(id, nickname, content, channel, replyId, messageFlags, lat, lon, alt) =>
      MessageBody(Clip(id), Clip(nickname), Clip(content), Clip(channel), replyId, messageFlags, lat, lon, alt)
    case AnnounceBody(name, noiseKey, signingKey, neighbours, _, _, _) =>
      AnnounceBody(Clip(name), Clip(noiseKey), Clip(signingKey), neighbours, 0, 0, 0)
    case PreferencesBody(key, ssid, password, lat, lon, alt) =>
      PreferencesBody(Clip(key), Clip(ssid), Clip(password), lat, lon, alt)
  }

  /** Nothing the length counts is left unwritten. */
  predicate Framed(body: Body) {
    match body
    case MessageBody(_, _, content, channel, _, _, _, _, _) => channel != [] ==> content != []
    case AnnounceBody(_, _, _, neighbours, _, _, _) => |neighbours| <= 31
    case PreferencesBody(_, _, _, _, _, _) => true
  }

  function EmptyLike(body: Body): Body {
    match body
    case MessageBody(_, _, _, _, _, _, _, _, _) => EMPTY_MESSAGE
    case AnnounceBody(_, _, _, _, _, _, _) => EMPTY_ANNOUNCE
    case PreferencesBody(_, _, _, _, _, _) => EMPTY_PREFERENCES
  }

  lemma EncodedLength(a: seq<Tlv>, b: seq<Tlv>)
    ensures |EncodeAll(a + b)| == |EncodeAll(a)| + |EncodeAll(b)|
  {
    EncodeConcat(a, b);
  }

  lemma TextLengthIs(ty: Byte, s: seq<Byte>)
    ensures |EncodeAll(TextTlv(ty, s))| == TextLength(s)
  {
    assert s != [] ==> TextTlv(ty, s)[1..] == [];
  }

  lemma NumberLengthIs(ty: Byte, v: nat, width: nat)
    requires width < 255
    ensures |EncodeAll(NumberTlv(ty, v, width))| == NumberLength(v, width)
  {
    assert v != 0 ==> NumberTlv(ty, v, width)[1..] == [];
  }

  lemma LocationLengthIs(lat: Byte, lon: Byte, alt: Byte, body: Body)
    ensures |EncodeAll(LocationTlvs(lat, lon, alt, body))| == LocationLength(body)
  {
    hide EncodeAll, NumberTlv;
    var a, b, c := ToUnsigned(body.latitude), ToUnsigned(body.longitude), ToUnsigned(body.altitude);
    NumberLengthIs(lat, a, 4);
    NumberLengthIs(lon, b, 4);
    NumberLengthIs(alt, c, 4);
    EncodedLength(NumberTlv(lat, a, 4), NumberTlv(lon, b, 4));
    EncodedLength(NumberTlv(lat, a, 4) + NumberTlv(lon, b, 4), NumberTlv(alt, c, 4));
  }

  lemma NeighboursLengthIs(ids: seq<U64>)
    ensures |EncodeAll(NeighbourTlvs(ids))| == if |ids| <= 31 then NeighboursLength(ids) else 0
  {
    assert 0 < |ids| <= 31 ==> NeighbourTlvs(ids)[1..] == [];
  }

  /** The declared length is the number of bytes written exactly when everything counted is written;
      otherwise it is at least 3 too large. */
  lemma Framing(body: Body)
    ensures |EncodeAll(Tlvs(body))| == OwnLength(body) <==> Framed(body)
    ensures !Framed(body) ==> |EncodeAll(Tlvs(body))| + 3 <= OwnLength(body)
  {
    hide EncodeAll, TextTlv, NumberTlv, LocationTlvs, NeighbourTlvs, NumberLength, LocationLength;
    match body
    case MessageBody(id, nickname, content, channel, replyId, messageFlags, _, _, _) =>
      var a, b := TextTlv(MSG_ID, id), TextTlv(MSG_NICKNAME, nickname);
      var c := if channel != [] && content != []
          then TextTlv(MSG_CHANNEL, channel) + TextTlv(MSG_CHANNEL_CONTENT, content)
               else TextTlv(MSG_CONTENT, content);
      var d, e := NumberTlv(MSG_FLAGS, messageFlags, 1), NumberTlv(MSG_REPLY_TO, replyId, 4);
      var f := LocationTlvs(MSG_LATITUDE, MSG_LONGITUDE, MSG_ALTITUDE, body);
      TextLengthIs(MSG_ID, id);
      TextLengthIs(MSG_NICKNAME, nickname);
      TextLengthIs(MSG_CONTENT, content);
      TextLengthIs(MSG_CHANNEL, channel);
      TextLengthIs(MSG_CHANNEL_CONTENT, content);
      EncodedLength(TextTlv(MSG_CHANNEL, channel), TextTlv(MSG_CHANNEL_CONTENT, content));
      NumberLengthIs(MSG_FLAGS, messageFlags, 1);
      NumberLengthIs(MSG_REPLY_TO, replyId, 4);
      LocationLengthIs(MSG_LATITUDE, MSG_LONGITUDE, MSG_ALTITUDE, body);
      EncodedLength(a, b);
      EncodedLength(a + b, c);
      EncodedLength(a + b + c, d);
      EncodedLength(a + b + c + d, e);
      EncodedLength(a + b + c + d + e, f);
    case AnnounceBody(name, noiseKey, signingKey, neighbours, _, _, _) =>
      var a, b, c := TextTlv(ANN_NICKNAME, name), TextTlv(ANN_NOISE_KEY, noiseKey),
          TextTlv(ANN_SIGNING_KEY, signingKey);
      var d, e := NeighbourTlvs(neighbours), LocationTlvs(MSG_LATITUDE, MSG_LONGITUDE, MSG_ALTITUDE, body);
      TextLengthIs(ANN_NICKNAME, name);
      TextLengthIs(ANN_NOISE_KEY, noiseKey);
      TextLengthIs(ANN_SIGNING_KEY, signingKey);
      NeighboursLengthIs(neighbours);
      LocationLengthIs(MSG_LATITUDE, MSG_LONGITUDE, MSG_ALTITUDE, body);
      EncodedLength(a, b);
      EncodedLength(a + b, c);
      EncodedLength(a + b + c, d);
      EncodedLength(a + b + c + d, e);
    case PreferencesBody(key, ssid, password, _, _, _) =>
      var a, b, c := TextTlv(PREF_KEY, key), TextTlv(PREF_SSID, ssid), TextTlv(PREF_PASSWORD, password);
      TextLengthIs(PREF_KEY, key);
      TextLengthIs(PREF_SSID, ssid);
      TextLengthIs(PREF_PASSWORD, password);
      LocationLengthIs(PREF_LATITUDE, PREF_LONGITUDE, PREF_ALTITUDE, body);
      EncodedLength(a, b);
      EncodedLength(a + b, c);
      EncodedLength(a + b + c, LocationTlvs(PREF_LATITUDE, PREF_LONGITUDE, PREF_ALTITUDE, body));
  }

  // ---- parsing the fields back -----------------------------------------------------------------------

  lemma ApplyText(body: Body, ty: Byte, s: seq<Byte>)
    requires FieldOf(body, ty) == Field.Bytes
    ensures AllWellTyped(body, TextTlv(ty, s))
    ensures ApplyAll(body, TextTlv(ty, s)) == if s == [] then body else SetBytes(body, ty, Clip(s))
  {
    hide SetBytes, FieldOf;
    if s != [] {
      var ts := TextTlv(ty, s);
      assert ts[1..] == [];
      assert ApplyAll(Apply(body, ts[0]), ts[1..]) == Apply(body, ts[0]);
    }
  }

  lemma ApplyNumber(body: Body, ty: Byte, v: nat, width: nat)
    requires width < 255 && v < Pow256(width)
    requires FieldOf(body, ty) != Field.Bytes && FieldOf(body, ty) != Neighbours && Width(FieldOf(body, ty)) == width
    ensures AllWellTyped(body, NumberTlv(ty, v, width))
    ensures ApplyAll(body, NumberTlv(ty, v, width)) == if v == 0 then body else SetNumber(body, FieldOf(body, ty), v)
  {
    hide SetNumber, FieldOf;
    if v != 0 {
      var ts := NumberTlv(ty, v, width);
      BigEndianRoundTrip(v, width);
      assert ts[1..] == [];
      assert ApplyAll(Apply(body, ts[0]), ts[1..]) == Apply(body, ts[0]);
    }
  }

  /** Two groups of fields, one after the other. */
  lemma ApplyThen(body: Body, a: seq<Tlv>, mid: Body, b: seq<Tlv>, end: Body)
    requires AllWellTyped(body, a) && ApplyAll(body, a) == mid
    requires AllWellTyped(mid, b) && ApplyAll(mid, b) == end
    ensures AllWellTyped(body, a + b) && ApplyAll(body, a + b) == end
  {
    hide ApplyAll;
    KindKeepsTypes(body, mid, b);
    ApplyConcat(body, a, b);
  }

  /** Location fields under types the parser knows come back. */
  lemma ApplyLocation(to: Body, lat: Byte, lon: Byte, alt: Byte, body: Body)
    requires FieldOf(to, lat) == Latitude && FieldOf(to, lon) == Longitude && FieldOf(to, alt) == Altitude
    requires to.latitude == to.longitude == to.altitude == 0
    ensures AllWellTyped(to, LocationTlvs(lat, lon, alt, body))
    ensures ApplyAll(to, LocationTlvs(lat, lon, alt, body)) ==
            WithAltitude(WithLongitude(WithLatitude(to, body.latitude), body.longitude), body.altitude)
  {
    hide ApplyAll, NumberTlv;
    Widths();
    var a, b, c := ToUnsigned(body.latitude), ToUnsigned(body.longitude), ToUnsigned(body.altitude);
    SignedRoundTrip(body.latitude);
    SignedRoundTrip(body.longitude);
    SignedRoundTrip(body.altitude);
    var b1 := WithLatitude(to, body.latitude);
    var b2 := WithLongitude(b1, body.longitude);
    ApplyNumber(to, lat, a, 4);
    ApplyNumber(b1, lon, b, 4);
    ApplyThen(to, NumberTlv(lat, a, 4), b1, NumberTlv(lon, b, 4), b2);
    ApplyNumber(b2, alt, c, 4);
    ApplyThen(to, NumberTlv(lat, a, 4) + NumberTlv(lon, b, 4), b2, NumberTlv(alt, c, 4),
        WithAltitude(b2, body.altitude));
  }

  /** The announce parser skips the location an announce is written with. */
  lemma SkipLocation(to: Body, body: Body)
    requires to.AnnounceBody?
    ensures AllWellTyped(to, LocationTlvs(MSG_LATITUDE, MSG_LONGITUDE, MSG_ALTITUDE, body))
    ensures ApplyAll(to, LocationTlvs(MSG_LATITUDE, MSG_LONGITUDE, MSG_ALTITUDE, body)) == to
  {
    hide ApplyAll, NumberTlv;
    var a, b, c := ToUnsigned(body.latitude), ToUnsigned(body.longitude), ToUnsigned(body.altitude);
    SkipNumber(to, MSG_LATITUDE, a);
    SkipNumber(to, MSG_LONGITUDE, b);
    SkipNumber(to, MSG_ALTITUDE, c);
    ApplyThen(to, NumberTlv(MSG_LATITUDE, a, 4), to, NumberTlv(MSG_LONGITUDE, b, 4), to);
    ApplyThen(to, NumberTlv(MSG_LATITUDE, a, 4) + NumberTlv(MSG_LONGITUDE, b, 4), to,
        NumberTlv(MSG_ALTITUDE, c, 4), to);
  }

  lemma SkipNumber(to: Body, ty: Byte, v: nat)
    requires to.AnnounceBody? && ty in {MSG_LATITUDE, MSG_LONGITUDE, MSG_ALTITUDE}
    ensures AllWellTyped(to, NumberTlv(ty, v, 4)) && ApplyAll(to, NumberTlv(ty, v, 4)) == to
  {
    if v != 0 {
      var ts := NumberTlv(ty, v, 4);
      assert ts[1..] == [];
      assert ApplyAll(Apply(to, ts[0]), ts[1..]) == to;
    }
  }

  /** The text fields of a message: everything up to the numbers. */
  function MessageTexts(body: Body): seq<Tlv>
    requires body.MessageBody?
  {
    TextTlv(MSG_ID, body.id) + TextTlv(MSG_NICKNAME, body.nickname)
    + (if body.channel != [] && body.content != [] then
         TextTlv(MSG_CHANNEL, body.channel) + TextTlv(MSG_CHANNEL_CONTENT, body.content)
       else TextTlv(MSG_CONTENT, body.content))
  }

  lemma MessageTextFields(body: Body)
    requires body.MessageBody? && Framed(body)
    ensures AllWellTyped(EMPTY_MESSAGE, MessageTexts(body))
    ensures ApplyAll(EMPTY_MESSAGE, MessageTexts(body)) ==
            EMPTY_MESSAGE.(id := Clip(body.id), nickname := Clip(body.nickname),
                           channel := Clip(body.channel), content := Clip(body.content))
  {
    hide ApplyAll, AllWellTyped, TextTlv;
    var m0 := EMPTY_MESSAGE;
    var m1 := m0.(id := Clip(body.id));
    var m2 := m1.(nickname := Clip(body.nickname));
    var m3 := m2.(channel := Clip(body.channel));
    var m4 := m3.(content := Clip(body.content));
    var a, b := TextTlv(MSG_ID, body.id), TextTlv(MSG_NICKNAME, body.nickname);
    ApplyText(m0, MSG_ID, body.id);
    ApplyText(m1, MSG_NICKNAME, body.nickname);
    ApplyThen(m0, a, m1, b, m2);
    if body.channel != [] {
      ApplyText(m2, MSG_CHANNEL, body.channel);
      ApplyText(m3, MSG_CHANNEL_CONTENT, body.content);
      ApplyThen(m2, TextTlv(MSG_CHANNEL, body.channel), m3, TextTlv(MSG_CHANNEL_CONTENT, body.content), m4);
      ApplyThen(m0, a + b, m2, TextTlv(MSG_CHANNEL, body.channel) + TextTlv(MSG_CHANNEL_CONTENT, body.content), m4);
    } else {
      ApplyText(m2, MSG_CONTENT, body.content);
      ApplyThen(m0, a + b, m2, TextTlv(MSG_CONTENT, body.content), m4);
    }
  }

  lemma MessageFields(body: Body)
    requires body.MessageBody? && Framed(body)
    ensures AllWellTyped(EMPTY_MESSAGE, Tlvs(body))
    ensures ApplyAll(EMPTY_MESSAGE, Tlvs(body)) == Canonical(body)
  {
    hide ApplyAll, AllWellTyped, TextTlv, NumberTlv, LocationTlvs, Clip;
    Widths();
    MessageTextFields(body);
    var ts := MessageTexts(body);
    var m4 := ApplyAll(EMPTY_MESSAGE, ts);
    var m5 := m4.(messageFlags := body.messageFlags);
    var m6 := m5.(replyId := body.replyId);
    var d, e := NumberTlv(MSG_FLAGS, body.messageFlags, 1), NumberTlv(MSG_REPLY_TO, body.replyId, 4);
    ApplyNumber(m4, MSG_FLAGS, body.messageFlags, 1);
    ApplyThen(EMPTY_MESSAGE, ts, m4, d, m5);
    ApplyNumber(m5, MSG_REPLY_TO, body.replyId, 4);
    ApplyThen(EMPTY_MESSAGE, ts + d, m5, e, m6);
    ApplyLocation(m6, MSG_LATITUDE, MSG_LONGITUDE, MSG_ALTITUDE, body);
    ApplyThen(EMPTY_MESSAGE, ts + d + e, m6, LocationTlvs(MSG_LATITUDE, MSG_LONGITUDE, MSG_ALTITUDE, body),
        Canonical(body));
  }

  lemma AnnounceFields(body: Body)
    requires body.AnnounceBody? && Framed(body)
    ensures AllWellTyped(EMPTY_ANNOUNCE, Tlvs(body))
    ensures ApplyAll(EMPTY_ANNOUNCE, Tlvs(body)) == Canonical(body)
  {
    hide ApplyAll, TextTlv, NumberTlv, LocationTlvs, NeighbourTlvs;
    var m0 := EMPTY_ANNOUNCE;
    var m1 := m0.(name := Clip(body.name));
    var m2 := m1.(noiseKey := Clip(body.noiseKey));
    var m3 := m2.(signingKey := Clip(body.signingKey));
    var m4 := m3.(neighbours := body.neighbours);
    var a, b, c := TextTlv(ANN_NICKNAME, body.name), TextTlv(ANN_NOISE_KEY, body.noiseKey),
        TextTlv(ANN_SIGNING_KEY, body.signingKey);
    ApplyText(m0, ANN_NICKNAME, body.name);
    ApplyText(m1, ANN_NOISE_KEY, body.noiseKey);
    ApplyThen(m0, a, m1, b, m2);
    ApplyText(m2, ANN_SIGNING_KEY, body.signingKey);
    ApplyThen(m0, a + b, m2, c, m3);
    ApplyNeighbours(m3, body.neighbours);
    ApplyThen(m0, a + b + c, m3, NeighbourTlvs(body.neighbours), m4);
    SkipLocation(m4, body);
    ApplyThen(m0, a + b + c + NeighbourTlvs(body.neighbours), m4,
              LocationTlvs(MSG_LATITUDE, MSG_LONGITUDE, MSG_ALTITUDE, body), m4);
  }

  lemma ApplyNeighbours(to: Body, ids: seq<U64>)
    requires to.AnnounceBody? && to.neighbours == [] && |ids| <= 31
    ensures AllWellTyped(to, NeighbourTlvs(ids))
    ensures ApplyAll(to, NeighbourTlvs(ids)) == to.(neighbours := ids)
  {
    IdsRoundTrip(ids);
    if ids != [] {
      var ts := NeighbourTlvs(ids);
      assert ts[1..] == [];
      assert ApplyAll(Apply(to, ts[0]), ts[1..]) == Apply(to, ts[0]);
    }
  }

  lemma PreferencesFields(body: Body)
    requires body.PreferencesBody?
    ensures AllWellTyped(EMPTY_PREFERENCES, Tlvs(body))
    ensures ApplyAll(EMPTY_PREFERENCES, Tlvs(body)) == Canonical(body)
  {
    hide ApplyAll, TextTlv, NumberTlv, LocationTlvs;
    var m0 := EMPTY_PREFERENCES;
    var m1 := m0.(key := Clip(body.key));
    var m2 := m1.(ssid := Clip(body.ssid));
    var m3 := m2.(password := Clip(body.password));
    var a, b, c := TextTlv(PREF_KEY, body.key), TextTlv(PREF_SSID, body.ssid), TextTlv(PREF_PASSWORD, body.password);
    ApplyText(m0, PREF_KEY, body.key);
    ApplyText(m1, PREF_SSID, body.ssid);
    ApplyThen(m0, a, m1, b, m2);
    ApplyText(m2, PREF_PASSWORD, body.password);
    ApplyThen(m0, a + b, m2, c, m3);
    ApplyLocation(m3, PREF_LATITUDE, PREF_LONGITUDE, PREF_ALTITUDE, body);
    ApplyThen(m0, a + b + c, m3, LocationTlvs(PREF_LATITUDE, PREF_LONGITUDE, PREF_ALTITUDE, body), Canonical(body));
  }

  /** Applied to an empty body, the written fields give the body back. */
  lemma FieldsRoundTrip(body: Body)
    requires Framed(body)
    ensures AllWellTyped(EmptyLike(body), Tlvs(body))
    ensures ApplyAll(EmptyLike(body), Tlvs(body)) == Canonical(body)
  {
    hide ApplyAll, Tlvs, AllWellTyped, Canonical;
    match body
    case MessageBody(_, _, _, _, _, _, _, _, _) => MessageFields(body);
    case AnnounceBody(_, _, _, _, _, _, _) => AnnounceFields(body);
    case PreferencesBody(_, _, _, _, _, _) => PreferencesFields(body);
  }
}
