/** The packet objects: parsed field by field from a reader, written field by field to a writer. */
module Packets {
  import opened Bytes
  import opened BinaryIO
  import opened PacketFormat

  /** The fields every packet starts with; leaves the reader at the payload. */
  method ReadHeader(ptype: Byte, version: Byte, reader: BinaryReader) returns (h: Header)
    requires reader.Valid()
    modifies reader
    ensures reader.Valid()
    ensures (h, reader.pos) == ParseHeader(reader.buffer, ptype, version, old(reader.pos))
  {
    h := Header(ptype, 0, 0, 0, 0, 0, 0, 0, [], [], false);
    var ttl := reader.ReadUint8();
    var timestamp := reader.ReadUint64();
    var flags := reader.ReadUint8();
    h := h.(ttl := ttl, timestamp := timestamp, flags := flags);
    if version == 1 {
      var length := reader.ReadUint16();
      h := h.(payloadLength := length);
    } else if version == 2 {
      var length := reader.ReadUint32();
      h := h.(payloadLength := length);
    }
    var sender := reader.ReadUint64();
    h := h.(sender := sender);
    if HasBit(flags, FLAG_HAS_RECIPIENT) {
      var recipient := reader.ReadUint64();
      h := h.(recipient := recipient);
    }
    if version == 2 && HasBit(flags, FLAG_HAS_ROUTE) {
      var routeCount := reader.ReadUint8();
      var route := ReadIds(reader, routeCount);
      h := h.(route := route);
    }
  }

  /** `count` 8-byte ids. */
  method ReadIds(reader: BinaryReader, count: nat) returns (ids: seq<U64>)
    requires reader.Valid()
    modifies reader
    ensures reader.Valid()
    ensures ids == ReadRoute(reader.buffer, old(reader.pos), count)
    ensures reader.pos == AfterIds(old(reader.pos), count)
  {
    hide ReadAt, Advance, ReadRoute, AfterIds;
    ids := [];
    for i := 0 to count
      invariant reader.Valid()
      invariant ids + ReadRoute(reader.buffer, reader.pos, count - i)
              == ReadRoute(reader.buffer, old(reader.pos), count)
      invariant AfterIds(reader.pos, count - i) == AfterIds(old(reader.pos), count)
    {
      RouteNext(reader.buffer, reader.pos, count - i);
      var id := reader.ReadUint64();
      Append3(ids, [id], ReadRoute(reader.buffer, reader.pos, count - i - 1));
      ids := ids + [id];
    }
    NoMoreIds(reader.buffer, reader.pos, ids);
  }

  method WriteHeader(writer: BinaryWriter, base: Header, payloadLength: U32)
    modifies writer
    ensures writer.data == old(writer.data) + EncodeHeader(base, payloadLength)
  {
    hide BigEndian, HasBit;
    ghost var start := writer.data;
    writer.WriteUint8(1);
    writer.WriteUint8(base.ptype);
    writer.WriteUint8(base.ttl);
    writer.WriteUint64(base.timestamp);
    writer.WriteUint8(base.flags);
    TwoBytesOf(payloadLength);
    writer.WriteUint16(payloadLength % 0x1_0000);
    writer.WriteUint64(base.sender);
    assert writer.data == start + ([1, base.ptype, base.ttl] + BigEndian(base.timestamp, 8) + [base.flags]
                                   + BigEndian(payloadLength, 2) + BigEndian(base.sender, 8));
    if HasBit(base.flags, FLAG_HAS_RECIPIENT) {
      writer.WriteUint64(base.recipient);
    }
  }

  lemma TwoBytesOf(v: nat)
    ensures BigEndian(v % 0x1_0000, 2) == BigEndian(v, 2)
  {
    hide BigEndian;
    Bytes2(v);
    Bytes2(v % 0x1_0000);
    LowBytes(v / 0x1_0000, v % 0x1_0000);
  }

  lemma LowBytes(q: nat, r: nat)
    ensures (0x1_0000 * q + r) / 0x100 % 256 == r / 0x100 % 256
    ensures (0x1_0000 * q + r) % 256 == r % 256
  {
    assert (0x1_0000 * q + r) / 0x100 == 0x100 * q + r / 0x100;
  }

  /** One id more. */
  lemma RouteNext(buf: seq<Byte>, pos: U16, count: nat)
    requires count > 0
    ensures ReadAt(buf, pos, 8) < 0x1_0000_0000_0000_0000
    ensures ReadRoute(buf, pos, count) == [ReadAt(buf, pos, 8)] + ReadRoute(buf, Advance(pos, 8), count - 1)
    ensures AfterIds(pos, count) == AfterIds(Advance(pos, 8), count - 1)
  {
    hide ReadAt, Advance;
    Widths();
  }

  lemma NoMoreIds(buf: seq<Byte>, pos: U16, ids: seq<U64>)
    ensures AfterIds(pos, 0) == pos && ids + ReadRoute(buf, pos, 0) == ids
  {
  }

  lemma Append3(a: seq<U64>, b: seq<U64>, c: seq<U64>)
    ensures a + (b + c) == (a + b) + c
  {
  }

  method WriteTrailer(writer: BinaryWriter, base: Header)
    requires |base.signature| < 0x1_0000
    modifies writer
    ensures writer.data == old(writer.data) + EncodeTrailer(base)
  {
    if HasBit(base.flags, FLAG_HAS_SIGNATURE) {
      writer.WriteUint8(|base.signature| % 256);
      writer.WriteData(base.signature, |base.signature|);
    }
    writer.WriteUint8(0);
  }

  method WriteText(writer: BinaryWriter, ty: Byte, s: seq<Byte>)
    modifies writer
    ensures writer.data == old(writer.data) + EncodeAll(TextTlv(ty, s))
  {
    if s != [] {
      writer.WriteUint8(ty);
      var len := if |s| < 255 then |s| else 255;
      writer.WriteUint8(len);
      writer.WriteData(s, len);
      EncodeOne(Tlv(ty, Clip(s)));
    }
  }

  method WriteNumber(writer: BinaryWriter, ty: Byte, v: U32)
    modifies writer
    ensures writer.data == old(writer.data) + EncodeAll(NumberTlv(ty, v, 4))
  {
    if v != 0 {
      writer.WriteUint8(ty);
      writer.WriteUint8(4);
      writer.WriteUint32(v);
      EncodeOne(Tlv(ty, BigEndian(v, 4)));
    }
  }

  method WriteLocation(writer: BinaryWriter, lat: Byte, lon: Byte, alt: Byte, body: Body)
    modifies writer
    ensures writer.data == old(writer.data) + EncodeAll(LocationTlvs(lat, lon, alt, body))
  {
    hide EncodeAll, NumberTlv;
    ghost var a, b := NumberTlv(lat, ToUnsigned(body.latitude), 4), NumberTlv(lon, ToUnsigned(body.longitude), 4);
    EncodeConcat(a, b);
    EncodeConcat(a + b, NumberTlv(alt, ToUnsigned(body.altitude), 4));
    WriteNumber(writer, lat, ToUnsigned(body.latitude));
    WriteNumber(writer, lon, ToUnsigned(body.longitude));
    WriteNumber(writer, alt, ToUnsigned(body.altitude));
  }

  lemma EncodeOne(t: Tlv)
    ensures EncodeAll([t]) == Encode(t)
  {
    assert [t][1..] == [];
  }

  /** Base::handleReaderRemainder. */
  method ReadSignature(base: Header, ghost body: Body, reader: BinaryReader) returns (h: Header)
    requires reader.Valid()
    modifies reader
    ensures reader.Valid()
    ensures Cursor(h, body, reader.pos) == TakeSignature(reader.buffer, Cursor(base, body, old(reader.pos)))
  {
    h := base;
    if !base.malformed && HasBit(base.flags, FLAG_HAS_SIGNATURE) {
      var data := reader.ReadData(SIGNATURE_LENGTH);
      match data
      case Found(bytes) => h := h.(signature := bytes);
      case Missing => h := h.(signature := [], malformed := true);
    }
  }

  lemma HeaderIgnoresLength(base: Header, length: U32)
    ensures EncodeHeader(base.(payloadLength := length), length) == EncodeHeader(base, length)
    ensures EncodeTrailer(base.(payloadLength := length)) == EncodeTrailer(base)
  {
  }

  method WriteFlags(writer: BinaryWriter, v: Byte)
    modifies writer
    ensures writer.data == old(writer.data) + EncodeAll(NumberTlv(MSG_FLAGS, v, 1))
  {
    if v != 0 {
      writer.WriteUint8(MSG_FLAGS);
      writer.WriteUint8(1);
      writer.WriteUint8(v);
      assert BigEndian(v, 1) == BigEndian(v / 256, 0) + [v];
      EncodeOne(Tlv(MSG_FLAGS, BigEndian(v, 1)));
    }
  }

  /** At most 31 neighbour ids go out, as one field; more than that and none does. */
  method WriteNeighbours(writer: BinaryWriter, ids: seq<U64>)
    modifies writer
    ensures writer.data == old(writer.data) + EncodeAll(NeighbourTlvs(ids))
  {
    if 0 < |ids| <= 31 {
      writer.WriteUint8(ANN_NEIGHBOURS);
      writer.WriteUint8(if |ids| * 8 < 248 then |ids| * 8 else 248);
      ghost var start := writer.data;
      for i := 0 to |ids|
        invariant writer.data + EncodeIds(ids[i..]) == start + EncodeIds(ids)
      {
        assert ids[i..][1..] == ids[i + 1..];
        ghost var before := writer.data;
        writer.WriteUint64(ids[i]);
        assert before + (BigEndian(ids[i], 8) + EncodeIds(ids[i + 1..])) == writer.data + EncodeIds(ids[i + 1..]);
      }
      assert writer.data == start + EncodeIds(ids);
      EncodeOne(Tlv(ANN_NEIGHBOURS, EncodeIds(ids)));
    }
  }

  class Message {
    var base: Header
    var body: Body

    ghost predicate Valid()
      reads this
    {
      body.MessageBody?
    }

    ghost function At(reader: BinaryReader): Cursor
      reads this, reader
    {
      Cursor(base, body, reader.pos)
    }

    constructor Parse(version: Byte, reader: BinaryReader)
      requires reader.Valid() && Fits(reader.buffer, EMPTY_MESSAGE)
      modifies reader
      ensures Valid() && reader.Valid()
      ensures At(reader) == ParsePacket(reader.buffer, TYPE_MESSAGE, version, old(reader.pos))
    {
      base := Header(TYPE_MESSAGE, 0, 0, 0, 0, 0, 0, 0, [], [], false);
      body := EMPTY_MESSAGE;
      new;
      ReadAll(version, reader);
    }

    method ReadAll(version: Byte, reader: BinaryReader)
      requires reader.Valid() && Fits(reader.buffer, EMPTY_MESSAGE)
      requires body == EMPTY_MESSAGE
      modifies this, reader
      ensures Valid() && reader.Valid()
      ensures At(reader) == ParsePacket(reader.buffer, TYPE_MESSAGE, version, old(reader.pos))
    {
      hide ParseHeader, Step, TlvLoop, TakeSignature, OwnLength;
      base := ReadHeader(TYPE_MESSAGE, version, reader);
      ReadPayload(reader);
      base := ReadSignature(base, body, reader);
    }

    /** The do-while loop of the parsing constructor. */
    method ReadPayload(reader: BinaryReader)
      requires Valid() && reader.Valid() && Fits(reader.buffer, body)
      modifies this, reader
      ensures Valid() && reader.Valid()
      ensures At(reader) == TlvLoop(reader.buffer, Remainder(reader.buffer, old(reader.pos)), old(At(reader)))
    {
      hide Step, OwnLength;
      var tail := reader.ReadRemainderLen();
      ghost var whole := TlvLoop(reader.buffer, tail, At(reader));
      var again := true;
      while again
        invariant Valid() && reader.Valid()
        invariant again ==> Fits(reader.buffer, body) && TlvLoop(reader.buffer, tail, At(reader)) == whole
        invariant !again ==> At(reader) == whole
        decreases if again then Left(reader.buffer, reader.pos) + 1 else 0
      {
        StepProgress(reader.buffer, At(reader));
        ReadField(reader);
        var remainder := reader.ReadRemainderLen();
        again := false;
        if !base.malformed {
          var payload := GetPayloadLength();
          again := remainder > (tail - payload) % 0x1_0000_0000;
        }
      }
    }

    /** One round of the loop. */
    method ReadField(reader: BinaryReader)
      requires Valid() && reader.Valid()
      modifies this, reader
      ensures Valid() && reader.Valid()
      ensures At(reader) == Step(reader.buffer, old(At(reader)))
    {
      Widths();
      var ty := reader.ReadUint8();
      var length := reader.ReadUint8();
      ReadAtIsByteAt(reader.buffer, reader.pos);
      if ty == MSG_FLAGS {
        if length == 1 {
          var v := reader.ReadUint8();
          body := body.(messageFlags := v);
        } else {
          base := base.(malformed := true);
        }
      } else if ty == MSG_REPLY_TO {
        if length == 4 {
          var v := reader.ReadUint32();
          body := body.(replyId := v);
        } else {
          base := base.(malformed := true);
        }
      } else if ty == MSG_LATITUDE {
        if length == 4 {
          var v := reader.ReadInt32();
          body := WithLatitude(body, v);
        } else {
          base := base.(malformed := true);
        }
      } else if ty == MSG_LONGITUDE {
        if length == 4 {
          var v := reader.ReadInt32();
          body := WithLongitude(body, v);
        } else {
          base := base.(malformed := true);
        }
      } else if ty == MSG_ALTITUDE {
        if length == 4 {
          var v := reader.ReadInt32();
          body := WithAltitude(body, v);
        } else {
          base := base.(malformed := true);
        }
      } else {
        var data := reader.ReadData(length);
        match data
        case Found(bytes) =>
          if ty == MSG_ID {
            body := body.(id := bytes);
          } else if ty == MSG_CONTENT {
            body := body.(content := bytes);
          } else if ty == MSG_NICKNAME {
            body := body.(nickname := bytes);
          } else if ty == MSG_CHANNEL {
            body := body.(channel := bytes);
          } else if ty == MSG_CHANNEL_CONTENT {
            body := body.(content := bytes);
          }
        case Missing =>
          base := base.(malformed := true);
      }
    }

    method GetPayloadLength() returns (length: U32)
      requires Valid()
      modifies this`base
      ensures length == PayloadLength(old(base), body)
      ensures base == old(base).(payloadLength := length)
    {
      hide TextLength, NumberLength, LocationLength, NeighboursLength;
      if base.payloadLength > 0 {
        return base.payloadLength;
      }
      length := TextLength(body.id);
      length := length + TextLength(body.nickname);
      length := length + TextLength(body.channel);
      length := length + TextLength(body.content);
      length := length + NumberLength(body.messageFlags, 1);
      length := length + NumberLength(body.replyId, 4);
      length := length + LocationLength(body);
      base := base.(payloadLength := length);
    }

    method WritePacketPayload(writer: BinaryWriter)
      requires Valid()
      modifies writer
      ensures writer.data == old(writer.data) + EncodeAll(Tlvs(body))
    {
      hide EncodeAll, TextTlv, NumberTlv, LocationTlvs;
      ghost var start := writer.data;
      WriteText(writer, MSG_ID, body.id);
      WriteText(writer, MSG_NICKNAME, body.nickname);
      ghost var ts := TextTlv(MSG_ID, body.id) + TextTlv(MSG_NICKNAME, body.nickname);
      EncodeConcat(TextTlv(MSG_ID, body.id), TextTlv(MSG_NICKNAME, body.nickname));
      ghost var said := TextTlv(MSG_CONTENT, body.content);
      if body.channel != [] && body.content != [] {
        WriteText(writer, MSG_CHANNEL, body.channel);
        WriteText(writer, MSG_CHANNEL_CONTENT, body.content);
        said := TextTlv(MSG_CHANNEL, body.channel) + TextTlv(MSG_CHANNEL_CONTENT, body.content);
        EncodeConcat(TextTlv(MSG_CHANNEL, body.channel), TextTlv(MSG_CHANNEL_CONTENT, body.content));
      } else {
        WriteText(writer, MSG_CONTENT, body.content);
      }
      EncodeConcat(ts, said);
      assert writer.data == start + EncodeAll(ts + said);
      WriteFlags(writer, body.messageFlags);
      EncodeConcat(ts + said, NumberTlv(MSG_FLAGS, body.messageFlags, 1));
      ts := ts + said + NumberTlv(MSG_FLAGS, body.messageFlags, 1);
      assert writer.data == start + EncodeAll(ts);
      WriteNumber(writer, MSG_REPLY_TO, body.replyId);
      EncodeConcat(ts, NumberTlv(MSG_REPLY_TO, body.replyId, 4));
      ts := ts + NumberTlv(MSG_REPLY_TO, body.replyId, 4);
      assert writer.data == start + EncodeAll(ts);
      WriteLocation(writer, MSG_LATITUDE, MSG_LONGITUDE, MSG_ALTITUDE, body);
      EncodeConcat(ts, LocationTlvs(MSG_LATITUDE, MSG_LONGITUDE, MSG_ALTITUDE, body));
    }

    /** The whole frame; the payload length is stored on the way. */
    method Write(writer: BinaryWriter)
      requires Valid() && |base.signature| < 0x1_0000
      modifies this`base, writer
      ensures writer.data == old(writer.data) + WritePacket(Packet(old(base), body))
      ensures base == old(base).(payloadLength := PayloadLength(old(base), body))
    {
      hide EncodeHeader, EncodeAll, EncodeTrailer, Tlvs, PayloadLength;
      var length := GetPayloadLength();
      HeaderIgnoresLength(old(base), length);
      WriteHeader(writer, base, length);
      WritePacketPayload(writer);
      WriteTrailer(writer, base);
    }
  }

  class Announce {
    var base: Header
    var body: Body

    ghost predicate Valid()
      reads this
    {
      body.AnnounceBody?
    }

    ghost function At(reader: BinaryReader): Cursor
      reads this, reader
    {
      Cursor(base, body, reader.pos)
    }

    constructor Parse(version: Byte, reader: BinaryReader)
      requires reader.Valid() && Fits(reader.buffer, EMPTY_ANNOUNCE)
      modifies reader
      ensures Valid() && reader.Valid()
      ensures At(reader) == ParsePacket(reader.buffer, TYPE_ANNOUNCE, version, old(reader.pos))
    {
      base := Header(TYPE_ANNOUNCE, 0, 0, 0, 0, 0, 0, 0, [], [], false);
      body := EMPTY_ANNOUNCE;
      new;
      ReadAll(version, reader);
    }

    method ReadAll(version: Byte, reader: BinaryReader)
      requires reader.Valid() && Fits(reader.buffer, EMPTY_ANNOUNCE)
      requires body == EMPTY_ANNOUNCE
      modifies this, reader
      ensures Valid() && reader.Valid()
      ensures At(reader) == ParsePacket(reader.buffer, TYPE_ANNOUNCE, version, old(reader.pos))
    {
      hide ParseHeader, Step, TlvLoop, TakeSignature, OwnLength;
      base := ReadHeader(TYPE_ANNOUNCE, version, reader);
      ReadPayload(reader);
      base := ReadSignature(base, body, reader);
    }

    /** The do-while loop of the parsing constructor. */
    method ReadPayload(reader: BinaryReader)
      requires Valid() && reader.Valid() && Fits(reader.buffer, body)
      modifies this, reader
      ensures Valid() && reader.Valid()
      ensures At(reader) == TlvLoop(reader.buffer, Remainder(reader.buffer, old(reader.pos)), old(At(reader)))
    {
      hide Step, OwnLength;
      var tail := reader.ReadRemainderLen();
      ghost var whole := TlvLoop(reader.buffer, tail, At(reader));
      var again := true;
      while again
        invariant Valid() && reader.Valid()
        invariant again ==> Fits(reader.buffer, body) && TlvLoop(reader.buffer, tail, At(reader)) == whole
        invariant !again ==> At(reader) == whole
        decreases if again then Left(reader.buffer, reader.pos) + 1 else 0
      {
        StepProgress(reader.buffer, At(reader));
        ReadField(reader);
        var remainder := reader.ReadRemainderLen();
        again := false;
        if !base.malformed {
          var payload := GetPayloadLength();
          again := remainder > (tail - payload) % 0x1_0000_0000;
        }
      }
    }

    /** One round of the loop. */
    method ReadField(reader: BinaryReader)
      requires Valid() && reader.Valid()
      modifies this, reader
      ensures Valid() && reader.Valid()
      ensures At(reader) == Step(reader.buffer, old(At(reader)))
    {
      Widths();
      var ty := reader.ReadUint8();
      var length := reader.ReadUint8();
      if ty == ANN_LATITUDE {
        if length == 4 {
          var v := reader.ReadInt32();
          body := WithLatitude(body, v);
        } else {
          base := base.(malformed := true);
        }
      } else if ty == ANN_LONGITUDE {
        if length == 4 {
          var v := reader.ReadInt32();
          body := WithLongitude(body, v);
        } else {
          base := base.(malformed := true);
        }
      } else if ty == ANN_ALTITUDE {
        if length == 4 {
          var v := reader.ReadInt32();
          body := WithAltitude(body, v);
        } else {
          base := base.(malformed := true);
        }
      } else if ty == ANN_NEIGHBOURS {
        ReadNeighbours(reader, length);
      } else {
        var data := reader.ReadData(length);
        match data
        case Found(bytes) =>
          if ty == ANN_NICKNAME {
            body := body.(name := bytes);
          } else if ty == ANN_NOISE_KEY {
            body := body.(noiseKey := bytes);
          } else if ty == ANN_SIGNING_KEY {
            body := body.(signingKey := bytes);
          }
        case Missing =>
          base := base.(malformed := true);
      }
    }

    /** The nested loop: 8 bytes at a time until the declared length is covered. */
    method ReadNeighbours(reader: BinaryReader, length: Byte)
      requires Valid() && reader.Valid()
      modifies this`body, reader
      ensures Valid() && reader.Valid()
      ensures body == old(body).(neighbours := old(body).neighbours
              + ReadRoute(reader.buffer, old(reader.pos), IdCount(length)))
      ensures reader.pos == AfterIds(old(reader.pos), IdCount(length))
    {
      hide IdCount, ReadAt, Advance, ReadRoute, AfterIds;
      ghost var n := 0;
      var i := 0;
      while i < length
        invariant i == 8 * n && n <= IdCount(length)
        invariant Valid() && reader.Valid()
        invariant body == old(body).(neighbours := body.neighbours)
        invariant body.neighbours + ReadRoute(reader.buffer, reader.pos, IdCount(length) - n)
               == old(body).neighbours + ReadRoute(reader.buffer, old(reader.pos), IdCount(length))
        invariant AfterIds(reader.pos, IdCount(length) - n) == AfterIds(old(reader.pos), IdCount(length))
      {
        RouteNext(reader.buffer, reader.pos, IdCount(length) - n);
        var id := reader.ReadUint64();
        Append3(body.neighbours, [id], ReadRoute(reader.buffer, reader.pos, IdCount(length) - n - 1));
        body := body.(neighbours := body.neighbours + [id]);
        i, n := i + 8, n + 1;
      }
      NoMoreIds(reader.buffer, reader.pos, body.neighbours);
    }

    method GetPayloadLength() returns (length: U32)
      requires Valid()
      modifies this`base
      ensures length == PayloadLength(old(base), body)
      ensures base == old(base).(payloadLength := length)
    {
      hide TextLength, NumberLength, LocationLength, NeighboursLength;
      if base.payloadLength > 0 {
        return base.payloadLength;
      }
      length := TextLength(body.name);
      length := length + TextLength(body.noiseKey);
      length := length + TextLength(body.signingKey);
      length := length + NeighboursLength(body.neighbours);
      length := length + LocationLength(body);
      base := base.(payloadLength := length);
    }

    method WritePacketPayload(writer: BinaryWriter)
      requires Valid()
      modifies writer
      ensures writer.data == old(writer.data) + EncodeAll(Tlvs(body))
    {
      hide EncodeAll, TextTlv, NumberTlv, LocationTlvs;
      ghost var start := writer.data;
      ghost var names := TextTlv(ANN_NICKNAME, body.name) + TextTlv(ANN_NOISE_KEY, body.noiseKey);
      WriteText(writer, ANN_NICKNAME, body.name);
      WriteText(writer, ANN_NOISE_KEY, body.noiseKey);
      EncodeConcat(TextTlv(ANN_NICKNAME, body.name), TextTlv(ANN_NOISE_KEY, body.noiseKey));
      WriteText(writer, ANN_SIGNING_KEY, body.signingKey);
      EncodeConcat(names, TextTlv(ANN_SIGNING_KEY, body.signingKey));
      ghost var ts := names + TextTlv(ANN_SIGNING_KEY, body.signingKey);
      assert writer.data == start + EncodeAll(ts);
      WriteNeighbours(writer, body.neighbours);
      EncodeConcat(ts, NeighbourTlvs(body.neighbours));
      ts := ts + NeighbourTlvs(body.neighbours);
      assert writer.data == start + EncodeAll(ts);
      WriteLocation(writer, MSG_LATITUDE, MSG_LONGITUDE, MSG_ALTITUDE, body);
      EncodeConcat(ts, LocationTlvs(MSG_LATITUDE, MSG_LONGITUDE, MSG_ALTITUDE, body));
    }

    /** The whole frame; the payload length is stored on the way. */
    method Write(writer: BinaryWriter)
      requires Valid() && |base.signature| < 0x1_0000
      modifies this`base, writer
      ensures writer.data == old(writer.data) + WritePacket(Packet(old(base), body))
      ensures base == old(base).(payloadLength := PayloadLength(old(base), body))
    {
      hide EncodeHeader, EncodeAll, EncodeTrailer, Tlvs, PayloadLength;
      var length := GetPayloadLength();
      HeaderIgnoresLength(old(base), length);
      WriteHeader(writer, base, length);
      WritePacketPayload(writer);
      WriteTrailer(writer, base);
    }
  }

  class MicroMeshPreferences {
    var base: Header
    var body: Body

    ghost predicate Valid()
      reads this
    {
      body.PreferencesBody?
    }

    ghost function At(reader: BinaryReader): Cursor
      reads this, reader
    {
      Cursor(base, body, reader.pos)
    }

    constructor Parse(version: Byte, reader: BinaryReader)
      requires reader.Valid() && Fits(reader.buffer, EMPTY_PREFERENCES)
      modifies reader
      ensures Valid() && reader.Valid()
      ensures At(reader) == ParsePacket(reader.buffer, TYPE_PREFERENCES, version, old(reader.pos))
    {
      base := Header(TYPE_PREFERENCES, 0, 0, 0, 0, 0, 0, 0, [], [], false);
      body := EMPTY_PREFERENCES;
      new;
      ReadAll(version, reader);
    }

    method ReadAll(version: Byte, reader: BinaryReader)
      requires reader.Valid() && Fits(reader.buffer, EMPTY_PREFERENCES)
      requires body == EMPTY_PREFERENCES
      modifies this, reader
      ensures Valid() && reader.Valid()
      ensures At(reader) == ParsePacket(reader.buffer, TYPE_PREFERENCES, version, old(reader.pos))
    {
      hide ParseHeader, Step, TlvLoop, TakeSignature, OwnLength;
      base := ReadHeader(TYPE_PREFERENCES, version, reader);
      ReadPayload(reader);
      base := ReadSignature(base, body, reader);
    }

    /** The do-while loop of the parsing constructor. */
    method ReadPayload(reader: BinaryReader)
      requires Valid() && reader.Valid() && Fits(reader.buffer, body)
      modifies this, reader
      ensures Valid() && reader.Valid()
      ensures At(reader) == TlvLoop(reader.buffer, Remainder(reader.buffer, old(reader.pos)), old(At(reader)))
    {
      hide Step, OwnLength;
      var tail := reader.ReadRemainderLen();
      ghost var whole := TlvLoop(reader.buffer, tail, At(reader));
      var again := true;
      while again
        invariant Valid() && reader.Valid()
        invariant again ==> Fits(reader.buffer, body) && TlvLoop(reader.buffer, tail, At(reader)) == whole
        invariant !again ==> At(reader) == whole
        decreases if again then Left(reader.buffer, reader.pos) + 1 else 0
      {
        StepProgress(reader.buffer, At(reader));
        ReadField(reader);
        var remainder := reader.ReadRemainderLen();
        again := false;
        if !base.malformed {
          var payload := GetPayloadLength();
          again := remainder > (tail - payload) % 0x1_0000_0000;
        }
      }
    }

    /** One round of the loop. */
    method ReadField(reader: BinaryReader)
      requires Valid() && reader.Valid()
      modifies this, reader
      ensures Valid() && reader.Valid()
      ensures At(reader) == Step(reader.buffer, old(At(reader)))
    {
      Widths();
      var ty := reader.ReadUint8();
      var length := reader.ReadUint8();
      if ty == PREF_LATITUDE {
        if length == 4 {
          var v := reader.ReadInt32();
          body := WithLatitude(body, v);
        } else {
          base := base.(malformed := true);
        }
      } else if ty == PREF_LONGITUDE {
        if length == 4 {
          var v := reader.ReadInt32();
          body := WithLongitude(body, v);
        } else {
          base := base.(malformed := true);
        }
      } else if ty == PREF_ALTITUDE {
        if length == 4 {
          var v := reader.ReadInt32();
          body := WithAltitude(body, v);
        } else {
          base := base.(malformed := true);
        }
      } else {
        var data := reader.ReadData(length);
        match data
        case Found(bytes) =>
          if ty == PREF_KEY {
            body := body.(key := bytes);
          } else if ty == PREF_SSID {
            body := body.(ssid := bytes);
          } else if ty == PREF_PASSWORD {
            body := body.(password := bytes);
          }
        case Missing =>
          base := base.(malformed := true);
      }
    }

    method GetPayloadLength() returns (length: U32)
      requires Valid()
      modifies this`base
      ensures length == PayloadLength(old(base), body)
      ensures base == old(base).(payloadLength := length)
    {
      hide TextLength, NumberLength, LocationLength, NeighboursLength;
      if base.payloadLength > 0 {
        return base.payloadLength;
      }
      length := TextLength(body.key);
      length := length + TextLength(body.ssid);
      length := length + TextLength(body.password);
      length := length + LocationLength(body);
      base := base.(payloadLength := length);
    }

    method WritePacketPayload(writer: BinaryWriter)
      requires Valid()
      modifies writer
      ensures writer.data == old(writer.data) + EncodeAll(Tlvs(body))
    {
      hide EncodeAll, TextTlv, NumberTlv, LocationTlvs;
      ghost var start := writer.data;
      ghost var names := TextTlv(PREF_KEY, body.key) + TextTlv(PREF_SSID, body.ssid);
      WriteText(writer, PREF_KEY, body.key);
      WriteText(writer, PREF_SSID, body.ssid);
      EncodeConcat(TextTlv(PREF_KEY, body.key), TextTlv(PREF_SSID, body.ssid));
      WriteText(writer, PREF_PASSWORD, body.password);
      EncodeConcat(names, TextTlv(PREF_PASSWORD, body.password));
      ghost var ts := names + TextTlv(PREF_PASSWORD, body.password);
      assert writer.data == start + EncodeAll(ts);
      WriteLocation(writer, PREF_LATITUDE, PREF_LONGITUDE, PREF_ALTITUDE, body);
      EncodeConcat(ts, LocationTlvs(PREF_LATITUDE, PREF_LONGITUDE, PREF_ALTITUDE, body));
    }

    /** The whole frame; the payload length is stored on the way. */
    method Write(writer: BinaryWriter)
      requires Valid() && |base.signature| < 0x1_0000
      modifies this`base, writer
      ensures writer.data == old(writer.data) + WritePacket(Packet(old(base), body))
      ensures base == old(base).(payloadLength := PayloadLength(old(base), body))
    {
      hide EncodeHeader, EncodeAll, EncodeTrailer, Tlvs, PayloadLength;
      var length := GetPayloadLength();
      HeaderIgnoresLength(old(base), length);
      WriteHeader(writer, base, length);
      WritePacketPayload(writer);
      WriteTrailer(writer, base);
    }
  }
}
