/** The cursor-based reader and the appending writer of packet bytes. */
module BinaryIO {
  import opened Bytes

  // ---- what a read returns and where it leaves the cursor ------------------------------------

  /** The cursor is 16 bits wide and wraps. */
  function Advance(pos: nat, k: nat): (r: U16)
    ensures pos + k < 0x1_0000 ==> r == pos + k
  {
    (pos + k) % 0x1_0000
  }

  /** A `k`-byte integer at `pos`; zero when it does not lie inside the buffer. */
  function ReadAt(buf: seq<Byte>, pos: nat, k: nat): (v: nat)
    ensures v < Pow256(k)
  {
    if pos + k > |buf| then 0 else
    FromBigEndianBound(buf[pos..pos + k]);
    FromBigEndian(buf[pos..pos + k])
  }

  function ByteAt(buf: seq<Byte>, pos: nat): Byte {
    if pos + 1 > |buf| then 0 else buf[pos]
  }

  lemma ReadAtIsByteAt(buf: seq<Byte>, pos: nat)
    ensures ReadAt(buf, pos, 1) == ByteAt(buf, pos)
  {
    if pos + 1 <= |buf| {
      var s := buf[pos..pos + 1];
      assert s[..0] == [] && s[0] == buf[pos];
      assert FromBigEndian(s) == 256 * FromBigEndian(s[..0]) + s[0];
    }
  }

  /** A read that lies inside the buffer sees the bytes there, whatever follows. */
  lemma ReadAtSlice(buf: seq<Byte>, pos: nat, k: nat, v: nat)
    requires pos + k <= |buf| && v < Pow256(k)
    requires buf[pos..pos + k] == BigEndian(v, k)
    ensures ReadAt(buf, pos, k) == v
  {
    BigEndianRoundTrip(v, k);
  }

  lemma Digits2(s: seq<Byte>)
    requires |s| == 2
    ensures FromBigEndian(s) == s[0] as int * 0x100 + s[1]
  {
    ReadAtIsByteAt(s[..1], 0);
    assert s[..1][0..1] == s[..1];
  }

  lemma Digits4(s: seq<Byte>)
    requires |s| == 4
    ensures FromBigEndian(s) == s[0] as int * 0x100_0000 + s[1] as int * 0x1_0000 + s[2] as int * 0x100 + s[3]
  {
    Digits2(s[..2]);
    assert s[..3][..2] == s[..2];
    assert FromBigEndian(s[..3]) == 256 * FromBigEndian(s[..2]) + s[2];
  }

  lemma Digits8(s: seq<Byte>)
    requires |s| == 8
    ensures FromBigEndian(s) == s[0] as int * 0x100_0000_0000_0000 + s[1] as int * 0x1_0000_0000_0000
                              + s[2] as int * 0x100_0000_0000 + s[3] as int * 0x1_0000_0000
                              + s[4] as int * 0x100_0000 + s[5] as int * 0x1_0000
                              + s[6] as int * 0x100 + s[7]
  {
    Digits4(s[..4]);
    assert s[..5][..4] == s[..4] && s[..6][..5] == s[..5] && s[..7][..6] == s[..6];
    assert FromBigEndian(s[..5]) == 256 * FromBigEndian(s[..4]) + s[4];
    assert FromBigEndian(s[..6]) == 256 * FromBigEndian(s[..5]) + s[5];
    assert FromBigEndian(s[..7]) == 256 * FromBigEndian(s[..6]) + s[6];
  }

  class BinaryReader {
    const buffer: seq<Byte>
    var pos: U16

    ghost predicate Valid()
      reads this
    {
      |buffer| < 0x1_0000
    }

    constructor (offset: U16, buffer: seq<Byte>)
      requires |buffer| < 0x1_0000
      ensures Valid() && this.buffer == buffer && pos == offset
    {
      this.buffer := buffer;
      pos := offset;
    }

    method ReadUint8() returns (v: Byte)
      requires Valid()
      modifies this`pos
      ensures Valid() && pos == Advance(old(pos), 1) && v == ByteAt(buffer, old(pos))
    {
      if pos + 1 > |buffer| {
        pos := (pos + 1) % 0x1_0000;
        return 0;
      }
      v := buffer[pos];
      pos := (pos + 1) % 0x1_0000;
    }

    method ReadUint16() returns (v: U16)
      requires Valid()
      modifies this`pos
      ensures Valid() && pos == Advance(old(pos), 2) && v == ReadAt(buffer, old(pos), 2)
    {
      if pos + 2 > |buffer| {
        pos := (pos + 2) % 0x1_0000;
        return 0;
      }
      Digits2(buffer[pos..pos + 2]);
      v := buffer[pos] as int * 0x100 + buffer[pos + 1];
      pos := (pos + 2) % 0x1_0000;
    }

    method ReadUint32() returns (v: U32)
      requires Valid()
      modifies this`pos
      ensures Valid() && pos == Advance(old(pos), 4) && v == ReadAt(buffer, old(pos), 4)
    {
      if pos + 4 > |buffer| {
        pos := (pos + 4) % 0x1_0000;
        return 0;
      }
      Digits4(buffer[pos..pos + 4]);
      v := buffer[pos] as int * 0x100_0000 + buffer[pos + 1] as int * 0x1_0000 + buffer[pos + 2] as int * 0x100
          + buffer[pos + 3];
      pos := (pos + 4) % 0x1_0000;
    }

    method ReadInt32() returns (v: I32)
      requires Valid()
      modifies this`pos
      ensures Valid() && pos == Advance(old(pos), 4)
      ensures ReadAt(buffer, old(pos), 4) < 0x1_0000_0000 && v == ToSigned(ReadAt(buffer, old(pos), 4))
    {
      var bits := ReadUint32();
      v := ToSigned(bits);
    }

    method ReadUint64() returns (v: U64)
      requires Valid()
      modifies this`pos
      ensures Valid() && pos == Advance(old(pos), 8) && v == ReadAt(buffer, old(pos), 8)
    {
      if pos + 8 > |buffer| {
        pos := (pos + 8) % 0x1_0000;
        return 0;
      }
      Digits8(buffer[pos..pos + 8]);
      v := buffer[pos] as int * 0x100_0000_0000_0000 + buffer[pos + 1] as int * 0x1_0000_0000_0000
         + buffer[pos + 2] as int * 0x100_0000_0000 + buffer[pos + 3] as int * 0x1_0000_0000
         + buffer[pos + 4] as int * 0x100_0000 + buffer[pos + 5] as int * 0x1_0000
             + buffer[pos + 6] as int * 0x100 + buffer[pos + 7];
      pos := (pos + 8) % 0x1_0000;
    }

    method ReadRemainderLen() returns (len: U16)
      requires Valid()
      ensures len == Remainder(buffer, pos)
    {
      len := (|buffer| - pos) % 0x1_0000;
    }

    /** The cursor moves even when the data is not there. */
    method ReadData(len: nat) returns (data: Data)
      requires Valid() && len < 0x1_0000
      modifies this`pos
      ensures Valid() && pos == Advance(old(pos), len)
      ensures data == DataAt(buffer, old(pos), len)
    {
      if pos + len > |buffer| {
        pos := (pos + len) % 0x1_0000;
        return Missing;
      }
      data := Found(buffer[pos..pos + len]);
      pos := (pos + len) % 0x1_0000;
    }
  }

  /** A pointer into the buffer, or null. */
  datatype Data = Missing | Found(bytes: seq<Byte>)

  function DataAt(buf: seq<Byte>, pos: nat, len: nat): Data {
    if pos + len > |buf| then Missing else Found(buf[pos..pos + len])
  }

  /** Unread bytes, as an unsigned 16-bit difference: huge once the cursor is past the end. */
  function Remainder(buf: seq<Byte>, pos: nat): (r: U16)
    ensures pos <= |buf| < 0x1_0000 ==> r == |buf| - pos
    ensures |buf| < pos < 0x1_0000 ==> r == 0x1_0000 - (pos - |buf|)
  {
    (|buf| - pos) % 0x1_0000
  }

  // ---- writing ---------------------------------------------------------------------------------

  lemma Bytes2(v: nat)
    ensures BigEndian(v, 2) == [v / 0x100 % 256, v % 256]
  {
    assert BigEndian(v / 0x100, 1) == BigEndian(v / 0x100 / 256, 0) + [v / 0x100 % 256];
  }

  lemma Bytes4(v: nat)
    ensures BigEndian(v, 4) == [v / 0x100_0000 % 256, v / 0x1_0000 % 256, v / 0x100 % 256, v % 256]
  {
    assert v / 256 / 256 == v / 0x1_0000;
    assert v / 0x1_0000 / 0x100 == v / 0x100_0000;
    Bytes2(v / 0x1_0000);
    assert BigEndian(v, 4) == BigEndian(v / 256, 3) + [v % 256];
    assert BigEndian(v / 256, 3) == BigEndian(v / 256 / 256, 2) + [v / 256 % 256];
  }

  lemma Bytes8(v: nat)
    ensures BigEndian(v, 8) ==
            [v / 0x100_0000_0000_0000 % 256, v / 0x1_0000_0000_0000 % 256, v / 0x100_0000_0000 % 256,
             v / 0x1_0000_0000 % 256, v / 0x100_0000 % 256, v / 0x1_0000 % 256, v / 0x100 % 256, v % 256]
  {
    var h := v / 0x1_0000_0000;
    Bytes4(h);
    assert h / 0x100_0000 == v / 0x100_0000_0000_0000;
    assert h / 0x1_0000 == v / 0x1_0000_0000_0000;
    assert h / 0x100 == v / 0x100_0000_0000;
    assert v / 256 / 256 == v / 0x1_0000;
    assert v / 0x1_0000 / 256 == v / 0x100_0000;
    assert v / 0x100_0000 / 256 == h;
    assert BigEndian(v, 8) == BigEndian(v / 256, 7) + [v % 256];
    assert BigEndian(v / 256, 7) == BigEndian(v / 0x1_0000, 6) + [v / 256 % 256];
    assert BigEndian(v / 0x1_0000, 6) == BigEndian(v / 0x100_0000, 5) + [v / 0x1_0000 % 256];
    assert BigEndian(v / 0x100_0000, 5) == BigEndian(h, 4) + [v / 0x100_0000 % 256];
  }

  class BinaryWriter {
    var data: seq<Byte>

    constructor ()
      ensures data == []
    {
      data := [];
    }

    method WriteUint8(value: Byte)
      modifies this
      ensures data == old(data) + [value]
    {
      data := data + [value];
    }

    method WriteUint16(value: U16)
      modifies this
      ensures data == old(data) + BigEndian(value, 2)
    {
      Bytes2(value);
      data := data + [value / 0x100 % 256];
      data := data + [value % 256];
    }

    method WriteUint32(value: U32)
      modifies this
      ensures data == old(data) + BigEndian(value, 4)
    {
      Bytes4(value);
      data := data + [value / 0x100_0000 % 256];
      data := data + [value / 0x1_0000 % 256];
      data := data + [value / 0x100 % 256];
      data := data + [value % 256];
    }

    /** Takes its argument through the conversion to uint32_t. */
    method WriteInt32(value: I32)
      modifies this
      ensures data == old(data) + BigEndian(ToUnsigned(value), 4)
    {
      WriteUint32(ToUnsigned(value));
    }

    method WriteUint64(value: U64)
      modifies this
      ensures data == old(data) + BigEndian(value, 8)
    {
      Bytes8(value);
      data := data + [value / 0x100_0000_0000_0000 % 256];
      data := data + [value / 0x1_0000_0000_0000 % 256];
      data := data + [value / 0x100_0000_0000 % 256];
      data := data + [value / 0x1_0000_0000 % 256];
      data := data + [value / 0x100_0000 % 256];
      data := data + [value / 0x1_0000 % 256];
      data := data + [value / 0x100 % 256];
      data := data + [value % 256];
    }

    method WriteData(bytes: seq<Byte>, len: nat)
      requires len <= |bytes| && len < 0x1_0000
      modifies this
      ensures data == old(data) + bytes[..len]
    {
      for i := 0 to len
        invariant data == old(data) + bytes[..i]
      {
        data := data + [bytes[i]];
      }
    }
  }
}
