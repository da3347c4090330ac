/** Messages as they travel: which ones survive the air unchanged, and that the messages a node makes
    of its own are among them. */
module Wire {
  import opened Bytes
  import opened BinaryIO
  import opened PacketFormat
  import opened RoundTrip
  import opened Frames
  import Tracking = TrackerState

  /** A message that comes back from its frame with every field of its body. */
  predicate Wireable(p: Packet) {
    && p.body.MessageBody? && Typed(p) && Fresh(p) && !Signed(p) && !p.base.malformed
    && Framed(p.body) && OwnLength(p.body) > 0 && Canonical(p.body) == p.body
  }

  /** What arrives of it. */
  function Arrived(p: Packet): Packet {
    Packet(ParsedHeader(p.base, OwnLength(p.body)), p.body)
  }

  /** The frame starts with version 1 and the packet's type. */
  lemma FrameStart(p: Packet)
    ensures ByteAt(WritePacket(p), 0) == 1 && ByteAt(WritePacket(p), 1) == p.base.ptype
  {
    hide HasBit, EncodeAll, Tlvs, OwnLength, BigEndian;
    var h := EncodeHeader(p.base, PayloadLength(p.base, p.body));
    assert WritePacket(p)[0] == h[0] && WritePacket(p)[1] == h[1];
  }

  /** A wireable message arrives as one, and is written as the same frame again. */
  lemma ArrivedIsWireable(p: Packet)
    requires Wireable(p)
    ensures Wireable(Arrived(p)) && WritePacket(Arrived(p)) == WritePacket(p)
  {
    hide HasBit, EncodeAll, Tlvs, OwnLength, Canonical, Framed;
    SameHeader(p.base, OwnLength(p.body));
  }

  lemma SameHeader(base: Header, payload: U16)
    ensures EncodeHeader(ParsedHeader(base, payload), payload) == EncodeHeader(base, payload)
    ensures !HasBit(base.flags, FLAG_HAS_SIGNATURE) ==>
              EncodeTrailer(ParsedHeader(base, payload)) == EncodeTrailer(base)
  {
    hide BigEndian;
  }

  /** Its frame is parsed back into it. */
  lemma WireRoundTrip(p: Packet)
    requires Wireable(p)
    ensures Tracking.Readable(WritePacket(p), 0)
    ensures Tracking.Parsed(WritePacket(p), 0) == Tracking.Some(Arrived(p))
  {
    hide ParsePacket, WritePacket, HasBit, EncodeAll, Tlvs, OwnLength, Canonical, Framed, PayloadEnd, ByteAt;
    FrameStart(p);
    SmallUnsignedFrame(p);
    assert WritePacket(p) + [] == WritePacket(p);
    UnsignedRoundTrip(p, []);
  }

  /** The connection it came from does not matter, and the ttl is one byte of the frame. */
  lemma WireableRelayed(p: Packet, ttl: Byte, handle: U16)
    requires Wireable(p)
    ensures var q := p.(base := p.base.(ttl := ttl, sendingHandle := handle));
            Wireable(q) && |WritePacket(p)| > 2 && WritePacket(q) == WritePacket(p)[2 := ttl]
  {
    hide HasBit, OwnLength, Canonical, Framed, WritePacket;
    WrittenWithTtl(p, ttl);
    SameFrame(WithTtl(p, ttl), handle);
  }

  lemma SameFrame(p: Packet, handle: U16)
    ensures WritePacket(p.(base := p.base.(sendingHandle := handle))) == WritePacket(p)
  {
    hide HasBit, EncodeAll, Tlvs, OwnLength, BigEndian;
  }

  // ---- a node's own messages ---------------------------------------------------------------------

  const SMOKE_CHANNEL: seq<Byte> := [0x23, 0x73, 0x6d, 0x6f, 0x6b, 0x65]
  const BOOTED: seq<Byte> := [0x42, 0x6f, 0x6f, 0x74, 0x65, 0x64]
  const STILL_ALIVE: seq<Byte> := [0x53, 0x74, 0x69, 0x6c, 0x6c, 0x20, 0x61, 0x6c, 0x69, 0x76, 0x65]
  const SMOKE_SEEN: seq<Byte> := [0x53, 0x6d, 0x6f, 0x6b, 0x65, 0x20, 0x73, 0x65, 0x65, 0x6e]
  const PLUS: Byte := 0x2b

  /** Why a message is sent. */
  datatype Reason = Reason(booted: bool, smoke: bool, alive: bool)

  function Content(why: Reason): (s: seq<Byte>)
    ensures |s| <= 40
  {
    (if why.booted then BOOTED else [])
    + (if why.booted && (why.alive || why.smoke) then [PLUS] else [])
    + (if why.alive then STILL_ALIVE else [])
    + (if why.smoke then (if why.alive then [PLUS] else []) + SMOKE_SEEN else [])
  }

  function Mark(why: Reason): Byte {
    if why.booted && why.smoke && why.alive then 0x2a
    else if why.booted && why.smoke then 0x2b
    else if why.smoke then 0x21
    else if why.alive then 0x2d
    else 0x3f
  }

  /** The clock to the minute, so that messages of one kind are not sent too close to each other. */
  function Minute(now: U64): (t: U64)
    ensures t <= now && t % 60_000 == 0
  {
    now / 60_000 * 60_000
  }

  function MessageId(time: U64, mark: Byte, sender: U64): (id: seq<Byte>)
    ensures |id| == 17
  {
    BigEndian(time, 8) + [mark] + BigEndian(sender, 8)
  }

  const INITIAL_TTL: Byte := 3

  function SmokeMessage(now: U64, why: Reason, sender: U64, nickname: seq<Byte>, at: Tracking.Location): Packet {
    Packet(Header(TYPE_MESSAGE, INITIAL_TTL, Minute(now), 0, 0, 0, sender, 0, [], [], false),
           MessageBody(MessageId(Minute(now), Mark(why), sender), nickname, Content(why), SMOKE_CHANNEL, 0, 0,
                       at.latitude, at.longitude, at.altitude))
  }

  function Code(c: char): Byte {
    c as int % 256
  }

  /** Characters as the bytes they are sent as. */
  function Ascii(s: string): (r: seq<Byte>)
    ensures |r| == |s|
  {
    seq(|s|, i requires 0 <= i < |s| => Code(s[i]))
  }

  lemma AsciiConcat(a: string, b: string)
    ensures Ascii(a + b) == Ascii(a) + Ascii(b)
  {
  }

  /** What a message says. */
  function Says(why: Reason): string {
    if why == Reason(true, false, false) then "Booted"
    else if why == Reason(false, true, false) then "Smoke seen"
    else if why == Reason(false, false, true) then "Still alive"
    else if why == Reason(true, true, false) then "Booted+Smoke seen"
    else if why == Reason(true, false, true) then "Booted+Still alive"
    else if why == Reason(false, true, true) then "Still alive+Smoke seen"
    else if why == Reason(true, true, true) then "Booted+Still alive+Smoke seen"
    else ""
  }

  /** How it is told from others of its minute. */
  function MarkedBy(why: Reason): char {
    if why == Reason(true, true, true) then '*'
    else if why == Reason(true, true, false) then '+'
    else if why.smoke then '!'
    else if why.alive then '-'
    else '?'
  }

  lemma Texts()
    ensures BOOTED == Ascii("Booted") && STILL_ALIVE == Ascii("Still alive") && SMOKE_SEEN == Ascii("Smoke seen")
    ensures SMOKE_CHANNEL == Ascii("#smoke") && [PLUS] == Ascii("+")
  {
  }

  /** The pieces of a text, in order. */
  lemma ContentParts(why: Reason, b: seq<Byte>, a: seq<Byte>, m: seq<Byte>, p: seq<Byte>)
    requires b == BOOTED && a == STILL_ALIVE && m == SMOKE_SEEN && p == [PLUS]
    ensures Content(why) == match why
                            case Reason(true, false, false) => b
                            case Reason(false, true, false) => m
                            case Reason(false, false, true) => a
                            case Reason(true, true, false) => b + (p + m)
                            case Reason(true, false, true) => b + (p + a)
                            case Reason(false, true, true) => a + (p + m)
                            case Reason(true, true, true) => b + ((p + a) + (p + m))
                            case _ => []
  {
    hide BOOTED, STILL_ALIVE, SMOKE_SEEN;
  }

  lemma SaysParts()
    ensures Ascii("Booted+Smoke seen") == Ascii("Booted") + (Ascii("+") + Ascii("Smoke seen"))
    ensures Ascii("Booted+Still alive") == Ascii("Booted") + (Ascii("+") + Ascii("Still alive"))
    ensures Ascii("Still alive+Smoke seen") == Ascii("Still alive") + (Ascii("+") + Ascii("Smoke seen"))
  {
    hide Ascii;
    JoinedTexts();
    AsciiConcat("+", "Smoke seen");
    AsciiConcat("+", "Still alive");
    AsciiConcat("Booted", "+Smoke seen");
    AsciiConcat("Booted", "+Still alive");
    AsciiConcat("Still alive", "+Smoke seen");
  }

  lemma SaysAllParts()
    ensures Ascii("Booted+Still alive+Smoke seen") ==
            Ascii("Booted") + ((Ascii("+") + Ascii("Still alive")) + (Ascii("+") + Ascii("Smoke seen")))
  {
    hide Ascii;
    JoinedTexts();
    AsciiConcat("+", "Smoke seen");
    AsciiConcat("+", "Still alive");
    AsciiConcat("+Still alive", "+Smoke seen");
    AsciiConcat("Booted", "+Still alive+Smoke seen");
  }

  /** Content and mark are these texts. */
  lemma ContentSays(why: Reason)
    ensures Content(why) == Ascii(Says(why)) && [Mark(why)] == Ascii([MarkedBy(why)])
  {
    hide Ascii, Content, Mark, MarkedBy, BOOTED, STILL_ALIVE, SMOKE_SEEN, SMOKE_CHANNEL;
    Texts();
    SaysParts();
    SaysAllParts();
    MarkCodes(why);
    ContentParts(why, Ascii("Booted"), Ascii("Still alive"), Ascii("Smoke seen"), Ascii("+"));
  }

  lemma JoinedTexts()
    ensures "Booted" + "+Smoke seen" == "Booted+Smoke seen" && "+" + "Smoke seen" == "+Smoke seen"
    ensures "Booted" + "+Still alive" == "Booted+Still alive" && "+" + "Still alive" == "+Still alive"
    ensures "Still alive" + "+Smoke seen" == "Still alive+Smoke seen"
    ensures "Booted" + "+Still alive+Smoke seen" == "Booted+Still alive+Smoke seen"
    ensures "+Still alive" + "+Smoke seen" == "+Still alive+Smoke seen"
  {
  }

  lemma MarkCodes(why: Reason)
    ensures [Mark(why)] == Ascii([MarkedBy(why)]) && Ascii("") == []
  {
  }

  /** A node's message goes to "#smoke" with a ttl of 3 and no flags; it is stamped with the minute it
      was made in, and its id is that minute, its mark and its sender. */
  lemma SmokeMessageSays(now: U64, why: Reason, sender: U64, nickname: seq<Byte>, at: Tracking.Location)
    ensures var m := SmokeMessage(now, why, sender, nickname, at);
            && m.base.ptype == 0x02 && m.base.ttl == 3 && m.base.flags == 0 && m.base.sender == sender
            && m.base.timestamp <= now < m.base.timestamp + 60_000 && m.base.timestamp % 60_000 == 0
            && m.body.id == BigEndian(m.base.timestamp, 8) + Ascii([MarkedBy(why)]) + BigEndian(sender, 8)
            && m.body.channel == Ascii("#smoke") && m.body.content == Ascii(Says(why)) && m.body.nickname == nickname
            && m.body.latitude == at.latitude && m.body.longitude == at.longitude && m.body.altitude == at.altitude
  {
    hide Ascii, Content, Mark, BigEndian, Says, MarkedBy;
    Texts();
    ContentSays(why);
  }

  /** Every message a node makes survives the air, whatever its reason, clock and place. */
  lemma SmokeMessageIsWireable(now: U64, why: Reason, sender: U64, nickname: seq<Byte>, at: Tracking.Location)
    requires why.booted || why.smoke || why.alive
    requires |nickname| <= 255
    ensures Wireable(SmokeMessage(now, why, sender, nickname, at))
  {
    var p := SmokeMessage(now, why, sender, nickname, at);
    assert |Content(why)| > 0;
    NoFlags();
  }

  lemma NoFlags()
    ensures !HasBit(0, FLAG_HAS_SIGNATURE)
  {
  }

  /** Two messages have the same id exactly when they are of the same sender, minute and mark. */
  lemma SameIdExactly(now: U64, why: Reason, sender: U64, now': U64, why': Reason, sender': U64)
    ensures MessageId(Minute(now), Mark(why), sender) == MessageId(Minute(now'), Mark(why'), sender') <==>
            now / 60_000 == now' / 60_000 && Mark(why) == Mark(why') && sender == sender'
  {
    hide BigEndian;
    var a, b := MessageId(Minute(now), Mark(why), sender), MessageId(Minute(now'), Mark(why'), sender');
    if a == b {
      assert a[..8] == BigEndian(Minute(now), 8) && a[9..] == BigEndian(sender, 8) && a[8] == Mark(why);
      assert b[..8] == BigEndian(Minute(now'), 8) && b[9..] == BigEndian(sender', 8) && b[8] == Mark(why');
      SameBytes(Minute(now), Minute(now'));
      SameBytes(sender, sender');
    }
  }

  lemma SameBytes(v: U64, w: U64)
    requires BigEndian(v, 8) == BigEndian(w, 8)
    ensures v == w
  {
    hide BigEndian;
    Widths();
    BigEndianRoundTrip(v, 8);
    BigEndianRoundTrip(w, 8);
  }
}
