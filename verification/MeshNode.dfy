/** One node of a mesh: what each event does to its messages and its queue, and what it hands to the
    radio, when everything that reaches it comes from nodes like itself. */
module MeshNode {
  import opened Bytes
  import opened BinaryIO
  import opened PacketFormat
  import opened Frames
  import opened RoundTrip
  import opened Layouts
  import opened TrackerState
  import opened TrackerInvariant
  import opened TrackerRuns
  import opened BroadcastQueue
  import opened Wire

  // ---- deliveries --------------------------------------------------------------------------------

  /** A message whose frame is that of another but for the ttl byte. */
  predicate CopyOf(m: Packet, p: Packet) {
    Wireable(m) && m.body == p.body && |WritePacket(p)| > 2 && WritePacket(m) == WritePacket(p)[2 := m.base.ttl]
  }

  lemma CopyOfItself(m: Packet)
    requires Wireable(m)
    ensures CopyOf(m, m)
  {
    hide WritePacket, Wireable;
    WrittenWithTtl(m, m.base.ttl);
    assert WithTtl(m, m.base.ttl) == m;
  }

  lemma CopyOfCopy(m: Packet, p: Packet, origin: Packet)
    requires CopyOf(m, p) && CopyOf(p, origin)
    ensures CopyOf(m, origin)
  {
    hide WritePacket, Wireable;
  }

  /** How a message is kept on arrival: counted down if it is to be passed on. */
  predicate KeptAs(m: Packet, p: Packet) {
    CopyOf(m, p) && m.base.ttl == (if p.base.ttl > 1 then p.base.ttl - 1 else p.base.ttl)
  }

  lemma KeptTtl(t: Tracker, p: Packet)
    requires p.body.MessageBody?
    ensures p.body.id in t.messages && KeptAs(t.messages[p.body.id], p) ==>
              && CopyOf(t.messages[p.body.id], p)
              && (p.base.ttl > 1 ==> t.messages[p.body.id].base.ttl == p.base.ttl - 1)
  {
    hide CopyOf;
  }

  /** A message of the node's own is kept unless its id is known, and queued if it can hop at all. */
  lemma MessageMade(s: Tracker, m: Packet)
    requires Wireable(m) && Possible(Originated(m))
    ensures var t, new' := Originate(s, m), Arrival(s, Originated(m));
            && t == s.(messages := t.messages, broadcast := s.broadcast + new')
            && (if m.body.id in s.messages then new' == [] && t.messages == s.messages
                else && t.messages == s.messages[m.body.id := m]
                     && new' == if m.base.ttl > 0 then [MessageRef(m.body.id)] else [])
  {
    hide Wireable;
    WireableIsMessage(m);
  }

  /** A message that arrives is dropped if its id is known; otherwise it is kept, and queued while it
      has hops left. */
  lemma MessageArrives(s: Tracker, handle: Handle, p: Packet)
    requires Wireable(p) && handle in s.connections
    ensures Readable(WritePacket(p), 0)
    ensures var t, new' := Arrive(s, handle, 0, WritePacket(p)), Arrival(s, Received(handle, 0, WritePacket(p)));
            && t == s.(messages := t.messages, peers := t.peers, peersSent := t.peersSent,
                broadcast := s.broadcast + new')
            && (if p.body.id in s.messages then new' == [] && t.messages == s.messages
                else && p.body.id in t.messages && t.messages == s.messages[p.body.id := t.messages[p.body.id]]
                     && KeptAs(t.messages[p.body.id], p)
                     && t.messages[p.body.id].base.sendingHandle == s.connections[handle].handle
                     && new' == if p.base.ttl > 1 then [MessageRef(p.body.id)] else [])
  {
    hide Readable, Wireable, KeptAs, ReceiveMessage, WritePacket, Parsed, Arrived;
    var frame := WritePacket(p);
    WireRoundTrip(p);
    ArrivedIsWireable(p);
    ArrivedFields(p);
    WireableIsMessage(Arrived(p));
    MessageKept(s, s.connections[handle].handle, Arrived(p), p);
    ReceivesMessage(s, handle, frame);
  }

  lemma ArrivedFields(p: Packet)
    ensures Arrived(p).body == p.body && Arrived(p).base.ttl == p.base.ttl
  {
  }

  lemma WireableIsMessage(p: Packet)
    requires Wireable(p)
    ensures p.body.MessageBody? && p.base.ptype == TYPE_MESSAGE && !p.base.malformed
  {
  }

  lemma ReceivesMessage(s: Tracker, handle: Handle, frame: seq<Byte>)
    requires Readable(frame, 0) && handle in s.connections
    requires Parsed(frame, 0).Some? && Parsed(frame, 0).value.body.MessageBody?
    ensures Arrive(s, handle, 0, frame) == ReceiveMessage(s, s.connections[handle].handle, Parsed(frame, 0).value)
  {
    hide Parsed, ReceiveMessage, ReceiveAnnounce, Readable;
  }

  lemma MessageKept(s: Tracker, handle: U16, q: Packet, p: Packet)
    requires Wireable(q) && q.body == p.body && q.base.ttl == p.base.ttl && WritePacket(q) == WritePacket(p)
    ensures var t := ReceiveMessage(s, handle, q);
            if p.body.id in s.messages then t == s
            else && p.body.id in t.messages && t.messages == s.messages[p.body.id := t.messages[p.body.id]]
                 && KeptAs(t.messages[p.body.id], p) && t.messages[p.body.id].base.sendingHandle == handle
                 && t.broadcast == s.broadcast + if p.base.ttl > 1 then [MessageRef(p.body.id)] else []
  {
    hide CheckSender, Wireable, KeptAs, EnqueueFrom, WritePacket;
    WireableIsMessage(q);
    if p.body.id !in s.messages {
      var m := q.(base := q.base.(sendingHandle := handle));
      var t := s.(messages := s.messages[p.body.id := m]);
      if p.base.ttl > 1 {
        var m' := m.(base := m.base.(ttl := m.base.ttl - 1));
        KeptRelayed(q, p, q.base.ttl - 1, handle);
        assert t.messages[p.body.id := m'] == s.messages[p.body.id := m'];
        QueuedFrom(CheckSender(t.(messages := t.messages[p.body.id := m']), m.base.sender),
            MessageRef(p.body.id), m.base.sender);
      } else {
        KeptRelayed(q, p, q.base.ttl, handle);
      }
    }
  }

  lemma KeptRelayed(q: Packet, p: Packet, ttl: Byte, handle: U16)
    requires Wireable(q) && q.body == p.body && WritePacket(q) == WritePacket(p)
    requires ttl == if p.base.ttl > 1 then p.base.ttl - 1 else p.base.ttl
    ensures KeptAs(q.(base := q.base.(ttl := ttl, sendingHandle := handle)), p)
  {
    hide Wireable, WritePacket;
    WireableRelayed(q, ttl, handle);
  }

  lemma QueuedFrom(s: Tracker, ref: Ref, peer: U64)
    requires Known(s, ref) && PacketOf(s, ref).base.ttl > 0
    ensures var t := EnqueueFrom(s, ref, peer);
            t == s.(peersSent := t.peersSent, broadcast := s.broadcast + [ref])
  {
  }

  /** An announce leaves the messages alone. */
  lemma AnnounceArrives(s: Tracker, handle: Handle, frame: seq<Byte>)
    requires Readable(frame, 0) && handle in s.connections && ByteAt(frame, 1) == TYPE_ANNOUNCE
    ensures var t, new' := Arrive(s, handle, 0, frame), Arrival(s, Received(handle, 0, frame));
            && t == s.(announces := t.announces, peers := t.peers, handlePeers := t.handlePeers,
                       peersSent := t.peersSent, broadcast := s.broadcast + new')
            && (forall r :: r in new' ==> r.AnnounceRef?)
  {
    hide Parsed, ByteAt, ReceiveMessage, ReceiveAnnounce, KeyOf, Readable;
    AnnounceIsParsed(frame);
    ReceivedQueue(s, s.connections[handle].handle, 0, frame);
  }

  lemma AnnounceIsParsed(frame: seq<Byte>)
    requires Readable(frame, 0) && ByteAt(frame, 1) == TYPE_ANNOUNCE
    ensures Parsed(frame, 0).Some? ==> Parsed(frame, 0).value.body.AnnounceBody?
  {
    hide TlvLoop, ByteAt, ParseHeader;
  }

  // ---- one hop -----------------------------------------------------------------------------------

  lemma MessagePassedOn(s: Tracker, handle: U16, p: Packet)
    requires p.body.MessageBody? && PassedOn(s, p, MessageRef(p.body.id))
    ensures var t := ReceiveMessage(s, handle, p);
            p.body.id in t.messages && t.messages[p.body.id] == Relayed(p, handle)
  {
    hide CheckSender;
  }

  lemma AnnouncePassedOn(s: Tracker, handle: U16, p: Packet)
    requires PassedOn(s, p, AnnounceRef(KeyOf(p)))
    ensures var t := ReceiveAnnounce(s, handle, p);
            KeyOf(p) in t.announces && t.announces[KeyOf(p)] == Relayed(p, handle)
  {
    hide CheckSender, UpdatePeer, KeyOf;
    SameKey(p, p.base.ttl, handle);
  }

  lemma StoredAsRelayed(s: Tracker, handle: Handle, frame: seq<Byte>)
    requires Readable(frame, 0) && handle in s.connections && Parsed(frame, 0).Some?
    requires var p := Parsed(frame, 0).value; PassedOn(s, p, RefOf(p))
    ensures var p, t := Parsed(frame, 0).value, Arrive(s, handle, 0, frame);
            Known(t, RefOf(p)) && PacketOf(t, RefOf(p)) == Relayed(p, s.connections[handle].handle)
  {
    hide Parsed, KeyOf, Relayed, ReceiveMessage, ReceiveAnnounce, Readable;
    var p := Parsed(frame, 0).value;
    if p.body.AnnounceBody? {
      AnnouncePassedOn(s, s.connections[handle].handle, p);
    } else {
      MessagePassedOn(s, s.connections[handle].handle, p);
    }
  }

  lemma ParsedIsFrame(frame: seq<Byte>)
    requires Readable(frame, 0) && ByteAt(frame, 0) == 1 && ByteAt(frame, 1) in {TYPE_ANNOUNCE, TYPE_MESSAGE}
    ensures Fits(frame, EmptyBody(ByteAt(frame, 1)))
    ensures var r := ParseFrame(frame, ByteAt(frame, 1)); Parsed(frame, 0) == Some(Packet(r.base, r.body))
  {
    hide ParsePacket, ByteAt;
  }

  /** A node is a hop: a frame of a packet it does not know adds to its queue exactly what the hop
      lets through, and what it writes for that entry is the hop's frame. */
  lemma NodeIsHop(s: Tracker, handle: Handle, frame: seq<Byte>)
    requires Readable(frame, 0) && handle in s.connections
    requires ByteAt(frame, 0) == 1 && ByteAt(frame, 1) in {TYPE_ANNOUNCE, TYPE_MESSAGE}
    ensures Fits(frame, EmptyBody(ByteAt(frame, 1))) && Parsed(frame, 0).Some?
    ensures var ref, t := RefOf(Parsed(frame, 0).value), Arrive(s, handle, 0, frame);
            !Known(s, ref) ==>
              match Hop(frame, ByteAt(frame, 1), s.connections[handle].handle)
              case Nothing => t.broadcast == s.broadcast
              case Send(out) =>
                t.broadcast == s.broadcast + [ref] && Known(t, ref) && WritePacket(PacketOf(t, ref)) == out
  {
    hide ParseFrame, ByteAt, Parsed, WritePacket, Readable, Arrive, Known, Relayed, RefOf;
    ParsedIsFrame(frame);
    var p := Parsed(frame, 0).value;
    ArrivalQueue(s, handle, 0, frame);
    if PassedOn(s, p, RefOf(p)) {
      StoredAsRelayed(s, handle, frame);
    }
  }

  /** A message that comes in a version 2 frame goes on in a version 1 frame: its length in two bytes, its
      route and anything behind the payload dropped, one hop less. */
  lemma VersionTwoGoesOnAsOne(s: Tracker, handle: Handle, h: Header, body: Body, junk: seq<Byte>)
    requires handle in s.connections && body.MessageBody? && body.id !in s.messages && h.ttl > 1
    requires |h.route| < 256 && Framed(body) && Canonical(body) == body && !IsSigned(h.flags)
    requires 0 < |PayloadLayout(body)| == h.payloadLength
    requires |[2, 2] + (HeaderLayout(2, h) + PayloadLayout(body)) + junk| <= MAX_BUFFER
    ensures var frame := [2, 2] + (HeaderLayout(2, h) + PayloadLayout(body)) + junk;
            Readable(frame, 0) && Parsed(frame, 0).Some?
    ensures var frame := [2, 2] + (HeaderLayout(2, h) + PayloadLayout(body)) + junk;
            var t, ref := Arrive(s, handle, 0, frame), MessageRef(body.id);
            && t.broadcast == s.broadcast + [ref] && Known(t, ref)
            && WritePacket(PacketOf(t, ref)) ==
               [1, 2] + HeaderLayout(1, h.(ttl := h.ttl - 1)) + PayloadLayout(body) + [0]
  {
    hide HeaderLayout, PayloadLayout, WritePacket, IsSigned, Canonical, Parsed, Readable, Framed, Arrive,
         Holds, Arrival;
    var frame := [2, 2] + (HeaderLayout(2, h) + PayloadLayout(body)) + junk;
    VersionTwoParsed(h, body, junk);
    var q := Parsed(frame, 0).value;
    StoredAsRelayed(s, handle, frame);
    ArrivalQueue(s, handle, 0, frame);
    PassedOnNow(s, handle, frame);
    FrameIs(Relayed(q, s.connections[handle].handle));
    SameLayout(q, s.connections[handle].handle, h, body);
  }

  lemma PassedOnNow(s: Tracker, handle: Handle, frame: seq<Byte>)
    requires Readable(frame, 0) && Parsed(frame, 0).Some?
    ensures var p := Parsed(frame, 0).value;
            Arrival(s, Received(handle, 0, frame)) == if PassedOn(s, p, RefOf(p)) then [RefOf(p)] else []
  {
    hide Parsed, Readable, RefOf;
  }

  lemma VersionTwoParsed(h: Header, body: Body, junk: seq<Byte>)
    requires body.MessageBody? && |h.route| < 256 && Framed(body) && Canonical(body) == body && !IsSigned(h.flags)
    requires 0 < |PayloadLayout(body)| == h.payloadLength
    requires |[2, 2] + (HeaderLayout(2, h) + PayloadLayout(body)) + junk| <= MAX_BUFFER
    ensures var frame := [2, 2] + (HeaderLayout(2, h) + PayloadLayout(body)) + junk;
            Readable(frame, 0) && Parsed(frame, 0) == Some(Packet(HeaderHeard(2, 2, h), body))
  {
    hide HeaderLayout, PayloadLayout, IsSigned, Canonical, Framed, ParsePacket, Parsed, Readable, ByteAt;
    var l := HeaderLayout(2, h) + PayloadLayout(body);
    var frame := [2, 2] + l + junk;
    BehindTheType(l, junk);
    assert PayloadLayout(body) + [] == PayloadLayout(body);
    BodyParsed(frame, 2, h, body, [], 2);
    ParsedAs(frame);
  }

  lemma BehindTheType(l: seq<Byte>, junk: seq<Byte>)
    ensures var frame := [2, 2] + l + junk;
            Holds(frame, 2, l) && ByteAt(frame, 0) == 2 && ByteAt(frame, 1) == 2
  {
  }

  lemma ParsedAs(frame: seq<Byte>)
    requires |frame| <= MAX_BUFFER && ByteAt(frame, 0) == 2 && ByteAt(frame, 1) == 2
    ensures Readable(frame, 0) && Fits(frame, EmptyBody(2))
    ensures var r := ParsePacket(frame, 2, 2, 2); Parsed(frame, 0) == Some(Packet(r.base, r.body))
  {
    hide ByteAt, ParsePacket;
  }

  lemma SameLayout(q: Packet, handle: U16, h: Header, body: Body)
    requires q == Packet(HeaderHeard(2, 2, h), body) && h.ttl > 1 && h.payloadLength > 0 && |h.route| < 256
    ensures var r := Relayed(q, handle);
            |r.base.route| < 256 && r.body == body && r.base.ptype == 2 && r.base.flags == h.flags
            && HeaderLayout(1, r.base.(payloadLength := PayloadLength(r.base, r.body))) ==
               HeaderLayout(1, h.(ttl := h.ttl - 1))
  {
    hide HeaderLayout, IsAddressed;
    var r := Relayed(q, handle);
    SameHeaderLayout(r.base.(payloadLength := PayloadLength(r.base, r.body)), h.(ttl := h.ttl - 1));
  }

  // ---- sends -------------------------------------------------------------------------------------

  /** Everything handed over is a stored packet's frame, for a connection that exists, is not the one
      it came from, and can carry it; it is the own announce or the given packet. */
  predicate Genuine(s: Tracker, log: seq<Transmission>, ref: Ref) {
    forall t :: t in log ==>
      && (t.ref == OwnAnnounce || t.ref == ref) && Known(s, t.ref) && t.handle in s.connections
      && t.frame == WritePacket(PacketOf(s, t.ref))
      && !CameFrom(PacketOf(s, t.ref), s.connections[t.handle]) && !TooBig(t.frame, s.connections[t.handle])
  }

  lemma GenuineMore(s: Tracker, s': Tracker, log: seq<Transmission>, e: (Ref, Handle), radio: Radio, ref: Ref)
    requires Genuine(s, log, ref) && Refers(s', e) && s'.connections[e.1].handle == e.1
    requires s' == s.(sent := s'.sent) && (e.0 == OwnAnnounce || e.0 == ref)
    ensures Genuine(s, log + Transmitted(s', e, radio), ref)
  {
    hide WritePacket;
  }

  lemma {:induction false} TargetedGenuine(s: Tracker, x: Sending, entries: seq<(Ref, Handle)>, radio: Radio, ref: Ref)
    requires x.s == s.(sent := x.s.sent) && Genuine(s, x.log, ref)
    requires forall e :: e in entries ==> Refers(x.s, e) && x.s.connections[e.1].handle == e.1 && e.0 == OwnAnnounce
    ensures Genuine(s, SendTargeted(x, entries, radio).log, ref)
    decreases |entries|
  {
    hide Genuine, Known, SentTo, SendSucceeds, Transmitted;
    if entries != [] {
      assert entries[0] in entries;
      var x' := TryTargeted(x, entries[0], radio);
      GenuineMore(s, x.s, x.log, entries[0], radio, ref);
      GrowthKeepsReferences(x.s, x'.s);
      TargetedGenuine(s, x', entries[1..], radio, ref);
    }
  }

  lemma {:induction false} BroadcastGenuine(s: Tracker, x: Sending, ref: Ref, handles: seq<Handle>,
      layout: Layout, radio: Radio)
    requires x.s == s.(sent := x.s.sent) && Genuine(s, x.log, ref)
    requires forall h :: h in handles ==> Refers(x.s, (ref, h)) && x.s.connections[h].handle == h
    ensures Genuine(s, SendBroadcast(x, ref, handles, layout, radio).log, ref)
    decreases |handles|
  {
    hide Genuine, Known, ScanHits, SendSucceeds, Transmitted;
    if handles != [] {
      assert handles[0] in handles;
      var x' := TryBroadcast(x, (ref, handles[0]), layout, radio);
      GenuineMore(s, x.s, x.log, (ref, handles[0]), radio, ref);
      GrowthKeepsReferences(x.s, x'.s);
      BroadcastGenuine(s, x', ref, handles[1..], layout, radio);
    }
  }

  lemma GenuineElsewhere(s: Tracker, t: Tracker, log: seq<Transmission>, ref: Ref)
    requires t == s.(sent := t.sent, targeted := t.targeted)
    ensures Genuine(s, log, ref) == Genuine(t, log, ref)
  {
    hide WritePacket;
  }

  lemma AllTargetedGenuine(s: Tracker, radio: Radio, ref: Ref)
    requires Inv(s)
    ensures Genuine(s, SendAllTargeted(s, radio).log, ref)
  {
    hide Inv, Known, NotDone, Keep, SendTargeted, Genuine;
    IntactInv(s);
    NothingGenuine(s, ref);
    TargetsAgree(s);
    OnlyOwnTargeted(s);
    TargetedGenuine(s, Sending(s, {}, []), s.targeted, radio, ref);
  }

  lemma NothingGenuine(s: Tracker, ref: Ref)
    ensures Genuine(s, [], ref)
  {
  }

  lemma OnlyOwnTargeted(s: Tracker)
    requires Inv(s)
    ensures forall e :: e in s.targeted ==> e.0 == OwnAnnounce
  {
    hide Intact, HandlesAgree, Stored, Unrepeated;
  }

  /** A send hands over the own announce and, if someone is listening, the oldest packet. */
  lemma SendsOldest(s: Tracker, layout: Layout, radio: Radio)
    requires Inv(s)
    ensures Genuine(s, SendPackets(s, layout, radio).1,
                    if Departs(s, SentOut(layout, radio)) then s.broadcast[0] else OwnAnnounce)
  {
    hide Inv, Known, Keep, SendAllTargeted, SendBroadcast, Genuine, OtherThan, Available, Intact, NoDuplicates;
    IntactInv(s);
    var ref := if Departs(s, SentOut(layout, radio)) then s.broadcast[0] else OwnAnnounce;
    NothingGenuine(s, ref);
    if s.broadcast != [] || s.targeted != [] {
      AllTargetedGenuine(s, radio, ref);
      SendAllTargetedInv(s, radio);
      var x := SendAllTargeted(s, radio);
      BroadcastsKnown(x.s);
      var handles := AvailableHandles(x.s);
      if x.s.broadcast != [] && handles != [] {
        assert handles[0] in handles;
        assert x.s.broadcast[0] in x.s.broadcast;
        forall h | h in handles
          ensures x.s.connections[h].handle == h
        {
          AvailableIsLive(x.s.connections[h]);
          LiveHandle(x.s, h);
        }
        GenuineElsewhere(s, x.s, x.log, ref);
        BroadcastGenuine(x.s, x, ref, handles, layout, radio);
        GenuineElsewhere(s, x.s, SendBroadcast(x, ref, handles, layout, radio).log, ref);
      }
    }
  }

  lemma AvailableIsLive(c: Connection)
    requires Available(c)
    ensures c.connected
  {
  }

  // ---- announcing ----------------------------------------------------------------------------------

  /** Announcing touches the announce and the targeted list only. */
  lemma AnnouncingKeeps(s: Tracker, me: Identity, at: Location, haveTime: bool, now: U64)
    ensures var t := AnnounceToConnections(s, me, at, haveTime, now); t == s.(own := t.own, targeted := t.targeted)
  {
    hide AnnounceTo;
    var s1 := s.(own := SetUpAnnounce(s.own, me, at));
    AnnounceToKeeps(s1, Unannounced(s1, haveTime), now);
  }

  lemma {:induction false} AnnounceToKeeps(s: Tracker, handles: seq<Handle>, now: U64)
    requires forall h :: h in handles ==> h in s.connections
    ensures AnnounceTo(s, handles, now).connections == s.connections
    decreases |handles|
  {
    if handles != [] {
      assert handles[0] in handles;
      var s1 := s.(own := s.own.(base := s.own.base.(timestamp := now)));
      AnnounceToKeeps(EnqueueTargeted(s1, OwnAnnounce, handles[0]), handles[1..], now);
    }
  }
}
