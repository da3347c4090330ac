/** A node's own announce over whole runs: what is in it, when it is stamped, what of it goes out, and
    what a node that hears it makes of it. */
module OwnAnnounces {
  import opened Bytes
  import opened BinaryIO
  import opened PacketFormat
  import opened RoundTrip
  import opened Frames
  import opened Layouts
  import opened TrackerState
  import opened TrackerInvariant
  import opened TrackerRuns
  import opened Wire
  import opened MeshNode
  import opened AtMostOnce
  import PeerOwners
  import opened BroadcastQueue

  // ---- one event ---------------------------------------------------------------------------------

  /** A connection is up and can take an announce, and has no record of one. */
  predicate Waits(s: Tracker, h: Handle) {
    && h in s.connections && s.connections[h].connected
    && (s.connections[h].valueHandle > 0 || s.connections[h].role == 1)
    && (OwnAnnounce, h) !in s.sent
  }

  /** The announce is queued for someone. */
  predicate Queues(s: Tracker, e: Event) {
    e.Announcing? && e.haveTime && exists h :: Waits(s, h)
  }

  /** What announcing makes of the announce: the place always, the rest once. */
  function Announced(own: Packet, me: Identity, at: Location, stamp: U64): Packet
    requires own.body.AnnounceBody?
  {
    var name := if own.base.ttl == 3 then own.body.name else me.name;
    var body := AnnounceBody(name, own.body.noiseKey, own.body.signingKey, own.body.neighbours,
                             at.latitude, at.longitude, at.altitude);
    if own.base.ttl == 3 then Packet(own.base.(timestamp := stamp), body)
    else Packet(own.base.(ttl := 3, flags := 0, sender := me.sender, timestamp := stamp), body)
  }

  lemma WaitersAreUnannounced(s: Tracker, t: Tracker, haveTime: bool)
    requires Inv(s) && t == s.(own := t.own)
    ensures forall h :: h in Unannounced(t, haveTime) <==> haveTime && Waits(s, h)
  {
    hide Intact, Stored, Queued, Unrepeated;
    forall h | h in s.connections && s.connections[h].connected
      ensures SentTo(t, OwnAnnounce, t.connections[h].handle) <==> (OwnAnnounce, h) in s.sent
    {
      RecordOfOwn(s, t, h);
    }
  }

  lemma {:induction false} StampedOnce(s: Tracker, handles: seq<Handle>, now: U64)
    ensures AnnounceTo(s, handles, now).own ==
            if handles == [] then s.own else s.own.(base := s.own.base.(timestamp := now))
    decreases |handles|
  {
    hide EnqueueTargeted;
    if handles != [] {
      var s1 := s.(own := s.own.(base := s.own.base.(timestamp := now)));
      QueueingKeepsOwn(s1, handles[0]);
      StampedOnce(EnqueueTargeted(s1, OwnAnnounce, handles[0]), handles[1..], now);
    }
  }

  lemma QueueingKeepsOwn(s: Tracker, h: Handle)
    ensures EnqueueTargeted(s, OwnAnnounce, h).own == s.own
  {
  }

  lemma OneAnnouncing(me: Identity, s: Tracker, e: Event)
    requires Inv(s) && Intact(s) && e.Announcing? && s.own.body.AnnounceBody?
    ensures Happen(me, s, e).0.own ==
            Announced(s.own, me, e.at, if Queues(s, e) then e.now else s.own.base.timestamp)
  {
    hide Inv, Intact, AnnounceTo, Unannounced, Waits;
    var s1 := s.(own := SetUpAnnounce(s.own, me, e.at));
    WaitersAreUnannounced(s, s1, e.haveTime);
    var handles := Unannounced(s1, e.haveTime);
    StampedOnce(s1, handles, e.now);
    if handles != [] { assert handles[0] in handles; }
  }

  lemma OthersLeaveOwn(me: Identity, s: Tracker, e: Event)
    requires Intact(s) && Possible(e) && !e.Announcing?
    ensures Happen(me, s, e).0.own == s.own
  {
    hide Intact, Keep, Parsed, SendPackets, Readable, LiveConnections, LivePackets;
  }

  /** Without the time nothing is queued. */
  lemma NoTimeNoAnnounce(me: Identity, s: Tracker, at: Location, now: U64)
    requires Intact(s)
    ensures Happen(me, s, Announcing(at, false, now)).0 ==
            s.(own := Happen(me, s, Announcing(at, false, now)).0.own)
  {
    hide Intact;
  }

  // ---- whole runs --------------------------------------------------------------------------------

  /** Where the node was when it last announced. */
  function LastPlace(events: seq<Event>): Option<Location>
    decreases |events|
  {
    if events == [] then None
    else if LastPlace(events[1..]).Some? then LastPlace(events[1..])
    else if events[0].Announcing? then Some(events[0].at) else None
  }

  /** When the announce was last queued for someone. */
  ghost function LastStamp(me: Identity, s: Tracker, events: seq<Event>): Option<U64>
    requires Inv(s) && forall e :: e in events ==> Possible(e)
    decreases |events|
  {
    if events == [] then None else
    IntactInv(s);
    assert Possible(events[0]) by { assert events[0] in events; }
    HappenInv(me, s, events[0]);
    var rest := LastStamp(me, Happen(me, s, events[0]).0, events[1..]);
    if rest.Some? then rest else if Queues(s, events[0]) then Some(events[0].now) else None
  }

  lemma AnnouncedTwice(own: Packet, me: Identity, at: Location, stamp: U64, at': Location, stamp': U64)
    requires own.body.AnnounceBody?
    ensures Announced(own, me, at, stamp).body.AnnounceBody?
    ensures Announced(Announced(own, me, at, stamp), me, at', stamp') == Announced(own, me, at', stamp')
  {
  }

  /** After any run: a node that has not announced itself has the announce it started with. One that has
      carries its id, its name, a ttl of 3 and no flags, if it started with any other ttl; in any case
      the place where it last announced, and the time when it last did so to someone. */
  lemma {:induction false} AnnounceIs(me: Identity, s: Tracker, events: seq<Event>)
    requires Inv(s) && (forall e :: e in events ==> Possible(e)) && s.own.body.AnnounceBody?
    ensures Run(me, s, events).0.own ==
            match LastPlace(events)
            case None => s.own
            case Some(at) => Announced(s.own, me, at, match LastStamp(me, s, events)
                                                      case None => s.own.base.timestamp
                                                      case Some(stamp) => stamp)
    decreases |events|
  {
    hide Inv, Intact, Happen, Possible, Queues, Announced;
    if events != [] {
      IntactInv(s);
      assert events[0] in events;
      HappenInv(me, s, events[0]);
      var t := Happen(me, s, events[0]).0;
      if events[0].Announcing? {
        OneAnnouncing(me, s, events[0]);
        StillAnnounce(s.own, me, events[0].at, if Queues(s, events[0]) then events[0].now else s.own.base.timestamp);
      } else {
        OthersLeaveOwn(me, s, events[0]);
        OnlyAnnouncing(s, events[0]);
      }
      AnnounceIs(me, t, events[1..]);
      NoPlaceNoStamp(me, t, events[1..]);
    }
  }

  lemma {:induction false} NoPlaceNoStamp(me: Identity, s: Tracker, events: seq<Event>)
    requires Inv(s) && forall e :: e in events ==> Possible(e)
    ensures LastPlace(events) == None ==> LastStamp(me, s, events) == None
    decreases |events|
  {
    hide Inv, Happen, Possible, Queues;
    if events != [] {
      IntactInv(s);
      assert events[0] in events;
      HappenInv(me, s, events[0]);
      OnlyAnnouncing(s, events[0]);
      NoPlaceNoStamp(me, Happen(me, s, events[0]).0, events[1..]);
    }
  }

  lemma OnlyAnnouncing(s: Tracker, e: Event)
    ensures Queues(s, e) ==> e.Announcing?
  {
  }

  lemma StillAnnounce(own: Packet, me: Identity, at: Location, stamp: U64)
    requires own.body.AnnounceBody?
    ensures var o := Announced(own, me, at, stamp);
            && o.body.AnnounceBody? && o.base.timestamp == stamp
            && forall at', stamp' :: Announced(o, me, at', stamp') == Announced(own, me, at', stamp')
  {
    forall at', stamp'
      ensures Announced(Announced(own, me, at, stamp), me, at', stamp') == Announced(own, me, at', stamp')
    {
      AnnouncedTwice(own, me, at, stamp, at', stamp');
    }
  }

  // ---- on the air ----------------------------------------------------------------------------------

  /** The announce of a node that has none to start with: its own name and place, and nothing else. */
  function AnnounceText(me: Identity, own: Packet, at: Location): Body
    requires own.body.AnnounceBody?
  {
    AnnounceBody(me.name, own.body.noiseKey, own.body.signingKey, own.body.neighbours,
                 at.latitude, at.longitude, at.altitude)
  }

  /** Whatever frame a node that has announced itself hands to the radio as its announce: version 1, an
      announce, ttl 3, the time when it was last queued, no flags, the length of the fields, the node's
      id, the fields, and a zero byte. */
  lemma AnnounceFrame(me: Identity, own: Packet, events: seq<Event>, layout: Layout, radio: Radio, t: Transmission)
    requires own.body.AnnounceBody? && own.base.ptype == TYPE_ANNOUNCE && |own.body.neighbours| <= 31
    requires own.base.ttl != 3 && own.base.payloadLength == 0 && own.base.route == []
    requires (forall e :: e in events ==> Possible(e)) && LastPlace(events).Some?
    ensures Inv(SwitchedOn(own)) && Intact(Run(me, SwitchedOn(own), events).0)
    ensures var s := Run(me, SwitchedOn(own), events).0;
            var stamp := match LastStamp(me, SwitchedOn(own), events)
                         case None => own.base.timestamp
                         case Some(stamp) => stamp;
            var payload := PayloadLayout(AnnounceText(me, own, LastPlace(events).value));
            t in SendPackets(s, layout, radio).1 && t.ref == OwnAnnounce ==>
              t.frame == [1, 1] + ([3] + BigEndian(stamp, 8) + [0] + BigEndian(|payload|, 2) + BigEndian(me.sender, 8))
                         + payload + [0]
  {
    hide Inv, Intact, Possible, SendPackets, Run, PayloadLayout, BigEndian, WritePacket, LastStamp, LastPlace;
    SwitchedOnInv(own);
    var s := Run(me, SwitchedOn(own), events).0;
    IntactInv(s);
    AnnounceIs(me, SwitchedOn(own), events);
    FirstAnnounced(own, me, LastPlace(events).value, s.own.base.timestamp);
    if t in SendPackets(s, layout, radio).1 && t.ref == OwnAnnounce { OwnFrame(s, layout, radio, t); }
  }

  lemma OwnFrame(s: Tracker, layout: Layout, radio: Radio, t: Transmission)
    requires Inv(s) && Intact(s) && t in SendPackets(s, layout, radio).1 && t.ref == OwnAnnounce
    ensures t.frame == WritePacket(s.own)
  {
    hide Inv, Intact, SendPackets, WritePacket, Departs;
    SendsOldest(s, layout, radio);
  }

  lemma FirstAnnounced(own: Packet, me: Identity, at: Location, stamp: U64)
    requires own.body.AnnounceBody? && own.base.ptype == TYPE_ANNOUNCE && |own.body.neighbours| <= 31
    requires own.base.ttl != 3 && own.base.payloadLength == 0 && own.base.route == []
    ensures var payload := PayloadLayout(AnnounceText(me, own, at));
            WritePacket(Announced(own, me, at, stamp)) ==
            [1, 1] + ([3] + BigEndian(stamp, 8) + [0] + BigEndian(|payload|, 2) + BigEndian(me.sender, 8))
            + payload + [0]
  {
    hide PayloadLayout, BigEndian, WritePacket, OwnLength, Tlvs;
    var p := Announced(own, me, at, stamp);
    FrameIs(p);
    PayloadIs(p.body);
    Framing(p.body);
  }

  // ---- at the other end ----------------------------------------------------------------------------

  lemma HeardPacket(own: Packet, me: Identity, at: Location, stamp: U64)
    requires own.body.AnnounceBody? && own.base.ptype == TYPE_ANNOUNCE && |own.body.neighbours| <= 31
    requires own.base.ttl != 3 && own.base.payloadLength == 0 && me.name != []
    ensures var frame := WritePacket(Announced(own, me, at, stamp));
            && Readable(frame, 0) && Parsed(frame, 0).Some?
            && var p := Parsed(frame, 0).value;
               p.body.AnnounceBody? && p.body.name == Clip(me.name) && p.base.sender == me.sender && p.base.ttl == 3
  {
    hide ParsePacket, WritePacket, EncodeAll, Tlvs, OwnLength, ByteAt, PayloadEnd, Clip, HasBit;
    var p := Announced(own, me, at, stamp);
    FrameStart(p);
    NoFlagsAnnounced();
    SmallUnsignedFrame(p);
    assert OwnLength(p.body) > 0 by { NamedIsLong(p.body); }
    assert WritePacket(p) + [] == WritePacket(p);
    UnsignedRoundTrip(p, []);
  }

  lemma NoFlagsAnnounced()
    ensures !HasBit(0, FLAG_HAS_SIGNATURE)
  {
  }

  lemma NamedIsLong(body: Body)
    requires body.AnnounceBody? && body.name != []
    ensures OwnLength(body) > 0
  {
  }

  /** Whoever hears a node's announce knows the node under its id, by the first 255 bytes of its name,
      on the connection it came over; and if it had not met the node, takes it for that connection's
      owner. */
  lemma AnnounceHeard(r: Tracker, g: Handle, own: Packet, me: Identity, at: Location, stamp: U64)
    requires own.body.AnnounceBody? && own.base.ptype == TYPE_ANNOUNCE && |own.body.neighbours| <= 31
    requires own.base.ttl != 3 && own.base.payloadLength == 0 && me.name != [] && g in r.connections
    ensures Readable(WritePacket(Announced(own, me, at, stamp)), 0)
    ensures var t, handle := Arrive(r, g, 0, WritePacket(Announced(own, me, at, stamp))), r.connections[g].handle;
            && me.sender in t.peers && t.peers[me.sender].handle == handle
            && t.peers[me.sender].name == (if |me.name| <= 255 then me.name else me.name[..255])
            && (me.sender !in r.peers ==> t.peers[me.sender].id == me.sender && t.peers[me.sender].maxTtl == 3
                                          && handle in t.handlePeers && t.handlePeers[handle] == me.sender)
  {
    hide WritePacket, Announced, Parsed, Readable, ReceiveMessage, ReceiveAnnounce;
    HeardPacket(own, me, at, stamp);
    var frame := WritePacket(Announced(own, me, at, stamp));
    HeardFromNode(r, r.connections[g].handle, Parsed(frame, 0).value);
  }

  lemma HeardFromNode(s: Tracker, handle: U16, p: Packet)
    requires p.body.AnnounceBody?
    ensures var t, sender := ReceiveAnnounce(s, handle, p), p.base.sender;
            && sender in t.peers && t.peers[sender].handle == handle && t.peers[sender].name == p.body.name
            && (sender !in s.peers ==> t.peers[sender].id == sender && t.peers[sender].maxTtl == p.base.ttl
                                       && handle in t.handlePeers && t.handlePeers[handle] == sender)
  {
    hide ReceiveAnnounce;
    PeerOwners.AnnounceMeets(s, handle, p);
  }
}
