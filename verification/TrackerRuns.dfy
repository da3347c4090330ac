/** Whole runs of one node: what holds after any sequence of events, in any order. */
module TrackerRuns {
  import opened Bytes
  import opened BinaryIO
  import opened PacketFormat
  import opened TrackerState
  import opened TrackerInvariant

  datatype Event =
    | Seen(address: Address, time: nat)
    | Linked(handle: Handle, address: Address, role: Option<nat>, time: nat)
    | Discovered(handle: Handle, valueHandle: nat, mtu: nat)
    | Unlinked(handle: Handle)
    | Received(handle: Handle, offset: U16, frame: seq<Byte>)
    | Originated(message: Packet)
    | Announcing(at: Location, haveTime: bool, now: U64)
    | SentOut(layout: Layout, radio: Radio)
    | CleanedUp(now: U64)

  predicate Possible(e: Event) {
    match e
    case Received(_, offset, frame) => Readable(frame, offset)
    case Originated(m) => m.body.MessageBody? && m.base.ptype == TYPE_MESSAGE
    case _ => true
  }

  /** What an event makes of the node, and what is handed to the radio. */
  function Happen(me: Identity, s: Tracker, e: Event): (Tracker, seq<Transmission>)
    requires Possible(e) && Intact(s)
  {
    match e
    case Seen(address, time) => (AddAvailablePeer(s, address, time), [])
    case Linked(handle, address, role, time) => (ReportConnection(s, handle, address, role, time), [])
    case Discovered(handle, valueHandle, mtu) => (SetLink(s, handle, valueHandle, mtu), [])
    case Unlinked(handle) => (ReportDisconnection(s, handle), [])
    case Received(handle, offset, frame) => (Arrive(s, handle, offset, frame), [])
    case Originated(m) => (Originate(s, m), [])
    case Announcing(at, haveTime, now) => (AnnounceToConnections(s, me, at, haveTime, now), [])
    case SentOut(layout, radio) => SendPackets(s, layout, radio)
    case CleanedUp(now) => (CleanupStaleItems(s, now), [])
  }

  /** The connection handle that a frame is filed under. */
  function ArrivesAs(s: Tracker, handle: Handle): Handle {
    ConnectionFor(s, handle).connections[handle].handle
  }

  // ---- every event keeps the invariant ---------------------------------------------------------

  lemma ConnectionForInv(s: Tracker, handle: Handle)
    requires Inv(s)
    ensures Inv(ConnectionFor(s, handle))
  {
    hide Inv;
    if handle !in s.connections {
      PutConnectionInv(s, handle, NEW_CONNECTION.(handle := handle));
    }
  }

  lemma SetLinkInv(s: Tracker, handle: Handle, valueHandle: nat, mtu: nat)
    requires Inv(s)
    ensures Inv(SetLink(s, handle, valueHandle, mtu))
  {
    hide Inv;
    ConnectionForInv(s, handle);
    var s1 := ConnectionFor(s, handle);
    if s1.connections[handle].connected { LiveHandle(s1, handle); }
    PutConnectionInv(s1, handle, s1.connections[handle].(valueHandle := valueHandle, mtu := mtu));
  }

  lemma {:induction false} LoopKeepsType(buf: seq<Byte>, tail: U16, c: Cursor)
    requires Fits(buf, c.body)
    ensures TlvLoop(buf, tail, c).base.ptype == c.base.ptype
    decreases Left(buf, c.pos)
  {
    hide Step, OwnLength;
    StepProgress(buf, c);
    StepKeepsType(buf, c);
    var next := Step(buf, c);
    if !next.base.malformed {
      var cached := Cached(next);
      if Remainder(buf, cached.pos) > StopAt(tail, cached.base.payloadLength) {
        LoopKeepsType(buf, tail, cached);
      }
    }
  }

  lemma StepKeepsType(buf: seq<Byte>, c: Cursor)
    ensures Step(buf, c).base.ptype == c.base.ptype
  {
    hide ByteAt, ReadAt, Advance;
  }

  lemma ParseKeepsType(buf: seq<Byte>, ptype: Byte, version: Byte, pos: U16)
    requires Fits(buf, EmptyBody(ptype))
    ensures ParsePacket(buf, ptype, version, pos).base.ptype == ptype
  {
    hide TlvLoop, ParseHeader;
    var (base, p) := ParseHeader(buf, ptype, version, pos);
    LoopKeepsType(buf, Remainder(buf, p), Cursor(base, EmptyBody(ptype), p));
  }

  lemma ParsedIsTyped(frame: seq<Byte>, offset: U16)
    requires Readable(frame, offset)
    ensures Parsed(frame, offset).Some? ==>
              var p := Parsed(frame, offset).value;
              p.base.ptype == if p.body.AnnounceBody? then TYPE_ANNOUNCE else TYPE_MESSAGE
  {
    hide ParsePacket, ByteAt;
    if Parses(frame, offset) {
      ParseKeepsType(frame, TypeAt(frame, offset), ByteAt(frame, offset), Advance(Advance(offset, 1), 1));
    }
  }

  lemma ReceiveInv(s: Tracker, handle: U16, offset: U16, frame: seq<Byte>)
    requires Inv(s) && Readable(frame, offset)
    ensures Inv(Receive(s, handle, offset, frame))
  {
    hide Inv, Parsed, ReceiveMessage, ReceiveAnnounce, Readable;
    ParsedIsTyped(frame, offset);
    match Parsed(frame, offset)
    case None =>
    case Some(p) =>
      if p.body.AnnounceBody? {
        ReceiveAnnounceInv(s, handle, p);
      } else {
        ReceiveMessageInv(s, handle, p);
      }
  }

  lemma HappenInv(me: Identity, s: Tracker, e: Event)
    requires Possible(e) && Inv(s)
    ensures Inv(Happen(me, s, e).0)
  {
    hide Inv, Intact, AddAvailablePeer, ReportConnection, SetLink, ReportDisconnection, Receive, Originate,
         AnnounceToConnections, SendPackets, CleanupStaleItems, ConnectionFor;
    IntactInv(s);
    match e
    case Seen(address, time) => SeenInv(s, address, time);
    case Linked(handle, address, role, time) => ReportConnectionInv(s, handle, address, role, time);
    case Discovered(handle, valueHandle, mtu) => SetLinkInv(s, handle, valueHandle, mtu);
    case Unlinked(handle) => ReportDisconnectionInv(s, handle);
    case Received(handle, offset, frame) => ArriveInv(s, handle, offset, frame);
    case Originated(m) => OriginateInv(s, m);
    case Announcing(at, haveTime, now) => AnnounceToConnectionsInv(s, me, at, haveTime, now);
    case SentOut(layout, radio) => SendPacketsInv(s, layout, radio);
    case CleanedUp(now) => CleanupInv(s, now);
  }

  /** Announces, peers and owners come in frames; they go in cleanups and disconnections. */
  lemma OnlyFramesTell(me: Identity, s: Tracker, e: Event)
    requires Possible(e) && Intact(s) && !e.Received? && !e.Unlinked? && !e.CleanedUp?
    ensures var t := Happen(me, s, e).0;
            t.announces == s.announces && t.peers == s.peers && t.handlePeers == s.handlePeers
  {
    hide AddAvailablePeer, ReportConnection, SetLink, ReportDisconnection, Arrive, Originate, AnnounceToConnections,
         SendPackets, CleanupStaleItems, Intact;
    match e
    case Seen(address, time) => SeenTells(s, address, time);
    case Linked(handle, address, role, time) => LinkTells(s, handle, address, role, time);
    case Discovered(handle, valueHandle, mtu) => DiscoveryTells(s, handle, valueHandle, mtu);
    case Originated(m) => OriginTells(s, m);
    case Announcing(at, haveTime, now) => AnnouncingTells(s, me, at, haveTime, now);
    case SentOut(_, _) =>
  }

  lemma LinkTells(s: Tracker, handle: Handle, address: Address, role: Option<nat>, time: nat)
    ensures var t := ReportConnection(s, handle, address, role, time);
            t == s.(connections := t.connections, neighbours := t.neighbours)
  {
  }

  lemma SeenTells(s: Tracker, address: Address, time: nat)
    ensures var t := AddAvailablePeer(s, address, time); t == s.(neighbours := t.neighbours)
  {
  }

  lemma DiscoveryTells(s: Tracker, handle: Handle, valueHandle: nat, mtu: nat)
    ensures var t := SetLink(s, handle, valueHandle, mtu); t == s.(connections := t.connections)
  {
  }

  lemma OriginTells(s: Tracker, m: Packet)
    requires m.body.MessageBody?
    ensures var t := Originate(s, m);
            t.announces == s.announces && t.peers == s.peers && t.handlePeers == s.handlePeers
  {
  }

  lemma AnnouncingTells(s: Tracker, me: Identity, at: Location, haveTime: bool, now: U64)
    ensures var t := AnnounceToConnections(s, me, at, haveTime, now);
            t == s.(own := t.own, connections := t.connections, targeted := t.targeted)
  {
    hide AnnounceTo, SetUpAnnounce, Unannounced;
  }

  lemma SeenInv(s: Tracker, address: Address, time: nat)
    requires Inv(s)
    ensures Inv(AddAvailablePeer(s, address, time))
  {
    hide Inv;
    NeighboursInv(s, AddAvailablePeer(s, address, time).neighbours);
  }

  lemma ArriveInv(s: Tracker, handle: Handle, offset: U16, frame: seq<Byte>)
    requires Inv(s) && Readable(frame, offset)
    ensures Inv(Arrive(s, handle, offset, frame))
  {
    hide Inv, Receive;
    ConnectionForInv(s, handle);
    var s1 := ConnectionFor(s, handle);
    ReceiveInv(s1, s1.connections[handle].handle, offset, frame);
  }

  /** All events of a run, and all that was handed to the radio. */
  ghost function Run(me: Identity, s: Tracker, events: seq<Event>): (r: (Tracker, seq<Transmission>))
    requires Inv(s) && forall e :: e in events ==> Possible(e)
    ensures Inv(r.0)
    decreases |events|
  {
    if events == [] then (s, []) else
    IntactInv(s);
    assert Possible(events[0]) by { assert events[0] in events; }
    HappenInv(me, s, events[0]);
    var now := Happen(me, s, events[0]);
    var rest := Run(me, now.0, events[1..]);
    (rest.0, now.1 + rest.1)
  }

  /** Referential integrity: after any run of a node, every packet, connection and peer that a list
      refers to is still in its table. */
  lemma RunsKeepReferences(me: Identity, own: Packet, events: seq<Event>)
    requires own.body.AnnounceBody? && own.base.ptype == TYPE_ANNOUNCE
    requires forall e :: e in events ==> Possible(e)
    ensures Inv(SwitchedOn(own))
    ensures var s := Run(me, SwitchedOn(own), events).0;
            && (forall e :: e in s.sent ==> Known(s, e.0) && e.1 in s.connections)
            && (forall e :: e in s.targeted ==> Known(s, e.0) && e.1 in s.connections)
            && (forall r :: r in s.broadcast ==> Known(s, r))
            && (forall e :: e in s.peersSent ==> Known(s, e.0) && e.1 in s.peers)
            && (forall h :: h in s.handlePeers ==> s.handlePeers[h] in s.peers)
            && NoDuplicates(s.sent) && NoDuplicates(s.targeted) && NoDuplicates(s.broadcast)
  {
    hide HandlesAgree, Stored, Queued, Happen, NoDuplicates, Known;
    SwitchedOnInv(own);
    var s := Run(me, SwitchedOn(own), events).0;
    assert Intact(s) && Unrepeated(s);
  }
}
