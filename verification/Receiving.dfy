/** What a node does with a frame, and what it never does: frames of other versions and types are
    ignored, packets that are passed on are recorded for their sender, and a message does not go back
    over the connection it came in on. */
module Receiving {
  import opened Bytes
  import opened PacketFormat
  import opened TrackerState
  import opened TrackerInvariant
  import opened TrackerRuns
  import opened BroadcastQueue
  import opened MeshNode
  import opened SendLog

  // ---- which frames count ------------------------------------------------------------------------

  /** A frame holds a packet to be received exactly if it starts with version 1 or 2 and the type of an
      announce or a message; any other changes nothing but that its connection is known. */
  lemma OnlyTheseFrames(s: Tracker, handle: Handle, frame: seq<Byte>)
    requires Readable(frame, 0)
    ensures Parsed(frame, 0).Some? <==> |frame| > 1 && frame[0] in {1, 2} && frame[1] in {1, 2}
    ensures Parsed(frame, 0).Some? ==> (Parsed(frame, 0).value.body.AnnounceBody? <==> frame[1] == 1)
    ensures Parsed(frame, 0) == None ==>
              Arrive(s, handle, 0, frame) == s.(connections := Arrive(s, handle, 0, frame).connections)
              && Arrive(s, handle, 0, frame).connections.Keys == s.connections.Keys + {handle}
  {
    hide ParseHeader, TlvLoop, ReceiveAnnounce, ReceiveMessage, TakeSignature;
  }

  // ---- who has seen what ---------------------------------------------------------------------------

  /** The sender of a packet that an event passes on. */
  function Recorded(s: Tracker, e: Event): seq<(Ref, U64)>
    requires Possible(e)
  {
    if e.Received? && Arrival(s, e) != [] then
      [(Arrival(s, e)[0], Parsed(e.frame, e.offset).value.base.sender)]
    else []
  }

  lemma MessageRecorded(s: Tracker, handle: U16, p: Packet)
    requires p.body.MessageBody?
    ensures ReceiveMessage(s, handle, p).peersSent == s.peersSent +
            if PassedOn(s, p, MessageRef(p.body.id)) then [(MessageRef(p.body.id), p.base.sender)] else []
  {
    hide CheckSender;
  }

  lemma AnnounceRecorded(s: Tracker, handle: U16, p: Packet)
    ensures ReceiveAnnounce(s, handle, p).peersSent == s.peersSent +
            if PassedOn(s, p, AnnounceRef(KeyOf(p))) then [(AnnounceRef(KeyOf(p)), p.base.sender)] else []
  {
    hide CheckSender, UpdatePeer, KeyOf;
    SameKey(p, p.base.ttl, handle);
  }

  /** Every packet a node receives and passes on is recorded for its sender, in the order in which they
      come; nothing else is, and only a cleanup forgets it. */
  lemma EventRecords(me: Identity, s: Tracker, e: Event)
    requires Possible(e) && Intact(s) && !e.CleanedUp?
    ensures Happen(me, s, e).0.peersSent == s.peersSent + Recorded(s, e)
  {
    hide Intact, Arrive, Readable, AddAvailablePeer, ReportConnection, ReportDisconnection, SetLink, Originate,
         AnnounceToConnections, SendPackets, CleanupStaleItems, Recorded;
    OnlyReceivedRecorded(s, e);
    match e
    case Received(handle, offset, frame) => ArrivalRecords(s, handle, offset, frame);
    case Linked(handle, address, role, time) => LinkTells(s, handle, address, role, time);
    case Discovered(handle, valueHandle, mtu) => DiscoveryTells(s, handle, valueHandle, mtu);
    case Unlinked(handle) => LeavingRecords(s, handle);
    case Originated(m) => OriginRecords(s, m);
    case Announcing(at, haveTime, now) => AnnouncingTells(s, me, at, haveTime, now);
    case Seen(address, time) => SeenTells(s, address, time);
    case SentOut(_, _) =>
    case CleanedUp(_) => assert false;
  }

  lemma OnlyReceivedRecorded(s: Tracker, e: Event)
    requires Possible(e)
    ensures !e.Received? ==> Recorded(s, e) == []
  {
    hide Arrival;
  }

  lemma ArrivalRecords(s: Tracker, handle: Handle, offset: U16, frame: seq<Byte>)
    requires Readable(frame, offset)
    ensures Arrive(s, handle, offset, frame).peersSent == s.peersSent + Recorded(s, Received(handle, offset, frame))
  {
    hide Parsed, KeyOf, ReceiveMessage, ReceiveAnnounce, Readable;
    var s1 := ConnectionFor(s, handle);
    match Parsed(frame, offset)
    case None =>
    case Some(p) =>
      if p.body.AnnounceBody? {
        AnnounceRecorded(s1, s1.connections[handle].handle, p);
      } else {
        MessageRecorded(s1, s1.connections[handle].handle, p);
      }
  }

  lemma LeavingRecords(s: Tracker, handle: Handle)
    ensures ReportDisconnection(s, handle).peersSent == s.peersSent
  {
    hide Keep, AnnouncedTo, Not;
  }

  lemma OriginRecords(s: Tracker, m: Packet)
    requires m.body.MessageBody?
    ensures Originate(s, m).peersSent == s.peersSent
  {
  }

  // ---- no echo -------------------------------------------------------------------------------------

  /** A stored message is not changed or replaced, only cleaned up. */
  lemma MessageStays(me: Identity, s: Tracker, e: Event, id: seq<Byte>)
    requires Possible(e) && Intact(s) && !e.CleanedUp? && id in s.messages
    ensures id in Happen(me, s, e).0.messages && Happen(me, s, e).0.messages[id] == s.messages[id]
  {
    hide Intact, Arrive, Readable, AddAvailablePeer, ReportConnection, ReportDisconnection, SetLink, Originate,
         AnnounceToConnections, SendPackets, CleanupStaleItems;
    match e
    case Received(handle, offset, frame) => ArrivalStays(s, handle, offset, frame, id);
    case Linked(handle, address, role, time) => LinkTells(s, handle, address, role, time);
    case Discovered(handle, valueHandle, mtu) => DiscoveryTells(s, handle, valueHandle, mtu);
    case Unlinked(handle) => LeavingStays(s, handle);
    case Originated(m) => OriginStays(s, m, id);
    case Announcing(at, haveTime, now) => AnnouncingTells(s, me, at, haveTime, now);
    case Seen(address, time) => SeenTells(s, address, time);
    case SentOut(_, _) =>
    case CleanedUp(_) => assert false;
  }

  lemma ReceivedMessageStays(s: Tracker, handle: U16, p: Packet, id: seq<Byte>)
    requires p.body.MessageBody? && id in s.messages
    ensures id in ReceiveMessage(s, handle, p).messages && ReceiveMessage(s, handle, p).messages[id] == s.messages[id]
  {
    hide CheckSender;
    if id == p.body.id { assert ReceiveMessage(s, handle, p) == s; }
  }

  lemma ArrivalStays(s: Tracker, handle: Handle, offset: U16, frame: seq<Byte>, id: seq<Byte>)
    requires Readable(frame, offset) && id in s.messages
    ensures var t := Arrive(s, handle, offset, frame); id in t.messages && t.messages[id] == s.messages[id]
  {
    hide Parsed, ReceiveMessage, ReceiveAnnounce, Readable;
    var s1 := ConnectionFor(s, handle);
    match Parsed(frame, offset)
    case None =>
    case Some(p) =>
      if p.body.MessageBody? { ReceivedMessageStays(s1, s1.connections[handle].handle, p, id); }
  }

  lemma LeavingStays(s: Tracker, handle: Handle)
    ensures ReportDisconnection(s, handle).messages == s.messages
  {
    hide Keep, AnnouncedTo, Not;
  }

  lemma OriginStays(s: Tracker, m: Packet, id: seq<Byte>)
    requires m.body.MessageBody? && id in s.messages
    ensures id in Originate(s, m).messages && Originate(s, m).messages[id] == s.messages[id]
  {
  }

  lemma NotSentBack(me: Identity, s: Tracker, e: Event, id: seq<Byte>, h: Handle)
    requires Inv(s) && Possible(e) && id in s.messages && s.messages[id].base.sendingHandle == h && h > 0
    ensures Intact(s)
    ensures forall t :: t in Happen(me, s, e).1 && t.ref == MessageRef(id) ==> t.handle != h
  {
    hide Inv, SendPackets, Intact, WritePacket, HandedOver;
    IntactInv(s);
    match e
    case SentOut(layout, radio) => {
      SendsExactly(s, layout, radio, MessageRef(id), h);
      var log := SendPackets(s, layout, radio).1;
      forall t | t in log && t.ref == MessageRef(id)
        ensures t.handle != h
      {
        HandedOverIn(log, t);
      }
    }
    case _ => QuietEvent(me, s, e);
  }

  /** In no run without cleanup is a message handed to the radio for the connection it came in on. */
  lemma {:induction false} NoEcho(me: Identity, s: Tracker, events: seq<Event>, id: seq<Byte>, h: Handle)
    requires Inv(s) && forall e :: e in events ==> Possible(e) && !e.CleanedUp?
    requires id in s.messages && s.messages[id].base.sendingHandle == h && h > 0
    ensures forall t :: t in Run(me, s, events).1 && t.ref == MessageRef(id) ==> t.handle != h
    decreases |events|
  {
    hide Inv, Happen, Possible;
    if events != [] {
      assert events[0] in events;
      HappenInv(me, s, events[0]);
      NotSentBack(me, s, events[0], id, h);
      MessageStays(me, s, events[0], id);
      NoEcho(me, Happen(me, s, events[0]).0, events[1..], id, h);
    }
  }

  /** A message that comes in over a connection and is passed on never goes back over it. */
  lemma ReceivedHasNoEcho(me: Identity, s: Tracker, handle: Handle, frame: seq<Byte>, events: seq<Event>)
    requires Inv(s) && Readable(frame, 0) && handle in s.connections && s.connections[handle].handle > 0
    requires Parsed(frame, 0).Some? && Parsed(frame, 0).value.body.MessageBody?
    requires PassedOn(s, Parsed(frame, 0).value, RefOf(Parsed(frame, 0).value))
    requires forall e :: e in events ==> Possible(e) && !e.CleanedUp?
    ensures Inv(Arrive(s, handle, 0, frame))
    ensures forall t :: t in Run(me, Arrive(s, handle, 0, frame), events).1 &&
                        t.ref == RefOf(Parsed(frame, 0).value) ==>
              t.handle != s.connections[handle].handle
  {
    hide Inv, Arrive, Possible, Parsed, Run, Readable, PassedOn;
    ArriveInv(s, handle, 0, frame);
    StoredAsRelayed(s, handle, frame);
    NoEcho(me, Arrive(s, handle, 0, frame), events, Parsed(frame, 0).value.body.id, s.connections[handle].handle);
  }
}
