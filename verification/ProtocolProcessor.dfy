/** Incoming writes: a frame is parsed with the packet classes and passed to the node's tables. */
module ProtocolProcessing {
  import opened Bytes
  import opened BinaryIO
  import opened PacketFormat
  import Packets
  import opened TrackerState
  import opened TrackerInvariant
  import opened TrackerRuns
  import opened Trackers

  class ProtocolProcessor {
    const tracker: BleConnectionTracker

    constructor (tracker: BleConnectionTracker)
      ensures this.tracker == tracker
    {
      this.tracker := tracker;
    }

    method UpdateOrStorePeerNameFromAnnouncement(a: Packet, handle: Handle)
      modifies tracker`peers, tracker`handlePeerMap
      ensures tracker.State() == UpdatePeer(old(tracker.State()), handle, a)
    {
      hide CheckSender;
      tracker.CheckSenderInPeers(a.base.sender);
      var peer := tracker.peers[a.base.sender].(handle := handle, name := NameOf(a));
      if a.base.ttl >= peer.maxTtl {
        peer := peer.(maxTtl := a.base.ttl);
        tracker.handlePeerMap := tracker.handlePeerMap[handle := a.base.sender];
      }
      tracker.peers := tracker.peers[a.base.sender := peer];
    }

    method ProcessAnnounce(handle: U16, parsed: Packet)
      modifies tracker
      ensures tracker.State() == ReceiveAnnounce(old(tracker.State()), handle, parsed)
    {
      hide UpdatePeer, KeyOf, CheckSender, EnqueueFrom;
      var a := parsed.(base := parsed.base.(sendingHandle := handle));
      UpdateOrStorePeerNameFromAnnouncement(a, handle);
      var isNew := tracker.StoreAnnounceAndReturnIfNew(a);
      if isNew {
        var newTtl := a.base.ttl - 1;
        if newTtl > 0 {
          var stored := a.(base := a.base.(ttl := newTtl));
          tracker.announces := tracker.announces[KeyOf(a) := stored];
          tracker.CheckSenderInPeers(stored.base.sender);
          tracker.EnqueueBroadcastPacketFrom(AnnounceRef(KeyOf(a)), stored.base.sender);
        }
      }
    }

    method ProcessMessage(handle: U16, parsed: Packet)
      requires parsed.body.MessageBody?
      modifies tracker
      ensures tracker.State() == ReceiveMessage(old(tracker.State()), handle, parsed)
    {
      hide CheckSender, EnqueueFrom;
      var m := parsed.(base := parsed.base.(sendingHandle := handle));
      var isNew := tracker.StoreMessageAndReturnIfNew(m);
      if isNew {
        var newTtl := m.base.ttl - 1;
        if newTtl > 0 {
          var stored := m.(base := m.base.(ttl := newTtl));
          tracker.messages := tracker.messages[m.body.id := stored];
          tracker.CheckSenderInPeers(stored.base.sender);
          tracker.EnqueueBroadcastPacketFrom(MessageRef(m.body.id), stored.base.sender);
        }
      }
    }

    /** A write of `buffer` on the packet characteristic; the header starts at `offset`. */
    method ProcessWrite(handle: U16, offset: U16, buffer: seq<Byte>)
      requires tracker.Valid() && Readable(buffer, offset)
      modifies tracker
      ensures tracker.Valid() && tracker.State() == Receive(old(tracker.State()), handle, offset, buffer)
    {
      hide Inv, ParsePacket, ReceiveAnnounce, ReceiveMessage, ByteAt;
      ReceiveInv(tracker.State(), handle, offset, buffer);
      var reader := new BinaryReader(offset, buffer);
      var version := reader.ReadUint8();
      if version < 1 || version > 2 {
        return;
      }
      var ptype := reader.ReadUint8();
      if ptype == TYPE_ANNOUNCE {
        var announce := new Packets.Announce.Parse(version, reader);
        ProcessAnnounce(handle, Packet(announce.base, announce.body));
      } else if ptype == TYPE_MESSAGE {
        var message := new Packets.Message.Parse(version, reader);
        ProcessMessage(handle, Packet(message.base, message.body));
      } else if ptype == TYPE_PREFERENCES {
        var preferences := new Packets.MicroMeshPreferences.Parse(version, reader);
      }
    }

    /** A frame from a link: the connection is looked up first. */
    method OnWrite(handle: Handle, offset: U16, buffer: seq<Byte>)
      requires tracker.Valid() && Readable(buffer, offset)
      modifies tracker
      ensures tracker.Valid() && tracker.State() == Arrive(old(tracker.State()), handle, offset, buffer)
    {
      hide Inv, Receive, Readable;
      ConnectionForInv(tracker.State(), handle);
      tracker.ConnectionForConnHandle(handle);
      ProcessWrite(tracker.connections[handle].handle, offset, buffer);
    }
  }
}
