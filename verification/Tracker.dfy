/** The node as a program: its tables are fields, and every operation updates them in place. Each
    method is proved to do what the corresponding function of TrackerState says, and to keep the
    invariant. */
module Trackers {
  import opened Bytes
  import opened PacketFormat
  import opened Packets
  import opened TrackerState
  import opened TrackerInvariant

  // ---- erase_if --------------------------------------------------------------------------------

  /** What a loop over a list that skips the stale entries collects. */
  method EraseIf<T>(xs: seq<T>, stale: T -> bool) returns (kept: seq<T>)
    ensures kept == Keep(xs, Not(stale))
  {
    kept := [];
    var i := 0;
    while i < |xs|
      invariant 0 <= i <= |xs|
      invariant kept + Keep(xs[i..], Not(stale)) == Keep(xs, Not(stale))
    {
      assert xs[i..][0] == xs[i] && xs[i..][1..] == xs[i + 1..];
      if !stale(xs[i]) {
        kept := kept + [xs[i]];
      }
      i := i + 1;
    }
  }

  /** The lists are filtered once the connection and the peer are recorded. */
  lemma DisconnectionIs(s: Tracker, s1: Tracker, handle: Handle)
    requires s1.connections == s.connections[handle := (if handle in s.connections then s.connections[handle]
            else NEW_CONNECTION).(connected := false)]
    requires s1.peers == if handle in s.peers then s.peers else s.peers[handle := NEW_PEER]
    requires s1 == s.(connections := s1.connections, peers := s1.peers)
    ensures ReportDisconnection(s, handle) ==
            s1.(handlePeers := s.handlePeers - {handle},
                sent := Keep(s.sent, Not(AnnouncedTo(s1, handle))),
                targeted := Keep(s.targeted, Not(AnnouncedTo(s1, handle))))
  {
    hide Keep;
  }

  class BleConnectionTracker {
    var peers: map<U64, Peer>
    var messages: map<seq<Byte>, Packet>
    var announces: map<AnnounceKey, Packet>
    var announce: Packet
    var connections: map<Handle, Connection>
    var availableNeighbours: map<Address, Connection>
    var handlePeerMap: map<Handle, U64>
    var packetsConnectionsSent: seq<(Ref, Handle)>
    var packetsPeersSent: seq<(Ref, U64)>
    var broadcastPackets: seq<Ref>
    var targetedPackets: seq<(Ref, Handle)>

    function State(): Tracker
      reads this
    {
      Tracker(peers, messages, announces, announce, connections, availableNeighbours, handlePeerMap,
              packetsConnectionsSent, packetsPeersSent, broadcastPackets, targetedPackets)
    }

    predicate Valid()
      reads this
    {
      Inv(State())
    }

    constructor (own: Packet)
      requires own.body.AnnounceBody? && own.base.ptype == TYPE_ANNOUNCE
      ensures Valid() && State() == SwitchedOn(own)
    {
      peers, messages, announces, announce := map[], map[], map[], own;
      connections, availableNeighbours, handlePeerMap := map[], map[], map[];
      packetsConnectionsSent, packetsPeersSent, broadcastPackets, targetedPackets := [], [], [], [];
      new;
      SwitchedOnInv(own);
    }

    // ---- stores --------------------------------------------------------------------------------

    method ConnectionForConnHandle(handle: Handle)
      modifies this`connections
      ensures State() == ConnectionFor(old(State()), handle)
    {
      if handle !in connections {
        connections := connections[handle := NEW_CONNECTION.(handle := handle)];
      }
    }

    method StoreMessageAndReturnIfNew(m: Packet) returns (isNew: bool)
      requires m.body.MessageBody?
      modifies this`messages
      ensures (State(), isNew) == StoreMessage(old(State()), m)
    {
      if m.base.malformed || m.body.id in messages {
        return false;
      }
      messages := messages[m.body.id := m];
      return true;
    }

    method StoreAnnounceAndReturnIfNew(a: Packet) returns (isNew: bool)
      modifies this`announces
      ensures (State(), isNew) == StoreAnnounce(old(State()), a)
    {
      if a.base.malformed {
        return false;
      }
      var key := KeyOf(a);
      var found := key in announces;
      if !found || announces[key].base.timestamp < a.base.timestamp {
        announces := announces[key := a];
        // the name is compared with the entry that has just been overwritten
        if !found || NameOf(announces[key]) != NameOf(a) {
          return true;
        }
      }
      return false;
    }

    method CheckSenderInPeers(sender: U64)
      modifies this`peers
      ensures State() == CheckSender(old(State()), sender)
    {
      if sender !in peers {
        peers := peers[sender := NEW_PEER.(id := sender)];
      }
    }

    // ---- queues --------------------------------------------------------------------------------

    method EnqueueTargetedPacket(ref: Ref, handle: Handle)
      requires Known(State(), ref)
      modifies this`connections, this`targetedPackets
      ensures State() == EnqueueTargeted(old(State()), ref, handle)
    {
      if PacketOf(State(), ref).base.ttl > 0 {
        ConnectionForConnHandle(handle);
        var found := false;
        for i := 0 to |targetedPackets|
          invariant found <==> (ref, handle) in targetedPackets[..i]
        {
          if targetedPackets[i] == (ref, handle) {
            found := true;
          }
        }
        assert targetedPackets[..|targetedPackets|] == targetedPackets;
        if !found {
          targetedPackets := targetedPackets + [(ref, handle)];
        }
      }
    }

    method EnqueueBroadcastPacket(ref: Ref)
      requires Known(State(), ref)
      modifies this`broadcastPackets
      ensures State() == EnqueueBroadcast(old(State()), ref)
    {
      if PacketOf(State(), ref).base.ttl > 0 {
        broadcastPackets := broadcastPackets + [ref];
      }
    }

    method EnqueueBroadcastPacketFrom(ref: Ref, peer: U64)
      requires Known(State(), ref)
      modifies this`broadcastPackets, this`packetsPeersSent
      ensures State() == EnqueueFrom(old(State()), ref, peer)
    {
      packetsPeersSent := packetsPeersSent + [(ref, peer)];
      EnqueueBroadcastPacket(ref);
    }

    // ---- links ---------------------------------------------------------------------------------

    method ReportConnection(handle: Handle, address: Address, role: Option<nat>, now: nat)
      requires Valid()
      modifies this`connections, this`availableNeighbours
      ensures Valid() && State() == TrackerState.ReportConnection(old(State()), handle, address, role, now)
    {
      hide Inv, TrackerState.ReportConnection;
      ReportConnectionInv(State(), handle, address, role, now);
      var c := NEW_CONNECTION;
      if address in availableNeighbours {
        c := availableNeighbours[address];
      } else if handle in connections {
        c := connections[handle];
      }
      c := c.(handle := handle, connected := true, lastSeen := now);
      if role.Some? {
        c := c.(role := role.value);
      }
      ConnectionIs(State(), handle, address, role, now, c);
      connections := connections[handle := c];
      availableNeighbours := availableNeighbours - {address};
    }

    method ReportDisconnection(handle: Handle)
      requires Valid()
      modifies this
      ensures Valid() && State() == TrackerState.ReportDisconnection(old(State()), handle)
    {
      hide Inv, Keep, AnnouncedTo, Not, TrackerState.ReportDisconnection;
      ReportDisconnectionInv(State(), handle);
      var c := if handle in connections then connections[handle] else NEW_CONNECTION;
      connections := connections[handle := c.(connected := false)];
      if handle !in peers {
        peers := peers[handle := NEW_PEER];
      }
      DisconnectionIs(old(State()), State(), handle);
      ForgetAnnounces(handle);
    }

    /** This node's announces are no longer recorded for the handle, nor is its owner. */
    method ForgetAnnounces(handle: Handle)
      modifies this`handlePeerMap, this`packetsConnectionsSent, this`targetedPackets
      ensures State() == var s := old(State());
                         s.(handlePeers := s.handlePeers - {handle},
                            sent := Keep(s.sent, Not(AnnouncedTo(s, handle))),
                            targeted := Keep(s.targeted, Not(AnnouncedTo(s, handle))))
    {
      hide Keep, AnnouncedTo, Not;
      var announced := AnnouncedTo(State(), handle);
      handlePeerMap := handlePeerMap - {handle};
      packetsConnectionsSent := EraseIf(packetsConnectionsSent, announced);
      targetedPackets := EraseIf(targetedPackets, announced);
    }

    // ---- sending -------------------------------------------------------------------------------

    /** Hands the packet to the radio unless it came from this connection or is too big for it. */
    method SendPacketToConnection(ref: Ref, handle: Handle, radio: Radio) returns (ok: bool, tried: seq<Transmission>)
      requires Refers(State(), (ref, handle))
      ensures ok == SendSucceeds(State(), (ref, handle), radio)
      ensures tried == Transmitted(State(), (ref, handle), radio)
    {
      var packet, connection := PacketOf(State(), ref), connections[handle];
      if packet.base.sendingHandle > 0 && packet.base.sendingHandle == connection.handle {
        return true, [];
      }
      var data := WritePacket(packet);
      if connection.mtu > 0 && |data| > connection.mtu {
        return false, [];
      }
      ok := radio(ref, handle);
      tried := [Transmission(ref, connection.handle, data, ok)];
    }

    /** Whether some entry of the packet names a connection with this handle. */
    method SentBefore(ref: Ref, handle: Handle) returns (found: bool)
      requires AllRefer(State())
      ensures found == SentTo(State(), ref, handle)
    {
      hide SentTo, Known;
      found := false;
      NoneUpTo(State(), ref, handle, _ => 0);
      for i := 0 to |packetsConnectionsSent|
        invariant found == SentTo(UpTo(State(), i), ref, handle)
      {
        var e := packetsConnectionsSent[i];
        OneMore(State(), i, ref, handle, _ => 0);
        if e.0 == ref && connections[e.1].handle == handle {
          found := true;
        }
      }
      AllUpTo(State());
    }

    /** The search before a broadcast: it starts at the packet's first entry, if there is one, and
        runs on to the end of the list, which is ordered by address. */
    method FoundFrom(ref: Ref, handle: Handle, layout: Layout) returns (found: bool)
      requires AllRefer(State())
      ensures found == ScanHits(State(), ref, handle, layout)
    {
      hide HasEntry, Shadowed, Known;
      var entry, behind := false, false;
      NoneUpTo(State(), ref, handle, layout);
      for i := 0 to |packetsConnectionsSent|
        invariant entry == HasEntry(UpTo(State(), i), ref)
        invariant behind == Shadowed(UpTo(State(), i), ref, handle, layout)
      {
        var e := packetsConnectionsSent[i];
        OneMore(State(), i, ref, handle, layout);
        if e.0 == ref {
          entry := true;
        }
        if layout(e.0) >= layout(ref) && connections[e.1].handle == handle {
          behind := true;
        }
      }
      AllUpTo(State());
      found := entry && behind;
    }

    /** One targeted entry. */
    method TryEntry(ref: Ref, handle: Handle, radio: Radio, done: set<Ref>, log: seq<Transmission>)
      returns (done': set<Ref>, log': seq<Transmission>)
      requires AllRefer(State()) && Refers(State(), (ref, handle))
      modifies this`packetsConnectionsSent
      ensures State() == old(State()).(sent := packetsConnectionsSent) && AllRefer(State())
      ensures Sending(State(), done', log') == TryTargeted(Sending(old(State()), done, log), (ref, handle), radio)
    {
      hide SentTo, Known, SendSucceeds, Transmitted;
      done', log' := done, log;
      var sentBefore := SentBefore(ref, connections[handle].handle);
      if !sentBefore {
        var ok, tried := SendPacketToConnection(ref, handle, radio);
        log' := log + tried;
        if ok {
          RecordingRefers(State(), (ref, handle));
          packetsConnectionsSent := packetsConnectionsSent + [(ref, handle)];
          done' := done + {ref};
        }
      }
    }

    method SendTargetedPackets(radio: Radio) returns (done: set<Ref>, log: seq<Transmission>)
      requires AllRefer(State())
      modifies this`packetsConnectionsSent
      ensures State() == old(State()).(sent := packetsConnectionsSent) && AllRefer(State())
      ensures forall e :: e in targetedPackets ==> Refers(old(State()), e)
      ensures Sending(State(), done, log) == SendTargeted(Sending(old(State()), {}, []), targetedPackets, radio)
    {
      hide TryTargeted, Refers;
      done, log := {}, [];
      ghost var x0 := Sending(State(), {}, []);
      for i := 0 to |targetedPackets|
        invariant State() == old(State()).(sent := packetsConnectionsSent) && AllRefer(State())
        invariant forall e :: e in targetedPackets ==> Refers(State(), e)
        invariant SendTargeted(Sending(State(), done, log), targetedPackets[i..], radio) ==
                  SendTargeted(x0, targetedPackets, radio)
      {
        var (ref, handle) := targetedPackets[i];
        SuffixNext(targetedPackets, i);
        done, log := TryEntry(ref, handle, radio, done, log);
      }
    }

    /** One connection of a broadcast. */
    method TryConnection(ref: Ref, handle: Handle, layout: Layout, radio: Radio, ghost done: set<Ref>,
        log: seq<Transmission>)
      returns (log': seq<Transmission>)
      requires AllRefer(State()) && Refers(State(), (ref, handle))
      modifies this`packetsConnectionsSent
      ensures State() == old(State()).(sent := packetsConnectionsSent) && AllRefer(State())
      ensures Sending(State(), done, log') == TryBroadcast(Sending(old(State()), done, log), (ref, handle),
              layout, radio)
    {
      hide ScanHits, Known, SendSucceeds, Transmitted;
      log' := log;
      var found := FoundFrom(ref, connections[handle].handle, layout);
      if !found {
        var ok, tried := SendPacketToConnection(ref, handle, radio);
        log' := log + tried;
        RecordingRefers(State(), (ref, handle));
        packetsConnectionsSent := packetsConnectionsSent + [(ref, handle)];
      }
    }

    method SendBroadcastPacket(ref: Ref, handles: seq<Handle>, layout: Layout, radio: Radio,
                               ghost done: set<Ref>, log: seq<Transmission>)
      returns (log': seq<Transmission>)
      requires AllRefer(State()) && forall h :: h in handles ==> Refers(State(), (ref, h))
      modifies this`packetsConnectionsSent
      ensures State() == old(State()).(sent := packetsConnectionsSent) && AllRefer(State())
      ensures handles == [] ==> State() == old(State()) && log' == log
      ensures Sending(State(), done, log') == SendBroadcast(Sending(old(State()), done, log), ref, handles,
              layout, radio)
    {
      hide TryBroadcast, Known;
      log' := log;
      ghost var x0 := Sending(State(), done, log);
      for i := 0 to |handles|
        invariant State() == old(State()).(sent := packetsConnectionsSent) && AllRefer(State())
        invariant forall h :: h in handles ==> Refers(State(), (ref, h))
        invariant i == 0 ==> State() == old(State()) && log' == log
        invariant SendBroadcast(Sending(State(), done, log'), ref, handles[i..], layout, radio) ==
                  SendBroadcast(x0, ref, handles, layout, radio)
      {
        assert handles[i] in handles;
        SuffixNext(handles, i);
        ghost var s := State();
        log' := TryConnection(ref, handles[i], layout, radio, done, log');
        GrowthKeepsReferences(s, State());
      }
    }

    /** What a main loop calls about once a second. */
    method SendPackets(layout: Layout, radio: Radio) returns (log: seq<Transmission>)
      requires Valid()
      modifies this`packetsConnectionsSent, this`targetedPackets, this`broadcastPackets
      ensures Valid() && (State(), log) == TrackerState.SendPackets(old(State()), layout, radio)
    {
      hide Inv, SendTargeted, SendBroadcast, Keep, NotDone, OtherThan;
      IntactInv(State());
      SendPacketsInv(State(), layout, radio);
      if broadcastPackets == [] && targetedPackets == [] {
        return [];
      }
      var done;
      done, log := SendAllTargetedPackets(radio);
      log := SendOldestBroadcastPacket(layout, radio, done, log);
    }

    method SendAllTargetedPackets(radio: Radio) returns (done: set<Ref>, log: seq<Transmission>)
      requires Intact(State())
      modifies this`packetsConnectionsSent, this`targetedPackets
      ensures Sending(State(), done, log) == SendAllTargeted(old(State()), radio)
      ensures AllRefer(State()) && forall ref :: ref in broadcastPackets ==> Known(State(), ref)
    {
      hide SendTargeted, Keep, Known;
      ghost var s := State();
      done, log := SendTargetedPackets(radio);
      KeepRefers(State(), NotDone(done));
      targetedPackets := EraseIf(targetedPackets, For(done));
      GrowthKeepsReferences(s, State());
    }

    /** The loop over the queue stops after the first packet for which a connection exists. */
    method SendOldestBroadcastPacket(layout: Layout, radio: Radio, ghost done: set<Ref>, log: seq<Transmission>)
      returns (log': seq<Transmission>)
      requires AllRefer(State()) && forall ref :: ref in broadcastPackets ==> Known(State(), ref)
      modifies this`packetsConnectionsSent, this`broadcastPackets
      ensures Sending(State(), done, log') == SendOldestBroadcast(Sending(old(State()), done, log), layout, radio)
    {
      hide SendBroadcast, Keep, Refers, AllRefer, Available, Listening, OtherThan;
      log' := log;
      if broadcastPackets == [] {
        return;
      }
      var ref := broadcastPackets[0];
      assert ref in broadcastPackets;
      var handles := AvailableHandles(State());
      ListenersRefer(State());
      log' := SendBroadcastPacket(ref, handles, layout, radio, done, log');
      // with no connection the packets behind it find none either
      if handles != [] {
        RemoveFromQueue(ref);
      }
    }

    method RemoveFromQueue(ref: Ref)
      modifies this`broadcastPackets
      ensures State() == old(State()).(broadcast := Keep(old(broadcastPackets), OtherThan(ref)))
    {
      hide Keep, Is;
      broadcastPackets := EraseIf(broadcastPackets, Is(ref));
    }

    // ---- announcing ----------------------------------------------------------------------------

    method SetupAnnounceIfNeeded(me: Identity, at: Location)
      modifies this`announce
      ensures State() == old(State()).(own := SetUpAnnounce(old(announce), me, at))
    {
      var body := WithAltitude(WithLongitude(WithLatitude(announce.body, at.latitude), at.longitude), at.altitude);
      announce := announce.(body := body);
      if announce.base.ttl == OWN_TTL {
        return;
      }
      announce := announce.(base := announce.base.(ttl := OWN_TTL, flags := 0, sender := me.sender));
      if announce.body.AnnounceBody? {
        announce := announce.(body := announce.body.(name := me.name));
      }
    }

    method AnnounceToConnections(me: Identity, at: Location, haveTime: bool, now: U64)
      requires Valid()
      modifies this
      ensures Valid() && State() == TrackerState.AnnounceToConnections(old(State()), me, at, haveTime, now)
    {
      hide Inv, AnnounceTo, SetUpAnnounce, Unannounced;
      AnnounceToConnectionsInv(State(), me, at, haveTime, now);
      SetupAnnounceIfNeeded(me, at);
      var handles := Unannounced(State(), haveTime);
      EnqueueAnnounce(handles, now);
    }

    method EnqueueAnnounce(handles: seq<Handle>, now: U64)
      modifies this`announce, this`connections, this`targetedPackets
      ensures State() == AnnounceTo(old(State()), handles, now)
    {
      hide EnqueueTargeted;
      for i := 0 to |handles|
        invariant AnnounceTo(State(), handles[i..], now) == AnnounceTo(old(State()), handles, now)
      {
        SuffixNext(handles, i);
        announce := announce.(base := announce.base.(timestamp := now));
        EnqueueTargetedPacket(OwnAnnounce, handles[i]);
      }
    }

    // ---- cleaning up ---------------------------------------------------------------------------

    method CleanupStaleItems(now: U64)
      requires Valid()
      modifies this
      ensures Valid() && State() == TrackerState.CleanupStaleItems(old(State()), now)
    {
      hide Inv, Keep, StaleEntry, StalePeerEntry, StaleRef, Not, LiveConnections, LivePackets;
      CleanupInv(State(), now);
      CleanupLists(now);
      connections := LiveConnections(connections, now);
      availableNeighbours := LiveConnections(availableNeighbours, now);
      messages := LivePackets(messages, now);
      announces := LivePackets(announces, now);
    }

    method CleanupLists(now: U64)
      modifies this`packetsConnectionsSent, this`packetsPeersSent, this`broadcastPackets, this`targetedPackets
      ensures var s := old(State());
              State() == s.(sent := Keep(s.sent, Not(StaleEntry(s, now))),
                            peersSent := Keep(s.peersSent, Not(StalePeerEntry(s, now))),
                            broadcast := Keep(s.broadcast, Not(StaleRef(s, now))),
                            targeted := Keep(s.targeted, Not(StaleEntry(s, now))))
    {
      hide Keep, StaleEntry, StalePeerEntry, StaleRef, Not;
      var packetConnectionStale := StaleEntry(State(), now);
      var packetPeerStale := StalePeerEntry(State(), now);
      var packetStale := StaleRef(State(), now);
      packetsConnectionsSent := EraseIf(packetsConnectionsSent, packetConnectionStale);
      packetsPeersSent := EraseIf(packetsPeersSent, packetPeerStale);
      broadcastPackets := EraseIf(broadcastPackets, packetStale);
      targetedPackets := EraseIf(targetedPackets, packetConnectionStale);
    }

    // ---- two links to one peer -----------------------------------------------------------------

    /** When a connection was last seen; looking it up creates it. */
    method TimestampOf(handle: Handle) returns (time: nat)
      modifies this`connections
      ensures time == LastSeen(old(connections), handle)
      ensures connections == Opened(old(connections), handle)
    {
      if handle !in connections {
        connections := connections[handle := NEW_CONNECTION];
      }
      time := connections[handle].lastSeen;
    }

    /** The first two handles found to belong to one peer. Handle zero marks "none yet", so it is
        never one of them. */
    method FindDuplicate() returns (pair: Option<(Handle, Handle)>)
      ensures pair.None? <==> !OwnedTwice(handlePeerMap)
      ensures pair.Some? ==> SameOwner(handlePeerMap, pair.value.0, pair.value.1)
    {
      hide OwnedTwice, SameOwner, Noted;
      var reversed: map<U64, Handle> := map[];
      var handles := Ascending(handlePeerMap.Keys);
      NotedNone(handlePeerMap);
      var i := 0;
      while i < |handles|
        invariant 0 <= i <= |handles|
        invariant Noted(handlePeerMap, handles[..i], reversed)
      {
        var handle := handles[i];
        assert handle in handlePeerMap.Keys;
        PrefixNext(handles, i);
        PrefixBelow(handles, i);
        NotedMore(handlePeerMap, handles[..i], handle, reversed);
        var peer := handlePeerMap[handle];
        if peer in reversed && reversed[peer] != 0 {
          return Some((reversed[peer], handle));
        }
        reversed := reversed[peer := handle];
        i := i + 1;
      }
      WholePrefix(handles);
      NotedAll(handlePeerMap, handles, reversed);
      return None;
    }

    /** Zero exactly when no two handles other than zero belong to one peer, and then nothing changes.
        Otherwise a handle whose peer also owns another one that was seen no earlier; both are opened if
        they had no connection. */
    method GetAnyDuplicateHandle() returns (r: Handle)
      modifies this`connections
      ensures r == 0 <==> !OwnedTwice(handlePeerMap)
      ensures r == 0 ==> connections == old(connections)
      ensures r != 0 ==> exists k :: SameOwner(handlePeerMap, r, k)
                                     && LastSeen(old(connections), k) >= LastSeen(old(connections), r)
                                     && connections == Opened(Opened(old(connections), r), k)
    {
      var pair := FindDuplicate();
      if pair.None? {
        return 0;
      }
      var (earlier, handle) := pair.value;
      var t := TimestampOf(earlier);
      var u := TimestampOf(handle);
      OpenedEitherWay(old(connections), earlier, handle);
      r := if t < u then earlier else handle;
    }
  }

  /** Two handles other than zero owned by one peer. */
  predicate SameOwner(owners: map<Handle, U64>, h: Handle, k: Handle) {
    h in owners && k in owners && h != 0 && k != 0 && h != k && owners[h] == owners[k]
  }

  predicate OwnedTwice(owners: map<Handle, U64>) {
    exists h, k :: h in owners && k in owners && SameOwner(owners, h, k)
  }

  /** Which handle, if any, each peer was last met under; handle zero counts as none. */
  predicate Noted(owners: map<Handle, U64>, met: seq<Handle>, reversed: map<U64, Handle>) {
    && (forall p :: p in reversed ==> reversed[p] in met && reversed[p] in owners && owners[reversed[p]] == p)
    && (forall h :: h in met && h in owners && h != 0 ==> owners[h] in reversed && reversed[owners[h]] == h)
  }

  lemma SuffixNext<T>(xs: seq<T>, i: nat)
    requires i < |xs|
    ensures xs[i..] != [] && xs[i..][0] == xs[i] && xs[i..][1..] == xs[i + 1..]
  {
  }

  lemma WholePrefix<T>(xs: seq<T>)
    ensures xs[..|xs|] == xs
  {
  }

  lemma PrefixBelow(xs: seq<Handle>, i: nat)
    requires i < |xs| && forall j, k :: 0 <= j < k < |xs| ==> xs[j] < xs[k]
    ensures forall x :: x in xs[..i] ==> x < xs[i]
  {
  }

  lemma PrefixNext<T>(xs: seq<T>, i: nat)
    requires i < |xs|
    ensures xs[..i + 1] == xs[..i] + [xs[i]]
  {
  }

  lemma NotedNone(owners: map<Handle, U64>)
    ensures Noted(owners, [], map[])
  {
  }

  lemma NotedMore(owners: map<Handle, U64>, met: seq<Handle>, h: Handle, reversed: map<U64, Handle>)
    requires Noted(owners, met, reversed) && h in owners && forall k :: k in met ==> k < h
    ensures if owners[h] in reversed && reversed[owners[h]] != 0
            then SameOwner(owners, reversed[owners[h]], h) && OwnedTwice(owners)
            else Noted(owners, met + [h], reversed[owners[h] := h])
  {
  }

  lemma NotedAll(owners: map<Handle, U64>, met: seq<Handle>, reversed: map<U64, Handle>)
    requires Noted(owners, met, reversed) && forall h :: h in owners ==> h in met
    ensures !OwnedTwice(owners)
  {
  }

  lemma ConnectionIs(s: Tracker, handle: Handle, address: Address, role: Option<nat>, now: nat, c: Connection)
    requires var known := if address in s.neighbours then s.neighbours[address]
                          else if handle in s.connections then s.connections[handle] else NEW_CONNECTION;
             c == known.(handle := handle, connected := true, lastSeen := now,
                         role := if role.Some? then role.value else known.role)
    ensures TrackerState.ReportConnection(s, handle, address, role, now) ==
            s.(connections := s.connections[handle := c], neighbours := s.neighbours - {address})
  {
  }

  function LastSeen(connections: map<Handle, Connection>, handle: Handle): nat {
    if handle in connections then connections[handle].lastSeen else NEW_CONNECTION.lastSeen
  }

  function Opened(connections: map<Handle, Connection>, handle: Handle): map<Handle, Connection> {
    if handle in connections then connections else connections[handle := NEW_CONNECTION]
  }

  lemma OpenedEitherWay(connections: map<Handle, Connection>, h: Handle, k: Handle)
    ensures Opened(Opened(connections, h), k) == Opened(Opened(connections, k), h)
    ensures LastSeen(Opened(connections, h), k) == LastSeen(connections, k)
  {
    assert Opened(Opened(connections, h), k) == Opened(Opened(connections, k), h);
  }

  lemma ListenersRefer(s: Tracker)
    ensures forall ref, h :: Known(s, ref) && h in AvailableHandles(s) ==> Refers(s, (ref, h))
  {
  }

  predicate AllRefer(s: Tracker) {
    && (forall i :: 0 <= i < |s.sent| ==> Refers(s, s.sent[i]))
    && (forall i :: 0 <= i < |s.targeted| ==> Refers(s, s.targeted[i]))
  }

  lemma KeepRefers(s: Tracker, p: ((Ref, Handle)) -> bool)
    requires AllRefer(s)
    ensures AllRefer(s.(targeted := Keep(s.targeted, p)))
  {
    hide Keep;
    KeepIsFilter(s.targeted, p);
    var t := s.(targeted := Keep(s.targeted, p));
    forall i | 0 <= i < |t.targeted|
      ensures Refers(t, t.targeted[i])
    {
      assert t.targeted[i] in Keep(s.targeted, p);
    }
  }

  lemma RecordingRefers(s: Tracker, e: (Ref, Handle))
    requires AllRefer(s) && Refers(s, e)
    ensures AllRefer(s.(sent := s.sent + [e]))
    ensures forall f :: Refers(s.(sent := s.sent + [e]), f) <==> Refers(s, f)
  {
  }

  function UpTo(s: Tracker, i: nat): Tracker
    requires i <= |s.sent|
  {
    s.(sent := s.sent[..i])
  }

  lemma NoneUpTo(s: Tracker, ref: Ref, handle: Handle, layout: Layout)
    ensures !SentTo(UpTo(s, 0), ref, handle) && !HasEntry(UpTo(s, 0), ref) && !Shadowed(UpTo(s, 0), ref, handle, layout)
  {
  }

  lemma AllUpTo(s: Tracker)
    ensures UpTo(s, |s.sent|) == s
  {
    assert s.sent[..|s.sent|] == s.sent;
  }

  lemma OneMore(s: Tracker, i: nat, ref: Ref, handle: Handle, layout: Layout)
    requires i < |s.sent| && Refers(s, s.sent[i])
    ensures var e, t, u := s.sent[i], UpTo(s, i), UpTo(s, i + 1);
            && (SentTo(u, ref, handle) <==>
                SentTo(t, ref, handle) || (e.0 == ref && s.connections[e.1].handle == handle))
            && (HasEntry(u, ref) <==> HasEntry(t, ref) || e.0 == ref)
            && (Shadowed(u, ref, handle, layout) <==>
                Shadowed(t, ref, handle, layout) || (layout(e.0) >= layout(ref) && s.connections[e.1].handle == handle))
  {
    var t, u := UpTo(s, i), UpTo(s, i + 1);
    assert u.sent == t.sent + [s.sent[i]];
    assert s.sent[i] in u.sent;
    assert forall e :: e in t.sent ==> e in u.sent;
  }
}
