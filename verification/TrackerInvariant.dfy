/** What every operation of a node keeps. */
module TrackerInvariant {
  import opened Bytes
  import opened PacketFormat
  import opened TrackerState

  // ---- lists -----------------------------------------------------------------------------------

  lemma {:induction false} KeepIsFilter<T>(xs: seq<T>, p: T -> bool)
    ensures forall x :: x in Keep(xs, p) <==> x in xs && p(x)
  {
    if xs != [] {
      KeepIsFilter(xs[1..], p);
      assert xs == [xs[0]] + xs[1..];
    }
  }

  lemma {:induction false} KeepNoDuplicates<T>(xs: seq<T>, p: T -> bool)
    requires NoDuplicates(xs)
    ensures NoDuplicates(Keep(xs, p))
  {
    if xs != [] {
      assert forall x :: x in xs[1..] ==> x != xs[0];
      KeepNoDuplicates(xs[1..], p);
      KeepIsFilter(xs[1..], p);
    }
  }

  lemma {:induction false} KeepAll<T>(xs: seq<T>, p: T -> bool)
    requires forall x :: x in xs ==> p(x)
    ensures Keep(xs, p) == xs
  {
    if xs != [] {
      assert xs[0] in xs;
      KeepAll(xs[1..], p);
    }
  }

  // ---- the invariant ---------------------------------------------------------------------------

  /** A live connection is stored under its own handle, and so is every one a list refers to. */
  predicate HandlesAgree(s: Tracker) {
    && (forall h :: h in s.connections && s.connections[h].connected ==> s.connections[h].handle == h)
    && (forall e :: e in s.sent && e.1 in s.connections ==> s.connections[e.1].handle == e.1)
    && (forall e :: e in s.targeted && e.1 in s.connections ==> s.connections[e.1].handle == e.1)
  }

  /** Nothing is recorded or queued twice. */
  predicate Unrepeated(s: Tracker) {
    NoDuplicates(s.sent) && NoDuplicates(s.targeted) && NoDuplicates(s.broadcast)
  }

  /** The stores hold well-formed packets under their own keys. */
  predicate Stored(s: Tracker) {
    && (forall id :: id in s.messages ==>
          && s.messages[id].body.MessageBody? && s.messages[id].body.id == id
          && s.messages[id].base.ptype == TYPE_MESSAGE && !s.messages[id].base.malformed)
    && (forall k :: k in s.announces ==>
          && s.announces[k].body.AnnounceBody? && KeyOf(s.announces[k]) == k
          && s.announces[k].base.ptype == TYPE_ANNOUNCE && !s.announces[k].base.malformed)
    && s.own.body.AnnounceBody? && s.own.base.ptype == TYPE_ANNOUNCE
  }

  /** Only messages and received announces are broadcast, a queued message can still hop, and only
      the node's own announce is targeted. */
  predicate Queued(s: Tracker) {
    && OwnAnnounce !in s.broadcast
    && (forall e :: e in s.targeted ==> e.0 == OwnAnnounce)
    && (forall id :: MessageRef(id) in s.broadcast && id in s.messages ==> s.messages[id].base.ttl >= 1)
  }

  predicate Inv(s: Tracker) {
    Intact(s) && HandlesAgree(s) && Unrepeated(s) && Stored(s) && Queued(s)
  }

  /** A node as it is switched on. */
  function SwitchedOn(own: Packet): Tracker {
    Tracker(map[], map[], map[], own, map[], map[], map[], [], [], [], [])
  }

  lemma SwitchedOnInv(own: Packet)
    requires own.body.AnnounceBody? && own.base.ptype == TYPE_ANNOUNCE
    ensures Inv(SwitchedOn(own))
  {
  }

  // ---- tables that grow ------------------------------------------------------------------------

  /** Nothing a list could refer to disappears. */
  predicate Grows(s: Tracker, t: Tracker) {
    && s.messages.Keys <= t.messages.Keys && s.announces.Keys <= t.announces.Keys
    && s.connections.Keys <= t.connections.Keys && s.peers.Keys <= t.peers.Keys
  }

  predicate SameLists(s: Tracker, t: Tracker) {
    && s.sent == t.sent && s.targeted == t.targeted && s.broadcast == t.broadcast
    && s.peersSent == t.peersSent
  }

  lemma GrowthKeepsReferences(s: Tracker, t: Tracker)
    requires Grows(s, t)
    ensures forall r :: Known(s, r) ==> Known(t, r)
    ensures forall e :: Refers(s, e) ==> Refers(t, e)
  {
  }

  lemma GrowthKeepsIntact(s: Tracker, t: Tracker)
    requires Intact(s) && Grows(s, t) && SameLists(s, t)
    requires forall h :: h in t.handlePeers ==> t.handlePeers[h] in t.peers
    ensures Intact(t)
  {
    hide Known, Refers, Grows;
    GrowthKeepsReferences(s, t);
    assert s.peers.Keys <= t.peers.Keys by { PeersGrow(s, t); }
  }

  lemma PeersGrow(s: Tracker, t: Tracker)
    requires Grows(s, t)
    ensures s.peers.Keys <= t.peers.Keys
  {
  }

  /** A message is put in the store, over an older copy if there is one. */
  lemma PutMessageInv(s: Tracker, m: Packet)
    requires Inv(s) && m.body.MessageBody? && m.base.ptype == TYPE_MESSAGE && !m.base.malformed
    requires MessageRef(m.body.id) !in s.broadcast
    ensures Inv(s.(messages := s.messages[m.body.id := m]))
  {
    hide Intact, Known;
    var t := s.(messages := s.messages[m.body.id := m]);
    PutMessageIntact(s, m);
  }

  lemma PutMessageIntact(s: Tracker, m: Packet)
    requires Intact(s) && m.body.MessageBody?
    ensures Intact(s.(messages := s.messages[m.body.id := m]))
  {
    hide Known, Refers;
    var t := s.(messages := s.messages[m.body.id := m]);
    GrowthKeepsIntact(s, t);
  }

  lemma PutAnnounceInv(s: Tracker, a: Packet)
    requires Inv(s) && a.body.AnnounceBody? && a.base.ptype == TYPE_ANNOUNCE && !a.base.malformed
    ensures Inv(s.(announces := s.announces[KeyOf(a) := a]))
  {
    hide Intact, Known;
    PutAnnounceIntact(s, a);
  }

  lemma PutAnnounceIntact(s: Tracker, a: Packet)
    requires Intact(s)
    ensures Intact(s.(announces := s.announces[KeyOf(a) := a]))
  {
    hide Known, Refers, KeyOf;
    GrowthKeepsIntact(s, s.(announces := s.announces[KeyOf(a) := a]));
  }

  /** Peers and who owns which handle play no part but in the peer lists. */
  lemma PeersInv(s: Tracker, t: Tracker)
    requires Inv(s) && t == s.(peers := t.peers, handlePeers := t.handlePeers)
    requires s.peers.Keys <= t.peers.Keys
    requires forall h :: h in t.handlePeers ==> t.handlePeers[h] in t.peers
    ensures Inv(t)
  {
    hide Intact, KeyOf;
    PeersIntact(s, t);
  }

  lemma PeersIntact(s: Tracker, t: Tracker)
    requires Intact(s) && t == s.(peers := t.peers, handlePeers := t.handlePeers)
    requires s.peers.Keys <= t.peers.Keys
    requires forall h :: h in t.handlePeers ==> t.handlePeers[h] in t.peers
    ensures Intact(t)
  {
    hide Known, Refers;
    GrowthKeepsIntact(s, t);
  }

  lemma CheckSenderInv(s: Tracker, sender: U64)
    requires Inv(s)
    ensures Inv(CheckSender(s, sender)) && sender in CheckSender(s, sender).peers
    ensures CheckSender(s, sender) == s.(peers := CheckSender(s, sender).peers)
    ensures s.peers.Keys <= CheckSender(s, sender).peers.Keys
  {
    hide Inv;
    assert forall h :: h in s.handlePeers ==> s.handlePeers[h] in s.peers by { OwnersArePeers(s); }
    PeersInv(s, CheckSender(s, sender));
  }

  lemma OwnersArePeers(s: Tracker)
    requires Inv(s)
    ensures forall h :: h in s.handlePeers ==> s.handlePeers[h] in s.peers
  {
    hide Known, Refers, HandlesAgree, Unrepeated, Stored, Queued;
  }

  lemma OwnInv(s: Tracker, own: Packet)
    requires Inv(s) && own.body.AnnounceBody? && own.base.ptype == TYPE_ANNOUNCE
    ensures Inv(s.(own := own))
  {
    hide Intact, KeyOf;
    OwnIntact(s, own);
  }

  lemma OwnIntact(s: Tracker, own: Packet)
    requires Intact(s)
    ensures Intact(s.(own := own))
  {
    hide Known, Refers;
    GrowthKeepsIntact(s, s.(own := own));
  }

  // ---- queues that grow ------------------------------------------------------------------------

  lemma QueueInv(s: Tracker, ref: Ref)
    requires Inv(s) && Known(s, ref) && ref != OwnAnnounce && ref !in s.broadcast
    ensures Inv(EnqueueBroadcast(s, ref))
  {
    hide Stored, Refers, HandlesAgree, KeyOf;
    QueueAgrees(s, ref);
    assert Stored(EnqueueBroadcast(s, ref)) by { QueueStored(s, ref); }
  }

  lemma QueueAgrees(s: Tracker, ref: Ref)
    requires HandlesAgree(s) && Known(s, ref)
    requires Intact(s)
    ensures HandlesAgree(EnqueueBroadcast(s, ref))
    ensures forall e :: Refers(s, e) ==> Refers(EnqueueBroadcast(s, ref), e)
  {
  }

  lemma QueueStored(s: Tracker, ref: Ref)
    requires Stored(s) && Known(s, ref)
    ensures Stored(EnqueueBroadcast(s, ref))
  {
    hide KeyOf;
  }

  lemma PeerSentInv(s: Tracker, ref: Ref, peer: U64)
    requires Inv(s) && Known(s, ref) && peer in s.peers
    ensures Inv(s.(peersSent := s.peersSent + [(ref, peer)]))
  {
    hide KeyOf;
  }

  lemma QueueFromInv(s: Tracker, ref: Ref, peer: U64)
    requires Inv(s) && Known(s, ref) && ref != OwnAnnounce && ref !in s.broadcast && peer in s.peers
    ensures Inv(EnqueueFrom(s, ref, peer))
  {
    hide Inv, EnqueueBroadcast;
    PeerSentInv(s, ref, peer);
    QueueInv(s.(peersSent := s.peersSent + [(ref, peer)]), ref);
  }

  // ---- receiving -------------------------------------------------------------------------------

  lemma UnknownIsUnqueued(s: Tracker, ref: Ref)
    requires Inv(s) && !Known(s, ref)
    ensures ref !in s.broadcast && (forall e :: e in s.sent || e in s.targeted ==> e.0 != ref)
  {
    hide HandlesAgree, Unrepeated, Stored, Queued;
  }

  lemma ReceiveMessageInv(s: Tracker, handle: U16, parsed: Packet)
    requires Inv(s) && parsed.body.MessageBody? && parsed.base.ptype == TYPE_MESSAGE
    ensures Inv(ReceiveMessage(s, handle, parsed))
  {
    hide Inv, CheckSender, EnqueueFrom;
    var m := parsed.(base := parsed.base.(sendingHandle := handle));
    var id := m.body.id;
    var (s1, isNew) := StoreMessage(s, m);
    if isNew {
      UnknownIsUnqueued(s, MessageRef(id));
      PutMessageInv(s, m);
      if m.base.ttl > 1 {
        var m' := m.(base := m.base.(ttl := m.base.ttl - 1));
        PutMessageInv(s1, m');
        var t := s1.(messages := s1.messages[id := m']);
        CheckSenderInv(t, m.base.sender);
        QueueFromInv(CheckSender(t, m.base.sender), MessageRef(id), m.base.sender);
      }
    }
  }

  lemma OriginateInv(s: Tracker, m: Packet)
    requires Inv(s) && m.body.MessageBody? && m.base.ptype == TYPE_MESSAGE
    ensures Inv(Originate(s, m))
  {
    hide Inv, EnqueueBroadcast;
    var (s1, isNew) := StoreMessage(s, m);
    if isNew {
      UnknownIsUnqueued(s, MessageRef(m.body.id));
      PutMessageInv(s, m);
      QueueInv(s1, MessageRef(m.body.id));
    }
  }

  lemma UpdatePeerInv(s: Tracker, handle: Handle, a: Packet)
    requires Inv(s)
    ensures Inv(UpdatePeer(s, handle, a))
    ensures UpdatePeer(s, handle, a) == s.(peers := UpdatePeer(s, handle, a).peers,
            handlePeers := UpdatePeer(s, handle, a).handlePeers)
    ensures a.base.sender in UpdatePeer(s, handle, a).peers
  {
    hide Inv, CheckSender;
    CheckSenderInv(s, a.base.sender);
    OwnersArePeers(s);
    PeersInv(s, UpdatePeer(s, handle, a));
  }

  lemma ReceiveAnnounceInv(s: Tracker, handle: U16, parsed: Packet)
    requires Inv(s) && parsed.body.AnnounceBody? && parsed.base.ptype == TYPE_ANNOUNCE
    ensures Inv(ReceiveAnnounce(s, handle, parsed))
  {
    hide Inv, CheckSender, EnqueueFrom, UpdatePeer;
    var a := parsed.(base := parsed.base.(sendingHandle := handle));
    UpdatePeerInv(s, handle, a);
    var s0 := UpdatePeer(s, handle, a);
    var (s1, isNew) := StoreAnnounce(s0, a);
    if s1 != s0 {
      PutAnnounceInv(s0, a);
      if isNew && a.base.ttl > 1 {
        UnknownIsUnqueued(s0, AnnounceRef(KeyOf(a)));
        var a' := a.(base := a.base.(ttl := a.base.ttl - 1));
        PutAnnounceInv(s1, a');
        var t := s1.(announces := s1.announces[KeyOf(a) := a']);
        CheckSenderInv(t, a.base.sender);
        QueueFromInv(CheckSender(t, a.base.sender), AnnounceRef(KeyOf(a)), a.base.sender);
      }
    }
  }

  // ---- connections -----------------------------------------------------------------------------

  /** A connection is put in the table under its own handle, or a dead one under the old one. */
  predicate Placed(s: Tracker, h: Handle, c: Connection) {
    c.handle == h || (!c.connected && (h in s.connections ==> c.handle == s.connections[h].handle))
  }

  lemma PutConnectionInv(s: Tracker, h: Handle, c: Connection)
    requires Inv(s) && Placed(s, h, c)
    ensures Inv(s.(connections := s.connections[h := c]))
  {
    hide HandlesAgree, KeyOf, Known, Refers, Unrepeated, Placed;
    var t := s.(connections := s.connections[h := c]);
    assert Unrepeated(t) by { SameListsUnrepeated(s, t); }
    assert HandlesAgree(t) by { PutConnectionAgrees(s, h, c); }
    assert Intact(t) by { GrowthKeepsIntact(s, t); }
  }

  lemma SameListsUnrepeated(s: Tracker, t: Tracker)
    requires Unrepeated(s) && SameLists(s, t)
    ensures Unrepeated(t)
  {
  }

  lemma PutConnectionAgrees(s: Tracker, h: Handle, c: Connection)
    requires Intact(s) && HandlesAgree(s) && Placed(s, h, c)
    ensures HandlesAgree(s.(connections := s.connections[h := c]))
  {
    hide Known;
  }

  lemma NeighboursInv(s: Tracker, neighbours: map<Address, Connection>)
    requires Inv(s)
    ensures Inv(s.(neighbours := neighbours))
  {
    hide KeyOf, Intact;
    var t := s.(neighbours := neighbours);
    assert Intact(t) by { NeighboursIntact(s, neighbours); }
  }

  lemma NeighboursIntact(s: Tracker, neighbours: map<Address, Connection>)
    requires Intact(s)
    ensures Intact(s.(neighbours := neighbours))
  {
    hide Known, Refers;
    GrowthKeepsIntact(s, s.(neighbours := neighbours));
  }

  lemma ReportConnectionInv(s: Tracker, handle: Handle, address: Address, role: Option<nat>, now: nat)
    requires Inv(s)
    ensures Inv(ReportConnection(s, handle, address, role, now))
  {
    hide Inv;
    var t := ReportConnection(s, handle, address, role, now);
    PutConnectionInv(s, handle, t.connections[handle]);
    NeighboursInv(s.(connections := t.connections), t.neighbours);
  }

  /** Lists shrink, tables stay. */
  lemma ShrunkInv(s: Tracker, t: Tracker)
    requires Inv(s) && t == s.(sent := t.sent, targeted := t.targeted)
    requires (forall e :: e in t.sent ==> e in s.sent) && NoDuplicates(t.sent)
    requires (forall e :: e in t.targeted ==> e in s.targeted) && NoDuplicates(t.targeted)
    ensures Inv(t)
  {
    hide KeyOf, NoDuplicates;
  }

  lemma KeepShrinks<T>(xs: seq<T>, p: T -> bool)
    requires NoDuplicates(xs)
    ensures forall x :: x in Keep(xs, p) ==> x in xs
    ensures NoDuplicates(Keep(xs, p))
  {
    KeepIsFilter(xs, p);
    KeepNoDuplicates(xs, p);
  }

  lemma NothingRepeated(s: Tracker)
    requires Inv(s)
    ensures NoDuplicates(s.sent) && NoDuplicates(s.targeted) && NoDuplicates(s.broadcast)
  {
    hide Intact, HandlesAgree, Stored, Queued, NoDuplicates;
  }

  lemma ReportDisconnectionInv(s: Tracker, handle: Handle)
    requires Inv(s)
    ensures Inv(ReportDisconnection(s, handle))
  {
    hide Inv, Keep, AnnouncedTo, Not, NoDuplicates;
    var c := if handle in s.connections then s.connections[handle] else NEW_CONNECTION;
    var s0 := s.(connections := s.connections[handle := c.(connected := false)]);
    PutConnectionInv(s, handle, c.(connected := false));
    var s1 := s0.(peers := if handle in s.peers then s.peers else s.peers[handle := NEW_PEER]);
    var s2 := s1.(handlePeers := s1.handlePeers - {handle});
    OwnersArePeers(s);
    PeersInv(s0, s2);
    NothingRepeated(s2);
    var p := Not(AnnouncedTo(s1, handle));
    KeepShrinks(s.sent, p);
    KeepShrinks(s.targeted, p);
    ShrunkInv(s2, ReportDisconnection(s, handle));
  }

  lemma TargetInv(s: Tracker, handle: Handle)
    requires Inv(s) && handle in s.connections && s.connections[handle].handle == handle
    requires (OwnAnnounce, handle) !in s.targeted
    ensures Inv(s.(targeted := s.targeted + [(OwnAnnounce, handle)]))
  {
    hide KeyOf;
  }

  lemma EnqueueTargetedInv(s: Tracker, handle: Handle)
    requires Inv(s)
    requires handle in s.connections ==> s.connections[handle].handle == handle
    ensures Inv(EnqueueTargeted(s, OwnAnnounce, handle))
  {
    hide Inv;
    if handle !in s.connections {
      PutConnectionInv(s, handle, NEW_CONNECTION.(handle := handle));
    }
    var s1 := ConnectionFor(s, handle);
    if (OwnAnnounce, handle) !in s1.targeted {
      TargetInv(s1, handle);
    }
  }

  // ---- announcing ------------------------------------------------------------------------------

  lemma LiveHandle(s: Tracker, h: Handle)
    requires Inv(s) && h in s.connections && s.connections[h].connected
    ensures s.connections[h].handle == h
  {
    hide Intact, Stored, Queued, Unrepeated;
  }

  lemma OwnKind(s: Tracker)
    requires Inv(s)
    ensures s.own.body.AnnounceBody? && s.own.base.ptype == TYPE_ANNOUNCE
  {
    hide Intact, HandlesAgree, Queued, Unrepeated, KeyOf;
  }

  /** Announcing to connections that are there touches the announce and the targeted list only. */
  lemma {:induction false} AnnounceToInv(s: Tracker, handles: seq<Handle>, now: U64)
    requires Inv(s)
    requires forall h :: h in handles ==> h in s.connections && s.connections[h].connected
    ensures Inv(AnnounceTo(s, handles, now))
    decreases |handles|
  {
    hide Inv, EnqueueTargeted;
    if handles != [] {
      var s1 := s.(own := s.own.(base := s.own.base.(timestamp := now)));
      OwnKind(s);
      OwnInv(s, s1.own);
      assert handles[0] in handles;
      LiveHandle(s, handles[0]);
      EnqueueTargetedInv(s1, handles[0]);
      var s2 := EnqueueTargeted(s1, OwnAnnounce, handles[0]);
      assert s2.connections == s.connections by { TargetedKeepsConnections(s1, OwnAnnounce, handles[0]); }
      AnnounceToInv(s2, handles[1..], now);
    }
  }

  lemma TargetedKeepsConnections(s: Tracker, ref: Ref, handle: Handle)
    requires Known(s, ref) && handle in s.connections
    ensures EnqueueTargeted(s, ref, handle) == s.(targeted := EnqueueTargeted(s, ref, handle).targeted)
  {
  }

  lemma AnnounceToConnectionsInv(s: Tracker, me: Identity, at: Location, haveTime: bool, now: U64)
    requires Inv(s)
    ensures Inv(AnnounceToConnections(s, me, at, haveTime, now))
  {
    hide AnnounceTo, Inv;
    var s1 := s.(own := SetUpAnnounce(s.own, me, at));
    OwnKind(s);
    OwnInv(s, s1.own);
    AnnounceToInv(s1, Unannounced(s1, haveTime), now);
  }

  // ---- sending ---------------------------------------------------------------------------------

  lemma SentInv(s: Tracker, e: (Ref, Handle))
    requires Inv(s) && Refers(s, e) && s.connections[e.1].handle == e.1 && e !in s.sent
    ensures Inv(s.(sent := s.sent + [e]))
  {
    hide KeyOf;
  }

  lemma TargetsAgree(s: Tracker)
    requires Inv(s)
    ensures forall e :: e in s.targeted ==> Refers(s, e) && s.connections[e.1].handle == e.1
  {
    hide Known, Stored, Queued, Unrepeated;
  }

  lemma RecordedIsSent(s: Tracker, e: (Ref, Handle))
    requires e in s.sent && e.1 in s.connections
    ensures SentTo(s, e.0, s.connections[e.1].handle)
  {
  }

  lemma {:induction false} SendTargetedInv(x: Sending, entries: seq<(Ref, Handle)>, radio: Radio)
    requires Inv(x.s)
    requires forall e :: e in entries ==> Refers(x.s, e) && x.s.connections[e.1].handle == e.1
    ensures Inv(SendTargeted(x, entries, radio).s)
    decreases |entries|
  {
    hide Inv, Known, SentTo, SendSucceeds, Transmitted;
    if entries != [] {
      var e := entries[0];
      assert e in entries;
      var x' := TryTargeted(x, e, radio);
      if x'.s != x.s {
        if e in x.s.sent { RecordedIsSent(x.s, e); }
        SentInv(x.s, e);
        GrowthKeepsReferences(x.s, x'.s);
      }
      SendTargetedInv(x', entries[1..], radio);
    }
  }

  lemma RecordedIsHit(s: Tracker, e: (Ref, Handle), layout: Layout)
    requires e in s.sent && e.1 in s.connections
    ensures ScanHits(s, e.0, s.connections[e.1].handle, layout)
  {
  }

  lemma {:induction false} SendBroadcastInv(x: Sending, ref: Ref, handles: seq<Handle>, layout: Layout, radio: Radio)
    requires Inv(x.s)
    requires forall h :: h in handles ==> Refers(x.s, (ref, h)) && x.s.connections[h].handle == h
    ensures Inv(SendBroadcast(x, ref, handles, layout, radio).s)
    decreases |handles|
  {
    hide Inv, Known, ScanHits, Transmitted;
    if handles != [] {
      var e := (ref, handles[0]);
      assert handles[0] in handles;
      var x' := TryBroadcast(x, e, layout, radio);
      if x'.s != x.s {
        if e in x.s.sent { RecordedIsHit(x.s, e, layout); }
        SentInv(x.s, e);
        GrowthKeepsReferences(x.s, x'.s);
      }
      SendBroadcastInv(x', ref, handles[1..], layout, radio);
    }
  }

  lemma IntactInv(s: Tracker)
    requires Inv(s)
    ensures Intact(s)
  {
  }

  lemma SendAllTargetedInv(s: Tracker, radio: Radio)
    requires Inv(s)
    ensures Inv(SendAllTargeted(s, radio).s)
  {
    hide Inv, NotDone, NoDuplicates, Known;
    IntactInv(s);
    var x := SendTargeted(Sending(s, {}, []), s.targeted, radio);
    TargetsAgree(s);
    SendTargetedInv(Sending(s, {}, []), s.targeted, radio);
    NothingRepeated(x.s);
    KeepShrinks(s.targeted, NotDone(x.done));
    ShrunkInv(x.s, SendAllTargeted(s, radio).s);
  }

  lemma UnqueueInv(s: Tracker, p: Ref -> bool)
    requires Inv(s)
    ensures Inv(s.(broadcast := Keep(s.broadcast, p)))
  {
    hide KeyOf, NoDuplicates, HandlesAgree, Stored, Keep;
    KeepShrinks(s.broadcast, p);
    var t := s.(broadcast := Keep(s.broadcast, p));
    assert HandlesAgree(t) by { SameConnectionsAgree(s, t); }
    assert Stored(t) by { SameStores(s, t); }
  }

  lemma SameConnectionsAgree(s: Tracker, t: Tracker)
    requires HandlesAgree(s) && s.connections == t.connections && s.sent == t.sent && s.targeted == t.targeted
    ensures HandlesAgree(t)
  {
  }

  lemma SameStores(s: Tracker, t: Tracker)
    requires Stored(s) && s.messages == t.messages && s.announces == t.announces && s.own == t.own
    ensures Stored(t)
  {
  }

  lemma BroadcastsKnown(s: Tracker)
    requires Inv(s)
    ensures forall ref :: ref in s.broadcast ==> Known(s, ref)
  {
    hide Known, HandlesAgree, Stored, Queued, Unrepeated;
  }

  lemma SendOldestBroadcastInv(x: Sending, layout: Layout, radio: Radio)
    requires Inv(x.s) && forall ref :: ref in x.s.broadcast ==> Known(x.s, ref)
    ensures Inv(SendOldestBroadcast(x, layout, radio).s)
  {
    hide Inv, Known, OtherThan, NoDuplicates, Keep, SendBroadcast;
    var handles := AvailableHandles(x.s);
    if x.s.broadcast != [] && handles != [] {
      var ref := x.s.broadcast[0];
      assert ref in x.s.broadcast;
      forall h | h in handles
        ensures x.s.connections[h].handle == h
      {
        LiveHandle(x.s, h);
      }
      SendBroadcastInv(x, ref, handles, layout, radio);
      UnqueueInv(SendBroadcast(x, ref, handles, layout, radio).s, OtherThan(ref));
    }
  }

  lemma SendPacketsInv(s: Tracker, layout: Layout, radio: Radio)
    requires Inv(s)
    ensures Inv(SendPackets(s, layout, radio).0)
  {
    hide Inv, Known, SendAllTargeted, SendOldestBroadcast, Intact;
    IntactInv(s);
    if s.broadcast != [] || s.targeted != [] {
      SendAllTargetedInv(s, radio);
      BroadcastsKnown(SendAllTargeted(s, radio).s);
      SendOldestBroadcastInv(SendAllTargeted(s, radio), layout, radio);
    }
  }

  // ---- cleaning up -----------------------------------------------------------------------------

  /** Lists and maps are cleaned by the same tests, so nothing that is kept refers to anything that
      is dropped. */
  lemma CleanupIntact(s: Tracker, now: U64)
    requires Intact(s)
    ensures Intact(CleanupStaleItems(s, now))
  {
    hide Keep, StalePacket, StaleConnection;
    KeepIsFilter(s.sent, Not(StaleEntry(s, now)));
    KeepIsFilter(s.targeted, Not(StaleEntry(s, now)));
    KeepIsFilter(s.broadcast, Not(StaleRef(s, now)));
    KeepIsFilter(s.peersSent, Not(StalePeerEntry(s, now)));
  }

  lemma CleanupInv(s: Tracker, now: U64)
    requires Inv(s)
    ensures Inv(CleanupStaleItems(s, now))
  {
    hide Keep, StalePacket, StaleConnection, Intact, KeyOf, NoDuplicates, StaleEntry, StaleRef, StalePeerEntry,
         Not;
    CleanupIntact(s, now);
    KeepShrinks(s.sent, Not(StaleEntry(s, now)));
    KeepShrinks(s.targeted, Not(StaleEntry(s, now)));
    KeepShrinks(s.broadcast, Not(StaleRef(s, now)));
  }
}
