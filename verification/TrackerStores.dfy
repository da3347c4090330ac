/** What the stores hold: after any run without cleanup the newest announce of each identity, and
    after a cleanup exactly what is not stale. */
module TrackerStores {
  import opened Bytes
  import opened PacketFormat
  import opened TrackerState
  import opened TrackerInvariant
  import opened TrackerRuns
  import opened BroadcastQueue

  // ---- announces heard ---------------------------------------------------------------------------

  /** An announce, and the connection it was heard on. */
  type Hearing = (Handle, Packet)

  function HeardIn(s: Tracker, e: Event): seq<Hearing>
    requires Possible(e)
  {
    if e.Received? then
      (match Parsed(e.frame, e.offset)
       case None => []
       case Some(p) => if p.body.AnnounceBody? then [(ArrivesAs(s, e.handle), p)] else [])
    else []
  }

  /** All announces a node hears in a run. */
  ghost function HeardOver(me: Identity, s: Tracker, events: seq<Event>): seq<Hearing>
    requires Inv(s) && forall e :: e in events ==> Possible(e)
    decreases |events|
  {
    if events == [] then [] else
    IntactInv(s);
    assert Possible(events[0]) by { assert events[0] in events; }
    HappenInv(me, s, events[0]);
    HeardIn(s, events[0]) + HeardOver(me, Happen(me, s, events[0]).0, events[1..])
  }

  predicate Counts(h: Hearing, key: AnnounceKey) {
    !h.1.base.malformed && KeyOf(h.1) == key
  }

  /** The first of the newest. */
  predicate NewestAt(heard: seq<Hearing>, key: AnnounceKey, i: nat) {
    && i < |heard| && Counts(heard[i], key)
    && (forall j :: 0 <= j < |heard| && Counts(heard[j], key) ==>
          heard[j].1.base.timestamp <= heard[i].1.base.timestamp)
    && (forall j :: 0 <= j < i && Counts(heard[j], key) ==>
          heard[j].1.base.timestamp < heard[i].1.base.timestamp)
  }

  predicate Heard(heard: seq<Hearing>, key: AnnounceKey) {
    exists i :: 0 <= i < |heard| && Counts(heard[i], key)
  }

  /** How it is kept: with the connection it came from; only the first of its identity is passed on, and
      only that one is counted down. */
  function KeptCopy(heard: seq<Hearing>, key: AnnounceKey, i: nat): Packet
    requires i < |heard|
  {
    var (handle, p) := heard[i];
    p.(base := p.base.(sendingHandle := handle,
                       ttl := if p.base.ttl > 1 && !Heard(heard[..i], key) then p.base.ttl - 1 else p.base.ttl))
  }

  predicate HoldsNewest(announces: map<AnnounceKey, Packet>, heard: seq<Hearing>, key: AnnounceKey) {
    && (key in announces <==> Heard(heard, key))
    && (key in announces ==>
          exists i :: 0 <= i < |heard| && NewestAt(heard, key, i) && announces[key] == KeptCopy(heard, key, i))
  }

  /** What an announce makes of the store. */
  function AnnouncesWith(announces: map<AnnounceKey, Packet>, h: Hearing): map<AnnounceKey, Packet> {
    var key := KeyOf(h.1);
    var a := h.1.(base := h.1.base.(sendingHandle := h.0));
    if h.1.base.malformed || (key in announces && announces[key].base.timestamp >= h.1.base.timestamp) then announces
    else announces[key := if key !in announces && a.base.ttl > 1 then a.(base := a.base.(ttl := a.base.ttl - 1)) else a]
  }

  lemma AnnounceStored(s: Tracker, handle: U16, p: Packet)
    ensures ReceiveAnnounce(s, handle, p).announces == AnnouncesWith(s.announces, (handle, p))
  {
    hide CheckSender, UpdatePeer, KeyOf;
    SameKey(p, p.base.ttl, handle);
  }

  /** One event of a run: the announce it brings, if any, is stored. */
  lemma EventStores(me: Identity, s: Tracker, e: Event)
    requires Possible(e) && Intact(s) && !e.CleanedUp?
    ensures Happen(me, s, e).0.announces ==
            if HeardIn(s, e) == [] then s.announces else AnnouncesWith(s.announces, HeardIn(s, e)[0])
  {
    hide Parsed, Intact, KeyOf, ReceiveMessage, ReceiveAnnounce, Readable, AnnouncesWith, ReportDisconnection,
         AddAvailablePeer, ReportConnection, SetLink, Originate, AnnounceToConnections, SendPackets, CleanupStaleItems;
    match e
    case Received(handle, offset, frame) => {
      if HeardIn(s, e) != [] {
        AnnounceStored(ConnectionFor(s, handle), ArrivesAs(s, handle), Parsed(frame, offset).value);
      }
    }
    case Unlinked(handle) => LeavingStores(s, handle);
    case _ => OnlyFramesTell(me, s, e);
  }

  lemma LeavingStores(s: Tracker, handle: Handle)
    ensures ReportDisconnection(s, handle).announces == s.announces
  {
    hide Keep, AnnouncedTo, Not;
  }

  /** One more announce. */
  lemma HearsOneMore(announces: map<AnnounceKey, Packet>, heard: seq<Hearing>, h: Hearing, key: AnnounceKey)
    requires HoldsNewest(announces, heard, key)
    ensures HoldsNewest(AnnouncesWith(announces, h), heard + [h], key)
  {
    hide KeyOf, NewestAt, Heard;
    HeardOneMore(heard, h, key);
    KeptOneMore(heard, h, key);
    if key in announces {
      var i :| 0 <= i < |heard| && NewestAt(heard, key, i) && announces[key] == KeptCopy(heard, key, i);
      NewestOfOneMore(heard, h, key, i);
    }
  }

  lemma HeardOneMore(heard: seq<Hearing>, h: Hearing, key: AnnounceKey)
    ensures Heard(heard + [h], key) <==> Heard(heard, key) || Counts(h, key)
    ensures Counts(h, key) && !Heard(heard, key) ==> NewestAt(heard + [h], key, |heard|)
  {
    hide KeyOf, Counts;
    var all := heard + [h];
    assert forall i :: 0 <= i < |heard| ==> all[i] == heard[i];
    assert all[|heard|] == h;
  }

  lemma KeptOneMore(heard: seq<Hearing>, h: Hearing, key: AnnounceKey)
    ensures forall i :: 0 <= i < |heard| ==> KeptCopy(heard + [h], key, i) == KeptCopy(heard, key, i)
    ensures (heard + [h])[..|heard|] == heard && (heard + [h])[|heard|] == h
  {
    hide Heard;
    forall i | 0 <= i < |heard|
      ensures KeptCopy(heard + [h], key, i) == KeptCopy(heard, key, i)
    {
      assert (heard + [h])[..i] == heard[..i];
    }
  }

  lemma NewestOfOneMore(heard: seq<Hearing>, h: Hearing, key: AnnounceKey, i: nat)
    requires NewestAt(heard, key, i)
    ensures NewestAt(heard + [h], key, if Counts(h, key)
            && h.1.base.timestamp > heard[i].1.base.timestamp then |heard| else i)
    ensures Heard(heard, key)
  {
    hide KeyOf, Counts;
    var all := heard + [h];
    assert forall j :: 0 <= j < |heard| ==> all[j] == heard[j];
    assert all[|heard|] == h;
  }

  lemma EventHoldsNewest(me: Identity, s: Tracker, e: Event, heard: seq<Hearing>, key: AnnounceKey)
    requires Possible(e) && Intact(s) && !e.CleanedUp? && HoldsNewest(s.announces, heard, key)
    ensures HoldsNewest(Happen(me, s, e).0.announces, heard + HeardIn(s, e), key)
  {
    hide Happen, HoldsNewest, AnnouncesWith, Intact, Possible, Parsed;
    EventStores(me, s, e);
    if HeardIn(s, e) == [] {
      assert heard + HeardIn(s, e) == heard;
    } else {
      assert HeardIn(s, e) == [HeardIn(s, e)[0]];
      HearsOneMore(s.announces, heard, HeardIn(s, e)[0], key);
    }
  }

  lemma {:induction false} RunHoldsNewest(me: Identity, s: Tracker, events: seq<Event>, heard: seq<Hearing>,
                                          key: AnnounceKey)
    requires Inv(s) && forall e :: e in events ==> Possible(e) && !e.CleanedUp?
    requires HoldsNewest(s.announces, heard, key)
    ensures HoldsNewest(Run(me, s, events).0.announces, heard + HeardOver(me, s, events), key)
    decreases |events|
  {
    hide Inv, Happen, HoldsNewest, HeardIn, Possible, Intact;
    if events == [] {
      assert heard + HeardOver(me, s, events) == heard;
    } else {
      IntactInv(s);
      assert events[0] in events;
      HappenInv(me, s, events[0]);
      var t := Happen(me, s, events[0]).0;
      EventHoldsNewest(me, s, events[0], heard, key);
      RunHoldsNewest(me, t, events[1..], heard + HeardIn(s, events[0]), key);
      assert heard + HeardOver(me, s, events) == heard + HeardIn(s, events[0]) + HeardOver(me, t, events[1..]);
    }
  }

  lemma NothingHeard(key: AnnounceKey)
    ensures HoldsNewest(map[], [], key)
  {
  }

  /** From power-on, whatever happens in whatever order but a cleanup: for every identity the store
      holds the announce with the largest timestamp of all that were heard, the first one to reach it. */
  lemma StoreHoldsNewest(me: Identity, own: Packet, events: seq<Event>, key: AnnounceKey)
    requires own.body.AnnounceBody? && own.base.ptype == TYPE_ANNOUNCE
    requires forall e :: e in events ==> Possible(e) && !e.CleanedUp?
    ensures Inv(SwitchedOn(own))
    ensures HoldsNewest(Run(me, SwitchedOn(own), events).0.announces, HeardOver(me, SwitchedOn(own), events), key)
  {
    hide Inv, HoldsNewest, Possible, Run, HeardOver;
    SwitchedOnInv(own);
    NothingHeard(key);
    RunHoldsNewest(me, SwitchedOn(own), events, [], key);
    assert [] + HeardOver(me, SwitchedOn(own), events) == HeardOver(me, SwitchedOn(own), events);
  }

  /** An announce is passed on exactly when it is the first well-formed one of its identity in the run,
      and has hops left. */
  lemma NewOncePerIdentity(me: Identity, own: Packet, before: seq<Event>, e: Event)
    requires own.body.AnnounceBody? && own.base.ptype == TYPE_ANNOUNCE
    requires (forall f :: f in before ==> Possible(f) && !f.CleanedUp?) && Possible(e)
    ensures Inv(SwitchedOn(own))
    ensures var s, heard := Run(me, SwitchedOn(own), before).0, HeardOver(me, SwitchedOn(own), before);
            HeardIn(s, e) != [] ==>
              var a := HeardIn(s, e)[0];
              AnnounceRef(KeyOf(a.1)) in Arrival(s, e) <==>
                a.1.base.ttl > 1 && Counts(a, KeyOf(a.1)) && !Heard(heard, KeyOf(a.1))
  {
    hide Inv, HoldsNewest, Possible, Run, HeardOver, KeyOf, Heard, Parsed, NewestAt;
    SwitchedOnInv(own);
    var s := Run(me, SwitchedOn(own), before).0;
    if HeardIn(s, e) != [] {
      StoreHoldsNewest(me, own, before, KeyOf(HeardIn(s, e)[0].1));
      HoldsHeard(s.announces, HeardOver(me, SwitchedOn(own), before), KeyOf(HeardIn(s, e)[0].1));
    }
  }

  lemma HoldsHeard(announces: map<AnnounceKey, Packet>, heard: seq<Hearing>, key: AnnounceKey)
    requires HoldsNewest(announces, heard, key)
    ensures key in announces <==> Heard(heard, key)
  {
  }

  /** Two announces have one identity exactly when these seven fields agree: neither the time, the ttl,
      the name nor the keys count, but the place does. */
  lemma SameIdentity(a: Packet, b: Packet)
    requires a.body.AnnounceBody? && b.body.AnnounceBody?
    ensures KeyOf(a) == KeyOf(b) <==>
            && a.base.ptype == b.base.ptype && a.base.flags == b.base.flags
            && a.base.sender == b.base.sender && a.base.recipient == b.base.recipient
            && a.body.latitude == b.body.latitude && a.body.longitude == b.body.longitude
            && a.body.altitude == b.body.altitude
  {
  }

  // ---- cleanup -----------------------------------------------------------------------------------

  predicate Live(s: Tracker, ref: Ref, now: U64) {
    Known(s, ref) && !StalePacket(PacketOf(s, ref), now)
  }

  predicate LiveConnection(s: Tracker, h: Handle, now: U64) {
    h in s.connections && !StaleConnection(s.connections[h], now)
  }

  /** A cleanup keeps exactly what is not stale, and of every list exactly the entries both of whose
      ends are kept. */
  lemma CleanupKeepsExactly(s: Tracker, now: U64)
    requires Intact(s)
    ensures var t := CleanupStaleItems(s, now);
            && (forall r :: r != OwnAnnounce ==> (Known(t, r) <==> Live(s, r, now)))
            && (forall h :: h in t.connections <==> LiveConnection(s, h, now))
            && (forall e :: e in t.sent <==> e in s.sent && Live(s, e.0, now) && LiveConnection(s, e.1, now))
            && (forall e :: e in t.targeted <==> e in s.targeted && Live(s, e.0, now) && LiveConnection(s, e.1, now))
            && (forall r :: r in t.broadcast <==> r in s.broadcast && Live(s, r, now))
            && (forall e :: e in t.peersSent <==> e in s.peersSent && Live(s, e.0, now))
  {
    hide Keep, StalePacket, StaleConnection;
    KeepIsFilter(s.sent, Not(StaleEntry(s, now)));
    KeepIsFilter(s.targeted, Not(StaleEntry(s, now)));
    KeepIsFilter(s.broadcast, Not(StaleRef(s, now)));
    KeepIsFilter(s.peersSent, Not(StalePeerEntry(s, now)));
  }

  /** Not older than ten minutes, on a 64-bit millisecond clock: near its end the sum wraps round. */
  predicate Recent(stamp: nat, now: U64) {
    if stamp + 600_000 < 0x1_0000_0000_0000_0000 then now <= stamp + 600_000
    else now <= (stamp + 600_000) % 0x1_0000_0000_0000_0000
  }

  /** A cleanup keeps, unchanged, exactly the messages and announces stamped at most ten minutes ago
      and the connections and neighbours that are up or were last seen at most ten minutes ago, a time
      that is kept in microseconds. */
  lemma CleanupAges(s: Tracker, now: U64)
    ensures var t := CleanupStaleItems(s, now);
            && (forall id :: id in t.messages <==> id in s.messages && Recent(s.messages[id].base.timestamp, now))
            && (forall id :: id in t.messages ==> t.messages[id] == s.messages[id])
            && (forall k :: k in t.announces <==> k in s.announces && Recent(s.announces[k].base.timestamp, now))
            && (forall k :: k in t.announces ==> t.announces[k] == s.announces[k])
            && (forall h :: h in t.connections <==>
                  h in s.connections && (s.connections[h].connected || Recent(s.connections[h].lastSeen / 1000, now)))
            && (forall h :: h in t.connections ==> t.connections[h] == s.connections[h])
            && (forall a :: a in t.neighbours <==>
                  a in s.neighbours && (s.neighbours[a].connected || Recent(s.neighbours[a].lastSeen / 1000, now)))
            && (forall a :: a in t.neighbours ==> t.neighbours[a] == s.neighbours[a])
  {
    hide Keep;
  }

  /** Of the lists it keeps exactly the entries whose packet and connection are kept; the own announce
      counts by its age, although it is never dropped itself. */
  lemma CleanupLists(s: Tracker, now: U64)
    requires Intact(s)
    ensures var t := CleanupStaleItems(s, now);
            && (forall e :: e in t.sent <==> e in s.sent && StaysKnown(s, t, e.0, now) && e.1 in t.connections)
            && (forall e :: e in t.targeted <==> e in s.targeted && StaysKnown(s, t, e.0, now) && e.1 in t.connections)
            && (forall r :: r in t.broadcast <==> r in s.broadcast && StaysKnown(s, t, r, now))
            && (forall e :: e in t.peersSent <==> e in s.peersSent && StaysKnown(s, t, e.0, now))
            && t.peers == s.peers && t.handlePeers == s.handlePeers && t.own == s.own
  {
    hide CleanupStaleItems, StalePacket, StaleConnection;
    CleanupKeepsExactly(s, now);
    CleanupKeepsOwn(s, now);
  }

  predicate StaysKnown(s: Tracker, t: Tracker, ref: Ref, now: U64) {
    if ref == OwnAnnounce then Recent(s.own.base.timestamp, now) else Known(t, ref)
  }

  lemma CleanupKeepsOwn(s: Tracker, now: U64)
    ensures var t := CleanupStaleItems(s, now);
            t.peers == s.peers && t.handlePeers == s.handlePeers && t.own == s.own
    ensures StalePacket(s.own, now) <==> !Recent(s.own.base.timestamp, now)
  {
    hide Keep, LiveConnections, LivePackets;
  }

  /** Cleaning up twice at the same time is cleaning up once. */
  lemma CleanupTwice(s: Tracker, now: U64)
    requires Intact(s)
    ensures CleanupStaleItems(CleanupStaleItems(s, now), now) == CleanupStaleItems(s, now)
  {
    hide Keep, StalePacket, StaleConnection;
    CleanupKeepsExactly(s, now);
    var t := CleanupStaleItems(s, now);
    KeepAll(t.sent, Not(StaleEntry(t, now)));
    KeepAll(t.targeted, Not(StaleEntry(t, now)));
    KeepAll(t.broadcast, Not(StaleRef(t, now)));
    KeepAll(t.peersSent, Not(StalePeerEntry(t, now)));
    var u := CleanupStaleItems(t, now);
    assert u.connections == t.connections;
    assert u.neighbours == t.neighbours;
    assert u.messages == t.messages;
    assert u.announces == t.announces;
  }

  /** A message is accepted again after a cleanup exactly when it was never seen or the copy of it is
      stamped more than ten minutes ago. */
  lemma NewAgainWhenStale(s: Tracker, m: Packet, now: U64)
    requires m.body.MessageBody? && !m.base.malformed
    ensures StoreMessage(CleanupStaleItems(s, now), m).1 <==>
            (m.body.id in s.messages ==> !Recent(s.messages[m.body.id].base.timestamp, now))
  {
    hide CleanupStaleItems;
    CleanupAges(s, now);
  }
}
