/** Which connections a broadcast reaches. The test for "sent before" runs on past the packet's own
    entries, so a broadcast can skip a connection; this is exactly when. It is for good: what has left
    the queue is not sent again. */
module BroadcastReach {
  import opened PacketFormat
  import opened TrackerState
  import opened TrackerInvariant
  import opened TrackerRuns
  import opened BroadcastQueue
  import opened MeshNode

  /** The connection counts as reached after the broadcast. */
  predicate Reaches(s: Tracker, ref: Ref, handles: seq<Handle>, layout: Layout, h: Handle)
    requires handles != []
  {
    (ref, h) in s.sent || !Shadowed(s, ref, h, layout) || (h == handles[0] && !HasEntry(s, ref))
  }

  /** Recording one entry: its packet has an entry, and no other connection is shadowed by it. */
  lemma RecordingShadows(s: Tracker, e: (Ref, Handle), layout: Layout, h: Handle)
    requires e.1 in s.connections && s.connections[e.1].handle == e.1 && h != e.1
    ensures var t := s.(sent := s.sent + [e]);
            HasEntry(t, e.0) && (Shadowed(t, e.0, h, layout) <==> Shadowed(s, e.0, h, layout))
  {
    var t := s.(sent := s.sent + [e]);
    assert e in t.sent;
    forall f | f in t.sent && f != e
      ensures f in s.sent
    {
    }
    assert forall f :: f in s.sent ==> f in t.sent;
  }

  lemma {:induction false} OthersStayUnsent(x: Sending, ref: Ref, handles: seq<Handle>, layout: Layout,
      radio: Radio, p: (Ref, Handle))
    requires forall h :: h in handles ==> Refers(x.s, (ref, h))
    requires p.0 != ref || p.1 !in handles
    ensures p in SendBroadcast(x, ref, handles, layout, radio).s.sent <==> p in x.s.sent
    decreases |handles|
  {
    hide ScanHits, Transmitted, Known;
    if handles != [] {
      assert handles[0] in handles;
      var e := (ref, handles[0]);
      var x' := TryBroadcast(x, e, layout, radio);
      GrowthKeepsReferences(x.s, x'.s);
      OthersStayUnsent(x', ref, handles[1..], layout, radio, p);
    }
  }

  lemma {:induction false} ReachesExactly(x: Sending, ref: Ref, handles: seq<Handle>, layout: Layout,
      radio: Radio, h: Handle)
    requires forall k :: k in handles ==> Refers(x.s, (ref, k)) && x.s.connections[k].handle == k
    requires NoDuplicates(handles) && h in handles
    ensures (ref, h) in SendBroadcast(x, ref, handles, layout, radio).s.sent <==> Reaches(x.s, ref, handles, layout, h)
    decreases |handles|
  {
    hide Transmitted, Shadowed, HasEntry, Known;
    var e, rest := (ref, handles[0]), handles[1..];
    assert handles == [handles[0]] + rest;
    assert handles[0] in handles;
    assert forall f :: f in rest ==> f in handles && f != handles[0];
    var x' := TryBroadcast(x, e, layout, radio);
    GrowthKeepsReferences(x.s, x'.s);
    if h == handles[0] {
      SentIsShadow(x.s, e, layout);
      OthersStayUnsent(x', ref, rest, layout, radio, e);
    } else {
      if x' != x { RecordingShadows(x.s, e, layout, h); }
      ReachesExactly(x', ref, rest, layout, radio, h);
    }
  }

  lemma SentIsShadow(s: Tracker, e: (Ref, Handle), layout: Layout)
    requires e in s.sent && e.1 in s.connections ==> s.connections[e.1].handle == e.1
    requires e.1 in s.connections
    ensures e in s.sent ==> HasEntry(s, e.0) && Shadowed(s, e.0, e.1, layout)
  {
  }

  /** The oldest broadcast packet counts as sent to an available connection, once it has left the
      queue, exactly when it was before, or nothing stored at its address or above was sent over that
      connection, or it has no entry at all and this is the first connection. */
  lemma BroadcastReachesExactly(x: Sending, layout: Layout, radio: Radio, h: Handle)
    requires Inv(x.s) && x.s.broadcast != [] && forall ref :: ref in x.s.broadcast ==> Known(x.s, ref)
    requires h in AvailableHandles(x.s)
    ensures var r := SendOldestBroadcast(x, layout, radio);
            (x.s.broadcast[0], h) in r.s.sent <==> Reaches(x.s, x.s.broadcast[0], AvailableHandles(x.s), layout, h)
  {
    hide Inv, Known, Keep, SendBroadcast, Shadowed, HasEntry, NoDuplicates;
    var handles := AvailableHandles(x.s);
    assert x.s.broadcast[0] in x.s.broadcast;
    forall k | k in handles
      ensures x.s.connections[k].handle == k
    {
      LiveHandle(x.s, k);
    }
    ReachesExactly(x, x.s.broadcast[0], handles, layout, radio, h);
  }

  // ---- out of the queue --------------------------------------------------------------------------

  /** A known packet that is not queued. */
  predicate Gone(s: Tracker, ref: Ref) {
    Known(s, ref) && ref !in s.broadcast
  }

  lemma StaysGone(me: Identity, s: Tracker, e: Event, ref: Ref)
    requires Inv(s) && Possible(e) && !e.CleanedUp? && Gone(s, ref)
    ensures Intact(s) && Gone(Happen(me, s, e).0, ref)
  {
    hide Inv, Happen, Arrival, Departs, Known, Intact, Possible;
    IntactInv(s);
    KnownStays(me, s, e);
    ArrivalIsNew(s, e);
    EventQueue(me, s, e);
    DepartsFromQueue(s, e);
  }

  lemma GoneIsSilent(me: Identity, s: Tracker, e: Event, ref: Ref)
    requires Inv(s) && Possible(e) && Gone(s, ref) && ref != OwnAnnounce
    ensures Intact(s) && forall t :: t in Happen(me, s, e).1 ==> t.ref != ref
  {
    hide Inv, SendPackets, Departs, Known, Intact, WritePacket, CameFrom, TooBig;
    IntactInv(s);
    match e
    case SentOut(layout, radio) => {
      SendsOldest(s, layout, radio);
      DepartsFromQueue(s, e);
    }
    case _ => QuietEvent(me, s, e);
  }

  /** A packet that is known and not queued is never again handed to the radio, for any connection, in
      any run without cleanup: a connection that the broadcast skipped does not get it. */
  lemma {:induction false} GoneForGood(me: Identity, s: Tracker, events: seq<Event>, ref: Ref)
    requires Inv(s) && forall e :: e in events ==> Possible(e) && !e.CleanedUp?
    requires Gone(s, ref) && ref != OwnAnnounce
    ensures forall t :: t in Run(me, s, events).1 ==> t.ref != ref
    decreases |events|
  {
    hide Inv, Happen, Gone, Possible;
    if events != [] {
      assert events[0] in events;
      HappenInv(me, s, events[0]);
      StaysGone(me, s, events[0], ref);
      GoneIsSilent(me, s, events[0], ref);
      GoneForGood(me, Happen(me, s, events[0]).0, events[1..], ref);
    }
  }

  // ---- a run that skips --------------------------------------------------------------------------

  /** A neighbour connects as 2 and gets one message; then another connects as 1, and a second message
      is made and sent. */
  function SkipEvents(m: Packet, other: Packet, layout: Layout, radio: Radio, address: Address, time: nat): seq<Event> {
    [Linked(2, address, Some(ROLE_SLAVE), time), Originated(other), SentOut(layout, radio)]
    + [Linked(1, address, Some(ROLE_SLAVE), time), Originated(m), SentOut(layout, radio)]
  }

  /** A message of a node's own that can be queued. */
  predicate Sendable(m: Packet) {
    m.body.MessageBody? && m.base.ptype == TYPE_MESSAGE && !m.base.malformed && m.base.ttl > 0
  }

  lemma Ascending1(h: Handle)
    ensures Ascending({h}) == [h]
  {
    var one: set<Handle> := {h};
    assert Least(one) == h;
    assert one - {h} == {};
  }

  lemma Ascending2()
    ensures Ascending({1, 2}) == [1, 2]
  {
    var both: set<Handle> := {1, 2};
    assert Least(both) == 1 by { assert 1 in both; }
    assert both - {1} == {2};
    Ascending1(2);
  }

  lemma NoneKept(xs: seq<Ref>)
    requires |xs| == 1
    ensures Keep(xs, OtherThan(xs[0])) == []
  {
  }

  /** With nothing targeted and one packet queued, a send is one broadcast. */
  lemma SendIsBroadcast(s: Tracker, layout: Layout, radio: Radio)
    requires Intact(s) && s.targeted == [] && |s.broadcast| == 1 && AvailableHandles(s) != []
    ensures forall h :: h in AvailableHandles(s) ==> Refers(s, (s.broadcast[0], h))
    ensures SendPackets(s, layout, radio).0 ==
            SendBroadcast(Sending(s, {}, []), s.broadcast[0], AvailableHandles(s), layout, radio).s.(broadcast := [])
  {
    hide SendBroadcast, AvailableHandles, Known;
    NoneKept(s.broadcast);
    assert s.broadcast[0] in s.broadcast;
    assert SendAllTargeted(s, radio) == Sending(s, {}, []);
  }

  /** A new neighbour connects and a message is made: it is queued, and nothing else is. */
  function LinkedAndMade(s: Tracker, h: Handle, m: Packet, address: Address, time: nat): Tracker
    requires m.body.MessageBody?
  {
    Originate(ReportConnection(s, h, address, Some(ROLE_SLAVE), time), m)
  }

  lemma MadeAndQueued(s: Tracker, h: Handle, m: Packet, address: Address, time: nat)
    requires Sendable(m) && m.body.id !in s.messages && address !in s.neighbours && h !in s.connections
    requires Intact(s) && s.targeted == [] && s.broadcast == []
    ensures var t := LinkedAndMade(s, h, m, address, time);
            && Intact(t) && t.broadcast == [MessageRef(m.body.id)]
            && t == s.(messages := t.messages, connections := t.connections, neighbours := t.neighbours,
                       broadcast := t.broadcast)
            && t.messages.Keys == s.messages.Keys + {m.body.id} && t.neighbours == s.neighbours
            && t.connections == s.connections[h := t.connections[h]]
            && t.connections[h].handle == h && Available(t.connections[h])
  {
    var t := LinkedAndMade(s, h, m, address, time);
    assert t.neighbours == s.neighbours;
  }

  lemma FirstMessageGoes(s: Tracker, other: Packet, layout: Layout, radio: Radio)
    requires other.body.MessageBody? && Intact(s) && s.targeted == [] && s.sent == []
    requires s.broadcast == [MessageRef(other.body.id)]
    requires s.connections.Keys == {2} && s.connections[2].handle == 2 && Available(s.connections[2])
    ensures SendPackets(s, layout, radio).0 == s.(sent := [(MessageRef(other.body.id), 2)], broadcast := [])
  {
    hide Transmitted, Ascending, SendPackets, Intact, Known, Available;
    assert Listening(s) == {2};
    Ascending1(2);
    SendIsBroadcast(s, layout, radio);
    assert !HasEntry(s, s.broadcast[0]);
  }

  lemma FirstIsRecorded(s: Tracker, ref: Ref, other: Ref, layout: Layout, radio: Radio)
    requires Refers(s, (ref, 1)) && s.sent == [(other, 2)] && ref != other
    ensures TryBroadcast(Sending(s, {}, []), (ref, 1), layout, radio).s == s.(sent := [(other, 2), (ref, 1)])
  {
    hide Transmitted, Known;
    assert !HasEntry(s, ref);
  }

  lemma SecondIsHit(s: Tracker, ref: Ref, other: Ref, layout: Layout)
    requires s.sent == [(other, 2), (ref, 1)] && layout(ref) <= layout(other)
    requires 2 in s.connections && s.connections[2].handle == 2
    ensures ScanHits(s, ref, 2, layout)
  {
    assert (other, 2) in s.sent && (ref, 1) in s.sent;
  }

  /** A first entry of the packet makes the search run, and it finds the other packet's entry. */
  lemma SecondMessageSkips(s: Tracker, ref: Ref, other: Ref, layout: Layout, radio: Radio)
    requires Intact(s) && s.targeted == [] && s.broadcast == [ref] && s.sent == [(other, 2)]
    requires ref != other && layout(ref) <= layout(other)
    requires s.connections.Keys == {1, 2} && s.connections[1].handle == 1 && s.connections[2].handle == 2
    requires Available(s.connections[1]) && Available(s.connections[2])
    ensures SendPackets(s, layout, radio).0 == s.(sent := [(other, 2), (ref, 1)], broadcast := [])
  {
    hide SendPackets, Transmitted, Ascending, Intact, Known, Available, ScanHits, TryBroadcast;
    assert Listening(s) == {1, 2};
    Ascending2();
    SendIsBroadcast(s, layout, radio);
    FirstIsRecorded(s, ref, other, layout, radio);
    SecondIsHit(s.(sent := [(other, 2), (ref, 1)]), ref, other, layout);
    BroadcastsOver(s, ref, other, layout, radio);
  }

  lemma OnlySkipped(x: Sending, ref: Ref, h: Handle, layout: Layout, radio: Radio)
    requires Refers(x.s, (ref, h)) && ScanHits(x.s, ref, x.s.connections[h].handle, layout)
    ensures SendBroadcast(x, ref, [h], layout, radio) == x
  {
    hide Known, ScanHits, Recorded;
    assert [h][0] == h && [h][1..] == [];
    assert SendBroadcast(x, ref, [], layout, radio) == x;
  }

  lemma SameReferences(s: Tracker, t: Tracker)
    requires t == s.(sent := t.sent)
    ensures forall e :: Refers(s, e) <==> Refers(t, e)
  {
  }

  lemma BroadcastsOver(s: Tracker, ref: Ref, other: Ref, layout: Layout, radio: Radio)
    requires Refers(s, (ref, 1)) && Refers(s, (ref, 2)) && s.connections[2].handle == 2
    requires TryBroadcast(Sending(s, {}, []), (ref, 1), layout, radio).s == s.(sent := [(other, 2), (ref, 1)])
    requires ScanHits(s.(sent := [(other, 2), (ref, 1)]), ref, 2, layout)
    ensures SendBroadcast(Sending(s, {}, []), ref, [1, 2], layout, radio).s == s.(sent := [(other, 2), (ref, 1)])
  {
    hide Transmitted, Known, ScanHits;
    var x := TryBroadcast(Sending(s, {}, []), (ref, 1), layout, radio);
    var both, last: seq<Handle> := [1, 2], [2];
    assert both[1..] == last;
    SameReferences(s, x.s);
    OnlySkipped(x, ref, 2, layout, radio);
  }

  lemma RunOne(me: Identity, s: Tracker, e: Event, rest: seq<Event>)
    requires Inv(s) && Possible(e) && forall f :: f in rest ==> Possible(f)
    ensures Intact(s) && Inv(Happen(me, s, e).0)
    ensures (forall f :: f in [e] + rest ==> Possible(f))
            && Run(me, s, [e] + rest).0 == Run(me, Happen(me, s, e).0, rest).0
  {
    hide Inv, Happen, Possible;
    IntactInv(s);
    HappenInv(me, s, e);
    assert ([e] + rest)[0] == e && ([e] + rest)[1..] == rest;
  }

  lemma RunNone(me: Identity, s: Tracker)
    requires Inv(s)
    ensures Run(me, s, []).0 == s
  {
    hide Inv;
  }

  /** A new neighbour, a message and a send, as events of a run. */
  lemma RunThree(me: Identity, s: Tracker, h: Handle, m: Packet, layout: Layout, radio: Radio, address: Address,
                 time: nat, rest: seq<Event>)
    requires Inv(s) && Sendable(m) && forall f :: f in rest ==> Possible(f)
    ensures var events := [Linked(h, address, Some(ROLE_SLAVE), time), Originated(m), SentOut(layout, radio)] + rest;
            var t := LinkedAndMade(s, h, m, address, time);
            && (forall f :: f in events ==> Possible(f)) && Inv(t) && Intact(t)
            && Inv(SendPackets(t, layout, radio).0)
            && Run(me, s, events).0 == Run(me, SendPackets(t, layout, radio).0, rest).0
  {
    hide Inv, Intact, ReportConnection, Originate, SendPackets, Run;
    var link, make, send := Linked(h, address, Some(ROLE_SLAVE), time), Originated(m), SentOut(layout, radio);
    var s1 := ReportConnection(s, h, address, Some(ROLE_SLAVE), time);
    RunOne(me, s, link, [make, send] + rest);
    assert Happen(me, s, link).0 == s1;
    RunOne(me, s1, make, [send] + rest);
    RunOne(me, Originate(s1, m), send, rest);
    assert [link, make, send] + rest == [link] + ([make, send] + rest);
    assert [make, send] + rest == [make] + ([send] + rest);
  }

  /** It does happen: after this run a connection that is available has not had the message, and the
      message has left the queue. */
  lemma BroadcastCanSkip(me: Identity, own: Packet, m: Packet, other: Packet, layout: Layout, radio: Radio,
                         address: Address, time: nat)
    requires own.body.AnnounceBody? && own.base.ptype == TYPE_ANNOUNCE && Sendable(m) && Sendable(other)
    requires m.body.id != other.body.id && layout(MessageRef(m.body.id)) <= layout(MessageRef(other.body.id))
    ensures forall e :: e in SkipEvents(m, other, layout, radio, address, time) ==> Possible(e)
    ensures Inv(SwitchedOn(own))
    ensures var s := Run(me, SwitchedOn(own), SkipEvents(m, other, layout, radio, address, time)).0;
            && 2 in s.connections && Available(s.connections[2]) && Gone(s, MessageRef(m.body.id))
            && (MessageRef(m.body.id), 2) !in s.sent
  {
    hide SendPackets, Intact, Inv, LinkedAndMade, Run, Available;
    SwitchedOnInv(own);
    var start := SwitchedOn(own);
    IntactInv(start);
    var second := [Linked(1, address, Some(ROLE_SLAVE), time), Originated(m), SentOut(layout, radio)];
    RunThree(me, start, 2, other, layout, radio, address, time, second);
    MadeAndQueued(start, 2, other, address, time);
    var t := LinkedAndMade(start, 2, other, address, time);
    FirstMessageGoes(t, other, layout, radio);
    var s := SendPackets(t, layout, radio).0;
    IntactInv(s);
    assert second + [] == second;
    RunThree(me, s, 1, m, layout, radio, address, time, []);
    RunNone(me, SendPackets(LinkedAndMade(s, 1, m, address, time), layout, radio).0);
    MadeAndQueued(s, 1, m, address, time);
    SecondMessageSkips(LinkedAndMade(s, 1, m, address, time), MessageRef(m.body.id), MessageRef(other.body.id),
                       layout, radio);
  }
}
