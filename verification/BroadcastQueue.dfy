/** The broadcast queue over runs: first in, first out, one packet per send that has a listener. */
module BroadcastQueue {
  import opened Bytes
  import opened BinaryIO
  import opened PacketFormat
  import opened TrackerState
  import opened TrackerInvariant
  import opened TrackerRuns

  // ---- what comes in ---------------------------------------------------------------------------

  /** A packet to pass on: well formed, unknown so far, with hops left. */
  predicate PassedOn(s: Tracker, p: Packet, ref: Ref) {
    !p.base.malformed && !Known(s, ref) && p.base.ttl > 1
  }

  function RefOf(p: Packet): Ref
    requires p.body.AnnounceBody? || p.body.MessageBody?
  {
    if p.body.AnnounceBody? then AnnounceRef(KeyOf(p)) else MessageRef(p.body.id)
  }

  /** What an event adds to the queue. */
  function Arrival(s: Tracker, e: Event): seq<Ref>
    requires Possible(e)
  {
    match e
    case Received(_, offset, frame) =>
      (match Parsed(frame, offset)
       case None => []
       case Some(p) => if PassedOn(s, p, RefOf(p)) then [RefOf(p)] else [])
    case Originated(m) =>
      if !m.base.malformed && m.body.id !in s.messages && m.base.ttl > 0 then [MessageRef(m.body.id)] else []
    case _ => []
  }

  /** Someone is listening, so the oldest packet leaves. */
  predicate Departs(s: Tracker, e: Event) {
    e.SentOut? && s.broadcast != [] && exists h :: h in s.connections && Available(s.connections[h])
  }

  // ---- one event -------------------------------------------------------------------------------

  lemma ReceivedQueue(s: Tracker, handle: U16, offset: U16, frame: seq<Byte>)
    requires Readable(frame, offset)
    ensures Receive(s, handle, offset, frame).broadcast == s.broadcast + Arrival(s, Received(handle, offset, frame))
  {
    hide Parsed, KeyOf, ReceiveMessage, ReceiveAnnounce, Readable;
    match Parsed(frame, offset)
    case None =>
    case Some(p) =>
      AnnounceQueue(s, handle, p);
      if p.body.MessageBody? {
        MessageQueue(s, handle, p);
      }
  }

  lemma AnnounceQueue(s: Tracker, handle: U16, p: Packet)
    ensures ReceiveAnnounce(s, handle, p).broadcast ==
            s.broadcast + if PassedOn(s, p, AnnounceRef(KeyOf(p))) then [AnnounceRef(KeyOf(p))] else []
  {
    hide CheckSender, UpdatePeer, KeyOf;
    SameKey(p, p.base.ttl, handle);
  }

  /** Neither the ttl nor the connection is part of what identifies an announce. */
  lemma SameKey(p: Packet, ttl: Byte, handle: U16)
    ensures KeyOf(p.(base := p.base.(sendingHandle := handle))) == KeyOf(p)
    ensures KeyOf(p.(base := p.base.(ttl := ttl, sendingHandle := handle))) == KeyOf(p)
  {
  }

  lemma MessageQueue(s: Tracker, handle: U16, p: Packet)
    requires p.body.MessageBody?
    ensures ReceiveMessage(s, handle, p).broadcast ==
            s.broadcast + if PassedOn(s, p, MessageRef(p.body.id)) then [MessageRef(p.body.id)] else []
  {
    hide CheckSender;
  }

  lemma {:induction false} KeepOthers(xs: seq<Ref>)
    requires xs != [] && NoDuplicates(xs)
    ensures Keep(xs, OtherThan(xs[0])) == xs[1..]
  {
    assert forall x :: x in xs[1..] ==> x != xs[0];
    KeepAll(xs[1..], OtherThan(xs[0]));
  }

  lemma SendQueue(s: Tracker, layout: Layout, radio: Radio)
    requires Inv(s)
    ensures SendPackets(s, layout, radio).0.broadcast ==
            if Departs(s, SentOut(layout, radio)) then s.broadcast[1..] else s.broadcast
  {
    hide Inv, Keep, NoDuplicates, SendAllTargeted, SendBroadcast, OtherThan, Known, Intact;
    IntactInv(s);
    NothingRepeated(s);
    if s.broadcast != [] {
      KeepOthers(s.broadcast);
      var x := SendAllTargeted(s, radio);
      var handles := AvailableHandles(x.s);
      if handles != [] { assert handles[0] in handles; }
    }
  }

  lemma EventQueue(me: Identity, s: Tracker, e: Event)
    requires Possible(e) && Inv(s) && !e.CleanedUp?
    ensures Happen(me, s, e).0.broadcast == (s.broadcast + Arrival(s, e))[if Departs(s, e) then 1 else 0..]
  {
    hide Inv, Intact, Receive, AnnounceTo, SendPackets, ReportConnection, Keep, Known;
    IntactInv(s);
    var t := Happen(me, s, e).0;
    match e
    case Received(handle, offset, frame) => ArrivalQueue(s, handle, offset, frame);
    case SentOut(layout, radio) => SendQueue(s, layout, radio);
    case Linked(handle, address, role, time) => LinkQueue(s, handle, address, role, time);
    case Originated(m) => OriginQueue(s, m);
    case CleanedUp(_) => assert false;
    case _ => assert t.broadcast == s.broadcast + [];
  }

  /** Only a send hands anything to the radio. */
  lemma QuietEvent(me: Identity, s: Tracker, e: Event)
    requires Possible(e) && Intact(s) && !e.SentOut?
    ensures Happen(me, s, e).1 == []
  {
    hide Intact;
  }

  lemma LinkQueue(s: Tracker, handle: Handle, address: Address, role: Option<nat>, time: nat)
    ensures ReportConnection(s, handle, address, role, time).broadcast == s.broadcast + []
  {
  }

  lemma OriginQueue(s: Tracker, m: Packet)
    requires m.body.MessageBody? && m.base.ptype == TYPE_MESSAGE
    ensures Originate(s, m).broadcast == s.broadcast + Arrival(s, Originated(m))
  {
  }

  lemma ArrivalQueue(s: Tracker, handle: Handle, offset: U16, frame: seq<Byte>)
    requires Readable(frame, offset)
    ensures Arrive(s, handle, offset, frame).broadcast == s.broadcast + Arrival(s, Received(handle, offset, frame))
  {
    hide Receive, Parsed, KeyOf, ByteAt;
    var s1 := ConnectionFor(s, handle);
    ReceivedQueue(s1, s1.connections[handle].handle, offset, frame);
  }

  // ---- whole runs ------------------------------------------------------------------------------

  ghost function Arrivals(me: Identity, s: Tracker, events: seq<Event>): seq<Ref>
    requires Inv(s) && forall e :: e in events ==> Possible(e)
    decreases |events|
  {
    if events == [] then [] else
    IntactInv(s);
    assert Possible(events[0]) by { assert events[0] in events; }
    HappenInv(me, s, events[0]);
    Arrival(s, events[0]) + Arrivals(me, Happen(me, s, events[0]).0, events[1..])
  }

  /** The sends at which something was queued and someone was listening. */
  ghost function Departures(me: Identity, s: Tracker, events: seq<Event>): nat
    requires Inv(s) && forall e :: e in events ==> Possible(e)
    decreases |events|
  {
    if events == [] then 0 else
    IntactInv(s);
    assert Possible(events[0]) by { assert events[0] in events; }
    HappenInv(me, s, events[0]);
    (if Departs(s, events[0]) then 1 else 0) + Departures(me, Happen(me, s, events[0]).0, events[1..])
  }

  lemma DropTwice<T>(q: seq<T>, a: seq<T>, b: seq<T>, j: nat, k: nat)
    requires j <= |q + a| && k <= |(q + a)[j..] + b|
    ensures j + k <= |q + (a + b)|
    ensures ((q + a)[j..] + b)[k..] == (q + (a + b))[j + k..]
  {
    assert q + (a + b) == (q + a) + b;
    assert (q + a)[j..] + b == (q + (a + b))[j..];
  }

  /** First in, first out: after a run without cleanup the queue is what it was, followed by what came
      in, less exactly as many of its oldest packets as there were sends with a listener. */
  lemma {:induction false} QueueIsFifo(me: Identity, s: Tracker, events: seq<Event>)
    requires Inv(s) && forall e :: e in events ==> Possible(e) && !e.CleanedUp?
    ensures Departures(me, s, events) <= |s.broadcast + Arrivals(me, s, events)|
    ensures Run(me, s, events).0.broadcast == (s.broadcast + Arrivals(me, s, events))[Departures(me, s, events)..]
    decreases |events|
  {
    hide Inv, Happen, Arrival, Departs;
    if events != [] {
      IntactInv(s);
      assert events[0] in events;
      HappenInv(me, s, events[0]);
      var t := Happen(me, s, events[0]).0;
      EventQueue(me, s, events[0]);
      assert (if Departs(s, events[0]) then 1 else 0) <= |s.broadcast + Arrival(s, events[0])| by {
        DepartsFromQueue(s, events[0]);
      }
      QueueIsFifo(me, t, events[1..]);
      DropTwice(s.broadcast, Arrival(s, events[0]), Arrivals(me, t, events[1..]),
                if Departs(s, events[0]) then 1 else 0, Departures(me, t, events[1..]));
    }
  }

  lemma DepartsFromQueue(s: Tracker, e: Event)
    ensures Departs(s, e) ==> |s.broadcast| >= 1
  {
  }

  // ---- nothing is queued twice -----------------------------------------------------------------

  /** Without cleanup, what is known stays known, and what is queued becomes known. */
  lemma KnownStays(me: Identity, s: Tracker, e: Event)
    requires Possible(e) && Intact(s) && !e.CleanedUp?
    ensures forall r :: Known(s, r) || r in Arrival(s, e) ==> Known(Happen(me, s, e).0, r)
  {
    hide ParsePacket, ByteAt, AnnounceTo, SendPackets, Keep, Intact, KeyOf, ReportConnection, Receive, Parsed,
         AnnouncedTo, Not;
    match e
    case Received(handle, offset, frame) => {
      var s1 := ConnectionFor(s, handle);
      KnownReceived(s1, s1.connections[handle].handle, offset, frame);
    }
    case Linked(handle, address, role, time) => LinkTells(s, handle, address, role, time);
    case _ => {}
  }

  lemma ArrivalIsNew(s: Tracker, e: Event)
    requires Possible(e)
    ensures forall r :: r in Arrival(s, e) ==> !Known(s, r)
    ensures NoDuplicates(Arrival(s, e))
  {
    hide ByteAt, Parsed, KeyOf;
  }

  lemma KnownReceived(s: Tracker, handle: U16, offset: U16, frame: seq<Byte>)
    requires Readable(frame, offset)
    ensures forall r :: Known(s, r) || r in Arrival(s, Received(handle, offset, frame)) ==>
              Known(Receive(s, handle, offset, frame), r)
  {
    hide Parsed, KeyOf, CheckSender, UpdatePeer, EnqueueFrom, Readable, ReceiveMessage, ReceiveAnnounce;
    match Parsed(frame, offset)
    case None =>
    case Some(p) =>
      KnownAnnounce(s, handle, p);
      if p.body.MessageBody? {
        KnownMessage(s, handle, p);
      }
  }

  lemma KnownAnnounce(s: Tracker, handle: U16, p: Packet)
    ensures s.announces.Keys <= ReceiveAnnounce(s, handle, p).announces.Keys
    ensures PassedOn(s, p, AnnounceRef(KeyOf(p))) ==> KeyOf(p) in ReceiveAnnounce(s, handle, p).announces
  {
    hide CheckSender, UpdatePeer, KeyOf;
    SameKey(p, p.base.ttl, handle);
  }

  lemma KnownMessage(s: Tracker, handle: U16, p: Packet)
    requires p.body.MessageBody?
    ensures s.messages.Keys <= ReceiveMessage(s, handle, p).messages.Keys
    ensures PassedOn(s, p, MessageRef(p.body.id)) ==> p.body.id in ReceiveMessage(s, handle, p).messages
  {
    hide CheckSender;
  }

  lemma ConcatNoDuplicates<T>(a: seq<T>, b: seq<T>)
    requires NoDuplicates(a) && NoDuplicates(b) && forall x :: x in a ==> x !in b
    ensures NoDuplicates(a + b)
  {
    forall i, j | 0 <= i < j < |a + b|
      ensures (a + b)[i] != (a + b)[j]
    {
      if i < |a| <= j { assert a[i] in a && b[j - |a|] in b; }
    }
  }

  /** Without cleanup no packet enters the queue twice, nor one that was known before the run. */
  lemma {:induction false} NothingQueuedTwice(me: Identity, s: Tracker, events: seq<Event>)
    requires Inv(s) && forall e :: e in events ==> Possible(e) && !e.CleanedUp?
    ensures NoDuplicates(Arrivals(me, s, events))
    ensures forall r :: r in Arrivals(me, s, events) ==> !Known(s, r)
    decreases |events|
  {
    hide Inv, Happen, Arrival, Known, NoDuplicates;
    if events != [] {
      IntactInv(s);
      assert events[0] in events;
      HappenInv(me, s, events[0]);
      var t := Happen(me, s, events[0]).0;
      KnownStays(me, s, events[0]);
      ArrivalIsNew(s, events[0]);
      NothingQueuedTwice(me, t, events[1..]);
      ConcatNoDuplicates(Arrival(s, events[0]), Arrivals(me, t, events[1..]));
    } else {
      NoneTwice<Ref>();
    }
  }

  lemma NoneTwice<T>()
    ensures NoDuplicates<T>([])
  {
  }
}
