/** How far a message gets, and as what: every copy of it is, but for the ttl, the one that some node
    made, as many links away from that node as the copy has hopped; so every node that ever knows the
    message is within as many links of a node that made it as the ttl it was made with. Cleanups may
    come at any time. */
module Radius {
  import opened Bytes
  import opened BinaryIO
  import opened PacketFormat
  import opened TrackerState
  import opened TrackerInvariant
  import opened TrackerRuns
  import opened BroadcastQueue
  import opened Wire
  import opened MeshNode
  import opened Mesh
  import opened Flood

  // ---- distance ----------------------------------------------------------------------------------

  /** A node that makes a message. */
  type Making = (nat, Packet)

  /** `k` links lead from one node to the other. */
  predicate Apart(links: Links, origin: nat, node: nat, k: nat)
    decreases k
  {
    if k == 0 then origin == node
    else exists p :: p in links && links[p].0 == node && Apart(links, origin, p.0, k - 1)
  }

  /** Some maker of the journey's message is as far away as the journey is long. */
  ghost predicate Reached(links: Links, makings: set<Making>, node: nat, j: Journey) {
    exists o :: (o, j.origin) in makings && Apart(links, o, node, j.hops)
  }

  /** Within the ttl of a message as it was made. */
  ghost predicate Near(links: Links, makings: set<Making>, node: nat) {
    exists j: Journey :: j.hops <= j.origin.base.ttl && Reached(links, makings, node, j)
  }

  lemma OneLinkFurther(links: Links, makings: set<Making>, p: Port, j: Journey)
    requires p in links && Reached(links, makings, p.0, j)
    ensures Reached(links, makings, links[p].0, OneHopMore(j))
  {
    var o :| (o, j.origin) in makings && Apart(links, o, p.0, j.hops);
    assert Apart(links, o, links[p].0, j.hops + 1);
  }

  lemma MakerIsReached(links: Links, makings: set<Making>, node: nat, m: Packet)
    requires (node, m) in makings
    ensures Reached(links, makings, node, Journey(m, 0)) && Near(links, makings, node)
  {
    assert Apart(links, node, node, 0);
  }

  // ---- what every move keeps -----------------------------------------------------------------------

  /** Every trace of the message is as far from a maker as its hops say. */
  ghost predicate Traced(links: Links, net: Net, makings: set<Making>, id: seq<Byte>) {
    && (forall q :: q in net.past && q.1 == id ==> Reached(links, makings, q.0, net.past[q]))
    && (forall f :: f in net.air && f.sent.ref == MessageRef(id) ==> Reached(links, makings, f.target.0, f.journey))
    && (forall i :: 0 <= i < |net.nodes| && id in net.nodes[i].messages ==> Near(links, makings, i))
  }

  /** What is launched has gone one link further than the node it leaves. */
  lemma {:induction false} LaunchTraced(links: Links, i: nat, s: Tracker, past: Journeys, log: seq<Transmission>,
                                        makings: set<Making>, id: seq<Byte>)
    requires forall t :: t in log && t.ref == MessageRef(id) ==>
               (i, id) in past && Reached(links, makings, i, past[(i, id)])
    ensures forall f :: f in Launch(links, i, s, past, log) && f.sent.ref == MessageRef(id) ==>
              Reached(links, makings, f.target.0, f.journey)
    decreases |log|
  {
    hide Known, Reached;
    if log != [] {
      assert log[0] in log;
      LaunchTraced(links, i, s, past, log[1..], makings, id);
      if (i, log[0].handle) in links && log[0].ref == MessageRef(id) {
        OneLinkFurther(links, makings, (i, log[0].handle), past[(i, id)]);
      }
    }
  }

  lemma AtTraced(links: Links, net: Net, i: nat, me: Identity, e: Event, journey: Journey, makings: set<Making>,
                 id: seq<Byte>)
    requires Traced(links, net, makings, id) && i < |net.nodes| && Possible(e) && Intact(net.nodes[i])
    ensures var s, now := net.nodes[i], Happen(me, net.nodes[i], e);
            && (MessageRef(id) in Arrival(s, e) ==> Reached(links, makings, i, journey))
            && (forall t :: t in now.1 && t.ref == MessageRef(id) ==> (i, id) in net.past)
            && (id in now.0.messages ==> id in s.messages || Near(links, makings, i)) ==>
              Traced(links, At(links, net, i, me, e, journey), makings, id)
  {
    hide Happen, Arrival, Launch, Possible, Intact, Reached, Near;
    var s, now := net.nodes[i], Happen(me, net.nodes[i], e);
    if && (MessageRef(id) in Arrival(s, e) ==> Reached(links, makings, i, journey))
       && (forall t :: t in now.1 && t.ref == MessageRef(id) ==> (i, id) in net.past)
       && (id in now.0.messages ==> id in s.messages || Near(links, makings, i)) {
      LaunchTraced(links, i, s, net.past, now.1, makings, id);
      RememberedTraced(links, net.past, i, Arrival(s, e), journey, makings, id);
    }
  }

  lemma RememberedTraced(links: Links, past: Journeys, i: nat, refs: seq<Ref>, journey: Journey,
                         makings: set<Making>, id: seq<Byte>)
    requires forall q :: q in past && q.1 == id ==> Reached(links, makings, q.0, past[q])
    requires MessageRef(id) in refs ==> Reached(links, makings, i, journey)
    ensures var now := Remembered(past, i, refs, journey);
            forall q :: q in now && q.1 == id ==> Reached(links, makings, q.0, now[q])
  {
    hide Reached;
    if |refs| == 1 && refs[0].MessageRef? { assert refs[0] in refs; }
  }

  // ---- the moves ---------------------------------------------------------------------------------------

  lemma MakeTraced(links: Links, net: Net, i: nat, m: Packet, makings: set<Making>, id: seq<Byte>)
    requires Traced(links, net, makings, id) && i < |net.nodes| && Intact(net.nodes[i])
    requires Wireable(m) && Possible(Originated(m))
    requires m.body.id == id ==> (i, m) in makings
    ensures Traced(links, At(links, net, i, NOBODY, Originated(m), Journey(m, 0)), makings, id)
  {
    hide Traced, Intact, At, Reached, Near, Wireable, Originate, Arrival;
    MessageMade(net.nodes[i], m);
    if m.body.id == id { MakerIsReached(links, makings, i, m); }
    AtTraced(links, net, i, NOBODY, Originated(m), Journey(m, 0), makings, id);
  }

  lemma TransmitTraced(links: Links, net: Net, i: nat, layout: Layout, radio: Radio, makings: set<Making>,
                       id: seq<Byte>)
    requires Traced(links, net, makings, id) && i < |net.nodes| && Intact(net.nodes[i])
    requires NodeOk(i, net.nodes[i], net.past)
    ensures Traced(links, At(links, net, i, NOBODY, SentOut(layout, radio), NOWHERE), makings, id)
  {
    hide Traced, Intact, At, Reached, Near, Wireable, SendPackets, Inv, Genuine, Departs, Paid;
    var s := net.nodes[i];
    SendsOldest(s, layout, radio);
    QueueFront(s, layout, radio);
    SentWasQueued(i, s, net.past, SendPackets(s, layout, radio).1,
                  if Departs(s, SentOut(layout, radio)) then s.broadcast[0] else OwnAnnounce, id);
    AtTraced(links, net, i, NOBODY, SentOut(layout, radio), NOWHERE, makings, id);
  }

  lemma SentWasQueued(i: nat, s: Tracker, past: Journeys, log: seq<Transmission>, ref: Ref, id: seq<Byte>)
    requires Counted(i, s, past) && Genuine(s, log, ref) && (ref == OwnAnnounce || ref in s.broadcast)
    ensures forall t :: t in log && t.ref == MessageRef(id) ==> (i, id) in past
  {
    hide WritePacket, Known, CameFrom, TooBig, Paid;
  }

  lemma AnnounceTraced(links: Links, net: Net, i: nat, me: Identity, at: Location, haveTime: bool, now: U64,
                       makings: set<Making>, id: seq<Byte>)
    requires Traced(links, net, makings, id) && i < |net.nodes| && Intact(net.nodes[i])
    ensures Traced(links, At(links, net, i, me, Announcing(at, haveTime, now), NOWHERE), makings, id)
  {
    hide Traced, Intact, At, Reached, Near, AnnounceToConnections;
    AnnouncingKeeps(net.nodes[i], me, at, haveTime, now);
    AtTraced(links, net, i, me, Announcing(at, haveTime, now), NOWHERE, makings, id);
  }

  lemma CleanTraced(links: Links, net: Net, i: nat, now: U64, makings: set<Making>, id: seq<Byte>)
    requires Traced(links, net, makings, id) && i < |net.nodes| && Intact(net.nodes[i])
    ensures Traced(links, At(links, net, i, NOBODY, CleanedUp(now), NOWHERE), makings, id)
  {
    hide Traced, Intact, At, Reached, Near, CleanupStaleItems;
    CleaningKeeps(net.nodes[i], now);
    AtTraced(links, net, i, NOBODY, CleanedUp(now), NOWHERE, makings, id);
  }

  lemma DeliverTraced(links: Links, net: Net, f: Flight, makings: set<Making>, id: seq<Byte>)
    requires Traced(links, net, makings, id) && f.target.0 < |net.nodes| && Intact(net.nodes[f.target.0])
    requires FlightOk(f) && f.target.1 in net.nodes[f.target.0].connections && Readable(f.sent.frame, 0)
    requires f.sent.ref == MessageRef(id) ==> Reached(links, makings, f.target.0, f.journey)
    ensures Traced(links, At(links, net, f.target.0, NOBODY, Received(f.target.1, 0, f.sent.frame), f.journey),
                   makings, id)
  {
    hide Traced, Intact, At, Reached, Wireable, Arrive, Arrival, WritePacket, ByteAt, Readable, CopyOf;
    var s := net.nodes[f.target.0];
    match f.sent.ref {
      case MessageRef(other) =>
        CopyIsWireable(f.packet, f.journey.origin);
        MessageArrives(s, f.target.1, f.packet);
        if other == id { assert Near(links, makings, f.target.0); }
      case _ =>
        AnnounceArrives(s, f.target.1, f.sent.frame);
    }
    AtTraced(links, net, f.target.0, NOBODY, Received(f.target.1, 0, f.sent.frame), f.journey, makings, id);
  }

  lemma LandedTraced(links: Links, net: Net, k: nat, makings: set<Making>, id: seq<Byte>)
    requires Traced(links, net, makings, id) && k < |net.air|
    ensures Traced(links, Landed(net, k), makings, id)
    ensures net.air[k].sent.ref == MessageRef(id) ==> Reached(links, makings, net.air[k].target.0, net.air[k].journey)
  {
    hide Reached, Near;
    assert net.air[k] in net.air;
  }

  /** If the move makes the message, it is one of the makings. */
  predicate MadeAs(m: Move, makings: set<Making>, id: seq<Byte>) {
    m.Make? && m.message.body.MessageBody? && m.message.body.id == id ==> (m.node, m.message) in makings
  }

  lemma MoveTraced(links: Links, net: Net, m: Move, makings: set<Making>, id: seq<Byte>)
    requires NetOk(links, net) && Traced(links, net, makings, id) && MadeAs(m, makings, id)
    ensures Traced(links, Moved(links, net, m), makings, id)
  {
    hide Traced, Intact, At, Reached, Near, Wireable, NetOk, NodeOk, FlightOk, Landed, Readable;
    NodesIntact(links, net);
    if Enabled(net, m) {
      match m
      case Make(i, message) => {
        WireableIsMessage(message);
        MakeTraced(links, net, i, message, makings, id);
      }
      case Transmit(i, layout, radio) => {
        NodeIs(links, net, i);
        TransmitTraced(links, net, i, layout, radio, makings, id);
      }
      case Announce(i, me, at, haveTime, now) => AnnounceTraced(links, net, i, me, at, haveTime, now, makings, id);
      case Clean(i, now) => CleanTraced(links, net, i, now, makings, id);
      case Deliver(k) => {
        LandedTraced(links, net, k, makings, id);
        LandedOk(links, net, k);
        FlightInOrder(links, net, k);
        DeliverTraced(links, Landed(net, k), net.air[k], makings, id);
      }
      case Lose(k) => LandedTraced(links, net, k, makings, id);
    }
  }

  lemma {:induction false} RunTraced(links: Links, net: Net, moves: seq<Move>, makings: set<Making>, id: seq<Byte>)
    requires NetOk(links, net) && Traced(links, net, makings, id)
    requires forall m :: m in moves ==> MadeAs(m, makings, id)
    ensures Traced(links, After(links, net, moves), makings, id)
    decreases |moves|
  {
    hide NetOk, Moved, Traced, MadeAs;
    if moves != [] {
      MoveOk(links, net, moves[0]);
      assert moves[0] in moves;
      MoveTraced(links, net, moves[0], makings, id);
      RunTraced(links, Moved(links, net, moves[0]), moves[1..], makings, id);
    }
  }

  /** The ttl is a radius: in every run from a quiet network, a node that knows a message is at most
      as many links away from a node that made it as the ttl it was made with there. */
  lemma TtlIsRadius(links: Links, net: Net, moves: seq<Move>, makings: set<Making>, id: seq<Byte>)
    requires Quiet(links, net) && net.past == map[]
    requires forall m :: m in moves ==> MadeAs(m, makings, id)
    ensures NetOk(links, net)
    ensures var end := After(links, net, moves);
            forall i :: 0 <= i < |end.nodes| && id in end.nodes[i].messages ==> Near(links, makings, i)
  {
    hide NetOk, After, Joined, Inv, MadeAs, Near;
    QuietIsOk(links, net);
    RunTraced(links, net, moves, makings, id);
  }

  /** Some node made a message whose frame, with the ttl the hops have left it, is this one, and the
      hops are the links from that node to here. */
  ghost predicate Relays(links: Links, makings: set<Making>, f: Flight) {
    exists o, p, hops: nat :: RelayOf(links, makings, f, o, p, hops)
  }

  predicate RelayOf(links: Links, makings: set<Making>, f: Flight, o: nat, p: Packet, hops: nat) {
    && (o, p) in makings && Apart(links, o, f.target.0, hops) && 1 <= hops <= p.base.ttl && |WritePacket(p)| > 2
    && f.sent.frame == WritePacket(p)[2 := p.base.ttl + 1 - hops]
  }

  /** Nothing but the ttl changes on the way: in every run from a quiet network, every frame of a
      message in the air is the frame of a message that was made, `WritePacket(p)`, with its ttl byte
      counted down once for every link but the first between there and here. */
  lemma FramesAreRelays(links: Links, net: Net, moves: seq<Move>, makings: set<Making>, id: seq<Byte>)
    requires Quiet(links, net) && net.past == map[]
    requires forall m :: m in moves ==> MadeAs(m, makings, id)
    ensures NetOk(links, net)
    ensures forall f :: f in After(links, net, moves).air && f.sent.ref == MessageRef(id) ==> Relays(links, makings, f)
  {
    hide NetOk, After, Joined, Inv, MadeAs, Reached, Relays, Quiet, FlownFrom, Near;
    QuietIsOk(links, net);
    QuietIsUntraced(links, net, makings, id);
    RunTraced(links, net, moves, makings, id);
    EveryCopyIsCounted(links, net, moves);
    forall f | f in After(links, net, moves).air && f.sent.ref == MessageRef(id)
      ensures Relays(links, makings, f)
    {
      FlightRelays(links, makings, f);
    }
  }

  lemma QuietIsUntraced(links: Links, net: Net, makings: set<Making>, id: seq<Byte>)
    requires Quiet(links, net) && net.past == map[]
    ensures Traced(links, net, makings, id)
  {
    hide Inv, Joined, Reached, Near;
  }

  lemma FlightRelays(links: Links, makings: set<Making>, f: Flight)
    requires f.sent.ref.MessageRef? && Reached(links, makings, f.target.0, f.journey)
    requires FlownFrom(f.sent.frame, f.sent.ref.id, f.journey)
    ensures Relays(links, makings, f)
  {
    hide WritePacket, Parsed, Readable, Apart;
    var o :| (o, f.journey.origin) in makings && Apart(links, o, f.target.0, f.journey.hops);
    assert RelayOf(links, makings, f, o, f.journey.origin, f.journey.hops);
  }
}
