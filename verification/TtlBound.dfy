/** The ttl alone bounds a flood. A cleanup makes a node forget a message, which can then be accepted
    and queued there again, and so on round every cycle of the network; but every hop costs a ttl. So
    whatever is cleaned up and when, each time a message is made costs at most as many moves as a tree
    of its ttl's depth in which every node has as many children as a node has ports. */
module TtlBound {
  import opened Bytes
  import opened BinaryIO
  import opened PacketFormat
  import opened TrackerState
  import opened TrackerInvariant
  import opened TrackerRuns
  import opened BroadcastQueue
  import opened Wire
  import opened MeshNode
  import opened Mesh
  import opened Flood
  import opened FloodEnds

  // ---- the measure -------------------------------------------------------------------------------

  /** The nodes of a tree of this depth. */
  function Tree(depth: nat, d: nat): nat {
    if depth == 0 then 1 else 1 + d * Tree(depth - 1, d)
  }

  /** What a queued copy can cost: to leave its queue, and its frames on every port. */
  function Cost(ttl: nat, d: nat): nat
    decreases ttl, 1
  {
    if ttl == 0 then 0 else 1 + d * FrameCost(ttl, d)
  }

  /** What a frame can cost: its delivery or its loss, and the copy that is queued for it. */
  function FrameCost(ttl: nat, d: nat): nat
    decreases ttl, 0
  {
    1 + if ttl == 0 then 0 else Cost(ttl - 1, d)
  }

  /** Every copy but the made one takes a frame, and every copy with hops left a place in a queue. */
  lemma {:induction false} CostIsTrees(ttl: nat, d: nat)
    ensures Cost(ttl + 1, d) + 1 == Tree(ttl + 1, d) + Tree(ttl, d)
  {
    if ttl > 0 {
      CostIsTrees(ttl - 1, d);
      assert FrameCost(ttl + 1, d) == Tree(ttl, d) + Tree(ttl - 1, d);
      Distributes(d, Tree(ttl, d), Tree(ttl - 1, d));
    } else {
      assert Cost(1, d) == 1 + d * FrameCost(1, d) && FrameCost(1, d) == 1 + Cost(0, d);
      assert Tree(1, d) == 1 + d * Tree(0, d);
    }
  }

  lemma Distributes(d: nat, x: nat, y: nat)
    ensures d * (x + y) == d * x + d * y
  {
  }

  function Held(ref: Ref, d: nat): Tracker -> nat {
    (s: Tracker) => if ref in s.broadcast && Known(s, ref) then Cost(PacketOf(s, ref).base.ttl, d) else 0
  }

  function Aloft(ref: Ref, d: nat): Flight -> nat {
    (f: Flight) => if f.sent.ref == ref then FrameCost(f.packet.base.ttl, d) else 0
  }

  /** What all copies of the message can still cost. */
  function Stock(net: Net, ref: Ref, d: nat): nat {
    Total(net.nodes, Held(ref, d)) + Total(net.air, Aloft(ref, d))
  }

  // ---- one event -----------------------------------------------------------------------------------

  lemma OneMoreTimes(n: nat, c: nat)
    ensures (n + 1) * c == n * c + c
  {
  }

  /** Frames of the message cost what its stored copy says. */
  predicate CostsAt(s: Tracker, ref: Ref, d: nat, c: nat) {
    Known(s, ref) ==> c == FrameCost(PacketOf(s, ref).base.ttl, d)
  }

  lemma {:induction false} LaunchCosts(links: Links, i: nat, s: Tracker, past: Journeys, log: seq<Transmission>,
                                       ref: Ref, d: nat, c: nat)
    requires CostsAt(s, ref, d, c)
    ensures Total(Launch(links, i, s, past, log), Aloft(ref, d)) <= |Tried(Tagged(i, log), ref)| * c
    decreases |log|
  {
    hide CostsAt, Launch, Total;
    if log == [] {
      NothingLaunched(links, i, s, past, ref, d);
    } else {
      assert Tagged(i, log)[1..] == Tagged(i, log[1..]);
      LaunchCosts(links, i, s, past, log[1..], ref, d, c);
      FirstCosts(links, i, s, past, log, ref, d, c);
      var n := |Tried(Tagged(i, log[1..]), ref)|;
      assert |Tried(Tagged(i, log), ref)| == if log[0].ref == ref then n + 1 else n;
      OneMoreTimes(n, c);
    }
  }

  lemma FirstCosts(links: Links, i: nat, s: Tracker, past: Journeys, log: seq<Transmission>, ref: Ref, d: nat, c: nat)
    requires CostsAt(s, ref, d, c) && log != []
    ensures Total(Launch(links, i, s, past, log), Aloft(ref, d)) <=
            Total(Launch(links, i, s, past, log[1..]), Aloft(ref, d)) + if log[0].ref == ref then c else 0
  {
    hide Known, PacketOf, FrameCost;
    var rest := Launch(links, i, s, past, log[1..]);
    if Launch(links, i, s, past, log) != rest {
      assert Launch(links, i, s, past, log)[1..] == rest;
    }
  }

  lemma NothingLaunched(links: Links, i: nat, s: Tracker, past: Journeys, ref: Ref, d: nat)
    ensures Total(Launch(links, i, s, past, []), Aloft(ref, d)) == 0
  {
  }

  lemma AtMostTimes(n: nat, d: nat, c: nat)
    requires n <= d
    ensures n * c <= d * c
  {
  }

  lemma StillQueued(s: Tracker, ref: Ref)
    requires Inv(s) && ref in s.broadcast && ref.MessageRef?
    ensures Known(s, ref) && PacketOf(s, ref).base.ttl >= 1
  {
    hide HandlesAgree, Stored, Unrepeated;
  }

  lemma FrontCosts(links: Links, i: nat, s: Tracker, past: Journeys, layout: Layout, radio: Radio, ref: Ref, d: nat)
    requires Inv(s) && Intact(s) && ref in s.broadcast && ref.MessageRef? && |s.connections.Keys| <= d
    ensures Total(Launch(links, i, s, past, SendPackets(s, layout, radio).1), Aloft(ref, d)) + 1 <= Held(ref, d)(s)
  {
    hide Inv, Intact, SendPackets, Launch, Total, Tried, Tagged;
    StillQueued(s, ref);
    var c, log := FrameCost(PacketOf(s, ref).base.ttl, d), SendPackets(s, layout, radio).1;
    LaunchCosts(links, i, s, past, log, ref, d, c);
    SpentOnPorts(i, s, layout, radio, ref);
    AtMostTimes(|Tried(Tagged(i, log), ref)|, d, c);
  }

  /** A send takes the oldest packet from the queue, and its frames cost no more than it did. */
  lemma SendCosts(links: Links, i: nat, s: Tracker, past: Journeys, layout: Layout, radio: Radio, ref: Ref, d: nat)
    requires Inv(s) && Intact(s) && ref.MessageRef? && |s.connections.Keys| <= d
    ensures var r := SendPackets(s, layout, radio);
            Total(Launch(links, i, s, past, r.1), Aloft(ref, d)) + Held(ref, d)(r.0)
            + (if ref in s.broadcast && ref !in r.0.broadcast then 1 else 0) <= Held(ref, d)(s)
  {
    hide Inv, Intact, SendPackets, Genuine, Departs, Launch, Total, Tried, Tagged, NoDuplicates, Cost;
    var r := SendPackets(s, layout, radio);
    SendQueue(s, layout, radio);
    QueueFront(s, layout, radio);
    NothingRepeated(s);
    var front := if Departs(s, SentOut(layout, radio)) then s.broadcast[0] else OwnAnnounce;
    if front == ref {
      FrontOnce(s.broadcast);
      assert ref in s.broadcast;
      FrontCosts(links, i, s, past, layout, radio, ref, d);
    } else {
      SendsOldest(s, layout, radio);
      TriedElsewhere(i, s, r.1, front, ref);
      LaunchCosts(links, i, s, past, r.1, ref, d,
                  if Known(s, ref) then FrameCost(PacketOf(s, ref).base.ttl, d) else 0);
      assert Held(ref, d)(r.0) == Held(ref, d)(s);
    }
  }

  lemma MakeCosts(s: Tracker, m: Packet, ref: Ref, d: nat)
    requires Inv(s) && Wireable(m) && Possible(Originated(m)) && ref.MessageRef?
    ensures Held(ref, d)(Originate(s, m)) <= Held(ref, d)(s) + if m.body.id == ref.id then Cost(m.base.ttl, d) else 0
  {
    hide Inv, Wireable, Originate, Arrival, Cost;
    MessageMade(s, m);
    QueuedAreKnown(s);
  }

  /** What is queued for a delivered frame costs what the frame still could. */
  lemma DeliveryCosts(s: Tracker, f: Flight, ref: Ref, d: nat)
    requires Inv(s) && FlightOk(f) && f.target.1 in s.connections && Readable(f.sent.frame, 0) && ref.MessageRef?
    ensures Held(ref, d)(Arrive(s, f.target.1, 0, f.sent.frame)) + (if f.sent.ref == ref then 1 else 0)
            <= Held(ref, d)(s) + Aloft(ref, d)(f)
  {
    hide Inv, CopyOf, Arrive, Arrival, Cost, WritePacket, ByteAt, Readable;
    QueuedAreKnown(s);
    match f.sent.ref
    case MessageRef(id) =>
      CopyIsWireable(f.packet, f.journey.origin);
      MessageArrives(s, f.target.1, f.packet);
      KeptTtl(Arrive(s, f.target.1, 0, f.sent.frame), f.packet);
    case _ => AnnounceArrives(s, f.target.1, f.sent.frame);
  }

  lemma CleaningCosts(s: Tracker, now: U64, ref: Ref, d: nat)
    requires Inv(s) && ref.MessageRef?
    ensures Held(ref, d)(CleanupStaleItems(s, now)) <= Held(ref, d)(s)
  {
    hide Inv, CleanupStaleItems, Cost;
    IntactInv(s);
    CleaningKeeps(s, now);
  }

  // ---- one move ------------------------------------------------------------------------------------

  lemma AtCosts(links: Links, net: Net, i: nat, me: Identity, e: Event, journey: Journey, ref: Ref, d: nat)
    requires i < |net.nodes| && Possible(e) && Intact(net.nodes[i])
    ensures var s, now := net.nodes[i], Happen(me, net.nodes[i], e);
            Stock(At(links, net, i, me, e, journey), ref, d) + Held(ref, d)(s) ==
            Stock(net, ref, d) + Held(ref, d)(now.0) + Total(Launch(links, i, s, net.past, now.1), Aloft(ref, d))
  {
    hide Happen, Arrival, Launch, Remembered, Possible, Intact, Total, Cost, FrameCost, Known;
    var now := Happen(me, net.nodes[i], e);
    TotalUpdate(net.nodes, i, now.0, Held(ref, d));
    TotalConcat(net.air, Launch(links, i, net.nodes[i], net.past, now.1), Aloft(ref, d));
  }

  /** An event that hands nothing over. */
  lemma QuietlyCosts(links: Links, net: Net, i: nat, me: Identity, e: Event, journey: Journey, ref: Ref, d: nat)
    requires i < |net.nodes| && Possible(e) && Intact(net.nodes[i]) && !e.SentOut?
    ensures Stock(At(links, net, i, me, e, journey), ref, d) + Held(ref, d)(net.nodes[i]) ==
            Stock(net, ref, d) + Held(ref, d)(Happen(me, net.nodes[i], e).0)
  {
    hide Happen, Possible, Intact, Stock, At, Held;
    AtCosts(links, net, i, me, e, journey, ref, d);
    QuietEvent(me, net.nodes[i], e);
    NothingLaunched(links, i, net.nodes[i], net.past, ref, d);
  }

  lemma LandedCosts(net: Net, k: nat, ref: Ref, d: nat)
    requires k < |net.air|
    ensures Stock(Landed(net, k), ref, d) + Aloft(ref, d)(net.air[k]) == Stock(net, ref, d)
    ensures net.air[k].sent.ref == ref ==> Aloft(ref, d)(net.air[k]) >= 1
  {
    TotalWithout(net.air, k, Aloft(ref, d));
  }

  /** What making a message adds. */
  function Worth(m: Move, id: seq<Byte>, d: nat): nat {
    if m.Make? && m.message.body.MessageBody? && m.message.body.id == id then Cost(m.message.base.ttl, d) else 0
  }

  predicate AtMostPorts(nodes: seq<Tracker>, d: nat) {
    forall i :: 0 <= i < |nodes| ==> |nodes[i].connections.Keys| <= d
  }

  lemma DeliverMoveCosts(links: Links, net: Net, k: nat, ref: Ref, d: nat)
    requires NetOk(links, net) && ref.MessageRef? && Enabled(net, Deliver(k))
    ensures Stock(Moved(links, net, Deliver(k)), ref, d) + (if net.air[k].sent.ref == ref then 1 else 0)
            <= Stock(net, ref, d)
  {
    hide NetOk, At, Intact, Inv, Landed, Stock, Held, Aloft, Readable, FlightOk, Arrive;
    var f := net.air[k];
    FlightInOrder(links, net, k);
    NodeIs(links, net, f.target.0);
    NodeSound(f.target.0, net.nodes[f.target.0], net.past);
    LandedCosts(net, k, ref, d);
    LandedOk(links, net, k);
    QuietlyCosts(links, Landed(net, k), f.target.0, NOBODY, Received(f.target.1, 0, f.sent.frame), f.journey, ref, d);
    DeliveryCosts(net.nodes[f.target.0], f, ref, d);
  }

  lemma TransmitMoveCosts(links: Links, net: Net, m: Move, ref: Ref, d: nat)
    requires NetOk(links, net) && ref.MessageRef? && Enabled(net, m) && m.Transmit? && AtMostPorts(net.nodes, d)
    ensures Stock(Moved(links, net, m), ref, d) + (if Moves(links, net, m, ref) then 1 else 0) <= Stock(net, ref, d)
  {
    hide NetOk, At, Intact, Inv, Stock, Held, SendPackets, Moved, Launch, Total, Aloft, Moves;
    NodeIs(links, net, m.node);
    NodeSound(m.node, net.nodes[m.node], net.past);
    MoveIsEvent(links, net, m);
    TransmitMoves(links, net, m, ref);
    SendCosts(links, m.node, net.nodes[m.node], net.past, m.layout, m.radio, ref, d);
    AtCosts(links, net, m.node, NOBODY, SentOut(m.layout, m.radio), NOWHERE, ref, d);
  }

  lemma LocalMoveCosts(links: Links, net: Net, m: Move, id: seq<Byte>, d: nat)
    requires NetOk(links, net) && Acts(net, m) && !m.Transmit? && !m.Deliver?
    ensures Stock(Moved(links, net, m), MessageRef(id), d) <= Stock(net, MessageRef(id), d) + Worth(m, id, d)
  {
    hide NetOk, At, Intact, Inv, Stock, Held, Wireable, Originate, AnnounceToConnections, CleanupStaleItems, Cost;
    var s := net.nodes[m.node];
    NodeIs(links, net, m.node);
    NodeSound(m.node, s, net.past);
    MoveIsEvent(links, net, m);
    QuietlyCosts(links, net, m.node, Me(m), EventOf(net, m), JourneyOf(net, m), MessageRef(id), d);
    match m
    case Make(_, message) => {
      WireableIsMessage(message);
      MakeCosts(s, message, MessageRef(id), d);
    }
    case Announce(_, me, at, haveTime, now) => AnnouncingCosts(s, me, at, haveTime, now, MessageRef(id), d);
    case Clean(_, now) => CleaningCosts(s, now, MessageRef(id), d);
  }

  lemma AnnouncingCosts(s: Tracker, me: Identity, at: Location, haveTime: bool, now: U64, ref: Ref, d: nat)
    requires ref.MessageRef?
    ensures Held(ref, d)(AnnounceToConnections(s, me, at, haveTime, now)) == Held(ref, d)(s)
  {
    hide AnnounceToConnections, Cost;
    AnnouncingKeeps(s, me, at, haveTime, now);
  }

  /** Every move of the message spends of what its copies can cost, and only making it adds to that. */
  lemma MoveCosts(links: Links, net: Net, m: Move, id: seq<Byte>, d: nat)
    requires NetOk(links, net) && AtMostPorts(net.nodes, d)
    ensures Stock(Moved(links, net, m), MessageRef(id), d)
            + (if Moves(links, net, m, MessageRef(id)) then 1 else 0) <= Stock(net, MessageRef(id), d) + Worth(m, id, d)
  {
    hide NetOk, Moved, Stock, Aloft, SendPackets, Landed, AtMostPorts, Wireable, Readable, Intact;
    if Acts(net, m) {
      match m
      case Transmit(_, _, _) => TransmitMoveCosts(links, net, m, MessageRef(id), d);
      case Deliver(k) => DeliverMoveCosts(links, net, k, MessageRef(id), d);
      case _ => LocalMoveCosts(links, net, m, id, d);
    } else {
      MoveIsLoss(links, net, m);
      if m.Lose? && m.flight < |net.air| { LandedCosts(net, m.flight, MessageRef(id), d); }
    }
  }

  // ---- whole runs ----------------------------------------------------------------------------------

  function Worths(moves: seq<Move>, id: seq<Byte>, d: nat): nat
    decreases |moves|
  {
    if moves == [] then 0 else Worth(moves[0], id, d) + Worths(moves[1..], id, d)
  }

  lemma Subset(a: set<Handle>, b: set<Handle>)
    requires a <= b
    ensures |a| <= |b|
  {
    assert b == a + (b - a);
  }

  lemma StillAtMostPorts(nodes: seq<Tracker>, after: seq<Tracker>, d: nat)
    requires AtMostPorts(nodes, d) && NoMorePorts(nodes, after)
    ensures AtMostPorts(after, d)
  {
    forall i | 0 <= i < |after|
      ensures |after[i].connections.Keys| <= d
    {
      Subset(after[i].connections.Keys, nodes[i].connections.Keys);
    }
  }

  lemma {:induction false} RunCosts(links: Links, net: Net, moves: seq<Move>, id: seq<Byte>, d: nat)
    requires NetOk(links, net) && AtMostPorts(net.nodes, d)
    ensures MovesOf(links, net, moves, MessageRef(id)) + Stock(After(links, net, moves), MessageRef(id), d)
            <= Stock(net, MessageRef(id), d) + Worths(moves, id, d)
    decreases |moves|
  {
    hide NetOk, Moved, Stock, Moves, Worth, AtMostPorts, NoMorePorts;
    if moves != [] {
      MoveOk(links, net, moves[0]);
      MoveCosts(links, net, moves[0], id, d);
      StillAtMostPorts(net.nodes, Moved(links, net, moves[0]).nodes, d);
      RunCosts(links, Moved(links, net, moves[0]), moves[1..], id, d);
    }
  }

  lemma {:induction false} NothingHeld(nodes: seq<Tracker>, ref: Ref, d: nat)
    requires ref.MessageRef? && forall i :: 0 <= i < |nodes| ==> nodes[i].messages == map[]
    ensures Total(nodes, Held(ref, d)) == 0
    decreases |nodes|
  {
    if nodes != [] {
      NothingHeld(nodes[1..], ref, d);
    }
  }

  /** The ttl bounds every flood: from a quiet network in which no node has more than d ports, however
      long the run and however often nodes forget the message, it leaves queues, is delivered and is
      lost at most as often as the trees of all its makings have nodes. */
  lemma TtlBoundsFlood(links: Links, net: Net, moves: seq<Move>, id: seq<Byte>, d: nat)
    requires Quiet(links, net) && AtMostPorts(net.nodes, d)
    ensures NetOk(links, net)
    ensures MovesOf(links, net, moves, MessageRef(id)) <= Worths(moves, id, d)
  {
    hide NetOk, MovesOf, After, Joined, Inv, Held, AtMostPorts;
    QuietIsOk(links, net);
    RunCosts(links, net, moves, id, d);
    NothingHeld(net.nodes, MessageRef(id), d);
  }
}
