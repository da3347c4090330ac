/** The measure that makes a flood end: what a message can still cost, at every node that may yet send
    it and in the air. No move raises it, and every move of the message lowers it. */
module FloodEnds {
  import opened Bytes
  import opened PacketFormat
  import opened TrackerState
  import opened TrackerInvariant
  import opened TrackerRuns
  import opened AtMostOnce
  import opened BroadcastQueue
  import opened Wire
  import opened MeshNode
  import opened Mesh
  import opened Flood

  // ---- the measure -------------------------------------------------------------------------------

  /** A node that does not know the message or has it queued may still send it on all its ports. */
  function Weight(s: Tracker, ref: Ref): nat {
    if !Known(s, ref) || ref in s.broadcast then |s.connections.Keys| + 1 else 0
  }

  function WeightFor(ref: Ref): Tracker -> nat {
    (s: Tracker) => Weight(s, ref)
  }

  function Weights(nodes: seq<Tracker>, ref: Ref): nat {
    Total(nodes, WeightFor(ref))
  }

  function Carries(ref: Ref): Flight -> nat {
    (f: Flight) => if f.sent.ref == ref then 1 else 0
  }

  function InAir(air: seq<Flight>, ref: Ref): nat {
    Total(air, Carries(ref))
  }

  function Potential(net: Net, ref: Ref): nat {
    Weights(net.nodes, ref) + InAir(net.air, ref)
  }

  // ---- one event ---------------------------------------------------------------------------------

  /** Fewer frames leave than are handed over. */
  lemma {:induction false} LaunchedWereTried(links: Links, i: nat, s: Tracker, past: Journeys,
                                             log: seq<Transmission>, ref: Ref)
    ensures InAir(Launch(links, i, s, past, log), ref) <= |Tried(Tagged(i, log), ref)|
    decreases |log|
  {
    hide Known;
    if log != [] {
      assert Tagged(i, log)[1..] == Tagged(i, log[1..]);
      LaunchedWereTried(links, i, s, past, log[1..], ref);
    }
  }

  lemma {:induction false} TriedElsewhere(i: nat, s: Tracker, log: seq<Transmission>, other: Ref, ref: Ref)
    requires Genuine(s, log, other) && ref != other && ref != OwnAnnounce
    ensures Tried(Tagged(i, log), ref) == []
    decreases |log|
  {
    hide WritePacket, Known;
    if log != [] {
      assert Tagged(i, log)[1..] == Tagged(i, log[1..]);
      assert log[0] in log;
      TriedElsewhere(i, s, log[1..], other, ref);
    }
  }

  /** A send takes the oldest packet from the queue and spends at most what it was worth. */
  lemma SendSpends(i: nat, s: Tracker, layout: Layout, radio: Radio, ref: Ref)
    requires Inv(s) && ref.MessageRef?
    ensures var r := SendPackets(s, layout, radio);
            var moved := ref in s.broadcast && ref !in r.0.broadcast;
            |Tried(Tagged(i, r.1), ref)| + Weight(r.0, ref) + (if moved then 1 else 0) <= Weight(s, ref)
  {
    hide Inv, Intact, SendPackets, Genuine, Departs, Respects, Tried, NoDuplicates;
    IntactInv(s);
    var r := SendPackets(s, layout, radio);
    SendQueue(s, layout, radio);
    SendsOldest(s, layout, radio);
    QueueFront(s, layout, radio);
    NothingRepeated(s);
    if Departs(s, SentOut(layout, radio)) && s.broadcast[0] == ref {
      FrontOnce(s.broadcast);
      assert ref in s.broadcast;
      BroadcastsKnown(s);
      SpentOnPorts(i, s, layout, radio, ref);
    } else {
      TriedElsewhere(i, s, r.1, if Departs(s, SentOut(layout, radio)) then s.broadcast[0] else OwnAnnounce, ref);
    }
  }

  lemma FrontOnce(queue: seq<Ref>)
    requires NoDuplicates(queue) && queue != []
    ensures queue[0] !in queue[1..]
  {
  }

  lemma SpentOnPorts(i: nat, s: Tracker, layout: Layout, radio: Radio, ref: Ref)
    requires Inv(s) && ref.MessageRef?
    ensures |Tried(Tagged(i, SendPackets(s, layout, radio).1), ref)| <= |s.connections.Keys|
  {
    hide Inv, Intact, SendPackets, Respects, NoDuplicates, Tried;
    IntactInv(s);
    var r := SendPackets(s, layout, radio);
    forall h
      ensures Respects(s, r.0, r.1, (ref, h))
    {
      SendRespects(s, layout, radio, (ref, h));
    }
    TriedNow(i, s, r.0, r.1, ref);
    SendPacketsInv(s, layout, radio);
    RecordsHavePorts(r.0);
    DistinctHandles(Tried(Tagged(i, r.1), ref), i, s.connections.Keys);
  }

  /** Any other event hands over nothing, and only an unknown message can enter the queue. */
  lemma EventKeepsWeight(me: Identity, s: Tracker, e: Event, ref: Ref)
    requires Inv(s) && Possible(e) && !e.SentOut? && !e.CleanedUp?
    requires Happen(me, s, e).0.connections == s.connections
    ensures Happen(me, s, e).1 == [] && Weight(Happen(me, s, e).0, ref) <= Weight(s, ref)
  {
    hide Inv, Intact, Known, Arrival;
    IntactInv(s);
    QuietEvent(me, s, e);
    KnownStays(me, s, e);
    ArrivalIsNew(s, e);
    EventQueue(me, s, e);
    assert !Departs(s, e);
    hide Happen;
  }

  // ---- one move ----------------------------------------------------------------------------------

  /** The message makes a move: it leaves a queue, or a frame of it is delivered or lost. */
  predicate Moves(links: Links, net: Net, m: Move, ref: Ref)
    requires NetOk(links, net)
  {
    NodesIntact(links, net);
    Enabled(net, m) && match m
                       case Deliver(k) => net.air[k].sent.ref == ref
                       case Lose(k) => net.air[k].sent.ref == ref
                       case Transmit(i, layout, radio) =>
                         ref in net.nodes[i].broadcast && ref !in SendPackets(net.nodes[i], layout, radio).0.broadcast
                       case _ => false
  }

  /** An event that spends what it launches does not raise the potential. */
  lemma AtSpends(links: Links, net: Net, i: nat, me: Identity, e: Event, journey: Journey, ref: Ref, moved: bool)
    requires i < |net.nodes| && Possible(e) && Intact(net.nodes[i])
    ensures var now, cost := Happen(me, net.nodes[i], e), if moved then 1 else 0;
            |Tried(Tagged(i, now.1), ref)| + Weight(now.0, ref) + cost <= Weight(net.nodes[i], ref) ==>
              Potential(At(links, net, i, me, e, journey), ref) + cost <= Potential(net, ref)
  {
    hide Happen, Arrival, Launch, Remembered, Possible, Intact, Weight, Total, Tried;
    var now := Happen(me, net.nodes[i], e);
    TotalUpdate(net.nodes, i, now.0, WeightFor(ref));
    TotalConcat(net.air, Launch(links, i, net.nodes[i], net.past, now.1), Carries(ref));
    LaunchedWereTried(links, i, net.nodes[i], net.past, now.1, ref);
  }

  lemma NothingTried(i: nat, ref: Ref)
    ensures Tried(Tagged(i, []), ref) == []
  {
  }

  lemma AtKeepsConnections(links: Links, net: Net, i: nat, me: Identity, e: Event, journey: Journey)
    requires i < |net.nodes| && Possible(e) && Intact(net.nodes[i])
    ensures SamePorts(net.nodes, At(links, net, i, me, e, journey).nodes) ==>
              Happen(me, net.nodes[i], e).0.connections == net.nodes[i].connections
  {
    hide Happen, Arrival, Launch, Remembered, Possible, Intact;
    assert At(links, net, i, me, e, journey).nodes[i] == Happen(me, net.nodes[i], e).0;
  }

  /** Moves other than sends: the node's weight does not rise and nothing is launched. */
  lemma ActSpends(links: Links, net: Net, m: Move, ref: Ref)
    requires NetOk(links, net) && Acts(net, m) && !m.Transmit? && !m.Clean?
    ensures Potential(Moved(links, net, m), ref) <= Potential(Before(net, m), ref)
  {
    hide NetOk, Moved, Wireable, At, Potential, Intact, Inv, Happen, SamePorts, Tried, Weight;
    var i, e, before := Actor(net, m), EventOf(net, m), Before(net, m);
    var journey := JourneyOf(net, m);
    MoveIsEvent(links, net, m);
    MoveOk(links, net, m);
    NodeIs(links, net, i);
    NodeSound(i, net.nodes[i], net.past);
    AtKeepsConnections(links, before, i, Me(m), e, journey);
    EventKeepsWeight(Me(m), net.nodes[i], e, ref);
    NothingTried(i, ref);
    AtSpends(links, before, i, Me(m), e, journey, ref, false);
  }

  lemma TransmitMoves(links: Links, net: Net, m: Move, ref: Ref)
    requires NetOk(links, net) && Acts(net, m) && m.Transmit?
    ensures Intact(net.nodes[m.node])
    ensures Moves(links, net, m, ref) <==>
            ref in net.nodes[m.node].broadcast
            && ref !in SendPackets(net.nodes[m.node], m.layout, m.radio).0.broadcast
  {
    hide NetOk, Intact, SendPackets;
    NodesIntact(links, net);
  }

  lemma TransmitSpends(links: Links, net: Net, m: Move, ref: Ref)
    requires NetOk(links, net) && Acts(net, m) && m.Transmit? && ref.MessageRef?
    ensures Potential(Moved(links, net, m), ref) + (if Moves(links, net, m, ref) then 1 else 0) <= Potential(net, ref)
  {
    hide NetOk, At, Potential, Intact, Inv, SendPackets, Tried, Weight;
    var s := net.nodes[m.node];
    NodeIs(links, net, m.node);
    NodeSound(m.node, s, net.past);
    SendSpends(m.node, s, m.layout, m.radio, ref);
    AtSpends(links, net, m.node, NOBODY, SentOut(m.layout, m.radio), NOWHERE, ref, Moves(links, net, m, ref));
  }

  lemma LandedInAir(net: Net, k: nat, ref: Ref)
    requires k < |net.air|
    ensures Potential(Landed(net, k), ref) + (if net.air[k].sent.ref == ref then 1 else 0) == Potential(net, ref)
  {
    TotalWithout(net.air, k, Carries(ref));
  }

  lemma BeforeInAir(net: Net, m: Move, ref: Ref)
    requires Acts(net, m)
    ensures Potential(Before(net, m), ref) + (if m.Deliver? && net.air[m.flight].sent.ref == ref then 1 else 0)
            == Potential(net, ref)
  {
    hide Potential, Landed;
    if m.Deliver? { LandedInAir(net, m.flight, ref); }
  }

  /** No move raises the potential, and every move of the message lowers it. */
  lemma MoveSpends(links: Links, net: Net, m: Move, ref: Ref)
    requires NetOk(links, net) && ref.MessageRef? && !m.Clean?
    ensures Potential(Moved(links, net, m), ref) + (if Moves(links, net, m, ref) then 1 else 0) <= Potential(net, ref)
  {
    hide NetOk, Moved, Potential, Intact, SendPackets, Landed;
    if Acts(net, m) {
      if m.Transmit? {
        TransmitSpends(links, net, m, ref);
      } else {
        ActSpends(links, net, m, ref);
        BeforeInAir(net, m, ref);
      }
    } else {
      MoveIsLoss(links, net, m);
      if m.Lose? && m.flight < |net.air| { LandedInAir(net, m.flight, ref); }
    }
  }

  // ---- whole runs --------------------------------------------------------------------------------

  ghost function MovesOf(links: Links, net: Net, moves: seq<Move>, ref: Ref): nat
    requires NetOk(links, net)
    decreases |moves|
  {
    if moves == [] then 0 else
    MoveOk(links, net, moves[0]);
    (if Moves(links, net, moves[0], ref) then 1 else 0) + MovesOf(links, Moved(links, net, moves[0]), moves[1..], ref)
  }

  /** From any network in order, without cleanup: the moves a message still makes are at most its potential. */
  lemma {:induction false} FloodSpends(links: Links, net: Net, moves: seq<Move>, ref: Ref)
    requires NetOk(links, net) && ref.MessageRef? && forall m :: m in moves ==> !m.Clean?
    ensures MovesOf(links, net, moves, ref) + Potential(After(links, net, moves), ref) <= Potential(net, ref)
    decreases |moves|
  {
    hide NetOk, Moved, Potential, Moves, Intact;
    if moves != [] {
      assert moves[0] in moves;
      MoveOk(links, net, moves[0]);
      MoveSpends(links, net, moves[0], ref);
      FloodSpends(links, Moved(links, net, moves[0]), moves[1..], ref);
    }
  }

  lemma {:induction false} WeightsBounded(nodes: seq<Tracker>, ref: Ref)
    ensures Weights(nodes, ref) <= Degrees(nodes) + |nodes|
    decreases |nodes|
  {
    hide Known;
    if nodes != [] {
      WeightsBounded(nodes[1..], ref);
    }
  }

  /** Every flood ends: from a quiet network, however long the run and whatever it interleaves but a
      cleanup, a message leaves queues, is delivered and is lost no more often than there are ports and
      nodes. */
  lemma FloodTerminates(links: Links, net: Net, moves: seq<Move>, id: seq<Byte>)
    requires Quiet(links, net) && forall m :: m in moves ==> !m.Clean?
    ensures NetOk(links, net)
    ensures MovesOf(links, net, moves, MessageRef(id)) <= Degrees(net.nodes) + |net.nodes|
  {
    hide NetOk, MovesOf, After, Joined, Inv, Weights, Degrees;
    QuietIsOk(links, net);
    FloodSpends(links, net, moves, MessageRef(id));
    WeightsBounded(net.nodes, MessageRef(id));
  }
}
