/** Runs of a network with fixed links, in any interleaving of moves, lost frames and refusing radios:
    every copy of a message has paid for its hops; and as long as no node cleans up, each node queues it
    at most once, and it goes out at most once per port. */
module Flood {
  import opened Bytes
  import opened PacketFormat
  import opened TrackerState
  import opened TrackerInvariant
  import opened TrackerRuns
  import opened AtMostOnce
  import opened BroadcastQueue
  import opened Wire
  import opened MeshNode
  import opened Mesh

  ghost function After(links: Links, net: Net, moves: seq<Move>): (r: Net)
    requires NetOk(links, net)
    ensures NetOk(links, r)
    decreases |moves|
  {
    if moves == [] then net else
    MoveOk(links, net, moves[0]);
    After(links, Moved(links, net, moves[0]), moves[1..])
  }

  // ---- every copy has paid for its hops ------------------------------------------------------------

  /** Nodes that hold no message yet, and nothing in the air. */
  predicate Quiet(links: Links, net: Net) {
    && Joined(links, net.nodes)
    && (forall i :: 0 <= i < |net.nodes| ==> Inv(net.nodes[i]) && net.nodes[i].messages == map[])
    && net.air == [] && net.log == [] && net.queued == []
  }

  lemma QuietIsOk(links: Links, net: Net)
    requires Quiet(links, net)
    ensures NetOk(links, net)
  {
    hide Inv, Joined, Known;
    forall i | 0 <= i < |net.nodes|
      ensures NodeOk(i, net.nodes[i], net.past)
    {
      QueuedAreKnown(net.nodes[i]);
    }
  }

  /** Wherever a message is on its way, its ttl and the hops it has made add up to the ttl it was made
      with, and a copy could still hop: the frame in the air is, byte for byte but for the ttl, the one
      it was first written as, and will be read as the message with a ttl of at least one. */
  lemma EveryCopyIsCounted(links: Links, net: Net, moves: seq<Move>)
    requires Quiet(links, net)
    ensures NetOk(links, net)
    ensures var end := After(links, net, moves);
            && (forall i, id :: 0 <= i < |end.nodes| && MessageRef(id) in end.nodes[i].broadcast ==>
                  && id in end.nodes[i].messages && (i, id) in end.past
                  && QueuedFrom(end.nodes[i].messages[id], end.past[(i, id)]))
            && (forall f :: f in end.air && f.sent.ref.MessageRef? ==>
                  FlownFrom(f.sent.frame, f.sent.ref.id, f.journey))
  {
    hide Moved, Quiet, QueuedFrom, FlownFrom, Paid, Inv, FlightOk;
    QuietIsOk(links, net);
    var end := After(links, net, moves);
    forall f | f in end.air && f.sent.ref.MessageRef?
      ensures FlownFrom(f.sent.frame, f.sent.ref.id, f.journey)
    {
      FlightIsFlown(f);
    }
    forall i, id | 0 <= i < |end.nodes| && MessageRef(id) in end.nodes[i].broadcast
      ensures id in end.nodes[i].messages && (i, id) in end.past
              && QueuedFrom(end.nodes[i].messages[id], end.past[(i, id)])
    {
      assert Counted(i, end.nodes[i], end.past);
      assert MessageRef(id).MessageRef?;
      QueuedIsPaid(end.nodes[i].messages[id], end.past[(i, id)]);
    }
  }

  /** A queued copy of a message. */
  predicate QueuedFrom(m: Packet, j: Journey) {
    m.body == j.origin.body && m.base.ttl >= 1 && m.base.ttl + j.hops == j.origin.base.ttl
  }

  /** A frame of a message on its way, and what it will be read as. */
  predicate FlownFrom(frame: seq<Byte>, id: seq<Byte>, j: Journey) {
    && j.origin.body.MessageBody? && j.origin.body.id == id
    && 1 <= j.hops <= j.origin.base.ttl && |WritePacket(j.origin)| > 2
    && frame == WritePacket(j.origin)[2 := j.origin.base.ttl + 1 - j.hops]
    && Readable(frame, 0) && Parsed(frame, 0).Some?
    && Parsed(frame, 0).value.body == j.origin.body
    && Parsed(frame, 0).value.base.ttl == j.origin.base.ttl + 1 - j.hops
  }

  lemma QueuedIsPaid(m: Packet, j: Journey)
    requires Paid(m, j)
    ensures QueuedFrom(m, j)
  {
    hide WritePacket, Wireable;
  }

  lemma FlightIsFlown(f: Flight)
    requires FlightOk(f) && f.sent.ref.MessageRef?
    ensures FlownFrom(f.sent.frame, f.sent.ref.id, f.journey)
  {
    hide WritePacket, Wireable, Readable, Parsed, Arrived;
    CopyIsWireable(f.packet, f.journey.origin);
    WireRoundTrip(f.packet);
    ArrivedFields(f.packet);
  }

  // ---- history ---------------------------------------------------------------------------------------

  /** What each node has ever queued is still known to it, and was queued once. */
  predicate QueuedOnce(net: Net) {
    && NoDuplicates(net.queued)
    && (forall q :: q in net.queued ==> q.0 < |net.nodes| && Known(net.nodes[q.0], q.1))
  }

  /** The ports a packet has been handed to the radio for, in order. */
  function Tried(log: seq<(nat, Transmission)>, ref: Ref): seq<Port> {
    if log == [] then []
    else (if log[0].1.ref == ref then [(log[0].0, log[0].1.handle)] else []) + Tried(log[1..], ref)
  }

  /** A message has been tried once per port, and every port it was tried on has a record of it. */
  predicate TriedOnce(net: Net, ref: Ref) {
    && NoDuplicates(Tried(net.log, ref))
    && (forall p :: p in Tried(net.log, ref) ==> PortOf(net.nodes, p) && (ref, p.1) in net.nodes[p.0].sent)
  }

  lemma {:induction false} TriedConcat(a: seq<(nat, Transmission)>, b: seq<(nat, Transmission)>, ref: Ref)
    ensures Tried(a + b, ref) == Tried(a, ref) + Tried(b, ref)
    decreases |a|
  {
    if a == [] {
      assert a + b == b;
    } else {
      TriedConcat(a[1..], b, ref);
      FirstThenRest(a, b);
      Associates(if a[0].1.ref == ref then [(a[0].0, a[0].1.handle)] else [], Tried(a[1..], ref), Tried(b, ref));
    }
  }

  lemma FirstThenRest<T>(a: seq<T>, b: seq<T>)
    requires a != []
    ensures a + b != [] && (a + b)[0] == a[0] && (a + b)[1..] == a[1..] + b
  {
  }

  lemma Associates<T>(a: seq<T>, b: seq<T>, c: seq<T>)
    ensures a + b + c == a + (b + c)
  {
  }

  /** One node's share of a log: at most once per handle, each on a port of its own with a record. */
  lemma {:induction false} TriedAtNode(i: nat, log: seq<Transmission>, ref: Ref)
    requires ref.MessageRef? && forall h :: Once(log, (ref, h))
    ensures NoDuplicates(Tried(Tagged(i, log), ref))
    ensures forall p :: p in Tried(Tagged(i, log), ref) ==>
              p.0 == i && !Silent(log, (ref, p.1)) && Settled(log, (ref, p.1))
    decreases |log|
  {
    if log != [] {
      var rest := log[1..];
      assert Tagged(i, log)[1..] == Tagged(i, rest);
      assert forall k :: 0 <= k < |rest| ==> rest[k] == log[k + 1];
      forall h
        ensures Once(rest, (ref, h))
      {
        assert Once(log, (ref, h));
      }
      TriedAtNode(i, rest, ref);
      SettledTail(log, ref);
      var h := log[0].handle;
      if log[0].ref == ref {
        assert Once(log, (ref, h));
        assert Final(log[0], (ref, h));
        assert Silent(rest, (ref, h));
      }
    }
  }

  lemma SettledTail(log: seq<Transmission>, ref: Ref)
    requires log != []
    ensures forall h :: Settled(log[1..], (ref, h)) ==> Settled(log, (ref, h))
    ensures forall h :: !Silent(log[1..], (ref, h)) ==> !Silent(log, (ref, h))
    ensures forall h :: To(log[0], (ref, h)) ==> !Silent(log, (ref, h))
    ensures forall h :: Final(log[0], (ref, h)) ==> Settled(log, (ref, h))
  {
    assert log[0] in log;
    assert forall t :: t in log[1..] ==> t in log;
  }

  // ---- one move as an event at a node ----------------------------------------------------------------

  predicate Acts(net: Net, m: Move) {
    Enabled(net, m) && !m.Lose?
  }

  function Actor(net: Net, m: Move): (i: nat)
    requires Acts(net, m)
    ensures i < |net.nodes|
  {
    if m.Deliver? then net.air[m.flight].target.0 else m.node
  }

  function EventOf(net: Net, m: Move): (e: Event)
    requires Acts(net, m)
    ensures Possible(e) && !e.Unlinked? && (e.CleanedUp? <==> m.Clean?)
  {
    match m
    case Make(_, message) => WireableIsMessage(message); Originated(message)
    case Transmit(_, layout, radio) => SentOut(layout, radio)
    case Announce(_, _, at, haveTime, now) => Announcing(at, haveTime, now)
    case Clean(_, now) => CleanedUp(now)
    case Deliver(k) => Received(net.air[k].target.1, 0, net.air[k].sent.frame)
  }

  function Before(net: Net, m: Move): (r: Net)
    requires Acts(net, m)
    ensures r == net.(air := r.air)
  {
    if m.Deliver? then Landed(net, m.flight) else net
  }

  function Me(m: Move): Identity {
    if m.Announce? then m.me else NOBODY
  }

  /** The journey a message has behind it when the move queues it. */
  function JourneyOf(net: Net, m: Move): Journey
    requires Acts(net, m)
  {
    if m.Make? then Journey(m.message, 0) else if m.Deliver? then net.air[m.flight].journey else NOWHERE
  }

  lemma MoveIsEvent(links: Links, net: Net, m: Move)
    requires NetOk(links, net) && Acts(net, m)
    ensures Intact(net.nodes[Actor(net, m)])
    ensures Moved(links, net, m) ==
            At(links, Before(net, m), Actor(net, m), Me(m), EventOf(net, m), JourneyOf(net, m))
  {
    hide NetOk, Intact, At, Wireable, Landed, Readable;
    NodesIntact(links, net);
  }

  lemma MoveIsLoss(links: Links, net: Net, m: Move)
    requires NetOk(links, net) && !Acts(net, m)
    ensures Moved(links, net, m) == if m.Lose? && m.flight < |net.air| then Landed(net, m.flight) else net
  {
    hide NetOk, At, Wireable, Landed, Readable;
  }

  // ---- queued once -------------------------------------------------------------------------------------

  lemma TaggedNoDuplicates(i: nat, refs: seq<Ref>)
    requires NoDuplicates(refs)
    ensures NoDuplicates(Tagged(i, refs))
    ensures forall q :: q in Tagged(i, refs) ==> q.0 == i && q.1 in refs
  {
  }

  lemma AtQueuedOnce(links: Links, net: Net, i: nat, me: Identity, e: Event, journey: Journey)
    requires QueuedOnce(net) && i < |net.nodes| && Possible(e) && Intact(net.nodes[i]) && !e.CleanedUp?
    ensures QueuedOnce(At(links, net, i, me, e, journey))
  {
    hide Known, Happen, Arrival, Launch, Remembered, Intact, Possible, NoDuplicates;
    var s := net.nodes[i];
    KnownStays(me, s, e);
    ArrivalIsNew(s, e);
    TaggedNoDuplicates(i, Arrival(s, e));
    ConcatNoDuplicates(net.queued, Tagged(i, Arrival(s, e)));
  }

  lemma MoveQueuedOnce(links: Links, net: Net, m: Move)
    requires NetOk(links, net) && QueuedOnce(net) && !m.Clean?
    ensures QueuedOnce(Moved(links, net, m))
  {
    hide NetOk, Moved, At, Intact, Wireable, Known, NoDuplicates;
    if Acts(net, m) {
      MoveIsEvent(links, net, m);
      AtQueuedOnce(links, Before(net, m), Actor(net, m), Me(m), EventOf(net, m), JourneyOf(net, m));
    } else {
      MoveIsLoss(links, net, m);
    }
  }

  // ---- tried once ------------------------------------------------------------------------------------------

  /** The handles a message was tried on in one event are new, and now recorded. */
  lemma TriedNow(i: nat, s: Tracker, t: Tracker, log: seq<Transmission>, ref: Ref)
    requires ref.MessageRef? && forall h :: Respects(s, t, log, (ref, h))
    ensures var now := Tried(Tagged(i, log), ref);
            NoDuplicates(now) && forall p :: p in now ==> p.0 == i && (ref, p.1) !in s.sent && (ref, p.1) in t.sent
    ensures forall h :: (ref, h) in s.sent ==> (ref, h) in t.sent
  {
    hide Once, Silent, Settled, NoDuplicates;
    forall h
      ensures Once(log, (ref, h))
    {
      assert Respects(s, t, log, (ref, h));
    }
    TriedAtNode(i, log, ref);
    forall p | p in Tried(Tagged(i, log), ref)
      ensures (ref, p.1) !in s.sent && (ref, p.1) in t.sent
    {
      assert Respects(s, t, log, (ref, p.1));
    }
    forall h | (ref, h) in s.sent
      ensures (ref, h) in t.sent
    {
      assert Respects(s, t, log, (ref, h));
    }
  }

  lemma AtTriedOnce(links: Links, net: Net, i: nat, me: Identity, e: Event, journey: Journey, ref: Ref)
    requires TriedOnce(net, ref) && ref.MessageRef? && i < |net.nodes| && Possible(e) && Inv(net.nodes[i])
    requires Intact(net.nodes[i])
    requires !e.CleanedUp? && SamePorts(net.nodes, At(links, net, i, me, e, journey).nodes)
    ensures TriedOnce(At(links, net, i, me, e, journey), ref)
  {
    hide Inv, Happen, Arrival, Launch, Remembered, Intact, Possible, NoDuplicates, Respects;
    var s, now := net.nodes[i], Happen(me, net.nodes[i], e);
    forall h
      ensures Respects(s, now.0, now.1, (ref, h))
    {
      HappenRespects(me, s, e, (ref, h));
    }
    TriedNow(i, s, now.0, now.1, ref);
    HappenInv(me, s, e);
    RecordsHavePorts(now.0);
    TriedConcat(net.log, Tagged(i, now.1), ref);
    ConcatNoDuplicates(Tried(net.log, ref), Tried(Tagged(i, now.1), ref));
  }

  lemma RecordsHavePorts(s: Tracker)
    requires Inv(s)
    ensures forall e :: e in s.sent ==> e.1 in s.connections
  {
    hide Known, HandlesAgree, Stored, Queued, Unrepeated;
  }

  lemma MoveTriedOnce(links: Links, net: Net, m: Move, ref: Ref)
    requires NetOk(links, net) && TriedOnce(net, ref) && ref.MessageRef? && !m.Clean?
    ensures TriedOnce(Moved(links, net, m), ref)
  {
    hide NetOk, Moved, At, Intact, Wireable, NoDuplicates, Inv;
    MoveOk(links, net, m);
    if Acts(net, m) {
      MoveIsEvent(links, net, m);
      NodeIs(links, net, Actor(net, m));
      AtTriedOnce(links, Before(net, m), Actor(net, m), Me(m), EventOf(net, m), JourneyOf(net, m), ref);
    } else {
      MoveIsLoss(links, net, m);
    }
  }

  // ---- counting ports ----------------------------------------------------------------------------------------

  function Total<T>(xs: seq<T>, f: T -> nat): nat
    decreases |xs|
  {
    if xs == [] then 0 else f(xs[0]) + Total(xs[1..], f)
  }

  lemma {:induction false} TotalConcat<T>(a: seq<T>, b: seq<T>, f: T -> nat)
    ensures Total(a + b, f) == Total(a, f) + Total(b, f)
    decreases |a|
  {
    if a == [] {
      assert a + b == b;
    } else {
      TotalConcat(a[1..], b, f);
      FirstThenRest(a, b);
    }
  }

  lemma TotalOfOne<T>(x: T, f: T -> nat)
    ensures Total([x], f) == f(x)
  {
    assert [x][1..] == [];
  }

  lemma TotalWithout<T>(xs: seq<T>, k: nat, f: T -> nat)
    requires k < |xs|
    ensures Total(xs[..k] + xs[k + 1..], f) + f(xs[k]) == Total(xs, f)
  {
    TotalConcat(xs[..k], xs[k + 1..], f);
    TotalConcat(xs[..k], [xs[k]] + xs[k + 1..], f);
    TotalConcat([xs[k]], xs[k + 1..], f);
    TotalOfOne(xs[k], f);
    assert xs == xs[..k] + ([xs[k]] + xs[k + 1..]);
  }

  lemma TotalUpdate<T>(xs: seq<T>, k: nat, x: T, f: T -> nat)
    requires k < |xs|
    ensures Total(xs[k := x], f) + f(xs[k]) == Total(xs, f) + f(x)
  {
    TotalWithout(xs, k, f);
    TotalWithout(xs[k := x], k, f);
    assert xs[k := x][..k] + xs[k := x][k + 1..] == xs[..k] + xs[k + 1..];
  }

  function Ports(): Tracker -> nat {
    (s: Tracker) => |s.connections.Keys|
  }

  /** All ports of all nodes. */
  function Degrees(nodes: seq<Tracker>): nat {
    Total(nodes, Ports())
  }

  lemma {:induction false} DistinctHandles(ports: seq<Port>, i: nat, handles: set<Handle>)
    requires NoDuplicates(ports) && forall p :: p in ports ==> p.0 == i && p.1 in handles
    ensures |ports| <= |handles|
    decreases |ports|
  {
    if ports != [] {
      assert ports[0] in ports;
      assert forall p :: p in ports[1..] ==> p in ports && p != ports[0];
      DistinctHandles(ports[1..], i, handles - {ports[0].1});
    }
  }

  lemma {:induction false} KeepSplits<T>(xs: seq<T>, p: T -> bool)
    ensures |Keep(xs, p)| + |Keep(xs, Not(p))| == |xs|
    decreases |xs|
  {
    if xs != [] {
      KeepSplits(xs[1..], p);
    }
  }

  /** Distinct ports are no more than there are. */
  lemma {:induction false} DistinctPorts(nodes: seq<Tracker>, ports: seq<Port>)
    requires NoDuplicates(ports) && forall p :: p in ports ==> PortOf(nodes, p)
    ensures |ports| <= Degrees(nodes)
    decreases |nodes|
  {
    hide NoDuplicates, Keep;
    if nodes == [] {
      DistinctHandles(ports, 0, {});
    } else {
      var last := |nodes| - 1;
      var here := (p: Port) => p.0 == last;
      KeepSplits(ports, here);
      KeepShrinks(ports, here);
      KeepShrinks(ports, Not(here));
      KeepIsFilter(ports, here);
      KeepIsFilter(ports, Not(here));
      DistinctHandles(Keep(ports, here), last, nodes[last].connections.Keys);
      forall p | p in Keep(ports, Not(here))
        ensures PortOf(nodes[..last], p)
      {
        assert PortOf(nodes, p) && !here(p);
      }
      DistinctPorts(nodes[..last], Keep(ports, Not(here)));
      TotalConcat(nodes[..last], [nodes[last]], Ports());
      TotalOfOne(nodes[last], Ports());
      assert nodes == nodes[..last] + [nodes[last]];
    }
  }

  lemma {:induction false} SameDegrees(nodes: seq<Tracker>, after: seq<Tracker>)
    requires SamePorts(nodes, after)
    ensures Degrees(nodes) == Degrees(after)
    decreases |nodes|
  {
    if nodes != [] {
      SameDegrees(nodes[1..], after[1..]);
    }
  }

  // ---- the theorem on whole runs -----------------------------------------------------------------------------

  lemma {:induction false} HistoryKept(links: Links, net: Net, moves: seq<Move>, ref: Ref)
    requires NetOk(links, net) && QueuedOnce(net) && TriedOnce(net, ref) && ref.MessageRef?
    requires forall m :: m in moves ==> !m.Clean?
    ensures var end := After(links, net, moves);
            QueuedOnce(end) && TriedOnce(end, ref) && SamePorts(net.nodes, end.nodes)
    decreases |moves|
  {
    hide NetOk, Moved, QueuedOnce, TriedOnce, Intact;
    if moves != [] {
      assert moves[0] in moves;
      MoveOk(links, net, moves[0]);
      MoveQueuedOnce(links, net, moves[0]);
      MoveTriedOnce(links, net, moves[0], ref);
      HistoryKept(links, Moved(links, net, moves[0]), moves[1..], ref);
    }
  }

  /** Bounded flooding: in every run without cleanup each node queues each packet at most once, and the frames a
      message costs, taken or refused, delivered or lost, are at most the ports there are. */
  lemma FloodIsBounded(links: Links, net: Net, moves: seq<Move>, id: seq<Byte>)
    requires Quiet(links, net) && forall m :: m in moves ==> !m.Clean?
    ensures NetOk(links, net)
    ensures var end := After(links, net, moves);
            && NoDuplicates(end.queued)
            && NoDuplicates(Tried(end.log, MessageRef(id)))
            && |Tried(end.log, MessageRef(id))| <= Degrees(net.nodes)
  {
    hide NetOk, After, Joined, Inv, SamePorts, Degrees;
    QuietIsOk(links, net);
    var end, ref := After(links, net, moves), MessageRef(id);
    HistoryKept(links, net, moves, ref);
    DistinctPorts(end.nodes, Tried(end.log, ref));
    SameDegrees(net.nodes, end.nodes);
  }
}
