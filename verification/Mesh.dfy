/** A network of nodes joined by fixed links. Frames in the air may be delivered in any order or lost;
    nodes make messages, announce themselves, send and clean up whenever they like. */
module Mesh {
  import opened Bytes
  import opened BinaryIO
  import opened PacketFormat
  import opened TrackerState
  import opened TrackerInvariant
  import opened TrackerRuns
  import opened BroadcastQueue
  import opened Wire
  import opened MeshNode

  type Port = (nat, Handle)

  /** What a node sends on a port arrives at the port at the other end. */
  type Links = map<Port, Port>

  /** What a copy of a message has behind it: the message as it was made, and the hops since. */
  datatype Journey = Journey(origin: Packet, hops: nat)

  /** The journey of a message up to the node it was last queued at. */
  type Journeys = map<(nat, seq<Byte>), Journey>

  /** A frame in the air; the packet it was written from and its journey are history. */
  datatype Flight = Flight(target: Port, sent: Transmission, packet: Packet, journey: Journey)

  /** The nodes and the air; and as history, the journey of each queued message, everything handed to
      a radio, and everything put in a queue. */
  datatype Net = Net(nodes: seq<Tracker>, air: seq<Flight>, past: Journeys,
                     log: seq<(nat, Transmission)>, queued: seq<(nat, Ref)>)

  datatype Move =
    | Make(node: nat, message: Packet)
    | Transmit(node: nat, layout: Layout, radio: Radio)
    | Announce(node: nat, me: Identity, at: Location, haveTime: bool, now: U64)
    | Clean(node: nat, now: U64)
    | Deliver(flight: nat)
    | Lose(flight: nat)

  const NOBODY := Identity(0, [])

  predicate Enabled(net: Net, m: Move) {
    match m
    case Make(i, message) => i < |net.nodes| && Wireable(message)
    case Transmit(i, _, _) => i < |net.nodes|
    case Announce(i, _, _, _, _) => i < |net.nodes|
    case Clean(i, _) => i < |net.nodes|
    case Deliver(k) => k < |net.air| && net.air[k].target.0 < |net.nodes| && Readable(net.air[k].sent.frame, 0)
    case Lose(k) => k < |net.air|
  }

  function Tagged<T>(i: nat, xs: seq<T>): (r: seq<(nat, T)>)
    ensures |r| == |xs| && forall k :: 0 <= k < |xs| ==> r[k] == (i, xs[k])
  {
    seq(|xs|, k requires 0 <= k < |xs| => (i, xs[k]))
  }

  const NO_PACKET := Packet(Header(0, 0, 0, 0, 0, 0, 0, 0, [], [], false), EMPTY_MESSAGE)
  const NOWHERE := Journey(NO_PACKET, 0)

  function SoFar(past: Journeys, i: nat, ref: Ref): Journey {
    if ref.MessageRef? && (i, ref.id) in past then past[(i, ref.id)] else NOWHERE
  }

  function OneHopMore(j: Journey): Journey {
    j.(hops := j.hops + 1)
  }

  /** What the radio took, on its way to the other ends of the links. */
  function Launch(links: Links, i: nat, s: Tracker, past: Journeys, log: seq<Transmission>): seq<Flight>
    decreases |log|
  {
    if log == [] then [] else
    var t, rest := log[0], Launch(links, i, s, past, log[1..]);
    if t.taken && (i, t.handle) in links && Known(s, t.ref) then
      [Flight(links[(i, t.handle)], t, PacketOf(s, t.ref), OneHopMore(SoFar(past, i, t.ref)))] + rest
    else rest
  }

  function Remembered(past: Journeys, i: nat, refs: seq<Ref>, journey: Journey): Journeys {
    if |refs| == 1 && refs[0].MessageRef? then past[(i, refs[0].id) := journey] else past
  }

  /** An event at one node. */
  function At(links: Links, net: Net, i: nat, me: Identity, e: Event, journey: Journey): Net
    requires i < |net.nodes| && Possible(e) && Intact(net.nodes[i])
  {
    var s := net.nodes[i];
    var now := Happen(me, s, e);
    Net(net.nodes[i := now.0],
        net.air + Launch(links, i, s, net.past, now.1),
        Remembered(net.past, i, Arrival(s, e), journey),
        net.log + Tagged(i, now.1),
        net.queued + Tagged(i, Arrival(s, e)))
  }

  function Landed(net: Net, k: nat): Net
    requires k < |net.air|
  {
    net.(air := net.air[..k] + net.air[k + 1..])
  }

  // ---- the invariant -----------------------------------------------------------------------------

  predicate Wired(s: Tracker) {
    forall id :: id in s.messages ==> Wireable(s.messages[id])
  }

  /** A copy that can still hop: every hop it has made has cost it one, and otherwise it is, byte for
      byte, what was made. */
  predicate Paid(m: Packet, j: Journey) {
    CopyOf(m, j.origin) && m.base.ttl >= 1 && m.base.ttl + j.hops == j.origin.base.ttl
  }

  /** Every queued message has paid for its journey. */
  predicate Counted(i: nat, s: Tracker, past: Journeys) {
    forall r :: r in s.broadcast && r.MessageRef? ==>
      r.id in s.messages && (i, r.id) in past && Paid(s.messages[r.id], past[(i, r.id)])
  }

  predicate NodeOk(i: nat, s: Tracker, past: Journeys) {
    Inv(s) && Wired(s) && Counted(i, s, past)
  }

  /** A message in the air has been written from a copy that had paid for all hops but this one. */
  predicate FlightOk(f: Flight) {
    match f.sent.ref
    case MessageRef(id) =>
      && f.packet.body.MessageBody? && f.packet.body.id == id && f.sent.frame == WritePacket(f.packet)
      && f.journey.hops >= 1 && Paid(f.packet, f.journey.(hops := f.journey.hops - 1))
    case _ => ByteAt(f.sent.frame, 1) == TYPE_ANNOUNCE
  }

  predicate PortOf(nodes: seq<Tracker>, p: Port) {
    p.0 < |nodes| && p.1 in nodes[p.0].connections
  }

  predicate LivePort(nodes: seq<Tracker>, p: Port) {
    PortOf(nodes, p) && nodes[p.0].connections[p.1].connected
  }

  predicate Joined(links: Links, nodes: seq<Tracker>) {
    forall p :: p in links ==> LivePort(nodes, links[p])
  }

  predicate NetOk(links: Links, net: Net) {
    && Joined(links, net.nodes)
    && (forall i :: 0 <= i < |net.nodes| ==> NodeOk(i, net.nodes[i], net.past))
    && (forall k :: 0 <= k < |net.air| ==> FlightOk(net.air[k]) && LivePort(net.nodes, net.air[k].target))
  }

  lemma NodesIntact(links: Links, net: Net)
    requires NetOk(links, net)
    ensures forall i :: 0 <= i < |net.nodes| ==> Intact(net.nodes[i])
  {
    hide FlightOk, Wired, Counted, HandlesAgree, Stored, Queued, Unrepeated, Intact;
  }

  lemma NodeIs(links: Links, net: Net, i: nat)
    requires NetOk(links, net) && i < |net.nodes|
    ensures NodeOk(i, net.nodes[i], net.past) && Intact(net.nodes[i])
  {
    hide FlightOk, Wired, Counted, HandlesAgree, Stored, Queued, Unrepeated, Intact;
  }

  lemma NodeSound(i: nat, s: Tracker, past: Journeys)
    requires NodeOk(i, s, past)
    ensures Inv(s)
  {
  }

  // ---- moves -----------------------------------------------------------------------------------

  /** A move that is not enabled changes nothing. */
  function Moved(links: Links, net: Net, m: Move): Net
    requires NetOk(links, net)
  {
    if !Enabled(net, m) then net else
    NodesIntact(links, net);
    match m
    case Make(i, message) =>
      WireableIsMessage(message);
      At(links, net, i, NOBODY, Originated(message), Journey(message, 0))
    case Transmit(i, layout, radio) => At(links, net, i, NOBODY, SentOut(layout, radio), NOWHERE)
    case Announce(i, me, at, haveTime, now) => At(links, net, i, me, Announcing(at, haveTime, now), NOWHERE)
    case Clean(i, now) => At(links, net, i, NOBODY, CleanedUp(now), NOWHERE)
    case Deliver(k) =>
      var f := net.air[k];
      At(links, Landed(net, k), f.target.0, NOBODY, Received(f.target.1, 0, f.sent.frame), f.journey)
    case Lose(k) => Landed(net, k)
  }

  // ---- one node ------------------------------------------------------------------------------------

  lemma MakeKeeps(i: nat, s: Tracker, m: Packet, past: Journeys)
    requires NodeOk(i, s, past) && Wireable(m) && Possible(Originated(m))
    ensures var t := Originate(s, m);
            NodeOk(i, t, Remembered(past, i, Arrival(s, Originated(m)), Journey(m, 0)))
            && t.connections == s.connections
  {
    hide Inv, Wireable, Originate, Arrival, CopyOf;
    WireableIsMessage(m);
    OriginateInv(s, m);
    MessageMade(s, m);
    CopyOfItself(m);
    QueuedAreKnown(s);
  }

  lemma QueuedAreKnown(s: Tracker)
    requires Inv(s)
    ensures forall r :: r in s.broadcast && r.MessageRef? ==> r.id in s.messages
  {
    hide HandlesAgree, Stored, Queued, Unrepeated;
  }

  /** What arrives has hopped once more than what was kept at the node before. */
  lemma ArrivalPaid(m: Packet, p: Packet, journey: Journey)
    requires KeptAs(m, p) && journey.hops >= 1 && Paid(p, journey.(hops := journey.hops - 1))
    ensures p.base.ttl > 1 ==> Paid(m, journey)
  {
    hide CopyOf;
    CopyOfCopy(m, p, journey.origin);
  }

  lemma CopyIsWireable(m: Packet, p: Packet)
    requires CopyOf(m, p)
    ensures Wireable(m)
  {
    hide WritePacket, Wireable;
  }

  lemma MessageKeeps(i: nat, s: Tracker, h: Handle, p: Packet, past: Journeys, journey: Journey)
    requires NodeOk(i, s, past) && h in s.connections
    requires journey.hops >= 1 && Paid(p, journey.(hops := journey.hops - 1))
    ensures Readable(WritePacket(p), 0)
    ensures var e, t := Received(h, 0, WritePacket(p)), Arrive(s, h, 0, WritePacket(p));
            NodeOk(i, t, Remembered(past, i, Arrival(s, e), journey)) && t.connections == s.connections
  {
    hide Inv, Wireable, Arrive, Arrival, WritePacket, CopyOf, Readable;
    CopyIsWireable(p, journey.origin);
    MessageArrives(s, h, p);
    ArriveInv(s, h, 0, WritePacket(p));
    var t := Arrive(s, h, 0, WritePacket(p));
    WireableIsMessage(p);
    QueuedAreKnown(s);
    if p.body.id !in s.messages {
      CopyIsWireable(t.messages[p.body.id], p);
      ArrivalPaid(t.messages[p.body.id], p, journey);
    }
  }

  lemma AnnounceKeeps(i: nat, s: Tracker, h: Handle, frame: seq<Byte>, past: Journeys, journey: Journey)
    requires NodeOk(i, s, past) && h in s.connections && Readable(frame, 0) && ByteAt(frame, 1) == TYPE_ANNOUNCE
    ensures var e, t := Received(h, 0, frame), Arrive(s, h, 0, frame);
            NodeOk(i, t, Remembered(past, i, Arrival(s, e), journey)) && t.connections == s.connections
  {
    hide Inv, Wireable, Arrive, Arrival, ByteAt, Paid, Readable;
    ArriveInv(s, h, 0, frame);
    AnnounceArrives(s, h, frame);
    OnlyAnnounces(past, i, Arrival(s, Received(h, 0, frame)), journey);
  }

  lemma OnlyAnnounces(past: Journeys, i: nat, refs: seq<Ref>, journey: Journey)
    requires forall r :: r in refs ==> r.AnnounceRef?
    ensures Remembered(past, i, refs, journey) == past
  {
    if |refs| == 1 { assert refs[0] in refs; }
  }

  lemma TransmitKeeps(i: nat, s: Tracker, layout: Layout, radio: Radio, past: Journeys)
    requires NodeOk(i, s, past) && Intact(s)
    ensures NodeOk(i, SendPackets(s, layout, radio).0, past)
  {
    hide Inv, Wireable, SendPackets, Intact, Departs, Paid;
    SendPacketsInv(s, layout, radio);
    SendQueue(s, layout, radio);
    QueueFront(s, layout, radio);
  }

  lemma QueueFront(s: Tracker, layout: Layout, radio: Radio)
    ensures Departs(s, SentOut(layout, radio)) ==> s.broadcast != []
  {
  }

  lemma AnnouncingKeepsNode(i: nat, s: Tracker, me: Identity, at: Location, haveTime: bool, now: U64, past: Journeys)
    requires NodeOk(i, s, past)
    ensures NodeOk(i, AnnounceToConnections(s, me, at, haveTime, now), past)
  {
    hide Inv, Wireable, AnnounceToConnections, Paid;
    AnnounceToConnectionsInv(s, me, at, haveTime, now);
    AnnouncingKeeps(s, me, at, haveTime, now);
  }

  /** A cleanup drops messages and queue entries and changes none, and keeps live connections. */
  lemma CleaningKeeps(s: Tracker, now: U64)
    requires Intact(s)
    ensures var t := CleanupStaleItems(s, now);
            && (forall id :: id in t.messages ==> id in s.messages && t.messages[id] == s.messages[id])
            && (forall r :: r in t.broadcast ==> r in s.broadcast && Known(t, r))
            && (forall h :: h in t.connections ==> h in s.connections)
            && (forall h :: h in s.connections && s.connections[h].connected ==>
                  h in t.connections && t.connections[h] == s.connections[h])
  {
    hide Keep, StalePacket;
    CleanupIntact(s, now);
    KeepIsFilter(s.broadcast, Not(StaleRef(s, now)));
  }

  lemma CleaningKeepsNode(i: nat, s: Tracker, now: U64, past: Journeys)
    requires NodeOk(i, s, past)
    ensures NodeOk(i, CleanupStaleItems(s, now), past)
  {
    hide Inv, Wireable, CleanupStaleItems, Paid;
    IntactInv(s);
    CleanupInv(s, now);
    CleaningKeeps(s, now);
  }

  // ---- the air -------------------------------------------------------------------------------------

  lemma StoredKinds(s: Tracker, ref: Ref)
    requires Inv(s) && Known(s, ref)
    ensures ref.MessageRef? ==> s.messages[ref.id].body.MessageBody? && s.messages[ref.id].body.id == ref.id
    ensures !ref.MessageRef? ==> PacketOf(s, ref).base.ptype == TYPE_ANNOUNCE
  {
    hide Intact, HandlesAgree, Queued, Unrepeated, KeyOf;
  }

  /** Everything that is launched is in order, and on its way to a port at the other end of a link. */
  lemma {:induction false} LaunchOk(links: Links, i: nat, s: Tracker, past: Journeys,
      log: seq<Transmission>, ref: Ref)
    requires NodeOk(i, s, past) && Genuine(s, log, ref)
    requires ref == OwnAnnounce || ref in s.broadcast
    ensures forall f :: f in Launch(links, i, s, past, log) ==> FlightOk(f) && f.target in links.Values
    decreases |log|
  {
    hide Inv, Wireable, WritePacket, FlightOk, NodeOk, Genuine, Known;
    if log != [] {
      GenuineTail(s, log, ref);
      LaunchOk(links, i, s, past, log[1..], ref);
      if (i, log[0].handle) in links { FirstOk(i, s, past, log, ref, links[(i, log[0].handle)]); }
    }
  }

  /** What the radio takes for a linked port takes off, and nothing else. */
  lemma {:induction false} TakenTakesOff(links: Links, i: nat, s: Tracker, past: Journeys, log: seq<Transmission>,
                                         f: Flight)
    ensures f in Launch(links, i, s, past, log) <==>
            && f.sent in log && f.sent.taken && (i, f.sent.handle) in links && Known(s, f.sent.ref)
            && f == Flight(links[(i, f.sent.handle)], f.sent, PacketOf(s, f.sent.ref),
                           OneHopMore(SoFar(past, i, f.sent.ref)))
    decreases |log|
  {
    hide Known, PacketOf, SoFar;
    if log != [] {
      assert log == [log[0]] + log[1..];
      TakenTakesOff(links, i, s, past, log[1..], f);
    }
  }

  lemma GenuineTail(s: Tracker, log: seq<Transmission>, ref: Ref)
    requires Genuine(s, log, ref) && log != []
    ensures Genuine(s, log[1..], ref) && Known(s, log[0].ref)
  {
    hide WritePacket;
    assert log[0] in log;
  }

  lemma FirstOk(i: nat, s: Tracker, past: Journeys, log: seq<Transmission>, ref: Ref, target: Port)
    requires NodeOk(i, s, past) && Genuine(s, log, ref) && log != [] && Known(s, log[0].ref)
    requires ref == OwnAnnounce || ref in s.broadcast
    ensures FlightOk(Flight(target, log[0], PacketOf(s, log[0].ref), OneHopMore(SoFar(past, i, log[0].ref))))
  {
    hide Inv, Wired, WritePacket, ByteAt, Paid;
    assert log[0] in log;
    StoredKinds(s, log[0].ref);
    FrameStart(PacketOf(s, log[0].ref));
  }

  // ---- one move --------------------------------------------------------------------------------------

  lemma RememberedElsewhere(past: Journeys, i: nat, refs: seq<Ref>, journey: Journey, j: nat, s: Tracker)
    requires NodeOk(j, s, past) && j != i
    ensures NodeOk(j, s, Remembered(past, i, refs, journey))
  {
    hide Inv, Wireable, Paid;
  }

  predicate SamePorts(nodes: seq<Tracker>, after: seq<Tracker>) {
    |after| == |nodes| && forall i :: 0 <= i < |nodes| ==> after[i].connections == nodes[i].connections
  }

  /** Live connections stay, and none is added. */
  predicate KeepsPorts(s: Tracker, t: Tracker) {
    && t.connections.Keys <= s.connections.Keys
    && (forall h :: h in s.connections && s.connections[h].connected ==>
          h in t.connections && t.connections[h] == s.connections[h])
  }

  predicate NoMorePorts(nodes: seq<Tracker>, after: seq<Tracker>) {
    |after| == |nodes| && forall i :: 0 <= i < |nodes| ==> after[i].connections.Keys <= nodes[i].connections.Keys
  }

  lemma PortsStay(nodes: seq<Tracker>, i: nat, t: Tracker)
    requires i < |nodes| && KeepsPorts(nodes[i], t)
    ensures NoMorePorts(nodes, nodes[i := t])
    ensures forall p :: LivePort(nodes, p) ==> LivePort(nodes[i := t], p)
    ensures t.connections == nodes[i].connections ==> SamePorts(nodes, nodes[i := t])
  {
  }

  lemma AtOk(links: Links, net: Net, i: nat, me: Identity, e: Event, journey: Journey)
    requires NetOk(links, net) && i < |net.nodes| && Possible(e) && Intact(net.nodes[i])
    requires var t := Happen(me, net.nodes[i], e).0;
             NodeOk(i, t, Remembered(net.past, i, Arrival(net.nodes[i], e), journey)) && KeepsPorts(net.nodes[i], t)
    requires forall f :: f in Launch(links, i, net.nodes[i], net.past, Happen(me, net.nodes[i], e).1) ==>
               FlightOk(f) && f.target in links.Values
    ensures var after := At(links, net, i, me, e, journey);
            && NetOk(links, after) && NoMorePorts(net.nodes, after.nodes)
            && (Happen(me, net.nodes[i], e).0.connections == net.nodes[i].connections ==>
                  SamePorts(net.nodes, after.nodes))
  {
    hide NodeOk, FlightOk, Happen, Arrival, Launch, Remembered, Possible, Intact, KeepsPorts, NoMorePorts, LivePort;
    var after := At(links, net, i, me, e, journey);
    PortsStay(net.nodes, i, Happen(me, net.nodes[i], e).0);
    forall j | 0 <= j < |after.nodes|
      ensures NodeOk(j, after.nodes[j], after.past)
    {
      if j != i { RememberedElsewhere(net.past, i, Arrival(net.nodes[i], e), journey, j, net.nodes[j]); }
    }
    forall k | 0 <= k < |after.air|
      ensures FlightOk(after.air[k]) && LivePort(after.nodes, after.air[k].target)
    {
      if k >= |net.air| {
        assert after.air[k] in Launch(links, i, net.nodes[i], net.past, Happen(me, net.nodes[i], e).1);
      } else {
        assert after.air[k] == net.air[k];
      }
    }
  }

  lemma SameConnections(s: Tracker, t: Tracker)
    requires t.connections == s.connections
    ensures KeepsPorts(s, t)
  {
  }

  lemma LandedOk(links: Links, net: Net, k: nat)
    requires NetOk(links, net) && k < |net.air|
    ensures NetOk(links, Landed(net, k)) && Landed(net, k).nodes == net.nodes
  {
    hide NodeOk, FlightOk, LivePort;
    var after := Landed(net, k);
    forall j | 0 <= j < |after.air|
      ensures FlightOk(after.air[j]) && LivePort(after.nodes, after.air[j].target)
    {
      assert after.air[j] == net.air[if j < k then j else j + 1];
    }
  }

  lemma MakeOk(links: Links, net: Net, i: nat, message: Packet)
    requires NetOk(links, net) && i < |net.nodes| && Wireable(message)
    requires Possible(Originated(message)) && Intact(net.nodes[i])
    ensures var after := At(links, net, i, NOBODY, Originated(message), Journey(message, 0));
            NetOk(links, after) && SamePorts(net.nodes, after.nodes)
  {
    hide At, NetOk, NodeOk, Intact, Wireable, Originate, Arrival, Remembered, FlightOk, SamePorts, KeepsPorts;
    NodeIs(links, net, i);
    MakeKeeps(i, net.nodes[i], message, net.past);
    SameConnections(net.nodes[i], Originate(net.nodes[i], message));
    AtOk(links, net, i, NOBODY, Originated(message), Journey(message, 0));
  }

  lemma TransmitOk(links: Links, net: Net, i: nat, layout: Layout, radio: Radio)
    requires NetOk(links, net) && i < |net.nodes| && Intact(net.nodes[i])
    ensures var after := At(links, net, i, NOBODY, SentOut(layout, radio), NOWHERE);
            NetOk(links, after) && SamePorts(net.nodes, after.nodes)
  {
    hide At, NetOk, NodeOk, Intact, SendPackets, FlightOk, SamePorts, Genuine, Inv, Launch, KeepsPorts;
    var s := net.nodes[i];
    NodeIs(links, net, i);
    NodeSound(i, s, net.past);
    TransmitKeeps(i, s, layout, radio, net.past);
    SendsOldest(s, layout, radio);
    var ref := if Departs(s, SentOut(layout, radio)) then s.broadcast[0] else OwnAnnounce;
    LaunchOk(links, i, s, net.past, SendPackets(s, layout, radio).1, ref);
    SameConnections(s, SendPackets(s, layout, radio).0);
    AtOk(links, net, i, NOBODY, SentOut(layout, radio), NOWHERE);
  }

  lemma AnnounceOk(links: Links, net: Net, i: nat, me: Identity, at: Location, haveTime: bool, now: U64)
    requires NetOk(links, net) && i < |net.nodes| && Intact(net.nodes[i])
    ensures var after := At(links, net, i, me, Announcing(at, haveTime, now), NOWHERE);
            NetOk(links, after) && SamePorts(net.nodes, after.nodes)
  {
    hide At, NetOk, NodeOk, Intact, AnnounceToConnections, FlightOk, SamePorts, KeepsPorts;
    NodeIs(links, net, i);
    AnnouncingKeepsNode(i, net.nodes[i], me, at, haveTime, now, net.past);
    AnnouncingKeeps(net.nodes[i], me, at, haveTime, now);
    SameConnections(net.nodes[i], AnnounceToConnections(net.nodes[i], me, at, haveTime, now));
    AtOk(links, net, i, me, Announcing(at, haveTime, now), NOWHERE);
  }

  lemma CleanOk(links: Links, net: Net, i: nat, now: U64)
    requires NetOk(links, net) && i < |net.nodes| && Intact(net.nodes[i])
    ensures var after := At(links, net, i, NOBODY, CleanedUp(now), NOWHERE);
            NetOk(links, after) && NoMorePorts(net.nodes, after.nodes)
  {
    hide At, NetOk, NodeOk, Intact, CleanupStaleItems, FlightOk, NoMorePorts;
    NodeIs(links, net, i);
    CleaningKeepsNode(i, net.nodes[i], now, net.past);
    CleaningKeeps(net.nodes[i], now);
    AtOk(links, net, i, NOBODY, CleanedUp(now), NOWHERE);
  }

  lemma FlightInOrder(links: Links, net: Net, k: nat)
    requires NetOk(links, net) && k < |net.air|
    ensures FlightOk(net.air[k]) && LivePort(net.nodes, net.air[k].target)
  {
    hide NodeOk, FlightOk;
  }

  lemma DeliveryKeeps(i: nat, s: Tracker, f: Flight, past: Journeys)
    requires NodeOk(i, s, past) && FlightOk(f) && f.target.1 in s.connections && Readable(f.sent.frame, 0)
    ensures var e, t := Received(f.target.1, 0, f.sent.frame), Arrive(s, f.target.1, 0, f.sent.frame);
            NodeOk(i, t, Remembered(past, i, Arrival(s, e), f.journey)) && t.connections == s.connections
  {
    hide NodeOk, Arrive, Arrival, Remembered, Paid, WritePacket, ByteAt, Readable;
    match f.sent.ref
    case MessageRef(id) => MessageKeeps(i, s, f.target.1, f.packet, past, f.journey);
    case _ => AnnounceKeeps(i, s, f.target.1, f.sent.frame, past, f.journey);
  }

  lemma DeliverOk(links: Links, net: Net, f: Flight)
    requires NetOk(links, net) && FlightOk(f) && LivePort(net.nodes, f.target) && Readable(f.sent.frame, 0)
    requires Intact(net.nodes[f.target.0])
    ensures var after := At(links, net, f.target.0, NOBODY, Received(f.target.1, 0, f.sent.frame), f.journey);
            NetOk(links, after) && SamePorts(net.nodes, after.nodes)
  {
    hide At, NetOk, NodeOk, Intact, Arrive, FlightOk, SamePorts, Remembered, Arrival, Readable, KeepsPorts;
    NodeIs(links, net, f.target.0);
    DeliveryKeeps(f.target.0, net.nodes[f.target.0], f, net.past);
    SameConnections(net.nodes[f.target.0], Arrive(net.nodes[f.target.0], f.target.1, 0, f.sent.frame));
    AtOk(links, net, f.target.0, NOBODY, Received(f.target.1, 0, f.sent.frame), f.journey);
  }

  lemma SameIsNoMore(nodes: seq<Tracker>, after: seq<Tracker>)
    ensures SamePorts(nodes, after) ==> NoMorePorts(nodes, after)
    ensures SamePorts(nodes, nodes)
  {
  }

  /** Every move keeps the network in order, no move adds a port, and only a cleanup drops one. */
  lemma MoveOk(links: Links, net: Net, m: Move)
    requires NetOk(links, net)
    ensures var after := Moved(links, net, m);
            && NetOk(links, after) && NoMorePorts(net.nodes, after.nodes)
            && (!m.Clean? ==> SamePorts(net.nodes, after.nodes))
  {
    hide At, NetOk, Intact, Landed, Wireable, SamePorts, NoMorePorts, Readable;
    NodesIntact(links, net);
    SameIsNoMore(net.nodes, Moved(links, net, m).nodes);
    SameIsNoMore(net.nodes, net.nodes);
    if Enabled(net, m) {
      match m
      case Make(i, message) => {
        WireableIsMessage(message);
        MakeOk(links, net, i, message);
      }
      case Transmit(i, layout, radio) => TransmitOk(links, net, i, layout, radio);
      case Announce(i, me, at, haveTime, now) => AnnounceOk(links, net, i, me, at, haveTime, now);
      case Clean(i, now) => CleanOk(links, net, i, now);
      case Deliver(k) => {
        LandedOk(links, net, k);
        FlightInOrder(links, net, k);
        DeliverOk(links, Landed(net, k), net.air[k]);
      }
      case Lose(k) => LandedOk(links, net, k);
    }
  }

  /** After a send the air holds what it held, and a flight for every frame that the radio took for a
      linked port: to the other end of the link, of the packet as it is stored, one hop further. */
  lemma TransmitFlies(links: Links, net: Net, i: nat, layout: Layout, radio: Radio, f: Flight)
    requires NetOk(links, net) && i < |net.nodes|
    ensures Intact(net.nodes[i])
    ensures var s := net.nodes[i];
            f in Moved(links, net, Transmit(i, layout, radio)).air <==>
              || f in net.air
              || (f.sent in SendPackets(s, layout, radio).1 && f.sent.taken && (i, f.sent.handle) in links
                  && Known(s, f.sent.ref)
                  && f == Flight(links[(i, f.sent.handle)], f.sent, PacketOf(s, f.sent.ref),
                                 OneHopMore(SoFar(net.past, i, f.sent.ref))))
  {
    hide NetOk, SendPackets, Intact, Known, PacketOf, SoFar, Launch;
    NodeIs(links, net, i);
    TakenTakesOff(links, i, net.nodes[i], net.past, SendPackets(net.nodes[i], layout, radio).1, f);
  }
}
