/** How far a message gets, the other way round: where every link carries frames and nothing has been
    sent yet, there is a run that takes a message to every node within as many links as its ttl. */
module Coverage {
  import opened Bytes
  import opened PacketFormat
  import opened TrackerState
  import opened TrackerInvariant
  import opened TrackerRuns
  import opened BroadcastQueue
  import opened BroadcastReach
  import opened SendLog
  import opened Wire
  import opened MeshNode
  import opened Mesh
  import opened Flood
  import opened Radius

  // ---- the setting -------------------------------------------------------------------------------

  /** What arrives over a link can be answered over it. */
  predicate Mutual(links: Links) {
    forall p :: p in links ==> links[p] in links && links[links[p]] == p
  }

  /** A connection that takes broadcasts, and frames of this size. */
  predicate Carries(s: Tracker, h: Handle, size: nat) {
    && h in s.connections && s.connections[h].connected
    && (s.connections[h].valueHandle > 0 || s.connections[h].role == 1)
    && (s.connections[h].mtu == 0 || size <= s.connections[h].mtu)
  }

  predicate Unused(s: Tracker) {
    s.messages == map[] && s.broadcast == [] && s.targeted == [] && s.sent == []
  }

  /** A network in order in which nobody has sent anything and every link carries frames of this size. */
  predicate Open(links: Links, net: Net, size: nat) {
    && Quiet(links, net) && net.past == map[] && Mutual(links)
    && (forall i :: 0 <= i < |net.nodes| ==> Unused(net.nodes[i]))
    && (forall p :: p in links ==> p.0 < |net.nodes| && Carries(net.nodes[p.0], p.1, size))
  }

  /** As many links as it takes. */
  predicate Away(links: Links, o: nat, node: nat, k: nat) {
    Apart(links, o, node, k) && forall j :: 0 <= j < k ==> !Apart(links, o, node, j)
  }

  predicate Within(links: Links, o: nat, node: nat, k: nat) {
    exists j :: 0 <= j <= k && Apart(links, o, node, j)
  }

  lemma {:induction false} Closest(links: Links, o: nat, node: nat, k: nat) returns (j: nat)
    requires Apart(links, o, node, k)
    ensures j <= k && Away(links, o, node, j)
    decreases k
  {
    if i :| 0 <= i < k && Apart(links, o, node, i) {
      j := Closest(links, o, node, i);
    } else {
      j := k;
    }
  }

  /** The last link of a shortest way comes from one link nearer. */
  lemma LastLink(links: Links, o: nat, node: nat, k: nat) returns (p: Port)
    requires Away(links, o, node, k + 1)
    ensures p in links && links[p].0 == node && Away(links, o, p.0, k)
  {
    p :| p in links && links[p].0 == node && Apart(links, o, p.0, k);
    forall j | 0 <= j < k
      ensures !Apart(links, o, p.0, j)
    {
      LinkLeadsOn(links, o, p, j);
    }
  }

  lemma LinkLeadsOn(links: Links, o: nat, p: Port, j: nat)
    requires p in links
    ensures Apart(links, o, p.0, j) ==> Apart(links, o, links[p].0, j + 1)
  {
  }

  // ---- one hop -----------------------------------------------------------------------------------

  const ALL_TAKEN: Radio := (ref, h) => true
  const ONE_PLACE: Layout := ref => 0

  /** The message is here with this ttl, about to go out for the first time. */
  predicate Loaded(s: Tracker, id: seq<Byte>, ttl: nat) {
    && id in s.messages && s.messages[id].base.ttl == ttl
    && s.broadcast == [MessageRef(id)] && s.targeted == [] && s.sent == []
  }

  lemma CarriesIsAvailable(s: Tracker, h: Handle, size: nat)
    requires Inv(s) && Carries(s, h, size)
    ensures h in AvailableHandles(s) && s.connections[h].handle == h
  {
    hide Inv;
    LiveHandle(s, h);
  }

  /** A first send leaves nobody out. */
  lemma FirstSendReaches(s: Tracker, id: seq<Byte>, h: Handle)
    requires Inv(s) && Intact(s) && s.broadcast == [MessageRef(id)] && s.targeted == [] && s.sent == []
    requires h in AvailableHandles(s)
    ensures (MessageRef(id), h) in SendPackets(s, ONE_PLACE, ALL_TAKEN).0.sent
  {
    hide Inv, Intact, SendOldestBroadcast, Available;
    SendIsTwoParts(s, ONE_PLACE, ALL_TAKEN);
    assert SendAllTargeted(s, ALL_TAKEN) == Sending(s, {}, []);
    BroadcastReachesExactly(Sending(s, {}, []), ONE_PLACE, ALL_TAKEN, h);
  }

  /** From a loaded node the message goes out over a connection that carries it and that it did not
      come from. */
  lemma LoadedGoesOut(s: Tracker, id: seq<Byte>, ttl: nat, h: Handle)
    requires Inv(s) && Intact(s) && Loaded(s, id, ttl) && Carries(s, h, |WritePacket(s.messages[id])|)
    requires s.messages[id].base.sendingHandle != h || h == 0
    ensures Transmission(MessageRef(id), h, WritePacket(s.messages[id]), true) in SendPackets(s, ONE_PLACE, ALL_TAKEN).1
  {
    hide Inv, Intact, SendPackets, WritePacket, AvailableHandles;
    var ref, log := MessageRef(id), SendPackets(s, ONE_PLACE, ALL_TAKEN).1;
    CarriesIsAvailable(s, h, |WritePacket(s.messages[id])|);
    FirstSendReaches(s, id, h);
    SendsExactly(s, ONE_PLACE, ALL_TAKEN, ref, h);
    var t := Transmission(ref, h, WritePacket(s.messages[id]), true);
    assert HandedOver(log, ref, h) == [t];
    HandedOverIn(log, t);
  }

  /** A send at one node changes that node only, and puts the message on its way over the link. */
  lemma TransmitLaunches(links: Links, net: Net, i: nat, h: Handle, id: seq<Byte>, ttl: nat) returns (k: nat)
    requires NetOk(links, net) && i < |net.nodes| && Loaded(net.nodes[i], id, ttl) && (i, h) in links
    requires Carries(net.nodes[i], h, |WritePacket(net.nodes[i].messages[id])|)
    requires net.nodes[i].messages[id].base.sendingHandle != h || h == 0
    ensures var after := Moved(links, net, Transmit(i, ONE_PLACE, ALL_TAKEN));
            && |after.nodes| == |net.nodes|
            && (forall j :: 0 <= j < |net.nodes| && j != i ==> after.nodes[j] == net.nodes[j])
            && k < |after.air| && after.air[k].target == links[(i, h)]
            && after.air[k].sent.ref == MessageRef(id) && after.air[k].packet == net.nodes[i].messages[id]
  {
    hide NetOk, SendPackets, WritePacket, Intact, Inv, NodeOk, Carries, Loaded, Launch;
    var s, event := net.nodes[i], SentOut(ONE_PLACE, ALL_TAKEN);
    NodeIs(links, net, i);
    NodeSound(i, s, net.past);
    LoadedIsKnown(s, id, ttl);
    LoadedGoesOut(s, id, ttl, h);
    var t := Transmission(MessageRef(id), h, WritePacket(s.messages[id]), true);
    var f := Flight(links[(i, h)], t, s.messages[id], OneHopMore(SoFar(net.past, i, MessageRef(id))));
    TakenTakesOff(links, i, s, net.past, SendPackets(s, ONE_PLACE, ALL_TAKEN).1, f);
    var j :| 0 <= j < |Launch(links, i, s, net.past, SendPackets(s, ONE_PLACE, ALL_TAKEN).1)|
             && Launch(links, i, s, net.past, SendPackets(s, ONE_PLACE, ALL_TAKEN).1)[j] == f;
    k := |net.air| + j;
  }

  lemma LoadedIsKnown(s: Tracker, id: seq<Byte>, ttl: nat)
    requires Loaded(s, id, ttl)
    ensures id in s.messages && Known(s, MessageRef(id))
  {
  }

  /** A node that has seen nothing keeps the message, and is loaded with it if it can still hop. */
  lemma DeliveryLoads(links: Links, net: Net, k: nat, id: seq<Byte>)
    requires NetOk(links, net) && k < |net.air| && net.air[k].sent.ref == MessageRef(id)
    requires net.air[k].target.0 < |net.nodes| && Unused(net.nodes[net.air[k].target.0])
    ensures var f, after := net.air[k], Moved(links, net, Deliver(k));
            var t := after.nodes[f.target.0];
            && |after.nodes| == |net.nodes|
            && (forall j :: 0 <= j < |net.nodes| && j != f.target.0 ==> after.nodes[j] == net.nodes[j])
            && id in t.messages && CopyOf(t.messages[id], f.packet)
            && t.messages[id].base.sendingHandle == f.target.1
            && (f.packet.base.ttl > 1 ==> Loaded(t, id, f.packet.base.ttl - 1))
  {
    hide NetOk, WritePacket, Intact, Inv, NodeOk, Arrive, Arrival, CopyOf, Readable, Landed, Remembered;
    var f := net.air[k];
    var s := net.nodes[f.target.0];
    FlightInOrder(links, net, k);
    NodeIs(links, net, f.target.0);
    NodeSound(f.target.0, s, net.past);
    CopyIsWireable(f.packet, f.journey.origin);
    MessageArrives(s, f.target.1, f.packet);
    LiveHandle(s, f.target.1);
    LandedOk(links, net, k);
    KeptTtl(Arrive(s, f.target.1, 0, f.sent.frame), f.packet);
  }

  // ---- all the way -------------------------------------------------------------------------------

  /** The message has come to a node k links away, on a shortest way, and everything further away is as
      it was. */
  predicate Here(links: Links, start: Net, net: Net, o: nat, p: Packet, node: nat, k: nat)
    requires p.body.MessageBody?
  {
    && SamePorts(start.nodes, net.nodes) && node < |net.nodes|
    && (forall j :: 0 <= j < |net.nodes| && !Within(links, o, j, k) ==> net.nodes[j] == start.nodes[j])
    && Delivered(links, net.nodes[node], o, p, node, k)
  }

  predicate Delivered(links: Links, s: Tracker, o: nat, p: Packet, node: nat, k: nat)
    requires p.body.MessageBody?
  {
    && p.body.id in s.messages && CopyOf(s.messages[p.body.id], p)
    && (k < p.base.ttl ==> Loaded(s, p.body.id, p.base.ttl - k))
    && var from := s.messages[p.body.id].base.sendingHandle;
       if k == 0 then from == 0 else (node, from) in links && Away(links, o, links[(node, from)].0, k - 1)
  }

  lemma {:induction false} AfterThen(links: Links, net: Net, moves: seq<Move>, m: Move)
    requires NetOk(links, net)
    ensures After(links, net, moves + [m]) == Moved(links, After(links, net, moves), m)
    decreases |moves|
  {
    hide NetOk, Moved;
    if moves == [] {
      assert moves + [m] == [m] && [m][1..] == [];
      MoveOk(links, net, m);
      assert After(links, Moved(links, net, m), []) == Moved(links, net, m);
    } else {
      assert (moves + [m])[0] == moves[0] && (moves + [m])[1..] == moves[1..] + [m];
      MoveOk(links, net, moves[0]);
      AfterThen(links, Moved(links, net, moves[0]), moves[1..], m);
    }
  }

  lemma MadeDelivered(links: Links, s: Tracker, o: nat, p: Packet)
    requires Unused(s) && Wireable(p) && p.base.sendingHandle == 0 && Possible(Originated(p))
    ensures Delivered(links, Originate(s, p), o, p, o, 0)
    ensures Originate(s, p).connections == s.connections
  {
    hide WritePacket, Originate, Arrival, CopyOf, Wireable;
    MessageMade(s, p);
    CopyOfItself(p);
  }

  lemma MakeHere(links: Links, start: Net, o: nat, p: Packet)
    requires Open(links, start, |WritePacket(p)|) && NetOk(links, start) && o < |start.nodes|
    requires Wireable(p) && p.base.sendingHandle == 0
    ensures Here(links, start, Moved(links, start, Make(o, p)), o, p, o, 0)
  {
    hide NetOk, WritePacket, Intact, Inv, Originate, Arrival, Quiet, Mutual, SamePorts, Carries, Wireable, Remembered,
         Delivered, Launch, Unused;
    WireableIsMessage(p);
    NodesIntact(links, start);
    MoveOk(links, start, Make(o, p));
    MadeDelivered(links, start.nodes[o], o, p);
    assert Apart(links, o, o, 0);
    assert Within(links, o, o, 0);
  }

  lemma CopySize(m: Packet, p: Packet)
    requires CopyOf(m, p)
    ensures |WritePacket(m)| == |WritePacket(p)|
  {
    hide WritePacket, Wireable;
  }

  lemma CopiedTwice(m: Packet, q: Packet, p: Packet)
    requires CopyOf(m, q) && CopyOf(q, p)
    ensures CopyOf(m, p)
  {
    hide WritePacket, Wireable;
    CopyOfCopy(m, q, p);
  }

  /** A shortest way does not lead back over the connection a message came in on. */
  lemma NotBack(links: Links, s: Tracker, o: nat, p: Packet, pr: Port, k: nat)
    requires p.body.MessageBody? && Delivered(links, s, o, p, pr.0, k) && pr in links
    requires Away(links, o, links[pr].0, k + 1)
    ensures s.messages[p.body.id].base.sendingHandle != pr.1 || pr.1 == 0
  {
    hide CopyOf, Loaded;
    if k > 0 {
      var from := s.messages[p.body.id].base.sendingHandle;
      DifferentlyAway(links, o, links[(pr.0, from)].0, links[pr].0, k - 1, k + 1);
    }
  }

  lemma DifferentlyAway(links: Links, o: nat, a: nat, b: nat, j: nat, k: nat)
    requires Away(links, o, a, j) && Away(links, o, b, k) && j < k
    ensures a != b
  {
  }

  lemma StillCarries(start: Net, net: Net, pr: Port, size: nat, size': nat)
    requires SamePorts(start.nodes, net.nodes) && pr.0 < |start.nodes| && Carries(start.nodes[pr.0], pr.1, size)
    requires size' == size
    ensures Carries(net.nodes[pr.0], pr.1, size')
  {
  }

  /** One link further: a send at the node and a delivery at the next one. */
  lemma OneHop(links: Links, start: Net, net: Net, o: nat, p: Packet, pr: Port, k: nat)
    returns (send: Move, arrive: Move)
    requires Wireable(p) && p.body.MessageBody? && Open(links, start, |WritePacket(p)|) && NetOk(links, net)
    requires k < p.base.ttl && pr in links && Away(links, o, links[pr].0, k + 1) && Away(links, o, pr.0, k)
    requires Here(links, start, net, o, p, pr.0, k)
    ensures !send.Make? && !arrive.Make?
    ensures NetOk(links, Moved(links, net, send))
    ensures Here(links, start, Moved(links, Moved(links, net, send), arrive), o, p, links[pr].0, k + 1)
  {
    hide NetOk, WritePacket, Moved, Quiet, CopyOf, Wireable, Carries, Away, Unused, SamePorts;
    var id, i, next := p.body.id, pr.0, links[pr].0;
    NotBack(links, net.nodes[i], o, p, pr, k);
    CopySize(net.nodes[i].messages[id], p);
    StillCarries(start, net, pr, |WritePacket(p)|, |WritePacket(net.nodes[i].messages[id])|);
    send := Transmit(i, ONE_PLACE, ALL_TAKEN);
    var j := TransmitLaunches(links, net, i, pr.1, id, p.base.ttl - k);
    var sent := Moved(links, net, send);
    MoveOk(links, net, send);
    FurtherIsUntouched(links, start, net, sent, o, p, i, k, next);
    arrive := Deliver(j);
    DeliveryLoads(links, sent, j, id);
    MoveOk(links, sent, arrive);
    ArrivesHere(links, start, net, sent, Moved(links, sent, arrive), o, p, pr, k, sent.air[j].packet);
  }

  lemma FurtherIsUntouched(links: Links, start: Net, net: Net, sent: Net, o: nat, p: Packet, i: nat, k: nat, next: nat)
    requires p.body.MessageBody? && Here(links, start, net, o, p, i, k) && Away(links, o, next, k + 1)
    requires |sent.nodes| == |net.nodes| && next < |start.nodes| && Away(links, o, i, k)
    requires forall j :: 0 <= j < |net.nodes| && j != i ==> sent.nodes[j] == net.nodes[j]
    ensures |start.nodes| == |net.nodes| && i != next && sent.nodes[next] == start.nodes[next]
  {
    hide Delivered;
  }

  lemma ArrivesHere(links: Links, start: Net, net: Net, sent: Net, after: Net, o: nat, p: Packet, pr: Port, k: nat,
                    q: Packet)
    requires p.body.MessageBody? && Here(links, start, net, o, p, pr.0, k) && k < p.base.ttl && Mutual(links)
    requires pr in links && Away(links, o, links[pr].0, k + 1) && Away(links, o, pr.0, k)
    requires SamePorts(net.nodes, sent.nodes) && SamePorts(sent.nodes, after.nodes) && links[pr].0 < |net.nodes|
    requires forall j :: 0 <= j < |net.nodes| && j != pr.0 ==> sent.nodes[j] == net.nodes[j]
    requires forall j :: 0 <= j < |net.nodes| && j != links[pr].0 ==> after.nodes[j] == sent.nodes[j]
    requires q == net.nodes[pr.0].messages[p.body.id]
    requires var t := after.nodes[links[pr].0];
             && p.body.id in t.messages && CopyOf(t.messages[p.body.id], q)
             && t.messages[p.body.id].base.sendingHandle == links[pr].1
             && (q.base.ttl > 1 ==> Loaded(t, p.body.id, q.base.ttl - 1))
    ensures Here(links, start, after, o, p, links[pr].0, k + 1)
  {
    hide CopyOf;
    var t := after.nodes[links[pr].0];
    CopiedTwice(t.messages[p.body.id], q, p);
    assert (links[pr].0, links[pr].1) == links[pr] && links[links[pr]] == pr;
    forall j | 0 <= j < |after.nodes| && !Within(links, o, j, k + 1)
      ensures after.nodes[j] == start.nodes[j]
    {
      assert !Within(links, o, j, k) by { NotNearer(links, o, j, k); }
      assert j != pr.0 && j != links[pr].0;
    }
  }

  lemma NotNearer(links: Links, o: nat, j: nat, k: nat)
    requires !Within(links, o, j, k + 1)
    ensures !Within(links, o, j, k)
  {
  }

  /** A run that takes the message there. */
  lemma {:induction false} Way(links: Links, start: Net, o: nat, p: Packet, node: nat, k: nat)
    returns (moves: seq<Move>)
    requires Open(links, start, |WritePacket(p)|) && NetOk(links, start) && o < |start.nodes| && Wireable(p)
    requires p.base.sendingHandle == 0 && k <= p.base.ttl && Away(links, o, node, k) && p.body.MessageBody?
    ensures forall m :: m in moves ==> MadeAs(m, {(o, p)}, p.body.id)
    ensures Here(links, start, After(links, start, moves), o, p, node, k)
    decreases k
  {
    hide NetOk, WritePacket, Moved, Open, Here, Wireable, After;
    if k == 0 {
      moves := [Make(o, p)];
      assert [] + moves == moves;
      AfterThen(links, start, [], Make(o, p));
      NoMoves(links, start);
      MakeHere(links, start, o, p);
    } else {
      var pr := LastLink(links, o, node, k - 1);
      var before := Way(links, start, o, p, pr.0, k - 1);
      var net := After(links, start, before);
      var send, arrive := OneHop(links, start, net, o, p, pr, k - 1);
      moves := before + [send] + [arrive];
      AfterThen(links, start, before, send);
      AfterThen(links, start, before + [send], arrive);
    }
  }

  lemma NoMoves(links: Links, net: Net)
    requires NetOk(links, net)
    ensures After(links, net, []) == net
  {
    hide NetOk;
  }

  /** Some run in which the node `o` alone makes the message, and makes it as `p`, brings it here. */
  ghost predicate CanLearn(links: Links, net: Net, o: nat, p: Packet, node: nat)
    requires NetOk(links, net) && p.body.MessageBody?
  {
    exists moves: seq<Move> ::
      && (forall m :: m in moves ==> MadeAs(m, {(o, p)}, p.body.id))
      && var end := After(links, net, moves); node < |end.nodes| && p.body.id in end.nodes[node].messages
  }

  /** The ttl is the radius, exactly: where every link carries frames and nothing has been sent yet, the
      nodes that can learn of a message are those within as many links of the node that makes it as the
      ttl it is made with. */
  lemma TtlIsExactlyRadius(links: Links, net: Net, o: nat, p: Packet, node: nat)
    requires Open(links, net, |WritePacket(p)|) && o < |net.nodes| && node < |net.nodes|
    requires Wireable(p) && p.base.sendingHandle == 0 && p.body.MessageBody?
    ensures NetOk(links, net)
    ensures CanLearn(links, net, o, p, node) <==> Within(links, o, node, p.base.ttl)
  {
    hide NetOk, WritePacket, Wireable, Quiet, Mutual, Unused, Carries, MadeAs, Here;
    QuietIsOk(links, net);
    if j :| 0 <= j <= p.base.ttl && Apart(links, o, node, j) {
      var k := Closest(links, o, node, j);
      var moves := Way(links, net, o, p, node, k);
      HereKnows(links, net, After(links, net, moves), o, p, node, k);
      assert CanLearn(links, net, o, p, node);
    }
    if CanLearn(links, net, o, p, node) {
      var moves: seq<Move> :| (forall m :: m in moves ==> MadeAs(m, {(o, p)}, p.body.id))
        && var end := After(links, net, moves); node < |end.nodes| && p.body.id in end.nodes[node].messages;
      TtlIsRadius(links, net, moves, {(o, p)}, p.body.id);
      NearIsWithin(links, o, p, node);
    }
  }

  lemma HereKnows(links: Links, start: Net, net: Net, o: nat, p: Packet, node: nat, k: nat)
    requires p.body.MessageBody? && Here(links, start, net, o, p, node, k)
    ensures node < |net.nodes| && p.body.id in net.nodes[node].messages
  {
    hide Loaded, CopyOf;
  }

  lemma NearIsWithin(links: Links, o: nat, p: Packet, node: nat)
    requires Near(links, {(o, p)}, node)
    ensures Within(links, o, node, p.base.ttl)
  {
    var j: Journey :| j.hops <= j.origin.base.ttl && Reached(links, {(o, p)}, node, j);
    var q :| (q, j.origin) in {(o, p)} && Apart(links, q, node, j.hops);
  }
}
