/** What the connection table says, over whole runs: which handles are up, since when, and with what
    role, characteristic and frame size. */
module Sessions {
  import opened Bytes
  import opened PacketFormat
  import opened TrackerState
  import opened TrackerInvariant
  import opened TrackerRuns
  import opened MeshNode

  /** What a run has made of a handle: down, or up since a time, with the role that was reported and
      what discovery has found out since. */
  datatype Status = Down | Up(since: nat, role: Option<nat>, found: Option<(nat, nat)>)

  function StatusThen(status: Status, e: Event, h: Handle): Status {
    match e
    case Linked(handle, _, role, time) => if handle == h then Up(time, role, None) else status
    case Unlinked(handle) => if handle == h then Down else status
    case Discovered(handle, valueHandle, mtu) =>
      if handle == h && status.Up? then status.(found := Some((valueHandle, mtu))) else status
    case _ => status
  }

  function StatusAfter(status: Status, events: seq<Event>, h: Handle): Status
    decreases |events|
  {
    if events == [] then status else StatusAfter(StatusThen(status, events[0], h), events[1..], h)
  }

  /** The table says so. */
  predicate Shows(connections: map<Handle, Connection>, h: Handle, status: Status) {
    match status
    case Down => h in connections ==> !connections[h].connected
    case Up(since, role, found) =>
      && h in connections && connections[h].connected && connections[h].handle == h && connections[h].lastSeen == since
      && (role.Some? ==> connections[h].role == role.value)
      && (found.Some? ==> connections[h].valueHandle == found.value.0 && connections[h].mtu == found.value.1)
  }

  lemma LinkShows(s: Tracker, handle: Handle, address: Address, role: Option<nat>, time: nat, h: Handle, status: Status)
    requires Shows(s.connections, h, status)
    ensures Shows(ReportConnection(s, handle, address, role, time).connections, h,
                  StatusThen(status, Linked(handle, address, role, time), h))
  {
  }

  lemma UnlinkShows(s: Tracker, handle: Handle, h: Handle, status: Status)
    requires Shows(s.connections, h, status)
    ensures Shows(ReportDisconnection(s, handle).connections, h, StatusThen(status, Unlinked(handle), h))
  {
    hide Keep, AnnouncedTo, Not;
  }

  lemma DiscoveryShows(s: Tracker, handle: Handle, valueHandle: nat, mtu: nat, h: Handle, status: Status)
    requires Shows(s.connections, h, status)
    ensures Shows(SetLink(s, handle, valueHandle, mtu).connections, h,
                  StatusThen(status, Discovered(handle, valueHandle, mtu), h))
  {
  }

  lemma ArrivalShows(s: Tracker, handle: Handle, offset: U16, frame: seq<Byte>, h: Handle, status: Status)
    requires Shows(s.connections, h, status) && Readable(frame, offset)
    ensures Shows(Arrive(s, handle, offset, frame).connections, h, status)
  {
    hide Receive, Readable;
  }

  lemma CleanupShows(s: Tracker, now: U64, h: Handle, status: Status)
    requires Shows(s.connections, h, status)
    ensures Shows(CleanupStaleItems(s, now).connections, h, status)
  {
    hide Keep, LivePackets, Old;
  }

  lemma EventShows(me: Identity, s: Tracker, e: Event, h: Handle, status: Status)
    requires Possible(e) && Intact(s) && Shows(s.connections, h, status)
    ensures Shows(Happen(me, s, e).0.connections, h, StatusThen(status, e, h))
  {
    hide Shows, Intact, ReportConnection, ReportDisconnection, SetLink, Arrive, AnnounceToConnections, SendPackets,
         CleanupStaleItems, Readable;
    match e
    case Linked(handle, address, role, time) => LinkShows(s, handle, address, role, time, h, status);
    case Unlinked(handle) => UnlinkShows(s, handle, h, status);
    case Discovered(handle, valueHandle, mtu) => DiscoveryShows(s, handle, valueHandle, mtu, h, status);
    case Received(handle, offset, frame) => ArrivalShows(s, handle, offset, frame, h, status);
    case Announcing(at, haveTime, now) => AnnouncingKeeps(s, me, at, haveTime, now);
    case CleanedUp(now) => CleanupShows(s, now, h, status);
    case _ => {}
  }

  lemma {:induction false} RunShows(me: Identity, s: Tracker, events: seq<Event>, h: Handle, status: Status)
    requires Inv(s) && (forall e :: e in events ==> Possible(e)) && Shows(s.connections, h, status)
    ensures Shows(Run(me, s, events).0.connections, h, StatusAfter(status, events, h))
    decreases |events|
  {
    hide Inv, Happen, Shows, Possible, Intact, StatusThen;
    if events != [] {
      IntactInv(s);
      assert events[0] in events;
      HappenInv(me, s, events[0]);
      EventShows(me, s, events[0], h, status);
      RunShows(me, Happen(me, s, events[0]).0, events[1..], h, StatusThen(status, events[0], h));
    }
  }

  /** After any run from power-on, cleanups included: a handle is up exactly when it was connected and
      has not been disconnected since; then it was last seen when it was connected, and has the role
      reported then and what discovery has found out since. */
  lemma ConnectionsShow(me: Identity, own: Packet, events: seq<Event>, h: Handle)
    requires own.body.AnnounceBody? && own.base.ptype == TYPE_ANNOUNCE
    requires forall e :: e in events ==> Possible(e)
    ensures Inv(SwitchedOn(own))
    ensures Shows(Run(me, SwitchedOn(own), events).0.connections, h, StatusAfter(Down, events, h))
  {
    hide Inv, Possible, Run, StatusAfter;
    SwitchedOnInv(own);
    RunShows(me, SwitchedOn(own), events, h, Down);
  }

  // ---- neighbours --------------------------------------------------------------------------------

  /** A neighbour that is only advertised is known by when it was seen, and nothing else. */
  predicate Advertised(neighbours: map<Address, Connection>) {
    forall a :: a in neighbours ==> neighbours[a] == Connection(0, false, 0xff, 0, 0, neighbours[a].lastSeen)
  }

  lemma EventAdvertised(me: Identity, s: Tracker, e: Event)
    requires Possible(e) && Intact(s) && Advertised(s.neighbours)
    ensures Advertised(Happen(me, s, e).0.neighbours)
  {
    hide Intact, Keep, Arrive, AnnounceToConnections, SendPackets, LivePackets, Old, Readable, Originate, SetLink;
    match e
    case Received(handle, offset, frame) => ArrivalKeepsNeighbours(s, handle, offset, frame);
    case Originated(m) => OriginKeepsNeighbours(s, m);
    case Discovered(handle, valueHandle, mtu) => DiscoveryTells(s, handle, valueHandle, mtu);
    case Announcing(at, haveTime, now) => AnnouncingKeeps(s, me, at, haveTime, now);
    case _ => {}
  }

  lemma ArrivalKeepsNeighbours(s: Tracker, handle: Handle, offset: U16, frame: seq<Byte>)
    requires Readable(frame, offset)
    ensures Arrive(s, handle, offset, frame).neighbours == s.neighbours
  {
    hide Receive, Readable;
  }

  lemma OriginKeepsNeighbours(s: Tracker, m: Packet)
    requires m.body.MessageBody?
    ensures Originate(s, m).neighbours == s.neighbours
  {
  }

  /** When an address was last advertised, unless it has been connected to since. */
  function SeenAfter(seen: Option<nat>, events: seq<Event>, address: Address): Option<nat>
    decreases |events|
  {
    if events == [] then seen else SeenAfter(SeenThen(seen, events[0], address), events[1..], address)
  }

  function SeenThen(seen: Option<nat>, e: Event, address: Address): Option<nat> {
    match e
    case Seen(at, time) => if at == address then Some(time) else seen
    case Linked(_, at, _, _) => if at == address then None else seen
    case _ => seen
  }

  predicate ShowsSeen(neighbours: map<Address, Connection>, address: Address, seen: Option<nat>) {
    && (address in neighbours <==> seen.Some?)
    && (seen.Some? ==> neighbours[address] == Connection(0, false, 0xff, 0, 0, seen.value))
  }

  lemma EventShowsSeen(me: Identity, s: Tracker, e: Event, address: Address, seen: Option<nat>)
    requires Possible(e) && Intact(s) && !e.CleanedUp? && ShowsSeen(s.neighbours, address, seen)
    ensures ShowsSeen(Happen(me, s, e).0.neighbours, address, SeenThen(seen, e, address))
  {
    hide Intact, Keep, Arrive, AnnounceToConnections, SendPackets, Readable, Originate, SetLink;
    match e
    case Received(handle, offset, frame) => ArrivalKeepsNeighbours(s, handle, offset, frame);
    case Originated(m) => OriginKeepsNeighbours(s, m);
    case Discovered(handle, valueHandle, mtu) => DiscoveryTells(s, handle, valueHandle, mtu);
    case Announcing(at, haveTime, now) => AnnouncingKeeps(s, me, at, haveTime, now);
    case _ => {}
  }

  lemma {:induction false} RunShowsSeen(me: Identity, s: Tracker, events: seq<Event>, address: Address,
                                         seen: Option<nat>)
    requires Inv(s) && ShowsSeen(s.neighbours, address, seen)
    requires forall e :: e in events ==> Possible(e) && !e.CleanedUp?
    ensures ShowsSeen(Run(me, s, events).0.neighbours, address, SeenAfter(seen, events, address))
    decreases |events|
  {
    hide Inv, Happen, ShowsSeen, Possible, Intact, SeenThen;
    if events != [] {
      IntactInv(s);
      assert events[0] in events;
      HappenInv(me, s, events[0]);
      EventShowsSeen(me, s, events[0], address, seen);
      RunShowsSeen(me, Happen(me, s, events[0]).0, events[1..], address, SeenThen(seen, events[0], address));
    }
  }

  /** After any run from power-on without cleanup: the neighbours are the addresses that have been
      advertised and not connected to since, each with the time of its last advertisement. */
  lemma NeighboursShow(me: Identity, own: Packet, events: seq<Event>, address: Address)
    requires own.body.AnnounceBody? && own.base.ptype == TYPE_ANNOUNCE
    requires forall e :: e in events ==> Possible(e) && !e.CleanedUp?
    ensures Inv(SwitchedOn(own))
    ensures ShowsSeen(Run(me, SwitchedOn(own), events).0.neighbours, address, SeenAfter(None, events, address))
  {
    hide Inv, Possible, Run, SeenAfter;
    SwitchedOnInv(own);
    RunShowsSeen(me, SwitchedOn(own), events, address, None);
  }

  /** A connection to an advertised neighbour starts afresh: whatever an earlier connection under the
      handle had found out is gone, so broadcasts wait for discovery unless it is the other side that
      connected. Without an advertisement it is kept. */
  lemma LinkStartsAfresh(s: Tracker, handle: Handle, address: Address, role: Option<nat>, time: nat)
    requires Advertised(s.neighbours)
    ensures var t := ReportConnection(s, handle, address, role, time);
            && handle in t.connections && address !in t.neighbours
            && (address in s.neighbours ==> t.connections[handle].valueHandle == 0 && t.connections[handle].mtu == 0)
            && (address !in s.neighbours && handle in s.connections ==>
                  && t.connections[handle].valueHandle == s.connections[handle].valueHandle
                  && t.connections[handle].mtu == s.connections[handle].mtu)
            && (forall h :: h != handle ==> (h in t.connections <==> h in s.connections))
            && (forall h :: h != handle && h in t.connections ==> t.connections[h] == s.connections[h])
  {
  }
}
