/** One node's tables, and what each operation makes of them.

    Packets are held by value in their owning maps; the lists that hold raw pointers in the original
    hold references here: a message id, an announce key, or the node's own announce. Connections and
    peers are referenced by their map keys. */
module TrackerState {
  import opened Bytes
  import opened BinaryIO
  import opened PacketFormat

  type Handle = U16
  type Address = seq<Byte>

  /** The fields an announce is identified by. */
  datatype AnnounceKey = AnnounceKey(ptype: Byte, flags: Byte, sender: U64, recipient: U64,
                                     latitude: I32, longitude: I32, altitude: I32)

  datatype Ref = MessageRef(id: seq<Byte>) | AnnounceRef(key: AnnounceKey) | OwnAnnounce

  const ROLE_SLAVE := 1
  const ROLE_INVALID := 0xff

  datatype Connection = Connection(handle: Handle, connected: bool, role: nat, valueHandle: nat,
                                   mtu: nat, lastSeen: nat)

  const NEW_CONNECTION := Connection(0, false, ROLE_INVALID, 0, 0, 0)

  datatype Peer = Peer(id: U64, name: seq<Byte>, maxTtl: Byte, handle: Handle)

  const NEW_PEER := Peer(0, [], 0, 0)

  /** One packet handed to the radio for one connection, and whether the radio took it. */
  datatype Transmission = Transmission(ref: Ref, handle: Handle, frame: seq<Byte>, taken: bool)

  datatype Tracker = Tracker(
    peers: map<U64, Peer>,
    messages: map<seq<Byte>, Packet>,
    announces: map<AnnounceKey, Packet>,
    own: Packet,
    connections: map<Handle, Connection>,
    neighbours: map<Address, Connection>,
    handlePeers: map<Handle, U64>,
    sent: seq<(Ref, Handle)>,
    peersSent: seq<(Ref, U64)>,
    broadcast: seq<Ref>,
    targeted: seq<(Ref, Handle)>)

  // ---- lookups ---------------------------------------------------------------------------------

  predicate Known(s: Tracker, ref: Ref) {
    match ref
    case MessageRef(id) => id in s.messages
    case AnnounceRef(key) => key in s.announces
    case OwnAnnounce => true
  }

  function PacketOf(s: Tracker, ref: Ref): Packet
    requires Known(s, ref)
  {
    match ref
    case MessageRef(id) => s.messages[id]
    case AnnounceRef(key) => s.announces[key]
    case OwnAnnounce => s.own
  }

  function KeyOf(p: Packet): AnnounceKey {
    AnnounceKey(p.base.ptype, p.base.flags, p.base.sender, p.base.recipient,
                p.body.latitude, p.body.longitude, p.body.altitude)
  }

  /** The entries a multimap's erase_if leaves. */
  function Keep<T>(xs: seq<T>, p: T -> bool): seq<T> {
    if xs == [] then []
    else if p(xs[0]) then [xs[0]] + Keep(xs[1..], p)
    else Keep(xs[1..], p)
  }

  predicate NoDuplicates<T(==)>(xs: seq<T>) {
    forall i, j :: 0 <= i < j < |xs| ==> xs[i] != xs[j]
  }

  // ---- storing ---------------------------------------------------------------------------------

  function StoreMessage(s: Tracker, m: Packet): (r: (Tracker, bool))
    requires m.body.MessageBody?
  {
    if m.base.malformed || m.body.id in s.messages then (s, false)
    else (s.(messages := s.messages[m.body.id := m]), true)
  }

  /** A newer announce replaces the stored one, but only an unknown one counts as new: the name it
      is compared with has just been overwritten. */
  function StoreAnnounce(s: Tracker, a: Packet): (r: (Tracker, bool)) {
    var key := KeyOf(a);
    if a.base.malformed || (key in s.announces && s.announces[key].base.timestamp >= a.base.timestamp) then (s, false)
    else (s.(announces := s.announces[key := a]), key !in s.announces)
  }

  function CheckSender(s: Tracker, sender: U64): (r: Tracker)
    ensures r == s.(peers := r.peers) && sender in r.peers
  {
    if sender in s.peers then s else s.(peers := s.peers[sender := NEW_PEER.(id := sender)])
  }

  // ---- queueing --------------------------------------------------------------------------------

  function ConnectionFor(s: Tracker, handle: Handle): Tracker {
    if handle in s.connections then s
    else s.(connections := s.connections[handle := NEW_CONNECTION.(handle := handle)])
  }

  function EnqueueTargeted(s: Tracker, ref: Ref, handle: Handle): Tracker
    requires Known(s, ref)
  {
    if PacketOf(s, ref).base.ttl == 0 then s else
    var s1 := ConnectionFor(s, handle);
    if (ref, handle) in s1.targeted then s1 else s1.(targeted := s1.targeted + [(ref, handle)])
  }

  function EnqueueBroadcast(s: Tracker, ref: Ref): Tracker
    requires Known(s, ref)
  {
    if PacketOf(s, ref).base.ttl > 0 then s.(broadcast := s.broadcast + [ref]) else s
  }

  function EnqueueFrom(s: Tracker, ref: Ref, peer: U64): Tracker
    requires Known(s, ref)
  {
    EnqueueBroadcast(s.(peersSent := s.peersSent + [(ref, peer)]), ref)
  }

  // ---- connections -----------------------------------------------------------------------------

  datatype Option<T> = None | Some(value: T)

  /** An advertisement: the neighbour can be connected to. */
  function AddAvailablePeer(s: Tracker, address: Address, now: nat): Tracker {
    var c := if address in s.neighbours then s.neighbours[address] else NEW_CONNECTION;
    s.(neighbours := s.neighbours[address := c.(lastSeen := now)])
  }

  /** What discovery finds out about a connection. */
  function SetLink(s: Tracker, handle: Handle, valueHandle: nat, mtu: nat): Tracker {
    var s1 := ConnectionFor(s, handle);
    s1.(connections := s1.connections[handle := s1.connections[handle].(valueHandle := valueHandle, mtu := mtu)])
  }

  function ReportConnection(s: Tracker, handle: Handle, address: Address, role: Option<nat>, now: nat): Tracker {
    var found := address in s.neighbours;
    var c := if found then s.neighbours[address]
             else if handle in s.connections then s.connections[handle] else NEW_CONNECTION;
    var c' := c.(handle := handle, connected := true, lastSeen := now,
                 role := if role.Some? then role.value else c.role);
    s.(connections := s.connections[handle := c'], neighbours := s.neighbours - {address})
  }

  /** An own or looped-back announce recorded or queued for the connection with this handle. */
  function AnnouncedTo(s: Tracker, handle: Handle): ((Ref, Handle)) -> bool {
    (e: (Ref, Handle)) =>
      Known(s, e.0) && e.1 in s.connections
      && PacketOf(s, e.0).base.ptype == TYPE_ANNOUNCE
      && PacketOf(s, e.0).base.sender == s.own.base.sender
      && s.connections[e.1].handle == handle
  }

  function Not<T>(p: T -> bool): T -> bool {
    (x: T) => !p(x)
  }

  /** A disconnection is recorded on the connection, which is created if unknown, as is a peer under
      the handle's number. Announces of this node recorded for the handle are forgotten. The list of
      packets by peer is left alone: the peer it is compared with is a copy. */
  function ReportDisconnection(s: Tracker, handle: Handle): Tracker {
    var c := if handle in s.connections then s.connections[handle] else NEW_CONNECTION;
    var s1 := s.(connections := s.connections[handle := c.(connected := false)],
                 peers := if handle in s.peers then s.peers else s.peers[handle := NEW_PEER]);
    s1.(handlePeers := s1.handlePeers - {handle},
        sent := Keep(s1.sent, Not(AnnouncedTo(s1, handle))),
        targeted := Keep(s1.targeted, Not(AnnouncedTo(s1, handle))))
  }

  // ---- sending ---------------------------------------------------------------------------------

  predicate Available(c: Connection) {
    c.connected && (c.valueHandle > 0 || c.role == ROLE_SLAVE)
  }

  function Least(xs: set<Handle>): (m: Handle)
    requires xs != {}
    ensures m in xs && forall x :: x in xs ==> m <= x
  {
    LeastExists(xs);
    var m :| m in xs && forall x :: x in xs ==> m <= x;
    m
  }

  lemma LeastExists(xs: set<Handle>)
    requires xs != {}
    ensures exists m :: m in xs && forall x :: x in xs ==> m <= x
  {
    var m := LeastOf(xs);
  }

  lemma {:induction false} LeastOf(xs: set<Handle>) returns (m: Handle)
    requires xs != {}
    ensures m in xs && forall x :: x in xs ==> m <= x
    decreases |xs|
  {
    m :| m in xs;
    var others := xs - {m};
    if others != {} {
      var n := LeastOf(others);
      assert forall x :: x in xs ==> x == m || x in others;
      m := if m <= n then m else n;
    } else {
      assert forall x :: x in xs ==> x == m || x in others;
    }
  }

  /** A map is iterated in the order of its keys. */
  function Ascending(xs: set<Handle>): (r: seq<Handle>)
    ensures forall x :: x in r <==> x in xs
    ensures |r| == |xs|
    ensures forall i, j :: 0 <= i < j < |r| ==> r[i] < r[j]
    decreases |xs|
  {
    if xs == {} then [] else
    var m := Least(xs);
    var others := xs - {m};
    assert |others| == |xs| - 1 && forall x :: x in xs <==> x == m || x in others;
    [m] + Ascending(others)
  }

  function Listening(s: Tracker): set<Handle> {
    set h | h in s.connections && Available(s.connections[h])
  }

  function AvailableHandles(s: Tracker): (r: seq<Handle>)
    ensures forall h :: h in r <==> h in s.connections && Available(s.connections[h])
    ensures forall i, j :: 0 <= i < j < |r| ==> r[i] < r[j]
    ensures NoDuplicates(r)
  {
    Ascending(Listening(s))
  }

  /** A send in progress: the tables so far, the packets to take off the targeted list, and what was
      handed to the radio. */
  datatype Sending = Sending(s: Tracker, done: set<Ref>, log: seq<Transmission>)

  /** Every list entry refers to something that is there. */
  predicate Refers(s: Tracker, e: (Ref, Handle)) {
    Known(s, e.0) && e.1 in s.connections
  }

  /** The radio's answer to each frame; and where packets lie in memory, which is the order of the
      multimaps keyed by packet. */
  type Radio = (Ref, Handle) -> bool
  type Layout = Ref -> nat

  /** Came in over this connection, so it counts as sent without being transmitted. */
  predicate CameFrom(p: Packet, c: Connection) {
    p.base.sendingHandle > 0 && p.base.sendingHandle == c.handle
  }

  predicate TooBig(frame: seq<Byte>, c: Connection) {
    c.mtu > 0 && |frame| > c.mtu
  }

  function Transmitted(s: Tracker, e: (Ref, Handle), radio: Radio): seq<Transmission>
    requires Refers(s, e)
  {
    var p, c := PacketOf(s, e.0), s.connections[e.1];
    if CameFrom(p, c) || TooBig(WritePacket(p), c) then []
    else [Transmission(e.0, c.handle, WritePacket(p), radio(e.0, e.1))]
  }

  predicate SendSucceeds(s: Tracker, e: (Ref, Handle), radio: Radio)
    requires Refers(s, e)
  {
    var p, c := PacketOf(s, e.0), s.connections[e.1];
    CameFrom(p, c) || (!TooBig(WritePacket(p), c) && radio(e.0, e.1))
  }

  /** Some entry for the packet names a connection with this handle. */
  predicate SentTo(s: Tracker, ref: Ref, handle: Handle) {
    exists e :: e in s.sent && e.0 == ref && e.1 in s.connections && s.connections[e.1].handle == handle
  }

  predicate HasEntry(s: Tracker, ref: Ref) {
    exists e :: e in s.sent && e.0 == ref
  }

  /** Some packet at this address or a higher one has been sent over the connection. */
  predicate Shadowed(s: Tracker, ref: Ref, handle: Handle, layout: Layout) {
    exists e :: e in s.sent && layout(e.0) >= layout(ref) && e.1 in s.connections && s.connections[e.1].handle == handle
  }

  /** The test before a broadcast: from the packet's first entry to the end of the whole multimap. It
      covers every entry of every packet that lies at a higher address; it covers nothing when the
      packet has no entry yet. */
  predicate ScanHits(s: Tracker, ref: Ref, handle: Handle, layout: Layout) {
    HasEntry(s, ref) && Shadowed(s, ref, handle, layout)
  }

  function Recorded(x: Sending, e: (Ref, Handle), radio: Radio): Sending
    requires Refers(x.s, e)
  {
    x.(s := x.s.(sent := x.s.sent + [e]), log := x.log + Transmitted(x.s, e, radio))
  }

  /** One targeted entry: skipped if it was sent before, and recorded only if the radio takes it. */
  function TryTargeted(x: Sending, e: (Ref, Handle), radio: Radio): (r: Sending)
    requires Refers(x.s, e)
    ensures r.s == x.s.(sent := r.s.sent)
  {
    if SentTo(x.s, e.0, x.s.connections[e.1].handle) then x
    else if SendSucceeds(x.s, e, radio) then Recorded(x, e, radio).(done := x.done + {e.0})
    else x.(log := x.log + Transmitted(x.s, e, radio))
  }

  /** One connection of a broadcast: recorded as sent whatever the radio answers. */
  function TryBroadcast(x: Sending, e: (Ref, Handle), layout: Layout, radio: Radio): (r: Sending)
    requires Refers(x.s, e)
    ensures r.s == x.s.(sent := r.s.sent) && r.done == x.done
  {
    if ScanHits(x.s, e.0, x.s.connections[e.1].handle, layout) then x else Recorded(x, e, radio)
  }

  function SendTargeted(x: Sending, entries: seq<(Ref, Handle)>, radio: Radio): (r: Sending)
    requires forall e :: e in entries ==> Refers(x.s, e)
    ensures r.s == x.s.(sent := r.s.sent)
    decreases |entries|
  {
    if entries == [] then x else
    var e := entries[0];
    assert Refers(x.s, e) by { assert e in entries; }
    var x' := TryTargeted(x, e, radio);
    assert forall f :: f in entries[1..] ==> f in entries && Refers(x.s, f) && Refers(x'.s, f);
    SendTargeted(x', entries[1..], radio)
  }

  function SendBroadcast(x: Sending, ref: Ref, handles: seq<Handle>, layout: Layout, radio: Radio): (r: Sending)
    requires forall h :: h in handles ==> Refers(x.s, (ref, h))
    ensures r.s == x.s.(sent := r.s.sent) && r.done == x.done
    decreases |handles|
  {
    if handles == [] then x else
    var e := (ref, handles[0]);
    assert Refers(x.s, e) by { assert handles[0] in handles; }
    var x' := TryBroadcast(x, e, layout, radio);
    assert forall h :: h in handles[1..] ==> h in handles && Refers(x.s, (ref, h)) && Refers(x'.s, (ref, h));
    SendBroadcast(x', ref, handles[1..], layout, radio)
  }

  function For(done: set<Ref>): ((Ref, Handle)) -> bool {
    (e: (Ref, Handle)) => e.0 in done
  }

  function NotDone(done: set<Ref>): ((Ref, Handle)) -> bool {
    Not(For(done))
  }

  function Is(ref: Ref): Ref -> bool {
    (r: Ref) => r == ref
  }

  function OtherThan(ref: Ref): Ref -> bool {
    Not(Is(ref))
  }

  /** All list entries refer to something that is there. */
  predicate Intact(s: Tracker) {
    && (forall e :: e in s.sent ==> Refers(s, e))
    && (forall e :: e in s.targeted ==> Refers(s, e))
    && (forall r :: r in s.broadcast ==> Known(s, r))
    && (forall e :: e in s.peersSent ==> Known(s, e.0) && e.1 in s.peers)
    && (forall h :: h in s.handlePeers ==> s.handlePeers[h] in s.peers)
  }

  /** Targeted packets, each to its connection unless it was sent there before; a packet that got
      through anywhere loses all its targeted entries. */
  function SendAllTargeted(s: Tracker, radio: Radio): (r: Sending)
    requires Intact(s)
    ensures r.s == s.(sent := r.s.sent, targeted := r.s.targeted)
  {
    var x := SendTargeted(Sending(s, {}, []), s.targeted, radio);
    x.(s := x.s.(targeted := Keep(s.targeted, NotDone(x.done))))
  }

  /** If anyone is listening, the oldest broadcast packet goes to every available connection and
      leaves the queue. */
  function SendOldestBroadcast(x: Sending, layout: Layout, radio: Radio): (r: Sending)
    requires forall ref :: ref in x.s.broadcast ==> Known(x.s, ref)
    ensures r.s == x.s.(sent := r.s.sent, broadcast := r.s.broadcast)
  {
    var handles := AvailableHandles(x.s);
    if x.s.broadcast == [] || handles == [] then x else
    var ref := x.s.broadcast[0];
    assert ref in x.s.broadcast;
    var y := SendBroadcast(x, ref, handles, layout, radio);
    y.(s := y.s.(broadcast := Keep(x.s.broadcast, OtherThan(ref))))
  }

  function SendPackets(s: Tracker, layout: Layout, radio: Radio): (r: (Tracker, seq<Transmission>))
    requires Intact(s)
    ensures r.0 == s.(sent := r.0.sent, targeted := r.0.targeted, broadcast := r.0.broadcast)
  {
    if s.broadcast == [] && s.targeted == [] then (s, []) else
    var x := SendAllTargeted(s, radio);
    assert forall ref :: ref in x.s.broadcast ==> Known(s, ref) && Known(x.s, ref);
    var y := SendOldestBroadcast(x, layout, radio);
    (y.s, y.log)
  }

  // ---- announcing ------------------------------------------------------------------------------

  const OWN_TTL: Byte := 3

  /** This node's identity, fixed by the hardware. */
  datatype Identity = Identity(sender: U64, name: seq<Byte>)

  datatype Location = Location(latitude: I32, longitude: I32, altitude: I32)

  /** The location is refreshed on every call; the rest is set up once. */
  function SetUpAnnounce(own: Packet, me: Identity, at: Location): Packet {
    var body := WithAltitude(WithLongitude(WithLatitude(own.body, at.latitude), at.longitude), at.altitude);
    if own.base.ttl == OWN_TTL then own.(body := body)
    else Packet(own.base.(ttl := OWN_TTL, flags := 0, sender := me.sender),
                if body.AnnounceBody? then body.(name := me.name) else body)
  }

  function AnnounceTo(s: Tracker, handles: seq<Handle>, now: U64): (r: Tracker)
    ensures r == s.(own := r.own, connections := r.connections, targeted := r.targeted)
    decreases |handles|
  {
    if handles == [] then s else
    var s1 := s.(own := s.own.(base := s.own.base.(timestamp := now)));
    AnnounceTo(EnqueueTargeted(s1, OwnAnnounce, handles[0]), handles[1..], now)
  }

  /** Available connections the announce has no record of being sent to, when the time is known. */
  function Unannounced(s: Tracker, haveTime: bool): (r: seq<Handle>)
    ensures forall h :: h in r ==> h in s.connections && Available(s.connections[h])
  {
    if haveTime then Ascending(set h | h in s.connections && Available(s.connections[h])
                                       && !SentTo(s, OwnAnnounce, s.connections[h].handle))
    else []
  }

  function AnnounceToConnections(s: Tracker, me: Identity, at: Location, haveTime: bool, now: U64): Tracker {
    var s1 := s.(own := SetUpAnnounce(s.own, me, at));
    AnnounceTo(s1, Unannounced(s1, haveTime), now)
  }

  // ---- cleaning up -----------------------------------------------------------------------------

  const TEN_MINUTES_IN_MS := 600_000

  /** Unsigned 64-bit, like the clock. */
  predicate Old(time: nat, now: U64) {
    (time + TEN_MINUTES_IN_MS) % 0x1_0000_0000_0000_0000 < now
  }

  predicate StalePacket(p: Packet, now: U64) {
    Old(p.base.timestamp, now)
  }

  predicate StaleConnection(c: Connection, now: U64) {
    !c.connected && Old(c.lastSeen / 1000, now)
  }

  function StaleEntry(s: Tracker, now: U64): ((Ref, Handle)) -> bool {
    (e: (Ref, Handle)) => Refers(s, e) && (StalePacket(PacketOf(s, e.0),
        now) || StaleConnection(s.connections[e.1], now))
  }

  function StalePeerEntry(s: Tracker, now: U64): ((Ref, U64)) -> bool {
    (e: (Ref, U64)) => Known(s, e.0) && StalePacket(PacketOf(s, e.0), now)
  }

  function StaleRef(s: Tracker, now: U64): Ref -> bool {
    (r: Ref) => Known(s, r) && StalePacket(PacketOf(s, r), now)
  }

  function LiveConnections<K>(connections: map<K, Connection>, now: U64): map<K, Connection> {
    map k | k in connections && !StaleConnection(connections[k], now) :: connections[k]
  }

  function LivePackets<K>(packets: map<K, Packet>, now: U64): map<K, Packet> {
    map k | k in packets && !StalePacket(packets[k], now) :: packets[k]
  }

  function CleanupStaleItems(s: Tracker, now: U64): Tracker {
    s.(sent := Keep(s.sent, Not(StaleEntry(s, now))),
       peersSent := Keep(s.peersSent, Not(StalePeerEntry(s, now))),
       broadcast := Keep(s.broadcast, Not(StaleRef(s, now))),
       targeted := Keep(s.targeted, Not(StaleEntry(s, now))),
       connections := LiveConnections(s.connections, now),
       neighbours := LiveConnections(s.neighbours, now),
       messages := LivePackets(s.messages, now),
       announces := LivePackets(s.announces, now))
  }

  // ---- receiving -------------------------------------------------------------------------------

  /** A message from the connection: new ones are kept, and passed on while the ttl lasts. */
  function ReceiveMessage(s: Tracker, handle: U16, parsed: Packet): (r: Tracker)
    requires parsed.body.MessageBody?
    ensures r == s.(messages := r.messages, peers := r.peers, peersSent := r.peersSent, broadcast := r.broadcast)
  {
    var m := parsed.(base := parsed.base.(sendingHandle := handle));
    var (s1, isNew) := StoreMessage(s, m);
    if !isNew || m.base.ttl <= 1 then s1 else
    var m' := m.(base := m.base.(ttl := m.base.ttl - 1));
    var s2 := CheckSender(s1.(messages := s1.messages[m.body.id := m']), m.base.sender);
    EnqueueFrom(s2, MessageRef(m.body.id), m.base.sender)
  }

  function NameOf(p: Packet): seq<Byte> {
    if p.body.AnnounceBody? then p.body.name else []
  }

  /** The sender of an announce is a peer on this connection; the best one by ttl owns the handle. */
  function UpdatePeer(s: Tracker, handle: Handle, a: Packet): (r: Tracker)
    ensures r == s.(peers := r.peers, handlePeers := r.handlePeers) && a.base.sender in r.peers
  {
    var s1 := CheckSender(s, a.base.sender);
    var p := s1.peers[a.base.sender].(handle := handle, name := NameOf(a));
    if a.base.ttl >= p.maxTtl then
      s1.(peers := s1.peers[a.base.sender := p.(maxTtl := a.base.ttl)],
          handlePeers := s1.handlePeers[handle := a.base.sender])
    else
      s1.(peers := s1.peers[a.base.sender := p])
  }

  function ReceiveAnnounce(s: Tracker, handle: U16, parsed: Packet): (r: Tracker)
    ensures r == s.(announces := r.announces, peers := r.peers, handlePeers := r.handlePeers,
                    peersSent := r.peersSent, broadcast := r.broadcast)
  {
    var a := parsed.(base := parsed.base.(sendingHandle := handle));
    var (s1, isNew) := StoreAnnounce(UpdatePeer(s, handle, a), a);
    if !isNew || a.base.ttl <= 1 then s1 else
    var a' := a.(base := a.base.(ttl := a.base.ttl - 1));
    var s2 := CheckSender(s1.(announces := s1.announces[KeyOf(a) := a']), a.base.sender);
    EnqueueFrom(s2, AnnounceRef(KeyOf(a)), a.base.sender)
  }

  function TypeAt(frame: seq<Byte>, offset: U16): Byte {
    ByteAt(frame, Advance(offset, 1))
  }

  /** A frame of a version and a type that a parser is run on. */
  predicate Parses(frame: seq<Byte>, offset: U16) {
    1 <= ByteAt(frame, offset) <= 2 && TypeAt(frame, offset) in {TYPE_ANNOUNCE, TYPE_MESSAGE, TYPE_PREFERENCES}
  }

  /** The parser, if one is run, gets to an end. */
  predicate Readable(frame: seq<Byte>, offset: U16) {
    |frame| < 0x1_0000 && (Parses(frame, offset) ==> Fits(frame, EmptyBody(TypeAt(frame, offset))))
  }

  /** The announce or message a frame holds, if it holds one. */
  function Parsed(frame: seq<Byte>, offset: U16): (p: Option<Packet>)
    requires Readable(frame, offset)
    ensures p.Some? ==> p.value.body.AnnounceBody? || p.value.body.MessageBody?
  {
    var version, ptype := ByteAt(frame, offset), TypeAt(frame, offset);
    if Parses(frame, offset) && ptype != TYPE_PREFERENCES then
      var r := ParsePacket(frame, ptype, version, Advance(Advance(offset, 1), 1));
      Some(Packet(r.base, r.body))
    else None
  }

  /** A frame arrives on a connection. Unknown versions and types change nothing; preferences are
      not kept here. */
  function Receive(s: Tracker, handle: U16, offset: U16, frame: seq<Byte>): (r: Tracker)
    requires Readable(frame, offset)
    ensures r == s.(messages := r.messages, announces := r.announces, peers := r.peers, handlePeers := r.handlePeers,
                    peersSent := r.peersSent, broadcast := r.broadcast)
  {
    match Parsed(frame, offset)
    case None => s
    case Some(p) => if p.body.AnnounceBody? then ReceiveAnnounce(s, handle, p) else ReceiveMessage(s, handle, p)
  }

  /** The connection a frame arrives on is looked up first, and created if unknown. */
  function Arrive(s: Tracker, handle: Handle, offset: U16, frame: seq<Byte>): Tracker
    requires Readable(frame, offset)
  {
    var s1 := ConnectionFor(s, handle);
    Receive(s1, s1.connections[handle].handle, offset, frame)
  }

  /** A message of this node's own: kept and queued if its id is new. */
  function Originate(s: Tracker, m: Packet): Tracker
    requires m.body.MessageBody?
  {
    var (s1, isNew) := StoreMessage(s, m);
    if isNew then EnqueueBroadcast(s1, MessageRef(m.body.id)) else s1
  }
}
