/** Who is behind a connection, over whole runs: for every peer the best ttl its announces came with and
    the connection of the last one, and for every connection the peer that last came over it at its best
    since the connection last went down. */
module PeerOwners {
  import opened Bytes
  import opened PacketFormat
  import opened TrackerState
  import opened TrackerInvariant
  import opened TrackerRuns

  // ---- what a node learns of its peers -----------------------------------------------------------

  /** An announce heard on a connection, a message passed on for its sender, or a connection lost. */
  datatype Contact = Told(handle: Handle, announce: Packet) | Passed(sender: U64) | Left(handle: Handle)

  /** What is told is an announce. */
  predicate Proper(c: Contact) {
    c.Told? ==> c.announce.body.AnnounceBody?
  }

  function ContactsIn(s: Tracker, e: Event): seq<Contact>
    requires Possible(e)
  {
    match e
    case Received(handle, offset, frame) =>
      (match Parsed(frame, offset)
       case None => []
       case Some(p) =>
         if p.body.AnnounceBody? then [Told(ArrivesAs(s, handle), p)]
         else if StoreMessage(s, p).1 && p.base.ttl > 1 then [Passed(p.base.sender)] else [])
    case Unlinked(handle) => [Left(handle)]
    case _ => []
  }

  lemma ContactsAreProper(s: Tracker, e: Event)
    requires Possible(e)
    ensures forall c :: c in ContactsIn(s, e) ==> Proper(c)
  {
    hide Parsed, StoreMessage, Readable;
  }

  ghost function ContactsOver(me: Identity, s: Tracker, events: seq<Event>): seq<Contact>
    requires Inv(s) && forall e :: e in events ==> Possible(e)
    decreases |events|
  {
    if events == [] then [] else
    IntactInv(s);
    assert Possible(events[0]) by { assert events[0] in events; }
    HappenInv(me, s, events[0]);
    ContactsIn(s, events[0]) + ContactsOver(me, Happen(me, s, events[0]).0, events[1..])
  }

  // ---- one event ---------------------------------------------------------------------------------

  /** What a contact makes of the peers and the owners. */
  function Meet(s: Tracker, c: Contact): Tracker {
    match c
    case Told(handle, announce) => UpdatePeer(s, handle, announce)
    case Passed(sender) => CheckSender(s, sender)
    case Left(handle) =>
      s.(peers := if handle in s.peers then s.peers else s.peers[handle := NEW_PEER],
         handlePeers := s.handlePeers - {handle})
  }

  predicate SamePeers(s: Tracker, t: Tracker) {
    s.peers == t.peers && s.handlePeers == t.handlePeers
  }

  lemma AnnounceMeets(s: Tracker, handle: U16, p: Packet)
    ensures SamePeers(ReceiveAnnounce(s, handle, p), UpdatePeer(s, handle, p))
  {
    hide KeyOf;
    var a := p.(base := p.base.(sendingHandle := handle));
    assert UpdatePeer(s, handle, a) == UpdatePeer(s, handle, p);
  }

  lemma MessageMeets(s: Tracker, handle: U16, p: Packet)
    requires p.body.MessageBody?
    ensures SamePeers(ReceiveMessage(s, handle, p),
                      if StoreMessage(s, p).1 && p.base.ttl > 1 then CheckSender(s, p.base.sender) else s)
  {
  }

  lemma ArrivalMeets(s: Tracker, handle: Handle, offset: U16, frame: seq<Byte>)
    requires Readable(frame, offset)
    ensures var c := ContactsIn(s, Received(handle, offset, frame));
            SamePeers(Arrive(s, handle, offset, frame), if c == [] then s else Meet(s, c[0]))
  {
    hide Parsed, ReceiveAnnounce, ReceiveMessage, StoreMessage, UpdatePeer, CheckSender, Readable;
    var s1 := ConnectionFor(s, handle);
    ElsewhereMeets(s, s1);
    match Parsed(frame, offset)
    case None =>
    case Some(p) =>
      AnnounceMeets(s1, s1.connections[handle].handle, p);
      if p.body.MessageBody? { MessageMeets(s1, s1.connections[handle].handle, p); }
  }

  /** Connections play no part in it. */
  lemma ElsewhereMeets(s: Tracker, t: Tracker)
    requires t == s.(connections := t.connections)
    ensures forall h, p :: SamePeers(UpdatePeer(s, h, p), UpdatePeer(t, h, p))
    ensures forall u :: SamePeers(CheckSender(s, u), CheckSender(t, u))
    ensures forall p: Packet :: p.body.MessageBody? ==> StoreMessage(s, p).1 == StoreMessage(t, p).1
  {
    hide NameOf;
  }

  lemma EventMeets(me: Identity, s: Tracker, e: Event)
    requires Possible(e) && Intact(s)
    ensures SamePeers(Happen(me, s, e).0, if ContactsIn(s, e) == [] then s else Meet(s, ContactsIn(s, e)[0]))
  {
    hide Parsed, Intact, Arrive, Meet, Readable, ReportDisconnection, AddAvailablePeer, ReportConnection, SetLink,
         Originate, AnnounceToConnections, SendPackets, CleanupStaleItems, StoreMessage;
    match e
    case Received(handle, offset, frame) => ArrivalMeets(s, handle, offset, frame);
    case Unlinked(handle) => LeavingMeets(s, handle);
    case CleanedUp(now) => CleanupMeets(s, now);
    case _ => OnlyFramesTell(me, s, e);
  }

  lemma CleanupMeets(s: Tracker, now: U64)
    ensures SamePeers(CleanupStaleItems(s, now), s)
  {
    hide Keep;
  }

  lemma LeavingMeets(s: Tracker, handle: Handle)
    ensures SamePeers(ReportDisconnection(s, handle), Meet(s, Left(handle)))
  {
    hide Keep, AnnouncedTo, Not;
  }

  // ---- peers -------------------------------------------------------------------------------------

  predicate Mentions(c: Contact, sender: U64) {
    match c
    case Told(_, announce) => announce.base.sender == sender
    case Passed(other) => other == sender
    case Left(handle) => handle == sender
  }

  predicate From(c: Contact, sender: U64) {
    c.Told? && c.announce.base.sender == sender
  }

  predicate Mentioned(past: seq<Contact>, sender: U64) {
    exists i :: 0 <= i < |past| && Mentions(past[i], sender)
  }

  predicate HeardFrom(past: seq<Contact>, sender: U64) {
    exists i :: 0 <= i < |past| && From(past[i], sender)
  }

  /** First met as the number of a lost connection. */
  predicate MetByNumber(past: seq<Contact>, sender: U64) {
    exists i :: 0 <= i < |past| && past[i].Left? && Mentions(past[i], sender) && !Mentioned(past[..i], sender)
  }

  /** The largest ttl an announce of the sender came with. */
  predicate BestTtl(past: seq<Contact>, sender: U64, ttl: Byte) {
    && (forall i :: 0 <= i < |past| && From(past[i], sender) ==> past[i].announce.base.ttl <= ttl)
    && (if HeardFrom(past, sender)
        then exists i :: 0 <= i < |past| && From(past[i], sender) && past[i].announce.base.ttl == ttl
        else ttl == 0)
  }

  /** The connection and the name of the sender's last announce. */
  predicate MetOn(past: seq<Contact>, sender: U64, handle: Handle, name: seq<Byte>) {
    if HeardFrom(past, sender)
    then exists i :: 0 <= i < |past| && From(past[i], sender) && past[i].handle == handle
                     && past[i].announce.body.AnnounceBody? && name == past[i].announce.body.name
                     && forall j :: i < j < |past| ==> !From(past[j], sender)
    else handle == 0 && name == []
  }

  /** What a node knows of a peer. */
  predicate PeerIs(s: Tracker, past: seq<Contact>, sender: U64) {
    && (sender in s.peers <==> Mentioned(past, sender))
    && (sender in s.peers ==>
          && s.peers[sender].id == (if MetByNumber(past, sender) then 0 else sender)
          && BestTtl(past, sender, s.peers[sender].maxTtl)
          && MetOn(past, sender, s.peers[sender].handle, s.peers[sender].name))
  }

  lemma OneMore(past: seq<Contact>, c: Contact)
    ensures forall i :: 0 <= i < |past| ==> (past + [c])[i] == past[i] && (past + [c])[..i] == past[..i]
    ensures (past + [c])[|past|] == c && (past + [c])[..|past|] == past
  {
  }

  lemma MentionedMore(past: seq<Contact>, c: Contact, sender: U64)
    ensures Mentioned(past + [c], sender) <==> Mentioned(past, sender) || Mentions(c, sender)
    ensures HeardFrom(past + [c], sender) <==> HeardFrom(past, sender) || From(c, sender)
    ensures MetByNumber(past, sender) || HeardFrom(past, sender) ==> Mentioned(past, sender)
  {
    OneMore(past, c);
    var all := past + [c];
    assert From(c, sender) ==> From(all[|past|], sender);
    assert Mentions(c, sender) ==> Mentions(all[|past|], sender);
    assert forall i :: 0 <= i < |past| ==> all[i] == past[i];
    forall i | 0 <= i < |past|
      ensures From(past[i], sender) ==> Mentions(past[i], sender)
    {
    }
  }

  lemma MetByNumberMore(past: seq<Contact>, c: Contact, sender: U64)
    ensures MetByNumber(past + [c], sender) <==>
            MetByNumber(past, sender) || (c.Left? && Mentions(c, sender) && !Mentioned(past, sender))
  {
    hide Mentions, Mentioned;
    var all := past + [c];
    assert all[..|past|] == past && all[|past|] == c;
    forall i | 0 <= i < |past|
      ensures all[..i] == past[..i] && all[i] == past[i]
    {
    }
    if MetByNumber(past, sender) {
      var i :| 0 <= i < |past| && past[i].Left? && Mentions(past[i], sender) && !Mentioned(past[..i], sender);
      assert all[i].Left? && Mentions(all[i], sender) && !Mentioned(all[..i], sender);
    }
  }

  lemma BestTtlMore(past: seq<Contact>, c: Contact, sender: U64, ttl: Byte)
    requires BestTtl(past, sender, ttl)
    ensures BestTtl(past + [c], sender,
                    if From(c, sender) && c.announce.base.ttl >= ttl then c.announce.base.ttl else ttl)
  {
    hide HeardFrom;
    OneMore(past, c);
    MentionedMore(past, c, sender);
    HeardFromIs(past, sender);
  }

  lemma HeardFromIs(past: seq<Contact>, sender: U64)
    ensures HeardFrom(past, sender) <==> exists i :: 0 <= i < |past| && From(past[i], sender)
  {
  }

  lemma MetOnMore(past: seq<Contact>, c: Contact, sender: U64, handle: Handle, name: seq<Byte>)
    requires MetOn(past, sender, handle, name) && Proper(c)
    ensures if From(c, sender) then MetOn(past + [c], sender, c.handle, c.announce.body.name)
            else MetOn(past + [c], sender, handle, name)
  {
    hide HeardFrom;
    OneMore(past, c);
    MentionedMore(past, c, sender);
    HeardFromIs(past, sender);
  }

  lemma PeerAfter(s: Tracker, past: seq<Contact>, c: Contact, sender: U64)
    requires PeerIs(s, past, sender) && Proper(c)
    ensures PeerIs(Meet(s, c), past + [c], sender)
  {
    hide Mentioned, HeardFrom, MetByNumber, BestTtl, MetOn;
    MentionedMore(past, c, sender);
    MetByNumberMore(past, c, sender);
    if sender !in s.peers { NeverMet(past, sender); }
    var p := if sender in s.peers then s.peers[sender] else NEW_PEER;
    BestTtlMore(past, c, sender, p.maxTtl);
    MetOnMore(past, c, sender, p.handle, p.name);
  }

  lemma NeverMet(past: seq<Contact>, sender: U64)
    requires !Mentioned(past, sender)
    ensures BestTtl(past, sender, 0) && MetOn(past, sender, 0, [])
    ensures !MetByNumber(past, sender)
  {
    hide NameOf;
    assert forall i :: 0 <= i < |past| && From(past[i], sender) ==> Mentions(past[i], sender);
  }

  lemma EventPeer(me: Identity, s: Tracker, e: Event, past: seq<Contact>, sender: U64)
    requires Possible(e) && Intact(s) && PeerIs(s, past, sender)
    ensures PeerIs(Happen(me, s, e).0, past + ContactsIn(s, e), sender)
  {
    hide Happen, Mentioned, HeardFrom, MetByNumber, BestTtl, MetOn, Meet, Intact, Possible, Parsed;
    EventMeets(me, s, e);
    var t := Happen(me, s, e).0;
    if ContactsIn(s, e) == [] {
      assert past + ContactsIn(s, e) == past;
    } else {
      var c := ContactsIn(s, e)[0];
      assert ContactsIn(s, e) == [c];
      ContactsAreProper(s, e);
      PeerAfter(s, past, c, sender);
    }
  }

  lemma {:induction false} RunPeer(me: Identity, s: Tracker, events: seq<Event>, past: seq<Contact>, sender: U64)
    requires Inv(s) && (forall e :: e in events ==> Possible(e)) && PeerIs(s, past, sender)
    ensures PeerIs(Run(me, s, events).0, past + ContactsOver(me, s, events), sender)
    decreases |events|
  {
    hide Inv, Happen, PeerIs, ContactsIn, Possible, Intact;
    if events == [] {
      assert past + ContactsOver(me, s, events) == past;
    } else {
      IntactInv(s);
      assert events[0] in events;
      HappenInv(me, s, events[0]);
      var t := Happen(me, s, events[0]).0;
      EventPeer(me, s, events[0], past, sender);
      RunPeer(me, t, events[1..], past + ContactsIn(s, events[0]), sender);
      assert past + ContactsOver(me, s, events)
          == past + ContactsIn(s, events[0]) + ContactsOver(me, t, events[1..]);
    }
  }

  /** From power-on, after any events: a peer is known exactly when an announce of it was heard, a
      message of it was passed on, or a connection with its number was lost (and then, if that was the
      first of it, it has no id); its ttl is the largest its announces came with, its connection and its
      name those of its last announce. */
  lemma PeersAreBest(me: Identity, own: Packet, events: seq<Event>, sender: U64)
    requires own.body.AnnounceBody? && own.base.ptype == TYPE_ANNOUNCE
    requires forall e :: e in events ==> Possible(e)
    ensures Inv(SwitchedOn(own))
    ensures PeerIs(Run(me, SwitchedOn(own), events).0, ContactsOver(me, SwitchedOn(own), events), sender)
  {
    hide Inv, PeerIs, Possible, Run, ContactsOver;
    SwitchedOnInv(own);
    NobodyMet(own, sender);
    RunPeer(me, SwitchedOn(own), events, [], sender);
    assert [] + ContactsOver(me, SwitchedOn(own), events) == ContactsOver(me, SwitchedOn(own), events);
  }

  lemma NobodyMet(own: Packet, sender: U64)
    ensures PeerIs(SwitchedOn(own), [], sender)
  {
  }

  // ---- owners --------------------------------------------------------------------------------------

  /** No announce of this sender up to here came with a larger ttl. */
  predicate AtBest(past: seq<Contact>, i: nat)
    requires i < |past| && past[i].Told?
  {
    forall j :: 0 <= j < i && From(past[j], past[i].announce.base.sender) ==>
                  past[j].announce.base.ttl <= past[i].announce.base.ttl
  }

  /** An announce that makes its sender the owner of the connection. */
  predicate Claims(past: seq<Contact>, handle: Handle, i: nat)
    requires i < |past|
  {
    past[i].Told? && past[i].handle == handle && AtBest(past, i)
  }

  /** From here on nobody else has claimed the connection, and it has not been lost. */
  predicate Holds(past: seq<Contact>, handle: Handle, i: nat)
    requires i < |past|
  {
    Claims(past, handle, i) && forall j :: i < j < |past| ==> !Claims(past, handle, j) && past[j] != Left(handle)
  }

  predicate OwnerIs(s: Tracker, past: seq<Contact>, handle: Handle) {
    && (handle in s.handlePeers ==>
          exists i :: 0 <= i < |past| && Holds(past, handle, i)
                      && s.handlePeers[handle] == past[i].announce.base.sender)
    && (handle !in s.handlePeers ==> forall i :: 0 <= i < |past| ==> !Holds(past, handle, i))
  }

  lemma ClaimsSame(past: seq<Contact>, c: Contact, handle: Handle)
    ensures forall i :: 0 <= i < |past| ==>
              (past + [c])[i] == past[i] && (Claims(past + [c], handle, i) <==> Claims(past, handle, i))
  {
    var all := past + [c];
    assert forall i :: 0 <= i < |past| ==> all[i] == past[i];
  }

  /** Whoever held the connection still does, unless it is claimed or lost now. */
  lemma HoldsMore(past: seq<Contact>, c: Contact, handle: Handle)
    ensures forall i :: 0 <= i < |past| ==>
              (Holds(past + [c], handle, i) <==>
               Holds(past, handle, i) && !Claims(past + [c], handle, |past|) && c != Left(handle))
    ensures Holds(past + [c], handle, |past|) <==> Claims(past + [c], handle, |past|)
  {
    hide Claims;
    var all := past + [c];
    assert all[|past|] == c;
    ClaimsSame(past, c, handle);
    forall i | 0 <= i < |past|
      ensures Holds(all, handle, i) <==>
              Holds(past, handle, i) && !Claims(all, handle, |past|) && c != Left(handle)
    {
      assert forall j :: i < j < |past| ==> all[j] == past[j];
    }
  }

  /** An announce is at its sender's best exactly when it reaches the best ttl so far. */
  lemma ReachesBest(past: seq<Contact>, c: Contact, ttl: Byte)
    requires c.Told? && BestTtl(past, c.announce.base.sender, ttl)
    ensures (past + [c])[|past|] == c
    ensures AtBest(past + [c], |past|) <==> c.announce.base.ttl >= ttl
  {
    hide HeardFrom;
    HeardFromIs(past, c.announce.base.sender);
    var all := past + [c];
    assert forall i :: 0 <= i < |past| ==> all[i] == past[i];
    assert all[|past|] == c;
  }

  lemma OwnersAfter(s: Tracker, past: seq<Contact>, c: Contact)
    requires c.Told? ==> PeerIs(s, past, c.announce.base.sender)
    ensures Meet(s, c).handlePeers ==
            if c.Told? && Claims(past + [c], c.handle, |past|) then s.handlePeers[c.handle := c.announce.base.sender]
            else if c.Left? then s.handlePeers - {c.handle} else s.handlePeers
  {
    hide Mentioned, HeardFrom, MetByNumber, BestTtl, MetOn, NameOf, AtBest;
    if c.Told? {
      var sender := c.announce.base.sender;
      if sender !in s.peers { NeverMet(past, sender); }
      ReachesBest(past, c, if sender in s.peers then s.peers[sender].maxTtl else 0);
    }
  }

  lemma OwnerAfter(s: Tracker, past: seq<Contact>, c: Contact, handle: Handle)
    requires OwnerIs(s, past, handle) && (c.Told? ==> PeerIs(s, past, c.announce.base.sender))
    ensures OwnerIs(Meet(s, c), past + [c], handle)
  {
    hide PeerIs, Meet, Holds, AtBest;
    OwnersAfter(s, past, c);
    HoldsMore(past, c, handle);
    OneMore(past, c);
  }

  lemma EventOwner(me: Identity, s: Tracker, e: Event, past: seq<Contact>, handle: Handle)
    requires Possible(e) && Intact(s) && OwnerIs(s, past, handle) && forall u :: PeerIs(s, past, u)
    ensures OwnerIs(Happen(me, s, e).0, past + ContactsIn(s, e), handle)
  {
    hide Happen, PeerIs, OwnerIs, Meet, Intact, Possible, Parsed;
    EventMeets(me, s, e);
    var t := Happen(me, s, e).0;
    if ContactsIn(s, e) == [] {
      assert past + ContactsIn(s, e) == past;
      SameOwner(s, t, past, handle);
    } else {
      var c := ContactsIn(s, e)[0];
      assert ContactsIn(s, e) == [c];
      OwnerAfter(s, past, c, handle);
      SameOwner(Meet(s, c), t, past + [c], handle);
    }
  }

  lemma SameOwner(s: Tracker, t: Tracker, past: seq<Contact>, handle: Handle)
    requires SamePeers(s, t) && OwnerIs(s, past, handle)
    ensures OwnerIs(t, past, handle)
  {
    hide Holds;
  }

  lemma {:induction false} RunOwner(me: Identity, s: Tracker, events: seq<Event>, past: seq<Contact>, handle: Handle)
    requires Inv(s) && forall e :: e in events ==> Possible(e)
    requires OwnerIs(s, past, handle) && forall u :: PeerIs(s, past, u)
    ensures OwnerIs(Run(me, s, events).0, past + ContactsOver(me, s, events), handle)
    decreases |events|
  {
    hide Inv, Happen, PeerIs, OwnerIs, ContactsIn, Possible, Intact;
    if events == [] {
      assert past + ContactsOver(me, s, events) == past;
    } else {
      IntactInv(s);
      assert events[0] in events;
      HappenInv(me, s, events[0]);
      var t := Happen(me, s, events[0]).0;
      EventOwner(me, s, events[0], past, handle);
      forall u
        ensures PeerIs(t, past + ContactsIn(s, events[0]), u)
      {
        EventPeer(me, s, events[0], past, u);
      }
      RunOwner(me, t, events[1..], past + ContactsIn(s, events[0]), handle);
      assert past + ContactsOver(me, s, events)
          == past + ContactsIn(s, events[0]) + ContactsOver(me, t, events[1..]);
    }
  }

  /** From power-on, after any events: the owner of a connection is the sender of the last announce
      since the connection was last lost that came over it at its sender's best; if there is no such
      announce it has none. */
  lemma OwnersAreBest(me: Identity, own: Packet, events: seq<Event>, handle: Handle)
    requires own.body.AnnounceBody? && own.base.ptype == TYPE_ANNOUNCE
    requires forall e :: e in events ==> Possible(e)
    ensures Inv(SwitchedOn(own))
    ensures OwnerIs(Run(me, SwitchedOn(own), events).0, ContactsOver(me, SwitchedOn(own), events), handle)
  {
    hide Inv, PeerIs, Possible, Run, ContactsOver;
    SwitchedOnInv(own);
    forall u
      ensures PeerIs(SwitchedOn(own), [], u)
    {
      NobodyMet(own, u);
    }
    RunOwner(me, SwitchedOn(own), events, [], handle);
    assert [] + ContactsOver(me, SwitchedOn(own), events) == ContactsOver(me, SwitchedOn(own), events);
  }
}
