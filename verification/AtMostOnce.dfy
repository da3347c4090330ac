/** Over any run without cleanup, nothing is sent again to a connection it has been sent to. */
module AtMostOnce {
  import opened Bytes
  import opened PacketFormat
  import opened TrackerState
  import opened TrackerInvariant
  import opened TrackerRuns

  type Entry = (Ref, Handle)

  predicate To(t: Transmission, p: Entry) {
    t.ref == p.0 && t.handle == p.1
  }

  /** A broadcast is over whatever the radio answers; the own announce only when it is taken. */
  predicate Final(t: Transmission, p: Entry) {
    To(t, p) && (t.taken || p.0 != OwnAnnounce)
  }

  predicate Silent(log: seq<Transmission>, p: Entry) {
    forall t :: t in log ==> !To(t, p)
  }

  predicate Settled(log: seq<Transmission>, p: Entry) {
    exists t :: t in log && Final(t, p)
  }

  /** Once a packet is settled for a connection it is not handed to the radio for it again. In
      particular no message is handed to the radio twice for the same connection. */
  predicate Once(log: seq<Transmission>, p: Entry) {
    forall i, j :: 0 <= i < j < |log| && To(log[j], p) ==> !Final(log[i], p)
  }

  lemma OnceConcat(a: seq<Transmission>, b: seq<Transmission>, p: Entry)
    requires Once(a, p) && Once(b, p) && (Settled(a, p) ==> Silent(b, p))
    ensures Once(a + b, p)
    ensures Settled(a + b, p) <==> Settled(a, p) || Settled(b, p)
    ensures Silent(a + b, p) <==> Silent(a, p) && Silent(b, p)
  {
    var c := a + b;
    forall i, j | 0 <= i < j < |c| && To(c[j], p)
      ensures !Final(c[i], p)
    {
      assert i < |a| ==> c[i] == a[i] && a[i] in a;
      assert i >= |a| ==> c[i] == b[i - |a|];
      assert j < |a| ==> c[j] == a[j];
      assert j >= |a| ==> c[j] == b[j - |a|] && b[j - |a|] in b;
    }
  }

  lemma SilentIsOnce(log: seq<Transmission>, p: Entry)
    requires Silent(log, p)
    ensures Once(log, p) && !Settled(log, p)
  {
  }

  // ---- one send --------------------------------------------------------------------------------

  /** A send in progress: what is settled has been recorded. */
  predicate Tracked(x: Sending, p: Entry) {
    Once(x.log, p) && (Settled(x.log, p) ==> p in x.s.sent)
  }

  lemma TransmittedIsTo(s: Tracker, e: Entry, radio: Radio, p: Entry)
    requires Refers(s, e) && s.connections[e.1].handle == e.1
    ensures |Transmitted(s, e, radio)| <= 1
    ensures e != p ==> Silent(Transmitted(s, e, radio), p)
    ensures Once(Transmitted(s, e, radio), p)
    ensures e.0 == OwnAnnounce && Settled(Transmitted(s, e, radio), p) ==> e == p && SendSucceeds(s, e, radio)
  {
    hide WritePacket, Known;
  }

  /** One entry of either list: it is tried, and recorded if that settles it. */
  lemma TryOnce(x: Sending, e: Entry, radio: Radio, record: bool, p: Entry)
    requires Refers(x.s, e) && x.s.connections[e.1].handle == e.1
    requires Tracked(x, p) && (e == p ==> Silent(x.log, p))
    requires !record ==> e.0 == OwnAnnounce && !SendSucceeds(x.s, e, radio)
    ensures var y := Sending(if record then x.s.(sent := x.s.sent + [e]) else x.s, x.done,
            x.log + Transmitted(x.s, e, radio));
            Tracked(y, p) && (p in x.s.sent ==> p in y.s.sent)
            && (e != p && Silent(x.log, p) ==> Silent(y.log, p))
  {
    hide SendSucceeds, Transmitted, Once, Settled, Silent;
    TransmittedIsTo(x.s, e, radio, p);
    if Silent(x.log, p) { SilentIsOnce(x.log, p); }
    if e != p { SilentIsOnce(Transmitted(x.s, e, radio), p); }
    OnceConcat(x.log, Transmitted(x.s, e, radio), p);
  }

  lemma {:induction false} TargetedOnce(x: Sending, entries: seq<Entry>, radio: Radio, p: Entry)
    requires forall e :: e in entries ==> Refers(x.s, e) && x.s.connections[e.1].handle == e.1 && e.0 == OwnAnnounce
    requires NoDuplicates(entries)
    requires Tracked(x, p) && (p in entries ==> Silent(x.log, p))
    ensures var r := SendTargeted(x, entries, radio);
            Tracked(r, p) && (p in x.s.sent ==> p in r.s.sent)
            && (Silent(x.log, p) && (p in x.s.sent || p !in entries) ==> Silent(r.log, p))
    decreases |entries|
  {
    hide Tracked, Silent, Known, SentTo, SendSucceeds, Transmitted;
    if entries != [] {
      var e := entries[0];
      assert e in entries;
      assert forall f :: f in entries[1..] ==> f in entries && f != e;
      var x' := TryTargeted(x, e, radio);
      if x' != x {
        if p == e && p in x.s.sent { RecordedIsSent(x.s, e); }
        TryOnce(x, e, radio, SendSucceeds(x.s, e, radio), p);
        SameProgress(x', Sending(x'.s, x.done, x'.log), p);
        GrowthKeepsReferences(x.s, x'.s);
      }
      TargetedOnce(x', entries[1..], radio, p);
    }
  }

  lemma SameProgress(x: Sending, y: Sending, p: Entry)
    requires x.s == y.s && x.log == y.log
    ensures Tracked(x, p) == Tracked(y, p)
  {
  }

  lemma {:induction false} BroadcastOnce(x: Sending, ref: Ref, handles: seq<Handle>, layout: Layout,
      radio: Radio, p: Entry)
    requires forall h :: h in handles ==> Refers(x.s, (ref, h)) && x.s.connections[h].handle == h
    requires NoDuplicates(handles) && ref != OwnAnnounce
    requires Tracked(x, p) && (p.0 == ref && p.1 in handles ==> Silent(x.log, p))
    ensures var r := SendBroadcast(x, ref, handles, layout, radio);
            Tracked(r, p) && (p in x.s.sent ==> p in r.s.sent)
            && (Silent(x.log, p) && (p in x.s.sent || p.0 != ref) ==> Silent(r.log, p))
    decreases |handles|
  {
    hide Tracked, Silent, Known, ScanHits, SendSucceeds, Transmitted;
    if handles != [] {
      var e := (ref, handles[0]);
      assert handles[0] in handles;
      assert forall f :: f in handles[1..] ==> f in handles && f != handles[0];
      var x' := TryBroadcast(x, e, layout, radio);
      if x' != x {
        if p == e && p in x.s.sent { RecordedIsHit(x.s, e, layout); }
        TryOnce(x, e, radio, true, p);
        SameProgress(x', Sending(x'.s, x.done, x'.log), p);
        GrowthKeepsReferences(x.s, x'.s);
      }
      BroadcastOnce(x', ref, handles[1..], layout, radio, p);
    }
  }

  lemma OwnIsTargeted(s: Tracker)
    requires Inv(s)
    ensures forall e :: e in s.targeted ==> e.0 == OwnAnnounce
    ensures OwnAnnounce !in s.broadcast
  {
    hide Intact, HandlesAgree, Stored, Unrepeated;
  }

  lemma AllTargetedOnce(s: Tracker, radio: Radio, p: Entry)
    requires Inv(s)
    ensures var r := SendAllTargeted(s, radio);
            Tracked(r, p) && (p in s.sent ==> p in r.s.sent)
            && (p in s.sent || p.0 != OwnAnnounce ==> Silent(r.log, p))
  {
    hide Inv, Tracked, Known, NotDone, Keep, NoDuplicates;
    IntactInv(s);
    var x0 := Sending(s, {}, []);
    NothingSentYet(s, p);
    OwnIsTargeted(s);
    TargetsAgree(s);
    NothingRepeated(s);
    TargetedOnce(x0, s.targeted, radio, p);
    OnlySentMatters(SendTargeted(x0, s.targeted, radio), SendAllTargeted(s, radio), p);
  }

  lemma NothingSentYet(s: Tracker, p: Entry)
    ensures Tracked(Sending(s, {}, []), p) && Silent([], p)
  {
  }

  lemma OnlySentMatters(x: Sending, y: Sending, p: Entry)
    requires x.s.sent == y.s.sent && x.log == y.log
    ensures Tracked(x, p) == Tracked(y, p)
  {
  }

  lemma OldestBroadcastOnce(x: Sending, layout: Layout, radio: Radio, p: Entry)
    requires Inv(x.s) && forall ref :: ref in x.s.broadcast ==> Known(x.s, ref)
    requires Tracked(x, p) && (p.0 != OwnAnnounce ==> Silent(x.log, p))
    ensures var r := SendOldestBroadcast(x, layout, radio);
            Tracked(r, p) && (p in x.s.sent ==> p in r.s.sent)
            && (p in x.s.sent && Silent(x.log, p) ==> Silent(r.log, p))
  {
    hide Inv, Tracked, Known, OtherThan, Keep, Silent, NoDuplicates, SendBroadcast;
    var handles := AvailableHandles(x.s);
    if x.s.broadcast != [] && handles != [] {
      var ref := x.s.broadcast[0];
      assert ref in x.s.broadcast;
      forall h | h in handles
        ensures x.s.connections[h].handle == h
      {
        LiveHandle(x.s, h);
      }
      OwnIsTargeted(x.s);
      BroadcastOnce(x, ref, handles, layout, radio, p);
      OnlySentMatters(SendBroadcast(x, ref, handles, layout, radio), SendOldestBroadcast(x, layout, radio), p);
    }
  }

  /** What one event does to one entry. */
  predicate Respects(s: Tracker, t: Tracker, log: seq<Transmission>, p: Entry) {
    && Once(log, p) && (Settled(log, p) ==> p in t.sent)
    && (p in s.sent ==> p in t.sent && Silent(log, p))
  }

  lemma SendRespects(s: Tracker, layout: Layout, radio: Radio, p: Entry)
    requires Inv(s)
    ensures var r := SendPackets(s, layout, radio); Respects(s, r.0, r.1, p)
  {
    hide Inv, Known, SendAllTargeted, SendOldestBroadcast, Intact, Silent, Settled, Once;
    IntactInv(s);
    if s.broadcast != [] || s.targeted != [] {
      AllTargetedOnce(s, radio, p);
      SendAllTargetedInv(s, radio);
      BroadcastsKnown(SendAllTargeted(s, radio).s);
      OldestBroadcastOnce(SendAllTargeted(s, radio), layout, radio, p);
    } else {
      NothingSentYet(s, p);
    }
  }

  // ---- one event -------------------------------------------------------------------------------

  /** Events after which a packet may be sent to a connection again. */
  predicate Forgets(e: Event, p: Entry) {
    e.CleanedUp? || (e.Unlinked? && e.handle == p.1 && !p.0.MessageRef?)
  }

  /** This node's announce, or a copy of one that came back to it. */
  predicate OwnOrLooped(s: Tracker, ref: Ref) {
    ref == OwnAnnounce || (ref.AnnounceRef? && ref.key.sender == s.own.base.sender)
  }

  /** A disconnection forgets exactly that this node's own announces went to that handle. */
  lemma DisconnectionForgets(s: Tracker, handle: Handle, p: Entry)
    requires Inv(s)
    ensures p in ReportDisconnection(s, handle).sent <==>
            p in s.sent && !(OwnOrLooped(s, p.0) && p.1 == handle)
    ensures p in ReportDisconnection(s, handle).targeted <==>
            p in s.targeted && p.1 != handle
  {
    hide Keep, Inv, KeyOf;
    var c := if handle in s.connections then s.connections[handle] else NEW_CONNECTION;
    var s1 := s.(connections := s.connections[handle := c.(connected := false)],
                 peers := if handle in s.peers then s.peers else s.peers[handle := NEW_PEER]);
    KeepIsFilter(s.sent, Not(AnnouncedTo(s1, handle)));
    KeepIsFilter(s.targeted, Not(AnnouncedTo(s1, handle)));
    EntriesAgree(s, p);
  }

  lemma EntriesAgree(s: Tracker, p: Entry)
    requires Inv(s)
    ensures p in s.sent || p in s.targeted ==>
              Refers(s, p) && s.connections[p.1].handle == p.1
              && ((PacketOf(s, p.0).base.ptype == TYPE_ANNOUNCE && PacketOf(s, p.0).base.sender == s.own.base.sender)
                  <==> OwnOrLooped(s, p.0))
    ensures p in s.targeted ==> p.0 == OwnAnnounce
  {
    hide Unrepeated;
  }

  lemma QuietRespects(s: Tracker, t: Tracker, p: Entry)
    requires p in s.sent ==> p in t.sent
    ensures Respects(s, t, [], p)
  {
  }

  lemma HappenRespects(me: Identity, s: Tracker, e: Event, p: Entry)
    requires Possible(e) && Inv(s) && !Forgets(e, p)
    ensures var r := Happen(me, s, e); Respects(s, r.0, r.1, p)
  {
    hide Inv, Intact, Respects, ReportDisconnection, Receive, AnnounceTo, SendPackets;
    IntactInv(s);
    var t := Happen(me, s, e).0;
    match e
    case Unlinked(handle) => {
      DisconnectionForgets(s, handle, p);
      QuietRespects(s, t, p);
    }
    case SentOut(layout, radio) => SendRespects(s, layout, radio, p);
    case _ => QuietRespects(s, t, p);
  }

  // ---- whole runs ------------------------------------------------------------------------------

  /** Over any run, in any order of events, no packet is handed to the radio for a connection once
      that is settled: a broadcast when it has been handed over, the own announce when the radio has
      taken it. Messages are forgotten by cleanup only; announces also when the link goes down. */
  lemma {:induction false} RunsSendOnce(me: Identity, s: Tracker, events: seq<Event>, p: Entry)
    requires Inv(s) && forall e :: e in events ==> Possible(e) && !Forgets(e, p)
    ensures var r := Run(me, s, events); Respects(s, r.0, r.1, p)
    decreases |events|
  {
    hide Inv, Happen, Once, Silent, Settled;
    if events == [] {
      QuietRespects(s, s, p);
    } else {
      IntactInv(s);
      assert events[0] in events;
      HappenInv(me, s, events[0]);
      var now := Happen(me, s, events[0]);
      HappenRespects(me, s, events[0], p);
      RunsSendOnce(me, now.0, events[1..], p);
      OnceConcat(now.1, Run(me, now.0, events[1..]).1, p);
    }
  }

  /** No message is handed to the radio twice for the same connection in a run without cleanup. */
  lemma MessagesGoOnce(me: Identity, s: Tracker, events: seq<Event>)
    requires Inv(s) && forall e :: e in events ==> Possible(e) && !e.CleanedUp?
    ensures var log := Run(me, s, events).1;
            forall i, j :: 0 <= i < j < |log| && log[i].ref.MessageRef? && log[j].ref == log[i].ref ==>
              log[j].handle != log[i].handle
  {
    hide Inv;
    var log := Run(me, s, events).1;
    forall i, j | 0 <= i < j < |log| && log[i].ref.MessageRef? && log[j].ref == log[i].ref
      ensures log[j].handle != log[i].handle
    {
      RunsSendOnce(me, s, events, (log[i].ref, log[i].handle));
    }
  }

  /** Per session, the radio takes the own announce for a connection at most once, and nothing more
      is tried after that. */
  lemma OwnAnnounceGoesOnce(me: Identity, s: Tracker, events: seq<Event>, handle: Handle)
    requires Inv(s)
    requires forall e :: e in events ==> Possible(e) && !e.CleanedUp? && !(e.Unlinked? && e.handle == handle)
    ensures var log := Run(me, s, events).1;
            forall i, j :: 0 <= i < j < |log| && To(log[i], (OwnAnnounce, handle)) && log[i].taken ==>
              !To(log[j], (OwnAnnounce, handle))
  {
    hide Inv;
    RunsSendOnce(me, s, events, (OwnAnnounce, handle));
  }

  /** A disconnection makes the handle eligible: when it is back, the announce is queued for it again. */
  lemma EligibleAgain(me: Identity, s: Tracker, handle: Handle, address: Address, role: Option<nat>, time: nat,
                      at: Location, now: U64)
    requires Inv(s)
    requires var t := ReportConnection(ReportDisconnection(s, handle), handle, address, role, time);
             Available(t.connections[handle])
    ensures var t := ReportConnection(ReportDisconnection(s, handle), handle, address, role, time);
            (OwnAnnounce, handle) !in t.sent && (OwnAnnounce, handle) !in t.targeted
            && (OwnAnnounce, handle) in AnnounceToConnections(t, me, at, true, now).targeted
  {
    hide Inv, ReportDisconnection, AnnounceTo;
    ReportDisconnectionInv(s, handle);
    var d := ReportDisconnection(s, handle);
    DisconnectionForgets(s, handle, (OwnAnnounce, handle));
    ReportConnectionInv(d, handle, address, role, time);
    var t := ReportConnection(d, handle, address, role, time);
    AnnouncesToUnannounced(t, me, at, now, handle);
  }

  /** Exactly the available connections without a record are queued. */
  lemma AnnouncesToUnannounced(s: Tracker, me: Identity, at: Location, now: U64, handle: Handle)
    requires Inv(s)
    ensures (OwnAnnounce, handle) in AnnounceToConnections(s, me, at, true, now).targeted <==>
            || (OwnAnnounce, handle) in s.targeted
            || (handle in s.connections && Available(s.connections[handle]) && (OwnAnnounce, handle) !in s.sent)
  {
    hide Inv, AnnounceTo;
    var s1 := s.(own := SetUpAnnounce(s.own, me, at));
    assert s1.own.base.ttl == OWN_TTL;
    RecordOfOwn(s, s1, handle);
    AnnounceToQueues(s1, Unannounced(s1, true), now, handle);
  }

  lemma RecordOfOwn(s: Tracker, s1: Tracker, handle: Handle)
    requires Inv(s) && s1.sent == s.sent && s1.connections == s.connections
    ensures handle in s.connections && s.connections[handle].connected ==>
              (SentTo(s1, OwnAnnounce, s1.connections[handle].handle) <==> (OwnAnnounce, handle) in s.sent)
  {
    hide Intact, Stored, Queued, Unrepeated;
  }

  lemma {:induction false} AnnounceToQueues(s: Tracker, handles: seq<Handle>, now: U64, handle: Handle)
    requires s.own.base.ttl > 0
    ensures (OwnAnnounce, handle) in AnnounceTo(s, handles, now).targeted <==>
            (OwnAnnounce, handle) in s.targeted || handle in handles
    decreases |handles|
  {
    if handles != [] {
      var s1 := s.(own := s.own.(base := s.own.base.(timestamp := now)));
      AnnounceToQueues(EnqueueTargeted(s1, OwnAnnounce, handles[0]), handles[1..], now, handle);
      assert handles == [handles[0]] + handles[1..];
    }
  }
}
