/** What a send hands to the radio: for every packet and connection exactly one frame or none, and
    which. */
module SendLog {
  import opened PacketFormat
  import opened TrackerState
  import opened TrackerInvariant
  import opened TargetedSends
  import opened BroadcastReach
  import opened MeshNode

  // ---- one packet's share of a log ---------------------------------------------------------------

  /** What was handed over of a packet for a connection handle. */
  function HandedOver(log: seq<Transmission>, ref: Ref, h: Handle): seq<Transmission>
    decreases |log|
  {
    if log == [] then [] else OfThese(log[0], ref, h) + HandedOver(log[1..], ref, h)
  }

  function OfThese(t: Transmission, ref: Ref, h: Handle): seq<Transmission> {
    if t.ref == ref && t.handle == h then [t] else []
  }

  lemma {:induction false} HandedOverConcat(a: seq<Transmission>, b: seq<Transmission>, ref: Ref, h: Handle)
    ensures HandedOver(a + b, ref, h) == HandedOver(a, ref, h) + HandedOver(b, ref, h)
    decreases |a|
  {
    hide OfThese;
    if a == [] {
      assert a + b == b;
    } else {
      HandedOverConcat(a[1..], b, ref, h);
      HeadAndTail(a, b);
      Reassociate(OfThese(a[0], ref, h), HandedOver(a[1..], ref, h), HandedOver(b, ref, h));
    }
  }

  lemma HeadAndTail(a: seq<Transmission>, b: seq<Transmission>)
    requires a != []
    ensures a + b != [] && (a + b)[0] == a[0] && (a + b)[1..] == a[1..] + b
  {
  }

  lemma Reassociate(a: seq<Transmission>, b: seq<Transmission>, c: seq<Transmission>)
    ensures a + b + c == a + (b + c)
  {
  }

  lemma {:induction false} HandedOverIn(log: seq<Transmission>, t: Transmission)
    ensures t in HandedOver(log, t.ref, t.handle) <==> t in log
    decreases |log|
  {
    if log != [] {
      HandedOverIn(log[1..], t);
      assert log == [log[0]] + log[1..];
    }
  }

  /** The stored packet's frame with the radio's answer, unless the packet came in over the connection
      or its frame is larger than the connection carries. */
  function FrameFor(s: Tracker, ref: Ref, h: Handle, radio: Radio): seq<Transmission>
    requires Refers(s, (ref, h))
  {
    var p, c := PacketOf(s, ref), s.connections[h];
    if (p.base.sendingHandle == 0 || p.base.sendingHandle != h) && (c.mtu == 0 || |WritePacket(p)| <= c.mtu)
    then [Transmission(ref, h, WritePacket(p), radio(ref, h))]
    else []
  }

  lemma TransmittedIsFrameFor(s: Tracker, e: Entry, radio: Radio, ref: Ref, h: Handle)
    requires Refers(s, e) && s.connections[e.1].handle == e.1
    ensures HandedOver(Transmitted(s, e, radio), ref, h) == if e == (ref, h) then FrameFor(s, ref, h, radio) else []
  {
    hide WritePacket, Known;
    var log := Transmitted(s, e, radio);
    if log != [] { assert log[1..] == []; }
  }

  lemma SameFrameFor(s: Tracker, t: Tracker, ref: Ref, h: Handle, radio: Radio)
    requires t == s.(sent := t.sent, targeted := t.targeted)
    ensures Refers(s, (ref, h)) <==> Refers(t, (ref, h))
    ensures Refers(s, (ref, h)) ==> FrameFor(s, ref, h, radio) == FrameFor(t, ref, h, radio)
  {
    hide WritePacket;
  }

  // ---- the targeted list -------------------------------------------------------------------------

  /** What one more part of a send hands over. */
  predicate HandsOver(before: seq<Transmission>, after: seq<Transmission>, s: Tracker, ref: Ref, h: Handle,
                      radio: Radio, now: bool)
  {
    (now ==> Refers(s, (ref, h)))
    && HandedOver(after, ref, h) == HandedOver(before, ref, h) + if now then FrameFor(s, ref, h, radio) else []
  }

  lemma TryTargetedHands(x: Sending, e: Entry, radio: Radio, ref: Ref, h: Handle)
    requires Agree(x.s) && Refers(x.s, e) && x.s.connections[e.1].handle == e.1
    ensures HandsOver(x.log, TryTargeted(x, e, radio).log, x.s, ref, h, radio, e == (ref, h) && e !in x.s.sent)
  {
    hide Known, SendSucceeds, Transmitted, SentTo, FrameFor;
    SentToIsRecord(x.s, e);
    HandedOverConcat(x.log, Transmitted(x.s, e, radio), ref, h);
    TransmittedIsFrameFor(x.s, e, radio, ref, h);
  }

  lemma {:induction false} TargetedHands(x: Sending, entries: seq<Entry>, radio: Radio, ref: Ref, h: Handle)
    requires Agree(x.s) && NoDuplicates(entries)
    requires forall f :: f in entries ==> Refers(x.s, f) && x.s.connections[f.1].handle == f.1
    ensures HandsOver(x.log, SendTargeted(x, entries, radio).log, x.s, ref, h, radio,
                      (ref, h) in entries && (ref, h) !in x.s.sent)
    decreases |entries|
  {
    hide Known, TryTargeted, NoDuplicates, FrameFor, HandedOver;
    if entries != [] {
      var first, rest := entries[0], entries[1..];
      assert first in entries;
      DistinctRest(entries);
      var x' := TryTargeted(x, first, radio);
      TryExactly(x, first, radio, first);
      TryExactly(x, first, radio, (ref, h));
      TryTargetedHands(x, first, radio, ref, h);
      forall f | f in rest
        ensures Refers(x'.s, f)
      {
        SameFrameFor(x.s, x'.s, f.0, f.1, radio);
      }
      SameFrameFor(x.s, x'.s, ref, h, radio);
      TargetedHands(x', rest, radio, ref, h);
    }
  }

  // ---- the broadcast -----------------------------------------------------------------------------

  lemma TryBroadcastHands(x: Sending, e: Entry, layout: Layout, radio: Radio, ref: Ref, h: Handle)
    requires Refers(x.s, e) && x.s.connections[e.1].handle == e.1
    ensures var r := TryBroadcast(x, e, layout, radio);
            HandsOver(x.log, r.log, x.s, ref, h, radio,
                      e == (ref, h) && (ref, h) in r.s.sent && (ref, h) !in x.s.sent)
  {
    hide Known, Transmitted, FrameFor, ScanHits;
    if e in x.s.sent { RecordedIsHit(x.s, e, layout); }
    HandedOverConcat(x.log, Transmitted(x.s, e, radio), ref, h);
    TransmittedIsFrameFor(x.s, e, radio, ref, h);
  }

  lemma {:induction false} BroadcastHands(x: Sending, to: Ref, handles: seq<Handle>, layout: Layout, radio: Radio,
                                          ref: Ref, h: Handle)
    requires forall k :: k in handles ==> Refers(x.s, (to, k)) && x.s.connections[k].handle == k
    requires NoDuplicates(handles)
    ensures var r := SendBroadcast(x, to, handles, layout, radio);
            HandsOver(x.log, r.log, x.s, ref, h, radio,
                      to == ref && h in handles && (ref, h) in r.s.sent && (ref, h) !in x.s.sent)
    decreases |handles|
  {
    hide Known, TryBroadcast, NoDuplicates, FrameFor, HandedOver;
    if handles != [] {
      var k, rest := handles[0], handles[1..];
      assert k in handles;
      DistinctHandlesRest(handles);
      var x' := TryBroadcast(x, (to, k), layout, radio);
      TryBroadcastHands(x, (to, k), layout, radio, ref, h);
      SameReferences(x.s, x'.s);
      SameFrameFor(x.s, x'.s, ref, h, radio);
      BroadcastHands(x', to, rest, layout, radio, ref, h);
      OthersStayUnsent(x', to, rest, layout, radio, (to, k));
      if (ref, h) != (to, k) { OnlyTried(x, (to, k), layout, radio, (ref, h)); }
    }
  }

  lemma DistinctHandlesRest(handles: seq<Handle>)
    requires NoDuplicates(handles) && handles != []
    ensures NoDuplicates(handles[1..]) && handles[0] !in handles[1..]
    ensures forall h :: h in handles <==> h == handles[0] || h in handles[1..]
  {
    assert handles == [handles[0]] + handles[1..];
  }

  lemma OnlyTried(x: Sending, e: Entry, layout: Layout, radio: Radio, p: Entry)
    requires Refers(x.s, e) && p != e
    ensures p in TryBroadcast(x, e, layout, radio).s.sent <==> p in x.s.sent
  {
    hide ScanHits, Transmitted, Known;
  }

  lemma OldestHands(x: Sending, layout: Layout, radio: Radio, ref: Ref, h: Handle)
    requires Inv(x.s) && forall r :: r in x.s.broadcast ==> Known(x.s, r)
    ensures var r := SendOldestBroadcast(x, layout, radio);
            HandsOver(x.log, r.log, x.s, ref, h, radio,
                      x.s.broadcast != [] && ref == x.s.broadcast[0] && (ref, h) in r.s.sent && (ref, h) !in x.s.sent)
  {
    hide Inv, Known, Keep, SendBroadcast, FrameFor, HandedOver, NoDuplicates, Available;
    var handles := AvailableHandles(x.s);
    if x.s.broadcast != [] && handles != [] {
      var to := x.s.broadcast[0];
      assert to in x.s.broadcast;
      forall k | k in handles
        ensures x.s.connections[k].handle == k
      {
        AvailableIsLive(x.s.connections[k]);
        LiveHandle(x.s, k);
      }
      BroadcastHands(x, to, handles, layout, radio, ref, h);
      if h !in handles || to != ref { OthersStayUnsent(x, to, handles, layout, radio, (ref, h)); }
    }
  }

  // ---- a whole send ------------------------------------------------------------------------------

  lemma AllTargetedHands(s: Tracker, radio: Radio, ref: Ref, h: Handle)
    requires Inv(s)
    ensures HandsOver([], SendAllTargeted(s, radio).log, s, ref, h, radio,
                      (ref, h) in s.targeted && (ref, h) !in s.sent)
  {
    hide Inv, Known, Keep, SendTargeted, HandsOver, NoDuplicates;
    IntactInv(s);
    TargetsAgree(s);
    NothingRepeated(s);
    RecordsAgree(s);
    TargetedHands(Sending(s, {}, []), s.targeted, radio, ref, h);
  }

  /** When a send hands a packet over for a connection: the queue's head where it gets a record now,
      the own announce where it is targeted and has none. */
  predicate IsDue(s: Tracker, t: Tracker, ref: Ref, h: Handle) {
    (ref, h) !in s.sent &&
    if ref == OwnAnnounce then (ref, h) in s.targeted
    else s.broadcast != [] && ref == s.broadcast[0] && (ref, h) in t.sent
  }

  /** The radio gets exactly one frame for every packet and connection that is due, the stored packet's
      as it is written, and keeps its answer, unless the packet came in over that connection or does
      not fit it; for every other packet and connection it gets nothing. */
  lemma SendsExactly(s: Tracker, layout: Layout, radio: Radio, ref: Ref, h: Handle)
    requires Inv(s)
    ensures Intact(s)
    ensures var (t, log) := SendPackets(s, layout, radio);
            && (IsDue(s, t, ref, h) ==> Refers(s, (ref, h)))
            && HandedOver(log, ref, h) == if IsDue(s, t, ref, h) then FrameFor(s, ref, h, radio) else []
  {
    hide Inv, Intact, Known, SendAllTargeted, SendOldestBroadcast, FrameFor, HandedOver, HandsOver, SendPackets;
    IntactInv(s);
    NothingHandedOver(ref, h);
    SendIsTwoParts(s, layout, radio);
    if s.broadcast != [] || s.targeted != [] {
      var x := SendAllTargeted(s, radio);
      AllTargetedHands(s, radio, ref, h);
      SendAllTargetedInv(s, radio);
      BroadcastsKnown(x.s);
      OldestHands(x, layout, radio, ref, h);
      OthersUnrecorded(s, radio, ref, h);
      NotQueued(s);
      TwoParts(s, x.s, [], x.log, SendOldestBroadcast(x, layout, radio).log, ref, h, radio,
               (ref, h) in s.targeted && (ref, h) !in s.sent,
               s.broadcast != [] && ref == s.broadcast[0]
               && (ref, h) in SendOldestBroadcast(x, layout, radio).s.sent && (ref, h) !in x.s.sent);
    }
  }

  lemma OthersUnrecorded(s: Tracker, radio: Radio, ref: Ref, h: Handle)
    requires Inv(s)
    ensures Intact(s)
    ensures ref != OwnAnnounce ==> (ref, h) !in s.targeted
    ensures ref != OwnAnnounce ==> ((ref, h) in SendAllTargeted(s, radio).s.sent <==> (ref, h) in s.sent)
  {
    hide Inv, Intact, SendAllTargeted, GetsThrough;
    IntactInv(s);
    OnlyOwnTargeted(s);
    TargetedExactly(s, radio, (ref, h));
  }

  lemma SendIsTwoParts(s: Tracker, layout: Layout, radio: Radio)
    requires Intact(s)
    ensures var x := SendAllTargeted(s, radio);
            (forall r :: r in x.s.broadcast ==> Known(x.s, r)) && x.s.broadcast == s.broadcast
    ensures if s.broadcast == [] && s.targeted == [] then SendPackets(s, layout, radio) == (s, [])
            else SendPackets(s, layout, radio) ==
                 (SendOldestBroadcast(SendAllTargeted(s, radio), layout, radio).s,
                  SendOldestBroadcast(SendAllTargeted(s, radio), layout, radio).log)
  {
    hide SendAllTargeted, SendOldestBroadcast;
    assert forall ref :: ref in s.broadcast ==> Known(s, ref) && Known(SendAllTargeted(s, radio).s, ref);
  }

  lemma TwoParts(s: Tracker, s': Tracker, a: seq<Transmission>, b: seq<Transmission>, c: seq<Transmission>,
                 ref: Ref, h: Handle, radio: Radio, first: bool, second: bool)
    requires s' == s.(sent := s'.sent, targeted := s'.targeted) && HandedOver(a, ref, h) == [] && !(first && second)
    requires HandsOver(a, b, s, ref, h, radio, first) && HandsOver(b, c, s', ref, h, radio, second)
    ensures first || second ==> Refers(s, (ref, h))
    ensures HandedOver(c, ref, h) == if first || second then FrameFor(s, ref, h, radio) else []
  {
    hide FrameFor, HandedOver, Known;
    SameFrameFor(s, s', ref, h, radio);
  }

  lemma NotQueued(s: Tracker)
    requires Inv(s)
    ensures s.broadcast != [] ==> s.broadcast[0] != OwnAnnounce
  {
    hide Intact, HandlesAgree, Stored, Unrepeated;
  }

  lemma NothingHandedOver(ref: Ref, h: Handle)
    ensures HandedOver([], ref, h) == []
  {
  }
}
