/** What a send does to the targeted list: which entries get a record, and which are kept. */
module TargetedSends {
  import opened PacketFormat
  import opened TrackerState
  import opened TrackerInvariant

  type Entry = (Ref, Handle)

  /** The entry is tried in this send, and settled by it: its packet came in over this very connection,
      or it fits the connection and the radio takes it. */
  predicate GetsThrough(s: Tracker, e: Entry, radio: Radio) {
    Refers(s, e) && e !in s.sent &&
    var p, c := PacketOf(s, e.0), s.connections[e.1];
    || (p.base.sendingHandle > 0 && p.base.sendingHandle == e.1)
    || ((c.mtu == 0 || |WritePacket(p)| <= c.mtu) && radio(e.0, e.1))
  }

  lemma GettingThrough(s: Tracker, e: Entry, radio: Radio)
    requires Refers(s, e) && s.connections[e.1].handle == e.1
    ensures GetsThrough(s, e, radio) <==> e !in s.sent && SendSucceeds(s, e, radio)
  {
    hide WritePacket;
  }

  lemma SentToIsRecord(s: Tracker, e: Entry)
    requires e.1 in s.connections && s.connections[e.1].handle == e.1
    requires forall f :: f in s.sent && f.1 in s.connections ==> s.connections[f.1].handle == f.1
    ensures SentTo(s, e.0, e.1) <==> exists f :: f in s.sent && f == e && f.1 in s.connections
  {
  }

  /** Handles agree with keys for everything recorded. */
  predicate Agree(s: Tracker) {
    forall f :: f in s.sent ==> f.1 in s.connections && s.connections[f.1].handle == f.1
  }

  lemma {:induction false} SendTargetedExactly(x: Sending, entries: seq<Entry>, radio: Radio, e: Entry)
    requires Agree(x.s) && NoDuplicates(entries)
    requires forall f :: f in entries ==> Refers(x.s, f) && x.s.connections[f.1].handle == f.1
    ensures var r := SendTargeted(x, entries, radio);
            && (e in r.s.sent <==> e in x.s.sent || (e in entries && GetsThrough(x.s, e, radio)))
            && (e.0 in r.done <==>
                e.0 in x.done || exists f :: f in entries && f.0 == e.0 && GetsThrough(x.s, f, radio))
    decreases |entries|
  {
    hide Known, SendSucceeds, Transmitted, SentTo, NoDuplicates, GetsThrough;
    if entries != [] {
      var first, rest := entries[0], entries[1..];
      assert first in entries;
      DistinctRest(entries);
      var x' := TryTargeted(x, first, radio);
      TryExactly(x, first, radio, first);
      TryExactly(x, first, radio, e);
      forall f | f in rest
        ensures Refers(x'.s, f) && (GetsThrough(x'.s, f, radio) <==> GetsThrough(x.s, f, radio))
      {
        TryExactly(x, first, radio, f);
        SameChance(x.s, x'.s, f, radio);
      }
      SameChance(x.s, x'.s, e, radio);
      SendTargetedExactly(x', rest, radio, e);
    }
  }

  lemma DistinctRest(entries: seq<Entry>)
    requires NoDuplicates(entries) && entries != []
    ensures NoDuplicates(entries[1..])
    ensures forall f :: f in entries <==> f == entries[0] || f in entries[1..]
    ensures entries[0] !in entries[1..]
  {
  }

  lemma SameChance(s: Tracker, t: Tracker, f: Entry, radio: Radio)
    requires t == s.(sent := t.sent)
    ensures Refers(t, f) <==> Refers(s, f)
    ensures (f in t.sent <==> f in s.sent) ==> (GetsThrough(t, f, radio) <==> GetsThrough(s, f, radio))
  {
    hide WritePacket;
  }

  lemma TryExactly(x: Sending, first: Entry, radio: Radio, e: Entry)
    requires Agree(x.s) && Refers(x.s, first) && x.s.connections[first.1].handle == first.1
    ensures var r := TryTargeted(x, first, radio);
            && (e in r.s.sent <==> e in x.s.sent || (e == first && GetsThrough(x.s, e, radio)))
            && (e.0 in r.done <==> e.0 in x.done || (e.0 == first.0 && GetsThrough(x.s, first, radio)))
            && Agree(r.s)
  {
    hide SendSucceeds, Transmitted, Known, GetsThrough;
    SentToIsRecord(x.s, first);
    GettingThrough(x.s, first, radio);
  }

  /** After a send: exactly the targeted entries not recorded before and settled now have a new
      record; and a packet that got through to anyone is taken off the list for everyone. */
  lemma TargetedExactly(s: Tracker, radio: Radio, e: Entry)
    requires Inv(s)
    ensures var r := SendAllTargeted(s, radio).s;
            && (e in r.sent <==> e in s.sent || (e in s.targeted && GetsThrough(s, e, radio)))
            && (e in r.targeted <==>
                  e in s.targeted && !exists f :: f in s.targeted && f.0 == e.0 && GetsThrough(s, f, radio))
  {
    hide Inv, Known, Keep, SendTargeted, GetsThrough, NoDuplicates;
    IntactInv(s);
    TargetsAgree(s);
    NothingRepeated(s);
    RecordsAgree(s);
    var x0 := Sending(s, {}, []);
    SendTargetedExactly(x0, s.targeted, radio, e);
    KeepIsFilter(s.targeted, NotDone(SendTargeted(x0, s.targeted, radio).done));
  }

  lemma RecordsAgree(s: Tracker)
    requires Inv(s)
    ensures Agree(s)
  {
    hide Known, Stored, Queued, Unrepeated;
  }
}
