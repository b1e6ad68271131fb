/** The event store as an index and a replaceable map: what every insertion keeps, and that a store
    fed the same events in any order, with any repetition, ends up the same. */
module Convergence {
  import opened Text
  import opened Nostr
  import opened Tables

  // ---- the order in which events supersede each other ----

  lemma SupersedesTransitive(a: Event, b: Event, c: Event)
    requires Supersedes(a, b) && Supersedes(b, c)
    ensures Supersedes(a, c)
  {
    if a.createdAt == b.createdAt == c.createdAt { StrLessTransitive(a.id, b.id, c.id); }
  }

  lemma SupersedesIrreflexive(a: Event)
    ensures !Supersedes(a, a)
  {
    StrLessIrreflexive(a.id);
  }

  lemma SupersedesTotal(a: Event, b: Event)
    requires a.id != b.id
    ensures Supersedes(a, b) != Supersedes(b, a)
  {
    StrLessTotal(a.id, b.id);
    StrLessIrreflexive(a.id);
    if StrLess(a.id, b.id) && StrLess(b.id, a.id) { StrLessTransitive(a.id, b.id, a.id); }
  }

  // ---- what one insertion keeps ----

  /** On clean addresses the index names exactly the events in the incoming event's slot. */
  lemma ExistingIsSlot(t: Tables, ev: Event)
    requires IndexExact(t) && AddressesClean(t)
    ensures forall id :: id in Existing(t, ev) <==> id in t.events && SameSlot(t.events[id], ev)
  {
    forall id | id in t.events && IsAddressable(t.events[id].kind)
      ensures IndexedUnder(t.rows, id, DKey(ev)) <==> DKey(t.events[id]) == DKey(ev)
    {
      SlotReadDetermined(t, id);
    }
  }

  lemma InsertKeepsIndex(t: Tables, ev: Event)
    requires IndexExact(t)
    ensures IndexExact(Insert(t, ev).0)
  {
    var u := Insert(t, ev).0;
    if Insert(t, ev).1 == Stored {
      forall r ensures r in u.rows <==> r.eventId in u.events && r in IndexRows(u.events[r.eventId]) {
        if r.eventId == ev.id { assert r !in t.rows; }
      }
    }
  }

  lemma InsertKeepsSlots(t: Tables, ev: Event)
    requires IndexExact(t) && AddressesClean(t) && OnePerSlot(t)
    requires IsAddressable(ev.kind) ==> DClean(ev)
    ensures AddressesClean(Insert(t, ev).0) && OnePerSlot(Insert(t, ev).0)
  {
    hide Existing, IndexRows, DClean, DKey, IsAddressable, IsReplaceable;
    ExistingIsSlot(t, ev);
  }

  /** The index stays exact when a channel is purged, and what goes is exactly what carries the
      channel's id as an `h` or a `d` value. */
  lemma PurgeExact(t: Tables, g: string)
    requires IndexExact(t)
    ensures IndexExact(Purge(t, g))
    ensures forall id :: id in Purge(t, g).events <==>
              id in t.events && g !in TagValues(t.events[id].tags, "h") && g !in TagValues(t.events[id].tags, "d")
    ensures forall id :: id in Purge(t, g).events ==> Purge(t, g).events[id] == t.events[id]
  {
    forall id
      ensures id in Doomed(t.rows, g) <==>
                id in t.events && (g in TagValues(t.events[id].tags, "h") || g in TagValues(t.events[id].tags, "d"))
    {
      RowsOfStored(t, id, "h", g);
      RowsOfStored(t, id, "d", g);
      if TagRow(id, "h", g) in t.rows || TagRow(id, "d", g) in t.rows { assert id in Doomed(t.rows, g); }
      if id in Doomed(t.rows, g) {
        var r :| r in t.rows && (r.name == "h" || r.name == "d") && r.value == g && r.eventId == id;
        assert r == TagRow(id, "h", g) || r == TagRow(id, "d", g);
      }
    }
  }

  lemma PurgeKeepsSlots(t: Tables, g: string)
    requires IndexExact(t) && AddressesClean(t) && OnePerSlot(t)
    ensures AddressesClean(Purge(t, g)) && OnePerSlot(Purge(t, g))
  {
    PurgeExact(t, g);
  }

  /** `event_in_group` holds iff a stored event carries that `h`. */
  lemma EventInGroupIff(t: Tables, id: string, g: string)
    requires IndexExact(t)
    ensures EventInGroup(t, id, g) <==> id in t.events && g in TagValues(t.events[id].tags, "h")
  {
    RowsOfStored(t, id, "h", g);
  }

  // ---- convergence ----

  /** The id determines the event. */
  ghost predicate UniqueIds(s: set<Event>) {
    forall a, b :: a in s && b in s && a.id == b.id ==> a == b
  }

  /** Everything a store fed `s` should end up with: all ordinary events, and of each slot the one
      nothing else supersedes. */
  ghost predicate Wins(s: set<Event>, e: Event) {
    e in s && forall x :: x in s && SameSlot(x, e) ==> !Supersedes(x, e)
  }

  ghost predicate HoldsWinners(t: Tables, s: set<Event>) {
    && (forall id :: id in t.events ==> Wins(s, t.events[id]))
    && (forall e :: Wins(s, e) ==> e.id in t.events && t.events[e.id] == e)
  }

  /** Whatever loses its slot loses it to a winner. */
  lemma {:induction false} LoserHasWinner(s: set<Event>, e: Event) returns (w: Event)
    requires UniqueIds(s) && e in s && !Wins(s, e)
    ensures Wins(s, w) && SameSlot(w, e) && Supersedes(w, e)
    decreases set x | x in s && SameSlot(x, e) && Supersedes(x, e)
  {
    w :| w in s && SameSlot(w, e) && Supersedes(w, e);
    if !Wins(s, w) {
      var above := set x | x in s && SameSlot(x, w) && Supersedes(x, w);
      forall x | x in above ensures SameSlot(x, e) && Supersedes(x, e) { SupersedesTransitive(x, w, e); }
      StrLessIrreflexive(w.id);
      assert w !in above;
      var v := LoserHasWinner(s, w);
      SupersedesTransitive(v, w, e);
      w := v;
    }
  }

  /** A stored event in the incoming one's slot that supersedes it is what makes it stale. */
  lemma StaleIff(t: Tables, s: set<Event>, ev: Event)
    requires IndexExact(t) && AddressesClean(t) && HoldsWinners(t, s)
    requires UniqueIds(s + {ev}) && ev.id !in t.events
    ensures Insert(t, ev).1 == Stale <==> !Wins(s + {ev}, ev)
  {
    ExistingIsSlot(t, ev);
    StrLessIrreflexive(ev.id);
    if Insert(t, ev).1 == Stale {
      var id :| id in Existing(t, ev) && id in t.events && Supersedes(t.events[id], ev);
      assert Wins(s, t.events[id]);
    } else if x :| x in s + {ev} && SameSlot(x, ev) && Supersedes(x, ev) {
      var w := x;
      if !Wins(s, x) {
        w := LoserHasWinner(s, x);
        SupersedesTransitive(w, x, ev);
      }
    }
  }

  lemma StaleChangesNoWinner(t: Tables, s: set<Event>, ev: Event, e: Event)
    requires IndexExact(t) && AddressesClean(t) && HoldsWinners(t, s)
    requires UniqueIds(s + {ev}) && ev.id !in t.events && Insert(t, ev).1 == Stale
    ensures Wins(s + {ev}, e) <==> Wins(s, e)
  {
    hide Insert, HoldsWinners, IndexExact, AddressesClean, UniqueIds, Supersedes, DKey;
    StaleIff(t, s, ev);
    if Wins(s, e) && SameSlot(ev, e) && Supersedes(ev, e) {
      var o :| o in s + {ev} && SameSlot(o, ev) && Supersedes(o, ev);
      SupersedesIrreflexive(ev);
      assert o in s && SameSlot(o, e);
      SupersedesTransitive(o, ev, e);
    }
  }

  lemma StoringUnseatsItsSlot(t: Tables, s: set<Event>, ev: Event, e: Event)
    requires IndexExact(t) && AddressesClean(t) && HoldsWinners(t, s)
    requires UniqueIds(s + {ev}) && ev.id !in t.events && Insert(t, ev).1 == Stored && e != ev
    ensures Wins(s + {ev}, e) <==> Wins(s, e) && !SameSlot(e, ev)
  {
    ExistingIsSlot(t, ev);
    if Wins(s, e) && SameSlot(e, ev) {
      assert e.id in Existing(t, ev) && t.events[e.id] == e;
      SupersedesTotal(e, ev);
    }
  }

  lemma InsertAdvancesWinners(t: Tables, s: set<Event>, ev: Event)
    requires IndexExact(t) && AddressesClean(t) && HoldsWinners(t, s) && UniqueIds(s + {ev})
    ensures HoldsWinners(Insert(t, ev).0, s + {ev})
  {
    if ev.id in t.events {
      assert t.events[ev.id] == ev;
      assert s + {ev} == s;
    } else {
      StaleIff(t, s, ev);
      if Insert(t, ev).1 == Stale {
        forall e ensures Wins(s + {ev}, e) <==> Wins(s, e) { StaleChangesNoWinner(t, s, ev, e); }
      } else {
        forall e | e != ev ensures Wins(s + {ev}, e) <==> Wins(s, e) && !SameSlot(e, ev) {
          StoringUnseatsItsSlot(t, s, ev, e);
        }
        ExistingIsSlot(t, ev);
        StoredHoldsWinners(t, s, ev);
      }
    }
  }

  lemma StoredHoldsWinners(t: Tables, s: set<Event>, ev: Event)
    requires IndexExact(t) && HoldsWinners(t, s) && ev.id !in t.events && Insert(t, ev).1 == Stored
    requires Wins(s + {ev}, ev)
    requires forall id :: id in Existing(t, ev) <==> id in t.events && SameSlot(t.events[id], ev)
    requires forall e :: e != ev ==> (Wins(s + {ev}, e) <==> Wins(s, e) && !SameSlot(e, ev))
    ensures HoldsWinners(Insert(t, ev).0, s + {ev})
  {
    var u := Insert(t, ev).0;
    forall id | id in u.events ensures Wins(s + {ev}, u.events[id]) {
      if id != ev.id { assert u.events[id] == t.events[id] && t.events[id].id == id; }
    }
    forall e | Wins(s + {ev}, e) ensures e.id in u.events && u.events[e.id] == e {
      if e != ev { assert e.id != ev.id; }
    }
  }

  ghost function Seen(evs: seq<Event>): set<Event> {
    set e | e in evs
  }

  /** Feeding a list of events to an empty store leaves exactly the winners among them. */
  lemma {:induction false} StoreHoldsWinners(evs: seq<Event>)
    requires UniqueIds(Seen(evs))
    requires forall e :: e in evs && IsAddressable(e.kind) ==> DClean(e)
    ensures HoldsWinners(InsertAll(EMPTY, evs), Seen(evs))
    ensures IndexExact(InsertAll(EMPTY, evs)) && AddressesClean(InsertAll(EMPTY, evs))
        && OnePerSlot(InsertAll(EMPTY, evs))
    decreases |evs|
  {
    if evs != [] {
      var front, last := evs[..|evs| - 1], evs[|evs| - 1];
      assert evs == front + [last];
      assert Seen(evs) == Seen(front) + {last};
      StoreHoldsWinners(front);
      var t := InsertAll(EMPTY, front);
      InsertAdvancesWinners(t, Seen(front), last);
      InsertKeepsIndex(t, last);
      InsertKeepsSlots(t, last);
    }
  }

  // ---- the same in plain terms ----

  /** The address of an event: the value of its first `d` tag, or none. */
  ghost predicate Addressed(e: Event, d: string) {
    FirstNamed(e.tags, "d", d) || (d == "" && forall v :: !FirstNamed(e.tags, "d", v))
  }

  /** NIP-01, "Kinds": one profile, contact list and so on per author; one event per author and address;
      all others for themselves. */
  ghost predicate Rivals(a: Event, b: Event) {
    && a.pubkey == b.pubkey && a.kind == b.kind
    && (|| a.kind == 0 || a.kind == 3 || 10000 <= a.kind < 20000
        || (30000 <= a.kind < 40000 && exists d :: Addressed(a, d) && Addressed(b, d)))
  }

  lemma AddressedIff(e: Event, d: string)
    ensures Addressed(e, d) <==> DKey(e) == d
  {
    FirstTagIff(e.tags, "d", d);
    if FirstTag(e.tags, "d").Some? { FirstTagIff(e.tags, "d", FirstTag(e.tags, "d").value); }
    forall v ensures FirstNamed(e.tags, "d", v) <==> FirstTag(e.tags, "d") == Some(v) { FirstTagIff(e.tags, "d", v); }
  }

  lemma RivalsIff(a: Event, b: Event)
    ensures Rivals(a, b) <==> SameSlot(a, b)
  {
    hide DKey, Addressed;
    forall d ensures Addressed(a, d) <==> DKey(a) == d { AddressedIff(a, d); }
    forall d ensures Addressed(b, d) <==> DKey(b) == d { AddressedIff(b, d); }
    assert Addressed(a, DKey(a));
  }

  /** Of a list of events a store keeps exactly those that no rival beats: none newer, and none of the
      same time with a lower id. */
  lemma StoredIff(evs: seq<Event>, e: Event)
    requires UniqueIds(Seen(evs)) && e in evs
    requires forall x :: x in evs && IsAddressable(x.kind) ==> DClean(x)
    ensures e.id in InsertAll(EMPTY, evs).events && InsertAll(EMPTY, evs).events[e.id] == e <==>
              forall x :: x in evs && Rivals(x, e) ==>
                x.createdAt < e.createdAt || (x.createdAt == e.createdAt && !StrLess(x.id, e.id))
  {
    hide Rivals, SameSlot;
    StoreHoldsWinners(evs);
    forall x ensures Rivals(x, e) <==> SameSlot(x, e) { RivalsIff(x, e); }
    assert e in Seen(evs) && forall x :: x in Seen(evs) <==> x in evs;
  }

  /** What the answer to an insertion means, and that a refusal changes nothing. */
  lemma InsertAnswers(t: Tables, ev: Event)
    ensures Insert(t, ev).1 == Duplicate <==> ev.id in t.events
    ensures Insert(t, ev).1 == Stored <==> ev.id !in t.events && ev.id in Insert(t, ev).0.events
    ensures Insert(t, ev).1 != Stored ==> Insert(t, ev).0 == t
    ensures Insert(t, ev).1 == Stored ==> Insert(t, ev).0.events[ev.id] == ev
  {
  }

  /** Convergence: the same events in any order and with any repetition give the same store. */
  lemma StoresConverge(one: seq<Event>, two: seq<Event>)
    requires Seen(one) == Seen(two) && UniqueIds(Seen(one))
    requires forall e :: e in one && IsAddressable(e.kind) ==> DClean(e)
    ensures InsertAll(EMPTY, one).events == InsertAll(EMPTY, two).events
    ensures InsertAll(EMPTY, one).rows == InsertAll(EMPTY, two).rows
  {
    forall e | e in two ensures e in one { assert e in Seen(one); }
    StoreHoldsWinners(one);
    StoreHoldsWinners(two);
    var t, u := InsertAll(EMPTY, one), InsertAll(EMPTY, two);
    assert t.events == u.events;
    assert forall r :: r in t.rows <==> r in u.rows;
  }
}
