/** Runs of the client while it is connected to one server: channels selected, events arriving, marks
    set, timers going off and flushes, in any order. */
module ClientRuns {
  import opened Nostr
  import opened Convergence
  import opened Cache

  datatype Act =
    | Selects(id: string)
    | Arrives(id: string, incoming: seq<Event>)
    | Looks(id: string, force: bool, visible: bool)
    | Timer(timer: nat)
    | Hides

  ghost function Next(b: Box, server: string, a: Act): Box {
    match a
    case Selects(id) => Select(b, server, id)
    case Arrives(id, incoming) => Ingest(b, server, id, incoming)
    case Looks(id, force, visible) => MarkRead(b, id, force, visible)
    case Timer(t) => b.(writes := Fire(b.writes, t))
    case Hides => b.(writes := Flush(b.writes))
  }

  ghost function Live(b: Box, server: string, acts: seq<Act>): Box
    decreases |acts|
  {
    if acts == [] then b else Next(Live(b, server, acts[..|acts| - 1]), server, acts[|acts| - 1])
  }

  /** A list as the app keeps it: sorted, short, of known events. */
  ghost predicate Proper(list: seq<Event>, known: set<Event>) {
    IsTimeline(list) && Seen(list) <= known
  }

  /** Just connected: nothing in memory, nothing of this server pending, proper lists on disk. */
  ghost predicate Fresh(b: Box, server: string, known: set<Event>) {
    && b.messages == map[] && b.marks == b.storedMarks && Paired(b.writes)
    && (forall id :: CacheKey(server, id) !in b.writes.pending)
    && (forall id :: var list := ListIn(b.writes.storage, CacheKey(server, id));
                     Proper(list, known) && |list| <= MAX_MESSAGES)
  }

  ghost predicate ArrivalsKnown(acts: seq<Act>, known: set<Event>) {
    forall a :: a in acts && a.Arrives? ==> Seen(a.incoming) <= known
  }

  /** Every list in memory is proper, and what a reader would find stored is its newest slice. */
  ghost predicate Kept(b: Box, server: string, known: set<Event>) {
    && b.marks == b.storedMarks && Paired(b.writes)
    && (forall id :: KeptList(b, server, known, id))
  }

  ghost predicate KeptList(b: Box, server: string, known: set<Event>, id: string) {
    var stored := ListIn(Overlay(b.writes), CacheKey(server, id));
    if id in b.messages then Proper(b.messages[id], known) && stored == Newest(b.messages[id])
    else Proper(stored, known) && |stored| <= MAX_MESSAGES
         && CacheKey(server, id) !in b.writes.pending
  }

  lemma KeysDiffer(server: string, x: string, y: string)
    requires CacheKey(server, x) == CacheKey(server, y)
    ensures x == y
  {
    var n := |"msgs/" + (server + "/")|;
    assert CacheKey(server, x) == ("msgs/" + (server + "/")) + x
        && CacheKey(server, y) == ("msgs/" + (server + "/")) + y;
    assert CacheKey(server, x)[n..] == x && CacheKey(server, y)[n..] == y;
  }

  lemma FreshIsKept(b: Box, server: string, known: set<Event>)
    requires Fresh(b, server, known)
    ensures Kept(b, server, known)
  {
    forall id ensures KeptList(b, server, known, id) {
      assert CacheKey(server, id) !in b.writes.pending;
    }
  }

  lemma SelectKeeps(b: Box, server: string, known: set<Event>, id: string)
    requires Kept(b, server, known)
    ensures Kept(Select(b, server, id), server, known)
  {
    var u := Select(b, server, id);
    forall x ensures KeptList(u, server, known, x) { assert KeptList(b, server, known, x); }
  }

  /** Merging known events into a proper list gives a proper list. */
  lemma MergeKeepsProper(list: seq<Event>, incoming: seq<Event>, known: set<Event>)
    requires UniqueIds(known) && Proper(list, known) && Seen(incoming) <= known
    ensures OneEventPerId(list + incoming) && Proper(Merged(list, incoming), known)
    ensures forall e :: e in Merged(list, incoming) <==> e in list || e in incoming
  {
    hide Merged;
    assert Seen(list + incoming) <= known by {
      forall e | e in list + incoming ensures e in known { assert e in Seen(list) || e in Seen(incoming); }
    }
    MergedIsTimeline(list, incoming);
    forall e ensures e in Merged(list, incoming) <==> e in list || e in incoming { MergedHolds(list, incoming, e); }
    forall e | e in Merged(list, incoming) ensures e in known { assert e in Seen(list) || e in Seen(incoming); }
  }

  lemma ProperList(b: Box, server: string, known: set<Event>, id: string)
    requires Kept(b, server, known)
    ensures Proper(ListIn(b.messages, id), known)
  {
    assert KeptList(b, server, known, id);
  }

  lemma IngestKeeps(b: Box, server: string, known: set<Event>, id: string, incoming: seq<Event>)
    requires UniqueIds(known) && Kept(b, server, known) && Seen(incoming) <= known
    ensures Kept(Ingest(b, server, id, incoming), server, known)
  {
    hide Merged, Newest, Proper, Overlay;
    var u := Ingest(b, server, id, incoming);
    if u != b {
      var merged := Merged(ListIn(b.messages, id), incoming);
      ProperList(b, server, known, id);
      MergeKeepsProper(ListIn(b.messages, id), incoming, known);
      SaveKeepsPairing(b.writes, CacheKey(server, id), merged);
      forall x ensures KeptList(u, server, known, x) {
        assert KeptList(b, server, known, x);
        if CacheKey(server, x) == CacheKey(server, id) { KeysDiffer(server, x, id); }
      }
    }
  }

  lemma WritesKeep(b: Box, w: Writes, server: string, known: set<Event>)
    requires Kept(b, server, known) && Paired(w) && Overlay(w) == Overlay(b.writes)
    requires forall key :: key in w.pending ==> key in b.writes.pending
    ensures Kept(b.(writes := w), server, known)
  {
    hide Overlay, Newest, Proper;
    forall id ensures KeptList(b.(writes := w), server, known, id) { assert KeptList(b, server, known, id); }
  }

  lemma MarkKeeps(b: Box, server: string, known: set<Event>, id: string, force: bool, visible: bool)
    requires Kept(b, server, known)
    ensures Kept(MarkRead(b, id, force, visible), server, known)
  {
    var u := MarkRead(b, id, force, visible);
    forall x ensures KeptList(u, server, known, x) { assert KeptList(b, server, known, x); }
  }

  lemma NextKeeps(b: Box, server: string, known: set<Event>, a: Act)
    requires UniqueIds(known) && Kept(b, server, known) && (a.Arrives? ==> Seen(a.incoming) <= known)
    ensures Kept(Next(b, server, a), server, known)
  {
    hide Kept, Fire, Flush, Ingest;
    match a
    case Selects(id) => SelectKeeps(b, server, known, id);
    case Arrives(id, incoming) => IngestKeeps(b, server, known, id, incoming);
    case Looks(id, force, visible) => MarkKeeps(b, server, known, id, force, visible);
    case Timer(t) => TimerKeeps(b, server, known, t);
    case Hides => HidingKeeps(b, server, known);
  }

  lemma TimerKeeps(b: Box, server: string, known: set<Event>, t: nat)
    requires Kept(b, server, known)
    ensures Kept(b.(writes := Fire(b.writes, t)), server, known)
  {
    FireKeepsPairing(b.writes, t);
    WritesKeep(b, Fire(b.writes, t), server, known);
  }

  lemma HidingKeeps(b: Box, server: string, known: set<Event>)
    requires Kept(b, server, known)
    ensures Kept(b.(writes := Flush(b.writes)), server, known)
  {
    FlushKeepsPairing(b.writes);
    WritesKeep(b, Flush(b.writes), server, known);
  }

  /** Over any run every list in memory is sorted and free of duplicates, and what is stored for it,
      or about to be, is its newest slice. */
  lemma {:induction false} ClientKeepsLists(b: Box, server: string, acts: seq<Act>, known: set<Event>)
    requires UniqueIds(known) && Fresh(b, server, known) && ArrivalsKnown(acts, known)
    ensures Kept(Live(b, server, acts), server, known)
    decreases |acts|
  {
    hide Fresh, Kept, Next;
    if acts == [] {
      FreshIsKept(b, server, known);
    } else {
      var front, last := acts[..|acts| - 1], acts[|acts| - 1];
      assert last in acts && forall a :: a in front ==> a in acts;
      ClientKeepsLists(b, server, front, known);
      NextKeeps(Live(b, server, front), server, known, last);
    }
  }

  /** Hence after a flush the disk holds the newest slice of every list in memory. */
  lemma FlushedListsAreStored(b: Box, server: string, acts: seq<Act>, known: set<Event>, id: string)
    requires UniqueIds(known) && Fresh(b, server, known) && ArrivalsKnown(acts, known)
    requires id in Live(b, server, acts).messages
    ensures var u := Live(b, server, acts);
      ListIn(Flush(u.writes).storage, CacheKey(server, id)) == Newest(u.messages[id])
  {
    hide Live, Newest, Proper;
    ClientKeepsLists(b, server, acts, known);
    FlushKeepsPairing(Live(b, server, acts).writes);
    assert KeptList(Live(b, server, acts), server, known, id);
  }

  // ---- what a list holds ----

  /** Everything that arrived for a channel, in order. */
  function Arrived(acts: seq<Act>, id: string): seq<Event>
    decreases |acts|
  {
    if acts == [] then []
    else
      var last := acts[|acts| - 1];
      Arrived(acts[..|acts| - 1], id) + if last.Arrives? && last.id == id then last.incoming else []
  }

  /** Events arrive only over subscriptions, and those are opened on selecting the channel. */
  ghost predicate SelectedFirst(b: Box, server: string, acts: seq<Act>, id: string) {
    forall k :: 0 <= k < |acts| && acts[k].Arrives? && acts[k].id == id ==> id in Live(b, server, acts[..k]).messages
  }

  lemma SelectedFirstBefore(b: Box, server: string, acts: seq<Act>, id: string)
    requires acts != [] && SelectedFirst(b, server, acts, id)
    ensures SelectedFirst(b, server, acts[..|acts| - 1], id)
  {
    var front := acts[..|acts| - 1];
    forall k | 0 <= k < |front| && front[k].Arrives? && front[k].id == id
      ensures id in Live(b, server, front[..k]).messages
    {
      assert front[..k] == acts[..k];
    }
  }

  /** What a reader would find stored for a channel never selected is what was stored at first. */
  lemma {:induction false} UnselectedIsUntouched(b: Box, server: string, acts: seq<Act>, known: set<Event>, id: string)
    requires UniqueIds(known) && Fresh(b, server, known) && ArrivalsKnown(acts, known)
    requires SelectedFirst(b, server, acts, id) && id !in Live(b, server, acts).messages
    ensures ListIn(Live(b, server, acts).writes.storage, CacheKey(server, id))
        == ListIn(b.writes.storage, CacheKey(server, id))
    decreases |acts|
  {
    if acts != [] {
      var front, last := acts[..|acts| - 1], acts[|acts| - 1];
      assert forall a :: a in front ==> a in acts;
      SelectedFirstBefore(b, server, acts, id);
      UnselectedIsUntouched(b, server, front, known, id);
      ClientKeepsLists(b, server, front, known);
      UntouchedByNext(Live(b, server, front), server, known, last, id);
    }
  }

  lemma UntouchedByNext(b: Box, server: string, known: set<Event>, a: Act, id: string)
    requires Kept(b, server, known) && id !in b.messages && id !in Next(b, server, a).messages
    ensures ListIn(Next(b, server, a).writes.storage, CacheKey(server, id))
        == ListIn(b.writes.storage, CacheKey(server, id))
  {
    hide Merged;
    assert KeptList(b, server, known, id);
  }

  lemma {:induction false} StaysSelected(b: Box, server: string, acts: seq<Act>, k: nat, id: string)
    requires k <= |acts| && id in Live(b, server, acts[..k]).messages
    ensures id in Live(b, server, acts).messages
    decreases |acts|
  {
    if k == |acts| {
      assert acts[..k] == acts;
    } else {
      hide Merged;
      var front := acts[..|acts| - 1];
      assert front[..k] == acts[..k];
      StaysSelected(b, server, front, k, id);
    }
  }

  lemma {:induction false} NothingArrived(b: Box, server: string, acts: seq<Act>, id: string)
    requires SelectedFirst(b, server, acts, id) && id !in Live(b, server, acts).messages
    ensures Arrived(acts, id) == []
    decreases |acts|
  {
    if acts != [] {
      var n := |acts| - 1;
      SelectedFirstBefore(b, server, acts, id);
      if id in Live(b, server, acts[..n]).messages { StaysSelected(b, server, acts, n, id); }
      NothingArrived(b, server, acts[..n], id);
    }
  }

  lemma ListGrowsBy(b: Box, server: string, known: set<Event>, a: Act, id: string)
    requires UniqueIds(known) && Kept(b, server, known) && id in b.messages
    requires a.Arrives? ==> Seen(a.incoming) <= known
    ensures id in Next(b, server, a).messages
    ensures forall e :: e in Next(b, server, a).messages[id] <==>
              e in b.messages[id] || (a.Arrives? && a.id == id && e in a.incoming)
  {
    hide Merged;
    ProperList(b, server, known, id);
    if a.Arrives? && a.id == id {
      MergeKeepsProper(b.messages[id], a.incoming, known);
      IngestMerges(b, server, id, a.incoming);
    }
  }

  /** A list in memory holds what was stored for its channel and what arrived for it, and no more. */
  lemma {:induction false} ListHoldsWhatArrived(b: Box, server: string, acts: seq<Act>, known: set<Event>, id: string)
    requires UniqueIds(known) && Fresh(b, server, known) && ArrivalsKnown(acts, known)
    requires SelectedFirst(b, server, acts, id) && id in Live(b, server, acts).messages
    ensures forall e :: e in Live(b, server, acts).messages[id] <==>
              e in ListIn(b.writes.storage, CacheKey(server, id)) || e in Arrived(acts, id)
    decreases |acts|
  {
    if acts != [] {
      var front, last := acts[..|acts| - 1], acts[|acts| - 1];
      assert last in acts && forall a :: a in front ==> a in acts;
      SelectedFirstBefore(b, server, acts, id);
      ClientKeepsLists(b, server, front, known);
      var s := Live(b, server, front);
      if id in s.messages {
        ListHoldsWhatArrived(b, server, front, known, id);
        ListGrowsBy(s, server, known, last, id);
      } else {
        UnselectedIsUntouched(b, server, front, known, id);
        NothingArrived(b, server, front, id);
      }
    }
  }
}
