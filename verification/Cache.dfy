/** The client's message cache (app/ui/src/store.js and the message path of app/ui/src/main.js). */
module Cache {
  import opened Text
  import opened Ordering
  import opened Nostr
  import opened Tables
  import opened Convergence
  import opened Querying

  const MAX_MESSAGES := 300

  // ---- merging ----

  /** A map filled in order: of events with one id, the last stays. */
  function ById(list: seq<Event>): map<string, Event>
    decreases |list|
  {
    if list == [] then map[] else ById(list[..|list| - 1])[list[|list| - 1].id := list[|list| - 1]]
  }

  /** What `sort` compares: time, then id. */
  function TimeKey(e: Event): Key {
    Key(e.createdAt, e.id)
  }

  function TimeKeys(m: map<string, Event>): set<Key> {
    set id | id in m :: Key(m[id].createdAt, id)
  }

  ghost function Merged(cached: seq<Event>, incoming: seq<Event>): seq<Event> {
    var m := ById(cached + incoming);
    assert forall k :: k in SortedKeys(TimeKeys(m)) ==> k in TimeKeys(m);
    EventsAt(m, SortedKeys(TimeKeys(m)))
  }

  /** Strictly sorted by (created_at, id). */
  ghost predicate IsTimeline(list: seq<Event>) {
    forall i, j :: 0 <= i < j < |list| ==> KeyLess(TimeKey(list[i]), TimeKey(list[j]))
  }

  /** Sorted means: earlier first, of one second the lower id first, and nothing twice. */
  lemma TimelineIff(list: seq<Event>)
    ensures IsTimeline(list) <==>
              forall i, j :: 0 <= i < j < |list| ==>
                || list[i].createdAt < list[j].createdAt
                || (list[i].createdAt == list[j].createdAt && StrLess(list[i].id, list[j].id))
  {
    forall a: Event, b: Event
      ensures KeyLess(TimeKey(a), TimeKey(b)) <==>
                a.createdAt < b.createdAt || (a.createdAt == b.createdAt && StrLess(a.id, b.id))
    {
    }
  }

  lemma {:induction false} ByIdKeys(list: seq<Event>, id: string)
    ensures id in ById(list) <==> exists e :: e in list && e.id == id
    ensures id in ById(list) ==> ById(list)[id] in list && ById(list)[id].id == id
    decreases |list|
  {
    if list != [] {
      var front, last := list[..|list| - 1], list[|list| - 1];
      ByIdKeys(front, id);
      assert last in list;
      if e :| e in list && e.id == id { assert e == last || e in front; }
      if e :| e in front && e.id == id { assert e in list; }
    }
  }

  /** Output of a merge: a timeline of the last event seen under each id. */
  lemma MergedIsTimeline(cached: seq<Event>, incoming: seq<Event>)
    ensures IsTimeline(Merged(cached, incoming))
    ensures forall e :: e in Merged(cached, incoming) <==>
        e.id in ById(cached + incoming) && ById(cached + incoming)[e.id] == e
  {
    var m := ById(cached + incoming);
    var ks, out := SortedKeys(TimeKeys(m)), Merged(cached, incoming);
    assert forall k :: k in ks ==> k in TimeKeys(m);
    EventsAtIndex(m, ks);
    forall i | 0 <= i < |ks| ensures TimeKey(out[i]) == ks[i] && out[i].id in m && m[out[i].id] == out[i] {
      assert ks[i] in TimeKeys(m);
      ByIdKeys(cached + incoming, ks[i].s);
    }
    forall e: Event | e.id in m && m[e.id] == e ensures e in out {
      assert TimeKey(e) in TimeKeys(m);
      assert TimeKey(e) in ks;
      var i :| 0 <= i < |ks| && ks[i] == TimeKey(e);
      assert out[i] == e;
    }
  }

  /** The id determines the event, throughout these lists. */
  ghost predicate OneEventPerId(list: seq<Event>) {
    UniqueIds(Seen(list))
  }

  /** Where ids determine events, merging is union. */
  lemma MergedHolds(a: seq<Event>, b: seq<Event>, e: Event)
    requires OneEventPerId(a + b)
    ensures e in Merged(a, b) <==> e in a || e in b
  {
    MergedIsTimeline(a, b);
    ByIdKeys(a + b, e.id);
    if e in a || e in b {
      assert e in a + b;
      assert e in Seen(a + b) && ById(a + b)[e.id] in Seen(a + b);
    }
  }

  /** A timeline is determined by the events it holds. */
  lemma TimelineUnique(p: seq<Event>, q: seq<Event>)
    requires IsTimeline(p) && IsTimeline(q) && forall e :: e in p <==> e in q
    ensures p == q
  {
    var pk, qk := seq(|p|, i requires 0 <= i < |p| => TimeKey(p[i])),
                  seq(|q|, i requires 0 <= i < |q| => TimeKey(q[i]));
    forall k ensures k in pk <==> k in qk {
      if k in pk {
        var i :| 0 <= i < |p| && pk[i] == k;
        assert p[i] in q;
        var j :| 0 <= j < |q| && q[j] == p[i];
        assert qk[j] == k;
      }
      if k in qk {
        var i :| 0 <= i < |q| && qk[i] == k;
        assert q[i] in p;
        var j :| 0 <= j < |p| && p[j] == q[i];
        assert pk[j] == k;
      }
    }
    SortedUnique(pk, qk);
    assert |p| == |pk| && |q| == |qk|;
    forall i | 0 <= i < |p| ensures p[i] == q[i] {
      assert p[i] in q;
      var j :| 0 <= j < |q| && q[j] == p[i];
      assert qk[j] == pk[i] == qk[i];
      if j < i { KeyLessAsymmetric(qk[j], qk[i]); }
      if i < j { KeyLessAsymmetric(qk[i], qk[j]); }
    }
  }

  lemma MergeIdempotent(a: seq<Event>)
    requires IsTimeline(a) && OneEventPerId(a + a)
    ensures Merged(a, a) == a && Merged(a, []) == a && Merged([], a) == a
  {
    MergedIsTimeline(a, a);
    MergedIsTimeline(a, []);
    MergedIsTimeline([], a);
    assert Seen(a + []) == Seen(a + a) && Seen([] + a) == Seen(a + a);
    forall e ensures e in Merged(a, a) <==> e in a { MergedHolds(a, a, e); }
    forall e ensures e in Merged(a, []) <==> e in a { MergedHolds(a, [], e); }
    forall e ensures e in Merged([], a) <==> e in a { MergedHolds([], a, e); }
    TimelineUnique(Merged(a, a), a);
    TimelineUnique(Merged(a, []), a);
    TimelineUnique(Merged([], a), a);
  }

  lemma MergeCommutes(a: seq<Event>, b: seq<Event>)
    requires OneEventPerId(a + b)
    ensures Merged(a, b) == Merged(b, a)
  {
    assert Seen(a + b) == Seen(b + a);
    MergedIsTimeline(a, b);
    MergedIsTimeline(b, a);
    forall e ensures e in Merged(a, b) <==> e in Merged(b, a) {
      MergedHolds(a, b, e);
      MergedHolds(b, a, e);
    }
    TimelineUnique(Merged(a, b), Merged(b, a));
  }

  lemma SubsetOneEventPerId(small: seq<Event>, big: seq<Event>)
    requires OneEventPerId(big) && forall e :: e in small ==> e in big
    ensures OneEventPerId(small)
  {
    assert Seen(small) <= Seen(big);
  }

  lemma MergeAssociates(a: seq<Event>, b: seq<Event>, c: seq<Event>)
    requires OneEventPerId(a + b + c)
    ensures Merged(Merged(a, b), c) == Merged(a, Merged(b, c))
  {
    SubsetOneEventPerId(a + b, a + b + c);
    SubsetOneEventPerId(b + c, a + b + c);
    var ab, bc := Merged(a, b), Merged(b, c);
    forall e ensures e in ab <==> e in a || e in b { MergedHolds(a, b, e); }
    forall e ensures e in bc <==> e in b || e in c { MergedHolds(b, c, e); }
    SubsetOneEventPerId(ab + c, a + b + c);
    SubsetOneEventPerId(a + bc, a + b + c);
    forall e ensures e in Merged(ab, c) <==> e in Merged(a, bc) {
      MergedHolds(ab, c, e);
      MergedHolds(a, bc, e);
    }
    MergedIsTimeline(ab, c);
    MergedIsTimeline(a, bc);
    TimelineUnique(Merged(ab, c), Merged(a, bc));
  }

  lemma LastIsNew(p: seq<Event>)
    requires IsTimeline(p) && p != []
    ensures p[|p| - 1] !in p[..|p| - 1]
  {
    forall i | 0 <= i < |p| - 1 ensures p[i] != p[|p| - 1] {
      KeyLessAsymmetric(TimeKey(p[i]), TimeKey(p[|p| - 1]));
    }
  }

  lemma {:induction false} TimelineSize(p: seq<Event>)
    requires IsTimeline(p)
    ensures |Seen(p)| == |p|
    decreases |p|
  {
    if p != [] {
      var front, last := p[..|p| - 1], p[|p| - 1];
      TimelineSize(front);
      LastIsNew(p);
      assert Seen(p) == Seen(front) + {last};
    }
  }

  /** `ingest`'s length test: for a timeline, equal length after merging means nothing new. */
  lemma LengthTestExact(before: seq<Event>, incoming: seq<Event>)
    requires IsTimeline(before) && OneEventPerId(before + incoming)
    ensures |Merged(before, incoming)| == |before| <==> Merged(before, incoming) == before
    ensures Merged(before, incoming) == before <==> forall e :: e in incoming ==> e in before
  {
    var merged := Merged(before, incoming);
    MergedIsTimeline(before, incoming);
    forall e ensures e in merged <==> e in before || e in incoming { MergedHolds(before, incoming, e); }
    TimelineSize(before);
    TimelineSize(merged);
    assert Seen(before) <= Seen(merged);
    if |merged| == |before| {
      SameSizeSubset(Seen(before), Seen(merged));
      forall e ensures e in merged <==> e in before { assert e in Seen(merged) <==> e in Seen(before); }
      TimelineUnique(merged, before);
    }
    if forall e :: e in incoming ==> e in before { TimelineUnique(merged, before); }
  }

  lemma SameSizeSubset<T>(a: set<T>, b: set<T>)
    requires a <= b && |a| == |b|
    ensures a == b
  {
    assert |b - a| == |b| - |a|;
  }

  /** The two loops filling the map, then the sort. */
  method MergeMessages(cached: seq<Event>, incoming: seq<Event>) returns (merged: seq<Event>)
    ensures merged == Merged(cached, incoming)
  {
    var byId: map<string, Event> := map[];
    for i := 0 to |cached|
      invariant byId == ById(cached[..i])
    {
      assert cached[..i + 1][..i] == cached[..i];
      byId := byId[cached[i].id := cached[i]];
    }
    assert cached[..|cached|] == cached;
    assert cached + incoming[..0] == cached;
    for i := 0 to |incoming|
      invariant byId == ById(cached + incoming[..i])
    {
      assert (cached + incoming[..i + 1])[..|cached| + i] == cached + incoming[..i];
      byId := byId[incoming[i].id := incoming[i]];
    }
    assert incoming[..|incoming|] == incoming;
    var keys := set id | id in byId :: Key(byId[id].createdAt, id);
    assert keys == TimeKeys(byId);
    var ks := SortKeys(keys);
    assert forall k :: k in ks ==> k in keys;
    merged := Values(byId, ks);
  }

  method Values(m: map<string, Event>, ks: seq<Key>) returns (list: seq<Event>)
    requires forall k :: k in ks ==> k.s in m
    ensures list == EventsAt(m, ks)
  {
    list := [];
    for i := 0 to |ks|
      invariant list + EventsAt(m, ks[i..]) == EventsAt(m, ks)
    {
      assert ks[i] in ks;
      assert ks[i..][0] == ks[i] && ks[i..][1..] == ks[i + 1..];
      list := list + [m[ks[i].s]];
    }
  }

  // ---- unread ----

  /** Messages newer than the mark and not the reader's own; nobody's own when there is no reader. */
  function CountNew(list: seq<Event>, mark: nat, me: Option<string>): nat {
    if list == [] then 0
    else (if list[0].createdAt > mark && me != Some(list[0].pubkey) then 1 else 0) + CountNew(list[1..], mark, me)
  }

  /** The places in the list that are new to the reader. */
  function NewPlaces(list: seq<Event>, mark: nat, me: Option<string>): set<nat> {
    set i | 0 <= i < |list| && list[i].createdAt > mark && (me.None? || list[i].pubkey != me.value)
  }

  /** The count is the number of others' messages newer than the mark. */
  lemma {:induction false} CountNewCounts(list: seq<Event>, mark: nat, me: Option<string>)
    ensures CountNew(list, mark, me) == |NewPlaces(list, mark, me)|
    decreases |list|
  {
    if list != [] {
      var n := |list| - 1;
      var front, last := list[..n], list[n];
      assert list == front + [last];
      CountNewAppend(front, [last], mark, me);
      assert [last][1..] == [];
      CountNewCounts(front, mark, me);
      var here := if last.createdAt > mark && (me.None? || last.pubkey != me.value) then {n} else {};
      assert NewPlaces(list, mark, me) == NewPlaces(front, mark, me) + here;
    }
  }

  ghost predicate ByTime(list: seq<Event>) {
    forall i, j :: 0 <= i < j < |list| ==> list[i].createdAt <= list[j].createdAt
  }

  lemma TimelineIsByTime(list: seq<Event>)
    requires IsTimeline(list)
    ensures ByTime(list)
  {
  }

  lemma {:induction false} NothingNew(list: seq<Event>, mark: nat, me: Option<string>)
    requires forall e :: e in list ==> e.createdAt <= mark
    ensures CountNew(list, mark, me) == 0
  {
    if list != [] {
      assert list[0] in list;
      NothingNew(list[1..], mark, me);
    }
  }

  lemma {:induction false} CountNewAppend(a: seq<Event>, b: seq<Event>, mark: nat, me: Option<string>)
    ensures CountNew(a + b, mark, me) == CountNew(a, mark, me) + CountNew(b, mark, me)
  {
    if a == [] {
      assert a + b == b;
    } else {
      assert (a + b)[0] == a[0] && (a + b)[1..] == a[1..] + b;
      CountNewAppend(a[1..], b, mark, me);
    }
  }

  lemma CountNewStep(list: seq<Event>, i: nat, mark: nat, me: Option<string>)
    requires i < |list|
    ensures CountNew(list[i..], mark, me)
         == (if list[i].createdAt > mark && me != Some(list[i].pubkey) then 1 else 0)
             + CountNew(list[i + 1..], mark, me)
    ensures CountNew(list[i..], mark, me) <= CountNew(list, mark, me)
  {
    assert list[i..][0] == list[i] && list[i..][1..] == list[i + 1..];
    assert list == list[..i] + list[i..];
    CountNewAppend(list[..i], list[i..], mark, me);
  }

  /** From the first message that is not new backwards, a list in time order has nothing new. */
  lemma OnlyOlderBefore(list: seq<Event>, i: nat, mark: nat, me: Option<string>)
    requires i < |list| && list[i].createdAt <= mark
    ensures CountNew(list[i + 1..], mark, me) <= CountNew(list, mark, me)
    ensures ByTime(list) ==> CountNew(list[i + 1..], mark, me) == CountNew(list, mark, me)
  {
    assert list == list[..i + 1] + list[i + 1..];
    CountNewAppend(list[..i + 1], list[i + 1..], mark, me);
    if ByTime(list) { NothingNew(list[..i + 1], mark, me); }
  }

  /** Backwards with an early exit: on a list in time order it is the plain count of what is new. */
  method UnreadIn(messages: seq<Event>, lastReadAt: nat, me: Option<string>) returns (n: nat)
    ensures ByTime(messages) ==> n == CountNew(messages, lastReadAt, me)
    ensures n <= CountNew(messages, lastReadAt, me)
  {
    hide ByTime;
    n := 0;
    var i := |messages| - 1;
    while i >= 0
      invariant -1 <= i < |messages|
      invariant n == CountNew(messages[i + 1..], lastReadAt, me)
    {
      var ev := messages[i];
      if ev.createdAt <= lastReadAt {
        OnlyOlderBefore(messages, i, lastReadAt, me);
        return;
      }
      CountNewStep(messages, i, lastReadAt, me);
      if me != Some(ev.pubkey) { n := n + 1; }
      i := i - 1;
    }
    assert messages[0..] == messages;
  }

  // ---- debounced writes ----

  datatype Pending = Pending(timer: nat, payload: seq<Event>)

  /** What is on disk, what waits, and the timers the event loop still holds. */
  datatype Writes = Writes(storage: map<string, seq<Event>>, pending: map<string, Pending>,
                           timers: map<nat, (string, seq<Event>)>, next: nat)

  function Newest(messages: seq<Event>): seq<Event> {
    if |messages| <= MAX_MESSAGES then messages else messages[|messages| - MAX_MESSAGES..]
  }

  /** What is kept is the end of the list, 300 long where the list is longer. */
  lemma NewestIs(messages: seq<Event>)
    ensures |messages| <= 300 ==> Newest(messages) == messages
    ensures |messages| > 300 ==> exists older :: messages == older + Newest(messages) && |Newest(messages)| == 300
  {
    if |messages| > 300 { assert messages == messages[..|messages| - 300] + Newest(messages); }
  }

  function Save(w: Writes, key: string, messages: seq<Event>): Writes {
    var live := if key in w.pending then w.timers - {w.pending[key].timer} else w.timers;
    Writes(w.storage, w.pending[key := Pending(w.next, Newest(messages))],
           live[w.next := (key, Newest(messages))], w.next + 1)
  }

  /** A timer goes off; one that was cancelled never does. */
  function Fire(w: Writes, timer: nat): Writes {
    if timer !in w.timers then w
    else
      var (key, payload) := w.timers[timer];
      Writes(w.storage[key := payload], w.pending - {key}, w.timers - {timer}, w.next)
  }

  function Flush(w: Writes): Writes {
    Writes(Overlay(w), map[], map t | t in w.timers && !IsPendingTimer(w, t) :: w.timers[t], w.next)
  }

  predicate IsPendingTimer(w: Writes, t: nat) {
    exists key :: key in w.pending && w.pending[key].timer == t
  }

  /** What a reader would see if everything pending were written now. */
  function Overlay(w: Writes): map<string, seq<Event>> {
    w.storage + map key | key in w.pending :: w.pending[key].payload
  }

  /** Live timers and pending entries are the same thing. */
  ghost predicate Paired(w: Writes) {
    && (forall key :: key in w.pending ==>
          w.pending[key].timer in w.timers && w.timers[w.pending[key].timer] == (key, w.pending[key].payload))
    && (forall t :: t in w.timers ==> t < w.next && w.timers[t].0 in w.pending && w.pending[w.timers[t].0].timer == t)
  }

  datatype WriteOp = SaveOp(key: string, messages: seq<Event>) | FireOp(timer: nat) | FlushOp

  function Do(w: Writes, op: WriteOp): Writes {
    match op
    case SaveOp(key, messages) => Save(w, key, messages)
    case FireOp(timer) => Fire(w, timer)
    case FlushOp => Flush(w)
  }

  function DoAll(w: Writes, ops: seq<WriteOp>): Writes
    decreases |ops|
  {
    if ops == [] then w else Do(DoAll(w, ops[..|ops| - 1]), ops[|ops| - 1])
  }

  /** The newest slice of the last save per key, over what there was. */
  function LastSaves(base: map<string, seq<Event>>, ops: seq<WriteOp>): map<string, seq<Event>>
    decreases |ops|
  {
    if ops == [] then base
    else
      var front, last := LastSaves(base, ops[..|ops| - 1]), ops[|ops| - 1];
      if last.SaveOp? then front[last.key := Newest(last.messages)] else front
  }

  lemma SaveKeepsPairing(w: Writes, key: string, messages: seq<Event>)
    requires Paired(w)
    ensures Paired(Save(w, key, messages)) && Overlay(Save(w, key, messages)) == Overlay(w)[key := Newest(messages)]
  {
    SavePairs(w, key, messages);
    SaveOverlays(w, key, messages);
  }

  lemma SavePairs(w: Writes, key: string, messages: seq<Event>)
    requires Paired(w)
    ensures Paired(Save(w, key, messages))
  {
    hide Newest;
  }

  lemma SaveOverlays(w: Writes, key: string, messages: seq<Event>)
    ensures Overlay(Save(w, key, messages)) == Overlay(w)[key := Newest(messages)]
  {
    hide Newest;
    var u := Save(w, key, messages);
    assert Overlay(u).Keys == Overlay(w).Keys + {key};
  }

  lemma FireKeepsPairing(w: Writes, timer: nat)
    requires Paired(w)
    ensures Paired(Fire(w, timer)) && Overlay(Fire(w, timer)) == Overlay(w)
  {
    if timer in w.timers {
      FirePairs(w, timer);
      FireOverlays(w, timer);
    }
  }

  lemma FirePairs(w: Writes, timer: nat)
    requires Paired(w) && timer in w.timers
    ensures Paired(Fire(w, timer))
  {
  }

  lemma FireOverlays(w: Writes, timer: nat)
    requires Paired(w) && timer in w.timers
    ensures Overlay(Fire(w, timer)) == Overlay(w)
  {
    var (key, payload) := w.timers[timer];
    var u := Fire(w, timer);
    assert w.pending[key].payload == payload;
    assert Overlay(u).Keys == Overlay(w).Keys;
    forall k | k in Overlay(w) ensures Overlay(u)[k] == Overlay(w)[k] {}
  }

  lemma FlushKeepsPairing(w: Writes)
    requires Paired(w)
    ensures Paired(Flush(w)) && Overlay(Flush(w)) == Overlay(w) && Flush(w).storage == Overlay(w)
    ensures Flush(w).pending == map[] && Flush(w).timers == map[]
  {
    forall t | t in w.timers ensures IsPendingTimer(w, t) { assert w.timers[t].0 in w.pending; }
    assert Flush(w).timers == map[];
    assert Overlay(Flush(w)) == Overlay(w);
  }

  /** Debounced writes lose nothing: over any run of saves, timers and flushes, pending overlaid on
      storage is the last save of each key, and after a flush storage alone is. */
  lemma {:induction false} DebounceLosesNothing(w: Writes, ops: seq<WriteOp>)
    requires Paired(w)
    ensures Paired(DoAll(w, ops)) && Overlay(DoAll(w, ops)) == LastSaves(Overlay(w), ops)
    ensures ops != [] && ops[|ops| - 1].FlushOp? ==> DoAll(w, ops).storage == LastSaves(Overlay(w), ops)
    decreases |ops|
  {
    if ops != [] {
      var front := ops[..|ops| - 1];
      DebounceLosesNothing(w, front);
      var u := DoAll(w, front);
      match ops[|ops| - 1]
      case SaveOp(key, messages) => SaveKeepsPairing(u, key, messages);
      case FireOp(timer) => FireKeepsPairing(u, timer);
      case FlushOp => FlushKeepsPairing(u);
    }
  }

  class WriteCache {
    var storage: map<string, seq<Event>>
    var pending: map<string, Pending>
    var timers: map<nat, (string, seq<Event>)>
    var next: nat

    ghost function View(): Writes
      reads this
    {
      Writes(storage, pending, timers, next)
    }

    constructor (storage: map<string, seq<Event>>)
      ensures View() == Writes(storage, map[], map[], 0) && Paired(View())
    {
      this.storage, pending, timers, next := storage, map[], map[], 0;
    }

    method SaveMessages(key: string, messages: seq<Event>)
      modifies this
      ensures View() == Save(old(View()), key, messages)
    {
      if key in pending { timers := timers - {pending[key].timer}; }
      var payload := Newest(messages);
      var timer := next;
      next := next + 1;
      timers := timers[timer := (key, payload)];
      pending := pending[key := Pending(timer, payload)];
    }

    method TimerFires(timer: nat)
      requires timer in timers
      modifies this
      ensures View() == Fire(old(View()), timer)
    {
      var (key, payload) := timers[timer];
      timers := timers - {timer};
      pending := pending - {key};
      storage := storage[key := payload];
    }

    /** Cancel the timer of a pending entry and write its payload. */
    method WriteNow(key: string)
      requires key in pending
      modifies this`storage, this`timers
      ensures storage == old(storage)[key := pending[key].payload] && timers == old(timers) - {pending[key].timer}
    {
      timers := timers - {pending[key].timer};
      storage := storage[key := pending[key].payload];
    }

    /** The loop over the pending entries. */
    method WriteAll(ghost w: Writes)
      requires w == View() && Paired(w)
      modifies this`storage, this`timers
      ensures storage == WrittenBut(w, {}) && timers == TimersFor(w, {})
    {
      FlushStarts(w);
      TimersAtStart(w);
      hide WrittenBut, TimersFor, Paired;
      var todo := pending.Keys;
      while todo != {}
        invariant todo <= pending.Keys
        invariant storage == WrittenBut(w, todo) && timers == TimersFor(w, todo)
        decreases |todo|
      {
        var key :| key in todo;
        WriteOneMore(w, todo, key);
        WriteNow(key);
        todo := todo - {key};
      }
    }

    method FlushWrites()
      requires Paired(View())
      modifies this
      ensures View() == Flush(old(View()))
    {
      ghost var w := View();
      FlushEnds(w);
      FlushKeepsPairing(w);
      WriteAll(w);
      pending := map[];
    }
  }

  lemma FlushStarts(w: Writes)
    ensures WrittenBut(w, w.pending.Keys) == w.storage
  {
    assert WrittenBut(w, w.pending.Keys).Keys == w.storage.Keys;
  }

  lemma TimersAtStart(w: Writes)
    requires Paired(w)
    ensures TimersFor(w, w.pending.Keys) == w.timers
  {
  }

  lemma FlushEnds(w: Writes)
    ensures WrittenBut(w, {}) == Overlay(w) && TimersFor(w, {}) == map[]
  {
    assert (map key | key in w.pending && key !in {} :: w.pending[key].payload)
        == (map key | key in w.pending :: w.pending[key].payload);
  }

  /** Storage once all pending entries but `todo` are written, and the timers that are then left. */
  ghost function WrittenBut(w: Writes, todo: set<string>): map<string, seq<Event>> {
    w.storage + map key | key in w.pending && key !in todo :: w.pending[key].payload
  }

  ghost function TimersFor(w: Writes, todo: set<string>): map<nat, (string, seq<Event>)> {
    map t | t in w.timers && w.timers[t].0 in todo :: w.timers[t]
  }

  lemma WriteOneMore(w: Writes, todo: set<string>, key: string)
    requires Paired(w) && todo <= w.pending.Keys && key in todo
    ensures WrittenBut(w, todo - {key}) == WrittenBut(w, todo)[key := w.pending[key].payload]
    ensures TimersFor(w, todo - {key}) == TimersFor(w, todo) - {w.pending[key].timer}
  {
  }

  // ---- the message path ----

  /** The parts of the client's state the message path reads and writes, for one server: lists and
      read marks in memory, the marks on disk, and the writes of the lists. */
  datatype Box = Box(messages: map<string, seq<Event>>, marks: map<string, nat>, storedMarks: map<string, nat>,
                     writes: Writes)

  function CacheKey(server: string, id: string): string {
    "msgs/" + (server + ("/" + id))
  }

  /** Lists of different servers or channels have different keys; a server key has no slash. */
  lemma KeysApart(one: string, a: string, two: string, b: string)
    requires CacheKey(one, a) == CacheKey(two, b) && '/' !in one && '/' !in two
    ensures one == two && a == b
  {
    var p, q := CacheKey(one, a)[5..], CacheKey(two, b)[5..];
    assert p == one + ("/" + a) && q == two + ("/" + b);
    assert p[|one|] == '/' && forall i :: 0 <= i < |one| ==> p[i] == one[i] && p[i] != '/';
    assert q[|two|] == '/' && forall i :: 0 <= i < |two| ==> q[i] == two[i] && q[i] != '/';
    assert p[..|one|] == one && q[..|two|] == two && p[|one| + 1..] == a && q[|two| + 1..] == b;
  }

  function ListIn(lists: map<string, seq<Event>>, key: string): seq<Event> {
    if key in lists then lists[key] else []
  }

  function MarkIn(marks: map<string, nat>, id: string): nat {
    if id in marks then marks[id] else 0
  }

  /** The first look at a channel loads what is stored for it. */
  function Select(b: Box, server: string, id: string): Box {
    if id in b.messages then b
    else b.(messages := b.messages[id := ListIn(b.writes.storage, CacheKey(server, id))])
  }

  /** Merge, and save unless the length says that nothing is new. */
  ghost function Ingest(b: Box, server: string, id: string, incoming: seq<Event>): Box {
    var merged := Merged(ListIn(b.messages, id), incoming);
    if incoming == [] || |merged| == |ListIn(b.messages, id)| then b
    else b.(messages := b.messages[id := merged], writes := Save(b.writes, CacheKey(server, id), merged))
  }

  function MarkRead(b: Box, id: string, force: bool, visible: bool): Box {
    var list := ListIn(b.messages, id);
    if (!force && !visible) || list == [] || MarkIn(b.marks, id) >= list[|list| - 1].createdAt then b
    else
      var marks := b.marks[id := list[|list| - 1].createdAt];
      b.(marks := marks, storedMarks := marks)
  }

  class Inbox {
    var messages: map<string, seq<Event>>
    var readState: map<string, nat>
    var storedMarks: map<string, nat>
    const writes: WriteCache
    const serverKey: string

    ghost function View(): Box
      reads this, writes
    {
      Box(messages, readState, storedMarks, writes.View())
    }

    /** Connecting to a server: no list in memory yet, the marks as stored. */
    constructor (writes: WriteCache, serverKey: string, storedMarks: map<string, nat>)
      ensures this.writes == writes && this.serverKey == serverKey
      ensures View() == Box(map[], storedMarks, storedMarks, writes.View())
    {
      this.writes, this.serverKey := writes, serverKey;
      messages, readState, this.storedMarks := map[], storedMarks, storedMarks;
    }

    method SelectChannel(id: string)
      modifies this`messages
      ensures View() == Select(old(View()), serverKey, id)
    {
      if id !in messages {
        messages := messages[id := ListIn(writes.storage, CacheKey(serverKey, id))];
      }
    }

    /** Merge events into a channel and persist, unless nothing changes. */
    method IngestEvents(id: string, incoming: seq<Event>)
      modifies this`messages, writes
      ensures View() == Ingest(old(View()), serverKey, id, incoming)
    {
      if incoming == [] { return; }
      var before := ListIn(messages, id);
      var merged := MergeMessages(before, incoming);
      if |merged| == |before| { return; }
      messages := messages[id := merged];
      writes.SaveMessages(CacheKey(serverKey, id), merged);
    }

    /** Mark a channel read up to its newest message, when it is looked at. */
    method MarkChannelRead(id: string, force: bool, visible: bool)
      modifies this`readState, this`storedMarks
      ensures View() == MarkRead(old(View()), id, force, visible)
    {
      if !force && !visible { return; }
      var list := ListIn(messages, id);
      if list == [] { return; }
      var newest := list[|list| - 1].createdAt;
      if MarkIn(readState, id) >= newest { return; }
      readState := readState[id := newest];
      storedMarks := readState;
    }

    /** Unread count for a channel, from the local read mark. */
    method UnreadCount(id: string, me: Option<string>) returns (n: nat)
      ensures IsTimeline(ListIn(messages, id)) ==> n == CountNew(ListIn(messages, id), MarkIn(readState, id), me)
    {
      n := UnreadIn(ListIn(messages, id), MarkIn(readState, id), me);
      if IsTimeline(ListIn(messages, id)) { TimelineIsByTime(ListIn(messages, id)); }
    }
  }

  /** On a timeline whose ids determine events the step is the merge, saved exactly if it changed. */
  lemma IngestMerges(b: Box, server: string, id: string, incoming: seq<Event>)
    requires IsTimeline(ListIn(b.messages, id)) && OneEventPerId(ListIn(b.messages, id) + incoming)
    ensures var u := Ingest(b, server, id, incoming); var list := ListIn(u.messages, id);
      && list == Merged(ListIn(b.messages, id), incoming)
      && u.writes == (if list == ListIn(b.messages, id) then b.writes else Save(b.writes, CacheKey(server, id), list))
      && forall x :: x != id ==> ListIn(u.messages, x) == ListIn(b.messages, x)
  {
    hide Merged;
    LengthTestExact(ListIn(b.messages, id), incoming);
  }

  /** No mark ever decreases, and a channel looked at has nothing unread for anyone. */
  lemma MarkingReads(b: Box, id: string, force: bool, visible: bool)
    requires IsTimeline(ListIn(b.messages, id))
    ensures var u := MarkRead(b, id, force, visible);
      && (forall x :: MarkIn(u.marks, x) >= MarkIn(b.marks, x))
      && (forall x :: x != id ==> MarkIn(u.marks, x) == MarkIn(b.marks, x))
      && (force || visible ==> forall me :: CountNew(ListIn(u.messages, id), MarkIn(u.marks, id), me) == 0)
      && (MarkIn(u.marks, id) > MarkIn(b.marks, id) ==>
            (force || visible) && exists e :: e in ListIn(b.messages, id) && e.createdAt == MarkIn(u.marks, id))
      && (b.storedMarks == b.marks ==> u.storedMarks == u.marks)
  {
    var u, list := MarkRead(b, id, force, visible), ListIn(b.messages, id);
    TimelineIsByTime(list);
    forall me | force || visible ensures CountNew(list, MarkIn(u.marks, id), me) == 0 {
      NothingNew(list, MarkIn(u.marks, id), me);
    }
  }

  // ---- resuming ----

  /** The newest cached time, minus a minute of overlap. */
  function ResumeSince(messages: seq<Event>): Option<nat> {
    if messages == [] then None
    else
      var newest := messages[|messages| - 1].createdAt;
      Some(if newest < 60 then 0 else newest - 60)
  }

  /** The filter `subscribeChannel` sends. */
  function ChannelFilter(id: string, cached: seq<Event>): Filter {
    Filter(None, None, Some([CHAT]), ResumeSince(cached), None, Some(200), [("#h", JsonArray([JsonString(id)]))])
  }

  predicate IsChannelChat(t: Tables, id: string, e: Event) {
    e.id in t.events && t.events[e.id] == e && e.kind == CHAT && id in TagValues(e.tags, "h")
  }

  lemma ChannelTagFilter(id: string, cached: seq<Event>)
    ensures TagFilters(ChannelFilter(id, cached).extra) == [("h", [id])]
  {
    var f := ChannelFilter(id, cached);
    var items := [JsonString(id)];
    assert items[1..] == [] && Strings(items) == [id];
    assert "#h"[1..] == "h";
    assert f.extra[1..] == [];
  }

  /** The channel filter asks for exactly the channel's chat since the resume point. */
  lemma ChannelFilterMeans(id: string, cached: seq<Event>, e: Event)
    ensures Matches(ChannelFilter(id, cached), e) <==>
              && e.kind == CHAT && id in TagValues(e.tags, "h")
              && (cached != [] ==> e.createdAt + 60 >= cached[|cached| - 1].createdAt)
  {
    ChannelTagFilter(id, cached);
    var tf := ("h", [id]);
    assert TagMatches(tf, e) <==> id in TagValues(e.tags, "h") by {
      if id in TagValues(e.tags, "h") { assert id in tf.1; }
    }
  }

  lemma ChannelFilterAgrees(id: string, cached: seq<Event>)
    requires cached != [] ==> cached[|cached| - 1].createdAt < TWO_63
    ensures AllAgreeable([ChannelFilter(id, cached)])
  {
    ChannelTagFilter(id, cached);
  }

  lemma ChannelLimit(id: string, cached: seq<Event>)
    ensures Limit(ChannelFilter(id, cached)) == 200
  {
  }

  /** With at most 200 qualifying messages, the answer is exactly those. */
  lemma AnswerIsExact(t: Tables, id: string, cached: seq<Event>, e: Event)
    requires IndexExact(t) && TimesFit(t) && (cached != [] ==> cached[|cached| - 1].createdAt < TWO_63)
    requires |Passing(t.events, (x: Event) => Matches(ChannelFilter(id, cached), x))| <= 200
    ensures e in Query(t, [ChannelFilter(id, cached)]) <==>
              IsChannelChat(t, id, e) && (cached != [] ==> e.createdAt + 60 >= cached[|cached| - 1].createdAt)
  {
    hide ChannelFilter, Query, AllAgreeable, Page;
    var fs := [ChannelFilter(id, cached)];
    ChannelFilterAgrees(id, cached);
    assert Limit(fs[0]) == 200 by { ChannelLimit(id, cached); }
    QueryIsTheUnion(t, fs);
    assert LimitsNotHit(t.events, fs);
    ChannelFilterMeans(id, cached, e);
    assert fs[0] in fs;
    assert MatchesAny(fs, e) <==> Matches(fs[0], e);
  }

  ghost predicate Later(before: Tables, now: Tables, id: string, e: Event) {
    IsChannelChat(now, id, e) && !IsChannelChat(before, id, e)
  }

  /** Resume is complete. When the cache held every message the relay had for the channel with a time
      in [lo, newest], what was stored later is no older than a minute before the newest, and at most
      200 messages qualify, then merging the answer leaves every message from `lo` on, each once, in
      order, and nothing that is neither cached nor the channel's. */
  lemma ResumeIsComplete(before: Tables, now: Tables, id: string, cached: seq<Event>, lo: nat)
    requires IndexExact(now) && TimesFit(now) && cached != [] && cached[|cached| - 1].createdAt < TWO_63
    requires forall e :: IsChannelChat(before, id, e) && lo <= e.createdAt <= cached[|cached| - 1].createdAt ==>
        e in cached
    requires forall e :: Later(before, now, id, e) ==> e.createdAt + 60 >= cached[|cached| - 1].createdAt
    requires |Passing(now.events, (x: Event) => Matches(ChannelFilter(id, cached), x))| <= 200
    requires OneEventPerId(cached + Query(now, [ChannelFilter(id, cached)]))
    ensures IsTimeline(Merged(cached, Query(now, [ChannelFilter(id, cached)])))
    ensures forall e :: IsChannelChat(now, id, e) && e.createdAt >= lo ==>
        e in Merged(cached, Query(now, [ChannelFilter(id, cached)]))
    ensures forall e :: e in Merged(cached, Query(now, [ChannelFilter(id, cached)])) ==>
        e in cached || IsChannelChat(now, id, e)
  {
    hide Query, IsChannelChat, Merged, ChannelFilter;
    var answer := Query(now, [ChannelFilter(id, cached)]);
    MergedIsTimeline(cached, answer);
    forall e | IsChannelChat(now, id, e) && e.createdAt >= lo ensures e in Merged(cached, answer) {
      AnswerIsExact(now, id, cached, e);
      MergedHolds(cached, answer, e);
      assert !IsChannelChat(before, id, e) ==> Later(before, now, id, e);
    }
    forall e | e in Merged(cached, answer) ensures e in cached || IsChannelChat(now, id, e) {
      AnswerIsExact(now, id, cached, e);
      MergedHolds(cached, answer, e);
    }
  }
}
