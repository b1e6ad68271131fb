/** The hand-off from history to live tail, with the steps the code really interleaves: any task may
    insert into the database and later broadcast; a connection queries, then registers the
    subscription, and polls its broadcast receiver only between messages. */
module HandOff {
  import opened Nostr
  import opened Tables
  import opened Convergence
  import opened Querying

  /** Messages a broadcast receiver may be behind before it skips. */
  const CHANNEL_CAPACITY := 512

  datatype Phase = Idle | Between(sub: string, filters: seq<Filter>)

  /** The database, what was inserted but not broadcast yet, the broadcast so far, and one
      connection: how far it has read, its subscriptions, the EVENT frames it was sent. */
  datatype Hub = Hub(
    t: Tables,
    owed: multiset<Event>,
    log: seq<Event>,
    allowed: bool,
    cursor: nat,
    phase: Phase,
    subs: map<string, seq<Filter>>,
    frames: seq<(string, Event)>,
    lagged: bool)

  datatype Move =
    | Store(ev: Event)
    | Send(ev: Event)
    | PurgeChannel(id: string)
    | Authenticate
    | RunQuery(sub: string, filters: seq<Filter>)
    | Register
    | Poll
    | CloseSub(sub: string)

  function FramesOf(sub: string, evs: seq<Event>): seq<(string, Event)> {
    if evs == [] then [] else [(sub, evs[0])] + FramesOf(sub, evs[1..])
  }

  /** One live frame for each of the subscriptions, in whatever order the map gives them. */
  ghost function LiveFrames(names: set<string>, ev: Event): (frames: seq<(string, Event)>)
    ensures |frames| == |names| && forall f :: f in frames <==> f.0 in names && f.1 == ev
    decreases |names|
  {
    if names == {} then []
    else
      var s :| s in names;
      [(s, ev)] + LiveFrames(names - {s}, ev)
  }

  function Interested(subs: map<string, seq<Filter>>, ev: Event): set<string> {
    set s | s in subs && MatchesAny(subs[s], ev)
  }

  ghost function Go(h: Hub, m: Move): Hub {
    match m
    case Store(ev) =>
      var (t, result) := Insert(h.t, ev);
      if result == Stored then h.(t := t, owed := h.owed + multiset{ev}) else h
    case Send(ev) => h.(owed := h.owed - multiset{ev}, log := h.log + [ev])
    case PurgeChannel(id) => h.(t := Purge(h.t, id))
    case Authenticate => h.(allowed := true)
    case RunQuery(sub, filters) =>
      if h.phase.Idle? && h.allowed
      then h.(frames := h.frames + FramesOf(sub, Query(h.t, filters)), phase := Between(sub, filters))
      else h
    case Register =>
      if h.phase.Between? then h.(subs := h.subs[h.phase.sub := h.phase.filters], phase := Idle) else h
    case Poll =>
      if !h.phase.Idle? || h.cursor >= |h.log| then h
      else if |h.log| - h.cursor > CHANNEL_CAPACITY then h.(lagged := true, cursor := |h.log| - CHANNEL_CAPACITY)
      else
        var ev := h.log[h.cursor];
        h.(cursor := h.cursor + 1,
           frames := if h.allowed then h.frames + LiveFrames(Interested(h.subs, ev), ev) else h.frames)
    case CloseSub(sub) => if h.phase.Idle? then h.(subs := h.subs - {sub}) else h
  }

  /** The hub before the `k`th move. */
  ghost function After(h: Hub, moves: seq<Move>, k: nat): Hub
    requires k <= |moves|
  {
    if k == 0 then h else Go(After(h, moves, k - 1), moves[k - 1])
  }

  lemma AfterStep(h: Hub, moves: seq<Move>, k: nat)
    requires 0 < k <= |moves|
    ensures After(h, moves, k) == Go(After(h, moves, k - 1), moves[k - 1])
  {
    hide Go;
  }

  ghost predicate WellFormed(h: Hub) {
    h.cursor <= |h.log| && IndexExact(h.t)
  }

  lemma GoKeepsWellFormed(h: Hub, m: Move)
    requires WellFormed(h)
    ensures WellFormed(Go(h, m))
  {
    if m.Store? { InsertKeepsIndex(h.t, m.ev); }
    if m.PurgeChannel? { PurgeExact(h.t, m.id); }
  }

  lemma {:induction false} AfterWellFormed(h: Hub, moves: seq<Move>, k: nat)
    requires WellFormed(h) && k <= |moves|
    ensures WellFormed(After(h, moves, k))
  {
    if k > 0 {
      hide Go, After, WellFormed;
      AfterWellFormed(h, moves, k - 1);
      GoKeepsWellFormed(After(h, moves, k - 1), moves[k - 1]);
      AfterStep(h, moves, k);
    }
  }

  /** The subscription stands, or is about to. */
  predicate Tracks(h: Hub, sub: string, filters: seq<Filter>) {
    h.allowed && (h.phase == Between(sub, filters) || (h.phase.Idle? && sub in h.subs && h.subs[sub] == filters)
                  || (h.phase.Between? && h.phase.sub != sub && sub in h.subs && h.subs[sub] == filters))
  }

  /** A frame with the event has been sent for the subscription since `from`. */
  ghost predicate Delivered(h: Hub, from: nat, sub: string, ev: Event) {
    exists d :: from <= d < |h.frames| && h.frames[d] == (sub, ev)
  }

  /** Delivered, or still on its way: inserted and not broadcast, or broadcast and not read. */
  ghost predicate Covered(h: Hub, from: nat, sub: string, ev: Event) {
    Delivered(h, from, sub, ev) || ev in h.owed || (h.cursor <= |h.log| && ev in h.log[h.cursor..])
  }

  predicate Disturbs(m: Move, sub: string) {
    m == CloseSub(sub) || (m.RunQuery? && m.sub == sub)
  }

  lemma {:induction false} FramesOfHolds(sub: string, evs: seq<Event>, ev: Event)
    requires ev in evs
    ensures (sub, ev) in FramesOf(sub, evs)
  {
    if evs[0] != ev { FramesOfHolds(sub, evs[1..], ev); }
  }

  lemma FramesGrow(h: Hub, m: Move)
    ensures h.frames <= Go(h, m).frames
    ensures h.lagged ==> Go(h, m).lagged
    ensures h.allowed ==> Go(h, m).allowed
  {
  }

  lemma QueryOpens(h: Hub, sub: string, filters: seq<Filter>)
    requires h.phase.Idle? && h.allowed
    ensures Tracks(Go(h, RunQuery(sub, filters)), sub, filters)
    ensures Go(h, RunQuery(sub, filters)).frames == h.frames + FramesOf(sub, Query(h.t, filters))
  {
  }

  lemma StoringOwes(h: Hub, ev: Event)
    requires Insert(h.t, ev).1 == Stored
    ensures ev in Go(h, Store(ev)).owed
  {
  }

  /** Only storing an event makes it stored. */
  lemma StoredByMove(h: Hub, m: Move, ev: Event)
    requires IndexExact(h.t) && StoredThen(Go(h, m).t, ev) && !StoredThen(h.t, ev)
    ensures m == Store(ev) && Insert(h.t, ev).1 == Stored
  {
  }

  lemma GoKeepsTracking(h: Hub, m: Move, sub: string, filters: seq<Filter>)
    requires Tracks(h, sub, filters) && !Disturbs(m, sub)
    ensures Tracks(Go(h, m), sub, filters)
  {
  }

  lemma DeliveredStays(h: Hub, m: Move, from: nat, sub: string, ev: Event)
    requires Delivered(h, from, sub, ev)
    ensures Delivered(Go(h, m), from, sub, ev)
  {
    hide Go;
    FramesGrow(h, m);
    var d :| from <= d < |h.frames| && h.frames[d] == (sub, ev);
    assert Go(h, m).frames[d] == (sub, ev);
  }

  lemma OwedStays(h: Hub, m: Move, ev: Event)
    requires h.cursor <= |h.log| && ev in h.owed
    ensures ev in Go(h, m).owed || (Go(h, m).cursor <= |Go(h, m).log| && ev in Go(h, m).log[Go(h, m).cursor..])
  {
    if m == Send(ev) {
      var g := Go(h, m);
      assert g.log[|h.log|] == ev && g.log[|h.log|] in g.log[g.cursor..];
    }
  }

  /** The next message in the broadcast is delivered when it is read, later ones stay unread. */
  lemma UnreadStays(h: Hub, m: Move, i: nat, ev: Event)
    requires h.cursor <= i < |h.log| && h.log[i] == ev && !Go(h, m).lagged
    requires !(m.Poll? && h.phase.Idle? && i == h.cursor)
    ensures Go(h, m).cursor <= |Go(h, m).log| && ev in Go(h, m).log[Go(h, m).cursor..]
  {
    var g := Go(h, m);
    assert g.log[i] == ev && g.log[i] in g.log[g.cursor..];
  }

  lemma PollDelivers(h: Hub, from: nat, sub: string, filters: seq<Filter>, ev: Event)
    requires Tracks(h, sub, filters) && MatchesAny(filters, ev) && from <= |h.frames|
    requires h.phase.Idle? && h.cursor < |h.log| && h.log[h.cursor] == ev && !Go(h, Poll).lagged
    ensures Delivered(Go(h, Poll), from, sub, ev)
  {
    hide MatchesAny;
    assert sub in Interested(h.subs, ev);
    var live := LiveFrames(Interested(h.subs, ev), ev);
    var j :| 0 <= j < |live| && live[j] == (sub, ev);
    assert Go(h, Poll).frames[|h.frames| + j] == (sub, ev);
  }

  /** No move loses an event that is on its way to a subscription that wants it, short of a lag. */
  lemma GoKeepsCover(h: Hub, m: Move, from: nat, sub: string, filters: seq<Filter>, ev: Event)
    requires WellFormed(h) && Tracks(h, sub, filters) && MatchesAny(filters, ev)
    requires from <= |h.frames| && Covered(h, from, sub, ev) && !Go(h, m).lagged
    ensures Covered(Go(h, m), from, sub, ev)
  {
    hide Go, Tracks, MatchesAny, Delivered;
    if Delivered(h, from, sub, ev) {
      DeliveredStays(h, m, from, sub, ev);
    } else if ev in h.owed {
      OwedStays(h, m, ev);
    } else {
      var i :| h.cursor <= i < |h.log| && h.log[i] == ev;
      if m.Poll? && h.phase.Idle? && i == h.cursor {
        PollDelivers(h, from, sub, filters, ev);
      } else {
        UnreadStays(h, m, i, ev);
      }
    }
  }

  lemma {:induction false} LagIsRemembered(h: Hub, moves: seq<Move>, m: nat, n: nat)
    requires m <= n <= |moves| && After(h, moves, m).lagged
    ensures After(h, moves, n).lagged
  {
    hide Go, After;
    if m < n {
      AfterStep(h, moves, n);
      LagIsRemembered(h, moves, m, n - 1);
      FramesGrow(After(h, moves, n - 1), moves[n - 1]);
    }
  }

  /** The subscription is opened at move `q` and left alone until `n`; the receiver never lags. */
  ghost predicate Undisturbed(h: Hub, moves: seq<Move>, q: nat, n: nat, sub: string, filters: seq<Filter>) {
    && q < n <= |moves| && WellFormed(h)
    && moves[q] == RunQuery(sub, filters) && After(h, moves, q).phase.Idle? && After(h, moves, q).allowed
    && (forall m :: q < m < n ==> !Disturbs(moves[m], sub))
    && !After(h, moves, n).lagged
  }

  lemma {:induction false} StaysTracked(h: Hub, moves: seq<Move>, q: nat, n: nat, m: nat, sub: string,
                                        filters: seq<Filter>)
    requires Undisturbed(h, moves, q, n, sub, filters) && q < m <= n
    ensures Tracks(After(h, moves, m), sub, filters)
    ensures |After(h, moves, q).frames| <= |After(h, moves, m).frames|
    decreases m
  {
    hide Go, WellFormed, After, Tracks;
    AfterStep(h, moves, m);
    FramesGrow(After(h, moves, m - 1), moves[m - 1]);
    if m == q + 1 {
      QueryOpens(After(h, moves, q), sub, filters);
    } else {
      StaysTracked(h, moves, q, n, m - 1, sub, filters);
      GoKeepsTracking(After(h, moves, m - 1), moves[m - 1], sub, filters);
    }
  }

  lemma {:induction false} StaysCovered(h: Hub, moves: seq<Move>, q: nat, n: nat, i: nat, m: nat, sub: string,
                                        filters: seq<Filter>, ev: Event)
    requires Undisturbed(h, moves, q, n, sub, filters) && q < i <= m <= n && MatchesAny(filters, ev)
    requires Covered(After(h, moves, i), |After(h, moves, q).frames|, sub, ev)
    ensures Covered(After(h, moves, m), |After(h, moves, q).frames|, sub, ev)
    decreases m
  {
    hide Go, MatchesAny, After, Tracks, Covered, WellFormed;
    if i < m {
      AfterStep(h, moves, m);
      StaysCovered(h, moves, q, n, i, m - 1, sub, filters, ev);
      StaysTracked(h, moves, q, n, m - 1, sub, filters);
      AfterWellFormed(h, moves, m - 1);
      if After(h, moves, m).lagged { LagIsRemembered(h, moves, m, n); }
      GoKeepsCover(After(h, moves, m - 1), moves[m - 1], |After(h, moves, q).frames|, sub, filters, ev);
    }
  }

  /** The query's answer is complete: agreeable filters, and no limit hit. */
  ghost predicate AnswerComplete(t: Tables, filters: seq<Filter>) {
    AllAgreeable(filters) && TimesFit(t) && LimitsNotHit(t.events, filters)
  }

  /** The event was stored when the query ran. */
  predicate StoredThen(t: Tables, ev: Event) {
    ev.id in t.events && t.events[ev.id] == ev
  }

  /** The `m`th move stored the event. */
  ghost predicate StoredBy(h: Hub, moves: seq<Move>, m: nat, ev: Event) {
    m < |moves| && moves[m] == Store(ev) && Insert(After(h, moves, m).t, ev).1 == Stored
  }

  /** No gap: under any interleaving, every matching event stored when the query ran or inserted
      after it has been sent to the subscription, or is still on its way. */
  lemma NoGap(h: Hub, moves: seq<Move>, q: nat, n: nat, sub: string, filters: seq<Filter>, ev: Event)
    requires Undisturbed(h, moves, q, n, sub, filters) && MatchesAny(filters, ev)
    requires AnswerComplete(After(h, moves, q).t, filters)
    requires StoredThen(After(h, moves, q).t, ev) || exists m :: q <= m < n && StoredBy(h, moves, m, ev)
    ensures Covered(After(h, moves, n), |After(h, moves, q).frames|, sub, ev)
  {
    hide Go, Delivered, AnswerComplete, MatchesAny, WellFormed;
    var from := |After(h, moves, q).frames|;
    if m :| q <= m < n && StoredBy(h, moves, m, ev) {
      StoringOwes(After(h, moves, m), ev);
      StaysCovered(h, moves, q, n, m + 1, n, sub, filters, ev);
    } else {
      AnsweredAtOnce(h, moves, q, n, sub, filters, ev);
      StaysCovered(h, moves, q, n, q + 1, n, sub, filters, ev);
    }
  }

  lemma AnswerHolds(t: Tables, filters: seq<Filter>, sub: string, ev: Event)
    requires IndexExact(t) && AnswerComplete(t, filters) && StoredThen(t, ev) && MatchesAny(filters, ev)
    ensures (sub, ev) in FramesOf(sub, Query(t, filters))
  {
    QueryIsTheUnion(t, filters);
    assert ev in Query(t, filters);
    FramesOfHolds(sub, Query(t, filters), ev);
  }

  lemma AnsweredAtOnce(h: Hub, moves: seq<Move>, q: nat, n: nat, sub: string, filters: seq<Filter>, ev: Event)
    requires Undisturbed(h, moves, q, n, sub, filters) && MatchesAny(filters, ev)
    requires AnswerComplete(After(h, moves, q).t, filters) && StoredThen(After(h, moves, q).t, ev)
    ensures Delivered(After(h, moves, q + 1), |After(h, moves, q).frames|, sub, ev)
  {
    hide Go, Query, AnswerComplete, FramesOf;
    var s := After(h, moves, q);
    AfterWellFormed(h, moves, q);
    QueryOpens(s, sub, filters);
    AnswerHolds(s.t, filters, sub, ev);
    var answer := FramesOf(sub, Query(s.t, filters));
    var j :| 0 <= j < |answer| && answer[j] == (sub, ev);
    assert After(h, moves, q + 1).frames[|s.frames| + j] == (sub, ev);
  }

  /** Once every insertion was broadcast and every broadcast read, nothing is missing. */
  lemma NothingMissingWhenQuiet(h: Hub, moves: seq<Move>, q: nat, n: nat, sub: string, filters: seq<Filter>, ev: Event)
    requires Undisturbed(h, moves, q, n, sub, filters) && MatchesAny(filters, ev)
    requires AnswerComplete(After(h, moves, q).t, filters)
    requires StoredThen(After(h, moves, q).t, ev) || exists m :: q <= m < n && StoredBy(h, moves, m, ev)
    requires After(h, moves, n).owed == multiset{} && After(h, moves, n).cursor == |After(h, moves, n).log|
    ensures Delivered(After(h, moves, n), |After(h, moves, q).frames|, sub, ev)
  {
    NoGap(h, moves, q, n, sub, filters, ev);
  }

  /** What is stored at `n` was stored at `q`, or a move in between stored it. */
  lemma {:induction false} StoredSinceWhen(h: Hub, moves: seq<Move>, q: nat, n: nat, ev: Event)
    requires WellFormed(h) && q <= n <= |moves| && StoredThen(After(h, moves, n).t, ev)
    ensures StoredThen(After(h, moves, q).t, ev) || exists m :: q <= m < n && StoredBy(h, moves, m, ev)
  {
    hide Go;
    if q < n && !StoredThen(After(h, moves, n - 1).t, ev) {
      AfterWellFormed(h, moves, n - 1);
      StoredByMove(After(h, moves, n - 1), moves[n - 1], ev);
      assert StoredBy(h, moves, n - 1, ev);
    } else if q < n {
      StoredSinceWhen(h, moves, q, n - 1, ev);
    }
  }

  /** In a quiet state the client has been sent everything the relay holds that it asked for. */
  lemma QuietMeansComplete(h: Hub, moves: seq<Move>, q: nat, n: nat, sub: string, filters: seq<Filter>)
    requires Undisturbed(h, moves, q, n, sub, filters) && AnswerComplete(After(h, moves, q).t, filters)
    requires After(h, moves, n).owed == multiset{} && After(h, moves, n).cursor == |After(h, moves, n).log|
    ensures forall ev :: StoredThen(After(h, moves, n).t, ev) && MatchesAny(filters, ev) ==>
              Delivered(After(h, moves, n), |After(h, moves, q).frames|, sub, ev)
  {
    forall ev | StoredThen(After(h, moves, n).t, ev) && MatchesAny(filters, ev)
      ensures Delivered(After(h, moves, n), |After(h, moves, q).frames|, sub, ev)
    {
      StoredSinceWhen(h, moves, q, n, ev);
      NothingMissingWhenQuiet(h, moves, q, n, sub, filters, ev);
    }
  }

  // ---- nothing that was not asked for ----

  /** How often this frame stands in a list of frames. */
  function Times(frames: seq<(string, Event)>, frame: (string, Event)): nat {
    multiset(frames)[frame]
  }

  lemma {:induction false} OnceEach(frames: seq<(string, Event)>, names: set<string>, ev: Event)
    requires |frames| == |names| && forall f :: f in frames <==> f.0 in names && f.1 == ev
    ensures forall s :: s in names ==> Times(frames, (s, ev)) == 1
  {
    var all := set s | s in names :: (s, ev);
    PairsCount(names, ev);
    forall f ensures f in multiset(frames) <==> f in all {
      if f in frames { assert f == (f.0, ev); }
    }
    OncePerElement(multiset(frames), all);
    forall s | s in names ensures Times(frames, (s, ev)) == 1 { assert (s, ev) in all; }
  }

  lemma {:induction false} PairsCount(names: set<string>, ev: Event)
    ensures |set s | s in names :: (s, ev)| == |names|
    decreases |names|
  {
    if names != {} {
      var n :| n in names;
      PairsCount(names - {n}, ev);
      assert (set s | s in names :: (s, ev)) == (set s | s in names - {n} :: (s, ev)) + {(n, ev)};
    }
  }

  lemma {:induction false} OncePerElement<T>(m: multiset<T>, s: set<T>)
    requires |m| == |s| && forall x :: x in m <==> x in s
    ensures forall x :: x in s ==> m[x] == 1
    decreases |s|
  {
    forall x | x in s ensures m[x] == 1 {
      if m[x] > 1 {
        var rest := m[x := 0];
        assert m == rest + multiset{x}[x := m[x]];
        FewerElements(rest, s - {x});
      }
    }
  }

  lemma {:induction false} FewerElements<T>(m: multiset<T>, s: set<T>)
    requires forall x :: x in s ==> x in m
    ensures |m| >= |s|
    decreases |s|
  {
    if s != {} {
      var x :| x in s;
      FewerElements(m - multiset{x}, s - {x});
    }
  }

  /** The connection reads the next broadcast message: it is between messages, has one unread, and is
      not too far behind. */
  predicate Reads(h: Hub, m: Move) {
    m == Poll && h.phase.Idle? && h.cursor < |h.log| && |h.log| - h.cursor <= CHANNEL_CAPACITY
  }

  /** What a move sends. */
  ghost function Added(h: Hub, m: Move): seq<(string, Event)> {
    FramesGrow(h, m);
    Go(h, m).frames[|h.frames|..]
  }

  /** Reading sends the message, once, to each subscription then standing one of whose filters accepts
      it, over an admitted connection; and nothing else. */
  lemma ReadingSendsWanted(h: Hub, sub: string, ev: Event)
    requires Reads(h, Poll)
    ensures (sub, ev) in Added(h, Poll) <==>
              h.allowed && ev == h.log[h.cursor] && sub in h.subs && exists f :: f in h.subs[sub] && Matches(f, ev)
    ensures Times(Added(h, Poll), (sub, ev)) <= 1
    ensures Go(h, Poll).cursor == h.cursor + 1
  {
    var now := h.log[h.cursor];
    var names := Interested(h.subs, now);
    var live := LiveFrames(names, now);
    assert Added(h, Poll) == if h.allowed then live else [];
    OnceEach(live, names, now);
    if (sub, ev) !in Added(h, Poll) { assert Times(Added(h, Poll), (sub, ev)) == 0; }
  }

  lemma {:induction false} FramesOfAre(sub: string, evs: seq<Event>)
    ensures |FramesOf(sub, evs)| == |evs| && forall i :: 0 <= i < |evs| ==> FramesOf(sub, evs)[i] == (sub, evs[i])
  {
    if evs != [] { FramesOfAre(sub, evs[1..]); }
  }

  /** A query sends its answer under its own subscription; no other move but reading sends anything. */
  lemma OnlyAnswersElse(h: Hub, m: Move)
    requires !Reads(h, m)
    ensures Added(h, m) != [] ==>
              m.RunQuery? && h.phase.Idle? && h.allowed && |Added(h, m)| == |Query(h.t, m.filters)|
              && forall i :: 0 <= i < |Added(h, m)| ==> Added(h, m)[i] == (m.sub, Query(h.t, m.filters)[i])
  {
    hide Query, FramesOf, LiveFrames, Interested;
    if m.RunQuery? { FramesOfAre(m.sub, Query(h.t, m.filters)); }
  }

  /** Which subscriptions stand: one starts to with the move that registers it, with the filters of its
      query, and ends by being closed; and the connection is admitted by authenticating. */
  lemma StandingChanges(h: Hub, m: Move, sub: string)
    ensures sub in Go(h, m).subs <==>
              (m == Register && h.phase.Between? && h.phase.sub == sub)
              || (sub in h.subs && !(m == CloseSub(sub) && h.phase.Idle?))
    ensures sub in Go(h, m).subs ==>
              Go(h, m).subs[sub] == if m == Register && h.phase.Between? && h.phase.sub == sub then h.phase.filters
                                    else h.subs[sub]
    ensures Go(h, m).allowed <==> h.allowed || m == Authenticate
  {
    hide Query, LiveFrames, Interested, Insert, Purge, FramesOf;
  }

  /** Why a frame was sent at this state: it answers a query just made, or it is the message being read
      and the subscription wants it. */
  ghost predicate Justified(h: Hub, m: Move, frame: (string, Event)) {
    && h.phase.Idle? && h.allowed
    && (|| (m.RunQuery? && m.sub == frame.0 && frame.1 in Query(h.t, m.filters))
        || (Reads(h, m) && frame.1 == h.log[h.cursor] && frame.0 in h.subs
            && exists f :: f in h.subs[frame.0] && Matches(f, frame.1)))
  }

  /** Nothing unwanted: over any run every frame sent was sent by one move, for one of these reasons. */
  lemma {:induction false} EveryFrameIsJustified(h: Hub, moves: seq<Move>, n: nat, d: nat) returns (k: nat)
    requires n <= |moves| && |h.frames| <= d < |After(h, moves, n).frames|
    ensures k < n && |After(h, moves, k).frames| <= d < |After(h, moves, k + 1).frames|
    ensures Justified(After(h, moves, k), moves[k], After(h, moves, n).frames[d])
  {
    hide Go, Matches, Query;
    assert n > 0;
    var s, m := After(h, moves, n - 1), moves[n - 1];
    FramesGrow(s, m);
    if d < |s.frames| {
      k := EveryFrameIsJustified(h, moves, n - 1, d);
    } else {
      k := n - 1;
      var frame := After(h, moves, n).frames[d];
      assert frame == Added(s, m)[d - |s.frames|];
      if Reads(s, m) {
        ReadingSendsWanted(s, frame.0, frame.1);
        assert (frame.0, frame.1) in Added(s, m);
      } else {
        OnlyAnswersElse(s, m);
      }
    }
  }

  lemma CursorGrows(h: Hub, m: Move)
    ensures h.cursor <= Go(h, m).cursor
    ensures Reads(h, m) ==> Go(h, m).cursor == h.cursor + 1
    ensures !Reads(h, m) && !Go(h, m).lagged ==> Go(h, m).cursor == h.cursor
  {
  }

  lemma {:induction false} CursorNeverTurnsBack(h: Hub, moves: seq<Move>, k: nat, n: nat)
    requires k <= n <= |moves|
    ensures After(h, moves, k).cursor <= After(h, moves, n).cursor
  {
    hide Go, After;
    if k < n {
      AfterStep(h, moves, n);
      CursorNeverTurnsBack(h, moves, k, n - 1);
      CursorGrows(After(h, moves, n - 1), moves[n - 1]);
    }
  }

  /** No message of the broadcast is read twice, so none is sent twice to a subscription by reading. */
  lemma ReadOnce(h: Hub, moves: seq<Move>, k: nat, l: nat)
    requires k < l < |moves| && Reads(After(h, moves, k), moves[k]) && Reads(After(h, moves, l), moves[l])
    ensures After(h, moves, k).cursor < After(h, moves, l).cursor
  {
    hide Go, After, Reads;
    AfterStep(h, moves, k + 1);
    CursorGrows(After(h, moves, k), moves[k]);
    CursorNeverTurnsBack(h, moves, k + 1, l);
  }

  /** Where the receiver never lags, none is skipped either: whatever the cursor has passed was read. */
  lemma {:induction false} NoneSkipped(h: Hub, moves: seq<Move>, n: nat, p: nat) returns (k: nat)
    requires n <= |moves| && !After(h, moves, n).lagged && h.cursor <= p < After(h, moves, n).cursor
    ensures k < n && Reads(After(h, moves, k), moves[k]) && After(h, moves, k).cursor == p
  {
    hide Go;
    assert n > 0;
    var s := After(h, moves, n - 1);
    FramesGrow(s, moves[n - 1]);
    CursorGrows(s, moves[n - 1]);
    if p < s.cursor {
      k := NoneSkipped(h, moves, n - 1, p);
    } else {
      k := n - 1;
    }
  }
}
