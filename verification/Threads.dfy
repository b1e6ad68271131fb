/** Reply threads in a publication channel (app/ui/src/main.js): every message is filed under the
    post at the top of its reply chain, as far as the loaded window shows it. */
module Threads {
  import opened Text
  import opened Nostr
  import opened Querying
  import opened Cache

  datatype Card = Card(post: Event, replies: seq<Event>)

  // ---- climbing ----

  /** The loaded message this one replies to. */
  function Parent(byId: map<string, Event>, e: Event): Option<Event> {
    var p := ReplyParent(e.tags);
    if p.Some? && p.value in byId then Some(byId[p.value]) else None
  }

  /** `rootOf`'s loop: climb until no parent is loaded or one comes up again. */
  function Walk(byId: map<string, Event>, cur: Event, seen: set<string>): Event
    requires KeyedById(byId)
    decreases |byId.Keys - seen|
  {
    var p := Parent(byId, cur);
    if p.None? || p.value.id in seen then cur
    else
      assert p.value.id in byId.Keys - seen;
      assert byId.Keys - (seen + {p.value.id}) < byId.Keys - seen;
      SmallerSet(byId.Keys - (seen + {p.value.id}), byId.Keys - seen);
      Walk(byId, p.value, seen + {p.value.id})
  }

  lemma SmallerSet(a: set<string>, b: set<string>)
    requires a < b
    ensures |a| < |b|
  {
    assert |b - a| == |b| - |a|;
    assert b - a != {};
  }

  function RootOf(byId: map<string, Event>, e: Event): Event
    requires KeyedById(byId)
  {
    Walk(byId, e, {e.id})
  }

  /** Nothing further to climb to: no loaded parent, or the message names itself. */
  predicate Settled(byId: map<string, Event>, e: Event) {
    var p := Parent(byId, e);
    p.None? || p.value.id == e.id
  }

  /** `n` replies up, or as far as it goes. */
  function Climb(byId: map<string, Event>, e: Event, n: nat): Event
    decreases n
  {
    if n == 0 || Parent(byId, e).None? then e else Climb(byId, Parent(byId, e).value, n - 1)
  }

  /** The reply chain ends: it does not run into a cycle of two or more messages. */
  ghost predicate Grounded(byId: map<string, Event>, e: Event) {
    exists n: nat :: Settled(byId, Climb(byId, e, n))
  }

  /** The chain ends after exactly `n` replies. */
  ghost predicate SettlesIn(byId: map<string, Event>, e: Event, n: nat) {
    Settled(byId, Climb(byId, e, n)) && forall m :: 0 <= m < n ==> !Settled(byId, Climb(byId, e, m))
  }

  lemma {:induction false} LeastHeight(byId: map<string, Event>, e: Event, n: nat) returns (h: nat)
    requires Settled(byId, Climb(byId, e, n))
    ensures SettlesIn(byId, e, h)
  {
    if m: nat :| m < n && Settled(byId, Climb(byId, e, m)) {
      h := LeastHeight(byId, e, m);
    } else {
      h := n;
    }
  }

  lemma ParentIsLower(byId: map<string, Event>, e: Event, h: nat)
    requires SettlesIn(byId, e, h) && h > 0
    ensures Parent(byId, e).Some? && Parent(byId, e).value.id != e.id && SettlesIn(byId, Parent(byId, e).value, h - 1)
  {
    assert !Settled(byId, Climb(byId, e, 0));
    var p := Parent(byId, e).value;
    forall m | 0 <= m < h - 1 ensures !Settled(byId, Climb(byId, p, m)) {
      assert Climb(byId, e, m + 1) == Climb(byId, p, m);
    }
  }

  ghost predicate Loaded(byId: map<string, Event>, e: Event) {
    e.id in byId && byId[e.id] == e
  }

  /** Everything passed on the way up stood higher than the current message. */
  ghost predicate Above(byId: map<string, Event>, seen: set<string>, cur: Event, h: nat) {
    forall id :: id in seen ==> id == cur.id || (id in byId && exists k: nat :: k > h && SettlesIn(byId, byId[id], k))
  }

  /** From a message whose chain ends, the walk ends where the chain does. */
  lemma {:induction false} WalkSettles(byId: map<string, Event>, cur: Event, seen: set<string>, h: nat)
    requires KeyedById(byId) && Loaded(byId, cur) && cur.id in seen && SettlesIn(byId, cur, h)
        && Above(byId, seen, cur, h)
    ensures Settled(byId, Walk(byId, cur, seen))
    decreases h
  {
    if h > 0 {
      ParentIsLower(byId, cur, h);
      var p := Parent(byId, cur).value;
      assert p.id !in seen;
      WalkSettles(byId, p, seen + {p.id}, h - 1);
    } else {
      assert Climb(byId, cur, 0) == cur;
    }
  }

  lemma {:induction false} SettledWalkGrounds(byId: map<string, Event>, cur: Event, seen: set<string>)
    requires KeyedById(byId) && Settled(byId, Walk(byId, cur, seen))
    ensures Grounded(byId, cur)
    decreases |byId.Keys - seen|
  {
    var p := Parent(byId, cur);
    if p.None? || p.value.id in seen {
      assert Settled(byId, Climb(byId, cur, 0));
    } else {
      assert byId.Keys - (seen + {p.value.id}) < byId.Keys - seen by { assert p.value.id in byId.Keys - seen; }
      SmallerSet(byId.Keys - (seen + {p.value.id}), byId.Keys - seen);
      SettledWalkGrounds(byId, p.value, seen + {p.value.id});
      var n: nat :| Settled(byId, Climb(byId, p.value, n));
      assert Climb(byId, cur, n + 1) == Climb(byId, p.value, n);
    }
  }

  /** The root is a settled message exactly when the reply chain ends. */
  lemma RootSettlesIff(byId: map<string, Event>, e: Event)
    requires KeyedById(byId) && Loaded(byId, e)
    ensures Settled(byId, RootOf(byId, e)) <==> Grounded(byId, e)
  {
    if Settled(byId, RootOf(byId, e)) {
      SettledWalkGrounds(byId, e, {e.id});
    }
    if n: nat :| Settled(byId, Climb(byId, e, n)) {
      var h := LeastHeight(byId, e, n);
      WalkSettles(byId, e, {e.id}, h);
    }
  }

  lemma {:induction false} WalkStaysLoaded(byId: map<string, Event>, cur: Event, seen: set<string>)
    requires KeyedById(byId) && Loaded(byId, cur)
    ensures Loaded(byId, Walk(byId, cur, seen))
    ensures Walk(byId, cur, seen).id == cur.id || Walk(byId, cur, seen).id !in seen
    decreases |byId.Keys - seen|
  {
    var p := Parent(byId, cur);
    if p.Some? && p.value.id !in seen {
      assert byId.Keys - (seen + {p.value.id}) < byId.Keys - seen by { assert p.value.id in byId.Keys - seen; }
      SmallerSet(byId.Keys - (seen + {p.value.id}), byId.Keys - seen);
      WalkStaysLoaded(byId, p.value, seen + {p.value.id});
    }
  }

  /** A message is its own root iff there is nothing further to climb to. */
  lemma OwnRootIff(byId: map<string, Event>, e: Event)
    requires KeyedById(byId) && Loaded(byId, e)
    ensures RootOf(byId, e) == e <==> Settled(byId, e)
    ensures Loaded(byId, RootOf(byId, e))
  {
    WalkStaysLoaded(byId, e, {e.id});
    if !Settled(byId, e) {
      WalkStaysLoaded(byId, Parent(byId, e).value, {e.id} + {Parent(byId, e).value.id});
    }
  }

  method FindRoot(byId: map<string, Event>, ev: Event) returns (root: Event)
    requires KeyedById(byId)
    ensures root == RootOf(byId, ev)
  {
    root := ev;
    var seen := {ev.id};
    while true
      invariant Walk(byId, root, seen) == RootOf(byId, ev)
      decreases |byId.Keys - seen|
    {
      var p := Parent(byId, root);
      if p.None? || p.value.id in seen { return; }
      assert byId.Keys - (seen + {p.value.id}) < byId.Keys - seen by { assert p.value.id in byId.Keys - seen; }
      SmallerSet(byId.Keys - (seen + {p.value.id}), byId.Keys - seen);
      seen := seen + {p.value.id};
      root := p.value;
    }
  }

  // ---- cards ----

  /** Messages that are their own root, in list order. */
  function Posts(byId: map<string, Event>, list: seq<Event>): seq<Event>
    requires KeyedById(byId)
    decreases |list|
  {
    if list == [] then []
    else
      var last := list[|list| - 1];
      Posts(byId, list[..|list| - 1]) + if RootOf(byId, last) == last then [last] else []
  }

  /** The other messages with this root, in list order. */
  function Replies(byId: map<string, Event>, list: seq<Event>, root: string): seq<Event>
    requires KeyedById(byId)
    decreases |list|
  {
    if list == [] then []
    else
      var last := list[|list| - 1];
      Replies(byId, list[..|list| - 1], root)
      + if RootOf(byId, last) != last && RootOf(byId, last).id == root then [last] else []
  }

  function Cards(byId: map<string, Event>, list: seq<Event>, posts: seq<Event>): seq<Card>
    requires KeyedById(byId)
    decreases |posts|
  {
    if posts == [] then []
    else
      var last := posts[|posts| - 1];
      Cards(byId, list, posts[..|posts| - 1]) + [Card(last, Replies(byId, list, last.id))]
  }

  /** Everything on the cards, top to bottom. */
  function Shown(cards: seq<Card>): seq<Event>
    decreases |cards|
  {
    if cards == [] then []
    else Shown(cards[..|cards| - 1]) + [cards[|cards| - 1].post] + cards[|cards| - 1].replies
  }

  lemma {:induction false} ByIdOfDistinct(list: seq<Event>)
    requires DistinctIds(list)
    ensures KeyedById(ById(list))
    ensures forall e :: e in list <==> Loaded(ById(list), e)
    decreases |list|
  {
    if list != [] {
      var front, last := list[..|list| - 1], list[|list| - 1];
      ByIdOfDistinct(front);
      forall e | e in front ensures e.id != last.id {
        var i :| 0 <= i < |front| && front[i] == e;
        assert list[i] == e;
      }
      assert forall e :: e in list <==> e in front || e == last;
    }
  }

  lemma {:induction false} PostsHold(byId: map<string, Event>, list: seq<Event>, e: Event)
    requires KeyedById(byId)
    ensures e in Posts(byId, list) <==> e in list && RootOf(byId, e) == e
    decreases |list|
  {
    if list != [] { PostsHold(byId, list[..|list| - 1], e); }
  }

  lemma {:induction false} RepliesHold(byId: map<string, Event>, list: seq<Event>, root: string, e: Event)
    requires KeyedById(byId)
    ensures e in Replies(byId, list, root) <==> e in list && RootOf(byId, e) != e && RootOf(byId, e).id == root
    decreases |list|
  {
    if list != [] { RepliesHold(byId, list[..|list| - 1], root, e); }
  }

  lemma {:induction false} GroupsDistinct(byId: map<string, Event>, list: seq<Event>, root: string)
    requires KeyedById(byId) && DistinctIds(list)
    ensures DistinctIds(Posts(byId, list)) && DistinctIds(Replies(byId, list, root))
    decreases |list|
  {
    if list != [] {
      var front := list[..|list| - 1];
      GroupsDistinct(byId, front, root);
      var last := list[|list| - 1];
      forall e | e in front ensures e.id != last.id {
        var i :| 0 <= i < |front| && front[i] == e;
        assert list[i] == e;
      }
      forall e | e in Posts(byId, front) ensures e in front { PostsHold(byId, front, e); }
      forall e | e in Replies(byId, front, root) ensures e in front { RepliesHold(byId, front, root, e); }
      AppendDistinct(Posts(byId, front), [last]);
      AppendDistinct(Replies(byId, front, root), [last]);
    }
  }

  /** What the cards of these posts show: the posts and whatever has one of them as root. */
  lemma {:induction false} ShownHold(byId: map<string, Event>, list: seq<Event>, posts: seq<Event>, e: Event)
    requires KeyedById(byId)
    ensures e in Shown(Cards(byId, list, posts)) <==>
              e in posts || (e in list && RootOf(byId, e) != e && exists p :: p in posts && p.id == RootOf(byId, e).id)
    decreases |posts|
  {
    if posts != [] {
      var front, last := posts[..|posts| - 1], posts[|posts| - 1];
      var cards := Cards(byId, list, posts);
      assert cards[..|cards| - 1] == Cards(byId, list, front);
      ShownHold(byId, list, front, e);
      RepliesHold(byId, list, last.id, e);
      assert forall p :: p in posts <==> p in front || p == last;
    }
  }

  lemma {:induction false} ShownDistinct(byId: map<string, Event>, list: seq<Event>, posts: seq<Event>)
    requires KeyedById(byId) && DistinctIds(list) && DistinctIds(posts)
    requires forall e :: e in list ==> Loaded(byId, e)
    requires forall p :: p in posts ==> p in list && RootOf(byId, p) == p
    ensures DistinctIds(Shown(Cards(byId, list, posts)))
    decreases |posts|
  {
    if posts != [] {
      var front, last := posts[..|posts| - 1], posts[|posts| - 1];
      ShownDistinct(byId, list, front);
      var above, under := Shown(Cards(byId, list, front)), Replies(byId, list, last.id);
      GroupsDistinct(byId, list, last.id);
      forall x, y | x in above && y in [last] + under
        ensures x.id != y.id
      {
        CardsApart(byId, list, front, last, x, y);
      }
      forall y | y in under ensures y.id != last.id { RepliesAvoidRoot(byId, list, last, y); }
      AppendDistinct([last], under);
      AppendDistinct(above, [last] + under);
      LastCardShown(byId, list, posts);
    }
  }

  lemma LastCardShown(byId: map<string, Event>, list: seq<Event>, posts: seq<Event>)
    requires KeyedById(byId) && posts != []
    ensures var last := posts[|posts| - 1];
      Shown(Cards(byId, list, posts)) == Shown(Cards(byId, list, posts[..|posts| - 1]))
          + ([last] + Replies(byId, list, last.id))
  {
    hide Replies;
    var above := Cards(byId, list, posts[..|posts| - 1]);
    var card := Card(posts[|posts| - 1], Replies(byId, list, posts[|posts| - 1].id));
    assert Cards(byId, list, posts) == above + [card];
    ShownAppend(above, card);
  }

  lemma ShownAppend(cards: seq<Card>, card: Card)
    ensures Shown(cards + [card]) == Shown(cards) + ([card.post] + card.replies)
  {
    assert (cards + [card])[..|cards|] == cards;
  }

  lemma RepliesAvoidRoot(byId: map<string, Event>, list: seq<Event>, root: Event, y: Event)
    requires KeyedById(byId) && Loaded(byId, root) && RootOf(byId, root) == root
    requires y in Replies(byId, list, root.id) && forall e :: e in list ==> Loaded(byId, e)
    ensures y.id != root.id
  {
    RepliesHold(byId, list, root.id, y);
    assert Loaded(byId, y);
  }

  lemma AppendDistinct(a: seq<Event>, b: seq<Event>)
    requires DistinctIds(a) && DistinctIds(b) && forall x, y :: x in a && y in b ==> x.id != y.id
    ensures DistinctIds(a + b)
  {
  }

  lemma CardsApart(byId: map<string, Event>, list: seq<Event>, front: seq<Event>, last: Event, x: Event, y: Event)
    requires KeyedById(byId) && forall e :: e in list ==> Loaded(byId, e)
    requires forall p :: p in front ==> p in list && RootOf(byId, p) == p && p.id != last.id
    requires last in list && RootOf(byId, last) == last
    requires x in Shown(Cards(byId, list, front)) && y in [last] + Replies(byId, list, last.id)
    ensures x.id != y.id
  {
    ShownHold(byId, list, front, x);
    RepliesHold(byId, list, last.id, y);
    assert x in list && y in list;
    assert RootOf(byId, y).id == last.id;
    assert RootOf(byId, x).id != last.id;
  }

  /** Thread grouping shows a message iff its reply chain ends, and shows it once. */
  lemma ShownIffGrounded(list: seq<Event>)
    requires DistinctIds(list)
    ensures KeyedById(ById(list))
    ensures var shown := Shown(Cards(ById(list), list, Posts(ById(list), list)));
      && DistinctIds(shown)
      && (forall e :: e in shown <==> e in list && Grounded(ById(list), e))
  {
    var byId := ById(list);
    ByIdOfDistinct(list);
    var posts := Posts(byId, list);
    forall p ensures p in posts <==> p in list && RootOf(byId, p) == p { PostsHold(byId, list, p); }
    GroupsDistinct(byId, list, "");
    ShownDistinct(byId, list, posts);
    forall e ensures e in Shown(Cards(byId, list, posts)) <==> e in list && Grounded(byId, e) {
      ShownHold(byId, list, posts, e);
      if e in list {
        var root := RootOf(byId, e);
        OwnRootIff(byId, e);
        OwnRootIff(byId, root);
        RootSettlesIff(byId, e);
      }
    }
  }

  // ---- what the cards say ----

  /** The loaded message a message replies to, by its first reply tag. */
  lemma ParentIs(byId: map<string, Event>, e: Event, p: Event)
    ensures Parent(byId, e) == Some(p) <==>
              exists id :: id != "" && RepliesTo(e.tags, id) && id in byId && byId[id] == p
  {
    forall id ensures ReplyParent(e.tags) == Some(id) <==> id != "" && RepliesTo(e.tags, id) {
      ReplyParentIff(e.tags, id);
    }
  }

  lemma {:induction false} ClimbAddsUp(byId: map<string, Event>, e: Event, m: nat, n: nat)
    ensures Climb(byId, Climb(byId, e, m), n) == Climb(byId, e, m + n)
    decreases m
  {
    if m > 0 && Parent(byId, e).Some? {
      ClimbAddsUp(byId, Parent(byId, e).value, m - 1, n);
    } else if m > 0 {
      NoFurther(byId, e, n);
      NoFurther(byId, e, m + n);
    }
  }

  lemma {:induction false} NoFurther(byId: map<string, Event>, e: Event, n: nat)
    requires Parent(byId, e).None?
    ensures Climb(byId, e, n) == e
  {
  }

  lemma {:induction false} ClimbStaysLoaded(byId: map<string, Event>, e: Event, n: nat)
    requires KeyedById(byId) && Loaded(byId, e)
    ensures Loaded(byId, Climb(byId, e, n))
    decreases n
  {
    if n > 0 && Parent(byId, e).Some? { ClimbStaysLoaded(byId, Parent(byId, e).value, n - 1); }
  }

  lemma {:induction false} SettledStays(byId: map<string, Event>, e: Event, n: nat)
    requires KeyedById(byId) && Loaded(byId, e) && Settled(byId, e)
    ensures Climb(byId, e, n) == e
    decreases n
  {
    if n > 0 && Parent(byId, e).Some? {
      assert Parent(byId, e).value == e;
      SettledStays(byId, e, n - 1);
    }
  }

  /** A chain has one end at most. */
  lemma OneEnd(byId: map<string, Event>, e: Event, m: nat, n: nat)
    requires KeyedById(byId) && Loaded(byId, e)
    requires Settled(byId, Climb(byId, e, m)) && Settled(byId, Climb(byId, e, n))
    ensures Climb(byId, e, m) == Climb(byId, e, n)
  {
    if m > n {
      OneEnd(byId, e, n, m);
    } else {
      ClimbStaysLoaded(byId, e, m);
      ClimbAddsUp(byId, e, m, n - m);
      SettledStays(byId, Climb(byId, e, m), n - m);
    }
  }

  lemma {:induction false} WalkClimbs(byId: map<string, Event>, cur: Event, seen: set<string>) returns (n: nat)
    requires KeyedById(byId)
    ensures Walk(byId, cur, seen) == Climb(byId, cur, n)
    decreases |byId.Keys - seen|
  {
    var p := Parent(byId, cur);
    if p.None? || p.value.id in seen {
      n := 0;
    } else {
      assert byId.Keys - (seen + {p.value.id}) < byId.Keys - seen by { assert p.value.id in byId.Keys - seen; }
      SmallerSet(byId.Keys - (seen + {p.value.id}), byId.Keys - seen);
      n := WalkClimbs(byId, p.value, seen + {p.value.id});
      n := n + 1;
    }
  }

  /** The reply chain of a message ends at this post. */
  ghost predicate HangsFrom(byId: map<string, Event>, e: Event, post: Event) {
    Settled(byId, post) && exists n: nat :: Climb(byId, e, n) == post
  }

  /** The root of a message whose chain ends is where it ends. */
  lemma RootIff(byId: map<string, Event>, e: Event, post: Event)
    requires KeyedById(byId) && Loaded(byId, e)
    ensures RootOf(byId, e) == post && Settled(byId, post) <==> HangsFrom(byId, e, post)
  {
    var n := WalkClimbs(byId, e, {e.id});
    if HangsFrom(byId, e, post) {
      var m: nat :| Climb(byId, e, m) == post;
      RootSettlesIff(byId, e);
      OneEnd(byId, e, m, n);
    }
  }

  /** One message stands before another. */
  ghost predicate Precedes(q: seq<Event>, a: Event, b: Event) {
    exists i, j :: 0 <= i < j < |q| && q[i] == a && q[j] == b
  }

  lemma {:induction false} GroupsInOrder(byId: map<string, Event>, list: seq<Event>, root: string, a: Event, b: Event)
    requires KeyedById(byId)
    ensures Precedes(Posts(byId, list), a, b) ==> Precedes(list, a, b)
    ensures Precedes(Replies(byId, list, root), a, b) ==> Precedes(list, a, b)
    decreases |list|
  {
    if list != [] {
      var front, last := list[..|list| - 1], list[|list| - 1];
      GroupsInOrder(byId, front, root, a, b);
      PostsHold(byId, front, a);
      RepliesHold(byId, front, root, a);
      var tail := if RootOf(byId, last) == last then [last] else [];
      var tail' := if RootOf(byId, last) != last && RootOf(byId, last).id == root then [last] else [];
      AppendedOrder(Posts(byId, front), tail, last, a, b);
      AppendedOrder(Replies(byId, front, root), tail', last, a, b);
      if a in front && b == last {
        var i :| 0 <= i < |front| && front[i] == a;
        assert list[i] == a && list[|list| - 1] == b;
      }
      if Precedes(front, a, b) {
        var i, j :| 0 <= i < j < |front| && front[i] == a && front[j] == b;
        assert list[i] == a && list[j] == b;
      }
    }
  }

  lemma AppendedOrder(q: seq<Event>, tail: seq<Event>, last: Event, a: Event, b: Event)
    requires tail == [] || tail == [last]
    ensures Precedes(q + tail, a, b) ==> Precedes(q, a, b) || (a in q && b == last)
  {
    if i, j :| 0 <= i < j < |q + tail| && (q + tail)[i] == a && (q + tail)[j] == b {
      if j < |q| { assert q[i] == a && q[j] == b; }
    }
  }

  lemma {:induction false} CardsIndex(byId: map<string, Event>, list: seq<Event>, posts: seq<Event>, i: nat)
    requires KeyedById(byId) && i < |posts|
    ensures |Cards(byId, list, posts)| == |posts|
    ensures Cards(byId, list, posts)[i] == Card(posts[i], Replies(byId, list, posts[i].id))
    decreases |posts|
  {
    var front := posts[..|posts| - 1];
    CardsLength(byId, list, front);
    if i < |front| { CardsIndex(byId, list, front, i); }
  }

  lemma {:induction false} CardsLength(byId: map<string, Event>, list: seq<Event>, posts: seq<Event>)
    requires KeyedById(byId)
    ensures |Cards(byId, list, posts)| == |posts|
    decreases |posts|
  {
    if posts != [] { CardsLength(byId, list, posts[..|posts| - 1]); }
  }

  ghost function Layout(list: seq<Event>): seq<Card>
    requires DistinctIds(list)
  {
    ByIdOfDistinct(list);
    Cards(ById(list), list, Posts(ById(list), list))
  }

  /** What each card shows: a message with nothing further to climb to, and below it exactly the other
      messages whose reply chain ends there, in list order. */
  lemma CardShows(list: seq<Event>, i: nat)
    requires DistinctIds(list) && i < |Layout(list)|
    ensures var card := Layout(list)[i];
      && card.post in list && Settled(ById(list), card.post)
      && (forall e :: e in card.replies <==> e in list && e != card.post && HangsFrom(ById(list), e, card.post))
      && (forall a, b :: Precedes(card.replies, a, b) ==> Precedes(list, a, b))
  {
    var byId := ById(list);
    ByIdOfDistinct(list);
    var posts := Posts(byId, list);
    CardsLength(byId, list, posts);
    CardsIndex(byId, list, posts, i);
    var post := posts[i];
    PostsHold(byId, list, post);
    OwnRootIff(byId, post);
    forall e ensures e in Replies(byId, list, post.id) <==> e in list && e != post && HangsFrom(byId, e, post) {
      RepliesHold(byId, list, post.id, e);
      if e in list {
        RootIff(byId, e, post);
        OwnRootIff(byId, e);
      }
    }
    forall a, b ensures Precedes(Replies(byId, list, post.id), a, b) ==> Precedes(list, a, b) {
      GroupsInOrder(byId, list, post.id, a, b);
    }
  }

  /** The cards are the messages with nothing further to climb to, in list order. */
  lemma CardsAreThePosts(list: seq<Event>)
    requires DistinctIds(list)
    ensures forall e :: (exists card :: card in Layout(list) && card.post == e) <==> e in list && Settled(ById(list), e)
    ensures forall i, j :: 0 <= i < j < |Layout(list)| ==> Precedes(list, Layout(list)[i].post, Layout(list)[j].post)
  {
    var byId := ById(list);
    ByIdOfDistinct(list);
    var posts, cards := Posts(byId, list), Layout(list);
    CardsLength(byId, list, posts);
    forall i | 0 <= i < |posts| ensures cards[i].post == posts[i] { CardsIndex(byId, list, posts, i); }
    forall e ensures (exists card :: card in cards && card.post == e) <==> e in list && Settled(byId, e) {
      PostsHold(byId, list, e);
      if e in list { OwnRootIff(byId, e); }
      if e in posts {
        var i :| 0 <= i < |posts| && posts[i] == e;
        assert cards[i] in cards;
      }
    }
    forall i, j | 0 <= i < j < |cards| ensures Precedes(list, cards[i].post, cards[j].post) {
      assert Precedes(posts, posts[i], posts[j]);
      GroupsInOrder(byId, list, "", posts[i], posts[j]);
    }
  }

  lemma {:induction false} DistinctIsOnce(q: seq<Event>, e: Event)
    requires DistinctIds(q)
    ensures multiset(q)[e] == if e in q then 1 else 0
    decreases |q|
  {
    if q != [] {
      var front, last := q[..|q| - 1], q[|q| - 1];
      assert q == front + [last];
      DistinctIsOnce(front, e);
    }
  }

  lemma SameOnceIff(p: seq<Event>, q: seq<Event>)
    requires DistinctIds(p) && DistinctIds(q)
    ensures multiset(p) == multiset(q) <==> forall e :: e in p <==> e in q
  {
    forall e ensures multiset(p)[e] == if e in p then 1 else 0 { DistinctIsOnce(p, e); }
    forall e ensures multiset(q)[e] == if e in q then 1 else 0 { DistinctIsOnce(q, e); }
    if multiset(p) == multiset(q) {
      forall e ensures e in p <==> e in q { assert multiset(p)[e] == multiset(q)[e]; }
    }
  }

  /** Nothing is lost exactly when no loaded message runs into a reply cycle: then the cards hold
      every message of the list exactly once. */
  lemma NothingLostIff(list: seq<Event>)
    requires DistinctIds(list)
    ensures KeyedById(ById(list))
    ensures multiset(Shown(Cards(ById(list), list, Posts(ById(list), list)))) == multiset(list)
       <==> forall e :: e in list ==> Grounded(ById(list), e)
  {
    hide DistinctIds, Grounded, Shown, Cards, Posts, ById;
    ShownIffGrounded(list);
    SameOnceIff(Shown(Cards(ById(list), list, Posts(ById(list), list))), list);
  }

  /** Two messages that answer each other are both lost. */
  lemma MutualRepliesAreLost(a: Event, b: Event)
    requires a.id != b.id && ReplyParent(a.tags) == Some(b.id) && ReplyParent(b.tags) == Some(a.id)
    ensures DistinctIds([a, b]) && KeyedById(ById([a, b]))
    ensures forall e :: e !in Shown(Cards(ById([a, b]), [a, b], Posts(ById([a, b]), [a, b])))
  {
    var list := [a, b];
    var byId := ById(list);
    ShownIffGrounded(list);
    ByIdOfDistinct(list);
    var shown := Shown(Cards(byId, list, Posts(byId, list)));
    assert Loaded(byId, a) && Loaded(byId, b);
    forall e | e in list ensures !Grounded(byId, e) {
      forall n: nat ensures !Settled(byId, Climb(byId, e, n)) { CycleClimb(byId, a, b, e, n); }
    }
  }

  lemma {:induction false} CycleClimb(byId: map<string, Event>, a: Event, b: Event, e: Event, n: nat)
    requires Loaded(byId, a) && Loaded(byId, b) && a.id != b.id && (e == a || e == b)
    requires ReplyParent(a.tags) == Some(b.id) && ReplyParent(b.tags) == Some(a.id)
    ensures !Settled(byId, Climb(byId, e, n))
    decreases n
  {
    if n > 0 { CycleClimb(byId, a, b, Parent(byId, e).value, n - 1); }
  }

  lemma GroupsGrow(byId: map<string, Event>, list: seq<Event>, i: nat, id: string)
    requires KeyedById(byId) && i < |list|
    ensures Posts(byId, list[..i + 1])
         == Posts(byId, list[..i]) + if RootOf(byId, list[i]) == list[i] then [list[i]] else []
    ensures Replies(byId, list[..i + 1], id) == Replies(byId, list[..i], id)
              + if RootOf(byId, list[i]) != list[i] && RootOf(byId, list[i]).id == id then [list[i]] else []
  {
    hide RootOf;
    assert list[..i + 1][..i] == list[..i];
  }

  /** A reply is filed under its root, a post nowhere. */
  function Filed(under: map<string, seq<Event>>, e: Event, root: Event): map<string, seq<Event>> {
    if root == e then under else under[root.id := ListIn(under, root.id) + [e]]
  }

  ghost predicate FiledUpTo(byId: map<string, Event>, list: seq<Event>, under: map<string, seq<Event>>)
    requires KeyedById(byId)
  {
    forall id :: ListIn(under, id) == Replies(byId, list, id)
  }

  /** Filing one more message is what the lists of replies grow by. */
  lemma FilingGrows(byId: map<string, Event>, list: seq<Event>, i: nat, under: map<string, seq<Event>>)
    requires KeyedById(byId) && i < |list| && FiledUpTo(byId, list[..i], under)
    ensures FiledUpTo(byId, list[..i + 1], Filed(under, list[i], RootOf(byId, list[i])))
  {
    hide RootOf, Replies;
    forall id
      ensures ListIn(Filed(under, list[i], RootOf(byId, list[i])), id) == Replies(byId, list[..i + 1], id)
    {
      GroupsGrow(byId, list, i, id);
    }
  }

  /** The first loop: every message goes to the posts or under its root. */
  method GroupByRoot(byId: map<string, Event>, list: seq<Event>)
    returns (roots: seq<Event>, under: map<string, seq<Event>>)
    requires KeyedById(byId)
    ensures roots == Posts(byId, list)
    ensures forall id :: ListIn(under, id) == Replies(byId, list, id)
  {
    roots, under := [], map[];
    for i := 0 to |list|
      invariant roots == Posts(byId, list[..i]) && FiledUpTo(byId, list[..i], under)
    {
      GroupsGrow(byId, list, i, "");
      FilingGrows(byId, list, i, under);
      var root := FindRoot(byId, list[i]);
      hide RootOf, KeyedById, Posts, Replies, FiledUpTo;
      if root == list[i] {
        roots := roots + [list[i]];
      } else {
        under := under[root.id := ListIn(under, root.id) + [list[i]]];
      }
    }
    assert list[..|list|] == list;
  }

  /** The second loop: a card for each post. */
  method BuildCards(byId: map<string, Event>, list: seq<Event>, roots: seq<Event>, under: map<string, seq<Event>>)
    returns (cards: seq<Card>)
    requires KeyedById(byId)
    requires forall id :: ListIn(under, id) == Replies(byId, list, id)
    ensures cards == Cards(byId, list, roots)
  {
    cards := [];
    for i := 0 to |roots|
      invariant cards == Cards(byId, list, roots[..i])
    {
      assert roots[..i + 1][..i] == roots[..i];
      var replies := ListIn(under, roots[i].id);
      cards := cards + [Card(roots[i], replies)];
    }
    assert roots[..|roots|] == roots;
  }

  method RenderPublication(list: seq<Event>) returns (cards: seq<Card>)
    requires DistinctIds(list)
    ensures KeyedById(ById(list)) && cards == Cards(ById(list), list, Posts(ById(list), list))
  {
    var byId := IndexById(list);
    ByIdOfDistinct(list);
    var roots, under := GroupByRoot(byId, list);
    cards := BuildCards(byId, list, roots, under);
  }

  method IndexById(list: seq<Event>) returns (byId: map<string, Event>)
    ensures byId == ById(list)
  {
    byId := map[];
    for i := 0 to |list|
      invariant byId == ById(list[..i])
    {
      assert list[..i + 1][..i] == list[..i];
      byId := byId[list[i].id := list[i]];
    }
    assert list[..|list|] == list;
  }
}
