/** `Db::query`: the clauses built for SQLite, what they select, and their agreement with the plain
    matcher used on live events. */
module Querying {
  import opened Text
  import opened Ordering
  import opened Nostr
  import opened Tables

  const DEFAULT_QUERY_LIMIT := 500
  const MAX_QUERY_LIMIT := 5000
  const TWO_63 := 0x8000_0000_0000_0000
  const TWO_64 := 0x1_0000_0000_0000_0000

  /** `as i64` on a `u64`. */
  function AsI64(x: nat): int {
    if x < TWO_63 then x else x - TWO_64
  }

  /** One conjunct of the WHERE clause. */
  datatype Clause =
    | Never
    | IdIn(ids: seq<string>)
    | PubkeyIn(keys: seq<string>)
    | KindIn(kinds: seq<nat>)
    | CreatedFrom(least: int)
    | CreatedTo(most: int)
    | HasTag(name: string, values: seq<string>)

  predicate Holds(c: Clause, rows: set<TagRow>, e: Event) {
    match c
    case Never => false
    case IdIn(ids) => e.id in ids
    case PubkeyIn(keys) => e.pubkey in keys
    case KindIn(kinds) => e.kind in kinds
    case CreatedFrom(least) => AsI64(e.createdAt) >= least
    case CreatedTo(most) => AsI64(e.createdAt) <= most
    case HasTag(name, values) => exists v :: v in values && TagRow(e.id, name, v) in rows
  }

  predicate HoldsAll(cs: seq<Clause>, rows: set<TagRow>, e: Event) {
    forall c :: c in cs ==> Holds(c, rows, e)
  }

  function TagClause(tf: (string, seq<string>)): Clause {
    if tf.1 == [] then Never else HasTag(tf.0, tf.1)
  }

  function TagClauses(tfs: seq<(string, seq<string>)>): seq<Clause> {
    if tfs == [] then [] else [TagClause(tfs[0])] + TagClauses(tfs[1..])
  }

  function ColumnClauses(f: Filter): seq<Clause> {
    (if f.ids.Some? then [if f.ids.value == [] then Never else IdIn(f.ids.value)] else [])
    + (if f.authors.Some? then [if f.authors.value == [] then Never else PubkeyIn(f.authors.value)] else [])
    + (if f.kinds.Some? then [if f.kinds.value == [] then Never else KindIn(f.kinds.value)] else [])
    + (if f.since.Some? then [CreatedFrom(AsI64(f.since.value))] else [])
    + (if f.until.Some? then [CreatedTo(AsI64(f.until.value))] else [])
  }

  function Clauses(f: Filter): seq<Clause> {
    ColumnClauses(f) + TagClauses(TagFilters(f.extra))
  }

  function Limit(f: Filter): nat {
    var n := if f.limit.Some? then f.limit.value else DEFAULT_QUERY_LIMIT;
    if n < MAX_QUERY_LIMIT then n else MAX_QUERY_LIMIT
  }

  /** The sort key of `ORDER BY created_at DESC, id ASC`. */
  function RowKey(e: Event): Key {
    Key(-AsI64(e.createdAt), e.id)
  }

  // ---- pages ----

  function EventsAt(events: map<string, Event>, ks: seq<Key>): seq<Event>
    requires forall k :: k in ks ==> k.s in events
  {
    if ks == [] then [] else [events[ks[0].s]] + EventsAt(events, ks[1..])
  }

  /** The keys of the stored events that pass. */
  function Passing(events: map<string, Event>, pass: Event -> bool): set<Key> {
    set id | id in events && pass(events[id]) :: Key(-AsI64(events[id].createdAt), id)
  }

  /** The first `n` of the stored events that pass, newest first. */
  ghost function Page(events: map<string, Event>, pass: Event -> bool, n: nat): seq<Event> {
    var ks := SortedKeys(Passing(events, pass));
    assert forall k :: k in ks ==> k in Passing(events, pass);
    EventsAt(events, FirstOf(ks, n))
  }

  function FirstOf(ks: seq<Key>, n: nat): (top: seq<Key>)
    ensures forall k :: k in top ==> k in ks
  {
    if |ks| <= n then ks else ks[..n]
  }

  /** Rows not given out before, in order. */
  function Fresh(rows: seq<Event>, given: set<string>): seq<Event> {
    if rows == [] then []
    else if rows[0].id in given then Fresh(rows[1..], given)
    else [rows[0]] + Fresh(rows[1..], given + {rows[0].id})
  }

  function Ids(rows: seq<Event>): set<string> {
    set e | e in rows :: e.id
  }

  /** All pages one after the other, each event once. */
  function Union(pages: seq<seq<Event>>, given: set<string>): seq<Event> {
    if pages == [] then []
    else Fresh(pages[0], given) + Union(pages[1..], given + Ids(pages[0]))
  }

  /** `SELECT … WHERE cs ORDER BY created_at DESC, id ASC LIMIT limit`. */
  ghost function SqlSelect(t: Tables, cs: seq<Clause>, limit: nat): seq<Event> {
    Page(t.events, (e: Event) => HoldsAll(cs, t.rows, e), limit)
  }

  ghost function SqlPage(t: Tables, f: Filter): seq<Event> {
    SqlSelect(t, Clauses(f), Limit(f))
  }

  ghost function SqlPages(t: Tables, fs: seq<Filter>): seq<seq<Event>> {
    if fs == [] then [] else [SqlPage(t, fs[0])] + SqlPages(t, fs[1..])
  }

  ghost function Query(t: Tables, fs: seq<Filter>): seq<Event> {
    Union(SqlPages(t, fs), {})
  }

  lemma {:induction false} SqlPagesLength(t: Tables, fs: seq<Filter>)
    ensures |SqlPages(t, fs)| == |fs|
  {
    hide SqlPage;
    if fs != [] { SqlPagesLength(t, fs[1..]); }
  }

  lemma {:induction false} SqlPagesIndex(t: Tables, fs: seq<Filter>, i: nat)
    requires i < |fs|
    ensures i < |SqlPages(t, fs)| && SqlPages(t, fs)[i] == SqlPage(t, fs[i])
  {
    hide SqlPage;
    if i > 0 { SqlPagesIndex(t, fs[1..], i - 1); }
  }

  lemma UnionStep(pages: seq<seq<Event>>, i: nat, given: set<string>, out: seq<Event>)
    requires i < |pages|
    ensures out + Union(pages[i..], given)
         == (out + Fresh(pages[i], given)) + Union(pages[i + 1..], given + Ids(pages[i]))
  {
    assert pages[i..][0] == pages[i] && pages[i..][1..] == pages[i + 1..];
  }

  // ---- the specification: the plain matcher ----

  ghost function MatchPage(events: map<string, Event>, f: Filter): seq<Event> {
    Page(events, (e: Event) => Matches(f, e), Limit(f))
  }

  ghost function MatchPages(events: map<string, Event>, fs: seq<Filter>): seq<seq<Event>> {
    if fs == [] then [] else [MatchPage(events, fs[0])] + MatchPages(events, fs[1..])
  }

  /** Filters whose tag names are indexed (or can match nothing anyway) and whose times fit an i64. */
  predicate Agreeable(f: Filter) {
    && (f.since.Some? ==> f.since.value < TWO_63)
    && (f.until.Some? ==> f.until.value < TWO_63)
    && (forall tf :: tf in TagFilters(f.extra) ==> OneByte(tf.0) || tf.1 == [])
  }

  predicate AllAgreeable(fs: seq<Filter>) {
    forall f :: f in fs ==> Agreeable(f)
  }

  /** Stored times fit the i64 column. */
  predicate TimesFit(t: Tables) {
    forall id :: id in t.events ==> t.events[id].createdAt < TWO_63
  }

  lemma {:induction false} TagClausesHold(tfs: seq<(string, seq<string>)>, c: Clause)
    ensures c in TagClauses(tfs) <==> exists tf :: tf in tfs && c == TagClause(tf)
  {
    if tfs != [] {
      TagClausesHold(tfs[1..], c);
      if tf :| tf in tfs && c == TagClause(tf) {
        assert tf == tfs[0] || tf in tfs[1..];
      }
      if c in TagClauses(tfs) && c != TagClause(tfs[0]) {
        var tf :| tf in tfs[1..] && c == TagClause(tf);
        assert tf in tfs;
      }
    }
  }

  lemma TagClauseAgrees(t: Tables, tf: (string, seq<string>), id: string)
    requires IndexExact(t) && id in t.events && (OneByte(tf.0) || tf.1 == [])
    ensures Holds(TagClause(tf), t.rows, t.events[id]) <==> TagMatches(tf, t.events[id])
  {
    if tf.1 != [] {
      forall v ensures TagRow(id, tf.0, v) in t.rows <==> v in TagValues(t.events[id].tags, tf.0) {
        RowsOfStored(t, id, tf.0, v);
      }
    }
  }

  lemma ColumnClausesAgree(t: Tables, f: Filter, e: Event)
    requires Agreeable(f) && e.createdAt < TWO_63
    ensures HoldsAll(ColumnClauses(f), t.rows, e) <==>
              && (f.ids.Some? ==> e.id in f.ids.value)
              && (f.authors.Some? ==> e.pubkey in f.authors.value)
              && (f.kinds.Some? ==> e.kind in f.kinds.value)
              && (f.since.Some? ==> f.since.value <= e.createdAt)
              && (f.until.Some? ==> e.createdAt <= f.until.value)
  {
    hide TagClauses, TagFilters;
    var cs := ColumnClauses(f);
    if HoldsAll(cs, t.rows, e) {
      if f.ids.Some? { assert (if f.ids.value == [] then Never else IdIn(f.ids.value)) in cs; }
      if f.authors.Some? { assert (if f.authors.value == [] then Never else PubkeyIn(f.authors.value)) in cs; }
      if f.kinds.Some? { assert (if f.kinds.value == [] then Never else KindIn(f.kinds.value)) in cs; }
      if f.since.Some? { assert CreatedFrom(AsI64(f.since.value)) in cs; }
      if f.until.Some? { assert CreatedTo(AsI64(f.until.value)) in cs; }
    }
  }

  /** The WHERE clause and the live matcher accept the same stored events. */
  lemma ClausesAgree(t: Tables, f: Filter, id: string)
    requires IndexExact(t) && TimesFit(t) && Agreeable(f) && id in t.events
    ensures HoldsAll(Clauses(f), t.rows, t.events[id]) <==> Matches(f, t.events[id])
  {
    var e, tfs := t.events[id], TagFilters(f.extra);
    ColumnClausesAgree(t, f, e);
    forall tf | tf in tfs ensures Holds(TagClause(tf), t.rows, e) <==> TagMatches(tf, e) { TagClauseAgrees(t, tf, id); }
    forall c ensures c in TagClauses(tfs) <==> exists tf :: tf in tfs && c == TagClause(tf) { TagClausesHold(tfs, c); }
    assert HoldsAll(TagClauses(tfs), t.rows, e) <==> forall tf :: tf in tfs ==> TagMatches(tf, e) by {
      forall tf | tf in tfs ensures TagClause(tf) in TagClauses(tfs) {}
    }
    assert HoldsAll(Clauses(f), t.rows, e) <==>
             HoldsAll(ColumnClauses(f), t.rows, e) && HoldsAll(TagClauses(tfs), t.rows, e);
  }

  /** Query refines matching: page by page the database gives what the plain matcher selects. */
  lemma {:induction false} QueryRefinesMatching(t: Tables, fs: seq<Filter>)
    requires IndexExact(t) && TimesFit(t) && AllAgreeable(fs)
    ensures SqlPages(t, fs) == MatchPages(t.events, fs)
    ensures Query(t, fs) == Union(MatchPages(t.events, fs), {})
  {
    if fs != [] {
      var f := fs[0];
      forall id | id in t.events
        ensures HoldsAll(Clauses(f), t.rows, t.events[id]) <==> Matches(f, t.events[id])
      {
        ClausesAgree(t, f, id);
      }
      assert Passing(t.events, (e: Event) => HoldsAll(Clauses(f), t.rows, e))
          == Passing(t.events, (e: Event) => Matches(f, e));
      QueryRefinesMatching(t, fs[1..]);
    }
  }

  // ---- what a page is ----

  lemma {:induction false} EventsAtIndex(events: map<string, Event>, ks: seq<Key>)
    requires forall k :: k in ks ==> k.s in events
    ensures |EventsAt(events, ks)| == |ks|
    ensures forall i :: 0 <= i < |ks| ==> EventsAt(events, ks)[i] == events[ks[i].s]
  {
    if ks != [] { EventsAtIndex(events, ks[1..]); }
  }

  ghost predicate KeyedById(events: map<string, Event>) {
    forall id :: id in events ==> events[id].id == id
  }

  /** The keys a page is cut from. */
  ghost function PageKeys(events: map<string, Event>, pass: Event -> bool, n: nat): (ks: seq<Key>)
    ensures forall k :: k in ks ==> k.s in events && pass(events[k.s]) && k.n == -AsI64(events[k.s].createdAt)
    ensures StrictlySorted(ks)
    ensures Page(events, pass, n) == EventsAt(events, ks)
    ensures |ks| == (if |Passing(events, pass)| <= n then |Passing(events, pass)| else n)
  {
    var all := SortedKeys(Passing(events, pass));
    assert forall k :: k in all ==> k in Passing(events, pass);
    FirstOf(all, n)
  }

  lemma PageItem(events: map<string, Event>, pass: Event -> bool, n: nat, i: nat)
    requires KeyedById(events) && i < |PageKeys(events, pass, n)|
    ensures |Page(events, pass, n)| == |PageKeys(events, pass, n)|
    ensures var e := Page(events, pass, n)[i];
      RowKey(e) == PageKeys(events, pass, n)[i] && e.id in events && events[e.id] == e && pass(e)
  {
    EventsAtIndex(events, PageKeys(events, pass, n));
    assert PageKeys(events, pass, n)[i] in PageKeys(events, pass, n);
  }

  lemma LeftOutComesLater(events: map<string, Event>, pass: Event -> bool, n: nat, i: nat, x: Event)
    requires KeyedById(events) && i < |PageKeys(events, pass, n)|
    requires x.id in events && events[x.id] == x && pass(x)
    ensures |Page(events, pass, n)| == |PageKeys(events, pass, n)|
    ensures x in Page(events, pass, n) || KeyLess(RowKey(Page(events, pass, n)[i]), RowKey(x))
  {
    var all, ks := SortedKeys(Passing(events, pass)), PageKeys(events, pass, n);
    PageItem(events, pass, n, i);
    var j := MatchHasPlace(events, pass, x);
    if j < |ks| {
      PageItem(events, pass, n, j);
      assert Page(events, pass, n)[j] == x;
    } else {
      assert ks[i] == all[i];
    }
  }

  /** A page is strictly ordered by (created_at descending, id ascending), holds only stored events
      that match, has min(limit, number of matches) of them, and leaves out only later ones. */
  lemma PageIsTheTop(events: map<string, Event>, pass: Event -> bool, n: nat)
    requires KeyedById(events)
    ensures |Page(events, pass, n)| == (if |Passing(events, pass)| <= n then |Passing(events, pass)| else n)
    ensures forall i, j :: 0 <= i < j < |Page(events, pass, n)| ==>
              KeyLess(RowKey(Page(events, pass, n)[i]), RowKey(Page(events, pass, n)[j]))
    ensures forall e :: e in Page(events, pass, n) ==> e.id in events && events[e.id] == e && pass(e)
    ensures forall e: Event, x: Event ::
              (e in Page(events, pass, n) && x.id in events && events[x.id] == x && pass(x)
               && x !in Page(events, pass, n)) ==> KeyLess(RowKey(e), RowKey(x))
  {
    var ks, p := PageKeys(events, pass, n), Page(events, pass, n);
    EventsAtIndex(events, ks);
    forall i | 0 <= i < |ks|
      ensures RowKey(p[i]) == ks[i] && p[i].id in events && events[p[i].id] == p[i] && pass(p[i])
    {
      PageItem(events, pass, n, i);
    }
    forall e: Event, x: Event | e in p && x.id in events && events[x.id] == x && pass(x) && x !in p
      ensures KeyLess(RowKey(e), RowKey(x))
    {
      var i :| 0 <= i < |p| && p[i] == e;
      LeftOutComesLater(events, pass, n, i, x);
    }
  }

  lemma MatchHasPlace(events: map<string, Event>, pass: Event -> bool, x: Event) returns (j: nat)
    requires x.id in events && events[x.id] == x && pass(x)
    ensures j < |SortedKeys(Passing(events, pass))| && SortedKeys(Passing(events, pass))[j] == RowKey(x)
  {
    assert RowKey(x) in Passing(events, pass);
    assert RowKey(x) in SortedKeys(Passing(events, pass));
    j :| 0 <= j < |SortedKeys(Passing(events, pass))| && SortedKeys(Passing(events, pass))[j] == RowKey(x);
  }

  /** A page that is not full holds every match. */
  lemma RoomyPageIsAll(events: map<string, Event>, pass: Event -> bool, n: nat, x: Event)
    requires KeyedById(events) && |Passing(events, pass)| <= n
    ensures x in Page(events, pass, n) <==> x.id in events && events[x.id] == x && pass(x)
  {
    EventsAtIndex(events, PageKeys(events, pass, n));
    if x in Page(events, pass, n) {
      var i :| 0 <= i < |Page(events, pass, n)| && Page(events, pass, n)[i] == x;
      PageItem(events, pass, n, i);
    }
    if x.id in events && events[x.id] == x && pass(x) {
      var j := MatchHasPlace(events, pass, x);
      PageItem(events, pass, n, j);
      assert Page(events, pass, n)[j] == x;
    }
  }

  // ---- what several filters give ----

  ghost predicate DistinctIds(q: seq<Event>) {
    forall i, j :: 0 <= i < j < |q| ==> q[i].id != q[j].id
  }

  lemma {:induction false} FreshIsOnce(rows: seq<Event>, given: set<string>)
    ensures DistinctIds(Fresh(rows, given))
    ensures forall e :: e in Fresh(rows, given) ==> e in rows && e.id !in given
  {
    if rows != [] {
      FreshIsOnce(rows[1..], if rows[0].id in given then given else given + {rows[0].id});
    }
  }

  lemma {:induction false} FreshCovers(rows: seq<Event>, given: set<string>, e: Event)
    requires e in rows && e.id !in given
    ensures exists x :: x in Fresh(rows, given) && x.id == e.id
  {
    if rows[0].id == e.id {
      assert Fresh(rows, given)[0] == rows[0];
    } else {
      var given' := if rows[0].id in given then given else given + {rows[0].id};
      FreshCovers(rows[1..], given', e);
      var x :| x in Fresh(rows[1..], given') && x.id == e.id;
      assert x in Fresh(rows, given);
    }
  }

  ghost predicate AllStored(events: map<string, Event>, pages: seq<seq<Event>>) {
    forall p, e :: p in pages && e in p ==> e.id in events && events[e.id] == e
  }

  /** The union of the pages holds each of their events exactly once. */
  lemma {:induction false} UnionIsOnce(events: map<string, Event>, pages: seq<seq<Event>>, given: set<string>)
    requires AllStored(events, pages)
    ensures DistinctIds(Union(pages, given))
    ensures forall e :: e in Union(pages, given) <==> e.id !in given && exists p :: p in pages && e in p
    decreases |pages|
  {
    if pages != [] {
      var head, rest := Fresh(pages[0], given), Union(pages[1..], given + Ids(pages[0]));
      FreshIsOnce(pages[0], given);
      assert AllStored(events, pages[1..]) by { forall p | p in pages[1..] ensures p in pages {} }
      UnionIsOnce(events, pages[1..], given + Ids(pages[0]));
      forall e ensures e in Union(pages, given) <==> e.id !in given && exists p :: p in pages && e in p {
        if e in rest {
          var p :| p in pages[1..] && e in p;
          assert p in pages;
        }
        if p :| p in pages && e in p && e.id !in given {
          if e.id in Ids(pages[0]) {
            var x :| x in pages[0] && x.id == e.id;
            assert pages[0] in pages;
            FreshCovers(pages[0], given, x);
            var y :| y in head && y.id == e.id;
            assert y == e;
          } else {
            assert p != pages[0];
            assert p in pages[1..];
          }
        }
      }
      forall i, j | 0 <= i < j < |head + rest| ensures (head + rest)[i].id != (head + rest)[j].id {
        if i < |head| <= j {
          assert (head + rest)[j] in rest;
          assert (head + rest)[i] in head;
        }
      }
    }
  }

  lemma {:induction false} MatchPagesHold(events: map<string, Event>, fs: seq<Filter>, p: seq<Event>)
    ensures p in MatchPages(events, fs) <==> exists f :: f in fs && p == MatchPage(events, f)
  {
    if fs != [] {
      MatchPagesHold(events, fs[1..], p);
      if f :| f in fs && p == MatchPage(events, f) { assert f == fs[0] || f in fs[1..]; }
      if p in MatchPages(events, fs[1..]) {
        var f :| f in fs[1..] && p == MatchPage(events, f);
        assert f in fs;
      }
    }
  }

  /** No filter selects more stored events than its limit. */
  ghost predicate LimitsNotHit(events: map<string, Event>, fs: seq<Filter>) {
    forall f :: f in fs ==> |Passing(events, (e: Event) => Matches(f, e))| <= Limit(f)
  }

  /** Several filters give the duplicate-free union of their pages; when no limit is hit, exactly
      the stored events that match one of the filters. */
  lemma QueryIsTheUnion(t: Tables, fs: seq<Filter>)
    requires IndexExact(t) && TimesFit(t) && AllAgreeable(fs)
    ensures DistinctIds(Query(t, fs))
    ensures forall e :: e in Query(t, fs) <==> exists f :: f in fs && e in MatchPage(t.events, f)
    ensures LimitsNotHit(t.events, fs) ==>
              forall e :: e in Query(t, fs) <==> e.id in t.events && t.events[e.id] == e && MatchesAny(fs, e)
  {
    var pages := MatchPages(t.events, fs);
    QueryRefinesMatching(t, fs);
    forall p ensures p in pages <==> exists f :: f in fs && p == MatchPage(t.events, f) {
      MatchPagesHold(t.events, fs, p);
    }
    forall f ensures forall e :: e in MatchPage(t.events, f) ==> e.id in t.events && t.events[e.id] == e {
      PageIsTheTop(t.events, (e: Event) => Matches(f, e), Limit(f));
    }
    assert AllStored(t.events, pages);
    UnionIsOnce(t.events, pages, {});
    forall e ensures e in Query(t, fs) <==> exists f :: f in fs && e in MatchPage(t.events, f) {
      if f :| f in fs && e in MatchPage(t.events, f) { assert MatchPage(t.events, f) in pages; }
    }
    if LimitsNotHit(t.events, fs) {
      forall f, e | f in fs
        ensures e in MatchPage(t.events, f) <==> e.id in t.events && t.events[e.id] == e && Matches(f, e)
      {
        RoomyPageIsAll(t.events, (x: Event) => Matches(f, x), Limit(f), e);
      }
    }
  }

  // ---- the same in plain terms ----

  /** Newest first, and of equal times the lower id first. */
  predicate ComesFirst(a: Event, b: Event) {
    a.createdAt > b.createdAt || (a.createdAt == b.createdAt && StrLess(a.id, b.id))
  }

  ghost predicate InOrder(q: seq<Event>) {
    forall i, j :: 0 <= i < j < |q| ==> ComesFirst(q[i], q[j])
  }

  function StoredMatches(events: map<string, Event>, f: Filter): set<string> {
    set id | id in events && Matches(f, events[id])
  }

  lemma PassingCounts(events: map<string, Event>, f: Filter)
    ensures |Passing(events, (e: Event) => Matches(f, e))| == |StoredMatches(events, f)|
  {
    var pass := (e: Event) => Matches(f, e);
    var ids := StoredMatches(events, f);
    KeysCount(events, ids);
    assert Passing(events, pass) == KeysOf(events, ids);
  }

  function KeysOf(events: map<string, Event>, ids: set<string>): set<Key>
    requires ids <= events.Keys
  {
    set id | id in ids :: Key(-AsI64(events[id].createdAt), id)
  }

  lemma {:induction false} KeysCount(events: map<string, Event>, ids: set<string>)
    requires ids <= events.Keys
    ensures |KeysOf(events, ids)| == |ids|
    decreases |ids|
  {
    if ids != {} {
      var id :| id in ids;
      KeysCount(events, ids - {id});
      var k := Key(-AsI64(events[id].createdAt), id);
      assert KeysOf(events, ids) == KeysOf(events, ids - {id}) + {k};
      assert k !in KeysOf(events, ids - {id});
    }
  }

  /** The page of a filter: of the stored events it matches the first 500, or as many as it asks for but
      never over 5000, newest first. */
  lemma PageInPlainTerms(t: Tables, f: Filter)
    requires IndexExact(t) && TimesFit(t)
    ensures var page := MatchPage(t.events, f);
      var most := if f.limit.None? then 500 else if f.limit.value < 5000 then f.limit.value else 5000;
      && |page| == (if |StoredMatches(t.events, f)| < most then |StoredMatches(t.events, f)| else most)
      && InOrder(page)
      && (forall e :: e in page ==> e.id in t.events && t.events[e.id] == e && Matches(f, e))
      && (forall e: Event, x: Event ::
            e in page && x !in page && x.id in t.events && t.events[x.id] == x && Matches(f, x) ==> ComesFirst(e, x))
  {
    hide Passing, Matches, KeyLess, ComesFirst, RowKey, Page;
    var pass := (e: Event) => Matches(f, e);
    var page := MatchPage(t.events, f);
    PassingCounts(t.events, f);
    PageIsTheTop(t.events, pass, Limit(f));
    forall a: Event, b: Event | Fits(t, a) && Fits(t, b) ensures KeyLess(RowKey(a), RowKey(b)) <==> ComesFirst(a, b) {
      RowKeyOrder(a, b);
    }
    assert forall e :: e in page ==> Fits(t, e);
    assert forall i :: 0 <= i < |page| ==> page[i] in page;
  }

  predicate Fits(t: Tables, e: Event) {
    e.id in t.events && t.events[e.id] == e && e.createdAt < TWO_63
  }

  lemma RowKeyOrder(a: Event, b: Event)
    requires a.createdAt < TWO_63 && b.createdAt < TWO_63
    ensures KeyLess(RowKey(a), RowKey(b)) <==> ComesFirst(a, b)
  {
  }

  /** One filter is answered with its page. */
  lemma OneFilterIsItsPage(t: Tables, f: Filter)
    requires IndexExact(t) && TimesFit(t) && Agreeable(f)
    ensures Query(t, [f]) == MatchPage(t.events, f)
  {
    QueryRefinesMatching(t, [f]);
    var page := MatchPage(t.events, f);
    assert MatchPages(t.events, [f]) == [page];
    assert Union([page], {}) == Fresh(page, {}) + Union([], Ids(page));
    PageInPlainTerms(t, f);
    InOrderIsDistinct(t.events, page);
    FreshOfDistinct(page, {});
  }

  lemma InOrderIsDistinct(events: map<string, Event>, q: seq<Event>)
    requires InOrder(q) && forall e :: e in q ==> e.id in events && events[e.id] == e
    ensures DistinctIds(q)
  {
    forall i, j | 0 <= i < j < |q| ensures q[i].id != q[j].id {
      assert ComesFirst(q[i], q[j]) && q[i] in q && q[j] in q;
      StrLessIrreflexive(q[i].id);
    }
  }

  lemma {:induction false} FreshOfDistinct(rows: seq<Event>, given: set<string>)
    requires DistinctIds(rows) && forall e :: e in rows ==> e.id !in given
    ensures Fresh(rows, given) == rows
  {
    if rows != [] {
      assert rows[0] in rows;
      forall e | e in rows[1..] ensures e.id !in given + {rows[0].id} {
        var i :| 0 <= i < |rows[1..]| && rows[1..][i] == e;
        assert rows[i + 1] == e;
      }
      FreshOfDistinct(rows[1..], given + {rows[0].id});
    }
  }

  lemma {:induction false} FreshInOrder(rows: seq<Event>, given: set<string>)
    requires InOrder(rows)
    ensures InOrder(Fresh(rows, given))
    ensures forall e :: e in Fresh(rows, given) ==> e in rows
  {
    if rows != [] {
      var given' := if rows[0].id in given then given else given + {rows[0].id};
      FreshInOrder(rows[1..], given');
      forall e | e in Fresh(rows[1..], given') ensures ComesFirst(rows[0], e) {
        var i :| 0 <= i < |rows[1..]| && rows[1..][i] == e;
        assert rows[i + 1] == e;
      }
    }
  }

  lemma {:induction false} UnionAppends(pages: seq<seq<Event>>, last: seq<Event>, given: set<string>)
    ensures Union(pages + [last], given) == Union(pages, given) + Fresh(last, given + IdsOfAll(pages))
  {
    if pages == [] {
      assert pages + [last] == [last] && given + IdsOfAll(pages) == given;
      assert Union([last], given) == Fresh(last, given) + Union([], given + Ids(last));
    } else {
      assert (pages + [last])[0] == pages[0] && (pages + [last])[1..] == pages[1..] + [last];
      UnionAppends(pages[1..], last, given + Ids(pages[0]));
      assert given + IdsOfAll(pages) == given + Ids(pages[0]) + IdsOfAll(pages[1..]);
    }
  }

  function IdsOfAll(pages: seq<seq<Event>>): set<string> {
    if pages == [] then {} else Ids(pages[0]) + IdsOfAll(pages[1..])
  }

  lemma {:induction false} IdsOfAllHold(pages: seq<seq<Event>>, id: string)
    ensures id in IdsOfAll(pages) <==> exists p, e :: p in pages && e in p && e.id == id
  {
    if pages != [] {
      IdsOfAllHold(pages[1..], id);
      if p, e :| p in pages && e in p && e.id == id { assert p == pages[0] || p in pages[1..]; }
      if p, e :| p in pages[1..] && e in p && e.id == id { assert p in pages; }
    }
  }

  lemma {:induction false} MatchPagesAppend(events: map<string, Event>, fs: seq<Filter>, f: Filter)
    ensures MatchPages(events, fs + [f]) == MatchPages(events, fs) + [MatchPage(events, f)]
  {
    if fs == [] {
      assert fs + [f] == [f];
    } else {
      assert (fs + [f])[0] == fs[0] && (fs + [f])[1..] == fs[1..] + [f];
      MatchPagesAppend(events, fs[1..], f);
    }
  }

  /** A further filter adds, after the answer to the others, what of its page they did not bring, newest
      first. */
  lemma FurtherFilterAdds(t: Tables, fs: seq<Filter>, f: Filter) returns (more: seq<Event>)
    requires IndexExact(t) && TimesFit(t) && AllAgreeable(fs) && Agreeable(f)
    ensures Query(t, fs + [f]) == Query(t, fs) + more && InOrder(more)
    ensures forall e :: e in more <==> e in MatchPage(t.events, f) && e !in Query(t, fs)
  {
    hide MatchPage, AllAgreeable, Agreeable, Query, Fresh, InOrder;
    assert AllAgreeable(fs + [f]) by { AgreeableAppends(fs, f); }
    QueryRefinesMatching(t, fs);
    QueryRefinesMatching(t, fs + [f]);
    MatchPagesAppend(t.events, fs, f);
    var pages, page := MatchPages(t.events, fs), MatchPage(t.events, f);
    UnionAppends(pages, page, {});
    more := Fresh(page, IdsOfAll(pages));
    assert {} + IdsOfAll(pages) == IdsOfAll(pages);
    PageInPlainTerms(t, f);
    FreshInOrder(page, IdsOfAll(pages));
    MoreIsFresh(t, fs, f, more);
  }

  lemma AgreeableAppends(fs: seq<Filter>, f: Filter)
    requires AllAgreeable(fs) && Agreeable(f)
    ensures AllAgreeable(fs + [f])
  {
  }

  lemma MoreIsFresh(t: Tables, fs: seq<Filter>, f: Filter, more: seq<Event>)
    requires IndexExact(t) && TimesFit(t) && AllAgreeable(fs)
    requires more == Fresh(MatchPage(t.events, f), IdsOfAll(MatchPages(t.events, fs)))
    ensures forall e :: e in more <==> e in MatchPage(t.events, f) && e !in Query(t, fs)
  {
    hide MatchPage, AllAgreeable, Agreeable, Query, Fresh, InOrder, ComesFirst, TimesFit;
    var pages, page := MatchPages(t.events, fs), MatchPage(t.events, f);
    FreshIsOnce(page, IdsOfAll(pages));
    QueryIsTheUnion(t, fs);
    PagesAreStored(t, fs);
    PageInPlainTerms(t, f);
    forall e | e in page ensures e.id in IdsOfAll(pages) <==> e in Query(t, fs) {
      IdsOfAllHold(pages, e.id);
      forall p ensures p in pages <==> exists g :: g in fs && p == MatchPage(t.events, g) {
        MatchPagesHold(t.events, fs, p);
      }
      if p, x :| p in pages && x in p && x.id == e.id { assert x == e; }
      if g :| g in fs && e in MatchPage(t.events, g) { assert MatchPage(t.events, g) in pages; }
    }
    forall e | e in page && e.id !in IdsOfAll(pages) ensures e in more {
      FreshCovers(page, IdsOfAll(pages), e);
      var x :| x in more && x.id == e.id;
      assert x == e;
    }
  }

  lemma PagesAreStored(t: Tables, fs: seq<Filter>)
    requires IndexExact(t) && TimesFit(t)
    ensures AllStored(t.events, MatchPages(t.events, fs))
  {
    forall p, e | p in MatchPages(t.events, fs) && e in p ensures e.id in t.events && t.events[e.id] == e {
      MatchPagesHold(t.events, fs, p);
      var f :| f in fs && p == MatchPage(t.events, f);
      PageInPlainTerms(t, f);
    }
  }

  // ---- where the two matchers part ----

  /** On a time bound the cast is harmless exactly below 2^63: above, `since` selects everything
      stored although the matcher accepts nothing, and `until` the other way round. */
  lemma SinceAgreesIff(since: nat)
    requires since < TWO_64
    ensures since < TWO_63 <==>
              forall at: nat :: at < TWO_63 ==> (AsI64(at) >= AsI64(since) <==> at >= since)
    ensures since < TWO_63 <==>
              forall at: nat :: at < TWO_63 ==> (AsI64(at) <= AsI64(since) <==> at <= since)
  {
    if since >= TWO_63 {
      var at: nat := 0;
      assert AsI64(at) >= AsI64(since) && !(at >= since);
      assert !(AsI64(at) <= AsI64(since)) && at <= since;
    }
  }

  /** A tag filter agrees on every store with an exact index iff its name is one byte or it lists no
      value: a longer name is never indexed, so history misses what the live tail delivers. */
  lemma TagFilterAgreesIff(tf: (string, seq<string>))
    ensures (OneByte(tf.0) || tf.1 == []) <==>
              forall t: Tables, id :: IndexExact(t) && id in t.events ==>
                (Holds(TagClause(tf), t.rows, t.events[id]) <==> TagMatches(tf, t.events[id]))
  {
    if OneByte(tf.0) || tf.1 == [] {
      forall t: Tables, id | IndexExact(t) && id in t.events
        ensures Holds(TagClause(tf), t.rows, t.events[id]) <==> TagMatches(tf, t.events[id])
      {
        TagClauseAgrees(t, tf, id);
      }
    } else {
      var e := Event("x", "", 0, CHAT, [[tf.0, tf.1[0]]], "", "");
      var t := EMPTY.(events := map["x" := e]);
      assert IndexRows(e) == {};
      assert IndexExact(t);
      TagValuesHolds(e.tags, tf.0, tf.1[0]);
      assert [tf.0, tf.1[0]] in e.tags;
      assert TagMatches(tf, e);
      assert !Holds(TagClause(tf), t.rows, t.events["x"]);
    }
  }
}
