/** The database object (crates/menhir-relay/src/db.rs): tables as fields that its methods update in
    place, each method proved to do to them what the function of the same name in `Tables` says.
    Calls are infallible, and each is one critical section behind the connection's mutex. */
module Database {
  import opened Text
  import opened Ordering
  import opened Nostr
  import opened Tables
  import opened Querying

  class Db {
    var events: map<string, Event>
    var rows: set<TagRow>
    var groups: map<string, Group>
    var members: map<(string, string), Member>
    var retired: set<string>
    var whitelist: set<string>
    var invites: map<string, Invite>

    ghost function View(): Tables
      reads this
    {
      Tables(events, rows, groups, members, retired, whitelist, invites)
    }

    constructor ()
      ensures View() == EMPTY
    {
      events, rows, groups, members, retired, whitelist, invites := map[], {}, map[], map[], {}, {}, map[];
    }

    // ---- events ----

    method HasEvent(id: string) returns (found: bool)
      ensures found <==> id in View().events
    {
      found := id in events;
    }

    /** The SELECT for the rows the incoming event competes with. */
    method Competitors(ev: Event) returns (existing: set<string>)
      ensures existing == Existing(View(), ev)
    {
      if IsReplaceable(ev.kind) {
        existing := set id | id in events && events[id].kind == ev.kind && events[id].pubkey == ev.pubkey;
      } else if IsAddressable(ev.kind) {
        var d := FirstTag(ev.tags, "d");
        var key := if d.Some? then d.value else "";
        existing := set id | id in events && events[id].kind == ev.kind && events[id].pubkey == ev.pubkey
                               && IndexedUnder(rows, id, key);
      } else {
        existing := {};
      }
    }

    method DeleteEvent(id: string)
      modifies this
      ensures View() == old(View()).(events := old(events) - {id}, rows := set r | r in old(rows) && r.eventId != id)
    {
      events := events - {id};
      rows := set r | r in rows && r.eventId != id;
    }

    method DeleteEvents(ids: set<string>)
      modifies this
      ensures View() == old(View()).(events := old(events) - ids, rows := set r | r in old(rows) && r.eventId !in ids)
    {
      var todo := ids;
      ghost var done := {};
      while todo != {}
        invariant done !! todo && ids == done + todo
        invariant View() == old(View()).(events := old(events) - done,
                                         rows := set r | r in old(rows) && r.eventId !in done)
        decreases |todo|
      {
        var id :| id in todo;
        DeleteEvent(id);
        todo := todo - {id};
        done := done + {id};
        assert events == old(events) - done;
        assert rows == set r | r in old(rows) && r.eventId !in done;
      }
    }

    /** The event's row, then one index row per tag. */
    method WriteEvent(ev: Event)
      modifies this
      ensures View() == old(View()).(events := old(events)[ev.id := ev], rows := old(rows) + IndexRows(ev))
    {
      events := events[ev.id := ev];
      for i := 0 to |ev.tags|
        invariant View() == old(View()).(events := old(events)[ev.id := ev],
                                         rows := old(rows) + IndexRows(ev.(tags := ev.tags[..i])))
      {
        var tag := ev.tags[i];
        assert ev.tags[..i + 1] == ev.tags[..i] + [tag];
        IndexRowsGrow(ev, i);
        if |tag| > 1 && OneByte(tag[0]) {
          rows := rows + {TagRow(ev.id, tag[0], tag[1])};
        }
      }
      assert ev.(tags := ev.tags[..|ev.tags|]) == ev;
    }

    lemma IndexRowsGrow(ev: Event, i: nat)
      requires i < |ev.tags|
      ensures IndexRows(ev.(tags := ev.tags[..i + 1])) == IndexRows(ev.(tags := ev.tags[..i]))
                + var tag := ev.tags[i]; if |tag| > 1 && OneByte(tag[0]) then {TagRow(ev.id, tag[0], tag[1])} else {}
    {
      assert ev.tags[..i + 1] == ev.tags[..i] + [ev.tags[i]];
    }

    method InsertEvent(ev: Event) returns (result: StoreResult)
      modifies this
      ensures (View(), result) == Insert(old(View()), ev)
    {
      if ev.id in events { return Duplicate; }
      var existing := Competitors(ev);
      if exists id :: id in existing && id in events && Supersedes(events[id], ev) { return Stale; }
      DeleteEvents(existing);
      WriteEvent(ev);
      result := Stored;
    }

    method MaxCreatedAtForD(pubkey: string, dTag: string) returns (newest: Option<nat>)
      ensures newest == LastStamp(View(), pubkey, dTag)
    {
      var stamps := set id | id in events && events[id].pubkey == pubkey && TagRow(id, "d", dTag) in rows
        :: events[id].createdAt;
      assert stamps == Stamps(View(), pubkey, dTag);
      if stamps == {} { return None; }
      var m := Maximum(stamps);
      newest := Some(m);
    }

    /** Builds the WHERE clause, one conjunct after the other. */
    method BuildClauses(f: Filter) returns (cs: seq<Clause>)
      ensures cs == Clauses(f)
    {
      cs := BuildColumnClauses(f);
      ghost var columns := cs;
      var tfs := TagFilters(f.extra);
      for i := 0 to |tfs|
        invariant cs + TagClauses(tfs[i..]) == columns + TagClauses(tfs)
      {
        assert TagClauses(tfs[i..]) == [TagClause(tfs[i])] + TagClauses(tfs[i + 1..]) by {
          assert tfs[i..][1..] == tfs[i + 1..];
        }
        if tfs[i].1 == [] {
          cs := cs + [Never];
        } else {
          cs := cs + [HasTag(tfs[i].0, tfs[i].1)];
        }
      }
    }

    method BuildColumnClauses(f: Filter) returns (cs: seq<Clause>)
      ensures cs == ColumnClauses(f)
    {
      cs := [];
      ghost var ids := if f.ids.Some? then [if f.ids.value == [] then Never else IdIn(f.ids.value)] else [];
      ghost var authors :=
        if f.authors.Some? then [if f.authors.value == [] then Never else PubkeyIn(f.authors.value)] else [];
      ghost var kinds := if f.kinds.Some? then [if f.kinds.value == [] then Never else KindIn(f.kinds.value)] else [];
      ghost var since := if f.since.Some? then [CreatedFrom(AsI64(f.since.value))] else [];
      if f.ids.Some? { cs := cs + [if f.ids.value == [] then Never else IdIn(f.ids.value)]; }
      assert cs == ids;
      if f.authors.Some? { cs := cs + [if f.authors.value == [] then Never else PubkeyIn(f.authors.value)]; }
      assert cs == ids + authors;
      if f.kinds.Some? { cs := cs + [if f.kinds.value == [] then Never else KindIn(f.kinds.value)]; }
      assert cs == ids + authors + kinds;
      if f.since.Some? { cs := cs + [CreatedFrom(AsI64(f.since.value))]; }
      assert cs == ids + authors + kinds + since;
      if f.until.Some? { cs := cs + [CreatedTo(AsI64(f.until.value))]; }
    }

    /** SQLite running the statement: rows that pass, sorted, cut. */
    method Select(cs: seq<Clause>, limit: nat) returns (page: seq<Event>)
      ensures page == SqlSelect(View(), cs, limit)
    {
      var found := set id | id in events && HoldsAll(cs, rows, events[id]) :: Key(-AsI64(events[id].createdAt), id);
      ghost var t := View();
      assert found == Passing(t.events, (e: Event) => HoldsAll(cs, t.rows, e));
      var ks := SortKeys(found);
      assert forall k :: k in ks ==> k.s in events;
      page := Fetch(FirstOf(ks, limit));
    }

    method Fetch(ks: seq<Key>) returns (page: seq<Event>)
      requires forall k :: k in ks ==> k.s in events
      ensures page == EventsAt(events, ks)
    {
      page := [];
      for i := 0 to |ks|
        invariant page + EventsAt(events, ks[i..]) == EventsAt(events, ks)
      {
        assert ks[i] in ks;
        assert ks[i..][0] == ks[i] && ks[i..][1..] == ks[i + 1..];
        page := page + [events[ks[i].s]];
      }
    }

    method RunFilter(f: Filter) returns (page: seq<Event>)
      ensures page == SqlPage(View(), f)
    {
      var cs := BuildClauses(f);
      page := Select(cs, Limit(f));
    }

    /** The page of the `i`th filter. */
    method RunNth(filters: seq<Filter>, i: nat, ghost pages: seq<seq<Event>>) returns (page: seq<Event>)
      requires i < |filters| && pages == SqlPages(View(), filters)
      ensures i < |pages| && page == pages[i]
    {
      page := RunFilter(filters[i]);
      SqlPagesIndex(View(), filters, i);
    }

    method Query(filters: seq<Filter>) returns (out: seq<Event>)
      ensures out == Querying.Query(View(), filters)
    {
      ghost var pages := SqlPages(View(), filters);
      SqlPagesLength(View(), filters);
      out := Gather(filters, pages);
    }

    /** The outer loop: page after page, dropping what was given out before. */
    method Gather(filters: seq<Filter>, ghost pages: seq<seq<Event>>) returns (out: seq<Event>)
      requires |pages| == |filters| && pages == SqlPages(View(), filters)
      ensures out == Union(pages, {})
    {
      out := [];
      var seen: set<string> := {};
      var i := 0;
      while i < |filters|
        invariant i <= |filters|
        invariant out + Union(pages[i..], seen) == Union(pages, {})
      {
        var page := RunNth(filters, i, pages);
        UnionStep(pages, i, seen, out);
        var novel;
        novel, seen := GiveOut(page, seen);
        out := out + novel;
        i := i + 1;
      }
    }

    /** The inner loop: rows not seen before, and what has been seen after them. */
    static method GiveOut(page: seq<Event>, given: set<string>) returns (novel: seq<Event>, seen: set<string>)
      ensures novel == Fresh(page, given) && seen == given + Ids(page)
    {
      novel, seen := [], given;
      for j := 0 to |page|
        invariant novel + Fresh(page[j..], seen) == Fresh(page, given)
        invariant seen == given + Ids(page[..j])
      {
        assert page[j..][0] == page[j] && page[j..][1..] == page[j + 1..];
        assert page[..j + 1] == page[..j] + [page[j]];
        if page[j].id !in seen {
          seen := seen + {page[j].id};
          novel := novel + [page[j]];
        }
      }
      assert page[..|page|] == page;
    }

    // ---- whitelist ----

    method WhitelistAdd(pubkey: string)
      modifies this
      ensures View() == old(View()).(whitelist := old(View()).whitelist + {pubkey})
    {
      whitelist := whitelist + {pubkey};
    }

    method WhitelistRemove(pubkey: string) returns (removed: bool)
      modifies this
      ensures View() == old(View()).(whitelist := old(View()).whitelist - {pubkey})
      ensures removed <==> pubkey in old(View()).whitelist
    {
      removed := pubkey in whitelist;
      whitelist := whitelist - {pubkey};
    }

    method WhitelistContains(pubkey: string) returns (found: bool)
      ensures found <==> pubkey in View().whitelist
    {
      found := pubkey in whitelist;
    }

    // ---- invites ----

    /** The random code is a parameter; one already in use would fail on the primary key. */
    method InviteCreate(code: string, maxUses: nat, expiresAt: Option<nat>, now: nat)
      requires code !in View().invites
      modifies this
      ensures View() == old(View()).(invites := old(View()).invites[code := Invite(now, expiresAt, maxUses, 0)])
    {
      invites := invites[code := Invite(now, expiresAt, maxUses, 0)];
    }

    method InviteRevoke(code: string) returns (existed: bool)
      modifies this
      ensures View() == old(View()).(invites := old(View()).invites - {code})
      ensures existed <==> code in old(View()).invites
    {
      existed := code in invites;
      invites := invites - {code};
    }

    method InviteRevokeAll() returns (n: nat)
      modifies this
      ensures View() == old(View()).(invites := map[]) && n == |old(View()).invites|
    {
      n := |invites|;
      invites := map[];
    }

    /** Validate and consume one use of an invite code. */
    method Redeem(code: string, now: nat) returns (result: Redemption)
      modifies this
      ensures (View(), result) == InviteRedeem(old(View()), code, now)
    {
      if code !in invites { return UnknownCode; }
      var row := invites[code];
      if row.expiresAt.Some? && now > row.expiresAt.value { return Expired; }
      if row.uses >= row.maxUses { return UsedUp; }
      invites := invites[code := row.(uses := row.uses + 1)];
      result := Redeemed;
    }

    // ---- groups and members ----

    method CreateGroup(id: string, name: string, about: string, kind: string, createdBy: string, now: nat)
      returns (created: bool)
      modifies this
      ensures (View(), created) == GroupCreate(old(View()), id, name, about, kind, createdBy, now)
    {
      created := id !in groups;
      if created {
        groups := groups[id := Group(name, about, NormalizeKind(Some(kind)), createdBy, now)];
      }
    }

    method UpdateGroupMeta(id: string, name: Option<string>, about: Option<string>, kind: Option<string>)
      modifies this
      ensures View() == GroupUpdateMeta(old(View()), id, name, about, kind)
    {
      if name.Some? && id in groups {
        groups := groups[id := groups[id].(name := name.value)];
      }
      if about.Some? && id in groups {
        groups := groups[id := groups[id].(about := about.value)];
      }
      if kind.Some? && id in groups {
        groups := groups[id := groups[id].(kind := NormalizeKind(kind))];
      }
      if id in groups { assert groups == old(groups)[id := groups[id]]; }
    }

    method DeleteGroup(id: string)
      modifies this
      ensures View() == GroupDelete(old(View()), id)
    {
      groups := groups - {id};
      members := map p | p in members && p.0 != id :: members[p];
      retired := retired + {id};
    }

    method IsRetired(id: string) returns (gone: bool)
      ensures gone <==> id in View().retired
    {
      gone := id in retired;
    }

    method GetGroup(id: string) returns (row: Option<Group>)
      ensures row == if id in View().groups then Some(View().groups[id]) else None
    {
      row := if id in groups then Some(groups[id]) else None;
    }

    method IsInGroup(eventId: string, id: string) returns (found: bool)
      ensures found <==> EventInGroup(View(), eventId, id)
    {
      found := TagRow(eventId, "h", id) in rows;
    }

    method AddMember(id: string, pubkey: string, role: Role, now: nat)
      modifies this
      ensures View() == MemberAdd(old(View()), id, pubkey, role, now)
    {
      var p := (id, pubkey);
      if p in members {
        members := members[p := members[p].(role := role)];
      } else {
        members := members[p := Member(role, now)];
      }
    }

    method AddMemberIfAbsent(id: string, pubkey: string, role: Role, now: nat) returns (added: bool)
      modifies this
      ensures (View(), added) == MemberAddIfAbsent(old(View()), id, pubkey, role, now)
    {
      added := (id, pubkey) !in members;
      if added {
        members := members[(id, pubkey) := Member(role, now)];
      }
    }

    method RemoveMember(id: string, pubkey: string)
      modifies this
      ensures View() == MemberRemove(old(View()), id, pubkey)
    {
      members := members - {(id, pubkey)};
    }

    /** (pubkey, role) pairs of a channel, ordered by `added_at`. */
    method ListMembers(id: string) returns (pairs: seq<(string, Role)>)
      ensures pairs == Listing(View().members, id)
    {
      var keys := set p | p in members && p.0 == id :: Key(members[p].addedAt, p.1);
      assert keys == MemberKeys(members, id);
      var ks := SortKeys(keys);
      assert forall k :: k in ks ==> k in keys;
      pairs := AttachRoles(id, ks);
    }

    method AttachRoles(id: string, ks: seq<Key>) returns (pairs: seq<(string, Role)>)
      requires forall k :: k in ks ==> (id, k.s) in members
      ensures pairs == WithRoles(members, id, ks)
    {
      pairs := [];
      for i := 0 to |ks|
        invariant pairs + WithRoles(members, id, ks[i..]) == WithRoles(members, id, ks)
      {
        assert ks[i] in ks;
        assert ks[i..][0] == ks[i] && ks[i..][1..] == ks[i + 1..];
        pairs := pairs + [(ks[i].s, members[(id, ks[i].s)].role)];
      }
    }

    method IsAdmin(id: string, pubkey: string) returns (found: bool)
      ensures found <==> IsGroupAdmin(View(), id, pubkey)
    {
      found := (id, pubkey) in members && members[(id, pubkey)].role == Admin;
    }

    /** Delete everything indexed under the channel, then the rows left without an event. */
    method PurgeGroupEvents(id: string)
      modifies this
      ensures View() == Purge(old(View()), id)
    {
      var doomed := set r | r in rows && (r.name == "h" || r.name == "d") && r.value == id :: r.eventId;
      events := events - doomed;
      rows := set r | r in rows && r.eventId in events;
    }
  }
}
