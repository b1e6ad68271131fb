/** What every handled message keeps: an exact index, one event per slot, dead channels that stay
    dead, and channel metadata that agrees with the tables. */
module Invariants {
  import opened Text
  import opened Ordering
  import opened Nostr
  import opened Tables
  import opened Convergence
  import opened Protocol

  /** Kinds that are only ever stored while the channel they name is live, and go when it goes. */
  predicate IsBound(kind: nat) {
    || kind == CHAT || kind == PUT_USER || kind == REMOVE_USER || kind == EDIT_METADATA
    || kind == CREATE_GROUP || kind == JOIN_REQUEST
  }

  /** A client event that passed the gate. */
  predicate ClientShaped(e: Event) {
    && IsClientKind(e.kind) && !IsEphemeral(e.kind)
    && |TagValues(e.tags, "h")| <= 1 && TagValues(e.tags, "d") == []
  }

  /** Metadata the relay signed for a live channel. */
  predicate MetaShaped(cfg: Config, t: Tables, e: Event) {
    && IsMetaKind(e.kind) && e.pubkey == cfg.relayKey
    && TagValues(e.tags, "d") == [DKey(e)] && TagValues(e.tags, "h") == []
    && DKey(e) in t.groups && e.content == "" && e.sig == cfg.crypto.sign(BodyOf(e))
  }

  predicate InLiveChannel(t: Tables, e: Event) {
    var h := FirstTag(e.tags, "h");
    h.Some? && h.value in t.groups
  }

  ghost predicate EventOk(cfg: Config, t: Tables, e: Event) {
    && Sealed(cfg.crypto, e)
    && (ClientShaped(e) || MetaShaped(cfg, t, e))
    && (IsBound(e.kind) ==> InLiveChannel(t, e))
  }

  /** Index, slots, and the life of channels. */
  ghost predicate Sound(cfg: Config, t: Tables) {
    && IndexExact(t) && OnePerSlot(t)
    && (forall id :: id in t.events ==> EventOk(cfg, t, t.events[id]))
    && t.groups.Keys !! t.retired
    && (forall p :: p in t.members ==> p.0 in t.groups)
  }

  /** The stored metadata of this kind renders the channel's rows. */
  ghost predicate MetaCurrent(cfg: Config, t: Tables, kind: nat, g: string) {
    g in t.groups && exists id :: id in t.events && IsCurrent(cfg, t, kind, g, t.events[id])
  }

  ghost predicate IsCurrent(cfg: Config, t: Tables, kind: nat, g: string, e: Event) {
    && e.kind == kind && e.pubkey == cfg.relayKey && DKey(e) == g && g in t.groups
    && e.tags == MetaTags(kind, g, t.groups[g], Listing(t.members, g))
  }

  /** All stored metadata is current, except possibly that of `but`. */
  ghost predicate MetaAgrees(cfg: Config, t: Tables, but: set<string>) {
    forall g, kind :: g in t.groups && g !in but && IsMetaKind(kind) ==> MetaCurrent(cfg, t, kind, g)
  }

  ghost predicate Inv(cfg: Config, t: Tables) {
    Sound(cfg, t) && MetaAgrees(cfg, t, {})
  }

  lemma SoundIsClean(cfg: Config, t: Tables)
    requires Sound(cfg, t)
    ensures AddressesClean(t)
  {
  }

  /** For each live channel there is exactly one stored event of each metadata kind, and its tags
      are the rendering of the rows. */
  lemma MetadataIsUniqueAndCurrent(cfg: Config, t: Tables, g: string, kind: nat)
    requires Inv(cfg, t) && g in t.groups && IsMetaKind(kind)
    ensures exists id :: id in t.events && IsCurrent(cfg, t, kind, g, t.events[id])
              && forall other :: other in t.events && t.events[other].kind == kind && DKey(t.events[other]) == g ==>
                  other == id
  {
    hide Sound, MetaTags, Listing, DKey;
    assert MetaCurrent(cfg, t, kind, g);
    var id :| id in t.events && IsCurrent(cfg, t, kind, g, t.events[id]);
    forall other | other in t.events && t.events[other].kind == kind && DKey(t.events[other]) == g ensures other == id {
      OneMetaEach(cfg, t, kind, g, other, id);
    }
  }

  lemma OneMetaEach(cfg: Config, t: Tables, kind: nat, g: string, a: string, b: string)
    requires Sound(cfg, t) && IsMetaKind(kind) && a in t.events && b in t.events
    requires t.events[a].kind == t.events[b].kind == kind && DKey(t.events[a]) == DKey(t.events[b]) == g
    ensures a == b
  {
    hide IndexExact, EventOk, DKey;
    MetaIsStamped(cfg, t, a, g);
    MetaIsStamped(cfg, t, b, g);
    assert SameSlot(t.events[a], t.events[b]);
  }

  /** The pairs list the members of a channel with their roles, in some order. */
  ghost predicate Lists(members: map<(string, string), Member>, id: string, pairs: seq<(string, Role)>) {
    forall p :: p in pairs <==> (id, p.0) in members && members[(id, p.0)].role == p.1
  }

  lemma {:induction false} WithRolesHold(members: map<(string, string), Member>, id: string, ks: seq<Key>,
                                         p: (string, Role))
    requires forall k :: k in ks ==> (id, k.s) in members
    ensures p in WithRoles(members, id, ks) <==> exists k :: k in ks && p == (k.s, members[(id, k.s)].role)
  {
    if ks != [] {
      WithRolesHold(members, id, ks[1..], p);
      if k :| k in ks && p == (k.s, members[(id, k.s)].role) { assert k == ks[0] || k in ks[1..]; }
      if p in WithRoles(members, id, ks[1..]) {
        var k :| k in ks[1..] && p == (k.s, members[(id, k.s)].role);
        assert k in ks;
      }
    }
  }

  lemma ListingLists(members: map<(string, string), Member>, id: string)
    ensures Lists(members, id, Listing(members, id))
  {
    var ks := SortedKeys(MemberKeys(members, id));
    assert forall k :: k in ks ==> k in MemberKeys(members, id);
    forall p ensures p in Listing(members, id) <==> (id, p.0) in members && members[(id, p.0)].role == p.1 {
      WithRolesHold(members, id, ks, p);
      if (id, p.0) in members { assert Key(members[(id, p.0)].addedAt, p.0) in MemberKeys(members, id); }
    }
  }

  function TagSet(tags: seq<Tag>): set<Tag> {
    set tag | tag in tags
  }

  lemma {:induction false} RosterTagsHold(pairs: seq<(string, Role)>, tag: Tag)
    ensures tag in AdminTags(pairs) <==> exists p :: p in pairs && p.1 != Plain && tag == ["p", p.0, RoleName(p.1)]
    ensures tag in MemberTags(pairs) <==> exists p :: p in pairs && tag == ["p", p.0]
  {
    if pairs != [] {
      RosterTagsHold(pairs[1..], tag);
      assert forall p :: p in pairs <==> p == pairs[0] || p in pairs[1..];
    }
  }

  /** The order in which members are listed does not matter to the tags as a set. */
  lemma OrderIsImmaterial(kind: nat, g: string, row: Group, one: seq<(string, Role)>, two: seq<(string, Role)>)
    requires forall p :: p in one <==> p in two
    ensures TagSet(MetaTags(kind, g, row, one)) == TagSet(MetaTags(kind, g, row, two))
  {
    hide AdminTags, MemberTags;
    forall tag
      ensures tag in AdminTags(one) <==> tag in AdminTags(two)
      ensures tag in MemberTags(one) <==> tag in MemberTags(two)
    {
      RosterTagsHold(one, tag);
      RosterTagsHold(two, tag);
    }
  }

  /** Whatever order `ORDER BY added_at` leaves members of one second in: the stored metadata has, as a
      set, the tags of rendering any listing of the members. */
  lemma MetadataInAnyOrder(cfg: Config, t: Tables, g: string, kind: nat, pairs: seq<(string, Role)>)
    requires Inv(cfg, t) && g in t.groups && IsMetaKind(kind) && Lists(t.members, g, pairs)
    ensures exists id :: id in t.events && t.events[id].kind == kind && DKey(t.events[id]) == g
              && TagSet(t.events[id].tags) == TagSet(MetaTags(kind, g, t.groups[g], pairs))
  {
    hide Listing, MetaTags, TagSet;
    assert MetaCurrent(cfg, t, kind, g);
    var id :| id in t.events && IsCurrent(cfg, t, kind, g, t.events[id]);
    ListingLists(t.members, g);
    OrderIsImmaterial(kind, g, t.groups[g], Listing(t.members, g), pairs);
  }

  /** No metadata, member or channel-bound event is stored for a channel that is not live. */
  lemma DeadChannelsAreEmpty(cfg: Config, t: Tables, g: string)
    requires Inv(cfg, t) && g !in t.groups
    ensures forall pk :: (g, pk) !in t.members
    ensures forall id :: id in t.events && IsMetaKind(t.events[id].kind) ==> DKey(t.events[id]) != g
    ensures forall id :: id in t.events && IsBound(t.events[id].kind) ==> !EventInGroup(t, id, g)
  {
    forall pk ensures (g, pk) !in t.members {
      var p := (g, pk);
      assert p in t.members ==> p.0 in t.groups;
    }
    forall id | id in t.events && IsMetaKind(t.events[id].kind) ensures DKey(t.events[id]) != g {
      assert EventOk(cfg, t, t.events[id]);
    }
    forall id | id in t.events && IsBound(t.events[id].kind) ensures !EventInGroup(t, id, g) {
      BoundToOne(cfg, t, id, g);
    }
  }

  /** A channel-bound event is indexed under exactly one `h`: the live channel authorization read. */
  lemma BoundToOne(cfg: Config, t: Tables, id: string, g: string)
    requires Sound(cfg, t) && id in t.events && IsBound(t.events[id].kind)
    ensures FirstTag(t.events[id].tags, "h").Some? && FirstTag(t.events[id].tags, "h").value in t.groups
    ensures EventInGroup(t, id, g) <==> FirstTag(t.events[id].tags, "h") == Some(g)
  {
    var e := t.events[id];
    assert EventOk(cfg, t, e);
    EventInGroupIff(t, id, g);
    FirstTagIsIndexed(e.tags, "h");
  }

  // ---- the tags of metadata ----

  lemma {:induction false} TagValuesAppend(a: seq<Tag>, b: seq<Tag>, name: string)
    ensures TagValues(a + b, name) == TagValues(a, name) + TagValues(b, name)
  {
    if a == [] {
      assert a + b == b;
    } else {
      assert (a + b)[0] == a[0] && (a + b)[1..] == a[1..] + b;
      TagValuesAppend(a[1..], b, name);
    }
  }

  lemma {:induction false} RosterNames(pairs: seq<(string, Role)>, name: string)
    requires name != "p"
    ensures TagValues(AdminTags(pairs), name) == [] && TagValues(MemberTags(pairs), name) == []
  {
    if pairs != [] {
      var head := if pairs[0].1 == Plain then [] else [["p", pairs[0].0, RoleName(pairs[0].1)]];
      TagValuesAppend(head, AdminTags(pairs[1..]), name);
      assert TagValues(head, name) == [];
      RosterNames(pairs[1..], name);
    }
  }

  lemma DescriptionNames(row: Group, name: string)
    requires name == "d" || name == "h"
    ensures TagValues([["name", row.name], ["open"], ["t", row.kind]]
        + (if row.about == "" then [] else [["about", row.about]]), name) == []
  {
    var tail := if row.about == "" then [] else [["about", row.about]];
    assert name[0] != "t"[0] && |name| == 1;
    TagValuesAppend([["name", row.name], ["open"], ["t", row.kind]], tail, name);
    assert TagValues(tail, name) == [];
    TagValuesAppend([["name", row.name], ["open"]], [["t", row.kind]], name);
    assert [["name", row.name], ["open"]] + [["t", row.kind]] == [["name", row.name], ["open"], ["t", row.kind]];
    TagValuesAppend([["name", row.name]], [["open"]], name);
    assert [["name", row.name]] + [["open"]] == [["name", row.name], ["open"]];
  }

  lemma MetaTagsAddress(kind: nat, g: string, row: Group, pairs: seq<(string, Role)>)
    ensures FirstTag(MetaTags(kind, g, row, pairs), "d") == Some(g)
    ensures TagValues(MetaTags(kind, g, row, pairs), "d") == [g]
    ensures TagValues(MetaTags(kind, g, row, pairs), "h") == []
  {
    var tags := MetaTags(kind, g, row, pairs);
    var rest := if kind == GROUP_METADATA then
        [["name", row.name], ["open"], ["t", row.kind]] + (if row.about == "" then [] else [["about", row.about]])
      else if kind == GROUP_ADMINS then AdminTags(pairs) else MemberTags(pairs);
    assert tags == [["d", g]] + rest;
    assert "h"[0] != "d"[0] && "h"[0] != "p"[0] && "d"[0] != "p"[0];
    TagValuesAppend([["d", g]], rest, "d");
    TagValuesAppend([["d", g]], rest, "h");
    DescriptionNames(row, "d");
    DescriptionNames(row, "h");
    RosterNames(pairs, "d");
    RosterNames(pairs, "h");
  }

  // ---- changing the rows of one channel ----

  /** Only rows of channel `g` differ. */
  ghost predicate OnlyChannel(t: Tables, u: Tables, g: string) {
    && (forall x :: x != g ==> (x in t.groups <==> x in u.groups) && (x in t.groups ==> t.groups[x] == u.groups[x]))
    && (forall p :: p in t.members || p in u.members ==>
        p.0 == g || (p in t.members && p in u.members && t.members[p] == u.members[p]))
  }

  lemma {:induction false} WithRolesFrame(m: map<(string, string), Member>, n: map<(string, string), Member>,
                                          g: string, ks: seq<Key>)
    requires forall k :: k in ks ==> (g, k.s) in m && (g, k.s) in n && m[(g, k.s)] == n[(g, k.s)]
    ensures WithRoles(m, g, ks) == WithRoles(n, g, ks)
  {
    if ks != [] { WithRolesFrame(m, n, g, ks[1..]); }
  }

  lemma ListingFrame(m: map<(string, string), Member>, n: map<(string, string), Member>, g: string)
    requires forall p :: p in m || p in n ==> p.0 != g || (p in m && p in n && m[p] == n[p])
    ensures Listing(m, g) == Listing(n, g)
  {
    forall k ensures k in MemberKeys(m, g) <==> k in MemberKeys(n, g) {
      if k in MemberKeys(m, g) {
        var p :| p in m && p.0 == g && k == Key(m[p].addedAt, p.1);
        assert p in n && n[p] == m[p];
      }
      if k in MemberKeys(n, g) {
        var p :| p in n && p.0 == g && k == Key(n[p].addedAt, p.1);
        assert p in m && n[p] == m[p];
      }
    }
    assert MemberKeys(m, g) == MemberKeys(n, g);
    var ks := SortedKeys(MemberKeys(m, g));
    forall k | k in ks ensures (g, k.s) in m && (g, k.s) in n && m[(g, k.s)] == n[(g, k.s)] {
      assert k in MemberKeys(m, g);
    }
    WithRolesFrame(m, n, g, ks);
  }

  /** Changing rows of one live channel leaves everything sound and only its metadata outdated. */
  lemma ChannelRowsChange(cfg: Config, t: Tables, u: Tables, g: string)
    requires Inv(cfg, t) && OnlyChannel(t, u, g)
    requires u.events == t.events && u.rows == t.rows && u.retired == t.retired
    requires g in u.groups ==> g !in t.retired
    requires g in t.groups ==> g in u.groups
    requires forall p :: p in u.members ==> p.0 in u.groups
    ensures Sound(cfg, u) && MetaAgrees(cfg, u, {g})
  {
    forall id | id in u.events ensures EventOk(cfg, u, u.events[id]) { assert EventOk(cfg, t, t.events[id]); }
    forall x, kind | x in u.groups && x != g && IsMetaKind(kind) ensures MetaCurrent(cfg, u, kind, x) {
      assert MetaCurrent(cfg, t, kind, x);
      ListingFrame(t.members, u.members, x);
      var id :| id in t.events && IsCurrent(cfg, t, kind, x, t.events[id]);
      assert IsCurrent(cfg, u, kind, x, u.events[id]);
    }
  }

  // ---- inserting ----

  lemma InsertClient(cfg: Config, t: Tables, ev: Event, but: set<string>)
    requires Sound(cfg, t) && MetaAgrees(cfg, t, but)
    requires Sealed(cfg.crypto, ev) && ClientShaped(ev) && (IsBound(ev.kind) ==> InLiveChannel(t, ev))
    ensures Sound(cfg, Insert(t, ev).0) && MetaAgrees(cfg, Insert(t, ev).0, but)
  {
    InsertSound(cfg, t, ev);
    InsertClientKeepsMeta(cfg, t, ev, but);
  }

  lemma InsertSound(cfg: Config, t: Tables, ev: Event)
    requires Sound(cfg, t) && EventOk(cfg, t, ev)
    ensures Sound(cfg, Insert(t, ev).0)
  {
    hide Existing, IndexRows, Supersedes, DKey, FirstTag, TagValues, SameSlot;
    var u := Insert(t, ev).0;
    SoundIsClean(cfg, t);
    InsertKeepsIndex(t, ev);
    InsertKeepsSlots(t, ev);
    forall id | id in u.events ensures EventOk(cfg, u, u.events[id]) {
      assert u.events[id] == ev || (id in t.events && u.events[id] == t.events[id]);
    }
  }

  lemma InsertClientKeepsMeta(cfg: Config, t: Tables, ev: Event, but: set<string>)
    requires MetaAgrees(cfg, t, but) && !IsMetaKind(ev.kind)
    ensures MetaAgrees(cfg, Insert(t, ev).0, but)
  {
    var u := Insert(t, ev).0;
    forall g, kind | g in u.groups && g !in but && IsMetaKind(kind) ensures MetaCurrent(cfg, u, kind, g) {
      assert MetaCurrent(cfg, t, kind, g);
      var id :| id in t.events && IsCurrent(cfg, t, kind, g, t.events[id]);
      assert id !in Existing(t, ev);
      assert u == t || ev.id != id;
      assert IsCurrent(cfg, u, kind, g, u.events[id]);
    }
  }

  /** Everything stored under this metadata slot is older than `at`. */
  ghost predicate Outdated(t: Tables, kind: nat, g: string, at: nat) {
    forall id :: id in t.events && t.events[id].kind == kind && DKey(t.events[id]) == g ==> t.events[id].createdAt < at
  }

  lemma MetaEventOk(cfg: Config, t: Tables, kind: nat, g: string, at: nat)
    requires g in t.groups && IsMetaKind(kind)
    ensures EventOk(cfg, t, MetaEvent(cfg, t, kind, g, at)) && DKey(MetaEvent(cfg, t, kind, g, at)) == g
  {
    MetaTagsAddress(kind, g, t.groups[g], Listing(t.members, g));
  }

  /** Freshly signed metadata is never a duplicate and never stale: it replaces what was there. */
  lemma FreshMetaIsStored(cfg: Config, t: Tables, kind: nat, g: string, at: nat)
    requires Trustworthy(cfg.crypto) && Sound(cfg, t) && g in t.groups && IsMetaKind(kind) && Outdated(t, kind, g, at)
    ensures MetaEvent(cfg, t, kind, g, at).id !in t.events
    ensures Insert(t, MetaEvent(cfg, t, kind, g, at)).1 == Stored
    ensures forall id :: id in Existing(t, MetaEvent(cfg, t, kind, g, at)) ==>
              id in t.events && t.events[id].kind == kind && DKey(t.events[id]) == g
  {
    var ev := MetaEvent(cfg, t, kind, g, at);
    MetaEventOk(cfg, t, kind, g, at);
    assert ev.id !in t.events;
    SoundIsClean(cfg, t);
    ExistingIsSlot(t, ev);
  }

  lemma InsertMeta(cfg: Config, t: Tables, kind: nat, g: string, at: nat)
    requires Trustworthy(cfg.crypto) && Sound(cfg, t) && g in t.groups && IsMetaKind(kind) && Outdated(t, kind, g, at)
    ensures var u := Insert(t, MetaEvent(cfg, t, kind, g, at)).0;
      && Sound(cfg, u) && MetaCurrent(cfg, u, kind, g) && u.groups == t.groups && u.members == t.members
  {
    var ev := MetaEvent(cfg, t, kind, g, at);
    FreshMetaIsStored(cfg, t, kind, g, at);
    MetaEventOk(cfg, t, kind, g, at);
    InsertSound(cfg, t, ev);
    var u := Insert(t, ev).0;
    assert IsCurrent(cfg, u, kind, g, u.events[ev.id]);
  }

  lemma InsertMetaKeepsCurrent(cfg: Config, t: Tables, kind: nat, g: string, at: nat, k: nat, x: string)
    requires Trustworthy(cfg.crypto) && Sound(cfg, t) && g in t.groups && IsMetaKind(kind) && Outdated(t, kind, g, at)
    requires MetaCurrent(cfg, t, k, x) && (k != kind || x != g)
    ensures MetaCurrent(cfg, Insert(t, MetaEvent(cfg, t, kind, g, at)).0, k, x)
  {
    var ev := MetaEvent(cfg, t, kind, g, at);
    FreshMetaIsStored(cfg, t, kind, g, at);
    var u := Insert(t, ev).0;
    var id :| id in t.events && IsCurrent(cfg, t, k, x, t.events[id]);
    assert id !in Existing(t, ev);
    assert u.events[id] == t.events[id];
  }

  lemma InsertMetaKeepsOutdated(cfg: Config, t: Tables, kind: nat, g: string, at: nat, k: nat)
    requires Trustworthy(cfg.crypto) && Sound(cfg, t) && g in t.groups && IsMetaKind(kind) && Outdated(t, kind, g, at)
    requires k != kind && Outdated(t, k, g, at)
    ensures Outdated(Insert(t, MetaEvent(cfg, t, kind, g, at)).0, k, g, at)
  {
    var ev := MetaEvent(cfg, t, kind, g, at);
    FreshMetaIsStored(cfg, t, kind, g, at);
    var u := Insert(t, ev).0;
    forall id | id in u.events && u.events[id].kind == k ensures id in t.events && u.events[id] == t.events[id] {}
  }

  lemma MetaIsStamped(cfg: Config, t: Tables, id: string, g: string)
    requires Sound(cfg, t) && id in t.events && IsMetaKind(t.events[id].kind) && DKey(t.events[id]) == g
    ensures t.events[id].pubkey == cfg.relayKey && TagRow(id, "d", g) in t.rows
  {
    hide DKey, IndexRows, OnePerSlot;
    assert EventOk(cfg, t, t.events[id]);
    RowsOfStored(t, id, "d", g);
  }

  /** The stamp chosen for a channel is newer than all metadata stored for it. */
  lemma StampIsNewer(cfg: Config, t: Tables, kind: nat, g: string, now: nat)
    requires Sound(cfg, t) && IsMetaKind(kind)
    ensures Outdated(t, kind, g, MetaStamp(cfg, t, g, now))
  {
    forall id | id in t.events && t.events[id].kind == kind && DKey(t.events[id]) == g
      ensures t.events[id].createdAt < MetaStamp(cfg, t, g, now)
    {
      hide Sound, DKey;
      MetaIsStamped(cfg, t, id, g);
      assert t.events[id].createdAt in Stamps(t, cfg.relayKey, g);
    }
  }

  lemma InsertThree(t: Tables, a: Event, b: Event, c: Event)
    ensures InsertAll(t, [a, b, c]) == Insert(Insert(Insert(t, a).0, b).0, c).0
  {
    assert [a, b, c][..2] == [a, b] && [a, b][..1] == [a] && [a][..0] == [];
    assert InsertAll(t, [a]) == Insert(t, a).0;
    assert InsertAll(t, [a, b]) == Insert(Insert(t, a).0, b).0;
  }

  ghost function Trio(cfg: Config, t: Tables, g: string, at: nat): seq<Event>
    requires g in t.groups
  {
    [MetaEvent(cfg, t, GROUP_METADATA, g, at), MetaEvent(cfg, t, GROUP_ADMINS, g, at),
     MetaEvent(cfg, t, GROUP_MEMBERS, g, at)]
  }

  /** One step of publishing: the metadata of `kind` becomes current, that of other kinds and
      channels stays as it was. */
  lemma PublishOne(cfg: Config, t: Tables, kind: nat, g: string, at: nat, u: Tables)
    requires Trustworthy(cfg.crypto) && Sound(cfg, t) && g in t.groups && IsMetaKind(kind) && Outdated(t, kind, g, at)
    requires u == Insert(t, MetaEvent(cfg, t, kind, g, at)).0
    ensures Sound(cfg, u) && u.groups == t.groups && u.members == t.members
    ensures MetaCurrent(cfg, u, kind, g)
    ensures forall k, x :: MetaCurrent(cfg, t, k, x) ==> MetaCurrent(cfg, u, k, x)
    ensures forall k :: k != kind && Outdated(t, k, g, at) ==> Outdated(u, k, g, at)
  {
    InsertMeta(cfg, t, kind, g, at);
    forall k, x | MetaCurrent(cfg, t, k, x) ensures MetaCurrent(cfg, u, k, x) {
      if k != kind || x != g { InsertMetaKeepsCurrent(cfg, t, kind, g, at, k, x); }
    }
    forall k | k != kind && Outdated(t, k, g, at) ensures Outdated(u, k, g, at) {
      InsertMetaKeepsOutdated(cfg, t, kind, g, at, k);
    }
  }

  /** Publishing the trio brings the channel's metadata up to date, whatever the clock reads. */
  lemma TrioRestores(cfg: Config, t: Tables, g: string, at: nat)
    requires Trustworthy(cfg.crypto) && Sound(cfg, t) && g in t.groups && MetaAgrees(cfg, t, {g})
    requires forall kind :: IsMetaKind(kind) ==> Outdated(t, kind, g, at)
    ensures Inv(cfg, InsertAll(t, Trio(cfg, t, g, at)))
  {
    var a, b, c := MetaEvent(cfg, t, GROUP_METADATA, g, at), MetaEvent(cfg, t, GROUP_ADMINS, g, at),
                   MetaEvent(cfg, t, GROUP_MEMBERS, g, at);
    InsertThree(t, a, b, c);
    var t1 := Insert(t, a).0;
    PublishOne(cfg, t, GROUP_METADATA, g, at, t1);
    assert b == MetaEvent(cfg, t1, GROUP_ADMINS, g, at) && c == MetaEvent(cfg, t1, GROUP_MEMBERS, g, at);
    var t2 := Insert(t1, b).0;
    PublishOne(cfg, t1, GROUP_ADMINS, g, at, t2);
    assert c == MetaEvent(cfg, t2, GROUP_MEMBERS, g, at);
    var t3 := Insert(t2, c).0;
    PublishOne(cfg, t2, GROUP_MEMBERS, g, at, t3);
    AllThreeCurrent(cfg, t, t3, g);
  }

  lemma AllThreeCurrent(cfg: Config, t: Tables, u: Tables, g: string)
    requires MetaAgrees(cfg, t, {g}) && u.groups == t.groups
    requires forall k, x :: MetaCurrent(cfg, t, k, x) ==> MetaCurrent(cfg, u, k, x)
    requires MetaCurrent(cfg, u, GROUP_METADATA, g) && MetaCurrent(cfg, u, GROUP_ADMINS, g)
        && MetaCurrent(cfg, u, GROUP_MEMBERS, g)
    ensures MetaAgrees(cfg, u, {})
  {
    forall x, kind | x in u.groups && IsMetaKind(kind) ensures MetaCurrent(cfg, u, kind, x) {
      assert x != g ==> MetaCurrent(cfg, t, kind, x);
    }
  }
}
