/** What the stored channel metadata says, tag by tag, in terms of the channel's rows. */
module Rendering {
  import opened Text
  import opened Ordering
  import opened Nostr
  import opened Tables
  import opened Protocol
  import opened Invariants
  import opened Runs

  /** The one stored event of this kind, by the relay's key, addressed to the channel. */
  ghost predicate IsTheMeta(cfg: Config, t: Tables, id: string, kind: nat, g: string) {
    && id in t.events && t.events[id].kind == kind && t.events[id].pubkey == cfg.relayKey
    && FirstNamed(t.events[id].tags, "d", g) && t.events[id].content == ""
    && t.events[id].sig == cfg.crypto.sign(BodyOf(t.events[id]))
    && forall other :: other in t.events && t.events[other].kind == kind && FirstNamed(t.events[other].tags, "d", g) ==>
         other == id
  }

  /** 39000: address, name, openness, type, and the description if there is one. */
  ghost predicate Describes(t: Tables, g: string, tags: seq<Tag>)
    requires g in t.groups
  {
    var row := t.groups[g];
    forall tag :: tag in tags <==>
      || tag == ["d", g] || tag == ["name", row.name] || tag == ["open"] || tag == ["t", row.kind]
      || (row.about != "" && tag == ["about", row.about])
  }

  /** 39001: the address, and each admin and moderator with that role. */
  ghost predicate ListsAdmins(t: Tables, g: string, tags: seq<Tag>) {
    forall tag :: tag in tags <==> tag == ["d", g] || exists pk :: AdminTag(t, g, pk, tag)
  }

  predicate AdminTag(t: Tables, g: string, pk: string, tag: Tag) {
    && (g, pk) in t.members
    && (|| (t.members[(g, pk)].role == Admin && tag == ["p", pk, "admin"])
        || (t.members[(g, pk)].role == Moderator && tag == ["p", pk, "moderator"]))
  }

  /** 39002: the address, and each member whatever the role. */
  ghost predicate ListsMembers(t: Tables, g: string, tags: seq<Tag>) {
    forall tag :: tag in tags <==> tag == ["d", g] || exists pk :: (g, pk) in t.members && tag == ["p", pk]
  }

  /** Members stand in the order they were added in, each once. */
  ghost predicate OldestFirst(t: Tables, g: string, tags: seq<Tag>) {
    forall i, j :: 0 <= i < j < |tags| && NamesMember(t, g, tags[i]) && NamesMember(t, g, tags[j]) ==>
      tags[i][1] != tags[j][1] && t.members[(g, tags[i][1])].addedAt <= t.members[(g, tags[j][1])].addedAt
  }

  predicate NamesMember(t: Tables, g: string, tag: Tag) {
    |tag| > 1 && tag[0] == "p" && (g, tag[1]) in t.members
  }

  // ---- the listing ----

  lemma {:induction false} WithRolesIndex(members: map<(string, string), Member>, g: string, ks: seq<Key>)
    requires forall k :: k in ks ==> (g, k.s) in members
    ensures |WithRoles(members, g, ks)| == |ks|
    ensures forall i :: 0 <= i < |ks| ==> WithRoles(members, g, ks)[i] == (ks[i].s, members[(g, ks[i].s)].role)
  {
    if ks != [] { WithRolesIndex(members, g, ks[1..]); }
  }

  /** Members listed oldest first, each once. */
  ghost predicate OldestFirstPairs(members: map<(string, string), Member>, g: string, pairs: seq<(string, Role)>) {
    && (forall i :: 0 <= i < |pairs| ==> (g, pairs[i].0) in members && members[(g, pairs[i].0)].role == pairs[i].1)
    && (forall i, j :: 0 <= i < j < |pairs| ==>
          pairs[i].0 != pairs[j].0 && members[(g, pairs[i].0)].addedAt <= members[(g, pairs[j].0)].addedAt)
  }

  lemma ListingIsOldestFirst(members: map<(string, string), Member>, g: string)
    ensures OldestFirstPairs(members, g, Listing(members, g))
  {
    var ks := SortedKeys(MemberKeys(members, g));
    assert forall k :: k in ks ==> k in MemberKeys(members, g);
    forall i | 0 <= i < |ks| ensures (g, ks[i].s) in members && ks[i].n == members[(g, ks[i].s)].addedAt {
      assert ks[i] in MemberKeys(members, g);
    }
    WithRolesIndex(members, g, ks);
    forall i, j | 0 <= i < j < |ks| ensures ks[i].s != ks[j].s && ks[i].n <= ks[j].n {
      assert KeyLess(ks[i], ks[j]);
      StrLessIrreflexive(ks[i].s);
    }
  }

  // ---- the rosters ----

  lemma {:induction false} MemberTagsIndex(pairs: seq<(string, Role)>)
    ensures |MemberTags(pairs)| == |pairs| && forall i :: 0 <= i < |pairs| ==> MemberTags(pairs)[i] == ["p", pairs[i].0]
  {
    if pairs != [] { MemberTagsIndex(pairs[1..]); }
  }

  lemma {:induction false} AdminTagsFrom(pairs: seq<(string, Role)>, i: nat) returns (k: nat)
    requires i < |AdminTags(pairs)|
    ensures k < |pairs| && pairs[k].1 != Plain && AdminTags(pairs)[i] == ["p", pairs[k].0, RoleName(pairs[k].1)]
  {
    var head := if pairs[0].1 == Plain then 0 else 1;
    if i < head {
      k := 0;
    } else {
      k := AdminTagsFrom(pairs[1..], i - head);
      k := k + 1;
    }
  }

  lemma {:induction false} AdminTagsInOrder(pairs: seq<(string, Role)>, i: nat, j: nat) returns (k: nat, l: nat)
    requires i < j < |AdminTags(pairs)|
    ensures k < l < |pairs| && AdminTags(pairs)[i] == ["p", pairs[k].0, RoleName(pairs[k].1)]
    ensures AdminTags(pairs)[j] == ["p", pairs[l].0, RoleName(pairs[l].1)]
  {
    var head := if pairs[0].1 == Plain then 0 else 1;
    if i < head {
      k := 0;
      l := AdminTagsFrom(pairs[1..], j - head);
      l := l + 1;
    } else {
      k, l := AdminTagsInOrder(pairs[1..], i - head, j - head);
      k, l := k + 1, l + 1;
    }
  }

  lemma AdminsAreListed(t: Tables, g: string, pairs: seq<(string, Role)>)
    requires Lists(t.members, g, pairs)
    ensures ListsAdmins(t, g, [["d", g]] + AdminTags(pairs))
  {
    forall tag ensures tag in AdminTags(pairs) <==> exists pk :: AdminTag(t, g, pk, tag) {
      RosterTagsHold(pairs, tag);
      if p :| p in pairs && p.1 != Plain && tag == ["p", p.0, RoleName(p.1)] { assert AdminTag(t, g, p.0, tag); }
      if pk :| AdminTag(t, g, pk, tag) { assert (pk, t.members[(g, pk)].role) in pairs; }
    }
  }

  lemma MembersAreListed(t: Tables, g: string, pairs: seq<(string, Role)>)
    requires Lists(t.members, g, pairs)
    ensures ListsMembers(t, g, [["d", g]] + MemberTags(pairs))
  {
    forall tag ensures tag in MemberTags(pairs) <==> exists pk :: (g, pk) in t.members && tag == ["p", pk] {
      RosterTagsHold(pairs, tag);
      if pk :| (g, pk) in t.members && tag == ["p", pk] { assert (pk, t.members[(g, pk)].role) in pairs; }
    }
  }

  lemma AdminsStandInOrder(t: Tables, g: string, pairs: seq<(string, Role)>)
    requires OldestFirstPairs(t.members, g, pairs)
    ensures OldestFirst(t, g, [["d", g]] + AdminTags(pairs))
  {
    var tags := [["d", g]] + AdminTags(pairs);
    assert "d"[0] != "p"[0];
    forall i, j | 0 <= i < j < |tags| && NamesMember(t, g, tags[i]) && NamesMember(t, g, tags[j])
      ensures tags[i][1] != tags[j][1] && t.members[(g, tags[i][1])].addedAt <= t.members[(g, tags[j][1])].addedAt
    {
      assert i > 0;
      var k, l := AdminTagsInOrder(pairs, i - 1, j - 1);
    }
  }

  lemma MembersStandInOrder(t: Tables, g: string, pairs: seq<(string, Role)>)
    requires OldestFirstPairs(t.members, g, pairs)
    ensures OldestFirst(t, g, [["d", g]] + MemberTags(pairs))
  {
    MemberTagsIndex(pairs);
    var tags := [["d", g]] + MemberTags(pairs);
    assert "d"[0] != "p"[0];
    forall i, j | 0 <= i < j < |tags| && NamesMember(t, g, tags[i]) && NamesMember(t, g, tags[j])
      ensures tags[i][1] != tags[j][1] && t.members[(g, tags[i][1])].addedAt <= t.members[(g, tags[j][1])].addedAt
    {
      assert i > 0 && tags[i] == MemberTags(pairs)[i - 1] && tags[j] == MemberTags(pairs)[j - 1];
    }
  }

  // ---- what is stored ----

  lemma CurrentIsTheMeta(cfg: Config, t: Tables, g: string, kind: nat) returns (id: string)
    requires Inv(cfg, t) && g in t.groups && IsMetaKind(kind)
    ensures id in t.events && IsTheMeta(cfg, t, id, kind, g)
    ensures t.events[id].tags == MetaTags(kind, g, t.groups[g], Listing(t.members, g))
  {
    hide MetaTags, Listing, Sound;
    MetadataIsUniqueAndCurrent(cfg, t, g, kind);
    id :| id in t.events && IsCurrent(cfg, t, kind, g, t.events[id])
          && forall other :: other in t.events && t.events[other].kind == kind && DKey(t.events[other]) == g ==>
               other == id;
    MetaTagsAddress(kind, g, t.groups[g], Listing(t.members, g));
    FirstTagIff(t.events[id].tags, "d", g);
    MetaIsSigned(cfg, t, id);
    forall other | other in t.events && FirstNamed(t.events[other].tags, "d", g) ensures DKey(t.events[other]) == g {
      FirstTagIff(t.events[other].tags, "d", g);
    }
  }

  lemma MetaIsSigned(cfg: Config, t: Tables, id: string)
    requires Sound(cfg, t) && id in t.events && IsMetaKind(t.events[id].kind)
    ensures t.events[id].content == "" && t.events[id].sig == cfg.crypto.sign(BodyOf(t.events[id]))
  {
    assert EventOk(cfg, t, t.events[id]);
  }

  /** In every state the invariant holds of, each live channel has one 39000, one 39001 and one 39002,
      signed by the relay, and these say exactly what its rows do. */
  lemma MetadataSaysTheRows(cfg: Config, t: Tables, g: string)
    requires Inv(cfg, t) && g in t.groups
    ensures exists id :: IsTheMeta(cfg, t, id, 39000, g) && Describes(t, g, t.events[id].tags)
    ensures exists id :: IsTheMeta(cfg, t, id, 39001, g) && ListsAdmins(t, g, t.events[id].tags)
                         && OldestFirst(t, g, t.events[id].tags)
    ensures exists id :: IsTheMeta(cfg, t, id, 39002, g) && ListsMembers(t, g, t.events[id].tags)
                         && OldestFirst(t, g, t.events[id].tags)
  {
    hide Listing, Inv, IsTheMeta, ListsAdmins, ListsMembers, OldestFirst, AdminTags, MemberTags;
    var pairs := Listing(t.members, g);
    ListingLists(t.members, g);
    ListingIsOldestFirst(t.members, g);
    var a := CurrentIsTheMeta(cfg, t, g, GROUP_METADATA);
    var b := CurrentIsTheMeta(cfg, t, g, GROUP_ADMINS);
    var m := CurrentIsTheMeta(cfg, t, g, GROUP_MEMBERS);
    assert Describes(t, g, t.events[a].tags);
    AdminsAreListed(t, g, pairs);
    AdminsStandInOrder(t, g, pairs);
    MembersAreListed(t, g, pairs);
    MembersStandInOrder(t, g, pairs);
  }

  /** Hence in every reachable state. */
  lemma ReachableMetadataSaysTheRows(cfg: Config, locked: bool, acts: seq<Action>, g: string)
    requires Trustworthy(cfg.crypto) && g in Run(cfg, locked, acts).t.groups
    ensures var t := Run(cfg, locked, acts).t;
      && (exists id :: IsTheMeta(cfg, t, id, 39000, g) && Describes(t, g, t.events[id].tags))
      && (exists id :: IsTheMeta(cfg, t, id, 39001, g) && ListsAdmins(t, g, t.events[id].tags))
      && (exists id :: IsTheMeta(cfg, t, id, 39002, g) && ListsMembers(t, g, t.events[id].tags))
  {
    hide Run, Inv, IsTheMeta, Describes, ListsAdmins, ListsMembers, OldestFirst;
    RunSatisfiesInv(cfg, locked, acts);
    MetadataSaysTheRows(cfg, Run(cfg, locked, acts).t, g);
  }

  /** The stamp of new metadata is the clock's, unless the channel's stored metadata is as new; then it is
      the next second after that. */
  lemma StampIsLeast(cfg: Config, t: Tables, g: string, now: nat)
    requires Sound(cfg, t)
    ensures var at := MetaStamp(cfg, t, g, now);
      && at >= now
      && (forall id :: id in t.events && IsMetaKind(t.events[id].kind) && DKey(t.events[id]) == g ==>
            t.events[id].createdAt < at)
      && (at == now || exists id :: id in t.events && IsMetaKind(t.events[id].kind) && DKey(t.events[id]) == g
                                    && t.events[id].createdAt + 1 == at)
  {
    var at := MetaStamp(cfg, t, g, now);
    forall id | id in t.events && IsMetaKind(t.events[id].kind) && DKey(t.events[id]) == g
      ensures t.events[id].createdAt < at
    {
      StampIsNewer(cfg, t, t.events[id].kind, g, now);
    }
    if at != now {
      var last := LastStamp(t, cfg.relayKey, g);
      assert last.value in Stamps(t, cfg.relayKey, g);
      var id :| id in t.events && t.events[id].pubkey == cfg.relayKey && TagRow(id, "d", g) in t.rows
                && t.events[id].createdAt == last.value;
      AddressedIsMeta(cfg, t, id, g);
    }
  }

  lemma AddressedIsMeta(cfg: Config, t: Tables, id: string, g: string)
    requires Sound(cfg, t) && id in t.events && TagRow(id, "d", g) in t.rows
    ensures IsMetaKind(t.events[id].kind) && DKey(t.events[id]) == g
  {
    assert EventOk(cfg, t, t.events[id]);
    RowsOfStored(t, id, "d", g);
  }
}
