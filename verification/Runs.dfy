/** Runs of the relay: any number of connections, messages and operator commands in any order, and
    the invariant every reachable state satisfies. */
module Runs {
  import opened Text
  import opened Nostr
  import opened Tables
  import opened Convergence
  import opened Protocol
  import opened Invariants

  /** The whole relay: its tables, its door, its connections. */
  datatype System = System(t: Tables, locked: bool, conns: map<nat, Session>)

  datatype Action =
    | Open(conn: nat, challenge: string, host: Option<string>)
    | Drop(conn: nat)
    | Say(conn: nat, m: Message, c: Clock)
    | AddToWhitelist(pubkey: string)
    | RemoveFromWhitelist(pubkey: string)
    | CreateInvite(code: string, maxUses: nat, expiresAt: Option<nat>, now: nat)
    | RevokeInvite(code: string)
    | RevokeAllInvites
    | SetDoor(locked: bool)
    | Restart(locked: bool)

  /** The relay just started on the database it finds: the operator whitelisted, no connections. */
  ghost function Started(cfg: Config, locked: bool, kept: Tables): System {
    var operator := if cfg.operator.Some? then {cfg.operator.value} else {};
    System(kept.(whitelist := kept.whitelist + operator), locked, map[])
  }

  ghost function Step(cfg: Config, s: System, a: Action): System {
    match a
    case Open(n, challenge, host) => s.(conns := s.conns[n := Session(None, challenge, host, map[])])
    case Drop(n) => s.(conns := s.conns - {n})
    case Say(n, m, c) =>
      if n !in s.conns then s
      else
        var r := Serve(cfg, s.t, s.locked, s.conns[n], m, c);
        s.(t := r.t, conns := s.conns[n := r.s])
    case AddToWhitelist(pk) => s.(t := s.t.(whitelist := s.t.whitelist + {pk}))
    case RemoveFromWhitelist(pk) => s.(t := s.t.(whitelist := s.t.whitelist - {pk}))
    case CreateInvite(code, maxUses, expiresAt, now) =>
      if code in s.t.invites then s
      else s.(t := s.t.(invites := s.t.invites[code := Invite(now, expiresAt, maxUses, 0)]))
    case RevokeInvite(code) => s.(t := s.t.(invites := s.t.invites - {code}))
    case RevokeAllInvites => s.(t := s.t.(invites := map[]))
    case SetDoor(b) => s.(locked := b)
    case Restart(b) => Started(cfg, b, s.t)
  }

  ghost function Start(cfg: Config, locked: bool): System {
    Started(cfg, locked, EMPTY)
  }

  /** The state after a list of actions. */
  ghost function Run(cfg: Config, locked: bool, acts: seq<Action>): System
    decreases |acts|
  {
    if acts == [] then Start(cfg, locked)
    else Step(cfg, Run(cfg, locked, acts[..|acts| - 1]), acts[|acts| - 1])
  }

  /** The state just before the `k`th action. */
  ghost function At(cfg: Config, locked: bool, acts: seq<Action>, k: nat): System
    requires k <= |acts|
  {
    Run(cfg, locked, acts[..k])
  }

  lemma AtNext(cfg: Config, locked: bool, acts: seq<Action>, k: nat)
    requires k < |acts|
    ensures At(cfg, locked, acts, k + 1) == Step(cfg, At(cfg, locked, acts, k), acts[k])
  {
    assert acts[..k + 1][..k] == acts[..k];
  }

  /** The action hands an event to the relay over a live connection. */
  predicate Submits(s: System, a: Action) {
    a.Say? && a.m.EventMsg? && a.conn in s.conns && TagLimitError(a.m.ev).None?
  }

  /** Only submitted events and operator commands touch the tables. */
  lemma StepTables(cfg: Config, s: System, a: Action)
    ensures Submits(s, a) ==> Step(cfg, s, a).t == HandleEvent(cfg, s.t, s.locked, s.conns[a.conn], a.m.ev, a.c).t
    ensures !Submits(s, a) ==>
              var u := Step(cfg, s, a).t; u == s.t.(whitelist := u.whitelist, invites := u.invites)
    ensures a.Say? && !Submits(s, a) ==> Step(cfg, s, a).t == s.t
  {
    hide HandleEvent;
  }

  // ---- the group logic keeps the tables sound ----

  lemma {:induction false} PutUsersStayInChannel(t: Tables, g: string, tags: seq<Tag>, now: nat -> nat)
    ensures var u := PutUsers(t, g, tags, now);
      OnlyChannel(t, u, g) && u == t.(members := u.members)
      && forall p :: p in t.members ==> p in u.members
    decreases |tags|
  {
    if tags != [] { PutUsersStayInChannel(t, g, tags[..|tags| - 1], now); }
  }

  lemma {:induction false} RemoveUsersStayInChannel(t: Tables, g: string, pks: seq<string>)
    ensures var u := RemoveUsers(t, g, pks);
      OnlyChannel(t, u, g) && u == t.(members := u.members)
      && forall p :: p in u.members ==> p in t.members && u.members[p] == t.members[p]
    decreases |pks|
  {
    if pks != [] { RemoveUsersStayInChannel(t, g, pks[..|pks| - 1]); }
  }

  /** What moderating a live channel may change: its description but not its creator, its members. */
  ghost predicate Moderated(t: Tables, u: Tables, g: string)
    requires g in t.groups
  {
    && OnlyChannel(t, u, g) && u == t.(members := u.members, groups := u.groups)
    && u.groups.Keys == t.groups.Keys && u.groups[g].createdBy == t.groups[g].createdBy
    && forall p :: p in u.members ==> p in t.members || p.0 == g
  }

  lemma PutUsersModerate(t: Tables, g: string, tags: seq<Tag>, now: nat -> nat)
    requires g in t.groups
    ensures Moderated(t, PutUsers(t, g, tags, now), g)
  {
    hide PutUsers;
    PutUsersStayInChannel(t, g, tags, now);
  }

  lemma RemoveUsersModerate(t: Tables, g: string, pks: seq<string>)
    requires g in t.groups
    ensures Moderated(t, RemoveUsers(t, g, pks), g)
  {
    hide RemoveUsers;
    RemoveUsersStayInChannel(t, g, pks);
  }

  lemma UpdatingModerates(t: Tables, g: string, name: Option<string>, about: Option<string>, kind: Option<string>)
    requires g in t.groups
    ensures Moderated(t, GroupUpdateMeta(t, g, name, about, kind), g)
  {
    hide NormalizeKind;
  }

  lemma ModerateStaysInChannel(t: Tables, ev: Event, g: string, now: nat -> nat)
    requires g in t.groups
    ensures Moderated(t, Moderate(t, ev, g, now), g)
  {
    hide PutUsers, RemoveUsers, GroupUpdateMeta, Moderated;
    PutUsersModerate(t, g, ev.tags, now);
    RemoveUsersModerate(t, g, TagValues(ev.tags, "p"));
    UpdatingModerates(t, g, FirstTag(ev.tags, "name"), FirstTag(ev.tags, "about"), FirstTag(ev.tags, "t"));
  }

  /** The tables a granted decision leaves, apart from the rows of its channel. */
  ghost predicate Framed(ev: Event, t: Tables, u: Tables) {
    && u.invites == t.invites && u.whitelist == t.whitelist
    && (ev.kind != DELETE_GROUP ==> u.events == t.events && u.rows == t.rows && u.retired == t.retired)
  }

  lemma DecisionFrame(cfg: Config, t: Tables, ev: Event, c: Clock)
    requires Decide(cfg, t, ev, c).Granted?
    ensures Framed(ev, t, Decide(cfg, t, ev, c).t)
    ensures ev.kind == DELETE_GROUP ==> var h := FirstTag(ev.tags, "h");
              h.Some? && Decide(cfg, t, ev, c).t == Purge(GroupDelete(t, h.value), h.value)
  {
    hide Moderate, MetaEvents, Doomed, NormalizeKind, OnlyChannel;
    if ev.kind != PROFILE {
      var g, u := FirstTag(ev.tags, "h").value, Decide(cfg, t, ev, c).t;
      if ev.kind == CHAT || ev.kind == JOIN_REQUEST {
        assert u == Enroll(cfg, t, g, ev.pubkey, c).t;
      } else if ev.kind == LEAVE_REQUEST {
        assert u == MemberRemove(t, g, ev.pubkey);
      } else if IsModeration(ev.kind) {
        ModerateStaysInChannel(t, ev, g, c.row);
      }
    }
  }

  /** What is published with a granted event is the trio of its channel, or nothing. */
  lemma DecisionExtra(cfg: Config, t: Tables, ev: Event, c: Clock)
    requires Decide(cfg, t, ev, c).Granted?
    ensures var v := Decide(cfg, t, ev, c); var h := FirstTag(ev.tags, "h");
      v.extra == [] || (h.Some? && v.extra == MetaEvents(cfg, v.t, h.value, c.meta))
  {
    if ev.kind == CHAT || ev.kind == JOIN_REQUEST {
      assert Decide(cfg, t, ev, c) == Enroll(cfg, t, FirstTag(ev.tags, "h").value, ev.pubkey, c);
    }
  }

  /** What a granted event leaves before it is stored. */
  ghost predicate Prepared(cfg: Config, ev: Event, t: Tables, u: Tables, extra: seq<Event>) {
    && Sound(cfg, u) && u.events.Keys <= t.events.Keys
    && (IsBound(ev.kind) ==> InLiveChannel(u, ev))
    && (|| (extra == [] && MetaAgrees(cfg, u, {}))
        || (!IsReplaceable(ev.kind) && exists g, at :: Pending(cfg, u, extra, g, at)))
  }

  /** The trio of one channel, newer than what is stored for it, is all that is missing. */
  ghost predicate Pending(cfg: Config, u: Tables, extra: seq<Event>, g: string, at: nat) {
    && g in u.groups && MetaAgrees(cfg, u, {g}) && extra == Trio(cfg, u, g, at)
    && forall kind :: IsMetaKind(kind) ==> Outdated(u, kind, g, at)
  }

  ghost predicate Gated(cfg: Config, t: Tables, ev: Event) {
    Sealed(cfg.crypto, ev) && ClientShaped(ev) && ev.id !in t.events
  }

  lemma RefreshIsPending(cfg: Config, t: Tables, u: Tables, ev: Event, g: string, now: nat)
    requires Inv(cfg, t) && OnlyChannel(t, u, g) && u == t.(members := u.members, groups := u.groups)
    requires g in u.groups && g !in t.retired && !IsReplaceable(ev.kind)
    requires forall p :: p in u.members ==> p in t.members || p.0 == g
    requires IsBound(ev.kind) ==> FirstTag(ev.tags, "h") == Some(g)
    ensures Prepared(cfg, ev, t, u, MetaEvents(cfg, u, g, now))
  {
    forall p | p in u.members ensures p.0 in u.groups {
      assert p in t.members ==> p.0 in t.groups;
    }
    ChannelRowsChange(cfg, t, u, g);
    var at := MetaStamp(cfg, u, g, now);
    forall kind | IsMetaKind(kind) ensures Outdated(u, kind, g, at) { StampIsNewer(cfg, u, kind, g, now); }
    assert Pending(cfg, u, MetaEvents(cfg, u, g, now), g, at);
  }

  lemma EnrollPrepares(cfg: Config, t: Tables, ev: Event, g: string, c: Clock)
    requires Inv(cfg, t) && g in t.groups && !IsReplaceable(ev.kind) && FirstTag(ev.tags, "h") == Some(g)
    ensures var v := Enroll(cfg, t, g, ev.pubkey, c); Prepared(cfg, ev, t, v.t, v.extra)
  {
    if (g, ev.pubkey) !in t.members {
      RefreshIsPending(cfg, t, MemberAdd(t, g, ev.pubkey, Plain, c.row(0)), ev, g, c.meta);
    }
  }

  lemma CreatePrepares(cfg: Config, t: Tables, ev: Event, c: Clock)
    requires Inv(cfg, t) && ev.kind == CREATE_GROUP && DecideCreate(cfg, t, ev, c).Granted?
    ensures var v := DecideCreate(cfg, t, ev, c); Prepared(cfg, ev, t, v.t, v.extra)
  {
    hide Inv, Prepared, MetaEvents, ValidGroupId, NormalizeKind;
    var g := FirstTag(ev.tags, "h").value;
    RefreshIsPending(cfg, t, DecideCreate(cfg, t, ev, c).t, ev, g, c.meta);
  }

  /** Leaving a channel that is not live changes nothing: nobody is a member of one. */
  lemma LeavingDeadIsNothing(cfg: Config, t: Tables, g: string, pubkey: string)
    requires Sound(cfg, t) && g !in t.groups
    ensures MemberRemove(t, g, pubkey) == t
  {
    var p := (g, pubkey);
    assert p in t.members ==> p.0 in t.groups;
    assert t.members - {p} == t.members;
  }

  lemma LeavePrepares(cfg: Config, t: Tables, ev: Event, c: Clock)
    requires Inv(cfg, t) && ev.kind == LEAVE_REQUEST && FirstTag(ev.tags, "h").Some?
    ensures var v := DecideLeave(cfg, t, ev, c); Prepared(cfg, ev, t, v.t, v.extra)
  {
    var g := FirstTag(ev.tags, "h").value;
    if g in t.groups {
      RefreshIsPending(cfg, t, MemberRemove(t, g, ev.pubkey), ev, g, c.meta);
    } else {
      LeavingDeadIsNothing(cfg, t, g, ev.pubkey);
    }
  }

  lemma DeletePrepares(cfg: Config, t: Tables, ev: Event, g: string)
    requires Inv(cfg, t) && ev.kind == DELETE_GROUP && g in t.groups
    ensures Prepared(cfg, ev, t, Purge(GroupDelete(t, g), g), [])
  {
    var d := GroupDelete(t, g);
    var u := Purge(d, g);
    PurgeExact(d, g);
    SoundIsClean(cfg, t);
    PurgeKeepsSlots(d, g);
    forall id | id in u.events ensures EventOk(cfg, u, u.events[id]) {
      var e := t.events[id];
      assert EventOk(cfg, t, e);
      assert g !in TagValues(e.tags, "h") && g !in TagValues(e.tags, "d");
      FirstTagIsIndexed(e.tags, "h");
    }
    forall x, kind | x in u.groups && IsMetaKind(kind) ensures MetaCurrent(cfg, u, kind, x) {
      assert MetaCurrent(cfg, t, kind, x);
      DeleteKeepsCurrent(cfg, t, kind, x, g);
    }
  }

  lemma DeleteKeepsCurrent(cfg: Config, t: Tables, kind: nat, x: string, g: string)
    requires Sound(cfg, t) && x != g && IsMetaKind(kind) && MetaCurrent(cfg, t, kind, x)
    ensures MetaCurrent(cfg, Purge(GroupDelete(t, g), g), kind, x)
  {
    var id :| id in t.events && IsCurrent(cfg, t, kind, x, t.events[id]);
    assert EventOk(cfg, t, t.events[id]);
    CurrentSurvivesDelete(cfg, t, kind, x, g, id);
  }

  lemma CurrentSurvivesDelete(cfg: Config, t: Tables, kind: nat, x: string, g: string, id: string)
    requires IndexExact(t) && x != g && id in t.events && IsCurrent(cfg, t, kind, x, t.events[id])
    requires TagValues(t.events[id].tags, "d") == [x] && TagValues(t.events[id].tags, "h") == []
    ensures MetaCurrent(cfg, Purge(GroupDelete(t, g), g), kind, x)
  {
    var d := GroupDelete(t, g);
    var u := Purge(d, g);
    assert IndexExact(d);
    PurgeExact(d, g);
    ListingFrame(t.members, d.members, x);
    assert u.groups == d.groups && u.members == d.members;
    assert id in u.events && u.events[id] == t.events[id];
    assert IsCurrent(cfg, u, kind, x, u.events[id]);
  }

  lemma NothingIsPrepared(cfg: Config, t: Tables, ev: Event)
    requires Inv(cfg, t) && !IsBound(ev.kind)
    ensures Prepared(cfg, ev, t, t, [])
  {
  }

  lemma ModerationPrepares(cfg: Config, t: Tables, ev: Event, c: Clock)
    requires Inv(cfg, t) && IsModeration(ev.kind) && DecideModeration(cfg, t, ev, c).Granted?
    ensures var v := DecideModeration(cfg, t, ev, c); Prepared(cfg, ev, t, v.t, v.extra)
  {
    hide Prepared;
    var g := FirstTag(ev.tags, "h").value;
    if ev.kind == DELETE_GROUP {
      DeletePrepares(cfg, t, ev, g);
    } else {
      ModerateStaysInChannel(t, ev, g, c.row);
      RefreshIsPending(cfg, t, Moderate(t, ev, g, c.row), ev, g, c.meta);
    }
  }

  lemma DecidePrepares(cfg: Config, t: Tables, ev: Event, c: Clock)
    requires Inv(cfg, t) && Decide(cfg, t, ev, c).Granted?
    ensures var v := Decide(cfg, t, ev, c); Prepared(cfg, ev, t, v.t, v.extra)
  {
    hide Prepared, Enroll, DecideCreate, DecideModeration, MetaEvents;
    if ev.kind == PROFILE {
      NothingIsPrepared(cfg, t, ev);
    } else if ev.kind == CHAT || ev.kind == JOIN_REQUEST {
      EnrollPrepares(cfg, t, ev, FirstTag(ev.tags, "h").value, c);
    } else if ev.kind == CREATE_GROUP {
      CreatePrepares(cfg, t, ev, c);
    } else if ev.kind == LEAVE_REQUEST {
      LeavePrepares(cfg, t, ev, c);
    } else {
      ModerationPrepares(cfg, t, ev, c);
    }
  }

  // ---- announcing restores the invariant ----

  lemma StoringClientKeepsPending(cfg: Config, u: Tables, ev: Event, extra: seq<Event>, g: string, at: nat)
    requires Pending(cfg, u, extra, g, at) && Sound(cfg, u) && !IsMetaKind(ev.kind)
    requires Sealed(cfg.crypto, ev) && ClientShaped(ev) && (IsBound(ev.kind) ==> InLiveChannel(u, ev))
    ensures Sound(cfg, Insert(u, ev).0) && Pending(cfg, Insert(u, ev).0, extra, g, at)
  {
    hide Sound, MetaAgrees, MetaTags, Listing, ClientShaped, Existing, IndexRows;
    var u' := Insert(u, ev).0;
    InsertClient(cfg, u, ev, {g});
    forall kind | IsMetaKind(kind) ensures Outdated(u', kind, g, at) {
      forall id | id in u'.events && u'.events[id].kind == kind
        ensures id in u.events && u'.events[id] == u.events[id]
      {
      }
      assert Outdated(u, kind, g, at);
    }
    assert u'.groups == u.groups && u'.members == u.members;
  }

  lemma OrdinaryIsStored(u: Tables, ev: Event)
    requires ev.id !in u.events && !IsReplaceable(ev.kind) && !IsAddressable(ev.kind)
    ensures Insert(u, ev).1 == Stored
  {
    assert Existing(u, ev) == {};
  }

  lemma AnnounceTables(u: Tables, authed: Option<string>, ev: Event, extra: seq<Event>)
    requires !IsEphemeral(ev.kind)
    ensures extra == [] ==> Announce(u, authed, ev, extra).t == Insert(u, ev).0
    ensures Insert(u, ev).1 == Stored ==> Announce(u, authed, ev, extra).t == InsertAll(Insert(u, ev).0, extra)
  {
  }

  lemma AnnounceRestores(cfg: Config, t: Tables, u: Tables, authed: Option<string>, ev: Event, extra: seq<Event>)
    requires Trustworthy(cfg.crypto) && Gated(cfg, t, ev) && Prepared(cfg, ev, t, u, extra)
    ensures Inv(cfg, Announce(u, authed, ev, extra).t)
  {
    AnnounceTables(u, authed, ev, extra);
    if extra == [] && MetaAgrees(cfg, u, {}) {
      InsertClient(cfg, u, ev, {});
    } else {
      AnnounceWithTrio(cfg, t, u, ev, extra);
    }
  }

  lemma AnnounceWithTrio(cfg: Config, t: Tables, u: Tables, ev: Event, extra: seq<Event>)
    requires Trustworthy(cfg.crypto) && Gated(cfg, t, ev) && Prepared(cfg, ev, t, u, extra)
    requires !(extra == [] && MetaAgrees(cfg, u, {}))
    ensures Insert(u, ev).1 == Stored && Inv(cfg, InsertAll(Insert(u, ev).0, extra))
  {
    var g, at :| Pending(cfg, u, extra, g, at);
    StoringClientKeepsPending(cfg, u, ev, extra, g, at);
    OrdinaryIsStored(u, ev);
    TrioRestores(cfg, Insert(u, ev).0, g, at);
  }

  /** Handling an event keeps the invariant, for every event, connection and clock. */
  lemma HandleEventKeepsInv(cfg: Config, t: Tables, locked: bool, s: Session, ev: Event, c: Clock)
    requires Trustworthy(cfg.crypto) && Inv(cfg, t)
    ensures Inv(cfg, HandleEvent(cfg, t, locked, s, ev, c).t)
  {
    hide Inv, Decide, Prepared, Announce;
    if cfg.crypto.verify(ev) && ev.kind != CLIENT_AUTH {
      if ev.kind == INVITE_REDEEM {
        DoorKeepsInv(cfg, t, HandleInvite(cfg, t, locked, s.authed, ev, c).t);
      } else if Gate(cfg, t, s.authed, ev, c).None? && Decide(cfg, t, ev, c).Granted? {
        DecidePrepares(cfg, t, ev, c);
        AnnounceRestores(cfg, t, Decide(cfg, t, ev, c).t, s.authed, ev, Decide(cfg, t, ev, c).extra);
      }
    }
  }

  /** Whitelist and invites are no part of the invariant. */
  lemma DoorKeepsInv(cfg: Config, t: Tables, u: Tables)
    requires Inv(cfg, t) && u == t.(whitelist := u.whitelist, invites := u.invites)
    ensures Inv(cfg, u)
  {
    forall id | id in u.events ensures EventOk(cfg, u, u.events[id]) { assert EventOk(cfg, t, t.events[id]); }
    forall g, kind | g in u.groups && IsMetaKind(kind) ensures MetaCurrent(cfg, u, kind, g) {
      assert MetaCurrent(cfg, t, kind, g);
      var id :| id in t.events && IsCurrent(cfg, t, kind, g, t.events[id]);
      assert IsCurrent(cfg, u, kind, g, u.events[id]);
    }
  }

  lemma StepKeepsInv(cfg: Config, s: System, a: Action)
    requires Trustworthy(cfg.crypto) && Inv(cfg, s.t)
    ensures Inv(cfg, Step(cfg, s, a).t)
  {
    hide HandleEvent, Inv, Step;
    StepTables(cfg, s, a);
    if Submits(s, a) {
      HandleEventKeepsInv(cfg, s.t, s.locked, s.conns[a.conn], a.m.ev, a.c);
    } else {
      DoorKeepsInv(cfg, s.t, Step(cfg, s, a).t);
    }
  }

  /** Every reachable state satisfies the invariant. */
  lemma {:induction false} RunSatisfiesInv(cfg: Config, locked: bool, acts: seq<Action>)
    requires Trustworthy(cfg.crypto)
    ensures Inv(cfg, Run(cfg, locked, acts).t)
    decreases |acts|
  {
    if acts != [] {
      RunSatisfiesInv(cfg, locked, acts[..|acts| - 1]);
      StepKeepsInv(cfg, Run(cfg, locked, acts[..|acts| - 1]), acts[|acts| - 1]);
    }
  }

  // ---- deleted channels stay dead ----

  /** Storing and publishing touch neither groups nor members nor retired ids. */
  lemma {:induction false} InsertAllKeepsGroups(t: Tables, evs: seq<Event>)
    ensures InsertAll(t, evs) == t.(events := InsertAll(t, evs).events, rows := InsertAll(t, evs).rows)
    decreases |evs|
  {
    if evs != [] { InsertAllKeepsGroups(t, evs[..|evs| - 1]); }
  }

  lemma AnnounceKeepsGroups(t: Tables, authed: Option<string>, ev: Event, extra: seq<Event>)
    ensures var u := Announce(t, authed, ev, extra).t;
      u.groups == t.groups && u.members == t.members && u.retired == t.retired
  {
    hide InsertAll, Existing, Supersedes, IndexRows;
    InsertAllKeepsGroups(Insert(t, ev).0, extra);
    InsertAllKeepsGroups(t, extra);
  }

  /** The event reaches the group logic, and is granted. */
  ghost predicate Passes(cfg: Config, t: Tables, s: Session, ev: Event, c: Clock) {
    cfg.crypto.verify(ev) && Gate(cfg, t, s.authed, ev, c).None? && Decide(cfg, t, ev, c).Granted?
  }

  /** Handling an event leaves the groups, members and retired ids either alone or as decided. */
  lemma GroupsOfOutcome(cfg: Config, t: Tables, locked: bool, s: Session, ev: Event, c: Clock)
    ensures var u := HandleEvent(cfg, t, locked, s, ev, c).t;
      || (u.groups == t.groups && u.members == t.members && u.retired == t.retired)
      || (&& Passes(cfg, t, s, ev, c)
          && var v := Decide(cfg, t, ev, c).t; u.groups == v.groups && u.members == v.members && u.retired == v.retired)
  {
    hide Decide, Gate, Announce;
    if Passes(cfg, t, s, ev, c) {
      AnnounceKeepsGroups(Decide(cfg, t, ev, c).t, s.authed, ev, Decide(cfg, t, ev, c).extra);
    }
  }

  lemma HandleEventKeepsRetired(cfg: Config, t: Tables, locked: bool, s: Session, ev: Event, c: Clock)
    ensures t.retired <= HandleEvent(cfg, t, locked, s, ev, c).t.retired
  {
    hide HandleEvent, Decide, Gate;
    GroupsOfOutcome(cfg, t, locked, s, ev, c);
    if Decide(cfg, t, ev, c).Granted? { DecisionFrame(cfg, t, ev, c); }
  }

  lemma StepKeepsRetired(cfg: Config, s: System, a: Action)
    ensures s.t.retired <= Step(cfg, s, a).t.retired
  {
    hide HandleEvent;
    StepTables(cfg, s, a);
    if Submits(s, a) {
      HandleEventKeepsRetired(cfg, s.t, s.locked, s.conns[a.conn], a.m.ev, a.c);
    }
  }

  /** Once deleted, a channel is never live again and keeps no member and no metadata. */
  lemma {:induction false} DeletedStaysDead(cfg: Config, locked: bool, acts: seq<Action>, i: nat, j: nat, g: string)
    requires Trustworthy(cfg.crypto) && i <= j <= |acts| && g in At(cfg, locked, acts, i).t.retired
    ensures var t := At(cfg, locked, acts, j).t;
      && g in t.retired && g !in t.groups && (forall pk :: (g, pk) !in t.members)
      && (forall id :: id in t.events && IsMetaKind(t.events[id].kind) ==> DKey(t.events[id]) != g)
      && (forall id :: id in t.events && IsBound(t.events[id].kind) ==> !EventInGroup(t, id, g))
    decreases j
  {
    if i < j {
      DeletedStaysDead(cfg, locked, acts, i, j - 1, g);
      AtNext(cfg, locked, acts, j - 1);
      StepKeepsRetired(cfg, At(cfg, locked, acts, j - 1), acts[j - 1]);
    }
    RunSatisfiesInv(cfg, locked, acts[..j]);
    DeadChannelsAreEmpty(cfg, At(cfg, locked, acts, j).t, g);
  }
}
