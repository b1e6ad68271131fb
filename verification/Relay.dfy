/** The relay object and its connections (crates/menhir-relay/src/server.rs): fields updated in place,
    each handler proved to do what `Protocol` says. */
module RelayServer {
  import opened Text
  import opened Nostr
  import opened Tables
  import opened Database
  import opened Protocol

  class Connection {
    var authed: Option<string>
    const challenge: string
    const host: Option<string>
    var subs: map<string, seq<Filter>>

    constructor (challenge: string, host: Option<string>)
      ensures View() == Session(None, challenge, host, map[])
    {
      this.challenge, this.host := challenge, host;
      authed, subs := None, map[];
    }

    ghost function View(): Session
      reads this
    {
      Session(authed, challenge, host, subs)
    }
  }

  /** What a group-logic closure returned: an error, or the metadata to publish after the event. */
  ghost predicate CarriesOut(v: Verdict, before: Tables, after: Tables, err: Option<Note>, extra: seq<Event>) {
    match v
    case Refused(note) => err == Some(note) && after == before
    case Granted(t, evs) => err == None && after == t && extra == evs
  }

  class Relay {
    const cfg: Config
    const db: Db
    var locked: bool
    var broadcast: seq<Event>

    /** Starts on the database it is given, whatever that holds. */
    constructor (cfg: Config, locked: bool, db: Db)
      modifies db
      ensures this.cfg == cfg && this.db == db && this.locked == locked && broadcast == []
      ensures var operator := if cfg.operator.Some? then {cfg.operator.value} else {};
        db.View() == old(db.View()).(whitelist := old(db.View()).whitelist + operator)
    {
      this.cfg, this.db, this.locked, this.broadcast := cfg, db, locked, [];
      new;
      if cfg.operator.Some? { db.WhitelistAdd(cfg.operator.value); }
    }

    method SetLocked(b: bool)
      modifies this`locked
      ensures locked == b
    {
      locked := b;
    }

    method CheckAllowed(pubkey: string) returns (yes: bool)
      ensures yes <==> IsAllowed(cfg, db.View(), pubkey)
    {
      if cfg.open { return true; }
      if cfg.operator == Some(pubkey) { return true; }
      yes := db.WhitelistContains(pubkey);
    }

    method CheckAdmin(id: string, pubkey: string) returns (yes: bool)
      ensures yes <==> IsAdmin(cfg, db.View(), id, pubkey)
    {
      if cfg.operator == Some(pubkey) { return true; }
      yes := db.IsAdmin(id, pubkey);
    }

    // ---- metadata ----

    /** The loop over the member list that fills both tag vectors. */
    static method RosterTags(id: string, pairs: seq<(string, Role)>) returns (admins: seq<Tag>, members: seq<Tag>)
      ensures admins == [["d", id]] + AdminTags(pairs) && members == [["d", id]] + MemberTags(pairs)
    {
      admins, members := [["d", id]], [["d", id]];
      for i := 0 to |pairs|
        invariant admins + AdminTags(pairs[i..]) == [["d", id]] + AdminTags(pairs)
        invariant members + MemberTags(pairs[i..]) == [["d", id]] + MemberTags(pairs)
      {
        assert pairs[i..][0] == pairs[i] && pairs[i..][1..] == pairs[i + 1..];
        members := members + [["p", pairs[i].0]];
        if pairs[i].1 == Admin || pairs[i].1 == Moderator {
          admins := admins + [["p", pairs[i].0, RoleName(pairs[i].1)]];
        }
      }
    }

    method GroupMetaEvents(id: string, now: nat) returns (trio: seq<Event>)
      ensures trio == MetaEvents(cfg, db.View(), id, now)
    {
      var group := db.GetGroup(id);
      if group.None? { return []; }
      var pairs := db.ListMembers(id);
      var last := db.MaxCreatedAtForD(cfg.relayKey, id);
      var at := if last.Some? && last.value + 1 > now then last.value + 1 else now;
      var g := group.value;
      var metaTags := [["d", id], ["name", g.name], ["open"], ["t", g.kind]];
      if g.about != "" {
        metaTags := metaTags + [["about", g.about]];
      }
      assert metaTags == MetaTags(GROUP_METADATA, id, g, pairs);
      var adminTags, memberTags := RosterTags(id, pairs);
      trio := [SignedMeta(cfg, GROUP_METADATA, metaTags, at),
               SignedMeta(cfg, GROUP_ADMINS, adminTags, at),
               SignedMeta(cfg, GROUP_MEMBERS, memberTags, at)];
    }

    // ---- group logic ----

    method EnrollMember(id: string, pubkey: string, c: Clock) returns (extra: seq<Event>)
      modifies db
      ensures Enroll(cfg, old(db.View()), id, pubkey, c) == Granted(db.View(), extra)
    {
      extra := [];
      var added := db.AddMemberIfAbsent(id, pubkey, Plain, c.row(0));
      if added { extra := GroupMetaEvents(id, c.meta); }
    }

    method Chat(ev: Event, c: Clock) returns (err: Option<Note>, extra: seq<Event>)
      modifies db
      ensures CarriesOut(DecideChat(cfg, old(db.View()), ev, c), old(db.View()), db.View(), err, extra)
    {
      extra := [];
      var h := FirstTag(ev.tags, "h");
      if h.None? { return Some(NeedsChannel), []; }
      var group := db.GetGroup(h.value);
      if group.None? { return Some(UnknownChannel), []; }
      if group.value.kind == "publication" {
        var admin := CheckAdmin(h.value, ev.pubkey);
        if !admin {
          var parent := ReplyParent(ev.tags);
          if parent.None? { return Some(OnlyAdminsPost), []; }
          var there := db.IsInGroup(parent.value, h.value);
          if !there { return Some(ReplyNowhere), []; }
        }
      }
      extra := EnrollMember(h.value, ev.pubkey, c);
      err := None;
    }

    method CreateChannel(ev: Event, c: Clock) returns (err: Option<Note>, extra: seq<Event>)
      modifies db
      ensures CarriesOut(DecideCreate(cfg, old(db.View()), ev, c), old(db.View()), db.View(), err, extra)
    {
      extra := [];
      var h := FirstTag(ev.tags, "h");
      if h.None? { return Some(NeedsChannel), []; }
      if !ValidGroupId(h.value) { return Some(BadChannelId), []; }
      var gone := db.IsRetired(h.value);
      if gone { return Some(RetiredChannel), []; }
      var kind := NormalizeKind(FirstTag(ev.tags, "t"));
      var name := ChannelName(ev, h.value);
      var created := db.CreateGroup(h.value, name, ChannelAbout(ev), kind, ev.pubkey, c.row(0));
      if !created { return Some(ChannelExists), []; }
      db.AddMember(h.value, ev.pubkey, Admin, c.row(1));
      extra := GroupMetaEvents(h.value, c.meta);
      err := None;
    }

    method Join(ev: Event, c: Clock) returns (err: Option<Note>, extra: seq<Event>)
      modifies db
      ensures CarriesOut(DecideJoin(cfg, old(db.View()), ev, c), old(db.View()), db.View(), err, extra)
    {
      extra := [];
      var h := FirstTag(ev.tags, "h");
      if h.None? { return Some(NeedsChannel), []; }
      var group := db.GetGroup(h.value);
      if group.None? { return Some(UnknownChannel), []; }
      extra := EnrollMember(h.value, ev.pubkey, c);
      err := None;
    }

    method Leave(ev: Event, c: Clock) returns (err: Option<Note>, extra: seq<Event>)
      modifies db
      ensures CarriesOut(DecideLeave(cfg, old(db.View()), ev, c), old(db.View()), db.View(), err, extra)
    {
      extra := [];
      var h := FirstTag(ev.tags, "h");
      if h.None? { return Some(NeedsChannel), []; }
      db.RemoveMember(h.value, ev.pubkey);
      extra := GroupMetaEvents(h.value, c.meta);
      err := None;
    }

    method PutUsersFrom(id: string, tags: seq<Tag>, now: nat -> nat)
      modifies db
      ensures db.View() == PutUsers(old(db.View()), id, tags, now)
    {
      for i := 0 to |tags|
        invariant db.View() == PutUsers(old(db.View()), id, tags[..i], now)
      {
        assert tags[..i + 1][..i] == tags[..i];
        if Named(tags[i], "p") && |tags[i]| > 1 {
          db.AddMember(id, tags[i][1], RoleOf(tags[i]), now(i));
        }
      }
      assert tags[..|tags|] == tags;
    }

    method RemoveUsersIn(id: string, pubkeys: seq<string>)
      modifies db
      ensures db.View() == RemoveUsers(old(db.View()), id, pubkeys)
    {
      for i := 0 to |pubkeys|
        invariant db.View() == RemoveUsers(old(db.View()), id, pubkeys[..i])
      {
        assert pubkeys[..i + 1][..i] == pubkeys[..i];
        db.RemoveMember(id, pubkeys[i]);
      }
      assert pubkeys[..|pubkeys|] == pubkeys;
    }

    method Moderation(ev: Event, c: Clock) returns (err: Option<Note>, extra: seq<Event>)
      modifies db
      ensures CarriesOut(DecideModeration(cfg, old(db.View()), ev, c), old(db.View()), db.View(), err, extra)
    {
      extra := [];
      var h := FirstTag(ev.tags, "h");
      if h.None? { return Some(NeedsChannel), []; }
      var group := db.GetGroup(h.value);
      if group.None? { return Some(UnknownChannel), []; }
      var admin := CheckAdmin(h.value, ev.pubkey);
      if !admin { return Some(AdminsOnly), []; }
      if ev.kind == DELETE_GROUP {
        db.DeleteGroup(h.value);
        db.PurgeGroupEvents(h.value);
        return None, [];
      }
      if ev.kind == PUT_USER {
        PutUsersFrom(h.value, ev.tags, c.row);
      } else if ev.kind == REMOVE_USER {
        RemoveUsersIn(h.value, TagValues(ev.tags, "p"));
      } else {
        db.UpdateGroupMeta(h.value, FirstTag(ev.tags, "name"), FirstTag(ev.tags, "about"), FirstTag(ev.tags, "t"));
      }
      extra := GroupMetaEvents(h.value, c.meta);
      err := None;
    }

    method GroupLogic(ev: Event, c: Clock) returns (err: Option<Note>, extra: seq<Event>)
      modifies db
      ensures CarriesOut(Decide(cfg, old(db.View()), ev, c), old(db.View()), db.View(), err, extra)
    {
      err, extra := None, [];
      if ev.kind == PROFILE {
      } else if ev.kind == CHAT {
        err, extra := Chat(ev, c);
      } else if ev.kind == CREATE_GROUP {
        err, extra := CreateChannel(ev, c);
      } else if ev.kind == JOIN_REQUEST {
        err, extra := Join(ev, c);
      } else if ev.kind == LEAVE_REQUEST {
        err, extra := Leave(ev, c);
      } else if IsModeration(ev.kind) {
        err, extra := Moderation(ev, c);
      } else {
        err := Some(KindNotHandled);
      }
    }

    // ---- events ----

    method HandleAuthEvent(ctx: Connection, ev: Event, c: Clock) returns (reply: Reply)
      modifies ctx`authed
      ensures var o := HandleAuth(cfg, db.View(), old(ctx.View()), ev, c);
        ctx.authed == o.authed && reply == OkReply(ev.id, o.accepted, o.note)
    {
      if !cfg.crypto.verify(ev) { return OkReply(ev.id, false, BadSignature); }
      if ev.kind != CLIENT_AUTH { return OkReply(ev.id, false, NotAuthKind); }
      if FirstTag(ev.tags, "challenge") != Some(ctx.challenge) { return OkReply(ev.id, false, ChallengeMismatch); }
      if AbsDiff(ev.createdAt, c.check) > AUTH_FRESHNESS_SECS { return OkReply(ev.id, false, NotFresh); }
      if ctx.host.Some? {
        var relay := FirstTag(ev.tags, "relay");
        if relay.None? { return OkReply(ev.id, false, NoRelayTag); }
        if UrlHost(relay.value) != Some(HostOnly(ctx.host.value)) { return OkReply(ev.id, false, OtherRelay); }
      }
      var allowed := CheckAllowed(ev.pubkey);
      if allowed {
        ctx.authed := Some(ev.pubkey);
        reply := OkReply(ev.id, true, Welcome);
      } else {
        reply := OkReply(ev.id, false, NotWhitelisted);
      }
    }

    method HandleInviteEvent(ctx: Connection, ev: Event, c: Clock) returns (reply: Reply)
      modifies db, ctx`authed
      ensures var o := HandleInvite(cfg, old(db.View()), locked, old(ctx.authed), ev, c);
        db.View() == o.t && ctx.authed == o.authed && reply == OkReply(ev.id, o.accepted, o.note)
    {
      if AbsDiff(ev.createdAt, c.check) > AUTH_FRESHNESS_SECS { return OkReply(ev.id, false, NotFresh); }
      if locked { return OkReply(ev.id, false, NoNewMembers); }
      var result := db.Redeem(Trim(ev.content), c.row(0));
      if result == Redeemed {
        db.WhitelistAdd(ev.pubkey);
        ctx.authed := Some(ev.pubkey);
        reply := OkReply(ev.id, true, InviteAccepted);
      } else {
        reply := OkReply(ev.id, false, BadInvite(result));
      }
    }

    method CheckGate(authed: Option<string>, ev: Event, c: Clock) returns (stop: Option<(bool, Note)>)
      ensures stop == Gate(cfg, db.View(), authed, ev, c)
    {
      if !cfg.open && authed != Some(ev.pubkey) { return Some((false, AuthRequired)); }
      if !IsClientKind(ev.kind) { return Some((false, KindNotAllowed)); }
      if |TagValues(ev.tags, "h")| > 1 { return Some((false, ManyChannels)); }
      if TagValues(ev.tags, "d") != [] { return Some((false, ReservedD)); }
      if !IsEphemeral(ev.kind) {
        var known := db.HasEvent(ev.id);
        if known { return Some((true, AlreadyHave)); }
      }
      if ByteLen(ev.content) > cfg.maxContentLen { return Some((false, ContentTooLong)); }
      if ev.createdAt > c.check + MAX_FUTURE_DRIFT_SECS { return Some((false, TooFarAhead)); }
      stop := None;
    }

    /** Insert and broadcast the metadata events, one after the other. */
    method PublishAll(extra: seq<Event>)
      modifies this`broadcast, db
      ensures db.View() == InsertAll(old(db.View()), extra) && broadcast == old(broadcast) + extra
    {
      for i := 0 to |extra|
        invariant db.View() == InsertAll(old(db.View()), extra[..i])
        invariant broadcast == old(broadcast) + extra[..i]
      {
        assert extra[..i + 1][..i] == extra[..i];
        var _ := db.InsertEvent(extra[i]);
        broadcast := broadcast + [extra[i]];
      }
      assert extra[..|extra|] == extra;
    }

    method StoreAndSend(ghost authed: Option<string>, ev: Event, extra: seq<Event>) returns (note: Note)
      modifies this`broadcast, db
      ensures var o := Announce(old(db.View()), authed, ev, extra);
        db.View() == o.t && note == o.note && o.accepted && o.authed == authed && broadcast == old(broadcast) + o.sent
    {
      hide InsertAll, IndexRows, Existing, Supersedes;
      if !IsEphemeral(ev.kind) {
        var result := db.InsertEvent(ev);
        if result == Duplicate { return AlreadyHave; }
        if result == Stale { return NewerExists; }
      }
      broadcast := broadcast + [ev];
      PublishAll(extra);
      note := Quiet;
    }

    method HandleEventMessage(ctx: Connection, ev: Event, c: Clock) returns (reply: Reply)
      modifies this`broadcast, db, ctx`authed
      ensures var o := HandleEvent(cfg, old(db.View()), locked, old(ctx.View()), ev, c);
        db.View() == o.t && ctx.authed == o.authed && reply == OkReply(ev.id, o.accepted, o.note)
        && broadcast == old(broadcast) + o.sent
    {
      hide Decide, Gate, Announce;
      if !cfg.crypto.verify(ev) { return OkReply(ev.id, false, BadSignature); }
      if ev.kind == CLIENT_AUTH {
        reply := HandleAuthEvent(ctx, ev, c);
      } else if ev.kind == INVITE_REDEEM {
        reply := HandleInviteEvent(ctx, ev, c);
      } else {
        var stop := CheckGate(ctx.authed, ev, c);
        if stop.Some? { return OkReply(ev.id, stop.value.0, stop.value.1); }
        var err, extra := GroupLogic(ev, c);
        if err.Some? { return OkReply(ev.id, false, err.value); }
        var note := StoreAndSend(ctx.authed, ev, extra);
        reply := OkReply(ev.id, true, note);
      }
    }

    // ---- messages ----

    static method EventFrames(sub: string, events: seq<Event>) returns (replies: seq<Reply>)
      ensures replies == EventReplies(sub, events)
    {
      replies := [];
      for i := 0 to |events|
        invariant replies + EventReplies(sub, events[i..]) == EventReplies(sub, events)
      {
        assert events[i..][0] == events[i] && events[i..][1..] == events[i + 1..];
        replies := replies + [EventReply(sub, events[i])];
      }
    }

    method HandleReq(ctx: Connection, sub: Option<string>, filters: seq<Filter>) returns (replies: seq<Reply>)
      modifies ctx`subs
      ensures var r := ServeReq(cfg, db.View(), old(ctx.View()), sub, filters);
        ctx.View() == r.s && replies == r.replies
    {
      if sub.None? { return [Notice(NoSubscription)]; }
      if !cfg.open && ctx.authed.None? { return [Closed(sub.value, AuthRequired)]; }
      if filters == [] { return [Closed(sub.value, NoFilter)]; }
      if |ctx.subs| >= MAX_SUBS_PER_CONN && sub.value !in ctx.subs { return [Closed(sub.value, TooManySubs)]; }
      var events := db.Query(filters);
      replies := EventFrames(sub.value, events);
      replies := replies + [Eose(sub.value)];
      ctx.subs := ctx.subs[sub.value := filters];
    }

    method HandleClientMessage(ctx: Connection, m: Message, c: Clock) returns (replies: seq<Reply>)
      modifies this`broadcast, db, ctx
      ensures old(broadcast) <= broadcast
      ensures Serve(cfg, old(db.View()), locked, old(ctx.View()), m, c)
           == Served(db.View(), ctx.View(), replies, broadcast[|old(broadcast)|..])
    {
      replies := [];
      match m {
        case EventMsg(ev) =>
          var err := TagLimitError(ev);
          if err.Some? { return [OkReply(ev.id, false, err.value)]; }
          var reply := HandleEventMessage(ctx, ev, c);
          replies := [reply];
        case AuthMsg(ev) =>
          var err := TagLimitError(ev);
          if err.Some? { return [OkReply(ev.id, false, err.value)]; }
          AuthSendsNothing(cfg, db.View(), ctx.View(), ev, c);
          var reply := HandleAuthEvent(ctx, ev, c);
          replies := [reply];
        case ReqMsg(sub, filters) =>
          replies := HandleReq(ctx, sub, filters);
        case CloseMsg(sub) =>
          if sub.Some? { ctx.subs := ctx.subs - {sub.value}; }
        case BadEventMsg => replies := [Notice(MalformedEvent)];
        case BadAuthMsg => replies := [Notice(MalformedAuth)];
        case UnparsableMsg => replies := [Notice(Unparsable)];
        case OtherMsg => replies := [Notice(UnknownType)];
      }
    }

    lemma AuthSendsNothing(cfg: Config, t: Tables, s: Session, ev: Event, c: Clock)
      ensures HandleAuth(cfg, t, s, ev, c).t == t && HandleAuth(cfg, t, s, ev, c).sent == []
    {
    }
  }
}
