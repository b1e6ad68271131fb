/** What the relay does with one client message (crates/menhir-relay/src/server.rs), as functions of
    the tables, the connection and the clock readings. One handled message is one atomic step here;
    the finer interleaving of insertions, broadcasts, queries and polls is module `HandOff`. */
module Protocol {
  import opened Text
  import opened Nostr
  import opened Tables
  import opened Querying

  const MAX_SUBS_PER_CONN := 32
  const MAX_FUTURE_DRIFT_SECS := 900
  const AUTH_FRESHNESS_SECS := 600
  const MAX_TAGS := 100
  const MAX_TAG_ITEM_LEN := 1024

  datatype Config = Config(open: bool, operator: Option<string>, maxContentLen: nat, relayKey: string, crypto: Crypto)

  /** The readings one message takes of the wall clock: for its checks, for each row it writes, for
      the metadata it signs. Nothing relates them to each other or to earlier ones. */
  datatype Clock = Clock(check: nat, row: nat -> nat, meta: nat)

  datatype Note =
    | Quiet
    // accepted
    | Welcome | InviteAccepted | AlreadyHave | NewerExists
    // invalid, restricted, auth-required, rate-limited
    | BadSignature | NotAuthKind | ChallengeMismatch | NotFresh | OtherRelay | NoRelayTag | NotWhitelisted
    | NoNewMembers | BadInvite(why: Redemption) | AuthRequired | KindNotAllowed | ManyChannels | ReservedD
    | ContentTooLong | TooFarAhead | NeedsChannel | UnknownChannel | OnlyAdminsPost | ReplyNowhere
    | BadChannelId | RetiredChannel | ChannelExists | AdminsOnly | KindNotHandled
    | TooManyTags | TagItemTooLong | NoSubscription | NoFilter | TooManySubs
    | Unparsable | MalformedEvent | MalformedAuth | UnknownType

  datatype Reply =
    | OkReply(id: string, accepted: bool, note: Note)
    | EventReply(sub: string, ev: Event)
    | Eose(sub: string)
    | Closed(sub: string, note: Note)
    | Notice(note: Note)

  // ---- reading events ----

  predicate ValidGroupId(id: string) {
    id != "" && ByteLen(id) <= 64
    && forall c :: c in id ==> 'a' <= c <= 'z' || '0' <= c <= '9' || c == '-' || c == '_'
  }

  function TagLimitError(ev: Event): Option<Note> {
    if |ev.tags| > MAX_TAGS then Some(TooManyTags)
    else if exists t, s :: t in ev.tags && s in t && ByteLen(s) > MAX_TAG_ITEM_LEN then Some(TagItemTooLong)
    else None
  }

  function AbsDiff(a: nat, b: nat): nat {
    if a < b then b - a else a - b
  }

  /** `host[:port]` without the port; IPv6 literals are left alone. */
  function HostOnly(host: string): string {
    var i := LastIndex(host, ':');
    if i.Some? && ']' !in host && ':' !in host[..i.value] then host[..i.value] else host
  }

  /** Hostname of a ws:// or wss:// address. */
  function UrlHost(url: string): Option<string> {
    var rest := if "wss://" <= url then Some(url[6..]) else StripPrefix(url, "ws://");
    if rest.None? then None
    else
      var hostport := Before(rest.value, '/');
      if hostport == "" then None else Some(AsciiLower(HostOnly(hostport)))
  }

  // ---- metadata ----

  function RoleName(r: Role): string {
    match r case Admin => "admin" case Moderator => "moderator" case Plain => "member"
  }

  function AdminTags(pairs: seq<(string, Role)>): seq<Tag> {
    if pairs == [] then []
    else (if pairs[0].1 == Plain then [] else [["p", pairs[0].0, RoleName(pairs[0].1)]]) + AdminTags(pairs[1..])
  }

  function MemberTags(pairs: seq<(string, Role)>): seq<Tag> {
    if pairs == [] then [] else [["p", pairs[0].0]] + MemberTags(pairs[1..])
  }

  predicate IsMetaKind(kind: nat) {
    kind == GROUP_METADATA || kind == GROUP_ADMINS || kind == GROUP_MEMBERS
  }

  /** The rendering of a channel's rows: its group row, its admins and moderators, its members. */
  function MetaTags(kind: nat, id: string, g: Group, pairs: seq<(string, Role)>): seq<Tag> {
    if kind == GROUP_METADATA then
      [["d", id], ["name", g.name], ["open"], ["t", g.kind]] + (if g.about == "" then [] else [["about", g.about]])
    else if kind == GROUP_ADMINS then [["d", id]] + AdminTags(pairs)
    else [["d", id]] + MemberTags(pairs)
  }

  function SignedMeta(cfg: Config, kind: nat, tags: seq<Tag>, at: nat): Event {
    var b := Body(cfg.relayKey, at, kind, tags, "");
    Event(cfg.crypto.hash(b), cfg.relayKey, at, kind, tags, "", cfg.crypto.sign(b))
  }

  /** Strictly newer than whatever was published last for this channel. */
  ghost function MetaStamp(cfg: Config, t: Tables, id: string, now: nat): nat {
    var last := LastStamp(t, cfg.relayKey, id);
    if last.Some? && last.value + 1 > now then last.value + 1 else now
  }

  ghost function MetaEvent(cfg: Config, t: Tables, kind: nat, id: string, at: nat): Event
    requires id in t.groups
  {
    SignedMeta(cfg, kind, MetaTags(kind, id, t.groups[id], Listing(t.members, id)), at)
  }

  /** The 39000/39001/39002 trio for a channel, nothing for one that is not live. */
  ghost function MetaEvents(cfg: Config, t: Tables, id: string, now: nat): seq<Event> {
    if id !in t.groups then []
    else
      var at := MetaStamp(cfg, t, id, now);
      [MetaEvent(cfg, t, GROUP_METADATA, id, at), MetaEvent(cfg, t, GROUP_ADMINS, id, at),
       MetaEvent(cfg, t, GROUP_MEMBERS, id, at)]
  }

  // ---- group logic ----

  predicate IsAllowed(cfg: Config, t: Tables, pubkey: string) {
    cfg.open || cfg.operator == Some(pubkey) || pubkey in t.whitelist
  }

  predicate IsAdmin(cfg: Config, t: Tables, id: string, pubkey: string) {
    cfg.operator == Some(pubkey) || IsGroupAdmin(t, id, pubkey)
  }

  datatype Verdict = Refused(note: Note) | Granted(t: Tables, extra: seq<Event>)

  /** First activity in a channel makes you a listed member. */
  ghost function Enroll(cfg: Config, t: Tables, id: string, pubkey: string, c: Clock): Verdict {
    var (t', added) := MemberAddIfAbsent(t, id, pubkey, Plain, c.row(0));
    Granted(t', if added then MetaEvents(cfg, t', id, c.meta) else [])
  }

  ghost function DecideChat(cfg: Config, t: Tables, ev: Event, c: Clock): Verdict {
    var h := FirstTag(ev.tags, "h");
    if h.None? then Refused(NeedsChannel)
    else if h.value !in t.groups then Refused(UnknownChannel)
    else if t.groups[h.value].kind == "publication" && !IsAdmin(cfg, t, h.value, ev.pubkey) then
      var parent := ReplyParent(ev.tags);
      if parent.None? then Refused(OnlyAdminsPost)
      else if !EventInGroup(t, parent.value, h.value) then Refused(ReplyNowhere)
      else Enroll(cfg, t, h.value, ev.pubkey, c)
    else Enroll(cfg, t, h.value, ev.pubkey, c)
  }

  function ChannelName(ev: Event, id: string): string {
    var n := FirstTag(ev.tags, "name");
    if n.Some? && n.value != "" then n.value else id
  }

  function ChannelAbout(ev: Event): string {
    var a := FirstTag(ev.tags, "about");
    if a.Some? then a.value else ""
  }

  ghost function DecideCreate(cfg: Config, t: Tables, ev: Event, c: Clock): Verdict {
    var h := FirstTag(ev.tags, "h");
    if h.None? then Refused(NeedsChannel)
    else if !ValidGroupId(h.value) then Refused(BadChannelId)
    else if h.value in t.retired then Refused(RetiredChannel)
    else
      var kind := NormalizeKind(FirstTag(ev.tags, "t"));
      var name := ChannelName(ev, h.value);
      var (t1, created) := GroupCreate(t, h.value, name, ChannelAbout(ev), kind, ev.pubkey, c.row(0));
      if !created then Refused(ChannelExists)
      else
        var t2 := MemberAdd(t1, h.value, ev.pubkey, Admin, c.row(1));
        Granted(t2, MetaEvents(cfg, t2, h.value, c.meta))
  }

  ghost function DecideJoin(cfg: Config, t: Tables, ev: Event, c: Clock): Verdict {
    var h := FirstTag(ev.tags, "h");
    if h.None? then Refused(NeedsChannel)
    else if h.value !in t.groups then Refused(UnknownChannel)
    else Enroll(cfg, t, h.value, ev.pubkey, c)
  }

  /** Leaving does not ask whether the channel is live. */
  ghost function DecideLeave(cfg: Config, t: Tables, ev: Event, c: Clock): Verdict {
    var h := FirstTag(ev.tags, "h");
    if h.None? then Refused(NeedsChannel)
    else
      var t' := MemberRemove(t, h.value, ev.pubkey);
      Granted(t', MetaEvents(cfg, t', h.value, c.meta))
  }

  function RoleOf(tag: Tag): Role {
    if |tag| > 2 && tag[2] == "admin" then Admin
    else if |tag| > 2 && tag[2] == "moderator" then Moderator
    else Plain
  }

  /** Each added row has a reading of its own. */
  function PutUsers(t: Tables, id: string, tags: seq<Tag>, now: nat -> nat): Tables
    decreases |tags|
  {
    if tags == [] then t
    else
      var last := tags[|tags| - 1];
      var u := PutUsers(t, id, tags[..|tags| - 1], now);
      if Named(last, "p") && |last| > 1 then MemberAdd(u, id, last[1], RoleOf(last), now(|tags| - 1)) else u
  }

  function RemoveUsers(t: Tables, id: string, pubkeys: seq<string>): Tables
    decreases |pubkeys|
  {
    if pubkeys == [] then t
    else MemberRemove(RemoveUsers(t, id, pubkeys[..|pubkeys| - 1]), id, pubkeys[|pubkeys| - 1])
  }

  /** The three moderation kinds that keep the channel. */
  function Moderate(t: Tables, ev: Event, id: string, now: nat -> nat): Tables {
    if ev.kind == PUT_USER then PutUsers(t, id, ev.tags, now)
    else if ev.kind == REMOVE_USER then RemoveUsers(t, id, TagValues(ev.tags, "p"))
    else GroupUpdateMeta(t, id, FirstTag(ev.tags, "name"), FirstTag(ev.tags, "about"), FirstTag(ev.tags, "t"))
  }

  ghost function DecideModeration(cfg: Config, t: Tables, ev: Event, c: Clock): Verdict {
    var h := FirstTag(ev.tags, "h");
    if h.None? then Refused(NeedsChannel)
    else if h.value !in t.groups then Refused(UnknownChannel)
    else if !IsAdmin(cfg, t, h.value, ev.pubkey) then Refused(AdminsOnly)
    else if ev.kind == DELETE_GROUP then Granted(Purge(GroupDelete(t, h.value), h.value), [])
    else
      var t' := Moderate(t, ev, h.value, c.row);
      Granted(t', MetaEvents(cfg, t', h.value, c.meta))
  }

  ghost function Decide(cfg: Config, t: Tables, ev: Event, c: Clock): Verdict {
    if ev.kind == PROFILE then Granted(t, [])
    else if ev.kind == CHAT then DecideChat(cfg, t, ev, c)
    else if ev.kind == CREATE_GROUP then DecideCreate(cfg, t, ev, c)
    else if ev.kind == JOIN_REQUEST then DecideJoin(cfg, t, ev, c)
    else if ev.kind == LEAVE_REQUEST then DecideLeave(cfg, t, ev, c)
    else if IsModeration(ev.kind) then DecideModeration(cfg, t, ev, c)
    else Refused(KindNotHandled)
  }

  // ---- events ----

  /** What handling one event leaves: the tables, the connection's identity, the answer, and what
      was broadcast, in order. */
  datatype Outcome = Outcome(t: Tables, authed: Option<string>, accepted: bool, note: Note, sent: seq<Event>)

  function HandleAuth(cfg: Config, t: Tables, s: Session, ev: Event, c: Clock): Outcome {
    if !cfg.crypto.verify(ev) then Outcome(t, s.authed, false, BadSignature, [])
    else if ev.kind != CLIENT_AUTH then Outcome(t, s.authed, false, NotAuthKind, [])
    else if FirstTag(ev.tags, "challenge") != Some(s.challenge) then Outcome(t, s.authed, false, ChallengeMismatch, [])
    else if AbsDiff(ev.createdAt, c.check) > AUTH_FRESHNESS_SECS then Outcome(t, s.authed, false, NotFresh, [])
    else if s.host.Some? && FirstTag(ev.tags, "relay").None? then Outcome(t, s.authed, false, NoRelayTag, [])
    else if s.host.Some? && UrlHost(FirstTag(ev.tags, "relay").value) != Some(HostOnly(s.host.value)) then
      Outcome(t, s.authed, false, OtherRelay, [])
    else if IsAllowed(cfg, t, ev.pubkey) then Outcome(t, Some(ev.pubkey), true, Welcome, [])
    else Outcome(t, s.authed, false, NotWhitelisted, [])
  }

  function HandleInvite(cfg: Config, t: Tables, locked: bool, authed: Option<string>, ev: Event, c: Clock): Outcome {
    if AbsDiff(ev.createdAt, c.check) > AUTH_FRESHNESS_SECS then Outcome(t, authed, false, NotFresh, [])
    else if locked then Outcome(t, authed, false, NoNewMembers, [])
    else
      var (t', why) := InviteRedeem(t, Trim(ev.content), c.row(0));
      if why == Redeemed then
        Outcome(t'.(whitelist := t'.whitelist + {ev.pubkey}), Some(ev.pubkey), true, InviteAccepted, [])
      else Outcome(t', authed, false, BadInvite(why), [])
  }

  /** The checks every stored kind passes first; `None` lets the event through. */
  function Gate(cfg: Config, t: Tables, authed: Option<string>, ev: Event, c: Clock): Option<(bool, Note)> {
    if !cfg.open && authed != Some(ev.pubkey) then Some((false, AuthRequired))
    else if !IsClientKind(ev.kind) then Some((false, KindNotAllowed))
    else if |TagValues(ev.tags, "h")| > 1 then Some((false, ManyChannels))
    else if TagValues(ev.tags, "d") != [] then Some((false, ReservedD))
    else if !IsEphemeral(ev.kind) && ev.id in t.events then Some((true, AlreadyHave))
    else if ByteLen(ev.content) > cfg.maxContentLen then Some((false, ContentTooLong))
    else if ev.createdAt > c.check + MAX_FUTURE_DRIFT_SECS then Some((false, TooFarAhead))
    else None
  }

  /** Store the event, broadcast it, then store and broadcast the metadata that came with it. */
  function Announce(t: Tables, authed: Option<string>, ev: Event, extra: seq<Event>): Outcome {
    var (t', result) := if IsEphemeral(ev.kind) then (t, Stored) else Insert(t, ev);
    match result
    case Stored => Outcome(InsertAll(t', extra), authed, true, Quiet, [ev] + extra)
    case Duplicate => Outcome(t', authed, true, AlreadyHave, [])
    case Stale => Outcome(t', authed, true, NewerExists, [])
  }

  ghost function HandleStored(cfg: Config, t: Tables, authed: Option<string>, ev: Event, c: Clock): Outcome {
    var gate := Gate(cfg, t, authed, ev, c);
    if gate.Some? then Outcome(t, authed, gate.value.0, gate.value.1, [])
    else
      match Decide(cfg, t, ev, c)
      case Refused(note) => Outcome(t, authed, false, note, [])
      case Granted(t', extra) => Announce(t', authed, ev, extra)
  }

  ghost function HandleEvent(cfg: Config, t: Tables, locked: bool, s: Session, ev: Event, c: Clock): Outcome {
    if !cfg.crypto.verify(ev) then Outcome(t, s.authed, false, BadSignature, [])
    else if ev.kind == CLIENT_AUTH then HandleAuth(cfg, t, s, ev, c)
    else if ev.kind == INVITE_REDEEM then HandleInvite(cfg, t, locked, s.authed, ev, c)
    else HandleStored(cfg, t, s.authed, ev, c)
  }

  // ---- messages ----

  datatype Session = Session(authed: Option<string>, challenge: string, host: Option<string>,
                             subs: map<string, seq<Filter>>)

  datatype Message =
    | EventMsg(ev: Event) | BadEventMsg
    | AuthMsg(ev: Event) | BadAuthMsg
    | ReqMsg(sub: Option<string>, filters: seq<Filter>)
    | CloseMsg(sub: Option<string>)
    | OtherMsg | UnparsableMsg

  function EventReplies(sub: string, evs: seq<Event>): seq<Reply> {
    if evs == [] then [] else [EventReply(sub, evs[0])] + EventReplies(sub, evs[1..])
  }

  /** Why a REQ is refused, if it is. */
  function ReqError(cfg: Config, s: Session, sub: string, filters: seq<Filter>): Option<Note> {
    if !cfg.open && s.authed.None? then Some(AuthRequired)
    else if filters == [] then Some(NoFilter)
    else if |s.subs| >= MAX_SUBS_PER_CONN && sub !in s.subs then Some(TooManySubs)
    else None
  }

  datatype Served = Served(t: Tables, s: Session, replies: seq<Reply>, sent: seq<Event>)

  ghost function ServeReq(cfg: Config, t: Tables, s: Session, sub: Option<string>, filters: seq<Filter>): Served {
    if sub.None? then Served(t, s, [Notice(NoSubscription)], [])
    else
      var err := ReqError(cfg, s, sub.value, filters);
      if err.Some? then Served(t, s, [Closed(sub.value, err.value)], [])
      else
        var replies := EventReplies(sub.value, Query(t, filters)) + [Eose(sub.value)];
        Served(t, s.(subs := s.subs[sub.value := filters]), replies, [])
  }

  function Answered(s: Session, ev: Event, o: Outcome): Served {
    Served(o.t, s.(authed := o.authed), [OkReply(ev.id, o.accepted, o.note)], o.sent)
  }

  ghost function Serve(cfg: Config, t: Tables, locked: bool, s: Session, m: Message, c: Clock): Served {
    match m
    case EventMsg(ev) =>
      var err := TagLimitError(ev);
      if err.Some? then Served(t, s, [OkReply(ev.id, false, err.value)], [])
      else Answered(s, ev, HandleEvent(cfg, t, locked, s, ev, c))
    case AuthMsg(ev) =>
      var err := TagLimitError(ev);
      if err.Some? then Served(t, s, [OkReply(ev.id, false, err.value)], [])
      else Answered(s, ev, HandleAuth(cfg, t, s, ev, c))
    case ReqMsg(sub, filters) => ServeReq(cfg, t, s, sub, filters)
    case CloseMsg(sub) => Served(t, if sub.Some? then s.(subs := s.subs - {sub.value}) else s, [], [])
    case BadEventMsg => Served(t, s, [Notice(MalformedEvent)], [])
    case BadAuthMsg => Served(t, s, [Notice(MalformedAuth)], [])
    case UnparsableMsg => Served(t, s, [Notice(Unparsable)], [])
    case OtherMsg => Served(t, s, [Notice(UnknownType)], [])
  }
}
