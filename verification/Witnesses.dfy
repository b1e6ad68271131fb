/** Concrete runs: the assumptions of the run theorems can be met, what they are about happens, and
    two promises of the documentation fail on the inputs given here. */
module Witnesses {
  import opened Text
  import opened Nostr
  import opened EventId
  import opened Tables
  import opened Convergence
  import opened Protocol
  import opened Invariants
  import opened Runs
  import opened Replay
  import opened Publication
  import opened Reachable
  import opened Admission

  // ---- the cryptography ----

  /** Ids are the texts themselves, and an event is verified when its id is its own. */
  function PlainCrypto(): Crypto {
    Crypto((b: Body) => Serialized(b), (b: Body) => "", (e: Event) => e.id == Serialized(BodyOf(e)))
  }

  lemma AssumptionsCanBeMet()
    ensures Trustworthy(PlainCrypto())
  {
    forall a: Body, b: Body | Serialized(a) == Serialized(b) ensures a == b { SerializedIsInjective(a, b); }
  }

  function Made(b: Body): Event {
    Event(Serialized(b), b.pubkey, b.createdAt, b.kind, b.tags, b.content, "")
  }

  function Noon(): Clock {
    Clock(0, (i: nat) => 0, 0)
  }

  function Says(e: Event): Action {
    Say(0, EventMsg(e), Noon())
  }

  // ---- a granted event, step by step ----

  ghost predicate NoneOfKind(t: Tables, kind: nat) {
    forall id :: id in t.events ==> t.events[id].kind != kind
  }

  lemma StaysNoneOfKind(cfg: Config, s: System, e: Event, kind: nat)
    requires NoneOfKind(s.t, kind) && e.kind != kind && !IsMetaKind(kind)
    ensures NoneOfKind(Step(cfg, s, Says(e)).t, kind)
  {
    hide Step;
    var u := Step(cfg, s, Says(e)).t;
    forall id | id in u.events && !IsMetaKind(u.events[id].kind) ensures u.events[id].kind != kind {
      StepOrigin(cfg, s, Says(e), id);
    }
  }

  /** An event of these takes the checks of an open relay. */
  ghost predicate Plausible(cfg: Config, e: Event) {
    && cfg.open && cfg.crypto == PlainCrypto() && e == Made(BodyOf(e)) && e.createdAt == 0 && e.content == ""
    && ClientShaped(e) && IsOrdinary(e.kind) && TagLimitError(e).None? && e.kind != CLIENT_AUTH
  }

  lemma NewKindIsAbsent(cfg: Config, t: Tables, e: Event)
    requires Trustworthy(cfg.crypto) && Inv(cfg, t) && cfg.crypto.verify(e) && NoneOfKind(t, e.kind)
    ensures e.id !in t.events
  {
    if e.id in t.events { SameKindAsStored(cfg, t, e); }
  }

  lemma GateOpens(cfg: Config, t: Tables, authed: Option<string>, e: Event)
    requires Plausible(cfg, e) && e.id !in t.events
    ensures Gate(cfg, t, authed, e, Noon()).None?
  {
    assert ByteLen("") == 0;
  }

  /** What is granted is stored, and leaves the rows as decided. */
  lemma GrantedIsHeld(cfg: Config, s: System, e: Event)
    requires Plausible(cfg, e) && Trustworthy(cfg.crypto) && Inv(cfg, s.t) && 0 in s.conns
    requires NoneOfKind(s.t, e.kind) && Decide(cfg, s.t, e, Noon()).Granted?
    ensures var u, v := Step(cfg, s, Says(e)).t, Decide(cfg, s.t, e, Noon()).t;
      && e.id !in s.t.events && IsStoredAs(u, e)
      && u.groups == v.groups && u.members == v.members && u.retired == v.retired
    ensures Step(cfg, s, Says(e)).conns == s.conns
  {
    hide Decide, Gate, Announce, Inv, Trustworthy, Serialized, TagLimitError;
    var v := Decide(cfg, s.t, e, Noon());
    NewKindIsAbsent(cfg, s.t, e);
    GateOpens(cfg, s.t, s.conns[0].authed, e);
    StepTables(cfg, s, Says(e));
    DecideKeepsAbsent(cfg, s.t, e, Noon());
    AnnounceHolds(v.t, s.conns[0].authed, e, v.extra);
    AnnounceKeepsGroups(v.t, s.conns[0].authed, e, v.extra);
  }

  lemma AnnounceHolds(t: Tables, authed: Option<string>, e: Event, extra: seq<Event>)
    requires e.id !in t.events && IsOrdinary(e.kind) && !IsEphemeral(e.kind)
    ensures IsStoredAs(Announce(t, authed, e, extra).t, e)
    ensures Announce(t, authed, e, extra).authed == authed
  {
    OrdinaryIsStored(t, e);
    InsertAllKeepsOrdinary(Insert(t, e).0, extra, e.id);
  }

  // ---- a thread no admin started ----

  /** Alice opens a publication channel; Bob joins it and answers his own join request. */
  function Opening(): Event {
    Made(Body("alice", 0, CREATE_GROUP, [["h", "a"], ["t", "publication"]], ""))
  }

  function Joining(): Event {
    Made(Body("bob", 0, JOIN_REQUEST, [["h", "a"]], ""))
  }

  function Posting(): Event {
    Made(Body("bob", 0, CHAT, [["h", "a"], ["e", Joining().id, "", "reply"]], ""))
  }

  function OwnReply(): seq<Action> {
    [Open(0, "", None), Says(Opening()), Says(Joining()), Says(Posting())]
  }

  lemma {:induction false} BytesAtMost(s: string)
    ensures ByteLen(s) <= 4 * |s|
  {
    if s != "" { BytesAtMost(s[1..]); }
  }

  lemma JoiningIdIsShort()
    ensures 0 < |Joining().id| <= 100
  {
    var b := Body("bob", 0, JOIN_REQUEST, [["h", "a"]], "");
    assert |Quoted("bob")| <= 20 && |Quoted("")| <= 2 && |Quoted("h")| <= 8 && |Quoted("a")| <= 8;
    assert |Digits(9)| == 1 && |Digits(90)| == 2 && |Digits(902)| == 3 && |Digits(9021)| == 4;
    assert b.tags[1..] == [] && ["h", "a"][1..] == ["a"] && ["a"][1..] == [];
    assert |TagText(["h", "a"])| <= 20;
    assert |TagsText(b.tags)| <= 30;
  }

  lemma ShortTagsPass(e: Event)
    requires |e.tags| <= MAX_TAGS && forall t, s :: t in e.tags && s in t ==> |s| <= 100
    ensures TagLimitError(e).None?
  {
    forall t, s | t in e.tags && s in t ensures ByteLen(s) <= MAX_TAG_ITEM_LEN { BytesAtMost(s); }
  }

  function ValuesOf(t: Tag, name: string): seq<string> {
    if Named(t, name) && |t| > 1 then [t[1]] else []
  }

  lemma TwoTags(a: Tag, b: Tag, name: string)
    requires |a| > 1 && |b| > 1
    ensures TagValues([a, b], name) == ValuesOf(a, name) + ValuesOf(b, name)
    ensures FirstTag([a, b], name) ==
              if a[0] == name then Some(a[1]) else if b[0] == name then Some(b[1]) else None
  {
    assert [a, b][1..] == [b] && [b][1..] == [];
    assert TagValues([b], name) == ValuesOf(b, name);
    assert FirstTag([b], name) == if b[0] == name then Some(b[1]) else None;
  }

  lemma OpeningReads()
    ensures TagLimitError(Opening()).None? && ClientShaped(Opening()) && FirstTag(Opening().tags, "h") == Some("a")
    ensures FirstTag(Opening().tags, "t") == Some("publication") && FirstTag(Opening().tags, "name") == None
    ensures FirstTag(Opening().tags, "about") == None
  {
    hide Serialized, TagLimitError, TagValues, FirstTag;
    assert "h"[0] != "t"[0] && "h"[0] != "d"[0] && "t"[0] != "d"[0];
    var a, b := ["h", "a"], ["t", "publication"];
    TwoTags(a, b, "h");
    TwoTags(a, b, "t");
    TwoTags(a, b, "d");
    TwoTags(a, b, "name");
    TwoTags(a, b, "about");
    assert |"name"| == 4 && |"about"| == 5;
    ShortTagsPass(Opening());
  }

  lemma JoiningReads()
    ensures TagLimitError(Joining()).None? && ClientShaped(Joining()) && FirstTag(Joining().tags, "h") == Some("a")
    ensures TagValues(Joining().tags, "h") == ["a"]
  {
    hide Serialized, TagLimitError;
    assert Joining().tags[1..] == [] && "h"[0] != "d"[0];
    ShortTagsPass(Joining());
  }

  lemma PostingReads()
    ensures TagLimitError(Posting()).None? && ClientShaped(Posting()) && FirstTag(Posting().tags, "h") == Some("a")
    ensures ReplyParent(Posting().tags) == Some(Joining().id)
  {
    hide Serialized, TagLimitError, TagValues, FirstTag;
    JoiningIdIsShort();
    var a, b := ["h", "a"], ["e", Joining().id, "", "reply"];
    assert "h"[0] != "e"[0] && "h"[0] != "d"[0] && "e"[0] != "d"[0];
    TwoTags(a, b, "h");
    TwoTags(a, b, "d");
    assert Posting().tags[1..][0] == b;
    ShortTagsPass(Posting());
  }

  lemma PublicationIsNormal()
    ensures NormalizeKind(Some("publication")) == "publication"
  {
    assert !IsSpace('p') && !IsSpace('n');
    assert TrimStart("publication") == "publication" && TrimEnd("publication") == "publication";
  }

  /** Channel "a" is Alice's publication. */
  predicate AliceOwns(t: Tables) {
    "a" in t.groups && t.groups["a"].kind == "publication"
  }

  lemma OpeningOpens(cfg: Config, t: Tables)
    requires cfg.crypto == PlainCrypto() && t.groups == map[] && t.members == map[] && t.retired == {}
    ensures var v := Decide(cfg, t, Opening(), Noon());
      && v.Granted? && AliceOwns(v.t) && v.t.retired == {} && v.t.members.Keys == {("a", "alice")}
  {
    hide Serialized, TagLimitError, TagValues, FirstTag, NormalizeKind, MetaEvents;
    OpeningReads();
    PublicationIsNormal();
    BytesAtMost("a");
    assert ValidGroupId("a");
  }

  lemma JoiningJoins(cfg: Config, t: Tables)
    requires AliceOwns(t) && t.members.Keys == {("a", "alice")}
    ensures var v := Decide(cfg, t, Joining(), Noon());
      && v.Granted? && v.t.groups == t.groups && !IsGroupAdmin(v.t, "a", "bob")
  {
    hide Serialized, TagLimitError, MetaEvents;
    JoiningReads();
  }

  lemma PostingPosts(cfg: Config, t: Tables)
    requires Inv(cfg, t) && AliceOwns(t) && IsStoredAs(t, Joining())
    ensures Decide(cfg, t, Posting(), Noon()).Granted? && Decide(cfg, t, Posting(), Noon()).t.groups == t.groups
  {
    hide Serialized, TagLimitError, MetaEvents, ReplyParent, FirstTag, TagValues, Inv;
    JoiningReads();
    PostingReads();
    InvIsExact(cfg, t);
    EventInGroupIff(t, Joining().id, "a");
  }

  ghost predicate PlainRelay(cfg: Config) {
    cfg.open && cfg.operator == None && cfg.crypto == PlainCrypto()
  }

  lemma AtStart(cfg: Config)
    ensures var t := At(cfg, false, OwnReply(), 0).t; t.groups == map[] && t.events == map[]
    ensures var s := At(cfg, false, OwnReply(), 1);
      && 0 in s.conns && s.t.groups == map[] && s.t.members == map[] && s.t.retired == {} && s.t.events == map[]
  {
    hide Opening, Joining, Posting;
    AtNext(cfg, false, OwnReply(), 0);
  }

  lemma AfterOpening(cfg: Config)
    requires PlainRelay(cfg)
    ensures var s := At(cfg, false, OwnReply(), 2);
      && 0 in s.conns && AliceOwns(s.t) && s.t.members.Keys == {("a", "alice")}
      && NoneOfKind(s.t, JOIN_REQUEST) && NoneOfKind(s.t, CHAT)
  {
    hide Step, Decide, Inv, Trustworthy, Serialized, TagLimitError;
    AtStart(cfg);
    var s := At(cfg, false, OwnReply(), 1);
    AssumptionsCanBeMet();
    RunSatisfiesInv(cfg, false, OwnReply()[..1]);
    OpeningOpens(cfg, s.t);
    OpeningReads();
    GrantedIsHeld(cfg, s, Opening());
    StaysNoneOfKind(cfg, s, Opening(), JOIN_REQUEST);
    StaysNoneOfKind(cfg, s, Opening(), CHAT);
    AtNext(cfg, false, OwnReply(), 1);
  }

  /** Creating the channel takes effect: runs with effects exist. */
  lemma EffectsHappen(cfg: Config)
    requires PlainRelay(cfg)
    ensures TakesEffect(cfg, At(cfg, false, OwnReply(), 1), OwnReply()[1], Opening().id)
  {
    hide Step, At, Serialized;
    AtStart(cfg);
    AfterOpening(cfg);
    AtNext(cfg, false, OwnReply(), 1);
  }

  lemma AfterJoining(cfg: Config)
    requires PlainRelay(cfg)
    ensures var s := At(cfg, false, OwnReply(), 3);
      && 0 in s.conns && AliceOwns(s.t) && !IsGroupAdmin(s.t, "a", "bob")
      && NoneOfKind(s.t, CHAT) && IsStoredAs(s.t, Joining())
  {
    hide Step, Decide, Inv, Trustworthy, Serialized, TagLimitError;
    AfterOpening(cfg);
    var s := At(cfg, false, OwnReply(), 2);
    AssumptionsCanBeMet();
    RunSatisfiesInv(cfg, false, OwnReply()[..2]);
    JoiningJoins(cfg, s.t);
    JoiningReads();
    GrantedIsHeld(cfg, s, Joining());
    StaysNoneOfKind(cfg, s, Joining(), CHAT);
    AtNext(cfg, false, OwnReply(), 2);
  }

  lemma AfterPosting(cfg: Config)
    requires PlainRelay(cfg)
    ensures AliceOwns(At(cfg, false, OwnReply(), 4).t)
    ensures Accepts(cfg, false, OwnReply(), 3, Posting())
  {
    hide Step, Decide, Inv, Trustworthy, Serialized, TagLimitError;
    AfterJoining(cfg);
    var s := At(cfg, false, OwnReply(), 3);
    AssumptionsCanBeMet();
    RunSatisfiesInv(cfg, false, OwnReply()[..3]);
    PostingPosts(cfg, s.t);
    PostingReads();
    GrantedIsHeld(cfg, s, Posting());
    AtNext(cfg, false, OwnReply(), 3);
  }

  lemma AlwaysPublication(cfg: Config)
    requires PlainRelay(cfg)
    ensures PublicationUpTo(cfg, false, OwnReply(), 4, "a")
  {
    hide Step, At, Run, Opening, Joining, Posting, Accepts, NoneOfKind, IsStoredAs, IsGroupAdmin, PlainRelay;
    AtStart(cfg);
    AfterOpening(cfg);
    AfterJoining(cfg);
    AfterPosting(cfg);
    forall m | 0 <= m <= 4 && "a" in At(cfg, false, OwnReply(), m).t.groups
      ensures At(cfg, false, OwnReply(), m).t.groups["a"].kind == "publication"
    {
      assert m == 2 || m == 3 || m == 4;
    }
  }

  /** A run in which a message stands in a publication channel although no admin started its thread. */
  lemma OwnReplyStartsThread(cfg: Config)
    requires PlainRelay(cfg)
    ensures PublicationUpTo(cfg, false, OwnReply(), 4, "a")
    ensures Comments(cfg, false, OwnReply(), "a", 3) && !StartedByAdmin(cfg, false, OwnReply(), "a", 3)
  {
    hide Step, At, Accepts, StartedByAdmin, Trustworthy, Serialized;
    AlwaysPublication(cfg);
    AfterJoining(cfg);
    AfterPosting(cfg);
    AssumptionsCanBeMet();
    PostingReads();
    AnswerToOtherIsUnstarted(cfg, false, OwnReply(), "a", 3);
  }

  // ---- an invite used twice ----

  /** Bob redeems an invite for two, is taken off the whitelist, and sends the same event again over
      another connection. */
  function Redeeming(): Event {
    Made(Body("bob", 0, INVITE_REDEEM, [], "c"))
  }

  function Replayed(): Action {
    Say(1, EventMsg(Redeeming()), Noon())
  }

  lemma RedeemingReads()
    ensures TagLimitError(Redeeming()).None? && Trim(Redeeming().content) == "c"
  {
    assert !IsSpace('c');
  }

  /** Both connections open, the door unlocked, the invite there. */
  ghost predicate Inviting(s: System, uses: nat) {
    0 in s.conns && 1 in s.conns && !s.locked && "c" in s.t.invites && s.t.invites["c"] == Invite(0, None, 2, uses)
  }

  lemma OnceRedeemed(cfg: Config, s: System)
    requires PlainRelay(cfg) && Inviting(s, 0)
    ensures Redeems(cfg, s, Says(Redeeming()), "c", "bob")
  {
    RedeemingReads();
  }

  function Invitation(): seq<Action> {
    [Open(0, "", None), Open(1, "", None), CreateInvite("c", 2, None, 0)]
  }

  lemma InvitationInvites(cfg: Config)
    ensures Inviting(Run(cfg, false, Invitation()), 0)
  {
    var acts := Invitation();
    AtNext(cfg, false, acts, 0);
    AtNext(cfg, false, acts, 1);
    AtNext(cfg, false, acts, 2);
    assert acts[..3] == acts;
  }

  /** The replay succeeds, both uses are gone, and the removal is undone. */
  lemma ReplayTakesSecondUse(cfg: Config)
    requires PlainRelay(cfg)
    ensures var s := Run(cfg, false, Invitation());
      var banned := RunFrom(cfg, Step(cfg, s, Says(Redeeming())), [RemoveFromWhitelist("bob")]);
      var end := Step(cfg, banned, Replayed());
      && Redeems(cfg, s, Says(Redeeming()), "c", "bob") && "bob" !in banned.t.whitelist
      && Redeems(cfg, banned, Replayed(), "c", "bob") && "bob" in end.t.whitelist
      && "c" in end.t.invites && end.t.invites["c"].uses == 2
  {
    hide Step, Redeems, Serialized;
    var s, ban := Run(cfg, false, Invitation()), RemoveFromWhitelist("bob");
    InvitationInvites(cfg);
    OnceRedeemed(cfg, s);
    Banning(cfg, s);
    var banned := RunFrom(cfg, Step(cfg, s, Says(Redeeming())), [ban]);
    RedemptionTakesOne(cfg, banned, Replayed(), "c", "bob");
  }

  lemma Banning(cfg: Config, s: System)
    requires PlainRelay(cfg) && Inviting(s, 0)
    ensures var banned := RunFrom(cfg, Step(cfg, s, Says(Redeeming())), [RemoveFromWhitelist("bob")]);
      Inviting(banned, 1) && "bob" !in banned.t.whitelist && Redeems(cfg, banned, Replayed(), "c", "bob")
  {
    RedeemingReads();
    var ban := RemoveFromWhitelist("bob");
    assert [ban][..0] == [];
    assert RunFrom(cfg, Step(cfg, s, Says(Redeeming())), []) == Step(cfg, s, Says(Redeeming()));
  }
}
