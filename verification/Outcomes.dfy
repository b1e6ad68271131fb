/** What handling an event comes to, said in terms of tags and table rows: when it is accepted, what it
    does to channels and members, and what is broadcast. */
module Outcomes {
  import opened Text
  import opened Nostr
  import opened Tables
  import opened Convergence
  import opened Protocol
  import opened Invariants
  import opened Runs
  import opened Replay
  import opened Publication
  import opened Reachable

  // ---- when an event is accepted ----

  /** The operator everywhere, an admin in the channel. */
  predicate Manages(cfg: Config, t: Tables, g: string, pk: string) {
    cfg.operator == Some(pk) || ((g, pk) in t.members && t.members[(g, pk)].role == Admin)
  }

  /** 1 to 64 characters of a-z 0-9 - _ */
  predicate ChannelIdText(id: string) {
    1 <= |id| <= 64 && forall c :: c in id ==> 'a' <= c <= 'z' || '0' <= c <= '9' || c == '-' || c == '_'
  }

  /** The event replies to a stored one of this channel. */
  ghost predicate AnswersIn(t: Tables, g: string, ev: Event) {
    exists id :: id != "" && RepliesTo(ev.tags, id) && id in t.events && Carries(t.events[id].tags, "h", g)
  }

  /** What each kind asks of the channel the event names. */
  ghost predicate MayDo(cfg: Config, t: Tables, ev: Event, g: string) {
    if ev.kind == 9 then
      g in t.groups && (t.groups[g].kind == "publication" ==> Manages(cfg, t, g, ev.pubkey) || AnswersIn(t, g, ev))
    else if ev.kind == 9007 then ChannelIdText(g) && g !in t.retired && g !in t.groups
    else if ev.kind == 9021 then g in t.groups
    else if ev.kind == 9022 then true
    else g in t.groups && Manages(cfg, t, g, ev.pubkey)
  }

  ghost predicate Permitted(cfg: Config, t: Tables, ev: Event) {
    ev.kind == 0 || exists g :: FirstNamed(ev.tags, "h", g) && MayDo(cfg, t, ev, g)
  }

  /** Verified, from its author's own connection unless the relay is open, of a kind that is stored,
      naming one channel at most and no address. */
  ghost predicate WellMade(cfg: Config, authed: Option<string>, ev: Event) {
    && cfg.crypto.verify(ev) && (cfg.open || authed == Some(ev.pubkey))
    && ev.kind in {0, 9, 9000, 9001, 9002, 9007, 9008, 9021, 9022}
    && !CarriesTwice(ev.tags, "h") && forall v :: !Carries(ev.tags, "d", v)
  }

  /** Not too long, and not more than 15 minutes ahead of the clock. */
  ghost predicate InBounds(cfg: Config, ev: Event, c: Clock) {
    |Utf8Text(ev.content)| <= cfg.maxContentLen && ev.createdAt <= c.check + 900
  }

  lemma {:induction false} PlainIsShort(id: string)
    requires forall c :: c in id ==> c < '\U{80}'
    ensures ByteLen(id) == |id|
  {
    if id != "" {
      assert id[0] in id && forall c :: c in id[1..] ==> c in id;
      PlainIsShort(id[1..]);
    }
  }

  lemma ChannelIdIff(id: string)
    ensures ValidGroupId(id) <==> ChannelIdText(id)
  {
    if forall c :: c in id ==> 'a' <= c <= 'z' || '0' <= c <= '9' || c == '-' || c == '_' { PlainIsShort(id); }
  }

  lemma AnswersInIff(t: Tables, g: string, ev: Event)
    requires IndexExact(t)
    ensures AnswersIn(t, g, ev) <==> ReplyParent(ev.tags).Some? && EventInGroup(t, ReplyParent(ev.tags).value, g)
  {
    forall id ensures ReplyParent(ev.tags) == Some(id) <==> id != "" && RepliesTo(ev.tags, id) {
      ReplyParentIff(ev.tags, id);
    }
    forall id | id in t.events ensures EventInGroup(t, id, g) <==> Carries(t.events[id].tags, "h", g) {
      EventInGroupIff(t, id, g);
      CarriesIff(t.events[id].tags, "h", g);
    }
    if ReplyParent(ev.tags).Some? { EventInGroupIff(t, ReplyParent(ev.tags).value, g); }
  }

  lemma GrantedIff(cfg: Config, t: Tables, ev: Event, c: Clock)
    requires IndexExact(t) && ev.kind in {0, 9, 9000, 9001, 9002, 9007, 9008, 9021, 9022}
    ensures Decide(cfg, t, ev, c).Granted? <==> Permitted(cfg, t, ev)
  {
    var h := FirstTag(ev.tags, "h");
    forall g ensures h == Some(g) <==> FirstNamed(ev.tags, "h", g) { FirstTagIff(ev.tags, "h", g); }
    if h.Some? {
      hide FirstNamed, IndexExact, MetaEvents, Moderate, AnswersIn, ReplyParent, ValidGroupId, ChannelIdText, Purge;
      AnswersInIff(t, h.value, ev);
      ChannelIdIff(h.value);
    }
  }

  lemma GateIff(cfg: Config, t: Tables, authed: Option<string>, ev: Event, c: Clock)
    requires cfg.crypto.verify(ev) && ev.kind != CLIENT_AUTH && ev.kind != INVITE_REDEEM
    ensures Gate(cfg, t, authed, ev, c).None? <==>
              WellMade(cfg, authed, ev) && ev.id !in t.events && InBounds(cfg, ev, c)
    ensures Gate(cfg, t, authed, ev, c) == Some((true, AlreadyHave)) <==> WellMade(cfg, authed, ev) && ev.id in t.events
    ensures Gate(cfg, t, authed, ev, c).Some? && Gate(cfg, t, authed, ev, c).value.0 ==>
              Gate(cfg, t, authed, ev, c).value.1 == AlreadyHave
  {
    hide Carries, CarriesTwice;
    CarriesTwiceIff(ev.tags, "h");
    forall v ensures v in TagValues(ev.tags, "d") <==> Carries(ev.tags, "d", v) { CarriesIff(ev.tags, "d", v); }
    assert TagValues(ev.tags, "d") != [] ==> TagValues(ev.tags, "d")[0] in TagValues(ev.tags, "d");
    ByteLenCounts(ev.content);
  }

  /** An event of a stored kind is accepted iff it is well made and either known or within bounds and
      permitted. */
  lemma AcceptedIff(cfg: Config, t: Tables, locked: bool, s: Session, ev: Event, c: Clock)
    requires IndexExact(t) && ev.kind != CLIENT_AUTH && ev.kind != INVITE_REDEEM
    ensures HandleEvent(cfg, t, locked, s, ev, c).accepted <==>
              && WellMade(cfg, s.authed, ev)
              && (ev.id in t.events || (InBounds(cfg, ev, c) && Permitted(cfg, t, ev)))
  {
    hide Gate, Decide, InBounds, Permitted;
    if cfg.crypto.verify(ev) {
      GateIff(cfg, t, s.authed, ev, c);
      if WellMade(cfg, s.authed, ev) { GrantedIff(cfg, t, ev, c); }
    }
  }

  // ---- when it is stored, and that nothing happens otherwise ----

  /** The event was not stored before and is afterwards. */
  ghost predicate Lands(cfg: Config, t: Tables, locked: bool, s: Session, ev: Event, c: Clock) {
    ev.id !in t.events && ev.id in HandleEvent(cfg, t, locked, s, ev, c).t.events
  }

  /** A stored profile of the author's beats this one: it is newer, or as old with a lower id. */
  ghost predicate Outdone(t: Tables, ev: Event) {
    exists id :: id in t.events && t.events[id].kind == 0 && t.events[id].pubkey == ev.pubkey
                 && (|| t.events[id].createdAt > ev.createdAt
                     || (t.events[id].createdAt == ev.createdAt && StrLess(id, ev.id)))
  }

  lemma ProfileIsStaleIff(t: Tables, ev: Event)
    requires IndexExact(t) && ev.kind == 0 && ev.id !in t.events
    ensures Insert(t, ev).1 == Stored <==> !Outdone(t, ev)
  {
  }

  lemma NewlyStoredIff(cfg: Config, t: Tables, locked: bool, s: Session, ev: Event, c: Clock)
    requires Trustworthy(cfg.crypto) && Inv(cfg, t) && ev.id !in t.events
    ensures Lands(cfg, t, locked, s, ev, c) <==>
              && WellMade(cfg, s.authed, ev) && InBounds(cfg, ev, c) && Permitted(cfg, t, ev)
              && (ev.kind == 0 ==> !Outdone(t, ev))
  {
    hide Inv, Gate, Decide, Announce, InBounds, Permitted, Outdone, Trustworthy;
    InvIsExact(cfg, t);
    if cfg.crypto.verify(ev) && ev.kind != CLIENT_AUTH && ev.kind != INVITE_REDEEM {
      GateIff(cfg, t, s.authed, ev, c);
      if WellMade(cfg, s.authed, ev) {
        GrantedIff(cfg, t, ev, c);
        if Gate(cfg, t, s.authed, ev, c).None? && Decide(cfg, t, ev, c).Granted? {
          GrantedIsStoredIff(cfg, t, s.authed, ev, c);
        }
      }
    }
  }

  lemma GrantedIsStoredIff(cfg: Config, t: Tables, authed: Option<string>, ev: Event, c: Clock)
    requires Inv(cfg, t) && ev.id !in t.events && Decide(cfg, t, ev, c).Granted?
    requires ev.kind in {0, 9, 9000, 9001, 9002, 9007, 9008, 9021, 9022}
    ensures var v := Decide(cfg, t, ev, c);
      ev.id in Announce(v.t, authed, ev, v.extra).t.events <==> (ev.kind == 0 ==> !Outdone(t, ev))
  {
    hide Inv, Insert, InsertAll, Outdone;
    var v := Decide(cfg, t, ev, c);
    InvIsExact(cfg, t);
    AnnounceTables(v.t, authed, ev, v.extra);
    InsertAnswers(v.t, ev);
    if ev.kind == 0 {
      ProfileIsStaleIff(t, ev);
    } else {
      DecideKeepsAbsent(cfg, t, ev, c);
      OrdinaryIsStored(v.t, ev);
      InsertAllKeepsOrdinary(Insert(v.t, ev).0, v.extra, ev.id);
    }
  }

  /** Unless it is newly stored, or a redemption, an event changes no table and broadcasts nothing. */
  lemma NothingElseHappens(cfg: Config, t: Tables, locked: bool, s: Session, ev: Event, c: Clock)
    requires Inv(cfg, t) && ev.kind != INVITE_REDEEM && !Lands(cfg, t, locked, s, ev, c)
    ensures HandleEvent(cfg, t, locked, s, ev, c).t == t && HandleEvent(cfg, t, locked, s, ev, c).sent == []
  {
    hide Inv, Decide, Announce;
    if cfg.crypto.verify(ev) && ev.kind != CLIENT_AUTH && Gate(cfg, t, s.authed, ev, c).None?
       && Decide(cfg, t, ev, c).Granted? {
      var v := Decide(cfg, t, ev, c);
      GrantedIsStoredIff(cfg, t, s.authed, ev, c);
      OutdoneProfileIsInert(cfg, t, s.authed, ev, c);
    }
  }

  lemma OutdoneProfileIsInert(cfg: Config, t: Tables, authed: Option<string>, ev: Event, c: Clock)
    requires Inv(cfg, t) && ev.kind == 0 && ev.id !in t.events && Outdone(t, ev)
    ensures var v := Decide(cfg, t, ev, c);
      && v.Granted? && Announce(v.t, authed, ev, v.extra).t == t && Announce(v.t, authed, ev, v.extra).sent == []
  {
    hide Inv, Outdone, Insert;
    InvIsExact(cfg, t);
    ProfileIsStaleIff(t, ev);
    InsertAnswers(t, ev);
  }

  // ---- what it does to channels and members ----

  /** The rows after a landed event are as decided, and the channel decided about is the one named. */
  lemma LandedRows(cfg: Config, t: Tables, locked: bool, s: Session, ev: Event, c: Clock)
    requires Lands(cfg, t, locked, s, ev, c)
    ensures var u, v := HandleEvent(cfg, t, locked, s, ev, c).t, Decide(cfg, t, ev, c);
      && v.Granted? && u.groups == v.t.groups && u.members == v.t.members && u.retired == v.t.retired
      && cfg.crypto.verify(ev) && Gate(cfg, t, s.authed, ev, c).None? && !IsEphemeral(ev.kind)
  {
    hide Gate, Announce, Moderate, MetaEvents;
    if Gate(cfg, t, s.authed, ev, c).None? && Decide(cfg, t, ev, c).Granted? {
      var v := Decide(cfg, t, ev, c);
      AnnounceKeepsGroups(v.t, s.authed, ev, v.extra);
    }
  }

  /** Posting or joining makes the author a plain member, unless a row is there already. */
  lemma PostingEnrolls(cfg: Config, t: Tables, locked: bool, s: Session, ev: Event, c: Clock, g: string)
    requires Lands(cfg, t, locked, s, ev, c) && (ev.kind == 9 || ev.kind == 9021) && FirstNamed(ev.tags, "h", g)
    ensures var u := HandleEvent(cfg, t, locked, s, ev, c).t;
      && u.groups == t.groups && u.retired == t.retired
      && u.members == if (g, ev.pubkey) in t.members then t.members
                      else t.members[(g, ev.pubkey) := Member(Plain, c.row(0))]
  {
    hide HandleEvent;
    LandedRows(cfg, t, locked, s, ev, c);
    FirstTagIff(ev.tags, "h", g);
    assert Decide(cfg, t, ev, c) == Enroll(cfg, t, g, ev.pubkey, c);
  }

  /** Leaving takes off the author's own row and no other. */
  lemma LeavingRemoves(cfg: Config, t: Tables, locked: bool, s: Session, ev: Event, c: Clock, g: string)
    requires Lands(cfg, t, locked, s, ev, c) && ev.kind == 9022 && FirstNamed(ev.tags, "h", g)
    ensures var u := HandleEvent(cfg, t, locked, s, ev, c).t;
      && u.groups == t.groups && u.retired == t.retired
      && (forall p :: p in u.members <==> p in t.members && p != (g, ev.pubkey))
      && (forall p :: p in u.members ==> u.members[p] == t.members[p])
  {
    hide HandleEvent;
    LandedRows(cfg, t, locked, s, ev, c);
    FirstTagIff(ev.tags, "h", g);
  }

  /** "publication", give or take spaces around it. */
  ghost predicate SaysPublication(v: string) {
    exists p, q :: Blank(p) && Blank(q) && v == p + "publication" + q
  }

  lemma NormalizeIff(v: string)
    ensures NormalizeKind(Some(v)) == "publication" <==> SaysPublication(v)
    ensures NormalizeKind(Some(v)) == "publication" || NormalizeKind(Some(v)) == "chat"
  {
    assert !IsSpace("publication"[0]) && !IsSpace("publication"[|"publication"| - 1]);
    TrimIff(v, "publication");
  }

  /** What the first tag of this name says, or else this. */
  ghost predicate Says(tags: seq<Tag>, name: string, otherwise: string, v: string) {
    FirstNamed(tags, name, v) || (v == otherwise && forall w :: !FirstNamed(tags, name, w))
  }

  lemma SaysIff(tags: seq<Tag>, name: string, otherwise: string)
    ensures Says(tags, name, otherwise, if FirstTag(tags, name).Some? then FirstTag(tags, name).value else otherwise)
    ensures forall v :: FirstNamed(tags, name, v) <==> FirstTag(tags, name) == Some(v)
  {
    forall v ensures FirstNamed(tags, name, v) <==> FirstTag(tags, name) == Some(v) { FirstTagIff(tags, name, v); }
  }

  /** Creating a channel adds its row, with the name, description and type the event gives, and makes its
      author the one member, as admin. */
  lemma CreatingOpens(cfg: Config, t: Tables, locked: bool, s: Session, ev: Event, c: Clock, g: string)
    requires Inv(cfg, t) && Lands(cfg, t, locked, s, ev, c) && ev.kind == 9007 && FirstNamed(ev.tags, "h", g)
    ensures var u := HandleEvent(cfg, t, locked, s, ev, c).t;
      && g !in t.groups && u.retired == t.retired && g in u.groups && u.groups == t.groups[g := u.groups[g]]
      && (forall pk :: (g, pk) !in t.members) && u.members == t.members[(g, ev.pubkey) := Member(Admin, c.row(1))]
    ensures var u := HandleEvent(cfg, t, locked, s, ev, c).t;
      g in u.groups
      && var row := u.groups[g];
         && row.createdBy == ev.pubkey && row.createdAt == c.row(0)
         && (exists n :: Says(ev.tags, "name", "", n) && row.name == if n == "" then g else n)
         && Says(ev.tags, "about", "", row.about)
         && (exists k :: Says(ev.tags, "t", "", k) && row.kind == if SaysPublication(k) then "publication" else "chat")
  {
    hide HandleEvent, NormalizeKind, Says, SaysPublication, Inv;
    LandedRows(cfg, t, locked, s, ev, c);
    FirstTagIff(ev.tags, "h", g);
    SaysIff(ev.tags, "name", "");
    SaysIff(ev.tags, "about", "");
    SaysIff(ev.tags, "t", "");
    CreatedKind(ev.tags);
    DeadChannelsAreEmpty(cfg, t, g);
  }

  lemma CreatedKind(tags: seq<Tag>)
    ensures var k := FirstTag(tags, "t"); var v := if k.Some? then k.value else "";
      NormalizeKind(Some(NormalizeKind(k))) == if SaysPublication(v) then "publication" else "chat"
  {
    var k := FirstTag(tags, "t");
    hide SaysPublication, Trim;
    PublicationItself();
    NormalizeIff(if k.Some? then k.value else "");
    EmptyIsChat();
  }

  lemma PublicationItself()
    ensures NormalizeKind(Some("publication")) == "publication" && NormalizeKind(Some("chat")) == "chat"
  {
    assert Blank("") && "publication" == "" + "publication" + "";
    NormalizeIff("publication");
    NormalizeIff("chat");
    assert !SaysPublication("chat") by {
      forall p, q ensures "chat" != p + "publication" + q { assert |p + "publication" + q| >= 11; }
    }
  }

  lemma EmptyIsChat()
    ensures !SaysPublication("") && NormalizeKind(None) == "chat"
  {
    forall p, q ensures "" != p + "publication" + q { assert |p + "publication" + q| >= 11; }
  }

  // ---- moderation ----

  /** The `i`th tag names this member. */
  predicate NamesAt(tags: seq<Tag>, i: nat, pk: string) {
    i < |tags| && |tags[i]| > 1 && tags[i][0] == "p" && tags[i][1] == pk
  }

  ghost predicate LastNames(tags: seq<Tag>, i: nat, pk: string) {
    NamesAt(tags, i, pk) && forall j :: i < j < |tags| ==> !NamesAt(tags, j, pk)
  }

  ghost predicate FirstNames(tags: seq<Tag>, i: nat, pk: string) {
    NamesAt(tags, i, pk) && forall j :: 0 <= j < i ==> !NamesAt(tags, j, pk)
  }

  /** The role a tag gives: what its third item says, and plain membership otherwise. */
  ghost predicate GivesRole(tag: Tag, role: Role) {
    && (role == Admin <==> |tag| > 2 && tag[2] == "admin")
    && (role == Moderator <==> |tag| > 2 && tag[2] == "moderator")
  }

  /** A member named gets the role its last tag gives, and keeps or gets the time it was first added. */
  lemma {:induction false} PutUsersGives(t: Tables, g: string, tags: seq<Tag>, now: nat -> nat, pk: string,
                                         i: nat, j: nat)
    requires LastNames(tags, i, pk) && FirstNames(tags, j, pk)
    ensures var u := PutUsers(t, g, tags, now);
      && (g, pk) in u.members && GivesRole(tags[i], u.members[(g, pk)].role)
      && u.members[(g, pk)].addedAt == if (g, pk) in t.members then t.members[(g, pk)].addedAt else now(j)
    decreases |tags|
  {
    var n := |tags| - 1;
    var front := tags[..n];
    assert forall k :: 0 <= k < n ==> (NamesAt(front, k, pk) <==> NamesAt(tags, k, pk));
    assert "admin" != "moderator" by { assert |"admin"| == 5 && |"moderator"| == 9; }
    if i == n {
      if j == n {
        PutUsersSpares(t, g, front, now, (g, pk));
      } else {
        var k := LastBefore(front, j, pk);
        PutUsersGives(t, g, front, now, pk, k, j);
      }
    } else {
      assert !NamesAt(tags, n, pk) && front[i] == tags[i] && j <= i;
      PutUsersGives(t, g, front, now, pk, i, j);
    }
  }

  lemma {:induction false} LastBefore(tags: seq<Tag>, j: nat, pk: string) returns (i: nat)
    requires NamesAt(tags, j, pk)
    ensures LastNames(tags, i, pk)
    decreases |tags| - j
  {
    if k :| j < k < |tags| && NamesAt(tags, k, pk) {
      i := LastBefore(tags, k, pk);
    } else {
      i := j;
    }
  }

  lemma {:induction false} FirstAfter(tags: seq<Tag>, i: nat, pk: string) returns (j: nat)
    requires NamesAt(tags, i, pk)
    ensures FirstNames(tags, j, pk)
    decreases i
  {
    if k :| 0 <= k < i && NamesAt(tags, k, pk) {
      j := FirstAfter(tags, k, pk);
    } else {
      j := i;
    }
  }

  lemma {:induction false} PutUsersSpares(t: Tables, g: string, tags: seq<Tag>, now: nat -> nat, p: (string, string))
    requires p.0 != g || forall i :: 0 <= i < |tags| ==> !NamesAt(tags, i, p.1)
    ensures var u := PutUsers(t, g, tags, now);
      (p in u.members <==> p in t.members) && (p in t.members ==> u.members[p] == t.members[p])
    decreases |tags|
  {
    if tags != [] {
      var n := |tags| - 1;
      assert forall i :: 0 <= i < n ==> (NamesAt(tags[..n], i, p.1) <==> NamesAt(tags, i, p.1));
      assert p.0 == g ==> !NamesAt(tags, n, p.1);
      PutUsersSpares(t, g, tags[..n], now, p);
    }
  }

  /** The rows after a put-user: the last tag naming a key decides its role; a row that was there keeps
      its time, a new one gets the reading of the first tag naming it; rows of keys not named, and of other
      channels, stay. */
  ghost predicate PutRows(t: Tables, u: Tables, ev: Event, c: Clock, g: string) {
    && u.groups == t.groups && u.retired == t.retired
    && (forall pk, i: nat, j: nat :: LastNames(ev.tags, i, pk) && FirstNames(ev.tags, j, pk) ==>
          && (g, pk) in u.members && GivesRole(ev.tags[i], u.members[(g, pk)].role)
          && u.members[(g, pk)].addedAt == if (g, pk) in t.members then t.members[(g, pk)].addedAt else c.row(j))
    && (forall p: (string, string) :: p.0 != g || !Carries(ev.tags, "p", p.1) ==>
          (p in u.members <==> p in t.members) && (p in t.members ==> u.members[p] == t.members[p]))
  }

  lemma PuttingDecides(cfg: Config, t: Tables, locked: bool, s: Session, ev: Event, c: Clock, g: string)
    requires Lands(cfg, t, locked, s, ev, c) && ev.kind == 9000 && FirstNamed(ev.tags, "h", g)
    ensures PutRows(t, HandleEvent(cfg, t, locked, s, ev, c).t, ev, c, g)
  {
    hide HandleEvent, PutUsers, MetaEvents, GivesRole;
    LandedRows(cfg, t, locked, s, ev, c);
    FirstTagIff(ev.tags, "h", g);
    PutUsersStayInChannel(t, g, ev.tags, c.row);
    forall pk, i: nat, j: nat | LastNames(ev.tags, i, pk) && FirstNames(ev.tags, j, pk)
      ensures var u := PutUsers(t, g, ev.tags, c.row);
        && (g, pk) in u.members && GivesRole(ev.tags[i], u.members[(g, pk)].role)
        && u.members[(g, pk)].addedAt == if (g, pk) in t.members then t.members[(g, pk)].addedAt else c.row(j)
    {
      PutUsersGives(t, g, ev.tags, c.row, pk, i, j);
    }
    forall p: (string, string) | p.0 != g || !Carries(ev.tags, "p", p.1)
      ensures var u := PutUsers(t, g, ev.tags, c.row);
        (p in u.members <==> p in t.members) && (p in t.members ==> u.members[p] == t.members[p])
    {
      forall i | 0 <= i < |ev.tags| && p.0 == g ensures !NamesAt(ev.tags, i, p.1) { assert ev.tags[i] in ev.tags; }
      PutUsersSpares(t, g, ev.tags, c.row, p);
    }
  }

  /** Every key named has a last tag and a first one, so its row is decided. */
  lemma NamedHasLast(tags: seq<Tag>, pk: string) returns (i: nat, j: nat)
    requires Carries(tags, "p", pk)
    ensures LastNames(tags, i, pk) && FirstNames(tags, j, pk)
  {
    var tag :| tag in tags && |tag| > 1 && tag[0] == "p" && tag[1] == pk;
    var k :| 0 <= k < |tags| && tags[k] == tag;
    i := LastBefore(tags, k, pk);
    j := FirstAfter(tags, k, pk);
  }

  /** A step that newly stores a put-user leaves the rows like that. */
  lemma PutUserStep(cfg: Config, s: System, a: Action, g: string)
    requires Submits(s, a) && a.m.ev.kind == 9000 && FirstNamed(a.m.ev.tags, "h", g)
    requires a.m.ev.id !in s.t.events && a.m.ev.id in Step(cfg, s, a).t.events
    ensures PutRows(s.t, Step(cfg, s, a).t, a.m.ev, a.c, g)
  {
    hide HandleEvent, PutRows;
    StepTables(cfg, s, a);
    PuttingDecides(cfg, s.t, s.locked, s.conns[a.conn], a.m.ev, a.c, g);
  }

  lemma {:induction false} RemoveUsersIs(t: Tables, g: string, pks: seq<string>)
    ensures var u := RemoveUsers(t, g, pks);
      && u == t.(members := u.members)
      && (forall p :: p in u.members <==> p in t.members && !(p.0 == g && p.1 in pks))
      && (forall p :: p in u.members ==> u.members[p] == t.members[p])
    decreases |pks|
  {
    if pks != [] {
      var n := |pks| - 1;
      RemoveUsersIs(t, g, pks[..n]);
      assert forall x :: x in pks <==> x in pks[..n] || x == pks[n];
    }
  }

  /** Remove-user takes off exactly the rows of the keys named, in this channel. */
  lemma RemovingRemoves(cfg: Config, t: Tables, locked: bool, s: Session, ev: Event, c: Clock, g: string)
    requires Lands(cfg, t, locked, s, ev, c) && ev.kind == 9001 && FirstNamed(ev.tags, "h", g)
    ensures var u := HandleEvent(cfg, t, locked, s, ev, c).t;
      && u.groups == t.groups && u.retired == t.retired
      && (forall p :: p in u.members <==> p in t.members && !(p.0 == g && Carries(ev.tags, "p", p.1)))
      && (forall p :: p in u.members ==> u.members[p] == t.members[p])
  {
    hide HandleEvent, RemoveUsers, MetaEvents, Carries;
    LandedRows(cfg, t, locked, s, ev, c);
    FirstTagIff(ev.tags, "h", g);
    RemoveUsersIs(t, g, TagValues(ev.tags, "p"));
    forall pk ensures pk in TagValues(ev.tags, "p") <==> Carries(ev.tags, "p", pk) { CarriesIff(ev.tags, "p", pk); }
  }

  /** Edit-metadata replaces what the event gives and keeps the rest. */
  lemma EditingReplaces(cfg: Config, t: Tables, locked: bool, s: Session, ev: Event, c: Clock, g: string)
    requires Lands(cfg, t, locked, s, ev, c) && ev.kind == 9002 && FirstNamed(ev.tags, "h", g)
    ensures var u := HandleEvent(cfg, t, locked, s, ev, c).t;
      && u.members == t.members && u.retired == t.retired
      && g in t.groups && g in u.groups && u.groups == t.groups[g := u.groups[g]]
      && var was, row := t.groups[g], u.groups[g];
         && row.createdBy == was.createdBy && row.createdAt == was.createdAt
         && Says(ev.tags, "name", was.name, row.name) && Says(ev.tags, "about", was.about, row.about)
         && (forall k :: FirstNamed(ev.tags, "t", k) ==>
               row.kind == if SaysPublication(k) then "publication" else "chat")
         && ((forall k :: !FirstNamed(ev.tags, "t", k)) ==> row.kind == was.kind)
  {
    hide HandleEvent, NormalizeKind, MetaEvents, SaysPublication, FirstNamed;
    LandedRows(cfg, t, locked, s, ev, c);
    FirstTagIff(ev.tags, "h", g);
    var was := t.groups[g];
    SaysIff(ev.tags, "name", was.name);
    SaysIff(ev.tags, "about", was.about);
    SaysIff(ev.tags, "t", "");
    if FirstTag(ev.tags, "t").Some? { NormalizeIff(FirstTag(ev.tags, "t").value); }
  }

  /** Delete-group takes off the channel, its members and every event naming it, and retires its id. */
  lemma DeletingErases(cfg: Config, t: Tables, locked: bool, s: Session, ev: Event, c: Clock, g: string)
    requires Inv(cfg, t) && Lands(cfg, t, locked, s, ev, c) && ev.kind == 9008 && FirstNamed(ev.tags, "h", g)
    ensures var u := HandleEvent(cfg, t, locked, s, ev, c).t;
      && u.groups == t.groups - {g} && u.retired == t.retired + {g}
      && (forall p :: p in u.members <==> p in t.members && p.0 != g)
      && (forall p :: p in u.members ==> u.members[p] == t.members[p])
      && (forall id :: id in u.events <==>
            id == ev.id
            || (id in t.events && !Carries(t.events[id].tags, "h", g) && !Carries(t.events[id].tags, "d", g)))
      && (forall id :: id in u.events && id != ev.id ==> u.events[id] == t.events[id])
  {
    hide HandleEvent, Inv, Gate, Purge, Insert, Carries, IndexExact;
    LandedRows(cfg, t, locked, s, ev, c);
    FirstTagIff(ev.tags, "h", g);
    InvIsExact(cfg, t);
    var d := GroupDelete(t, g);
    assert IndexExact(d) by { DeleteKeepsExact(t, g); }
    PurgeExact(d, g);
    PurgeKeepsRows(d, g);
    forall id | id in t.events
      ensures g in TagValues(t.events[id].tags, "h") <==> Carries(t.events[id].tags, "h", g)
      ensures g in TagValues(t.events[id].tags, "d") <==> Carries(t.events[id].tags, "d", g)
    {
      CarriesIff(t.events[id].tags, "h", g);
      CarriesIff(t.events[id].tags, "d", g);
    }
    DeletionIsStored(cfg, t, locked, s, ev, c, g);
  }

  lemma DeleteKeepsExact(t: Tables, g: string)
    requires IndexExact(t)
    ensures IndexExact(GroupDelete(t, g))
  {
  }

  lemma PurgeKeepsRows(t: Tables, g: string)
    ensures Purge(t, g).groups == t.groups && Purge(t, g).members == t.members && Purge(t, g).retired == t.retired
  {
  }

  lemma DeletionIsStored(cfg: Config, t: Tables, locked: bool, s: Session, ev: Event, c: Clock, g: string)
    requires Lands(cfg, t, locked, s, ev, c) && ev.kind == 9008 && FirstTag(ev.tags, "h") == Some(g)
    ensures var p := Purge(GroupDelete(t, g), g);
      HandleEvent(cfg, t, locked, s, ev, c).t.events == p.events[ev.id := ev]
  {
    hide Gate, Purge;
    LandedRows(cfg, t, locked, s, ev, c);
    var p := Purge(GroupDelete(t, g), g);
    assert Decide(cfg, t, ev, c) == Granted(p, []);
    DecideKeepsAbsent(cfg, t, ev, c);
    OrdinaryIsStored(p, ev);
    assert Existing(p, ev) == {};
    assert InsertAll(Insert(p, ev).0, []) == Insert(p, ev).0;
  }

  /** A profile, and any event refused, leaves channels and members alone. */
  lemma ProfileIsApart(cfg: Config, t: Tables, locked: bool, s: Session, ev: Event, c: Clock)
    requires Lands(cfg, t, locked, s, ev, c) && ev.kind == 0
    ensures var u := HandleEvent(cfg, t, locked, s, ev, c).t;
      u.groups == t.groups && u.members == t.members && u.retired == t.retired
  {
    hide HandleEvent;
    LandedRows(cfg, t, locked, s, ev, c);
  }

  // ---- redemptions ----

  /** The content, spaces aside, is the code of an invite that can be used now. */
  ghost predicate Usable(t: Tables, ev: Event, c: Clock, code: string) {
    && Tight(code) && (exists p, q :: Blank(p) && Blank(q) && ev.content == p + code + q)
    && code in t.invites
    && (t.invites[code].expiresAt.Some? ==> c.row(0) <= t.invites[code].expiresAt.value)
    && t.invites[code].uses < t.invites[code].maxUses
  }

  lemma UsableIff(t: Tables, ev: Event, c: Clock, code: string)
    ensures Usable(t, ev, c, code) <==> code == Trim(ev.content) && InviteRedeem(t, code, c.row(0)).1 == Redeemed
  {
    TrimIff(ev.content, code);
  }

  /** One use of the code is taken, its author is let in, and nothing else changes. */
  predicate LetsIn(t: Tables, u: Tables, ev: Event, code: string) {
    && code in t.invites
    && u == t.(invites := t.invites[code := t.invites[code].(uses := t.invites[code].uses + 1)],
               whitelist := t.whitelist + {ev.pubkey})
  }

  /** A redemption succeeds iff it is verified, at most ten minutes off the clock, the door is not locked
      and it brings a usable code. Then it takes one use and lets its author in; otherwise it does nothing. */
  lemma RedemptionIff(cfg: Config, t: Tables, locked: bool, s: Session, ev: Event, c: Clock)
    requires ev.kind == 20284
    ensures HandleEvent(cfg, t, locked, s, ev, c).sent == []
    ensures HandleEvent(cfg, t, locked, s, ev, c).accepted <==>
              && cfg.crypto.verify(ev) && ev.createdAt <= c.check + 600 && c.check <= ev.createdAt + 600 && !locked
              && exists code :: Usable(t, ev, c, code)
    ensures var o := HandleEvent(cfg, t, locked, s, ev, c);
      if o.accepted then
        o.authed == Some(ev.pubkey) && exists code :: Usable(t, ev, c, code) && LetsIn(t, o.t, ev, code)
      else o.t == t && o.authed == s.authed
  {
    var code := Trim(ev.content);
    hide Trim, Usable;
    forall x ensures Usable(t, ev, c, x) <==> x == code && InviteRedeem(t, x, c.row(0)).1 == Redeemed {
      UsableIff(t, ev, c, x);
    }
  }

  // ---- what is broadcast ----

  /** A trio is news: none of its events was stored before. */
  lemma TrioIsNews(cfg: Config, u: Tables, extra: seq<Event>, g: string, at: nat, e: Event)
    requires Pending(cfg, u, extra, g, at) && e in extra
    ensures !Holding(u, e) && IsMetaKind(e.kind)
    ensures |extra| == 3 && extra[0].kind == 39000 && extra[1].kind == 39001 && extra[2].kind == 39002
  {
    hide MetaTags, Listing, MetaAgrees;
    MetaEventAddress(cfg, u, GROUP_METADATA, g, at);
    MetaEventAddress(cfg, u, GROUP_ADMINS, g, at);
    MetaEventAddress(cfg, u, GROUP_MEMBERS, g, at);
    assert Outdated(u, e.kind, g, at);
  }

  lemma MetaEventAddress(cfg: Config, u: Tables, kind: nat, g: string, at: nat)
    requires g in u.groups
    ensures DKey(MetaEvent(cfg, u, kind, g, at)) == g
  {
    MetaTagsAddress(kind, g, u.groups[g], Listing(u.members, g));
  }

  /** Deciding removes stored events only with a channel, and then publishes nothing. */
  lemma ExtraMeansKept(cfg: Config, t: Tables, ev: Event, c: Clock)
    requires Decide(cfg, t, ev, c).Granted? && Decide(cfg, t, ev, c).extra != []
    ensures Decide(cfg, t, ev, c).t.events == t.events
  {
    hide MetaEvents, Moderate, Purge;
    DecisionFrame(cfg, t, ev, c);
  }

  /** What an event that lands broadcasts: itself first, and after it what was published with it. */
  lemma LandedSends(cfg: Config, t: Tables, locked: bool, s: Session, ev: Event, c: Clock)
    requires Lands(cfg, t, locked, s, ev, c)
    ensures HandleEvent(cfg, t, locked, s, ev, c).sent == [ev] + Decide(cfg, t, ev, c).extra
    ensures var v := Decide(cfg, t, ev, c);
      HandleEvent(cfg, t, locked, s, ev, c).t == Announce(v.t, s.authed, ev, v.extra).t
  {
    hide Decide, Gate, Insert, InsertAll;
    LandedRows(cfg, t, locked, s, ev, c);
    var v := Decide(cfg, t, ev, c);
    DecideKeepsAbsent(cfg, t, ev, c);
    InsertAnswers(v.t, ev);
  }

  lemma SentWasNotHeld(cfg: Config, t: Tables, locked: bool, s: Session, ev: Event, c: Clock, e: Event)
    requires Trustworthy(cfg.crypto) && Inv(cfg, t) && e in HandleEvent(cfg, t, locked, s, ev, c).sent
    ensures !Holding(t, e)
  {
    hide HandleEvent, Inv, Decide, Pending, Trustworthy;
    if !Lands(cfg, t, locked, s, ev, c) {
      if ev.kind == INVITE_REDEEM {
        RedemptionIff(cfg, t, locked, s, ev, c);
      } else {
        NothingElseHappens(cfg, t, locked, s, ev, c);
      }
    } else {
      LandedRows(cfg, t, locked, s, ev, c);
      LandedSends(cfg, t, locked, s, ev, c);
      var v := Decide(cfg, t, ev, c);
      if e in v.extra {
        DecidePrepares(cfg, t, ev, c);
        ExtraMeansKept(cfg, t, ev, c);
        var g, at :| Pending(cfg, v.t, v.extra, g, at);
        TrioIsNews(cfg, v.t, v.extra, g, at, e);
      }
    }
  }

  lemma NewIsSent(cfg: Config, t: Tables, locked: bool, s: Session, ev: Event, c: Clock, e: Event)
    requires Trustworthy(cfg.crypto) && Inv(cfg, t)
    requires Holding(HandleEvent(cfg, t, locked, s, ev, c).t, e) && !Holding(t, e)
    ensures e in HandleEvent(cfg, t, locked, s, ev, c).sent
  {
    hide HandleEvent, Inv, Decide, Announce, Trustworthy;
    if !Lands(cfg, t, locked, s, ev, c) {
      if ev.kind == INVITE_REDEEM {
        RedemptionIff(cfg, t, locked, s, ev, c);
      } else {
        NothingElseHappens(cfg, t, locked, s, ev, c);
      }
    } else {
      LandedRows(cfg, t, locked, s, ev, c);
      LandedSends(cfg, t, locked, s, ev, c);
      var v := Decide(cfg, t, ev, c);
      DecideOnlyRemoves(cfg, t, ev, c);
      AnnounceOrigin(v.t, s.authed, ev, v.extra, e.id);
    }
  }

  /** After the event comes nothing, or metadata of all three kinds in this order. */
  predicate FollowedByTrio(sent: seq<Event>) {
    |sent| <= 1 || (|sent| == 4 && sent[1].kind == 39000 && sent[2].kind == 39001 && sent[3].kind == 39002)
  }

  ghost predicate NoneTwice(q: seq<Event>) {
    forall i, j :: 0 <= i < j < |q| ==> q[i] != q[j]
  }

  lemma SentOnce(cfg: Config, t: Tables, locked: bool, s: Session, ev: Event, c: Clock)
    requires Trustworthy(cfg.crypto) && Inv(cfg, t) && Lands(cfg, t, locked, s, ev, c)
    ensures var sent := HandleEvent(cfg, t, locked, s, ev, c).sent;
      sent != [] && sent[0] == ev && NoneTwice(sent) && FollowedByTrio(sent)
  {
    hide HandleEvent, Inv, Decide, Pending, Trustworthy;
    LandedRows(cfg, t, locked, s, ev, c);
    LandedSends(cfg, t, locked, s, ev, c);
    var v := Decide(cfg, t, ev, c);
    if v.extra != [] {
      DecidePrepares(cfg, t, ev, c);
      var g, at :| Pending(cfg, v.t, v.extra, g, at);
      TrioIsNews(cfg, v.t, v.extra, g, at, v.extra[0]);
    }
  }

  /** What is broadcast while an event is handled is what is newly stored, each once, the event itself
      first; so nothing stored is withheld from live subscribers and nothing else is shown to them. */
  lemma BroadcastIsNews(cfg: Config, t: Tables, locked: bool, s: Session, ev: Event, c: Clock)
    requires Trustworthy(cfg.crypto) && Inv(cfg, t)
    ensures var u, sent := HandleEvent(cfg, t, locked, s, ev, c).t, HandleEvent(cfg, t, locked, s, ev, c).sent;
      && (forall e :: e in sent <==> Holding(u, e) && !Holding(t, e))
      && NoneTwice(sent)
      && (sent != [] ==> sent[0] == ev) && FollowedByTrio(sent)
      && (sent == [] <==> forall e :: Holding(u, e) ==> Holding(t, e))
  {
    hide HandleEvent, Inv, Trustworthy;
    var u, sent := HandleEvent(cfg, t, locked, s, ev, c).t, HandleEvent(cfg, t, locked, s, ev, c).sent;
    forall e ensures e in sent <==> Holding(u, e) && !Holding(t, e) {
      if e in sent {
        BroadcastIsStored(cfg, t, locked, s, ev, c, e);
        SentWasNotHeld(cfg, t, locked, s, ev, c, e);
      }
      if Holding(u, e) && !Holding(t, e) { NewIsSent(cfg, t, locked, s, ev, c, e); }
    }
    if Lands(cfg, t, locked, s, ev, c) {
      SentOnce(cfg, t, locked, s, ev, c);
    } else if ev.kind == INVITE_REDEEM {
      RedemptionIff(cfg, t, locked, s, ev, c);
    } else {
      NothingElseHappens(cfg, t, locked, s, ev, c);
    }
    assert sent != [] ==> sent[0] in sent;
  }

  /** So it is at every state of every run. */
  lemma ReachableBroadcastIsNews(cfg: Config, locked: bool, acts: seq<Action>, s: Session, ev: Event, c: Clock,
                                 e: Event)
    requires Trustworthy(cfg.crypto)
    ensures var now := Run(cfg, locked, acts); var o := HandleEvent(cfg, now.t, now.locked, s, ev, c);
      e in o.sent <==> Holding(o.t, e) && !Holding(now.t, e)
  {
    hide Run, HandleEvent, Inv, Holding;
    RunSatisfiesInv(cfg, locked, acts);
    BroadcastIsNews(cfg, Run(cfg, locked, acts).t, Run(cfg, locked, acts).locked, s, ev, c);
  }

  // ---- what is answered ----

  lemma TagLimitIff(ev: Event)
    ensures TagLimitError(ev).None? <==>
              |ev.tags| <= 100 && forall t, x :: t in ev.tags && x in t ==> |Utf8Text(x)| <= 1024
  {
    forall x ensures ByteLen(x) == |Utf8Text(x)| { ByteLenCounts(x); }
  }

  /** An event gets one answer, under its id: accepted iff its tags are within limits and handling accepts
      it. Subscriptions stay as they are. */
  lemma EventIsAnswered(cfg: Config, t: Tables, locked: bool, s: Session, ev: Event, c: Clock)
    ensures var r := Serve(cfg, t, locked, s, EventMsg(ev), c);
      && |r.replies| == 1 && r.replies[0].OkReply? && r.replies[0].id == ev.id && r.s.subs == s.subs
      && (r.replies[0].accepted <==>
            (|ev.tags| <= 100 && forall g, x :: g in ev.tags && x in g ==> |Utf8Text(x)| <= 1024)
            && HandleEvent(cfg, t, locked, s, ev, c).accepted)
      && (!r.replies[0].accepted ==> r.sent == [])
  {
    hide HandleStored, HandleInvite, HandleAuth;
    TagLimitIff(ev);
    if !HandleEvent(cfg, t, locked, s, ev, c).accepted { RefusalIsSilent(cfg, t, locked, s, ev, c); }
  }

  lemma RefusalIsSilent(cfg: Config, t: Tables, locked: bool, s: Session, ev: Event, c: Clock)
    requires !HandleEvent(cfg, t, locked, s, ev, c).accepted
    ensures HandleEvent(cfg, t, locked, s, ev, c).sent == []
  {
    hide Gate, Decide, Insert, InsertAll, InviteRedeem;
  }

  lemma {:induction false} EventRepliesAre(sub: string, evs: seq<Event>)
    ensures |EventReplies(sub, evs)| == |evs|
    ensures forall i :: 0 <= i < |evs| ==> EventReplies(sub, evs)[i] == EventReply(sub, evs[i])
  {
    if evs != [] { EventRepliesAre(sub, evs[1..]); }
  }

  /** A request is served iff the connection may read, there is a filter, and the subscription is known or
      one of fewer than 32: then it stands, answered by a frame for each event of the query, in order, and
      an end mark. Otherwise it is closed and the subscriptions stay as they are. */
  lemma RequestIsAnswered(cfg: Config, t: Tables, locked: bool, s: Session, sub: string, filters: seq<Filter>, c: Clock)
    ensures var r := Serve(cfg, t, locked, s, ReqMsg(Some(sub), filters), c); var found := Querying.Query(t, filters);
      && r.t == t && r.sent == [] && r.s.authed == s.authed
      && if (cfg.open || s.authed.Some?) && filters != [] && (|s.subs| < 32 || sub in s.subs) then
           && r.s.subs == s.subs[sub := filters]
           && |r.replies| == |found| + 1 && r.replies[|found|] == Eose(sub)
           && forall i :: 0 <= i < |found| ==> r.replies[i] == EventReply(sub, found[i])
         else r.s.subs == s.subs && |r.replies| == 1 && r.replies[0].Closed? && r.replies[0].sub == sub
  {
    hide Querying.Query, EventReplies;
    EventRepliesAre(sub, Querying.Query(t, filters));
  }

  /** Closing a subscription ends that one only. */
  lemma ClosingEnds(cfg: Config, t: Tables, locked: bool, s: Session, sub: string, c: Clock)
    ensures var r := Serve(cfg, t, locked, s, CloseMsg(Some(sub)), c);
      && r.t == t && r.sent == [] && r.replies == [] && r.s.authed == s.authed
      && (forall x :: x in r.s.subs <==> x in s.subs && x != sub)
      && (forall x :: x in r.s.subs ==> r.s.subs[x] == s.subs[x])
  {
  }

  // ---- what the operator's commands and connections do ----

  /** Nothing but connections, door, whitelist and invites differs. */
  predicate SameStore(t: Tables, u: Tables) {
    u.events == t.events && u.rows == t.rows && u.groups == t.groups && u.members == t.members && u.retired == t.retired
  }

  /** The operator's commands act on whitelist, invites and door, each as its name says, and on nothing
      else. */
  lemma CommandsDo(cfg: Config, s: System, pk: string, code: string, maxUses: nat, expiresAt: Option<nat>, now: nat,
                   b: bool)
    ensures var u := Step(cfg, s, AddToWhitelist(pk));
      u.conns == s.conns && u.locked == s.locked && SameStore(s.t, u.t) && u.t.invites == s.t.invites
      && forall x :: x in u.t.whitelist <==> x in s.t.whitelist || x == pk
    ensures var u := Step(cfg, s, RemoveFromWhitelist(pk));
      u.conns == s.conns && u.locked == s.locked && SameStore(s.t, u.t) && u.t.invites == s.t.invites
      && forall x :: x in u.t.whitelist <==> x in s.t.whitelist && x != pk
    ensures var u := Step(cfg, s, CreateInvite(code, maxUses, expiresAt, now));
      u.conns == s.conns && u.locked == s.locked && SameStore(s.t, u.t) && u.t.whitelist == s.t.whitelist
      && code in u.t.invites && (code !in s.t.invites ==> u.t.invites[code] == Invite(now, expiresAt, maxUses, 0))
      && forall x :: x in s.t.invites ==> x in u.t.invites && u.t.invites[x] == s.t.invites[x]
    ensures var u := Step(cfg, s, RevokeInvite(code));
      u.conns == s.conns && u.locked == s.locked && SameStore(s.t, u.t) && u.t.whitelist == s.t.whitelist
      && (forall x :: x in u.t.invites <==> x in s.t.invites && x != code)
      && forall x :: x in u.t.invites ==> u.t.invites[x] == s.t.invites[x]
    ensures var u := Step(cfg, s, RevokeAllInvites);
      u.conns == s.conns && u.locked == s.locked && SameStore(s.t, u.t) && u.t.whitelist == s.t.whitelist
      && forall x :: x !in u.t.invites
    ensures var u := Step(cfg, s, SetDoor(b)); u.conns == s.conns && u.t == s.t && u.locked == b
  {
    hide Serve;
  }

  /** Opening gives a connection without identity and subscriptions its challenge and host; dropping ends
      it; a restart ends all, keeps the tables and lets the operator in. */
  lemma ConnectionsComeAndGo(cfg: Config, s: System, n: nat, challenge: string, host: Option<string>, b: bool)
    ensures var u := Step(cfg, s, Open(n, challenge, host));
      && u.t == s.t && u.locked == s.locked && n in u.conns
      && u.conns[n].authed == None && u.conns[n].challenge == challenge && u.conns[n].host == host
      && (forall x :: x !in u.conns[n].subs)
      && forall k :: k != n ==> (k in u.conns <==> k in s.conns) && (k in s.conns ==> u.conns[k] == s.conns[k])
    ensures var u := Step(cfg, s, Drop(n));
      && u.t == s.t && u.locked == s.locked && (forall k :: k in u.conns <==> k in s.conns && k != n)
      && forall k :: k in u.conns ==> u.conns[k] == s.conns[k]
    ensures var u := Step(cfg, s, Restart(b));
      && SameStore(s.t, u.t) && u.t.invites == s.t.invites && u.locked == b && (forall k :: k !in u.conns)
      && forall x :: x in u.t.whitelist <==> x in s.t.whitelist || cfg.operator == Some(x)
  {
    hide Serve;
  }
}
