/** Publication channels: whoever is not an admin can only answer, so every accepted message hangs,
    reply by reply, from something an admin said or from an event that is no chat message. */
module Publication {
  import opened Text
  import opened Nostr
  import opened Tables
  import opened Convergence
  import opened Protocol
  import opened Invariants
  import opened Runs

  /** The `k`th action submits the event, and it is stored there and then. */
  ghost predicate Accepts(cfg: Config, locked: bool, acts: seq<Action>, k: nat, e: Event) {
    && k < |acts| && acts[k].Say? && acts[k].m == EventMsg(e) && cfg.crypto.verify(e)
    && acts[k].conn in At(cfg, locked, acts, k).conns
    && e.id !in At(cfg, locked, acts, k).t.events
    && e.id in At(cfg, locked, acts, k + 1).t.events && At(cfg, locked, acts, k + 1).t.events[e.id] == e
  }

  // ---- where stored events come from ----

  lemma {:induction false} InsertAllOrigin(t: Tables, xs: seq<Event>, id: string)
    requires id in InsertAll(t, xs).events
    ensures (id in t.events && InsertAll(t, xs).events[id] == t.events[id]) || InsertAll(t, xs).events[id] in xs
    decreases |xs|
  {
    if xs != [] {
      var front, last := xs[..|xs| - 1], xs[|xs| - 1];
      if id in InsertAll(t, front).events && InsertAll(t, xs).events[id] == InsertAll(t, front).events[id] {
        InsertAllOrigin(t, front, id);
      }
    }
  }

  lemma DecideOnlyRemoves(cfg: Config, t: Tables, ev: Event, c: Clock)
    requires Decide(cfg, t, ev, c).Granted?
    ensures forall id :: id in Decide(cfg, t, ev, c).t.events ==>
        id in t.events && Decide(cfg, t, ev, c).t.events[id] == t.events[id]
  {
    hide Decide;
    DecisionFrame(cfg, t, ev, c);
  }

  lemma ExtraIsMeta(cfg: Config, t: Tables, ev: Event, c: Clock, e: Event)
    requires Decide(cfg, t, ev, c).Granted? && e in Decide(cfg, t, ev, c).extra
    ensures IsMetaKind(e.kind)
  {
    hide Decide, MetaTags, MetaStamp, Listing;
    DecisionExtra(cfg, t, ev, c);
  }

  /** After one event is handled, what is stored was there before, is that event, or is metadata. */
  lemma OutcomeOrigin(cfg: Config, t: Tables, locked: bool, s: Session, ev: Event, c: Clock, id: string)
    requires id in HandleEvent(cfg, t, locked, s, ev, c).t.events
    ensures var u := HandleEvent(cfg, t, locked, s, ev, c).t;
      || (id in t.events && u.events[id] == t.events[id])
      || IsMetaKind(u.events[id].kind)
      || (u.events[id] == ev && cfg.crypto.verify(ev) && ev.id !in t.events)
  {
    hide Decide, Announce;
    if cfg.crypto.verify(ev) && ev.kind != CLIENT_AUTH && ev.kind != INVITE_REDEEM
       && Gate(cfg, t, s.authed, ev, c).None? && Decide(cfg, t, ev, c).Granted? {
      var v := Decide(cfg, t, ev, c);
      DecideOnlyRemoves(cfg, t, ev, c);
      AnnounceOrigin(v.t, s.authed, ev, v.extra, id);
      var e := HandleEvent(cfg, t, locked, s, ev, c).t.events[id];
      if e in v.extra { ExtraIsMeta(cfg, t, ev, c, e); }
    }
  }

  lemma AnnounceOrigin(t: Tables, authed: Option<string>, ev: Event, extra: seq<Event>, id: string)
    requires id in Announce(t, authed, ev, extra).t.events && !IsEphemeral(ev.kind)
    ensures var e := Announce(t, authed, ev, extra).t.events[id];
      (id in t.events && e == t.events[id]) || e in extra || e == ev
  {
    if Insert(t, ev).1 == Stored { InsertAllOrigin(Insert(t, ev).0, extra, id); }
  }

  lemma StepOrigin(cfg: Config, s: System, a: Action, id: string)
    requires id in Step(cfg, s, a).t.events && !IsMetaKind(Step(cfg, s, a).t.events[id].kind)
    ensures var e := Step(cfg, s, a).t.events[id];
      || (id in s.t.events && e == s.t.events[id])
      || (a.Say? && a.conn in s.conns && a.m == EventMsg(e) && cfg.crypto.verify(e) && e.id !in s.t.events)
  {
    hide HandleEvent;
    StepTables(cfg, s, a);
    if Submits(s, a) {
      OutcomeOrigin(cfg, s.t, s.locked, s.conns[a.conn], a.m.ev, a.c, id);
    }
  }

  /** Every stored event that is not relay metadata was accepted at an earlier step. */
  lemma {:induction false} StoredHasOrigin(cfg: Config, locked: bool, acts: seq<Action>, k: nat, id: string)
    returns (i: nat)
    requires Trustworthy(cfg.crypto) && k <= |acts| && id in At(cfg, locked, acts, k).t.events
    requires !IsMetaKind(At(cfg, locked, acts, k).t.events[id].kind)
    ensures i < k && Accepts(cfg, locked, acts, i, At(cfg, locked, acts, k).t.events[id])
    decreases k
  {
    var e := At(cfg, locked, acts, k).t.events[id];
    assert k > 0;
    AtNext(cfg, locked, acts, k - 1);
    var s := At(cfg, locked, acts, k - 1);
    StepOrigin(cfg, s, acts[k - 1], id);
    if id in s.t.events && s.t.events[id] == e {
      i := StoredHasOrigin(cfg, locked, acts, k - 1, id);
    } else {
      RunSatisfiesInv(cfg, locked, acts[..k]);
      assert e.id == id;
      i := k - 1;
    }
  }

  // ---- the discipline ----

  /** The channel was a publication whenever it was live, up to the `k`th state. */
  ghost predicate PublicationUpTo(cfg: Config, locked: bool, acts: seq<Action>, k: nat, g: string)
    requires k <= |acts|
  {
    forall m :: 0 <= m <= k && g in At(cfg, locked, acts, m).t.groups ==>
        At(cfg, locked, acts, m).t.groups[g].kind == "publication"
  }

  /** Something no permission is asked for: not a chat message, or said by an admin of the time. */
  ghost predicate Opens(cfg: Config, locked: bool, acts: seq<Action>, g: string, k: nat) {
    && k < |acts| && acts[k].Say? && acts[k].m.EventMsg?
    && Accepts(cfg, locked, acts, k, acts[k].m.ev)
    && (acts[k].m.ev.kind != CHAT || IsAdmin(cfg, At(cfg, locked, acts, k).t, g, acts[k].m.ev.pubkey))
  }

  /** A chat message said by someone who was admin of the channel, or the operator, just then. */
  ghost predicate PostedByAdmin(cfg: Config, locked: bool, acts: seq<Action>, g: string, k: nat) {
    && k < |acts| && acts[k].Say? && acts[k].m.EventMsg? && acts[k].m.ev.kind == CHAT
    && Accepts(cfg, locked, acts, k, acts[k].m.ev)
    && IsAdmin(cfg, At(cfg, locked, acts, k).t, g, acts[k].m.ev.pubkey)
  }

  /** A chat message of this channel that answers something accepted in it strictly earlier. */
  ghost predicate Answers(cfg: Config, locked: bool, acts: seq<Action>, g: string, k: nat, i: nat) {
    && i < k < |acts| && acts[k].Say? && acts[k].m.EventMsg? && acts[i].Say? && acts[i].m.EventMsg?
    && acts[k].m.ev.kind == CHAT
    && Accepts(cfg, locked, acts, k, acts[k].m.ev) && Accepts(cfg, locked, acts, i, acts[i].m.ev)
    && ReplyParent(acts[k].m.ev.tags) == Some(acts[i].m.ev.id)
    && g in TagValues(acts[k].m.ev.tags, "h") && g in TagValues(acts[i].m.ev.tags, "h")
  }

  predicate IsStoredAs(t: Tables, e: Event) {
    e.id in t.events && t.events[e.id] == e
  }

  ghost predicate IsThread(cfg: Config, locked: bool, acts: seq<Action>, g: string, path: seq<nat>) {
    && path != []
    && (forall i :: 0 <= i < |path| - 1 ==> Answers(cfg, locked, acts, g, path[i], path[i + 1]))
    && Opens(cfg, locked, acts, g, path[|path| - 1])
  }

  /** An accepted chat message was granted by the group logic. */
  lemma AcceptedWasGranted(cfg: Config, locked: bool, acts: seq<Action>, k: nat, e: Event)
    requires Accepts(cfg, locked, acts, k, e) && e.kind == CHAT
    ensures DecideChat(cfg, At(cfg, locked, acts, k).t, e, acts[k].c).Granted?
  {
    AtNext(cfg, locked, acts, k);
  }

  /** What a non-admin's message answers is stored, in the same channel, and not metadata. */
  lemma ParentIsStored(cfg: Config, t: Tables, e: Event, c: Clock, g: string)
    requires Inv(cfg, t) && FirstTag(e.tags, "h") == Some(g) && DecideChat(cfg, t, e, c).Granted?
    requires t.groups[g].kind == "publication" && !IsAdmin(cfg, t, g, e.pubkey)
    ensures var parent := ReplyParent(e.tags);
      && parent.Some? && parent.value in t.events
      && var p := t.events[parent.value];
         p.id == parent.value && !IsMetaKind(p.kind) && g in TagValues(p.tags, "h")
         && (p.kind == CHAT ==> FirstTag(p.tags, "h") == Some(g))
  {
    var parent := ReplyParent(e.tags).value;
    EventInGroupIff(t, parent, g);
    InGroupIsClient(cfg, t, parent, g);
  }

  /** What is indexed under a channel came from a client, and as a chat message names the channel. */
  lemma InGroupIsClient(cfg: Config, t: Tables, id: string, g: string)
    requires Sound(cfg, t) && id in t.events && g in TagValues(t.events[id].tags, "h")
    ensures !IsMetaKind(t.events[id].kind)
    ensures t.events[id].kind == CHAT ==> FirstTag(t.events[id].tags, "h") == Some(g)
  {
    assert EventOk(cfg, t, t.events[id]);
    FirstTagIsIndexed(t.events[id].tags, "h");
  }

  lemma ParentWasAccepted(cfg: Config, locked: bool, acts: seq<Action>, k: nat, e: Event, g: string) returns (i: nat)
    requires Trustworthy(cfg.crypto) && Accepts(cfg, locked, acts, k, e)
    requires e.kind == CHAT && FirstTag(e.tags, "h") == Some(g)
    requires PublicationUpTo(cfg, locked, acts, k, g) && !IsAdmin(cfg, At(cfg, locked, acts, k).t, g, e.pubkey)
    ensures Answers(cfg, locked, acts, g, k, i)
    ensures acts[i].m.ev.kind == CHAT ==> FirstTag(acts[i].m.ev.tags, "h") == Some(g)
    ensures IsStoredAs(At(cfg, locked, acts, k).t, acts[i].m.ev)
  {
    AcceptedWasGranted(cfg, locked, acts, k, e);
    RunSatisfiesInv(cfg, locked, acts[..k]);
    ParentIsStored(cfg, At(cfg, locked, acts, k).t, e, acts[k].c, g);
    i := StoredHasOrigin(cfg, locked, acts, k, ReplyParent(e.tags).value);
    FirstTagIsIndexed(e.tags, "h");
  }

  /** A thread grows at its lower end by an answer to its first message. */
  lemma AnswerExtends(cfg: Config, locked: bool, acts: seq<Action>, g: string, k: nat, tail: seq<nat>)
    requires IsThread(cfg, locked, acts, g, tail) && Answers(cfg, locked, acts, g, k, tail[0])
    ensures IsThread(cfg, locked, acts, g, [k] + tail)
  {
    hide Answers, Opens;
    var path := [k] + tail;
    forall i | 0 <= i < |path| - 1 ensures Answers(cfg, locked, acts, g, path[i], path[i + 1]) {
      if i > 0 { assert path[i] == tail[i - 1] && path[i + 1] == tail[i]; }
    }
  }

  /** Publication discipline: following reply parents from any accepted message of a channel that has
      been a publication since its creation reaches, by strictly earlier steps in the same channel,
      something said by an admin or the operator of the time, or an event that is no chat message. */
  lemma {:induction false} PublicationThread(cfg: Config, locked: bool, acts: seq<Action>, k: nat, e: Event, g: string)
    returns (path: seq<nat>)
    requires Trustworthy(cfg.crypto) && Accepts(cfg, locked, acts, k, e)
    requires e.kind == CHAT && FirstTag(e.tags, "h") == Some(g) && PublicationUpTo(cfg, locked, acts, k, g)
    ensures IsThread(cfg, locked, acts, g, path) && path[0] == k
    decreases k
  {
    if IsAdmin(cfg, At(cfg, locked, acts, k).t, g, e.pubkey) {
      path := [k];
    } else {
      var i := ParentWasAccepted(cfg, locked, acts, k, e, g);
      var p := acts[i].m.ev;
      if p.kind == CHAT {
        path := PublicationThread(cfg, locked, acts, i, p, g);
      } else {
        path := [i];
      }
      AnswerExtends(cfg, locked, acts, g, k, path);
      path := [k] + path;
    }
  }

  lemma EveryPostHasThread(cfg: Config, locked: bool, acts: seq<Action>, k: nat, e: Event, g: string)
    requires Trustworthy(cfg.crypto) && Accepts(cfg, locked, acts, k, e)
    requires e.kind == CHAT && FirstTag(e.tags, "h") == Some(g) && PublicationUpTo(cfg, locked, acts, k, g)
    ensures exists path: seq<nat> :: IsThread(cfg, locked, acts, g, path) && path[0] == k
  {
    var path := PublicationThread(cfg, locked, acts, k, e, g);
  }

  // ---- who starts a thread ----

  /** The message hangs from a post: following reply parents ends at a chat message of an admin's. */
  ghost predicate StartedByAdmin(cfg: Config, locked: bool, acts: seq<Action>, g: string, k: nat) {
    exists path: seq<nat> :: IsThread(cfg, locked, acts, g, path) && path[0] == k
                             && PostedByAdmin(cfg, locked, acts, g, path[|path| - 1])
  }

  /** The `k`th action has a chat message for the channel accepted from someone not its admin. */
  ghost predicate Comments(cfg: Config, locked: bool, acts: seq<Action>, g: string, k: nat) {
    && Posts(cfg, locked, acts, g, k)
    && !IsAdmin(cfg, At(cfg, locked, acts, k).t, g, acts[k].m.ev.pubkey)
  }

  ghost predicate Posts(cfg: Config, locked: bool, acts: seq<Action>, g: string, k: nat) {
    && k < |acts| && acts[k].Say? && acts[k].m.EventMsg? && Accepts(cfg, locked, acts, k, acts[k].m.ev)
    && acts[k].m.ev.kind == CHAT && FirstTag(acts[k].m.ev.tags, "h") == Some(g)
  }

  /** What the message answers is stored, and is a chat message: what the code does not ask. */
  predicate AnswersChat(t: Tables, e: Event) {
    var parent := ReplyParent(e.tags);
    parent.Some? && parent.value in t.events && t.events[parent.value].kind == CHAT
  }

  /** An accepted answer to anything but a chat message hangs from no post. */
  lemma AnswerToOtherIsUnstarted(cfg: Config, locked: bool, acts: seq<Action>, g: string, k: nat)
    requires Trustworthy(cfg.crypto) && Comments(cfg, locked, acts, g, k)
    requires PublicationUpTo(cfg, locked, acts, k, g) && !AnswersChat(At(cfg, locked, acts, k).t, acts[k].m.ev)
    ensures !StartedByAdmin(cfg, locked, acts, g, k)
  {
    hide Inv, Trustworthy, IsGroupAdmin;
    var e, t := acts[k].m.ev, At(cfg, locked, acts, k).t;
    AcceptedWasGranted(cfg, locked, acts, k, e);
    RunSatisfiesInv(cfg, locked, acts[..k]);
    ParentIsStored(cfg, t, e, acts[k].c, g);
    if path: seq<nat> :| IsThread(cfg, locked, acts, g, path) && path[0] == k
                         && PostedByAdmin(cfg, locked, acts, g, path[|path| - 1]) {
      assert |path| > 1;
      assert Answers(cfg, locked, acts, g, path[0], path[1]);
      SameKindAsStored(cfg, t, acts[path[1]].m.ev);
      assert |path| > 2 ==> Answers(cfg, locked, acts, g, path[1], path[2]);
    }
  }

  /** A verified event under the id of a stored one has its kind. */
  lemma SameKindAsStored(cfg: Config, t: Tables, x: Event)
    requires Trustworthy(cfg.crypto) && Inv(cfg, t) && cfg.crypto.verify(x) && x.id in t.events
    ensures t.events[x.id].kind == x.kind
  {
    assert EventOk(cfg, t, t.events[x.id]);
    assert BodyOf(t.events[x.id]) == BodyOf(x);
  }

  lemma {:induction false} AnswersToChatAreStarted(cfg: Config, locked: bool, acts: seq<Action>, g: string, k: nat)
    returns (path: seq<nat>)
    requires Trustworthy(cfg.crypto) && Posts(cfg, locked, acts, g, k) && PublicationUpTo(cfg, locked, acts, k, g)
    requires forall m :: 0 <= m <= k && Comments(cfg, locked, acts, g, m) ==>
               AnswersChat(At(cfg, locked, acts, m).t, acts[m].m.ev)
    ensures IsThread(cfg, locked, acts, g, path) && path[0] == k
    ensures PostedByAdmin(cfg, locked, acts, g, path[|path| - 1])
    decreases k
  {
    hide At, IsAdmin, Accepts, Answers;
    var e := acts[k].m.ev;
    if IsAdmin(cfg, At(cfg, locked, acts, k).t, g, e.pubkey) {
      path := [k];
    } else {
      assert Comments(cfg, locked, acts, g, k);
      var i := ParentWasAccepted(cfg, locked, acts, k, e, g);
      var tail := AnswersToChatAreStarted(cfg, locked, acts, g, i);
      AnswerExtends(cfg, locked, acts, g, k, tail);
      path := [k] + tail;
    }
  }

  /** Only admins start a post, exactly as long as nobody else answers anything but a chat message:
      `event_in_group` asks whether the parent is in the channel, not what it is. */
  lemma OnlyAdminsStartIff(cfg: Config, locked: bool, acts: seq<Action>, n: nat, g: string)
    requires Trustworthy(cfg.crypto) && n <= |acts| && PublicationUpTo(cfg, locked, acts, n, g)
    ensures (forall k :: 0 <= k < n && Posts(cfg, locked, acts, g, k) ==> StartedByAdmin(cfg, locked, acts, g, k))
       <==> (forall k :: 0 <= k < n && Comments(cfg, locked, acts, g, k) ==>
               AnswersChat(At(cfg, locked, acts, k).t, acts[k].m.ev))
  {
    hide StartedByAdmin, AnswersChat;
    if forall k :: 0 <= k < n && Comments(cfg, locked, acts, g, k) ==>
         AnswersChat(At(cfg, locked, acts, k).t, acts[k].m.ev)
    {
      forall k | 0 <= k < n && Posts(cfg, locked, acts, g, k) ensures StartedByAdmin(cfg, locked, acts, g, k) {
        AnswersToChatStart(cfg, locked, acts, g, k);
      }
    }
    if k :| 0 <= k < n && Comments(cfg, locked, acts, g, k) && !AnswersChat(At(cfg, locked, acts, k).t, acts[k].m.ev) {
      AnswerToOtherIsUnstarted(cfg, locked, acts, g, k);
    }
  }

  lemma AnswersToChatStart(cfg: Config, locked: bool, acts: seq<Action>, g: string, k: nat)
    requires Trustworthy(cfg.crypto) && Posts(cfg, locked, acts, g, k) && PublicationUpTo(cfg, locked, acts, k, g)
    requires forall m :: 0 <= m <= k && Comments(cfg, locked, acts, g, m) ==>
               AnswersChat(At(cfg, locked, acts, m).t, acts[m].m.ev)
    ensures StartedByAdmin(cfg, locked, acts, g, k)
  {
    var path := AnswersToChatAreStarted(cfg, locked, acts, g, k);
  }
}
