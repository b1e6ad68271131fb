/** Replays never re-run side effects: over any run an event id changes the groups, the members or
    the retired ids at most once. And the exception: redemptions, which are never stored. */
module Replay {
  import opened Text
  import opened Nostr
  import opened Tables
  import opened Convergence
  import opened Protocol
  import opened Invariants
  import opened Runs

  predicate IsOrdinary(kind: nat) {
    !IsReplaceable(kind) && !IsAddressable(kind)
  }

  predicate SameGroups(t: Tables, u: Tables) {
    t.groups == u.groups && t.members == u.members && t.retired == u.retired
  }

  /** The action submits the event with this id, and that changes a group, member or retired row. */
  ghost predicate TakesEffect(cfg: Config, s: System, a: Action, id: string) {
    a.Say? && a.m.EventMsg? && a.m.ev.id == id && !SameGroups(s.t, Step(cfg, s, a).t)
  }

  /** The event is stored, or the channel it names is gone for good. */
  ghost predicate Spent(t: Tables, e: Event) {
    e.id in t.events || (FirstTag(e.tags, "h").Some? && FirstTag(e.tags, "h").value in t.retired)
  }

  /** An event that can have an effect at all: verified, gated, ordinary, naming a channel. */
  ghost predicate Potent(cfg: Config, e: Event) {
    Sealed(cfg.crypto, e) && ClientShaped(e) && IsOrdinary(e.kind) && FirstTag(e.tags, "h").Some?
  }

  lemma InsertKeepsOrdinary(t: Tables, x: Event, id: string)
    requires id in t.events && IsOrdinary(t.events[id].kind)
    ensures id in Insert(t, x).0.events && Insert(t, x).0.events[id] == t.events[id]
  {
  }

  lemma {:induction false} InsertAllKeepsOrdinary(t: Tables, xs: seq<Event>, id: string)
    requires id in t.events && IsOrdinary(t.events[id].kind)
    ensures id in InsertAll(t, xs).events && InsertAll(t, xs).events[id] == t.events[id]
    decreases |xs|
  {
    if xs != [] {
      InsertAllKeepsOrdinary(t, xs[..|xs| - 1], id);
      InsertKeepsOrdinary(InsertAll(t, xs[..|xs| - 1]), xs[|xs| - 1], id);
    }
  }

  lemma AnnounceKeepsOrdinary(t: Tables, authed: Option<string>, ev: Event, extra: seq<Event>, id: string)
    requires id in t.events && IsOrdinary(t.events[id].kind)
    ensures id in Announce(t, authed, ev, extra).t.events
  {
    InsertKeepsOrdinary(t, ev, id);
    InsertAllKeepsOrdinary(t, extra, id);
    if Insert(t, ev).1 == Stored { InsertAllKeepsOrdinary(Insert(t, ev).0, extra, id); }
  }

  /** What takes effect is stored in the same step. */
  lemma EffectIsStored(cfg: Config, t: Tables, locked: bool, s: Session, ev: Event, c: Clock)
    requires Trustworthy(cfg.crypto)
    requires !SameGroups(t, HandleEvent(cfg, t, locked, s, ev, c).t)
    ensures Potent(cfg, ev) && ev.id in HandleEvent(cfg, t, locked, s, ev, c).t.events
  {
    GroupsOfOutcome(cfg, t, locked, s, ev, c);
    var v := Decide(cfg, t, ev, c);
    assert v.Granted? && ev.kind != PROFILE;
    DecideKeepsAbsent(cfg, t, ev, c);
    OrdinaryIsStored(v.t, ev);
    AnnounceTables(v.t, s.authed, ev, v.extra);
    InsertAllKeepsOrdinary(Insert(v.t, ev).0, v.extra, ev.id);
  }

  lemma DecideKeepsAbsent(cfg: Config, t: Tables, ev: Event, c: Clock)
    requires Decide(cfg, t, ev, c).Granted? && ev.id !in t.events
    ensures ev.id !in Decide(cfg, t, ev, c).t.events
  {
    hide Decide;
    DecisionFrame(cfg, t, ev, c);
  }

  /** Deciding an event removes a stored one only by deleting the channel that one is bound to. */
  lemma DecideKeepsSpent(cfg: Config, t: Tables, x: Event, c: Clock, e: Event)
    requires Trustworthy(cfg.crypto) && Inv(cfg, t) && Potent(cfg, e) && Spent(t, e)
    requires Decide(cfg, t, x, c).Granted?
    ensures Spent(Decide(cfg, t, x, c).t, e)
  {
    hide Decide, Potent, Trustworthy;
    DecisionFrame(cfg, t, x, c);
    if x.kind == DELETE_GROUP && e.id in t.events { PurgeKeepsSpent(cfg, t, FirstTag(x.tags, "h").value, e); }
  }

  lemma PurgeKeepsSpent(cfg: Config, t: Tables, g: string, e: Event)
    requires Trustworthy(cfg.crypto) && Sound(cfg, t) && Potent(cfg, e) && e.id in t.events
    ensures Spent(Purge(GroupDelete(t, g), g), e)
  {
    var d := GroupDelete(t, g);
    assert IndexExact(d);
    PurgeExact(d, g);
    assert EventOk(cfg, t, t.events[e.id]);
    assert BodyOf(t.events[e.id]) == BodyOf(e);
    FirstTagIsIndexed(e.tags, "h");
  }

  lemma AnnounceKeepsSpent(t: Tables, authed: Option<string>, x: Event, extra: seq<Event>, e: Event)
    requires Spent(t, e) && (e.id in t.events ==> IsOrdinary(t.events[e.id].kind))
    ensures Spent(Announce(t, authed, x, extra).t, e)
  {
    InsertAllKeepsGroups(t, extra);
    InsertAllKeepsGroups(Insert(t, x).0, extra);
    if e.id in t.events { AnnounceKeepsOrdinary(t, authed, x, extra, e.id); }
  }

  /** Once spent, an event stays spent, whatever is handled. */
  lemma HandleKeepsSpent(cfg: Config, t: Tables, locked: bool, s: Session, x: Event, c: Clock, e: Event)
    requires Trustworthy(cfg.crypto) && Inv(cfg, t) && Potent(cfg, e) && Spent(t, e)
    ensures Spent(HandleEvent(cfg, t, locked, s, x, c).t, e)
  {
    hide Decide, Gate, Announce, Inv, Trustworthy;
    if cfg.crypto.verify(x) && x.kind != CLIENT_AUTH && x.kind != INVITE_REDEEM
       && Gate(cfg, t, s.authed, x, c).None? && Decide(cfg, t, x, c).Granted? {
      var v := Decide(cfg, t, x, c);
      DecideKeepsSpent(cfg, t, x, c, e);
      if e.id in v.t.events { StoredBody(cfg, t, x, c, e); }
      AnnounceKeepsSpent(v.t, s.authed, x, v.extra, e);
    }
  }

  /** What is stored under the event's id after a decision is the event, up to its signature. */
  lemma StoredBody(cfg: Config, t: Tables, x: Event, c: Clock, e: Event)
    requires Trustworthy(cfg.crypto) && Inv(cfg, t) && Sealed(cfg.crypto, e)
    requires Decide(cfg, t, x, c).Granted? && e.id in Decide(cfg, t, x, c).t.events
    ensures BodyOf(Decide(cfg, t, x, c).t.events[e.id]) == BodyOf(e)
  {
    DecidePrepares(cfg, t, x, c);
    assert EventOk(cfg, Decide(cfg, t, x, c).t, Decide(cfg, t, x, c).t.events[e.id]);
  }

  lemma StepKeepsSpent(cfg: Config, s: System, a: Action, e: Event)
    requires Trustworthy(cfg.crypto) && Inv(cfg, s.t) && Potent(cfg, e) && Spent(s.t, e)
    ensures Spent(Step(cfg, s, a).t, e)
  {
    hide HandleEvent, Potent, Inv;
    StepTables(cfg, s, a);
    if Submits(s, a) {
      HandleKeepsSpent(cfg, s.t, s.locked, s.conns[a.conn], a.m.ev, a.c, e);
    }
  }

  /** A spent event has no effect: it is a duplicate, or it names a channel that cannot come back. */
  lemma SpentIsInert(cfg: Config, t: Tables, locked: bool, s: Session, ev: Event, c: Clock)
    requires Inv(cfg, t) && Spent(t, ev)
    ensures SameGroups(t, HandleEvent(cfg, t, locked, s, ev, c).t)
  {
    GroupsOfOutcome(cfg, t, locked, s, ev, c);
    if Gate(cfg, t, s.authed, ev, c).None? && Decide(cfg, t, ev, c).Granted? && ev.kind != PROFILE
       && !IsEphemeral(ev.kind) {
      var g := FirstTag(ev.tags, "h").value;
      assert g in t.retired && g !in t.groups;
      if ev.kind == LEAVE_REQUEST { LeavingDeadIsNothing(cfg, t, g, ev.pubkey); }
    }
  }

  lemma {:induction false} SpentForever(cfg: Config, locked: bool, acts: seq<Action>, i: nat, j: nat, e: Event)
    requires Trustworthy(cfg.crypto) && i <= j <= |acts| && Potent(cfg, e) && Spent(At(cfg, locked, acts, i).t, e)
    ensures Spent(At(cfg, locked, acts, j).t, e)
    decreases j
  {
    hide Step, Spent, Potent, Inv;
    if i < j {
      SpentForever(cfg, locked, acts, i, j - 1, e);
      AtNext(cfg, locked, acts, j - 1);
      RunSatisfiesInv(cfg, locked, acts[..j - 1]);
      StepKeepsSpent(cfg, At(cfg, locked, acts, j - 1), acts[j - 1], e);
    }
  }

  /** Over any run, the steps at which one event id takes effect are at most one, however often it
      is submitted, over whatever connections, even after its channel was purged. */
  lemma EffectAtMostOnce(cfg: Config, locked: bool, acts: seq<Action>, i: nat, j: nat, id: string)
    requires Trustworthy(cfg.crypto) && i < |acts| && j < |acts|
    requires TakesEffect(cfg, At(cfg, locked, acts, i), acts[i], id)
    requires TakesEffect(cfg, At(cfg, locked, acts, j), acts[j], id)
    ensures i == j
  {
    if i < j {
      NoSecondEffect(cfg, locked, acts, i, j, id);
    } else if j < i {
      NoSecondEffect(cfg, locked, acts, j, i, id);
    }
  }

  lemma NoSecondEffect(cfg: Config, locked: bool, acts: seq<Action>, i: nat, j: nat, id: string)
    requires Trustworthy(cfg.crypto) && i < j < |acts|
    requires TakesEffect(cfg, At(cfg, locked, acts, i), acts[i], id)
    ensures !TakesEffect(cfg, At(cfg, locked, acts, j), acts[j], id)
  {
    hide HandleEvent, Inv, Trustworthy;
    var s, e := At(cfg, locked, acts, i), acts[i].m.ev;
    StepTables(cfg, s, acts[i]);
    EffectIsStored(cfg, s.t, s.locked, s.conns[acts[i].conn], e, acts[i].c);
    AtNext(cfg, locked, acts, i);
    SpentForever(cfg, locked, acts, i + 1, j, e);
    var u := At(cfg, locked, acts, j);
    RunSatisfiesInv(cfg, locked, acts[..j]);
    StepTables(cfg, u, acts[j]);
    if Submits(u, acts[j]) && acts[j].m.ev.id == id {
      ResubmissionIsInert(cfg, u.t, u.locked, u.conns[acts[j].conn], acts[j].m.ev, acts[j].c, e);
    }
  }

  /** Whatever is handed in under the id of a spent event is that event, up to its signature. */
  lemma ResubmissionIsInert(cfg: Config, t: Tables, locked: bool, s: Session, x: Event, c: Clock, e: Event)
    requires Trustworthy(cfg.crypto) && Inv(cfg, t) && Sealed(cfg.crypto, e) && Spent(t, e) && x.id == e.id
    ensures SameGroups(t, HandleEvent(cfg, t, locked, s, x, c).t)
  {
    hide Inv, HandleStored, HandleInvite;
    if cfg.crypto.verify(x) {
      assert BodyOf(x) == BodyOf(e);
      SpentIsInert(cfg, t, locked, s, x, c);
    }
  }
}
