/** What the invariant is good for: in every reachable state whatever was broadcast is what is stored,
    stored times stay near the clock, and history is answered as the live tail is matched. */
module Reachable {
  import opened Text
  import opened Nostr
  import opened Tables
  import opened Querying
  import opened Protocol
  import opened Invariants
  import opened Runs
  import opened Replay
  import opened Publication

  predicate Holding(t: Tables, e: Event) {
    e.id in t.events && t.events[e.id] == e
  }

  // ---- what is sent is stored ----

  lemma FreshMetaIsHeld(cfg: Config, t: Tables, kind: nat, g: string, at: nat, e: Event)
    requires Trustworthy(cfg.crypto) && Sound(cfg, t) && g in t.groups && IsMetaKind(kind) && Outdated(t, kind, g, at)
    requires e == MetaEvent(cfg, t, kind, g, at) || (Holding(t, e) && e.kind != kind)
    ensures Holding(Insert(t, MetaEvent(cfg, t, kind, g, at)).0, e)
  {
    FreshMetaIsStored(cfg, t, kind, g, at);
  }

  /** No event of a freshly signed trio is stale or a duplicate: all three end up stored. */
  lemma TrioIsHeld(cfg: Config, t: Tables, g: string, at: nat, e: Event)
    requires Trustworthy(cfg.crypto) && Sound(cfg, t) && g in t.groups && e in Trio(cfg, t, g, at)
    requires forall kind :: IsMetaKind(kind) ==> Outdated(t, kind, g, at)
    ensures Holding(InsertAll(t, Trio(cfg, t, g, at)), e)
  {
    hide Sound, Outdated, Insert, InsertAll, Trustworthy, MetaTags, Listing;
    var a, b, c := MetaEvent(cfg, t, GROUP_METADATA, g, at), MetaEvent(cfg, t, GROUP_ADMINS, g, at),
                   MetaEvent(cfg, t, GROUP_MEMBERS, g, at);
    InsertThree(t, a, b, c);
    var t1 := Insert(t, a).0;
    PublishOne(cfg, t, GROUP_METADATA, g, at, t1);
    assert b == MetaEvent(cfg, t1, GROUP_ADMINS, g, at) && c == MetaEvent(cfg, t1, GROUP_MEMBERS, g, at);
    var t2 := Insert(t1, b).0;
    PublishOne(cfg, t1, GROUP_ADMINS, g, at, t2);
    assert c == MetaEvent(cfg, t2, GROUP_MEMBERS, g, at);
    if e == a { FreshMetaIsHeld(cfg, t, GROUP_METADATA, g, at, e); }
    if e != c { FreshMetaIsHeld(cfg, t1, GROUP_ADMINS, g, at, e); }
    FreshMetaIsHeld(cfg, t2, GROUP_MEMBERS, g, at, e);
  }

  lemma AnnouncedIsHeld(cfg: Config, t: Tables, u: Tables, authed: Option<string>, ev: Event, extra: seq<Event>,
                        e: Event)
    requires Trustworthy(cfg.crypto) && Gated(cfg, t, ev) && Prepared(cfg, ev, t, u, extra)
    requires e in Announce(u, authed, ev, extra).sent
    ensures Holding(Announce(u, authed, ev, extra).t, e)
  {
    hide Trustworthy, Sound, MetaAgrees, MetaEvent, Outdated, InsertAll, InLiveChannel, Existing, IndexRows;
    AnnounceTables(u, authed, ev, extra);
    if extra != [] {
      var g, at :| Pending(cfg, u, extra, g, at);
      StoringClientKeepsPending(cfg, u, ev, extra, g, at);
      OrdinaryIsStored(u, ev);
      var u' := Insert(u, ev).0;
      if e in extra {
        TrioIsHeld(cfg, u', g, at, e);
      } else {
        InsertAllKeepsOrdinary(u', extra, ev.id);
      }
    }
  }

  /** Everything broadcast while an event is handled is stored when it has been handled: what live
      subscribers see is what later queries find. */
  lemma BroadcastIsStored(cfg: Config, t: Tables, locked: bool, s: Session, ev: Event, c: Clock, e: Event)
    requires Trustworthy(cfg.crypto) && Inv(cfg, t) && e in HandleEvent(cfg, t, locked, s, ev, c).sent
    ensures Holding(HandleEvent(cfg, t, locked, s, ev, c).t, e)
  {
    hide Inv, Decide, Prepared, Announce;
    DecidePrepares(cfg, t, ev, c);
    AnnouncedIsHeld(cfg, t, Decide(cfg, t, ev, c).t, s.authed, ev, Decide(cfg, t, ev, c).extra, e);
  }

  // ---- stored times stay near the clock ----

  ghost predicate NoneAfter(t: Tables, bound: nat) {
    forall id :: id in t.events ==> t.events[id].createdAt <= bound
  }

  lemma StampIsBounded(cfg: Config, t: Tables, g: string, now: nat, bound: nat)
    requires NoneAfter(t, bound) && now <= bound
    ensures MetaStamp(cfg, t, g, now) <= bound + 1
  {
  }

  lemma HandlingBoundsTimes(cfg: Config, t: Tables, locked: bool, s: Session, ev: Event, c: Clock, bound: nat)
    requires NoneAfter(t, bound) && c.meta <= bound && c.check + MAX_FUTURE_DRIFT_SECS <= bound
    ensures NoneAfter(HandleEvent(cfg, t, locked, s, ev, c).t, bound + 1)
  {
    hide Decide, Announce;
    var u := HandleEvent(cfg, t, locked, s, ev, c).t;
    forall id | id in u.events ensures u.events[id].createdAt <= bound + 1 {
      if cfg.crypto.verify(ev) && ev.kind != CLIENT_AUTH && ev.kind != INVITE_REDEEM
         && Gate(cfg, t, s.authed, ev, c).None? && Decide(cfg, t, ev, c).Granted? {
        var v := Decide(cfg, t, ev, c);
        DecideOnlyRemoves(cfg, t, ev, c);
        AnnounceOrigin(v.t, s.authed, ev, v.extra, id);
        if u.events[id] in v.extra { ExtraIsBounded(cfg, t, ev, c, bound, u.events[id]); }
      }
    }
  }

  lemma ExtraIsBounded(cfg: Config, t: Tables, ev: Event, c: Clock, bound: nat, e: Event)
    requires NoneAfter(t, bound) && c.meta <= bound
    requires Decide(cfg, t, ev, c).Granted? && e in Decide(cfg, t, ev, c).extra
    ensures e.createdAt <= bound + 1
  {
    hide Decide, MetaTags, MetaStamp, Listing;
    DecisionExtra(cfg, t, ev, c);
    DecideOnlyRemoves(cfg, t, ev, c);
    StampIsBounded(cfg, Decide(cfg, t, ev, c).t, FirstTag(ev.tags, "h").value, c.meta, bound);
  }

  /** No reading of the clock was later than `now`. */
  ghost predicate ClockedBy(acts: seq<Action>, now: nat) {
    forall a :: a in acts && a.Say? ==> a.c.check <= now && a.c.meta <= now
  }

  /** Stored times never run ahead of the clock by more than the allowed drift and a second for each
      message handled, although metadata is pushed past what it replaces. */
  lemma {:induction false} TimesStayBounded(cfg: Config, locked: bool, acts: seq<Action>, now: nat)
    requires ClockedBy(acts, now)
    ensures NoneAfter(Run(cfg, locked, acts).t, now + MAX_FUTURE_DRIFT_SECS + |acts|)
    decreases |acts|
  {
    if acts != [] {
      hide HandleEvent, Step;
      var front, a := acts[..|acts| - 1], acts[|acts| - 1];
      TimesStayBounded(cfg, locked, front, now);
      var s := Run(cfg, locked, front);
      StepTables(cfg, s, a);
      if Submits(s, a) {
        assert a in acts;
        HandlingBoundsTimes(cfg, s.t, s.locked, s.conns[a.conn], a.m.ev, a.c, now + MAX_FUTURE_DRIFT_SECS + |front|);
      }
    }
  }

  // ---- history and live tail agree ----

  /** In every state reached before the clock nears 2^63, each filter is answered from the database
      with exactly what the live matcher would let through, and several give their union, each event
      once. */
  lemma HistoryAgreesWithLive(cfg: Config, locked: bool, acts: seq<Action>, now: nat, fs: seq<Filter>)
    requires Trustworthy(cfg.crypto) && AllAgreeable(fs)
    requires ClockedBy(acts, now) && now + MAX_FUTURE_DRIFT_SECS + |acts| < TWO_63
    ensures var t := Run(cfg, locked, acts).t;
      && SqlPages(t, fs) == MatchPages(t.events, fs)
      && DistinctIds(Query(t, fs))
      && (forall e :: e in Query(t, fs) <==> exists f :: f in fs && e in MatchPage(t.events, f))
      && (LimitsNotHit(t.events, fs) ==> forall e :: e in Query(t, fs) <==> Holding(t, e) && MatchesAny(fs, e))
  {
    hide Run, Inv, Query, SqlPages, MatchPages, MatchPage, AllAgreeable, MatchesAny, LimitsNotHit;
    var t := Run(cfg, locked, acts).t;
    RunSatisfiesInv(cfg, locked, acts);
    TimesStayBounded(cfg, locked, acts, now);
    assert IndexExact(t) by { InvIsExact(cfg, t); }
    QueryRefinesMatching(t, fs);
    QueryIsTheUnion(t, fs);
  }

  lemma InvIsExact(cfg: Config, t: Tables)
    requires Inv(cfg, t)
    ensures IndexExact(t)
  {
  }
}
