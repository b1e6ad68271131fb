/** A client that comes back: what it held at one state of a run, merged with the answer it gets at a
    later one, is the channel. */
module Resuming {
  import opened Text
  import opened Nostr
  import opened Tables
  import opened Querying
  import opened Protocol
  import opened Invariants
  import opened Runs
  import opened Replay
  import opened Publication
  import opened Reachable
  import opened Cache

  // ---- a stored message stays as it is until its channel is deleted ----

  predicate Gone(t: Tables, e: Event) {
    FirstTag(e.tags, "h").Some? && FirstTag(e.tags, "h").value in t.retired
  }

  lemma AnnounceKeepsWhole(t: Tables, authed: Option<string>, x: Event, extra: seq<Event>, e: Event)
    requires Holding(t, e) && IsOrdinary(e.kind)
    ensures Holding(Announce(t, authed, x, extra).t, e)
  {
    InsertKeepsOrdinary(t, x, e.id);
    InsertAllKeepsOrdinary(t, extra, e.id);
    if Insert(t, x).1 == Stored { InsertAllKeepsOrdinary(Insert(t, x).0, extra, e.id); }
  }

  lemma HandleKeepsWhole(cfg: Config, t: Tables, locked: bool, s: Session, x: Event, c: Clock, e: Event)
    requires Trustworthy(cfg.crypto) && Inv(cfg, t) && Potent(cfg, e) && Holding(t, e)
    ensures var u := HandleEvent(cfg, t, locked, s, x, c).t; Holding(u, e) || Gone(u, e)
  {
    hide Decide, Gate, Announce, Inv, Trustworthy;
    if cfg.crypto.verify(x) && x.kind != CLIENT_AUTH && x.kind != INVITE_REDEEM
       && Gate(cfg, t, s.authed, x, c).None? && Decide(cfg, t, x, c).Granted? {
      var v := Decide(cfg, t, x, c);
      DecideKeepsSpent(cfg, t, x, c, e);
      DecideOnlyRemoves(cfg, t, x, c);
      if e.id in v.t.events {
        AnnounceKeepsWhole(v.t, s.authed, x, v.extra, e);
      } else {
        AnnounceKeepsGroups(v.t, s.authed, x, v.extra);
      }
    }
  }

  lemma StepKeepsWhole(cfg: Config, s: System, a: Action, e: Event)
    requires Trustworthy(cfg.crypto) && Inv(cfg, s.t) && Potent(cfg, e) && (Holding(s.t, e) || Gone(s.t, e))
    ensures Holding(Step(cfg, s, a).t, e) || Gone(Step(cfg, s, a).t, e)
  {
    hide HandleEvent, Potent, Inv, Step;
    StepTables(cfg, s, a);
    StepKeepsRetired(cfg, s, a);
    if Submits(s, a) && Holding(s.t, e) {
      HandleKeepsWhole(cfg, s.t, s.locked, s.conns[a.conn], a.m.ev, a.c, e);
    }
  }

  lemma {:induction false} WholeOrGone(cfg: Config, locked: bool, acts: seq<Action>, i: nat, j: nat, e: Event)
    requires Trustworthy(cfg.crypto) && i <= j <= |acts| && Potent(cfg, e) && Holding(At(cfg, locked, acts, i).t, e)
    ensures Holding(At(cfg, locked, acts, j).t, e) || Gone(At(cfg, locked, acts, j).t, e)
    decreases j
  {
    hide Step, Potent, Inv, Holding, Gone;
    if i < j {
      WholeOrGone(cfg, locked, acts, i, j - 1, e);
      AtNext(cfg, locked, acts, j - 1);
      RunSatisfiesInv(cfg, locked, acts[..j - 1]);
      StepKeepsWhole(cfg, At(cfg, locked, acts, j - 1), acts[j - 1], e);
    }
  }

  lemma ChatIsPotent(cfg: Config, t: Tables, id: string, e: Event)
    requires Inv(cfg, t) && IsChannelChat(t, id, e)
    ensures Potent(cfg, e) && Holding(t, e) && FirstTag(e.tags, "h") == Some(id) && id in t.groups && id !in t.retired
  {
    assert EventOk(cfg, t, e);
    FirstTagIsIndexed(e.tags, "h");
  }

  /** Two messages of a channel with one id, at two states of a run, are one message. */
  lemma SameChat(cfg: Config, locked: bool, acts: seq<Action>, i: nat, j: nat, id: string, e: Event, x: Event)
    requires Trustworthy(cfg.crypto) && i <= j <= |acts| && e.id == x.id
    requires IsChannelChat(At(cfg, locked, acts, i).t, id, e) && IsChannelChat(At(cfg, locked, acts, j).t, id, x)
    ensures e == x
  {
    hide Inv, Potent;
    RunSatisfiesInv(cfg, locked, acts[..i]);
    RunSatisfiesInv(cfg, locked, acts[..j]);
    ChatIsPotent(cfg, At(cfg, locked, acts, i).t, id, e);
    ChatIsPotent(cfg, At(cfg, locked, acts, j).t, id, x);
    WholeOrGone(cfg, locked, acts, i, j, e);
  }

  // ---- resuming ----

  /** The list holds messages of the channel only. */
  ghost predicate OfChannel(t: Tables, id: string, list: seq<Event>) {
    forall e :: e in list ==> IsChannelChat(t, id, e)
  }

  /** The list holds every message of the channel from `lo` to its own newest. */
  ghost predicate CompleteSince(t: Tables, id: string, list: seq<Event>, lo: nat)
    requires list != []
  {
    forall e :: IsChannelChat(t, id, e) && lo <= e.createdAt <= list[|list| - 1].createdAt ==> e in list
  }

  /** At most 200 messages of the channel are in the window the client asks for. */
  ghost predicate WindowFits(t: Tables, id: string, cached: seq<Event>) {
    |Passing(t.events, (x: Event) => Matches(ChannelFilter(id, cached), x))| <= 200
  }

  lemma ReachableFits(cfg: Config, locked: bool, acts: seq<Action>, k: nat, now: nat)
    requires Trustworthy(cfg.crypto) && k <= |acts|
    requires ClockedBy(acts, now) && now + MAX_FUTURE_DRIFT_SECS + |acts| < TWO_63
    ensures IndexExact(At(cfg, locked, acts, k).t) && TimesFit(At(cfg, locked, acts, k).t)
  {
    hide Run, Inv;
    assert ClockedBy(acts[..k], now);
    RunSatisfiesInv(cfg, locked, acts[..k]);
    InvIsExact(cfg, At(cfg, locked, acts, k).t);
    TimesStayBounded(cfg, locked, acts[..k], now);
  }

  lemma OneEventEach(cfg: Config, locked: bool, acts: seq<Action>, i: nat, j: nat, id: string, cached: seq<Event>,
                     answer: seq<Event>)
    requires Trustworthy(cfg.crypto) && i <= j <= |acts|
    requires OfChannel(At(cfg, locked, acts, i).t, id, cached) && OfChannel(At(cfg, locked, acts, j).t, id, answer)
    ensures OneEventPerId(cached + answer)
  {
    hide At, IsChannelChat;
    var t, u := At(cfg, locked, acts, i).t, At(cfg, locked, acts, j).t;
    forall e, x | e in cached + answer && x in cached + answer && e.id == x.id ensures e == x {
      if e in cached && x in cached {
        SameChat(cfg, locked, acts, i, i, id, e, x);
      } else if e in cached {
        SameChat(cfg, locked, acts, i, j, id, e, x);
      } else if x in cached {
        SameChat(cfg, locked, acts, i, j, id, x, e);
      } else {
        SameChat(cfg, locked, acts, j, j, id, e, x);
      }
    }
  }

  /** Resume over a run. A client leaves with a list of the channel's messages, complete from `lo` on,
      at one state; whatever the relay stores until a later state is no older than a minute before the
      client's newest, and at most 200 messages are that new. Then merging the answer it gets leaves it
      with every message the channel then has from `lo` on, each once and in order, and with nothing that
      was not in the channel when it left or is now. */
  lemma ResumeOverRun(cfg: Config, locked: bool, acts: seq<Action>, i: nat, j: nat, now: nat,
                      id: string, cached: seq<Event>, lo: nat)
    requires Trustworthy(cfg.crypto) && i <= j <= |acts|
    requires ClockedBy(acts, now) && now + MAX_FUTURE_DRIFT_SECS + |acts| < TWO_63
    requires cached != [] && OfChannel(At(cfg, locked, acts, i).t, id, cached)
    requires CompleteSince(At(cfg, locked, acts, i).t, id, cached, lo)
    requires forall e :: Later(At(cfg, locked, acts, i).t, At(cfg, locked, acts, j).t, id, e) ==>
               e.createdAt + 60 >= cached[|cached| - 1].createdAt
    requires WindowFits(At(cfg, locked, acts, j).t, id, cached)
    ensures var t, u := At(cfg, locked, acts, i).t, At(cfg, locked, acts, j).t;
      var list := Merged(cached, Query(u, [ChannelFilter(id, cached)]));
      && IsTimeline(list)
      && (forall e :: IsChannelChat(u, id, e) && e.createdAt >= lo ==> e in list)
      && (forall e :: e in list ==> IsChannelChat(t, id, e) || IsChannelChat(u, id, e))
  {
    hide At, Query, Merged, ChannelFilter, IsTimeline, IndexExact, Trustworthy;
    var t, u := At(cfg, locked, acts, i).t, At(cfg, locked, acts, j).t;
    var answer, newest := Query(u, [ChannelFilter(id, cached)]), cached[|cached| - 1];
    ReachableFits(cfg, locked, acts, i, now);
    ReachableFits(cfg, locked, acts, j, now);
    assert newest in cached && IsChannelChat(t, id, newest);
    forall e | e in answer ensures IsChannelChat(u, id, e) { AnswerIsExact(u, id, cached, e); }
    OneEventEach(cfg, locked, acts, i, j, id, cached, answer);
    ResumeIsComplete(t, u, id, cached, lo);
  }
}
