/** Invites and admission: every successful redemption is accounted for, and on a closed relay nobody
    writes who was not let in. */
module Admission {
  import opened Text
  import opened Nostr
  import opened Tables
  import opened Protocol
  import opened Runs
  import opened Publication

  /** The action is a successful redemption of the code by the pubkey. */
  ghost predicate Redeems(cfg: Config, s: System, a: Action, code: string, pk: string) {
    && Submits(s, a) && cfg.crypto.verify(a.m.ev) && a.m.ev.kind == INVITE_REDEEM
    && a.m.ev.pubkey == pk && Trim(a.m.ev.content) == code
    && HandleInvite(cfg, s.t, s.locked, s.conns[a.conn].authed, a.m.ev, a.c).note == InviteAccepted
  }

  // ---- conservation ----

  ghost function RunFrom(cfg: Config, s: System, acts: seq<Action>): System
    decreases |acts|
  {
    if acts == [] then s else Step(cfg, RunFrom(cfg, s, acts[..|acts| - 1]), acts[|acts| - 1])
  }

  /** How many of the actions redeem the code. */
  ghost function Redemptions(cfg: Config, s: System, acts: seq<Action>, code: string): nat
    decreases |acts|
  {
    if acts == [] then 0
    else
      var front, last := acts[..|acts| - 1], acts[|acts| - 1];
      Redemptions(cfg, s, front, code)
      + if exists pk :: Redeems(cfg, RunFrom(cfg, s, front), last, code, pk) then 1 else 0
  }

  ghost predicate Revokes(a: Action, code: string) {
    a == RevokeInvite(code) || a == RevokeAllInvites
  }

  /** A success happens only with the door open, before expiry, with a use left, and takes one. */
  lemma RedemptionTakesOne(cfg: Config, s: System, a: Action, code: string, pk: string)
    requires Redeems(cfg, s, a, code, pk)
    ensures !s.locked && code in s.t.invites && AbsDiff(a.m.ev.createdAt, a.c.check) <= AUTH_FRESHNESS_SECS
    ensures s.t.invites[code].expiresAt.Some? ==> a.c.row(0) <= s.t.invites[code].expiresAt.value
    ensures s.t.invites[code].uses < s.t.invites[code].maxUses
    ensures var i := s.t.invites[code];
      Step(cfg, s, a).t.invites == s.t.invites[code := i.(uses := i.uses + 1)]
    ensures pk in Step(cfg, s, a).t.whitelist
  {
    StepTables(cfg, s, a);
  }

  lemma AnnounceKeepsDoor(t: Tables, authed: Option<string>, ev: Event, extra: seq<Event>)
    ensures var u := Announce(t, authed, ev, extra).t; u.invites == t.invites && u.whitelist == t.whitelist
  {
    InsertAllKeepsGroups(Insert(t, ev).0, extra);
    InsertAllKeepsGroups(t, extra);
  }

  lemma HandlingKeepsDoor(cfg: Config, t: Tables, locked: bool, s: Session, ev: Event, c: Clock)
    requires ev.kind != INVITE_REDEEM
    ensures var u := HandleEvent(cfg, t, locked, s, ev, c).t; u.invites == t.invites && u.whitelist == t.whitelist
  {
    hide Decide, Gate, Announce;
    if cfg.crypto.verify(ev) && Gate(cfg, t, s.authed, ev, c).None? && Decide(cfg, t, ev, c).Granted? {
      var v := Decide(cfg, t, ev, c);
      DecisionFrame(cfg, t, ev, c);
      AnnounceKeepsDoor(v.t, s.authed, ev, v.extra);
    }
  }

  /** Any other action leaves an invite that is not revoked as it is. */
  lemma OtherActionsKeepInvite(cfg: Config, s: System, a: Action, code: string)
    requires code in s.t.invites && !Revokes(a, code)
    requires !exists pk :: Redeems(cfg, s, a, code, pk)
    ensures code in Step(cfg, s, a).t.invites && Step(cfg, s, a).t.invites[code] == s.t.invites[code]
  {
    StepTables(cfg, s, a);
    if Submits(s, a) {
      if a.m.ev.kind == INVITE_REDEEM {
        assert !Redeems(cfg, s, a, code, a.m.ev.pubkey);
      } else {
        HandlingKeepsDoor(cfg, s.t, s.locked, s.conns[a.conn], a.m.ev, a.c);
      }
    }
  }

  lemma {:induction false} UsesCountRedemptions(cfg: Config, s: System, acts: seq<Action>, code: string)
    requires code in s.t.invites && s.t.invites[code].uses <= s.t.invites[code].maxUses
    requires forall a :: a in acts ==> !Revokes(a, code)
    ensures var i := s.t.invites[code]; var t := RunFrom(cfg, s, acts).t;
      && code in t.invites
      && t.invites[code] == i.(uses := i.uses + Redemptions(cfg, s, acts, code))
      && t.invites[code].uses <= i.maxUses
    decreases |acts|
  {
    if acts != [] {
      var front, last := acts[..|acts| - 1], acts[|acts| - 1];
      UsesCountRedemptions(cfg, s, front, code);
      var u := RunFrom(cfg, s, front);
      if pk :| Redeems(cfg, u, last, code, pk) {
        RedemptionTakesOne(cfg, u, last, code, pk);
      } else {
        OtherActionsKeepInvite(cfg, u, last, code);
      }
    }
  }

  /** Conservation: from the creation of an invite on, as long as it is not revoked, its `uses` are
      exactly the successful redemptions of its code, and never more than `max_uses`. */
  lemma InviteConservation(cfg: Config, s: System, code: string, maxUses: nat, expiresAt: Option<nat>, now: nat,
                           acts: seq<Action>)
    requires code !in s.t.invites && forall a :: a in acts ==> !Revokes(a, code)
    ensures var s' := Step(cfg, s, CreateInvite(code, maxUses, expiresAt, now));
      var t := RunFrom(cfg, s', acts).t;
      && code in t.invites && t.invites[code] == Invite(now, expiresAt, maxUses, Redemptions(cfg, s', acts, code))
      && Redemptions(cfg, s', acts, code) <= maxUses
  {
    UsesCountRedemptions(cfg, Step(cfg, s, CreateInvite(code, maxUses, expiresAt, now)), acts, code);
  }

  // ---- redemptions are not protected against replay ----

  /** The same redemption event, handed in again at any later time over any connection, succeeds again
      exactly when a fresh event would: unlike every stored kind, its id is remembered nowhere. */
  lemma ReplayRedeemsIff(cfg: Config, s: System, a: Action, later: System, b: Action, code: string, pk: string)
    requires Redeems(cfg, s, a, code, pk) && b.Say? && b.m == a.m
    ensures Redeems(cfg, later, b, code, pk) <==>
              && b.conn in later.conns && !later.locked
              && AbsDiff(a.m.ev.createdAt, b.c.check) <= AUTH_FRESHNESS_SECS
              && code in later.t.invites
              && var i := later.t.invites[code];
                 (i.expiresAt.Some? ==> b.c.row(0) <= i.expiresAt.value) && i.uses < i.maxUses
  {
  }

  /** After any actions in between that do not revoke the invite, the replay takes another use exactly
      when its connection is open, the door is not locked, the event is still fresh, the invite has not
      expired, and the redemptions so far leave a use. */
  lemma SecondRedemptionIff(cfg: Config, s: System, a: Action, between: seq<Action>, b: Action, code: string,
                            pk: string)
    requires Redeems(cfg, s, a, code, pk) && b.Say? && b.m == a.m
    requires forall x :: x in between ==> !Revokes(x, code)
    ensures var s1 := Step(cfg, s, a); var s2 := RunFrom(cfg, s1, between); var i := s.t.invites[code];
      Redeems(cfg, s2, b, code, pk) <==>
        && b.conn in s2.conns && !s2.locked
        && AbsDiff(a.m.ev.createdAt, b.c.check) <= AUTH_FRESHNESS_SECS
        && (i.expiresAt.Some? ==> b.c.row(0) <= i.expiresAt.value)
        && i.uses + 1 + Redemptions(cfg, s1, between, code) < i.maxUses
  {
    hide Redeems, Step;
    RedemptionTakesOne(cfg, s, a, code, pk);
    UsesCountRedemptions(cfg, Step(cfg, s, a), between, code);
    ReplayRedeemsIff(cfg, s, a, RunFrom(cfg, Step(cfg, s, a), between), b, code, pk);
  }

  /** Where it does, it also undoes a removal: the pubkey the operator took off the whitelist in
      between is back on it, and back on the connection. */
  lemma ReplayUndoesRemoval(cfg: Config, s: System, a: Action, between: seq<Action>, b: Action, code: string,
                            pk: string)
    requires Redeems(cfg, s, a, code, pk) && b.Say? && b.m == a.m
    requires Redeems(cfg, RunFrom(cfg, Step(cfg, s, a), between + [RemoveFromWhitelist(pk)]), b, code, pk)
    ensures var banned := RunFrom(cfg, Step(cfg, s, a), between + [RemoveFromWhitelist(pk)]);
      && pk !in banned.t.whitelist
      && pk in Step(cfg, banned, b).t.whitelist && Step(cfg, banned, b).conns[b.conn].authed == Some(pk)
  {
    hide Redemptions;
    var ban := RemoveFromWhitelist(pk);
    var s1 := Step(cfg, s, a);
    assert (between + [ban])[..|between|] == between;
    assert RunFrom(cfg, s1, between + [ban]) == Step(cfg, RunFrom(cfg, s1, between), ban);
    RedemptionTakesOne(cfg, RunFrom(cfg, s1, between + [ban]), b, code, pk);
  }

  // ---- admission ----

  /** By the `k`th state the pubkey had been let in: as the operator, by the operator, or by a
      successful redemption of its own. */
  ghost predicate LetIn(cfg: Config, locked: bool, acts: seq<Action>, k: nat, pk: string)
    requires k <= |acts|
  {
    || cfg.operator == Some(pk)
    || (exists i :: 0 <= i < k && AdmittedBy(cfg, locked, acts, i, pk))
  }

  ghost predicate AdmittedBy(cfg: Config, locked: bool, acts: seq<Action>, i: nat, pk: string)
    requires i < |acts|
  {
    acts[i] == AddToWhitelist(pk) || exists code :: Redeems(cfg, At(cfg, locked, acts, i), acts[i], code, pk)
  }

  /** A step adds a pubkey to the whitelist only on the operator's word or by a redemption. */
  lemma WhitelistStep(cfg: Config, s: System, a: Action, pk: string)
    requires pk in Step(cfg, s, a).t.whitelist && pk !in s.t.whitelist
    ensures a == AddToWhitelist(pk) || cfg.operator == Some(pk) || exists code :: Redeems(cfg, s, a, code, pk)
  {
    StepTables(cfg, s, a);
    if Submits(s, a) {
      if a.m.ev.kind == INVITE_REDEEM {
        assert Redeems(cfg, s, a, Trim(a.m.ev.content), pk);
      } else {
        HandlingKeepsDoor(cfg, s.t, s.locked, s.conns[a.conn], a.m.ev, a.c);
      }
    }
  }

  lemma {:induction false} WhitelistedWasLetIn(cfg: Config, locked: bool, acts: seq<Action>, k: nat, pk: string)
    requires k <= |acts| && pk in At(cfg, locked, acts, k).t.whitelist
    ensures LetIn(cfg, locked, acts, k, pk)
    decreases k
  {
    if k > 0 {
      AtNext(cfg, locked, acts, k - 1);
      if pk in At(cfg, locked, acts, k - 1).t.whitelist {
        WhitelistedWasLetIn(cfg, locked, acts, k - 1, pk);
      } else {
        WhitelistStep(cfg, At(cfg, locked, acts, k - 1), acts[k - 1], pk);
        assert cfg.operator == Some(pk) || AdmittedBy(cfg, locked, acts, k - 1, pk);
      }
    }
  }

  /** A connection gets an identity only from a verified event of it, if it is allowed or redeems. */
  lemma IdentityStep(cfg: Config, s: System, a: Action, n: nat, pk: string)
    requires n in Step(cfg, s, a).conns && Step(cfg, s, a).conns[n].authed == Some(pk)
    requires !(n in s.conns && s.conns[n].authed == Some(pk))
    ensures IsAllowed(cfg, s.t, pk) || exists code :: Redeems(cfg, s, a, code, pk)
  {
    assert a.Say? && a.conn == n && n in s.conns;
    if a.m.EventMsg? && a.m.ev.kind == INVITE_REDEEM {
      assert Submits(s, a);
      assert Redeems(cfg, s, a, Trim(a.m.ev.content), pk);
    }
  }

  lemma {:induction false} IdentityWasLetIn(cfg: Config, locked: bool, acts: seq<Action>, k: nat, n: nat, pk: string)
    requires !cfg.open && k <= |acts|
    requires n in At(cfg, locked, acts, k).conns && At(cfg, locked, acts, k).conns[n].authed == Some(pk)
    ensures LetIn(cfg, locked, acts, k, pk)
    decreases k
  {
    assert k > 0;
    AtNext(cfg, locked, acts, k - 1);
    var s := At(cfg, locked, acts, k - 1);
    if n in s.conns && s.conns[n].authed == Some(pk) {
      IdentityWasLetIn(cfg, locked, acts, k - 1, n, pk);
    } else {
      IdentityStep(cfg, s, acts[k - 1], n, pk);
      if IsAllowed(cfg, s.t, pk) {
        if pk in s.t.whitelist { WhitelistedWasLetIn(cfg, locked, acts, k - 1, pk); }
      } else {
        assert AdmittedBy(cfg, locked, acts, k - 1, pk);
      }
    }
  }

  /** A stored event passed the gate under its author's own identity. */
  lemma AcceptedWasAuthed(cfg: Config, s: System, a: Action, e: Event)
    requires !cfg.open && a.Say? && a.m == EventMsg(e) && a.conn in s.conns
    requires e.id !in s.t.events && e.id in Step(cfg, s, a).t.events
    ensures s.conns[a.conn].authed == Some(e.pubkey)
  {
    StepTables(cfg, s, a);
  }

  /** On a closed relay the author of every stored client event had been let in before it was stored. */
  lemma AuthorsWereLetIn(cfg: Config, locked: bool, acts: seq<Action>, k: nat, id: string)
    requires Trustworthy(cfg.crypto) && !cfg.open && k <= |acts|
    requires id in At(cfg, locked, acts, k).t.events && !IsMetaKind(At(cfg, locked, acts, k).t.events[id].kind)
    ensures exists i :: 0 <= i < k && Accepts(cfg, locked, acts, i, At(cfg, locked, acts, k).t.events[id])
              && LetIn(cfg, locked, acts, i, At(cfg, locked, acts, k).t.events[id].pubkey)
  {
    var e := At(cfg, locked, acts, k).t.events[id];
    var i := StoredHasOrigin(cfg, locked, acts, k, id);
    AtNext(cfg, locked, acts, i);
    AcceptedWasAuthed(cfg, At(cfg, locked, acts, i), acts[i], e);
    IdentityWasLetIn(cfg, locked, acts, i, acts[i].conn, e.pubkey);
  }
}
