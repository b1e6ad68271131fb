/** Where channel authority comes from: in every run each channel admin has a finite chain of grants,
    each made by someone who was admin just before it, back to the channel's creator or to the
    operator. */
module Authority {
  import opened Text
  import opened Nostr
  import opened Tables
  import opened Protocol
  import opened Runs

  /** The event names the pubkey as a new admin in one of its `p` tags. */
  ghost predicate NamesAdmin(tags: seq<Tag>, pk: string) {
    exists tag :: tag in tags && |tag| > 2 && tag[0] == "p" && tag[1] == pk && tag[2] == "admin"
  }

  /** A create-group event of the pubkey's, for a channel that is not live. */
  ghost predicate Creates(cfg: Config, s: System, a: Action, g: string, pk: string) {
    && a.Say? && a.m.EventMsg? && cfg.crypto.verify(a.m.ev)
    && a.m.ev.kind == CREATE_GROUP && FirstTag(a.m.ev.tags, "h") == Some(g) && a.m.ev.pubkey == pk
    && g !in s.t.groups
  }

  /** A put-user event for the channel, signed by `granter`, that makes the pubkey an admin. */
  ghost predicate Grants(cfg: Config, a: Action, g: string, pk: string, granter: string) {
    && a.Say? && a.m.EventMsg? && cfg.crypto.verify(a.m.ev)
    && a.m.ev.kind == PUT_USER && FirstTag(a.m.ev.tags, "h") == Some(g) && a.m.ev.pubkey == granter
    && NamesAdmin(a.m.ev.tags, pk)
  }

  lemma {:induction false} PutUsersMakesNamedAdmins(t: Tables, g: string, tags: seq<Tag>, now: nat -> nat, x: string,
                                                    pk: string)
    requires IsGroupAdmin(PutUsers(t, g, tags, now), x, pk) && !IsGroupAdmin(t, x, pk)
    ensures x == g && NamesAdmin(tags, pk)
    decreases |tags|
  {
    var front, last := tags[..|tags| - 1], tags[|tags| - 1];
    if IsGroupAdmin(PutUsers(t, g, front, now), x, pk) {
      PutUsersMakesNamedAdmins(t, g, front, now, x, pk);
      var tag :| tag in front && |tag| > 2 && tag[0] == "p" && tag[1] == pk && tag[2] == "admin";
      assert tag in tags;
    } else {
      assert last in tags;
    }
  }

  /** A decision makes someone admin only by creating the channel or by an admin's put-user. */
  lemma NewAdminInDecision(cfg: Config, t: Tables, ev: Event, c: Clock, g: string, pk: string)
    requires Decide(cfg, t, ev, c).Granted?
    requires IsGroupAdmin(Decide(cfg, t, ev, c).t, g, pk) && !IsGroupAdmin(t, g, pk)
    ensures FirstTag(ev.tags, "h") == Some(g)
    ensures || (ev.kind == CREATE_GROUP && ev.pubkey == pk && g !in t.groups)
            || (ev.kind == PUT_USER && NamesAdmin(ev.tags, pk) && IsAdmin(cfg, t, g, ev.pubkey))
  {
    hide MetaEvents, PutUsers, RemoveUsers, NormalizeKind, ReplyParent, ValidGroupId, NamesAdmin;
    var h := FirstTag(ev.tags, "h").value;
    if ev.kind == PUT_USER {
      PutUsersMakesNamedAdmins(t, h, ev.tags, c.row, g, pk);
    } else if ev.kind == REMOVE_USER {
      RemoveUsersStayInChannel(t, h, TagValues(ev.tags, "p"));
    }
  }

  lemma NewAdminInStep(cfg: Config, s: System, a: Action, g: string, pk: string)
    requires IsGroupAdmin(Step(cfg, s, a).t, g, pk) && !IsGroupAdmin(s.t, g, pk)
    ensures || Creates(cfg, s, a, g, pk)
            || (exists granter :: Grants(cfg, a, g, pk, granter) && IsAdmin(cfg, s.t, g, granter))
  {
    var ev, c, ctx := a.m.ev, a.c, s.conns[a.conn];
    GroupsOfOutcome(cfg, s.t, s.locked, ctx, ev, c);
    NewAdminInDecision(cfg, s.t, ev, c, g, pk);
    if ev.kind == PUT_USER { assert Grants(cfg, a, g, pk, ev.pubkey); }
  }

  // ---- chains ----

  /** Someone who became admin, and the step at which it happened. */
  datatype Link = Link(step: nat, holder: string)

  /** That step is where the holder became admin. */
  ghost predicate Promotes(cfg: Config, locked: bool, acts: seq<Action>, g: string, link: Link) {
    && link.step < |acts|
    && !IsGroupAdmin(At(cfg, locked, acts, link.step).t, g, link.holder)
    && IsGroupAdmin(At(cfg, locked, acts, link.step + 1).t, g, link.holder)
  }

  /** `next` made `link`'s holder an admin, being admin just before, and was made one earlier. */
  ghost predicate Follows(cfg: Config, locked: bool, acts: seq<Action>, g: string, link: Link, next: Link) {
    && next.step < link.step < |acts|
    && Grants(cfg, acts[link.step], g, link.holder, next.holder)
    && IsGroupAdmin(At(cfg, locked, acts, link.step).t, g, next.holder)
  }

  /** The channel's creator, or someone the operator made admin. */
  ghost predicate Anchors(cfg: Config, locked: bool, acts: seq<Action>, g: string, link: Link) {
    && link.step < |acts|
    && (|| Creates(cfg, At(cfg, locked, acts, link.step), acts[link.step], g, link.holder)
        || (cfg.operator.Some? && Grants(cfg, acts[link.step], g, link.holder, cfg.operator.value)))
  }

  ghost predicate IsChain(cfg: Config, locked: bool, acts: seq<Action>, g: string, chain: seq<Link>) {
    && chain != []
    && (forall i :: 0 <= i < |chain| ==> Promotes(cfg, locked, acts, g, chain[i]))
    && (forall i :: 0 <= i < |chain| - 1 ==> Follows(cfg, locked, acts, g, chain[i], chain[i + 1]))
    && Anchors(cfg, locked, acts, g, chain[|chain| - 1])
  }

  /** Nobody is an admin at the start, so whoever is one became it at some step. */
  lemma {:induction false} PromotionExists(cfg: Config, locked: bool, acts: seq<Action>, k: nat, g: string, pk: string)
    returns (link: Link)
    requires k <= |acts| && IsGroupAdmin(At(cfg, locked, acts, k).t, g, pk)
    ensures link.step < k && link.holder == pk && Promotes(cfg, locked, acts, g, link)
    decreases k
  {
    hide Step;
    assert k > 0;
    if IsGroupAdmin(At(cfg, locked, acts, k - 1).t, g, pk) {
      link := PromotionExists(cfg, locked, acts, k - 1, g, pk);
    } else {
      link := Link(k - 1, pk);
    }
  }

  /** A promotion is anchored, or made by someone who was promoted earlier. */
  lemma PromotionHasGranter(cfg: Config, locked: bool, acts: seq<Action>, g: string, link: Link)
    returns (granter: Option<string>)
    requires Promotes(cfg, locked, acts, g, link)
    ensures granter.None? ==> Anchors(cfg, locked, acts, g, link)
    ensures granter.Some? ==> Grants(cfg, acts[link.step], g, link.holder, granter.value)
                              && IsGroupAdmin(At(cfg, locked, acts, link.step).t, g, granter.value)
  {
    hide Step, Creates, Grants;
    var s := At(cfg, locked, acts, link.step);
    AtNext(cfg, locked, acts, link.step);
    NewAdminInStep(cfg, s, acts[link.step], g, link.holder);
    if Creates(cfg, s, acts[link.step], g, link.holder) {
      granter := None;
    } else {
      var who :| Grants(cfg, acts[link.step], g, link.holder, who) && IsAdmin(cfg, s.t, g, who);
      granter := if cfg.operator == Some(who) then None else Some(who);
    }
  }

  /** Authority chain: whoever is admin of a channel at some point of a run holds it by a chain of
      strictly earlier and earlier steps. */
  lemma {:induction false} AdminHasChain(cfg: Config, locked: bool, acts: seq<Action>, k: nat, g: string, pk: string)
    returns (chain: seq<Link>)
    requires k <= |acts| && IsGroupAdmin(At(cfg, locked, acts, k).t, g, pk)
    ensures IsChain(cfg, locked, acts, g, chain) && chain[0].holder == pk && chain[0].step < k
    decreases k
  {
    hide IsGroupAdmin, Promotes, Grants, Anchors;
    var link := PromotionExists(cfg, locked, acts, k, g, pk);
    var granter := PromotionHasGranter(cfg, locked, acts, g, link);
    chain := [link];
    if granter.Some? {
      var tail := AdminHasChain(cfg, locked, acts, link.step, g, granter.value);
      chain := chain + tail;
      assert Follows(cfg, locked, acts, g, chain[0], chain[1]);
    }
  }

  /** In every run each (channel, admin) pair has such a chain. */
  lemma EveryAdminHasChain(cfg: Config, locked: bool, acts: seq<Action>, g: string, pk: string)
    requires IsGroupAdmin(Run(cfg, locked, acts).t, g, pk)
    ensures exists chain: seq<Link> :: IsChain(cfg, locked, acts, g, chain) && chain[0].holder == pk
  {
    assert acts[..|acts|] == acts;
    var chain := AdminHasChain(cfg, locked, acts, |acts|, g, pk);
  }

  // ---- the creator ----

  lemma DecisionKeepsCreator(cfg: Config, t: Tables, ev: Event, c: Clock, g: string)
    requires g in t.groups && Decide(cfg, t, ev, c).Granted?
    ensures var u := Decide(cfg, t, ev, c).t;
      if g in u.groups then u.groups[g].createdBy == t.groups[g].createdBy else g in u.retired
  {
    hide Moderate, MetaEvents, Purge, Listing;
    var h := FirstTag(ev.tags, "h");
    if ev.kind == CHAT || ev.kind == JOIN_REQUEST {
      assert Decide(cfg, t, ev, c) == Enroll(cfg, t, h.value, ev.pubkey, c);
    } else if ev.kind == DELETE_GROUP {
      DecisionFrame(cfg, t, ev, c);
      PurgeKeepsGroups(GroupDelete(t, h.value), h.value);
    } else if IsModeration(ev.kind) {
      ModerateStaysInChannel(t, ev, h.value, c.row);
    }
  }

  lemma PurgeKeepsGroups(t: Tables, g: string)
    ensures Purge(t, g).groups == t.groups && Purge(t, g).members == t.members && Purge(t, g).retired == t.retired
  {
  }

  lemma StepKeepsCreator(cfg: Config, s: System, a: Action, g: string)
    requires g in s.t.groups
    ensures g in Step(cfg, s, a).t.groups ==> Step(cfg, s, a).t.groups[g].createdBy == s.t.groups[g].createdBy
    ensures g !in Step(cfg, s, a).t.groups ==> g in Step(cfg, s, a).t.retired
  {
    if a.Say? && a.conn in s.conns && a.m.EventMsg? {
      var ev, c, ctx := a.m.ev, a.c, s.conns[a.conn];
      GroupsOfOutcome(cfg, s.t, s.locked, ctx, ev, c);
      if Decide(cfg, s.t, ev, c).Granted? { DecisionKeepsCreator(cfg, s.t, ev, c, g); }
    }
  }

  /** A live channel has the creator it had when it was created. */
  lemma {:induction false} CreatorIsKept(cfg: Config, locked: bool, acts: seq<Action>, i: nat, k: nat, g: string)
    requires Trustworthy(cfg.crypto) && i <= k <= |acts|
    requires g in At(cfg, locked, acts, i).t.groups && g in At(cfg, locked, acts, k).t.groups
    ensures At(cfg, locked, acts, k).t.groups[g].createdBy == At(cfg, locked, acts, i).t.groups[g].createdBy
    decreases k - i
  {
    if i < k {
      AtNext(cfg, locked, acts, i);
      StepKeepsCreator(cfg, At(cfg, locked, acts, i), acts[i], g);
      if g !in At(cfg, locked, acts, i + 1).t.groups {
        DeletedStaysDead(cfg, locked, acts, i + 1, k, g);
      }
      CreatorIsKept(cfg, locked, acts, i + 1, k, g);
    }
  }

  /** Promoted by creating the channel: recorded as its creator there and then. */
  lemma PromotedCreatorIsRecorded(cfg: Config, s: System, a: Action, g: string, pk: string)
    requires Creates(cfg, s, a, g, pk)
    requires IsGroupAdmin(Step(cfg, s, a).t, g, pk) && !IsGroupAdmin(s.t, g, pk)
    ensures g in Step(cfg, s, a).t.groups && Step(cfg, s, a).t.groups[g].createdBy == pk
  {
    GroupsOfOutcome(cfg, s.t, s.locked, s.conns[a.conn], a.m.ev, a.c);
  }

  /** Where a chain ends in a creation, it ends in the creator the channel still has on record. */
  lemma ChainEndsInCreator(cfg: Config, locked: bool, acts: seq<Action>, g: string, link: Link, k: nat)
    requires Trustworthy(cfg.crypto) && Promotes(cfg, locked, acts, g, link) && link.step < k <= |acts|
    requires Creates(cfg, At(cfg, locked, acts, link.step), acts[link.step], g, link.holder)
    requires g in At(cfg, locked, acts, k).t.groups
    ensures At(cfg, locked, acts, k).t.groups[g].createdBy == link.holder
  {
    hide Step, Creates, IsGroupAdmin;
    AtNext(cfg, locked, acts, link.step);
    PromotedCreatorIsRecorded(cfg, At(cfg, locked, acts, link.step), acts[link.step], g, link.holder);
    CreatorIsKept(cfg, locked, acts, link.step + 1, k, g);
  }

  // ---- joining and posting ----

  /** Rows that were there are untouched; a new one is a plain membership of the author's. */
  ghost predicate OnlyEnrolls(t: Tables, u: Tables, ev: Event) {
    && (forall p :: p in t.members ==> p in u.members && u.members[p] == t.members[p])
    && (forall p :: p in u.members && p !in t.members ==>
          u.members[p].role == Plain && p.1 == ev.pubkey && FirstTag(ev.tags, "h") == Some(p.0))
  }

  lemma EnrollOnlyEnrolls(cfg: Config, t: Tables, ev: Event, g: string, c: Clock)
    requires FirstTag(ev.tags, "h") == Some(g)
    ensures OnlyEnrolls(t, Enroll(cfg, t, g, ev.pubkey, c).t, ev)
  {
  }

  lemma DecisionOnlyEnrolls(cfg: Config, t: Tables, ev: Event, c: Clock)
    requires (ev.kind == CHAT || ev.kind == JOIN_REQUEST) && Decide(cfg, t, ev, c).Granted?
    ensures OnlyEnrolls(t, Decide(cfg, t, ev, c).t, ev)
  {
    var g := FirstTag(ev.tags, "h").value;
    assert Decide(cfg, t, ev, c) == Enroll(cfg, t, g, ev.pubkey, c);
    EnrollOnlyEnrolls(cfg, t, ev, g, c);
  }

  /** Joining or posting never alters an existing role, and gives nobody more than membership. */
  lemma JoiningKeepsRoles(cfg: Config, t: Tables, locked: bool, s: Session, ev: Event, c: Clock)
    requires ev.kind == CHAT || ev.kind == JOIN_REQUEST
    ensures OnlyEnrolls(t, HandleEvent(cfg, t, locked, s, ev, c).t, ev)
  {
    GroupsOfOutcome(cfg, t, locked, s, ev, c);
    if Decide(cfg, t, ev, c).Granted? { DecisionOnlyEnrolls(cfg, t, ev, c); }
  }
}
