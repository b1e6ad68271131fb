/** The relay's database as a value: what each SQL statement of crates/menhir-relay/src/db.rs does
    to the tables. Class `Db` is proved to compute exactly these functions. */
module Tables {
  import opened Text
  import opened Ordering
  import opened Nostr

  /** One row of the tag index. The table may hold a row twice; no statement can tell. */
  datatype TagRow = TagRow(eventId: string, name: string, value: string)

  datatype Group = Group(name: string, about: string, kind: string, createdBy: string, createdAt: nat)

  datatype Role = Admin | Moderator | Plain

  datatype Member = Member(role: Role, addedAt: nat)

  datatype Invite = Invite(createdAt: nat, expiresAt: Option<nat>, maxUses: nat, uses: nat)

  datatype Tables = Tables(
    events: map<string, Event>,
    rows: set<TagRow>,
    groups: map<string, Group>,
    members: map<(string, string), Member>,
    retired: set<string>,
    whitelist: set<string>,
    invites: map<string, Invite>)

  const EMPTY: Tables := Tables(map[], {}, map[], map[], {}, {}, map[])

  datatype StoreResult = Stored | Duplicate | Stale

  // ---- inserting events ----

  /** The rows an event contributes: its tags with a one-byte name and a value. */
  function IndexRows(e: Event): set<TagRow> {
    set t | t in e.tags && |t| > 1 && OneByte(t[0]) :: TagRow(e.id, t[0], t[1])
  }

  /** The address an incoming event claims: `first_tag("d").unwrap_or("")`. */
  function DKey(e: Event): string {
    var d := FirstTag(e.tags, "d");
    if d.Some? then d.value else ""
  }

  /** The address the index gives a stored event: one of its `d` rows, or "" when it has none.
      SQLite may pick any row; `SlotReadDetermined` says when that cannot matter. */
  predicate IndexedUnder(rows: set<TagRow>, id: string, d: string) {
    TagRow(id, "d", d) in rows || (d == "" && forall r :: r in rows ==> !(r.eventId == id && r.name == "d"))
  }

  /** Ids of the stored events the incoming one competes with. */
  function Existing(t: Tables, ev: Event): set<string> {
    if IsReplaceable(ev.kind) then
      set id | id in t.events && t.events[id].kind == ev.kind && t.events[id].pubkey == ev.pubkey
    else if IsAddressable(ev.kind) then
      set id | id in t.events && t.events[id].kind == ev.kind && t.events[id].pubkey == ev.pubkey
               && IndexedUnder(t.rows, id, DKey(ev))
    else {}
  }

  /** Newest wins; on equal times the lowest id does. */
  predicate Supersedes(a: Event, b: Event) {
    a.createdAt > b.createdAt || (a.createdAt == b.createdAt && StrLess(a.id, b.id))
  }

  function Insert(t: Tables, ev: Event): (Tables, StoreResult) {
    if ev.id in t.events then (t, Duplicate)
    else if exists id :: id in Existing(t, ev) && id in t.events && Supersedes(t.events[id], ev) then (t, Stale)
    else (Replace(t, ev, Existing(t, ev)), Stored)
  }

  function Replace(t: Tables, ev: Event, gone: set<string>): Tables {
    t.(events := (t.events - gone)[ev.id := ev],
       rows := (set r | r in t.rows && r.eventId !in gone) + IndexRows(ev))
  }

  function InsertAll(t: Tables, evs: seq<Event>): Tables
    decreases |evs|
  {
    if evs == [] then t else Insert(InsertAll(t, evs[..|evs| - 1]), evs[|evs| - 1]).0
  }

  /** Newest `created_at` among an author's events carrying `d = dTag`. */
  function Stamps(t: Tables, pubkey: string, dTag: string): set<nat> {
    set id | id in t.events && t.events[id].pubkey == pubkey && TagRow(id, "d", dTag) in t.rows
      :: t.events[id].createdAt
  }

  ghost predicate IsMax(m: nat, s: set<nat>) {
    m in s && forall x :: x in s ==> x <= m
  }

  lemma {:induction false} MaxExists(s: set<nat>)
    requires s != {}
    ensures exists m :: IsMax(m, s)
    decreases |s|
  {
    var x :| x in s;
    if s == {x} {
      assert IsMax(x, s);
    } else {
      MaxExists(s - {x});
      var m :| IsMax(m, s - {x});
      assert forall y :: y in s ==> y == x || y in s - {x};
      assert IsMax(if x < m then m else x, s);
    }
  }

  ghost function LastStamp(t: Tables, pubkey: string, dTag: string): Option<nat> {
    var s := Stamps(t, pubkey, dTag);
    if s == {} then None else
      MaxExists(s);
      var m :| IsMax(m, s);
      Some(m)
  }

  /** The aggregate `MAX`. */
  method Maximum(s: set<nat>) returns (m: nat)
    requires s != {}
    ensures IsMax(m, s)
  {
    m :| m in s;
    var todo := s - {m};
    while todo != {}
      invariant todo <= s && m in s
      invariant forall x :: x in s ==> x <= m || x in todo
      decreases |todo|
    {
      var x :| x in todo;
      todo := todo - {x};
      m := if x <= m then m else x;
    }
  }

  // ---- groups and members ----

  /** Unknown channel types collapse to `chat`. */
  function NormalizeKind(kind: Option<string>): string {
    if kind.Some? && Trim(kind.value) == "publication" then "publication" else "chat"
  }

  function GroupCreate(t: Tables, id: string, name: string, about: string, kind: string, creator: string, now: nat)
    : (Tables, bool)
  {
    if id in t.groups then (t, false)
    else (t.(groups := t.groups[id := Group(name, about, NormalizeKind(Some(kind)), creator, now)]), true)
  }

  function GroupUpdateMeta(t: Tables, id: string, name: Option<string>, about: Option<string>, kind: Option<string>)
    : Tables
  {
    if id !in t.groups then t
    else
      var g := t.groups[id];
      var g := if name.Some? then g.(name := name.value) else g;
      var g := if about.Some? then g.(about := about.value) else g;
      var g := if kind.Some? then g.(kind := NormalizeKind(kind)) else g;
      t.(groups := t.groups[id := g])
  }

  function GroupDelete(t: Tables, id: string): Tables {
    t.(groups := t.groups - {id},
       members := map p | p in t.members && p.0 != id :: t.members[p],
       retired := t.retired + {id})
  }

  predicate EventInGroup(t: Tables, eventId: string, id: string) {
    TagRow(eventId, "h", id) in t.rows
  }

  /** Insert, or change the role of the row that is there. */
  function MemberAdd(t: Tables, id: string, pubkey: string, role: Role, now: nat): Tables {
    var p := (id, pubkey);
    t.(members := t.members[p := if p in t.members then t.members[p].(role := role) else Member(role, now)])
  }

  function MemberAddIfAbsent(t: Tables, id: string, pubkey: string, role: Role, now: nat): (Tables, bool) {
    if (id, pubkey) in t.members then (t, false) else (MemberAdd(t, id, pubkey, role, now), true)
  }

  function MemberRemove(t: Tables, id: string, pubkey: string): Tables {
    t.(members := t.members - {(id, pubkey)})
  }

  function MemberKeys(members: map<(string, string), Member>, id: string): set<Key> {
    set p | p in members && p.0 == id :: Key(members[p].addedAt, p.1)
  }

  function WithRoles(members: map<(string, string), Member>, id: string, ks: seq<Key>): seq<(string, Role)>
    requires forall k :: k in ks ==> (id, k.s) in members
  {
    if ks == [] then [] else [(ks[0].s, members[(id, ks[0].s)].role)] + WithRoles(members, id, ks[1..])
  }

  /** (pubkey, role) pairs of a channel, oldest first. */
  ghost function Listing(members: map<(string, string), Member>, id: string): seq<(string, Role)> {
    WithRoles(members, id, SortedKeys(MemberKeys(members, id)))
  }

  predicate IsGroupAdmin(t: Tables, id: string, pubkey: string) {
    (id, pubkey) in t.members && t.members[(id, pubkey)].role == Admin
  }

  // ---- purging ----

  /** Ids of the events indexed under the channel, as `h` or as `d`. */
  function Doomed(rows: set<TagRow>, id: string): set<string> {
    set r | r in rows && (r.name == "h" || r.name == "d") && r.value == id :: r.eventId
  }

  function Purge(t: Tables, id: string): Tables {
    var events := t.events - Doomed(t.rows, id);
    t.(events := events, rows := set r | r in t.rows && r.eventId in events)
  }

  // ---- invites ----

  datatype Redemption = Redeemed | UnknownCode | Expired | UsedUp

  function InviteRedeem(t: Tables, code: string, now: nat): (Tables, Redemption) {
    if code !in t.invites then (t, UnknownCode)
    else
      var i := t.invites[code];
      if i.expiresAt.Some? && now > i.expiresAt.value then (t, Expired)
      else if i.uses >= i.maxUses then (t, UsedUp)
      else (t.(invites := t.invites[code := i.(uses := i.uses + 1)]), Redeemed)
  }

  // ---- what the tables keep ----

  /** Events are filed under their ids, and the index holds precisely their indexable tags. */
  ghost predicate IndexExact(t: Tables) {
    && (forall id :: id in t.events ==> t.events[id].id == id)
    && (forall r :: r in t.rows <==> r.eventId in t.events && r in IndexRows(t.events[r.eventId]))
  }

  /** Every `d` value the index holds for the event is the one `first_tag` reads. */
  ghost predicate DClean(e: Event) {
    forall v :: v in TagValues(e.tags, "d") ==> v == DKey(e)
  }

  predicate SameSlot(a: Event, b: Event) {
    && a.kind == b.kind && a.pubkey == b.pubkey
    && (IsReplaceable(a.kind) || (IsAddressable(a.kind) && DKey(a) == DKey(b)))
  }

  ghost predicate AddressesClean(t: Tables) {
    forall id :: id in t.events && IsAddressable(t.events[id].kind) ==> DClean(t.events[id])
  }

  /** No two stored events share a replaceable slot. */
  ghost predicate OnePerSlot(t: Tables) {
    forall a, b :: a in t.events && b in t.events && SameSlot(t.events[a], t.events[b]) ==> a == b
  }

  lemma RowsOfEvent(e: Event, name: string, v: string)
    requires OneByte(name)
    ensures TagRow(e.id, name, v) in IndexRows(e) <==> v in TagValues(e.tags, name)
  {
    TagValuesHolds(e.tags, name, v);
    if t :| t in e.tags && Named(t, name) && |t| > 1 && t[1] == v {
      assert TagRow(e.id, t[0], t[1]) in IndexRows(e);
    }
  }

  /** A stored event carries a value under a one-byte name iff the index says so. */
  lemma RowsOfStored(t: Tables, id: string, name: string, v: string)
    requires IndexExact(t) && OneByte(name)
    ensures TagRow(id, name, v) in t.rows <==> id in t.events && v in TagValues(t.events[id].tags, name)
  {
    if id in t.events { RowsOfEvent(t.events[id], name, v); }
  }

  /** The unordered one-row read of `d` is determined, and agrees with `first_tag`, exactly for
      the events whose `d` values are all the first one. */
  lemma SlotReadDetermined(t: Tables, id: string)
    requires IndexExact(t) && id in t.events
    ensures DClean(t.events[id]) <==> forall d :: IndexedUnder(t.rows, id, d) <==> d == DKey(t.events[id])
  {
    var e := t.events[id];
    forall v ensures TagRow(id, "d", v) in t.rows <==> v in TagValues(e.tags, "d") { RowsOfStored(t, id, "d", v); }
    FirstTagIsIndexed(e.tags, "d");
    if DClean(e) {
      forall d ensures IndexedUnder(t.rows, id, d) <==> d == DKey(e) {
        if TagValues(e.tags, "d") == [] {
          assert forall r :: r in t.rows && r.eventId == id && r.name == "d" ==> r == TagRow(id, "d", r.value);
        } else {
          assert TagRow(id, "d", TagValues(e.tags, "d")[0]) in t.rows;
        }
      }
    } else {
      var v :| v in TagValues(e.tags, "d") && v != DKey(e);
      assert IndexedUnder(t.rows, id, v);
    }
  }
}
