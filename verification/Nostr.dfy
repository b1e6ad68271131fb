/** Events, the kinds the relay knows, and the simple filter matcher (crates/menhir-core). */
module Nostr {
  import opened Text

  type Tag = seq<string>

  datatype Event = Event(id: string, pubkey: string, createdAt: nat, kind: nat, tags: seq<Tag>,
                         content: string, sig: string)

  /** What the id is the hash of: everything but the id and the signature. */
  datatype Body = Body(pubkey: string, createdAt: nat, kind: nat, tags: seq<Tag>, content: string)

  function BodyOf(e: Event): Body {
    Body(e.pubkey, e.createdAt, e.kind, e.tags, e.content)
  }

  /** The cryptography the relay calls: hashing a body, signing one with the relay's key, and
      checking an event. Only its two laws below are ever used. */
  datatype Crypto = Crypto(hash: Body -> string, sign: Body -> string, verify: Event -> bool)

  /** The id of an event is the hash of its contents. */
  ghost predicate Sealed(c: Crypto, e: Event) {
    e.id == c.hash(BodyOf(e))
  }

  /** SHA-256 has no collisions, and `verify` refuses an event whose id is not its hash. */
  ghost predicate Trustworthy(c: Crypto) {
    && (forall a: Body, b: Body :: c.hash(a) == c.hash(b) ==> a == b)
    && (forall e: Event :: c.verify(e) ==> Sealed(c, e))
  }

  // ---- kinds ----

  const PROFILE := 0
  const CHAT := 9
  const PUT_USER := 9000
  const REMOVE_USER := 9001
  const EDIT_METADATA := 9002
  const CREATE_GROUP := 9007
  const DELETE_GROUP := 9008
  const JOIN_REQUEST := 9021
  const LEAVE_REQUEST := 9022
  const GROUP_METADATA := 39000
  const GROUP_ADMINS := 39001
  const GROUP_MEMBERS := 39002
  const CLIENT_AUTH := 22242
  const INVITE_REDEEM := 20284

  /** `ALLOWED_CLIENT_KINDS`. */
  predicate IsClientKind(kind: nat) {
    || kind == PROFILE || kind == CHAT || IsModeration(kind) || kind == CREATE_GROUP
    || kind == JOIN_REQUEST || kind == LEAVE_REQUEST || kind == CLIENT_AUTH || kind == INVITE_REDEEM
  }

  predicate IsModeration(kind: nat) {
    kind == PUT_USER || kind == REMOVE_USER || kind == EDIT_METADATA || kind == DELETE_GROUP
  }

  predicate IsEphemeral(kind: nat) {
    20000 <= kind < 30000
  }

  predicate IsReplaceable(kind: nat) {
    kind == 0 || kind == 3 || 10000 <= kind < 20000
  }

  predicate IsAddressable(kind: nat) {
    30000 <= kind < 40000
  }

  // ---- tags ----

  predicate Named(t: Tag, name: string) {
    t != [] && t[0] == name
  }

  /** The second item of the first tag with this name, if that tag has one. */
  function FirstTag(tags: seq<Tag>, name: string): Option<string> {
    if tags == [] then None
    else if Named(tags[0], name) then (if |tags[0]| > 1 then Some(tags[0][1]) else None)
    else FirstTag(tags[1..], name)
  }

  /** The second items of all tags with this name. */
  function TagValues(tags: seq<Tag>, name: string): seq<string> {
    if tags == [] then []
    else if Named(tags[0], name) && |tags[0]| > 1 then [tags[0][1]] + TagValues(tags[1..], name)
    else TagValues(tags[1..], name)
  }

  lemma {:induction false} TagValuesHolds(tags: seq<Tag>, name: string, v: string)
    ensures v in TagValues(tags, name) <==> exists t :: t in tags && Named(t, name) && |t| > 1 && t[1] == v
  {
    if tags != [] {
      TagValuesHolds(tags[1..], name, v);
      if v in TagValues(tags, name) {
        if Named(tags[0], name) && |tags[0]| > 1 && tags[0][1] == v {
          assert tags[0] in tags;
        } else {
          var t :| t in tags[1..] && Named(t, name) && |t| > 1 && t[1] == v;
          assert t in tags;
        }
      }
      if t :| t in tags && Named(t, name) && |t| > 1 && t[1] == v {
        if t != tags[0] {
          assert t in tags[1..];
        }
      }
    }
  }

  /** The first tag of this name has a value, and it is `v`. */
  ghost predicate FirstNamed(tags: seq<Tag>, name: string, v: string) {
    exists i :: 0 <= i < |tags| && |tags[i]| > 1 && tags[i][0] == name && tags[i][1] == v
                && forall j :: 0 <= j < i ==> |tags[j]| == 0 || tags[j][0] != name
  }

  /** Some tag of this name has this value. */
  ghost predicate Carries(tags: seq<Tag>, name: string, v: string) {
    exists t :: t in tags && |t| > 1 && t[0] == name && t[1] == v
  }

  lemma {:induction false} FirstTagIff(tags: seq<Tag>, name: string, v: string)
    ensures FirstTag(tags, name) == Some(v) <==> FirstNamed(tags, name, v)
  {
    if tags != [] && !Named(tags[0], name) {
      FirstTagIff(tags[1..], name, v);
      if i :| 0 <= i < |tags| && |tags[i]| > 1 && tags[i][0] == name && tags[i][1] == v
              && forall j :: 0 <= j < i ==> |tags[j]| == 0 || tags[j][0] != name {
        assert tags[1..][i - 1] == tags[i];
        assert forall j :: 0 <= j < i - 1 ==> tags[1..][j] == tags[j + 1];
      }
      if i :| 0 <= i < |tags[1..]| && |tags[1..][i]| > 1 && tags[1..][i][0] == name && tags[1..][i][1] == v
              && forall j :: 0 <= j < i ==> |tags[1..][j]| == 0 || tags[1..][j][0] != name {
        assert tags[i + 1] == tags[1..][i];
        assert forall j :: 0 < j < i + 1 ==> tags[j] == tags[1..][j - 1];
      }
    }
  }

  lemma CarriesIff(tags: seq<Tag>, name: string, v: string)
    ensures v in TagValues(tags, name) <==> Carries(tags, name, v)
  {
    TagValuesHolds(tags, name, v);
    assert forall t :: t in tags && |t| > 1 ==> (Named(t, name) <==> t[0] == name);
  }

  /** Two tags of this name have values. */
  ghost predicate CarriesTwice(tags: seq<Tag>, name: string) {
    exists i, j :: 0 <= i < j < |tags| && |tags[i]| > 1 && |tags[j]| > 1 && tags[i][0] == name && tags[j][0] == name
  }

  predicate CarriesAt(tags: seq<Tag>, i: nat, name: string) {
    i < |tags| && |tags[i]| > 1 && tags[i][0] == name
  }

  lemma CarriesOnceIff(tags: seq<Tag>, name: string)
    ensures |TagValues(tags, name)| > 0 <==> exists i :: 0 <= i < |tags| && CarriesAt(tags, i, name)
  {
    if TagValues(tags, name) != [] {
      TagValuesHolds(tags, name, TagValues(tags, name)[0]);
      var t :| t in tags && Named(t, name) && |t| > 1;
      var i :| 0 <= i < |tags| && tags[i] == t;
      assert CarriesAt(tags, i, name);
    }
    if i :| 0 <= i < |tags| && CarriesAt(tags, i, name) {
      assert tags[i] in tags;
      TagValuesHolds(tags, name, tags[i][1]);
    }
  }

  lemma CarriesTwiceStep(tags: seq<Tag>, name: string)
    requires tags != []
    ensures CarriesTwice(tags, name) <==>
              || CarriesTwice(tags[1..], name)
              || (CarriesAt(tags, 0, name) && exists i :: 0 <= i < |tags[1..]| && CarriesAt(tags[1..], i, name))
  {
    var rest := tags[1..];
    assert forall i :: 0 <= i < |rest| ==> rest[i] == tags[i + 1];
    if CarriesTwice(rest, name) {
      var i, j :| 0 <= i < j < |rest| && |rest[i]| > 1 && |rest[j]| > 1 && rest[i][0] == name && rest[j][0] == name;
      assert tags[i + 1] == rest[i] && tags[j + 1] == rest[j];
    }
    if i :| CarriesAt(tags, 0, name) && 0 <= i < |rest| && CarriesAt(rest, i, name) {
      assert tags[i + 1] == rest[i];
    }
    if CarriesTwice(tags, name) {
      var i, j :| 0 <= i < j < |tags| && |tags[i]| > 1 && |tags[j]| > 1 && tags[i][0] == name && tags[j][0] == name;
      assert rest[j - 1] == tags[j] && CarriesAt(rest, j - 1, name);
      if i > 0 { assert rest[i - 1] == tags[i]; }
    }
  }

  lemma {:induction false} CarriesTwiceIff(tags: seq<Tag>, name: string)
    ensures |TagValues(tags, name)| > 1 <==> CarriesTwice(tags, name)
  {
    if tags != [] {
      hide CarriesTwice;
      CarriesTwiceIff(tags[1..], name);
      CarriesOnceIff(tags[1..], name);
      CarriesTwiceStep(tags, name);
    }
  }

  /** What authorization reads is the first of what is indexed, or nothing at all. */
  lemma {:induction false} FirstTagIsIndexed(tags: seq<Tag>, name: string)
    ensures FirstTag(tags, name).Some? ==>
              TagValues(tags, name) != [] && TagValues(tags, name)[0] == FirstTag(tags, name).value
  {
    if tags != [] && !Named(tags[0], name) { FirstTagIsIndexed(tags[1..], name); }
  }

  /** The event a chat message replies to: the first `e` tag marked `reply` in fourth place. */
  function ReplyParent(tags: seq<Tag>): Option<string> {
    if tags == [] then None
    else if Named(tags[0], "e") && |tags[0]| > 3 && tags[0][3] == "reply" then
      (if tags[0][1] == "" then None else Some(tags[0][1]))
    else ReplyParent(tags[1..])
  }

  predicate IsReplyTag(t: Tag) {
    |t| > 3 && t[0] == "e" && t[3] == "reply"
  }

  /** The first tag marked as a reply names this event. */
  ghost predicate RepliesTo(tags: seq<Tag>, id: string) {
    exists i :: 0 <= i < |tags| && IsReplyTag(tags[i]) && tags[i][1] == id
                && forall j :: 0 <= j < i ==> !IsReplyTag(tags[j])
  }

  lemma {:induction false} ReplyParentIff(tags: seq<Tag>, id: string)
    ensures ReplyParent(tags) == Some(id) <==> id != "" && RepliesTo(tags, id)
  {
    if tags != [] && !IsReplyTag(tags[0]) {
      ReplyParentIff(tags[1..], id);
      if i :| 0 <= i < |tags| && IsReplyTag(tags[i]) && tags[i][1] == id
              && forall j :: 0 <= j < i ==> !IsReplyTag(tags[j]) {
        assert tags[1..][i - 1] == tags[i];
        assert forall j :: 0 <= j < i - 1 ==> tags[1..][j] == tags[j + 1];
      }
      if i :| 0 <= i < |tags[1..]| && IsReplyTag(tags[1..][i]) && tags[1..][i][1] == id
              && forall j :: 0 <= j < i ==> !IsReplyTag(tags[1..][j]) {
        assert tags[i + 1] == tags[1..][i];
        assert forall j :: 0 < j < i + 1 ==> tags[j] == tags[1..][j - 1];
      }
    }
  }

  // ---- filters ----

  /** The values a filter's extra keys may hold. */
  datatype Json = JsonString(text: string) | JsonArray(items: seq<Json>) | JsonOther

  datatype Filter = Filter(ids: Option<seq<string>>, authors: Option<seq<string>>, kinds: Option<seq<nat>>,
                           since: Option<nat>, until: Option<nat>, limit: Option<nat>,
                           extra: seq<(string, Json)>)

  function Strings(items: seq<Json>): seq<string> {
    if items == [] then []
    else if items[0].JsonString? then [items[0].text] + Strings(items[1..])
    else Strings(items[1..])
  }

  /** The `#x` keys holding arrays, without the `#`, with the strings of the array. */
  function TagFilters(extra: seq<(string, Json)>): seq<(string, seq<string>)> {
    if extra == [] then []
    else if "#" <= extra[0].0 && extra[0].1.JsonArray? then
      [(extra[0].0[1..], Strings(extra[0].1.items))] + TagFilters(extra[1..])
    else TagFilters(extra[1..])
  }

  predicate TagMatches(f: (string, seq<string>), e: Event) {
    exists v :: v in f.1 && v in TagValues(e.tags, f.0)
  }

  /** `Filter::matches`: what decides whether a live event is delivered. */
  predicate Matches(f: Filter, e: Event) {
    && (f.ids.Some? ==> e.id in f.ids.value)
    && (f.authors.Some? ==> e.pubkey in f.authors.value)
    && (f.kinds.Some? ==> e.kind in f.kinds.value)
    && (f.since.Some? ==> f.since.value <= e.createdAt)
    && (f.until.Some? ==> e.createdAt <= f.until.value)
    && (forall tf :: tf in TagFilters(f.extra) ==> TagMatches(tf, e))
  }

  lemma {:induction false} StringsHold(items: seq<Json>, v: string)
    ensures v in Strings(items) <==> JsonString(v) in items
  {
    if items != [] { StringsHold(items[1..], v); }
  }

  lemma {:induction false} TagFiltersHold(extra: seq<(string, Json)>, name: string, values: seq<string>)
    ensures (name, values) in TagFilters(extra) <==>
              exists x :: x in extra && x.0 == "#" + name && x.1.JsonArray? && values == Strings(x.1.items)
  {
    if extra != [] {
      TagFiltersHold(extra[1..], name, values);
      assert "#" <= extra[0].0 ==> extra[0].0 == "#" + extra[0].0[1..];
      assert ("#" + name)[1..] == name;
      assert forall x :: x in extra <==> x == extra[0] || x in extra[1..];
    }
  }

  /** A live event is delivered iff it meets every condition of the filter; a `#x` condition is met by
      one of the event's `x` tags having one of the texts listed. */
  lemma MatchesIff(f: Filter, e: Event)
    ensures Matches(f, e) <==>
              && (f.ids.Some? ==> e.id in f.ids.value)
              && (f.authors.Some? ==> e.pubkey in f.authors.value)
              && (f.kinds.Some? ==> e.kind in f.kinds.value)
              && (f.since.Some? ==> e.createdAt >= f.since.value)
              && (f.until.Some? ==> e.createdAt <= f.until.value)
              && (forall x, name :: x in f.extra && x.0 == "#" + name && x.1.JsonArray? ==>
                    exists v :: JsonString(v) in x.1.items && Carries(e.tags, name, v))
  {
    forall tf: (string, seq<string>)
      ensures TagMatches(tf, e) <==> exists v :: v in tf.1 && Carries(e.tags, tf.0, v)
    {
      forall v ensures v in TagValues(e.tags, tf.0) <==> Carries(e.tags, tf.0, v) { CarriesIff(e.tags, tf.0, v); }
    }
    forall x, v | x in f.extra && x.1.JsonArray? ensures v in Strings(x.1.items) <==> JsonString(v) in x.1.items {
      StringsHold(x.1.items, v);
    }
    forall name, values
      ensures (name, values) in TagFilters(f.extra) <==>
                exists x :: x in f.extra && x.0 == "#" + name && x.1.JsonArray? && values == Strings(x.1.items)
    {
      TagFiltersHold(f.extra, name, values);
    }
    TagPartIff(f, e);
  }

  lemma TagPartIff(f: Filter, e: Event)
    requires forall tf: (string, seq<string>) ::
               TagMatches(tf, e) <==> exists v :: v in tf.1 && Carries(e.tags, tf.0, v)
    requires forall x, v :: x in f.extra && x.1.JsonArray? ==> (v in Strings(x.1.items) <==> JsonString(v) in x.1.items)
    requires forall name, values :: (name, values) in TagFilters(f.extra) <==>
               exists x :: x in f.extra && x.0 == "#" + name && x.1.JsonArray? && values == Strings(x.1.items)
    ensures (forall tf :: tf in TagFilters(f.extra) ==> TagMatches(tf, e)) <==>
              forall x, name :: x in f.extra && x.0 == "#" + name && x.1.JsonArray? ==>
                exists v :: JsonString(v) in x.1.items && Carries(e.tags, name, v)
  {
    hide TagMatches, Carries, TagFilters, Strings;
    if forall tf :: tf in TagFilters(f.extra) ==> TagMatches(tf, e) {
      forall x, name | x in f.extra && x.0 == "#" + name && x.1.JsonArray?
        ensures exists v :: JsonString(v) in x.1.items && Carries(e.tags, name, v)
      {
        var tf := (name, Strings(x.1.items));
        assert tf in TagFilters(f.extra) && TagMatches(tf, e);
        var v :| v in tf.1 && Carries(e.tags, tf.0, v);
      }
    }
    if forall x, name :: x in f.extra && x.0 == "#" + name && x.1.JsonArray? ==>
         exists v :: JsonString(v) in x.1.items && Carries(e.tags, name, v)
    {
      forall tf | tf in TagFilters(f.extra) ensures TagMatches(tf, e) {
        assert (tf.0, tf.1) == tf;
        var x :| x in f.extra && x.0 == "#" + tf.0 && x.1.JsonArray? && tf.1 == Strings(x.1.items);
        var v :| JsonString(v) in x.1.items && Carries(e.tags, tf.0, v);
        assert v in tf.1;
      }
    }
  }

  predicate MatchesAny(fs: seq<Filter>, e: Event) {
    exists f :: f in fs && Matches(f, e)
  }
}
