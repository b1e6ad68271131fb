# Menhir relay and client cache, verified

A model, in Dafny 4.11, of the parts of Menhir where state and order matter: the relay that stores and
serves Nostr events (`crates/menhir-relay`, with the event, filter and kind definitions of
`crates/menhir-core`), the message cache of the desktop client (`app/ui`), and the invite links the
command line reads. `dafny verify dfyconfig.toml` checks all of it.

## How it is built

**The relay.** `Db.dfy` and `Relay.dfy` are classes whose methods update their fields as the code
updates tables and connection state; `Tables.dfy`, `Querying.dfy` and `Protocol.dfy` say, as functions
of values, what each statement and handler does, and every method is proved to compute its function.
`Node.dfy` puts the objects together and proves that playing any actions on them leaves the state the
run theorems speak of. So those theorems are about the objects; `HandOff.dfy` and `EventId.dfy` are
about functions no method here computes.

* `Convergence.dfy`, `Querying.dfy`: the event store as an index and a replaceable map, and the SQL
  query against the plain matcher used for live events.
* `Invariants.dfy`, `Runs.dfy`: the invariant of every reachable state. `Reachable.dfy` draws
  conclusions for what is broadcast and what queries return.
* `Outcomes.dfy`, `Identity.dfy`, `Rendering.dfy`: what each message, each authentication and each piece
  of metadata comes to, said in tags, rows and numbers instead of the functions of `Protocol.dfy`.
* `Replay.dfy`, `Authority.dfy`, `Publication.dfy`, `Admission.dfy`: theorems over whole runs. A run
  is any list of connections opening and closing, client messages with arbitrary clock readings, and
  operator commands. `EventId.dfy` and `Witnesses.dfy`: the text ids are digests of, an instance of
  what the run theorems assume, and the runs in which two documented promises fail.
* `HandOff.dfy`: the concurrency argument for the switch from history to live tail.

**The client.** `Cache.dfy` (merging, unread counts, debounced writes, resuming a subscription, and
the composition of the last with the relay's query), `ClientRuns.dfy` and `Resuming.dfy` (theorems over
runs of the client and of both sides), and `Threads.dfy` (publication cards). `JoinLink.dfy`
reads and prints invite links. `Text.dfy` and `Ordering.dfy` hold strings and sorted listings.

## Assumptions

* SHA-256 has no collisions, and `verify` accepts only events whose id is the hash of their contents
  (`Nostr.Trustworthy`). Otherwise `verify` is any predicate and signatures are any text; in
  particular one event may be resubmitted under another signature.
* In `Runs` one handled message is one atomic step. The code takes the database lock once per call, so
  two connections can interleave inside a message; `HandOff` has those finer steps for the one argument
  that depends on them. At the granularity of calls two handlers can both pass the duplicate check, and
  two trios of a channel can be signed with one stamp. So `Replay.EffectAtMostOnce` would need that no
  two handlers hold one event between check and insertion (lines 484 to 664 of `server.rs`), and the
  metadata part of `Runs.RunSatisfiesInv`, `Reachable.BroadcastIsStored` and `Runs.DeletedStaysDead`
  that no two handlers of one channel overlap from changing its rows to publishing its trio;
  `Authority` and `Publication` that no role, type or parent changes between check and insertion. What is proved of single calls does not depend on it: index and slots
  (`Convergence`), queries (`Querying`), the growth of retired ids, the counting of invite uses, and who
  is let in, since one connection's messages are handled one after the other.
* The clock is read for the checks of a message, for each row it writes and for the metadata it signs,
  and the readings are unrelated. Only `Reachable.TimesStayBounded` and what follows from it bound
  them, from above.
* Integers are unbounded except for the casts of filter bounds and stored times to `i64`, which are
  written out (`Querying.AsI64`).

## Where code and documents part

* `docs/PROTOCOL.md` line 53 says replays never re-run side effects. That holds of every stored kind
  (`Replay.EffectAtMostOnce`); a redemption (kind 20284) is not stored, and its replay takes another use
  exactly under the condition of `Admission.SecondRedemptionIff`, also undoing a removal from the
  whitelist. `Witnesses.ReplayTakesSecondUse` is a run.
* The comment above `renderPublication` promises not to drop a message. Messages that run into a reply
  cycle of two or more are dropped (`Threads.NothingLostIff`, `Threads.MutualRepliesAreLost`). Ids being
  hashes, such cycles do not come up among verified events; the client does not verify what it renders.
* Only admins start a post in a publication channel, say the comment at line 520 of `server.rs` and
  `docs/PROTOCOL.md` line 135 on. The code lets anyone answer any event stored under the channel, also
  their own join request or profile, and such an answer starts a thread. `Publication.OnlyAdminsStartIff`
  is the exact condition, `Witnesses.OwnReplyStartsThread` a run.
* History and live tail use different matchers. Clause by clause they differ exactly on tag filters that
  list a value under a name that is not one byte, and on bounds from 2^63 on
  (`Querying.TagFilterAgreesIff`, `Querying.SinceAgreesIff`).
* The comment on `host_only` says the result is lowercased; the code lowercases only in `url_host`.
  `Protocol.HostOnly` and `Protocol.UrlHost` follow the code.

## Model

The rows come in groups: the invariant of every reachable state (`Runs.RunSatisfiesInv` to
`Reachable.HistoryAgreesWithLive`); what one message comes to, in tags and rows (`Outcomes.AcceptedIff` to
`Outcomes.NormalizeIff`); theorems over runs of the relay (`Replay.EffectAtMostOnce` to
`Admission.AuthorsWereLetIn`); the event store and its queries (`Convergence.StoresConverge` to
`Querying.TagFilterAgreesIff`); the hand-off (`HandOff.NoGap` to `HandOff.NoneSkipped`); the client
(`ClientRuns.ClientKeepsLists` to `Cache.ResumeIsComplete`); publication cards; invite links; event ids and
witnesses; and last the objects, whose methods are each proved against the function of the same purpose:
the relay and its connections (`RelayServer.Relay.constructor` to `Node.Play`), then the database, mostly
one statement a method.

| member | source | states |
|---|---|---|
| `Runs.RunSatisfiesInv` | crates/menhir-relay/src/server.rs:420-682 | in every state reachable by any sequence of connections, messages, clock readings and operator commands: the tag index is exact, no two events share a replaceable slot, live and retired ids are disjoint, only live channels have members, every stored event is either a client event bound to a live channel (where its kind is bound) or relay metadata of a live channel, and the stored 39000/39001/39002 of every live channel render its rows |
| `Runs.HandleEventKeepsInv` | crates/menhir-relay/src/server.rs:420-682 | one handled event keeps all of that, whatever event, connection, identity and clock (also one that runs backwards) |
| `Runs.DecidePrepares` | crates/menhir-relay/src/server.rs:507-658 | whatever the group logic grants leaves the tables sound, with at most the metadata of one channel outdated and the trio that repairs it in hand |
| `Runs.AnnounceRestores` | crates/menhir-relay/src/server.rs:663-682 | storing the event and then the trio makes the invariant whole again |
| `Runs.DecisionFrame` | crates/menhir-relay/src/server.rs:507-658 | no granted event except a delete touches stored events, the index or the retired ids, and none touches whitelist or invites; a delete removes the channel and purges exactly its events |
| `Runs.DecisionExtra` | crates/menhir-relay/src/server.rs:507-658 | what is published with an event is the trio of the one channel it names, signed after the rows changed, or nothing |
| `Runs.StepTables` | crates/menhir-relay/src/server.rs:237-269 | of all actions on the relay only a submitted EVENT can change events, groups, members or retired ids |
| `Runs.GroupsOfOutcome` | crates/menhir-relay/src/server.rs:507-661 | after an event the groups, members and retired ids are either what they were or what the group logic granted: neither storing nor publishing alters them, and a refusal changes nothing |
| `Runs.LeavingDeadIsNothing` | crates/menhir-relay/src/server.rs:595-603 | the unguarded leave of a channel that is not live changes nothing, in any sound state |
| `Runs.StepKeepsRetired` | crates/menhir-relay/src/db.rs:524-548 | retired ids only ever grow |
| `Runs.DeletedStaysDead` | docs/PROTOCOL.md:57-60 | a channel id once deleted is, at every later state of the run, not live, without members, without metadata and without any channel-bound event indexed under it |
| `Invariants.MetadataIsUniqueAndCurrent` | crates/menhir-relay/src/server.rs:690-751 | for each live channel and metadata kind there is exactly one stored event, and its tags are the rendering of the group row and of the member rows in listing order |
| `Rendering.MetadataSaysTheRows` | crates/menhir-relay/src/server.rs:690-751 | each live channel has one 39000, one 39001 and one 39002, signed by the relay and without content: the first has exactly the tags for the row's name, type, openness and, iff not empty, description; the second exactly a `p` tag with "admin" or "moderator" for each row of that role; the third exactly a `p` tag for each row; both oldest member first, none twice |
| `Rendering.ReachableMetadataSaysTheRows` | crates/menhir-relay/src/server.rs:690-751 | hence in every reachable state |
| `Rendering.StampIsLeast` | crates/menhir-relay/src/server.rs:695-701 | the stamp of new metadata is the clock's reading unless stored metadata of the channel is as new; then it is the next second after that |
| `Invariants.MetadataInAnyOrder` | crates/menhir-relay/src/db.rs:635-641 | as a set its tags are those of rendering any listing of the members, so the order among members added in one second does not matter |
| `Invariants.DeadChannelsAreEmpty` | crates/menhir-relay/src/db.rs:524-548 | a channel that is not live has no member, no metadata and no channel-bound event |
| `Invariants.BoundToOne` | crates/menhir-relay/src/server.rs:470-480 | a stored chat, create, join or (non-deleting) moderation event is indexed under exactly one channel: the live one authorization read |
| `Invariants.FreshMetaIsStored` | crates/menhir-relay/src/server.rs:695-701 | freshly signed metadata is never a duplicate and never stale, and displaces only the older version of the same kind for the same channel |
| `Invariants.StampIsNewer` | crates/menhir-relay/src/server.rs:695-701 | the repaired timestamp exceeds that of all metadata stored for the channel, whatever the clock says |
| `Invariants.TrioRestores` | crates/menhir-relay/src/server.rs:677-680 | publishing the trio makes all metadata of all live channels current again |
| `Invariants.ChannelRowsChange` | crates/menhir-relay/src/server.rs:507-658 | changing rows of one live channel outdates the metadata of that channel only |
| `Invariants.MetaTagsAddress` | crates/menhir-relay/src/server.rs:703-747 | metadata of any kind is addressed by the channel id alone, whatever the names, descriptions and member keys in it are, and carries no `h` |
| `Reachable.BroadcastIsStored` | crates/menhir-relay/src/server.rs:663-682 | everything broadcast while an event is handled, the event and each member of its trio, is stored once it has been handled |
| `Outcomes.BroadcastIsNews` | crates/menhir-relay/src/server.rs:663-682 | what is broadcast while an event is handled is exactly what is newly stored, each once, the event itself first and after it nothing or the three kinds of metadata in order; nothing is sent iff nothing is newly stored |
| `Outcomes.ReachableBroadcastIsNews` | crates/menhir-relay/src/server.rs:663-682 | at every state of every run |
| `Reachable.TimesStayBounded` | crates/menhir-relay/src/server.rs:503-505 | over any run stored times stay within the allowed drift, plus one second per message, of the latest clock reading, although metadata is pushed past what it replaces |
| `Reachable.HistoryAgreesWithLive` | crates/menhir-relay/src/db.rs:251-348 | in every reachable state (clock below 2^63) each agreeable filter is answered with the page the live matcher selects, and several with their union, each event once; when no limit is hit, with exactly the stored events that match |
| `Outcomes.AcceptedIff` | crates/menhir-relay/src/server.rs:458-661 | an event of a stored kind is accepted iff it is verified, from its author's connection unless the relay is open, of one of the nine kinds, naming at most one channel and no address, and either known or not too long, not over 15 minutes ahead, and permitted: in a live channel for posting (in a publication as its admin or in reply to a stored event of it) and joining; with an unused, never deleted, well-formed id for creating; as admin or operator for moderating |
| `Outcomes.NewlyStoredIff` | crates/menhir-relay/src/server.rs:458-675 | it is newly stored iff moreover it is not known and, for a profile, no stored one of its author is newer or as old with a lower id |
| `Outcomes.NothingElseHappens` | crates/menhir-relay/src/server.rs:420-675 | unless an event is newly stored, or a redemption, no table changes and nothing is broadcast |
| `Outcomes.PostingEnrolls` | crates/menhir-relay/src/server.rs:535-542 | posting or joining adds a plain row for the author where there is none, and changes no other row, group or retired id |
| `Outcomes.LeavingRemoves` | crates/menhir-relay/src/server.rs:595-603 | leaving takes off exactly the author's row |
| `Outcomes.CreatingOpens` | crates/menhir-relay/src/server.rs:545-577 | creating adds the channel with the first name given (else its id), the first description, the type "publication" iff the first `t` says so give or take spaces, and its author as only member and admin |
| `Outcomes.PuttingDecides` | crates/menhir-relay/src/server.rs:616-629 | put-user: the last `p` tag of a key decides its role, admin iff the third item is "admin", moderator iff it is "moderator", plain otherwise; a present row keeps its time, a new one gets that of the first tag naming it; keys not named and other channels keep their rows |
| `Outcomes.PutUserStep` | crates/menhir-relay/src/server.rs:616-629 | the same for any step of a run that newly stores a put-user |
| `Outcomes.NamedHasLast` | crates/menhir-relay/src/server.rs:616-629 | every key a put-user names has a last tag and a first one, so its row is decided |
| `Outcomes.RemovingRemoves` | crates/menhir-relay/src/server.rs:630-634 | remove-user takes off exactly the rows of the keys named, in this channel |
| `Outcomes.EditingReplaces` | crates/menhir-relay/src/server.rs:635-644 | edit-metadata replaces name, description and type where given, keeps them otherwise, and keeps creator, time, members and other channels |
| `Outcomes.DeletingErases` | crates/menhir-relay/src/server.rs:645-649 | delete-group takes off the channel, its members and exactly the events carrying its id under `h` or `d`, retires the id, and stores the delete itself |
| `Outcomes.ProfileIsApart` | crates/menhir-relay/src/server.rs:511 | a profile changes no channel, member or retired id |
| `Outcomes.RedemptionIff` | crates/menhir-relay/src/server.rs:431-456 | a redemption succeeds iff verified, at most ten minutes off the clock, the door not locked, and its content, spaces aside, the code of a present, unexpired, not used-up invite; then it takes one use, whitelists its author and gives the connection that identity, otherwise it does nothing |
| `Identity.AuthenticatesIff` | crates/menhir-relay/src/server.rs:323-359 | a message offering an event makes its author the connection's identity iff the event is verified, of kind 22242, carries this connection's challenge in its first challenge tag, is at most ten minutes off the clock, names in its first relay tag the host this connection was made to (where known), and its author is welcome; otherwise the identity stays; tables and other connections stay anyway |
| `Identity.UrlHostIff` | crates/menhir-relay/src/server.rs:370-380 | the host of a `ws://` or `wss://` address: up to the first slash, without port, in lower case |
| `Identity.HostPartIff` | crates/menhir-relay/src/server.rs:361-368 | the port is what follows the only colon, unless there is a bracket |
| `Outcomes.EventIsAnswered` | crates/menhir-relay/src/server.rs:237-258 | an event gets one answer under its id, accepted iff it has at most 100 tags with items of at most 1024 bytes and handling accepts it; nothing is broadcast for a refused one |
| `Outcomes.RequestIsAnswered` | crates/menhir-relay/src/server.rs:271-321 | a request is served iff the connection may read, there is a filter, and the subscription is known or one of fewer than 32: it stands, answered by one frame for each event of the query in order and an end mark; otherwise it is closed and the subscriptions stay |
| `Outcomes.ClosingEnds` | crates/menhir-relay/src/server.rs:261-266 | closing ends that subscription only |
| `Outcomes.CommandsDo` | app/src-tauri/src/host.rs:326-402 | the operator's commands change whitelist, invites and door each as its name says, and nothing else |
| `Outcomes.ConnectionsComeAndGo` | crates/menhir-relay/src/server.rs:171-178 | an opened connection has its challenge and host and neither identity nor subscriptions; a dropped one is gone; a restart ends all and keeps all tables |
| `Outcomes.ChannelIdIff` | crates/menhir-relay/src/server.rs:412-418 | a channel id is 1 to 64 characters of a-z 0-9 - _ |
| `Outcomes.NormalizeIff` | crates/menhir-relay/src/db.rs:52-57 | the type is "publication" iff that is what is given, spaces aside, and "chat" otherwise |
| `Replay.EffectAtMostOnce` | docs/PROTOCOL.md:53-55 | over any run the steps at which a given event id changes a group, member or retired row are at most one, however often and over whatever connections it is submitted, even after its channel was purged |
| `Replay.EffectIsStored` | crates/menhir-relay/src/server.rs:484-493 | what takes effect is an ordinary event naming a channel, and is stored in the same step |
| `Replay.HandleKeepsSpent` | crates/menhir-relay/src/db.rs:524-548 | an event that is stored, or whose channel is retired, stays so whatever is handled next |
| `Replay.ResubmissionIsInert` | crates/menhir-relay/src/server.rs:484-493 | anything handed in under the id of such an event, even with another signature, changes no group, member or retired row |
| `Authority.AdminHasChain` | crates/menhir-relay/src/server.rs:392-395 | in every state of every run each (channel, admin) pair has a finite chain of promotions lying before it, each by a put-user of someone admin just then and promoted strictly earlier, ending in a creation of the channel or a grant by the operator |
| `Authority.EveryAdminHasChain` | crates/menhir-relay/src/server.rs:604-629 | in particular for the final state |
| `Authority.NewAdminInStep` | crates/menhir-relay/src/server.rs:545-629 | the only actions that make someone an admin are creating a channel that was not live and a put-user naming them, signed by an admin of that moment |
| `Authority.ChainEndsInCreator` | crates/menhir-relay/src/db.rs:472-493 | a chain that ends in a creation ends in the `created_by` the live channel still has on record |
| `Authority.CreatorIsKept` | crates/menhir-relay/src/db.rs:495-522 | `created_by` of a live channel never changes; ids are not recycled in between |
| `Authority.JoiningKeepsRoles` | crates/menhir-relay/src/db.rs:616-623 | posting or joining leaves every existing member row as it was, and can only add the author as a plain member of the channel named |
| `Publication.OnlyAdminsStartIff` | crates/menhir-relay/src/server.rs:520-534 | in a channel that has been a publication since creation, every accepted message hangs by reply parents from a chat message of someone admin or operator just then, iff everyone else has only ever answered stored chat messages; the code asks whether the parent is in the channel, not what it is |
| `Publication.AnswerToOtherIsUnstarted` | crates/menhir-relay/src/server.rs:528-533 | an accepted answer of a non-admin to anything but a chat message hangs from no such post |
| `Publication.PublicationThread` | docs/PROTOCOL.md:73-78 | in any case following reply parents, each accepted strictly earlier in the same channel, ends at such a post or at a stored event that is no chat message |
| `Publication.EveryPostHasThread` | docs/PROTOCOL.md:73-78 | in particular such a thread exists |
| `Witnesses.OwnReplyStartsThread` | crates/menhir-relay/src/server.rs:520-534 | a run in which it does not end at a post: Bob joins a publication channel of Alice and answers his own join request |
| `Publication.ParentIsStored` | crates/menhir-relay/src/server.rs:520-534 | what a non-admin message answers is stored, is in the same channel and is no relay metadata |
| `Publication.StoredHasOrigin` | crates/menhir-relay/src/server.rs:663-682 | every stored event that is not relay metadata was submitted, verified and accepted at an earlier step of the run |
| `Admission.InviteConservation` | crates/menhir-relay/src/db.rs:443-468 | from its creation on, while not revoked, an invite counts exactly the successful redemptions of its code, changes in nothing else, and never exceeds `max_uses` |
| `Admission.RedemptionTakesOne` | crates/menhir-relay/src/server.rs:431-456 | a redemption succeeds only unlocked, fresh, unexpired and with a use left; it takes exactly one use and whitelists its author |
| `Admission.OtherActionsKeepInvite` | crates/menhir-relay/src/db.rs:431-440 | no action but a redemption of the code or a revocation changes an invite |
| `Admission.SecondRedemptionIff` | crates/menhir-relay/src/server.rs:431-456 | a redemption event handed in again after any actions that do not revoke the invite, over any connection, takes another use iff the connection is open, the door unlocked, the event still fresh, the invite unexpired and, after the redemptions in between, a use is left; so line 53 of docs/PROTOCOL.md does not hold of kind 20284 |
| `Admission.ReplayRedeemsIff` | crates/menhir-relay/src/server.rs:431-456 | in any later state whatever, also after a revocation, it succeeds iff a fresh redemption of the code would |
| `Admission.ReplayUndoesRemoval` | crates/menhir-relay/src/db.rs:361-364 | where it succeeds it puts a pubkey the operator has just taken off the whitelist back on it, and authenticates the connection |
| `Witnesses.ReplayTakesSecondUse` | crates/menhir-relay/src/db.rs:443-468 | a run in which one event uses up an invite for two, the second time over another connection after its author was taken off the whitelist |
| `Admission.WhitelistedWasLetIn` | crates/menhir-relay/src/db.rs:352-364 | whoever is on the whitelist is the operator, was put there by the operator, or redeemed an invite |
| `Admission.IdentityWasLetIn` | crates/menhir-relay/src/server.rs:349-351 | on a closed relay a connection has an identity only of someone who had been let in |
| `Identity.IdentityWasProved` | crates/menhir-relay/src/server.rs:323-359 | in any run whatever identity a connection has was proved over it since it was opened: by an event answering the challenge it still has, or by a redemption on it |
| `Admission.AuthorsWereLetIn` | crates/menhir-relay/src/server.rs:458-463 | on a closed relay the author of every stored client event had been let in before that event was accepted |
| `Convergence.StoresConverge` | docs/PROTOCOL.md:67-71 | the same events in any order and with any repetition leave the same events and the same index |
| `Convergence.StoreHoldsWinners` | crates/menhir-relay/src/db.rs:146-230 | a store fed any list of events holds exactly all ordinary ones and, of each replaceable slot, the one with the newest `created_at` and then the lowest id |
| `Convergence.StoredIff` | crates/menhir-relay/src/db.rs:163-203 | of a list of events a store keeps exactly those no rival beats, a rival being of the same author and kind, for kinds 0, 3 and 10000 to 19999, or also of the same first `d` value for 30000 to 39999, and beating by a later time or at the same time a lower id |
| `Convergence.RivalsIff` | crates/menhir-core/src/kinds.rs:48-61 | the kinds and addresses of that statement are those the code replaces by |
| `Convergence.InsertAnswers` | crates/menhir-relay/src/db.rs:146-230 | the answer is Duplicate iff the id was stored, Stored iff it is stored only now, and any other answer leaves the tables as they were |
| `Convergence.InsertAdvancesWinners` | crates/menhir-relay/src/db.rs:146-230 | one insertion, whether stored, duplicate or stale, takes the winners of what was seen to the winners of what has now been seen |
| `Convergence.StaleIff` | crates/menhir-relay/src/db.rs:192-198 | an unknown event is refused as stale iff something seen before supersedes it in its slot |
| `Convergence.ExistingIsSlot` | crates/menhir-relay/src/db.rs:163-190 | the rows looked up through the index are exactly the stored events in the slot of the incoming one |
| `Convergence.InsertKeepsIndex` | crates/menhir-relay/src/db.rs:200-229 | after inserting, replacing or refusing, index rows are precisely the one-byte-named valued tags of stored events |
| `Convergence.InsertKeepsSlots` | crates/menhir-relay/src/db.rs:163-203 | no two stored events ever share a replaceable slot |
| `Convergence.PurgeExact` | crates/menhir-relay/src/db.rs:645-657 | purging a channel removes exactly the events with its id among their `h` or `d` values, leaves the others as they were and keeps the index exact |
| `Convergence.EventInGroupIff` | crates/menhir-relay/src/db.rs:593-602 | an id is found in a channel iff a stored event of that id carries that `h` |
| `Tables.SlotReadDetermined` | crates/menhir-relay/src/db.rs:174-181 | the unordered one-row read of the `d` value is determined and equals `first_tag("d")` iff all `d` values of the event are its first |
| `Tables.RowsOfStored` | crates/menhir-relay/src/db.rs:218-227 | the index has a value of an event under a one-byte name iff the event has |
| `Nostr.TagValuesHolds` | crates/menhir-core/src/event.rs:122-129 | a value is listed for a name iff some tag so named carries it in second place |
| `Nostr.FirstTagIsIndexed` | crates/menhir-core/src/event.rs:113-129 | what authorization reads, if anything, is the first of what is indexed |
| `Nostr.FirstTagIff` | crates/menhir-core/src/event.rs:113-119 | the first tag of the name has a value, and it is this |
| `Nostr.CarriesTwiceIff` | crates/menhir-core/src/event.rs:122-129 | more than one value is listed iff two tags of the name have values |
| `Nostr.ReplyParentIff` | crates/menhir-relay/src/server.rs:397-410 | the parent is the non-empty id in the first `e` tag whose fourth item is "reply"; unmarked `e` tags do not count |
| `Text.OneByteIff` | crates/menhir-relay/src/db.rs:220 | indexed are names of one byte in UTF-8 |
| `Text.ByteLenCounts` | crates/menhir-relay/src/server.rs:494 | lengths are counted in bytes of the UTF-8 encoding |
| `Text.LeadByteTells` | crates/menhir-relay/src/server.rs:494 | and that encoding is UTF-8: its first byte tells how many there are |
| `Text.StrLessIff` | crates/menhir-relay/src/db.rs:194 | ids compare lexicographically |
| `Text.TrimIff` | crates/menhir-relay/src/server.rs:444 | trimming leaves the one text without space at its ends, taking spaces off both |
| `Querying.QueryRefinesMatching` | crates/menhir-relay/src/db.rs:251-348 | for indexable tag names and bounds below 2^63, page by page the SQL query gives what `Filter::matches` selects |
| `Querying.ClausesAgree` | crates/menhir-core/src/filter.rs:76-109 | a stored event passes the WHERE clause iff the plain matcher accepts it |
| `Nostr.MatchesIff` | crates/menhir-core/src/filter.rs:60-109 | an event matches iff it meets every condition given, a `#x` condition by carrying, in some `x` tag, one of the texts listed |
| `Querying.PageIsTheTop` | crates/menhir-relay/src/db.rs:316-318 | a page is strictly ordered by (created_at descending, id ascending), holds min(limit, matches) stored matches, and whatever it leaves out comes after all it holds |
| `Querying.PageInPlainTerms` | crates/menhir-relay/src/db.rs:316-317 | the page of a filter is the first 500 of the stored events it matches, or as many as it asks for but never over 5000, later times first and of one time lower ids first |
| `Querying.OneFilterIsItsPage` | crates/menhir-relay/src/db.rs:251-348 | one filter is answered with its page |
| `Querying.FurtherFilterAdds` | crates/menhir-relay/src/db.rs:332-346 | a further filter adds, after the answer to the others, exactly what of its page they did not bring, in order |
| `Querying.RoomyPageIsAll` | crates/menhir-relay/src/db.rs:316-318 | a page whose limit is not hit holds every match |
| `Querying.QueryIsTheUnion` | crates/menhir-relay/src/db.rs:253-258 | several filters give the union of their pages, no id twice; exactly the stored matches when no limit is hit |
| `Querying.UnionIsOnce` | crates/menhir-relay/src/db.rs:332-346 | the deduplicating loop gives out each event of the pages exactly once |
| `Querying.SinceAgreesIff` | crates/menhir-relay/src/db.rs:293-300 | the cast of `since` and of `until` agrees with the matcher on all stored times iff the bound is below 2^63 |
| `Querying.TagFilterAgreesIff` | crates/menhir-relay/src/db.rs:301-314 | a tag filter agrees on every exactly indexed store iff its name is one byte or it lists no value: longer names are matched live but never found in history |
| `HandOff.NoGap` | crates/menhir-relay/src/server.rs:171-218 | under any interleaving of insertions, broadcasts, purges, queries, registrations and polls, every matching event stored when the query ran or inserted after it has been sent to the subscription, or waits to be broadcast or read (no lag, subscription kept, complete answer) |
| `HandOff.GoKeepsCover` | crates/menhir-relay/src/server.rs:171-218 | no single move loses an event on its way to a subscription that wants it |
| `HandOff.NothingMissingWhenQuiet` | crates/menhir-relay/src/server.rs:271-321 | once every insertion was broadcast and every broadcast read, each such event has been sent |
| `HandOff.QuietMeansComplete` | crates/menhir-relay/src/server.rs:171-218 | in such a quiet state every stored event the subscription matches has been sent to it |
| `HandOff.ReadingSendsWanted` | crates/menhir-relay/src/server.rs:200-212 | reading a broadcast message sends it once to each subscription then standing one of whose filters matches it, over an admitted connection, and sends nothing else |
| `HandOff.StandingChanges` | crates/menhir-relay/src/server.rs:259-266 | a subscription starts to stand with the move that registers it, with the filters of its query, and ends by being closed |
| `HandOff.EveryFrameIsJustified` | crates/menhir-relay/src/server.rs:186-218 | nothing unwanted: over any run every frame sent was sent by one move, either as part of the answer to a query of its subscription, or as the message being read, matched by a filter of a subscription then standing |
| `HandOff.OnlyAnswersElse` | crates/menhir-relay/src/server.rs:301-318 | a query sends exactly its answer in order, and no other move but reading sends anything |
| `HandOff.ReadOnce` | crates/menhir-relay/src/server.rs:200-212 | no message of the broadcast is read twice |
| `HandOff.NoneSkipped` | crates/menhir-relay/src/server.rs:200-213 | without a lag none is skipped |
| `ClientRuns.ClientKeepsLists` | app/ui/src/main.js:706-780 | over any run of selections, arrivals, marks, timers and flushes every list in memory is strictly sorted, free of duplicates and made of known events, and what is stored for it, or about to be, is its newest 300 |
| `ClientRuns.FlushedListsAreStored` | app/ui/src/store.js:80-93 | hence after a flush the disk holds the newest 300 of every list in memory |
| `ClientRuns.ListHoldsWhatArrived` | app/ui/src/main.js:716-780 | a list in memory holds exactly what was stored for its channel and what arrived for it since |
| `Resuming.ResumeOverRun` | app/ui/src/store.js:150-159 | a client that left with a list complete from `lo` on at one state of a run of the relay, and merges the answer to its resumed subscription at a later one, has every message the channel then has from `lo` on, each once and sorted, if what was stored since is no more than a minute older than its newest and at most 200 messages are that new |
| `Resuming.SameChat` | docs/PROTOCOL.md:57-60 | two messages of a channel under one id, at two states of a run, are one message, signature and all |
| `Resuming.WholeOrGone` | crates/menhir-relay/src/db.rs:645-657 | a stored message stays as it is until its channel is deleted |
| `Cache.MergedIsTimeline` | app/ui/src/store.js:141-148 | a merge is strictly sorted by (created_at, id) and holds exactly the last event seen under each id |
| `Cache.TimelineIff` | app/ui/src/store.js:145-147 | sorted means earlier first, of one second the lower id first |
| `Cache.MergedHolds` | app/ui/src/store.js:141-148 | where ids determine events, merging is union |
| `Cache.MergeIdempotent` | app/ui/src/store.js:141-148 | merging a timeline with itself or with nothing gives it back |
| `Cache.MergeCommutes` | app/ui/src/store.js:141-148 | the order of the two lists does not matter |
| `Cache.MergeAssociates` | app/ui/src/store.js:141-148 | nor does grouping: arrival in any batches gives the same list |
| `Cache.LengthTestExact` | app/ui/src/main.js:764-766 | on a timeline the equal-length test holds iff the list is unchanged, which is iff nothing incoming is new |
| `Cache.MergeMessages` | app/ui/src/store.js:141-148 | two loops and a sort compute the merge |
| `Cache.DebounceLosesNothing` | app/ui/src/store.js:68-93 | over any run of saves, timers and flushes, pending over storage is the newest 300 of the last save per key (a cancelled timer overwrites nothing), and after a flush storage alone is |
| `Cache.NewestIs` | app/ui/src/store.js:71-72 | kept is the end of the list, 300 long where the list is longer |
| `Cache.KeysApart` | app/ui/src/store.js:69 | lists of different servers or channels are stored under different keys |
| `Cache.WriteCache.constructor` | app/ui/src/store.js:56 | nothing pending, no timer |
| `Cache.WriteCache.SaveMessages` | app/ui/src/store.js:68-78 | the step `Save`: the earlier timer of the key is cancelled, storage untouched |
| `Cache.WriteCache.TimerFires` | app/ui/src/store.js:73-76 | the step `Fire` of a live timer |
| `Cache.WriteCache.FlushWrites` | app/ui/src/store.js:87-93 | the loop writes every pending entry and cancels every timer: the step `Flush` |
| `Cache.FlushKeepsPairing` | app/ui/src/store.js:87-93 | after a flush nothing is pending, no timer is left and storage is what a reader would have seen |
| `Cache.UnreadIn` | app/ui/src/store.js:191-200 | on a list in time order the backwards loop with early exit is the plain count of others' newer messages; on any list it never exceeds it |
| `Cache.CountNewCounts` | app/ui/src/store.js:187-190 | that count is the number of messages newer than the mark that are not the reader's own |
| `Cache.Inbox.UnreadCount` | app/ui/src/main.js:667-669 | exact on every list merging produces |
| `Cache.Inbox.constructor` | app/ui/src/main.js:390-394 | connected: no list loaded, marks as stored |
| `Cache.Inbox.SelectChannel` | app/ui/src/main.js:717 | the first look at a channel loads what is stored for it; a loaded list is kept |
| `Cache.Inbox.IngestEvents` | app/ui/src/main.js:762-768 | the step `Ingest`: merge, and save unless the length says nothing is new |
| `Cache.IngestMerges` | app/ui/src/main.js:762-768 | on a timeline the channel becomes the merge and is saved iff it changed; other channels are untouched |
| `Cache.Inbox.MarkChannelRead` | app/ui/src/main.js:685-693 | the step `MarkRead`, in memory and on disk |
| `Cache.MarkingReads` | app/ui/src/main.js:678-693 | no mark ever decreases and only this channel's moves; when looked at (or forced) nothing in it is unread for anyone; stored marks stay those in memory |
| `Cache.ChannelFilterMeans` | app/ui/src/main.js:733-738 | the filter sent asks for exactly the channel's chat from a minute before the newest cached message |
| `Cache.AnswerIsExact` | crates/menhir-relay/src/db.rs:251-348 | with at most 200 qualifying, the relay's answer to it is exactly those |
| `Cache.ResumeIsComplete` | app/ui/src/store.js:150-159 | a cache complete on [lo, newest], merged with the answer to the resumed subscription, holds every message of the channel from `lo` on, each once and sorted, and nothing foreign |
| `Threads.NothingLostIff` | app/ui/src/main.js:867-915 | cards and replies hold every message of the list exactly once iff no loaded message runs into a reply cycle; the promise of lines 870-873 fails exactly on cycles |
| `Threads.ShownIffGrounded` | app/ui/src/main.js:875-915 | a message is shown iff its reply chain ends, and then once |
| `Threads.CardShows` | app/ui/src/main.js:891-914 | each card has a post with nothing further to climb to, and below it exactly the other messages whose reply chain ends there, in list order |
| `Threads.CardsAreThePosts` | app/ui/src/main.js:902-914 | the cards are exactly the messages with nothing further to climb to, in list order |
| `Threads.RootIff` | app/ui/src/main.js:879-889 | the root of a message whose chain ends is where it ends |
| `Threads.ParentIs` | app/ui/src/main.js:883-884 | a message climbs to the loaded message its first reply tag names |
| `Threads.MutualRepliesAreLost` | app/ui/src/main.js:879-889 | two messages answering each other are both dropped |
| `Threads.RootSettlesIff` | app/ui/src/main.js:879-889 | climbing ends at a message with nothing further to climb to iff the chain is not cyclic |
| `Threads.OwnRootIff` | app/ui/src/main.js:893-896 | a message is its own root iff it has no loaded parent or names itself |
| `Threads.FindRoot` | app/ui/src/main.js:879-889 | the loop terminates (loaded ids not yet seen shrink) with the root |
| `Threads.GroupByRoot` | app/ui/src/main.js:891-901 | posts are the messages that are their own root, in list order; each reply list holds the others with that root, in list order |
| `Threads.RenderPublication` | app/ui/src/main.js:875-915 | the two loops build the cards of `ShownIffGrounded` |
| `JoinLink.RoundTripIff` | crates/menhir-cli/src/main.rs:266-284 | a printed link reads back as what was printed iff neither relay nor code holds `&` and the relay holds neither `%3A` nor `%2F` |
| `JoinLink.EncodedRoundTrip` | crates/menhir-cli/src/main.rs:275 | a relay without `%` and `&` that the sender percent-encoded reads back decoded |
| `JoinLink.DecodeFixedIff` | crates/menhir-cli/src/main.rs:275 | decoding leaves a relay as it is iff it holds neither escape |
| `JoinLink.PrintedPairs` | app/src-tauri/src/host.rs:338 | reading a printed link without stray `&` gives the decoded relay and the code |
| `JoinLink.LinkQueryIff` | crates/menhir-cli/src/main.rs:267-270 | the query is what follows the scheme, or else what follows the first `/join?`; other texts are no link |
| `JoinLink.SplitIs` | crates/menhir-cli/src/main.rs:273 | the pairs are what stands between the ampersands |
| `JoinLink.LastPairsCount` | crates/menhir-cli/src/main.rs:273-279 | the last `relay` pair counts, decoded, and the last `invite` pair as it stands |
| `JoinLink.ParseJoinLink` | crates/menhir-cli/src/main.rs:266-284 | the loop computes `Parse`: last `relay` and last `invite` win, links without either prefix or without relay are refused |
| `EventId.SerializedIsInjective` | crates/menhir-core/src/event.rs:38-49 | the JSON text an id is the digest of, with its escapes, determines pubkey, time, kind, tags and content |
| `EventId.SerializedExample` | crates/menhir-core/src/event.rs:38-49 | the text of a small event, escape included |
| `EventId.IdsDetermineEvents` | crates/menhir-core/src/event.rs:74-110 | hence a digest without collisions and a verifier that recomputes the id meet everything the run theorems assume |
| `Witnesses.AssumptionsCanBeMet` | crates/menhir-core/src/event.rs:74-110 | such a digest and verifier exist |
| `Witnesses.EffectsHappen` | crates/menhir-relay/src/server.rs:545-577 | with them there is a run in which an event takes effect |
| `RelayServer.Relay.constructor` | crates/menhir-relay/src/server.rs:82-95 | a relay starts on the database it is given, whatever that holds, with the operator whitelisted |
| `RelayServer.Connection.constructor` | crates/menhir-relay/src/server.rs:171-178 | a connection starts without identity and without subscriptions |
| `RelayServer.Relay.SetLocked` | crates/menhir-relay/src/server.rs:46-50 | the door is as set |
| `RelayServer.Relay.CheckAllowed` | crates/menhir-relay/src/server.rs:382-390 | open relay, operator, or whitelisted |
| `RelayServer.Relay.CheckAdmin` | crates/menhir-relay/src/server.rs:392-395 | operator everywhere, or admin of this channel |
| `RelayServer.Relay.RosterTags` | crates/menhir-relay/src/server.rs:724-731 | the loop lists every member under `members` and exactly admins and moderators, with their role, under `admins`, in listing order |
| `RelayServer.Relay.GroupMetaEvents` | crates/menhir-relay/src/server.rs:690-751 | nothing for a channel that is not live, else the three signed renderings with one repaired timestamp |
| `RelayServer.Relay.Chat` | crates/menhir-relay/src/server.rs:512-544 | decision and tables of the chat branch; a refusal leaves the tables as they were |
| `RelayServer.Relay.CreateChannel` | crates/menhir-relay/src/server.rs:545-577 | likewise for creating a channel |
| `RelayServer.Relay.Join` | crates/menhir-relay/src/server.rs:578-594 | likewise for joining |
| `RelayServer.Relay.Leave` | crates/menhir-relay/src/server.rs:595-603 | likewise for leaving, which does not ask whether the channel is live |
| `RelayServer.Relay.PutUsersFrom` | crates/menhir-relay/src/server.rs:616-629 | the loop over `p` tags adds or re-roles each in order |
| `RelayServer.Relay.RemoveUsersIn` | crates/menhir-relay/src/server.rs:630-634 | the loop removes each named key |
| `RelayServer.Relay.Moderation` | crates/menhir-relay/src/server.rs:604-654 | likewise for the four moderation kinds |
| `RelayServer.Relay.GroupLogic` | crates/menhir-relay/src/server.rs:507-658 | dispatch over the stored kinds; a refusal leaves the tables as they were |
| `RelayServer.Relay.CheckGate` | crates/menhir-relay/src/server.rs:458-505 | the checks every stored kind passes, in their order |
| `RelayServer.Relay.HandleAuthEvent` | crates/menhir-relay/src/server.rs:323-359 | identity, answer and untouched tables of an authentication, error by error |
| `RelayServer.Relay.HandleInviteEvent` | crates/menhir-relay/src/server.rs:431-456 | tables, identity and answer of a redemption, error by error |
| `RelayServer.Relay.PublishAll` | crates/menhir-relay/src/server.rs:677-680 | the metadata is inserted and broadcast event by event |
| `RelayServer.Relay.StoreAndSend` | crates/menhir-relay/src/server.rs:663-682 | store, broadcast, publish; nothing is broadcast for a duplicate or stale event |
| `RelayServer.Relay.HandleEventMessage` | crates/menhir-relay/src/server.rs:420-682 | the tables, identity, answer and broadcast tail are those of `Protocol.HandleEvent`, the step all run theorems are about |
| `RelayServer.Relay.HandleReq` | crates/menhir-relay/src/server.rs:271-321 | answer and subscriptions of a REQ, error by error |
| `RelayServer.Relay.HandleClientMessage` | crates/menhir-relay/src/server.rs:237-269 | the whole reaction to any client message is that of `Protocol.Serve`; the broadcast only grows |
| `Text.LastIndex` | crates/menhir-relay/src/server.rs:362-368 | finds the last occurrence, which is what strips the port |
| `Node.Node.constructor` | crates/menhir-relay/src/server.rs:82-95 | a node starts as `Runs.Started` says, on the database it is given |
| `Node.Node.Hear` | crates/menhir-relay/src/server.rs:187-196 | a message over an open connection object changes that connection, the tables and the answers as the run step says, and no other connection |
| `Node.Node.Connect` | crates/menhir-relay/src/server.rs:171-178 | a new connection object, the others kept |
| `Node.Node.Disconnect` | crates/menhir-relay/src/server.rs:197 | the connection goes, the tables stay |
| `Node.Node.Operate` | app/src-tauri/src/host.rs:346-402 | the operator's commands act on database and door as the run step says |
| `Node.Node.Reboot` | crates/menhir-relay/src/server.rs:82-95 | a new server process on the same database: tables kept, operator whitelisted, connections gone |
| `Node.Node.Act` | crates/menhir-relay/src/server.rs:171-218 | any action on the objects is the step `Runs.Step` |
| `Node.Play` | crates/menhir-relay/src/server.rs:171-218 | playing any list of actions on the objects leaves them in the state `Runs.Run`, of which all run theorems speak |
| `Database.Db.constructor` | crates/menhir-relay/src/db.rs:60-133 | a new database is empty |
| `Database.Db.HasEvent` | crates/menhir-relay/src/db.rs:137-144 | whether the id is stored |
| `Database.Db.InsertEvent` | crates/menhir-relay/src/db.rs:146-230 | new tables and result are those of `Tables.Insert`, of which module Convergence proves index, slots and winners |
| `Database.Db.Competitors` | crates/menhir-relay/src/db.rs:163-190 | finds the rows the event competes with, through the index |
| `Database.Db.DeleteEvents` | crates/menhir-relay/src/db.rs:200-203 | exactly these events and all their index rows go |
| `Database.Db.WriteEvent` | crates/menhir-relay/src/db.rs:205-227 | the event is filed under its id and the loop over the tags adds exactly its indexable ones |
| `Database.Db.MaxCreatedAtForD` | crates/menhir-relay/src/db.rs:236-249 | the newest time among the author's events with that `d`, none if there is none |
| `Tables.Maximum` | crates/menhir-relay/src/db.rs:238-246 | the aggregate is a member and an upper bound |
| `Ordering.SortKeys` | crates/menhir-relay/src/db.rs:317 | the one strictly sorted listing of the keys (`Ordering.SortedUnique`: there is only one) |
| `Database.Db.BuildClauses` | crates/menhir-relay/src/db.rs:257-314 | the clauses built conjunct by conjunct are those of `Querying.Clauses`, of which `Querying.ClausesAgree` gives the meaning |
| `Database.Db.Select` | crates/menhir-relay/src/db.rs:316-319 | rows that pass, sorted and cut: the page of `Querying.PageIsTheTop` |
| `Database.Db.GiveOut` | crates/menhir-relay/src/db.rs:332-346 | the inner loop hands out what was not seen and remembers everything |
| `Database.Db.Query` | crates/menhir-relay/src/db.rs:251-348 | the answer of `Querying.Query`, of which `Querying.QueryIsTheUnion` gives the meaning |
| `Database.Db.WhitelistAdd` | crates/menhir-relay/src/db.rs:352-359 | adds the key and changes nothing else |
| `Database.Db.WhitelistRemove` | crates/menhir-relay/src/db.rs:361-364 | removes the key, reports whether it was there |
| `Database.Db.WhitelistContains` | crates/menhir-relay/src/db.rs:366-374 | whether the key is listed |
| `Database.Db.InviteCreate` | crates/menhir-relay/src/db.rs:386-412 | a new invite without uses; the random code is a parameter |
| `Database.Db.InviteRevoke` | crates/menhir-relay/src/db.rs:431-434 | the invite is gone, reports whether it existed |
| `Database.Db.InviteRevokeAll` | crates/menhir-relay/src/db.rs:437-440 | all invites are gone, reports how many |
| `Database.Db.Redeem` | crates/menhir-relay/src/db.rs:443-468 | result and tables of `Tables.InviteRedeem`: unknown, expired and used-up codes change nothing (`Admission.RedemptionTakesOne` for success) |
| `Database.Db.CreateGroup` | crates/menhir-relay/src/db.rs:472-493 | creates an absent channel, with the type normalized (lines 52-57), and leaves a present one alone |
| `Database.Db.UpdateGroupMeta` | crates/menhir-relay/src/db.rs:495-522 | given fields of a present channel are replaced, all else kept |
| `Database.Db.DeleteGroup` | crates/menhir-relay/src/db.rs:524-533 | channel and members go, the id is retired |
| `Database.Db.IsRetired` | crates/menhir-relay/src/db.rs:539-548 | whether the id was deleted |
| `Database.Db.GetGroup` | crates/menhir-relay/src/db.rs:550-568 | the row of the channel, if it is live |
| `Database.Db.IsInGroup` | crates/menhir-relay/src/db.rs:593-602 | the index lookup that `Convergence.EventInGroupIff` gives its meaning |
| `Database.Db.AddMember` | crates/menhir-relay/src/db.rs:604-612 | a new row, or a new role in the row that is there with its `added_at` kept |
| `Database.Db.AddMemberIfAbsent` | crates/menhir-relay/src/db.rs:616-623 | a new row iff there was none; an existing row is untouched |
| `Database.Db.RemoveMember` | crates/menhir-relay/src/db.rs:625-632 | the row is gone, other rows are kept |
| `Database.Db.ListMembers` | crates/menhir-relay/src/db.rs:635-641 | all members of the channel with their roles, by `added_at` |
| `Database.Db.IsAdmin` | crates/menhir-relay/src/db.rs:659-668 | whether there is a row with the admin role |
| `Database.Db.PurgeGroupEvents` | crates/menhir-relay/src/db.rs:645-657 | the two deletes have the effect `Convergence.PurgeExact` describes |

## Left out

- Interleavings inside one message, other than those of `HandOff`: two connections' handlers are not
  interleaved call by call in `Runs`.
- `HandOff` follows one subscribing connection; all others appear as arbitrary insertions, broadcasts
  and purges. Sockets, frame order among several subscriptions of one event, and back-pressure are not
  modelled; a lag only sets a flag.
- I/O and database errors, crashes inside a message, and the durability of SQLite: calls are infallible.
  A restart keeps the tables; changing the configuration is not modelled.
- Tables.IndexRows: the tag table as a set of rows, so repeated rows are one; no statement in scope counts them.
- Tables.IndexedUnder: `LIMIT 1` without order is any `d` row of the event; the theorems on replacement
  ask that an addressable event's `d` values all equal its first, which holds of everything the relay stores.
- Database.Db.ListMembers: `ORDER BY added_at` leaves ties open; they are taken in primary key order, which
  `Invariants.MetadataInAnyOrder` shows not to matter to the stored metadata as sets of tags.
- Database.Db.InviteCreate: the random code is a parameter that is not in use; a clash would fail on the primary key.
- Columns nothing in scope reads: `retired_at`, and `added_at` and `note` of the whitelist; so are
  the listings of groups, invites and the whitelist.
- Nostr.Event: times and kinds are naturals, not `u64` and `u32`; stored times from 2^63 on, which the
  drift check excludes under any real clock, would be read back the same but sort as negative.
- Protocol.Note: replies carry the reason as a name, not its wording; JSON parsing is the `Message` type.
- Hashing, signing, hex and key formats (uninterpreted), NIP-11, Tor, the node manager, configuration
  files, and the command line apart from link parsing.
- Publication.PublicationThread: like `OnlyAdminsStartIff`, speaks of channels that were a publication whenever live; an admin may
  turn a chat channel into a publication, whose earlier messages then stand without a post.
- HandOff.NoGap: asks that the receiver never lags, that the subscription is neither closed nor reopened,
  and that the query's limits are not hit; without any of these the code does lose events.
- Cache.ResumeIsComplete: asks that what arrives late is no older than the one minute of overlap and that
  at most 200 messages qualify; the code has no means against either.
- Cache.Inbox: one server from connecting to it until leaving it, with nothing of it still waiting to be
  written when it is connected to; notifications, repainting, the optimistic echo after sending,
  `renameServer` and storage quota are left out. `subscribeChannel`'s bookkeeping of superseded
  subscriptions is, too: its events reach `Ingest` under the channel they were asked for.
- Text.StrLess: strings compare by code point; ids are hexadecimal, where JavaScript's order is the same.
- Client-side authentication and request progress of `crates/menhir-core/src/client.rs`: its queue
  hands unmatched messages back, so no progress can be claimed.
