/** The whole relay at work: the relay object, its connection objects, and the operator's commands.
    Playing actions on these objects is what the theorems about runs are about. */
module Node {
  import opened Text
  import opened Database
  import opened Protocol
  import opened RelayServer
  import opened Runs

  function WithSender(n: nat, replies: seq<Reply>): seq<(nat, Reply)> {
    seq(|replies|, i requires 0 <= i < |replies| => (n, replies[i]))
  }

  class Node {
    var relay: Relay
    var conns: map<nat, Connection>
    var answers: seq<(nat, Reply)>

    ghost predicate Valid()
      reads this
    {
      forall m, n :: m in conns && n in conns && m != n ==> conns[m] != conns[n]
    }

    ghost function Objects(): set<object>
      reads this, relay
    {
      {this, relay, relay.db} + set n | n in conns :: conns[n]
    }

    ghost function Sessions(): map<nat, Session>
      reads this, set n | n in conns :: conns[n]
    {
      map n | n in conns :: conns[n].View()
    }

    ghost function View(): System
      reads this, relay, relay.db, set n | n in conns :: conns[n]
    {
      System(relay.db.View(), relay.locked, Sessions())
    }

    /** Starts on the database it is given. */
    constructor (cfg: Config, locked: bool, db: Db)
      modifies db
      ensures Valid() && relay.cfg == cfg && relay.db == db && fresh(relay) && conns == map[]
      ensures View() == Started(cfg, locked, old(db.View()))
    {
      relay := new Relay(cfg, locked, db);
      conns, answers := map[], [];
    }

    /** A client says something over an open connection; over a closed one nothing is heard. */
    method Hear(n: nat, m: Message, c: Clock)
      requires Valid()
      modifies Objects()
      ensures Valid() && relay == old(relay) && conns == old(conns)
      ensures View() == Step(relay.cfg, old(View()), Say(n, m, c))
      ensures var was := old(View());
        answers == old(answers)
                   + if n !in conns then []
                     else WithSender(n, Serve(relay.cfg, was.t, was.locked, was.conns[n], m, c).replies)
    {
      hide Serve;
      if n in conns {
        var ctx := conns[n];
        var replies := relay.HandleClientMessage(ctx, m, c);
        answers := answers + WithSender(n, replies);
        assert Sessions() == old(Sessions())[n := ctx.View()];
      }
    }

    method Connect(n: nat, challenge: string, host: Option<string>)
      requires Valid()
      modifies this`conns
      ensures Valid() && conns.Keys == old(conns).Keys + {n} && fresh(conns[n])
      ensures forall k :: k in old(conns) && k != n ==> conns[k] == old(conns)[k]
      ensures View() == Step(relay.cfg, old(View()), Open(n, challenge, host))
    {
      hide Serve;
      var ctx := new Connection(challenge, host);
      conns := conns[n := ctx];
      assert Sessions() == old(Sessions())[n := ctx.View()];
    }

    method Disconnect(n: nat)
      requires Valid()
      modifies this`conns
      ensures Valid() && forall k :: k in conns ==> k in old(conns) && conns[k] == old(conns)[k]
      ensures View() == Step(relay.cfg, old(View()), Drop(n))
    {
      conns := conns - {n};
      assert Sessions() == old(Sessions()) - {n};
    }

    /** The operator's commands, which act on the database and the door behind the server's back. */
    method Operate(a: Action)
      requires Valid() && !a.Say? && !a.Open? && !a.Drop? && !a.Restart?
      modifies relay`locked, relay.db
      ensures View() == Step(relay.cfg, old(View()), a)
    {
      hide Serve;
      match a {
        case AddToWhitelist(pk) => relay.db.WhitelistAdd(pk);
        case RemoveFromWhitelist(pk) => var _ := relay.db.WhitelistRemove(pk);
        case CreateInvite(code, maxUses, expiresAt, now) =>
          if code !in relay.db.invites { relay.db.InviteCreate(code, maxUses, expiresAt, now); }
        case RevokeInvite(code) => var _ := relay.db.InviteRevoke(code);
        case RevokeAllInvites => var _ := relay.db.InviteRevokeAll();
        case SetDoor(b) => relay.SetLocked(b);
      }
      assert Sessions() == old(Sessions());
    }

    /** A new server process on the same database. */
    method Reboot(locked: bool)
      requires Valid()
      modifies this, relay.db
      ensures Valid() && fresh(relay) && relay.db == old(relay.db) && relay.cfg == old(relay.cfg) && conns == map[]
      ensures View() == Step(relay.cfg, old(View()), Restart(locked))
    {
      relay := new Relay(relay.cfg, locked, relay.db);
      conns := map[];
    }

    method Act(a: Action)
      requires Valid()
      modifies Objects()
      ensures Valid() && fresh(Objects() - old(Objects())) && relay.cfg == old(relay.cfg)
      ensures View() == Step(relay.cfg, old(View()), a)
    {
      hide Step;
      match a {
        case Open(n, challenge, host) => Connect(n, challenge, host);
        case Drop(n) => Disconnect(n);
        case Say(n, m, c) => Hear(n, m, c);
        case Restart(b) => Reboot(b);
        case AddToWhitelist(_) => Operate(a);
        case RemoveFromWhitelist(_) => Operate(a);
        case CreateInvite(_, _, _, _) => Operate(a);
        case RevokeInvite(_) => Operate(a);
        case RevokeAllInvites => Operate(a);
        case SetDoor(_) => Operate(a);
      }
    }
  }

  /** Playing any list of actions on a relay started on an empty database leaves the objects in the
      state the theorems about runs speak of. */
  method Play(cfg: Config, locked: bool, acts: seq<Action>) returns (node: Node)
    ensures node.Valid() && node.relay.cfg == cfg && node.View() == Run(cfg, locked, acts)
  {
    hide Step;
    var db := new Db();
    node := new Node(cfg, locked, db);
    for i := 0 to |acts|
      invariant node.Valid() && fresh(node.Objects()) && node.relay.cfg == cfg
      invariant node.View() == Run(cfg, locked, acts[..i])
    {
      assert acts[..i + 1][..i] == acts[..i];
      node.Act(acts[i]);
    }
    assert acts[..|acts|] == acts;
  }
}
