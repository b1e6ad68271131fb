/** Who a connection speaks for: exactly when authenticating succeeds, and where every identity a
    connection has in a run comes from. */
module Identity {
  import opened Text
  import opened Nostr
  import opened Tables
  import opened Protocol
  import opened Runs
  import opened Admission

  // ---- which host an address names ----

  /** The host without a port: what stands before the last colon, unless there is another colon before
      it or a bracket anywhere. */
  ghost predicate HostPart(hostport: string, host: string) {
    if exists port :: hostport == host + ":" + port && PlainPort(hostport, host, port) then true
    else hostport == host && !exists h, port :: hostport == h + ":" + port && PlainPort(hostport, h, port)
  }

  predicate PlainPort(hostport: string, host: string, port: string) {
    ':' !in host && ':' !in port && ']' !in hostport
  }

  lemma HostPartIff(hostport: string, host: string)
    ensures HostOnly(hostport) == host <==> HostPart(hostport, host)
  {
    var i := LastIndex(hostport, ':');
    if i.Some? {
      var h, p := hostport[..i.value], hostport[i.value + 1..];
      assert hostport == h + ":" + p;
    }
    forall h, p | hostport == h + ":" + p && ':' !in h && ':' !in p ensures i == Some(|h|) && hostport[..|h|] == h {
      assert hostport[|h|] == ':' && ':' in hostport;
    }
  }

  /** Letters in lower case. */
  predicate Lowered(a: string, b: string) {
    |a| == |b| && forall i :: 0 <= i < |a| ==> b[i] == LowerChar(a[i])
  }

  lemma {:induction false} LoweredIff(a: string, b: string)
    ensures AsciiLower(a) == b <==> Lowered(a, b)
  {
    AsciiLowerAt(a);
  }

  /** `ws://` or `wss://`, a host with or without a port, and perhaps a path: this host. */
  ghost predicate NamesHost(url: string, host: string) {
    exists hostport, rest, bare ::
      && (url == "wss://" + hostport + rest || url == "ws://" + hostport + rest)
      && hostport != "" && '/' !in hostport && (rest == "" || rest[0] == '/')
      && HostPart(hostport, bare) && Lowered(bare, host)
  }

  lemma {:induction false} BeforeSplit(hostport: string, rest: string)
    requires '/' !in hostport && (rest == "" || rest[0] == '/')
    ensures Before(hostport + rest, '/') == hostport
  {
    if hostport == "" {
      assert hostport + rest == rest;
    } else {
      assert hostport[0] in hostport && (hostport + rest)[1..] == hostport[1..] + rest;
      BeforeSplit(hostport[1..], rest);
    }
  }

  lemma HostOfSplit(hostport: string, rest: string, url: string)
    requires url == "wss://" + hostport + rest || url == "ws://" + hostport + rest
    requires '/' !in hostport && (rest == "" || rest[0] == '/') && hostport != ""
    ensures UrlHost(url) == Some(AsciiLower(HostOnly(hostport)))
  {
    hide AsciiLower, HostOnly, Before;
    BeforeSplit(hostport, rest);
    if url == "wss://" + hostport + rest {
      assert url[6..] == hostport + rest;
    } else {
      assert url == "ws://" + (hostport + rest);
      assert url[2] == ':' && "wss://"[2] == 's';
      assert url[5..] == hostport + rest;
    }
  }

  lemma TailSplits(scheme: string, tail: string) returns (hostport: string, rest: string)
    ensures hostport == Before(tail, '/') && '/' !in hostport && (rest == "" || rest[0] == '/')
    ensures scheme + tail == scheme + hostport + rest
  {
    hide Before;
    BeforeIs(tail, '/');
    hostport := Before(tail, '/');
    rest := tail[|hostport|..];
    assert tail == hostport + rest;
    assert scheme + (hostport + rest) == scheme + hostport + rest;
  }

  lemma HostIsFound(url: string) returns (hostport: string, rest: string)
    requires UrlHost(url).Some?
    ensures url == "wss://" + hostport + rest || url == "ws://" + hostport + rest
    ensures hostport != "" && '/' !in hostport && (rest == "" || rest[0] == '/')
    ensures UrlHost(url) == Some(AsciiLower(HostOnly(hostport)))
  {
    hide AsciiLower, HostOnly, Before;
    if "wss://" <= url {
      assert url == "wss://" + url[6..];
      hostport, rest := TailSplits("wss://", url[6..]);
    } else {
      assert url == "ws://" + url[5..];
      hostport, rest := TailSplits("ws://", url[5..]);
    }
  }

  lemma UrlHostIff(url: string, host: string)
    ensures UrlHost(url) == Some(host) <==> NamesHost(url, host)
  {
    hide AsciiLower, HostOnly, HostPart, Lowered, UrlHost;
    if NamesHost(url, host) {
      var hostport, rest, bare :|
        && (url == "wss://" + hostport + rest || url == "ws://" + hostport + rest)
        && hostport != "" && '/' !in hostport && (rest == "" || rest[0] == '/')
        && HostPart(hostport, bare) && Lowered(bare, host);
      HostOfSplit(hostport, rest, url);
      HostPartIff(hostport, bare);
      LoweredIff(bare, host);
    }
    if UrlHost(url) == Some(host) {
      var hostport, rest := HostIsFound(url);
      HostPartIff(hostport, HostOnly(hostport));
      LoweredIff(HostOnly(hostport), host);
    }
  }

  // ---- authenticating ----

  /** The operator, somebody on the whitelist, or anybody where the relay is open. */
  predicate Welcomed(cfg: Config, t: Tables, pk: string) {
    cfg.open || cfg.operator == Some(pk) || pk in t.whitelist
  }

  /** The event answers this connection: it is verified, of kind 22242, carries the connection's challenge
      in its first challenge tag, is at most ten minutes off the clock, names the host the connection was
      made to (where that is known), and its author is welcome. */
  ghost predicate Authenticates(cfg: Config, t: Tables, s: Session, ev: Event, c: Clock) {
    && cfg.crypto.verify(ev) && ev.kind == 22242
    && FirstNamed(ev.tags, "challenge", s.challenge)
    && ev.createdAt <= c.check + 600 && c.check <= ev.createdAt + 600
    && (s.host.Some? ==>
          exists url, host :: FirstNamed(ev.tags, "relay", url) && NamesHost(url, host) && HostPart(s.host.value, host))
    && Welcomed(cfg, t, ev.pubkey)
  }

  lemma HostCheckIff(s: Session, ev: Event)
    requires s.host.Some?
    ensures var relay := FirstTag(ev.tags, "relay");
      (exists url, host :: FirstNamed(ev.tags, "relay", url) && NamesHost(url, host) && HostPart(s.host.value, host))
      <==> relay.Some? && UrlHost(relay.value) == Some(HostOnly(s.host.value))
  {
    hide FirstTag, FirstNamed, NamesHost, HostPart, UrlHost, HostOnly;
    forall url ensures FirstTag(ev.tags, "relay") == Some(url) <==> FirstNamed(ev.tags, "relay", url) {
      FirstTagIff(ev.tags, "relay", url);
    }
    forall url, host ensures UrlHost(url) == Some(host) <==> NamesHost(url, host) { UrlHostIff(url, host); }
    forall host ensures HostOnly(s.host.value) == host <==> HostPart(s.host.value, host) {
      HostPartIff(s.host.value, host);
    }
    if FirstTag(ev.tags, "relay").Some? && UrlHost(FirstTag(ev.tags, "relay").value) == Some(HostOnly(s.host.value)) {
      assert FirstNamed(ev.tags, "relay", FirstTag(ev.tags, "relay").value)
             && NamesHost(FirstTag(ev.tags, "relay").value, HostOnly(s.host.value));
    }
  }

  lemma AuthIff(cfg: Config, t: Tables, s: Session, ev: Event, c: Clock)
    ensures var o := HandleAuth(cfg, t, s, ev, c);
      && (o.accepted <==> Authenticates(cfg, t, s, ev, c))
      && o.authed == (if Authenticates(cfg, t, s, ev, c) then Some(ev.pubkey) else s.authed)
      && o.t == t && o.sent == []
  {
    FirstTagIff(ev.tags, "challenge", s.challenge);
    if s.host.Some? { HostCheckIff(s, ev); }
    hide FirstTag, FirstNamed, NamesHost, HostPart, UrlHost, HostOnly;
  }

  /** The message offers an event for authentication. */
  predicate Offers(m: Message) {
    (m.AuthMsg? || (m.EventMsg? && m.ev.kind == 22242)) && TagLimitError(m.ev).None?
  }

  /** A message offering an event makes its author the connection's identity exactly when the event
      authenticates; otherwise the identity stays as it was, and in either case so do all tables. */
  lemma AuthenticatesIff(cfg: Config, s: System, n: nat, m: Message, c: Clock)
    requires n in s.conns && Offers(m)
    ensures var u := Step(cfg, s, Say(n, m, c));
      && u.t == s.t && n in u.conns
      && u.conns[n] == s.conns[n].(authed :=
           if Authenticates(cfg, s.t, s.conns[n], m.ev, c) then Some(m.ev.pubkey) else s.conns[n].authed)
      && forall k :: k in s.conns && k != n ==> k in u.conns && u.conns[k] == s.conns[k]
  {
    AuthIff(cfg, s.t, s.conns[n], m.ev, c);
    hide HandleAuth, HandleStored, Authenticates, TagLimitError;
    NotVerifiedIsNoAuth(cfg, s.t, s.conns[n], m.ev, c);
  }

  lemma NotVerifiedIsNoAuth(cfg: Config, t: Tables, s: Session, ev: Event, c: Clock)
    ensures Authenticates(cfg, t, s, ev, c) ==> cfg.crypto.verify(ev)
  {
  }

  // ---- where identities come from ----

  /** At this step the connection proved to be the pubkey: it answered its own challenge, or redeemed. */
  ghost predicate Proves(cfg: Config, s: System, a: Action, n: nat, pk: string) {
    && a.Say? && a.conn == n && n in s.conns
    && (|| (Offers(a.m) && a.m.ev.pubkey == pk && Authenticates(cfg, s.t, s.conns[n], a.m.ev, a.c))
        || exists code :: Redeems(cfg, s, a, code, pk))
  }

  /** The step leaves the connection in place. */
  predicate Leaves(a: Action, n: nat) {
    !(a.Open? && a.conn == n) && !(a.Drop? && a.conn == n) && !a.Restart?
  }

  lemma IdentityChange(cfg: Config, s: System, a: Action, n: nat, pk: string)
    requires n in Step(cfg, s, a).conns && Step(cfg, s, a).conns[n].authed == Some(pk)
    requires !(n in s.conns && s.conns[n].authed == Some(pk))
    ensures Proves(cfg, s, a, n, pk) && Leaves(a, n)
  {
    assert a.Say? && a.conn == n && n in s.conns;
    if Offers(a.m) {
      hide Step, Authenticates;
      AuthenticatesIff(cfg, s, n, a.m, a.c);
    } else {
      OtherIdentityChange(cfg, s, a, n, pk);
    }
  }

  lemma OtherIdentityChange(cfg: Config, s: System, a: Action, n: nat, pk: string)
    requires a.Say? && a.conn == n && n in s.conns && !Offers(a.m)
    requires Step(cfg, s, a).conns[n].authed == Some(pk) && s.conns[n].authed != Some(pk)
    ensures exists code :: Redeems(cfg, s, a, code, pk)
  {
    assert Submits(s, a) && a.m.ev.kind == INVITE_REDEEM;
    assert Redeems(cfg, s, a, Trim(a.m.ev.content), pk);
  }

  lemma SessionKeepsItsChallenge(cfg: Config, s: System, a: Action, n: nat)
    requires n in Step(cfg, s, a).conns && Leaves(a, n)
    ensures n in s.conns && Step(cfg, s, a).conns[n].challenge == s.conns[n].challenge
    ensures Step(cfg, s, a).conns[n].host == s.conns[n].host
  {
    hide HandleEvent, HandleAuth;
  }

  lemma KeptIdentity(cfg: Config, s: System, a: Action, n: nat, pk: string)
    requires n in Step(cfg, s, a).conns && Step(cfg, s, a).conns[n].authed == Some(pk) && !Proves(cfg, s, a, n, pk)
    ensures Leaves(a, n) && n in s.conns && s.conns[n].authed == Some(pk)
  {
    if !(n in s.conns && s.conns[n].authed == Some(pk)) {
      IdentityChange(cfg, s, a, n, pk);
    } else {
      hide HandleEvent, HandleAuth;
    }
  }

  /** Whatever identity a connection has, it proved over this very connection: since it was opened, it
      answered the challenge it still has, or redeemed an invite. */
  lemma {:induction false} IdentityWasProved(cfg: Config, locked: bool, acts: seq<Action>, k: nat, n: nat, pk: string)
    returns (i: nat)
    requires k <= |acts| && n in At(cfg, locked, acts, k).conns && At(cfg, locked, acts, k).conns[n].authed == Some(pk)
    ensures i < k && Proves(cfg, At(cfg, locked, acts, i), acts[i], n, pk)
    ensures forall j :: i <= j < k ==> Leaves(acts[j], n)
    ensures At(cfg, locked, acts, i).conns[n].challenge == At(cfg, locked, acts, k).conns[n].challenge
    ensures At(cfg, locked, acts, i).conns[n].host == At(cfg, locked, acts, k).conns[n].host
    decreases k
  {
    hide Step, Proves;
    assert k > 0 by { NobodyAtStart(cfg, locked, acts, k, n); }
    AtNext(cfg, locked, acts, k - 1);
    var s, a := At(cfg, locked, acts, k - 1), acts[k - 1];
    if Proves(cfg, s, a, n, pk) {
      i := k - 1;
      ProvingStays(cfg, s, a, n, pk);
      SessionKeepsItsChallenge(cfg, s, a, n);
    } else {
      KeptIdentity(cfg, s, a, n, pk);
      SessionKeepsItsChallenge(cfg, s, a, n);
      i := IdentityWasProved(cfg, locked, acts, k - 1, n, pk);
    }
  }

  lemma NobodyAtStart(cfg: Config, locked: bool, acts: seq<Action>, k: nat, n: nat)
    requires k <= |acts| && n in At(cfg, locked, acts, k).conns
    ensures k > 0
  {
  }

  lemma ProvingStays(cfg: Config, s: System, a: Action, n: nat, pk: string)
    requires Proves(cfg, s, a, n, pk)
    ensures Leaves(a, n) && n in s.conns
  {
  }
}
