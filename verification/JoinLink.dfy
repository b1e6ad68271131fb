/** Invite links: what the relay and the app print, and `parse_join_link` of the command line
    (crates/menhir-cli/src/main.rs). */
module JoinLink {
  import opened Text

  datatype Parsed = NotALink | NoRelay | Link(relay: string, invite: Option<string>)

  // ---- the string operations used ----

  /** `split(c)`. */
  function Split(s: string, c: char): (parts: seq<string>)
    ensures parts != []
  {
    if s == "" then [""]
    else if s[0] == c then [""] + Split(s[1..], c)
    else
      var rest := Split(s[1..], c);
      [[s[0]] + rest[0]] + rest[1..]
  }

  /** `split_once(c)`. */
  function SplitOnce(s: string, c: char): Option<(string, string)> {
    if s == "" then None
    else if s[0] == c then Some(("", s[1..]))
    else
      var rest := SplitOnce(s[1..], c);
      if rest.None? then None else Some(([s[0]] + rest.value.0, rest.value.1))
  }

  /** What follows the first occurrence of a text. */
  function AfterFirst(s: string, p: string): Option<string> {
    if p <= s then Some(s[|p|..]) else if s == "" then None else AfterFirst(s[1..], p)
  }

  /** `replace(from, to)`: occurrences from left to right, not overlapping. */
  function Replace(s: string, from: string, to: string): string
    requires from != ""
    decreases |s|
  {
    if s == "" then "" else if from <= s then to + Replace(s[|from|..], from, to)
    else [s[0]] + Replace(s[1..], from, to)
  }

  // ---- the parser ----

  function Decode(v: string): string {
    Replace(Replace(v, "%3A", ":"), "%2F", "/")
  }

  function LinkQuery(link: string): Option<string> {
    if "obelisk://join?" <= link then Some(link[|"obelisk://join?"|..]) else AfterFirst(link, "/join?")
  }

  /** The last `relay` and the last `invite` among the pairs. */
  function ReadPairs(pairs: seq<string>): (Option<string>, Option<string>)
    decreases |pairs|
  {
    if pairs == [] then (None, None)
    else
      var (relay, invite) := ReadPairs(pairs[..|pairs| - 1]);
      var kv := SplitOnce(pairs[|pairs| - 1], '=');
      if kv.Some? && kv.value.0 == "relay" then (Some(Decode(kv.value.1)), invite)
      else if kv.Some? && kv.value.0 == "invite" then (relay, Some(kv.value.1))
      else (relay, invite)
  }

  function Parse(link: string): Parsed {
    var query := LinkQuery(link);
    if query.None? then NotALink
    else
      var (relay, invite) := ReadPairs(Split(query.value, '&'));
      if relay.None? then NoRelay else Link(relay.value, invite)
  }

  method ParseJoinLink(link: string) returns (parsed: Parsed)
    ensures parsed == Parse(link)
  {
    var query := LinkQuery(link);
    if query.None? { return NotALink; }
    var relay: Option<string>, code: Option<string> := None, None;
    var pairs := Split(query.value, '&');
    for i := 0 to |pairs|
      invariant (relay, code) == ReadPairs(pairs[..i])
    {
      assert pairs[..i + 1][..i] == pairs[..i];
      var kv := SplitOnce(pairs[i], '=');
      if kv.Some? && kv.value.0 == "relay" {
        relay := Some(Decode(kv.value.1));
      } else if kv.Some? && kv.value.0 == "invite" {
        code := Some(kv.value.1);
      }
    }
    assert pairs[..|pairs|] == pairs;
    if relay.None? { return NoRelay; }
    parsed := Link(relay.value, code);
  }

  /** The link the relay and the app print. */
  function Print(relay: string, code: string): string {
    "obelisk://join?relay=" + relay + "&invite=" + code
  }

  // ---- splitting ----

  lemma {:induction false} SplitAlone(s: string, c: char)
    requires c !in s
    ensures Split(s, c) == [s]
  {
    if s != "" {
      SplitAlone(s[1..], c);
      assert [s[0]] + s[1..] == s;
    }
  }

  lemma {:induction false} SplitFirst(a: string, b: string, c: char)
    requires c !in a
    ensures Split(a + [c] + b, c) == [a] + Split(b, c)
  {
    var s := a + [c] + b;
    if a == "" {
      assert s[1..] == b;
    } else {
      assert s[1..] == a[1..] + [c] + b;
      SplitFirst(a[1..], b, c);
      var rest := Split(s[1..], c);
      assert rest[0] == a[1..] && rest[1..] == Split(b, c);
      assert [s[0]] + a[1..] == a;
    }
  }

  lemma {:induction false} PartsLackSeparator(s: string, c: char, part: string)
    requires part in Split(s, c)
    ensures c !in part
  {
    if s != "" {
      var rest := Split(s[1..], c);
      if s[0] == c {
        if part in rest { PartsLackSeparator(s[1..], c, part); }
      } else {
        PartsLackSeparator(s[1..], c, rest[0]);
        if part in rest[1..] { PartsLackSeparator(s[1..], c, part); }
      }
    }
  }

  lemma {:induction false} SplitOnceFirst(a: string, b: string, c: char)
    requires c !in a
    ensures SplitOnce(a + [c] + b, c) == Some((a, b))
  {
    var s := a + [c] + b;
    if a == "" {
      assert s[1..] == b;
    } else {
      assert s[1..] == a[1..] + [c] + b;
      SplitOnceFirst(a[1..], b, c);
      assert [s[0]] + a[1..] == a;
    }
  }

  lemma {:induction false} SplitOnceParts(s: string, c: char)
    requires SplitOnce(s, c).Some?
    ensures forall x :: x in SplitOnce(s, c).value.1 ==> x in s
  {
    if s[0] != c { SplitOnceParts(s[1..], c); }
  }

  // ---- replacing ----

  /** Replacing by something shorter shrinks the text exactly when there is something to replace. */
  lemma {:induction false} ReplaceShrinksIff(s: string, from: string, to: string)
    requires |to| < |from|
    ensures |Replace(s, from, to)| <= |s|
    ensures |Replace(s, from, to)| == |s| <==> !Contains(s, from)
    ensures !Contains(s, from) ==> Replace(s, from, to) == s
    decreases |s|
  {
    if s != "" {
      if from <= s {
        ReplaceShrinksIff(s[|from|..], from, to);
      } else {
        ReplaceShrinksIff(s[1..], from, to);
      }
    }
  }

  lemma {:induction false} ReplaceChars(s: string, from: string, to: string, x: char)
    requires from != "" && x in Replace(s, from, to)
    ensures x in s || x in to
    decreases |s|
  {
    if s != "" {
      if from <= s {
        if x !in to { ReplaceChars(s[|from|..], from, to, x); }
      } else if x != s[0] {
        ReplaceChars(s[1..], from, to, x);
      }
    }
  }

  lemma DecodeFixedIff(v: string)
    ensures Decode(v) == v <==> !Contains(v, "%3A") && !Contains(v, "%2F")
  {
    var once := Replace(v, "%3A", ":");
    ReplaceShrinksIff(v, "%3A", ":");
    ReplaceShrinksIff(once, "%2F", "/");
  }

  lemma DecodeLacksAmpersand(v: string)
    requires '&' !in v
    ensures '&' !in Decode(v)
  {
    var once := Replace(v, "%3A", ":");
    if '&' in Decode(v) {
      ReplaceChars(once, "%2F", "/", '&');
      ReplaceChars(v, "%3A", ":", '&');
      assert false;
    }
  }

  // ---- the round trip ----

  lemma PrintedQuery(relay: string, code: string)
    ensures LinkQuery(Print(relay, code)) == Some("relay=" + relay + "&invite=" + code)
  {
    var link, head := Print(relay, code), "obelisk://join?";
    assert link == head + ("relay=" + relay + "&invite=" + code);
    assert head <= link && link[|head|..] == "relay=" + relay + "&invite=" + code;
  }

  /** Without a separator in either, the pairs are the relay and the invite. */
  lemma PrintedPairs(relay: string, code: string)
    requires '&' !in relay && '&' !in code
    ensures Parse(Print(relay, code)) == Link(Decode(relay), Some(code))
  {
    PrintedQuery(relay, code);
    var first, second := "relay=" + relay, "invite=" + code;
    assert "relay=" + relay + "&invite=" + code == first + ['&'] + second;
    SplitFirst(first, second, '&');
    SplitAlone(second, '&');
    assert first == "relay" + ['='] + relay && second == "invite" + ['='] + code;
    SplitOnceFirst("relay", relay, '=');
    SplitOnceFirst("invite", code, '=');
    var pairs := [first] + [second];
    assert pairs[..1] == [first] && [first][..0] == [];
    assert ReadPairs([first]) == (Some(Decode(relay)), None);
    assert "invite"[0] != "relay"[0];
    assert ReadPairs(pairs) == (Some(Decode(relay)), Some(code));
  }

  lemma {:induction false} PairsLackAmpersand(pairs: seq<string>)
    requires forall p :: p in pairs ==> '&' !in p
    ensures var (relay, invite) := ReadPairs(pairs);
      (relay.Some? ==> '&' !in relay.value) && (invite.Some? ==> '&' !in invite.value)
    decreases |pairs|
  {
    if pairs != [] {
      PairsLackAmpersand(pairs[..|pairs| - 1]);
      var last := pairs[|pairs| - 1];
      assert last in pairs;
      if SplitOnce(last, '=').Some? {
        SplitOnceParts(last, '=');
        DecodeLacksAmpersand(SplitOnce(last, '=').value.1);
      }
    }
  }

  /** The printed link reads back as what was printed exactly when neither text holds an ampersand
      and the relay holds neither of the two escapes. */
  lemma RoundTripIff(relay: string, code: string)
    ensures Parse(Print(relay, code)) == Link(relay, Some(code)) <==>
              '&' !in relay && '&' !in code && !Contains(relay, "%3A") && !Contains(relay, "%2F")
  {
    if '&' !in relay && '&' !in code {
      PrintedPairs(relay, code);
      DecodeFixedIff(relay);
    } else {
      PrintedQuery(relay, code);
      var pairs := Split("relay=" + relay + "&invite=" + code, '&');
      forall p | p in pairs ensures '&' !in p { PartsLackSeparator("relay=" + relay + "&invite=" + code, '&', p); }
      PairsLackAmpersand(pairs);
    }
  }

  // ---- escaped relays ----

  /** `:` and `/` percent-encoded. */
  function Encode(s: string): string {
    if s == "" then ""
    else (if s[0] == ':' then "%3A" else if s[0] == '/' then "%2F" else [s[0]]) + Encode(s[1..])
  }

  function EncodeSlash(s: string): string {
    if s == "" then "" else (if s[0] == '/' then "%2F" else [s[0]]) + EncodeSlash(s[1..])
  }

  /** A character that does not start the pattern is copied. */
  lemma ReplaceSkips(c: char, rest: string, from: string, to: string)
    requires from != "" && c != from[0]
    ensures Replace([c] + rest, from, to) == [c] + Replace(rest, from, to)
  {
    assert ([c] + rest)[0] == c && ([c] + rest)[1..] == rest;
  }

  lemma SlashEscapeStays(rest: string)
    ensures Replace("%2F" + rest, "%3A", ":") == "%2F" + Replace(rest, "%3A", ":")
  {
    var s := "%2F" + rest;
    assert s[1..] == ['2'] + (['F'] + rest);
    assert s[1] == '2' && "%3A"[1] == '3';
    ReplaceSkips('2', ['F'] + rest, "%3A", ":");
    ReplaceSkips('F', rest, "%3A", ":");
    assert Replace(s, "%3A", ":") == ['%'] + (['2'] + (['F'] + Replace(rest, "%3A", ":")));
  }

  lemma {:induction false} DecodeColons(s: string)
    requires '%' !in s
    ensures Replace(Encode(s), "%3A", ":") == EncodeSlash(s)
  {
    if s != "" {
      var rest := Encode(s[1..]);
      DecodeColons(s[1..]);
      if s[0] == ':' {
        assert Encode(s)[3..] == rest;
      } else if s[0] == '/' {
        SlashEscapeStays(rest);
      } else {
        assert s[0] in s;
        ReplaceSkips(s[0], rest, "%3A", ":");
      }
    }
  }

  lemma {:induction false} DecodeSlashes(s: string)
    requires '%' !in s
    ensures Replace(EncodeSlash(s), "%2F", "/") == s
  {
    if s != "" {
      var rest := EncodeSlash(s[1..]);
      DecodeSlashes(s[1..]);
      if s[0] == '/' {
        assert EncodeSlash(s)[3..] == rest;
      } else {
        assert s[0] in s;
        ReplaceSkips(s[0], rest, "%2F", "/");
      }
    }
  }

  lemma {:induction false} EncodeLacksAmpersand(s: string)
    requires '&' !in s
    ensures '&' !in Encode(s)
  {
    if s != "" { EncodeLacksAmpersand(s[1..]); }
  }

  /** A relay without `%`, percent-encoded by the sender, reads back decoded. */
  lemma EncodedRoundTrip(relay: string, code: string)
    requires '%' !in relay && '&' !in relay && '&' !in code
    ensures Parse(Print(Encode(relay), code)) == Link(relay, Some(code))
  {
    EncodeLacksAmpersand(relay);
    PrintedPairs(Encode(relay), code);
    DecodeColons(relay);
    DecodeSlashes(relay);
  }

  // ---- what any link reads as ----

  lemma {:induction false} SplitOnceIff(s: string, c: char, a: string, b: string)
    ensures SplitOnce(s, c) == Some((a, b)) <==> c !in a && s == a + [c] + b
  {
    if c !in a && s == a + [c] + b {
      SplitOnceFirst(a, b, c);
    }
    if SplitOnce(s, c) == Some((a, b)) && s[0] != c {
      SplitOnceIff(s[1..], c, a[1..], b);
      assert s == [s[0]] + s[1..] && a == [s[0]] + a[1..];
    }
  }

  /** Texts with the separator between them. */
  function Joined(parts: seq<string>, c: char): string
    requires parts != []
  {
    if |parts| == 1 then parts[0] else parts[0] + [c] + Joined(parts[1..], c)
  }

  /** Splitting takes the text apart at every separator. */
  lemma {:induction false} SplitIs(s: string, c: char)
    ensures Joined(Split(s, c), c) == s && forall p :: p in Split(s, c) ==> c !in p
  {
    forall p | p in Split(s, c) ensures c !in p { PartsLackSeparator(s, c, p); }
    if s != "" {
      var rest := Split(s[1..], c);
      SplitIs(s[1..], c);
      assert s == [s[0]] + s[1..];
      if s[0] == c {
        assert ([""] + rest)[1..] == rest;
      } else {
        var parts := [[s[0]] + rest[0]] + rest[1..];
        assert parts[1..] == rest[1..];
        assert Joined(parts, c) == [s[0]] + Joined(rest, c);
      }
    }
  }

  /** The first occurrence of `p` comes after `a` and is followed by `q`. */
  ghost predicate FirstAt(s: string, p: string, a: string, q: string) {
    s == a + p + q && forall b, r :: s == b + p + r ==> |a| <= |b|
  }

  lemma LaterStart(s: string, p: string, b: string, r: string)
    requires s != "" && !(p <= s) && s == b + p + r
    ensures b != "" && s[1..] == b[1..] + p + r
  {
    assert "" + p + r == p + r;
  }

  lemma FirstAtLater(s: string, p: string, a: string, q: string)
    requires s != "" && !(p <= s)
    ensures FirstAt(s[1..], p, a, q) ==> FirstAt(s, p, [s[0]] + a, q)
    ensures FirstAt(s, p, a, q) ==> a != "" && FirstAt(s[1..], p, a[1..], q)
  {
    if FirstAt(s[1..], p, a, q) {
      assert s == ([s[0]] + a) + p + q;
      forall b, r | s == b + p + r ensures |[s[0]] + a| <= |b| { LaterStart(s, p, b, r); }
    }
    if FirstAt(s, p, a, q) {
      LaterStart(s, p, a, q);
      forall b, r | s[1..] == b + p + r ensures |a[1..]| <= |b| { assert s == ([s[0]] + b) + p + r; }
    }
  }

  lemma {:induction false} AfterFirstIff(s: string, p: string, q: string)
    ensures AfterFirst(s, p) == Some(q) <==> exists a :: FirstAt(s, p, a, q)
  {
    if p <= s {
      assert s == "" + p + s[|p|..];
      if AfterFirst(s, p) == Some(q) { assert FirstAt(s, p, "", q); }
      if a :| FirstAt(s, p, a, q) { assert a == "" && a + p + q == p + q; }
    } else if s == "" {
      forall a ensures !FirstAt(s, p, a, q) { assert |a + p + q| >= |p|; }
    } else {
      hide FirstAt;
      AfterFirstIff(s[1..], p, q);
      forall a
        ensures FirstAt(s[1..], p, a, q) ==> FirstAt(s, p, [s[0]] + a, q)
        ensures FirstAt(s, p, a, q) ==> a != "" && FirstAt(s[1..], p, a[1..], q)
      {
        FirstAtLater(s, p, a, q);
      }
    }
  }

  /** The query is what follows the scheme, or else what follows the first `/join?`. */
  lemma LinkQueryIff(link: string, q: string)
    ensures LinkQuery(link) == Some(q) <==>
              || link == "obelisk://join?" + q
              || (!("obelisk://join?" <= link)
                  && exists a :: FirstAt(link, "/join?", a, q))
  {
    hide FirstAt;
    AfterFirstIff(link, "/join?", q);
    assert "obelisk://join?" <= link ==> link == "obelisk://join?" + link[|"obelisk://join?"|..];
    assert ("obelisk://join?" + q)[|"obelisk://join?"|..] == q;
  }

  /** The `i`th pair gives this key this text. */
  predicate Gives(pairs: seq<string>, i: nat, key: string, raw: string)
    requires i < |pairs|
  {
    pairs[i] == key + "=" + raw
  }

  /** The last pair with this key gives it this text. */
  ghost predicate LastGives(pairs: seq<string>, key: string, raw: string) {
    exists i :: 0 <= i < |pairs| && Gives(pairs, i, key, raw)
                && forall j, other :: i < j < |pairs| ==> !Gives(pairs, j, key, other)
  }

  lemma KeyIs(pair: string, key: string, raw: string)
    requires '=' !in key
    ensures pair == key + "=" + raw <==> SplitOnce(pair, '=') == Some((key, raw))
  {
    SplitOnceIff(pair, '=', key, raw);
  }

  lemma LastGivesStep(pairs: seq<string>, key: string, raw: string)
    requires pairs != [] && '=' !in key
    ensures var kv := SplitOnce(pairs[|pairs| - 1], '=');
      LastGives(pairs, key, raw) <==>
        if kv.Some? && kv.value.0 == key then kv.value.1 == raw else LastGives(pairs[..|pairs| - 1], key, raw)
  {
    var n := |pairs| - 1;
    var front, last := pairs[..n], pairs[n];
    forall r ensures Gives(pairs, n, key, r) <==> SplitOnce(last, '=') == Some((key, r)) { KeyIs(last, key, r); }
    assert forall i, r :: 0 <= i < n ==> (Gives(pairs, i, key, r) <==> Gives(front, i, key, r));
    if SplitOnce(last, '=').Some? && SplitOnce(last, '=').value.0 == key {
      assert Gives(pairs, n, key, SplitOnce(last, '=').value.1);
    }
  }

  /** The last `relay` pair and the last `invite` pair count; the relay is decoded. */
  lemma {:induction false} LastPairsCount(pairs: seq<string>)
    ensures var (relay, invite) := ReadPairs(pairs);
      && (forall v :: relay == Some(v) <==> exists raw :: LastGives(pairs, "relay", raw) && v == Decode(raw))
      && (forall v :: invite == Some(v) <==> LastGives(pairs, "invite", v))
    decreases |pairs|
  {
    if pairs != [] {
      hide Decode, LastGives;
      LastPairsCount(pairs[..|pairs| - 1]);
      assert "relay"[0] != "invite"[0];
      forall raw
        ensures var kv := SplitOnce(pairs[|pairs| - 1], '=');
          LastGives(pairs, "relay", raw) <==>
            if kv.Some? && kv.value.0 == "relay" then kv.value.1 == raw
            else LastGives(pairs[..|pairs| - 1], "relay", raw)
      {
        LastGivesStep(pairs, "relay", raw);
      }
      forall raw
        ensures var kv := SplitOnce(pairs[|pairs| - 1], '=');
          LastGives(pairs, "invite", raw) <==>
            if kv.Some? && kv.value.0 == "invite" then kv.value.1 == raw
            else LastGives(pairs[..|pairs| - 1], "invite", raw)
      {
        LastGivesStep(pairs, "invite", raw);
      }
    }
  }
}
