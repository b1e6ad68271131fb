/** The text an event id is the digest of (crates/menhir-core/src/event.rs): the compact JSON array
    `[0, pubkey, created_at, kind, tags, content]`, which determines what it was made from. */
module EventId {
  import opened Nostr

  // ---- numbers ----

  function Digit(d: nat): char
    requires d < 10
  {
    (d + '0' as int) as char
  }

  function Digits(n: nat): string {
    if n < 10 then [Digit(n)] else Digits(n / 10) + [Digit(n % 10)]
  }

  function Reading(s: string): int {
    if s == "" then 0 else 10 * Reading(s[..|s| - 1]) + (s[|s| - 1] as int - '0' as int)
  }

  lemma {:induction false} DigitsReadBack(n: nat)
    ensures Reading(Digits(n)) == n && ',' !in Digits(n)
  {
    if n >= 10 {
      DigitsReadBack(n / 10);
      assert Digits(n)[..|Digits(n)| - 1] == Digits(n / 10);
    } else {
      assert Digits(n)[..0] == "";
    }
  }

  lemma {:induction false} CommaEnds(a: string, b: string, x: string, y: string)
    requires ',' !in a && ',' !in b && a + ("," + x) == b + ("," + y)
    ensures a == b && x == y
  {
    var p, q := a + ("," + x), b + ("," + y);
    assert p[0] == (if a == "" then ',' else a[0]) && q[0] == (if b == "" then ',' else b[0]);
    if a == "" {
      assert x == p[1..] && y == q[1..];
    } else {
      assert a[0] in a && b != "" && b[0] == a[0];
      assert p[1..] == a[1..] + ("," + x) && q[1..] == b[1..] + ("," + y);
      CommaEnds(a[1..], b[1..], x, y);
      assert a == [a[0]] + a[1..] && b == [b[0]] + b[1..];
    }
  }

  // ---- strings ----

  function HexDigit(d: nat): char
    requires d < 16
  {
    if d < 10 then (d + '0' as int) as char else (d - 10 + 'a' as int) as char
  }

  /** What JSON writes for a character inside a string. */
  function Escaped(c: char): string {
    if c == '\"' then ['\\', '\"']
    else if c == '\\' then ['\\', '\\']
    else if c == '\U{8}' then ['\\', 'b']
    else if c == '\U{9}' then ['\\', 't']
    else if c == '\U{A}' then ['\\', 'n']
    else if c == '\U{C}' then ['\\', 'f']
    else if c == '\U{D}' then ['\\', 'r']
    else if c < ' ' then ['\\', 'u', '0', '0', HexDigit(c as int / 16), HexDigit(c as int % 16)]
    else [c]
  }

  /** The rest of a string, up to and with its closing quote. */
  function Closing(s: string): string {
    if s == "" then ['\"'] else Escaped(s[0]) + Closing(s[1..])
  }

  function Quoted(s: string): string {
    ['\"'] + Closing(s)
  }

  lemma EscapedReadsBack(c: char, d: char, x: string, y: string)
    requires Escaped(c) + x == Escaped(d) + y
    ensures c == d && x == y
  {
    var p, q, m, n := Escaped(c) + x, Escaped(d) + y, Escaped(c), Escaped(d);
    assert forall i :: 0 <= i < |m| ==> p[i] == m[i];
    assert forall i :: 0 <= i < |n| ==> q[i] == n[i];
    SameEscape(c, d);
    assert x == p[|m|..] && y == q[|n|..];
  }

  /** Characters whose escapes agree as far as both go are one character. */
  lemma SameEscape(c: char, d: char)
    requires forall i :: 0 <= i < |Escaped(c)| && i < |Escaped(d)| ==> Escaped(c)[i] == Escaped(d)[i]
    ensures c == d
  {
    var m, n := Escaped(c), Escaped(d);
    assert m[0] == n[0];
    if |m| > 1 && |n| > 1 {
      assert m[1] == n[1];
      if |m| == 6 && |n| == 6 {
        assert m[4] == n[4] && m[5] == n[5];
        SameHex(c, d);
      }
    }
  }

  lemma SameHex(c: char, d: char)
    requires c < ' ' && d < ' '
    requires HexDigit(c as int / 16) == HexDigit(d as int / 16) && HexDigit(c as int % 16) == HexDigit(d as int % 16)
    ensures c == d
  {
  }

  lemma EscapedIsNoQuote(c: char)
    ensures Escaped(c) != "" && Escaped(c)[0] != '\"'
  {
  }

  lemma {:induction false} ClosingReadsBack(a: string, b: string, x: string, y: string)
    requires Closing(a) + x == Closing(b) + y
    ensures a == b && x == y
  {
    hide Escaped;
    var p, q := Closing(a) + x, Closing(b) + y;
    if a != "" { EscapedIsNoQuote(a[0]); }
    if b != "" { EscapedIsNoQuote(b[0]); }
    assert p[0] == (if a == "" then '\"' else Escaped(a[0])[0]) && q[0] == (if b == "" then '\"' else Escaped(b[0])[0]);
    if a == "" {
      assert x == p[1..] && y == q[1..];
    } else {
      assert p == Escaped(a[0]) + (Closing(a[1..]) + x) && q == Escaped(b[0]) + (Closing(b[1..]) + y);
      EscapedReadsBack(a[0], b[0], Closing(a[1..]) + x, Closing(b[1..]) + y);
      ClosingReadsBack(a[1..], b[1..], x, y);
      assert a == [a[0]] + a[1..] && b == [b[0]] + b[1..];
    }
  }

  lemma QuotedReadsBack(a: string, b: string, x: string, y: string)
    requires Quoted(a) + x == Quoted(b) + y
    ensures a == b && x == y
  {
    hide Closing;
    assert (Quoted(a) + x)[1..] == Closing(a) + x && (Quoted(b) + y)[1..] == Closing(b) + y;
    ClosingReadsBack(a, b, x, y);
  }

  // ---- tags ----

  /** The rest of an array of strings, each with the comma before it, and the closing bracket. */
  function MoreItems(tag: Tag): string {
    if tag == [] then "]" else "," + (Quoted(tag[0]) + MoreItems(tag[1..]))
  }

  function Items(tag: Tag): string {
    if tag == [] then "]" else Quoted(tag[0]) + MoreItems(tag[1..])
  }

  function TagText(tag: Tag): string {
    "[" + Items(tag)
  }

  function MoreTags(tags: seq<Tag>): string {
    if tags == [] then "]" else "," + (TagText(tags[0]) + MoreTags(tags[1..]))
  }

  function AllTags(tags: seq<Tag>): string {
    if tags == [] then "]" else TagText(tags[0]) + MoreTags(tags[1..])
  }

  function TagsText(tags: seq<Tag>): string {
    "[" + AllTags(tags)
  }

  lemma {:induction false} MoreItemsReadBack(a: Tag, b: Tag, x: string, y: string)
    requires MoreItems(a) + x == MoreItems(b) + y
    ensures a == b && x == y
  {
    hide Quoted;
    var p, q := MoreItems(a) + x, MoreItems(b) + y;
    assert p[0] == (if a == [] then ']' else ',') && q[0] == (if b == [] then ']' else ',');
    if a == [] {
      assert x == p[1..] && y == q[1..];
    } else {
      assert p[1..] == Quoted(a[0]) + (MoreItems(a[1..]) + x) && q[1..] == Quoted(b[0]) + (MoreItems(b[1..]) + y);
      QuotedReadsBack(a[0], b[0], MoreItems(a[1..]) + x, MoreItems(b[1..]) + y);
      MoreItemsReadBack(a[1..], b[1..], x, y);
      assert a == [a[0]] + a[1..] && b == [b[0]] + b[1..];
    }
  }

  lemma QuotedOpens(s: string)
    ensures Quoted(s) != "" && Quoted(s)[0] == '\"'
  {
  }

  lemma ItemsReadBack(a: Tag, b: Tag, x: string, y: string)
    requires Items(a) + x == Items(b) + y
    ensures a == b && x == y
  {
    hide Quoted, MoreItems;
    var p, q := Items(a) + x, Items(b) + y;
    if a != [] { QuotedOpens(a[0]); }
    if b != [] { QuotedOpens(b[0]); }
    assert p[0] == (if a == [] then ']' else '\"') && q[0] == (if b == [] then ']' else '\"');
    if a == [] {
      assert x == p[1..] && y == q[1..];
    } else {
      NonEmptyItemsReadBack(a, b, x, y);
    }
  }

  lemma NonEmptyItemsReadBack(a: Tag, b: Tag, x: string, y: string)
    requires a != [] && b != [] && Items(a) + x == Items(b) + y
    ensures a == b && x == y
  {
    hide Quoted, MoreItems;
    assert Items(a) + x == Quoted(a[0]) + (MoreItems(a[1..]) + x)
        && Items(b) + y == Quoted(b[0]) + (MoreItems(b[1..]) + y);
    QuotedReadsBack(a[0], b[0], MoreItems(a[1..]) + x, MoreItems(b[1..]) + y);
    MoreItemsReadBack(a[1..], b[1..], x, y);
    assert a == [a[0]] + a[1..] && b == [b[0]] + b[1..];
  }

  lemma TagReadsBack(a: Tag, b: Tag, x: string, y: string)
    requires TagText(a) + x == TagText(b) + y
    ensures a == b && x == y
  {
    hide Items;
    assert (TagText(a) + x)[1..] == Items(a) + x && (TagText(b) + y)[1..] == Items(b) + y;
    ItemsReadBack(a, b, x, y);
  }

  lemma {:induction false} MoreTagsReadBack(a: seq<Tag>, b: seq<Tag>, x: string, y: string)
    requires MoreTags(a) + x == MoreTags(b) + y
    ensures a == b && x == y
  {
    hide TagText;
    var p, q := MoreTags(a) + x, MoreTags(b) + y;
    assert p[0] == (if a == [] then ']' else ',') && q[0] == (if b == [] then ']' else ',');
    if a == [] {
      assert x == p[1..] && y == q[1..];
    } else {
      assert p[1..] == TagText(a[0]) + (MoreTags(a[1..]) + x) && q[1..] == TagText(b[0]) + (MoreTags(b[1..]) + y);
      TagReadsBack(a[0], b[0], MoreTags(a[1..]) + x, MoreTags(b[1..]) + y);
      MoreTagsReadBack(a[1..], b[1..], x, y);
      assert a == [a[0]] + a[1..] && b == [b[0]] + b[1..];
    }
  }

  lemma TagOpens(tag: Tag)
    ensures TagText(tag) != "" && TagText(tag)[0] == '['
  {
  }

  lemma AllTagsReadBack(a: seq<Tag>, b: seq<Tag>, x: string, y: string)
    requires AllTags(a) + x == AllTags(b) + y
    ensures a == b && x == y
  {
    hide TagText, MoreTags;
    var p, q := AllTags(a) + x, AllTags(b) + y;
    if a != [] { TagOpens(a[0]); }
    if b != [] { TagOpens(b[0]); }
    assert p[0] == (if a == [] then ']' else '[') && q[0] == (if b == [] then ']' else '[');
    if a == [] {
      assert x == p[1..] && y == q[1..];
    } else {
      NonEmptyTagsReadBack(a, b, x, y);
    }
  }

  lemma NonEmptyTagsReadBack(a: seq<Tag>, b: seq<Tag>, x: string, y: string)
    requires a != [] && b != [] && AllTags(a) + x == AllTags(b) + y
    ensures a == b && x == y
  {
    hide TagText, MoreTags;
    assert AllTags(a) + x == TagText(a[0]) + (MoreTags(a[1..]) + x)
        && AllTags(b) + y == TagText(b[0]) + (MoreTags(b[1..]) + y);
    TagReadsBack(a[0], b[0], MoreTags(a[1..]) + x, MoreTags(b[1..]) + y);
    MoreTagsReadBack(a[1..], b[1..], x, y);
    assert a == [a[0]] + a[1..] && b == [b[0]] + b[1..];
  }

  lemma TagsReadBack(a: seq<Tag>, b: seq<Tag>, x: string, y: string)
    requires TagsText(a) + x == TagsText(b) + y
    ensures a == b && x == y
  {
    hide AllTags;
    assert (TagsText(a) + x)[1..] == AllTags(a) + x && (TagsText(b) + y)[1..] == AllTags(b) + y;
    AllTagsReadBack(a, b, x, y);
  }

  // ---- events ----

  function Serialized(b: Body): string {
    "[0," + (Quoted(b.pubkey) + ("," + AfterKey(b)))
  }

  function AfterKey(b: Body): string {
    Digits(b.createdAt) + ("," + (Digits(b.kind) + ("," + AfterKind(b))))
  }

  function AfterKind(b: Body): string {
    TagsText(b.tags) + ("," + (Quoted(b.content) + "]"))
  }

  lemma AfterKindReadsBack(a: Body, b: Body)
    requires AfterKind(a) == AfterKind(b)
    ensures a.tags == b.tags && a.content == b.content
  {
    hide TagsText, Quoted;
    var x, y := "," + (Quoted(a.content) + "]"), "," + (Quoted(b.content) + "]");
    TagsReadBack(a.tags, b.tags, x, y);
    assert x[1..] == Quoted(a.content) + "]" && y[1..] == Quoted(b.content) + "]";
    QuotedReadsBack(a.content, b.content, "]", "]");
  }

  lemma AfterKeyReadsBack(a: Body, b: Body)
    requires AfterKey(a) == AfterKey(b)
    ensures a.createdAt == b.createdAt && a.kind == b.kind && a.tags == b.tags && a.content == b.content
  {
    hide Digits, AfterKind;
    DigitsReadBack(a.createdAt);
    DigitsReadBack(b.createdAt);
    DigitsReadBack(a.kind);
    DigitsReadBack(b.kind);
    var x, y := Digits(a.kind) + ("," + AfterKind(a)), Digits(b.kind) + ("," + AfterKind(b));
    CommaEnds(Digits(a.createdAt), Digits(b.createdAt), x, y);
    CommaEnds(Digits(a.kind), Digits(b.kind), AfterKind(a), AfterKind(b));
    AfterKindReadsBack(a, b);
  }

  /** The text determines pubkey, time, kind, tags and content. */
  lemma SerializedIsInjective(a: Body, b: Body)
    requires Serialized(a) == Serialized(b)
    ensures a == b
  {
    hide Quoted, AfterKey;
    var x, y := "," + AfterKey(a), "," + AfterKey(b);
    assert Serialized(a)[3..] == Quoted(a.pubkey) + x && Serialized(b)[3..] == Quoted(b.pubkey) + y;
    QuotedReadsBack(a.pubkey, b.pubkey, x, y);
    assert x[1..] == AfterKey(a) && y[1..] == AfterKey(b);
    AfterKeyReadsBack(a, b);
  }

  /** A digest without collisions on texts, and a verifier that recomputes the id, are all that the
      relay's theorems assume of the cryptography. */
  lemma IdsDetermineEvents(digest: string -> string, sign: Body -> string, verify: Event -> bool)
    requires forall x: string, y: string :: digest(x) == digest(y) ==> x == y
    requires forall e: Event :: verify(e) ==> e.id == digest(Serialized(BodyOf(e)))
    ensures Trustworthy(Crypto((b: Body) => digest(Serialized(b)), sign, verify))
  {
    forall a: Body, b: Body | digest(Serialized(a)) == digest(Serialized(b)) ensures a == b {
      SerializedIsInjective(a, b);
    }
  }

  // ---- one text written out ----

  lemma QuotedPlain(c: char)
    requires ' ' <= c && c != '\"' && c != '\\'
    ensures Quoted([c]) == ['\"', c, '\"']
  {
    assert [c][1..] == "";
    assert Closing([c]) == [c] + Closing("");
  }

  lemma QuotedNewline()
    ensures Quoted("\n") == "\"\\n\""
  {
    assert "\n"[1..] == "";
    assert Closing("\n") == "\\n" + Closing("");
  }

  lemma ExampleTags()
    ensures TagsText([["h", "a"]]) == "[[\"h\",\"a\"]]"
  {
    QuotedPlain('h');
    QuotedPlain('a');
    hide Quoted;
    var tag: Tag := ["h", "a"];
    assert tag[1..] == ["a"] && ["a"][1..] == [];
    assert MoreItems(["a"]) == "," + (Quoted("a") + MoreItems([]));
    assert TagText(tag) == "[\"h\",\"a\"]";
    assert |[tag][1..]| == 0;
    assert AllTags([tag]) == TagText(tag) + MoreTags([]);
  }

  lemma ExampleKind(b: Body)
    requires b.tags == [["h", "a"]] && b.content == "\n"
    ensures AfterKind(b) == "[[\"h\",\"a\"]],\"\\n\"]"
  {
    QuotedNewline();
    ExampleTags();
    hide Quoted, TagsText;
  }

  lemma ExampleDigits()
    ensures Digits(17) == "17" && Digits(9) == "9"
  {
    assert Digits(1) == "1";
  }

  lemma ExampleKey(b: Body)
    requires b.createdAt == 17 && b.kind == 9
    ensures AfterKey(b) == "17,9," + AfterKind(b)
  {
    ExampleDigits();
    hide Digits, AfterKind;
    var rest := AfterKind(b);
    assert AfterKey(b) == "17" + ("," + ("9" + ("," + rest)));
    assert "," + ("9" + ("," + rest)) == ",9," + rest;
    assert "17" + (",9," + rest) == "17,9," + rest;
  }

  lemma ExampleStart(b: Body)
    requires b.pubkey == "k"
    ensures Serialized(b) == "[0,\"k\"," + AfterKey(b)
  {
    QuotedPlain('k');
    hide Quoted, AfterKey;
    var rest := AfterKey(b);
    assert "\"k\"" + ("," + rest) == "\"k\"," + rest;
  }

  /** The text of a small event. */
  lemma SerializedExample(b: Body)
    requires b.pubkey == "k" && b.createdAt == 17 && b.kind == 9 && b.tags == [["h", "a"]] && b.content == "\n"
    ensures Serialized(b) == "[0,\"k\"," + ("17,9," + "[[\"h\",\"a\"]],\"\\n\"]")
  {
    hide Serialized, AfterKey, AfterKind;
    ExampleStart(b);
    ExampleKey(b);
    ExampleKind(b);
  }
}
