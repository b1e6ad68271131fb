/** Strings as sequences of Unicode scalar values: the order SQLite and Rust compare text by,
    UTF-8 lengths, and the handful of `str` operations the relay and the command line use. */
module Text {

  datatype Option<+T> = None | Some(value: T)

  /** Bytes a string takes in UTF-8: what Rust's `len()` reports. */
  function ByteLen(s: string): nat {
    if s == "" then 0 else CharBytes(s[0]) + ByteLen(s[1..])
  }

  function CharBytes(c: char): nat {
    if c < '\U{80}' then 1 else if c < '\U{800}' then 2 else if c < '\U{10000}' then 3 else 4
  }

  /** The UTF-8 encoding of a character (section 3 of RFC 3629). */
  function Utf8(c: char): (bytes: seq<nat>)
    ensures |bytes| == CharBytes(c)
    ensures forall b :: b in bytes ==> b < 256
  {
    var n := c as int;
    if n < 0x80 then [n]
    else if n < 0x800 then [0xC0 + n / 64, 0x80 + n % 64]
    else if n < 0x1_0000 then [0xE0 + n / 4096, 0x80 + n / 64 % 64, 0x80 + n % 64]
    else [0xF0 + n / 262144, 0x80 + n / 4096 % 64, 0x80 + n / 64 % 64, 0x80 + n % 64]
  }

  function Utf8Text(s: string): seq<nat> {
    if s == "" then [] else Utf8(s[0]) + Utf8Text(s[1..])
  }

  /** Lengths are counted in bytes of the encoding. */
  lemma {:induction false} ByteLenCounts(s: string)
    ensures ByteLen(s) == |Utf8Text(s)|
  {
    if s != "" { ByteLenCounts(s[1..]); }
  }

  /** The first byte tells how many there are. */
  lemma LeadByteTells(c: char)
    ensures Utf8(c)[0] < 0x80 <==> CharBytes(c) == 1
    ensures 0xC2 <= Utf8(c)[0] < 0xE0 <==> CharBytes(c) == 2
    ensures 0xE0 <= Utf8(c)[0] < 0xF0 <==> CharBytes(c) == 3
    ensures 0xF0 <= Utf8(c)[0] < 0xF5 <==> CharBytes(c) == 4
  {
    assert c as int < 0x11_0000;
  }

  /** `s.len() == 1`: exactly the tag names that are indexed. */
  predicate OneByte(s: string) {
    |s| == 1 && CharBytes(s[0]) == 1
  }

  lemma {:induction false} BytesCover(s: string)
    ensures |s| <= ByteLen(s) <= 4 * |s|
  {
    if s != "" { BytesCover(s[1..]); }
  }

  lemma OneByteIff(s: string)
    ensures OneByte(s) <==> ByteLen(s) == 1
  {
    BytesCover(s);
    if |s| == 1 { assert ByteLen(s[1..]) == 0; }
  }

  // ---- order ----

  /** Code point order, which on UTF-8 is bytewise order. */
  predicate StrLess(a: string, b: string) {
    if a == "" then b != ""
    else if b == "" then false
    else if a[0] != b[0] then a[0] < b[0]
    else StrLess(a[1..], b[1..])
  }

  lemma {:induction false} StrLessIrreflexive(a: string)
    ensures !StrLess(a, a)
  {
    if a != "" { StrLessIrreflexive(a[1..]); }
  }

  lemma {:induction false} StrLessTransitive(a: string, b: string, c: string)
    requires StrLess(a, b) && StrLess(b, c)
    ensures StrLess(a, c)
  {
    if a != "" && a[0] == b[0] && b[0] == c[0] { StrLessTransitive(a[1..], b[1..], c[1..]); }
  }

  lemma {:induction false} StrLessTotal(a: string, b: string)
    ensures a == b || StrLess(a, b) || StrLess(b, a)
  {
    if a != "" && b != "" && a[0] == b[0] {
      StrLessTotal(a[1..], b[1..]);
      assert a == [a[0]] + a[1..] && b == [b[0]] + b[1..];
    }
  }

  /** Lexicographic: a proper prefix, or smaller at the first difference. */
  lemma {:induction false} StrLessIff(a: string, b: string)
    ensures StrLess(a, b) <==>
              || (|a| < |b| && a == b[..|a|])
              || (exists i :: 0 <= i < |a| && i < |b| && a[..i] == b[..i] && a[i] < b[i])
  {
    if a != "" && b != "" && a[0] == b[0] {
      StrLessIff(a[1..], b[1..]);
      assert a == [a[0]] + a[1..] && b == [b[0]] + b[1..];
      if |a| < |b| && a == b[..|a|] { assert a[1..] == b[1..][..|a| - 1]; }
      if |a[1..]| < |b[1..]| && a[1..] == b[1..][..|a| - 1] { assert a == b[..|a|]; }
      if i :| 0 <= i < |a| && i < |b| && a[..i] == b[..i] && a[i] < b[i] {
        assert a[1..][..i - 1] == a[..i][1..] && b[1..][..i - 1] == b[..i][1..];
        assert a[1..][i - 1] < b[1..][i - 1];
      }
      if i :| 0 <= i < |a[1..]| && i < |b[1..]| && a[1..][..i] == b[1..][..i] && a[1..][i] < b[1..][i] {
        assert a[..i + 1] == [a[0]] + a[1..][..i] && b[..i + 1] == [b[0]] + b[1..][..i];
        assert a[i + 1] < b[i + 1];
      }
    } else if a != "" && b != "" {
      assert forall i :: 0 < i < |a| && i < |b| ==> a[..i][0] != b[..i][0];
      if a[0] < b[0] { assert a[..0] == b[..0]; }
    }
  }

  // ---- trimming ----

  /** Unicode White_Space, as `char::is_whitespace` tests it. */
  predicate IsSpace(c: char) {
    || '\U{9}' <= c <= '\U{D}' || c == ' ' || c == '\U{85}' || c == '\U{A0}' || c == '\U{1680}'
    || '\U{2000}' <= c <= '\U{200A}' || c == '\U{2028}' || c == '\U{2029}' || c == '\U{202F}'
    || c == '\U{205F}' || c == '\U{3000}'
  }

  function TrimStart(s: string): string {
    if s != "" && IsSpace(s[0]) then TrimStart(s[1..]) else s
  }

  function TrimEnd(s: string): string {
    if s != "" && IsSpace(s[|s| - 1]) then TrimEnd(s[..|s| - 1]) else s
  }

  function Trim(s: string): string {
    TrimEnd(TrimStart(s))
  }

  predicate Blank(s: string) {
    forall c :: c in s ==> IsSpace(c)
  }

  /** No space at either end. */
  predicate Tight(s: string) {
    s == "" || (!IsSpace(s[0]) && !IsSpace(s[|s| - 1]))
  }

  lemma {:induction false} TrimStartIs(s: string)
    ensures exists p :: Blank(p) && s == p + TrimStart(s)
    ensures TrimStart(s) == "" || !IsSpace(TrimStart(s)[0])
  {
    if s != "" && IsSpace(s[0]) {
      TrimStartIs(s[1..]);
      var p :| Blank(p) && s[1..] == p + TrimStart(s[1..]);
      assert s == ([s[0]] + p) + TrimStart(s) && Blank([s[0]] + p);
    } else {
      assert s == "" + TrimStart(s) && Blank("");
    }
  }

  lemma {:induction false} TrimEndIs(s: string)
    ensures exists q :: Blank(q) && s == TrimEnd(s) + q
    ensures TrimEnd(s) == "" || !IsSpace(TrimEnd(s)[|TrimEnd(s)| - 1])
  {
    if s != "" && IsSpace(s[|s| - 1]) {
      var front, last := s[..|s| - 1], s[|s| - 1];
      TrimEndIs(front);
      var q :| Blank(q) && front == TrimEnd(front) + q;
      assert s == TrimEnd(s) + (q + [last]) && Blank(q + [last]);
    } else {
      assert s == TrimEnd(s) + "" && Blank("");
    }
  }

  /** Trimming takes off the spaces at both ends and nothing else. */
  lemma TrimIs(s: string)
    ensures Tight(Trim(s)) && exists p, q :: Blank(p) && Blank(q) && s == p + Trim(s) + q
  {
    TrimStartIs(s);
    TrimEndIs(TrimStart(s));
    var p :| Blank(p) && s == p + TrimStart(s);
    var q :| Blank(q) && TrimStart(s) == Trim(s) + q;
    assert s == p + Trim(s) + q;
    if Trim(s) != "" { assert TrimStart(s)[0] == Trim(s)[0]; }
  }

  lemma {:induction false} TrimStartOf(p: string, x: string)
    requires Blank(p) && x != "" && !IsSpace(x[0])
    ensures TrimStart(p + x) == x
  {
    if p == "" {
      assert p + x == x;
    } else {
      assert p[0] in p && (p + x)[1..] == p[1..] + x && forall c :: c in p[1..] ==> c in p;
      TrimStartOf(p[1..], x);
    }
  }

  lemma {:induction false} TrimEndOf(x: string, q: string)
    requires Blank(q) && x != "" && !IsSpace(x[|x| - 1])
    ensures TrimEnd(x + q) == x
  {
    if q == "" {
      assert x + q == x;
    } else {
      var n := |q| - 1;
      assert q[n] in q && (x + q)[..|x + q| - 1] == x + q[..n] && forall c :: c in q[..n] ==> c in q;
      TrimEndOf(x, q[..n]);
    }
  }

  lemma {:induction false} BlankTrims(s: string)
    requires Blank(s)
    ensures TrimStart(s) == ""
  {
    if s != "" {
      assert s[0] in s && forall c :: c in s[1..] ==> c in s;
      BlankTrims(s[1..]);
    }
  }

  /** The one tight text between spaces. */
  lemma TrimIff(s: string, x: string)
    ensures Trim(s) == x <==> Tight(x) && exists p, q :: Blank(p) && Blank(q) && s == p + x + q
  {
    TrimIs(s);
    if Tight(x) {
      if p, q :| Blank(p) && Blank(q) && s == p + x + q {
        if x == "" {
          assert s == p + q && Blank(p + q);
          BlankTrims(s);
        } else {
          assert s == p + (x + q) && (x + q)[0] == x[0];
          TrimStartOf(p, x + q);
          TrimEndOf(x, q);
        }
      }
    }
  }

  // ---- searching ----

  /** `strip_prefix`. */
  function StripPrefix(s: string, p: string): Option<string> {
    if p <= s then Some(s[|p|..]) else None
  }

  /** `s.contains(p)`. */
  predicate Contains(s: string, p: string) {
    p <= s || (s != "" && Contains(s[1..], p))
  }

  /** ASCII letters to lower case, everything else kept. */
  function AsciiLower(s: string): string {
    if s == "" then "" else [LowerChar(s[0])] + AsciiLower(s[1..])
  }

  function LowerChar(c: char): char {
    if 'A' <= c <= 'Z' then ((c as int) + 32) as char else c
  }

  /** What comes before the first `c`, or everything. */
  function Before(s: string, c: char): string {
    if s == "" || s[0] == c then "" else [s[0]] + Before(s[1..], c)
  }

  lemma {:induction false} ContainsIff(s: string, p: string)
    ensures Contains(s, p) <==> exists a, b :: s == a + p + b
  {
    if p <= s {
      assert s == "" + p + s[|p|..];
    } else if s == "" {
      forall a, b ensures s != a + p + b { assert |a + p + b| >= |p|; }
    } else {
      ContainsIff(s[1..], p);
      if a, b :| s[1..] == a + p + b { assert s == ([s[0]] + a) + p + b; }
      if a, b :| s == a + p + b {
        assert "" + p + b == p + b;
        assert s[1..] == a[1..] + p + b;
      }
    }
  }

  lemma {:induction false} AsciiLowerAt(s: string)
    ensures |AsciiLower(s)| == |s|
    ensures forall i :: 0 <= i < |s| ==>
              if 'A' <= s[i] <= 'Z' then AsciiLower(s)[i] as int - 'a' as int == s[i] as int - 'A' as int
              else AsciiLower(s)[i] == s[i]
  {
    if s != "" { AsciiLowerAt(s[1..]); }
  }

  lemma {:induction false} BeforeIs(s: string, c: char)
    ensures c !in Before(s, c)
    ensures s == Before(s, c) || exists rest :: s == Before(s, c) + [c] + rest
  {
    if s != "" && s[0] != c {
      BeforeIs(s[1..], c);
      assert s == [s[0]] + s[1..];
      if s[1..] != Before(s[1..], c) {
        var rest :| s[1..] == Before(s[1..], c) + [c] + rest;
        assert s == Before(s, c) + [c] + rest;
      }
    } else if s != "" {
      assert s == Before(s, c) + [c] + s[1..];
    }
  }

  /** `rfind(c)`: the index of the last `c`. */
  function LastIndex(s: string, c: char): (r: Option<nat>)
    ensures r.None? <==> c !in s
    ensures r.Some? ==> r.value < |s| && s[r.value] == c && c !in s[r.value + 1..]
  {
    if s == "" then None
    else if s[|s| - 1] == c then Some(|s| - 1)
    else
      var r := LastIndex(s[..|s| - 1], c);
      assert r.Some? ==> s[r.value + 1..] == s[..|s| - 1][r.value + 1..] + [s[|s| - 1]];
      r
  }
}
