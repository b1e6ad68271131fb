/** Sorted listings. `ORDER BY created_at DESC, id ASC`, `ORDER BY added_at` (ties in primary key
    order) and the client's `Array.sort` all order rows by a number and then by a text. */
module Ordering {
  import opened Text

  datatype Key = Key(n: int, s: string)

  predicate KeyLess(a: Key, b: Key) {
    a.n < b.n || (a.n == b.n && StrLess(a.s, b.s))
  }

  lemma KeyLessTransitive(a: Key, b: Key, c: Key)
    requires KeyLess(a, b) && KeyLess(b, c)
    ensures KeyLess(a, c)
  {
    if a.n == b.n == c.n { StrLessTransitive(a.s, b.s, c.s); }
  }

  lemma KeyLessTotal(a: Key, b: Key)
    ensures a == b || KeyLess(a, b) || KeyLess(b, a)
  {
    StrLessTotal(a.s, b.s);
  }

  lemma KeyLessAsymmetric(a: Key, b: Key)
    requires KeyLess(a, b)
    ensures !KeyLess(b, a) && a != b
  {
    StrLessIrreflexive(a.s);
    if KeyLess(b, a) && a.n == b.n { StrLessTransitive(a.s, b.s, a.s); }
  }

  ghost predicate StrictlySorted(q: seq<Key>) {
    forall i, j :: 0 <= i < j < |q| ==> KeyLess(q[i], q[j])
  }

  ghost predicate IsLeast(m: Key, s: set<Key>) {
    m in s && forall k :: k in s && k != m ==> KeyLess(m, k)
  }

  lemma {:induction false} LeastExists(s: set<Key>)
    requires s != {}
    ensures exists m :: IsLeast(m, s)
    decreases |s|
  {
    var x :| x in s;
    var rest := s - {x};
    if rest == {} {
      assert s == {x};
      assert IsLeast(x, s);
    } else {
      LeastExists(rest);
      var m :| IsLeast(m, rest);
      KeyLessTotal(x, m);
      if KeyLess(x, m) {
        forall k | k in s && k != x ensures KeyLess(x, k) {
          if k != m { KeyLessTransitive(x, m, k); }
        }
        assert IsLeast(x, s);
      } else {
        assert IsLeast(m, s);
      }
    }
  }

  ghost function Least(s: set<Key>): (m: Key)
    requires s != {}
    ensures IsLeast(m, s)
  {
    LeastExists(s);
    var m :| IsLeast(m, s);
    m
  }

  /** The one strictly sorted listing of a set of keys. */
  ghost function SortedKeys(s: set<Key>): (q: seq<Key>)
    ensures StrictlySorted(q) && |q| == |s|
    ensures forall k :: k in q <==> k in s
    decreases |s|
  {
    if s == {} then [] else
      var m := Least(s);
      var rest := SortedKeys(s - {m});
      [m] + rest
  }

  lemma {:induction false} SortedUnique(p: seq<Key>, q: seq<Key>)
    requires StrictlySorted(p) && StrictlySorted(q)
    requires forall k :: k in p <==> k in q
    ensures p == q
  {
    assert q != [] ==> q[0] in p;
    if p != [] {
      assert p[0] in q;
      var i :| 0 <= i < |q| && q[i] == p[0];
      assert q[0] in p;
      var j :| 0 <= j < |p| && p[j] == q[0];
      if i > 0 && j > 0 { KeyLessAsymmetric(p[0], p[j]); }
      assert p[0] == q[0];
      forall k ensures k in p[1..] <==> k in q[1..] {
        SortedTail(p, k);
        SortedTail(q, k);
      }
      SortedUnique(p[1..], q[1..]);
    }
  }

  lemma SortedTail(p: seq<Key>, k: Key)
    requires StrictlySorted(p) && p != []
    ensures k in p[1..] <==> k in p && k != p[0]
  {
    if k in p[1..] {
      var i :| 0 <= i < |p[1..]| && p[1..][i] == k;
      assert p[i + 1] == k;
      KeyLessAsymmetric(p[0], p[i + 1]);
    }
    if k in p && k != p[0] {
      var i :| 0 <= i < |p| && p[i] == k;
      assert p[1..][i - 1] == k;
    }
  }

  /** The sorter the database and the browser provide: repeatedly the least key left. */
  method SortKeys(s: set<Key>) returns (q: seq<Key>)
    ensures q == SortedKeys(s)
  {
    q := [];
    var left := s;
    while left != {}
      invariant left <= s
      invariant forall k :: k in q <==> k in s && k !in left
      invariant StrictlySorted(q)
      invariant forall a, b :: a in q && b in left ==> KeyLess(a, b)
      decreases |left|
    {
      LeastExists(left);
      assert exists m :: m in left && forall k :: k in left && k != m ==> KeyLess(m, k) by {
        var m :| IsLeast(m, left);
      }
      var m :| m in left && forall k :: k in left && k != m ==> KeyLess(m, k);
      q := q + [m];
      left := left - {m};
    }
    SortedUnique(q, SortedKeys(s));
  }
}
