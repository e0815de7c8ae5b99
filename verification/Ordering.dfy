/** Sorted enumerations of finite sets, as `sorted(...)` produces them.

    Identifiers are ordered lexicographically by code point. */
module Ordering {

  ghost predicate TotalOrder<T(!new)>(leq: (T, T) -> bool) {
    && (forall a :: leq(a, a))
    && (forall a, b :: leq(a, b) || leq(b, a))
    && (forall a, b :: leq(a, b) && leq(b, a) ==> a == b)
    && (forall a, b, c :: leq(a, b) && leq(b, c) ==> leq(a, c))
  }

  ghost predicate Ascending<T>(leq: (T, T) -> bool, s: seq<T>) {
    forall i, j | 0 <= i < j < |s| :: leq(s[i], s[j]) && s[i] != s[j]
  }

  function Elements<T>(s: seq<T>): set<T> {
    set x | x in s
  }

  predicate NoDuplicates<T(==)>(s: seq<T>) {
    forall i, j | 0 <= i < j < |s| :: s[i] != s[j]
  }

  predicate IsLeast<T(==)>(leq: (T, T) -> bool, s: set<T>, x: T) {
    x in s && forall y | y in s :: leq(x, y)
  }

  lemma {:induction false} LeastExists<T(!new)>(leq: (T, T) -> bool, s: set<T>)
    requires TotalOrder(leq) && s != {}
    ensures exists x :: IsLeast(leq, s, x)
  {
    var x :| x in s;
    if s == {x} {
      assert IsLeast(leq, s, x);
    } else {
      LeastExists(leq, s - {x});
      var m :| IsLeast(leq, s - {x}, m);
      var least := if leq(x, m) then x else m;
      forall y | y in s ensures leq(least, y) {
        if y != x {
          assert leq(m, y);
          assert leq(least, m);
        }
      }
      assert IsLeast(leq, s, least);
    }
  }

  /** The members of a set in ascending order, each once. */
  function SortedBy<T(!new, ==)>(leq: (T, T) -> bool, s: set<T>): (r: seq<T>)
    requires TotalOrder(leq)
    ensures Elements(r) == s
    ensures Ascending(leq, r) && NoDuplicates(r)
    decreases |s|
  {
    if s == {} then
      []
    else
      LeastExists(leq, s);
      var x :| x in s && IsLeast(leq, s, x);
      var rest := SortedBy(leq, s - {x});
      assert forall y :: y in [x] + rest <==> y == x || y in rest;
      assert forall y :: y in rest <==> y in Elements(rest);
      [x] + rest
  }

  lemma NoElements<T>(s: seq<T>)
    ensures Elements(s) == {} <==> s == []
  {
    if s != [] {
      assert s[0] in Elements(s);
    }
  }

  /** An ascending enumeration is determined by its members. */
  lemma {:induction false} AscendingUnique<T(!new)>(leq: (T, T) -> bool, a: seq<T>, b: seq<T>)
    requires TotalOrder(leq)
    requires Ascending(leq, a) && Ascending(leq, b) && Elements(a) == Elements(b)
    ensures a == b
  {
    if a == [] {
      NoElements(b);
    } else {
      assert a[0] in Elements(a);
      assert b != [];
      assert b[0] in Elements(b);
      assert a[0] == b[0] by {
        assert a[0] in b && b[0] in a;
        assert leq(a[0], b[0]) && leq(b[0], a[0]);
      }
      forall x
        ensures x in Elements(a[1..]) <==> x in Elements(b[1..])
      {
        assert x in Elements(a[1..]) <==> x in Elements(a) && x != a[0];
        assert x in Elements(b[1..]) <==> x in Elements(b) && x != b[0];
      }
      AscendingUnique(leq, a[1..], b[1..]);
    }
  }

  /** Lexicographic order on identifiers. */
  predicate IdLeq(a: string, b: string) {
    a == [] || (b != [] && (a[0] < b[0] || (a[0] == b[0] && IdLeq(a[1..], b[1..]))))
  }

  /** Up to position `k` the texts agree; there the first one ends or has the smaller character. */
  predicate BeforeAt(a: string, b: string, k: int) {
    && 0 <= k <= |a| && k < |b| && (forall j | 0 <= j < k :: a[j] == b[j])
    && (k == |a| || a[k] < b[k])
  }

  ghost predicate TextBefore(a: string, b: string) {
    exists k :: BeforeAt(a, b, k)
  }

  /** The order of the identifiers is that of their texts, character by character. */
  lemma {:induction false} IdLeqOnText(a: string, b: string)
    ensures IdLeq(a, b) <==> a == b || TextBefore(a, b)
  {
    if a == [] {
      assert b != [] ==> BeforeAt(a, b, 0);
    } else if b != [] && a[0] < b[0] {
      assert BeforeAt(a, b, 0);
    } else if b != [] && a[0] == b[0] {
      IdLeqOnText(a[1..], b[1..]);
      assert a == [a[0]] + a[1..] && b == [b[0]] + b[1..];
      if k :| BeforeAt(a[1..], b[1..], k) {
        assert forall j | 0 < j < k + 1 :: a[j] == a[1..][j - 1] && b[j] == b[1..][j - 1];
        assert BeforeAt(a, b, k + 1);
      }
      if k :| BeforeAt(a, b, k) {
        assert forall j | 0 <= j < k - 1 :: a[1..][j] == a[j + 1] && b[1..][j] == b[j + 1];
        assert BeforeAt(a[1..], b[1..], k - 1);
      }
    }
  }

  lemma IdTotal(a: string, b: string)
    ensures IdLeq(a, b) || IdLeq(b, a)
  {
  }

  lemma {:induction false} IdAntisymmetric(a: string, b: string)
    requires IdLeq(a, b) && IdLeq(b, a)
    ensures a == b
  {
    if a != [] && b != [] {
      IdAntisymmetric(a[1..], b[1..]);
      assert a == [a[0]] + a[1..] && b == [b[0]] + b[1..];
    }
  }

  lemma {:induction false} IdTransitive(a: string, b: string, c: string)
    requires IdLeq(a, b) && IdLeq(b, c)
    ensures IdLeq(a, c)
  {
    if a != [] && a[0] == b[0] && b[0] == c[0] {
      IdTransitive(a[1..], b[1..], c[1..]);
    }
  }

  lemma IdTotalOrder()
    ensures TotalOrder(IdLeq)
  {
    forall a, b ensures IdLeq(a, b) || IdLeq(b, a) { IdTotal(a, b); }
    forall a, b | IdLeq(a, b) && IdLeq(b, a) ensures a == b { IdAntisymmetric(a, b); }
    forall a, b, c | IdLeq(a, b) && IdLeq(b, c) ensures IdLeq(a, c) { IdTransitive(a, b, c); }
  }

  function SortedIds(s: set<string>): (r: seq<string>)
    ensures Elements(r) == s
    ensures Ascending(IdLeq, r) && NoDuplicates(r)
  {
    IdTotalOrder();
    SortedBy(IdLeq, s)
  }
}
