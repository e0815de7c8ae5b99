/** Reachability in a finite or infinite directed graph given by its edge relation. */
module Graphs {

  ghost predicate IsPath<T(!new)>(edge: (T, T) -> bool, p: seq<T>) {
    && p != []
    && forall i | 0 <= i < |p| - 1 :: edge(p[i], p[i + 1])
  }

  ghost predicate PathBetween<T(!new)>(edge: (T, T) -> bool, a: T, b: T, p: seq<T>) {
    IsPath(edge, p) && p[0] == a && p[|p| - 1] == b
  }

  ghost predicate Reaches<T(!new)>(edge: (T, T) -> bool, a: T, b: T) {
    exists p :: PathBetween(edge, a, b, p)
  }

  ghost predicate ReachesFrom<T(!new)>(edge: (T, T) -> bool, starts: set<T>, b: T) {
    exists a :: a in starts && Reaches(edge, a, b)
  }

  lemma ReachesSelf<T(!new)>(edge: (T, T) -> bool, a: T)
    ensures Reaches(edge, a, a)
  {
    assert PathBetween(edge, a, a, [a]);
  }

  lemma ReachesExtend<T(!new)>(edge: (T, T) -> bool, a: T, b: T, c: T)
    requires Reaches(edge, a, b) && edge(b, c)
    ensures Reaches(edge, a, c)
  {
    var p :| PathBetween(edge, a, b, p);
    assert PathBetween(edge, a, c, p + [c]);
  }

  /** A path in a graph is a path in every larger graph. */
  lemma ReachesMonotone<T(!new)>(small: (T, T) -> bool, large: (T, T) -> bool, a: T, b: T)
    requires forall x, y :: small(x, y) ==> large(x, y)
    requires Reaches(small, a, b)
    ensures Reaches(large, a, b)
  {
    var p :| PathBetween(small, a, b, p);
    assert PathBetween(large, a, b, p);
  }

  lemma ReachesPrepend<T(!new)>(edge: (T, T) -> bool, a: T, b: T, c: T)
    requires edge(a, b) && Reaches(edge, b, c)
    ensures Reaches(edge, a, c)
  {
    var p :| PathBetween(edge, b, c, p);
    var q := [a] + p;
    forall i | 0 <= i < |q| - 1 ensures edge(q[i], q[i + 1]) {
      if i > 0 {
        assert q[i] == p[i - 1] && q[i + 1] == p[i];
        assert edge(p[i - 1], p[i - 1 + 1]);
      }
    }
    assert PathBetween(edge, a, c, q);
  }

  /** A path is either trivial or ends with an edge. */
  lemma ReachesLast<T(!new)>(edge: (T, T) -> bool, a: T, c: T) returns (b: T)
    requires Reaches(edge, a, c)
    ensures a == c || (Reaches(edge, a, b) && edge(b, c))
  {
    var p :| PathBetween(edge, a, c, p);
    b := a;
    if |p| > 1 {
      b := p[|p| - 2];
      assert edge(p[|p| - 2], p[|p| - 2 + 1]);
      assert PathBetween(edge, a, b, p[..|p| - 1]);
    }
  }

  /** Induction along a path: a property kept by every edge holds of all that is reached. */
  lemma {:induction false} ReachesInduction<T(!new)>(edge: (T, T) -> bool, keeps: T -> bool, a: T, b: T)
    requires keeps(a)
    requires forall x, y :: keeps(x) && edge(x, y) ==> keeps(y)
    requires Reaches(edge, a, b)
    ensures keeps(b)
  {
    var p :| PathBetween(edge, a, b, p);
    PathInduction(edge, keeps, p, |p| - 1);
  }

  lemma {:induction false} PathInduction<T(!new)>(edge: (T, T) -> bool, keeps: T -> bool, p: seq<T>, k: nat)
    requires IsPath(edge, p) && k < |p| && keeps(p[0])
    requires forall x, y :: keeps(x) && edge(x, y) ==> keeps(y)
    ensures keeps(p[k])
  {
    if k > 0 {
      PathInduction(edge, keeps, p, k - 1);
      assert edge(p[k - 1], p[k - 1 + 1]);
    }
  }

  /** The same, from any of several starting nodes. */
  lemma FromInduction<T(!new)>(edge: (T, T) -> bool, keeps: T -> bool, starts: set<T>, b: T)
    requires forall a | a in starts :: keeps(a)
    requires forall x, y :: keeps(x) && edge(x, y) ==> keeps(y)
    requires ReachesFrom(edge, starts, b)
    ensures keeps(b)
  {
    var a :| a in starts && Reaches(edge, a, b);
    ReachesInduction(edge, keeps, a, b);
  }

  lemma FromStart<T(!new)>(edge: (T, T) -> bool, starts: set<T>, a: T)
    requires a in starts
    ensures ReachesFrom(edge, starts, a)
  {
    ReachesSelf(edge, a);
  }

  lemma FromExtend<T(!new)>(edge: (T, T) -> bool, starts: set<T>, b: T, c: T)
    requires ReachesFrom(edge, starts, b) && edge(b, c)
    ensures ReachesFrom(edge, starts, c)
  {
    var a :| a in starts && Reaches(edge, a, b);
    ReachesExtend(edge, a, b, c);
  }

  lemma FromLast<T(!new)>(edge: (T, T) -> bool, starts: set<T>, c: T) returns (b: T)
    requires ReachesFrom(edge, starts, c)
    ensures c in starts || (ReachesFrom(edge, starts, b) && edge(b, c))
  {
    var a :| a in starts && Reaches(edge, a, c);
    b := ReachesLast(edge, a, c);
  }
}
