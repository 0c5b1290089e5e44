/** Reachability along a relation. */
module Paths {
  ghost predicate IsPath<T(!new)>(edge: (T, T) -> bool, p: seq<T>) {
    forall i, j | 0 <= i && j == i + 1 && j < |p| :: edge(p[i], p[j])
  }

  ghost predicate Joins<T(!new)>(edge: (T, T) -> bool, p: seq<T>, a: T, b: T) {
    p != [] && p[0] == a && p[|p| - 1] == b && IsPath(edge, p)
  }

  /** The reflexive transitive closure of the relation. */
  ghost predicate Reaches<T(!new)>(edge: (T, T) -> bool, a: T, b: T) {
    exists p :: Joins(edge, p, a, b)
  }

  lemma ReachesItself<T(!new)>(edge: (T, T) -> bool, a: T)
    ensures Reaches(edge, a, a)
  {
    assert Joins(edge, [a], a, a);
  }

  lemma ReachesOneFurther<T(!new)>(edge: (T, T) -> bool, a: T, b: T, c: T)
    requires Reaches(edge, a, b) && edge(b, c)
    ensures Reaches(edge, a, c)
  {
    var p :| Joins(edge, p, a, b);
    assert Joins(edge, p + [c], a, c);
  }

  lemma ReachesTransitive<T(!new)>(edge: (T, T) -> bool, a: T, b: T, c: T)
    requires Reaches(edge, a, b) && Reaches(edge, b, c)
    ensures Reaches(edge, a, c)
  {
    var p :| Joins(edge, p, a, b);
    var q :| Joins(edge, q, b, c);
    var r := p + q[1..];
    forall i, j | 0 <= i && j == i + 1 && j < |r| ensures edge(r[i], r[j]) {
      if i < |p| - 1 {
        assert r[i] == p[i] && r[j] == p[j];
      } else {
        var k, l := i - |p| + 1, j - |p| + 1;
        assert r[i] == q[k] && r[j] == q[l];
      }
    }
    assert Joins(edge, r, a, c);
  }

  lemma ReachesSymmetric<T(!new)>(edge: (T, T) -> bool, a: T, b: T)
    requires Reaches(edge, a, b) && forall x, y :: edge(x, y) ==> edge(y, x)
    ensures Reaches(edge, b, a)
  {
    var p :| Joins(edge, p, a, b);
    var r := seq(|p|, i requires 0 <= i < |p| => p[|p| - 1 - i]);
    forall i, j | 0 <= i && j == i + 1 && j < |r| ensures edge(r[i], r[j]) {
      var k, l := |p| - 1 - j, |p| - 1 - i;
      assert edge(p[k], p[l]);
    }
    assert Joins(edge, r, b, a);
  }

  /** A set closed under the relation keeps everything its members reach. */
  lemma {:induction false} ClosedSetKeeps<T(!new)>(edge: (T, T) -> bool, s: set<T>, p: seq<T>, a: T, b: T)
    requires Joins(edge, p, a, b) && a in s && forall x, y | x in s && edge(x, y) :: y in s
    ensures b in s
    decreases |p|
  {
    if |p| > 1 {
      assert edge(p[0], p[1]);
      var q := p[1..];
      forall i, j | 0 <= i && j == i + 1 && j < |q| ensures edge(q[i], q[j]) {
        var k := j + 1;
        assert edge(p[j], p[k]);
      }
      ClosedSetKeeps(edge, s, q, p[1], b);
    }
  }

  lemma ClosedSetHasReachable<T(!new)>(edge: (T, T) -> bool, s: set<T>, a: T, b: T)
    requires Reaches(edge, a, b) && a in s && forall x, y | x in s && edge(x, y) :: y in s
    ensures b in s
  {
    var p :| Joins(edge, p, a, b);
    ClosedSetKeeps(edge, s, p, a, b);
  }

  /** What is still outside a growing set shrinks. */
  lemma FewerOutside<T>(all: set<T>, before: set<T>, after: set<T>)
    requires before < after <= all
    ensures |all - after| < |all - before|
  {
    assert all - before == (all - after) + (after - before);
    assert after == before + (after - before);
  }
}
