/** Reachability along a symmetric relation over a finite set of nodes. */
module Reachability {

  ghost predicate Path<T>(adjacent: (T, T) -> bool, nodes: set<T>, p: seq<T>) {
    && |p| > 0
    && (forall i :: 0 <= i < |p| ==> p[i] in nodes)
    && forall i :: 0 <= i < |p| - 1 ==> adjacent(p[i], p[i + 1])
  }

  ghost predicate Joins<T>(adjacent: (T, T) -> bool, nodes: set<T>, p: seq<T>, x: T, y: T) {
    Path(adjacent, nodes, p) && p[0] == x && p[|p| - 1] == y
  }

  /** A chain of related nodes leads from x to y. */
  ghost predicate Linked<T(!new)>(adjacent: (T, T) -> bool, nodes: set<T>, x: T, y: T) {
    exists p :: Joins(adjacent, nodes, p, x, y)
  }

  ghost predicate Symmetric<T(!new)>(adjacent: (T, T) -> bool) {
    forall x, y :: adjacent(x, y) ==> adjacent(y, x)
  }

  ghost predicate ClosedUnder<T(!new)>(adjacent: (T, T) -> bool, nodes: set<T>, s: set<T>) {
    forall x, y :: x in s && x in nodes && y in nodes && adjacent(x, y) ==> y in s
  }

  lemma LinkedSelf<T(!new)>(adjacent: (T, T) -> bool, nodes: set<T>, x: T)
    requires x in nodes
    ensures Linked(adjacent, nodes, x, x)
  {
    assert Joins(adjacent, nodes, [x], x, x);
  }

  lemma LinkedStep<T(!new)>(adjacent: (T, T) -> bool, nodes: set<T>, x: T, y: T, z: T)
    requires Linked(adjacent, nodes, x, y) && z in nodes && adjacent(y, z)
    ensures Linked(adjacent, nodes, x, z)
  {
    var p :| Joins(adjacent, nodes, p, x, y);
    assert Joins(adjacent, nodes, p + [z], x, z);
  }

  lemma {:induction false} PathStaysInside<T(!new)>(adjacent: (T, T) -> bool, nodes: set<T>, s: set<T>, p: seq<T>)
    requires ClosedUnder(adjacent, nodes, s) && Path(adjacent, nodes, p) && p[0] in s
    ensures p[|p| - 1] in s
  {
    if |p| > 1 {
      assert adjacent(p[0], p[1]);
      PathStaysInside(adjacent, nodes, s, p[1..]);
    }
  }

  lemma LinkedStaysInside<T(!new)>(adjacent: (T, T) -> bool, nodes: set<T>, s: set<T>, x: T, y: T)
    requires ClosedUnder(adjacent, nodes, s) && x in s && Linked(adjacent, nodes, x, y)
    ensures y in s
  {
    var p :| Joins(adjacent, nodes, p, x, y);
    PathStaysInside(adjacent, nodes, s, p);
  }

  lemma LinkedBack<T(!new)>(adjacent: (T, T) -> bool, nodes: set<T>, x: T, y: T)
    requires Symmetric(adjacent) && Linked(adjacent, nodes, x, y)
    ensures Linked(adjacent, nodes, y, x)
  {
    var p :| Joins(adjacent, nodes, p, x, y);
    var q := seq(|p|, i requires 0 <= i < |p| => p[|p| - 1 - i]);
    forall i | 0 <= i < |q| - 1
      ensures adjacent(q[i], q[i + 1])
    {
      assert adjacent(p[|p| - 2 - i], p[|p| - 2 - i + 1]);
    }
    assert Joins(adjacent, nodes, q, y, x);
  }

  lemma LinkedThrough<T(!new)>(adjacent: (T, T) -> bool, nodes: set<T>, x: T, y: T, z: T)
    requires Linked(adjacent, nodes, x, y) && Linked(adjacent, nodes, y, z)
    ensures Linked(adjacent, nodes, x, z)
  {
    var p :| Joins(adjacent, nodes, p, x, y);
    var q :| Joins(adjacent, nodes, q, y, z);
    var r := p + q[1..];
    forall i | 0 <= i < |r| - 1
      ensures adjacent(r[i], r[i + 1])
    {
      if i < |p| - 1 {
        assert adjacent(p[i], p[i + 1]);
      } else {
        var k := i - (|p| - 1);
        assert r[i] == q[k] && r[i + 1] == q[k + 1];
      }
    }
    assert Joins(adjacent, nodes, r, x, z);
  }
}
