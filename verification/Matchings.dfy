/** Partial one-to-one matchings of a weighted bipartite graph, their optimum, and the
    counterfactual gap of an edge: what the optimum loses when that edge is forbidden. */
module Matchings {

  type Id = nat

  datatype Edge = Edge(left: Id, right: Id)

  /** An above-floor graph: each edge carries its utility (score minus floor). */
  type Graph = map<Edge, int>

  predicate Touch(e: Edge, f: Edge) {
    e.left == f.left || e.right == f.right
  }

  ghost predicate OneToOne(m: set<Edge>) {
    forall e, f :: e in m && f in m && Touch(e, f) ==> e == f
  }

  ghost predicate Matching(g: Graph, m: set<Edge>) {
    m <= g.Keys && OneToOne(m)
  }

  ghost function Total(g: Graph, m: set<Edge>): int
    requires m <= g.Keys
  {
    if m == {} then 0 else var e :| e in m; g[e] + Total(g, m - {e})
  }

  ghost predicate Optimal(g: Graph, m: set<Edge>) {
    && Matching(g, m)
    && forall o :: Matching(g, o) ==> Total(g, o) <= Total(g, m)
  }

  ghost predicate Positive(g: Graph) {
    forall e :: e in g ==> 0 < g[e]
  }

  ghost function Restrict(g: Graph, s: set<Edge>): (h: Graph)
    ensures h.Keys == g.Keys * s
  {
    map e | e in g && e in s :: g[e]
  }

  /** The graph with one relationship forbidden. */
  ghost function Without(g: Graph, e: Edge): (h: Graph)
    ensures h.Keys == g.Keys - {e}
  {
    g - {e}
  }

  // ----- sums -----

  lemma {:induction false} TotalPick(g: Graph, m: set<Edge>, e: Edge)
    requires m <= g.Keys && e in m
    ensures Total(g, m) == g[e] + Total(g, m - {e})
    decreases m
  {
    var f :| f in m && Total(g, m) == g[f] + Total(g, m - {f});
    if f != e {
      TotalPick(g, m - {f}, e);
      TotalPick(g, m - {e}, f);
      assert m - {f} - {e} == m - {e} - {f};
    }
  }

  lemma {:induction false} TotalUnion(g: Graph, a: set<Edge>, b: set<Edge>)
    requires a <= g.Keys && b <= g.Keys && a !! b
    ensures Total(g, a + b) == Total(g, a) + Total(g, b)
    decreases a
  {
    if a == {} {
      assert a + b == b;
    } else {
      var e :| e in a;
      TotalUnion(g, a - {e}, b);
      TotalPick(g, a, e);
      TotalPick(g, a + b, e);
      assert a + b - {e} == (a - {e}) + b;
    }
  }

  lemma {:induction false} TotalAgree(g: Graph, h: Graph, m: set<Edge>)
    requires m <= g.Keys && m <= h.Keys
    requires forall e :: e in m ==> g[e] == h[e]
    ensures Total(g, m) == Total(h, m)
    decreases m
  {
    if m != {} {
      var e :| e in m;
      TotalPick(g, m, e);
      TotalPick(h, m, e);
      TotalAgree(g, h, m - {e});
    }
  }

  lemma {:induction false} TotalMonotone(g: Graph, a: set<Edge>, b: set<Edge>)
    requires a <= b <= g.Keys && Positive(g)
    ensures 0 <= Total(g, a) <= Total(g, b)
    decreases b
  {
    if b != {} {
      var e :| e in b;
      TotalPick(g, b, e);
      if e in a {
        TotalPick(g, a, e);
        TotalMonotone(g, a - {e}, b - {e});
      } else {
        TotalMonotone(g, a, b - {e});
      }
    }
  }

  // ----- the optimum -----

  lemma {:induction false} OptimalAbove(g: Graph, m: set<Edge>)
    requires Positive(g) && Matching(g, m)
    ensures exists o :: Optimal(g, o)
    decreases Total(g, g.Keys) - Total(g, m)
  {
    if !Optimal(g, m) {
      var o :| Matching(g, o) && Total(g, o) > Total(g, m);
      TotalMonotone(g, o, g.Keys);
      OptimalAbove(g, o);
    }
  }

  lemma OptimalExists(g: Graph)
    requires Positive(g)
    ensures exists o :: Optimal(g, o)
  {
    OptimalAbove(g, {});
  }

  /** The largest total utility of any partial matching. */
  ghost function Best(g: Graph): int
    requires Positive(g)
  {
    OptimalExists(g);
    var o :| Optimal(g, o);
    Total(g, o)
  }

  lemma BestIs(g: Graph, m: set<Edge>)
    requires Positive(g) && Optimal(g, m)
    ensures Best(g) == Total(g, m)
  {
    OptimalExists(g);
    var o :| Optimal(g, o) && Best(g) == Total(g, o);
  }

  lemma BestBounds(g: Graph, m: set<Edge>)
    requires Positive(g) && Matching(g, m)
    ensures Total(g, m) <= Best(g)
  {
    OptimalExists(g);
    var o :| Optimal(g, o) && Best(g) == Total(g, o);
  }

  lemma BestReached(g: Graph) returns (m: set<Edge>)
    requires Positive(g)
    ensures Optimal(g, m) && Total(g, m) == Best(g)
  {
    OptimalExists(g);
    m :| Optimal(g, m);
    BestIs(g, m);
  }

  // ----- the counterfactual gap -----

  ghost function Gap(g: Graph, e: Edge): int
    requires Positive(g)
  {
    Best(g) - Best(Without(g, e))
  }

  lemma SubMatching(g: Graph, h: Graph, m: set<Edge>)
    requires h.Keys <= g.Keys && (forall e :: e in h ==> h[e] == g[e])
    requires Matching(h, m)
    ensures Matching(g, m) && Total(g, m) == Total(h, m)
  {
    TotalAgree(g, h, m);
  }

  /** A gap is never negative and never exceeds the edge's own utility. */
  lemma GapBounds(g: Graph, e: Edge)
    requires Positive(g) && e in g
    ensures 0 <= Gap(g, e) <= g[e]
  {
    var h := Without(g, e);
    var o := BestReached(h);
    SubMatching(g, h, o);
    BestBounds(g, o);
    var m := BestReached(g);
    TotalAgree(g, h, m - {e});
    if e in m {
      TotalPick(g, m, e);
    } else {
      assert m - {e} == m;
    }
    BestBounds(h, m - {e});
  }

  /** A positive gap says exactly that every optimum uses the edge. */
  lemma PositiveGapIffInEveryOptimum(g: Graph, e: Edge)
    requires Positive(g) && e in g
    ensures 1 <= Gap(g, e) <==> forall m :: Optimal(g, m) ==> e in m
  {
    var h := Without(g, e);
    if 1 <= Gap(g, e) {
      forall m | Optimal(g, m)
        ensures e in m
      {
        if e !in m {
          TotalAgree(g, h, m);
          BestBounds(h, m);
          BestIs(g, m);
        }
      }
    } else {
      var o := BestReached(h);
      SubMatching(g, h, o);
      BestBounds(g, o);
      assert Optimal(g, o) by {
        forall q | Matching(g, q)
          ensures Total(g, q) <= Total(g, o)
        {
          BestBounds(g, q);
        }
      }
      assert e !in o;
    }
  }

  // ----- decomposition along a closed set of edges -----

  /** No edge inside s shares an endpoint with an edge of the graph outside s. */
  ghost predicate Closed(g: Graph, s: set<Edge>) {
    forall e, f :: e in g && f in g && e in s && Touch(e, f) ==> f in s
  }

  ghost function Outside(g: Graph, s: set<Edge>): (h: Graph)
    ensures h.Keys == g.Keys - s
  {
    map e | e in g && e !in s :: g[e]
  }

  lemma SplitMatching(g: Graph, s: set<Edge>, m: set<Edge>)
    requires Matching(g, m)
    ensures Matching(Restrict(g, s), m * s) && Matching(Outside(g, s), m - s)
    ensures Total(g, m) == Total(Restrict(g, s), m * s) + Total(Outside(g, s), m - s)
  {
    assert m == m * s + (m - s);
    TotalUnion(g, m * s, m - s);
    TotalAgree(g, Restrict(g, s), m * s);
    TotalAgree(g, Outside(g, s), m - s);
  }

  lemma JoinMatching(g: Graph, s: set<Edge>, a: set<Edge>, b: set<Edge>)
    requires Closed(g, s)
    requires Matching(Restrict(g, s), a) && Matching(Outside(g, s), b)
    ensures Matching(g, a + b) && a !! b
    ensures Total(g, a + b) == Total(Restrict(g, s), a) + Total(Outside(g, s), b)
  {
    TotalUnion(g, a, b);
    TotalAgree(g, Restrict(g, s), a);
    TotalAgree(g, Outside(g, s), b);
  }

  lemma BestSplits(g: Graph, s: set<Edge>)
    requires Positive(g) && Closed(g, s)
    ensures Best(g) == Best(Restrict(g, s)) + Best(Outside(g, s))
  {
    var m := BestReached(g);
    SplitMatching(g, s, m);
    BestBounds(Restrict(g, s), m * s);
    BestBounds(Outside(g, s), m - s);
    var a := BestReached(Restrict(g, s));
    var b := BestReached(Outside(g, s));
    JoinMatching(g, s, a, b);
    BestBounds(g, a + b);
  }

  /** Optimal on a closed part and optimal on the rest is optimal on the whole. */
  lemma OptimalJoins(g: Graph, s: set<Edge>, a: set<Edge>, b: set<Edge>)
    requires Positive(g) && Closed(g, s)
    requires Optimal(Restrict(g, s), a) && Optimal(Outside(g, s), b)
    ensures Optimal(g, a + b)
  {
    JoinMatching(g, s, a, b);
    BestSplits(g, s);
    BestIs(Restrict(g, s), a);
    BestIs(Outside(g, s), b);
    forall o | Matching(g, o)
      ensures Total(g, o) <= Total(g, a + b)
    {
      BestBounds(g, o);
    }
  }

  /** The gap of an edge inside a closed part is its gap over the whole graph. */
  lemma GapIsLocal(g: Graph, s: set<Edge>, e: Edge)
    requires Positive(g) && Closed(g, s) && e in g && e in s
    ensures Gap(Restrict(g, s), e) == Gap(g, e)
  {
    BestSplits(g, s);
    var h := Without(g, e);
    assert Closed(h, s);
    BestSplits(h, s);
    assert Restrict(h, s) == Without(Restrict(g, s), e);
    assert Outside(h, s) == Outside(g, s);
  }
}
