/** Connected components of the above-floor candidate graph, found breadth first. */
module Components {
  import opened Matchings
  import opened Domain
  import opened Reachability

  datatype Node = L(id: Id) | R(id: Id)

  ghost predicate DistinctEdges(edges: seq<Edge>) {
    forall i, j :: 0 <= i < j < |edges| ==> edges[i] != edges[j]
  }

  function EdgeSet(edges: seq<Edge>): set<Edge> {
    set e | e in edges
  }

  /** Two edges of the graph joined by a chain of edges with common endpoints. */
  ghost predicate Connected(edges: set<Edge>, e: Edge, f: Edge) {
    Linked(Touch, edges, e, f)
  }

  /** The reachability class of an edge. */
  ghost function ComponentOf(edges: set<Edge>, e: Edge): set<Edge> {
    set f | f in edges && Connected(edges, e, f)
  }

  ghost predicate IndexedByNode(edges: seq<Edge>, upTo: nat, byNode: map<Node, seq<nat>>) {
    && (forall n, i :: n in byNode && i in byNode[n] ==> i < upTo)
    && forall i :: 0 <= i < upTo && i < |edges| ==>
         && L(edges[i].left) in byNode && i in byNode[L(edges[i].left)]
         && R(edges[i].right) in byNode && i in byNode[R(edges[i].right)]
  }

  ghost predicate Incident(edges: seq<Edge>, byNode: map<Node, seq<nat>>) {
    forall n, i :: n in byNode && i in byNode[n] ==>
      i < |edges| && (n == L(edges[i].left) || n == R(edges[i].right))
  }

  function Append(byNode: map<Node, seq<nat>>, n: Node, i: nat): map<Node, seq<nat>> {
    byNode[n := (if n in byNode then byNode[n] else []) + [i]]
  }

  method IndexByNode(edges: seq<Edge>) returns (byNode: map<Node, seq<nat>>)
    ensures IndexedByNode(edges, |edges|, byNode) && Incident(edges, byNode)
  {
    byNode := map[];
    for i := 0 to |edges|
      invariant IndexedByNode(edges, i, byNode) && Incident(edges, byNode)
    {
      OneMoreIndexed(edges, i, byNode);
      byNode := Append(byNode, L(edges[i].left), i);
      byNode := Append(byNode, R(edges[i].right), i);
    }
  }

  lemma AppendLists(byNode: map<Node, seq<nat>>, n: Node, i: nat)
    ensures forall m, k :: m in Append(byNode, n, i) && k in Append(byNode, n, i)[m] <==>
                           (m in byNode && k in byNode[m]) || (m == n && k == i)
    ensures forall m :: m in Append(byNode, n, i) <==> m in byNode || m == n
  {
  }

  lemma OneMoreIndexed(edges: seq<Edge>, i: nat, byNode: map<Node, seq<nat>>)
    requires i < |edges| && IndexedByNode(edges, i, byNode) && Incident(edges, byNode)
    ensures var more := Append(Append(byNode, L(edges[i].left), i), R(edges[i].right), i);
            IndexedByNode(edges, i + 1, more) && Incident(edges, more)
  {
    AppendLists(byNode, L(edges[i].left), i);
    AppendLists(Append(byNode, L(edges[i].left), i), R(edges[i].right), i);
  }

  ghost predicate Pending(edges: seq<Edge>, start: nat, indices: set<nat>, queue: seq<nat>)
    requires start < |edges|
  {
    && (forall i :: i in indices || i in queue ==> i < |edges| && Connected(EdgeSet(edges), edges[start], edges[i]))
    && (start in indices || start in queue)
    && forall i, j :: i in indices && 0 <= j < |edges| && Touch(edges[i], edges[j]) ==> j in indices || j in queue
  }

  /** Queues the neighbours of one edge that have not been collected yet. */
  method Enqueue(edges: seq<Edge>, byNode: map<Node, seq<nat>>, index: nat, indices: set<nat>, before: seq<nat>)
    returns (queue: seq<nat>)
    requires index < |edges| && IndexedByNode(edges, |edges|, byNode) && Incident(edges, byNode)
    ensures forall i :: i in before ==> i in queue
    ensures forall i :: i in queue ==> i in before || (i < |edges| && Touch(edges[index], edges[i]))
    ensures forall j :: 0 <= j < |edges| && Touch(edges[index], edges[j]) ==> j in indices || j in queue
  {
    queue := before;
    var nodes := [L(edges[index].left), R(edges[index].right)];
    for n := 0 to 2
      invariant forall i :: i in before ==> i in queue
      invariant forall i :: i in queue ==> i in before || (i < |edges| && Touch(edges[index], edges[i]))
      invariant forall m, i :: 0 <= m < n && i in byNode[nodes[m]] ==> i in indices || i in queue
    {
      var connected := byNode[nodes[n]];
      for c := 0 to |connected|
        invariant forall i :: i in before ==> i in queue
        invariant forall i :: i in queue ==> i in before || (i < |edges| && Touch(edges[index], edges[i]))
        invariant forall m, i :: 0 <= m < n && i in byNode[nodes[m]] ==> i in indices || i in queue
        invariant forall k :: 0 <= k < c ==> connected[k] in indices || connected[k] in queue
      {
        assert connected[c] in byNode[nodes[n]];
        if connected[c] !in indices {
          ghost var q := queue;
          queue := queue + [connected[c]];
          assert forall i :: i in queue <==> i in q || i == connected[c];
        }
      }
    }
    forall j | 0 <= j < |edges| && Touch(edges[index], edges[j])
      ensures j in indices || j in queue
    {
      assert j in byNode[nodes[0]] || j in byNode[nodes[1]];
    }
  }

  lemma FirstIsPending(edges: seq<Edge>, start: nat, indices: set<nat>, queue: seq<nat>)
    requires start < |edges| && Pending(edges, start, indices, queue) && queue != [] && indices <= Range(|edges|)
    ensures queue[0] < |edges| && indices + {queue[0]} <= Range(|edges|)
    ensures queue[0] !in indices ==> Range(|edges|) - (indices + {queue[0]}) < Range(|edges|) - indices
  {
    assert queue[0] in queue;
    assert queue[0] in Range(|edges|);
  }

  /** Collects everything reachable from one start edge, discarding it from the unvisited set. */
  method Sweep(edges: seq<Edge>, byNode: map<Node, seq<nat>>, start: nat, before: set<nat>)
    returns (indices: set<nat>, unvisited: set<nat>)
    requires start < |edges| && IndexedByNode(edges, |edges|, byNode) && Incident(edges, byNode)
    ensures forall i :: i in indices <==> 0 <= i < |edges| && Connected(EdgeSet(edges), edges[start], edges[i])
    ensures unvisited == before - indices
  {
    var queue: seq<nat> := [start];
    indices := {};
    unvisited := before;
    LinkedSelf(Touch, EdgeSet(edges), edges[start]);
    while queue != []
      invariant Pending(edges, start, indices, queue)
      invariant unvisited == before - indices
      invariant indices <= Range(|edges|)
      decreases Range(|edges|) - indices, |queue|
    {
      var index := queue[0];
      ghost var was := queue;
      FirstIsPending(edges, start, indices, was);
      queue := queue[1..];
      if index !in indices {
        queue := Enqueue(edges, byNode, index, indices + {index}, queue);
        Absorbed(edges, start, indices, was, queue);
        indices := indices + {index};
        unvisited := unvisited - {index};
      } else {
        Skipped(edges, start, indices, was);
      }
    }
    SweptAll(edges, start, indices);
  }

  lemma Absorbed(edges: seq<Edge>, start: nat, indices: set<nat>, was: seq<nat>, queue: seq<nat>)
    requires start < |edges| && was != [] && was[0] < |edges| && Pending(edges, start, indices, was)
    requires forall i :: i in was[1..] ==> i in queue
    requires forall i :: i in queue ==> i in was[1..] || (i < |edges| && Touch(edges[was[0]], edges[i]))
    requires forall j :: 0 <= j < |edges| && Touch(edges[was[0]], edges[j]) ==> j in indices + {was[0]} || j in queue
    ensures Pending(edges, start, indices + {was[0]}, queue)
  {
    var index := was[0];
    assert was == [index] + was[1..];
    assert index in was;
    forall i | i in queue
      ensures i < |edges| && Connected(EdgeSet(edges), edges[start], edges[i])
    {
      if i !in was {
        LinkedStep(Touch, EdgeSet(edges), edges[start], edges[index], edges[i]);
      }
    }
  }

  lemma Skipped(edges: seq<Edge>, start: nat, indices: set<nat>, was: seq<nat>)
    requires start < |edges| && was != [] && was[0] in indices && Pending(edges, start, indices, was)
    ensures Pending(edges, start, indices, was[1..])
  {
    TailMembers(was);
  }

  lemma TailMembers(s: seq<nat>)
    requires s != []
    ensures forall i :: i in s <==> i == s[0] || i in s[1..]
  {
    assert s == [s[0]] + s[1..];
  }

  lemma SweptAll(edges: seq<Edge>, start: nat, indices: set<nat>)
    requires start < |edges| && Pending(edges, start, indices, [])
    ensures forall i :: 0 <= i < |edges| && Connected(EdgeSet(edges), edges[start], edges[i]) ==> i in indices
  {
    forall i | 0 <= i < |edges| && Connected(EdgeSet(edges), edges[start], edges[i])
      ensures i in indices
    {
      var others := set k | 0 <= k < |edges| && k !in indices :: edges[k];
      if i !in indices {
        LinkedBack(Touch, EdgeSet(edges), edges[start], edges[i]);
        assert edges[i] in others;
        assert edges[start] !in others || exists k :: 0 <= k < |edges| && k !in indices && edges[k] == edges[start];
        assert ClosedUnder(Touch, EdgeSet(edges), others);
        LinkedStaysInside(Touch, EdgeSet(edges), others, edges[i], edges[start]);
      }
    }
  }

  /** The edges at the given positions, in ascending position order. */
  method Pick(edges: seq<Edge>, indices: set<nat>) returns (component: seq<Edge>)
    requires DistinctEdges(edges)
    ensures DistinctEdges(component)
    ensures forall e :: e in component <==> exists i :: 0 <= i < |edges| && i in indices && edges[i] == e
  {
    component := [];
    for i := 0 to |edges|
      invariant DistinctEdges(component)
      invariant forall e :: e in component <==> exists k :: 0 <= k < i && k in indices && edges[k] == e
    {
      if i in indices {
        assert edges[i] !in component;
        component := component + [edges[i]];
      }
    }
  }

  function FirstUnvisited(unvisited: set<nat>, from: nat, limit: nat): (i: nat)
    requires exists k :: k in unvisited && from <= k < limit
    ensures i in unvisited && from <= i < limit && forall k :: k in unvisited && from <= k ==> i <= k
    decreases limit - from
  {
    if from in unvisited then from else FirstUnvisited(unvisited, from + 1, limit)
  }

  /** The components are exactly the reachability classes: two edges share one if and only if a
      chain of edges with common endpoints joins them. */
  ghost predicate ReachabilityClasses(edges: seq<Edge>, components: seq<seq<Edge>>) {
    && (forall c :: c in components ==> c != [] && DistinctEdges(c))
    && (forall e :: e in edges <==> exists k :: 0 <= k < |components| && e in components[k])
    && (forall j, k, e, f :: 0 <= j < |components| && 0 <= k < |components| && e in components[j] && f in components[k]
          ==> (j == k <==> Connected(EdgeSet(edges), e, f)))
  }

  ghost predicate ClassOf(edges: seq<Edge>, start: nat, component: seq<Edge>)
    requires start < |edges|
  {
    forall e :: e in component <==> e in edges && Connected(EdgeSet(edges), edges[start], e)
  }

  ghost predicate Found(edges: seq<Edge>, starts: seq<nat>, components: seq<seq<Edge>>) {
    && |starts| == |components|
    && (forall k :: 0 <= k < |starts| ==> starts[k] < |edges|)
    && (forall c :: c in components ==> c != [] && DistinctEdges(c))
    && (forall k :: 0 <= k < |starts| ==> ClassOf(edges, starts[k], components[k]))
    && (forall j, k :: 0 <= j < k < |starts| ==> !Connected(EdgeSet(edges), edges[starts[j]], edges[starts[k]]))
  }

  ghost predicate Covered(edges: seq<Edge>, starts: seq<nat>, i: nat)
    requires i < |edges| && forall k :: 0 <= k < |starts| ==> starts[k] < |edges|
  {
    exists k :: 0 <= k < |starts| && Connected(EdgeSet(edges), edges[starts[k]], edges[i])
  }

  lemma SweptIsClass(edges: seq<Edge>, start: nat, indices: set<nat>, component: seq<Edge>)
    requires start < |edges| && DistinctEdges(component)
    requires forall i :: i in indices <==> 0 <= i < |edges| && Connected(EdgeSet(edges), edges[start], edges[i])
    requires forall e :: e in component <==> exists i :: 0 <= i < |edges| && i in indices && edges[i] == e
    ensures start in indices && component != [] && ClassOf(edges, start, component)
  {
    LinkedSelf(Touch, EdgeSet(edges), edges[start]);
    assert start in indices;
    assert edges[start] in component;
  }

  method ConnectedComponents(edges: seq<Edge>) returns (components: seq<seq<Edge>>)
    requires DistinctEdges(edges)
    ensures ReachabilityClasses(edges, components)
  {
    var byNode := IndexByNode(edges);
    var unvisited: set<nat> := Range(|edges|);
    components := [];
    ghost var starts: seq<nat> := [];
    while unvisited != {}
      invariant unvisited <= Range(|edges|)
      invariant Found(edges, starts, components)
      invariant forall i :: 0 <= i < |edges| ==> (i !in unvisited <==> Covered(edges, starts, i))
      decreases unvisited
    {
      assert exists k :: k in unvisited && 0 <= k < |edges|;
      var start := FirstUnvisited(unvisited, 0, |edges|);
      var indices, rest := Sweep(edges, byNode, start, unvisited);
      var component := Pick(edges, indices);
      SweptIsClass(edges, start, indices, component);
      FoundOneMore(edges, starts, components, start, component);
      starts := starts + [start];
      unvisited := rest;
      components := components + [component];
    }
    ClassesFromStarts(edges, starts, components);
  }

  lemma FoundOneMore(edges: seq<Edge>, starts: seq<nat>, components: seq<seq<Edge>>, start: nat, component: seq<Edge>)
    requires Found(edges, starts, components) && start < |edges| && !Covered(edges, starts, start)
    requires component != [] && DistinctEdges(component)
    requires ClassOf(edges, start, component)
    ensures Found(edges, starts + [start], components + [component])
    ensures forall i :: 0 <= i < |edges| ==>
              (Covered(edges, starts + [start], i) <==>
               Covered(edges, starts, i) || Connected(EdgeSet(edges), edges[start], edges[i]))
  {
    var all := starts + [start];
    forall i | 0 <= i < |edges|
      ensures Covered(edges, all, i) <==>
              Covered(edges, starts, i) || Connected(EdgeSet(edges), edges[start], edges[i])
    {
      if Covered(edges, starts, i) {
        var k :| 0 <= k < |starts| && Connected(EdgeSet(edges), edges[starts[k]], edges[i]);
        assert all[k] == starts[k];
      }
      assert all[|starts|] == start;
    }
  }

  lemma ClassesFromStarts(edges: seq<Edge>, starts: seq<nat>, components: seq<seq<Edge>>)
    requires Found(edges, starts, components)
    requires forall i :: 0 <= i < |edges| ==> Covered(edges, starts, i)
    ensures ReachabilityClasses(edges, components)
  {
    var g := EdgeSet(edges);
    forall j, k, e, f | 0 <= j < |components| && 0 <= k < |components| && e in components[j] && f in components[k]
      ensures j == k <==> Connected(g, e, f)
    {
      var a, b := edges[starts[j]], edges[starts[k]];
      assert ClassOf(edges, starts[j], components[j]) && ClassOf(edges, starts[k], components[k]);
      if j == k {
        LinkedBack(Touch, g, a, e);
        LinkedThrough(Touch, g, e, a, f);
      } else if Connected(g, e, f) {
        LinkedThrough(Touch, g, a, e, f);
        LinkedBack(Touch, g, b, f);
        LinkedThrough(Touch, g, a, f, b);
        LinkedBack(Touch, g, a, b);
      }
    }
    forall e | e in edges
      ensures exists k :: 0 <= k < |components| && e in components[k]
    {
      var i :| 0 <= i < |edges| && edges[i] == e;
      assert Covered(edges, starts, i);
    }
  }
}
