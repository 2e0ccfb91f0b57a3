/** What acceptance means, independently of solver, component order and caps. */
module Acceptance {
  import opened Matchings
  import opened Domain
  import opened Reachability
  import opened Components
  import opened Ordering
  import opened ComponentSolver
  import opened Assignment
  import opened Gating

  // ----- components of the assignment are the reachability classes -----

  lemma InsideIsComponentOf(edges: set<Edge>, components: seq<Component>, k: nat, e: Edge)
    requires Partitions(edges, components) && HasInside(edges, components, k, e)
    ensures Inside(edges, components[k]) == ComponentOf(edges, e)
  {
    forall f | f in edges
      ensures f in Inside(edges, components[k]) <==> Connected(edges, e, f)
    {
      var j :| HasInside(edges, components, j, f);
      if f in Inside(edges, components[k]) {
        assert HasInside(edges, components, k, f);
      }
    }
  }

  lemma InsideIsClosed(g: Graph, components: seq<Component>, k: nat)
    requires Partitions(g.Keys, components) && k < |components|
    ensures Closed(g, Inside(g.Keys, components[k]))
  {
    forall e, f | e in g && f in g && e in Inside(g.Keys, components[k]) && Touch(e, f)
      ensures f in Inside(g.Keys, components[k])
    {
      var j :| HasInside(g.Keys, components, j, f);
      assert HasInside(g.Keys, components, k, e);
      TouchingShareComponent(g.Keys, components, k, j, e, f);
    }
  }

  // ----- what the stages establish, with the solver out of the picture -----

  ghost predicate Searchable(candidates: Candidates, limited: set<Id>, limits: Limits, edges: set<Edge>) {
    LimitOf(SortedIds(Lefts(edges)), SortedIds(Rights(edges)), Narrow(candidates, edges), limited, limits).None?
  }

  /** A component is solved exactly when its class may be searched, and then to an optimum. */
  ghost predicate ComponentMeaning(c: Component, candidates: Candidates, limited: set<Id>, policy: MatchingPolicy) {
    var g := Eligible(candidates, policy.floor);
    && (c.Complete() <==> Searchable(candidates, limited, policy.limits, Inside(g.Keys, c)))
    && (c.Complete() ==> Optimal(GraphOf(candidates, policy.floor, c), Edges(c.selected)))
    && c.optimum == UtilitySum(c.selected)
    && (c.Complete() ==> c.optimum == Best(GraphOf(candidates, policy.floor, c)))
    && (forall s :: s in c.selected ==> s.edge in Inside(g.Keys, c))
  }

  ghost predicate ProposalMeaning(p: Proposal, s: SelectedEdge, c: Component, candidates: Candidates,
                                  policy: MatchingPolicy) {
    && p.edge == s.edge && p.edge in candidates && p.score == candidates[p.edge].score
    && p.counterfactual == Best(Without(GraphOf(candidates, policy.floor, c), p.edge))
    && p.gap == c.optimum - p.counterfactual
    && (p.accepted <==> p.reasons == {}) && (p.accepted <==> Passes(candidates[p.edge], p.gap, policy))
  }

  ghost predicate ProposalsMeaning(e: ComponentEvidence, c: Component, candidates: Candidates, policy: MatchingPolicy) {
    && |e.proposals| == (if c.Complete() then |c.selected| else 0)
    && forall i :: 0 <= i < |e.proposals| ==> ProposalMeaning(e.proposals[i], c.selected[i], c, candidates, policy)
  }

  ghost predicate StagesMean(candidates: Candidates, limited: set<Id>, policy: MatchingPolicy,
                             components: seq<Component>,
                             g: GatedResult) {
    && Partitions(Eligible(candidates, policy.floor).Keys, components)
    && |g.components| == |components|
    && (forall k :: 0 <= k < |components| ==>
          && ComponentMeaning(components[k], candidates, limited, policy)
          && ProposalsMeaning(g.components[k], components[k], candidates, policy))
    && GatedValid(g)
  }

  lemma ComponentHasMeaning(c: Component, candidates: Candidates, limited: set<Id>, policy: MatchingPolicy,
                            solver: Solver)
    requires SolvedHere(candidates, limited, policy, solver, c)
    ensures ComponentMeaning(c, candidates, limited, policy)
  {
    CounterfactualIsBest(candidates, limited, policy, solver, c, Edge(0, 0));
    forall s | s in c.selected
      ensures s.edge in Inside(Eligible(candidates, policy.floor).Keys, c)
    {
      SelectedIsInside(c, Inside(Eligible(candidates, policy.floor).Keys, c), candidates, limited, policy, solver, s);
    }
  }

  lemma ProposalsHaveMeaning(e: ComponentEvidence, c: Component, candidates: Candidates, limited: set<Id>,
                             policy: MatchingPolicy, solver: Solver)
    requires SolvedHere(candidates, limited, policy, solver, c) && EvidenceOf(e, c, candidates, policy, solver)
    ensures ProposalsMeaning(e, c, candidates, policy)
  {
    forall i | 0 <= i < |e.proposals|
      ensures ProposalMeaning(e.proposals[i], c.selected[i], c, candidates, policy)
    {
      assert ProposalFor(e.proposals[i], c.selected[i], candidates, c, policy, solver);
      CounterfactualIsBest(candidates, limited, policy, solver, c, e.proposals[i].edge);
      NoReasonIffPasses(e.proposals[i].reasons, candidates[e.proposals[i].edge], e.proposals[i].gap, policy);
    }
  }

  lemma EachIsSolved(candidates: Candidates, limited: set<Id>, policy: MatchingPolicy, solver: Solver, a: Assignment,
                     k: nat)
    requires Exact(candidates, limited, policy, solver, a) && k < |a.components|
    ensures SolvedHere(candidates, limited, policy, solver, a.components[k])
  {
    AsComponent(Eligible(candidates, policy.floor).Keys, a.components, k, candidates, limited, policy, solver);
  }

  lemma StagesHaveMeaning(candidates: Candidates, limited: set<Id>, policy: MatchingPolicy, solver: Solver,
                          a: Assignment,
                          g: GatedResult)
    requires Exact(candidates, limited, policy, solver, a) && Gated(candidates, a, policy, solver, g)
    ensures StagesMean(candidates, limited, policy, a.components, g)
  {
    forall k | 0 <= k < |a.components|
      ensures ComponentMeaning(a.components[k], candidates, limited, policy)
      ensures ProposalsMeaning(g.components[k], a.components[k], candidates, policy)
    {
      EachIsSolved(candidates, limited, policy, solver, a, k);
      ComponentHasMeaning(a.components[k], candidates, limited, policy, solver);
      ProposalsHaveMeaning(g.components[k], a.components[k], candidates, limited, policy, solver);
    }
  }

  // ----- solving component by component loses nothing -----

  ghost predicate AllComplete(components: seq<Component>) {
    forall k :: 0 <= k < |components| ==> components[k].Complete()
  }

  ghost predicate PieceOptimal(g: Graph, piece: set<Edge>, selected: seq<SelectedEdge>)
    requires Positive(g)
  {
    Optimal(Restrict(g, piece), Edges(selected)) && UtilitySum(selected) == Best(Restrict(g, piece))
  }

  lemma {:induction false} PrefixIsOptimal(g: Graph, components: seq<Component>, n: nat)
    requires Positive(g) && Partitions(g.Keys, components) && n <= |components|
    requires forall k :: 0 <= k < |components| ==> PieceOptimal(g, Inside(g.Keys, components[k]), components[k].selected)
    ensures PieceOptimal(g, UnionInside(g.Keys, components[..n]), Flatten(components[..n]))
  {
    if n == 0 {
      assert components[..0] == [];
      NothingIsOptimal(g, UnionInside(g.Keys, []));
    } else {
      PrefixIsOptimal(g, components, n - 1);
      OneMorePiece(g, components, n - 1);
    }
  }

  lemma OneMorePiece(g: Graph, components: seq<Component>, n: nat)
    requires Positive(g) && Partitions(g.Keys, components) && n < |components|
    requires PieceOptimal(g, UnionInside(g.Keys, components[..n]), Flatten(components[..n]))
    requires PieceOptimal(g, Inside(g.Keys, components[n]), components[n].selected)
    ensures PieceOptimal(g, UnionInside(g.Keys, components[..n + 1]), Flatten(components[..n + 1]))
  {
    UnionGrows(g.Keys, components, n);
    InsideIsClosed(g, components, n);
    assert components[..n + 1][..n] == components[..n];
    PiecesJoin(g, UnionInside(g.Keys, components[..n]), Inside(g.Keys, components[n]), Flatten(components[..n]),
               components[n].selected);
  }

  lemma NothingIsOptimal(g: Graph, piece: set<Edge>)
    requires Positive(g) && piece == {}
    ensures PieceOptimal(g, piece, [])
  {
    var h := Restrict(g, piece);
    assert h.Keys == {} && Edges([]) == {};
    assert Optimal(h, {});
    BestIs(h, {});
  }

  lemma PiecesJoin(g: Graph, before: set<Edge>, inside: set<Edge>, a: seq<SelectedEdge>, b: seq<SelectedEdge>)
    requires Positive(g) && before <= g.Keys && inside <= g.Keys && before !! inside && Closed(g, inside)
    requires PieceOptimal(g, before, a) && PieceOptimal(g, inside, b)
    ensures PieceOptimal(g, before + inside, a + b)
  {
    PrefixJoins(g, before, inside, Edges(a), Edges(b));
    EdgesConcat(a, b);
  }

  lemma PrefixJoins(g: Graph, before: set<Edge>, inside: set<Edge>, a: set<Edge>, b: set<Edge>)
    requires Positive(g) && before <= g.Keys && inside <= g.Keys && before !! inside && Closed(g, inside)
    requires Optimal(Restrict(g, before), a) && Optimal(Restrict(g, inside), b)
    ensures Optimal(Restrict(g, before + inside), a + b)
    ensures Best(Restrict(g, before + inside)) == Best(Restrict(g, before)) + Best(Restrict(g, inside))
  {
    var h := Restrict(g, before + inside);
    assert Closed(h, inside);
    assert Restrict(h, inside) == Restrict(g, inside);
    assert Outside(h, inside) == Restrict(g, before);
    OptimalJoins(h, inside, b, a);
    BestSplits(h, inside);
    assert b + a == a + b;
  }

  lemma {:induction false} EdgesConcat(a: seq<SelectedEdge>, b: seq<SelectedEdge>)
    ensures Edges(a + b) == Edges(a) + Edges(b) && UtilitySum(a + b) == UtilitySum(a) + UtilitySum(b)
  {
    if b == [] {
      assert a + b == a;
    } else {
      var init, last := b[..|b| - 1], b[|b| - 1];
      EdgesConcat(a, init);
      assert a + b == (a + init) + [last] && b == init + [last];
      EdgesAppend(a + init, last);
      EdgesAppend(init, last);
    }
  }

  lemma AllHaveMeaning(candidates: Candidates, limited: set<Id>, policy: MatchingPolicy, solver: Solver, a: Assignment)
    requires Exact(candidates, limited, policy, solver, a)
    ensures forall k :: 0 <= k < |a.components| ==> ComponentMeaning(a.components[k], candidates, limited, policy)
  {
    forall k | 0 <= k < |a.components|
      ensures ComponentMeaning(a.components[k], candidates, limited, policy)
    {
      EachIsSolved(candidates, limited, policy, solver, a, k);
      ComponentHasMeaning(a.components[k], candidates, limited, policy, solver);
    }
  }

  lemma WholeIsOptimal(candidates: Candidates, limited: set<Id>, policy: MatchingPolicy, components: seq<Component>)
    requires Partitions(Eligible(candidates, policy.floor).Keys, components) && AllComplete(components)
    requires forall k :: 0 <= k < |components| ==> ComponentMeaning(components[k], candidates, limited, policy)
    ensures Optimal(Eligible(candidates, policy.floor), Edges(Flatten(components)))
    ensures UtilitySum(Flatten(components)) == Best(Eligible(candidates, policy.floor))
  {
    var g := Eligible(candidates, policy.floor);
    forall k | 0 <= k < |components|
      ensures PieceOptimal(g, Inside(g.Keys, components[k]), components[k].selected)
    {
      assert ComponentMeaning(components[k], candidates, limited, policy);
    }
    PrefixIsOptimal(g, components, |components|);
    assert components[..|components|] == components;
    UnionIsAll(g.Keys, components);
    assert PieceOptimal(g, g.Keys, Flatten(components));
    RestrictAll(g);
  }

  lemma RestrictAll(g: Graph)
    ensures Restrict(g, g.Keys) == g
  {
  }

  /** When every component is complete, the union of the component selections is a one-to-one
      selection of maximum utility over the whole above-floor graph. */
  lemma AllCompleteIsGlobalOptimum(candidates: Candidates, limited: set<Id>, policy: MatchingPolicy, solver: Solver,
                                   a: Assignment)
    requires Exact(candidates, limited, policy, solver, a) && AllComplete(a.components)
    ensures Optimal(Eligible(candidates, policy.floor), Edges(a.selected))
    ensures UtilitySum(a.selected) == Best(Eligible(candidates, policy.floor))
    ensures OneToOneSelection(a.selected)
  {
    AllHaveMeaning(candidates, limited, policy, solver, a);
    WholeIsOptimal(candidates, limited, policy, a.components);
  }

  // ----- acceptance without the algorithm -----

  /** An edge that a complete search of its component, the gates and the margin all support; the
      margin is measured on the whole above-floor graph. */
  ghost predicate Decisive(candidates: Candidates, limited: set<Id>, policy: MatchingPolicy, e: Edge) {
    var g := Eligible(candidates, policy.floor);
    && e in g
    && Searchable(candidates, limited, policy.limits, ComponentOf(g.Keys, e))
    && Passes(candidates[e], Gap(g, e), policy)
  }

  ghost function DecisiveProposal(candidates: Candidates, policy: MatchingPolicy, e: Edge): Proposal
    requires e in candidates
  {
    var g := Eligible(candidates, policy.floor);
    Proposal(e, candidates[e].score, Best(Without(Restrict(g, ComponentOf(g.Keys, e)), e)), Gap(g, e), true, {})
  }

  lemma GapInComponent(candidates: Candidates, limited: set<Id>, policy: MatchingPolicy, components: seq<Component>,
                       k: nat, e: Edge)
    requires Partitions(Eligible(candidates, policy.floor).Keys, components)
    requires HasInside(Eligible(candidates, policy.floor).Keys, components, k, e)
    ensures var g := Eligible(candidates, policy.floor);
            && Gap(GraphOf(candidates, policy.floor, components[k]), e) == Gap(g, e)
            && GraphOf(candidates, policy.floor, components[k]) == Restrict(g, ComponentOf(g.Keys, e))
            && Inside(g.Keys, components[k]) == ComponentOf(g.Keys, e)
            && 0 <= Gap(g, e) <= g[e]
  {
    var g := Eligible(candidates, policy.floor);
    InsideIsComponentOf(g.Keys, components, k, e);
    InsideIsClosed(g, components, k);
    GapIsLocal(g, Inside(g.Keys, components[k]), e);
    GapBounds(g, e);
  }

  lemma AcceptedIsProposed(g: GatedResult, p: Proposal) returns (k: nat, i: nat)
    requires GatedValid(g) && p in g.accepted
    ensures k < |g.components| && i < |g.components[k].proposals| && g.components[k].proposals[i] == p && p.accepted
  {
    FlattenProposalMembers(g.components);
    assert ProposedSomewhere(g.components, p);
    k :| 0 <= k < |g.components| && p in g.components[k].proposals;
    i :| 0 <= i < |g.components[k].proposals| && g.components[k].proposals[i] == p;
  }

  /** A proposal's gap, computed inside its component, is the gap over the whole above-floor graph. */
  lemma ProposalGap(candidates: Candidates, limited: set<Id>, policy: MatchingPolicy, components: seq<Component>,
                    k: nat, p: Proposal, s: SelectedEdge)
    requires Partitions(Eligible(candidates, policy.floor).Keys, components) && k < |components|
    requires ComponentMeaning(components[k], candidates, limited, policy) && components[k].Complete()
    requires ProposalMeaning(p, s, components[k], candidates, policy) && s in components[k].selected
    ensures HasInside(Eligible(candidates, policy.floor).Keys, components, k, p.edge)
    ensures p.gap == Gap(Eligible(candidates, policy.floor), p.edge)
    ensures 0 <= p.gap <= p.score - policy.floor
  {
    LocalGap(components[k], candidates, limited, policy, p, s);
    assert HasInside(Eligible(candidates, policy.floor).Keys, components, k, p.edge);
    GapInComponent(candidates, limited, policy, components, k, p.edge);
  }

  lemma LocalGap(c: Component, candidates: Candidates, limited: set<Id>, policy: MatchingPolicy, p: Proposal,
                 s: SelectedEdge)
    requires ComponentMeaning(c, candidates, limited, policy) && c.Complete()
    requires ProposalMeaning(p, s, c, candidates, policy) && s in c.selected
    ensures p.gap == Gap(GraphOf(candidates, policy.floor, c), p.edge)
    ensures p.edge in Inside(Eligible(candidates, policy.floor).Keys, c)
    ensures p.score - policy.floor == Eligible(candidates, policy.floor)[p.edge]
  {
  }

  lemma ProposalIsDecisive(candidates: Candidates, limited: set<Id>, policy: MatchingPolicy, components: seq<Component>,
                           k: nat, p: Proposal, s: SelectedEdge)
    requires Partitions(Eligible(candidates, policy.floor).Keys, components) && k < |components|
    requires ComponentMeaning(components[k], candidates, limited, policy) && components[k].Complete()
    requires ProposalMeaning(p, s, components[k], candidates, policy) && s in components[k].selected && p.accepted
    ensures Decisive(candidates, limited, policy, p.edge)
    ensures p == DecisiveProposal(candidates, policy, p.edge)
    ensures 0 <= p.gap <= p.score - policy.floor
  {
    ProposalGap(candidates, limited, policy, components, k, p, s);
    InsideIsComponentOf(Eligible(candidates, policy.floor).Keys, components, k, p.edge);
  }

  lemma MeantAcceptedIsDecisive(candidates: Candidates, limited: set<Id>, policy: MatchingPolicy,
                                components: seq<Component>,
                                g: GatedResult, p: Proposal)
    requires StagesMean(candidates, limited, policy, components, g) && p in g.accepted
    ensures p.edge in candidates && Decisive(candidates, limited, policy, p.edge)
    ensures p == DecisiveProposal(candidates, policy, p.edge)
    ensures 0 <= p.gap <= p.score - policy.floor
  {
    var k, i := AcceptedIsProposed(g, p);
    var c := components[k];
    assert ProposalsMeaning(g.components[k], c, candidates, policy) && ComponentMeaning(c, candidates, limited, policy);
    assert ProposalMeaning(p, c.selected[i], c, candidates, policy);
    ProposalIsDecisive(candidates, limited, policy, components, k, p, c.selected[i]);
  }

  lemma DecisiveIsSelected(candidates: Candidates, limited: set<Id>, policy: MatchingPolicy, components: seq<Component>,
                           k: nat, e: Edge) returns (i: nat)
    requires Partitions(Eligible(candidates, policy.floor).Keys, components)
    requires HasInside(Eligible(candidates, policy.floor).Keys, components, k, e)
    requires ComponentMeaning(components[k], candidates, limited, policy)
    requires 1 <= policy.minimumGap && Decisive(candidates, limited, policy, e)
    ensures components[k].Complete() && i < |components[k].selected| && components[k].selected[i].edge == e
    ensures components[k].optimum - Best(Without(GraphOf(candidates, policy.floor, components[k]), e)) ==
            Gap(Eligible(candidates, policy.floor), e)
  {
    var c := components[k];
    GapInComponent(candidates, limited, policy, components, k, e);
    PositiveGapIffInEveryOptimum(GraphOf(candidates, policy.floor, c), e);
    assert e in Edges(c.selected);
    i :| 0 <= i < |c.selected| && c.selected[i].edge == e;
  }

  lemma SelectedIsAccepted(candidates: Candidates, policy: MatchingPolicy, components: seq<Component>, g: GatedResult,
                           k: nat, i: nat)
    requires GatedValid(g) && k < |components| == |g.components|
    requires components[k].Complete() && i < |components[k].selected|
    requires ProposalsMeaning(g.components[k], components[k], candidates, policy)
    ensures var p := g.components[k].proposals[i];
            && p.edge == components[k].selected[i].edge && p.edge in candidates
            && p.gap == components[k].optimum - Best(Without(GraphOf(candidates, policy.floor, components[k]), p.edge))
            && (Passes(candidates[p.edge], p.gap, policy) ==> p in g.accepted)
  {
    var p := g.components[k].proposals[i];
    assert ProposalMeaning(p, components[k].selected[i], components[k], candidates, policy);
    assert p in g.components[k].proposals;
    FlattenProposalMembers(g.components);
    assert ProposedSomewhere(g.components, p);
  }

  lemma MeantDecisiveIsAccepted(candidates: Candidates, limited: set<Id>, policy: MatchingPolicy,
                                components: seq<Component>,
                                g: GatedResult, e: Edge) returns (p: Proposal)
    requires StagesMean(candidates, limited, policy, components, g)
    requires 1 <= policy.minimumGap && Decisive(candidates, limited, policy, e)
    ensures p in g.accepted && p.edge == e
  {
    var k: nat :| HasInside(Eligible(candidates, policy.floor).Keys, components, k, e);
    assert ComponentMeaning(components[k], candidates, limited, policy);
    assert ProposalsMeaning(g.components[k], components[k], candidates, policy);
    var i := DecisiveIsSelected(candidates, limited, policy, components, k, e);
    SelectedIsAccepted(candidates, policy, components, g, k, i);
    p := g.components[k].proposals[i];
  }

  /** Every accepted proposal is decisive, with exactly the decisive values; its gap is never
      negative and never exceeds the edge's own utility. */
  lemma AcceptedIsDecisive(candidates: Candidates, limited: set<Id>, policy: MatchingPolicy, solver: Solver,
                           a: Assignment,
                           g: GatedResult, p: Proposal)
    requires Exact(candidates, limited, policy, solver, a) && Gated(candidates, a, policy, solver, g)
    requires p in g.accepted
    ensures p.edge in candidates && Decisive(candidates, limited, policy, p.edge)
    ensures p == DecisiveProposal(candidates, policy, p.edge)
    ensures 0 <= p.gap <= p.score - policy.floor
  {
    StagesHaveMeaning(candidates, limited, policy, solver, a, g);
    MeantAcceptedIsDecisive(candidates, limited, policy, a.components, g, p);
  }

  /** With a minimum gap of at least one, an edge is accepted if and only if it is decisive; it then
      lies in every maximum-utility matching, so no tie-breaking of the solver can matter. */
  lemma AcceptedIffDecisive(candidates: Candidates, limited: set<Id>, policy: MatchingPolicy, solver: Solver,
                            a: Assignment,
                            g: GatedResult, p: Proposal)
    requires Exact(candidates, limited, policy, solver, a) && Gated(candidates, a, policy, solver, g)
    requires 1 <= policy.minimumGap
    ensures p in g.accepted <==>
            p.edge in candidates && Decisive(candidates, limited, policy, p.edge) &&
            p == DecisiveProposal(candidates, policy, p.edge)
    ensures p in g.accepted ==> forall m :: Optimal(Eligible(candidates, policy.floor), m) ==> p.edge in m
  {
    StagesHaveMeaning(candidates, limited, policy, solver, a, g);
    AcceptedIffDecisiveByMeaning(candidates, limited, policy, a.components, g, p);
  }

  lemma AcceptedIffDecisiveByMeaning(candidates: Candidates, limited: set<Id>, policy: MatchingPolicy,
                                     components: seq<Component>, g: GatedResult, p: Proposal)
    requires StagesMean(candidates, limited, policy, components, g) && 1 <= policy.minimumGap
    ensures p in g.accepted <==>
            p.edge in candidates && Decisive(candidates, limited, policy, p.edge) &&
            p == DecisiveProposal(candidates, policy, p.edge)
    ensures p in g.accepted ==> forall m :: Optimal(Eligible(candidates, policy.floor), m) ==> p.edge in m
  {
    if p in g.accepted {
      MeantAcceptedIsDecisive(candidates, limited, policy, components, g, p);
      PositiveGapIffInEveryOptimum(Eligible(candidates, policy.floor), p.edge);
    }
    if p.edge in candidates && Decisive(candidates, limited, policy, p.edge) && p == DecisiveProposal(candidates, policy, p.edge) {
      var q := MeantDecisiveIsAccepted(candidates, limited, policy, components, g, p.edge);
      MeantAcceptedIsDecisive(candidates, limited, policy, components, g, q);
    }
  }

  /** Two minimal solvers, however they break ties, accept the same proposals with the same scores,
      counterfactual objectives and gaps. */
  lemma AcceptanceIsSolverIndependent(candidates: Candidates, limited: set<Id>, policy: MatchingPolicy,
                                      s1: Solver, a1: Assignment, g1: GatedResult,
                                      s2: Solver, a2: Assignment, g2: GatedResult)
    requires Exact(candidates, limited, policy, s1, a1) && Gated(candidates, a1, policy, s1, g1)
    requires Exact(candidates, limited, policy, s2, a2) && Gated(candidates, a2, policy, s2, g2)
    requires 1 <= policy.minimumGap
    ensures forall p :: p in g1.accepted <==> p in g2.accepted
  {
    forall p
      ensures p in g1.accepted <==> p in g2.accepted
    {
      AcceptedIffDecisive(candidates, limited, policy, s1, a1, g1, p);
      AcceptedIffDecisive(candidates, limited, policy, s2, a2, g2, p);
    }
  }

  // ----- which records a search was too limited for -----

  /** The record has an above-floor edge whose component may not be searched. */
  ghost predicate Starved(candidates: Candidates, limited: set<Id>, policy: MatchingPolicy, x: Id) {
    var edges := Eligible(candidates, policy.floor).Keys;
    exists e :: e in edges && (e.left == x || e.right == x) &&
                !Searchable(candidates, limited, policy.limits, ComponentOf(edges, e))
  }

  ghost predicate MembersAreEnds(c: Component, edges: set<Edge>, candidates: Candidates, limited: set<Id>,
                                 limits: Limits) {
    && (forall x :: x in MembersOf(c) <==> x in Lefts(edges) || x in Rights(edges))
    && (c.Complete() <==> Searchable(candidates, limited, limits, edges))
  }

  lemma ComponentMembers(c: Component, edges: set<Edge>, candidates: Candidates, limited: set<Id>,
                         policy: MatchingPolicy,
                         solver: Solver)
    requires ComponentFor(c, edges, candidates, limited, policy, solver)
    ensures MembersAreEnds(c, edges, candidates, limited, policy.limits)
  {
    EndsAreMembers(c, edges);
    CompleteIffSearchable(c, edges, candidates, limited, policy, solver);
  }

  lemma EndsAreMembers(c: Component, edges: set<Edge>)
    requires edges != {} && c.lefts == SortedIds(Lefts(edges)) && c.rights == SortedIds(Rights(edges))
    ensures forall x :: x in MembersOf(c) <==> x in Lefts(edges) || x in Rights(edges)
  {
    SidesAre(edges);
  }

  lemma CompleteIffSearchable(c: Component, edges: set<Edge>, candidates: Candidates, limited: set<Id>,
                              policy: MatchingPolicy,
                              solver: Solver)
    requires ComponentFor(c, edges, candidates, limited, policy, solver)
    ensures c.Complete() <==> Searchable(candidates, limited, policy.limits, edges)
  {
  }

  ghost predicate AllMembersAreEnds(candidates: Candidates, limited: set<Id>, policy: MatchingPolicy,
                                    components: seq<Component>) {
    forall k :: 0 <= k < |components| ==>
      MembersAreEnds(components[k], Inside(Eligible(candidates, policy.floor).Keys, components[k]), candidates,
                     limited, policy.limits)
  }

  lemma AllComponentMembers(candidates: Candidates, limited: set<Id>, policy: MatchingPolicy, solver: Solver,
                            components: seq<Component>)
    requires AllComponentsFor(components, InsideAll(Eligible(candidates, policy.floor).Keys, components), candidates, limited,
                              policy, solver)
    ensures AllMembersAreEnds(candidates, limited, policy, components)
  {
    var classes := InsideAll(Eligible(candidates, policy.floor).Keys, components);
    forall k | 0 <= k < |components|
      ensures MembersAreEnds(components[k], classes[k], candidates, limited, policy.limits)
    {
      ComponentMembers(components[k], classes[k], candidates, limited, policy, solver);
    }
  }

  lemma ComponentHolds(candidates: Candidates, limited: set<Id>, policy: MatchingPolicy, components: seq<Component>,
                       k: nat, e: Edge)
    requires Partitions(Eligible(candidates, policy.floor).Keys, components)
    requires AllMembersAreEnds(candidates, limited, policy, components)
    requires HasInside(Eligible(candidates, policy.floor).Keys, components, k, e)
    ensures MembersAreEnds(components[k], ComponentOf(Eligible(candidates, policy.floor).Keys, e), candidates,
                           limited, policy.limits)
    ensures e in ComponentOf(Eligible(candidates, policy.floor).Keys, e)
  {
    InsideIsComponentOf(Eligible(candidates, policy.floor).Keys, components, k, e);
  }

  lemma EdgeOfMember(c: Component, edges: set<Edge>, candidates: Candidates, limited: set<Id>, limits: Limits, x: Id)
    returns (e: Edge)
    requires MembersAreEnds(c, edges, candidates, limited, limits) && x in MembersOf(c)
    ensures e in edges && (e.left == x || e.right == x)
  {
    e :| e in edges && (e.left == x || e.right == x);
  }

  lemma IncompleteIsStarved(candidates: Candidates, limited: set<Id>, policy: MatchingPolicy,
                            components: seq<Component>, x: Id)
    requires Partitions(Eligible(candidates, policy.floor).Keys, components)
    requires AllMembersAreEnds(candidates, limited, policy, components)
    requires x in IncompleteMembers(components)
    ensures Starved(candidates, limited, policy, x)
  {
    var edges := Eligible(candidates, policy.floor).Keys;
    var c :| c in components && !c.Complete() && x in MembersOf(c);
    var k: nat :| k < |components| && components[k] == c;
    var e := EdgeOfMember(c, Inside(edges, c), candidates, limited, policy.limits, x);
    ComponentHolds(candidates, limited, policy, components, k, e);
  }

  lemma StarvedIsIncomplete(candidates: Candidates, limited: set<Id>, policy: MatchingPolicy,
                            components: seq<Component>, x: Id)
    requires Partitions(Eligible(candidates, policy.floor).Keys, components)
    requires AllMembersAreEnds(candidates, limited, policy, components)
    requires Starved(candidates, limited, policy, x)
    ensures x in IncompleteMembers(components)
  {
    var edges := Eligible(candidates, policy.floor).Keys;
    var e :| e in edges && (e.left == x || e.right == x) &&
             !Searchable(candidates, limited, policy.limits, ComponentOf(edges, e));
    var k: nat :| HasInside(edges, components, k, e);
    ComponentHolds(candidates, limited, policy, components, k, e);
    assert components[k] in components && x in MembersOf(components[k]);
  }

  /** The limited records are those the generation left incomplete and those with an above-floor edge in a
      component that may not be searched: which records are limited does not depend on the solver. */
  lemma LimitedIffStarved(candidates: Candidates, limited: set<Id>, policy: MatchingPolicy, solver: Solver,
                          a: Assignment, x: Id)
    requires Assigned(candidates, limited, policy, solver, a)
    ensures x in a.limited <==> x in limited || Starved(candidates, limited, policy, x)
  {
    assert x in IncompleteMembers(a.components) <==> Starved(candidates, limited, policy, x) by {
      ClassesStarve(candidates, limited, policy, solver, a.components, x);
    }
  }

  lemma ClassesStarve(candidates: Candidates, limited: set<Id>, policy: MatchingPolicy, solver: Solver,
                      components: seq<Component>, x: Id)
    requires var edges := Eligible(candidates, policy.floor).Keys;
             Partitions(edges, components) &&
             AllComponentsFor(components, InsideAll(edges, components), candidates, limited, policy, solver)
    ensures x in IncompleteMembers(components) <==> Starved(candidates, limited, policy, x)
  {
    AllComponentMembers(candidates, limited, policy, solver, components);
    if x in IncompleteMembers(components) {
      IncompleteIsStarved(candidates, limited, policy, components, x);
    } else if Starved(candidates, limited, policy, x) {
      StarvedIsIncomplete(candidates, limited, policy, components, x);
    }
  }
}
