/** Bounded search is conservative: what it accepts, an unbounded search accepts too. */
module Conservative {
  import opened Matchings
  import opened Domain
  import opened Reachability
  import opened Components
  import opened Ordering
  import opened ComponentSolver
  import opened Assignment
  import opened Gating
  import opened Acceptance

  /** Two candidate maps that agree on every pair with a record outside the limited set, where
      limited records only ever meet limited records. */
  ghost predicate AgreeOutside(bounded: Candidates, full: Candidates, limited: set<Id>) {
    && (forall e: Edge :: e in bounded || e in full ==> (e.left in limited <==> e.right in limited))
    && (forall e: Edge :: e.left !in limited && e.right !in limited ==>
          (e in bounded <==> e in full) && (e in bounded ==> bounded[e] == full[e]))
  }

  ghost predicate Unlimited(edges: set<Edge>, limited: set<Id>) {
    forall e :: e in edges ==> e.left !in limited && e.right !in limited
  }

  /** A component without limited records is the same component of the full graph. */
  lemma SameComponent(bounded: Candidates, full: Candidates, limited: set<Id>, floor: int, e: Edge)
    requires AgreeOutside(bounded, full, limited)
    requires e in Eligible(bounded, floor) && Unlimited(ComponentOf(Eligible(bounded, floor).Keys, e), limited)
    ensures e in Eligible(full, floor)
    ensures ComponentOf(Eligible(full, floor).Keys, e) == ComponentOf(Eligible(bounded, floor).Keys, e)
  {
    var b, f := Eligible(bounded, floor).Keys, Eligible(full, floor).Keys;
    var here := ComponentOf(b, e);
    LinkedSelf(Touch, b, e);
    assert e in here;
    forall x, y | x in here && y in f && Touch(x, y)
      ensures y in here
    {
      LinkedStep(Touch, b, e, x, y);
    }
    LinkedSelf(Touch, f, e);
    var there := ComponentOf(f, e);
    forall y | y in there
      ensures y in here
    {
      LinkedStaysInside(Touch, f, here, e, y);
    }
    assert e in there;
    forall x, y | x in there && y in b && Touch(x, y)
      ensures y in there
    {
      LinkedStep(Touch, b, e, x, y);
      LinkedStep(Touch, f, e, x, y);
    }
    forall y | y in here
      ensures y in there
    {
      LinkedStaysInside(Touch, b, there, e, y);
    }
  }

  /** The two runs' results for the same class of edges coincide. */
  lemma SameOutcome(c1: Component, c2: Component, edges: set<Edge>, bounded: Candidates, full: Candidates,
                    limited: set<Id>, p1: MatchingPolicy, p2: MatchingPolicy, solver: Solver)
    requires p1.floor == p2.floor && Narrow(bounded, edges) == Narrow(full, edges)
    requires ComponentFor(c1, edges, bounded, limited, p1, solver) && c1.Complete()
    requires ComponentFor(c2, edges, full, {}, p2, solver) && c2.Complete()
    ensures c1.lefts == c2.lefts && c1.rights == c2.rights && c1.selected == c2.selected && c1.optimum == c2.optimum
  {
  }

  lemma SameReasons(r1: set<GateReason>, r2: set<GateReason>, evidence: Evidence, gap: int, p1: MatchingPolicy,
                    p2: MatchingPolicy)
    requires p2 == p1.(limits := p2.limits)
    requires ReasonsAre(r1, evidence, gap, p1) && ReasonsAre(r2, evidence, gap, p2)
    ensures r1 == r2
  {
    forall reason
      ensures reason in r1 <==> reason in r2
    {
      assert Withheld(reason, evidence, gap, p1) <==> Withheld(reason, evidence, gap, p2);
    }
  }

  lemma SameProposal(q1: Proposal, q2: Proposal, s: SelectedEdge, c1: Component, c2: Component, edges: set<Edge>,
                     bounded: Candidates, full: Candidates, p1: MatchingPolicy, p2: MatchingPolicy, solver: Solver)
    requires p2 == p1.(limits := p2.limits)
    requires Inside(Eligible(bounded, p1.floor).Keys, c1) == edges == Inside(Eligible(full, p2.floor).Keys, c2)
    requires Narrow(bounded, edges) == Narrow(full, edges)
    requires c1.lefts == c2.lefts && c1.rights == c2.rights && c1.optimum == c2.optimum
    requires ProposalFor(q1, s, bounded, c1, p1, solver) && ProposalFor(q2, s, full, c2, p2, solver)
    requires s.edge in edges
    ensures q1 == q2
  {
    SpannedIsInside(bounded, c1, p1.floor);
    SpannedIsInside(full, c2, p2.floor);
    assert Spanned(bounded, c1, p1.floor) == Spanned(full, c2, p2.floor);
    assert bounded[s.edge] == Narrow(bounded, edges)[s.edge] == full[s.edge];
    assert q1.counterfactual == q2.counterfactual;
    SameReasons(q1.reasons, q2.reasons, bounded[s.edge], q1.gap, p1, p2);
  }

  /** One run of the assignment and gating stages. */
  datatype Stages = Stages(candidates: Candidates, limited: set<Id>, policy: MatchingPolicy, solver: Solver,
                           a: Assignment, g: GatedResult)
  {
    ghost predicate Valid() {
      Exact(candidates, limited, policy, solver, a) && Gated(candidates, a, policy, solver, g)
    }
  }

  lemma StageComponent(r: Stages, k: nat)
    requires r.Valid() && k < |r.a.components|
    ensures |r.a.components| == |r.g.components|
    ensures ComponentFor(r.a.components[k], Inside(Eligible(r.candidates, r.policy.floor).Keys, r.a.components[k]),
                         r.candidates, r.limited, r.policy, r.solver)
    ensures EvidenceOf(r.g.components[k], r.a.components[k], r.candidates, r.policy, r.solver)
  {
    assert ComponentFor(r.a.components[k], InsideAll(Eligible(r.candidates, r.policy.floor).Keys, r.a.components)[k],
                        r.candidates, r.limited, r.policy, r.solver);
  }

  lemma AcceptedOrigin(r: Stages, p: Proposal) returns (k: nat, i: nat)
    requires r.Valid() && p in r.g.accepted
    ensures k < |r.a.components| == |r.g.components| && r.a.components[k].Complete()
    ensures i < |r.a.components[k].selected| && i < |r.g.components[k].proposals| && r.g.components[k].proposals[i] == p
    ensures ProposalFor(p, r.a.components[k].selected[i], r.candidates, r.a.components[k], r.policy, r.solver)
    ensures p.accepted
    ensures ComponentFor(r.a.components[k], Inside(Eligible(r.candidates, r.policy.floor).Keys, r.a.components[k]),
                         r.candidates, r.limited, r.policy, r.solver)
    ensures HasInside(Eligible(r.candidates, r.policy.floor).Keys, r.a.components, k, p.edge)
  {
    k, i := AcceptedIsProposed(r.g, p);
    StageComponent(r, k);
    OriginInside(r, r.a.components[k], r.g.components[k], i);
  }

  lemma OriginInside(r: Stages, c: Component, e: ComponentEvidence, i: nat)
    requires MinimalSolver(r.solver) && Scored(r.candidates)
    requires ComponentFor(c, Inside(Eligible(r.candidates, r.policy.floor).Keys, c), r.candidates, r.limited,
                          r.policy, r.solver)
    requires EvidenceOf(e, c, r.candidates, r.policy, r.solver) && i < |e.proposals|
    ensures c.Complete() && i < |c.selected|
    ensures ProposalFor(e.proposals[i], c.selected[i], r.candidates, c, r.policy, r.solver)
    ensures e.proposals[i].edge in Inside(Eligible(r.candidates, r.policy.floor).Keys, c)
  {
    SelectedIsInside(c, Inside(Eligible(r.candidates, r.policy.floor).Keys, c), r.candidates, r.limited, r.policy, r.solver,
                     c.selected[i]);
  }

  lemma CompleteIsUnlimited(c: Component, edges: set<Edge>, r: Stages)
    requires ComponentFor(c, edges, r.candidates, r.limited, r.policy, r.solver) && c.Complete()
    ensures Unlimited(edges, r.limited)
  {
    SidesAre(edges);
    NoLimitFree(c.lefts, c.rights, Narrow(r.candidates, edges), r.limited, r.policy.limits);
  }

  lemma NoLimitFree(lefts: seq<Id>, rights: seq<Id>, inside: Candidates, limited: set<Id>, limits: Limits)
    requires LimitOf(lefts, rights, inside, limited, limits).None?
    ensures forall x :: x in lefts || x in rights ==> x !in limited
  {
    assert forall x :: x in lefts + rights ==> x !in limited;
  }

  lemma ComponentHere(r: Stages, e: Edge) returns (k: nat)
    requires r.Valid() && e in Eligible(r.candidates, r.policy.floor)
    ensures HasInside(Eligible(r.candidates, r.policy.floor).Keys, r.a.components, k, e)
    ensures Inside(Eligible(r.candidates, r.policy.floor).Keys, r.a.components[k]) ==
            ComponentOf(Eligible(r.candidates, r.policy.floor).Keys, e)
  {
    k := ClassOf(Eligible(r.candidates, r.policy.floor).Keys, r.a.components, e);
  }

  lemma ClassOf(edges: set<Edge>, components: seq<Component>, e: Edge) returns (k: nat)
    requires Partitions(edges, components) && e in edges
    ensures HasInside(edges, components, k, e) && Inside(edges, components[k]) == ComponentOf(edges, e)
  {
    k :| HasInside(edges, components, k, e);
    InsideIsComponentOf(edges, components, k, e);
  }

  lemma NarrowAgrees(bounded: Candidates, full: Candidates, limited: set<Id>, floor: int, edges: set<Edge>)
    requires AgreeOutside(bounded, full, limited) && Unlimited(edges, limited)
    ensures Narrow(bounded, edges) == Narrow(full, edges)
  {
  }

  lemma ProposedIsAccepted(r: Stages, k: nat, i: nat)
    requires r.Valid() && k < |r.g.components| && i < |r.g.components[k].proposals|
    requires r.g.components[k].proposals[i].accepted
    ensures r.g.components[k].proposals[i] in r.g.accepted
  {
    FlattenProposalMembers(r.g.components);
    assert ProposedSomewhere(r.g.components, r.g.components[k].proposals[i]);
  }

  /** Every pair accepted under any caps is also accepted, with the same score, counterfactual and
      gap, by the run in which no cap trips; this holds for every minimum gap, zero included. */
  lemma BoundedAcceptanceIsConservative(bounded: Stages, full: Stages, p: Proposal)
    requires bounded.Valid() && full.Valid()
    requires full.policy == bounded.policy.(limits := full.policy.limits) && full.solver == bounded.solver
    requires full.limited == {} && AllComplete(full.a.components)
    requires AgreeOutside(bounded.candidates, full.candidates, bounded.limited)
    requires p in bounded.g.accepted
    ensures p in full.g.accepted
  {
    var floor := bounded.policy.floor;
    var k1, i := AcceptedOrigin(bounded, p);
    var c1 := bounded.a.components[k1];
    var b := Eligible(bounded.candidates, floor).Keys;
    InsideIsComponentOf(b, bounded.a.components, k1, p.edge);
    var edges := ComponentOf(b, p.edge);
    CompleteIsUnlimited(c1, edges, bounded);
    SameComponent(bounded.candidates, full.candidates, bounded.limited, floor, p.edge);
    NarrowAgrees(bounded.candidates, full.candidates, bounded.limited, floor, edges);
    var k2 := ComponentHere(full, p.edge);
    StageComponent(full, k2);
    var c2 := full.a.components[k2];
    SameOutcome(c1, c2, edges, bounded.candidates, full.candidates, bounded.limited, bounded.policy, full.policy,
                full.solver);
    var q := full.g.components[k2].proposals[i];
    assert ProposalFor(q, c2.selected[i], full.candidates, c2, full.policy, full.solver);
    SameProposal(p, q, c1.selected[i], c1, c2, edges, bounded.candidates, full.candidates, bounded.policy,
                 full.policy, full.solver);
    ProposedIsAccepted(full, k2, i);
  }

  /** And for a record the bounded run did not limit, acceptance is the same in both directions. */
  lemma UnlimitedAcceptanceIsComplete(bounded: Stages, full: Stages, p: Proposal, x: Id)
    requires bounded.Valid() && full.Valid()
    requires full.policy == bounded.policy.(limits := full.policy.limits) && full.solver == bounded.solver
    requires full.limited == {} && AllComplete(full.a.components)
    requires AgreeOutside(bounded.candidates, full.candidates, bounded.limited)
    requires p in full.g.accepted && (p.edge.left == x || p.edge.right == x) && x !in bounded.a.limited
    ensures p in bounded.g.accepted
  {
    var floor := bounded.policy.floor;
    var k2, i := AcceptedOrigin(full, p);
    var c2 := full.a.components[k2];
    var f := Eligible(full.candidates, floor).Keys;
    InsideIsComponentOf(f, full.a.components, k2, p.edge);
    var edges := UnlimitedEdgeHere(bounded, full, p.edge, x);
    var k1 := ComponentHere(bounded, p.edge);
    StageComponent(bounded, k1);
    var c1 := bounded.a.components[k1];
    CompleteBySearch(bounded, c1, edges);
    NarrowAgrees(bounded.candidates, full.candidates, bounded.limited, floor, edges);
    SameOutcome(c1, c2, edges, bounded.candidates, full.candidates, bounded.limited, bounded.policy, full.policy,
                full.solver);
    var q := bounded.g.components[k1].proposals[i];
    assert ProposalFor(q, c1.selected[i], bounded.candidates, c1, bounded.policy, bounded.solver);
    SameProposal(q, p, c1.selected[i], c1, c2, edges, bounded.candidates, full.candidates, bounded.policy,
                 full.policy, full.solver);
    ProposedIsAccepted(bounded, k1, i);
  }

  lemma SameHere(c1: Component, c2: Component, edges: set<Edge>, candidates: Candidates, limited: set<Id>,
                 policy: MatchingPolicy, solver: Solver)
    requires ComponentFor(c1, edges, candidates, limited, policy, solver)
    requires ComponentFor(c2, edges, candidates, limited, policy, solver)
    ensures c1 == c2
  {
  }

  lemma SameFor(q1: Proposal, q2: Proposal, s: SelectedEdge, c: Component, candidates: Candidates,
                policy: MatchingPolicy, solver: Solver)
    requires ProposalFor(q1, s, candidates, c, policy, solver) && ProposalFor(q2, s, candidates, c, policy, solver)
    ensures q1 == q2
  {
    SameReasons(q1.reasons, q2.reasons, candidates[s.edge], q1.gap, policy, policy);
  }

  /** With one solver, the candidates decide what is accepted, whatever the minimum gap. */
  lemma AcceptanceIsDetermined(r1: Stages, r2: Stages, p: Proposal)
    requires r1.Valid() && r2.Valid() && p in r1.g.accepted
    requires r1.candidates == r2.candidates && r1.limited == r2.limited && r1.policy == r2.policy &&
             r1.solver == r2.solver
    ensures p in r2.g.accepted
  {
    var edges := Eligible(r1.candidates, r1.policy.floor).Keys;
    var k1, i := AcceptedOrigin(r1, p);
    InsideIsComponentOf(edges, r1.a.components, k1, p.edge);
    var k2 := ComponentHere(r2, p.edge);
    StageComponent(r2, k2);
    var c := r1.a.components[k1];
    SameHere(c, r2.a.components[k2], ComponentOf(edges, p.edge), r1.candidates, r1.limited, r1.policy, r1.solver);
    var q := r2.g.components[k2].proposals[i];
    assert ProposalFor(q, c.selected[i], r1.candidates, c, r1.policy, r1.solver);
    SameFor(p, q, c.selected[i], c, r1.candidates, r1.policy, r1.solver);
    ProposedIsAccepted(r2, k2, i);
  }

  lemma CompleteBySearch(r: Stages, c: Component, edges: set<Edge>)
    requires ComponentFor(c, edges, r.candidates, r.limited, r.policy, r.solver)
    requires Searchable(r.candidates, r.limited, r.policy.limits, edges)
    ensures c.Complete()
  {
  }

  lemma UnlimitedEdgeHere(bounded: Stages, full: Stages, e: Edge, x: Id) returns (edges: set<Edge>)
    requires bounded.Valid() && full.policy.floor == bounded.policy.floor
    requires AgreeOutside(bounded.candidates, full.candidates, bounded.limited)
    requires e in Eligible(full.candidates, full.policy.floor) && (e.left == x || e.right == x)
    requires x !in bounded.a.limited
    ensures e in Eligible(bounded.candidates, bounded.policy.floor)
    ensures edges == ComponentOf(Eligible(bounded.candidates, bounded.policy.floor).Keys, e) ==
            ComponentOf(Eligible(full.candidates, full.policy.floor).Keys, e)
    ensures Unlimited(edges, bounded.limited)
    ensures Searchable(bounded.candidates, bounded.limited, bounded.policy.limits, edges)
  {
    LimitedIffStarved(bounded.candidates, bounded.limited, bounded.policy, bounded.solver, bounded.a, x);
    var b := Eligible(bounded.candidates, bounded.policy.floor).Keys;
    assert e in b;
    edges := ComponentOf(b, e);
    LinkedSelf(Touch, b, e);
    SearchableIsUnlimited(bounded.candidates, bounded.limited, bounded.policy.limits, edges);
    SameComponent(bounded.candidates, full.candidates, bounded.limited, bounded.policy.floor, e);
  }

  lemma SearchableIsUnlimited(candidates: Candidates, limited: set<Id>, limits: Limits, edges: set<Edge>)
    requires Searchable(candidates, limited, limits, edges)
    ensures Unlimited(edges, limited)
  {
    if edges != {} {
      SidesAre(edges);
      forall e | e in edges
        ensures e.left !in limited && e.right !in limited
      {
        assert e.left in SortedIds(Lefts(edges)) + SortedIds(Rights(edges));
        assert e.right in SortedIds(Lefts(edges)) + SortedIds(Rights(edges));
      }
    }
  }
}
