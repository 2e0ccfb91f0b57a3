/** Automatic-acceptance gates: every selected edge is re-solved with that edge forbidden. */
module Gating {
  import opened Matchings
  import opened Domain
  import opened Components
  import opened ComponentSolver
  import opened Assignment

  datatype GateReason =
    | ScoreBelowAutomaticThreshold | InsufficientEvidence | HardContradiction | IncompleteComputation | GlobalGapBelowMinimum

  datatype Proposal = Proposal(edge: Edge, score: int, counterfactual: int, gap: int, accepted: bool, reasons: set<GateReason>) {
    predicate Valid() {
      0 <= score <= SCALE && 0 <= counterfactual && 0 <= gap && (accepted <==> reasons == {})
    }
  }

  datatype ComponentEvidence = ComponentEvidence(component: Component, proposals: seq<Proposal>) {
    predicate Valid() {
      && (forall i, j :: 0 <= i < j < |proposals| ==> proposals[i].edge != proposals[j].edge)
      && (!component.Complete() ==> proposals == [])
      && (forall p :: p in proposals ==>
            && p.edge.left in component.lefts && p.edge.right in component.rights
            && p.counterfactual <= component.optimum && p.gap == component.optimum - p.counterfactual)
    }
  }

  datatype GatedResult = GatedResult(components: seq<ComponentEvidence>, proposals: seq<Proposal>, accepted: seq<Proposal>)

  function FlattenProposals(components: seq<ComponentEvidence>): seq<Proposal> {
    if components == [] then []
    else FlattenProposals(components[..|components| - 1]) + components[|components| - 1].proposals
  }

  function AcceptedOf(proposals: seq<Proposal>): (accepted: seq<Proposal>)
    ensures forall p :: p in accepted <==> p in proposals && p.accepted
  {
    if proposals == [] then []
    else AcceptedOf(proposals[..|proposals| - 1]) +
         if proposals[|proposals| - 1].accepted then [proposals[|proposals| - 1]] else []
  }

  predicate OneToOneProposals(proposals: seq<Proposal>) {
    forall i, j :: 0 <= i < j < |proposals| ==> !Touch(proposals[i].edge, proposals[j].edge)
  }

  predicate GatedValid(g: GatedResult) {
    && (forall i, j :: 0 <= i < j < |g.components| ==> g.components[i].component.id != g.components[j].component.id)
    && g.proposals == FlattenProposals(g.components)
    && g.accepted == AcceptedOf(g.proposals)
    && OneToOneProposals(g.accepted)
  }

  /** Why a proposal is withheld; nothing withholds it exactly when every gate passes. */
  predicate Withheld(reason: GateReason, evidence: Evidence, gap: int, policy: MatchingPolicy) {
    match reason
    case ScoreBelowAutomaticThreshold => evidence.score < policy.threshold
    case InsufficientEvidence => !evidence.coverageSufficient
    case HardContradiction => evidence.contradictions != {}
    case IncompleteComputation => !evidence.complete
    case GlobalGapBelowMinimum => gap < policy.minimumGap
  }

  ghost predicate ReasonsAre(reasons: set<GateReason>, evidence: Evidence, gap: int, policy: MatchingPolicy) {
    forall reason :: reason in reasons <==> Withheld(reason, evidence, gap, policy)
  }

  /** Every automatic-acceptance gate passes. */
  predicate Passes(evidence: Evidence, gap: int, policy: MatchingPolicy) {
    && policy.threshold <= evidence.score && evidence.coverageSufficient && evidence.contradictions == {}
    && evidence.complete && policy.minimumGap <= gap
  }

  lemma NoReasonIffPasses(reasons: set<GateReason>, evidence: Evidence, gap: int, policy: MatchingPolicy)
    requires ReasonsAre(reasons, evidence, gap, policy)
    ensures reasons == {} <==> Passes(evidence, gap, policy)
  {
    if Passes(evidence, gap, policy) {
      assert forall reason :: reason !in reasons;
    } else {
      assert exists reason :: Withheld(reason, evidence, gap, policy) by {
        if evidence.score < policy.threshold {
          assert Withheld(ScoreBelowAutomaticThreshold, evidence, gap, policy);
        } else if !evidence.coverageSufficient {
          assert Withheld(InsufficientEvidence, evidence, gap, policy);
        } else if evidence.contradictions != {} {
          assert Withheld(HardContradiction, evidence, gap, policy);
        } else if !evidence.complete {
          assert Withheld(IncompleteComputation, evidence, gap, policy);
        } else {
          assert Withheld(GlobalGapBelowMinimum, evidence, gap, policy);
        }
      }
    }
  }

  method GateReasons(evidence: Evidence, gap: int, policy: MatchingPolicy) returns (reasons: set<GateReason>)
    ensures ReasonsAre(reasons, evidence, gap, policy)
  {
    reasons := {};
    if evidence.score < policy.threshold {
      reasons := reasons + {ScoreBelowAutomaticThreshold};
    }
    if !evidence.coverageSufficient {
      reasons := reasons + {InsufficientEvidence};
    }
    if evidence.contradictions != {} {
      reasons := reasons + {HardContradiction};
    }
    if !evidence.complete {
      reasons := reasons + {IncompleteComputation};
    }
    if gap < policy.minimumGap {
      reasons := reasons + {GlobalGapBelowMinimum};
    }
  }

  /** The above-floor candidates whose endpoints both belong to the component. */
  function Spanned(candidates: Candidates, c: Component, floor: nat): Candidates {
    map e | e in candidates && e.left in c.lefts && e.right in c.rights && candidates[e].score > floor :: candidates[e]
  }

  lemma SpannedIsInside(candidates: Candidates, c: Component, floor: nat)
    ensures Spanned(candidates, c, floor) == Narrow(candidates, Inside(Eligible(candidates, floor).Keys, c))
    ensures Spanned(candidates, c, floor).Keys == Inside(Eligible(candidates, floor).Keys, c)
  {
  }

  ghost function Counterfactual(candidates: Candidates, c: Component, floor: nat, solver: Solver, e: Edge): int {
    UtilitySum(SolverChoice(solver, c.lefts, c.rights, Spanned(candidates, c, floor), floor, {e}))
  }

  ghost predicate ProposalFor(p: Proposal, s: SelectedEdge, candidates: Candidates, c: Component,
                              policy: MatchingPolicy,
                              solver: Solver) {
    && p.edge == s.edge && p.edge in candidates && p.score == s.score == candidates[s.edge].score
    && p.counterfactual == Counterfactual(candidates, c, policy.floor, solver, s.edge)
    && p.gap == c.optimum - p.counterfactual
    && ReasonsAre(p.reasons, candidates[s.edge], p.gap, policy)
    && p.Valid()
  }

  ghost predicate EvidenceOf(g: ComponentEvidence, c: Component, candidates: Candidates, policy: MatchingPolicy,
                             solver: Solver) {
    && g.component == c
    && |g.proposals| == (if c.Complete() then |c.selected| else 0)
    && (forall i :: 0 <= i < |g.proposals| ==> ProposalFor(g.proposals[i], c.selected[i], candidates, c, policy, solver))
    && g.Valid()
  }

  ghost predicate Gated(candidates: Candidates, a: Assignment, policy: MatchingPolicy, solver: Solver, g: GatedResult) {
    EvidenceOfAll(g.components, a.components, candidates, policy, solver) && GatedValid(g)
  }

  /** Preconditions under which no check of the gates can fail. */
  ghost predicate Exact(candidates: Candidates, limited: set<Id>, policy: MatchingPolicy, solver: Solver,
                        a: Assignment) {
    && MinimalSolver(solver) && Scored(candidates) && solver.version == policy.solverVersion
    && Assigned(candidates, limited, policy, solver, a)
  }

  lemma AllowedIsRestriction(candidates: Candidates, edges: set<Edge>, floor: int, e: Edge)
    requires edges <= Eligible(candidates, floor).Keys
    ensures Allowed(Narrow(candidates, edges), floor, {}) == Restrict(Eligible(candidates, floor), edges)
    ensures Allowed(Narrow(candidates, edges), floor, {e}) == Without(Restrict(Eligible(candidates, floor), edges), e)
  {
  }

  /** What solving a set of candidates yields, with an edge forbidden or without. */
  lemma ChoiceIsBest(candidates: Candidates, edges: set<Edge>, floor: nat, solver: Solver, lefts: seq<Id>,
                     rights: seq<Id>,
                     forbidden: set<Edge>, g: Graph)
    requires MinimalSolver(solver) && ComponentInput(lefts, rights, Narrow(candidates, edges), floor)
    requires g == Allowed(Narrow(candidates, edges), floor, forbidden)
    ensures var choice := SolverChoice(solver, lefts, rights, Narrow(candidates, edges), floor, forbidden);
            Positive(g) && Optimal(g, Edges(choice)) && UtilitySum(choice) == Best(g)
  {
    SolvedComponentIsOptimal(lefts, rights, Narrow(candidates, edges), floor, solver, forbidden);
  }

  ghost function GraphOf(candidates: Candidates, floor: nat, c: Component): Graph {
    Restrict(Eligible(candidates, floor), Inside(Eligible(candidates, floor).Keys, c))
  }

  /** The counterfactual objective is the optimum of the component without the edge, and the
      component's own objective its optimum with it. */
  lemma CounterfactualIsBest(candidates: Candidates, limited: set<Id>, policy: MatchingPolicy, solver: Solver,
                             c: Component, e: Edge)
    requires MinimalSolver(solver) && Scored(candidates)
    requires ComponentFor(c, Inside(Eligible(candidates, policy.floor).Keys, c), candidates, limited, policy, solver)
    ensures Positive(GraphOf(candidates, policy.floor, c))
    ensures Counterfactual(candidates, c, policy.floor, solver, e) == Best(Without(GraphOf(candidates, policy.floor, c), e))
    ensures c.Complete() ==> Optimal(GraphOf(candidates, policy.floor, c), Edges(c.selected)) &&
                             c.optimum == Best(GraphOf(candidates, policy.floor, c))
  {
    var inside := Inside(Eligible(candidates, policy.floor).Keys, c);
    SpannedIsInside(candidates, c, policy.floor);
    NarrowIsInput(candidates, inside, policy.floor);
    AllowedIsRestriction(candidates, inside, policy.floor, e);
    ChoiceIsBest(candidates, inside, policy.floor, solver, c.lefts, c.rights, {},
                  GraphOf(candidates, policy.floor, c));
    ChoiceIsBest(candidates, inside, policy.floor, solver, c.lefts, c.rights, {e},
                 Without(GraphOf(candidates, policy.floor, c), e));
  }

  ghost predicate SolvedHere(candidates: Candidates, limited: set<Id>, policy: MatchingPolicy, solver: Solver,
                             c: Component) {
    && MinimalSolver(solver) && Scored(candidates) && solver.version == policy.solverVersion
    && ComponentFor(c, Inside(Eligible(candidates, policy.floor).Keys, c), candidates, limited, policy, solver)
  }

  lemma SelectedCanBeGated(candidates: Candidates, limited: set<Id>, policy: MatchingPolicy, solver: Solver,
                           c: Component,
                           s: SelectedEdge)
    requires SolvedHere(candidates, limited, policy, solver, c) && s in c.selected
    ensures s.edge in Spanned(candidates, c, policy.floor)
    ensures s.score == candidates[s.edge].score && s.utility == s.score - policy.floor && 0 <= s.score
    ensures ComponentInput(c.lefts, c.rights, Spanned(candidates, c, policy.floor), policy.floor)
    ensures 0 <= Counterfactual(candidates, c, policy.floor, solver, s.edge) <= c.optimum
  {
    var inside := Inside(Eligible(candidates, policy.floor).Keys, c);
    SpannedIsInside(candidates, c, policy.floor);
    SelectedIsInside(c, inside, candidates, limited, policy, solver, s);
    NarrowIsInput(candidates, inside, policy.floor);
    CounterfactualIsBest(candidates, limited, policy, solver, c, s.edge);
    var g := GraphOf(candidates, policy.floor, c);
    GapBounds(g, s.edge);
    BestBounds(Without(g, s.edge), {});
  }

  method CounterfactualObjective(candidates: Candidates, spanned: Candidates, c: Component, floor: nat,
                                 solver: Solver, e: Edge)
    returns (r: Result<int>)
    requires spanned == Spanned(candidates, c, floor)
    ensures r.Ok? ==> r.value == Counterfactual(candidates, c, floor, solver, e)
    ensures MinimalSolver(solver) && ComponentInput(c.lefts, c.rights, spanned, floor) && e in spanned ==> r.Ok?
  {
    var solved := SolveComponent(c.lefts, c.rights, spanned, floor, solver, {e});
    if solved.Err? {
      return Err(solved.error);
    }
    r := Ok(UtilitySum(solved.value));
  }

  method GateSelected(s: SelectedEdge, candidates: Candidates, spanned: Candidates, c: Component,
                      policy: MatchingPolicy,
                      solver: Solver, ghost limited: set<Id>)
    returns (r: Result<Proposal>)
    requires spanned == Spanned(candidates, c, policy.floor)
    ensures r.Ok? ==> ProposalFor(r.value, s, candidates, c, policy, solver) && 0 <= r.value.gap
    ensures SolvedHere(candidates, limited, policy, solver, c) && s in c.selected ==> r.Ok?
  {
    if SolvedHere(candidates, limited, policy, solver, c) && s in c.selected {
      SelectedCanBeGated(candidates, limited, policy, solver, c, s);
    }
    if s.edge !in candidates {
      return Err(UnknownProposal);
    }
    var evidence := candidates[s.edge];
    if s.score != evidence.score || s.utility != evidence.score - policy.floor {
      return Err(ProposalEvidenceMismatch);
    }
    var objective := CounterfactualObjective(candidates, spanned, c, policy.floor, solver, s.edge);
    if objective.Err? {
      return Err(objective.error);
    }
    r := Propose(s, evidence, c.optimum, objective.value, policy);
  }

  /** The proposal for a selected edge, once its counterfactual objective is known. */
  method Propose(s: SelectedEdge, evidence: Evidence, optimum: int, counterfactual: int, policy: MatchingPolicy)
    returns (r: Result<Proposal>)
    ensures r.Ok? ==>
              && r.value.edge == s.edge && r.value.score == s.score && r.value.counterfactual == counterfactual
              && r.value.gap == optimum - counterfactual && ReasonsAre(r.value.reasons, evidence, r.value.gap, policy)
              && r.value.Valid()
    ensures 0 <= s.score <= SCALE && 0 <= counterfactual <= optimum ==> r.Ok?
  {
    var gap := optimum - counterfactual;
    if gap < 0 {
      return Err(CounterfactualExceedsOptimum);
    }
    var reasons := GateReasons(evidence, gap, policy);
    var p := Proposal(s.edge, s.score, counterfactual, gap, reasons == {}, reasons);
    if !p.Valid() {
      return Err(InvalidProposal);
    }
    r := Ok(p);
  }

  method GateSelections(candidates: Candidates, spanned: Candidates, c: Component, policy: MatchingPolicy,
                        solver: Solver,
                        ghost limited: set<Id>)
    returns (r: Result<seq<Proposal>>)
    requires spanned == Spanned(candidates, c, policy.floor)
    ensures r.Ok? ==> |r.value| == |c.selected| &&
                      forall i :: 0 <= i < |r.value| ==>
                                    ProposalFor(r.value[i], c.selected[i], candidates, c, policy, solver) && 0 <= r.value[i].gap
    ensures SolvedHere(candidates, limited, policy, solver, c) ==> r.Ok?
  {
    var proposals: seq<Proposal> := [];
    for i := 0 to |c.selected|
      invariant |proposals| == i
      invariant forall k :: 0 <= k < i ==>
                  ProposalFor(proposals[k], c.selected[k], candidates, c, policy, solver) && 0 <= proposals[k].gap
    {
      assert c.selected[i] in c.selected;
      var gated := GateSelected(c.selected[i], candidates, spanned, c, policy, solver, limited);
      if gated.Err? {
        return Err(gated.error);
      }
      proposals := proposals + [gated.value];
    }
    r := Ok(proposals);
  }

  lemma GatedComponentIsValid(e: ComponentEvidence, candidates: Candidates, policy: MatchingPolicy, solver: Solver)
    requires e.component.Valid()
    requires |e.proposals| == if e.component.Complete() then |e.component.selected| else 0
    requires forall i :: 0 <= i < |e.proposals| ==>
               ProposalFor(e.proposals[i], e.component.selected[i], candidates, e.component, policy, solver)
               && 0 <= e.proposals[i].gap
    ensures e.Valid()
  {
    forall i, j | 0 <= i < j < |e.proposals|
      ensures e.proposals[i].edge != e.proposals[j].edge
    {
      assert !Touch(e.component.selected[i].edge, e.component.selected[j].edge);
    }
    forall p | p in e.proposals
      ensures p.edge.left in e.component.lefts && p.edge.right in e.component.rights
      ensures p.counterfactual <= e.component.optimum && p.gap == e.component.optimum - p.counterfactual
    {
      var i :| 0 <= i < |e.proposals| && e.proposals[i] == p;
      assert e.component.selected[i] in e.component.selected;
    }
  }

  method GateComponent(c: Component, candidates: Candidates, spanned: Candidates, policy: MatchingPolicy,
                       solver: Solver,
                       ghost limited: set<Id>)
    returns (r: Result<ComponentEvidence>)
    requires spanned == Spanned(candidates, c, policy.floor)
    ensures r.Ok? ==> EvidenceOf(r.value, c, candidates, policy, solver)
    ensures SolvedHere(candidates, limited, policy, solver, c) ==> r.Ok?
  {
    var proposals: seq<Proposal> := [];
    if c.Complete() {
      var gated := GateSelections(candidates, spanned, c, policy, solver, limited);
      if gated.Err? {
        return Err(gated.error);
      }
      proposals := gated.value;
    }
    var e := ComponentEvidence(c, proposals);
    if c.Valid() {
      GatedComponentIsValid(e, candidates, policy, solver);
    }
    if !e.Valid() {
      return Err(InvalidComponent);
    }
    r := Ok(e);
  }

  lemma {:induction false} FlattenProposalMembers(components: seq<ComponentEvidence>)
    ensures forall p :: p in FlattenProposals(components) <==> ProposedSomewhere(components, p)
  {
    if components != [] {
      var init, last := components[..|components| - 1], components[|components| - 1];
      FlattenProposalMembers(init);
      forall p
        ensures p in FlattenProposals(components) <==> ProposedSomewhere(components, p)
      {
        if ProposedSomewhere(init, p) {
          var k :| 0 <= k < |init| && p in init[k].proposals;
          assert p in components[k].proposals;
        }
        if ProposedSomewhere(components, p) && p !in last.proposals {
          var k :| 0 <= k < |components| && p in components[k].proposals;
          assert p in init[k].proposals;
        }
      }
    }
  }

  ghost predicate ProposedSomewhere(components: seq<ComponentEvidence>, p: Proposal) {
    exists k :: 0 <= k < |components| && p in components[k].proposals
  }

  ghost predicate ProposalsApart(components: seq<ComponentEvidence>) {
    forall j, k, p, q :: 0 <= j < k < |components| && p in components[j].proposals && q in components[k].proposals ==>
      !Touch(p.edge, q.edge)
  }

  lemma ConcatProposals(a: seq<Proposal>, b: seq<Proposal>)
    requires OneToOneProposals(a) && OneToOneProposals(b)
    requires forall p, q :: p in a && q in b ==> !Touch(p.edge, q.edge)
    ensures OneToOneProposals(a + b)
  {
    var all := a + b;
    forall i, j | 0 <= i < j < |all|
      ensures !Touch(all[i].edge, all[j].edge)
    {
      if i < |a| <= j {
        assert all[i] in a && all[j] in b;
      }
    }
  }

  lemma {:induction false} FlattenProposalsOneToOne(components: seq<ComponentEvidence>)
    requires ProposalsApart(components)
    requires forall k :: 0 <= k < |components| ==> OneToOneProposals(components[k].proposals)
    ensures OneToOneProposals(FlattenProposals(components))
  {
    if components != [] {
      var init, last := components[..|components| - 1], components[|components| - 1];
      FlattenProposalsOneToOne(init);
      FlattenProposalMembers(init);
      forall p, q | p in FlattenProposals(init) && q in last.proposals
        ensures !Touch(p.edge, q.edge)
      {
        assert ProposedSomewhere(init, p);
        var k :| 0 <= k < |init| && p in init[k].proposals;
        assert components[k] == init[k];
      }
      ConcatProposals(FlattenProposals(init), last.proposals);
    }
  }

  ghost predicate EdgesFollow(e: ComponentEvidence, c: Component) {
    |e.proposals| <= |c.selected| &&
    forall i :: 0 <= i < |e.proposals| ==> e.proposals[i].edge == c.selected[i].edge
  }

  ghost predicate AllEdgesFollow(components: seq<ComponentEvidence>, solved: seq<Component>) {
    && |components| == |solved|
    && forall k :: 0 <= k < |solved| ==> OneToOneSelection(solved[k].selected) && EdgesFollow(components[k], solved[k])
  }

  lemma ProposalsOneToOne(components: seq<ComponentEvidence>, solved: seq<Component>)
    requires |components| == |solved| && Apart(solved)
    requires AllEdgesFollow(components, solved)
    ensures OneToOneProposals(FlattenProposals(components))
  {
    forall k | 0 <= k < |components|
      ensures OneToOneProposals(components[k].proposals)
    {
      var e, c := components[k], solved[k];
      assert EdgesFollow(e, c) && OneToOneSelection(c.selected);
      forall i, j | 0 <= i < j < |e.proposals|
        ensures !Touch(e.proposals[i].edge, e.proposals[j].edge)
      {
        assert !Touch(c.selected[i].edge, c.selected[j].edge);
      }
    }
    forall j, k, p, q | 0 <= j < k < |components| && p in components[j].proposals && q in components[k].proposals
      ensures !Touch(p.edge, q.edge)
    {
      var m :| 0 <= m < |components[j].proposals| && components[j].proposals[m] == p;
      var n :| 0 <= n < |components[k].proposals| && components[k].proposals[n] == q;
      assert EdgesFollow(components[j], solved[j]) && EdgesFollow(components[k], solved[k]);
      assert solved[j].selected[m] in solved[j].selected && solved[k].selected[n] in solved[k].selected;
    }
    FlattenProposalsOneToOne(components);
  }

  lemma {:induction false} AcceptedOneToOne(proposals: seq<Proposal>)
    requires OneToOneProposals(proposals)
    ensures OneToOneProposals(AcceptedOf(proposals))
  {
    if proposals != [] {
      var init, last := proposals[..|proposals| - 1], proposals[|proposals| - 1];
      AcceptedOneToOne(init);
      var accepted := AcceptedOf(init);
      forall i | 0 <= i < |accepted|
        ensures !Touch(accepted[i].edge, last.edge)
      {
        assert accepted[i] in accepted;
        var k :| 0 <= k < |init| && init[k] == accepted[i];
        assert proposals[k] == init[k];
      }
    }
  }

  // ----- all components -----

  /** The checks each component must pass before its selections are gated. */
  predicate ComponentChecks(candidates: Candidates, spanned: Candidates, c: Component, policy: MatchingPolicy) {
    c.version == policy.solverVersion && |spanned| == c.count && c.digest == DigestOf(c.id, policy.floor, spanned)
  }

  lemma ChecksPass(candidates: Candidates, limited: set<Id>, policy: MatchingPolicy, solver: Solver, c: Component)
    requires SolvedHere(candidates, limited, policy, solver, c)
    ensures ComponentChecks(candidates, Spanned(candidates, c, policy.floor), c, policy)
  {
    SpannedIsInside(candidates, c, policy.floor);
    var spanned := Spanned(candidates, c, policy.floor);
    assert |spanned| == |spanned.Keys|;
  }

  ghost function UnionInside(edges: set<Edge>, components: seq<Component>): (u: set<Edge>)
    ensures u <= edges
    ensures forall e :: e in u <==> exists k :: HasInside(edges, components, k, e)
  {
    set e | e in edges && exists k :: HasInside(edges, components, k, e)
  }

  lemma UnionGrows(edges: set<Edge>, components: seq<Component>, k: nat)
    requires k < |components|
    ensures UnionInside(edges, components[..k + 1]) == UnionInside(edges, components[..k]) + Inside(edges, components[k])
    ensures Partitions(edges, components) ==> UnionInside(edges, components[..k]) !! Inside(edges, components[k])
  {
    var init, more := components[..k], components[..k + 1];
    forall e
      ensures e in UnionInside(edges, more) <==> e in UnionInside(edges, init) || e in Inside(edges, components[k])
    {
      if e in UnionInside(edges, more) {
        var i: nat :| HasInside(edges, more, i, e);
        assert i < k ==> HasInside(edges, init, i, e);
      }
      if e in UnionInside(edges, init) {
        var i: nat :| HasInside(edges, init, i, e);
        assert HasInside(edges, more, i, e);
      }
      if e in Inside(edges, components[k]) {
        assert HasInside(edges, more, k, e);
      }
    }
    if Partitions(edges, components) {
      forall e | e in UnionInside(edges, init) && e in Inside(edges, components[k])
        ensures false
      {
        var i: nat :| HasInside(edges, init, i, e);
        assert HasInside(edges, components, i, e) && HasInside(edges, components, k, e);
        TouchingShareComponent(edges, components, i, k, e, e);
      }
    }
  }

  lemma UnionIsAll(edges: set<Edge>, components: seq<Component>)
    requires Partitions(edges, components)
    ensures UnionInside(edges, components) == edges
  {
  }

  lemma StepFacts(candidates: Candidates, limited: set<Id>, policy: MatchingPolicy, solver: Solver, a: Assignment,
                  k: nat)
    requires k < |a.components|
    ensures var edges, c := Eligible(candidates, policy.floor).Keys, a.components[k];
            && Spanned(candidates, c, policy.floor).Keys == Inside(edges, c)
            && UnionInside(edges, a.components[..k + 1]) == UnionInside(edges, a.components[..k]) + Inside(edges, c)
            && (Exact(candidates, limited, policy, solver, a) ==>
                  && SolvedHere(candidates, limited, policy, solver, c)
                  && ComponentChecks(candidates, Spanned(candidates, c, policy.floor), c, policy)
                  && UnionInside(edges, a.components[..k]) * Inside(edges, c) == {})
  {
    var edges, c := Eligible(candidates, policy.floor).Keys, a.components[k];
    SpannedIsInside(candidates, c, policy.floor);
    UnionGrows(edges, a.components, k);
    if Exact(candidates, limited, policy, solver, a) {
      assert ComponentFor(c, InsideAll(edges, a.components)[k], candidates, limited, policy, solver);
      ChecksPass(candidates, limited, policy, solver, c);
    }
  }

  ghost predicate EvidenceOfAll(components: seq<ComponentEvidence>, solved: seq<Component>, candidates: Candidates,
                                policy: MatchingPolicy, solver: Solver) {
    && |components| == |solved|
    && forall k :: 0 <= k < |components| ==> EvidenceOf(components[k], solved[k], candidates, policy, solver)
  }

  lemma EvidenceOfMore(components: seq<ComponentEvidence>, solved: seq<Component>, k: nat, candidates: Candidates,
                       policy: MatchingPolicy, solver: Solver, more: ComponentEvidence)
    requires k < |solved| && EvidenceOfAll(components, solved[..k], candidates, policy, solver)
    requires EvidenceOf(more, solved[k], candidates, policy, solver)
    ensures EvidenceOfAll(components + [more], solved[..k + 1], candidates, policy, solver)
  {
  }

  /** The component was solved by the policy's solver on exactly the above-floor candidates between its endpoints. */
  ghost predicate OfPresentGraph(candidates: Candidates, c: Component, policy: MatchingPolicy) {
    var edges := AboveFloor(candidates, policy.floor, c);
    && c.version == policy.solverVersion && c.count == |edges|
    && c.digest == GraphDigest(c.id, policy.floor,
                               map e | e in edges && e in candidates :: (candidates[e].score, candidates[e].complete))
  }

  /** Whatever assignment it is given, gating goes on only when every component is of the present graph, no above-floor
      candidate lies in two of them, and none lies in no component. */
  ghost predicate Reconcilable(candidates: Candidates, components: seq<Component>, policy: MatchingPolicy) {
    && (forall c :: c in components ==> OfPresentGraph(candidates, c, policy))
    && NoneShared(candidates, components, policy.floor)
    && forall e :: e in candidates && candidates[e].score > policy.floor ==>
         exists c :: c in components && e in AboveFloor(candidates, policy.floor, c)
  }

  ghost predicate NoneShared(candidates: Candidates, components: seq<Component>, floor: int) {
    forall i, j :: 0 <= i < j < |components| ==>
      AboveFloor(candidates, floor, components[i]) !! AboveFloor(candidates, floor, components[j])
  }

  lemma SpannedIsAboveFloor(candidates: Candidates, c: Component, floor: nat)
    ensures Spanned(candidates, c, floor).Keys == AboveFloor(candidates, floor, c)
    ensures |Spanned(candidates, c, floor)| == |AboveFloor(candidates, floor, c)|
  {
    var spanned := Spanned(candidates, c, floor);
    assert spanned.Keys == AboveFloor(candidates, floor, c);
    assert |spanned| == |spanned.Keys|;
  }

  lemma ChecksMean(candidates: Candidates, c: Component, policy: MatchingPolicy)
    ensures ComponentChecks(candidates, Spanned(candidates, c, policy.floor), c, policy) <==>
            OfPresentGraph(candidates, c, policy)
  {
    var spanned, edges := Spanned(candidates, c, policy.floor), AboveFloor(candidates, policy.floor, c);
    SpannedIsAboveFloor(candidates, c, policy.floor);
    assert (map e | e in spanned :: (spanned[e].score, spanned[e].complete)) ==
           map e | e in edges && e in candidates :: (candidates[e].score, candidates[e].complete);
  }

  ghost predicate SeenAre(candidates: Candidates, components: seq<Component>, policy: MatchingPolicy, seen: set<Edge>) {
    && (forall c :: c in components ==> OfPresentGraph(candidates, c, policy))
    && NoneShared(candidates, components, policy.floor)
    && forall e :: e in seen <==> exists c :: c in components && e in AboveFloor(candidates, policy.floor, c)
  }

  lemma ApartMeans(a: set<Edge>, b: set<Edge>)
    ensures a * b == {} <==> a !! b
  {
    if a * b == {} {
      forall e | e in a
        ensures e !in b
      {
        assert e in a * b <==> e in b;
      }
    }
  }

  lemma SeenHolds(candidates: Candidates, components: seq<Component>, policy: MatchingPolicy, seen: set<Edge>, c: Component)
    requires SeenAre(candidates, components, policy, seen) && c in components
    ensures AboveFloor(candidates, policy.floor, c) <= seen
  {
  }

  lemma OneMoreApart(candidates: Candidates, components: seq<Component>, policy: MatchingPolicy, seen: set<Edge>,
                     c: Component)
    requires SeenAre(candidates, components, policy, seen) && seen !! AboveFloor(candidates, policy.floor, c)
    ensures NoneShared(candidates, components + [c], policy.floor)
  {
    var all := components + [c];
    forall i, j | 0 <= i < j < |all|
      ensures AboveFloor(candidates, policy.floor, all[i]) !! AboveFloor(candidates, policy.floor, all[j])
    {
      assert all[i] == components[i];
      if j == |components| {
        SeenHolds(candidates, components, policy, seen, components[i]);
      } else {
        assert all[j] == components[j];
      }
    }
  }

  lemma OneMoreSeen(candidates: Candidates, components: seq<Component>, policy: MatchingPolicy, seen: set<Edge>,
                    c: Component)
    requires SeenAre(candidates, components, policy, seen)
    requires ComponentChecks(candidates, Spanned(candidates, c, policy.floor), c, policy)
    requires seen * Spanned(candidates, c, policy.floor).Keys == {}
    ensures SeenAre(candidates, components + [c], policy, seen + Spanned(candidates, c, policy.floor).Keys)
  {
    ChecksMean(candidates, c, policy);
    SpannedIsAboveFloor(candidates, c, policy.floor);
    ApartMeans(seen, Spanned(candidates, c, policy.floor).Keys);
    OneMoreApart(candidates, components, policy, seen, c);
    var all, edges := components + [c], AboveFloor(candidates, policy.floor, c);
    assert forall d :: d in all <==> d in components || d == c;
    forall e
      ensures e in seen + edges <==> exists d :: d in all && e in AboveFloor(candidates, policy.floor, d)
    {
      if e in edges {
        assert c in all;
      } else if e in seen {
        var d :| d in components && e in AboveFloor(candidates, policy.floor, d);
        assert d in all;
      }
    }
  }

  lemma SeenIsAll(candidates: Candidates, components: seq<Component>, policy: MatchingPolicy, seen: set<Edge>)
    requires SeenAre(candidates, components, policy, seen) && seen == Eligible(candidates, policy.floor).Keys
    ensures Reconcilable(candidates, components, policy)
  {
    forall e | e in candidates && candidates[e].score > policy.floor
      ensures exists c :: c in components && e in AboveFloor(candidates, policy.floor, c)
    {
      assert e in seen;
    }
  }

  /** The checks of one component, in order. */
  method CheckComponent(candidates: Candidates, c: Component, spanned: Candidates, seen: set<Edge>, policy: MatchingPolicy)
    returns (problem: Option<DomainError>)
    requires spanned == Spanned(candidates, c, policy.floor)
    ensures problem.None? <==> OfPresentGraph(candidates, c, policy) && seen !! AboveFloor(candidates, policy.floor, c)
    ensures problem.None? <==> ComponentChecks(candidates, spanned, c, policy) && seen * spanned.Keys == {}
    ensures problem == Some(SolverVersionMismatch) <==> c.version != policy.solverVersion
    ensures problem == Some(ComponentCountMismatch) <==>
            c.version == policy.solverVersion && c.count != |AboveFloor(candidates, policy.floor, c)|
  {
    ChecksMean(candidates, c, policy);
    SpannedIsAboveFloor(candidates, c, policy.floor);
    assert spanned.Keys == AboveFloor(candidates, policy.floor, c);
    ApartMeans(seen, spanned.Keys);
    if c.version != policy.solverVersion {
      return Some(SolverVersionMismatch);
    }
    if |spanned| != c.count {
      return Some(ComponentCountMismatch);
    }
    if seen * spanned.Keys != {} {
      return Some(EdgesSpanComponents);
    }
    if c.digest != DigestOf(c.id, policy.floor, spanned) {
      return Some(GraphDigestMismatch);
    }
    problem := None;
  }

  method GateComponents(candidates: Candidates, a: Assignment, policy: MatchingPolicy, solver: Solver,
                        ghost limited: set<Id>)
    returns (r: Result<seq<ComponentEvidence>>)
    ensures r.Ok? ==> EvidenceOfAll(r.value, a.components, candidates, policy, solver)
    ensures r.Ok? ==> Reconcilable(candidates, a.components, policy)
    ensures Exact(candidates, limited, policy, solver, a) ==> r.Ok?
  {
    var eligible := Eligible(candidates, policy.floor).Keys;
    var components: seq<ComponentEvidence> := [];
    var seen: set<Edge> := {};
    for k := 0 to |a.components|
      invariant EvidenceOfAll(components, a.components[..k], candidates, policy, solver)
      invariant seen == UnionInside(eligible, a.components[..k])
      invariant SeenAre(candidates, a.components[..k], policy, seen)
    {
      var c := a.components[k];
      var spanned := Spanned(candidates, c, policy.floor);
      StepFacts(candidates, limited, policy, solver, a, k);
      var problem := CheckComponent(candidates, c, spanned, seen, policy);
      if problem.Some? {
        return Err(problem.value);
      }
      assert a.components[..k + 1] == a.components[..k] + [c];
      OneMoreSeen(candidates, a.components[..k], policy, seen, c);
      seen := seen + spanned.Keys;
      var gated := GateComponent(c, candidates, spanned, policy, solver, limited);
      if gated.Err? {
        return Err(gated.error);
      }
      EvidenceOfMore(components, a.components, k, candidates, policy, solver, gated.value);
      components := components + [gated.value];
    }
    assert a.components[..|a.components|] == a.components;
    if Exact(candidates, limited, policy, solver, a) {
      UnionIsAll(eligible, a.components);
    }
    if seen != eligible {
      return Err(ComponentsDoNotPartition);
    }
    SeenIsAll(candidates, a.components, policy, seen);
    r := Ok(components);
  }

  method GateAssignment(candidates: Candidates, a: Assignment, policy: MatchingPolicy, solver: Solver,
                        ghost limited: set<Id>)
    returns (r: Result<GatedResult>)
    ensures r.Ok? ==> Gated(candidates, a, policy, solver, r.value)
    ensures r.Ok? ==> solver.version == policy.solverVersion && Reconcilable(candidates, a.components, policy)
    ensures Exact(candidates, limited, policy, solver, a) ==> r.Ok?
  {
    if solver.version != policy.solverVersion {
      return Err(SolverVersionMismatch);
    }
    var gated := GateComponents(candidates, a, policy, solver, limited);
    if gated.Err? {
      return Err(gated.error);
    }
    r := CollectResult(gated.value, candidates, a, policy, solver, limited);
  }

  /** The result and the checks of its constructor. */
  method CollectResult(components: seq<ComponentEvidence>, candidates: Candidates, a: Assignment, policy: MatchingPolicy,
                       solver: Solver, ghost limited: set<Id>) returns (r: Result<GatedResult>)
    requires EvidenceOfAll(components, a.components, candidates, policy, solver)
    ensures r.Ok? ==> Gated(candidates, a, policy, solver, r.value)
    ensures Exact(candidates, limited, policy, solver, a) ==> r.Ok?
  {
    var proposals := FlattenProposals(components);
    var result := GatedResult(components, proposals, AcceptedOf(proposals));
    if Exact(candidates, limited, policy, solver, a) {
      ResultIsValid(candidates, limited, policy, solver, a, result);
    }
    if !GatedValid(result) {
      return Err(InvalidGatedResult);
    }
    r := Ok(result);
  }

  lemma ResultIsValid(candidates: Candidates, limited: set<Id>, policy: MatchingPolicy, solver: Solver, a: Assignment,
                      g: GatedResult)
    requires Exact(candidates, limited, policy, solver, a)
    requires EvidenceOfAll(g.components, a.components, candidates, policy, solver)
    requires g.proposals == FlattenProposals(g.components) && g.accepted == AcceptedOf(g.proposals)
    ensures GatedValid(g)
  {
    FollowsFromExact(candidates, limited, policy, solver, a, g);
    GatedIdsDiffer(candidates, policy, solver, a, g);
    FollowersAreValid(g, a.components);
  }

  lemma FollowsFromExact(candidates: Candidates, limited: set<Id>, policy: MatchingPolicy, solver: Solver,
                         a: Assignment, g: GatedResult)
    requires Exact(candidates, limited, policy, solver, a)
    requires EvidenceOfAll(g.components, a.components, candidates, policy, solver)
    ensures Apart(a.components) && AllEdgesFollow(g.components, a.components) && AssignmentValid(a)
  {
    var edges := Eligible(candidates, policy.floor).Keys;
    ComponentsApart(edges, a.components, candidates, limited, policy, solver);
    AllFollow(edges, candidates, limited, policy, solver, a, g);
  }

  lemma FollowersAreValid(g: GatedResult, solved: seq<Component>)
    requires Apart(solved) && AllEdgesFollow(g.components, solved)
    requires g.proposals == FlattenProposals(g.components) && g.accepted == AcceptedOf(g.proposals)
    requires forall i, j :: 0 <= i < j < |g.components| ==> g.components[i].component.id != g.components[j].component.id
    ensures GatedValid(g)
  {
    ProposalsOneToOne(g.components, solved);
    AcceptedOneToOne(g.proposals);
  }

  lemma AllFollow(edges: set<Edge>, candidates: Candidates, limited: set<Id>, policy: MatchingPolicy, solver: Solver,
                  a: Assignment, g: GatedResult)
    requires AllComponentsFor(a.components, InsideAll(edges, a.components), candidates, limited, policy, solver)
    requires EvidenceOfAll(g.components, a.components, candidates, policy, solver)
    ensures AllEdgesFollow(g.components, a.components)
  {
    forall k | 0 <= k < |a.components|
      ensures OneToOneSelection(a.components[k].selected) && EdgesFollow(g.components[k], a.components[k])
    {
      ComponentIsValid(a.components[k], InsideAll(edges, a.components)[k], candidates, limited, policy, solver);
      EvidenceFollows(g.components[k], a.components[k], candidates, policy, solver);
    }
  }

  lemma ComponentIsValid(c: Component, edges: set<Edge>, candidates: Candidates, limited: set<Id>,
                         policy: MatchingPolicy,
                         solver: Solver)
    requires ComponentFor(c, edges, candidates, limited, policy, solver)
    ensures c.Valid()
  {
  }

  lemma EvidenceFollows(e: ComponentEvidence, c: Component, candidates: Candidates, policy: MatchingPolicy,
                        solver: Solver)
    requires EvidenceOf(e, c, candidates, policy, solver)
    ensures EdgesFollow(e, c)
  {
  }

  lemma GatedIdsDiffer(candidates: Candidates, policy: MatchingPolicy, solver: Solver, a: Assignment, g: GatedResult)
    requires AssignmentValid(a) && EvidenceOfAll(g.components, a.components, candidates, policy, solver)
    ensures forall i, j :: 0 <= i < j < |g.components| ==> g.components[i].component.id != g.components[j].component.id
  {
    forall i | 0 <= i < |g.components|
      ensures g.components[i].component == a.components[i]
    {
      assert EvidenceOf(g.components[i], a.components[i], candidates, policy, solver);
    }
  }
}