/** What a result that passed its constructors' checks looks like, record by record. */
module ResultShape {
  import opened Matchings
  import opened Domain
  import opened References
  import opened RecordOutcomes
  import opened ComponentSolver
  import opened Assignment
  import opened Gating
  import opened Engine

  ghost predicate PairedHere(side: RecordSide, pairs: seq<Pair>, x: Id) {
    exists p, y :: p in pairs && p.edge == EdgeBetween(side, x, y)
  }

  ghost predicate EndedHere(side: RecordSide, unpaired: Terminals, x: Id) {
    x in unpaired && unpaired[x].side == side
  }

  /** Every input of the side is paired or ended, not both, and nobody else is. */
  ghost predicate EveryoneOnce(side: RecordSide, inputs: seq<Record>, pairs: seq<Pair>, unpaired: Terminals) {
    forall x ::
      && (Among(inputs, x) <==> PairedHere(side, pairs, x) || EndedHere(side, unpaired, x))
      && !(PairedHere(side, pairs, x) && EndedHere(side, unpaired, x))
  }

  lemma PairedMeans(side: RecordSide, pairs: seq<Pair>, x: Id)
    ensures x in PairedIds(side, pairs) <==> PairedHere(side, pairs, x)
  {
    if x in PairedIds(side, pairs) {
      var p :| p in pairs && EndOf(side, p.edge) == x;
      assert p.edge == EdgeBetween(side, x, EndOf(Other(side), p.edge));
    }
    if PairedHere(side, pairs, x) {
      var p, y: Id :| p in pairs && p.edge == EdgeBetween(side, x, y);
      assert EndOf(side, p.edge) == x;
    }
  }

  lemma OneOutcomeMeans(side: RecordSide, inputs: seq<Record>, pairs: seq<Pair>, unpaired: Terminals)
    ensures OneOutcomeEach(side, inputs, pairs, unpaired) <==> EveryoneOnce(side, inputs, pairs, unpaired)
  {
    forall x
      ensures x in PairedIds(side, pairs) <==> PairedHere(side, pairs, x)
      ensures x in TerminalIds(side, unpaired) <==> EndedHere(side, unpaired, x)
      ensures x in Ids(inputs) <==> Among(inputs, x)
    {
      PairedMeans(side, pairs, x);
    }
    if EveryoneOnce(side, inputs, pairs, unpaired) {
      assert PairedIds(side, pairs) !! TerminalIds(side, unpaired);
      assert PairedIds(side, pairs) + TerminalIds(side, unpaired) == Ids(inputs);
    }
  }

  /** Nobody is in two pairs. */
  ghost predicate NobodyTwice(pairs: seq<Pair>) {
    forall i, j :: 0 <= i < j < |pairs| ==>
      pairs[i].edge.left != pairs[j].edge.left && pairs[i].edge.right != pairs[j].edge.right
  }

  /** Only weighted pairs carry a score, in basis points, and a gap. */
  ghost predicate ScoredRight(p: Pair) {
    match p.origin
    case WeightedGlobal => p.score != None && p.gap != None && 0 <= p.score.value <= 10_000 && 0 <= p.gap.value
    case Manual => p.score == None && p.gap == None
    case AuthoritativeReference => p.score == None && p.gap == None
  }

  /** The weighted pairs are the accepted proposals, with their scores and gaps. */
  ghost predicate WeightedAre(result: EngineResult) {
    forall p: Pair :: p.origin == WeightedGlobal ==>
      (p in result.pairs <==>
         exists c, q :: c in result.components && q in c.proposals && q.accepted &&
                        p == Pair(q.edge, WeightedGlobal, Some(q.score), Some(q.gap)))
  }

  lemma WeightedMeans(result: EngineResult)
    ensures WeightedMatchAccepted(result.pairs, result.components) <==> WeightedAre(result)
  {
    if WeightedMatchAccepted(result.pairs, result.components) {
      forall p: Pair | p.origin == WeightedGlobal && p in result.pairs
        ensures exists c, q :: c in result.components && q in c.proposals && q.accepted &&
                               p == Pair(q.edge, WeightedGlobal, Some(q.score), Some(q.gap))
      {
        var c :| c in result.components && AcceptedIn(c.proposals, p);
        var q :| q in c.proposals && q.accepted && p == Pair(q.edge, WeightedGlobal, Some(q.score), Some(q.gap));
      }
    }
    if WeightedAre(result) {
      forall p | p in result.pairs && p.origin.WeightedGlobal?
        ensures AcceptedAs(result.components, p)
      {
        var c, q :| c in result.components && q in c.proposals && q.accepted &&
                    p == Pair(q.edge, WeightedGlobal, Some(q.score), Some(q.gap));
        assert AcceptedIn(c.proposals, p);
      }
      forall c, q | c in result.components && q in c.proposals && q.accepted
        ensures Pair(q.edge, WeightedGlobal, Some(q.score), Some(q.gap)) in result.pairs
      {
        assert Pair(q.edge, WeightedGlobal, Some(q.score), Some(q.gap)).origin == WeightedGlobal;
      }
    }
  }

  ghost predicate Known(s: Snapshot, x: Id) {
    Among(s.left, x) || Among(s.right, x)
  }

  /** Components and their proposals are about inputs and retained candidates of the run. */
  ghost predicate ComponentKnown(s: Snapshot, result: EngineResult, c: ComponentEvidence) {
    && (forall x :: x in c.component.lefts ==> Among(s.left, x))
    && (forall x :: x in c.component.rights ==> Among(s.right, x))
    && forall q :: q in c.proposals ==> q.edge in result.candidates && result.candidates[q.edge].score == q.score
  }

  ghost predicate WellShaped(s: Snapshot, result: EngineResult) {
    && NobodyTwice(result.pairs) && (forall p :: p in result.pairs ==> ScoredRight(p))
    && EveryoneOnce(LeftSide, s.left, result.pairs, result.unpaired)
    && EveryoneOnce(RightSide, s.right, result.pairs, result.unpaired)
    && (forall e :: e in result.candidates ==> Among(s.left, e.left) && Among(s.right, e.right))
    && (forall c :: c in result.components ==> ComponentKnown(s, result, c))
    && (forall i, j :: 0 <= i < j < |result.components| ==>
          result.components[i].component.id != result.components[j].component.id)
    && WeightedAre(result)
  }

  lemma AmongMeans(records: seq<Record>)
    ensures forall x :: x in Ids(records) <==> Among(records, x)
  {
  }

  lemma PairsMean(pairs: seq<Pair>)
    ensures PairsOneToOne(pairs) <==> NobodyTwice(pairs)
    ensures forall p :: PairValid(p) <==> ScoredRight(p)
  {
  }

  /** The result constructor accepts exactly the well-shaped results. */
  lemma ResultMeans(s: Snapshot, result: EngineResult)
    ensures PrimaryValid(s, result) <==> WellShaped(s, result)
  {
    PairsMean(result.pairs);
    OneOutcomeMeans(LeftSide, s.left, result.pairs, result.unpaired);
    OneOutcomeMeans(RightSide, s.right, result.pairs, result.unpaired);
    AmongMeans(s.left);
    AmongMeans(s.right);
    WeightedMeans(result);
    assert forall c :: ComponentFits(s, result.candidates, c) <==> ComponentKnown(s, result, c);
  }

  /** What a result may report about decisions: inputs only, a candidate where the kind needs one, and as current
      allocation a pair of the result; never the same report twice. */
  ghost predicate DiagnosticShape(s: Snapshot, result: EngineResult, d: Diagnostic) {
    && Known(s, d.record) && (d.candidate != None ==> Known(s, d.candidate.value))
    && (d.kind == AcceptedUnmatchedCandidate ==> d.candidate != None)
    && (d.kind == IncompleteSearch ==> !d.complete)
    && (d.currentPair != None ==>
          d.candidate != None && exists p :: p in result.pairs && p.edge == d.currentPair.value)
  }

  ghost predicate DiagnosticsShape(s: Snapshot, result: EngineResult) {
    && (forall d :: d in result.diagnostics ==> DiagnosticShape(s, result, d))
    && forall i, j :: 0 <= i < j < |result.diagnostics| ==>
         || result.diagnostics[i].record != result.diagnostics[j].record
         || result.diagnostics[i].candidate != result.diagnostics[j].candidate
         || result.diagnostics[i].kind != result.diagnostics[j].kind
  }

  lemma DiagnosticsMean(s: Snapshot, result: EngineResult)
    ensures DiagnosticsValid(s, result) <==> DiagnosticsShape(s, result)
  {
    AmongMeans(s.left);
    AmongMeans(s.right);
  }

  // ----- components -----

  /** Each side has members, without repetition, selected edges run between them one-to-one, their utilities add up to
      the optimum, and a limited component selects nothing. */
  ghost predicate ComponentShape(c: Component) {
    && |c.lefts| > 0 && |c.rights| > 0 && c.count > 0 && c.optimum >= 0
    && (forall i, j :: 0 <= i < j < |c.lefts| ==> c.lefts[i] != c.lefts[j])
    && (forall i, j :: 0 <= i < j < |c.rights| ==> c.rights[i] != c.rights[j])
    && (forall i, j :: 0 <= i < j < |c.selected| ==>
          && c.selected[i].edge.left != c.selected[j].edge.left && c.selected[i].edge.right != c.selected[j].edge.right)
    && (forall k :: k in c.selected ==> k.edge.left in c.lefts && k.edge.right in c.rights)
    && (c.limit != None ==> c.selected == []) && c.optimum == UtilitySum(c.selected)
  }

  lemma ComponentMeans(c: Component)
    ensures c.Valid() <==> ComponentShape(c)
  {
  }

  /** A proposal is accepted exactly when nothing withholds it; its gap is what the component loses without it. */
  ghost predicate ProposalShape(c: Component, p: Proposal) {
    && 0 <= p.score <= 10_000 && 0 <= p.counterfactual <= c.optimum && p.gap == c.optimum - p.counterfactual
    && (p.accepted <==> forall reason :: reason !in p.reasons)
    && p.edge.left in c.lefts && p.edge.right in c.rights
  }

  lemma ProposalsMean(e: ComponentEvidence)
    requires e.Valid() && forall p :: p in e.proposals ==> p.Valid()
    ensures forall p :: p in e.proposals ==> ProposalShape(e.component, p)
    ensures e.component.limit != None ==> e.proposals == []
    ensures forall i, j :: 0 <= i < j < |e.proposals| ==> e.proposals[i].edge != e.proposals[j].edge
  {
    forall p | p in e.proposals
      ensures p.accepted <==> forall reason :: reason !in p.reasons
    {
      assert p.reasons == {} <==> forall reason :: reason !in p.reasons;
    }
  }

  lemma ComponentForShape(c: Component, edges: set<Edge>, candidates: Candidates, limited: set<Id>, policy: MatchingPolicy,
                          solver: Solver)
    requires ComponentFor(c, edges, candidates, limited, policy, solver)
    ensures c.Valid()
  {
  }

  /** Every component of an assignment has this shape, the limited ones included. */
  lemma AssignedShape(candidates: Candidates, limited: set<Id>, policy: MatchingPolicy, solver: Solver, a: Assignment,
                      k: nat)
    requires Assigned(candidates, limited, policy, solver, a) && k < |a.components|
    ensures ComponentShape(a.components[k])
  {
    var edges := Eligible(candidates, policy.floor).Keys;
    AsComponent(edges, a.components, k, candidates, limited, policy, solver);
    ComponentForShape(a.components[k], Inside(edges, a.components[k]), candidates, limited, policy, solver);
    ComponentMeans(a.components[k]);
  }

  ghost predicate EdgesApart(edges: seq<Edge>) {
    forall i, j :: 0 <= i < j < |edges| ==> edges[i].left != edges[j].left && edges[i].right != edges[j].right
  }

  /** An assignment's selection is that of its components, one-to-one over all of them, and its limited records are those
      it was given and the members of limited components. */
  lemma AssignmentMeans(a: Assignment)
    requires AssignmentValid(a)
    ensures forall i, j :: 0 <= i < j < |a.components| ==> a.components[i].id != a.components[j].id
    ensures EdgesApart(seq(|a.selected|, i requires 0 <= i < |a.selected| => a.selected[i].edge))
    ensures forall s :: s in a.selected <==> exists c :: c in a.components && s in c.selected
    ensures forall x :: x in a.limited <==>
              || x in a.sourceLimited
              || exists c :: c in a.components && c.limit != None && (x in c.lefts || x in c.rights)
  {
    FlattenMembers(a.components);
    forall s
      ensures s in a.selected <==> exists c :: c in a.components && s in c.selected
    {
      if c :| c in a.components && s in c.selected {
        var k: nat :| k < |a.components| && a.components[k] == c;
      }
    }
    forall x
      ensures x in IncompleteMembers(a.components) <==>
              exists c :: c in a.components && c.limit != None && (x in c.lefts || x in c.rights)
    {
      if c :| c in a.components && c.limit != None && (x in c.lefts || x in c.rights) {
        assert !c.Complete() && x in MembersOf(c);
      }
    }
  }

  /** The gated proposals are those of the components, the accepted ones are exactly the accepted among them, and no
      record is in two accepted ones. */
  lemma GatedMeans(g: GatedResult)
    requires GatedValid(g)
    ensures forall i, j :: 0 <= i < j < |g.components| ==> g.components[i].component.id != g.components[j].component.id
    ensures forall p :: p in g.proposals <==> exists c :: c in g.components && p in c.proposals
    ensures forall p :: p in g.accepted <==> p in g.proposals && p.accepted
    ensures EdgesApart(seq(|g.accepted|, i requires 0 <= i < |g.accepted| => g.accepted[i].edge))
  {
    FlattenProposalMembers(g.components);
    forall p
      ensures p in g.proposals <==> exists c :: c in g.components && p in c.proposals
    {
      if c :| c in g.components && p in c.proposals {
        var k: nat :| k < |g.components| && g.components[k] == c;
        assert ProposedSomewhere(g.components, p);
      }
    }
  }
}
