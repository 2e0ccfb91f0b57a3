/** Explanations are truthful: what the engine says about an unpaired record, in terms of the
    records themselves instead of the edges a bounded search happened to retain. */
module Explanations {
  import opened Matchings
  import opened Domain
  import opened Blocking
  import opened Enumeration
  import opened CandidateGeneration
  import opened Scoring
  import opened References
  import opened ComponentSolver
  import opened Assignment
  import opened Gating
  import opened Engine

  function LeftOf(side: RecordSide, mine: Record, theirs: Record): Record {
    if side.LeftSide? then mine else theirs
  }

  function RightOf(side: RecordSide, mine: Record, theirs: Record): Record {
    if side.LeftSide? then theirs else mine
  }

  /** Some configured pass lets the two records meet. */
  ghost predicate Meets(side: RecordSide, mine: Record, theirs: Record, passes: seq<BlockingPass>) {
    exists p :: p in passes && Admits(p, LeftOf(side, mine, theirs), RightOf(side, mine, theirs))
  }

  ghost predicate Rejected(side: RecordSide, mine: Id, theirs: Id, prohibited: set<Edge>) {
    EdgeFrom(side, mine, theirs) in prohibited
  }

  /** A counterpart the engine should consider: still open, admitted by a pass, not rejected by a reviewer. */
  ghost predicate Admissible(side: RecordSide, mine: Record, theirs: Record, pre: Preprocessed,
                             passes: seq<BlockingPass>) {
    && theirs in Remains(Other(side), pre)
    && Meets(side, mine, theirs, passes)
    && !Rejected(side, mine.id, theirs.id, pre.prohibited)
  }

  ghost predicate Contradictory(side: RecordSide, mine: Record, theirs: Record, contract: ReferenceContract) {
    ContradictionSet(LeftOf(side, mine, theirs), RightOf(side, mine, theirs), contract) != {}
  }

  ghost function ScoreWith(side: RecordSide, mine: Record, theirs: Record, policy: MatchingPolicy): int
    requires policy.Valid()
  {
    Score(LeftOf(side, mine, theirs), RightOf(side, mine, theirs), policy)
  }

  // ----- the retained edges of an unlimited record -----

  lemma MeetsIsNaive(side: RecordSide, mine: Record, theirs: Record, pre: Preprocessed, passes: seq<BlockingPass>)
    requires theirs in Remains(Other(side), pre)
    ensures Admissible(side, mine, theirs, pre, passes) <==>
            exists why :: NaivelyKept(Input(pre.remainingLeft, pre.remainingRight, pre.prohibited), passes,
                                      LeftOf(side, mine, theirs), RightOf(side, mine, theirs), why)
  {
    var input := Input(pre.remainingLeft, pre.remainingRight, pre.prohibited);
    if Admissible(side, mine, theirs, pre, passes) {
      var p :| p in passes && Admits(p, LeftOf(side, mine, theirs), RightOf(side, mine, theirs));
      assert NaivelyKept(input, passes, LeftOf(side, mine, theirs), RightOf(side, mine, theirs), Reason(p));
    }
  }

  /** Around an unlimited record the retained edges are exactly the admissible counterparts. */
  lemma RetainedIffAdmissible(side: RecordSide, mine: Record, theirs: Record, pre: Preprocessed,
                              passes: seq<BlockingPass>,
                              limits: Limits, gen: Generation)
    requires var input := Input(pre.remainingLeft, pre.remainingRight, pre.prohibited);
             input.Valid() && Generated(input, passes, limits, gen)
    requires mine in Remains(side, pre) && theirs in Remains(Other(side), pre) && mine.id !in gen.limited
    ensures EdgeFrom(side, mine.id, theirs.id) in gen.edges <==> Admissible(side, mine, theirs, pre, passes)
  {
    var input := Input(pre.remainingLeft, pre.remainingRight, pre.prohibited);
    var l, r := LeftOf(side, mine, theirs), RightOf(side, mine, theirs);
    var e := EdgeFrom(side, mine.id, theirs.id);
    assert e == Edge(l.id, r.id);
    MeetsIsNaive(side, mine, theirs, pre, passes);
    if e in gen.edges {
      var why :| why in gen.edges[e];
      UnlimitedIsNaive(input, passes, limits, gen, l, r, why);
      assert Has(gen.edges, e, why);
    }
    if Admissible(side, mine, theirs, pre, passes) {
      var why :| NaivelyKept(input, passes, l, r, why);
      UnlimitedIsNaive(input, passes, limits, gen, l, r, why);
    }
  }

  ghost predicate PairDescribed(side: RecordSide, mine: Record, q: Record, pre: Preprocessed, policy: MatchingPolicy,
                                cands: Candidates)
    requires policy.Valid()
  {
    var e := EdgeFrom(side, mine.id, q.id);
    && (e in cands <==> Admissible(side, mine, q, pre, policy.passes))
    && (e in cands ==> (cands[e].contradictions != {} <==> Contradictory(side, mine, q, policy.contract)))
    && (e in cands ==> cands[e].score == ScoreWith(side, mine, q, policy))
  }

  /** The related edges of an unlimited record, described by counterparts and scored by the rules. */
  ghost predicate RelatedAre(side: RecordSide, mine: Record, pre: Preprocessed, policy: MatchingPolicy,
                             cands: Candidates)
    requires policy.Valid()
  {
    && (forall q :: q in Remains(Other(side), pre) ==> PairDescribed(side, mine, q, pre, policy, cands))
    && (forall e :: e in RelatedEdges(side, mine.id, cands) ==>
          exists q :: q in Remains(Other(side), pre) && e == EdgeFrom(side, mine.id, q.id))
  }

  lemma UnlimitedRelated(s: Snapshot, d: Decisions, side: RecordSide, mine: Record, pre: Preprocessed,
                         policy: MatchingPolicy,
                         gen: Generation, cands: Candidates)
    requires s.Valid() && policy.Valid() && Prepared(s, d, policy, pre, gen, cands)
    requires mine in Remains(side, pre) && mine.id !in gen.limited
    ensures RelatedAre(side, mine, pre, policy, cands)
  {
    var input := Input(pre.remainingLeft, pre.remainingRight, pre.prohibited);
    assert input.Valid() && EdgesHaveRecords(pre.remainingLeft, pre.remainingRight, gen) by {
      RemainingInput(s, d, policy.contract, pre);
      RetainedHaveRecords(input, policy.passes, policy.limits, gen);
    }
    GeneratedRelated(side, mine, pre, policy, gen, cands);
  }

  lemma GeneratedRelated(side: RecordSide, mine: Record, pre: Preprocessed, policy: MatchingPolicy, gen: Generation,
                         cands: Candidates)
    requires policy.Valid() && EdgesHaveRecords(pre.remainingLeft, pre.remainingRight, gen)
    requires var input := Input(pre.remainingLeft, pre.remainingRight, pre.prohibited);
             input.Valid() && Generated(input, policy.passes, policy.limits, gen)
    requires ScoresOf(pre.remainingLeft, pre.remainingRight, gen, policy, cands)
    requires mine in Remains(side, pre) && mine.id !in gen.limited
    ensures RelatedAre(side, mine, pre, policy, cands)
  {
    forall q | q in Remains(Other(side), pre)
      ensures PairDescribed(side, mine, q, pre, policy, cands)
    {
      PairIsDescribed(side, mine, q, pre, policy, gen, cands);
    }
    RelatedHaveRecords(side, mine, pre, gen, cands);
  }

  lemma PairIsDescribed(side: RecordSide, mine: Record, q: Record, pre: Preprocessed, policy: MatchingPolicy,
                        gen: Generation, cands: Candidates)
    requires policy.Valid() && ScoresOf(pre.remainingLeft, pre.remainingRight, gen, policy, cands)
    requires var input := Input(pre.remainingLeft, pre.remainingRight, pre.prohibited);
             input.Valid() && Generated(input, policy.passes, policy.limits, gen)
    requires mine in Remains(side, pre) && mine.id !in gen.limited && q in Remains(Other(side), pre)
    ensures PairDescribed(side, mine, q, pre, policy, cands)
  {
    RetainedIffAdmissible(side, mine, q, pre, policy.passes, policy.limits, gen);
    if EdgeFrom(side, mine.id, q.id) in cands {
      EvidenceOfPair(side, mine, q, pre, policy, gen, cands);
    }
  }

  lemma EvidenceOfPair(side: RecordSide, mine: Record, q: Record, pre: Preprocessed, policy: MatchingPolicy,
                       gen: Generation,
                       cands: Candidates)
    requires policy.Valid() && ScoresOf(pre.remainingLeft, pre.remainingRight, gen, policy, cands)
    requires mine in Remains(side, pre) && q in Remains(Other(side), pre)
    requires EdgeFrom(side, mine.id, q.id) in cands
    ensures var e := EdgeFrom(side, mine.id, q.id);
            && (cands[e].contradictions != {} <==> Contradictory(side, mine, q, policy.contract))
            && cands[e].score == ScoreWith(side, mine, q, policy)
  {
  }

  lemma RelatedHaveRecords(side: RecordSide, mine: Record, pre: Preprocessed, gen: Generation, cands: Candidates)
    requires cands.Keys == gen.edges.Keys && EdgesHaveRecords(pre.remainingLeft, pre.remainingRight, gen)
    ensures forall e :: e in RelatedEdges(side, mine.id, cands) ==>
              exists q :: q in Remains(Other(side), pre) && e == EdgeFrom(side, mine.id, q.id)
  {
    forall e | e in RelatedEdges(side, mine.id, cands)
      ensures exists q :: q in Remains(Other(side), pre) && e == EdgeFrom(side, mine.id, q.id)
    {
      assert e in gen.edges;
      if side.LeftSide? {
        var q :| q in pre.remainingRight && q.id == e.right;
        assert e == EdgeFrom(side, mine.id, q.id);
      } else {
        var q :| q in pre.remainingLeft && q.id == e.left;
        assert e == EdgeFrom(side, mine.id, q.id);
      }
    }
  }

  // ----- the explanations -----

  ghost predicate NoneAdmissible(side: RecordSide, mine: Record, pre: Preprocessed, passes: seq<BlockingPass>) {
    forall q :: q in Remains(Other(side), pre) ==> !Admissible(side, mine, q, pre, passes)
  }

  ghost predicate AllContradictory(side: RecordSide, mine: Record, pre: Preprocessed, policy: MatchingPolicy) {
    forall q :: Admissible(side, mine, q, pre, policy.passes) ==> Contradictory(side, mine, q, policy.contract)
  }

  ghost predicate NoneAboveFloor(side: RecordSide, mine: Record, pre: Preprocessed, policy: MatchingPolicy)
    requires policy.Valid()
  {
    forall q :: Admissible(side, mine, q, pre, policy.passes) ==> ScoreWith(side, mine, q, policy) <= policy.floor
  }

  ghost predicate HasRejection(side: RecordSide, mine: Id, prohibited: set<Edge>) {
    exists y :: Rejected(side, mine, y, prohibited)
  }

  /** What an explanation of an unlimited record must mean. */
  ghost predicate Truthful(u: Unpaired, side: RecordSide, mine: Record, pre: Preprocessed, policy: MatchingPolicy)
    requires policy.Valid()
  {
    var none := NoneAdmissible(side, mine, pre, policy.passes);
    && u.side == side
    && (u.reason.NoCandidate? <==> none && !HasRejection(side, mine.id, pre.prohibited))
    && (u.reason.Prohibited? <==>
          if none then HasRejection(side, mine.id, pre.prohibited) else AllContradictory(side, mine, pre, policy))
    && (u.reason.BelowAssignmentFloor? <==>
          !none && !AllContradictory(side, mine, pre, policy) && NoneAboveFloor(side, mine, pre, policy))
    && (u.reason.Ambiguous? <==>
          !AllContradictory(side, mine, pre, policy) && !NoneAboveFloor(side, mine, pre, policy))
    && forall y :: y in u.related <==>
         || (exists q :: Admissible(side, mine, q, pre, policy.passes) && q.id == y)
         || Rejected(side, mine.id, y, pre.prohibited)
  }

  /** The related edges lead exactly to the admissible counterparts. */
  ghost predicate LeadTo(side: RecordSide, mine: Record, pre: Preprocessed, passes: seq<BlockingPass>,
                         related: set<Edge>) {
    && (forall q :: Admissible(side, mine, q, pre, passes) ==> EdgeFrom(side, mine.id, q.id) in related)
    && forall e :: e in related ==> exists q :: Admissible(side, mine, q, pre, passes) && e == EdgeFrom(side, mine.id, q.id)
  }

  ghost predicate DescribedHere(side: RecordSide, mine: Record, q: Record, policy: MatchingPolicy, cands: Candidates)
    requires policy.Valid()
  {
    var e := EdgeFrom(side, mine.id, q.id);
    && e in cands && (cands[e].contradictions != {} <==> Contradictory(side, mine, q, policy.contract))
    && cands[e].score == ScoreWith(side, mine, q, policy)
  }

  ghost predicate WellDescribed(side: RecordSide, mine: Record, pre: Preprocessed, policy: MatchingPolicy,
                                cands: Candidates)
    requires policy.Valid()
  {
    forall q :: Admissible(side, mine, q, pre, policy.passes) ==> DescribedHere(side, mine, q, policy, cands)
  }

  lemma RelatedLeadTo(side: RecordSide, mine: Record, pre: Preprocessed, policy: MatchingPolicy, cands: Candidates)
    requires policy.Valid() && RelatedAre(side, mine, pre, policy, cands)
    ensures LeadTo(side, mine, pre, policy.passes, RelatedEdges(side, mine.id, cands))
    ensures WellDescribed(side, mine, pre, policy, cands)
  {
    forall q | Admissible(side, mine, q, pre, policy.passes)
      ensures DescribedHere(side, mine, q, policy, cands)
    {
      assert PairDescribed(side, mine, q, pre, policy, cands);
    }
    var related := RelatedEdges(side, mine.id, cands);
    forall q | Admissible(side, mine, q, pre, policy.passes)
      ensures EdgeFrom(side, mine.id, q.id) in related
    {
      assert EndOf(side, EdgeFrom(side, mine.id, q.id)) == mine.id;
    }
    forall e | e in related
      ensures exists q :: Admissible(side, mine, q, pre, policy.passes) && e == EdgeFrom(side, mine.id, q.id)
    {
      var q :| q in Remains(Other(side), pre) && e == EdgeFrom(side, mine.id, q.id);
      assert Admissible(side, mine, q, pre, policy.passes);
    }
  }

  lemma LeadToEnds(side: RecordSide, mine: Record, pre: Preprocessed, passes: seq<BlockingPass>, related: set<Edge>)
    requires LeadTo(side, mine, pre, passes, related)
    ensures related == {} <==> NoneAdmissible(side, mine, pre, passes)
    ensures forall y :: y in OtherEnds(side, related) <==> exists q :: Admissible(side, mine, q, pre, passes) && q.id == y
  {
    forall y
      ensures y in OtherEnds(side, related) <==> exists q :: Admissible(side, mine, q, pre, passes) && q.id == y
    {
      if q :| Admissible(side, mine, q, pre, passes) && q.id == y {
        assert EndOf(Other(side), EdgeFrom(side, mine.id, q.id)) == y;
      }
    }
  }

  lemma LeadToFacts(side: RecordSide, mine: Record, pre: Preprocessed, policy: MatchingPolicy, cands: Candidates,
                    related: set<Edge>)
    requires policy.Valid() && LeadTo(side, mine, pre, policy.passes, related) && related <= cands.Keys
    requires WellDescribed(side, mine, pre, policy, cands)
    ensures (forall e :: e in related ==> cands[e].contradictions != {}) <==> AllContradictory(side, mine, pre, policy)
    ensures (forall e :: e in related ==> cands[e].score <= policy.floor) <==> NoneAboveFloor(side, mine, pre, policy)
  {
  }

  lemma RelatedEndsMean(side: RecordSide, mine: Record, pre: Preprocessed, policy: MatchingPolicy, cands: Candidates)
    requires policy.Valid() && RelatedAre(side, mine, pre, policy, cands)
    ensures RelatedEdges(side, mine.id, cands) == {} <==> NoneAdmissible(side, mine, pre, policy.passes)
    ensures forall y :: y in OtherEnds(side, RelatedEdges(side, mine.id, cands)) <==>
                        exists q :: Admissible(side, mine, q, pre, policy.passes) && q.id == y
  {
    RelatedLeadTo(side, mine, pre, policy, cands);
    LeadToEnds(side, mine, pre, policy.passes, RelatedEdges(side, mine.id, cands));
  }

  lemma RelatedFactsMean(side: RecordSide, mine: Record, pre: Preprocessed, policy: MatchingPolicy, cands: Candidates)
    requires policy.Valid() && RelatedAre(side, mine, pre, policy, cands)
    ensures (forall e :: e in RelatedEdges(side, mine.id, cands) ==> cands[e].contradictions != {}) <==>
            AllContradictory(side, mine, pre, policy)
    ensures (forall e :: e in RelatedEdges(side, mine.id, cands) ==> cands[e].score <= policy.floor) <==>
            NoneAboveFloor(side, mine, pre, policy)
  {
    RelatedLeadTo(side, mine, pre, policy, cands);
    LeadToFacts(side, mine, pre, policy, cands, RelatedEdges(side, mine.id, cands));
  }

  lemma RejectionsMean(side: RecordSide, x: Id, prohibited: set<Edge>)
    ensures ProhibitedEdgesOf(side, x, prohibited) != {} <==> HasRejection(side, x, prohibited)
    ensures forall y :: y in OtherEnds(side, ProhibitedEdgesOf(side, x, prohibited)) <==> Rejected(side, x, y, prohibited)
  {
    var edges := ProhibitedEdgesOf(side, x, prohibited);
    forall e | e in edges
      ensures Rejected(side, x, EndOf(Other(side), e), prohibited)
    {
      assert e == EdgeFrom(side, x, EndOf(Other(side), e));
    }
    forall y | Rejected(side, x, y, prohibited)
      ensures EdgeFrom(side, x, y) in edges && y in OtherEnds(side, edges)
    {
      assert EndOf(side, EdgeFrom(side, x, y)) == x && EndOf(Other(side), EdgeFrom(side, x, y)) == y;
    }
  }

  /** The branches of the explanation, by four facts about the record. */
  lemma AutomaticCases(side: RecordSide, x: Id, cands: Candidates, prohibited: set<Edge>, limited: set<Id>, floor: int)
    requires x !in limited
    ensures var related, rejected := RelatedEdges(side, x, cands), ProhibitedEdgesOf(side, x, prohibited);
            var contradictory := forall e :: e in related ==> cands[e].contradictions != {};
            var low := forall e :: e in related ==> cands[e].score <= floor;
            var u := Automatic(side, x, cands, prohibited, limited, floor);
            && u.side == side && !u.reason.ComputationLimited?
            && (u.reason.NoCandidate? <==> related == {} && rejected == {})
            && (u.reason.Prohibited? <==> if related == {} then rejected != {} else contradictory)
            && (u.reason.BelowAssignmentFloor? <==> related != {} && !contradictory && low)
            && (u.reason.Ambiguous? <==> !contradictory && !low)
            && forall y :: y in u.related <==> y in OtherEnds(side, related) || y in OtherEnds(side, rejected)
  {
  }

  lemma AutomaticIsTruthful(side: RecordSide, mine: Record, pre: Preprocessed, policy: MatchingPolicy,
                            cands: Candidates,
                            limited: set<Id>)
    requires policy.Valid() && RelatedAre(side, mine, pre, policy, cands) && mine.id !in limited
    ensures Truthful(Automatic(side, mine.id, cands, pre.prohibited, limited, policy.floor), side, mine, pre, policy)
    ensures !Automatic(side, mine.id, cands, pre.prohibited, limited, policy.floor).reason.ComputationLimited?
  {
    AutomaticCases(side, mine.id, cands, pre.prohibited, limited, policy.floor);
    RelatedEndsMean(side, mine, pre, policy, cands);
    RelatedFactsMean(side, mine, pre, policy, cands);
    RejectionsMean(side, mine.id, pre.prohibited);
  }

  /** Every record the earlier phases left open and no accepted pair took is explained truthfully:
      COMPUTATION_LIMITED exactly when its search was incomplete, and otherwise by what all its
      counterparts really are. */
  lemma ExplanationIsTruthful(run: Run, side: RecordSide, mine: Record)
    requires run.Valid() && mine in Remains(side, run.pre)
    requires mine.id !in PairedIds(LeftSide, run.pairs) + PairedIds(RightSide, run.pairs)
    ensures mine.id in run.unpaired
    ensures run.unpaired[mine.id].reason.ComputationLimited? <==> mine.id in run.a.limited
    ensures mine.id !in run.a.limited ==> Truthful(run.unpaired[mine.id], side, mine, run.pre, run.policy)
  {
    OpenIsAutomatic(run, side, mine);
    if mine.id !in run.a.limited {
      assert mine.id !in run.gen.limited;
      UnlimitedRelated(run.s, run.d, side, mine, run.pre, run.policy, run.gen, run.cands);
      AutomaticIsTruthful(side, mine, run.pre, run.policy, run.cands, run.a.limited);
    }
  }

  lemma RetainedEnds(side: RecordSide, x: Id, cands: Candidates)
    ensures forall y :: y in OtherEnds(side, RelatedEdges(side, x, cands)) <==> EdgeFrom(side, x, y) in cands
  {
    var related := RelatedEdges(side, x, cands);
    forall e | e in related
      ensures e == EdgeFrom(side, x, EndOf(Other(side), e))
    {
    }
    forall y | EdgeFrom(side, x, y) in cands
      ensures EdgeFrom(side, x, y) in related && y in OtherEnds(side, related)
    {
      assert EndOf(side, EdgeFrom(side, x, y)) == x && EndOf(Other(side), EdgeFrom(side, x, y)) == y;
    }
  }

  lemma LimitedNames(side: RecordSide, x: Id, cands: Candidates, prohibited: set<Edge>, limited: set<Id>, floor: int, y: Id)
    requires x in limited
    ensures var u := Automatic(side, x, cands, prohibited, limited, floor);
            && u.side == side && u.reason == ComputationLimited
            && (y in u.related <==>
                  var e := match side case LeftSide => Edge(x, y) case RightSide => Edge(y, x);
                  e in cands || e in prohibited)
  {
    RetainedEnds(side, x, cands);
    RejectionsMean(side, x, prohibited);
  }

  lemma OpenIsAutomatic(run: Run, side: RecordSide, mine: Record)
    requires run.Valid() && mine in Remains(side, run.pre)
    requires mine.id !in PairedIds(LeftSide, run.pairs) + PairedIds(RightSide, run.pairs)
    ensures Lookup(run.unpaired, mine.id) ==
            Some(Automatic(side, mine.id, run.cands, run.pre.prohibited, run.a.limited, run.policy.floor))
  {
    RemainingInput(run.s, run.d, run.policy.contract, run.pre);
  }

  /** A record whose search was cut short says so, and names exactly the counterparts of the edges that were retained
      for it and of those a reviewer rejected. */
  lemma LimitedExplanation(run: Run, side: RecordSide, mine: Record, y: Id)
    requires run.Valid() && mine in Remains(side, run.pre) && mine.id in run.a.limited
    requires mine.id !in PairedIds(LeftSide, run.pairs) + PairedIds(RightSide, run.pairs)
    ensures mine.id in run.unpaired
    ensures run.unpaired[mine.id].side == side && run.unpaired[mine.id].reason == ComputationLimited
    ensures y in run.unpaired[mine.id].related <==>
            var e := match side case LeftSide => Edge(mine.id, y) case RightSide => Edge(y, mine.id);
            e in run.cands || e in run.pre.prohibited
  {
    OpenIsAutomatic(run, side, mine);
    LimitedNames(side, mine.id, run.cands, run.pre.prohibited, run.a.limited, run.policy.floor, y);
  }

  predicate AutomaticReason(reason: UnpairedReason) {
    reason.Prohibited? || reason.NoCandidate? || reason.BelowAssignmentFloor? || reason.Ambiguous? || reason.ComputationLimited?
  }

  lemma EarlyReasons(v: View, r: Record)
    ensures FateOf(v, r).Terminal? ==> !AutomaticReason(FateOf(v, r).outcome.reason)
  {
  }

  lemma TerminalIsEarly(s: Snapshot, d: Decisions, contract: ReferenceContract, pre: Preprocessed, x: Id)
    requires s.Valid() && Preprocesses(s, d, contract, pre) && x in pre.terminal
    ensures !AutomaticReason(pre.terminal[x].reason)
  {
    assert Lookup(AsWork(pre).terminal, x) == Some(pre.terminal[x]);
    assert x in TerminalIds(pre.terminal[x].side, pre.terminal);
    if pre.terminal[x].side.LeftSide? {
      var r :| r in s.left && r.id == x;
      EarlyReasons(LeftView(s, d, contract), r);
      assert Holds(LeftSide, AsWork(pre), x, FateOf(LeftView(s, d, contract), r));
    } else {
      var r :| r in s.right && r.id == x;
      EarlyReasons(RightView(s, d, contract), r);
      assert Holds(RightSide, AsWork(pre), x, FateOf(RightView(s, d, contract), r));
    }
  }

  /** An automatic explanation in the result always belongs to a record no earlier phase decided, so
      the truthfulness of explanations covers every automatic one. */
  lemma AutomaticMeansOpen(run: Run, x: Id) returns (side: RecordSide, mine: Record)
    requires run.Valid() && x in run.unpaired
    requires run.unpaired[x].reason in {Prohibited, NoCandidate, BelowAssignmentFloor, Ambiguous, ComputationLimited}
    ensures mine in Remains(side, run.pre) && mine.id == x
    ensures x !in PairedIds(LeftSide, run.pairs) + PairedIds(RightSide, run.pairs)
  {
    if Lookup(run.unpaired, x) == Lookup(run.pre.terminal, x) {
      TerminalIsEarly(run.s, run.d, run.policy.contract, run.pre, x);
    }
    side, mine := ExplainedIsOpen(run.pre, run.cands, run.a.limited, run.policy.floor,
                                  PairedIds(LeftSide, run.pairs) + PairedIds(RightSide, run.pairs), run.unpaired, x);
  }

  lemma ExplainedIsOpen(pre: Preprocessed, cands: Candidates, limited: set<Id>, floor: int, paired: set<Id>,
                        unpaired: Terminals, x: Id) returns (side: RecordSide, mine: Record)
    requires UnpairedAre(pre, cands, limited, floor, paired, unpaired)
    requires x in unpaired && Lookup(unpaired, x) != Lookup(pre.terminal, x)
    ensures mine in Remains(side, pre) && mine.id == x && x !in paired
  {
    assert Lookup(unpaired, x).Some?;
    side := if x in Ids(pre.remainingLeft) then LeftSide else RightSide;
    mine :| mine in Remains(side, pre) && mine.id == x;
  }
}
