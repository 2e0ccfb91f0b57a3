/** Whole reconciliations compared: bounded with unbounded search, one solver with another. */
module Reconciliation {
  import opened Matchings
  import opened Domain
  import opened Reachability
  import opened Components
  import opened Ordering
  import opened Blocking
  import opened Enumeration
  import opened Propagation
  import opened CandidateGeneration
  import opened Scoring
  import opened References
  import opened ComponentSolver
  import opened Assignment
  import opened Gating
  import opened Acceptance
  import opened Conservative
  import opened Engine

  // ----- reservations and references do not depend on order -----

  lemma EligibleRecord(records: seq<Record>, x: Id) returns (r: Record)
    requires x in EligibleIds(records)
    ensures r in records && r.id == x
  {
    r :| r in records && r.Eligible() && r.id == x;
  }

  lemma PairKeepsFate(s: Snapshot, d: Decisions, contract: ReferenceContract, pre: Preprocessed, p: Pair)
    returns (r: Record)
    requires s.Valid() && Preprocesses(s, d, contract, pre) && p in pre.pairs
    ensures r in s.left && r.id == p.edge.left
    ensures FateOf(LeftView(s, d, contract), r) == Paired(p.edge.right, p.origin)
  {
    r := EligibleRecord(s.left, p.edge.left);
    LeftFateHeld(s.left, LeftView(s, d, contract), AsWork(pre), r, p);
  }

  lemma LeftFateHeld(records: seq<Record>, v: View, w: Work, r: Record, p: Pair)
    requires forall q :: q in records ==> Holds(LeftSide, w, q.id, FateOf(v, q))
    requires r in records && r.id == p.edge.left && p in w.pairs && PairsOneToOne(w.pairs)
    ensures FateOf(v, r) == Paired(p.edge.right, p.origin)
  {
    var fate := FateOf(v, r);
    assert Holds(LeftSide, w, r.id, fate);
    HeldPair(w, fate, p);
  }

  lemma HeldPair(w: Work, fate: Fate, p: Pair)
    requires Holds(LeftSide, w, p.edge.left, fate) && p in w.pairs && PairsOneToOne(w.pairs)
    ensures fate == Paired(p.edge.right, p.origin)
  {
    assert EndOf(LeftSide, p.edge) == p.edge.left;
    assert fate.Paired?;
    SamePair(w.pairs, p, Pair(Edge(p.edge.left, fate.partner), fate.origin, None, None));
  }

  lemma SamePair(pairs: seq<Pair>, p: Pair, q: Pair)
    requires PairsOneToOne(pairs) && p in pairs && q in pairs && p.edge.left == q.edge.left
    ensures p == q
  {
    var i :| 0 <= i < |pairs| && pairs[i] == p;
    var j :| 0 <= j < |pairs| && pairs[j] == q;
    assert Touch(pairs[i].edge, pairs[j].edge) && Touch(pairs[j].edge, pairs[i].edge);
  }

  /** Two preprocessings of the same inputs agree on everything but the order of their lists. */
  ghost predicate SamePreprocessing(a: Preprocessed, b: Preprocessed) {
    && (forall p :: p in a.pairs <==> p in b.pairs)
    && (forall x :: Lookup(a.terminal, x) == Lookup(b.terminal, x))
    && (forall r :: r in a.remainingLeft <==> r in b.remainingLeft)
    && (forall r :: r in a.remainingRight <==> r in b.remainingRight)
    && a.prohibited == b.prohibited
  }

  lemma PairCarriesOver(s: Snapshot, d: Decisions, contract: ReferenceContract, a: Preprocessed, b: Preprocessed,
                        p: Pair)
    requires s.Valid() && Preprocesses(s, d, contract, a) && Preprocesses(s, d, contract, b) && p in a.pairs
    ensures p in b.pairs
  {
    var r := PairKeepsFate(s, d, contract, a, p);
    assert Holds(LeftSide, AsWork(b), r.id, FateOf(LeftView(s, d, contract), r));
  }

  lemma SameFate(side: RecordSide, a: Work, b: Work, x: Id, fate: Fate)
    requires Holds(side, a, x, fate) && Holds(side, b, x, fate)
    ensures Lookup(a.terminal, x) == Lookup(b.terminal, x)
    ensures x in Available(side, a) <==> x in Available(side, b)
  {
  }

  lemma SameSides(s: Snapshot, d: Decisions, contract: ReferenceContract, a: Preprocessed, b: Preprocessed)
    requires s.Valid() && Preprocesses(s, d, contract, a) && Preprocesses(s, d, contract, b)
    ensures forall r :: r in s.left ==> (r.id in Ids(a.remainingLeft) <==> r.id in Ids(b.remainingLeft))
    ensures forall r :: r in s.right ==> (r.id in Ids(a.remainingRight) <==> r.id in Ids(b.remainingRight))
    ensures forall r :: r in s.left + s.right ==> Lookup(a.terminal, r.id) == Lookup(b.terminal, r.id)
  {
    forall r | r in s.left
      ensures r.id in Ids(a.remainingLeft) <==> r.id in Ids(b.remainingLeft)
      ensures Lookup(a.terminal, r.id) == Lookup(b.terminal, r.id)
    {
      SameFate(LeftSide, AsWork(a), AsWork(b), r.id, FateOf(LeftView(s, d, contract), r));
    }
    forall r | r in s.right
      ensures r.id in Ids(a.remainingRight) <==> r.id in Ids(b.remainingRight)
      ensures Lookup(a.terminal, r.id) == Lookup(b.terminal, r.id)
    {
      SameFate(RightSide, AsWork(a), AsWork(b), r.id, FateOf(RightView(s, d, contract), r));
    }
  }

  lemma SameRecords(records: seq<Record>, a: seq<Record>, b: seq<Record>, r: Record)
    requires UniqueIds(records) && (forall q :: q in a ==> q in records) && (forall q :: q in b ==> q in records)
    requires r in a && r.id in Ids(b)
    ensures r in b
  {
    var q :| q in b && q.id == r.id;
    assert q in records && r in records;
  }

  lemma TerminalsAreInputs(s: Snapshot, pre: Preprocessed, x: Id)
    requires PreprocessedValid(s, pre) && x in pre.terminal
    ensures exists r :: r in s.left + s.right && r.id == x
  {
    assert x in TerminalIds(pre.terminal[x].side, pre.terminal);
    var r :| (r in s.left || r in s.right) && r.id == x;
    assert r in s.left + s.right;
  }

  lemma PreprocessingIsDetermined(s: Snapshot, d: Decisions, contract: ReferenceContract, a: Preprocessed,
                                  b: Preprocessed)
    requires s.Valid() && Preprocesses(s, d, contract, a) && Preprocesses(s, d, contract, b)
    ensures SamePreprocessing(a, b)
  {
    SameSides(s, d, contract, a, b);
    forall x
      ensures Lookup(a.terminal, x) == Lookup(b.terminal, x)
    {
      if x in a.terminal {
        TerminalsAreInputs(s, a, x);
      } else if x in b.terminal {
        TerminalsAreInputs(s, b, x);
      }
    }
    forall p
      ensures p in a.pairs <==> p in b.pairs
    {
      if p in a.pairs {
        PairCarriesOver(s, d, contract, a, b, p);
      } else if p in b.pairs {
        PairCarriesOver(s, d, contract, b, a, p);
      }
    }
    forall r
      ensures r in a.remainingLeft <==> r in b.remainingLeft
      ensures r in a.remainingRight <==> r in b.remainingRight
    {
      if r in a.remainingLeft {
        SameRecords(s.left, a.remainingLeft, b.remainingLeft, r);
      }
      if r in b.remainingLeft {
        SameRecords(s.left, b.remainingLeft, a.remainingLeft, r);
      }
      if r in a.remainingRight {
        SameRecords(s.right, a.remainingRight, b.remainingRight, r);
      }
      if r in b.remainingRight {
        SameRecords(s.right, b.remainingRight, a.remainingRight, r);
      }
    }
  }

  // ----- bounded and unbounded generation agree around unlimited records -----

  function InputOf(pre: Preprocessed): Input {
    Input(pre.remainingLeft, pre.remainingRight, pre.prohibited)
  }

  /** Both generations, and the candidates scored from them. */
  ghost predicate Generations(pre: Preprocessed, policy: MatchingPolicy, gen: Generation, cands: Candidates)
    requires policy.Valid()
  {
    && InputOf(pre).Valid() && EdgesHaveRecords(pre.remainingLeft, pre.remainingRight, gen)
    && Generated(InputOf(pre), policy.passes, policy.limits, gen)
    && ScoresOf(pre.remainingLeft, pre.remainingRight, gen, policy, cands)
  }

  lemma NaiveBoth(a: Preprocessed, b: Preprocessed, passes: seq<BlockingPass>, l: Record, r: Record, why: string)
    requires SamePreprocessing(a, b)
    ensures NaivelyKept(InputOf(a), passes, l, r, why) <==> NaivelyKept(InputOf(b), passes, l, r, why)
  {
  }

  /** A pair with an unlimited record has the same reasons in the bounded generation as in a complete one. */
  lemma SameReasonsHere(a: Preprocessed, b: Preprocessed, p1: MatchingPolicy, p2: MatchingPolicy, g1: Generation,
                        g2: Generation,
                        l: Record, r: Record)
    requires SamePreprocessing(a, b) && p2 == p1.(limits := p2.limits)
    requires InputOf(a).Valid() && Generated(InputOf(a), p1.passes, p1.limits, g1)
    requires InputOf(b).Valid() && Generated(InputOf(b), p2.passes, p2.limits, g2) && g2.limited == {}
    requires l in a.remainingLeft && r in a.remainingRight && (l.id !in g1.limited || r.id !in g1.limited)
    ensures var e := Edge(l.id, r.id);
            (e in g1.edges <==> e in g2.edges) && (e in g1.edges ==> g1.edges[e] == g2.edges[e])
  {
    var e := Edge(l.id, r.id);
    forall why
      ensures Has(g1.edges, e, why) <==> Has(g2.edges, e, why)
    {
      UnlimitedIsNaive(InputOf(a), p1.passes, p1.limits, g1, l, r, why);
      UnlimitedIsNaive(InputOf(b), p2.passes, p2.limits, g2, l, r, why);
      NaiveBoth(a, b, p1.passes, l, r, why);
    }
    SameByHas(g1.edges, g2.edges, e);
    assert Capped(g1.edges, p1.limits) && Capped(g2.edges, p2.limits);
  }

  lemma SameByHas(a: EdgeReasons, b: EdgeReasons, e: Edge)
    requires forall why :: Has(a, e, why) <==> Has(b, e, why)
    ensures e in a && e in b ==> a[e] == b[e]
    ensures e in a && a[e] != {} ==> e in b
    ensures e in b && b[e] != {} ==> e in a
  {
    if e in a && e in b {
      forall why
        ensures why in a[e] <==> why in b[e]
      {
        assert Has(a, e, why) <==> Has(b, e, why);
      }
    }
    if e in a && a[e] != {} {
      var why :| why in a[e];
      assert Has(a, e, why);
    }
    if e in b && b[e] != {} {
      var why :| why in b[e];
      assert Has(b, e, why);
    }
  }

  /** Limited records only meet limited records, in the unbounded graph too. */
  lemma EndsLimitedTogether(a: Preprocessed, b: Preprocessed, p1: MatchingPolicy, p2: MatchingPolicy, g1: Generation,
                            g2: Generation,
                            e: Edge)
    requires SamePreprocessing(a, b) && p2 == p1.(limits := p2.limits)
    requires InputOf(a).Valid() && Generated(InputOf(a), p1.passes, p1.limits, g1)
    requires InputOf(b).Valid() && Generated(InputOf(b), p2.passes, p2.limits, g2)
    requires e in g1.edges || e in g2.edges
    ensures e.left in g1.limited <==> e.right in g1.limited
  {
    if e in g1.edges {
      EdgeEndsLimitedTogether(InputOf(a), p1.passes, p1.limits, g1, e);
    } else {
      assert Capped(g2.edges, p2.limits);
      var why :| why in g2.edges[e];
      assert Has(g2.edges, e, why) && Justified(e, why, PassSet(p2.passes), InputOf(b));
      var p, l, r :| p in PassSet(p2.passes) && l in b.remainingLeft && r in b.remainingRight &&
                     Admits(p, l, r) && why == Reason(p) && e == Edge(l.id, r.id);
      GroupedTogetherLimitedTogether(InputOf(a), p1.passes, p1.limits, g1, p, l, r);
    }
  }

  ghost predicate SameEvidence(c1: Candidates, c2: Candidates, e: Edge) {
    (e in c1 <==> e in c2) && (e in c1 ==> c1[e] == c2[e])
  }

  lemma RecordsOfEdge(pre: Preprocessed, gen: Generation, e: Edge) returns (l: Record, r: Record)
    requires EdgesHaveRecords(pre.remainingLeft, pre.remainingRight, gen) && e in gen.edges
    ensures l in pre.remainingLeft && r in pre.remainingRight && e == Edge(l.id, r.id)
  {
    l :| l in pre.remainingLeft && l.id == e.left;
    r :| r in pre.remainingRight && r.id == e.right;
  }

  lemma SameEvidenceOf(a: Preprocessed, b: Preprocessed, p1: MatchingPolicy, p2: MatchingPolicy, g1: Generation,
                       g2: Generation,
                       c1: Candidates, c2: Candidates, l: Record, r: Record)
    requires SamePreprocessing(a, b) && p1.Valid() && p2.Valid() && p2 == p1.(limits := p2.limits)
    requires InputOf(a).Valid() && Generated(InputOf(a), p1.passes, p1.limits, g1)
    requires InputOf(b).Valid() && Generated(InputOf(b), p2.passes, p2.limits, g2) && g2.limited == {}
    requires ScoresOf(a.remainingLeft, a.remainingRight, g1, p1, c1)
    requires ScoresOf(b.remainingLeft, b.remainingRight, g2, p2, c2)
    requires l in a.remainingLeft && r in a.remainingRight && l.id !in g1.limited && r.id !in g1.limited
    ensures SameEvidence(c1, c2, Edge(l.id, r.id))
  {
    SameReasonsHere(a, b, p1, p2, g1, g2, l, r);
    ScoredAlike(a, b, p1, p2, g1, g2, c1, c2, l, r);
  }

  lemma SameEvidenceHere(a: Preprocessed, b: Preprocessed, p1: MatchingPolicy, p2: MatchingPolicy, g1: Generation,
                         g2: Generation,
                         c1: Candidates, c2: Candidates, e: Edge)
    requires SamePreprocessing(a, b) && p1.Valid() && p2.Valid() && p2 == p1.(limits := p2.limits)
    requires Generations(a, p1, g1, c1) && Generations(b, p2, g2, c2) && g2.limited == {}
    requires e.left !in g1.limited && e.right !in g1.limited
    ensures SameEvidence(c1, c2, e)
  {
    if e in c1 {
      var l, r := RecordsOfEdge(a, g1, e);
      SameEvidenceOf(a, b, p1, p2, g1, g2, c1, c2, l, r);
    } else if e in c2 {
      var l, r := RecordsOfEdge(b, g2, e);
      SameEvidenceOf(a, b, p1, p2, g1, g2, c1, c2, l, r);
    }
  }

  lemma ScoredAlike(a: Preprocessed, b: Preprocessed, p1: MatchingPolicy, p2: MatchingPolicy, g1: Generation,
                    g2: Generation,
                    c1: Candidates, c2: Candidates, l: Record, r: Record)
    requires p1.Valid() && p2.Valid() && p2 == p1.(limits := p2.limits)
    requires ScoresOf(a.remainingLeft, a.remainingRight, g1, p1, c1)
    requires ScoresOf(b.remainingLeft, b.remainingRight, g2, p2, c2)
    requires l in a.remainingLeft && l in b.remainingLeft && r in a.remainingRight && r in b.remainingRight
    requires l.id !in g1.limited + g2.limited && r.id !in g1.limited + g2.limited
    requires var e := Edge(l.id, r.id);
             (e in g1.edges <==> e in g2.edges) && (e in g1.edges ==> g1.edges[e] == g2.edges[e])
    ensures SameEvidence(c1, c2, Edge(l.id, r.id))
  {
  }

  lemma GenerationsAgree(a: Preprocessed, b: Preprocessed, p1: MatchingPolicy, p2: MatchingPolicy, g1: Generation,
                         g2: Generation,
                         c1: Candidates, c2: Candidates)
    requires SamePreprocessing(a, b) && p1.Valid() && p2.Valid() && p2 == p1.(limits := p2.limits)
    requires Generations(a, p1, g1, c1) && Generations(b, p2, g2, c2) && g2.limited == {}
    ensures AgreeOutside(c1, c2, g1.limited)
  {
    forall e: Edge | e in c1 || e in c2
      ensures e.left in g1.limited <==> e.right in g1.limited
    {
      EndsLimitedTogether(a, b, p1, p2, g1, g2, e);
    }
    forall e: Edge | e.left !in g1.limited && e.right !in g1.limited
      ensures (e in c1 <==> e in c2) && (e in c1 ==> c1[e] == c2[e])
    {
      SameEvidenceHere(a, b, p1, p2, g1, g2, c1, c2, e);
      assert SameEvidence(c1, c2, e);
    }
  }

  // ----- bounded search is conservative, end to end -----

  lemma PreparedGenerations(s: Snapshot, d: Decisions, policy: MatchingPolicy, pre: Preprocessed, gen: Generation,
                            cands: Candidates)
    requires s.Valid() && policy.Valid() && Prepared(s, d, policy, pre, gen, cands)
    ensures Generations(pre, policy, gen, cands)
  {
    RemainingInput(s, d, policy.contract, pre);
    RetainedHaveRecords(InputOf(pre), policy.passes, policy.limits, gen);
  }

  lemma RunGenerations(run: Run)
    requires run.Staged()
    ensures Generations(run.pre, run.policy, run.gen, run.cands)
  {
    PreparedGenerations(run.s, run.d, run.policy, run.pre, run.gen, run.cands);
  }

  function StagesOf(run: Run): Stages {
    Stages(run.cands, run.gen.limited, run.policy, run.solver, run.a, run.g)
  }

  /** No cap of this run trips. */
  ghost predicate Unbounded(run: Run) {
    run.gen.limited == {} && AllComplete(run.a.components)
  }

  /** The same question under different caps. */
  ghost predicate SameButLimits(bounded: Run, full: Run) {
    && bounded.s == full.s && bounded.d == full.d && bounded.solver == full.solver
    && full.policy == bounded.policy.(limits := full.policy.limits)
  }

  lemma RunsAgree(bounded: Run, full: Run)
    requires bounded.Staged() && full.Staged() && SameButLimits(bounded, full) && full.gen.limited == {}
    ensures SamePreprocessing(bounded.pre, full.pre)
    ensures AgreeOutside(bounded.cands, full.cands, bounded.gen.limited)
  {
    PreprocessingIsDetermined(bounded.s, bounded.d, bounded.policy.contract, bounded.pre, full.pre);
    RunGenerations(bounded);
    RunGenerations(full);
    GenerationsAgree(bounded.pre, full.pre, bounded.policy, full.policy, bounded.gen, full.gen, bounded.cands,
                     full.cands);
  }

  lemma RunPairs(run: Run, p: Pair)
    requires run.Concluded()
    ensures p in run.pairs <==> p in run.pre.pairs || AcceptedAmong(run.g.accepted, p)
  {
    WeightedMembers(run.g.accepted, p);
  }

  /** Every pair a bounded reconciliation reports is reported, with the same origin, score and gap, by
      the reconciliation in which no generation or component cap trips. */
  lemma BoundedRunIsConservative(bounded: Run, full: Run)
    requires bounded.Valid() && full.Valid() && SameButLimits(bounded, full) && Unbounded(full)
    ensures forall p :: p in bounded.pairs ==> p in full.pairs
  {
    RunsAgree(bounded, full);
    assert StagesOf(bounded).Valid() && StagesOf(full).Valid();
    forall p | p in bounded.pairs
      ensures p in full.pairs
    {
      RunPairs(bounded, p);
      RunPairs(full, p);
      if AcceptedAmong(bounded.g.accepted, p) {
        var q :| q in bounded.g.accepted && p == Pair(q.edge, WeightedGlobal, Some(q.score), Some(q.gap));
        BoundedAcceptanceIsConservative(StagesOf(bounded), StagesOf(full), q);
      }
    }
  }

  // ----- a bounded run decides unlimited records as an unbounded one does -----

  ghost predicate Ends(p: Pair, x: Id) {
    p.edge.left == x || p.edge.right == x
  }

  lemma NothingLimited(run: Run)
    requires AssignmentValid(run.a) && run.a.sourceLimited == run.gen.limited && Unbounded(run)
    ensures run.a.limited == {}
  {
  }

  lemma UnlimitedPairAlike(bounded: Run, full: Run, p: Pair, x: Id)
    requires bounded.Concluded() && full.Concluded()
    requires StagesOf(bounded).Valid() && StagesOf(full).Valid() && SameButLimits(bounded, full) && Unbounded(full)
    requires SamePreprocessing(bounded.pre, full.pre) && AgreeOutside(bounded.cands, full.cands, bounded.gen.limited)
    requires Ends(p, x) && x !in bounded.a.limited
    ensures p in bounded.pairs <==> p in full.pairs
  {
    RunPairs(bounded, p);
    RunPairs(full, p);
    if AcceptedAmong(bounded.g.accepted, p) {
      var q :| q in bounded.g.accepted && p == Pair(q.edge, WeightedGlobal, Some(q.score), Some(q.gap));
      BoundedAcceptanceIsConservative(StagesOf(bounded), StagesOf(full), q);
    }
    if AcceptedAmong(full.g.accepted, p) {
      var q :| q in full.g.accepted && p == Pair(q.edge, WeightedGlobal, Some(q.score), Some(q.gap));
      UnlimitedAcceptanceIsComplete(StagesOf(bounded), StagesOf(full), q, x);
    }
  }

  ghost predicate PairedIn(pairs: seq<Pair>, x: Id) {
    exists p :: p in pairs && Ends(p, x)
  }

  lemma PairedMeans(pairs: seq<Pair>, x: Id)
    ensures x in PairedIds(LeftSide, pairs) + PairedIds(RightSide, pairs) <==> PairedIn(pairs, x)
  {
    if PairedIn(pairs, x) {
      var p :| p in pairs && Ends(p, x);
      assert EndOf(LeftSide, p.edge) == x || EndOf(RightSide, p.edge) == x;
    }
  }

  /** The related edges of an unlimited record are the same, so its explanation is. */
  lemma SameExplanation(side: RecordSide, x: Id, c1: Candidates, c2: Candidates, source: set<Id>, prohibited: set<Edge>,
                        l1: set<Id>, l2: set<Id>, floor: int)
    requires AgreeOutside(c1, c2, source) && x !in source && x !in l1 && x !in l2
    ensures Automatic(side, x, c1, prohibited, l1, floor) == Automatic(side, x, c2, prohibited, l2, floor)
  {
    var r1, r2 := RelatedEdges(side, x, c1), RelatedEdges(side, x, c2);
    forall e: Edge | EndOf(side, e) == x
      ensures (e in c1 <==> e in c2) && (e in c1 ==> c1[e] == c2[e])
    {
      assert e in c1 || e in c2 ==> e.left !in source && e.right !in source;
    }
    assert r1 == r2;
    AutomaticBySame(side, x, c1, c2, prohibited, l1, l2, floor);
  }

  lemma AutomaticBySame(side: RecordSide, x: Id, c1: Candidates, c2: Candidates, prohibited: set<Edge>, l1: set<Id>,
                        l2: set<Id>,
                        floor: int)
    requires RelatedEdges(side, x, c1) == RelatedEdges(side, x, c2) && x !in l1 && x !in l2
    requires forall e :: e in RelatedEdges(side, x, c1) ==> c1[e] == c2[e]
    ensures Automatic(side, x, c1, prohibited, l1, floor) == Automatic(side, x, c2, prohibited, l2, floor)
  {
    var related := RelatedEdges(side, x, c1);
    assert (forall e :: e in related ==> c1[e].contradictions != {}) <==> (forall e :: e in related ==> c2[e].contradictions != {});
    assert (forall e :: e in related ==> c1[e].score <= floor) <==> (forall e :: e in related ==> c2[e].score <= floor);
  }

  ghost predicate SameOutcomeFor(a: Run, b: Run, x: Id) {
    && (forall p :: Ends(p, x) ==> (p in a.pairs <==> p in b.pairs))
    && Lookup(a.unpaired, x) == Lookup(b.unpaired, x)
  }

  lemma SameIds(a: seq<Record>, b: seq<Record>)
    requires forall r :: r in a <==> r in b
    ensures Ids(a) == Ids(b)
  {
  }

  lemma UnpairedAlike(bounded: Run, full: Run, x: Id)
    requires bounded.Concluded() && full.Concluded() && SameButLimits(bounded, full)
    requires SamePreprocessing(bounded.pre, full.pre) && AgreeOutside(bounded.cands, full.cands, bounded.gen.limited)
    requires x !in bounded.gen.limited && x !in bounded.a.limited && x !in full.a.limited
    requires forall p :: Ends(p, x) ==> (p in bounded.pairs <==> p in full.pairs)
    ensures Lookup(bounded.unpaired, x) == Lookup(full.unpaired, x)
  {
    PairedMeans(bounded.pairs, x);
    PairedMeans(full.pairs, x);
    SameIds(bounded.pre.remainingLeft, full.pre.remainingLeft);
    SameIds(bounded.pre.remainingRight, full.pre.remainingRight);
    SameExplanation(LeftSide, x, bounded.cands, full.cands, bounded.gen.limited, full.pre.prohibited, bounded.a.limited,
                    full.a.limited, full.policy.floor);
    SameExplanation(RightSide, x, bounded.cands, full.cands, bounded.gen.limited, full.pre.prohibited, bounded.a.limited,
                    full.a.limited, full.policy.floor);
  }

  /** A record the bounded run does not report as computation-limited has exactly the outcome, pair or
      explanation, that the unbounded run gives it: caps can only withhold, and they say for whom. */
  lemma UnlimitedRecordsAreDecidedAlike(bounded: Run, full: Run, x: Id)
    requires bounded.Valid() && full.Valid() && SameButLimits(bounded, full) && Unbounded(full)
    requires x !in bounded.a.limited
    ensures SameOutcomeFor(bounded, full, x)
  {
    RunsAgree(bounded, full);
    NothingLimited(full);
    forall p | Ends(p, x)
      ensures p in bounded.pairs <==> p in full.pairs
    {
      UnlimitedPairAlike(bounded, full, p, x);
    }
    UnpairedAlike(bounded, full, x);
  }

  // ----- caps that suffice never trip -----

  ghost predicate NaivePair(input: Input, passes: seq<BlockingPass>, l: Record, r: Record) {
    exists why :: NaivelyKept(input, passes, l, r, why)
  }

  /** All pairs the naive filter keeps. */
  ghost function NaiveEdges(input: Input, passes: seq<BlockingPass>): set<Edge> {
    set l, r | l in input.lefts && r in input.rights && NaivePair(input, passes, l, r) :: Edge(l.id, r.id)
  }

  ghost function WithLeft(edges: set<Edge>, x: Id): set<Edge> {
    set e | e in edges && e.left == x
  }

  ghost function WithRight(edges: set<Edge>, x: Id): set<Edge> {
    set e | e in edges && e.right == x
  }

  ghost predicate Roomy(limits: Limits, naive: set<Edge>) {
    && |naive| <= limits.runEdges
    && forall x: Id :: |WithLeft(naive, x)| <= limits.perRecord && |WithRight(naive, x)| <= limits.perRecord
  }

  lemma JustifiedIsNaive(input: Input, passes: seq<BlockingPass>, e: Edge, why: string)
    requires Justified(e, why, PassSet(passes), input)
    ensures e in NaiveEdges(input, passes)
  {
    var p, l, r :| p in PassSet(passes) && l in input.lefts && r in input.rights &&
                   Admits(p, l, r) && why == Reason(p) && e == Edge(l.id, r.id);
    assert NaivelyKept(input, passes, l, r, why);
    assert NaivePair(input, passes, l, r);
  }

  lemma RetainedIsSubset(input: Input, passes: seq<BlockingPass>, limits: Limits, gen: Generation)
    requires Generated(input, passes, limits, gen)
    ensures gen.edges.Keys <= NaiveEdges(input, passes)
  {
    forall e | e in gen.edges
      ensures e in NaiveEdges(input, passes)
    {
      assert gen.edges[e] != {};
      var why :| why in gen.edges[e];
      assert Has(gen.edges, e, why);
      JustifiedIsNaive(input, passes, e, why);
    }
  }

  /** A refused pair is one the naive filter keeps and the generation does not. */
  lemma RefusedIsNaive(input: Input, passes: seq<BlockingPass>, limits: Limits, edges: EdgeReasons, p: BlockingPass,
                       key: Key,
                       reason: LimitReason) returns (e: Edge)
    requires p in passes && PairRefused(p, key, input, edges, limits, reason)
    ensures e in NaiveEdges(input, passes) && Refused(edges, limits, e, input.prohibited, reason)
  {
    var l, r :| l in input.lefts && r in input.rights && InGroup(p, key, l) && Admits(p, l, r) &&
                Refused(edges, limits, Edge(l.id, r.id), input.prohibited, reason);
    e := Edge(l.id, r.id);
    RefusedIsPermitted(edges, limits, e, input.prohibited, reason);
    AdmittedIsNaive(input, passes, p, l, r);
  }

  lemma RefusedIsPermitted(edges: EdgeReasons, limits: Limits, e: Edge, prohibited: set<Edge>, reason: LimitReason)
    requires Refused(edges, limits, e, prohibited, reason)
    ensures e !in prohibited
  {
  }

  lemma AdmittedIsNaive(input: Input, passes: seq<BlockingPass>, p: BlockingPass, l: Record, r: Record)
    requires p in passes && l in input.lefts && r in input.rights && Admits(p, l, r)
    requires Edge(l.id, r.id) !in input.prohibited
    ensures Edge(l.id, r.id) in NaiveEdges(input, passes)
  {
    assert NaivelyKept(input, passes, l, r, Reason(p));
  }

  lemma StoppedRefuses(input: Input, passes: seq<BlockingPass>, limits: Limits, part: Partition, edges: EdgeReasons)
    returns (e: Edge, reason: LimitReason)
    requires part.pass in passes && GenuineLimit(part, PassSet(passes), input, edges, limits) && StoppedHere(part)
    ensures e in NaiveEdges(input, passes) && Refused(edges, limits, e, input.prohibited, reason)
  {
    reason := part.limit.value;
    if reason.PerRecordLimit? {
      e := RefusedIsNaive(input, passes, limits, edges, part.pass, part.key, reason);
    } else {
      var p, key :| p in PassSet(passes) && PairRefused(p, key, input, edges, limits, RunEdgeLimit);
      e := RefusedIsNaive(input, passes, limits, edges, p, key, reason);
    }
  }

  lemma RoomForRefused(limits: Limits, naive: set<Edge>, edges: EdgeReasons, e: Edge, prohibited: set<Edge>,
                       reason: LimitReason)
    requires edges.Keys <= naive && e in naive && Refused(edges, limits, e, prohibited, reason)
    ensures !Roomy(limits, naive)
  {
    assert |edges| == |edges.Keys|;
    assert e !in LeftEdges(edges, e.left) && e !in RightEdges(edges, e.right) && e !in edges.Keys;
    OneMoreFits(edges.Keys, e, naive);
    OneMoreFits(LeftEdges(edges, e.left), e, WithLeft(naive, e.left));
    OneMoreFits(RightEdges(edges, e.right), e, WithRight(naive, e.right));
  }

  lemma OneMoreFits(part: set<Edge>, e: Edge, whole: set<Edge>)
    requires part <= whole && e in whole && e !in part
    ensures |part| + 1 <= |whole|
  {
    Subset(part + {e}, whole);
  }

  /** When no record has more naive counterparts than the per-record cap and the run has no more naive pairs
      than the run cap, nothing is limited. */
  lemma RoomyCapsNeverTrip(input: Input, passes: seq<BlockingPass>, limits: Limits, gen: Generation)
    requires input.Valid() && Generated(input, passes, limits, gen) && Roomy(limits, NaiveEdges(input, passes))
    ensures gen.complete && gen.limited == {}
  {
    RetainedIsSubset(input, passes, limits, gen);
    forall k: nat | k < |gen.partitions|
      ensures !StoppedHere(gen.partitions[k])
    {
      if StoppedHere(gen.partitions[k]) {
        var e, reason := StoppedRefuses(input, passes, limits, gen.partitions[k], gen.edges);
        RoomForRefused(limits, NaiveEdges(input, passes), gen.edges, e, input.prohibited, reason);
      }
    }
    NothingTainted(gen);
  }

  /** A generation is complete exactly when it retained every pair the naive filter keeps: limits are never
      reported without a pair that was refused. */
  lemma CompleteIffNothingRefused(input: Input, passes: seq<BlockingPass>, limits: Limits, gen: Generation)
    requires input.Valid() && Generated(input, passes, limits, gen)
    ensures gen.complete <==> gen.edges.Keys == NaiveEdges(input, passes)
  {
    RetainedIsSubset(input, passes, limits, gen);
    if gen.complete {
      CompleteLimitsNobody(gen);
      forall e | e in NaiveEdges(input, passes)
        ensures e in gen.edges
      {
        NaiveIsRetained(input, passes, limits, gen, e);
      }
    } else {
      var k: nat :| Incomplete(gen.partitions, k);
      var j: nat :| j < |gen.partitions| && StoppedHere(gen.partitions[j]) &&
                    Linked(Sharing(gen.partitions), Positions(|gen.partitions|), j, k);
      var e, reason := StoppedRefuses(input, passes, limits, gen.partitions[j], gen.edges);
    }
  }

  lemma CompleteLimitsNobody(gen: Generation)
    requires LimitedAre(gen.partitions, gen.limited) && gen.complete
    requires gen.complete <==> forall k: nat :: !Incomplete(gen.partitions, k)
    ensures gen.limited == {}
  {
    forall x
      ensures x !in gen.limited
    {
    }
  }

  lemma NaiveIsRetained(input: Input, passes: seq<BlockingPass>, limits: Limits, gen: Generation, e: Edge)
    requires input.Valid() && Generated(input, passes, limits, gen) && gen.limited == {}
    requires e in NaiveEdges(input, passes)
    ensures e in gen.edges
  {
    var l, r :| l in input.lefts && r in input.rights && NaivePair(input, passes, l, r) && e == Edge(l.id, r.id);
    NaivePairIsRetained(input, passes, limits, gen, l, r);
  }

  lemma NaivePairIsRetained(input: Input, passes: seq<BlockingPass>, limits: Limits, gen: Generation, l: Record,
                            r: Record)
    requires input.Valid() && Generated(input, passes, limits, gen) && gen.limited == {}
    requires l in input.lefts && r in input.rights && NaivePair(input, passes, l, r)
    ensures Edge(l.id, r.id) in gen.edges
  {
    var why :| NaivelyKept(input, passes, l, r, why);
    UnlimitedIsNaive(input, passes, limits, gen, l, r, why);
  }

  lemma NothingTainted(gen: Generation)
    requires TaintClosure(gen.partitions) && LimitedAre(gen.partitions, gen.limited)
    requires gen.complete <==> forall k: nat :: !Incomplete(gen.partitions, k)
    requires forall k: nat :: k < |gen.partitions| ==> !StoppedHere(gen.partitions[k])
    ensures gen.complete && gen.limited == {}
  {
    forall k: nat
      ensures !Incomplete(gen.partitions, k)
    {
    }
    forall x
      ensures x !in gen.limited
    {
    }
  }

  /** The component caps leave room for the whole above-floor graph. */
  ghost predicate RoomyForComponents(limits: Limits, edges: set<Edge>) {
    |Lefts(edges)| + |Rights(edges)| <= limits.componentNodes && |edges| <= limits.componentEdges
  }

  lemma SidesWithin(part: set<Edge>, edges: set<Edge>)
    requires part <= edges
    ensures |part| <= |edges| && |Lefts(part)| <= |Lefts(edges)| && |Rights(part)| <= |Rights(edges)|
  {
    Subset(part, edges);
    Subset(Lefts(part), Lefts(edges));
    Subset(Rights(part), Rights(edges));
  }

  lemma RoomyIsSearchable(candidates: Candidates, limits: Limits, edges: set<Edge>, part: set<Edge>)
    requires part <= edges <= candidates.Keys && RoomyForComponents(limits, edges)
    requires forall e :: e in candidates ==> candidates[e].complete
    ensures Searchable(candidates, {}, limits, part)
  {
    SidesWithin(part, edges);
    SortedIdsAre(Lefts(part));
    SortedIdsAre(Rights(part));
    assert Narrow(candidates, part).Keys == part && |Narrow(candidates, part)| == |Narrow(candidates, part).Keys|;
  }

  lemma CandidatesAreComplete(pre: Preprocessed, policy: MatchingPolicy, gen: Generation, cands: Candidates)
    requires policy.Valid() && Generations(pre, policy, gen, cands) && gen.limited == {}
    ensures forall e :: e in cands ==> cands[e].complete
  {
    forall e | e in cands
      ensures cands[e].complete
    {
      var l, r := RecordsOfEdge(pre, gen, e);
      ScoredComplete(pre, policy, gen, cands, l, r);
    }
  }

  lemma EvidenceKeepsCompleteness(l: Record, r: Record, reasons: set<string>, complete: bool, policy: MatchingPolicy)
    requires policy.Valid()
    ensures EvidenceFor(l, r, reasons, complete, policy).complete == complete
  {
  }

  lemma ScoredComplete(pre: Preprocessed, policy: MatchingPolicy, gen: Generation, cands: Candidates, l: Record,
                       r: Record)
    requires policy.Valid() && ScoresOf(pre.remainingLeft, pre.remainingRight, gen, policy, cands)
    requires l in pre.remainingLeft && r in pre.remainingRight && Edge(l.id, r.id) in cands && gen.limited == {}
    ensures cands[Edge(l.id, r.id)].complete
  {
    EvidenceKeepsCompleteness(l, r, gen.edges[Edge(l.id, r.id)], l.id !in gen.limited && r.id !in gen.limited, policy);
  }

  lemma RoomyComponent(c: Component, part: set<Edge>, candidates: Candidates, limited: set<Id>, policy: MatchingPolicy,
                       solver: Solver)
    requires ComponentFor(c, part, candidates, limited, policy, solver) && limited == {}
    requires RoomyForComponents(policy.limits, Eligible(candidates, policy.floor).Keys)
    requires forall e :: e in candidates ==> candidates[e].complete
    ensures c.Complete()
  {
    RoomyIsSearchable(candidates, policy.limits, Eligible(candidates, policy.floor).Keys, part);
    CompleteIffSearchable(c, part, candidates, limited, policy, solver);
  }

  lemma RoomyIsComplete(components: seq<Component>, candidates: Candidates, limited: set<Id>, policy: MatchingPolicy,
                        solver: Solver, k: nat)
    requires AllComponentsFor(components, InsideAll(Eligible(candidates, policy.floor).Keys, components), candidates,
                              limited, policy, solver)
    requires RoomyForComponents(policy.limits, Eligible(candidates, policy.floor).Keys)
    requires k < |components| && limited == {} && forall e :: e in candidates ==> candidates[e].complete
    ensures components[k].Complete()
  {
    var edges := Eligible(candidates, policy.floor).Keys;
    AsComponent(edges, components, k, candidates, limited, policy, solver);
    RoomyComponent(components[k], Inside(edges, components[k]), candidates, limited, policy, solver);
  }

  lemma RoomyAllComplete(components: seq<Component>, candidates: Candidates, limited: set<Id>, policy: MatchingPolicy,
                         solver: Solver)
    requires AllComponentsFor(components, InsideAll(Eligible(candidates, policy.floor).Keys, components), candidates,
                              limited, policy, solver)
    requires RoomyForComponents(policy.limits, Eligible(candidates, policy.floor).Keys)
    requires limited == {} && forall e :: e in candidates ==> candidates[e].complete
    ensures AllComplete(components)
  {
    forall k | 0 <= k < |components|
      ensures components[k].Complete()
    {
      RoomyIsComplete(components, candidates, limited, policy, solver, k);
    }
  }

  /** Caps that merely suffice make an unbounded reconciliation, the one the theorems above compare with: no
      record has more naive counterparts than the per-record cap, the run no more naive pairs than the run cap,
      and the above-floor graph no more endpoints and edges than the component caps. */
  lemma RoomyRunIsUnbounded(run: Run)
    requires run.Staged() && Roomy(run.policy.limits, NaiveEdges(InputOf(run.pre), run.policy.passes))
    requires RoomyForComponents(run.policy.limits, Eligible(run.cands, run.policy.floor).Keys)
    ensures Unbounded(run)
  {
    RunGenerations(run);
    RoomyCapsNeverTrip(InputOf(run.pre), run.policy.passes, run.policy.limits, run.gen);
    CandidatesAreComplete(run.pre, run.policy, run.gen, run.cands);
    RoomyAllComplete(run.a.components, run.cands, run.gen.limited, run.policy, run.solver);
  }

  // ----- the solver's tie-breaking does not matter -----

  ghost predicate SameButSolver(a: Run, b: Run) {
    a.s == b.s && a.d == b.d && a.policy == b.policy
  }

  lemma SameRecordSets(a: Preprocessed, b: Preprocessed)
    requires SamePreprocessing(a, b)
    ensures RecordSet(a.remainingLeft) == RecordSet(b.remainingLeft)
    ensures RecordSet(a.remainingRight) == RecordSet(b.remainingRight)
  {
  }

  lemma RunGenerationIs(run: Run)
    requires run.Staged()
    ensures run.gen == GenerationFor(InputOf(run.pre), run.policy.passes, run.policy.limits)
  {
  }

  /** The order of the remaining records, all that preprocessing leaves open, has no part in the generation:
      edges, partitions and limited records are decided by the snapshot, the decisions and the policy. */
  lemma GenerationIsDetermined(a: Run, b: Run)
    requires a.Staged() && b.Staged() && SameButSolver(a, b)
    ensures SamePreprocessing(a.pre, b.pre) && a.gen == b.gen
  {
    PreprocessingIsDetermined(a.s, a.d, a.policy.contract, a.pre, b.pre);
    SameRecordSets(a.pre, b.pre);
    RunGenerationIs(a);
    RunGenerationIs(b);
  }

  lemma SameCandidate(a: Preprocessed, b: Preprocessed, policy: MatchingPolicy, g1: Generation, g2: Generation,
                      c1: Candidates, c2: Candidates, e: Edge)
    requires policy.Valid() && SamePreprocessing(a, b) && g1.edges == g2.edges && g1.limited == g2.limited
    requires EdgesHaveRecords(a.remainingLeft, a.remainingRight, g1) && e in g1.edges
    requires ScoresOf(a.remainingLeft, a.remainingRight, g1, policy, c1)
    requires ScoresOf(b.remainingLeft, b.remainingRight, g2, policy, c2)
    ensures e in c1 && e in c2 && c1[e] == c2[e]
  {
    var l, r := RecordsOfEdge(a, g1, e);
    ScoredSame(a, b, policy, g1, g2, c1, c2, l, r);
  }

  lemma MapsAlike(c1: Candidates, c2: Candidates)
    requires c1.Keys == c2.Keys && forall e :: e in c1 ==> c1[e] == c2[e]
    ensures c1 == c2
  {
  }

  lemma SameCandidates(a: Preprocessed, b: Preprocessed, policy: MatchingPolicy, g1: Generation, g2: Generation,
                       c1: Candidates, c2: Candidates)
    requires policy.Valid() && SamePreprocessing(a, b) && g1.edges == g2.edges && g1.limited == g2.limited
    requires EdgesHaveRecords(a.remainingLeft, a.remainingRight, g1)
    requires ScoresOf(a.remainingLeft, a.remainingRight, g1, policy, c1)
    requires ScoresOf(b.remainingLeft, b.remainingRight, g2, policy, c2)
    ensures c1 == c2
  {
    forall e | e in c1
      ensures c1[e] == c2[e]
    {
      SameCandidate(a, b, policy, g1, g2, c1, c2, e);
    }
    MapsAlike(c1, c2);
  }

  lemma ScoredSame(a: Preprocessed, b: Preprocessed, policy: MatchingPolicy, g1: Generation, g2: Generation,
                   c1: Candidates, c2: Candidates, l: Record, r: Record)
    requires policy.Valid() && g1.edges == g2.edges && g1.limited == g2.limited
    requires ScoresOf(a.remainingLeft, a.remainingRight, g1, policy, c1)
    requires ScoresOf(b.remainingLeft, b.remainingRight, g2, policy, c2)
    requires l in a.remainingLeft && l in b.remainingLeft && r in a.remainingRight && r in b.remainingRight
    requires Edge(l.id, r.id) in g1.edges
    ensures c1[Edge(l.id, r.id)] == c2[Edge(l.id, r.id)]
  {
  }

  lemma CandidatesAreSame(a: Run, b: Run)
    requires a.Staged() && b.Staged() && SameButSolver(a, b)
    ensures SamePreprocessing(a.pre, b.pre) && a.gen == b.gen && a.cands == b.cands
  {
    GenerationIsDetermined(a, b);
    RunGenerations(a);
    RunGenerations(b);
    SameCandidates(a.pre, b.pre, a.policy, a.gen, b.gen, a.cands, b.cands);
  }

  lemma StageLimited(r: Stages)
    requires r.Valid()
    ensures forall x :: x in r.a.limited <==> x in r.limited || Starved(r.candidates, r.limited, r.policy, x)
  {
    forall x
      ensures x in r.a.limited <==> x in r.limited || Starved(r.candidates, r.limited, r.policy, x)
    {
      LimitedIffStarved(r.candidates, r.limited, r.policy, r.solver, r.a, x);
    }
  }

  lemma SameLimited(r1: Stages, r2: Stages)
    requires r1.Valid() && r2.Valid() && r1.candidates == r2.candidates && r1.limited == r2.limited
    requires r1.policy == r2.policy
    ensures r1.a.limited == r2.a.limited
  {
    StageLimited(r1);
    StageLimited(r2);
  }

  ghost predicate SameAccepted(a: GatedResult, b: GatedResult) {
    forall p :: p in a.accepted <==> p in b.accepted
  }

  lemma SolversAcceptAlike(r1: Stages, r2: Stages)
    requires r1.Valid() && r2.Valid() && r1.candidates == r2.candidates && r1.limited == r2.limited
    requires r1.policy == r2.policy
    requires 1 <= r1.policy.minimumGap
    ensures SameAccepted(r1.g, r2.g)
  {
    AcceptanceIsSolverIndependent(r1.candidates, r1.limited, r1.policy, r1.solver, r1.a, r1.g, r2.solver, r2.a, r2.g);
  }

  lemma PairsAlike(a: Run, b: Run, p: Pair)
    requires a.Concluded() && b.Concluded() && SamePreprocessing(a.pre, b.pre) && SameAccepted(a.g, b.g)
    ensures p in a.pairs <==> p in b.pairs
  {
    RunPairs(a, p);
    RunPairs(b, p);
  }

  lemma OutcomesAlike(a: Run, b: Run, x: Id)
    requires a.Concluded() && b.Concluded() && SamePreprocessing(a.pre, b.pre) && a.policy == b.policy
    requires a.cands == b.cands && a.a.limited == b.a.limited
    requires forall p :: p in a.pairs <==> p in b.pairs
    ensures Lookup(a.unpaired, x) == Lookup(b.unpaired, x)
  {
    PairedMeans(a.pairs, x);
    PairedMeans(b.pairs, x);
    SameIds(a.pre.remainingLeft, b.pre.remainingLeft);
    SameIds(a.pre.remainingRight, b.pre.remainingRight);
  }

  /** What the result says, up to the order of its lists. */
  ghost predicate SameResult(a: Run, b: Run) {
    && a.cands == b.cands && a.a.limited == b.a.limited
    && (forall p :: p in a.pairs <==> p in b.pairs)
    && forall x :: Lookup(a.unpaired, x) == Lookup(b.unpaired, x)
  }

  lemma AcceptedAlikeSameResult(a: Run, b: Run)
    requires a.Concluded() && b.Concluded() && SamePreprocessing(a.pre, b.pre) && a.policy == b.policy
    requires a.cands == b.cands && a.a.limited == b.a.limited && SameAccepted(a.g, b.g)
    ensures SameResult(a, b)
  {
    forall p
      ensures p in a.pairs <==> p in b.pairs
    {
      PairsAlike(a, b, p);
    }
    forall x
      ensures Lookup(a.unpaired, x) == Lookup(b.unpaired, x)
    {
      OutcomesAlike(a, b, x);
    }
  }

  lemma StagesAreValid(run: Run)
    requires run.Staged()
    ensures StagesOf(run).Valid()
  {
  }

  /** With a minimum gap of at least one, two minimal solvers give the same reconciliation: the same
      pairs with the same scores and gaps, and the same explanation for every unpaired record. */
  lemma ReconciliationIsSolverIndependent(a: Run, b: Run)
    requires a.Valid() && b.Valid() && SameButSolver(a, b) && 1 <= a.policy.minimumGap
    ensures SameResult(a, b)
  {
    CandidatesAreSame(a, b);
    StagesAreValid(a);
    StagesAreValid(b);
    SolversAcceptAlike(StagesOf(a), StagesOf(b));
    SameLimited(StagesOf(a), StagesOf(b));
    AcceptedAlikeSameResult(a, b);
  }

  /** With one solver the frozen inputs decide the result, for every minimum gap, zero included. */
  lemma FrozenInputsDecideResult(a: Run, b: Run)
    requires a.Valid() && b.Valid() && SameButSolver(a, b) && a.solver == b.solver
    ensures SameResult(a, b)
  {
    CandidatesAreSame(a, b);
    StagesAreValid(a);
    StagesAreValid(b);
    forall p
      ensures p in a.g.accepted <==> p in b.g.accepted
    {
      if p in a.g.accepted {
        AcceptanceIsDetermined(StagesOf(a), StagesOf(b), p);
      }
      if p in b.g.accepted {
        AcceptanceIsDetermined(StagesOf(b), StagesOf(a), p);
      }
    }
    SameLimited(StagesOf(a), StagesOf(b));
    AcceptedAlikeSameResult(a, b);
  }
}
