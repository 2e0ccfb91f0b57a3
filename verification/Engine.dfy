/** Orchestration of a complete reconciliation: every input gets one terminal outcome. */
module Engine {
  import opened Matchings
  import opened Domain
  import opened Ordering
  import opened Blocking
  import opened Enumeration
  import opened CandidateGeneration
  import opened Scoring
  import opened References
  import opened ComponentSolver
  import opened Assignment
  import opened Gating

  // ----- scoring the retained edges -----

  function FindRecord(records: seq<Record>, x: Id): (found: Option<Record>)
    ensures found.Some? ==> found.value in records && found.value.id == x
    ensures found.None? ==> forall r :: r in records ==> r.id != x
  {
    if records == [] then None
    else if records[0].id == x then Some(records[0])
    else FindRecord(records[1..], x)
  }

  /** Every retained edge is scored once, on the records it names. */
  ghost predicate ScoresOf(left: seq<Record>, right: seq<Record>, gen: Generation, policy: MatchingPolicy,
                           cands: Candidates)
    requires policy.Valid()
  {
    && cands.Keys == gen.edges.Keys
    && forall l, r :: l in left && r in right && Edge(l.id, r.id) in cands ==>
         cands[Edge(l.id, r.id)] ==
         EvidenceFor(l, r, gen.edges[Edge(l.id, r.id)], l.id !in gen.limited && r.id !in gen.limited, policy)
  }

  ghost predicate EdgesHaveRecords(left: seq<Record>, right: seq<Record>, gen: Generation) {
    forall e :: e in gen.edges ==> e.left in Ids(left) && e.right in Ids(right) && gen.edges[e] != {}
  }

  ghost predicate ScoredEdge(left: seq<Record>, right: seq<Record>, gen: Generation, policy: MatchingPolicy, e: Edge,
                             evidence: Evidence)
    requires policy.Valid() && e in gen.edges
  {
    exists l, r :: l in left && r in right && e == Edge(l.id, r.id) &&
                   evidence == EvidenceFor(l, r, gen.edges[e], l.id !in gen.limited && r.id !in gen.limited, policy)
  }

  method ScoreEdge(left: seq<Record>, right: seq<Record>, gen: Generation, policy: MatchingPolicy,
                   e: Edge) returns (r: Result<Evidence>)
    requires policy.Valid() && e in gen.edges
    ensures r.Ok? ==> ScoredEdge(left, right, gen, policy, e, r.value)
    ensures r.Ok? ==> 0 <= r.value.score <= SCALE
    ensures EdgesHaveRecords(left, right, gen) ==> r.Ok?
  {
    var l, q := FindRecord(left, e.left), FindRecord(right, e.right);
    if l.None? || q.None? {
      return Err(UnknownCandidateRecord);
    }
    var complete := e.left !in gen.limited && e.right !in gen.limited;
    var evidence := ScoreCandidate(l.value, q.value, gen.edges[e], complete, policy);
    if gen.edges[e] != {} {
      ScoreIsValidAndClose(l.value, q.value, gen.edges[e], complete, policy);
    }
    if !EvidenceValid(evidence) {
      return Err(InvalidEvidence);
    }
    assert e == Edge(l.value.id, q.value.id);
    r := Ok(evidence);
  }

  ghost predicate AllScored(left: seq<Record>, right: seq<Record>, gen: Generation, policy: MatchingPolicy,
                            cands: Candidates)
    requires policy.Valid()
  {
    && cands.Keys <= gen.edges.Keys
    && forall e :: e in cands ==> ScoredEdge(left, right, gen, policy, e, cands[e]) && cands[e].score <= SCALE
  }

  lemma OneMoreScored(left: seq<Record>, right: seq<Record>, gen: Generation, policy: MatchingPolicy,
                      cands: Candidates, e: Edge, evidence: Evidence)
    requires policy.Valid() && AllScored(left, right, gen, policy, cands) && e in gen.edges
    requires ScoredEdge(left, right, gen, policy, e, evidence) && evidence.score <= SCALE
    ensures AllScored(left, right, gen, policy, cands[e := evidence])
  {
  }

  lemma SameById(records: seq<Record>, a: Record, b: Record)
    requires UniqueIds(records) && a in records && b in records && a.id == b.id
    ensures a == b
  {
  }

  lemma ScoredOnItsRecords(left: seq<Record>, right: seq<Record>, gen: Generation, policy: MatchingPolicy, l: Record,
                           q: Record, evidence: Evidence)
    requires policy.Valid() && UniqueIds(left) && UniqueIds(right) && l in left && q in right
    requires Edge(l.id, q.id) in gen.edges && ScoredEdge(left, right, gen, policy, Edge(l.id, q.id), evidence)
    ensures evidence ==
            EvidenceFor(l, q, gen.edges[Edge(l.id, q.id)], l.id !in gen.limited && q.id !in gen.limited, policy)
  {
    var e := Edge(l.id, q.id);
    var l2, q2 :| l2 in left && q2 in right && e == Edge(l2.id, q2.id) &&
                  evidence == EvidenceFor(l2, q2, gen.edges[e], l2.id !in gen.limited && q2.id !in gen.limited, policy);
    SameById(left, l, l2);
    SameById(right, q, q2);
  }

  lemma AllScoredMeans(left: seq<Record>, right: seq<Record>, gen: Generation, policy: MatchingPolicy,
                       cands: Candidates)
    requires policy.Valid() && UniqueIds(left) && UniqueIds(right)
    requires AllScored(left, right, gen, policy, cands) && cands.Keys == gen.edges.Keys
    ensures ScoresOf(left, right, gen, policy, cands)
  {
    forall l, q | l in left && q in right && Edge(l.id, q.id) in cands
      ensures cands[Edge(l.id, q.id)] ==
              EvidenceFor(l, q, gen.edges[Edge(l.id, q.id)], l.id !in gen.limited && q.id !in gen.limited, policy)
    {
      ScoredOnItsRecords(left, right, gen, policy, l, q, cands[Edge(l.id, q.id)]);
    }
  }

  method ScoreCandidates(left: seq<Record>, right: seq<Record>, gen: Generation,
                         policy: MatchingPolicy) returns (r: Result<Candidates>)
    requires policy.Valid() && UniqueIds(left) && UniqueIds(right)
    ensures r.Ok? ==> ScoresOf(left, right, gen, policy, r.value) && Scored(r.value)
    ensures EdgesHaveRecords(left, right, gen) ==> r.Ok?
  {
    var cands: Candidates := map[];
    var waiting := gen.edges.Keys;
    while waiting != {}
      invariant waiting <= gen.edges.Keys && cands.Keys == gen.edges.Keys - waiting
      invariant AllScored(left, right, gen, policy, cands)
      decreases waiting
    {
      var e :| e in waiting;
      var scored := ScoreEdge(left, right, gen, policy, e);
      if scored.Err? {
        return Err(scored.error);
      }
      OneMoreScored(left, right, gen, policy, cands, e, scored.value);
      cands := cands[e := scored.value];
      waiting := waiting - {e};
    }
    AllScoredMeans(left, right, gen, policy, cands);
    r := Ok(cands);
  }

  // ----- explanations -----

  function RelatedEdges(side: RecordSide, x: Id, cands: Candidates): set<Edge> {
    set e | e in cands && EndOf(side, e) == x
  }

  function ProhibitedEdgesOf(side: RecordSide, x: Id, prohibited: set<Edge>): set<Edge> {
    set e | e in prohibited && EndOf(side, e) == x
  }

  function OtherEnds(side: RecordSide, edges: set<Edge>): set<Id> {
    set e | e in edges :: EndOf(Other(side), e)
  }

  /** Why a record no earlier phase decided stays unpaired. */
  function Automatic(side: RecordSide, x: Id, cands: Candidates, prohibited: set<Edge>, limited: set<Id>,
                     floor: int): Unpaired {
    var related, rejected := RelatedEdges(side, x, cands), ProhibitedEdgesOf(side, x, prohibited);
    var ids := OtherEnds(side, related) + OtherEnds(side, rejected);
    if x in limited then Unpaired(side, ComputationLimited, ids)
    else if related == {} then
      if rejected != {} then Unpaired(side, Prohibited, ids) else Unpaired(side, NoCandidate, {})
    else if forall e :: e in related ==> cands[e].contradictions != {} then Unpaired(side, Prohibited, ids)
    else if forall e :: e in related ==> cands[e].score <= floor then Unpaired(side, BelowAssignmentFloor, ids)
    else Unpaired(side, Ambiguous, ids)
  }

  // ----- the result -----

  datatype DiagnosticKind = AcceptedUnmatchedCandidate | IncompleteSearch

  datatype Diagnostic = Diagnostic(kind: DiagnosticKind, record: Id, candidate: Option<Id>, currentPair: Option<Edge>, complete: bool) {
    predicate Valid() {
      && (kind.AcceptedUnmatchedCandidate? ==> candidate.Some?)
      && (kind.IncompleteSearch? ==> !complete)
      && (currentPair.Some? ==> candidate.Some?)
    }
  }

  datatype EngineResult = EngineResult(
    pairs: seq<Pair>, unpaired: Terminals, candidates: Candidates, components: seq<ComponentEvidence>,
    diagnostics: seq<Diagnostic>)

  function Weighted(accepted: seq<Proposal>): (pairs: seq<Pair>)
    ensures |pairs| == |accepted|
    ensures forall i :: 0 <= i < |pairs| ==>
              pairs[i] == Pair(accepted[i].edge, WeightedGlobal, Some(accepted[i].score), Some(accepted[i].gap))
  {
    seq(|accepted|, i requires 0 <= i < |accepted| =>
      Pair(accepted[i].edge, WeightedGlobal, Some(accepted[i].score), Some(accepted[i].gap)))
  }

  predicate PairValid(p: Pair) {
    if p.origin.WeightedGlobal? then p.score.Some? && p.gap.Some? && 0 <= p.score.value <= SCALE && 0 <= p.gap.value
    else p.score.None? && p.gap.None?
  }

  predicate OneOutcomeEach(side: RecordSide, inputs: seq<Record>, pairs: seq<Pair>, unpaired: Terminals) {
    && PairedIds(side, pairs) !! TerminalIds(side, unpaired)
    && PairedIds(side, pairs) + TerminalIds(side, unpaired) == Ids(inputs)
  }

  predicate AcceptedAs(components: seq<ComponentEvidence>, p: Pair) {
    exists c :: c in components && AcceptedIn(c.proposals, p)
  }

  predicate AcceptedIn(proposals: seq<Proposal>, p: Pair) {
    exists q :: q in proposals && q.accepted && p == Pair(q.edge, WeightedGlobal, Some(q.score), Some(q.gap))
  }

  predicate WeightedMatchAccepted(pairs: seq<Pair>, components: seq<ComponentEvidence>) {
    && (forall p :: p in pairs && p.origin.WeightedGlobal? ==> AcceptedAs(components, p))
    && (forall c :: c in components ==> forall q :: q in c.proposals && q.accepted ==>
          Pair(q.edge, WeightedGlobal, Some(q.score), Some(q.gap)) in pairs)
  }

  predicate ComponentFits(s: Snapshot, cands: Candidates, c: ComponentEvidence) {
    && (forall x :: x in c.component.lefts ==> x in Ids(s.left))
    && (forall x :: x in c.component.rights ==> x in Ids(s.right))
    && forall q :: q in c.proposals ==> q.edge in cands && cands[q.edge].score == q.score
  }

  /** The checks the result constructor makes, apart from diagnostics. */
  predicate PrimaryValid(s: Snapshot, result: EngineResult) {
    && PairsOneToOne(result.pairs)
    && (forall p :: p in result.pairs ==> PairValid(p))
    && OneOutcomeEach(LeftSide, s.left, result.pairs, result.unpaired)
    && OneOutcomeEach(RightSide, s.right, result.pairs, result.unpaired)
    && (forall e :: e in result.candidates ==> e.left in Ids(s.left) && e.right in Ids(s.right))
    && (forall i, j :: 0 <= i < j < |result.components| ==> result.components[i].component.id != result.components[j].component.id)
    && (forall c :: c in result.components ==> ComponentFits(s, result.candidates, c))
    && WeightedMatchAccepted(result.pairs, result.components)
  }

  predicate DiagnosticsValid(s: Snapshot, result: EngineResult) {
    && (forall d :: d in result.diagnostics ==>
          && d.Valid()
          && d.record in Ids(s.left) + Ids(s.right)
          && (d.candidate.Some? ==> d.candidate.value in Ids(s.left) + Ids(s.right))
          && (d.currentPair.Some? ==> exists p :: p in result.pairs && p.edge == d.currentPair.value))
    && (forall i, j :: 0 <= i < j < |result.diagnostics| ==>
          !(&& result.diagnostics[i].record == result.diagnostics[j].record
            && result.diagnostics[i].candidate == result.diagnostics[j].candidate
            && result.diagnostics[i].kind == result.diagnostics[j].kind))
  }

  // ----- one run through the stages -----

  /** The inputs of a reconciliation and what each stage made of them. */
  datatype Run = Run(
    s: Snapshot, d: Decisions, policy: MatchingPolicy, solver: Solver,
    pre: Preprocessed, gen: Generation, cands: Candidates, a: Assignment, g: GatedResult,
    pairs: seq<Pair>, unpaired: Terminals)
  {
    function Input(): Input {
      CandidateGeneration.Input(pre.remainingLeft, pre.remainingRight, pre.prohibited)
    }

    /** What the engine demands of its inputs and of the solver. */
    ghost predicate WellFormed() {
      && s.Valid() && d.Valid() && policy.Valid() && DistinctReasons(policy.passes)
      && MinimalSolver(solver) && solver.version == policy.solverVersion
    }

    ghost predicate Staged() {
      && WellFormed() && Oriented(s, d)
      && Prepared(s, d, policy, pre, gen, cands)
      && Assigned(cands, gen.limited, policy, solver, a)
      && Gated(cands, a, policy, solver, g)
    }

    ghost predicate Concluded() {
      && pairs == pre.pairs + Weighted(g.accepted)
      && UnpairedAre(pre, cands, a.limited, policy.floor, PairedIds(LeftSide, pairs) + PairedIds(RightSide, pairs),
                     unpaired)
    }

    ghost predicate Valid() {
      Staged() && Concluded()
    }

    function Result(diagnostics: seq<Diagnostic>): EngineResult {
      EngineResult(pairs, unpaired, cands, g.components, diagnostics)
    }
  }

  function Remains(side: RecordSide, pre: Preprocessed): seq<Record> {
    if side.LeftSide? then pre.remainingLeft else pre.remainingRight
  }

  /** Earlier outcomes are kept, and every remaining unpaired record gets its explanation. */
  ghost predicate UnpairedAre(pre: Preprocessed, cands: Candidates, limited: set<Id>, floor: int, paired: set<Id>,
                              unpaired: Terminals) {
    forall x :: Lookup(unpaired, x) ==
      if x in Ids(pre.remainingLeft) && x !in paired then Some(Automatic(LeftSide, x, cands, pre.prohibited, limited, floor))
      else if x in Ids(pre.remainingRight) && x !in paired then Some(Automatic(RightSide, x, cands, pre.prohibited, limited, floor))
      else Lookup(pre.terminal, x)
  }

  method Explain(side: RecordSide, records: seq<Record>, pre: Preprocessed, cands: Candidates, limited: set<Id>,
                 floor: int,
                 paired: set<Id>, before: Terminals) returns (unpaired: Terminals)
    ensures forall x :: Lookup(unpaired, x) ==
              if x in Ids(records) && x !in paired then Some(Automatic(side, x, cands, pre.prohibited, limited, floor))
              else Lookup(before, x)
  {
    unpaired := before;
    for i := 0 to |records|
      invariant forall x :: Lookup(unpaired, x) ==
                  if x in Ids(records[..i]) && x !in paired then Some(Automatic(side, x, cands, pre.prohibited, limited, floor))
                  else Lookup(before, x)
    {
      IdsGrow(records[..i], records[i]);
      assert records[..i + 1] == records[..i] + [records[i]];
      var x := records[i].id;
      if x !in paired {
        unpaired := unpaired[x := Automatic(side, x, cands, pre.prohibited, limited, floor)];
      }
    }
    assert records[..|records|] == records;
  }

  lemma IdsGrow(records: seq<Record>, r: Record)
    ensures Ids(records + [r]) == Ids(records) + {r.id}
  {
    assert r in records + [r];
    forall x | x in Ids(records)
      ensures x in Ids(records + [r])
    {
      var q :| q in records && q.id == x;
      assert q in records + [r];
    }
  }

  // ----- no stage can fail -----

  lemma RemainingInput(s: Snapshot, d: Decisions, contract: ReferenceContract, pre: Preprocessed)
    requires s.Valid() && Preprocesses(s, d, contract, pre)
    ensures Input(pre.remainingLeft, pre.remainingRight, pre.prohibited).Valid()
    ensures Ids(pre.remainingLeft) <= Ids(s.left) && Ids(pre.remainingRight) <= Ids(s.right)
  {
  }

  lemma RetainedHaveRecords(input: Input, passes: seq<BlockingPass>, limits: Limits, gen: Generation)
    requires Generated(input, passes, limits, gen)
    ensures EdgesHaveRecords(input.lefts, input.rights, gen)
  {
    forall e | e in gen.edges
      ensures e.left in Ids(input.lefts) && e.right in Ids(input.rights) && gen.edges[e] != {}
    {
      var why :| why in gen.edges[e];
      assert Has(gen.edges, e, why) && Justified(e, why, PassSet(passes), input);
    }
  }

  lemma AcceptedAreCandidates(candidates: Candidates, a: Assignment, policy: MatchingPolicy, solver: Solver,
                              g: GatedResult, p: Proposal)
    requires Gated(candidates, a, policy, solver, g) && p in g.proposals
    ensures p.edge in candidates && p.score == candidates[p.edge].score && 0 <= p.score <= SCALE && 0 <= p.gap
  {
    FlattenProposalMembers(g.components);
    assert ProposedSomewhere(g.components, p);
    var k :| 0 <= k < |g.components| && p in g.components[k].proposals;
    var i :| 0 <= i < |g.components[k].proposals| && g.components[k].proposals[i] == p;
    assert EvidenceOf(g.components[k], a.components[k], candidates, policy, solver);
    assert ProposalFor(p, a.components[k].selected[i], candidates, a.components[k], policy, solver);
  }

  /** Everything before assignment: reservations, candidates, scores. */
  ghost predicate Prepared(s: Snapshot, d: Decisions, policy: MatchingPolicy, pre: Preprocessed, gen: Generation,
                           cands: Candidates)
    requires policy.Valid()
  {
    && Preprocesses(s, d, policy.contract, pre)
    && Generated(Input(pre.remainingLeft, pre.remainingRight, pre.prohibited), policy.passes, policy.limits, gen)
    && gen == GenerationFor(Input(pre.remainingLeft, pre.remainingRight, pre.prohibited), policy.passes, policy.limits)
    && ScoresOf(pre.remainingLeft, pre.remainingRight, gen, policy, cands) && Scored(cands)
  }

  method Prepare(s: Snapshot, d: Decisions, policy: MatchingPolicy)
    returns (r: Result<(Preprocessed, Generation, Candidates)>)
    requires s.Valid() && d.Valid() && policy.Valid()
    ensures r.Ok? ==> Oriented(s, d) && Prepared(s, d, policy, r.value.0, r.value.1, r.value.2)
    ensures !Oriented(s, d) ==> r == Err(WrongOrientation)
    ensures Oriented(s, d) && DistinctReasons(policy.passes) ==> r.Ok?
  {
    var preprocessed := PreprocessReferences(s, d, policy.contract);
    if preprocessed.Err? {
      return Err(preprocessed.error);
    }
    var pre := preprocessed.value;
    RemainingInput(s, d, policy.contract, pre);
    var input := Input(pre.remainingLeft, pre.remainingRight, pre.prohibited);
    var generated := GenerateCandidates(input, policy.passes, policy.limits);
    if generated.Err? {
      return Err(generated.error);
    }
    var gen := generated.value;
    RetainedHaveRecords(input, policy.passes, policy.limits, gen);
    // Every retained edge names remaining records, so scoring cannot fail here.
    var scored := ScoreCandidates(pre.remainingLeft, pre.remainingRight, gen, policy);
    r := Ok((pre, gen, scored.value));
  }

  method Allocate(cands: Candidates, gen: Generation, policy: MatchingPolicy, solver: Solver)
    returns (r: Result<(Assignment, GatedResult)>)
    requires cands.Keys == gen.edges.Keys && Scored(cands)
    ensures r.Ok? ==> Assigned(cands, gen.limited, policy, solver, r.value.0) && Gated(cands, r.value.0, policy, solver, r.value.1)
    ensures r.Ok? ==> solver.version == policy.solverVersion
    ensures solver.version != policy.solverVersion ==> r == Err(SolverVersionMismatch)
    ensures MinimalSolver(solver) && solver.version == policy.solverVersion ==> r.Ok?
  {
    var solved := SolveAssignment(cands, gen.edges.Keys, gen.limited, policy, solver);
    if solved.Err? {
      return Err(solved.error);
    }
    var gated := GateAssignment(cands, solved.value, policy, solver, gen.limited);
    if gated.Err? {
      return Err(gated.error);
    }
    r := Ok((solved.value, gated.value));
  }

  method Conclude(pre: Preprocessed, accepted: seq<Proposal>, cands: Candidates, limited: set<Id>, floor: int)
    returns (pairs: seq<Pair>, unpaired: Terminals)
    ensures pairs == pre.pairs + Weighted(accepted)
    ensures UnpairedAre(pre, cands, limited, floor, PairedIds(LeftSide, pairs) + PairedIds(RightSide, pairs), unpaired)
  {
    pairs := pre.pairs;
    for i := 0 to |accepted|
      invariant pairs == pre.pairs + Weighted(accepted)[..i]
    {
      var p := accepted[i];
      pairs := pairs + [Pair(p.edge, WeightedGlobal, Some(p.score), Some(p.gap))];
    }
    var paired := PairedIds(LeftSide, pairs) + PairedIds(RightSide, pairs);
    var explained := Explain(RightSide, pre.remainingRight, pre, cands, limited, floor, paired, pre.terminal);
    unpaired := Explain(LeftSide, pre.remainingLeft, pre, cands, limited, floor, paired, explained);
  }

  /** For a minimal solver and a policy whose passes can be told apart, the engine answers exactly when
      the reviewer's relationships face the right way and the solver is the one the policy names; no other
      check of any stage can fail. */
  method ReconcilePrimary(s: Snapshot, d: Decisions, policy: MatchingPolicy, solver: Solver)
    returns (r: Result<EngineResult>, ghost run: Run)
    requires s.Valid() && d.Valid() && policy.Valid()
    ensures !Oriented(s, d) ==> r == Err(WrongOrientation)
    ensures (MinimalSolver(solver) && DistinctReasons(policy.passes)) ==>
              (r.Ok? <==> Oriented(s, d) && solver.version == policy.solverVersion)
    ensures (r.Ok? && MinimalSolver(solver) && DistinctReasons(policy.passes)) ==>
              Runs(run, s, d, policy, solver) && r.value == run.Result([])
    ensures r.Ok? ==> PrimaryValid(s, r.value)
  {
    run := Run(s, d, policy, solver, Preprocessed([], map[], [], [], {}, map[]), Generation(map[], [], {}, true), map[],
               Assignment([], [], {}, {}), GatedResult([], [], []), [], map[]);
    var prepared := Prepare(s, d, policy);
    if prepared.Err? {
      return Err(prepared.error), run;
    }
    var (pre, gen, cands) := prepared.value;
    var solved := Allocate(cands, gen, policy, solver);
    if solved.Err? {
      return Err(solved.error), run;
    }
    var (a, g) := solved.value;
    var pairs, unpaired := Conclude(pre, g.accepted, cands, a.limited, policy.floor);
    run := Run(s, d, policy, solver, pre, gen, cands, a, g, pairs, unpaired);
    var result := EngineResult(pairs, unpaired, cands, g.components, []);
    if MinimalSolver(solver) && DistinctReasons(policy.passes) {
      RunIsPrimaryValid(run);
    }
    if !PrimaryValid(s, result) {
      return Err(InvalidEngineResult), run;
    }
    r := Ok(result);
  }

  ghost predicate Runs(run: Run, s: Snapshot, d: Decisions, policy: MatchingPolicy, solver: Solver) {
    run.s == s && run.d == d && run.policy == policy && run.solver == solver && run.Valid()
  }

  // ----- conservation -----

  /** Weighted pairs join records the earlier phases left over. */
  ghost predicate JoinsRemaining(pre: Preprocessed, weighted: seq<Pair>) {
    forall p :: p in weighted ==> p.edge.left in Ids(pre.remainingLeft) && p.edge.right in Ids(pre.remainingRight)
  }

  lemma SideOutcome(side: RecordSide, s: Snapshot, pre: Preprocessed, weighted: seq<Pair>, cands: Candidates,
                    limited: set<Id>, floor: int, unpaired: Terminals)
    requires s.Valid() && PreprocessedValid(s, pre) && JoinsRemaining(pre, weighted)
    requires var pairs := pre.pairs + weighted;
             UnpairedAre(pre, cands, limited, floor, PairedIds(LeftSide, pairs) + PairedIds(RightSide, pairs), unpaired)
    ensures OneOutcomeEach(side, MineOf(side, s), pre.pairs + weighted, unpaired)
  {
    var pairs := pre.pairs + weighted;
    PairedIdsJoin(LeftSide, pre.pairs, weighted);
    PairedIdsJoin(RightSide, pre.pairs, weighted);
    WeightedIdsRemain(LeftSide, pre, weighted);
    WeightedIdsRemain(RightSide, pre, weighted);
    forall x
      ensures x in TerminalIds(side, unpaired) <==>
              x in TerminalIds(side, pre.terminal) || (x in Ids(Remains(side, pre)) && x !in PairedIds(side, pairs))
    {
      TerminalOrOpen(side, s, pre, pairs, cands, limited, floor, unpaired, x);
    }
    OutcomesCover(PairedIds(side, pre.pairs), PairedIds(side, weighted), TerminalIds(side, pre.terminal),
                  Ids(Remains(side, pre)), TerminalIds(side, unpaired), Ids(MineOf(side, s)));
  }

  lemma WeightedIdsRemain(side: RecordSide, pre: Preprocessed, weighted: seq<Pair>)
    requires JoinsRemaining(pre, weighted)
    ensures PairedIds(side, weighted) <= Ids(Remains(side, pre))
  {
  }

  /** Where every input was paired, ended or left over, pairing and ending the rest covers the inputs once. */
  lemma OutcomesCover(paired: set<Id>, weighted: set<Id>, ended: set<Id>, rest: set<Id>, unpaired: set<Id>,
                      inputs: set<Id>)
    requires paired + ended + rest == inputs && paired !! ended && paired !! rest && ended !! rest && weighted <= rest
    requires forall x :: x in unpaired <==> x in ended || (x in rest && x !in paired + weighted)
    ensures (paired + weighted) !! unpaired && paired + weighted + unpaired == inputs
  {
  }

  lemma TerminalOrOpen(side: RecordSide, s: Snapshot, pre: Preprocessed, pairs: seq<Pair>, cands: Candidates,
                       limited: set<Id>, floor: int, unpaired: Terminals, x: Id)
    requires s.Valid() && PreprocessedValid(s, pre)
    requires UnpairedAre(pre, cands, limited, floor, PairedIds(LeftSide, pairs) + PairedIds(RightSide, pairs), unpaired)
    requires PairedIds(LeftSide, pairs) <= Ids(s.left) && PairedIds(RightSide, pairs) <= Ids(s.right)
    ensures x in TerminalIds(side, unpaired) <==>
            x in TerminalIds(side, pre.terminal) || (x in Ids(Remains(side, pre)) && x !in PairedIds(side, pairs))
  {
    assert Lookup(unpaired, x).Some? <==> x in unpaired;
    assert Lookup(pre.terminal, x).Some? <==> x in pre.terminal;
    assert x in pre.terminal ==> x in TerminalIds(LeftSide, pre.terminal) || x in TerminalIds(RightSide, pre.terminal);
  }

  lemma PairedIdsJoin(side: RecordSide, a: seq<Pair>, b: seq<Pair>)
    ensures PairedIds(side, a + b) == PairedIds(side, a) + PairedIds(side, b)
  {
    forall x | x in PairedIds(side, a) + PairedIds(side, b)
      ensures x in PairedIds(side, a + b)
    {
      var p :| (p in a || p in b) && EndOf(side, p.edge) == x;
      assert p in a + b;
    }
  }

  lemma PairsStayOneToOne(s: Snapshot, pre: Preprocessed, accepted: seq<Proposal>)
    requires PreprocessedValid(s, pre) && OneToOneProposals(accepted) && JoinsRemaining(pre, Weighted(accepted))
    ensures PairsOneToOne(pre.pairs + Weighted(accepted))
  {
    var weighted := Weighted(accepted);
    var all := pre.pairs + weighted;
    forall i, j | 0 <= i < j < |all|
      ensures !Touch(all[i].edge, all[j].edge)
    {
      if i < |pre.pairs| <= j {
        assert all[j] in weighted && all[i] in pre.pairs;
        assert EndOf(LeftSide, all[i].edge) in PairedIds(LeftSide, pre.pairs);
        assert EndOf(RightSide, all[i].edge) in PairedIds(RightSide, pre.pairs);
      } else if i >= |pre.pairs| {
        assert !Touch(accepted[i - |pre.pairs|].edge, accepted[j - |pre.pairs|].edge);
      }
    }
  }

  // ----- the result constructor's checks hold -----

  lemma CandidatesHaveRecords(run: Run)
    requires run.Staged()
    ensures forall e :: e in run.cands ==> e.left in Ids(run.pre.remainingLeft) && e.right in Ids(run.pre.remainingRight)
    ensures Ids(run.pre.remainingLeft) <= Ids(run.s.left) && Ids(run.pre.remainingRight) <= Ids(run.s.right)
  {
    RemainingInput(run.s, run.d, run.policy.contract, run.pre);
    RetainedHaveRecords(run.Input(), run.policy.passes, run.policy.limits, run.gen);
  }

  ghost predicate ProposalsInRange(cands: Candidates, proposals: seq<Proposal>) {
    forall p :: p in proposals ==>
      p.edge in cands && p.score == cands[p.edge].score && 0 <= p.score <= SCALE && 0 <= p.gap
  }

  lemma AcceptedInRange(cands: Candidates, a: Assignment, policy: MatchingPolicy, solver: Solver, g: GatedResult)
    requires Gated(cands, a, policy, solver, g)
    ensures ProposalsInRange(cands, g.proposals) && ProposalsInRange(cands, g.accepted)
  {
    forall p | p in g.proposals
      ensures p.edge in cands && p.score == cands[p.edge].score && 0 <= p.score <= SCALE && 0 <= p.gap
    {
      AcceptedAreCandidates(cands, a, policy, solver, g, p);
    }
  }

  lemma WeightedMembers(accepted: seq<Proposal>, p: Pair)
    ensures p in Weighted(accepted) <==> AcceptedAmong(accepted, p)
  {
    if p in Weighted(accepted) {
      var i :| 0 <= i < |accepted| && Weighted(accepted)[i] == p;
      assert accepted[i] in accepted;
    }
    if AcceptedAmong(accepted, p) {
      var q :| q in accepted && p == Pair(q.edge, WeightedGlobal, Some(q.score), Some(q.gap));
      var i :| 0 <= i < |accepted| && accepted[i] == q;
      assert Weighted(accepted)[i] == p;
    }
  }

  ghost predicate AcceptedAmong(accepted: seq<Proposal>, p: Pair) {
    exists q :: q in accepted && p == Pair(q.edge, WeightedGlobal, Some(q.score), Some(q.gap))
  }

  /** Weighted pairs are exactly the accepted proposals of the components. */
  lemma WeightedAreAccepted(prior: seq<Pair>, g: GatedResult)
    requires GatedValid(g) && forall p :: p in prior ==> !p.origin.WeightedGlobal?
    ensures WeightedMatchAccepted(prior + Weighted(g.accepted), g.components)
  {
    FlattenProposalMembers(g.components);
    var pairs := prior + Weighted(g.accepted);
    forall p | p in pairs && p.origin.WeightedGlobal?
      ensures AcceptedAs(g.components, p)
    {
      WeightedMembers(g.accepted, p);
      var q :| q in g.accepted && p == Pair(q.edge, WeightedGlobal, Some(q.score), Some(q.gap));
      assert ProposedSomewhere(g.components, q);
      var k :| 0 <= k < |g.components| && q in g.components[k].proposals;
      assert AcceptedIn(g.components[k].proposals, p);
    }
    forall c | c in g.components
      ensures forall q :: q in c.proposals && q.accepted ==> Pair(q.edge, WeightedGlobal, Some(q.score), Some(q.gap)) in pairs
    {
      forall q | q in c.proposals && q.accepted
        ensures Pair(q.edge, WeightedGlobal, Some(q.score), Some(q.gap)) in pairs
      {
        assert ProposedSomewhere(g.components, q);
        assert q in g.accepted;
        WeightedMembers(g.accepted, Pair(q.edge, WeightedGlobal, Some(q.score), Some(q.gap)));
      }
    }
  }

  ghost predicate EndsAreCandidates(cands: Candidates, c: Component) {
    && (forall x :: x in c.lefts ==> exists e :: e in cands && e.left == x)
    && (forall x :: x in c.rights ==> exists e :: e in cands && e.right == x)
  }

  lemma AllEndsAreCandidates(cands: Candidates, limited: set<Id>, policy: MatchingPolicy, solver: Solver,
                             components: seq<Component>, classes: seq<set<Edge>>)
    requires AllComponentsFor(components, classes, cands, limited, policy, solver)
    ensures forall k :: 0 <= k < |components| ==> EndsAreCandidates(cands, components[k])
  {
    forall k | 0 <= k < |components|
      ensures EndsAreCandidates(cands, components[k])
    {
      ComponentEnds(components[k], classes[k], cands, limited, policy, solver);
    }
  }

  lemma SameComponents(cands: Candidates, policy: MatchingPolicy, solver: Solver, solved: seq<Component>,
                       gated: seq<ComponentEvidence>)
    requires EvidenceOfAll(gated, solved, cands, policy, solver)
    ensures |gated| == |solved| && forall k :: 0 <= k < |gated| ==> gated[k].component == solved[k]
  {
    forall k | 0 <= k < |gated|
      ensures gated[k].component == solved[k]
    {
      assert EvidenceOf(gated[k], solved[k], cands, policy, solver);
    }
  }

  ghost predicate GatedSummary(cands: Candidates, g: GatedResult) {
    && GatedValid(g) && ProposalsInRange(cands, g.proposals)
    && forall c :: c in g.components ==> EndsAreCandidates(cands, c.component)
  }

  lemma Summarize(cands: Candidates, limited: set<Id>, policy: MatchingPolicy, solver: Solver, a: Assignment,
                  g: GatedResult)
    requires Assigned(cands, limited, policy, solver, a) && Gated(cands, a, policy, solver, g)
    ensures GatedSummary(cands, g)
  {
    AcceptedInRange(cands, a, policy, solver, g);
    AllEndsAreCandidates(cands, limited, policy, solver, a.components,
                         InsideAll(Eligible(cands, policy.floor).Keys, a.components));
    SameComponents(cands, policy, solver, a.components, g.components);
  }

  lemma ComponentsFit(s: Snapshot, cands: Candidates, g: GatedResult)
    requires GatedSummary(cands, g)
    requires forall e :: e in cands ==> e.left in Ids(s.left) && e.right in Ids(s.right)
    ensures forall c :: c in g.components ==> ComponentFits(s, cands, c)
  {
    forall c | c in g.components
      ensures ComponentFits(s, cands, c)
    {
      var k :| 0 <= k < |g.components| && g.components[k] == c;
      FitsByEnds(s, cands, g.components, k);
    }
  }

  lemma FitsByEnds(s: Snapshot, cands: Candidates, components: seq<ComponentEvidence>, k: nat)
    requires k < |components| && forall e :: e in cands ==> e.left in Ids(s.left) && e.right in Ids(s.right)
    requires EndsAreCandidates(cands, components[k].component)
    requires ProposalsInRange(cands, FlattenProposals(components))
    ensures ComponentFits(s, cands, components[k])
  {
    FlattenProposalMembers(components);
    forall q | q in components[k].proposals
      ensures q.edge in cands && cands[q.edge].score == q.score
    {
      assert ProposedSomewhere(components, q);
    }
  }

  lemma ComponentEnds(c: Component, edges: set<Edge>, cands: Candidates, limited: set<Id>, policy: MatchingPolicy,
                      solver: Solver)
    requires ComponentFor(c, edges, cands, limited, policy, solver)
    ensures EndsAreCandidates(cands, c)
  {
    SidesAre(edges);
    EndsFromSides(cands, c, edges);
  }

  lemma EndsFromSides(cands: Candidates, c: Component, edges: set<Edge>)
    requires edges <= cands.Keys
    requires (forall x :: x in c.lefts ==> x in Lefts(edges)) && forall x :: x in c.rights ==> x in Rights(edges)
    ensures EndsAreCandidates(cands, c)
  {
    forall x | x in c.lefts
      ensures exists e :: e in cands && e.left == x
    {
      var e :| e in edges && e.left == x;
      assert e in cands;
    }
    forall x | x in c.rights
      ensures exists e :: e in cands && e.right == x
    {
      var e :| e in edges && e.right == x;
      assert e in cands;
    }
  }

  lemma PairsAreValid(prior: seq<Pair>, cands: Candidates, accepted: seq<Proposal>)
    requires ProposalsInRange(cands, accepted)
    requires forall p :: p in prior ==> !p.origin.WeightedGlobal? && p.score.None? && p.gap.None?
    ensures forall p :: p in prior + Weighted(accepted) ==> PairValid(p)
  {
    forall p | p in prior + Weighted(accepted)
      ensures PairValid(p)
    {
      WeightedMembers(accepted, p);
    }
  }

  /** What the stages leave for the result, with solver, policy and search out of the picture. */
  ghost predicate Facts(run: Run) {
    && run.s.Valid() && PreprocessedValid(run.s, run.pre)
    && (forall p :: p in run.pre.pairs ==> !p.origin.WeightedGlobal? && p.score.None? && p.gap.None?)
    && (forall e :: e in run.cands ==> e.left in Ids(run.pre.remainingLeft) && e.right in Ids(run.pre.remainingRight))
    && Ids(run.pre.remainingLeft) <= Ids(run.s.left) && Ids(run.pre.remainingRight) <= Ids(run.s.right)
    && GatedSummary(run.cands, run.g)
  }

  lemma StagedFacts(run: Run)
    requires run.Staged()
    ensures Facts(run)
  {
    CandidatesHaveRecords(run);
    Summarize(run.cands, run.gen.limited, run.policy, run.solver, run.a, run.g);
  }

  lemma WeightedJoinRemaining(run: Run)
    requires Facts(run)
    ensures JoinsRemaining(run.pre, Weighted(run.g.accepted))
  {
    forall p | p in Weighted(run.g.accepted)
      ensures p.edge.left in Ids(run.pre.remainingLeft) && p.edge.right in Ids(run.pre.remainingRight)
    {
      WeightedMembers(run.g.accepted, p);
    }
  }

  lemma PairsFit(run: Run)
    requires Facts(run)
    ensures PairsOneToOne(run.pre.pairs + Weighted(run.g.accepted))
    ensures forall p :: p in run.pre.pairs + Weighted(run.g.accepted) ==> PairValid(p)
  {
    assert PairsOneToOne(run.pre.pairs + Weighted(run.g.accepted)) by {
      WeightedJoinRemaining(run);
      PairsStayOneToOne(run.s, run.pre, run.g.accepted);
    }
    PairsAreValid(run.pre.pairs, run.cands, run.g.accepted);
  }

  lemma OutcomesFit(run: Run)
    requires Facts(run) && run.Concluded()
    ensures OneOutcomeEach(LeftSide, run.s.left, run.pairs, run.unpaired)
    ensures OneOutcomeEach(RightSide, run.s.right, run.pairs, run.unpaired)
  {
    WeightedJoinRemaining(run);
    SideOutcome(LeftSide, run.s, run.pre, Weighted(run.g.accepted), run.cands, run.a.limited, run.policy.floor,
                run.unpaired);
    SideOutcome(RightSide, run.s, run.pre, Weighted(run.g.accepted), run.cands, run.a.limited, run.policy.floor,
                run.unpaired);
  }

  lemma FactsMakeValid(run: Run)
    requires Facts(run) && run.Concluded()
    ensures PrimaryValid(run.s, run.Result([]))
  {
    PairsFit(run);
    OutcomesFit(run);
    ComponentsFit(run.s, run.cands, run.g);
    WeightedAreAccepted(run.pre.pairs, run.g);
  }

  /** No check of the result constructor can fail: pairs are one-to-one and well-formed, every input ends in
      exactly one pair or one unpaired outcome, and the weighted pairs are exactly the accepted proposals. */
  lemma RunIsPrimaryValid(run: Run)
    requires run.Valid()
    ensures PrimaryValid(run.s, run.Result([]))
  {
    StagedFacts(run);
    FactsMakeValid(run);
  }
}
