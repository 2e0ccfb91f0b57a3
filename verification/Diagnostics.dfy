/** Health diagnostics for accepted-unmatched records: a read-only search under a shared edge budget. */
module Diagnostics {
  import opened Matchings
  import opened Domain
  import opened Components
  import opened Ordering
  import opened Blocking
  import opened Enumeration
  import opened CandidateGeneration
  import opened Scoring
  import opened References
  import opened ComponentSolver
  import opened Assignment
  import opened Engine
  import opened Explanations

  // ----- what a diagnostic must mean -----

  /** The pair a record currently belongs to. */
  function CurrentPair(pairs: seq<Pair>, x: Id): (edge: Option<Edge>)
    ensures edge.Some? ==> exists p :: p in pairs && p.edge == edge.value && (p.edge.left == x || p.edge.right == x)
    ensures edge.None? ==> forall p :: p in pairs ==> p.edge.left != x && p.edge.right != x
  {
    if pairs == [] then None
    else
      var last := pairs[|pairs| - 1];
      if last.edge.left == x || last.edge.right == x then Some(last.edge) else CurrentPair(pairs[..|pairs| - 1], x)
  }

  /** A counterpart that would pass every record-level acceptance gate under the current policy. */
  ghost predicate Qualifies(s: Snapshot, d: Decisions, policy: MatchingPolicy, side: RecordSide, mine: Record,
                            theirs: Record)
    requires policy.Valid()
  {
    && theirs in MineOf(Other(side), s) && theirs.Eligible()
    && Meets(side, mine, theirs, policy.passes)
    && EdgeFrom(side, mine.id, theirs.id) !in ProhibitedEdges(s, d)
    && policy.threshold <= ScoreWith(side, mine, theirs, policy)
    && CoverageSet(LeftOf(side, mine, theirs), RightOf(side, mine, theirs)) == {}
    && !Contradictory(side, mine, theirs, policy.contract)
  }

  function Found(x: Id, candidate: Id, pairs: seq<Pair>, complete: bool): Diagnostic {
    Diagnostic(AcceptedUnmatchedCandidate, x, Some(candidate), CurrentPair(pairs, candidate), complete)
  }

  function Incomplete(x: Id): Diagnostic {
    Diagnostic(IncompleteSearch, x, None, None, false)
  }

  /** What a list of diagnostics says about one eligible record. */
  ghost predicate Account(list: seq<Diagnostic>, s: Snapshot, d: Decisions, policy: MatchingPolicy, pairs: seq<Pair>,
                          side: RecordSide, mine: Record)
    requires policy.Valid()
  {
    && (forall g :: g in list && g.record == mine.id ==> g == Incomplete(mine.id) || Reported(g, s, d, policy, pairs, side, mine))
    && (Incomplete(mine.id) !in list ==>
          forall q :: Qualifies(s, d, policy, side, mine, q) ==> Found(mine.id, q.id, pairs, true) in list)
  }

  ghost predicate Reported(g: Diagnostic, s: Snapshot, d: Decisions, policy: MatchingPolicy, pairs: seq<Pair>,
                           side: RecordSide, mine: Record)
    requires policy.Valid()
  {
    exists q :: Qualifies(s, d, policy, side, mine, q) && g == Found(mine.id, q.id, pairs, g.complete)
  }

  predicate SameSubject(g: Diagnostic, h: Diagnostic) {
    g.record == h.record && g.candidate == h.candidate && g.kind == h.kind
  }

  predicate NoDuplicates(list: seq<Diagnostic>) {
    forall i, j :: 0 <= i < j < |list| ==> !SameSubject(list[i], list[j])
  }

  function CandidateCount(list: seq<Diagnostic>): nat {
    if list == [] then 0
    else CandidateCount(list[..|list| - 1]) + if list[|list| - 1].kind.AcceptedUnmatchedCandidate? then 1 else 0
  }

  // ----- one record's search -----

  method EligibleOf(records: seq<Record>) returns (kept: seq<Record>)
    requires UniqueIds(records)
    ensures UniqueIds(kept) && forall r :: r in kept <==> r in records && r.Eligible()
  {
    kept := [];
    for i := 0 to |records|
      invariant UniqueIds(kept)
      invariant forall r :: r in kept <==> r in records[..i] && r.Eligible()
    {
      assert records[..i + 1] == records[..i] + [records[i]];
      if records[i].Eligible() {
        forall k | 0 <= k < |kept|
          ensures kept[k].id != records[i].id
        {
          assert kept[k] in kept;
          var j :| 0 <= j < i && records[j] == kept[k];
        }
        kept := kept + [records[i]];
      }
    }
    assert records[..|records|] == records;
  }

  /** The search looks at one record against every eligible record of the other side. */
  function SearchInput(side: RecordSide, mine: Record, opposite: seq<Record>, prohibited: set<Edge>): Preprocessed {
    var lefts := if side.LeftSide? then [mine] else opposite;
    var rights := if side.LeftSide? then opposite else [mine];
    Preprocessed([], map[], lefts, rights, set e | e in prohibited && e.left in Ids(lefts) && e.right in Ids(rights),
                 map[])
  }

  predicate Passing(evidence: Evidence, policy: MatchingPolicy) {
    policy.threshold <= evidence.score && evidence.coverageSufficient && evidence.contradictions == {}
  }

  function ReportFor(side: RecordSide, x: Id, cands: Candidates, pairs: seq<Pair>, e: Edge): Diagnostic
    requires e in cands
  {
    Found(x, EndOf(Other(side), e), pairs, cands[e].complete)
  }

  ghost predicate ReportsOne(g: Diagnostic, side: RecordSide, x: Id, edges: set<Edge>, cands: Candidates,
                             policy: MatchingPolicy,
                             pairs: seq<Pair>)
  {
    exists e :: e in edges && e in cands && Passing(cands[e], policy) && g == ReportFor(side, x, cands, pairs, e)
  }

  /** The edges of a scored search that are worth reporting, each once. */
  ghost predicate ReportsExactly(list: seq<Diagnostic>, side: RecordSide, x: Id, edges: set<Edge>, cands: Candidates,
                                 policy: MatchingPolicy, pairs: seq<Pair>)
  {
    && (forall e :: e in edges && e in cands && Passing(cands[e], policy) ==> ReportFor(side, x, cands, pairs, e) in list)
    && (forall g :: g in list ==> ReportsOne(g, side, x, edges, cands, policy, pairs))
    && NoDuplicates(list)
    && CandidateCount(list) == |list| <= |edges|
  }

  lemma ReportsOneMore(g: Diagnostic, side: RecordSide, x: Id, done: set<Edge>, cands: Candidates,
                       policy: MatchingPolicy,
                       pairs: seq<Pair>, e: Edge)
    requires ReportsOne(g, side, x, done, cands, policy, pairs)
             || (e in cands && Passing(cands[e], policy) && g == ReportFor(side, x, cands, pairs, e))
    ensures ReportsOne(g, side, x, done + {e}, cands, policy, pairs)
  {
    if f :| f in done && f in cands && Passing(cands[f], policy) && g == ReportFor(side, x, cands, pairs, f) {
      assert f in done + {e};
    } else {
      assert e in done + {e};
    }
  }

  lemma OneMoreReport(list: seq<Diagnostic>, side: RecordSide, x: Id, done: set<Edge>, cands: Candidates,
                      policy: MatchingPolicy,
                      pairs: seq<Pair>, e: Edge, more: seq<Diagnostic>)
    requires done <= cands.Keys && e in cands && e !in done && forall f :: f in cands ==> EndOf(side, f) == x
    requires ReportsExactly(list, side, x, done, cands, policy, pairs)
    requires more == if Passing(cands[e], policy) then list + [ReportFor(side, x, cands, pairs, e)] else list
    ensures ReportsExactly(more, side, x, done + {e}, cands, policy, pairs)
  {
    var g := ReportFor(side, x, cands, pairs, e);
    assert |done + {e}| == |done| + 1;
    assert Passing(cands[e], policy) ==> more[..|more| - 1] == list;
    forall h | h in more
      ensures ReportsOne(h, side, x, done + {e}, cands, policy, pairs)
    {
      ReportsOneMore(h, side, x, done, cands, policy, pairs, e);
    }
    forall i | 0 <= i < |list|
      ensures !SameSubject(list[i], g)
    {
      assert ReportsOne(list[i], side, x, done, cands, policy, pairs);
      var f :| f in done && f in cands && Passing(cands[f], policy) && list[i] == ReportFor(side, x, cands, pairs, f);
      assert f != e && EndOf(side, f) == EndOf(side, e);
    }
  }

  /** The diagnostics for scored edges taken in this order. */
  function Reports(side: RecordSide, x: Id, cands: Candidates, policy: MatchingPolicy, pairs: seq<Pair>,
                   edges: seq<Edge>): seq<Diagnostic>
    requires forall e :: e in edges ==> e in cands
  {
    if edges == [] then []
    else
      var e := edges[|edges| - 1];
      Reports(side, x, cands, policy, pairs, edges[..|edges| - 1]) +
      if Passing(cands[e], policy) then [ReportFor(side, x, cands, pairs, e)] else []
  }

  lemma {:induction false} ReportsAre(side: RecordSide, x: Id, cands: Candidates, policy: MatchingPolicy,
                                      pairs: seq<Pair>, edges: seq<Edge>)
    requires (forall e :: e in edges ==> e in cands) && Ascending(edges) && forall f :: f in cands ==> EndOf(side, f) == x
    ensures ReportsExactly(Reports(side, x, cands, policy, pairs, edges), side, x, EdgeSet(edges), cands, policy, pairs)
  {
    if edges != [] {
      var init, e := edges[..|edges| - 1], edges[|edges| - 1];
      ReportsAre(side, x, cands, policy, pairs, init);
      assert e !in init;
      assert EdgeSet(edges) == EdgeSet(init) + {e};
      OneMoreReport(Reports(side, x, cands, policy, pairs, init), side, x, EdgeSet(init), cands, policy, pairs, e,
                    Reports(side, x, cands, policy, pairs, edges));
    }
  }

  lemma ReportsExtend(side: RecordSide, x: Id, cands: Candidates, policy: MatchingPolicy, pairs: seq<Pair>,
                      edges: seq<Edge>, i: nat)
    requires (forall e :: e in edges ==> e in cands) && i < |edges|
    ensures edges[i] in cands
    ensures Reports(side, x, cands, policy, pairs, edges[..i + 1]) ==
            Reports(side, x, cands, policy, pairs, edges[..i]) +
            if Passing(cands[edges[i]], policy) then [ReportFor(side, x, cands, pairs, edges[i])] else []
  {
    assert edges[..i + 1][..i] == edges[..i];
  }

  method Report(side: RecordSide, x: Id, cands: Candidates, policy: MatchingPolicy,
                pairs: seq<Pair>) returns (list: seq<Diagnostic>)
    requires forall e :: e in cands ==> EndOf(side, e) == x
    ensures ReportsExactly(list, side, x, cands.Keys, cands, policy, pairs)
  {
    var edges := SortedEdges(cands.Keys);
    list := [];
    for i := 0 to |edges|
      invariant list == Reports(side, x, cands, policy, pairs, edges[..i])
    {
      ReportsExtend(side, x, cands, policy, pairs, edges, i);
      if Passing(cands[edges[i]], policy) {
        list := list + [ReportFor(side, x, cands, pairs, edges[i])];
      }
    }
    assert edges[..|edges|] == edges;
    ReportsAre(side, x, cands, policy, pairs, edges);
    assert EdgeSet(edges) == cands.Keys;
  }

  /** What one search contributes: its account, diagnostics of this record only, within its budget. */
  ghost predicate Contribution(list: seq<Diagnostic>, used: nat, budget: nat, s: Snapshot, d: Decisions,
                               policy: MatchingPolicy,
                               pairs: seq<Pair>, side: RecordSide, mine: Record)
    requires policy.Valid()
  {
    && Account(list, s, d, policy, pairs, side, mine)
    && (forall g :: g in list ==> g.record == mine.id)
    && NoDuplicates(list)
    && CandidateCount(list) <= used <= budget
  }

  /** One search and its scored edges. */
  ghost predicate Searched(pre: Preprocessed, policy: MatchingPolicy, budget: nat, gen: Generation, cands: Candidates)
    requires policy.Valid()
  {
    && Input(pre.remainingLeft, pre.remainingRight, pre.prohibited).Valid()
    && Generated(Input(pre.remainingLeft, pre.remainingRight, pre.prohibited), policy.passes,
                 policy.limits.(runEdges := budget), gen)
    && EdgesHaveRecords(pre.remainingLeft, pre.remainingRight, gen)
    && ScoresOf(pre.remainingLeft, pre.remainingRight, gen, policy, cands)
  }

  method Search(pre: Preprocessed, policy: MatchingPolicy, budget: nat) returns (r: Result<(Generation, Candidates)>)
    requires policy.Valid() && Input(pre.remainingLeft, pre.remainingRight, pre.prohibited).Valid()
    ensures r.Ok? ==> Searched(pre, policy, budget, r.value.0, r.value.1)
    ensures DistinctReasons(policy.passes) ==> r.Ok?
  {
    var input := Input(pre.remainingLeft, pre.remainingRight, pre.prohibited);
    var limits := policy.limits.(runEdges := budget);
    var generated := GenerateCandidates(input, policy.passes, limits);
    if generated.Err? {
      return Err(generated.error);
    }
    RetainedHaveRecords(input, policy.passes, limits, generated.value);
    // Every retained edge names records of the search, so scoring cannot fail here.
    var scored := ScoreCandidates(pre.remainingLeft, pre.remainingRight, generated.value, policy);
    r := Ok((generated.value, scored.value));
  }

  lemma SearchInputIsValid(s: Snapshot, side: RecordSide, mine: Record, opposite: seq<Record>, prohibited: set<Edge>)
    requires s.Valid() && mine in MineOf(side, s)
    requires UniqueIds(opposite) && forall r :: r in opposite ==> r in MineOf(Other(side), s)
    ensures var pre := SearchInput(side, mine, opposite, prohibited);
            && Input(pre.remainingLeft, pre.remainingRight, pre.prohibited).Valid()
            && Remains(side, pre) == [mine] && Remains(Other(side), pre) == opposite
  {
    assert Ids(opposite) <= Ids(MineOf(Other(side), s));
    assert Ids([mine]) <= Ids(MineOf(side, s));
  }

  /** In the search, a counterpart is admissible exactly when a pass admits it and no reviewer rejected it. */
  lemma SearchAdmissible(s: Snapshot, d: Decisions, side: RecordSide, mine: Record, opposite: seq<Record>, q: Record,
                         passes: seq<BlockingPass>)
    requires s.Valid() && mine in MineOf(side, s) && q in opposite
    requires forall r :: r in opposite ==> r in MineOf(Other(side), s)
    ensures Admissible(side, mine, q, SearchInput(side, mine, opposite, ProhibitedEdges(s, d)), passes) <==>
            Meets(side, mine, q, passes) && EdgeFrom(side, mine.id, q.id) !in ProhibitedEdges(s, d)
  {
    assert mine in [mine];
    assert mine.id in Ids([mine]) && q.id in Ids(opposite);
  }

  /** What the search knows about one counterpart. */
  ghost predicate Known(side: RecordSide, mine: Record, q: Record, pre: Preprocessed, policy: MatchingPolicy,
                        gen: Generation,
                        cands: Candidates)
    requires policy.Valid()
  {
    var e := EdgeFrom(side, mine.id, q.id);
    && (e in cands ==> Admissible(side, mine, q, pre, policy.passes))
    && (gen.limited == {} && Admissible(side, mine, q, pre, policy.passes) ==> e in cands)
    && (e in cands ==>
          && cands[e].score == ScoreWith(side, mine, q, policy)
          && (cands[e].contradictions != {} <==> Contradictory(side, mine, q, policy.contract))
          && (cands[e].coverageSufficient <==> CoverageSet(LeftOf(side, mine, q), RightOf(side, mine, q)) == {})
          && (gen.limited == {} ==> cands[e].complete))
  }

  lemma KnownQualifies(s: Snapshot, d: Decisions, policy: MatchingPolicy, side: RecordSide, mine: Record, q: Record,
                       pre: Preprocessed, gen: Generation, cands: Candidates)
    requires policy.Valid() && Known(side, mine, q, pre, policy, gen, cands)
    requires q in MineOf(Other(side), s) && q.Eligible()
    requires Admissible(side, mine, q, pre, policy.passes) <==>
             Meets(side, mine, q, policy.passes) && EdgeFrom(side, mine.id, q.id) !in ProhibitedEdges(s, d)
    ensures var e := EdgeFrom(side, mine.id, q.id);
            && (e in cands && Passing(cands[e], policy) ==> Qualifies(s, d, policy, side, mine, q))
            && (gen.limited == {} && Qualifies(s, d, policy, side, mine, q) ==>
                  e in cands && Passing(cands[e], policy) && cands[e].complete)
  {
  }

  lemma SearchedPair(side: RecordSide, mine: Record, q: Record, pre: Preprocessed, policy: MatchingPolicy, budget: nat,
                     gen: Generation, cands: Candidates)
    requires policy.Valid() && Searched(pre, policy, budget, gen, cands)
    requires mine in Remains(side, pre) && q in Remains(Other(side), pre)
    ensures Known(side, mine, q, pre, policy, gen, cands)
  {
    SearchedMeets(side, mine, q, pre, policy, budget, gen, cands);
    if EdgeFrom(side, mine.id, q.id) in cands {
      SearchEvidence(side, mine, q, pre, policy, gen, cands);
    }
  }

  lemma SearchedMeets(side: RecordSide, mine: Record, q: Record, pre: Preprocessed, policy: MatchingPolicy, budget: nat,
                      gen: Generation, cands: Candidates)
    requires policy.Valid() && Searched(pre, policy, budget, gen, cands)
    requires mine in Remains(side, pre) && q in Remains(Other(side), pre)
    ensures EdgeFrom(side, mine.id, q.id) in cands ==> Admissible(side, mine, q, pre, policy.passes)
    ensures gen.limited == {} && Admissible(side, mine, q, pre, policy.passes) ==> EdgeFrom(side, mine.id, q.id) in cands
  {
    if EdgeFrom(side, mine.id, q.id) in cands {
      RetainedIsAdmissible(side, mine, q, pre, policy.passes, policy.limits.(runEdges := budget), gen);
    }
    if gen.limited == {} {
      RetainedIffAdmissible(side, mine, q, pre, policy.passes, policy.limits.(runEdges := budget), gen);
    }
  }

  lemma RetainedIsAdmissible(side: RecordSide, mine: Record, theirs: Record, pre: Preprocessed,
                             passes: seq<BlockingPass>,
                             limits: Limits, gen: Generation)
    requires var input := Input(pre.remainingLeft, pre.remainingRight, pre.prohibited);
             input.Valid() && Generated(input, passes, limits, gen)
    requires mine in Remains(side, pre) && theirs in Remains(Other(side), pre)
    requires EdgeFrom(side, mine.id, theirs.id) in gen.edges
    ensures Admissible(side, mine, theirs, pre, passes)
  {
    var input := Input(pre.remainingLeft, pre.remainingRight, pre.prohibited);
    var e := EdgeFrom(side, mine.id, theirs.id);
    MeetsIsNaive(side, mine, theirs, pre, passes);
    assert Capped(gen.edges, limits);
    var why :| why in gen.edges[e];
    assert Has(gen.edges, e, why);
    UnlimitedIsNaive(input, passes, limits, gen, LeftOf(side, mine, theirs), RightOf(side, mine, theirs), why);
  }

  lemma SearchEvidence(side: RecordSide, mine: Record, q: Record, pre: Preprocessed, policy: MatchingPolicy,
                       gen: Generation,
                       cands: Candidates)
    requires policy.Valid() && ScoresOf(pre.remainingLeft, pre.remainingRight, gen, policy, cands)
    requires mine in Remains(side, pre) && q in Remains(Other(side), pre) && EdgeFrom(side, mine.id, q.id) in cands
    ensures var evidence := cands[EdgeFrom(side, mine.id, q.id)];
            && evidence.score == ScoreWith(side, mine, q, policy)
            && (evidence.contradictions != {} <==> Contradictory(side, mine, q, policy.contract))
            && (evidence.coverageSufficient <==> CoverageSet(LeftOf(side, mine, q), RightOf(side, mine, q)) == {})
            && (evidence.complete <==> mine.id !in gen.limited && q.id !in gen.limited)
  {
  }

  lemma SearchedEnds(side: RecordSide, mine: Record, pre: Preprocessed, gen: Generation)
    requires EdgesHaveRecords(pre.remainingLeft, pre.remainingRight, gen) && Remains(side, pre) == [mine]
    ensures forall e :: e in gen.edges ==> EndOf(side, e) == mine.id
    ensures forall e :: e in gen.edges ==> exists q :: q in Remains(Other(side), pre) && e == EdgeFrom(side, mine.id, q.id)
  {
    forall e | e in gen.edges
      ensures EndOf(side, e) == mine.id
      ensures exists q :: q in Remains(Other(side), pre) && e == EdgeFrom(side, mine.id, q.id)
    {
      if side.LeftSide? {
        assert pre.remainingLeft == [mine];
        var q :| q in pre.remainingRight && q.id == e.right;
        assert e == EdgeFrom(side, mine.id, q.id);
      } else {
        assert pre.remainingRight == [mine];
        var q :| q in pre.remainingLeft && q.id == e.left;
        assert e == EdgeFrom(side, mine.id, q.id);
      }
    }
  }

  /** The account of one search: its reports, and a warning when the search was cut short. */
  lemma SearchAccount(s: Snapshot, d: Decisions, policy: MatchingPolicy, pairs: seq<Pair>, side: RecordSide,
                      mine: Record,
                      opposite: seq<Record>, budget: nat, gen: Generation, cands: Candidates, reported: seq<Diagnostic>,
                      list: seq<Diagnostic>)
    requires s.Valid() && policy.Valid() && mine in MineOf(side, s)
    requires UniqueIds(opposite) && forall r :: r in opposite <==> r in MineOf(Other(side), s) && r.Eligible()
    requires Searched(SearchInput(side, mine, opposite, ProhibitedEdges(s, d)), policy, budget, gen, cands)
    requires ReportsExactly(reported, side, mine.id, cands.Keys, cands, policy, pairs)
    requires list == if gen.complete then reported else reported + [Incomplete(mine.id)]
    ensures Account(list, s, d, policy, pairs, side, mine)
  {
    var pre := SearchInput(side, mine, opposite, ProhibitedEdges(s, d));
    SearchInputIsValid(s, side, mine, opposite, ProhibitedEdges(s, d));
    SearchedEnds(side, mine, pre, gen);
    AllKnown(side, mine, opposite, pre, policy, budget, gen, cands);
    AllKnownAs(s, d, policy, side, mine, opposite, pre, gen, cands);
    CompleteMeansUnlimited(pre, policy, budget, gen);
    AccountFrom(s, d, policy, pairs, side, mine, opposite, gen, cands, reported, list);
  }

  lemma AllKnown(side: RecordSide, mine: Record, opposite: seq<Record>, pre: Preprocessed, policy: MatchingPolicy,
                 budget: nat,
                 gen: Generation, cands: Candidates)
    requires policy.Valid() && Searched(pre, policy, budget, gen, cands)
    requires mine in Remains(side, pre) && Remains(Other(side), pre) == opposite
    ensures forall q :: q in opposite ==> Known(side, mine, q, pre, policy, gen, cands)
  {
    forall q | q in opposite
      ensures Known(side, mine, q, pre, policy, gen, cands)
    {
      SearchedPair(side, mine, q, pre, policy, budget, gen, cands);
    }
  }

  lemma AllKnownAs(s: Snapshot, d: Decisions, policy: MatchingPolicy, side: RecordSide, mine: Record,
                   opposite: seq<Record>,
                   pre: Preprocessed, gen: Generation, cands: Candidates)
    requires s.Valid() && policy.Valid() && mine in MineOf(side, s)
    requires forall r :: r in opposite <==> r in MineOf(Other(side), s) && r.Eligible()
    requires pre == SearchInput(side, mine, opposite, ProhibitedEdges(s, d))
    requires forall q :: q in opposite ==> Known(side, mine, q, pre, policy, gen, cands)
    ensures forall q :: q in opposite ==> KnownAs(s, d, policy, side, mine, q, gen, cands)
  {
    forall q | q in opposite
      ensures KnownAs(s, d, policy, side, mine, q, gen, cands)
    {
      KnownPair(s, d, policy, side, mine, opposite, pre, gen, cands, q);
    }
  }

  lemma KnownPair(s: Snapshot, d: Decisions, policy: MatchingPolicy, side: RecordSide, mine: Record,
                  opposite: seq<Record>,
                  pre: Preprocessed, gen: Generation, cands: Candidates, q: Record)
    requires s.Valid() && policy.Valid() && mine in MineOf(side, s)
    requires forall r :: r in opposite <==> r in MineOf(Other(side), s) && r.Eligible()
    requires pre == SearchInput(side, mine, opposite, ProhibitedEdges(s, d)) && q in opposite
    requires Known(side, mine, q, pre, policy, gen, cands)
    ensures KnownAs(s, d, policy, side, mine, q, gen, cands)
  {
    SearchAdmissible(s, d, side, mine, opposite, q, policy.passes);
    KnownQualifies(s, d, policy, side, mine, q, pre, gen, cands);
  }

  lemma CompleteMeansUnlimited(pre: Preprocessed, policy: MatchingPolicy, budget: nat, gen: Generation)
    requires Generated(Input(pre.remainingLeft, pre.remainingRight, pre.prohibited), policy.passes,
                       policy.limits.(runEdges := budget), gen)
    ensures gen.complete ==> gen.limited == {}
  {
  }

  ghost predicate KnownAs(s: Snapshot, d: Decisions, policy: MatchingPolicy, side: RecordSide, mine: Record, q: Record,
                          gen: Generation, cands: Candidates)
    requires policy.Valid()
  {
    var e := EdgeFrom(side, mine.id, q.id);
    && (e in cands && Passing(cands[e], policy) ==> Qualifies(s, d, policy, side, mine, q))
    && (gen.limited == {} && Qualifies(s, d, policy, side, mine, q) ==> e in cands && Passing(cands[e], policy) && cands[e].complete)
  }

  lemma AccountFrom(s: Snapshot, d: Decisions, policy: MatchingPolicy, pairs: seq<Pair>, side: RecordSide, mine: Record,
                    opposite: seq<Record>, gen: Generation, cands: Candidates, reported: seq<Diagnostic>, list: seq<Diagnostic>)
    requires policy.Valid() && (forall r :: r in opposite <==> r in MineOf(Other(side), s) && r.Eligible())
    requires cands.Keys == gen.edges.Keys
    requires forall e :: e in gen.edges ==> exists q :: q in opposite && e == EdgeFrom(side, mine.id, q.id)
    requires forall q :: q in opposite ==> KnownAs(s, d, policy, side, mine, q, gen, cands)
    requires ReportsExactly(reported, side, mine.id, cands.Keys, cands, policy, pairs)
    requires list == if gen.complete then reported else reported + [Incomplete(mine.id)]
    requires gen.complete ==> gen.limited == {}
    ensures Account(list, s, d, policy, pairs, side, mine)
  {
    forall g | g in list
      ensures g == Incomplete(mine.id) || Reported(g, s, d, policy, pairs, side, mine)
    {
      if g in reported {
        ReportedQualifies(s, d, policy, pairs, side, mine, opposite, gen, cands, g);
      }
    }
    assert !gen.complete ==> list[|list| - 1] == Incomplete(mine.id);
    if gen.complete {
      forall q | Qualifies(s, d, policy, side, mine, q)
        ensures Found(mine.id, q.id, pairs, true) in list
      {
        assert KnownAs(s, d, policy, side, mine, q, gen, cands);
        assert EndOf(Other(side), EdgeFrom(side, mine.id, q.id)) == q.id;
        assert ReportFor(side, mine.id, cands, pairs, EdgeFrom(side, mine.id, q.id)) == Found(mine.id, q.id, pairs, true);
      }
    }
  }

  lemma ReportedQualifies(s: Snapshot, d: Decisions, policy: MatchingPolicy, pairs: seq<Pair>, side: RecordSide,
                          mine: Record,
                          opposite: seq<Record>, gen: Generation, cands: Candidates, g: Diagnostic)
    requires policy.Valid() && cands.Keys == gen.edges.Keys
    requires forall e :: e in gen.edges ==> exists q :: q in opposite && e == EdgeFrom(side, mine.id, q.id)
    requires forall q :: q in opposite ==> KnownAs(s, d, policy, side, mine, q, gen, cands)
    requires ReportsOne(g, side, mine.id, cands.Keys, cands, policy, pairs)
    ensures Reported(g, s, d, policy, pairs, side, mine)
  {
    var e :| e in cands && Passing(cands[e], policy) && g == ReportFor(side, mine.id, cands, pairs, e);
    var q :| q in opposite && e == EdgeFrom(side, mine.id, q.id);
    assert KnownAs(s, d, policy, side, mine, q, gen, cands);
    assert EndOf(Other(side), e) == q.id;
  }

  lemma ListShape(reported: seq<Diagnostic>, list: seq<Diagnostic>, side: RecordSide, x: Id, cands: Candidates,
                  policy: MatchingPolicy, pairs: seq<Pair>, complete: bool)
    requires ReportsExactly(reported, side, x, cands.Keys, cands, policy, pairs)
    requires list == if complete then reported else reported + [Incomplete(x)]
    ensures forall g :: g in list ==> g.record == x
    ensures NoDuplicates(list) && CandidateCount(list) <= |cands|
  {
    assert |cands| == |cands.Keys|;
    forall g | g in reported
      ensures g.record == x && g.kind.AcceptedUnmatchedCandidate?
    {
      assert ReportsOne(g, side, x, cands.Keys, cands, policy, pairs);
    }
    if !complete {
      assert list[..|list| - 1] == reported;
      forall i | 0 <= i < |reported|
        ensures !SameSubject(reported[i], Incomplete(x))
      {
        assert reported[i] in reported;
      }
    }
  }

  /** What a record's search retained: nothing at all, and incompletely, once the budget is gone. */
  ghost predicate SearchOf(s: Snapshot, d: Decisions, policy: MatchingPolicy, side: RecordSide, mine: Record,
                           budget: nat, gen: Generation) {
    if budget == 0 then gen == Generation(map[], [], {}, false)
    else
      exists opposite :: AllEligible(s, Other(side), opposite) &&
                         GeneratedWithin(SearchInput(side, mine, opposite, ProhibitedEdges(s, d)), policy, budget, gen)
  }

  ghost predicate AllEligible(s: Snapshot, side: RecordSide, records: seq<Record>) {
    UniqueIds(records) && forall r :: r in records <==> r in MineOf(side, s) && r.Eligible()
  }

  ghost predicate GeneratedWithin(pre: Preprocessed, policy: MatchingPolicy, budget: nat, gen: Generation) {
    Generated(Input(pre.remainingLeft, pre.remainingRight, pre.prohibited), policy.passes,
              policy.limits.(runEdges := budget), gen)
  }

  method DiagnoseOne(s: Snapshot, d: Decisions, policy: MatchingPolicy, pairs: seq<Pair>, side: RecordSide,
                     mine: Record, budget: nat)
    returns (r: Result<seq<Diagnostic>>, used: nat, ghost gen: Generation)
    requires s.Valid() && policy.Valid() && mine in MineOf(side, s)
    ensures r.Ok? ==> Contribution(r.value, used, budget, s, d, policy, pairs, side, mine)
    ensures r.Ok? ==> SearchOf(s, d, policy, side, mine, budget, gen) && used == |gen.edges|
    ensures r.Ok? ==> (Incomplete(mine.id) in r.value <==> !gen.complete)
    ensures DistinctReasons(policy.passes) ==> r.Ok?
  {
    gen := Generation(map[], [], {}, false);
    if budget == 0 {
      NothingSearched(s, d, policy, pairs, side, mine);
      return Ok([Incomplete(mine.id)]), 0, gen;
    }
    var opposite := EligibleOf(MineOf(Other(side), s));
    var pre := SearchInput(side, mine, opposite, ProhibitedEdges(s, d));
    SearchInputIsValid(s, side, mine, opposite, ProhibitedEdges(s, d));
    var searched := Search(pre, policy, budget);
    if searched.Err? {
      return Err(searched.error), 0, gen;
    }
    var (found, cands) := searched.value;
    gen := found;
    SearchedEnds(side, mine, pre, found);
    var reported := Report(side, mine.id, cands, policy, pairs);
    var list := if found.complete then reported else reported + [Incomplete(mine.id)];
    SearchContributes(s, d, policy, pairs, side, mine, opposite, budget, found, cands, reported, list);
    SearchIs(s, d, policy, side, mine, opposite, budget, found, cands);
    WarnsIffCutShort(reported, list, side, mine.id, cands, policy, pairs, found.complete);
    r, used := Ok(list), |found.edges|;
  }

  lemma SearchIs(s: Snapshot, d: Decisions, policy: MatchingPolicy, side: RecordSide, mine: Record,
                 opposite: seq<Record>,
                 budget: nat, gen: Generation, cands: Candidates)
    requires policy.Valid() && AllEligible(s, Other(side), opposite) && 0 < budget
    requires Searched(SearchInput(side, mine, opposite, ProhibitedEdges(s, d)), policy, budget, gen, cands)
    ensures SearchOf(s, d, policy, side, mine, budget, gen)
  {
    assert GeneratedWithin(SearchInput(side, mine, opposite, ProhibitedEdges(s, d)), policy, budget, gen);
  }

  lemma WarnsIffCutShort(reported: seq<Diagnostic>, list: seq<Diagnostic>, side: RecordSide, x: Id, cands: Candidates,
                         policy: MatchingPolicy, pairs: seq<Pair>, complete: bool)
    requires ReportsExactly(reported, side, x, cands.Keys, cands, policy, pairs)
    requires list == if complete then reported else reported + [Incomplete(x)]
    ensures Incomplete(x) in list <==> !complete
  {
    forall g | g in reported
      ensures g.kind.AcceptedUnmatchedCandidate?
    {
      assert ReportsOne(g, side, x, cands.Keys, cands, policy, pairs);
    }
    assert !complete ==> list[|list| - 1] == Incomplete(x);
  }

  lemma SearchContributes(s: Snapshot, d: Decisions, policy: MatchingPolicy, pairs: seq<Pair>, side: RecordSide,
                          mine: Record,
                          opposite: seq<Record>, budget: nat, gen: Generation, cands: Candidates, reported: seq<Diagnostic>,
                          list: seq<Diagnostic>)
    requires s.Valid() && policy.Valid() && mine in MineOf(side, s)
    requires UniqueIds(opposite) && forall r :: r in opposite <==> r in MineOf(Other(side), s) && r.Eligible()
    requires Searched(SearchInput(side, mine, opposite, ProhibitedEdges(s, d)), policy, budget, gen, cands)
    requires ReportsExactly(reported, side, mine.id, cands.Keys, cands, policy, pairs)
    requires list == if gen.complete then reported else reported + [Incomplete(mine.id)]
    ensures Contribution(list, |gen.edges|, budget, s, d, policy, pairs, side, mine)
  {
    SearchAccount(s, d, policy, pairs, side, mine, opposite, budget, gen, cands, reported, list);
    ListShape(reported, list, side, mine.id, cands, policy, pairs, gen.complete);
    BudgetKept(SearchInput(side, mine, opposite, ProhibitedEdges(s, d)), policy, budget, gen, cands);
  }

  lemma BudgetKept(pre: Preprocessed, policy: MatchingPolicy, budget: nat, gen: Generation, cands: Candidates)
    requires policy.Valid() && Searched(pre, policy, budget, gen, cands)
    ensures |cands| == |gen.edges| <= budget
  {
    assert |cands| == |cands.Keys| && |gen.edges| == |gen.edges.Keys|;
    assert Capped(gen.edges, policy.limits.(runEdges := budget));
  }

  lemma NothingSearched(s: Snapshot, d: Decisions, policy: MatchingPolicy, pairs: seq<Pair>, side: RecordSide,
                        mine: Record)
    requires policy.Valid()
    ensures Contribution([Incomplete(mine.id)], 0, 0, s, d, policy, pairs, side, mine)
  {
    assert CandidateCount([]) == 0;
    assert [Incomplete(mine.id)][..0] == [];
  }

  // ----- all accepted records, one budget -----

  /** The account of an accepted record, whichever side it is on; cancelled and unknown records have none. */
  ghost predicate Accounted(list: seq<Diagnostic>, s: Snapshot, d: Decisions, policy: MatchingPolicy,
                            pairs: seq<Pair>, x: Id)
    requires policy.Valid()
  {
    forall side, mine :: mine in MineOf(side, s) && mine.id == x && mine.Eligible() ==>
      Account(list, s, d, policy, pairs, side, mine)
  }

  ghost predicate Subject(s: Snapshot, accepted: seq<Single>, x: Id) {
    x in SingleIds(accepted) && exists side, mine :: mine in MineOf(side, s) && mine.id == x && mine.Eligible()
  }

  ghost predicate Diagnosed(list: seq<Diagnostic>, s: Snapshot, d: Decisions, policy: MatchingPolicy, pairs: seq<Pair>,
                            accepted: seq<Single>)
    requires policy.Valid()
  {
    && (forall a :: a in accepted ==> Accounted(list, s, d, policy, pairs, a.record))
    && (forall g :: g in list ==> Subject(s, accepted, g.record))
    && NoDuplicates(list)
  }

  lemma AccountStays(list: seq<Diagnostic>, more: seq<Diagnostic>, s: Snapshot, d: Decisions, policy: MatchingPolicy,
                     pairs: seq<Pair>, x: Id)
    requires policy.Valid() && Accounted(list, s, d, policy, pairs, x) && forall g :: g in more ==> g.record != x
    ensures Accounted(list + more, s, d, policy, pairs, x)
  {
    forall side, mine | mine in MineOf(side, s) && mine.id == x && mine.Eligible()
      ensures Account(list + more, s, d, policy, pairs, side, mine)
    {
      assert Account(list, s, d, policy, pairs, side, mine);
    }
  }

  lemma AccountAdded(list: seq<Diagnostic>, more: seq<Diagnostic>, s: Snapshot, d: Decisions, policy: MatchingPolicy,
                     pairs: seq<Pair>, side: RecordSide, mine: Record)
    requires policy.Valid() && Account(more, s, d, policy, pairs, side, mine) && forall g :: g in list ==> g.record != mine.id
    ensures Account(list + more, s, d, policy, pairs, side, mine)
  {
  }

  lemma OnlyRecord(s: Snapshot, side: RecordSide, mine: Record, otherSide: RecordSide, other: Record)
    requires s.Valid() && mine in MineOf(side, s) && other in MineOf(otherSide, s) && mine.id == other.id
    ensures side == otherSide && mine == other
  {
    assert mine.id in Ids(MineOf(side, s)) && other.id in Ids(MineOf(otherSide, s));
  }

  lemma SubjectGrows(s: Snapshot, accepted: seq<Single>, a: Single, x: Id)
    requires Subject(s, accepted, x)
    ensures Subject(s, accepted + [a], x)
  {
    var i :| i in accepted && i.record == x;
    assert i in accepted + [a];
  }

  lemma JoinLists(list: seq<Diagnostic>, more: seq<Diagnostic>, x: Id)
    requires NoDuplicates(list) && NoDuplicates(more)
    requires (forall g :: g in list ==> g.record != x) && forall g :: g in more ==> g.record == x
    ensures NoDuplicates(list + more)
  {
    var all := list + more;
    forall i, j | 0 <= i < j < |all|
      ensures !SameSubject(all[i], all[j])
    {
      if i < |list| <= j {
        assert all[i] in list && all[j] in more;
      }
    }
  }

  lemma {:induction false} CountJoins(list: seq<Diagnostic>, more: seq<Diagnostic>)
    ensures CandidateCount(list + more) == CandidateCount(list) + CandidateCount(more)
  {
    if more == [] {
      assert list + more == list;
    } else {
      CountJoins(list, more[..|more| - 1]);
      assert (list + more)[..|list + more| - 1] == list + more[..|more| - 1];
    }
  }

  lemma OneMoreDiagnosed(list: seq<Diagnostic>, more: seq<Diagnostic>, used: nat, budget: nat, s: Snapshot,
                         d: Decisions,
                         policy: MatchingPolicy, pairs: seq<Pair>, accepted: seq<Single>, a: Single, side: RecordSide, mine: Record)
    requires s.Valid() && policy.Valid() && Diagnosed(list, s, d, policy, pairs, accepted)
    requires a.record !in SingleIds(accepted) && mine in MineOf(side, s) && mine.id == a.record && mine.Eligible()
    requires Contribution(more, used, budget, s, d, policy, pairs, side, mine)
    ensures Diagnosed(list + more, s, d, policy, pairs, accepted + [a])
  {
    assert a in accepted + [a];
    assert forall g :: g in list ==> g.record != a.record;
    JoinLists(list, more, a.record);
    forall b | b in accepted + [a]
      ensures Accounted(list + more, s, d, policy, pairs, b.record)
    {
      if b.record == a.record {
        forall otherSide, other | other in MineOf(otherSide, s) && other.id == a.record && other.Eligible()
          ensures Account(list + more, s, d, policy, pairs, otherSide, other)
        {
          OnlyRecord(s, side, mine, otherSide, other);
          AccountAdded(list, more, s, d, policy, pairs, side, mine);
        }
      } else {
        AccountStays(list, more, s, d, policy, pairs, b.record);
      }
    }
    forall g | g in list + more
      ensures Subject(s, accepted + [a], g.record)
    {
      if g in list {
        SubjectGrows(s, accepted, a, g.record);
      }
    }
  }

  lemma SkippedDiagnosed(list: seq<Diagnostic>, s: Snapshot, d: Decisions, policy: MatchingPolicy, pairs: seq<Pair>,
                         accepted: seq<Single>, a: Single)
    requires policy.Valid() && Diagnosed(list, s, d, policy, pairs, accepted)
    requires forall side, mine :: mine in MineOf(side, s) && mine.id == a.record ==> !mine.Eligible()
    ensures Diagnosed(list, s, d, policy, pairs, accepted + [a])
  {
    forall g | g in list
      ensures Subject(s, accepted + [a], g.record)
    {
      SubjectGrows(s, accepted, a, g.record);
    }
  }

  /** The side and the record an accepted decision names. */
  function AcceptedRecord(s: Snapshot, x: Id): (found: (RecordSide, Option<Record>))
    ensures found.1.Some? ==> found.1.value in MineOf(found.0, s) && found.1.value.id == x
    ensures found.1.None? ==> forall side, r :: r in MineOf(side, s) ==> r.id != x
  {
    var left, right := FindRecord(s.left, x), FindRecord(s.right, x);
    if left.Some? then (LeftSide, left) else if right.Some? then (RightSide, right) else (LeftSide, None)
  }

  lemma SkippedHasNoEligible(s: Snapshot, x: Id)
    requires s.Valid()
    requires AcceptedRecord(s, x).1.None? || !AcceptedRecord(s, x).1.value.Eligible()
    ensures forall side, mine :: mine in MineOf(side, s) && mine.id == x ==> !mine.Eligible()
  {
    var (side, record) := AcceptedRecord(s, x);
    forall otherSide, other | other in MineOf(otherSide, s) && other.id == x
      ensures !other.Eligible()
    {
      if record.Some? {
        OnlyRecord(s, side, record.value, otherSide, other);
      }
    }
  }

  lemma NewSubject(accepted: seq<Single>, i: nat)
    requires i < |accepted| && forall j, k :: 0 <= j < k < |accepted| ==> accepted[j].record != accepted[k].record
    ensures accepted[i].record !in SingleIds(accepted[..i])
  {
  }

  lemma AcceptedDiffer(d: Decisions)
    requires d.Valid()
    ensures forall j, k :: 0 <= j < k < |d.accepted| ==> d.accepted[j].record != d.accepted[k].record
  {
    var singles := d.accepted + d.reserved;
    forall j, k | 0 <= j < k < |d.accepted|
      ensures d.accepted[j].record != d.accepted[k].record
    {
      assert singles[j] == d.accepted[j] && singles[k] == d.accepted[k];
    }
  }

  /** One record's search and the budget it was given. */
  datatype Probe = Probe(side: RecordSide, mine: Record, budget: nat, gen: Generation)

  function Spent(probes: seq<Probe>): nat {
    if probes == [] then 0 else Spent(probes[..|probes| - 1]) + |probes[|probes| - 1].gen.edges|
  }

  ghost predicate ProbeKept(p: Probe, before: seq<Probe>, list: seq<Diagnostic>, s: Snapshot, d: Decisions,
                            policy: MatchingPolicy,
                            accepted: seq<Single>) {
    && p.mine in MineOf(p.side, s) && p.mine.Eligible() && p.mine.id in SingleIds(accepted)
    && p.budget + Spent(before) == policy.limits.runEdges
    && SearchOf(s, d, policy, p.side, p.mine, p.budget, p.gen)
    && (Incomplete(p.mine.id) in list <==> !p.gen.complete)
  }

  ghost predicate Probed(probes: seq<Probe>, s: Snapshot, x: Id) {
    forall side, mine :: mine in MineOf(side, s) && mine.id == x && mine.Eligible() ==> HasProbe(probes, side, mine)
  }

  ghost predicate HasProbe(probes: seq<Probe>, side: RecordSide, mine: Record) {
    exists p :: p in probes && p.side == side && p.mine == mine
  }

  /** Every accepted eligible record was searched within what its predecessors left of the run cap, and a
      warning says exactly that its search was cut short. */
  ghost predicate ProbesKept(probes: seq<Probe>, list: seq<Diagnostic>, s: Snapshot, d: Decisions,
                             policy: MatchingPolicy,
                             accepted: seq<Single>) {
    && (forall i :: 0 <= i < |probes| ==> ProbeKept(probes[i], probes[..i], list, s, d, policy, accepted))
    && (forall a :: a in accepted ==> Probed(probes, s, a.record))
  }

  lemma SkippedProbes(probes: seq<Probe>, list: seq<Diagnostic>, s: Snapshot, d: Decisions, policy: MatchingPolicy,
                      accepted: seq<Single>, a: Single)
    requires ProbesKept(probes, list, s, d, policy, accepted)
    requires forall side, mine :: mine in MineOf(side, s) && mine.id == a.record ==> !mine.Eligible()
    ensures ProbesKept(probes, list, s, d, policy, accepted + [a])
  {
    forall i | 0 <= i < |probes|
      ensures ProbeKept(probes[i], probes[..i], list, s, d, policy, accepted + [a])
    {
      SinglesGrow(accepted, a);
    }
  }

  lemma ProbeStays(p: Probe, before: seq<Probe>, list: seq<Diagnostic>, more: seq<Diagnostic>, s: Snapshot,
                   d: Decisions,
                   policy: MatchingPolicy, accepted: seq<Single>, a: Single)
    requires ProbeKept(p, before, list, s, d, policy, accepted)
    requires a.record !in SingleIds(accepted) && forall g :: g in more ==> g.record == a.record
    ensures ProbeKept(p, before, list + more, s, d, policy, accepted + [a])
  {
    SinglesGrow(accepted, a);
    assert Incomplete(p.mine.id).record == p.mine.id;
  }

  lemma ProbedStays(probes: seq<Probe>, p: Probe, s: Snapshot, x: Id)
    requires Probed(probes, s, x)
    ensures Probed(probes + [p], s, x)
  {
    forall side, mine | mine in MineOf(side, s) && mine.id == x && mine.Eligible()
      ensures HasProbe(probes + [p], side, mine)
    {
      var q :| q in probes && q.side == side && q.mine == mine;
      assert q in probes + [p];
    }
  }

  lemma NewlyProbed(probes: seq<Probe>, p: Probe, s: Snapshot)
    requires s.Valid() && p.mine in MineOf(p.side, s)
    ensures Probed(probes + [p], s, p.mine.id)
  {
    assert p in probes + [p];
    forall side, mine | mine in MineOf(side, s) && mine.id == p.mine.id && mine.Eligible()
      ensures HasProbe(probes + [p], side, mine)
    {
      OnlyRecord(s, p.side, p.mine, side, mine);
    }
  }

  lemma NewProbe(probes: seq<Probe>, p: Probe, list: seq<Diagnostic>, more: seq<Diagnostic>, s: Snapshot, d: Decisions,
                 policy: MatchingPolicy, accepted: seq<Single>, a: Single)
    requires (forall g :: g in list ==> g.record != a.record) && (Incomplete(a.record) in more <==> !p.gen.complete)
    requires p.mine in MineOf(p.side, s) && p.mine.Eligible() && p.budget + Spent(probes) == policy.limits.runEdges
    requires SearchOf(s, d, policy, p.side, p.mine, p.budget, p.gen) && p.mine.id == a.record
    ensures ProbeKept(p, probes, list + more, s, d, policy, accepted + [a])
  {
    SinglesGrow(accepted, a);
    assert Incomplete(a.record).record == a.record;
  }

  lemma AllProbed(probes: seq<Probe>, p: Probe, s: Snapshot, accepted: seq<Single>, a: Single)
    requires s.Valid() && p.mine in MineOf(p.side, s) && p.mine.id == a.record
    requires forall b :: b in accepted ==> Probed(probes, s, b.record)
    ensures forall b :: b in accepted + [a] ==> Probed(probes + [p], s, b.record)
  {
    forall b | b in accepted + [a]
      ensures Probed(probes + [p], s, b.record)
    {
      if b in accepted {
        ProbedStays(probes, p, s, b.record);
      } else {
        NewlyProbed(probes, p, s);
      }
    }
  }

  lemma OneMoreProbe(probes: seq<Probe>, p: Probe, list: seq<Diagnostic>, more: seq<Diagnostic>, s: Snapshot,
                     d: Decisions,
                     policy: MatchingPolicy, accepted: seq<Single>, a: Single)
    requires s.Valid() && ProbesKept(probes, list, s, d, policy, accepted) && a.record !in SingleIds(accepted)
    requires (forall g :: g in more ==> g.record == a.record) && p.mine.id == a.record && p.mine in MineOf(p.side, s)
    requires ProbeKept(p, probes, list + more, s, d, policy, accepted + [a])
    ensures ProbesKept(probes + [p], list + more, s, d, policy, accepted + [a])
    ensures Spent(probes + [p]) == Spent(probes) + |p.gen.edges|
  {
    var all := probes + [p];
    assert all[..|probes|] == probes;
    forall i | 0 <= i < |all|
      ensures ProbeKept(all[i], all[..i], list + more, s, d, policy, accepted + [a])
    {
      if i < |probes| {
        assert all[..i] == probes[..i];
        ProbeStays(probes[i], probes[..i], list, more, s, d, policy, accepted, a);
      }
    }
    AllProbed(probes, p, s, accepted, a);
  }

  lemma PrefixGrows<T>(s: seq<T>, i: nat)
    requires i < |s|
    ensures s[..i + 1] == s[..i] + [s[i]]
  {
  }

  /** One budget is shared by all searches: the retained edges of all of them together stay within the
      run cap, and so does the number of candidate diagnostics. */
  method Diagnose(s: Snapshot, d: Decisions, policy: MatchingPolicy, pairs: seq<Pair>)
    returns (r: Result<seq<Diagnostic>>, spent: nat, ghost probes: seq<Probe>)
    requires s.Valid() && d.Valid() && policy.Valid()
    ensures r.Ok? ==> Diagnosed(r.value, s, d, policy, pairs, d.accepted)
    ensures r.Ok? ==> ProbesKept(probes, r.value, s, d, policy, d.accepted)
    ensures r.Ok? ==> CandidateCount(r.value) <= spent == Spent(probes) <= policy.limits.runEdges
    ensures DistinctReasons(policy.passes) ==> r.Ok?
  {
    var list: seq<Diagnostic> := [];
    var remaining: nat := policy.limits.runEdges;
    probes := [];
    AcceptedDiffer(d);
    for i := 0 to |d.accepted|
      invariant remaining + Spent(probes) == policy.limits.runEdges
      invariant Diagnosed(list, s, d, policy, pairs, d.accepted[..i])
      invariant ProbesKept(probes, list, s, d, policy, d.accepted[..i])
      invariant CandidateCount(list) <= Spent(probes)
    {
      var a := d.accepted[i];
      PrefixGrows(d.accepted, i);
      var (side, record) := AcceptedRecord(s, a.record);
      if record.None? || !record.value.Eligible() {
        SkippedHasNoEligible(s, a.record);
        SkippedDiagnosed(list, s, d, policy, pairs, d.accepted[..i], a);
        SkippedProbes(probes, list, s, d, policy, d.accepted[..i], a);
      } else {
        var one, used, gen := DiagnoseOne(s, d, policy, pairs, side, record.value, remaining);
        if one.Err? {
          return Err(one.error), 0, probes;
        }
        var more := one.value;
        ghost var p := Probe(side, record.value, remaining, gen);
        NewSubject(d.accepted, i);
        OneMoreDiagnosed(list, more, used, remaining, s, d, policy, pairs, d.accepted[..i], a, side, record.value);
        NewProbe(probes, p, list, more, s, d, policy, d.accepted[..i], a);
        OneMoreProbe(probes, p, list, more, s, d, policy, d.accepted[..i], a);
        CountJoins(list, more);
        list, remaining, probes := list + more, remaining - used, probes + [p];
      }
    }
    assert d.accepted[..|d.accepted|] == d.accepted;
    r, spent := Ok(list), policy.limits.runEdges - remaining;
  }

  // ----- the complete reconciliation -----

  lemma DiagnosticIsValid(g: Diagnostic, s: Snapshot, d: Decisions, policy: MatchingPolicy, pairs: seq<Pair>,
                          accepted: seq<Single>,
                          list: seq<Diagnostic>)
    requires policy.Valid() && Diagnosed(list, s, d, policy, pairs, accepted) && g in list
    ensures g.Valid() && g.record in Ids(s.left) + Ids(s.right)
    ensures g.candidate.Some? ==> g.candidate.value in Ids(s.left) + Ids(s.right)
    ensures g.currentPair.Some? ==> exists p :: p in pairs && p.edge == g.currentPair.value
  {
    assert Subject(s, accepted, g.record);
    var side, mine :| mine in MineOf(side, s) && mine.id == g.record && mine.Eligible();
    var a :| a in accepted && a.record == g.record;
    assert Accounted(list, s, d, policy, pairs, a.record);
    assert Account(list, s, d, policy, pairs, side, mine);
    if g != Incomplete(mine.id) {
      var q :| Qualifies(s, d, policy, side, mine, q) && g == Found(mine.id, q.id, pairs, g.complete);
      assert q.id in Ids(MineOf(Other(side), s));
    }
  }

  lemma DiagnosedIsValid(s: Snapshot, d: Decisions, policy: MatchingPolicy, result: EngineResult)
    requires policy.Valid() && Diagnosed(result.diagnostics, s, d, policy, result.pairs, d.accepted)
    ensures DiagnosticsValid(s, result)
  {
    forall g | g in result.diagnostics
      ensures g.Valid() && g.record in Ids(s.left) + Ids(s.right)
      ensures g.candidate.Some? ==> g.candidate.value in Ids(s.left) + Ids(s.right)
      ensures g.currentPair.Some? ==> exists p :: p in result.pairs && p.edge == g.currentPair.value
    {
      DiagnosticIsValid(g, s, d, policy, result.pairs, d.accepted, result.diagnostics);
    }
    forall i, j | 0 <= i < j < |result.diagnostics|
      ensures !(&& result.diagnostics[i].record == result.diagnostics[j].record
                && result.diagnostics[i].candidate == result.diagnostics[j].candidate
                && result.diagnostics[i].kind == result.diagnostics[j].kind)
    {
      assert !SameSubject(result.diagnostics[i], result.diagnostics[j]);
    }
  }

  ghost predicate Answers(run: Run, result: EngineResult)
    requires run.policy.Valid()
  {
    && result == run.Result(result.diagnostics)
    && Diagnosed(result.diagnostics, run.s, run.d, run.policy, run.pairs, run.d.accepted)
    && CandidateCount(result.diagnostics) <= run.policy.limits.runEdges
  }

  lemma SamePrimary(s: Snapshot, primary: EngineResult, diagnostics: seq<Diagnostic>)
    requires PrimaryValid(s, primary)
    ensures PrimaryValid(s, primary.(diagnostics := diagnostics))
  {
  }

  /** The engine answers exactly when the reviewer's relationships face the right way and the solver is
      the policy's: no check of any stage, of the result or of its diagnostics can fail, and the
      diagnostics never change the result they describe. */
  method Reconcile(s: Snapshot, d: Decisions, policy: MatchingPolicy, solver: Solver)
    returns (r: Result<EngineResult>, ghost run: Run)
    requires s.Valid() && d.Valid() && policy.Valid()
    ensures !Oriented(s, d) ==> r == Err(WrongOrientation)
    ensures (MinimalSolver(solver) && DistinctReasons(policy.passes)) ==>
              (r.Ok? <==> Oriented(s, d) && solver.version == policy.solverVersion)
    ensures (r.Ok? && MinimalSolver(solver) && DistinctReasons(policy.passes)) ==>
              Runs(run, s, d, policy, solver) && Answers(run, r.value)
    ensures r.Ok? ==> PrimaryValid(s, r.value) && DiagnosticsValid(s, r.value)
  {
    var primary;
    primary, run := ReconcilePrimary(s, d, policy, solver);
    if primary.Err? {
      return primary, run;
    }
    var diagnosed, spent, probes := Diagnose(s, d, policy, primary.value.pairs);
    if diagnosed.Err? {
      return Err(diagnosed.error), run;
    }
    var result := primary.value.(diagnostics := diagnosed.value);
    DiagnosedIsValid(s, d, policy, result);
    SamePrimary(s, primary.value, diagnosed.value);
    if !PrimaryValid(s, result) || !DiagnosticsValid(s, result) {
      return Err(InvalidEngineResult), run;
    }
    r := Ok(result);
  }
}
