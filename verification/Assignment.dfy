/** Global assignment: every complete above-floor component is solved on its own. */
module Assignment {
  import opened Matchings
  import opened Domain
  import opened Reachability
  import opened Components
  import opened Ordering
  import opened ComponentSolver

  datatype AssignmentLimit = IncompleteCandidateGraph | ComponentNodeLimit | ComponentEdgeLimit

  /** Identities and digests are injective images of their content; the content stands for them. */
  datatype ComponentId = ComponentId(lefts: seq<Id>, rights: seq<Id>)

  datatype GraphDigest = GraphDigest(id: ComponentId, floor: nat, edges: map<Edge, (int, bool)>)

  datatype Component = Component(
    id: ComponentId,
    digest: GraphDigest,
    version: string,
    lefts: seq<Id>,
    rights: seq<Id>,
    count: nat,
    optimum: int,
    limit: Option<AssignmentLimit>,
    selected: seq<SelectedEdge>)
  {
    predicate Complete() {
      limit.None?
    }

    /** The checks the constructor makes. */
    predicate Valid() {
      && lefts != [] && rights != [] && Distinct(lefts) && Distinct(rights)
      && 0 < count && 0 <= optimum
      && OneToOneSelection(selected)
      && (forall s :: s in selected ==> s.edge.left in lefts && s.edge.right in rights)
      && (!Complete() ==> selected == [])
      && optimum == UtilitySum(selected)
    }
  }

  datatype Assignment = Assignment(
    components: seq<Component>, selected: seq<SelectedEdge>, sourceLimited: set<Id>, limited: set<Id>)

  function Flatten(components: seq<Component>): seq<SelectedEdge> {
    if components == [] then []
    else Flatten(components[..|components| - 1]) + components[|components| - 1].selected
  }

  function MembersOf(c: Component): set<Id> {
    (set x | x in c.lefts) + (set x | x in c.rights)
  }

  function IncompleteMembers(components: seq<Component>): set<Id> {
    set c, x | c in components && !c.Complete() && x in MembersOf(c) :: x
  }

  predicate AssignmentValid(a: Assignment) {
    && (forall i, j :: 0 <= i < j < |a.components| ==> a.components[i].id != a.components[j].id)
    && a.selected == Flatten(a.components)
    && OneToOneSelection(a.selected)
    && a.limited == a.sourceLimited + IncompleteMembers(a.components)
  }

  function Narrow(candidates: Candidates, edges: set<Edge>): (narrow: Candidates)
    ensures narrow.Keys == candidates.Keys * edges
  {
    map e | e in candidates && e in edges :: candidates[e]
  }

  function DigestOf(id: ComponentId, floor: nat, edges: Candidates): GraphDigest {
    GraphDigest(id, floor, map e | e in edges :: (edges[e].score, edges[e].complete))
  }

  /** Whether the component may be solved, and if not, the first reason in the order of the checks. */
  function LimitOf(lefts: seq<Id>, rights: seq<Id>, edges: Candidates, limited: set<Id>,
                   limits: Limits): Option<AssignmentLimit> {
    if (exists x :: x in lefts + rights && x in limited) || (exists e :: e in edges && !edges[e].complete) then
      Some(IncompleteCandidateGraph)
    else if |lefts| + |rights| > limits.componentNodes then Some(ComponentNodeLimit)
    else if |edges| > limits.componentEdges then Some(ComponentEdgeLimit)
    else None
  }

  /** What the solver picks for a set of candidates: a function of the candidates alone. */
  ghost function SolverChoice(solver: Solver, lefts: seq<Id>, rights: seq<Id>, edges: Candidates, floor: int,
                              forbidden: set<Edge>): seq<SelectedEdge>
  {
    var sel := solver.minimize(Padded(lefts, rights, Allowed(edges, floor, forbidden)));
    if forall k :: 0 <= k < |sel| ==> 0 <= sel[k].0 < |lefts| && 0 <= sel[k].1 then
      Chosen(lefts, rights, edges, floor, sel)
    else []
  }

  /** The outcome of one component, given the edges it consists of. */
  ghost predicate ComponentFor(c: Component, edges: set<Edge>, candidates: Candidates, limited: set<Id>,
                               policy: MatchingPolicy, solver: Solver) {
    var inside := Narrow(candidates, edges);
    && edges != {} && edges <= Eligible(candidates, policy.floor).Keys
    && c.lefts == SortedIds(Lefts(edges)) && c.rights == SortedIds(Rights(edges))
    && c.id == ComponentId(c.lefts, c.rights) && c.digest == DigestOf(c.id, policy.floor, inside)
    && c.version == solver.version && c.count == |edges|
    && c.limit == LimitOf(c.lefts, c.rights, inside, limited, policy.limits)
    && c.selected == ChoiceFor(c.limit, solver, c.lefts, c.rights, inside, policy.floor)
    && c.optimum == UtilitySum(c.selected)
    && c.Valid()
  }

  /** The two sides of a nonempty edge set, in ascending order. */
  lemma SidesAre(edges: set<Edge>)
    requires edges != {}
    ensures var lefts, rights := SortedIds(Lefts(edges)), SortedIds(Rights(edges));
            && lefts != [] && rights != [] && Distinct(lefts) && Distinct(rights)
            && (forall x :: x in lefts <==> x in Lefts(edges)) && (forall x :: x in rights <==> x in Rights(edges))
            && forall e :: e in edges ==> e.left in lefts && e.right in rights
  {
    SortedIdsAre(Lefts(edges));
    SortedIdsAre(Rights(edges));
    var e :| e in edges;
    assert e.left in Lefts(edges) && e.right in Rights(edges);
  }

  lemma NarrowIsInput(candidates: Candidates, edges: set<Edge>, floor: nat)
    requires edges != {} && edges <= Eligible(candidates, floor).Keys
    requires forall e :: e in candidates ==> candidates[e].score <= SCALE
    ensures ComponentInput(SortedIds(Lefts(edges)), SortedIds(Rights(edges)), Narrow(candidates, edges), floor)
  {
    SidesAre(edges);
  }

  ghost predicate Scored(candidates: Candidates) {
    forall e :: e in candidates ==> candidates[e].score <= SCALE
  }

  ghost function ChoiceFor(limit: Option<AssignmentLimit>, solver: Solver, lefts: seq<Id>, rights: seq<Id>,
                           inside: Candidates, floor: int): seq<SelectedEdge> {
    if limit.None? then SolverChoice(solver, lefts, rights, inside, floor, {}) else []
  }

  method SelectUnlessLimited(lefts: seq<Id>, rights: seq<Id>, inside: Candidates, floor: int, solver: Solver,
                             limit: Option<AssignmentLimit>)
    returns (r: Result<seq<SelectedEdge>>)
    ensures r.Ok? ==> r.value == ChoiceFor(limit, solver, lefts, rights, inside, floor)
    ensures MinimalSolver(solver) && ComponentInput(lefts, rights, inside, floor) ==> r.Ok?
  {
    if limit.Some? {
      return Ok([]);
    }
    r := SolveComponent(lefts, rights, inside, floor, solver, {});
  }

  method SolveOne(edges: set<Edge>, candidates: Candidates, limited: set<Id>, policy: MatchingPolicy, solver: Solver)
    returns (r: Result<Component>)
    requires edges != {} && edges <= Eligible(candidates, policy.floor).Keys
    ensures r.Ok? ==> ComponentFor(r.value, edges, candidates, limited, policy, solver)
    ensures MinimalSolver(solver) && Scored(candidates) ==> r.Ok?
  {
    var lefts, rights := SortedIds(Lefts(edges)), SortedIds(Rights(edges));
    var inside := Narrow(candidates, edges);
    assert inside.Keys == edges && |inside| == |inside.Keys|;
    ghost var exact := MinimalSolver(solver) && Scored(candidates);
    if exact {
      NarrowIsInput(candidates, edges, policy.floor);
    }
    var id := ComponentId(lefts, rights);
    var limit := LimitOf(lefts, rights, inside, limited, policy.limits);
    var solved := SelectUnlessLimited(lefts, rights, inside, policy.floor, solver, limit);
    if solved.Err? {
      return Err(solved.error);
    }
    var c := Component(id, DigestOf(id, policy.floor, inside), solver.version, lefts, rights, |inside|,
                       UtilitySum(solved.value), limit, solved.value);
    if exact {
      BothSides(edges);
      SolvedIsValid(c, edges, inside, policy.floor, solver);
    }
    r := Checked(c, edges, candidates, limited, policy, solver);
  }

  /** The constructor: a component whose checks fail is refused. */
  method Checked(c: Component, ghost edges: set<Edge>, ghost candidates: Candidates, ghost limited: set<Id>,
                 ghost policy: MatchingPolicy, ghost solver: Solver)
    returns (r: Result<Component>)
    requires edges != {} && edges <= Eligible(candidates, policy.floor).Keys
    requires c.lefts == SortedIds(Lefts(edges)) && c.rights == SortedIds(Rights(edges))
    requires c.id == ComponentId(c.lefts, c.rights) && c.count == |edges| && c.version == solver.version
    requires c.digest == DigestOf(c.id, policy.floor, Narrow(candidates, edges))
    requires c.limit == LimitOf(c.lefts, c.rights, Narrow(candidates, edges), limited, policy.limits)
    requires c.selected == ChoiceFor(c.limit, solver, c.lefts, c.rights, Narrow(candidates, edges), policy.floor)
    requires c.optimum == UtilitySum(c.selected)
    ensures r.Ok? ==> r.value == c && ComponentFor(c, edges, candidates, limited, policy, solver)
    ensures c.Valid() ==> r.Ok?
  {
    r := if c.Valid() then Ok(c) else Err(InvalidComponent);
  }

  lemma BothSides(edges: set<Edge>)
    requires edges != {}
    ensures SortedIds(Rights(edges)) != []
  {
    SidesAre(edges);
  }

  lemma SolvedIsValid(c: Component, edges: set<Edge>, inside: Candidates, floor: int, solver: Solver)
    requires MinimalSolver(solver) && ComponentInput(c.lefts, c.rights, inside, floor)
    requires inside.Keys == edges && edges != {} && c.count == |edges| && c.rights != []
    requires c.selected == ChoiceFor(c.limit, solver, c.lefts, c.rights, inside, floor)
    requires c.optimum == UtilitySum(c.selected)
    ensures c.Valid()
  {
    if c.Complete() {
      SolvedComponentIsOptimal(c.lefts, c.rights, inside, floor, solver, {});
      var allowed := Allowed(inside, floor, {});
      BestBounds(allowed, {});
    }
  }

  // ----- all components -----

  /** The edges a component's own identities span: how the gates recover them. */
  ghost function Inside(edges: set<Edge>, c: Component): set<Edge> {
    set e | e in edges && e.left in c.lefts && e.right in c.rights
  }

  ghost predicate HasInside(edges: set<Edge>, components: seq<Component>, k: nat, e: Edge) {
    k < |components| && e in Inside(edges, components[k])
  }

  /** The components stand for the reachability classes of the above-floor graph. */
  ghost predicate Partitions(edges: set<Edge>, components: seq<Component>) {
    && (forall e :: e in edges ==> exists k :: HasInside(edges, components, k, e))
    && (forall j, k, e, f :: HasInside(edges, components, j, e) && HasInside(edges, components, k, f) ==>
                               (j == k <==> Connected(edges, e, f)))
  }

  ghost predicate AllComponentsFor(components: seq<Component>, classes: seq<set<Edge>>, candidates: Candidates,
                                   limited: set<Id>, policy: MatchingPolicy, solver: Solver) {
    && |components| == |classes|
    && forall k :: 0 <= k < |components| ==> ComponentFor(components[k], classes[k], candidates, limited, policy, solver)
  }

  ghost function InsideAll(edges: set<Edge>, components: seq<Component>): (classes: seq<set<Edge>>)
    ensures |classes| == |components|
    ensures forall k :: 0 <= k < |classes| ==> classes[k] == Inside(edges, components[k])
  {
    seq(|components|, k requires 0 <= k < |components| => Inside(edges, components[k]))
  }

  ghost predicate Assigned(candidates: Candidates, limited: set<Id>, policy: MatchingPolicy, solver: Solver,
                           a: Assignment) {
    var edges := Eligible(candidates, policy.floor).Keys;
    && AllComponentsFor(a.components, InsideAll(edges, a.components), candidates, limited, policy, solver)
    && Partitions(edges, a.components)
    && AssignmentValid(a)
    && a.sourceLimited == limited
  }

  ghost function ClassSets(classes: seq<seq<Edge>>): (sets: seq<set<Edge>>)
    ensures |sets| == |classes|
    ensures forall k :: 0 <= k < |sets| ==> sets[k] == EdgeSet(classes[k])
  {
    seq(|classes|, k requires 0 <= k < |classes| => EdgeSet(classes[k]))
  }

  lemma SameClass(sorted: seq<Edge>, classes: seq<seq<Edge>>, k: nat, f: Edge, e: Edge)
    requires ReachabilityClasses(sorted, classes) && k < |classes| && f in classes[k]
    requires e in sorted && Touch(f, e)
    ensures e in classes[k]
  {
    var edges := EdgeSet(sorted);
    LinkedSelf(Touch, edges, f);
    LinkedStep(Touch, edges, f, f, e);
    var j :| 0 <= j < |classes| && e in classes[j];
    assert Connected(edges, f, e);
  }

  lemma TouchedIsInClass(sorted: seq<Edge>, classes: seq<seq<Edge>>, k: nat, e: Edge)
    requires ReachabilityClasses(sorted, classes) && k < |classes|
    requires e in sorted && e.left in Lefts(EdgeSet(classes[k]))
    ensures e in classes[k]
  {
    var f :| f in EdgeSet(classes[k]) && f.left == e.left;
    SameClass(sorted, classes, k, f, e);
  }

  lemma EndsSpanClass(sorted: seq<Edge>, classes: seq<seq<Edge>>, k: nat, c: Component)
    requires ReachabilityClasses(sorted, classes) && k < |classes| && EdgeSet(classes[k]) <= EdgeSet(sorted)
    requires forall x :: x in c.lefts <==> x in Lefts(EdgeSet(classes[k]))
    requires forall e :: e in EdgeSet(classes[k]) ==> e.left in c.lefts && e.right in c.rights
    ensures Inside(EdgeSet(sorted), c) == EdgeSet(classes[k])
  {
    forall e | e in Inside(EdgeSet(sorted), c)
      ensures e in EdgeSet(classes[k])
    {
      TouchedIsInClass(sorted, classes, k, e);
    }
  }

  /** A class is recovered from its endpoints, because an edge sharing one belongs to the class. */
  lemma ClassIsInside(sorted: seq<Edge>, classes: seq<seq<Edge>>, k: nat, c: Component)
    requires ReachabilityClasses(sorted, classes) && k < |classes|
    requires c.lefts == SortedIds(Lefts(EdgeSet(classes[k]))) && c.rights == SortedIds(Rights(EdgeSet(classes[k])))
    ensures Inside(EdgeSet(sorted), c) == EdgeSet(classes[k])
  {
    ClassIsEligible(sorted, classes, k, EdgeSet(sorted));
    SidesAre(EdgeSet(classes[k]));
    EndsSpanClass(sorted, classes, k, c);
  }

  lemma ClassIsEligible(sorted: seq<Edge>, classes: seq<seq<Edge>>, k: nat, edges: set<Edge>)
    requires ReachabilityClasses(sorted, classes) && k < |classes| && EdgeSet(sorted) == edges
    ensures EdgeSet(classes[k]) != {} && EdgeSet(classes[k]) <= edges
  {
    assert classes[k] in classes && classes[k] != [];
    assert classes[k][0] in EdgeSet(classes[k]);
    forall e | e in classes[k]
      ensures e in edges
    {
      assert e in sorted;
    }
  }

  lemma ClassesPartition(sorted: seq<Edge>, classes: seq<seq<Edge>>, components: seq<Component>)
    requires ReachabilityClasses(sorted, classes)
    requires InsideAll(EdgeSet(sorted), components) == ClassSets(classes)
    ensures Partitions(EdgeSet(sorted), components)
  {
    var edges := EdgeSet(sorted);
    forall k: nat, e
      ensures HasInside(edges, components, k, e) <==> k < |classes| && e in classes[k]
    {
      if k < |classes| {
        assert InsideAll(edges, components)[k] == ClassSets(classes)[k];
      }
    }
    forall e | e in edges
      ensures exists k :: HasInside(edges, components, k, e)
    {
      var k :| 0 <= k < |classes| && e in classes[k];
      assert HasInside(edges, components, k, e);
    }
  }

  // ----- the selections of different components -----

  ghost predicate SelectedSomewhere(components: seq<Component>, s: SelectedEdge) {
    exists k :: 0 <= k < |components| && s in components[k].selected
  }

  lemma {:induction false} FlattenMembers(components: seq<Component>)
    ensures forall s :: s in Flatten(components) <==> SelectedSomewhere(components, s)
  {
    if components != [] {
      var init, last := components[..|components| - 1], components[|components| - 1];
      FlattenMembers(init);
      forall s
        ensures s in Flatten(components) <==> SelectedSomewhere(components, s)
      {
        if SelectedSomewhere(init, s) {
          var k :| 0 <= k < |init| && s in init[k].selected;
          assert s in components[k].selected;
        }
        if SelectedSomewhere(components, s) && s !in last.selected {
          var k :| 0 <= k < |components| && s in components[k].selected;
          assert s in init[k].selected;
        }
      }
    }
  }

  /** Different components never select touching edges. */
  ghost predicate Apart(components: seq<Component>) {
    forall j, k, s, t :: 0 <= j < k < |components| && s in components[j].selected && t in components[k].selected ==>
      !Touch(s.edge, t.edge)
  }

  lemma ConcatOneToOne(a: seq<SelectedEdge>, b: seq<SelectedEdge>)
    requires OneToOneSelection(a) && OneToOneSelection(b)
    requires forall s, t :: s in a && t in b ==> !Touch(s.edge, t.edge)
    ensures OneToOneSelection(a + b)
  {
    var all := a + b;
    forall i, j | 0 <= i < j < |all|
      ensures !Touch(all[i].edge, all[j].edge)
    {
      if i < |a| <= j {
        assert all[i] in a && all[j] in b;
      }
    }
  }

  lemma {:induction false} FlattenOneToOne(components: seq<Component>)
    requires Apart(components) && forall k :: 0 <= k < |components| ==> OneToOneSelection(components[k].selected)
    ensures OneToOneSelection(Flatten(components))
  {
    if components != [] {
      var init, last := components[..|components| - 1], components[|components| - 1];
      FlattenOneToOne(init);
      FlattenMembers(init);
      forall s, t | s in Flatten(init) && t in last.selected
        ensures !Touch(s.edge, t.edge)
      {
        assert SelectedSomewhere(init, s);
        var k :| 0 <= k < |init| && s in init[k].selected;
        assert components[k] == init[k];
      }
      ConcatOneToOne(Flatten(init), last.selected);
    }
  }

  lemma SelectedIsInside(c: Component, edges: set<Edge>, candidates: Candidates, limited: set<Id>,
                         policy: MatchingPolicy, solver: Solver, s: SelectedEdge)
    requires MinimalSolver(solver) && Scored(candidates)
    requires ComponentFor(c, edges, candidates, limited, policy, solver) && s in c.selected
    ensures s.edge in edges && s.score == candidates[s.edge].score && s.utility == s.score - policy.floor
  {
    var inside := Narrow(candidates, edges);
    NarrowIsInput(candidates, edges, policy.floor);
    SolvedComponentIsOptimal(c.lefts, c.rights, inside, policy.floor, solver, {});
    assert s.edge in Edges(c.selected);
  }

  lemma TouchingShareComponent(edges: set<Edge>, components: seq<Component>, j: nat, k: nat, e: Edge, f: Edge)
    requires Partitions(edges, components)
    requires HasInside(edges, components, j, e) && HasInside(edges, components, k, f) && Touch(e, f)
    ensures j == k
  {
    LinkedSelf(Touch, edges, e);
    LinkedStep(Touch, edges, e, e, f);
    assert Connected(edges, e, f);
  }

  lemma AsComponent(edges: set<Edge>, components: seq<Component>, k: nat, candidates: Candidates, limited: set<Id>,
                    policy: MatchingPolicy, solver: Solver)
    requires AllComponentsFor(components, InsideAll(edges, components), candidates, limited, policy, solver)
    requires k < |components|
    ensures ComponentFor(components[k], Inside(edges, components[k]), candidates, limited, policy, solver)
  {
    assert ComponentFor(components[k], InsideAll(edges, components)[k], candidates, limited, policy, solver);
  }

  lemma SelectedHere(edges: set<Edge>, components: seq<Component>, k: nat, candidates: Candidates, limited: set<Id>,
                     policy: MatchingPolicy, solver: Solver, s: SelectedEdge)
    requires MinimalSolver(solver) && Scored(candidates)
    requires AllComponentsFor(components, InsideAll(edges, components), candidates, limited, policy, solver)
    requires k < |components| && s in components[k].selected
    ensures HasInside(edges, components, k, s.edge)
  {
    AsComponent(edges, components, k, candidates, limited, policy, solver);
    SelectedIsInside(components[k], Inside(edges, components[k]), candidates, limited, policy, solver, s);
  }

  ghost predicate AllSelectedInside(edges: set<Edge>, components: seq<Component>) {
    forall k: nat, s :: k < |components| && s in components[k].selected ==> HasInside(edges, components, k, s.edge)
  }

  lemma EverySelectedInside(edges: set<Edge>, components: seq<Component>, candidates: Candidates, limited: set<Id>,
                            policy: MatchingPolicy, solver: Solver)
    requires MinimalSolver(solver) && Scored(candidates)
    requires AllComponentsFor(components, InsideAll(edges, components), candidates, limited, policy, solver)
    ensures AllSelectedInside(edges, components)
  {
    forall k: nat, s | k < |components| && s in components[k].selected
      ensures HasInside(edges, components, k, s.edge)
    {
      SelectedHere(edges, components, k, candidates, limited, policy, solver, s);
    }
  }

  lemma InsideApart(edges: set<Edge>, components: seq<Component>)
    requires Partitions(edges, components) && AllSelectedInside(edges, components)
    ensures Apart(components)
  {
    forall j, k, s, t | 0 <= j < k < |components| && s in components[j].selected && t in components[k].selected
      ensures !Touch(s.edge, t.edge)
    {
      if Touch(s.edge, t.edge) {
        TouchingShareComponent(edges, components, j, k, s.edge, t.edge);
      }
    }
  }

  lemma ComponentsApart(edges: set<Edge>, components: seq<Component>, candidates: Candidates, limited: set<Id>,
                        policy: MatchingPolicy, solver: Solver)
    requires MinimalSolver(solver) && Scored(candidates) && Partitions(edges, components)
    requires AllComponentsFor(components, InsideAll(edges, components), candidates, limited, policy, solver)
    ensures Apart(components)
  {
    EverySelectedInside(edges, components, candidates, limited, policy, solver);
    InsideApart(edges, components);
  }

  /** A component is named by its endpoints and has an edge. */
  lemma NamedByEnds(edges: set<Edge>, components: seq<Component>, k: nat, candidates: Candidates, limited: set<Id>,
                    policy: MatchingPolicy, solver: Solver)
    requires AllComponentsFor(components, InsideAll(edges, components), candidates, limited, policy, solver)
    requires k < |components|
    ensures components[k].id == ComponentId(components[k].lefts, components[k].rights)
    ensures Inside(edges, components[k]) != {}
  {
    AsComponent(edges, components, k, candidates, limited, policy, solver);
  }

  lemma IdsDiffer(edges: set<Edge>, components: seq<Component>, candidates: Candidates, limited: set<Id>,
                  policy: MatchingPolicy, solver: Solver)
    requires Partitions(edges, components)
    requires AllComponentsFor(components, InsideAll(edges, components), candidates, limited, policy, solver)
    ensures forall i, j :: 0 <= i < j < |components| ==> components[i].id != components[j].id
  {
    forall j: nat, k: nat | j < k < |components|
      ensures components[j].id != components[k].id
    {
      NamedByEnds(edges, components, j, candidates, limited, policy, solver);
      NamedByEnds(edges, components, k, candidates, limited, policy, solver);
      if components[j].id == components[k].id {
        var e :| e in Inside(edges, components[j]);
        assert Inside(edges, components[j]) == Inside(edges, components[k]);
        assert HasInside(edges, components, j, e) && HasInside(edges, components, k, e);
        TouchingShareComponent(edges, components, j, k, e, e);
      }
    }
  }

  method SolveClasses(classes: seq<seq<Edge>>, candidates: Candidates, limited: set<Id>, policy: MatchingPolicy,
                      solver: Solver) returns (r: Result<seq<Component>>)
    requires forall k :: 0 <= k < |classes| ==>
               EdgeSet(classes[k]) != {} && EdgeSet(classes[k]) <= Eligible(candidates, policy.floor).Keys
    ensures r.Ok? ==> AllComponentsFor(r.value, ClassSets(classes), candidates, limited, policy, solver)
    ensures MinimalSolver(solver) && Scored(candidates) ==> r.Ok?
  {
    var components: seq<Component> := [];
    for k := 0 to |classes|
      invariant |components| == k
      invariant forall i :: 0 <= i < k ==>
                  ComponentFor(components[i], EdgeSet(classes[i]), candidates, limited, policy, solver)
    {
      var solved := SolveOne(EdgeSet(classes[k]), candidates, limited, policy, solver);
      if solved.Err? {
        return Err(solved.error);
      }
      components := components + [solved.value];
    }
    r := Ok(components);
  }

  lemma SidesOfClass(components: seq<Component>, sets: seq<set<Edge>>, k: nat, candidates: Candidates, limited: set<Id>,
                     policy: MatchingPolicy, solver: Solver)
    requires AllComponentsFor(components, sets, candidates, limited, policy, solver) && k < |components|
    ensures components[k].lefts == SortedIds(Lefts(sets[k])) && components[k].rights == SortedIds(Rights(sets[k]))
  {
    assert ComponentFor(components[k], sets[k], candidates, limited, policy, solver);
  }

  lemma SolvedClassesPartition(sorted: seq<Edge>, classes: seq<seq<Edge>>, components: seq<Component>,
                               candidates: Candidates, limited: set<Id>, policy: MatchingPolicy, solver: Solver)
    requires ReachabilityClasses(sorted, classes)
    requires AllComponentsFor(components, ClassSets(classes), candidates, limited, policy, solver)
    ensures InsideAll(EdgeSet(sorted), components) == ClassSets(classes)
    ensures Partitions(EdgeSet(sorted), components)
  {
    forall k | 0 <= k < |components|
      ensures Inside(EdgeSet(sorted), components[k]) == EdgeSet(classes[k])
    {
      SidesOfClass(components, ClassSets(classes), k, candidates, limited, policy, solver);
      ClassIsInside(sorted, classes, k, components[k]);
    }
    ClassesPartition(sorted, classes, components);
  }

  method SolveAssignment(candidates: Candidates, generatedEdges: set<Edge>, limited: set<Id>, policy: MatchingPolicy,
                         solver: Solver)
    returns (r: Result<Assignment>)
    ensures solver.version != policy.solverVersion ==> r == Err(SolverVersionMismatch)
    ensures solver.version == policy.solverVersion && candidates.Keys != generatedEdges ==> r == Err(CandidatesDoNotCoverEdges)
    ensures r.Ok? ==> Assigned(candidates, limited, policy, solver, r.value)
    ensures (MinimalSolver(solver) && Scored(candidates) && solver.version == policy.solverVersion &&
             candidates.Keys == generatedEdges) ==> r.Ok?
  {
    if solver.version != policy.solverVersion {
      return Err(SolverVersionMismatch);
    }
    if candidates.Keys != generatedEdges {
      return Err(CandidatesDoNotCoverEdges);
    }
    var edges := Eligible(candidates, policy.floor).Keys;
    var sorted := SortedEdges(edges);
    assert EdgeSet(sorted) == edges;
    var classes := ConnectedComponents(sorted);
    ClassesAreEligible(sorted, classes, edges);
    var solved := SolveClasses(classes, candidates, limited, policy, solver);
    if solved.Err? {
      return Err(solved.error);
    }
    SolvedClassesPartition(sorted, classes, solved.value, candidates, limited, policy, solver);
    if MinimalSolver(solver) && Scored(candidates) {
      SolvedAreApart(edges, solved.value, candidates, limited, policy, solver);
    }
    r := Assemble(solved.value, limited);
  }

  lemma ClassesAreEligible(sorted: seq<Edge>, classes: seq<seq<Edge>>, edges: set<Edge>)
    requires ReachabilityClasses(sorted, classes) && EdgeSet(sorted) == edges
    ensures forall k :: 0 <= k < |classes| ==> EdgeSet(classes[k]) != {} && EdgeSet(classes[k]) <= edges
  {
    forall k | 0 <= k < |classes|
      ensures EdgeSet(classes[k]) != {} && EdgeSet(classes[k]) <= edges
    {
      ClassIsEligible(sorted, classes, k, edges);
    }
  }

  /** The constructor of the result: an assignment whose checks fail is refused. */
  method Assemble(components: seq<Component>, limited: set<Id>) returns (r: Result<Assignment>)
    ensures r.Ok? ==> r.value.components == components && r.value.sourceLimited == limited && AssignmentValid(r.value)
    ensures OneToOneSelection(Flatten(components)) && IdsApart(components) ==> r.Ok?
  {
    var a := Assignment(components, Flatten(components), limited, limited + IncompleteMembers(components));
    r := if AssignmentValid(a) then Ok(a) else Err(InvalidAssignment);
  }

  ghost predicate IdsApart(components: seq<Component>) {
    forall i, j :: 0 <= i < j < |components| ==> components[i].id != components[j].id
  }

  /** What the assembled checks demand of the components holds for a minimal solver's. */
  lemma SolvedAreApart(edges: set<Edge>, components: seq<Component>, candidates: Candidates, limited: set<Id>,
                       policy: MatchingPolicy, solver: Solver)
    requires MinimalSolver(solver) && Scored(candidates) && Partitions(edges, components)
    requires AllComponentsFor(components, InsideAll(edges, components), candidates, limited, policy, solver)
    ensures OneToOneSelection(Flatten(components)) && IdsApart(components)
  {
    ComponentsApart(edges, components, candidates, limited, policy, solver);
    IdsDiffer(edges, components, candidates, limited, policy, solver);
    forall k | 0 <= k < |components|
      ensures OneToOneSelection(components[k].selected)
    {
      SelectedOneToOne(edges, components, k, candidates, limited, policy, solver);
    }
    FlattenOneToOne(components);
  }

  lemma SelectedOneToOne(edges: set<Edge>, components: seq<Component>, k: nat, candidates: Candidates, limited: set<Id>,
                         policy: MatchingPolicy, solver: Solver)
    requires AllComponentsFor(components, InsideAll(edges, components), candidates, limited, policy, solver)
    requires k < |components|
    ensures OneToOneSelection(components[k].selected)
  {
    AsComponent(edges, components, k, candidates, limited, policy, solver);
  }

  // ----- which components are solved -----

  /** The edges above the floor between the endpoints of a component. */
  ghost function AboveFloor(candidates: Candidates, floor: int, c: Component): set<Edge> {
    set e | e in candidates && e.left in c.lefts && e.right in c.rights && candidates[e].score > floor
  }

  /** The search around the component was cut short: at one of its records, or for one of its edges. */
  ghost predicate CutShort(c: Component, edges: set<Edge>, candidates: Candidates, limited: set<Id>)
    requires edges <= candidates.Keys
  {
    || (exists x :: x in c.lefts && x in limited)
    || (exists x :: x in c.rights && x in limited)
    || (exists e :: e in edges && !candidates[e].complete)
  }

  /** Whether a component is solved, and if not, why: a search cut short comes first, then too many endpoints,
      then too many edges. */
  ghost predicate LimitMeans(c: Component, edges: set<Edge>, candidates: Candidates, limited: set<Id>, limits: Limits)
    requires edges <= candidates.Keys
  {
    var nodes := |c.lefts| + |c.rights|;
    var cut := CutShort(c, edges, candidates, limited);
    && (c.limit == Some(IncompleteCandidateGraph) <==> cut)
    && (c.limit == Some(ComponentNodeLimit) <==> !cut && nodes > limits.componentNodes)
    && (c.limit == Some(ComponentEdgeLimit) <==>
          !cut && nodes <= limits.componentNodes && |edges| > limits.componentEdges)
    && (c.limit.None? <==> !cut && nodes <= limits.componentNodes && |edges| <= limits.componentEdges)
    && (c.limit.Some? ==> c.selected == [])
  }

  lemma LimitOfMeans(c: Component, edges: set<Edge>, candidates: Candidates, limited: set<Id>, limits: Limits)
    requires edges <= candidates.Keys && (c.limit.Some? ==> c.selected == [])
    requires c.limit == LimitOf(c.lefts, c.rights, Narrow(candidates, edges), limited, limits)
    ensures LimitMeans(c, edges, candidates, limited, limits)
  {
    var narrow := Narrow(candidates, edges);
    assert narrow.Keys == edges && |narrow| == |narrow.Keys|;
    assert forall x :: x in c.lefts + c.rights <==> x in c.lefts || x in c.rights;
  }

  lemma ComponentLimit(c: Component, edges: set<Edge>, candidates: Candidates, limited: set<Id>, policy: MatchingPolicy,
                       solver: Solver)
    requires ComponentFor(c, edges, candidates, limited, policy, solver)
    ensures edges <= candidates.Keys && c.limit == LimitOf(c.lefts, c.rights, Narrow(candidates, edges), limited, policy.limits)
    ensures (c.limit.Some? ==> c.selected == []) && Distinct(c.lefts) && Distinct(c.rights)
  {
  }

  lemma ComponentLimitMeans(c: Component, edges: set<Edge>, candidates: Candidates, limited: set<Id>,
                            policy: MatchingPolicy, solver: Solver)
    requires ComponentFor(c, edges, candidates, limited, policy, solver)
    ensures Distinct(c.lefts) && Distinct(c.rights) && edges <= candidates.Keys
    ensures LimitMeans(c, edges, candidates, limited, policy.limits)
  {
    ComponentLimit(c, edges, candidates, limited, policy, solver);
    LimitOfMeans(c, edges, candidates, limited, policy.limits);
  }

  lemma InsideIsAboveFloor(candidates: Candidates, floor: int, c: Component)
    ensures Inside(Eligible(candidates, floor).Keys, c) == AboveFloor(candidates, floor, c)
  {
  }

  /** Exactly the components the caps and the generation leave untouched are solved, and the others say why not. */
  lemma LimitsAre(candidates: Candidates, limited: set<Id>, policy: MatchingPolicy, solver: Solver, a: Assignment, k: nat)
    requires Assigned(candidates, limited, policy, solver, a) && k < |a.components|
    ensures Distinct(a.components[k].lefts) && Distinct(a.components[k].rights)
    ensures LimitMeans(a.components[k], AboveFloor(candidates, policy.floor, a.components[k]), candidates, limited,
                       policy.limits)
  {
    var c, edges := a.components[k], Eligible(candidates, policy.floor).Keys;
    AsComponent(edges, a.components, k, candidates, limited, policy, solver);
    InsideIsAboveFloor(candidates, policy.floor, c);
    ComponentLimitMeans(c, Inside(edges, c), candidates, limited, policy, solver);
  }
}
