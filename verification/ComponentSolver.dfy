/** Optional-unmatched assignment of one component through a padded cost matrix. */
module ComponentSolver {
  import opened Matchings
  import opened Domain

  /** A solver answers a rectangular cost matrix with one (row, column) pair per row. */
  datatype Solver = Solver(version: string, minimize: seq<seq<int>> -> seq<(int, int)>)

  ghost predicate Rectangular(costs: seq<seq<int>>, width: nat) {
    0 < |costs| <= width && forall i :: 0 <= i < |costs| ==> |costs[i]| == width
  }

  /** One column per row, no column twice; the pairs come in any order. */
  ghost predicate RowPerfect(sel: seq<(int, int)>, rows: nat, columns: nat) {
    && |sel| == rows
    && (forall k :: 0 <= k < |sel| ==> 0 <= sel[k].0 < rows && 0 <= sel[k].1 < columns)
    && (forall j, k :: 0 <= j < k < |sel| ==> sel[j].0 != sel[k].0 && sel[j].1 != sel[k].1)
  }

  ghost predicate InRange(costs: seq<seq<int>>, sel: seq<(int, int)>) {
    forall k :: 0 <= k < |sel| ==> 0 <= sel[k].0 < |costs| && 0 <= sel[k].1 < |costs[sel[k].0]|
  }

  ghost function Cost(costs: seq<seq<int>>, sel: seq<(int, int)>): int
    requires InRange(costs, sel)
  {
    if sel == [] then 0
    else Cost(costs, sel[..|sel| - 1]) + costs[sel[|sel| - 1].0][sel[|sel| - 1].1]
  }

  ghost predicate Minimal(costs: seq<seq<int>>, sel: seq<(int, int)>)
    requires |costs| > 0 && Rectangular(costs, |costs[0]|)
  {
    && RowPerfect(sel, |costs|, |costs[0]|)
    && forall o :: RowPerfect(o, |costs|, |costs[0]|) ==> Cost(costs, sel) <= Cost(costs, o)
  }

  /** The contract the engine relies on: a minimum-cost row-perfect assignment. */
  ghost predicate MinimalSolver(solver: Solver) {
    forall costs :: |costs| > 0 && Rectangular(costs, |costs[0]|) ==> Minimal(costs, solver.minimize(costs))
  }

  // ----- the contract can be met -----

  ghost predicate Bounded(costs: seq<seq<int>>, bound: nat) {
    forall i, j :: 0 <= i < |costs| && 0 <= j < |costs[i]| ==> 0 <= costs[i][j] + bound && costs[i][j] <= bound
  }

  lemma {:induction false} RowBound(row: seq<int>) returns (bound: nat)
    ensures forall j :: 0 <= j < |row| ==> 0 <= row[j] + bound && row[j] <= bound
  {
    if row == [] {
      bound := 0;
    } else {
      var b := RowBound(row[1..]);
      bound := b + (if row[0] < 0 then -row[0] else row[0]);
      assert forall j :: 1 <= j < |row| ==> row[j] == row[1..][j - 1];
    }
  }

  lemma {:induction false} MatrixBound(costs: seq<seq<int>>) returns (bound: nat)
    ensures Bounded(costs, bound)
  {
    if costs == [] {
      bound := 0;
    } else {
      var a := RowBound(costs[0]);
      var b := MatrixBound(costs[1..]);
      bound := a + b;
      forall i, j | 0 <= i < |costs| && 0 <= j < |costs[i]|
        ensures 0 <= costs[i][j] + bound && costs[i][j] <= bound
      {
        if i > 0 {
          assert costs[i] == costs[1..][i - 1];
          assert 0 <= costs[1..][i - 1][j] + b && costs[1..][i - 1][j] <= b;
        }
      }
    }
  }

  lemma {:induction false} CostBound(costs: seq<seq<int>>, sel: seq<(int, int)>, bound: nat)
    requires InRange(costs, sel) && Bounded(costs, bound)
    ensures Cost(costs, sel) >= -(bound * |sel|)
  {
    if sel != [] {
      CostBound(costs, sel[..|sel| - 1], bound);
      assert bound * |sel| == bound * (|sel| - 1) + bound;
    }
  }

  lemma {:induction false} MinimalBelow(costs: seq<seq<int>>, sel: seq<(int, int)>, bound: nat)
    requires |costs| > 0 && Rectangular(costs, |costs[0]|) && Bounded(costs, bound)
    requires RowPerfect(sel, |costs|, |costs[0]|)
    ensures exists o :: Minimal(costs, o)
    decreases Cost(costs, sel) + bound * |costs|
  {
    CostBound(costs, sel, bound);
    if !Minimal(costs, sel) {
      var o :| RowPerfect(o, |costs|, |costs[0]|) && Cost(costs, o) < Cost(costs, sel);
      CostBound(costs, o, bound);
      MinimalBelow(costs, o, bound);
    }
  }

  lemma MinimalExists(costs: seq<seq<int>>)
    requires |costs| > 0 && Rectangular(costs, |costs[0]|)
    ensures exists o :: Minimal(costs, o)
  {
    var bound := MatrixBound(costs);
    MinimalBelow(costs, seq(|costs|, i => (i, i)), bound);
  }

  /** Every matrix has a minimum-cost selection, so minimal solvers exist. */
  lemma MinimalSolverExists(version: string)
    ensures exists s: Solver :: s.version == version && MinimalSolver(s)
  {
    var choose: seq<seq<int>> -> seq<(int, int)> :=
      (costs: seq<seq<int>>) =>
        if |costs| > 0 && Rectangular(costs, |costs[0]|) then
          MinimalExists(costs);
          var o :| Minimal(costs, o);
          o
        else [];
    var s := Solver(version, choose);
    assert MinimalSolver(s);
  }

  // ----- the padded matrix -----

  predicate Distinct(ids: seq<Id>) {
    forall i, j :: 0 <= i < j < |ids| ==> ids[i] != ids[j]
  }

  function ForbiddenCost(rows: nat): int {
    rows * 10_001 + 1
  }

  /** What a cell costs: minus the utility of an allowed edge, or the forbidden cost. */
  ghost function Cell(lefts: seq<Id>, rights: seq<Id>, allowed: Graph, i: nat, j: nat): int
    requires i < |lefts|
  {
    if j >= |rights| then 0
    else if Edge(lefts[i], rights[j]) in allowed then -allowed[Edge(lefts[i], rights[j])]
    else ForbiddenCost(|lefts|)
  }

  ghost function Padded(lefts: seq<Id>, rights: seq<Id>, allowed: Graph): (costs: seq<seq<int>>)
    ensures |costs| == |lefts|
    ensures forall i :: 0 <= i < |lefts| ==> |costs[i]| == |rights| + |lefts|
  {
    seq(|lefts|, i requires 0 <= i < |lefts| =>
      seq(|rights| + |lefts|, j requires 0 <= j < |rights| + |lefts| => Cell(lefts, rights, allowed, i, j)))
  }

  /** The real relationships a selection stands for; padding columns mean unmatched. */
  ghost function Picked(lefts: seq<Id>, rights: seq<Id>, sel: seq<(int, int)>): set<Edge>
    requires forall k :: 0 <= k < |sel| ==> 0 <= sel[k].0 < |lefts| && 0 <= sel[k].1
  {
    set k | 0 <= k < |sel| && sel[k].1 < |rights| :: Edge(lefts[sel[k].0], rights[sel[k].1])
  }

  ghost predicate Fits(lefts: seq<Id>, rights: seq<Id>, allowed: Graph) {
    && Distinct(lefts) && Distinct(rights)
    && forall e :: e in allowed ==> e.left in lefts && e.right in rights && 0 < allowed[e] <= SCALE
  }

  /** A selection with the one-per-row shape of a prefix of a row-perfect one. */
  ghost predicate Partial(sel: seq<(int, int)>, rows: nat, columns: nat) {
    && (forall k :: 0 <= k < |sel| ==> 0 <= sel[k].0 < rows && 0 <= sel[k].1 < columns)
    && (forall j, k :: 0 <= j < k < |sel| ==> sel[j].0 != sel[k].0 && sel[j].1 != sel[k].1)
  }

  lemma PickedLast(lefts: seq<Id>, rights: seq<Id>, sel: seq<(int, int)>)
    requires sel != [] && Partial(sel, |lefts|, |rights| + |lefts|) && Distinct(lefts) && Distinct(rights)
    ensures var last := sel[|sel| - 1];
            if last.1 >= |rights| then Picked(lefts, rights, sel) == Picked(lefts, rights, sel[..|sel| - 1])
            else Edge(lefts[last.0], rights[last.1]) !in Picked(lefts, rights, sel[..|sel| - 1]) &&
                 Picked(lefts, rights, sel) ==
                 Picked(lefts, rights, sel[..|sel| - 1]) + {Edge(lefts[last.0], rights[last.1])}
  {
    var init := sel[..|sel| - 1];
    forall e | e in Picked(lefts, rights, sel)
      ensures e in Picked(lefts, rights, init) ||
              (sel[|sel| - 1].1 < |rights| && e == Edge(lefts[sel[|sel| - 1].0], rights[sel[|sel| - 1].1]))
    {
      var k :| 0 <= k < |sel| && sel[k].1 < |rights| && e == Edge(lefts[sel[k].0], rights[sel[k].1]);
      if k < |init| {
        assert init[k] == sel[k];
      }
    }
    forall e | e in Picked(lefts, rights, init)
      ensures e in Picked(lefts, rights, sel)
    {
      var k :| 0 <= k < |init| && init[k].1 < |rights| && e == Edge(lefts[init[k].0], rights[init[k].1]);
      assert init[k] == sel[k];
    }
    if sel[|sel| - 1].1 < |rights| {
      var e := Edge(lefts[sel[|sel| - 1].0], rights[sel[|sel| - 1].1]);
      assert e in Picked(lefts, rights, sel);
    }
  }

  /** A selection that pays no forbidden cost costs minus the utility of what it picks. */
  lemma {:induction false} CostIsMinusUtility(lefts: seq<Id>, rights: seq<Id>, allowed: Graph, sel: seq<(int, int)>)
    requires Fits(lefts, rights, allowed) && Partial(sel, |lefts|, |rights| + |lefts|)
    requires Picked(lefts, rights, sel) <= allowed.Keys
    ensures Cost(Padded(lefts, rights, allowed), sel) == -Total(allowed, Picked(lefts, rights, sel))
  {
    if sel != [] {
      var init := sel[..|sel| - 1];
      var last := sel[|sel| - 1];
      PickedLast(lefts, rights, sel);
      CostIsMinusUtility(lefts, rights, allowed, init);
      if last.1 < |rights| {
        var e := Edge(lefts[last.0], rights[last.1]);
        TotalPick(allowed, Picked(lefts, rights, sel), e);
        assert Picked(lefts, rights, sel) - {e} == Picked(lefts, rights, init);
      }
    }
  }

  lemma PickedOneToOne(lefts: seq<Id>, rights: seq<Id>, sel: seq<(int, int)>)
    requires Partial(sel, |lefts|, |rights| + |lefts|) && Distinct(lefts) && Distinct(rights)
    ensures OneToOne(Picked(lefts, rights, sel))
  {
    forall e, f | e in Picked(lefts, rights, sel) && f in Picked(lefts, rights, sel) && Touch(e, f)
      ensures e == f
    {
      var j :| 0 <= j < |sel| && sel[j].1 < |rights| && e == Edge(lefts[sel[j].0], rights[sel[j].1]);
      var k :| 0 <= k < |sel| && sel[k].1 < |rights| && f == Edge(lefts[sel[k].0], rights[sel[k].1]);
    }
  }

  /** One forbidden cell outweighs every utility the other rows could collect. */
  lemma {:induction false} ForbiddenOutweighs(lefts: seq<Id>, rights: seq<Id>, allowed: Graph, sel: seq<(int, int)>)
    requires Fits(lefts, rights, allowed) && Partial(sel, |lefts|, |rights| + |lefts|)
    ensures Cost(Padded(lefts, rights, allowed), sel) >= -(SCALE * |sel|)
    ensures !(Picked(lefts, rights, sel) <= allowed.Keys) ==>
              Cost(Padded(lefts, rights, allowed), sel) >= ForbiddenCost(|lefts|) - SCALE * (|sel| - 1)
  {
    if sel != [] {
      PickedLast(lefts, rights, sel);
      ForbiddenOutweighs(lefts, rights, allowed, sel[..|sel| - 1]);
    }
  }

  // ----- from a matching back to a selection -----

  ghost function ColumnFor(lefts: seq<Id>, rights: seq<Id>, m: set<Edge>, i: nat): (c: nat)
    requires i < |lefts|
    ensures c < |rights| + |lefts|
    ensures c < |rights| ==> Edge(lefts[i], rights[c]) in m
    ensures (exists j :: 0 <= j < |rights| && Edge(lefts[i], rights[j]) in m) ==> c < |rights|
    ensures c >= |rights| ==> c == |rights| + i
  {
    if exists j :: 0 <= j < |rights| && Edge(lefts[i], rights[j]) in m then
      var j :| 0 <= j < |rights| && Edge(lefts[i], rights[j]) in m;
      j
    else |rights| + i
  }

  ghost function SelectionFor(lefts: seq<Id>, rights: seq<Id>, m: set<Edge>): (sel: seq<(int, int)>)
    ensures |sel| == |lefts|
    ensures forall i :: 0 <= i < |sel| ==> sel[i] == (i, ColumnFor(lefts, rights, m, i))
  {
    seq(|lefts|, i requires 0 <= i < |lefts| => (i, ColumnFor(lefts, rights, m, i)))
  }

  /** Every matching is the picking of some row-perfect selection. */
  lemma SelectionForMatching(lefts: seq<Id>, rights: seq<Id>, allowed: Graph, m: set<Edge>)
    requires Fits(lefts, rights, allowed) && Matching(allowed, m)
    ensures RowPerfect(SelectionFor(lefts, rights, m), |lefts|, |rights| + |lefts|)
    ensures Picked(lefts, rights, SelectionFor(lefts, rights, m)) == m
  {
    var sel := SelectionFor(lefts, rights, m);
    forall j, k | 0 <= j < k < |sel|
      ensures sel[j].0 != sel[k].0 && sel[j].1 != sel[k].1
    {
      assert sel[j].1 < |rights| ==> Touch(Edge(lefts[j], rights[sel[j].1]), Edge(lefts[k], rights[sel[j].1]));
    }
    forall e | e in m
      ensures e in Picked(lefts, rights, sel)
    {
      var i :| 0 <= i < |lefts| && lefts[i] == e.left;
      var j :| 0 <= j < |rights| && rights[j] == e.right;
      assert Edge(lefts[i], rights[j]) in m;
      var c := ColumnFor(lefts, rights, m, i);
      assert Touch(Edge(lefts[i], rights[c]), e);
      assert sel[i] == (i, c);
    }
  }

  lemma MatchingCost(lefts: seq<Id>, rights: seq<Id>, allowed: Graph, m: set<Edge>)
    requires Fits(lefts, rights, allowed) && Matching(allowed, m)
    ensures RowPerfect(SelectionFor(lefts, rights, m), |lefts|, |rights| + |lefts|)
    ensures Cost(Padded(lefts, rights, allowed), SelectionFor(lefts, rights, m)) == -Total(allowed, m)
  {
    SelectionForMatching(lefts, rights, allowed, m);
    CostIsMinusUtility(lefts, rights, allowed, SelectionFor(lefts, rights, m));
  }

  ghost predicate MinimalPadded(lefts: seq<Id>, rights: seq<Id>, allowed: Graph, sel: seq<(int, int)>) {
    && RowPerfect(sel, |lefts|, |rights| + |lefts|)
    && forall o :: RowPerfect(o, |lefts|, |rights| + |lefts|) ==>
         Cost(Padded(lefts, rights, allowed), sel) <= Cost(Padded(lefts, rights, allowed), o)
  }

  lemma MinimalIsPadded(lefts: seq<Id>, rights: seq<Id>, allowed: Graph, sel: seq<(int, int)>)
    requires |lefts| > 0 && Minimal(Padded(lefts, rights, allowed), sel)
    ensures MinimalPadded(lefts, rights, allowed, sel)
  {
    var costs := Padded(lefts, rights, allowed);
    assert |costs[0]| == |rights| + |lefts|;
  }

  /** A cost-minimal selection never pays the forbidden cost. */
  lemma ForbiddenNeverPaid(lefts: seq<Id>, rights: seq<Id>, allowed: Graph, sel: seq<(int, int)>)
    requires |lefts| > 0 && Fits(lefts, rights, allowed) && MinimalPadded(lefts, rights, allowed, sel)
    ensures Picked(lefts, rights, sel) <= allowed.Keys
  {
    MatchingCost(lefts, rights, allowed, {});
    ForbiddenOutweighs(lefts, rights, allowed, sel);
  }

  /** The padded matrix is exact: the relationships a cost-minimal selection picks form a
      matching of maximum utility, and its cost is minus that utility. */
  lemma MinimalPicksOptimum(lefts: seq<Id>, rights: seq<Id>, allowed: Graph, sel: seq<(int, int)>)
    requires |lefts| > 0 && Fits(lefts, rights, allowed) && MinimalPadded(lefts, rights, allowed, sel)
    ensures Optimal(allowed, Picked(lefts, rights, sel))
    ensures Cost(Padded(lefts, rights, allowed), sel) == -Best(allowed)
  {
    ForbiddenNeverPaid(lefts, rights, allowed, sel);
    CostIsMinusUtility(lefts, rights, allowed, sel);
    PickedOneToOne(lefts, rights, sel);
    var picked := Picked(lefts, rights, sel);
    forall o | Matching(allowed, o)
      ensures Total(allowed, o) <= Total(allowed, picked)
    {
      MatchingCost(lefts, rights, allowed, o);
    }
    assert Optimal(allowed, picked);
    BestIs(allowed, picked);
  }

  /** Conversely, the selection standing for a maximum-utility matching is cost-minimal. */
  lemma OptimumIsMinimal(lefts: seq<Id>, rights: seq<Id>, allowed: Graph, m: set<Edge>)
    requires Fits(lefts, rights, allowed) && Optimal(allowed, m)
    ensures MinimalPadded(lefts, rights, allowed, SelectionFor(lefts, rights, m))
  {
    MatchingCost(lefts, rights, allowed, m);
    assert Matching(allowed, {});
    forall o | RowPerfect(o, |lefts|, |rights| + |lefts|)
      ensures -Total(allowed, m) <= Cost(Padded(lefts, rights, allowed), o)
    {
      if Picked(lefts, rights, o) <= allowed.Keys {
        CostIsMinusUtility(lefts, rights, allowed, o);
        PickedOneToOne(lefts, rights, o);
      } else {
        ForbiddenOutweighs(lefts, rights, allowed, o);
      }
    }
  }

  // ----- checking what a solver returned -----

  function ToSet(s: seq<int>): set<int> {
    set x | x in s
  }

  lemma {:induction false} CardinalityDistinct(s: seq<int>)
    ensures |ToSet(s)| <= |s|
    ensures |ToSet(s)| == |s| <==> forall j, k :: 0 <= j < k < |s| ==> s[j] != s[k]
  {
    if s != [] {
      var init := s[..|s| - 1];
      var last := s[|s| - 1];
      CardinalityDistinct(init);
      assert s == init + [last];
      assert ToSet(s) == ToSet(init) + {last};
      assert last in ToSet(init) <==> exists j :: 0 <= j < |init| && init[j] == last;
    }
  }

  function RowsOf(sel: seq<(int, int)>): (rows: seq<int>)
    ensures |rows| == |sel| && forall k :: 0 <= k < |sel| ==> rows[k] == sel[k].0
  {
    seq(|sel|, k requires 0 <= k < |sel| => sel[k].0)
  }

  function ColumnsOf(sel: seq<(int, int)>): (columns: seq<int>)
    ensures |columns| == |sel| && forall k :: 0 <= k < |sel| ==> columns[k] == sel[k].1
  {
    seq(|sel|, k requires 0 <= k < |sel| => sel[k].1)
  }

  function SelectionProblem(sel: seq<(int, int)>, rows: nat, columns: nat): Option<DomainError> {
    if |sel| != rows then Some(WrongSelectionCount)
    else if ToSet(RowsOf(sel)) != Range(rows) || |ToSet(ColumnsOf(sel))| != |sel| then
      Some(DuplicateOrMissingSelection)
    else if exists k :: 0 <= k < |sel| && (sel[k].1 < 0 || sel[k].1 >= columns) then Some(ColumnOutOfRange)
    else None
  }

  ghost predicate RowChosen(sel: seq<(int, int)>, i: int) {
    exists k :: 0 <= k < |sel| && sel[k].0 == i
  }

  /** The selected rows are exactly the rows of the matrix, and no column is selected twice. */
  ghost predicate OncePerRow(sel: seq<(int, int)>, rows: nat) {
    && (forall i :: RowChosen(sel, i) <==> 0 <= i < rows)
    && forall k, l :: 0 <= k < l < |sel| ==> sel[k].1 != sel[l].1
  }

  ghost predicate OutOfRange(sel: seq<(int, int)>, columns: nat) {
    exists k :: 0 <= k < |sel| && !(0 <= sel[k].1 < columns)
  }

  lemma RowsChosen(sel: seq<(int, int)>, rows: nat)
    ensures ToSet(RowsOf(sel)) == Range(rows) <==> forall i :: RowChosen(sel, i) <==> 0 <= i < rows
  {
    var r := RowsOf(sel);
    forall i
      ensures i in ToSet(r) <==> RowChosen(sel, i)
    {
      if RowChosen(sel, i) {
        var k :| 0 <= k < |sel| && sel[k].0 == i;
        assert r[k] == i;
      }
    }
  }

  lemma ColumnsChosen(sel: seq<(int, int)>)
    ensures |ToSet(ColumnsOf(sel))| == |sel| <==> forall k, l :: 0 <= k < l < |sel| ==> sel[k].1 != sel[l].1
  {
    CardinalityDistinct(ColumnsOf(sel));
  }

  /** Which check refuses a selection: the count first, then repetitions and omissions, then the range of columns. */
  lemma RefusedSelections(sel: seq<(int, int)>, rows: nat, columns: nat)
    ensures SelectionProblem(sel, rows, columns) ==
            if |sel| != rows then Some(WrongSelectionCount)
            else if !OncePerRow(sel, rows) then Some(DuplicateOrMissingSelection)
            else if OutOfRange(sel, columns) then Some(ColumnOutOfRange)
            else None
  {
    RowsChosen(sel, rows);
    ColumnsChosen(sel);
  }

  /** The checks by counting accept exactly the row-perfect selections. */
  lemma AcceptedIffRowPerfect(sel: seq<(int, int)>, rows: nat, columns: nat)
    ensures SelectionProblem(sel, rows, columns).None? <==> RowPerfect(sel, rows, columns)
  {
    var r, c := RowsOf(sel), ColumnsOf(sel);
    CardinalityDistinct(r);
    CardinalityDistinct(c);
    if SelectionProblem(sel, rows, columns).None? {
      forall k | 0 <= k < |sel|
        ensures 0 <= sel[k].0 < rows
      {
        assert r[k] in ToSet(r);
      }
    }
    if RowPerfect(sel, rows, columns) {
      SubsetOfSameSize(ToSet(r), Range(rows));
    }
  }

  lemma SubsetOfSameSize<T>(a: set<T>, b: set<T>)
    requires a <= b && |a| == |b|
    ensures a == b
  {
    assert |b - a| == |b| - |a|;
  }

  // ----- solving one component -----

  datatype SelectedEdge = SelectedEdge(edge: Edge, score: int, utility: int) {
    predicate Valid() {
      0 < score <= SCALE && 0 < utility <= score
    }
  }

  /** The utilities of the candidates that may be selected. */
  function Allowed(candidates: Candidates, floor: int, forbidden: set<Edge>): Graph {
    map e | e in candidates && e !in forbidden :: candidates[e].score - floor
  }

  /** The selected edges a selection stands for, in selection order. */
  ghost function Chosen(lefts: seq<Id>, rights: seq<Id>, candidates: Candidates, floor: int,
                        sel: seq<(int, int)>): seq<SelectedEdge>
    requires forall k :: 0 <= k < |sel| ==> 0 <= sel[k].0 < |lefts| && 0 <= sel[k].1
  {
    if sel == [] then []
    else
      var init, last := sel[..|sel| - 1], sel[|sel| - 1];
      var chosen := Chosen(lefts, rights, candidates, floor, init);
      if last.1 < |rights| && Edge(lefts[last.0], rights[last.1]) in candidates then
        var e := Edge(lefts[last.0], rights[last.1]);
        chosen + [SelectedEdge(e, candidates[e].score, candidates[e].score - floor)]
      else chosen
  }

  function Edges(selected: seq<SelectedEdge>): set<Edge> {
    set s | s in selected :: s.edge
  }

  function UtilitySum(selected: seq<SelectedEdge>): int {
    if selected == [] then 0
    else UtilitySum(selected[..|selected| - 1]) + selected[|selected| - 1].utility
  }

  predicate OneToOneSelection(selected: seq<SelectedEdge>) {
    forall i, j :: 0 <= i < j < |selected| ==> !Touch(selected[i].edge, selected[j].edge)
  }

  ghost predicate FromCandidates(selected: seq<SelectedEdge>, candidates: Candidates, floor: int) {
    forall s :: s in selected ==>
                  s.edge in candidates && s.score == candidates[s.edge].score && s.utility == s.score - floor
  }

  lemma EdgesAppend(selected: seq<SelectedEdge>, s: SelectedEdge)
    ensures Edges(selected + [s]) == Edges(selected) + {s.edge}
    ensures UtilitySum(selected + [s]) == UtilitySum(selected) + s.utility
  {
    var all := selected + [s];
    assert all[..|all| - 1] == selected;
    forall e | e in Edges(selected) + {s.edge}
      ensures e in Edges(all)
    {
      if e == s.edge {
        assert s in all;
      } else {
        var t :| t in selected && t.edge == e;
        assert t in all;
      }
    }
  }

  lemma {:induction false} ChosenEdges(lefts: seq<Id>, rights: seq<Id>, candidates: Candidates, floor: int,
                                       sel: seq<(int, int)>)
    requires Distinct(lefts) && Distinct(rights) && Partial(sel, |lefts|, |rights| + |lefts|)
    requires Picked(lefts, rights, sel) <= candidates.Keys
    ensures Edges(Chosen(lefts, rights, candidates, floor, sel)) == Picked(lefts, rights, sel)
    ensures FromCandidates(Chosen(lefts, rights, candidates, floor, sel), candidates, floor)
  {
    if sel != [] {
      var init, last := sel[..|sel| - 1], sel[|sel| - 1];
      PickedLast(lefts, rights, sel);
      ChosenEdges(lefts, rights, candidates, floor, init);
      if last.1 < |rights| {
        var e := Edge(lefts[last.0], rights[last.1]);
        assert e in Picked(lefts, rights, sel);
        EdgesAppend(Chosen(lefts, rights, candidates, floor, init),
                    SelectedEdge(e, candidates[e].score, candidates[e].score - floor));
      }
    }
  }

  lemma {:induction false} ChosenUtility(lefts: seq<Id>, rights: seq<Id>, candidates: Candidates, floor: int,
                                         allowed: Graph, sel: seq<(int, int)>)
    requires Distinct(lefts) && Distinct(rights) && Partial(sel, |lefts|, |rights| + |lefts|)
    requires Picked(lefts, rights, sel) <= allowed.Keys <= candidates.Keys
    requires forall e :: e in allowed ==> allowed[e] == candidates[e].score - floor
    ensures UtilitySum(Chosen(lefts, rights, candidates, floor, sel)) == Total(allowed, Picked(lefts, rights, sel))
  {
    if sel != [] {
      var init, last := sel[..|sel| - 1], sel[|sel| - 1];
      PickedLast(lefts, rights, sel);
      ChosenUtility(lefts, rights, candidates, floor, allowed, init);
      if last.1 < |rights| {
        var e := Edge(lefts[last.0], rights[last.1]);
        OneMoreChosen(Chosen(lefts, rights, candidates, floor, init), Picked(lefts, rights, init), e, candidates, floor,
                      allowed);
        assert Picked(lefts, rights, sel) == Picked(lefts, rights, init) + {e};
      }
    }
  }

  lemma OneMoreChosen(chosen: seq<SelectedEdge>, picked: set<Edge>, e: Edge, candidates: Candidates, floor: int,
                      allowed: Graph)
    requires e in allowed && e in candidates && allowed[e] == candidates[e].score - floor
    requires e !in picked && picked <= allowed.Keys && UtilitySum(chosen) == Total(allowed, picked)
    ensures UtilitySum(chosen + [SelectedEdge(e, candidates[e].score, candidates[e].score - floor)]) ==
            Total(allowed, picked + {e})
  {
    assert picked + {e} - {e} == picked;
    TotalPick(allowed, picked + {e}, e);
    EdgesAppend(chosen, SelectedEdge(e, candidates[e].score, candidates[e].score - floor));
  }

  lemma {:induction false} ChosenOneToOne(lefts: seq<Id>, rights: seq<Id>, candidates: Candidates, floor: int,
                                          sel: seq<(int, int)>)
    requires Distinct(lefts) && Distinct(rights) && Partial(sel, |lefts|, |rights| + |lefts|)
    requires Picked(lefts, rights, sel) <= candidates.Keys
    ensures OneToOneSelection(Chosen(lefts, rights, candidates, floor, sel))
  {
    if sel != [] {
      var init, last := sel[..|sel| - 1], sel[|sel| - 1];
      PickedLast(lefts, rights, sel);
      ChosenOneToOne(lefts, rights, candidates, floor, init);
      if last.1 < |rights| {
        var e := Edge(lefts[last.0], rights[last.1]);
        var before := Chosen(lefts, rights, candidates, floor, init);
        ChosenEdges(lefts, rights, candidates, floor, init);
        PickedOneToOne(lefts, rights, sel);
        assert e in Picked(lefts, rights, sel);
        forall s | s in before
          ensures !Touch(s.edge, e)
        {
          assert s.edge in Edges(before);
        }
      }
    }
  }

  /** Whether a component is what the assignment stage hands to the solver: identities without
      repetition covering every candidate, and every candidate strictly above the floor. */
  ghost predicate ComponentInput(lefts: seq<Id>, rights: seq<Id>, candidates: Candidates, floor: int) {
    && |lefts| > 0 && Distinct(lefts) && Distinct(rights) && 0 <= floor
    && forall e :: e in candidates ==> e.left in lefts && e.right in rights && floor < candidates[e].score <= SCALE
  }

  /** A permitted relationship costs what its score lacks to the floor, any other one 10001 for every row and one more,
      and leaving a record unmatched nothing. */
  ghost predicate CostsAre(costs: seq<seq<int>>, lefts: seq<Id>, rights: seq<Id>, candidates: Candidates, floor: int,
                           forbidden: set<Edge>) {
    && |costs| == |lefts|
    && forall i :: 0 <= i < |lefts| ==>
         && |costs[i]| == |rights| + |lefts|
         && (forall j :: |rights| <= j < |rights| + |lefts| ==> costs[i][j] == 0)
         && forall j :: 0 <= j < |rights| ==>
              var e := Edge(lefts[i], rights[j]);
              costs[i][j] == if e in candidates && e !in forbidden then floor - candidates[e].score
                             else 10_001 * |lefts| + 1
  }

  method CostMatrix(lefts: seq<Id>, rights: seq<Id>, candidates: Candidates, floor: int, forbidden: set<Edge>)
    returns (costs: seq<seq<int>>)
    ensures costs == Padded(lefts, rights, Allowed(candidates, floor, forbidden))
    ensures CostsAre(costs, lefts, rights, candidates, floor, forbidden)
  {
    ghost var padded := Padded(lefts, rights, Allowed(candidates, floor, forbidden));
    costs := [];
    for i := 0 to |lefts|
      invariant costs == padded[..i]
    {
      var row: seq<int> := [];
      for j := 0 to |rights|
        invariant row == padded[i][..j]
      {
        var e := Edge(lefts[i], rights[j]);
        row := row + [if e in candidates && e !in forbidden then -(candidates[e].score - floor)
                      else ForbiddenCost(|lefts|)];
      }
      row := row + seq(|lefts|, _ => 0);
      assert row == padded[i];
      costs := costs + [row];
    }
  }

  /** Every real choice of a selection is an allowed candidate. */
  ghost predicate PicksOnly(lefts: seq<Id>, rights: seq<Id>, allowed: set<Edge>, sel: seq<(int, int)>)
    requires forall k :: 0 <= k < |sel| ==> 0 <= sel[k].0 < |lefts| && 0 <= sel[k].1
  {
    forall k :: 0 <= k < |sel| && sel[k].1 < |rights| ==> Edge(lefts[sel[k].0], rights[sel[k].1]) in allowed
  }

  lemma PicksOnlyIsPicked(lefts: seq<Id>, rights: seq<Id>, allowed: set<Edge>, sel: seq<(int, int)>)
    requires forall k :: 0 <= k < |sel| ==> 0 <= sel[k].0 < |lefts| && 0 <= sel[k].1
    ensures PicksOnly(lefts, rights, allowed, sel) <==> Picked(lefts, rights, sel) <= allowed
  {
    if Picked(lefts, rights, sel) <= allowed {
      forall k | 0 <= k < |sel| && sel[k].1 < |rights|
        ensures Edge(lefts[sel[k].0], rights[sel[k].1]) in allowed
      {
        assert Edge(lefts[sel[k].0], rights[sel[k].1]) in Picked(lefts, rights, sel);
      }
    }
  }

  method SelectEdges(lefts: seq<Id>, rights: seq<Id>, candidates: Candidates, floor: int, forbidden: set<Edge>,
                     sel: seq<(int, int)>) returns (r: Result<seq<SelectedEdge>>)
    requires forall k :: 0 <= k < |sel| ==> 0 <= sel[k].0 < |lefts| && 0 <= sel[k].1
    ensures r.Ok? ==>
              && PicksOnly(lefts, rights, Allowed(candidates, floor, forbidden).Keys, sel)
              && r.value == Chosen(lefts, rights, candidates, floor, sel)
              && forall s :: s in r.value ==> s.Valid()
    ensures r.Err? ==>
              || !PicksOnly(lefts, rights, Allowed(candidates, floor, forbidden).Keys, sel)
              || exists e :: e in Allowed(candidates, floor, forbidden) &&
                             !SelectedEdge(e, candidates[e].score, candidates[e].score - floor).Valid()
  {
    var selected: seq<SelectedEdge> := [];
    for k := 0 to |sel|
      invariant PicksOnly(lefts, rights, Allowed(candidates, floor, forbidden).Keys, sel[..k])
      invariant selected == Chosen(lefts, rights, candidates, floor, sel[..k])
      invariant forall s :: s in selected ==> s.Valid()
    {
      assert sel[..k + 1][..k] == sel[..k];
      if sel[k].1 < |rights| {
        var e := Edge(lefts[sel[k].0], rights[sel[k].1]);
        if e in forbidden || e !in candidates {
          return Err(ForbiddenRelationshipSelected);
        }
        assert e in Allowed(candidates, floor, forbidden);
        var edge := SelectedEdge(e, candidates[e].score, candidates[e].score - floor);
        if edge.utility <= 0 {
          return Err(NonpositiveEdgeSelected);
        }
        if !edge.Valid() {
          return Err(InvalidSelectedEdge);
        }
        selected := selected + [edge];
      }
    }
    assert sel[..|sel|] == sel;
    r := Ok(selected);
  }

  /** No check on a minimal solver's selection, or on the edges made from it, can fail. */
  lemma MinimalSelects(lefts: seq<Id>, rights: seq<Id>, candidates: Candidates, floor: int, solver: Solver,
                       forbidden: set<Edge>)
    requires MinimalSolver(solver) && ComponentInput(lefts, rights, candidates, floor)
    ensures var sel := solver.minimize(Padded(lefts, rights, Allowed(candidates, floor, forbidden)));
            && RowPerfect(sel, |lefts|, |rights| + |lefts|)
            && Picked(lefts, rights, sel) <= Allowed(candidates, floor, forbidden).Keys
    ensures forall e :: e in Allowed(candidates, floor, forbidden) ==>
              SelectedEdge(e, candidates[e].score, candidates[e].score - floor).Valid()
  {
    SolvedComponentIsOptimal(lefts, rights, candidates, floor, solver, forbidden);
  }

  /** The edges the solver's selection picks, all of them allowed. */
  ghost predicate SolvedFrom(lefts: seq<Id>, rights: seq<Id>, candidates: Candidates, floor: int, solver: Solver,
                             forbidden: set<Edge>, selected: seq<SelectedEdge>) {
    var sel := solver.minimize(Padded(lefts, rights, Allowed(candidates, floor, forbidden)));
    && RowPerfect(sel, |lefts|, |rights| + |lefts|)
    && Picked(lefts, rights, sel) <= Allowed(candidates, floor, forbidden).Keys
    && selected == Chosen(lefts, rights, candidates, floor, sel)
    && forall s :: s in selected ==> s.Valid()
  }

  method SolveComponent(lefts: seq<Id>, rights: seq<Id>, candidates: Candidates, floor: int, solver: Solver,
                        forbidden: set<Edge>) returns (r: Result<seq<SelectedEdge>>)
    ensures !(forbidden <= candidates.Keys) ==> r == Err(ForeignForbiddenEdge)
    ensures r.Ok? ==> SolvedFrom(lefts, rights, candidates, floor, solver, forbidden, r.value)
    ensures (MinimalSolver(solver) && ComponentInput(lefts, rights, candidates, floor) &&
             forbidden <= candidates.Keys) ==> r.Ok?
  {
    if !(forbidden <= candidates.Keys) {
      return Err(ForeignForbiddenEdge);
    }
    var costs := CostMatrix(lefts, rights, candidates, floor, forbidden);
    if MinimalSolver(solver) && ComponentInput(lefts, rights, candidates, floor) {
      MinimalSelects(lefts, rights, candidates, floor, solver, forbidden);
    }
    r := CheckSelection(lefts, rights, candidates, floor, forbidden, solver.minimize(costs));
  }

  /** The checks on a selection, and the edges made from one that passes them. */
  method CheckSelection(lefts: seq<Id>, rights: seq<Id>, candidates: Candidates, floor: int, forbidden: set<Edge>,
                        sel: seq<(int, int)>) returns (r: Result<seq<SelectedEdge>>)
    ensures r.Ok? ==>
              && RowPerfect(sel, |lefts|, |rights| + |lefts|)
              && Picked(lefts, rights, sel) <= Allowed(candidates, floor, forbidden).Keys
              && r.value == Chosen(lefts, rights, candidates, floor, sel)
              && forall s :: s in r.value ==> s.Valid()
    ensures r.Err? && RowPerfect(sel, |lefts|, |rights| + |lefts|) &&
            Picked(lefts, rights, sel) <= Allowed(candidates, floor, forbidden).Keys ==>
              exists e :: e in Allowed(candidates, floor, forbidden) &&
                          !SelectedEdge(e, candidates[e].score, candidates[e].score - floor).Valid()
  {
    var problem := SelectionProblem(sel, |lefts|, |rights| + |lefts|);
    AcceptedIffRowPerfect(sel, |lefts|, |rights| + |lefts|);
    if problem.Some? {
      return Err(problem.value);
    }
    PicksOnlyIsPicked(lefts, rights, Allowed(candidates, floor, forbidden).Keys, sel);
    r := SelectEdges(lefts, rights, candidates, floor, forbidden, sel);
  }

  /** What a minimal solver's answer means for the component, whatever edges are forbidden:
      a one-to-one selection of allowed candidates of maximum total utility. */
  lemma SolvedComponentIsOptimal(lefts: seq<Id>, rights: seq<Id>, candidates: Candidates, floor: int,
                                 solver: Solver, forbidden: set<Edge>)
    requires MinimalSolver(solver) && ComponentInput(lefts, rights, candidates, floor)
    ensures var allowed := Allowed(candidates, floor, forbidden);
            var sel := solver.minimize(Padded(lefts, rights, allowed));
            && RowPerfect(sel, |lefts|, |rights| + |lefts|)
            && Picked(lefts, rights, sel) <= allowed.Keys
            && var chosen := Chosen(lefts, rights, candidates, floor, sel);
            && FromCandidates(chosen, candidates, floor)
            && OneToOneSelection(chosen)
            && Positive(allowed)
            && Optimal(allowed, Edges(chosen))
            && UtilitySum(chosen) == Best(allowed)
  {
    var allowed := Allowed(candidates, floor, forbidden);
    var costs := Padded(lefts, rights, allowed);
    var sel := solver.minimize(costs);
    assert Rectangular(costs, |costs[0]|);
    MinimalIsPadded(lefts, rights, allowed, sel);
    MinimalPicksOptimum(lefts, rights, allowed, sel);
    ChosenEdges(lefts, rights, candidates, floor, sel);
    ChosenUtility(lefts, rights, candidates, floor, allowed, sel);
    ChosenOneToOne(lefts, rights, candidates, floor, sel);
    BestIs(allowed, Picked(lefts, rights, sel));
  }
}
