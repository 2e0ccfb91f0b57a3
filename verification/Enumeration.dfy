/** Bounded enumeration of the candidate edges of one blocking partition. */
module Enumeration {
  import opened Matchings
  import opened Domain
  import opened Blocking

  datatype LimitReason = PerRecordLimit | RunEdgeLimit | ConnectedToIncomplete

  type EdgeReasons = map<Edge, set<string>>

  /** The retained work of a run so far: the edges with the passes that produced them, and how
      many retained edges each record has. */
  datatype Retained = Retained(edges: EdgeReasons, leftDegree: map<Id, nat>, rightDegree: map<Id, nat>)

  function Degree(degrees: map<Id, nat>, x: Id): nat {
    if x in degrees then degrees[x] else 0
  }

  ghost function LeftEdges(edges: EdgeReasons, x: Id): set<Edge> {
    set e | e in edges && e.left == x
  }

  ghost function RightEdges(edges: EdgeReasons, x: Id): set<Edge> {
    set e | e in edges && e.right == x
  }

  /** The caps hold, and the counters are the true degrees. */
  ghost predicate WithinCaps(kept: Retained, limits: Limits) {
    && (forall x :: Degree(kept.leftDegree, x) == |LeftEdges(kept.edges, x)| <= limits.perRecord)
    && (forall x :: Degree(kept.rightDegree, x) == |RightEdges(kept.edges, x)| <= limits.perRecord)
    && |kept.edges| <= limits.runEdges
    && forall e :: e in kept.edges ==> kept.edges[e] != {}
  }

  predicate Has(edges: EdgeReasons, e: Edge, reason: string) {
    e in edges && reason in edges[e]
  }

  ghost predicate Grows(before: EdgeReasons, after: EdgeReasons) {
    forall e, reason :: Has(before, e, reason) ==> Has(after, e, reason)
  }

  lemma GrowsMeasures(before: Retained, after: Retained, limits: Limits, x: Id)
    requires WithinCaps(before, limits) && WithinCaps(after, limits) && Grows(before.edges, after.edges)
    ensures before.edges.Keys <= after.edges.Keys
    ensures Degree(before.leftDegree, x) <= Degree(after.leftDegree, x)
    ensures Degree(before.rightDegree, x) <= Degree(after.rightDegree, x)
    ensures |before.edges| <= |after.edges|
  {
    forall e | e in before.edges
      ensures e in after.edges
    {
      var reason :| reason in before.edges[e];
      assert Has(before.edges, e, reason);
    }
    Subset(LeftEdges(before.edges, x), LeftEdges(after.edges, x));
    Subset(RightEdges(before.edges, x), RightEdges(after.edges, x));
    Subset(before.edges.Keys, after.edges.Keys);
    assert |before.edges| == |before.edges.Keys| && |after.edges| == |after.edges.Keys|;
  }

  lemma Subset<T>(a: set<T>, b: set<T>)
    requires a <= b
    ensures |a| <= |b|
  {
    assert b == a + (b - a);
  }

  function Retain(kept: Retained, e: Edge, reason: string): Retained {
    Retained(kept.edges[e := {reason}],
             kept.leftDegree[e.left := Degree(kept.leftDegree, e.left) + 1],
             kept.rightDegree[e.right := Degree(kept.rightDegree, e.right) + 1])
  }

  lemma OneMoreLeftEdge(edges: EdgeReasons, e: Edge, reasons: set<string>, x: Id)
    requires e !in edges
    ensures |LeftEdges(edges[e := reasons], x)| == |LeftEdges(edges, x)| + if e.left == x then 1 else 0
  {
    if e.left == x {
      assert LeftEdges(edges[e := reasons], x) == LeftEdges(edges, x) + {e};
    } else {
      assert LeftEdges(edges[e := reasons], x) == LeftEdges(edges, x);
    }
  }

  lemma OneMoreRightEdge(edges: EdgeReasons, e: Edge, reasons: set<string>, x: Id)
    requires e !in edges
    ensures |RightEdges(edges[e := reasons], x)| == |RightEdges(edges, x)| + if e.right == x then 1 else 0
  {
    if e.right == x {
      assert RightEdges(edges[e := reasons], x) == RightEdges(edges, x) + {e};
    } else {
      assert RightEdges(edges[e := reasons], x) == RightEdges(edges, x);
    }
  }

  lemma RetainKeepsCaps(kept: Retained, limits: Limits, e: Edge, reason: string)
    requires WithinCaps(kept, limits) && e !in kept.edges
    requires Degree(kept.leftDegree, e.left) < limits.perRecord && Degree(kept.rightDegree, e.right) < limits.perRecord
    requires |kept.edges| < limits.runEdges
    ensures WithinCaps(Retain(kept, e, reason), limits)
  {
    var after := Retain(kept, e, reason);
    forall x
      ensures Degree(after.leftDegree, x) == |LeftEdges(after.edges, x)| <= limits.perRecord
      ensures Degree(after.rightDegree, x) == |RightEdges(after.edges, x)| <= limits.perRecord
    {
      OneMoreLeftEdge(kept.edges, e, {reason}, x);
      OneMoreRightEdge(kept.edges, e, {reason}, x);
    }
    assert reason in after.edges[e];
    forall f | f in after.edges
      ensures after.edges[f] != {}
    {
      assert f == e || after.edges[f] == kept.edges[f];
    }
  }

  function AddReason(edges: EdgeReasons, e: Edge, reason: string): EdgeReasons
    requires e in edges
  {
    edges[e := edges[e] + {reason}]
  }

  lemma AddReasonKeepsCaps(kept: Retained, limits: Limits, e: Edge, reason: string)
    requires WithinCaps(kept, limits) && e in kept.edges
    ensures WithinCaps(kept.(edges := AddReason(kept.edges, e, reason)), limits)
  {
    var edges := AddReason(kept.edges, e, reason);
    assert edges.Keys == kept.edges.Keys;
    assert |edges| == |edges.Keys| && |kept.edges| == |kept.edges.Keys|;
    forall x
      ensures LeftEdges(edges, x) == LeftEdges(kept.edges, x) && RightEdges(edges, x) == RightEdges(kept.edges, x)
    {
    }
  }

  /** A permitted pair was left out, and rightly: one of its records is at its cap, or neither is and the run is. */
  ghost predicate Refused(edges: EdgeReasons, limits: Limits, e: Edge, prohibited: set<Edge>, reason: LimitReason) {
    e !in prohibited && e !in edges && AtCap(edges, limits, e, reason)
  }

  ghost predicate AtCap(edges: EdgeReasons, limits: Limits, e: Edge, reason: LimitReason) {
    match reason
    case PerRecordLimit => |LeftEdges(edges, e.left)| == limits.perRecord || |RightEdges(edges, e.right)| == limits.perRecord
    case RunEdgeLimit =>
      && |edges| == limits.runEdges
      && |LeftEdges(edges, e.left)| < limits.perRecord && |RightEdges(edges, e.right)| < limits.perRecord
    case ConnectedToIncomplete => false
  }

  /** What grows and stays within a cap it had reached does not grow at all. */
  lemma FullStaysFull<T>(before: set<T>, after: set<T>, cap: nat, x: T)
    requires before <= after && |before| == cap && |after| <= cap
    ensures x in after ==> x in before
    ensures |after| == cap
  {
    Subset(before, after);
    if x in after && x !in before {
      Subset(before + {x}, after);
    }
  }

  lemma GrownSets(before: Retained, after: Retained, limits: Limits, e: Edge)
    requires WithinCaps(before, limits) && WithinCaps(after, limits) && Grows(before.edges, after.edges)
    ensures before.edges.Keys <= after.edges.Keys && |after.edges.Keys| <= limits.runEdges
    ensures LeftEdges(before.edges, e.left) <= LeftEdges(after.edges, e.left)
    ensures |LeftEdges(after.edges, e.left)| <= limits.perRecord
    ensures RightEdges(before.edges, e.right) <= RightEdges(after.edges, e.right)
    ensures |RightEdges(after.edges, e.right)| <= limits.perRecord
  {
    GrowsMeasures(before, after, limits, e.left);
    assert Degree(after.leftDegree, e.left) <= limits.perRecord && Degree(after.rightDegree, e.right) <= limits.perRecord;
    assert |after.edges| == |after.edges.Keys|;
  }

  /** A refused pair stays refused, because no cap is ever exceeded. */
  lemma RefusalStays(before: Retained, after: Retained, limits: Limits, e: Edge, prohibited: set<Edge>,
                     reason: LimitReason)
    requires WithinCaps(before, limits) && WithinCaps(after, limits) && Grows(before.edges, after.edges)
    requires Refused(before.edges, limits, e, prohibited, reason)
    ensures Refused(after.edges, limits, e, prohibited, reason)
  {
    GrownSets(before, after, limits, e);
    RefusalGrows(before.edges, after.edges, limits, e, prohibited, reason);
  }

  lemma RefusalGrows(before: EdgeReasons, after: EdgeReasons, limits: Limits, e: Edge, prohibited: set<Edge>,
                     reason: LimitReason)
    requires before.Keys <= after.Keys && |after.Keys| <= limits.runEdges
    requires LeftEdges(before, e.left) <= LeftEdges(after, e.left) && |LeftEdges(after, e.left)| <= limits.perRecord
    requires RightEdges(before, e.right) <= RightEdges(after, e.right)
    requires |RightEdges(after, e.right)| <= limits.perRecord
    requires Refused(before, limits, e, prohibited, reason)
    ensures Refused(after, limits, e, prohibited, reason)
  {
    assert |before| == |before.Keys| && |after| == |after.Keys|;
    assert e in after ==> e in LeftEdges(after, e.left) && e in RightEdges(after, e.right);
    if reason.RunEdgeLimit? {
      FullStaysFull(before.Keys, after.Keys, limits.runEdges, e);
      assert forall f :: f in after ==> f in before by {
        forall f | f in after
          ensures f in before
        {
          FullStaysFull(before.Keys, after.Keys, limits.runEdges, f);
        }
      }
      assert LeftEdges(after, e.left) == LeftEdges(before, e.left);
      assert RightEdges(after, e.right) == RightEdges(before, e.right);
    } else if |LeftEdges(before, e.left)| == limits.perRecord {
      FullStaysFull(LeftEdges(before, e.left), LeftEdges(after, e.left), limits.perRecord, e);
    } else {
      FullStaysFull(RightEdges(before, e.right), RightEdges(after, e.right), limits.perRecord, e);
    }
  }

  ghost predicate Tripped(kept: Retained, limits: Limits, left: Id, rights: seq<Record>, prohibited: set<Edge>,
                          reason: LimitReason) {
    exists r :: r in rights && Refused(kept.edges, limits, Edge(left, r.id), prohibited, reason)
  }

  ghost predicate Enumerated(edges: EdgeReasons, left: Id, rights: seq<Record>, prohibited: set<Edge>, reason: string) {
    forall r :: r in rights ==> Edge(left, r.id) in prohibited || Has(edges, Edge(left, r.id), reason)
  }

  /** Everything new stands for this left record, this pass, and a permitted right record. */
  ghost predicate OnlyAdds(before: EdgeReasons, after: EdgeReasons, left: Id, rights: seq<Record>,
                           prohibited: set<Edge>, reason: string) {
    forall e, why :: Has(after, e, why) ==>
      || Has(before, e, why)
      || (why == reason && e.left == left && e !in prohibited && exists r :: r in rights && r.id == e.right)
  }

  ghost predicate StepOnlyAdds(before: EdgeReasons, after: EdgeReasons, e: Edge, reason: string) {
    forall f, why :: Has(after, f, why) ==> Has(before, f, why) || (f == e && why == reason)
  }

  /** Enumeration so far: what is retained, how many pairs this partition enumerated, whether it stopped. */
  datatype Progress = Progress(kept: Retained, count: nat, limit: Option<LimitReason>)

  /** One permitted pair, decided in the order of the checks. */
  function Considered(e: Edge, reason: string, limits: Limits, at: Progress): Progress {
    var kept := at.kept;
    if e in kept.edges then
      Progress(kept.(edges := AddReason(kept.edges, e, reason)), at.count + 1, None)
    else if Degree(kept.leftDegree, e.left) >= limits.perRecord || Degree(kept.rightDegree, e.right) >= limits.perRecord then
      at.(limit := Some(PerRecordLimit))
    else if |kept.edges| >= limits.runEdges then at.(limit := Some(RunEdgeLimit))
    else Progress(Retain(kept, e, reason), at.count + 1, None)
  }

  /** A pair that is not refused is retained with this reason, and nothing else is added. */
  lemma ConsideredAdds(e: Edge, reason: string, limits: Limits, at: Progress)
    requires WithinCaps(at.kept, limits) && Considered(e, reason, limits, at).limit.None?
    ensures WithinCaps(Considered(e, reason, limits, at).kept, limits)
    ensures Grows(at.kept.edges, Considered(e, reason, limits, at).kept.edges)
    ensures StepOnlyAdds(at.kept.edges, Considered(e, reason, limits, at).kept.edges, e, reason)
    ensures Has(Considered(e, reason, limits, at).kept.edges, e, reason)
    ensures Considered(e, reason, limits, at).count == at.count + 1
  {
    if e in at.kept.edges {
      AddReasonKeepsCaps(at.kept, limits, e, reason);
    } else {
      RetainKeepsCaps(at.kept, limits, e, reason);
    }
  }

  /** A refused pair changes nothing, and a cap really is reached. */
  lemma ConsideredStops(e: Edge, reason: string, limits: Limits, at: Progress)
    requires WithinCaps(at.kept, limits) && Considered(e, reason, limits, at).limit.Some?
    ensures Considered(e, reason, limits, at) == at.(limit := Considered(e, reason, limits, at).limit)
    ensures e !in at.kept.edges && AtCap(at.kept.edges, limits, e, Considered(e, reason, limits, at).limit.value)
  {
    assert Degree(at.kept.leftDegree, e.left) == |LeftEdges(at.kept.edges, e.left)|;
    assert Degree(at.kept.rightDegree, e.right) == |RightEdges(at.kept.edges, e.right)|;
  }

  /** The permitted pairs of one left record. */
  function PairsOf(left: Id, rights: seq<Record>, prohibited: set<Edge>): set<Edge> {
    set r | r in rights && Edge(left, r.id) !in prohibited :: Edge(left, r.id)
  }

  lemma OneMorePair(left: Id, rights: seq<Record>, i: nat, prohibited: set<Edge>)
    requires i < |rights| && UniqueIds(rights)
    ensures Edge(left, rights[i].id) !in PairsOf(left, rights[..i], prohibited)
    ensures PairsOf(left, rights[..i + 1], prohibited) ==
            PairsOf(left, rights[..i], prohibited) +
            if Edge(left, rights[i].id) in prohibited then {} else {Edge(left, rights[i].id)}
  {
    assert rights[..i + 1] == rights[..i] + [rights[i]];
  }

  /** What enumerating the right records of one left record comes to. */
  function Swept(left: Id, rights: seq<Record>, reason: string, prohibited: set<Edge>, limits: Limits,
                 at: Progress): Progress
    decreases |rights|
  {
    if rights == [] || at.limit.Some? then at
    else
      var e := Edge(left, rights[0].id);
      Swept(left, rights[1..], reason, prohibited, limits,
            if e in prohibited then at else Considered(e, reason, limits, at))
  }

  lemma AddsOne(before: EdgeReasons, was: EdgeReasons, now: EdgeReasons, left: Id, rights: seq<Record>, r: Record,
                prohibited: set<Edge>, reason: string)
    requires OnlyAdds(before, was, left, rights, prohibited, reason) && StepOnlyAdds(was, now, Edge(left, r.id), reason)
    requires r in rights && Edge(left, r.id) !in prohibited
    ensures OnlyAdds(before, now, left, rights, prohibited, reason)
  {
  }

  lemma EnumeratesOne(was: EdgeReasons, now: EdgeReasons, left: Id, rights: seq<Record>, i: nat, prohibited: set<Edge>,
                      reason: string)
    requires i < |rights| && Enumerated(was, left, rights[..i], prohibited, reason) && Grows(was, now)
    requires Edge(left, rights[i].id) in prohibited || Has(now, Edge(left, rights[i].id), reason)
    ensures Enumerated(now, left, rights[..i + 1], prohibited, reason)
  {
    assert rights[..i + 1] == rights[..i] + [rights[i]];
  }

  method EnumerateLeft(left: Id, rights: seq<Record>, reason: string, prohibited: set<Edge>, limits: Limits,
                       before: Progress)
    returns (now: Progress)
    requires WithinCaps(before.kept, limits) && before.limit.None? && UniqueIds(rights)
    ensures now == Swept(left, rights, reason, prohibited, limits, before)
    ensures WithinCaps(now.kept, limits) && Grows(before.kept.edges, now.kept.edges)
    ensures OnlyAdds(before.kept.edges, now.kept.edges, left, rights, prohibited, reason)
    ensures now.limit.None? ==> Enumerated(now.kept.edges, left, rights, prohibited, reason)
    ensures now.limit.None? ==> now.count == before.count + |PairsOf(left, rights, prohibited)|
    ensures now.limit.Some? ==> Tripped(now.kept, limits, left, rights, prohibited, now.limit.value)
  {
    now := before;
    for i := 0 to |rights|
      invariant now.limit.None? && WithinCaps(now.kept, limits) && Grows(before.kept.edges, now.kept.edges)
      invariant OnlyAdds(before.kept.edges, now.kept.edges, left, rights, prohibited, reason)
      invariant Enumerated(now.kept.edges, left, rights[..i], prohibited, reason)
      invariant now.count == before.count + |PairsOf(left, rights[..i], prohibited)|
      invariant Swept(left, rights[i..], reason, prohibited, limits, now) ==
                Swept(left, rights, reason, prohibited, limits, before)
    {
      assert rights[i..][0] == rights[i] && rights[i..][1..] == rights[i + 1..];
      OneMorePair(left, rights, i, prohibited);
      ghost var was := now.kept.edges;
      var e := Edge(left, rights[i].id);
      if e !in prohibited {
        var next := Considered(e, reason, limits, now);
        if next.limit.Some? {
          ConsideredStops(e, reason, limits, now);
          assert Refused(now.kept.edges, limits, Edge(left, rights[i].id), prohibited, next.limit.value);
          return next;
        }
        ConsideredAdds(e, reason, limits, now);
        AddsOne(before.kept.edges, was, next.kept.edges, left, rights, rights[i], prohibited, reason);
        now := next;
      }
      EnumeratesOne(was, now.kept.edges, left, rights, i, prohibited, reason);
    }
    assert rights[..|rights|] == rights;
  }

  // ----- one partition -----

  ghost predicate PartitionEnumerated(p: BlockingPass, edges: EdgeReasons, lefts: seq<Record>, rights: seq<Record>,
                                      prohibited: set<Edge>)
    requires (forall l :: l in lefts ==> Groups(p, l)) && forall r :: r in rights ==> Groups(p, r)
  {
    forall l, r :: l in lefts && r in rights && InWindow(p, l, r) ==>
      Edge(l.id, r.id) in prohibited || Has(edges, Edge(l.id, r.id), Reason(p))
  }

  ghost predicate PartitionOnlyAdds(p: BlockingPass, before: EdgeReasons, after: EdgeReasons, lefts: seq<Record>,
                                    rights: seq<Record>, prohibited: set<Edge>)
    requires (forall l :: l in lefts ==> Groups(p, l)) && forall r :: r in rights ==> Groups(p, r)
  {
    forall e, why :: Has(after, e, why) ==>
      || Has(before, e, why)
      || (why == Reason(p) && e !in prohibited &&
          exists l, r :: l in lefts && r in rights && InWindow(p, l, r) && e == Edge(l.id, r.id))
  }

  ghost predicate PartitionTripped(p: BlockingPass, kept: Retained, limits: Limits, lefts: seq<Record>,
                                   rights: seq<Record>,
                                   prohibited: set<Edge>, reason: LimitReason)
    requires (forall l :: l in lefts ==> Groups(p, l)) && forall r :: r in rights ==> Groups(p, r)
  {
    exists l, r :: l in lefts && r in rights && InWindow(p, l, r) && Refused(kept.edges, limits, Edge(l.id, r.id), prohibited, reason)
  }

  /** The permitted pairs of the partition inside its window. */
  function WindowPairs(p: BlockingPass, lefts: seq<Record>, rights: seq<Record>, prohibited: set<Edge>): set<Edge>
    requires (forall l :: l in lefts ==> Groups(p, l)) && forall r :: r in rights ==> Groups(p, r)
  {
    set l, r | l in lefts && r in rights && InWindow(p, l, r) && Edge(l.id, r.id) !in prohibited :: Edge(l.id, r.id)
  }

  lemma OneMoreRow(p: BlockingPass, lefts: seq<Record>, i: nat, rights: seq<Record>, prohibited: set<Edge>)
    requires Ordered(p, lefts) && Ordered(p, rights) && UniqueIds(lefts) && UniqueIds(rights) && i < |lefts|
    requires forall r :: r in WindowOf(p, lefts[i], rights) <==> r in rights && Groups(p, lefts[i]) && InWindow(p, lefts[i], r)
    ensures |WindowPairs(p, lefts[..i + 1], rights, prohibited)| ==
            |WindowPairs(p, lefts[..i], rights, prohibited)| +
            |PairsOf(lefts[i].id, WindowOf(p, lefts[i], rights), prohibited)|
  {
    assert lefts[..i + 1] == lefts[..i] + [lefts[i]];
    var done, row := WindowPairs(p, lefts[..i], rights, prohibited), PairsOf(lefts[i].id, WindowOf(p, lefts[i], rights), prohibited);
    assert lefts[i] in lefts;
    forall e
      ensures e in WindowPairs(p, lefts[..i + 1], rights, prohibited) <==> e in done || e in row
    {
    }
    assert WindowPairs(p, lefts[..i + 1], rights, prohibited) == done + row;
    assert done !! row;
  }

  /** What enumerating a partition comes to. */
  function SweptAll(p: BlockingPass, lefts: seq<Record>, rights: seq<Record>, prohibited: set<Edge>, limits: Limits,
                    at: Progress): Progress
    decreases |lefts|
  {
    if lefts == [] || at.limit.Some? then at
    else
      SweptAll(p, lefts[1..], rights, prohibited, limits,
               Swept(lefts[0].id, WindowOf(p, lefts[0], rights), Reason(p), prohibited, limits, at))
  }

  method EnumeratePartition(p: BlockingPass, lefts: seq<Record>, rights: seq<Record>, prohibited: set<Edge>,
                            limits: Limits, before: Retained)
    returns (now: Progress)
    requires WithinCaps(before, limits) && Ordered(p, lefts) && Ordered(p, rights)
    requires UniqueIds(lefts) && UniqueIds(rights)
    ensures now == SweptAll(p, lefts, rights, prohibited, limits, Progress(before, 0, None))
    ensures WithinCaps(now.kept, limits) && Grows(before.edges, now.kept.edges)
    ensures PartitionOnlyAdds(p, before.edges, now.kept.edges, lefts, rights, prohibited)
    ensures now.limit.None? ==> PartitionEnumerated(p, now.kept.edges, lefts, rights, prohibited)
    ensures now.limit.None? ==> now.count == |WindowPairs(p, lefts, rights, prohibited)|
    ensures now.limit.Some? ==> PartitionTripped(p, now.kept, limits, lefts, rights, prohibited, now.limit.value)
  {
    now := Progress(before, 0, None);
    for i := 0 to |lefts|
      invariant now.limit.None? && WithinCaps(now.kept, limits) && Grows(before.edges, now.kept.edges)
      invariant PartitionOnlyAdds(p, before.edges, now.kept.edges, lefts, rights, prohibited)
      invariant PartitionEnumerated(p, now.kept.edges, lefts[..i], rights, prohibited)
      invariant now.count == |WindowPairs(p, lefts[..i], rights, prohibited)|
      invariant SweptAll(p, lefts[i..], rights, prohibited, limits, now) ==
                SweptAll(p, lefts, rights, prohibited, limits, Progress(before, 0, None))
    {
      var left := lefts[i];
      assert left in lefts && lefts[i..][1..] == lefts[i + 1..];
      WindowIsInWindow(p, left, rights);
      OneMoreRow(p, lefts, i, rights, prohibited);
      ghost var was := now.kept;
      now := EnumerateLeft(left.id, WindowOf(p, left, rights), Reason(p), prohibited, limits, now);
      OneMoreLeft(p, before.edges, was.edges, now.kept.edges, lefts, i, rights, WindowOf(p, left, rights), prohibited);
      if now.limit.Some? {
        return;
      }
    }
    assert lefts[..|lefts|] == lefts;
  }

  lemma OneMoreLeft(p: BlockingPass, before: EdgeReasons, was: EdgeReasons, now: EdgeReasons, lefts: seq<Record>,
                    i: nat, rights: seq<Record>, window: seq<Record>, prohibited: set<Edge>)
    requires Ordered(p, lefts) && Ordered(p, rights) && i < |lefts|
    requires forall r :: r in window <==> r in rights && InWindow(p, lefts[i], r)
    requires Grows(before, was) && Grows(was, now)
    requires PartitionOnlyAdds(p, before, was, lefts, rights, prohibited)
    requires OnlyAdds(was, now, lefts[i].id, window, prohibited, Reason(p))
    requires PartitionEnumerated(p, was, lefts[..i], rights, prohibited)
    ensures PartitionOnlyAdds(p, before, now, lefts, rights, prohibited)
    ensures Enumerated(now, lefts[i].id, window, prohibited, Reason(p)) ==>
              PartitionEnumerated(p, now, lefts[..i + 1], rights, prohibited)
  {
    assert lefts[i] in lefts;
    assert lefts[..i + 1] == lefts[..i] + [lefts[i]];
  }
}
