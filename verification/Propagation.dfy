/** Expansion of incompleteness through blocking partitions that share records. */
module Propagation {
  import opened Matchings
  import opened Domain
  import opened Blocking
  import opened Enumeration
  import opened Reachability

  datatype Partition = Partition(
    pass: BlockingPass, key: Key, lefts: seq<Id>, rights: seq<Id>, enumerated: nat, limit: Option<LimitReason>)
  {
    function Members(): seq<Id> {
      lefts + rights
    }
  }

  predicate Member(partitions: seq<Partition>, i: nat, x: Id) {
    i < |partitions| && x in partitions[i].Members()
  }

  /** Two partitions with a record in common. */
  ghost predicate Shares(partitions: seq<Partition>, i: nat, j: nat) {
    exists x :: Member(partitions, i, x) && Member(partitions, j, x)
  }

  ghost function Sharing(partitions: seq<Partition>): (nat, nat) -> bool {
    (i: nat, j: nat) => Shares(partitions, i, j)
  }

  ghost predicate Incomplete(partitions: seq<Partition>, i: nat) {
    i < |partitions| && partitions[i].limit.Some?
  }

  ghost function Positions(n: nat): (s: set<nat>)
    ensures forall i: nat :: i in s <==> i < n
  {
    if n == 0 then {} else Positions(n - 1) + {n - 1}
  }

  /** A partition whose incompleteness a chain of shared records carries over from a tripped one. */
  ghost predicate Tainted(partitions: seq<Partition>, i: nat) {
    exists j: nat :: Incomplete(partitions, j) && Linked(Sharing(partitions), Positions(|partitions|), j, i)
  }

  /** Only limits change. */
  ghost predicate SamePartitions(before: seq<Partition>, after: seq<Partition>) {
    && |before| == |after|
    && forall i :: 0 <= i < |before| ==>
         && after[i].pass == before[i].pass && after[i].key == before[i].key
         && after[i].lefts == before[i].lefts && after[i].rights == before[i].rights
         && after[i].enumerated == before[i].enumerated
         && (before[i].limit.Some? ==> after[i].limit == before[i].limit)
         && (before[i].limit.None? && after[i].limit.Some? ==> after[i].limit.value == ConnectedToIncomplete)
  }

  /** Exactly the partitions reachable from a tripped one end up incomplete. */
  ghost predicate Closure(before: seq<Partition>, after: seq<Partition>) {
    && SamePartitions(before, after)
    && forall i :: 0 <= i < |after| ==> (Incomplete(after, i) <==> Tainted(before, i))
  }

  /** Propagation as a function. */
  ghost function Propagated(before: seq<Partition>): (after: seq<Partition>)
    ensures |after| == |before|
  {
    seq(|before|, i requires 0 <= i < |before| =>
      if before[i].limit.None? && Tainted(before, i) then before[i].(limit := Some(ConnectedToIncomplete))
      else before[i])
  }

  lemma ClosureIsPropagated(before: seq<Partition>, after: seq<Partition>)
    requires Closure(before, after)
    ensures after == Propagated(before)
  {
    forall i | 0 <= i < |after|
      ensures after[i] == Propagated(before)[i]
    {
      assert Incomplete(after, i) <==> Tainted(before, i);
    }
  }

  predicate Lists(memberships: map<Id, seq<nat>>, x: Id, i: nat) {
    x in memberships && i in memberships[x]
  }

  ghost predicate MembershipIndex(partitions: seq<Partition>, memberships: map<Id, seq<nat>>) {
    forall x, i: nat :: Lists(memberships, x, i) <==> Member(partitions, i, x)
  }

  method IndexMemberships(partitions: seq<Partition>) returns (memberships: map<Id, seq<nat>>)
    ensures MembershipIndex(partitions, memberships)
  {
    memberships := map[];
    for i := 0 to |partitions|
      invariant forall x, k: nat :: Lists(memberships, x, k) <==> k < i && Member(partitions, k, x)
    {
      var members := partitions[i].Members();
      for m := 0 to |members|
        invariant forall x, k: nat :: Lists(memberships, x, k) <==>
                                 (k < i && Member(partitions, k, x)) || (k == i && x in members[..m])
      {
        ghost var was := memberships;
        var x := members[m];
        memberships := memberships[x := (if x in memberships then memberships[x] else []) + [i]];
        assert forall y, k: nat :: Lists(memberships, y, k) <==> Lists(was, y, k) || (y == x && k == i);
        assert members[..m + 1] == members[..m] + [x];
      }
      assert members[..|members|] == members;
    }
  }

  /** Marks and queues the given partitions. */
  method Mark(connected: seq<nat>, was: seq<Partition>, wasQueue: seq<nat>, wasVisited: set<nat>)
    returns (now: seq<Partition>, queue: seq<nat>, visited: set<nat>)
    requires forall c :: c in connected ==> c < |was|
    ensures SamePartitions(was, now)
    ensures forall i: nat :: Incomplete(now, i) <==> Incomplete(was, i) || i in connected
    ensures forall i: nat :: i in visited <==> i in wasVisited || i in connected
    ensures forall i: nat :: i in queue <==> i in wasQueue || (i in visited && i !in wasVisited)
    ensures visited == wasVisited ==> queue == wasQueue
  {
    now, queue, visited := was, wasQueue, wasVisited;
    for c := 0 to |connected|
      invariant SamePartitions(was, now)
      invariant forall i: nat :: Incomplete(now, i) <==> Incomplete(was, i) || i in connected[..c]
      invariant forall i: nat :: i in visited <==> i in wasVisited || i in connected[..c]
      invariant forall i: nat :: i in queue <==> i in wasQueue || (i in visited && i !in wasVisited)
      invariant visited == wasVisited ==> queue == wasQueue
    {
      var other := connected[c];
      assert other in connected;
      assert connected[..c + 1] == connected[..c] + [other];
      if now[other].limit.None? {
        now := now[other := now[other].(limit := Some(ConnectedToIncomplete))];
      }
      if other !in visited {
        visited := visited + {other};
        queue := queue + [other];
      }
    }
    assert connected[..|connected|] == connected;
  }

  lemma SameIsTransitive(a: seq<Partition>, b: seq<Partition>, c: seq<Partition>)
    requires SamePartitions(a, b) && SamePartitions(b, c)
    ensures SamePartitions(a, c)
  {
  }

  /** Marks and queues every partition that shares a record with the given one. */
  method Spread(memberships: map<Id, seq<nat>>, index: nat, was: seq<Partition>, wasQueue: seq<nat>,
                wasVisited: set<nat>)
    returns (now: seq<Partition>, queue: seq<nat>, visited: set<nat>)
    requires MembershipIndex(was, memberships) && index < |was|
    ensures SamePartitions(was, now)
    ensures forall i: nat :: Incomplete(now, i) <==> Incomplete(was, i) || Shares(was, index, i)
    ensures forall i: nat :: i in visited <==> i in wasVisited || Shares(was, index, i)
    ensures forall i: nat :: i in queue <==> i in wasQueue || (i in visited && i !in wasVisited)
    ensures visited == wasVisited ==> queue == wasQueue
  {
    now, queue, visited := was, wasQueue, wasVisited;
    var members := was[index].Members();
    for m := 0 to |members|
      invariant SamePartitions(was, now)
      invariant forall i: nat :: Incomplete(now, i) <==> Incomplete(was, i) || Touched(was, members[..m], i)
      invariant forall i: nat :: i in visited <==> i in wasVisited || Touched(was, members[..m], i)
      invariant forall i: nat :: i in queue <==> i in wasQueue || (i in visited && i !in wasVisited)
      invariant visited == wasVisited ==> queue == wasQueue
    {
      var x := members[m];
      assert Member(was, index, x) && Lists(memberships, x, index);
      var connected := memberships[x];
      forall c: nat
        ensures c in connected <==> Member(was, c, x)
      {
        assert c in connected <==> Lists(memberships, x, c);
      }
      TouchedGrows(was, members[..m], x);
      assert members[..m + 1] == members[..m] + [x];
      ghost var before := now;
      now, queue, visited := Mark(connected, now, queue, visited);
      SameIsTransitive(was, before, now);
    }
    assert members[..|members|] == members;
    forall i: nat
      ensures Touched(was, members, i) <==> Shares(was, index, i)
    {
      if Shares(was, index, i) {
        var x :| Member(was, index, x) && Member(was, i, x);
        assert x in members;
      }
      if Touched(was, members, i) {
        var x :| x in members && Member(was, i, x);
        assert Member(was, index, x);
      }
    }
  }

  ghost predicate Touched(partitions: seq<Partition>, members: seq<Id>, i: nat) {
    exists x :: x in members && Member(partitions, i, x)
  }

  lemma TouchedGrows(partitions: seq<Partition>, members: seq<Id>, x: Id)
    ensures forall i: nat :: Touched(partitions, members + [x], i) <==> Touched(partitions, members, i) || Member(partitions, i, x)
  {
    forall i: nat
      ensures Touched(partitions, members + [x], i) <==> Touched(partitions, members, i) || Member(partitions, i, x)
    {
      if Touched(partitions, members, i) {
        var y :| y in members && Member(partitions, i, y);
        assert y in members + [x];
      }
      if Member(partitions, i, x) {
        assert x in members + [x];
      }
    }
  }

  lemma SameShares(before: seq<Partition>, now: seq<Partition>)
    requires SamePartitions(before, now)
    ensures forall i: nat, x :: Member(before, i, x) <==> Member(now, i, x)
    ensures forall i: nat, j: nat :: Shares(before, i, j) <==> Shares(now, i, j)
  {
    forall i: nat, x
      ensures Member(before, i, x) <==> Member(now, i, x)
    {
      if i < |before| {
        assert before[i].Members() == now[i].Members();
      }
    }
  }

  lemma TaintSpreads(before: seq<Partition>, i: nat, j: nat)
    requires Tainted(before, i) && Shares(before, i, j)
    ensures Tainted(before, j)
  {
    var t: nat :| Incomplete(before, t) && Linked(Sharing(before), Positions(|before|), t, i);
    LinkedStep(Sharing(before), Positions(|before|), t, i, j);
  }

  /** The state of the worklist: visited partitions are exactly the incomplete ones, all of them
      tainted, and the neighbours of those already processed have been visited. */
  ghost predicate Working(before: seq<Partition>, now: seq<Partition>, queue: seq<nat>, visited: set<nat>) {
    && SamePartitions(before, now)
    && (forall i: nat :: i in queue ==> i in visited)
    && (forall i: nat :: i in visited <==> Incomplete(now, i))
    && (forall i: nat :: i in visited ==> Tainted(before, i))
    && forall i: nat, j: nat :: i in visited && i !in queue && Shares(before, i, j) ==> j in visited
  }

  lemma SpreadKeepsWorking(before: seq<Partition>, index: nat, was: seq<Partition>, rest: seq<nat>,
                           wasVisited: set<nat>,
                           now: seq<Partition>, queue: seq<nat>, visited: set<nat>)
    requires Working(before, was, [index] + rest, wasVisited) && SamePartitions(was, now)
    requires forall i: nat :: Incomplete(now, i) <==> Incomplete(was, i) || Shares(was, index, i)
    requires forall i: nat :: i in visited <==> i in wasVisited || Shares(was, index, i)
    requires forall i: nat :: i in queue <==> i in rest || (i in visited && i !in wasVisited)
    ensures Working(before, now, queue, visited)
  {
    SameShares(before, was);
    SameIsTransitive(before, was, now);
    assert forall i: nat :: i in [index] + rest <==> i == index || i in rest;
    forall i: nat | i in visited
      ensures Tainted(before, i)
    {
      if i !in wasVisited {
        TaintSpreads(before, index, i);
      }
    }
  }

  method TrippedPositions(partitions: seq<Partition>) returns (queue: seq<nat>)
    ensures forall k: nat :: k in queue <==> Incomplete(partitions, k)
  {
    queue := [];
    for i := 0 to |partitions|
      invariant forall k: nat :: k in queue <==> k < i && Incomplete(partitions, k)
    {
      if partitions[i].limit.Some? {
        queue := queue + [i];
      }
    }
  }

  method PropagateIncomplete(partitions: seq<Partition>) returns (after: seq<Partition>)
    ensures Closure(partitions, after)
  {
    var memberships := IndexMemberships(partitions);
    after := partitions;
    var queue := TrippedPositions(partitions);
    var visited := set i | i in queue;
    StartWorking(partitions, queue, visited);
    while queue != []
      invariant Working(partitions, after, queue, visited)
      invariant forall t: nat :: Incomplete(partitions, t) ==> t in visited
      decreases Unvisited(|partitions|, visited), |queue|
    {
      var index := queue[0];
      HeadAndTail(queue);
      ghost var wasVisited := visited;
      after, queue, visited := Process(partitions, memberships, index, after, queue[1..], visited);
      ProgressMade(|partitions|, wasVisited, visited);
    }
    WorklistDone(partitions, after, visited);
  }

  /** One round of the worklist. */
  method Process(ghost partitions: seq<Partition>, memberships: map<Id, seq<nat>>, index: nat, was: seq<Partition>,
                 rest: seq<nat>, wasVisited: set<nat>)
    returns (now: seq<Partition>, queue: seq<nat>, visited: set<nat>)
    requires MembershipIndex(partitions, memberships) && Working(partitions, was, [index] + rest, wasVisited)
    ensures Working(partitions, now, queue, visited)
    ensures wasVisited <= visited <= Positions(|partitions|)
    ensures visited == wasVisited ==> queue == rest
  {
    assert index in [index] + rest && Incomplete(was, index);
    SameShares(partitions, was);
    now, queue, visited := Spread(memberships, index, was, rest, wasVisited);
    SpreadKeepsWorking(partitions, index, was, rest, wasVisited, now, queue, visited);
    VisitedInRange(partitions, now, queue, visited);
  }

  ghost function Unvisited(n: nat, visited: set<nat>): nat {
    |Positions(n) - visited|
  }

  lemma ProgressMade(n: nat, was: set<nat>, now: set<nat>)
    requires was <= now <= Positions(n)
    ensures was != now ==> Unvisited(n, now) < Unvisited(n, was)
  {
    if was != now {
      var i :| i in now && i !in was;
      Subset(Positions(n) - now, Positions(n) - was - {i});
    }
  }

  lemma HeadAndTail(s: seq<nat>)
    requires s != []
    ensures s == [s[0]] + s[1..]
  {
  }

  lemma StartWorking(partitions: seq<Partition>, queue: seq<nat>, visited: set<nat>)
    requires forall k: nat :: k in queue <==> Incomplete(partitions, k)
    requires forall k: nat :: k in visited <==> k in queue
    ensures Working(partitions, partitions, queue, visited)
  {
    forall i: nat | i in visited
      ensures Tainted(partitions, i)
    {
      LinkedSelf(Sharing(partitions), Positions(|partitions|), i);
    }
  }

  lemma VisitedInRange(before: seq<Partition>, now: seq<Partition>, queue: seq<nat>, visited: set<nat>)
    requires Working(before, now, queue, visited)
    ensures visited <= Positions(|before|)
  {
    forall i | i in visited
      ensures i in Positions(|before|)
    {
      assert Incomplete(now, i);
    }
  }

  lemma VisitedClosed(before: seq<Partition>, now: seq<Partition>, visited: set<nat>)
    requires Working(before, now, [], visited)
    ensures ClosedUnder(Sharing(before), Positions(|before|), visited)
  {
    forall x: nat, y: nat | x in visited && Sharing(before)(x, y)
      ensures y in visited
    {
      assert Shares(before, x, y);
    }
  }

  lemma TaintedIsVisited(before: seq<Partition>, now: seq<Partition>, visited: set<nat>, i: nat)
    requires Working(before, now, [], visited) && Tainted(before, i)
    requires forall t: nat :: Incomplete(before, t) ==> t in visited
    ensures i in visited
  {
    var t: nat :| Incomplete(before, t) && Linked(Sharing(before), Positions(|before|), t, i);
    VisitedClosed(before, now, visited);
    LinkedStaysInside(Sharing(before), Positions(|before|), visited, t, i);
  }

  lemma WorklistDone(before: seq<Partition>, now: seq<Partition>, visited: set<nat>)
    requires Working(before, now, [], visited)
    requires forall t: nat :: Incomplete(before, t) ==> t in visited
    ensures Closure(before, now)
  {
    forall i | 0 <= i < |now|
      ensures Incomplete(now, i) <==> Tainted(before, i)
    {
      if Tainted(before, i) {
        TaintedIsVisited(before, now, visited, i);
      }
    }
  }

  /** After propagation no incomplete partition shares a record with a complete one. */
  lemma ClosureSeparates(before: seq<Partition>, after: seq<Partition>, i: nat, j: nat, x: Id)
    requires Closure(before, after) && Member(after, i, x) && Member(after, j, x) && Incomplete(after, i)
    ensures Incomplete(after, j)
  {
    SameShares(before, after);
    assert Shares(before, i, j);
    TaintSpreads(before, i, j);
  }
}
