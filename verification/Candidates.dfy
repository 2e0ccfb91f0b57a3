/** Deterministic, bounded generation of candidate edges by all configured blocking passes. */
module CandidateGeneration {
  import opened Matchings
  import opened Domain
  import opened Reachability
  import opened Blocking
  import opened KeyOrder
  import opened Enumeration
  import opened Propagation

  datatype Generation = Generation(
    edges: EdgeReasons, partitions: seq<Partition>, limited: set<Id>, complete: bool)

  /** The records a generation works on: both sides and the relationships a reviewer rejected. */
  datatype Input = Input(lefts: seq<Record>, rights: seq<Record>, prohibited: set<Edge>) {
    ghost predicate Valid() {
      UniqueIds(lefts) && UniqueIds(rights) && Ids(lefts) !! Ids(rights)
    }
  }

  // ----- what each partition promises -----

  ghost predicate MembersAre(ids: seq<Id>, p: BlockingPass, key: Key, records: seq<Record>) {
    && ids != [] && (forall i, j :: 0 <= i < j < |ids| ==> ids[i] != ids[j])
    && (forall r :: r in records && InGroup(p, key, r) ==> r.id in ids)
    && (forall x :: x in ids ==> exists r :: r in records && InGroup(p, key, r) && r.id == x)
  }

  ghost predicate Placed(part: Partition, input: Input) {
    && MembersAre(part.lefts, part.pass, part.key, input.lefts)
    && MembersAre(part.rights, part.pass, part.key, input.rights)
  }

  /** The permitted pairs a pass admits in one of its groups. */
  function GroupPairs(p: BlockingPass, key: Key, input: Input): set<Edge> {
    set l, r | l in input.lefts && r in input.rights && InGroup(p, key, l) && Admits(p, l, r) &&
               Edge(l.id, r.id) !in input.prohibited :: Edge(l.id, r.id)
  }

  /** Every admitted, permitted pair of the partition is retained with this pass as a reason, and they are what
      it counted. */
  ghost predicate Covered(part: Partition, input: Input, edges: EdgeReasons) {
    && (forall e :: e in GroupPairs(part.pass, part.key, input) ==> Has(edges, e, Reason(part.pass)))
    && part.enumerated == |GroupPairs(part.pass, part.key, input)|
  }

  /** A pair this pass admits in this group was refused because a cap is reached. */
  ghost predicate PairRefused(p: BlockingPass, key: Key, input: Input, edges: EdgeReasons, limits: Limits,
                              reason: LimitReason) {
    exists l, r :: l in input.lefts && r in input.rights && InGroup(p, key, l) && Admits(p, l, r) &&
                   Refused(edges, limits, Edge(l.id, r.id), input.prohibited, reason)
  }

  /** The run cap refused a pair that some configured pass admits. */
  ghost predicate RunStopped(passes: set<BlockingPass>, input: Input, edges: EdgeReasons, limits: Limits) {
    exists p, key :: p in passes && PairRefused(p, key, input, edges, limits, RunEdgeLimit)
  }

  /** A limit is recorded only when a pair really was refused at a cap. */
  ghost predicate Genuine(part: Partition, passes: set<BlockingPass>, input: Input, edges: EdgeReasons,
                          limits: Limits) {
    match part.limit
    case None => true
    case Some(PerRecordLimit) => PairRefused(part.pass, part.key, input, edges, limits, PerRecordLimit)
    case Some(RunEdgeLimit) => RunStopped(passes, input, edges, limits)
    case Some(ConnectedToIncomplete) => false
  }

  ghost predicate Sound(part: Partition, passes: set<BlockingPass>, input: Input, kept: Retained, limits: Limits) {
    Placed(part, input) && (part.limit.None? ==> Covered(part, input, kept.edges)) && Genuine(part, passes, input, kept.edges, limits)
  }

  lemma PairStaysRefused(p: BlockingPass, key: Key, input: Input, before: Retained, after: Retained, limits: Limits,
                         reason: LimitReason)
    requires WithinCaps(before, limits) && WithinCaps(after, limits) && Grows(before.edges, after.edges)
    requires PairRefused(p, key, input, before.edges, limits, reason)
    ensures PairRefused(p, key, input, after.edges, limits, reason)
  {
    var l, r :| l in input.lefts && r in input.rights && InGroup(p, key, l) && Admits(p, l, r) &&
                Refused(before.edges, limits, Edge(l.id, r.id), input.prohibited, reason);
    RefusalStays(before, after, limits, Edge(l.id, r.id), input.prohibited, reason);
  }

  lemma RunStaysStopped(passes: set<BlockingPass>, input: Input, before: Retained, after: Retained, limits: Limits)
    requires WithinCaps(before, limits) && WithinCaps(after, limits) && Grows(before.edges, after.edges)
    requires RunStopped(passes, input, before.edges, limits)
    ensures RunStopped(passes, input, after.edges, limits)
  {
    var p, key :| p in passes && PairRefused(p, key, input, before.edges, limits, RunEdgeLimit);
    PairStaysRefused(p, key, input, before, after, limits, RunEdgeLimit);
  }

  lemma SoundGrows(part: Partition, passes: set<BlockingPass>, input: Input, before: Retained, after: Retained,
                   limits: Limits)
    requires WithinCaps(before, limits) && WithinCaps(after, limits) && Grows(before.edges, after.edges)
    requires Sound(part, passes, input, before, limits)
    ensures Sound(part, passes, input, after, limits)
  {
    match part.limit
    case None =>
    case Some(PerRecordLimit) => PairStaysRefused(part.pass, part.key, input, before, after, limits, PerRecordLimit);
    case Some(RunEdgeLimit) => RunStaysStopped(passes, input, before, after, limits);
  }

  ghost predicate Justified(e: Edge, why: string, passes: set<BlockingPass>, input: Input) {
    && e !in input.prohibited
    && exists p, l, r :: p in passes && l in input.lefts && r in input.rights &&
                         Admits(p, l, r) && why == Reason(p) && e == Edge(l.id, r.id)
  }

  ghost predicate AllJustified(edges: EdgeReasons, passes: set<BlockingPass>, input: Input) {
    forall e, why :: Has(edges, e, why) ==> Justified(e, why, passes, input)
  }

  // ----- one blocking pass -----

  function IdsOf(group: seq<Record>): (ids: seq<Id>)
    ensures |ids| == |group| && forall i :: 0 <= i < |ids| ==> ids[i] == group[i].id
  {
    seq(|group|, i requires 0 <= i < |group| => group[i].id)
  }

  lemma GroupMembers(p: BlockingPass, key: Key, records: seq<Record>, group: seq<Record>)
    requires GroupFor(p, key, records, group)
    ensures MembersAre(IdsOf(group), p, key, records)
  {
    forall r | r in records && InGroup(p, key, r)
      ensures r.id in IdsOf(group)
    {
      var i :| 0 <= i < |group| && group[i] == r;
      assert IdsOf(group)[i] == r.id;
    }
    assert forall i, j :: 0 <= i < j < |group| ==> IdsOf(group)[i] != IdsOf(group)[j];
    forall x | x in IdsOf(group)
      ensures exists r :: r in records && InGroup(p, key, r) && r.id == x
    {
      var i :| 0 <= i < |group| && IdsOf(group)[i] == x;
      assert group[i] in group;
    }
  }

  /** The partitions of one pass: sound, with different keys, all of them of this pass. */
  ghost predicate PassPartitions(p: BlockingPass, parts: seq<Partition>, passes: set<BlockingPass>, input: Input,
                                 kept: Retained,
                                 limits: Limits) {
    && (forall k :: 0 <= k < |parts| ==> parts[k].pass == p && Sound(parts[k], passes, input, kept, limits))
    && (forall j, k :: 0 <= j < k < |parts| ==> parts[j].key != parts[k].key)
  }

  lemma PassPartitionsGrow(p: BlockingPass, parts: seq<Partition>, passes: set<BlockingPass>, input: Input,
                           before: Retained, after: Retained,
                           limits: Limits, part: Partition)
    requires WithinCaps(before, limits) && WithinCaps(after, limits) && Grows(before.edges, after.edges)
    requires PassPartitions(p, parts, passes, input, before, limits)
    requires part.pass == p && Sound(part, passes, input, after, limits)
    requires forall k :: 0 <= k < |parts| ==> parts[k].key != part.key
    ensures PassPartitions(p, parts + [part], passes, input, after, limits)
  {
    forall k | 0 <= k < |parts|
      ensures Sound(parts[k], passes, input, after, limits)
    {
      SoundGrows(parts[k], passes, input, before, after, limits);
    }
  }

  ghost predicate PassAdds(p: BlockingPass, before: EdgeReasons, after: EdgeReasons, input: Input) {
    forall e, why :: Has(after, e, why) ==> Has(before, e, why) || Justified(e, why, {p}, input)
  }

  /** The retained work between groups: edges, partitions so far, and whether the run cap stopped everything. */
  datatype Stage = Stage(kept: Retained, parts: seq<Partition>, stopped: bool)

  /** What one group adds. */
  function KeyStage(p: BlockingPass, key: Key, lefts: seq<Record>, rights: seq<Record>, prohibited: set<Edge>,
                    limits: Limits, at: Stage): Stage {
    if at.stopped then
      at.(parts := at.parts + [Partition(p, key, IdsOf(lefts), IdsOf(rights), 0, Some(RunEdgeLimit))])
    else
      var now := SweptAll(p, lefts, rights, prohibited, limits, Progress(at.kept, 0, None));
      Stage(now.kept, at.parts + [Partition(p, key, IdsOf(lefts), IdsOf(rights), now.count, now.limit)],
            now.limit == Some(RunEdgeLimit))
  }

  method EnumerateKey(p: BlockingPass, key: Key, lefts: seq<Record>, rights: seq<Record>, input: Input, limits: Limits,
                      before: Retained, wasLimited: bool, ghost passes: set<BlockingPass>)
    returns (kept: Retained, part: Partition, runLimited: bool)
    requires GroupFor(p, key, input.lefts, lefts) && GroupFor(p, key, input.rights, rights)
    requires p in passes && WithinCaps(before, limits)
    requires wasLimited ==> RunStopped(passes, input, before.edges, limits)
    ensures WithinCaps(kept, limits) && (runLimited ==> RunStopped(passes, input, kept.edges, limits))
    ensures Grows(before.edges, kept.edges) && PassAdds(p, before.edges, kept.edges, input)
    ensures part.pass == p && part.key == key && Sound(part, passes, input, kept, limits)
    ensures Stage(kept, [part], runLimited) ==
            KeyStage(p, key, lefts, rights, input.prohibited, limits, Stage(before, [], wasLimited))
  {
    GroupMembers(p, key, input.lefts, lefts);
    GroupMembers(p, key, input.rights, rights);
    if wasLimited {
      return before, Partition(p, key, IdsOf(lefts), IdsOf(rights), 0, Some(RunEdgeLimit)), true;
    }
    var now := EnumeratePartition(p, lefts, rights, input.prohibited, limits, before);
    kept, runLimited := now.kept, now.limit == Some(RunEdgeLimit);
    part := Partition(p, key, IdsOf(lefts), IdsOf(rights), now.count, now.limit);
    AddsAreJustified(p, key, lefts, rights, input, before.edges, kept.edges);
    EnumeratedIsSound(p, key, lefts, rights, input, now, part, limits, passes);
  }

  lemma EnumeratedIsSound(p: BlockingPass, key: Key, lefts: seq<Record>, rights: seq<Record>, input: Input,
                          now: Progress, part: Partition, limits: Limits, passes: set<BlockingPass>)
    requires GroupFor(p, key, input.lefts, lefts) && GroupFor(p, key, input.rights, rights) && p in passes
    requires part == Partition(p, key, IdsOf(lefts), IdsOf(rights), now.count, now.limit)
    requires now.limit.None? ==> PartitionEnumerated(p, now.kept.edges, lefts, rights, input.prohibited)
    requires now.limit.None? ==> now.count == |WindowPairs(p, lefts, rights, input.prohibited)|
    requires now.limit.Some? ==> PartitionTripped(p, now.kept, limits, lefts, rights, input.prohibited, now.limit.value)
    ensures Sound(part, passes, input, now.kept, limits)
  {
    GroupMembers(p, key, input.lefts, lefts);
    GroupMembers(p, key, input.rights, rights);
    if now.limit.Some? {
      LimitIsGenuine(p, key, lefts, rights, input, now.kept, limits, now.limit.value);
    } else {
      WindowIsGroup(p, key, lefts, rights, input);
      EnumeratedIsCovered(p, key, lefts, rights, input, part, now.kept.edges);
    }
  }

  lemma WindowIsGroup(p: BlockingPass, key: Key, lefts: seq<Record>, rights: seq<Record>, input: Input)
    requires GroupFor(p, key, input.lefts, lefts) && GroupFor(p, key, input.rights, rights)
    ensures WindowPairs(p, lefts, rights, input.prohibited) == GroupPairs(p, key, input)
  {
    forall l, r
      ensures (l in lefts && r in rights && InWindow(p, l, r)) <==>
              (l in input.lefts && r in input.rights && InGroup(p, key, l) && Admits(p, l, r))
    {
    }
  }

  lemma EnumeratedIsCovered(p: BlockingPass, key: Key, lefts: seq<Record>, rights: seq<Record>, input: Input,
                            part: Partition, edges: EdgeReasons)
    requires GroupFor(p, key, input.lefts, lefts) && GroupFor(p, key, input.rights, rights)
    requires PartitionEnumerated(p, edges, lefts, rights, input.prohibited)
    requires part.pass == p && part.key == key && part.enumerated == |WindowPairs(p, lefts, rights, input.prohibited)|
    requires WindowPairs(p, lefts, rights, input.prohibited) == GroupPairs(p, key, input)
    ensures Covered(part, input, edges)
  {
    forall e | e in GroupPairs(p, key, input)
      ensures Has(edges, e, Reason(p))
    {
      assert e in WindowPairs(p, lefts, rights, input.prohibited);
    }
  }

  lemma AddsAreJustified(p: BlockingPass, key: Key, lefts: seq<Record>, rights: seq<Record>, input: Input,
                         before: EdgeReasons, after: EdgeReasons)
    requires GroupFor(p, key, input.lefts, lefts) && GroupFor(p, key, input.rights, rights)
    requires PartitionOnlyAdds(p, before, after, lefts, rights, input.prohibited)
    ensures PassAdds(p, before, after, input)
  {
    forall e, why | Has(after, e, why) && !Has(before, e, why)
      ensures Justified(e, why, {p}, input)
    {
      var l, r :| l in lefts && r in rights && InWindow(p, l, r) && e == Edge(l.id, r.id);
      assert Admits(p, l, r);
    }
  }

  lemma LimitIsGenuine(p: BlockingPass, key: Key, lefts: seq<Record>, rights: seq<Record>, input: Input, kept: Retained,
                       limits: Limits, reason: LimitReason)
    requires GroupFor(p, key, input.lefts, lefts) && GroupFor(p, key, input.rights, rights)
    requires PartitionTripped(p, kept, limits, lefts, rights, input.prohibited, reason)
    ensures PairRefused(p, key, input, kept.edges, limits, reason)
  {
    var l, r :| l in lefts && r in rights && InWindow(p, l, r) && Refused(kept.edges, limits, Edge(l.id, r.id), input.prohibited, reason);
    assert Admits(p, l, r);
  }

  ghost predicate KeyPlaced(parts: seq<Partition>, p: BlockingPass, key: Key) {
    exists k :: 0 <= k < |parts| && parts[k].pass == p && parts[k].key == key
  }

  lemma AddsTransitive(p: BlockingPass, a: EdgeReasons, b: EdgeReasons, c: EdgeReasons, input: Input)
    requires Grows(a, b) && Grows(b, c) && PassAdds(p, a, b, input) && PassAdds(p, b, c, input)
    ensures Grows(a, c) && PassAdds(p, a, c, input)
  {
  }

  /** Where one pass stands: caps hold, additions are justified, its partitions are sound. */
  ghost predicate PassState(p: BlockingPass, passes: set<BlockingPass>, input: Input, limits: Limits,
                            before: Retained, kept: Retained,
                            runLimited: bool, parts: seq<Partition>) {
    && WithinCaps(kept, limits) && (runLimited ==> RunStopped(passes, input, kept.edges, limits))
    && Grows(before.edges, kept.edges) && PassAdds(p, before.edges, kept.edges, input)
    && PassPartitions(p, parts, passes, input, kept, limits)
  }

  /** The partitions so far are those of the first keys, in their order. */
  ghost predicate KeysHandled(keys: seq<Key>, k: nat, parts: seq<Partition>) {
    k <= |keys| && |parts| == k && forall i :: 0 <= i < k ==> parts[i].key == keys[i]
  }

  lemma OneMoreKey(p: BlockingPass, passes: set<BlockingPass>, input: Input, limits: Limits, before: Retained,
                   was: Retained, wasLimited: bool, parts: seq<Partition>, keys: seq<Key>, kept: Retained,
                   runLimited: bool, part: Partition)
    requires PassState(p, passes, input, limits, before, was, wasLimited, parts) && KeysHandled(keys, |parts|, parts)
    requires WithinCaps(kept, limits) && (runLimited ==> RunStopped(passes, input, kept.edges, limits))
    requires Grows(was.edges, kept.edges) && PassAdds(p, was.edges, kept.edges, input)
    requires part.pass == p && Sound(part, passes, input, kept, limits)
    requires |parts| < |keys| && part.key == keys[|parts|] && Sorted(keys)
    ensures PassState(p, passes, input, limits, before, kept, runLimited, parts + [part])
    ensures KeysHandled(keys, |parts| + 1, parts + [part])
  {
    AddsTransitive(p, before.edges, was.edges, kept.edges, input);
    PassPartitionsGrow(p, parts, passes, input, was, kept, limits, part);
  }

  /** What the groups of one pass add, key by key. */
  ghost function PassStage(p: BlockingPass, keys: seq<Key>, lefts: set<Record>, rights: set<Record>,
                           prohibited: set<Edge>, limits: Limits, at: Stage): Stage
    decreases |keys|
  {
    if keys == [] then at
    else
      PassStage(p, keys[1..], lefts, rights, prohibited, limits,
                KeyStage(p, keys[0], SortedGroup(p, keys[0], lefts), SortedGroup(p, keys[0], rights), prohibited,
                         limits, at))
  }

  /** The keys of a pass with records on both sides, in the order in which they are visited. */
  ghost function SharedKeys(p: BlockingPass, lefts: set<Record>, rights: set<Record>): seq<Key> {
    SortedKeys(KeysOf(p, lefts) * KeysOf(p, rights))
  }

  ghost function PassOf(p: BlockingPass, lefts: set<Record>, rights: set<Record>, prohibited: set<Edge>,
                        limits: Limits, at: Stage): Stage {
    PassStage(p, SharedKeys(p, lefts, rights), lefts, rights, prohibited, limits, Stage(at.kept, [], at.stopped))
  }

  lemma KeysArePlaced(p: BlockingPass, input: Input, keys: seq<Key>, parts: seq<Partition>)
    requires KeysHandled(keys, |keys|, parts) && forall k :: 0 <= k < |parts| ==> parts[k].pass == p
    requires forall key :: Inhabited(p, key, input.lefts) && Inhabited(p, key, input.rights) ==> key in keys
    ensures KeysPlaced(p, input, parts)
  {
    forall key | Inhabited(p, key, input.lefts) && Inhabited(p, key, input.rights)
      ensures KeyPlaced(parts, p, key)
    {
      var k :| 0 <= k < |keys| && keys[k] == key;
      assert parts[k].key == key;
    }
  }

  lemma NextKey(p: BlockingPass, keys: seq<Key>, k: nat, input: Input, limits: Limits, at: Stage, now: Stage,
                lefts: seq<Record>, rights: seq<Record>)
    requires k < |keys|
    requires GroupFor(p, keys[k], input.lefts, lefts) && GroupFor(p, keys[k], input.rights, rights)
    requires now == KeyStage(p, keys[k], lefts, rights, input.prohibited, limits, at)
    ensures PassStage(p, keys[k..], RecordSet(input.lefts), RecordSet(input.rights), input.prohibited, limits, at) ==
            PassStage(p, keys[k + 1..], RecordSet(input.lefts), RecordSet(input.rights), input.prohibited, limits, now)
  {
    GroupIsSortedGroup(p, keys[k], input.lefts, lefts);
    GroupIsSortedGroup(p, keys[k], input.rights, rights);
    assert keys[k..][0] == keys[k] && keys[k..][1..] == keys[k + 1..];
  }

  lemma StageAppends(p: BlockingPass, key: Key, lefts: seq<Record>, rights: seq<Record>, prohibited: set<Edge>,
                     limits: Limits, kept: Retained, parts: seq<Partition>, stopped: bool, next: Stage)
    requires KeyStage(p, key, lefts, rights, prohibited, limits, Stage(kept, [], stopped)) == next
    ensures KeyStage(p, key, lefts, rights, prohibited, limits, Stage(kept, parts, stopped)) ==
            next.(parts := parts + next.parts)
  {
  }

  /** Where the loop over the keys stands after the first k of them. */
  ghost predicate PassLoop(p: BlockingPass, passes: set<BlockingPass>, input: Input, limits: Limits, start: Stage,
                           keys: seq<Key>, k: nat, at: Stage) {
    && PassState(p, passes, input, limits, start.kept, at.kept, at.stopped, at.parts)
    && KeysHandled(keys, k, at.parts)
    && PassStage(p, keys[k..], RecordSet(input.lefts), RecordSet(input.rights), input.prohibited, limits, at) ==
       PassStage(p, keys, RecordSet(input.lefts), RecordSet(input.rights), input.prohibited, limits, start)
  }

  lemma KeyStep(p: BlockingPass, passes: set<BlockingPass>, input: Input, limits: Limits, start: Stage, keys: seq<Key>,
                k: nat, at: Stage, lefts: seq<Record>, rights: seq<Record>, kept: Retained, part: Partition,
                runLimited: bool)
    requires PassLoop(p, passes, input, limits, start, keys, k, at) && k < |keys| && Sorted(keys)
    requires GroupFor(p, keys[k], input.lefts, lefts) && GroupFor(p, keys[k], input.rights, rights)
    requires WithinCaps(kept, limits) && (runLimited ==> RunStopped(passes, input, kept.edges, limits))
    requires Grows(at.kept.edges, kept.edges) && PassAdds(p, at.kept.edges, kept.edges, input)
    requires part.pass == p && part.key == keys[k] && Sound(part, passes, input, kept, limits)
    requires Stage(kept, [part], runLimited) ==
             KeyStage(p, keys[k], lefts, rights, input.prohibited, limits, Stage(at.kept, [], at.stopped))
    ensures PassLoop(p, passes, input, limits, start, keys, k + 1, Stage(kept, at.parts + [part], runLimited))
  {
    StageAppends(p, keys[k], lefts, rights, input.prohibited, limits, at.kept, at.parts, at.stopped,
                 Stage(kept, [part], runLimited));
    NextKey(p, keys, k, input, limits, at, Stage(kept, at.parts + [part], runLimited), lefts, rights);
    OneMoreKey(p, passes, input, limits, start.kept, at.kept, at.stopped, at.parts, keys, kept, runLimited, part);
  }

  lemma PassStarts(p: BlockingPass, passes: set<BlockingPass>, input: Input, limits: Limits, start: Stage,
                   keys: seq<Key>)
    requires WithinCaps(start.kept, limits) && start.parts == []
    requires start.stopped ==> RunStopped(passes, input, start.kept.edges, limits)
    ensures PassLoop(p, passes, input, limits, start, keys, 0, start)
  {
    assert keys[0..] == keys;
  }

  lemma PassEnds(p: BlockingPass, passes: set<BlockingPass>, input: Input, limits: Limits, start: Stage,
                 keys: seq<Key>, at: Stage)
    requires PassLoop(p, passes, input, limits, start, keys, |keys|, at) && start.parts == []
    requires keys == SharedKeys(p, RecordSet(input.lefts), RecordSet(input.rights))
    ensures at == PassOf(p, RecordSet(input.lefts), RecordSet(input.rights), input.prohibited, limits, start)
  {
    assert keys[|keys|..] == [];
  }

  lemma SharedKeysAre(p: BlockingPass, input: Input, leftGroups: map<Key, seq<Record>>,
                      rightGroups: map<Key, seq<Record>>)
    requires Grouping(p, input.lefts, leftGroups) && Grouping(p, input.rights, rightGroups)
    ensures SortedKeys(leftGroups.Keys * rightGroups.Keys) ==
            SharedKeys(p, RecordSet(input.lefts), RecordSet(input.rights))
    ensures Sorted(SortedKeys(leftGroups.Keys * rightGroups.Keys))
    ensures forall key :: key in SortedKeys(leftGroups.Keys * rightGroups.Keys) <==>
                          Inhabited(p, key, input.lefts) && Inhabited(p, key, input.rights)
  {
    SortedKeysAre(leftGroups.Keys * rightGroups.Keys);
    KeysAreGrouped(p, input.lefts, leftGroups);
    KeysAreGrouped(p, input.rights, rightGroups);
  }

  lemma GroupsOfKey(p: BlockingPass, input: Input, leftGroups: map<Key, seq<Record>>,
                    rightGroups: map<Key, seq<Record>>, key: Key)
    requires Grouping(p, input.lefts, leftGroups) && Grouping(p, input.rights, rightGroups)
    requires Inhabited(p, key, input.lefts) && Inhabited(p, key, input.rights)
    ensures key in leftGroups && key in rightGroups
    ensures GroupFor(p, key, input.lefts, leftGroups[key]) && GroupFor(p, key, input.rights, rightGroups[key])
  {
  }

  method EnumeratePass(p: BlockingPass, input: Input, limits: Limits, before: Retained, wasLimited: bool,
                       ghost passes: set<BlockingPass>)
    returns (kept: Retained, parts: seq<Partition>, runLimited: bool)
    requires input.Valid() && p in passes && WithinCaps(before, limits)
    requires wasLimited ==> RunStopped(passes, input, before.edges, limits)
    ensures PassState(p, passes, input, limits, before, kept, runLimited, parts)
    ensures KeysPlaced(p, input, parts)
    ensures Stage(kept, parts, runLimited) ==
            PassOf(p, RecordSet(input.lefts), RecordSet(input.rights), input.prohibited, limits,
                   Stage(before, [], wasLimited))
  {
    var leftGroups := GroupRecords(input.lefts, p);
    var rightGroups := GroupRecords(input.rights, p);
    kept, parts, runLimited := before, [], wasLimited;
    var keys := SortedKeys(leftGroups.Keys * rightGroups.Keys);
    SharedKeysAre(p, input, leftGroups, rightGroups);
    ghost var start := Stage(before, [], wasLimited);
    PassStarts(p, passes, input, limits, start, keys);
    for k := 0 to |keys|
      invariant PassLoop(p, passes, input, limits, start, keys, k, Stage(kept, parts, runLimited))
    {
      var key := keys[k];
      GroupsOfKey(p, input, leftGroups, rightGroups, key);
      ghost var was := Stage(kept, parts, runLimited);
      var part;
      kept, part, runLimited :=
        EnumerateKey(p, key, leftGroups[key], rightGroups[key], input, limits, kept, runLimited, passes);
      KeyStep(p, passes, input, limits, start, keys, k, was, leftGroups[key], rightGroups[key], kept, part, runLimited);
      parts := parts + [part];
    }
    PassEnds(p, passes, input, limits, start, keys, Stage(kept, parts, runLimited));
    KeysArePlaced(p, input, keys, parts);
  }

  // ----- all passes -----

  function PassSet(passes: seq<BlockingPass>): set<BlockingPass> {
    set p | p in passes
  }

  ghost predicate DistinctReasons(passes: seq<BlockingPass>) {
    forall i, j :: 0 <= i < j < |passes| ==> Reason(passes[i]) != Reason(passes[j])
  }

  ghost predicate KeysPlaced(p: BlockingPass, input: Input, parts: seq<Partition>) {
    forall key :: Inhabited(p, key, input.lefts) && Inhabited(p, key, input.rights) ==> KeyPlaced(parts, p, key)
  }

  ghost predicate RunState(done: seq<BlockingPass>, passes: set<BlockingPass>, input: Input, limits: Limits,
                           kept: Retained, runLimited: bool,
                           parts: seq<Partition>) {
    && WithinCaps(kept, limits) && (runLimited ==> RunStopped(passes, input, kept.edges, limits))
    && AllJustified(kept.edges, PassSet(done), input)
    && (forall k :: 0 <= k < |parts| ==> parts[k].pass in done && Sound(parts[k], passes, input, kept, limits))
    && (forall p :: p in done ==> KeysPlaced(p, input, parts))
    && (DistinctReasons(done) ==> DistinctPartitions(parts))
  }

  /** Partition identities, pass and key, are all different. */
  predicate DistinctPartitions(parts: seq<Partition>) {
    forall j, k :: 0 <= j < k < |parts| ==> !(Reason(parts[j].pass) == Reason(parts[k].pass) && parts[j].key == parts[k].key)
  }

  lemma JustifiedByMore(edges: EdgeReasons, passes: set<BlockingPass>, more: set<BlockingPass>, input: Input,
                        before: EdgeReasons, p: BlockingPass)
    requires AllJustified(before, passes, input) && PassAdds(p, before, edges, input)
    requires passes <= more && p in more
    ensures AllJustified(edges, more, input)
  {
    forall e, why | Has(edges, e, why)
      ensures Justified(e, why, more, input)
    {
      if Has(before, e, why) {
        assert Justified(e, why, passes, input);
      } else {
        assert Justified(e, why, {p}, input);
      }
    }
  }

  lemma PartitionsJoin(done: seq<BlockingPass>, p: BlockingPass, passes: set<BlockingPass>, input: Input,
                       limits: Limits, before: Retained,
                       kept: Retained, parts: seq<Partition>, more: seq<Partition>)
    requires WithinCaps(before, limits) && WithinCaps(kept, limits) && Grows(before.edges, kept.edges)
    requires forall k :: 0 <= k < |parts| ==> parts[k].pass in done && Sound(parts[k], passes, input, before, limits)
    requires PassPartitions(p, more, passes, input, kept, limits)
    ensures forall k :: 0 <= k < |parts + more| ==>
              (parts + more)[k].pass in done + [p] && Sound((parts + more)[k], passes, input, kept, limits)
    ensures DistinctReasons(done + [p]) && DistinctPartitions(parts) ==> DistinctPartitions(parts + more)
  {
    var all := parts + more;
    forall k | 0 <= k < |all|
      ensures all[k].pass in done + [p] && Sound(all[k], passes, input, kept, limits)
    {
      if k < |parts| {
        SoundGrows(parts[k], passes, input, before, kept, limits);
      } else {
        assert all[k] == more[k - |parts|];
      }
    }
    if DistinctReasons(done + [p]) && DistinctPartitions(parts) {
      forall j, k | 0 <= j < k < |all|
        ensures !(Reason(all[j].pass) == Reason(all[k].pass) && all[j].key == all[k].key)
      {
        if j < |parts| <= k {
          var i :| 0 <= i < |done| && done[i] == all[j].pass;
          assert (done + [p])[i] == done[i] && (done + [p])[|done|] == p;
        }
      }
    }
  }

  lemma KeysStayPlaced(p: BlockingPass, input: Input, parts: seq<Partition>, more: seq<Partition>)
    ensures KeysPlaced(p, input, parts) || KeysPlaced(p, input, more) ==> KeysPlaced(p, input, parts + more)
  {
    var all := parts + more;
    forall key | KeyPlaced(parts, p, key) || KeyPlaced(more, p, key)
      ensures KeyPlaced(all, p, key)
    {
      if i :| 0 <= i < |parts| && parts[i].pass == p && parts[i].key == key {
        assert all[i] == parts[i];
      } else {
        var k :| 0 <= k < |more| && more[k].pass == p && more[k].key == key;
        assert all[|parts| + k] == more[k];
      }
    }
  }

  lemma OneMorePass(done: seq<BlockingPass>, p: BlockingPass, passes: set<BlockingPass>, input: Input,
                    limits: Limits, before: Retained,
                    wasLimited: bool, parts: seq<Partition>, kept: Retained, runLimited: bool, more: seq<Partition>)
    requires RunState(done, passes, input, limits, before, wasLimited, parts)
    requires PassState(p, passes, input, limits, before, kept, runLimited, more) && KeysPlaced(p, input, more)
    ensures RunState(done + [p], passes, input, limits, kept, runLimited, parts + more)
  {
    JustifiedByMore(kept.edges, PassSet(done), PassSet(done + [p]), input, before.edges, p);
    PartitionsJoin(done, p, passes, input, limits, before, kept, parts, more);
    forall q | q in done + [p]
      ensures KeysPlaced(q, input, parts + more)
    {
      KeysStayPlaced(q, input, parts, more);
    }
    if DistinctReasons(done + [p]) {
      forall i, j | 0 <= i < j < |done|
        ensures Reason(done[i]) != Reason(done[j])
      {
        assert (done + [p])[i] == done[i] && (done + [p])[j] == done[j];
      }
    }
  }

  ghost predicate StoppedHere(part: Partition) {
    part.limit == Some(PerRecordLimit) || part.limit == Some(RunEdgeLimit)
  }

  /** The incomplete partitions are the closure of the ones that tripped a cap, under shared records. */
  ghost predicate TaintClosure(parts: seq<Partition>) {
    forall i: nat :: i < |parts| ==>
      (parts[i].limit.Some? <==>
       exists j: nat :: j < |parts| && StoppedHere(parts[j]) && Linked(Sharing(parts), Positions(|parts|), j, i))
  }

  ghost predicate LimitedAre(parts: seq<Partition>, limited: set<Id>) {
    forall x :: x in limited <==> exists k: nat :: Incomplete(parts, k) && Member(parts, k, x)
  }

  ghost predicate Capped(edges: EdgeReasons, limits: Limits) {
    && (forall x :: |LeftEdges(edges, x)| <= limits.perRecord && |RightEdges(edges, x)| <= limits.perRecord)
    && |edges| <= limits.runEdges
    && forall e :: e in edges ==> edges[e] != {}
  }

  ghost predicate GenuineLimit(part: Partition, passes: set<BlockingPass>, input: Input, edges: EdgeReasons,
                               limits: Limits) {
    part.limit == Some(ConnectedToIncomplete) || Genuine(part, passes, input, edges, limits)
  }

  /** The complete account of a generation. */
  ghost predicate Generated(input: Input, passes: seq<BlockingPass>, limits: Limits, gen: Generation) {
    && Capped(gen.edges, limits)
    && AllJustified(gen.edges, PassSet(passes), input)
    && (forall k :: 0 <= k < |gen.partitions| ==>
          && gen.partitions[k].pass in passes && Placed(gen.partitions[k], input)
          && (gen.partitions[k].limit.None? ==> Covered(gen.partitions[k], input, gen.edges))
          && GenuineLimit(gen.partitions[k], PassSet(passes), input, gen.edges, limits))
    && (forall p :: p in passes ==> KeysPlaced(p, input, gen.partitions))
    && TaintClosure(gen.partitions)
    && LimitedAre(gen.partitions, gen.limited)
    && (gen.complete <==> forall k: nat :: !Incomplete(gen.partitions, k))
  }

  lemma ClosureIsTaintClosure(before: seq<Partition>, after: seq<Partition>)
    requires Closure(before, after)
    requires forall k :: 0 <= k < |before| ==> before[k].limit != Some(ConnectedToIncomplete)
    ensures TaintClosure(after)
  {
    SameShares(before, after);
    forall j: nat
      ensures Incomplete(before, j) <==> j < |after| && StoppedHere(after[j])
    {
      if j < |before| {
        assert after[j].pass == before[j].pass;
        assert before[j].limit != Some(ConnectedToIncomplete);
        if before[j].limit.Some? {
          assert before[j].limit.value.PerRecordLimit? || before[j].limit.value.RunEdgeLimit?;
        }
      }
    }
    forall i: nat | i < |after|
      ensures after[i].limit.Some? <==>
              exists j: nat :: j < |after| && StoppedHere(after[j]) && Linked(Sharing(after), Positions(|after|), j, i)
    {
      assert Incomplete(after, i) <==> Tainted(before, i);
      if Tainted(before, i) {
        var j: nat :| Incomplete(before, j) && Linked(Sharing(before), Positions(|before|), j, i);
        SameLinks(before, after, j, i);
        assert StoppedHere(after[j]);
      }
      if j: nat :| j < |after| && StoppedHere(after[j]) && Linked(Sharing(after), Positions(|after|), j, i) {
        SameLinks(after, before, j, i);
        assert Incomplete(before, j);
      }
    }
  }

  lemma SameLinks(a: seq<Partition>, b: seq<Partition>, i: nat, j: nat)
    requires |a| == |b| && forall i: nat, j: nat :: Shares(a, i, j) <==> Shares(b, i, j)
    requires Linked(Sharing(a), Positions(|a|), i, j)
    ensures Linked(Sharing(b), Positions(|b|), i, j)
  {
    var p :| Joins(Sharing(a), Positions(|a|), p, i, j);
    forall k | 0 <= k < |p| - 1
      ensures Sharing(b)(p[k], p[k + 1])
    {
      assert Sharing(a)(p[k], p[k + 1]);
    }
    assert Joins(Sharing(b), Positions(|b|), p, i, j);
  }

  lemma RunIsGenerated(input: Input, passes: seq<BlockingPass>, limits: Limits, kept: Retained, runLimited: bool,
                       before: seq<Partition>, gen: Generation)
    requires RunState(passes, PassSet(passes), input, limits, kept, runLimited, before)
    requires Closure(before, gen.partitions)
    requires gen.edges == kept.edges && LimitedAre(gen.partitions, gen.limited)
    requires gen.complete <==> forall k: nat :: !Incomplete(gen.partitions, k)
    ensures Generated(input, passes, limits, gen)
  {
    var after := gen.partitions;
    assert Capped(gen.edges, limits) by {
      forall x
        ensures |LeftEdges(gen.edges, x)| <= limits.perRecord && |RightEdges(gen.edges, x)| <= limits.perRecord
      {
        assert Degree(kept.leftDegree, x) <= limits.perRecord && Degree(kept.rightDegree, x) <= limits.perRecord;
      }
    }
    forall k | 0 <= k < |after|
      ensures after[k].pass in passes && Placed(after[k], input)
      ensures after[k].limit.None? ==> Covered(after[k], input, gen.edges)
      ensures GenuineLimit(after[k], PassSet(passes), input, gen.edges, limits)
    {
      assert Sound(before[k], PassSet(passes), input, kept, limits) && after[k].pass == before[k].pass;
      LimitStaysGenuine(before[k], after[k], PassSet(passes), input, kept.edges, limits);
    }
    forall p | p in passes
      ensures KeysPlaced(p, input, after)
    {
      assert KeysPlaced(p, input, before);
      forall key | KeyPlaced(before, p, key)
        ensures KeyPlaced(after, p, key)
      {
        var k :| 0 <= k < |before| && before[k].pass == p && before[k].key == key;
        assert after[k].pass == before[k].pass;
      }
    }
    ClosureIsTaintClosure(before, after);
  }

  lemma LimitStaysGenuine(before: Partition, after: Partition, passes: set<BlockingPass>, input: Input,
                          edges: EdgeReasons, limits: Limits)
    requires Genuine(before, passes, input, edges, limits)
    requires after.pass == before.pass && after.key == before.key
    requires before.limit.Some? ==> after.limit == before.limit
    requires before.limit.None? && after.limit.Some? ==> after.limit.value == ConnectedToIncomplete
    ensures GenuineLimit(after, passes, input, edges, limits)
  {
  }

  method LimitedMembers(parts: seq<Partition>) returns (limited: set<Id>, complete: bool)
    ensures LimitedAre(parts, limited)
    ensures complete <==> forall k: nat :: !Incomplete(parts, k)
  {
    limited, complete := {}, true;
    for i := 0 to |parts|
      invariant forall x :: x in limited <==> exists k: nat :: k < i && Incomplete(parts, k) && Member(parts, k, x)
      invariant complete <==> forall k: nat :: k < i ==> !Incomplete(parts, k)
    {
      ghost var was := limited;
      if parts[i].limit.Some? {
        assert Incomplete(parts, i);
        limited, complete := limited + (set x | x in parts[i].Members()), false;
      }
      forall x
        ensures x in limited <==> exists k: nat :: k < i + 1 && Incomplete(parts, k) && Member(parts, k, x)
      {
        if x in limited && x !in was {
          assert Member(parts, i, x);
        }
      }
    }
  }

  /** What all passes retain, pass by pass. */
  ghost function RunStage(passes: seq<BlockingPass>, lefts: set<Record>, rights: set<Record>, prohibited: set<Edge>,
                          limits: Limits, at: Stage): Stage
    decreases |passes|
  {
    if passes == [] then at
    else
      var next := PassOf(passes[0], lefts, rights, prohibited, limits, at);
      RunStage(passes[1..], lefts, rights, prohibited, limits, next.(parts := at.parts + next.parts))
  }

  const NOTHING: Stage := Stage(Retained(map[], map[], map[]), [], false)

  ghost function LimitedIds(parts: seq<Partition>): set<Id> {
    set part, x | part in parts && part.limit.Some? && x in part.Members() :: x
  }

  /** The generation as a function of the records on each side, the rejected relationships, the passes and the
      caps: neither the order of the records nor anything else has a part in it. */
  ghost function GenerationOf(lefts: set<Record>, rights: set<Record>, prohibited: set<Edge>,
                              passes: seq<BlockingPass>, limits: Limits): Generation {
    var end := RunStage(passes, lefts, rights, prohibited, limits, NOTHING);
    var parts := Propagated(end.parts);
    Generation(end.kept.edges, parts, LimitedIds(parts), forall k: nat :: !Incomplete(parts, k))
  }

  ghost function GenerationFor(input: Input, passes: seq<BlockingPass>, limits: Limits): Generation {
    GenerationOf(RecordSet(input.lefts), RecordSet(input.rights), input.prohibited, passes, limits)
  }

  lemma LimitedAreIds(parts: seq<Partition>, limited: set<Id>)
    requires LimitedAre(parts, limited)
    ensures limited == LimitedIds(parts)
  {
    forall x
      ensures x in limited <==> x in LimitedIds(parts)
    {
      if x in limited {
        var k: nat :| Incomplete(parts, k) && Member(parts, k, x);
        assert parts[k] in parts;
      }
      if x in LimitedIds(parts) {
        var part :| part in parts && part.limit.Some? && x in part.Members();
        var k: nat :| k < |parts| && parts[k] == part;
        assert Incomplete(parts, k) && Member(parts, k, x);
      }
    }
  }

  /** Where the loop over the passes stands after the first i of them. */
  ghost predicate RunLoop(input: Input, passes: seq<BlockingPass>, limits: Limits, i: nat, at: Stage) {
    && i <= |passes|
    && RunState(passes[..i], PassSet(passes), input, limits, at.kept, at.stopped, at.parts)
    && RunStage(passes[i..], RecordSet(input.lefts), RecordSet(input.rights), input.prohibited, limits, at) ==
       RunStage(passes, RecordSet(input.lefts), RecordSet(input.rights), input.prohibited, limits, NOTHING)
  }

  lemma PassStep(input: Input, passes: seq<BlockingPass>, limits: Limits, i: nat, at: Stage, next: Stage)
    requires RunLoop(input, passes, limits, i, at) && i < |passes|
    requires PassState(passes[i], PassSet(passes), input, limits, at.kept, next.kept, next.stopped, next.parts)
    requires KeysPlaced(passes[i], input, next.parts)
    requires next == PassOf(passes[i], RecordSet(input.lefts), RecordSet(input.rights), input.prohibited, limits,
                            Stage(at.kept, [], at.stopped))
    ensures RunLoop(input, passes, limits, i + 1, next.(parts := at.parts + next.parts))
  {
    assert passes[..i + 1] == passes[..i] + [passes[i]];
    assert passes[i..][0] == passes[i] && passes[i..][1..] == passes[i + 1..];
    OneMorePass(passes[..i], passes[i], PassSet(passes), input, limits, at.kept, at.stopped, at.parts, next.kept,
                next.stopped, next.parts);
  }

  lemma RunStarts(input: Input, passes: seq<BlockingPass>, limits: Limits)
    ensures RunLoop(input, passes, limits, 0, NOTHING)
  {
    NothingRetained(limits);
    assert passes[0..] == passes && passes[..0] == [];
  }

  lemma RunEnds(input: Input, passes: seq<BlockingPass>, limits: Limits, at: Stage)
    requires RunLoop(input, passes, limits, |passes|, at)
    ensures RunState(passes, PassSet(passes), input, limits, at.kept, at.stopped, at.parts)
    ensures at == RunStage(passes, RecordSet(input.lefts), RecordSet(input.rights), input.prohibited, limits, NOTHING)
  {
    assert passes[|passes|..] == [] && passes[..|passes|] == passes;
  }

  method EnumerateAll(input: Input, passes: seq<BlockingPass>, limits: Limits)
    returns (kept: Retained, parts: seq<Partition>, ghost runLimited: bool)
    requires input.Valid()
    ensures RunState(passes, PassSet(passes), input, limits, kept, runLimited, parts)
    ensures Stage(kept, parts, runLimited) ==
            RunStage(passes, RecordSet(input.lefts), RecordSet(input.rights), input.prohibited, limits, NOTHING)
  {
    kept, parts := Retained(map[], map[], map[]), [];
    var stopped := false;
    RunStarts(input, passes, limits);
    for i := 0 to |passes|
      invariant RunLoop(input, passes, limits, i, Stage(kept, parts, stopped))
    {
      assert passes[i] in passes;
      ghost var was := Stage(kept, parts, stopped);
      var more;
      kept, more, stopped := EnumeratePass(passes[i], input, limits, kept, stopped, PassSet(passes));
      PassStep(input, passes, limits, i, was, Stage(kept, more, stopped));
      parts := parts + more;
    }
    RunEnds(input, passes, limits, Stage(kept, parts, stopped));
    runLimited := stopped;
  }

  method GenerateCandidates(input: Input, passes: seq<BlockingPass>, limits: Limits) returns (r: Result<Generation>)
    requires input.Valid()
    ensures r.Ok? ==> Generated(input, passes, limits, r.value) && DistinctPartitions(r.value.partitions)
    ensures r.Ok? ==> r.value == GenerationFor(input, passes, limits)
    ensures DistinctReasons(passes) ==> r.Ok?
  {
    var kept, parts, runLimited := EnumerateAll(input, passes, limits);
    var after := PropagateIncomplete(parts);
    SameIdentities(parts, after);
    var limited, complete := LimitedMembers(after);
    var gen := Generation(kept.edges, after, limited, complete);
    RunIsGenerated(input, passes, limits, kept, runLimited, parts, gen);
    ClosureIsPropagated(parts, after);
    LimitedAreIds(after, limited);
    if !DistinctPartitions(after) {
      return Err(DuplicatePartition);
    }
    r := Ok(gen);
  }

  lemma SameIdentities(before: seq<Partition>, after: seq<Partition>)
    requires SamePartitions(before, after)
    ensures DistinctPartitions(before) <==> DistinctPartitions(after)
  {
    forall j, k | 0 <= j < k < |before|
      ensures (Reason(before[j].pass) == Reason(before[k].pass) && before[j].key == before[k].key) <==>
              (Reason(after[j].pass) == Reason(after[k].pass) && after[j].key == after[k].key)
    {
    }
  }

  lemma NothingRetained(limits: Limits)
    ensures WithinCaps(Retained(map[], map[], map[]), limits)
  {
    var none := Retained(map[], map[], map[]);
    forall x
      ensures LeftEdges(none.edges, x) == {} && RightEdges(none.edges, x) == {}
    {
    }
  }

  // ----- what a generation means, pair by pair -----

  lemma PlacedTogether(input: Input, parts: seq<Partition>, p: BlockingPass, l: Record, r: Record) returns (k: nat)
    requires KeysPlaced(p, input, parts) && forall i :: 0 <= i < |parts| ==> Placed(parts[i], input)
    requires l in input.lefts && r in input.rights && Groups(p, l) && Groups(p, r) && KeyOf(p, l) == KeyOf(p, r)
    ensures k < |parts| && parts[k].pass == p && parts[k].key == KeyOf(p, l)
    ensures Member(parts, k, l.id) && Member(parts, k, r.id)
  {
    var key := KeyOf(p, l);
    assert InGroup(p, key, l) && InGroup(p, key, r);
    assert Inhabited(p, key, input.lefts) && Inhabited(p, key, input.rights);
    k :| 0 <= k < |parts| && parts[k].pass == p && parts[k].key == key;
    assert Placed(parts[k], input);
    assert l.id in parts[k].lefts && r.id in parts[k].rights;
  }

  /** Two records that a pass puts in one group are both limited or both not. */
  lemma GroupedTogetherLimitedTogether(input: Input, passes: seq<BlockingPass>, limits: Limits, gen: Generation,
                                       p: BlockingPass, l: Record, r: Record)
    requires input.Valid() && Generated(input, passes, limits, gen)
    requires p in passes && l in input.lefts && r in input.rights
    requires Groups(p, l) && Groups(p, r) && KeyOf(p, l) == KeyOf(p, r)
    ensures l.id in gen.limited <==> r.id in gen.limited
  {
    var parts := gen.partitions;
    var k := PlacedTogether(input, parts, p, l, r);
    LimitedIffIncomplete(parts, gen.limited, k, l.id);
    LimitedIffIncomplete(parts, gen.limited, k, r.id);
  }

  lemma LimitedIffIncomplete(parts: seq<Partition>, limited: set<Id>, k: nat, x: Id)
    requires TaintClosure(parts) && LimitedAre(parts, limited) && Member(parts, k, x)
    ensures x in limited <==> Incomplete(parts, k)
  {
    if x in limited {
      LimitedSpreads(parts, limited, k, x);
    }
  }

  lemma LinkedNext(parts: seq<Partition>, j: nat, i: nat, k: nat)
    requires Linked(Sharing(parts), Positions(|parts|), j, i) && Shares(parts, i, k) && k < |parts|
    ensures Linked(Sharing(parts), Positions(|parts|), j, k)
  {
    LinkedStep(Sharing(parts), Positions(|parts|), j, i, k);
  }

  lemma LimitedSpreads(parts: seq<Partition>, limited: set<Id>, k: nat, x: Id)
    requires TaintClosure(parts) && LimitedAre(parts, limited)
    requires x in limited && Member(parts, k, x)
    ensures Incomplete(parts, k)
  {
    var i: nat :| Incomplete(parts, i) && Member(parts, i, x);
    var j: nat :| j < |parts| && StoppedHere(parts[j]) && Linked(Sharing(parts), Positions(|parts|), j, i);
    assert Shares(parts, i, k);
    LinkedNext(parts, j, i, k);
  }

  /** An edge's endpoints are both limited or both not. */
  lemma EdgeEndsLimitedTogether(input: Input, passes: seq<BlockingPass>, limits: Limits, gen: Generation, e: Edge)
    requires input.Valid() && Generated(input, passes, limits, gen) && e in gen.edges
    ensures e.left in gen.limited <==> e.right in gen.limited
  {
    var why :| why in gen.edges[e];
    assert Has(gen.edges, e, why) && Justified(e, why, PassSet(passes), input);
    var p, l, r :| p in PassSet(passes) && l in input.lefts && r in input.rights &&
                   Admits(p, l, r) && why == Reason(p) && e == Edge(l.id, r.id);
    GroupedTogetherLimitedTogether(input, passes, limits, gen, p, l, r);
  }

  /** A pair the naive all-pairs filter keeps, with this reason. */
  ghost predicate NaivelyKept(input: Input, passes: seq<BlockingPass>, l: Record, r: Record, why: string) {
    Edge(l.id, r.id) !in input.prohibited && exists p :: p in passes && Reason(p) == why && Admits(p, l, r)
  }

  lemma RecordsById(input: Input, l: Record, r: Record, l2: Record, r2: Record)
    requires input.Valid() && l in input.lefts && l2 in input.lefts && r in input.rights && r2 in input.rights
    requires Edge(l.id, r.id) == Edge(l2.id, r2.id)
    ensures l == l2 && r == r2
  {
  }

  lemma CompletePartitionCovers(input: Input, passes: seq<BlockingPass>, limits: Limits, gen: Generation, k: nat)
    requires Generated(input, passes, limits, gen) && k < |gen.partitions| && !Incomplete(gen.partitions, k)
    ensures Covered(gen.partitions[k], input, gen.edges)
  {
  }

  lemma PairPartition(input: Input, passes: seq<BlockingPass>, limits: Limits, gen: Generation, p: BlockingPass,
                      l: Record, r: Record) returns (k: nat)
    requires Generated(input, passes, limits, gen) && p in passes
    requires l in input.lefts && r in input.rights && Groups(p, l) && Groups(p, r) && KeyOf(p, l) == KeyOf(p, r)
    ensures k < |gen.partitions| && gen.partitions[k].pass == p && gen.partitions[k].key == KeyOf(p, l)
    ensures Incomplete(gen.partitions, k) ==> l.id in gen.limited && r.id in gen.limited
  {
    k := PlacedTogether(input, gen.partitions, p, l, r);
    IncompleteLimits(gen.partitions, gen.limited, k);
  }

  lemma IncompleteLimits(parts: seq<Partition>, limited: set<Id>, k: nat)
    requires LimitedAre(parts, limited) && k < |parts|
    ensures Incomplete(parts, k) ==> forall x :: Member(parts, k, x) ==> x in limited
  {
  }

  lemma AdmittedIsRetained(input: Input, passes: seq<BlockingPass>, limits: Limits, gen: Generation, p: BlockingPass,
                           l: Record, r: Record)
    requires Generated(input, passes, limits, gen) && p in passes && l in input.lefts && r in input.rights
    requires Admits(p, l, r) && Edge(l.id, r.id) !in input.prohibited
    requires l.id !in gen.limited || r.id !in gen.limited
    ensures Has(gen.edges, Edge(l.id, r.id), Reason(p))
  {
    var k := PairPartition(input, passes, limits, gen, p, l, r);
    CompletePartitionCovers(input, passes, limits, gen, k);
    assert Edge(l.id, r.id) in GroupPairs(p, KeyOf(p, l), input);
  }

  /** Around a pair with an unlimited record, bounded generation is exactly the naive filter: the
      same edges with the same reasons. Every retained edge is naive, whatever is limited. */
  lemma UnlimitedIsNaive(input: Input, passes: seq<BlockingPass>, limits: Limits, gen: Generation,
                         l: Record, r: Record, why: string)
    requires input.Valid() && Generated(input, passes, limits, gen)
    requires l in input.lefts && r in input.rights
    ensures Has(gen.edges, Edge(l.id, r.id), why) ==> NaivelyKept(input, passes, l, r, why)
    ensures l.id !in gen.limited || r.id !in gen.limited ==>
              (Has(gen.edges, Edge(l.id, r.id), why) <==> NaivelyKept(input, passes, l, r, why))
  {
    var e := Edge(l.id, r.id);
    if Has(gen.edges, e, why) {
      RetainedIsNaive(input, passes, gen.edges, l, r, why);
    }
    if NaivelyKept(input, passes, l, r, why) && (l.id !in gen.limited || r.id !in gen.limited) {
      var p :| p in passes && Reason(p) == why && Admits(p, l, r);
      AdmittedIsRetained(input, passes, limits, gen, p, l, r);
    }
  }

  lemma RetainedIsNaive(input: Input, passes: seq<BlockingPass>, edges: EdgeReasons, l: Record, r: Record, why: string)
    requires input.Valid() && AllJustified(edges, PassSet(passes), input)
    requires l in input.lefts && r in input.rights && Has(edges, Edge(l.id, r.id), why)
    ensures NaivelyKept(input, passes, l, r, why)
  {
    var e := Edge(l.id, r.id);
    assert Justified(e, why, PassSet(passes), input);
    var p, l2, r2 :| p in PassSet(passes) && l2 in input.lefts && r2 in input.rights &&
                     Admits(p, l2, r2) && why == Reason(p) && e == Edge(l2.id, r2.id);
    RecordsById(input, l, r, l2, r2);
  }

  // ----- what a reason means, field by field -----

  /** A configured pass of this name and version lets the two records meet, and no reviewer rejected them. */
  ghost predicate Allows(input: Input, passes: seq<BlockingPass>, l: Record, r: Record, why: string) {
    && Edge(l.id, r.id) !in input.prohibited
    && exists p :: && p in passes && why == p.passId + "@" + p.version
                   && HasRequired(p, l) && HasRequired(p, r) && SameRequired(p, l, r) && CloseInTime(p, l, r)
  }

  lemma AllowsIsNaive(input: Input, passes: seq<BlockingPass>, l: Record, r: Record, why: string)
    ensures Allows(input, passes, l, r, why) <==> NaivelyKept(input, passes, l, r, why)
  {
    forall p: BlockingPass
      ensures Admits(p, l, r) <==>
              HasRequired(p, l) && HasRequired(p, r) && SameRequired(p, l, r) && CloseInTime(p, l, r)
    {
      AdmitsMeans(p, l, r);
    }
    if NaivelyKept(input, passes, l, r, why) {
      var p :| p in passes && Reason(p) == why && Admits(p, l, r);
      assert why == p.passId + "@" + p.version;
    }
    if Allows(input, passes, l, r, why) {
      var p :| p in passes && why == p.passId + "@" + p.version && HasRequired(p, l) && HasRequired(p, r) &&
               SameRequired(p, l, r) && CloseInTime(p, l, r);
      assert Reason(p) == why;
    }
  }

  /** A pair is retained for a reason only if a pass of that name requires fields on which both records agree,
      within its window; next to an unlimited record, exactly then. */
  lemma ReasonsMean(input: Input, passes: seq<BlockingPass>, limits: Limits, gen: Generation, l: Record, r: Record,
                    why: string)
    requires input.Valid() && Generated(input, passes, limits, gen)
    requires l in input.lefts && r in input.rights
    ensures Has(gen.edges, Edge(l.id, r.id), why) ==> Allows(input, passes, l, r, why)
    ensures l.id !in gen.limited || r.id !in gen.limited ==>
              (Has(gen.edges, Edge(l.id, r.id), why) <==> Allows(input, passes, l, r, why))
  {
    UnlimitedIsNaive(input, passes, limits, gen, l, r, why);
    AllowsIsNaive(input, passes, l, r, why);
  }
}
