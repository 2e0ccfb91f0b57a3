/** Reservation, exclusion and authoritative references, before any heuristic matching. */
module References {
  import opened Matchings
  import opened Domain

  datatype Snapshot = Snapshot(left: seq<Record>, right: seq<Record>) {
    ghost predicate Valid() {
      UniqueIds(left) && UniqueIds(right) && Ids(left) !! Ids(right)
    }
  }

  /** A reviewer's relationship: a link to keep, or a rejected one. */
  datatype Relationship = Relationship(decision: Id, edge: Edge)

  /** A reviewer's reservation of a single record. */
  datatype Single = Single(decision: Id, record: Id)

  datatype Decisions = Decisions(
    manual: seq<Relationship>, accepted: seq<Single>, rejected: seq<Relationship>, reserved: seq<Single>)
  {
    function DecisionIds(): seq<Id> {
      seq(|manual|, i requires 0 <= i < |manual| => manual[i].decision) +
      seq(|accepted|, i requires 0 <= i < |accepted| => accepted[i].decision) +
      seq(|rejected|, i requires 0 <= i < |rejected| => rejected[i].decision) +
      seq(|reserved|, i requires 0 <= i < |reserved| => reserved[i].decision)
    }

    /** The checks the constructor makes. */
    predicate Valid() {
      && (var ids := DecisionIds(); forall i, j :: 0 <= i < j < |ids| ==> ids[i] != ids[j])
      && (forall i, j :: 0 <= i < j < |manual| ==>
            manual[i].edge.left != manual[j].edge.left && manual[i].edge.right != manual[j].edge.right)
      && (var singles := accepted + reserved;
          && (forall i, j :: 0 <= i < j < |singles| ==> singles[i].record != singles[j].record)
          && (forall m, s :: m in manual && s in singles ==> s.record != m.edge.left && s.record != m.edge.right))
      && (forall i, j :: 0 <= i < j < |rejected| ==> rejected[i].edge != rejected[j].edge)
    }
  }

  datatype PairOrigin = Manual | AuthoritativeReference | WeightedGlobal

  datatype Pair = Pair(edge: Edge, origin: PairOrigin, score: Option<int>, gap: Option<int>)

  datatype UnpairedReason =
    | AcceptedUnmatched | CancelledExcluded | ReviewerReserved | ManualAttention | DuplicateReference
    | Prohibited | NoCandidate | BelowAssignmentFloor | Ambiguous | ComputationLimited

  datatype Unpaired = Unpaired(side: RecordSide, reason: UnpairedReason, related: set<Id>)

  type Terminals = map<Id, Unpaired>

  /** A trusted reference that more than one open record of a side carries, with all its carriers. */
  datatype ReferenceConflict = ReferenceConflict(lefts: set<Id>, rights: set<Id>)

  datatype Preprocessed = Preprocessed(
    pairs: seq<Pair>, terminal: Terminals, remainingLeft: seq<Record>, remainingRight: seq<Record>, prohibited: set<Edge>,
    conflicts: map<string, ReferenceConflict>)

  // ----- the meaning, record by record -----

  /** One side's point of view: its own records first in every edge. */
  datatype View = View(
    side: RecordSide, mine: seq<Record>, theirs: seq<Record>, links: set<Edge>, accepted: set<Id>, reserved: set<Id>,
    rejected: set<Edge>, contract: ReferenceContract)

  function Flip(edges: set<Edge>): set<Edge> {
    set e | e in edges :: Edge(e.right, e.left)
  }

  function RelationshipEdges(items: seq<Relationship>): set<Edge> {
    set i | i in items :: i.edge
  }

  function SingleIds(items: seq<Single>): set<Id> {
    set i | i in items :: i.record
  }

  function LeftView(s: Snapshot, d: Decisions, contract: ReferenceContract): View {
    View(LeftSide, s.left, s.right, RelationshipEdges(d.manual), SingleIds(d.accepted), SingleIds(d.reserved),
         RelationshipEdges(d.rejected), contract)
  }

  function RightView(s: Snapshot, d: Decisions, contract: ReferenceContract): View {
    View(RightSide, s.right, s.left, Flip(RelationshipEdges(d.manual)), SingleIds(d.accepted), SingleIds(d.reserved),
         Flip(RelationshipEdges(d.rejected)), contract)
  }

  function EligibleIds(records: seq<Record>): set<Id> {
    set r | r in records && r.Eligible() :: r.id
  }

  /** The eligible records no reviewer decision holds. */
  function Open(records: seq<Record>, linked: set<Id>, singles: set<Id>): set<Id> {
    EligibleIds(records) - linked - singles
  }

  function FirstEnds(edges: set<Edge>): set<Id> {
    set e | e in edges :: e.left
  }

  function SecondEnds(edges: set<Edge>): set<Id> {
    set e | e in edges :: e.right
  }

  function MyOpen(v: View): set<Id> {
    Open(v.mine, FirstEnds(v.links), v.accepted + v.reserved)
  }

  function TheirOpen(v: View): set<Id> {
    Open(v.theirs, SecondEnds(v.links), v.accepted + v.reserved)
  }

  /** The trusted reference of a record under the reference contract. */
  function TrustedKey(r: Record, contract: ReferenceContract): Option<string> {
    if contract.SharedMustAgree? then r.reference else r.alias
  }

  /** The open records that carry a trusted reference. */
  function Carriers(records: seq<Record>, open: set<Id>, contract: ReferenceContract, key: string): set<Id> {
    set r | r in records && r.id in open && TrustedKey(r, contract) == Some(key) :: r.id
  }

  datatype Fate = Paired(partner: Id, origin: PairOrigin) | Terminal(outcome: Unpaired) | Remaining

  /** What the preprocessing rules decide for one of my records. */
  ghost function FateOf(v: View, r: Record): Fate {
    if !r.Eligible() then Terminal(Unpaired(v.side, CancelledExcluded, {}))
    else if exists y :: Edge(r.id, y) in v.links then
      var y :| Edge(r.id, y) in v.links;
      if y in EligibleIds(v.theirs) then Paired(y, Manual) else Terminal(Unpaired(v.side, ManualAttention, {y}))
    else if r.id in v.accepted then Terminal(Unpaired(v.side, AcceptedUnmatched, {}))
    else if r.id in v.reserved then Terminal(Unpaired(v.side, ReviewerReserved, {}))
    else OpenFate(v, r)
  }

  /** What the trusted references decide for a record no reviewer decision holds. */
  ghost function OpenFate(v: View, r: Record): Fate {
    match TrustedKey(r, v.contract)
    case None => Remaining
    case Some(key) =>
      var mine, theirs := Carriers(v.mine, MyOpen(v), v.contract, key), Carriers(v.theirs, TheirOpen(v), v.contract, key);
      if |mine| > 1 || |theirs| > 1 then Terminal(Unpaired(v.side, DuplicateReference, mine + theirs))
      else if exists y :: y in theirs && Edge(r.id, y) !in v.rejected then
        var y :| y in theirs && Edge(r.id, y) !in v.rejected;
        Paired(y, AuthoritativeReference)
      else Remaining
  }

  predicate PairsOneToOne(pairs: seq<Pair>) {
    forall i, j :: 0 <= i < j < |pairs| ==> !Touch(pairs[i].edge, pairs[j].edge)
  }

  function Lookup(terminal: Terminals, x: Id): Option<Unpaired> {
    if x in terminal then Some(terminal[x]) else None
  }

  // ----- the phases -----

  /** The mutable working state: established pairs, terminal outcomes, and who is still available. */
  datatype Work = Work(pairs: seq<Pair>, terminal: Terminals, left: set<Id>, right: set<Id>)

  /** Pairs are one-to-one, and nobody available is paired or has an outcome. */
  ghost predicate Tidy(w: Work) {
    && PairsOneToOne(w.pairs) && w.left !! w.right
    && (forall p :: p in w.pairs ==> p.edge.left !in w.left && p.edge.right !in w.right)
    && forall x :: x in w.terminal ==> x !in w.left && x !in w.right
  }

  function Ineligible(records: seq<Record>): set<Id> {
    set r | r in records && !r.Eligible() :: r.id
  }

  ghost predicate CancelledAre(terminal: Terminals, left: seq<Record>, right: seq<Record>) {
    forall x :: Lookup(terminal, x) ==
      if x in Ineligible(left) then Some(Unpaired(LeftSide, CancelledExcluded, {}))
      else if x in Ineligible(right) then Some(Unpaired(RightSide, CancelledExcluded, {}))
      else None
  }

  lemma NextIneligible(records: seq<Record>, i: nat)
    requires i < |records|
    ensures Ineligible(records[..i + 1]) ==
            Ineligible(records[..i]) + if records[i].Eligible() then {} else {records[i].id}
  {
    assert records[..i + 1] == records[..i] + [records[i]];
    IneligibleGrows(records[..i], records[i]);
  }

  method ExcludeCancelled(s: Snapshot) returns (w: Work)
    requires s.Valid()
    ensures Tidy(w) && w.pairs == []
    ensures w.left == EligibleIds(s.left) && w.right == EligibleIds(s.right)
    ensures CancelledAre(w.terminal, s.left, s.right)
  {
    var terminal: Terminals := map[];
    for i := 0 to |s.left|
      invariant CancelledAre(terminal, s.left[..i], [])
    {
      NextIneligible(s.left, i);
      if !s.left[i].Eligible() {
        terminal := terminal[s.left[i].id := Unpaired(LeftSide, CancelledExcluded, {})];
      }
    }
    assert s.left[..|s.left|] == s.left;
    for i := 0 to |s.right|
      invariant CancelledAre(terminal, s.left, s.right[..i])
    {
      NextIneligible(s.right, i);
      assert s.right[i].id in Ids(s.right) && s.right[i].id !in Ids(s.left);
      if !s.right[i].Eligible() {
        terminal := terminal[s.right[i].id := Unpaired(RightSide, CancelledExcluded, {})];
      }
    }
    assert s.right[..|s.right|] == s.right;
    w := Work([], terminal, Ids(s.left) - Ineligible(s.left), Ids(s.right) - Ineligible(s.right));
    EligibleSplit(s.left);
    EligibleSplit(s.right);
    forall x | x in terminal
      ensures x !in w.left && x !in w.right
    {
      assert Lookup(terminal, x).Some?;
    }
  }

  lemma EligibleSplit(records: seq<Record>)
    requires UniqueIds(records)
    ensures Ids(records) - Ineligible(records) == EligibleIds(records)
  {
  }

  lemma IneligibleGrows(records: seq<Record>, r: Record)
    ensures Ineligible(records + [r]) == Ineligible(records) + (if r.Eligible() then {} else {r.id})
  {
    assert forall x :: x in records + [r] <==> x in records || x == r;
    if !r.Eligible() {
      assert r in records + [r];
    }
    forall x | x in Ineligible(records)
      ensures x in Ineligible(records + [r])
    {
      var q :| q in records && !q.Eligible() && q.id == x;
      assert q in records + [r];
    }
  }

  // ----- manual links -----

  ghost predicate DistinctEnds(items: seq<Relationship>) {
    forall i, j :: 0 <= i < j < |items| ==>
      items[i].edge.left != items[j].edge.left && items[i].edge.right != items[j].edge.right
  }

  ghost predicate Joined(before: Work, e: Edge) {
    e.left in before.left && e.right in before.right
  }

  /** What applying a list of links to a working state amounts to, link by link. */
  ghost predicate LinksApplied(links: seq<Relationship>, before: Work, after: Work) {
    && after.left == before.left - FirstEnds(RelationshipEdges(links))
    && after.right == before.right - SecondEnds(RelationshipEdges(links))
    && (forall p :: p in after.pairs <==>
          p in before.pairs || (p == Pair(p.edge, Manual, None, None) && p.edge in RelationshipEdges(links) && Joined(before, p.edge)))
    && (forall e :: e in RelationshipEdges(links) && e.left in before.left && e.right !in before.right ==>
          Lookup(after.terminal, e.left) == Some(Unpaired(LeftSide, ManualAttention, {e.right})))
    && (forall e :: e in RelationshipEdges(links) && e.right in before.right && e.left !in before.left ==>
          Lookup(after.terminal, e.right) == Some(Unpaired(RightSide, ManualAttention, {e.left})))
    && (forall x :: Lookup(after.terminal, x) != Lookup(before.terminal, x) ==>
          || (exists e :: e in RelationshipEdges(links) && e.left == x && x in before.left && e.right !in before.right)
          || (exists e :: e in RelationshipEdges(links) && e.right == x && x in before.right && e.left !in before.left))
  }

  function ApplyLink(e: Edge, w: Work): Work {
    if e.left in w.left && e.right in w.right then
      Work(w.pairs + [Pair(e, Manual, None, None)], w.terminal, w.left - {e.left}, w.right - {e.right})
    else if e.left in w.left then
      w.(terminal := w.terminal[e.left := Unpaired(LeftSide, ManualAttention, {e.right})], left := w.left - {e.left})
    else if e.right in w.right then
      w.(terminal := w.terminal[e.right := Unpaired(RightSide, ManualAttention, {e.left})],
         right := w.right - {e.right})
    else w
  }

  lemma EdgesGrow(links: seq<Relationship>, m: Relationship)
    ensures RelationshipEdges(links + [m]) == RelationshipEdges(links) + {m.edge}
  {
    forall e | e in RelationshipEdges(links) + {m.edge}
      ensures e in RelationshipEdges(links + [m])
    {
      if e == m.edge {
        assert m in links + [m];
      } else {
        var i :| i in links && i.edge == e;
        assert i in links + [m];
      }
    }
  }

  lemma NewEnds(links: seq<Relationship>, m: Relationship)
    requires DistinctEnds(links + [m])
    ensures m.edge.left !in FirstEnds(RelationshipEdges(links)) && m.edge.right !in SecondEnds(RelationshipEdges(links))
  {
    forall i | i in links
      ensures i.edge.left != m.edge.left && i.edge.right != m.edge.right
    {
      var k :| 0 <= k < |links| && links[k] == i;
      assert (links + [m])[k] == i && (links + [m])[|links|] == m;
    }
  }

  lemma LinkKeepsTidy(e: Edge, w: Work)
    requires Tidy(w)
    ensures Tidy(ApplyLink(e, w))
  {
    var after := ApplyLink(e, w);
    if e.left in w.left && e.right in w.right {
      forall i | 0 <= i < |w.pairs|
        ensures !Touch(w.pairs[i].edge, e)
      {
        assert w.pairs[i] in w.pairs;
      }
    }
  }

  lemma OneMoreLink(links: seq<Relationship>, m: Relationship, before: Work, w: Work)
    requires Tidy(before) && DistinctEnds(links + [m]) && LinksApplied(links, before, w)
    ensures LinksApplied(links + [m], before, ApplyLink(m.edge, w))
  {
    EdgesGrow(links, m);
    NewEnds(links, m);
    var after := ApplyLink(m.edge, w);
    var all := RelationshipEdges(links + [m]);
    assert m.edge.left in w.left <==> m.edge.left in before.left;
    assert m.edge.right in w.right <==> m.edge.right in before.right;
    forall e | e in all && e.left in before.left && e.right !in before.right
      ensures Lookup(after.terminal, e.left) == Some(Unpaired(LeftSide, ManualAttention, {e.right}))
    {
      if e != m.edge {
        assert e in RelationshipEdges(links) && e.left in FirstEnds(RelationshipEdges(links));
      }
    }
    forall e | e in all && e.right in before.right && e.left !in before.left
      ensures Lookup(after.terminal, e.right) == Some(Unpaired(RightSide, ManualAttention, {e.left}))
    {
      if e != m.edge {
        assert e in RelationshipEdges(links) && e.right in SecondEnds(RelationshipEdges(links));
      }
    }
  }

  method ApplyManualLinks(links: seq<Relationship>, before: Work) returns (w: Work)
    requires Tidy(before) && DistinctEnds(links)
    ensures Tidy(w) && LinksApplied(links, before, w)
  {
    w := before;
    for i := 0 to |links|
      invariant Tidy(w) && LinksApplied(links[..i], before, w)
    {
      assert links[..i + 1] == links[..i] + [links[i]];
      OneMoreLink(links[..i], links[i], before, w);
      LinkKeepsTidy(links[i].edge, w);
      w := ApplyLink(links[i].edge, w);
    }
    assert links[..|links|] == links;
  }

  // ----- single reservations -----

  function ReserveOne(x: Id, reason: UnpairedReason, w: Work): Work {
    if x in w.left then w.(terminal := w.terminal[x := Unpaired(LeftSide, reason, {})], left := w.left - {x})
    else if x in w.right then w.(terminal := w.terminal[x := Unpaired(RightSide, reason, {})], right := w.right - {x})
    else w
  }

  ghost predicate SinglesReserved(ids: set<Id>, reason: UnpairedReason, before: Work, after: Work) {
    && after.pairs == before.pairs && after.left == before.left - ids && after.right == before.right - ids
    && forall x :: Lookup(after.terminal, x) ==
         if x in ids && x in before.left then Some(Unpaired(LeftSide, reason, {}))
         else if x in ids && x in before.right then Some(Unpaired(RightSide, reason, {}))
         else Lookup(before.terminal, x)
  }

  method ReserveSingles(items: seq<Single>, reason: UnpairedReason, before: Work) returns (w: Work)
    requires Tidy(before)
    ensures Tidy(w) && SinglesReserved(SingleIds(items), reason, before, w)
  {
    w := before;
    for i := 0 to |items|
      invariant Tidy(w) && SinglesReserved(SingleIds(items[..i]), reason, before, w)
    {
      assert items[..i + 1] == items[..i] + [items[i]];
      SinglesGrow(items[..i], items[i]);
      w := ReserveOne(items[i].record, reason, w);
    }
    assert items[..|items|] == items;
  }

  lemma SinglesGrow(items: seq<Single>, item: Single)
    ensures SingleIds(items + [item]) == SingleIds(items) + {item.record}
  {
    assert item in items + [item];
    forall x | x in SingleIds(items)
      ensures x in SingleIds(items + [item])
    {
      var i :| i in items && i.record == x;
      assert i in items + [item];
    }
  }

  // ----- trusted references -----

  type Index = map<string, set<Id>>

  function At(index: Index, key: string): set<Id> {
    if key in index then index[key] else {}
  }

  ghost predicate Indexes(index: Index, records: seq<Record>, open: set<Id>, contract: ReferenceContract) {
    && (forall key :: At(index, key) == Carriers(records, open, contract, key))
    && forall key :: key in index ==> index[key] != {}
  }

  lemma CarriersGrow(records: seq<Record>, r: Record, open: set<Id>, contract: ReferenceContract, key: string)
    ensures Carriers(records + [r], open, contract, key) ==
            Carriers(records, open, contract, key) +
            if r.id in open && TrustedKey(r, contract) == Some(key) then {r.id} else {}
  {
    assert r in records + [r];
    forall x | x in Carriers(records, open, contract, key)
      ensures x in Carriers(records + [r], open, contract, key)
    {
      var q :| q in records && q.id in open && TrustedKey(q, contract) == Some(key) && q.id == x;
      assert q in records + [r];
    }
  }

  method ReferenceIndex(records: seq<Record>, open: set<Id>, contract: ReferenceContract) returns (index: Index)
    ensures Indexes(index, records, open, contract)
  {
    index := map[];
    for i := 0 to |records|
      invariant Indexes(index, records[..i], open, contract)
    {
      var r := records[i];
      ghost var was := index;
      assert records[..i + 1] == records[..i] + [r];
      if r.id in open && TrustedKey(r, contract).Some? {
        var key := TrustedKey(r, contract).value;
        index := index[key := At(index, key) + {r.id}];
      }
      forall key
        ensures At(index, key) == Carriers(records[..i + 1], open, contract, key)
      {
        CarriersGrow(records[..i], r, open, contract, key);
        assert At(was, key) == Carriers(records[..i], open, contract, key);
      }
    }
    assert records[..|records|] == records;
  }

  predicate Conflicting(left: Index, right: Index, key: string) {
    |At(left, key)| > 1 || |At(right, key)| > 1
  }

  ghost predicate InConflict(own: Index, left: Index, right: Index, keys: set<string>, x: Id) {
    exists key :: key in keys && Conflicting(left, right, key) && x in At(own, key)
  }

  /** Every key's carriers are its own: no record appears under two keys of one side. */
  ghost predicate KeysApart(index: Index) {
    forall k1, k2, x :: x in At(index, k1) && x in At(index, k2) ==> k1 == k2
  }

  lemma CarriersApart(index: Index, records: seq<Record>, open: set<Id>, contract: ReferenceContract)
    requires UniqueIds(records) && Indexes(index, records, open, contract)
    ensures KeysApart(index)
  {
    forall k1, k2, x | x in At(index, k1) && x in At(index, k2)
      ensures k1 == k2
    {
      assert x in Carriers(records, open, contract, k1) && x in Carriers(records, open, contract, k2);
      var a :| a in records && a.id in open && TrustedKey(a, contract) == Some(k1) && a.id == x;
      var b :| b in records && b.id in open && TrustedKey(b, contract) == Some(k2) && b.id == x;
      assert a == b;
    }
  }

  /** Which conflict, if any, the processed keys assign to a record of one side. */
  ghost predicate ConflictsMarked(side: RecordSide, own: Index, left: Index, right: Index, done: set<string>,
                                  available: set<Id>,
                                  terminal: Terminals) {
    forall key, x :: key in done && Conflicting(left, right, key) && x in At(own, key) && x in available ==>
      Lookup(terminal, x) == Some(Unpaired(side, DuplicateReference, At(left, key) + At(right, key)))
  }

  /** Exactly the carriers of conflicting keys leave, and only they may get another outcome. */
  ghost predicate ConflictSets(left: Index, right: Index, done: set<string>, before: Work, after: Work) {
    && after.pairs == before.pairs
    && (forall x :: x in after.left <==> x in before.left && !InConflict(left, left, right, done, x))
    && (forall x :: x in after.right <==> x in before.right && !InConflict(right, left, right, done, x))
    && (forall x :: !InConflict(left, left, right, done, x) && !InConflict(right, left, right, done, x) ==>
          Lookup(after.terminal, x) == Lookup(before.terminal, x))
  }

  ghost predicate ConflictsResolved(left: Index, right: Index, done: set<string>, before: Work, after: Work) {
    && ConflictSets(left, right, done, before, after)
    && ConflictsMarked(LeftSide, left, left, right, done, before.left, after.terminal)
    && ConflictsMarked(RightSide, right, left, right, done, before.right, after.terminal)
  }

  function MarkDuplicates(side: RecordSide, ids: set<Id>, related: set<Id>, terminal: Terminals): (marked: Terminals)
    ensures forall x :: Lookup(marked, x) ==
              if x in ids then Some(Unpaired(side, DuplicateReference, related)) else Lookup(terminal, x)
  {
    terminal + map x | x in ids :: Unpaired(side, DuplicateReference, related)
  }

  function ResolveKey(left: Index, right: Index, key: string, w: Work): Work {
    if !Conflicting(left, right, key) then w
    else
      var l, r := At(left, key), At(right, key);
      Work(w.pairs, MarkDuplicates(RightSide, r, l + r, MarkDuplicates(LeftSide, l, l + r, w.terminal)), w.left - l,
           w.right - r)
  }

  /** Marks of one side survive, and are extended by, resolving one more key. */
  lemma MarksGrow(side: RecordSide, own: Index, left: Index, right: Index, done: set<string>, key: string,
                  available: set<Id>, was: Terminals, now: Terminals, touched: set<Id>)
    requires KeysApart(own) && key !in done
    requires ConflictsMarked(side, own, left, right, done, available, was)
    requires forall x :: x !in touched ==> Lookup(now, x) == Lookup(was, x)
    requires forall x :: x in touched && x in available ==> Conflicting(left, right, key) && x in At(own, key)
    requires forall x :: x in touched && x in available ==>
               Lookup(now, x) == Some(Unpaired(side, DuplicateReference, At(left, key) + At(right, key)))
    requires Conflicting(left, right, key) ==> At(own, key) <= touched
    ensures ConflictsMarked(side, own, left, right, done + {key}, available, now)
  {
    forall k, x | k in done + {key} && Conflicting(left, right, k) && x in At(own, k) && x in available
      ensures Lookup(now, x) == Some(Unpaired(side, DuplicateReference, At(left, k) + At(right, k)))
    {
      assert k != key && x in At(own, key) ==> false;
    }
  }

  ghost function TouchedBy(left: Index, right: Index, key: string): set<Id> {
    if Conflicting(left, right, key) then At(left, key) + At(right, key) else {}
  }

  lemma ResolvedLookup(left: Index, right: Index, key: string, w: Work)
    requires At(left, key) !! At(right, key)
    ensures var after, both := ResolveKey(left, right, key, w).terminal, At(left, key) + At(right, key);
            forall x :: Lookup(after, x) ==
              if !Conflicting(left, right, key) then Lookup(w.terminal, x)
              else if x in At(left, key) then Some(Unpaired(LeftSide, DuplicateReference, both))
              else if x in At(right, key) then Some(Unpaired(RightSide, DuplicateReference, both))
              else Lookup(w.terminal, x)
  {
  }

  lemma SideMarksGrow(side: RecordSide, left: Index, right: Index, done: set<string>, key: string, before: Work,
                      w: Work)
    requires KeysApart(left) && KeysApart(right) && key !in done && before.left !! before.right
    requires At(left, key) <= before.left && At(right, key) <= before.right
    requires ConflictsResolved(left, right, done, before, w)
    ensures var after := ResolveKey(left, right, key, w).terminal;
            if side.LeftSide? then ConflictsMarked(side, left, left, right, done + {key}, before.left, after)
            else ConflictsMarked(side, right, left, right, done + {key}, before.right, after)
  {
    var after := ResolveKey(left, right, key, w).terminal;
    ResolvedLookup(left, right, key, w);
    if side.LeftSide? {
      MarksGrow(side, left, left, right, done, key, before.left, w.terminal, after, TouchedBy(left, right, key));
    } else {
      MarksGrow(side, right, left, right, done, key, before.right, w.terminal, after, TouchedBy(left, right, key));
    }
  }

  lemma SetsResolved(left: Index, right: Index, done: set<string>, key: string, before: Work, w: Work)
    requires At(left, key) !! At(right, key)
    requires ConflictSets(left, right, done, before, w)
    ensures ConflictSets(left, right, done + {key}, before, ResolveKey(left, right, key, w))
  {
    ResolvedLookup(left, right, key, w);
    forall x
      ensures InConflict(left, left, right, done + {key}, x) <==>
              InConflict(left, left, right, done, x) || (Conflicting(left, right, key) && x in At(left, key))
      ensures InConflict(right, left, right, done + {key}, x) <==>
              InConflict(right, left, right, done, x) || (Conflicting(left, right, key) && x in At(right, key))
    {
      InConflictGrows(left, left, right, done, key, x);
      InConflictGrows(right, left, right, done, key, x);
    }
  }

  lemma OneMoreKeyResolved(left: Index, right: Index, done: set<string>, key: string, before: Work, w: Work)
    requires KeysApart(left) && KeysApart(right) && key !in done && before.left !! before.right
    requires At(left, key) <= before.left && At(right, key) <= before.right
    requires ConflictsResolved(left, right, done, before, w)
    ensures ConflictsResolved(left, right, done + {key}, before, ResolveKey(left, right, key, w))
  {
    SetsResolved(left, right, done, key, before, w);
    SideMarksGrow(LeftSide, left, right, done, key, before, w);
    SideMarksGrow(RightSide, left, right, done, key, before, w);
  }

  lemma InConflictGrows(own: Index, left: Index, right: Index, done: set<string>, key: string, x: Id)
    ensures InConflict(own, left, right, done + {key}, x) <==>
            InConflict(own, left, right, done, x) || (Conflicting(left, right, key) && x in At(own, key))
  {
    if InConflict(own, left, right, done, x) {
      var k :| k in done && Conflicting(left, right, k) && x in At(own, k);
      assert k in done + {key};
    }
    assert key in done + {key};
  }

  /** The repeated references found so far, each with all its carriers. */
  ghost predicate ConflictsListed(left: Index, right: Index, done: set<string>,
                                  conflicts: map<string, ReferenceConflict>) {
    && (forall key :: key in conflicts <==> key in done && Conflicting(left, right, key))
    && forall key :: key in conflicts ==> conflicts[key] == ReferenceConflict(At(left, key), At(right, key))
  }

  lemma OneMoreListed(left: Index, right: Index, done: set<string>, key: string,
                      conflicts: map<string, ReferenceConflict>)
    requires ConflictsListed(left, right, done, conflicts)
    ensures ConflictsListed(left, right, done + {key},
                            if Conflicting(left, right, key) then
                              conflicts[key := ReferenceConflict(At(left, key), At(right, key))]
                            else conflicts)
  {
  }

  method ResolveConflicts(keys: set<string>, left: Index, right: Index, before: Work)
    returns (w: Work, conflicts: map<string, ReferenceConflict>)
    requires KeysApart(left) && KeysApart(right) && Tidy(before)
    requires forall k :: At(left, k) <= before.left && At(right, k) <= before.right
    ensures Tidy(w) && ConflictsResolved(left, right, keys, before, w)
    ensures ConflictsListed(left, right, keys, conflicts)
  {
    w, conflicts := before, map[];
    var waiting := keys;
    while waiting != {}
      invariant waiting <= keys
      invariant Tidy(w) && ConflictsResolved(left, right, keys - waiting, before, w)
      invariant ConflictsListed(left, right, keys - waiting, conflicts)
      decreases waiting
    {
      var key :| key in waiting;
      OneMoreKeyResolved(left, right, keys - waiting, key, before, w);
      ResolveKeepsTidy(left, right, key, w);
      w := ResolveKey(left, right, key, w);
      OneMoreListed(left, right, keys - waiting, key, conflicts);
      if Conflicting(left, right, key) {
        conflicts := conflicts[key := ReferenceConflict(At(left, key), At(right, key))];
      }
      assert keys - waiting + {key} == keys - (waiting - {key});
      waiting := waiting - {key};
    }
    assert keys - {} == keys;
  }

  lemma ResolveKeepsTidy(left: Index, right: Index, key: string, w: Work)
    requires Tidy(w)
    requires At(left, key) !! w.right && At(right, key) !! w.left
    ensures Tidy(ResolveKey(left, right, key, w))
  {
    var after := ResolveKey(left, right, key, w);
    forall x | x in after.terminal
      ensures x !in after.left && x !in after.right
    {
      assert Lookup(after.terminal, x).Some?;
      assert x in w.terminal <==> Lookup(w.terminal, x).Some?;
    }
  }

  // ----- authoritative pairs -----

  /** A key whose single carriers on both sides no active rejection keeps apart. */
  predicate Authoritative(left: Index, right: Index, prohibited: set<Edge>, key: string, e: Edge) {
    At(left, key) == {e.left} && At(right, key) == {e.right} && e !in prohibited
  }

  ghost predicate Establishes(left: Index, right: Index, prohibited: set<Edge>, keys: set<string>, e: Edge) {
    exists key :: key in keys && Authoritative(left, right, prohibited, key, e)
  }

  ghost predicate LeftFree(left: Index, right: Index, prohibited: set<Edge>, keys: set<string>, x: Id) {
    forall y :: !Establishes(left, right, prohibited, keys, Edge(x, y))
  }

  ghost predicate RightFree(left: Index, right: Index, prohibited: set<Edge>, keys: set<string>, y: Id) {
    forall x :: !Establishes(left, right, prohibited, keys, Edge(x, y))
  }

  ghost predicate PairsEstablished(left: Index, right: Index, prohibited: set<Edge>, done: set<string>, before: Work,
                                   after: Work) {
    && after.terminal == before.terminal
    && (forall x :: x in after.left <==> x in before.left && LeftFree(left, right, prohibited, done, x))
    && (forall y :: y in after.right <==> y in before.right && RightFree(left, right, prohibited, done, y))
    && (forall p :: p in after.pairs <==>
          || p in before.pairs
          || (p == Pair(p.edge, AuthoritativeReference, None, None) && Establishes(left, right, prohibited, done, p.edge)))
  }

  /** The single carriers of a key that is not in conflict are still available. */
  ghost predicate CarriersAvailable(index: Index, other: Index, keys: set<string>, available: set<Id>) {
    forall key, x :: key in keys && x in At(index, key) && |At(index, key)| == 1 && |At(other, key)| == 1 ==> x in available
  }

  function Only(s: set<Id>): (x: Id)
    requires |s| == 1
    ensures s == {x}
  {
    OnlyExists(s);
    var x :| s == {x};
    x
  }

  lemma OnlyExists(s: set<Id>)
    requires |s| == 1
    ensures exists x :: s == {x}
  {
    var x :| x in s;
    assert |s - {x}| == 0;
    assert s == {x};
  }

  lemma EstablishesMore(left: Index, right: Index, prohibited: set<Edge>, done: set<string>, key: string, e: Edge)
    ensures Establishes(left, right, prohibited, done + {key}, e) <==>
            Establishes(left, right, prohibited, done, e) || Authoritative(left, right, prohibited, key, e)
  {
    if Establishes(left, right, prohibited, done, e) {
      var k :| k in done && Authoritative(left, right, prohibited, k, e);
      assert k in done + {key};
    }
  }

  lemma KeyWithoutPair(left: Index, right: Index, prohibited: set<Edge>, done: set<string>, key: string,
                       before: Work, w: Work)
    requires PairsEstablished(left, right, prohibited, done, before, w)
    requires forall e :: !Authoritative(left, right, prohibited, key, e)
    ensures PairsEstablished(left, right, prohibited, done + {key}, before, w)
  {
    forall e
      ensures Establishes(left, right, prohibited, done + {key}, e) <==> Establishes(left, right, prohibited, done, e)
    {
      EstablishesMore(left, right, prohibited, done, key, e);
    }
  }

  lemma KeyWithPair(left: Index, right: Index, prohibited: set<Edge>, done: set<string>, key: string, e: Edge,
                    before: Work, w: Work)
    requires Authoritative(left, right, prohibited, key, e)
    requires PairsEstablished(left, right, prohibited, done, before, w)
    ensures PairsEstablished(left, right, prohibited, done + {key}, before,
                             Work(w.pairs + [Pair(e, AuthoritativeReference, None, None)], w.terminal, w.left - {e.left}, w.right - {e.right}))
  {
    forall f
      ensures Establishes(left, right, prohibited, done + {key}, f) <==> Establishes(left, right, prohibited, done, f) || f == e
    {
      EstablishesMore(left, right, prohibited, done, key, f);
    }
    forall x
      ensures LeftFree(left, right, prohibited, done + {key}, x) <==>
              x != e.left && LeftFree(left, right, prohibited, done, x)
    {
      if x == e.left {
        assert Establishes(left, right, prohibited, done + {key}, Edge(x, e.right));
      }
    }
    forall y
      ensures RightFree(left, right, prohibited, done + {key}, y) <==>
              y != e.right && RightFree(left, right, prohibited, done, y)
    {
      if y == e.right {
        assert Establishes(left, right, prohibited, done + {key}, Edge(e.left, y));
      }
    }
  }

  lemma AddPairKeepsTidy(w: Work, e: Edge, origin: PairOrigin)
    requires Tidy(w) && e.left in w.left && e.right in w.right
    ensures Tidy(Work(w.pairs + [Pair(e, origin, None, None)], w.terminal, w.left - {e.left}, w.right - {e.right}))
  {
    forall i | 0 <= i < |w.pairs|
      ensures !Touch(w.pairs[i].edge, e)
    {
      assert w.pairs[i] in w.pairs;
    }
  }

  lemma StillAvailable(left: Index, right: Index, prohibited: set<Edge>, done: set<string>, key: string, e: Edge,
                       before: Work, w: Work)
    requires KeysApart(left) && KeysApart(right) && key !in done
    requires Authoritative(left, right, prohibited, key, e) && e.left in before.left && e.right in before.right
    requires PairsEstablished(left, right, prohibited, done, before, w)
    ensures e.left in w.left && e.right in w.right
  {
    assert e.left in At(left, key) && e.right in At(right, key);
    forall y, k | k in done
      ensures !Authoritative(left, right, prohibited, k, Edge(e.left, y))
    {
      assert e.left !in At(left, k);
    }
    forall x, k | k in done
      ensures !Authoritative(left, right, prohibited, k, Edge(x, e.right))
    {
      assert e.right !in At(right, k);
    }
  }

  method EstablishPairs(keys: set<string>, left: Index, right: Index, prohibited: set<Edge>,
                        before: Work) returns (w: Work)
    requires KeysApart(left) && KeysApart(right) && Tidy(before)
    requires CarriersAvailable(left, right, keys, before.left) && CarriersAvailable(right, left, keys, before.right)
    ensures Tidy(w) && PairsEstablished(left, right, prohibited, keys, before, w)
  {
    w := before;
    var waiting := keys;
    while waiting != {}
      invariant waiting <= keys
      invariant Tidy(w) && PairsEstablished(left, right, prohibited, keys - waiting, before, w)
      decreases waiting
    {
      var key :| key in waiting;
      ghost var done := keys - waiting;
      assert done + {key} == keys - (waiting - {key});
      waiting := waiting - {key};
      if |At(left, key)| != 1 || |At(right, key)| != 1 {
        KeyWithoutPair(left, right, prohibited, done, key, before, w);
        continue;
      }
      var e := Edge(Only(At(left, key)), Only(At(right, key)));
      if e !in prohibited {
        assert e.left in At(left, key) && e.right in At(right, key);
        StillAvailable(left, right, prohibited, done, key, e, before, w);
      }
      if e.left !in w.left || e.right !in w.right || e in prohibited {
        KeyWithoutPair(left, right, prohibited, done, key, before, w);
        continue;
      }
      KeyWithPair(left, right, prohibited, done, key, e, before, w);
      AddPairKeepsTidy(w, e, AuthoritativeReference);
      w := Work(w.pairs + [Pair(e, AuthoritativeReference, None, None)], w.terminal, w.left - {e.left}, w.right - {e.right});
    }
    assert keys - {} == keys;
  }

  // ----- settled records stay settled -----

  function Available(side: RecordSide, w: Work): set<Id> {
    if side.LeftSide? then w.left else w.right
  }

  function EndOf(side: RecordSide, e: Edge): Id {
    if side.LeftSide? then e.left else e.right
  }

  function EdgeFrom(side: RecordSide, mine: Id, theirs: Id): Edge {
    if side.LeftSide? then Edge(mine, theirs) else Edge(theirs, mine)
  }

  ghost predicate Unpairs(side: RecordSide, pairs: seq<Pair>, x: Id) {
    forall p :: p in pairs ==> EndOf(side, p.edge) != x
  }

  /** The working state holds exactly this fate for the record. */
  ghost predicate Holds(side: RecordSide, w: Work, x: Id, fate: Fate) {
    match fate
    case Paired(y, origin) =>
      x !in Available(side, w) && Pair(EdgeFrom(side, x, y), origin, None, None) in w.pairs && Lookup(w.terminal, x).None?
    case Terminal(outcome) =>
      x !in Available(side, w) && Unpairs(side, w.pairs, x) && Lookup(w.terminal, x) == Some(outcome)
    case Remaining =>
      x in Available(side, w) && Unpairs(side, w.pairs, x) && Lookup(w.terminal, x).None?
  }

  /** A phase touches only records that are still available. */
  ghost predicate Frame(before: Work, after: Work) {
    && after.left <= before.left && after.right <= before.right
    && (forall x :: x !in before.left && x !in before.right ==> Lookup(after.terminal, x) == Lookup(before.terminal, x))
    && (forall p :: p in before.pairs ==> p in after.pairs)
    && (forall p :: p in after.pairs && p !in before.pairs ==> p.edge.left in before.left && p.edge.right in before.right)
  }

  lemma FrameComposes(a: Work, b: Work, c: Work)
    requires Frame(a, b) && Frame(b, c)
    ensures Frame(a, c)
  {
  }

  lemma LinksFrame(links: seq<Relationship>, before: Work, after: Work)
    requires LinksApplied(links, before, after)
    ensures Frame(before, after)
  {
  }

  lemma SinglesFrame(ids: set<Id>, reason: UnpairedReason, before: Work, after: Work)
    requires SinglesReserved(ids, reason, before, after)
    ensures Frame(before, after)
  {
  }

  lemma ConflictsFrame(left: Index, right: Index, keys: set<string>, before: Work, after: Work)
    requires ConflictsResolved(left, right, keys, before, after)
    requires forall k :: At(left, k) <= before.left && At(right, k) <= before.right
    ensures Frame(before, after)
  {
    forall x | x !in before.left && x !in before.right
      ensures Lookup(after.terminal, x) == Lookup(before.terminal, x)
    {
      assert !InConflict(left, left, right, keys, x) && !InConflict(right, left, right, keys, x);
    }
  }

  lemma PairsFrame(left: Index, right: Index, prohibited: set<Edge>, keys: set<string>, before: Work, after: Work)
    requires PairsEstablished(left, right, prohibited, keys, before, after)
    requires CarriersAvailable(left, right, keys, before.left) && CarriersAvailable(right, left, keys, before.right)
    ensures Frame(before, after)
  {
    forall p | p in after.pairs && p !in before.pairs
      ensures p.edge.left in before.left && p.edge.right in before.right
    {
      var key :| key in keys && Authoritative(left, right, prohibited, key, p.edge);
      assert p.edge.left in At(left, key) && p.edge.right in At(right, key);
    }
  }

  // ----- each phase settles the records it is responsible for -----

  function ViewOf(side: RecordSide, s: Snapshot, d: Decisions, contract: ReferenceContract): View {
    if side.LeftSide? then LeftView(s, d, contract) else RightView(s, d, contract)
  }

  /** All phases of one preprocessing, with their intermediate states. */
  datatype Trace = Trace(s: Snapshot, d: Decisions, contract: ReferenceContract, w1: Work, w2: Work, w3: Work, w4: Work,
                         left: Index, right: Index, w5: Work, prohibited: set<Edge>, w6: Work)
  {
    ghost predicate Valid() {
      && s.Valid() && d.Valid() && Oriented(s, d)
      && Tidy(w1) && w1.pairs == [] && w1.left == EligibleIds(s.left) && w1.right == EligibleIds(s.right)
      && CancelledAre(w1.terminal, s.left, s.right)
      && Tidy(w2) && LinksApplied(d.manual, w1, w2)
      && Tidy(w3) && SinglesReserved(SingleIds(d.accepted), AcceptedUnmatched, w2, w3)
      && Tidy(w4) && SinglesReserved(SingleIds(d.reserved), ReviewerReserved, w3, w4)
      && Indexes(left, s.left, w4.left, contract) && Indexes(right, s.right, w4.right, contract)
      && Tidy(w5) && ConflictsResolved(left, right, left.Keys + right.Keys, w4, w5)
      && prohibited == ProhibitedEdges(s, d)
      && Tidy(w6) && PairsEstablished(left, right, prohibited, left.Keys + right.Keys, w5, w6)
    }
  }

  predicate Oriented(s: Snapshot, d: Decisions) {
    forall m :: m in d.manual + d.rejected ==> m.edge.left !in Ids(s.right) && m.edge.right !in Ids(s.left)
  }

  function ProhibitedEdges(s: Snapshot, d: Decisions): set<Edge> {
    set e | e in RelationshipEdges(d.rejected) && e.left in Ids(s.left) && e.right in Ids(s.right)
  }

  lemma IndexedAreAvailable(t: Trace)
    requires t.Valid()
    ensures forall k :: At(t.left, k) <= t.w4.left && At(t.right, k) <= t.w4.right
    ensures KeysApart(t.left) && KeysApart(t.right)
    ensures CarriersAvailable(t.left, t.right, t.left.Keys + t.right.Keys, t.w5.left)
    ensures CarriersAvailable(t.right, t.left, t.left.Keys + t.right.Keys, t.w5.right)
  {
    IndexFacts(t.left, t.right, t.s, t.contract, t.w4, t.w5);
  }

  lemma IndexFacts(left: Index, right: Index, s: Snapshot, contract: ReferenceContract, w4: Work, w5: Work)
    requires s.Valid() && Indexes(left, s.left, w4.left, contract) && Indexes(right, s.right, w4.right, contract)
    ensures KeysApart(left) && KeysApart(right)
    ensures forall k :: At(left, k) <= w4.left && At(right, k) <= w4.right
    ensures ConflictsResolved(left, right, left.Keys + right.Keys, w4, w5) ==>
              && CarriersAvailable(left, right, left.Keys + right.Keys, w5.left)
              && CarriersAvailable(right, left, left.Keys + right.Keys, w5.right)
  {
    CarriersApart(left, s.left, w4.left, contract);
    CarriersApart(right, s.right, w4.right, contract);
    forall k
      ensures At(left, k) <= w4.left && At(right, k) <= w4.right
    {
      assert At(left, k) == Carriers(s.left, w4.left, contract, k);
      assert At(right, k) == Carriers(s.right, w4.right, contract, k);
    }
  }

  lemma Frames(t: Trace)
    requires t.Valid()
    ensures Frame(t.w1, t.w2) && Frame(t.w2, t.w3) && Frame(t.w3, t.w4) && Frame(t.w4, t.w5) && Frame(t.w5, t.w6)
  {
    IndexedAreAvailable(t);
    LinksFrame(t.d.manual, t.w1, t.w2);
    SinglesFrame(SingleIds(t.d.accepted), AcceptedUnmatched, t.w2, t.w3);
    SinglesFrame(SingleIds(t.d.reserved), ReviewerReserved, t.w3, t.w4);
    ConflictsFrame(t.left, t.right, t.left.Keys + t.right.Keys, t.w4, t.w5);
    PairsFrame(t.left, t.right, t.prohibited, t.left.Keys + t.right.Keys, t.w5, t.w6);
  }

  function MineOf(side: RecordSide, s: Snapshot): seq<Record> {
    if side.LeftSide? then s.left else s.right
  }

  function Other(side: RecordSide): RecordSide {
    if side.LeftSide? then RightSide else LeftSide
  }

  lemma IdsSeparate(s: Snapshot, side: RecordSide, r: Record)
    requires s.Valid() && r in MineOf(side, s)
    ensures r.id in Ids(MineOf(side, s)) && r.id !in Ids(MineOf(Other(side), s))
    ensures r.Eligible() <==> r.id in EligibleIds(MineOf(side, s))
    ensures r.id !in EligibleIds(MineOf(Other(side), s))
    ensures !r.Eligible() <==> r.id in Ineligible(MineOf(side, s))
    ensures r.id !in Ineligible(MineOf(Other(side), s))
  {
    EligibleSplit(s.left);
    EligibleSplit(s.right);
  }

  lemma SettleCancelled(t: Trace, side: RecordSide, r: Record)
    requires t.Valid() && r in MineOf(side, t.s) && !r.Eligible()
    ensures Holds(side, t.w1, r.id, Terminal(Unpaired(side, CancelledExcluded, {})))
    ensures r.id !in t.w1.left && r.id !in t.w1.right
  {
    IdsSeparate(t.s, side, r);
  }

  lemma StartAvailable(t: Trace, side: RecordSide, r: Record)
    requires t.Valid() && r in MineOf(side, t.s) && r.Eligible()
    ensures r.id in Available(side, t.w1) && r.id !in Available(Other(side), t.w1) && Lookup(t.w1.terminal, r.id).None?
  {
    IdsSeparate(t.s, side, r);
  }

  lemma LinkedEdge(t: Trace, side: RecordSide, x: Id, y: Id)
    ensures Edge(x, y) in ViewOf(side, t.s, t.d, t.contract).links <==> EdgeFrom(side, x, y) in RelationshipEdges(t.d.manual)
    ensures Edge(x, y) in ViewOf(side, t.s, t.d, t.contract).rejected <==> EdgeFrom(side, x, y) in RelationshipEdges(t.d.rejected)
  {
  }

  lemma OneLinkEach(links: seq<Relationship>, e: Edge, f: Edge)
    requires DistinctEnds(links) && e in RelationshipEdges(links) && f in RelationshipEdges(links) && Touch(e, f)
    ensures e == f
  {
    var a :| a in links && a.edge == e;
    var b :| b in links && b.edge == f;
    var i :| 0 <= i < |links| && links[i] == a;
    var j :| 0 <= j < |links| && links[j] == b;
  }

  /** What applying all links does to a linked record that was available. */
  lemma LinkSettles(links: seq<Relationship>, before: Work, after: Work, side: RecordSide, x: Id, y: Id)
    requires DistinctEnds(links) && LinksApplied(links, before, after) && before.pairs == []
    requires EdgeFrom(side, x, y) in RelationshipEdges(links)
    requires x in Available(side, before) && x !in Available(Other(side), before) && Lookup(before.terminal, x).None?
    ensures Holds(side, after, x, if y in Available(Other(side), before) then Paired(y, Manual)
                                  else Terminal(Unpaired(side, ManualAttention, {y})))
    ensures x !in after.left && x !in after.right
  {
    var edges, e := RelationshipEdges(links), EdgeFrom(side, x, y);
    forall f | f in edges && EndOf(side, f) == x
      ensures f == e
    {
      OneLinkEach(links, e, f);
    }
    assert x in (if side.LeftSide? then FirstEnds(edges) else SecondEnds(edges));
  }

  lemma SettleLinked(t: Trace, side: RecordSide, r: Record, y: Id)
    requires t.Valid() && r in MineOf(side, t.s) && r.Eligible()
    requires EdgeFrom(side, r.id, y) in RelationshipEdges(t.d.manual)
    ensures Holds(side, t.w2, r.id, if y in EligibleIds(MineOf(Other(side), t.s)) then Paired(y, Manual)
                                    else Terminal(Unpaired(side, ManualAttention, {y})))
    ensures r.id !in t.w2.left && r.id !in t.w2.right
  {
    StartAvailable(t, side, r);
    LinkSettles(t.d.manual, t.w1, t.w2, side, r.id, y);
  }

  lemma UnlinkedWaits(t: Trace, side: RecordSide, r: Record)
    requires t.Valid() && r in MineOf(side, t.s) && r.Eligible()
    requires forall y :: EdgeFrom(side, r.id, y) !in RelationshipEdges(t.d.manual)
    ensures r.id in Available(side, t.w2) && Unpairs(side, t.w2.pairs, r.id)
  {
    StartAvailable(t, side, r);
    forall f | f in RelationshipEdges(t.d.manual)
      ensures EndOf(side, f) != r.id
    {
      assert f == EdgeFrom(side, EndOf(side, f), EndOf(Other(side), f));
    }
  }

  lemma SettleSingle(side: RecordSide, ids: set<Id>, reason: UnpairedReason, before: Work, after: Work, x: Id)
    requires Tidy(before) && Tidy(after) && SinglesReserved(ids, reason, before, after)
    requires x in Available(side, before) && Unpairs(side, before.pairs, x)
    ensures x in ids ==> Holds(side, after, x, Terminal(Unpaired(side, reason, {}))) && x !in after.left && x !in after.right
    ensures x !in ids ==> x in Available(side, after) && Unpairs(side, after.pairs, x)
  {
  }

  function OwnIndex(side: RecordSide, t: Trace): Index {
    if side.LeftSide? then t.left else t.right
  }

  lemma OpenAreAvailable(t: Trace, side: RecordSide)
    requires t.Valid()
    ensures MyOpen(ViewOf(side, t.s, t.d, t.contract)) == Available(side, t.w4)
    ensures TheirOpen(ViewOf(side, t.s, t.d, t.contract)) == Available(Other(side), t.w4)
  {
    FlipEnds(RelationshipEdges(t.d.manual));
  }

  lemma FlipEnds(edges: set<Edge>)
    ensures FirstEnds(Flip(edges)) == SecondEnds(edges) && SecondEnds(Flip(edges)) == FirstEnds(edges)
  {
    forall e | e in edges
      ensures e.right in FirstEnds(Flip(edges)) && e.left in SecondEnds(Flip(edges))
    {
      assert Edge(e.right, e.left) in Flip(edges);
    }
  }

  /** Which index entries a waiting record of one side belongs to: only that of its own key. */
  lemma CarrierOfKey(t: Trace, side: RecordSide, r: Record, key: string)
    requires t.Valid() && r in MineOf(side, t.s) && r.id in Available(side, t.w4)
    ensures r.id in At(OwnIndex(side, t), key) <==> TrustedKey(r, t.contract) == Some(key)
    ensures At(OwnIndex(side, t), key) == Carriers(MineOf(side, t.s), Available(side, t.w4), t.contract, key)
    ensures r.id in At(OwnIndex(side, t), key) ==> key in t.left.Keys + t.right.Keys
  {
    assert At(OwnIndex(side, t), key) == Carriers(MineOf(side, t.s), Available(side, t.w4), t.contract, key);
    CarrierIs(MineOf(side, t.s), Available(side, t.w4), t.contract, key, r);
  }

  lemma CarrierIs(records: seq<Record>, open: set<Id>, contract: ReferenceContract, key: string, r: Record)
    requires UniqueIds(records) && r in records && r.id in open
    ensures r.id in Carriers(records, open, contract, key) <==> TrustedKey(r, contract) == Some(key)
  {
    if r.id in Carriers(records, open, contract, key) {
      var q :| q in records && q.id in open && TrustedKey(q, contract) == Some(key) && q.id == r.id;
      assert q == r;
    }
  }

  lemma SettleConflict(t: Trace, side: RecordSide, r: Record, key: string)
    requires t.Valid() && r in MineOf(side, t.s) && r.id in Available(side, t.w4) && Unpairs(side, t.w4.pairs, r.id)
    requires TrustedKey(r, t.contract) == Some(key) && Conflicting(t.left, t.right, key)
    ensures Holds(side, t.w5, r.id, Terminal(Unpaired(side, DuplicateReference, At(t.left, key) + At(t.right, key))))
    ensures r.id !in t.w5.left && r.id !in t.w5.right
  {
    CarrierOfKey(t, side, r, key);
    assert InConflict(OwnIndex(side, t), t.left, t.right, t.left.Keys + t.right.Keys, r.id);
  }

  lemma NoConflictWaits(t: Trace, side: RecordSide, r: Record)
    requires t.Valid() && r in MineOf(side, t.s) && r.id in Available(side, t.w4) && Unpairs(side, t.w4.pairs, r.id)
    requires forall key :: TrustedKey(r, t.contract) == Some(key) ==> !Conflicting(t.left, t.right, key)
    ensures r.id in Available(side, t.w5) && Unpairs(side, t.w5.pairs, r.id)
  {
    forall key | key in t.left.Keys + t.right.Keys && r.id in At(OwnIndex(side, t), key)
      ensures !Conflicting(t.left, t.right, key)
    {
      CarrierOfKey(t, side, r, key);
    }
  }

  lemma SettlePair(t: Trace, side: RecordSide, r: Record, key: string, y: Id)
    requires t.Valid() && r in MineOf(side, t.s) && r.id in Available(side, t.w5)
    requires r.id in Available(side, t.w4) && TrustedKey(r, t.contract) == Some(key)
    requires Authoritative(t.left, t.right, t.prohibited, key, EdgeFrom(side, r.id, y))
    ensures Holds(side, t.w6, r.id, Paired(y, AuthoritativeReference))
  {
    CarrierOfKey(t, side, r, key);
    assert r.id in At(OwnIndex(side, t), key);
    EstablishedHolds(side, t.left, t.right, t.prohibited, t.left.Keys + t.right.Keys, t.w5, t.w6, key, r.id, y);
  }

  lemma EstablishedHolds(side: RecordSide, left: Index, right: Index, prohibited: set<Edge>, keys: set<string>,
                         before: Work, after: Work, key: string, x: Id, y: Id)
    requires PairsEstablished(left, right, prohibited, keys, before, after) && Tidy(before)
    requires key in keys && Authoritative(left, right, prohibited, key, EdgeFrom(side, x, y))
    requires x in Available(side, before)
    ensures Holds(side, after, x, Paired(y, AuthoritativeReference))
  {
    var e := EdgeFrom(side, x, y);
    assert Establishes(left, right, prohibited, keys, e);
    assert Pair(e, AuthoritativeReference, None, None) in after.pairs;
    if side.LeftSide? {
      assert !LeftFree(left, right, prohibited, keys, x);
    } else {
      assert !RightFree(left, right, prohibited, keys, x);
    }
  }

  lemma NoPairRemains(t: Trace, side: RecordSide, r: Record)
    requires t.Valid() && r in MineOf(side, t.s) && r.id in Available(side, t.w5) && Unpairs(side, t.w5.pairs, r.id)
    requires r.id in Available(side, t.w4)
    requires forall key, y :: TrustedKey(r, t.contract) == Some(key) ==>
                                !Authoritative(t.left, t.right, t.prohibited, key, EdgeFrom(side, r.id, y))
    ensures Holds(side, t.w6, r.id, Remaining)
  {
    forall e | EndOf(side, e) == r.id
      ensures !Establishes(t.left, t.right, t.prohibited, t.left.Keys + t.right.Keys, e)
    {
      if key :| key in t.left.Keys + t.right.Keys && Authoritative(t.left, t.right, t.prohibited, key, e) {
        assert r.id in At(OwnIndex(side, t), key);
        CarrierOfKey(t, side, r, key);
        assert e == EdgeFrom(side, r.id, EndOf(Other(side), e));
      }
    }
  }

  // ----- the whole preprocessing -----

  lemma Persists(t: Trace, side: RecordSide, x: Id, fate: Fate)
    requires t.Valid() && !fate.Remaining?
    ensures Holds(side, t.w1, x, fate) && x !in t.w1.left && x !in t.w1.right ==> Holds(side, t.w6, x, fate)
    ensures Holds(side, t.w2, x, fate) && x !in t.w2.left && x !in t.w2.right ==> Holds(side, t.w6, x, fate)
    ensures Holds(side, t.w3, x, fate) && x !in t.w3.left && x !in t.w3.right ==> Holds(side, t.w6, x, fate)
    ensures Holds(side, t.w4, x, fate) && x !in t.w4.left && x !in t.w4.right ==> Holds(side, t.w6, x, fate)
    ensures Holds(side, t.w5, x, fate) && x !in t.w5.left && x !in t.w5.right ==> Holds(side, t.w6, x, fate)
  {
    FramesToEnd(t);
    SettledStays(side, t.w1, t.w6, x, fate);
    SettledStays(side, t.w2, t.w6, x, fate);
    SettledStays(side, t.w3, t.w6, x, fate);
    SettledStays(side, t.w4, t.w6, x, fate);
    SettledStays(side, t.w5, t.w6, x, fate);
  }

  lemma FramesToEnd(t: Trace)
    requires t.Valid()
    ensures Frame(t.w1, t.w6) && Frame(t.w2, t.w6) && Frame(t.w3, t.w6) && Frame(t.w4, t.w6) && Frame(t.w5, t.w6)
  {
    Frames(t);
    FrameComposes(t.w4, t.w5, t.w6);
    FrameComposes(t.w3, t.w4, t.w6);
    FrameComposes(t.w2, t.w3, t.w6);
    FrameComposes(t.w1, t.w2, t.w6);
  }

  /** What a phase has settled, later phases leave as it is. */
  lemma SettledStays(side: RecordSide, before: Work, after: Work, x: Id, fate: Fate)
    requires Frame(before, after) && !fate.Remaining?
    ensures Holds(side, before, x, fate) && x !in before.left && x !in before.right ==> Holds(side, after, x, fate)
  {
  }

  lemma WaitingFate(t: Trace, side: RecordSide, r: Record)
    requires t.Valid() && r in MineOf(side, t.s) && r.Eligible()
    requires forall y :: EdgeFrom(side, r.id, y) !in RelationshipEdges(t.d.manual)
    ensures r.id in SingleIds(t.d.accepted) ==> Holds(side, t.w6, r.id, Terminal(Unpaired(side, AcceptedUnmatched, {})))
    ensures r.id !in SingleIds(t.d.accepted) && r.id in SingleIds(t.d.reserved) ==>
              Holds(side, t.w6, r.id, Terminal(Unpaired(side, ReviewerReserved, {})))
    ensures r.id !in SingleIds(t.d.accepted) && r.id !in SingleIds(t.d.reserved) ==>
              r.id in Available(side, t.w4) && Unpairs(side, t.w4.pairs, r.id)
  {
    var x := r.id;
    UnlinkedWaits(t, side, r);
    SettleSingle(side, SingleIds(t.d.accepted), AcceptedUnmatched, t.w2, t.w3, x);
    if x in SingleIds(t.d.accepted) {
      Persists(t, side, x, Terminal(Unpaired(side, AcceptedUnmatched, {})));
    } else {
      SettleSingle(side, SingleIds(t.d.reserved), ReviewerReserved, t.w3, t.w4, x);
      if x in SingleIds(t.d.reserved) {
        Persists(t, side, x, Terminal(Unpaired(side, ReviewerReserved, {})));
      }
    }
  }

  lemma ViewCarriers(t: Trace, side: RecordSide, key: string)
    requires t.Valid()
    ensures var v := ViewOf(side, t.s, t.d, t.contract);
            && Carriers(v.mine, MyOpen(v), v.contract, key) == At(OwnIndex(side, t), key)
            && Carriers(v.theirs, TheirOpen(v), v.contract, key) == At(OwnIndex(Other(side), t), key)
  {
    OpenAreAvailable(t, side);
    assert At(t.left, key) == Carriers(t.s.left, t.w4.left, t.contract, key);
    assert At(t.right, key) == Carriers(t.s.right, t.w4.right, t.contract, key);
  }

  lemma SingleOrEmpty(s: set<Id>, x: Id)
    requires |s| <= 1 && x in s
    ensures s == {x}
  {
    assert |s - {x}| == 0;
    assert s - {x} == {};
  }

  lemma IndexEndsAreRecords(t: Trace, side: RecordSide, key: string, y: Id)
    requires t.Valid() && y in At(OwnIndex(side, t), key)
    ensures y in Ids(MineOf(side, t.s))
  {
    assert At(OwnIndex(side, t), key) == Carriers(MineOf(side, t.s), Available(side, t.w4), t.contract, key);
  }

  /** Whether the single carriers of a key make an authoritative pair, seen from either side. */
  lemma AuthoritativeFrom(t: Trace, side: RecordSide, r: Record, key: string, y: Id)
    requires t.Valid() && r in MineOf(side, t.s) && r.id in At(OwnIndex(side, t), key)
    requires !Conflicting(t.left, t.right, key)
    ensures Authoritative(t.left, t.right, t.prohibited, key, EdgeFrom(side, r.id, y)) <==>
            y in At(OwnIndex(Other(side), t), key) && Edge(r.id, y) !in ViewOf(side, t.s, t.d, t.contract).rejected
  {
    LinkedEdge(t, side, r.id, y);
    SingleOrEmpty(At(OwnIndex(side, t), key), r.id);
    IdsSeparate(t.s, side, r);
    if y in At(OwnIndex(Other(side), t), key) {
      SingleOrEmpty(At(OwnIndex(Other(side), t), key), y);
      IndexEndsAreRecords(t, Other(side), key, y);
    }
  }

  lemma ConflictFate(t: Trace, side: RecordSide, r: Record, key: string)
    requires t.Valid() && r in MineOf(side, t.s) && r.id in Available(side, t.w4) && Unpairs(side, t.w4.pairs, r.id)
    requires TrustedKey(r, t.contract) == Some(key) && Conflicting(t.left, t.right, key)
    ensures Holds(side, t.w6, r.id, Terminal(Unpaired(side, DuplicateReference,
                                                      At(OwnIndex(side, t), key) + At(OwnIndex(Other(side), t), key))))
  {
    SettleConflict(t, side, r, key);
    BothSides(side, t, key);
    var all := At(OwnIndex(side, t), key) + At(OwnIndex(Other(side), t), key);
    Persists(t, side, r.id, Terminal(Unpaired(side, DuplicateReference, all)));
  }

  lemma BothSides(side: RecordSide, t: Trace, key: string)
    ensures At(t.left, key) + At(t.right, key) == At(OwnIndex(side, t), key) + At(OwnIndex(Other(side), t), key)
  {
  }

  lemma ReferenceFate(t: Trace, side: RecordSide, r: Record, key: string)
    requires t.Valid() && r in MineOf(side, t.s) && r.id in Available(side, t.w4) && Unpairs(side, t.w4.pairs, r.id)
    requires TrustedKey(r, t.contract) == Some(key) && !Conflicting(t.left, t.right, key)
    ensures forall y :: y in At(OwnIndex(Other(side), t), key) && Edge(r.id, y) !in ViewOf(side, t.s, t.d, t.contract).rejected ==>
                          Holds(side, t.w6, r.id, Paired(y, AuthoritativeReference))
    ensures (forall y :: y in At(OwnIndex(Other(side), t), key) ==> Edge(r.id, y) in ViewOf(side, t.s, t.d, t.contract).rejected) ==>
              Holds(side, t.w6, r.id, Remaining)
  {
    var theirs, rejected := At(OwnIndex(Other(side), t), key), ViewOf(side, t.s, t.d, t.contract).rejected;
    forall y | y in theirs && Edge(r.id, y) !in rejected
      ensures Holds(side, t.w6, r.id, Paired(y, AuthoritativeReference))
    {
      PermittedFate(t, side, r, key, y);
    }
    if forall y :: y in theirs ==> Edge(r.id, y) in rejected {
      RejectedFate(t, side, r, key);
    }
  }

  lemma PermittedFate(t: Trace, side: RecordSide, r: Record, key: string, y: Id)
    requires t.Valid() && r in MineOf(side, t.s) && r.id in Available(side, t.w4) && Unpairs(side, t.w4.pairs, r.id)
    requires TrustedKey(r, t.contract) == Some(key) && !Conflicting(t.left, t.right, key)
    requires y in At(OwnIndex(Other(side), t), key) && Edge(r.id, y) !in ViewOf(side, t.s, t.d, t.contract).rejected
    ensures Holds(side, t.w6, r.id, Paired(y, AuthoritativeReference))
  {
    NoConflictWaits(t, side, r);
    CarrierOfKey(t, side, r, key);
    AuthoritativeFrom(t, side, r, key, y);
    SettlePair(t, side, r, key, y);
  }

  lemma RejectedFate(t: Trace, side: RecordSide, r: Record, key: string)
    requires t.Valid() && r in MineOf(side, t.s) && r.id in Available(side, t.w4) && Unpairs(side, t.w4.pairs, r.id)
    requires TrustedKey(r, t.contract) == Some(key) && !Conflicting(t.left, t.right, key)
    requires forall y :: y in At(OwnIndex(Other(side), t), key) ==> Edge(r.id, y) in ViewOf(side, t.s, t.d, t.contract).rejected
    ensures Holds(side, t.w6, r.id, Remaining)
  {
    NoConflictWaits(t, side, r);
    CarrierOfKey(t, side, r, key);
    forall y
      ensures !Authoritative(t.left, t.right, t.prohibited, key, EdgeFrom(side, r.id, y))
    {
      AuthoritativeFrom(t, side, r, key, y);
    }
    NoPairRemains(t, side, r);
  }

  lemma OpenFateCases(v: View, r: Record, key: string, mine: set<Id>, theirs: set<Id>)
    requires TrustedKey(r, v.contract) == Some(key)
    requires mine == Carriers(v.mine, MyOpen(v), v.contract, key)
    requires theirs == Carriers(v.theirs, TheirOpen(v), v.contract, key)
    ensures |mine| > 1 || |theirs| > 1 ==> OpenFate(v, r) == Terminal(Unpaired(v.side, DuplicateReference, mine + theirs))
    ensures |mine| <= 1 && |theirs| <= 1 && (exists y :: y in theirs && Edge(r.id, y) !in v.rejected) ==>
              exists y :: y in theirs && Edge(r.id, y) !in v.rejected && OpenFate(v, r) == Paired(y, AuthoritativeReference)
    ensures |mine| <= 1 && |theirs| <= 1 && (forall y :: y in theirs ==> Edge(r.id, y) in v.rejected) ==>
              OpenFate(v, r) == Remaining
  {
  }

  lemma OpenFateHolds(t: Trace, side: RecordSide, r: Record)
    requires t.Valid() && r in MineOf(side, t.s) && r.id in Available(side, t.w4) && Unpairs(side, t.w4.pairs, r.id)
    ensures Holds(side, t.w6, r.id, OpenFate(ViewOf(side, t.s, t.d, t.contract), r))
  {
    if TrustedKey(r, t.contract).None? {
      NoConflictWaits(t, side, r);
      NoPairRemains(t, side, r);
    } else {
      KeyedFateHolds(t, side, r, TrustedKey(r, t.contract).value);
    }
  }

  lemma KeyedFateHolds(t: Trace, side: RecordSide, r: Record, key: string)
    requires t.Valid() && r in MineOf(side, t.s) && r.id in Available(side, t.w4) && Unpairs(side, t.w4.pairs, r.id)
    requires TrustedKey(r, t.contract) == Some(key)
    ensures Holds(side, t.w6, r.id, OpenFate(ViewOf(side, t.s, t.d, t.contract), r))
  {
    if Conflicting(t.left, t.right, key) {
      ConflictFateHolds(t, side, r, key);
    } else {
      ReferenceFateHolds(t, side, r, key);
    }
  }

  lemma ConflictFateHolds(t: Trace, side: RecordSide, r: Record, key: string)
    requires t.Valid() && r in MineOf(side, t.s) && r.id in Available(side, t.w4) && Unpairs(side, t.w4.pairs, r.id)
    requires TrustedKey(r, t.contract) == Some(key) && Conflicting(t.left, t.right, key)
    ensures Holds(side, t.w6, r.id, OpenFate(ViewOf(side, t.s, t.d, t.contract), r))
  {
    ViewCarriers(t, side, key);
    OpenFateCases(ViewOf(side, t.s, t.d, t.contract), r, key, At(OwnIndex(side, t), key),
                  At(OwnIndex(Other(side), t), key));
    ConflictFate(t, side, r, key);
  }

  lemma ReferenceFateHolds(t: Trace, side: RecordSide, r: Record, key: string)
    requires t.Valid() && r in MineOf(side, t.s) && r.id in Available(side, t.w4) && Unpairs(side, t.w4.pairs, r.id)
    requires TrustedKey(r, t.contract) == Some(key) && !Conflicting(t.left, t.right, key)
    ensures Holds(side, t.w6, r.id, OpenFate(ViewOf(side, t.s, t.d, t.contract), r))
  {
    ViewCarriers(t, side, key);
    OpenFateCases(ViewOf(side, t.s, t.d, t.contract), r, key, At(OwnIndex(side, t), key),
                  At(OwnIndex(Other(side), t), key));
    ReferenceFate(t, side, r, key);
  }

  /** The phases, in order, give every record exactly the outcome its declarative fate names. */
  lemma FateHolds(t: Trace, side: RecordSide, r: Record)
    requires t.Valid() && r in MineOf(side, t.s)
    ensures Holds(side, t.w6, r.id, FateOf(ViewOf(side, t.s, t.d, t.contract), r))
  {
    var v := ViewOf(side, t.s, t.d, t.contract);
    if !r.Eligible() {
      SettleCancelled(t, side, r);
      Persists(t, side, r.id, Terminal(Unpaired(side, CancelledExcluded, {})));
    } else if exists y :: Edge(r.id, y) in v.links {
      var y :| Edge(r.id, y) in v.links;
      OneFate(t, side, r, y);
    } else {
      forall y
        ensures EdgeFrom(side, r.id, y) !in RelationshipEdges(t.d.manual)
      {
        LinkedEdge(t, side, r.id, y);
      }
      WaitingFate(t, side, r);
      if r.id !in v.accepted && r.id !in v.reserved {
        OpenFateHolds(t, side, r);
      }
    }
  }

  lemma LinkIsOnly(t: Trace, side: RecordSide, x: Id, y: Id, z: Id)
    requires DistinctEnds(t.d.manual)
    requires Edge(x, y) in ViewOf(side, t.s, t.d, t.contract).links
    requires Edge(x, z) in ViewOf(side, t.s, t.d, t.contract).links
    ensures z == y
  {
    LinkedEdge(t, side, x, y);
    LinkedEdge(t, side, x, z);
    OneLinkEach(t.d.manual, EdgeFrom(side, x, y), EdgeFrom(side, x, z));
  }

  lemma LinkedFate(v: View, r: Record, y: Id)
    requires r.Eligible() && Edge(r.id, y) in v.links && forall z :: Edge(r.id, z) in v.links ==> z == y
    ensures FateOf(v, r) ==
            if y in EligibleIds(v.theirs) then Paired(y, Manual) else Terminal(Unpaired(v.side, ManualAttention, {y}))
  {
  }

  lemma OneFate(t: Trace, side: RecordSide, r: Record, y: Id)
    requires t.Valid() && r in MineOf(side, t.s) && r.Eligible()
    requires Edge(r.id, y) in ViewOf(side, t.s, t.d, t.contract).links
    ensures Holds(side, t.w6, r.id, FateOf(ViewOf(side, t.s, t.d, t.contract), r))
  {
    var v := ViewOf(side, t.s, t.d, t.contract);
    forall z | Edge(r.id, z) in v.links
      ensures z == y
    {
      LinkIsOnly(t, side, r.id, y, z);
    }
    LinkedFate(v, r, y);
    LinkedEdge(t, side, r.id, y);
    SettleLinked(t, side, r, y);
    Persists(t, side, r.id, FateOf(v, r));
  }

  function PairedIds(side: RecordSide, pairs: seq<Pair>): set<Id> {
    set p | p in pairs :: EndOf(side, p.edge)
  }

  function TerminalIds(side: RecordSide, terminal: Terminals): set<Id> {
    set x | x in terminal && terminal[x].side == side
  }

  /** The checks the result constructor makes: each side's inputs fall into three disjoint parts. */
  predicate SidePartitioned(side: RecordSide, inputs: seq<Record>, remaining: seq<Record>, pairs: seq<Pair>,
                            terminal: Terminals) {
    var paired, ended, waiting := PairedIds(side, pairs), TerminalIds(side, terminal), Ids(remaining);
    && UniqueIds(remaining)
    && paired + ended + waiting == Ids(inputs)
    && paired !! ended && paired !! waiting && ended !! waiting
  }

  predicate PreprocessedValid(s: Snapshot, pre: Preprocessed) {
    && PairsOneToOne(pre.pairs)
    && SidePartitioned(LeftSide, s.left, pre.remainingLeft, pre.pairs, pre.terminal)
    && SidePartitioned(RightSide, s.right, pre.remainingRight, pre.pairs, pre.terminal)
  }

  method KeepAvailable(records: seq<Record>, available: set<Id>) returns (kept: seq<Record>)
    requires UniqueIds(records)
    ensures UniqueIds(kept)
    ensures forall r :: r in kept <==> r in records && r.id in available
  {
    kept := [];
    for i := 0 to |records|
      invariant UniqueIds(kept)
      invariant forall r :: r in kept <==> r in records[..i] && r.id in available
    {
      assert records[..i + 1] == records[..i] + [records[i]];
      if records[i].id in available {
        forall k | 0 <= k < |kept|
          ensures kept[k].id != records[i].id
        {
          assert kept[k] in kept;
          var j :| 0 <= j < i && records[j] == kept[k];
        }
        kept := kept + [records[i]];
      }
    }
    assert records[..|records|] == records;
  }

  /** The result, seen as a working state. */
  function AsWork(pre: Preprocessed): Work {
    Work(pre.pairs, pre.terminal, Ids(pre.remainingLeft), Ids(pre.remainingRight))
  }

  /** Every record has exactly the outcome its declarative fate names, and nothing else happened. */
  ghost predicate Preprocesses(s: Snapshot, d: Decisions, contract: ReferenceContract, pre: Preprocessed) {
    && (forall r :: r in s.left ==> Holds(LeftSide, AsWork(pre), r.id, FateOf(LeftView(s, d, contract), r)))
    && (forall r :: r in s.right ==> Holds(RightSide, AsWork(pre), r.id, FateOf(RightView(s, d, contract), r)))
    && (forall r :: r in pre.remainingLeft ==> r in s.left)
    && (forall r :: r in pre.remainingRight ==> r in s.right)
    && (forall p :: p in pre.pairs ==> p.edge.left in EligibleIds(s.left) && p.edge.right in EligibleIds(s.right) &&
                                       !p.origin.WeightedGlobal? && p.score.None? && p.gap.None?)
    && pre.prohibited == ProhibitedEdges(s, d)
    && PreprocessedValid(s, pre)
  }

  /** Outcomes are recorded for inputs, under the side they belong to. */
  ghost predicate SidesRight(s: Snapshot, w: Work) {
    && w.left <= Ids(s.left) && w.right <= Ids(s.right)
    && forall x :: Lookup(w.terminal, x).Some? ==>
         if Lookup(w.terminal, x).value.side.LeftSide? then x in Ids(s.left) else x in Ids(s.right)
  }

  lemma CancelledSides(s: Snapshot, w: Work)
    requires s.Valid() && w.left == EligibleIds(s.left) && w.right == EligibleIds(s.right)
    requires CancelledAre(w.terminal, s.left, s.right)
    ensures SidesRight(s, w)
  {
  }

  lemma LinksSides(s: Snapshot, links: seq<Relationship>, before: Work, after: Work)
    requires SidesRight(s, before) && LinksApplied(links, before, after)
    ensures SidesRight(s, after)
  {
    forall x | Lookup(after.terminal, x) != Lookup(before.terminal, x)
      ensures Lookup(after.terminal, x).Some?
      ensures if Lookup(after.terminal, x).value.side.LeftSide? then x in Ids(s.left) else x in Ids(s.right)
    {
    }
  }

  lemma SinglesSides(s: Snapshot, ids: set<Id>, reason: UnpairedReason, before: Work, after: Work)
    requires SidesRight(s, before) && SinglesReserved(ids, reason, before, after)
    ensures SidesRight(s, after)
  {
  }

  lemma ConflictsSides(s: Snapshot, left: Index, right: Index, keys: set<string>, before: Work, after: Work)
    requires SidesRight(s, before) && ConflictsResolved(left, right, keys, before, after)
    requires forall k :: At(left, k) <= before.left && At(right, k) <= before.right
    ensures SidesRight(s, after)
  {
    forall x
      ensures Lookup(after.terminal, x) == Lookup(before.terminal, x)
              || (x in before.left && Lookup(after.terminal, x).Some? && Lookup(after.terminal, x).value.side.LeftSide?)
              || (x in before.right && Lookup(after.terminal, x).Some? && Lookup(after.terminal, x).value.side.RightSide?)
    {
      if InConflict(left, left, right, keys, x) {
        var k :| k in keys && Conflicting(left, right, k) && x in At(left, k);
        assert x in before.left;
      } else if InConflict(right, left, right, keys, x) {
        var k :| k in keys && Conflicting(left, right, k) && x in At(right, k);
        assert x in before.right;
      }
    }
  }

  lemma TerminalSides(t: Trace)
    requires t.Valid()
    ensures SidesRight(t.s, t.w6)
  {
    IndexedAreAvailable(t);
    CancelledSides(t.s, t.w1);
    LinksSides(t.s, t.d.manual, t.w1, t.w2);
    SinglesSides(t.s, SingleIds(t.d.accepted), AcceptedUnmatched, t.w2, t.w3);
    SinglesSides(t.s, SingleIds(t.d.reserved), ReviewerReserved, t.w3, t.w4);
    ConflictsSides(t.s, t.left, t.right, t.left.Keys + t.right.Keys, t.w4, t.w5);
  }

  ghost predicate PlainPairs(s: Snapshot, pairs: seq<Pair>) {
    forall p :: p in pairs ==>
      && p.edge.left in EligibleIds(s.left) && p.edge.right in EligibleIds(s.right)
      && !p.origin.WeightedGlobal? && p.score.None? && p.gap.None?
  }

  lemma PairsArePlain(t: Trace)
    requires t.Valid()
    ensures PlainPairs(t.s, t.w6.pairs)
  {
    Frames(t);
    FrameComposes(t.w1, t.w2, t.w3);
    FrameComposes(t.w1, t.w3, t.w4);
    FrameComposes(t.w1, t.w4, t.w5);
    FrameComposes(t.w1, t.w5, t.w6);
    forall p | p in t.w6.pairs
      ensures !p.origin.WeightedGlobal? && p.score.None? && p.gap.None?
    {
      if p in t.w5.pairs {
        assert p in t.w2.pairs && p !in t.w1.pairs;
      }
    }
  }

  /** Exactly one fate per record makes the three parts of each side a partition of its inputs. */
  lemma FatesPartition(side: RecordSide, v: View, s: Snapshot, inputs: seq<Record>, remaining: seq<Record>, w: Work)
    requires inputs == MineOf(side, s) && s.Valid()
    requires forall r :: r in inputs ==> Holds(side, w, r.id, FateOf(v, r))
    requires UniqueIds(remaining) && Ids(remaining) == Available(side, w)
    requires SidesRight(s, w) && PlainPairs(s, w.pairs)
    ensures SidePartitioned(side, inputs, remaining, w.pairs, w.terminal)
  {
    var paired, ended, waiting := PairedIds(side, w.pairs), TerminalIds(side, w.terminal), Ids(remaining);
    forall x | x in Ids(inputs)
      ensures x in paired + ended + waiting
      ensures !(x in paired && x in ended) && !(x in paired && x in waiting) && !(x in ended && x in waiting)
    {
      var r :| r in inputs && r.id == x;
      FateIsExclusive(side, v, s, w, r);
    }
    forall x | x in paired + ended + waiting
      ensures x in Ids(inputs)
    {
      if x in ended {
        assert Lookup(w.terminal, x).Some?;
      }
    }
  }

  lemma FateIsExclusive(side: RecordSide, v: View, s: Snapshot, w: Work, r: Record)
    requires s.Valid() && r in MineOf(side, s) && Holds(side, w, r.id, FateOf(v, r)) && SidesRight(s, w)
    ensures var x := r.id;
            && x in PairedIds(side, w.pairs) + TerminalIds(side, w.terminal) + Available(side, w)
            && !(x in PairedIds(side, w.pairs) && x in TerminalIds(side, w.terminal))
            && !(x in PairedIds(side, w.pairs) && x in Available(side, w))
            && !(x in TerminalIds(side, w.terminal) && x in Available(side, w))
  {
    var x := r.id;
    IdsSeparate(s, side, r);
    assert x in w.terminal <==> Lookup(w.terminal, x).Some?;
    match FateOf(v, r)
    case Paired(y, origin) =>
      var p := Pair(EdgeFrom(side, x, y), origin, None, None);
      assert p in w.pairs && EndOf(side, p.edge) == x;
    case Terminal(outcome) =>
    case Remaining =>
  }

  /** The reported conflicts, from the records alone: exactly the references that several records still open
      after the reviewer's decisions carry, with all of them. */
  ghost predicate ConflictsAre(s: Snapshot, d: Decisions, contract: ReferenceContract,
                               conflicts: map<string, ReferenceConflict>) {
    var v := LeftView(s, d, contract);
    forall key ::
      ConflictIs(Carriers(s.left, MyOpen(v), contract, key), Carriers(s.right, TheirOpen(v), contract, key),
                 conflicts, key)
  }

  ghost predicate ConflictIs(lefts: set<Id>, rights: set<Id>, conflicts: map<string, ReferenceConflict>, key: string) {
    && (key in conflicts <==> |lefts| > 1 || |rights| > 1)
    && (key in conflicts ==> conflicts[key] == ReferenceConflict(lefts, rights))
  }

  lemma ListedConflict(left: Index, right: Index, conflicts: map<string, ReferenceConflict>, key: string)
    requires ConflictsListed(left, right, left.Keys + right.Keys, conflicts)
    ensures ConflictIs(At(left, key), At(right, key), conflicts, key)
  {
  }

  lemma ListedAreConflicts(t: Trace, conflicts: map<string, ReferenceConflict>)
    requires t.Valid() && ConflictsListed(t.left, t.right, t.left.Keys + t.right.Keys, conflicts)
    ensures ConflictsAre(t.s, t.d, t.contract, conflicts)
  {
    var v := LeftView(t.s, t.d, t.contract);
    forall key
      ensures ConflictIs(Carriers(t.s.left, MyOpen(v), t.contract, key), Carriers(t.s.right, TheirOpen(v), t.contract, key),
                         conflicts, key)
    {
      LeftCarriers(t, key);
      ListedConflict(t.left, t.right, conflicts, key);
    }
  }

  lemma LeftCarriers(t: Trace, key: string)
    requires t.Valid()
    ensures Carriers(t.s.left, MyOpen(LeftView(t.s, t.d, t.contract)), t.contract, key) == At(t.left, key)
    ensures Carriers(t.s.right, TheirOpen(LeftView(t.s, t.d, t.contract)), t.contract, key) == At(t.right, key)
  {
    ViewCarriers(t, LeftSide, key);
  }

  method PreprocessReferences(s: Snapshot, d: Decisions, contract: ReferenceContract) returns (r: Result<Preprocessed>)
    requires s.Valid() && d.Valid()
    ensures !Oriented(s, d) ==> r == Err(WrongOrientation)
    ensures Oriented(s, d) ==> r.Ok? && Preprocesses(s, d, contract, r.value)
    ensures Oriented(s, d) ==> ConflictsAre(s, d, contract, r.value.conflicts)
  {
    if !Oriented(s, d) {
      return Err(WrongOrientation);
    }
    var w1 := ExcludeCancelled(s);
    var w2 := ApplyManualLinks(d.manual, w1);
    var w3 := ReserveSingles(d.accepted, AcceptedUnmatched, w2);
    var w4 := ReserveSingles(d.reserved, ReviewerReserved, w3);
    var prohibited := ProhibitedEdges(s, d);
    var left := ReferenceIndex(s.left, w4.left, contract);
    var right := ReferenceIndex(s.right, w4.right, contract);
    var keys := left.Keys + right.Keys;
    IndexFacts(left, right, s, contract, w4, w4);
    var w5, conflicts := ResolveConflicts(keys, left, right, w4);
    IndexFacts(left, right, s, contract, w4, w5);
    var w6 := EstablishPairs(keys, left, right, prohibited, w5);
    var remainingLeft := KeepAvailable(s.left, w6.left);
    var remainingRight := KeepAvailable(s.right, w6.right);
    var pre := Preprocessed(w6.pairs, w6.terminal, remainingLeft, remainingRight, prohibited, conflicts);
    ghost var t := Trace(s, d, contract, w1, w2, w3, w4, left, right, w5, prohibited, w6);
    TraceGivesResult(t, pre);
    ListedAreConflicts(t, conflicts);
    if !PreprocessedValid(s, pre) {
      return Err(InvalidPreprocessing);
    }
    r := Ok(pre);
  }

  lemma TraceGivesResult(t: Trace, pre: Preprocessed)
    requires t.Valid()
    requires pre.pairs == t.w6.pairs && pre.terminal == t.w6.terminal && pre.prohibited == t.prohibited
    requires UniqueIds(pre.remainingLeft) && forall r :: r in pre.remainingLeft <==> r in t.s.left && r.id in t.w6.left
    requires UniqueIds(pre.remainingRight) && forall r :: r in pre.remainingRight <==> r in t.s.right && r.id in t.w6.right
    ensures Preprocesses(t.s, t.d, t.contract, pre)
  {
    TerminalSides(t);
    PairsArePlain(t);
    KeptIds(t.s.left, pre.remainingLeft, t.w6.left);
    KeptIds(t.s.right, pre.remainingRight, t.w6.right);
    assert AsWork(pre) == t.w6;
    AllFatesHold(t);
    assert SidePartitioned(LeftSide, t.s.left, pre.remainingLeft, pre.pairs, pre.terminal) by {
      FatesPartition(LeftSide, LeftView(t.s, t.d, t.contract), t.s, t.s.left, pre.remainingLeft, t.w6);
    }
    assert SidePartitioned(RightSide, t.s.right, pre.remainingRight, pre.pairs, pre.terminal) by {
      FatesPartition(RightSide, RightView(t.s, t.d, t.contract), t.s, t.s.right, pre.remainingRight, t.w6);
    }
  }

  lemma KeptIds(records: seq<Record>, kept: seq<Record>, available: set<Id>)
    requires available <= Ids(records)
    requires forall r :: r in kept <==> r in records && r.id in available
    ensures Ids(kept) == available
  {
    forall x | x in available
      ensures x in Ids(kept)
    {
      var r :| r in records && r.id == x;
      assert r in kept;
    }
  }

  lemma AllFatesHold(t: Trace)
    requires t.Valid()
    ensures forall r :: r in t.s.left ==> Holds(LeftSide, t.w6, r.id, FateOf(LeftView(t.s, t.d, t.contract), r))
    ensures forall r :: r in t.s.right ==> Holds(RightSide, t.w6, r.id, FateOf(RightView(t.s, t.d, t.contract), r))
  {
    forall r | r in t.s.left
      ensures Holds(LeftSide, t.w6, r.id, FateOf(LeftView(t.s, t.d, t.contract), r))
    {
      FateHolds(t, LeftSide, r);
    }
    forall r | r in t.s.right
      ensures Holds(RightSide, t.w6, r.id, FateOf(RightView(t.s, t.d, t.contract), r))
    {
      FateHolds(t, RightSide, r);
    }
  }
}
