/** What preprocessing does with each record, in the terms of the record's own fields and the reviewer's decisions. */
module RecordOutcomes {
  import opened Matchings
  import opened Domain
  import opened References

  // ----- the vocabulary: fields and decisions only -----

  /** The record carries the reference that the contract trusts: the shared reference, or the shared alias. */
  ghost predicate Carries(r: Record, contract: ReferenceContract, key: string) {
    match contract
    case SharedMustAgree => r.reference == Some(key)
    case SourceLocalOrAlias => r.alias == Some(key)
  }

  ghost function EdgeBetween(side: RecordSide, x: Id, y: Id): Edge {
    match side
    case LeftSide => Edge(x, y)
    case RightSide => Edge(y, x)
  }

  ghost function RecordsOf(side: RecordSide, s: Snapshot): seq<Record> {
    match side
    case LeftSide => s.left
    case RightSide => s.right
  }

  ghost function OppositeOf(side: RecordSide, s: Snapshot): seq<Record> {
    match side
    case LeftSide => s.right
    case RightSide => s.left
  }

  ghost predicate Relates(side: RecordSide, items: seq<Relationship>, x: Id, y: Id) {
    exists m :: m in items && m.edge == EdgeBetween(side, x, y)
  }

  ghost predicate Linked(side: RecordSide, d: Decisions, x: Id) {
    exists y :: Relates(side, d.manual, x, y)
  }

  ghost predicate Names(items: seq<Single>, x: Id) {
    exists i :: i in items && i.record == x
  }

  /** An opposite record of this identity that is not cancelled. */
  ghost predicate Standing(records: seq<Record>, y: Id) {
    exists q :: q in records && q.id == y && q.state != Cancelled
  }

  /** Not cancelled, and no reviewer decision holds it. */
  ghost predicate OpenRecord(side: RecordSide, d: Decisions, r: Record) {
    r.state != Cancelled && !Linked(side, d, r.id) && !Names(d.accepted, r.id) && !Names(d.reserved, r.id)
  }

  /** All open records of a side that carry a reference. */
  ghost function OpenCarriers(side: RecordSide, s: Snapshot, d: Decisions, contract: ReferenceContract,
                              key: string): set<Id> {
    set r | r in RecordsOf(side, s) && OpenRecord(side, d, r) && Carries(r, contract, key) :: r.id
  }

  ghost function Across(side: RecordSide): RecordSide {
    match side
    case LeftSide => RightSide
    case RightSide => LeftSide
  }

  // ----- the shared definitions mean this -----

  lemma SidesMean(side: RecordSide, s: Snapshot)
    ensures MineOf(side, s) == RecordsOf(side, s) && MineOf(Other(side), s) == OppositeOf(side, s)
    ensures Other(side) == Across(side)
    ensures forall x, y :: EdgeFrom(side, x, y) == EdgeBetween(side, x, y)
  {
  }

  lemma RelatesMean(side: RecordSide, s: Snapshot, d: Decisions, contract: ReferenceContract, x: Id, y: Id)
    ensures Edge(x, y) in ViewOf(side, s, d, contract).links <==> Relates(side, d.manual, x, y)
    ensures Edge(x, y) in ViewOf(side, s, d, contract).rejected <==> Relates(side, d.rejected, x, y)
  {
    var v := ViewOf(side, s, d, contract);
    if side.RightSide? {
      assert Edge(x, y) in v.links <==> Edge(y, x) in RelationshipEdges(d.manual);
      assert Edge(x, y) in v.rejected <==> Edge(y, x) in RelationshipEdges(d.rejected);
    }
  }

  lemma NamesMean(items: seq<Single>, x: Id)
    ensures x in SingleIds(items) <==> Names(items, x)
  {
  }

  lemma StandingMeans(records: seq<Record>, y: Id)
    ensures y in EligibleIds(records) <==> Standing(records, y)
  {
  }

  lemma FirstEndsMean(side: RecordSide, s: Snapshot, d: Decisions, contract: ReferenceContract, x: Id)
    ensures x in FirstEnds(ViewOf(side, s, d, contract).links) <==> Linked(side, d, x)
  {
    var v := ViewOf(side, s, d, contract);
    if x in FirstEnds(v.links) {
      var e :| e in v.links && e.left == x;
      RelatesMean(side, s, d, contract, x, e.right);
    }
    if Linked(side, d, x) {
      var y :| Relates(side, d.manual, x, y);
      RelatesMean(side, s, d, contract, x, y);
    }
  }

  lemma SecondEndsMean(side: RecordSide, s: Snapshot, d: Decisions, contract: ReferenceContract, y: Id)
    ensures y in SecondEnds(ViewOf(side, s, d, contract).links) <==> Linked(Across(side), d, y)
  {
    var v := ViewOf(side, s, d, contract);
    if y in SecondEnds(v.links) {
      var e :| e in v.links && e.right == y;
      RelatesMean(side, s, d, contract, e.left, y);
      assert Relates(Across(side), d.manual, y, e.left);
    }
    if Linked(Across(side), d, y) {
      var x :| Relates(Across(side), d.manual, y, x);
      assert Relates(side, d.manual, x, y);
      RelatesMean(side, s, d, contract, x, y);
    }
  }

  lemma EligibleOne(records: seq<Record>, r: Record)
    requires UniqueIds(records) && r in records
    ensures r.id in EligibleIds(records) <==> r.state != Cancelled
  {
    if r.id in EligibleIds(records) {
      var q :| q in records && q.Eligible() && q.id == r.id;
      assert q == r;
    }
  }

  lemma MyOpenMeans(side: RecordSide, s: Snapshot, d: Decisions, contract: ReferenceContract, r: Record)
    requires s.Valid() && r in RecordsOf(side, s)
    ensures r.id in MyOpen(ViewOf(side, s, d, contract)) <==> OpenRecord(side, d, r)
  {
    EligibleOne(RecordsOf(side, s), r);
    FirstEndsMean(side, s, d, contract, r.id);
    NamesMean(d.accepted, r.id);
    NamesMean(d.reserved, r.id);
  }

  lemma TheirOpenMeans(side: RecordSide, s: Snapshot, d: Decisions, contract: ReferenceContract, q: Record)
    requires s.Valid() && q in OppositeOf(side, s)
    ensures q.id in TheirOpen(ViewOf(side, s, d, contract)) <==> OpenRecord(Across(side), d, q)
  {
    EligibleOne(OppositeOf(side, s), q);
    SecondEndsMean(side, s, d, contract, q.id);
    NamesMean(d.accepted, q.id);
    NamesMean(d.reserved, q.id);
  }

  lemma CarriesMeans(r: Record, contract: ReferenceContract, key: string)
    ensures TrustedKey(r, contract) == Some(key) <==> Carries(r, contract, key)
  {
  }

  lemma MyCarriers(side: RecordSide, s: Snapshot, d: Decisions, contract: ReferenceContract, key: string)
    requires s.Valid()
    ensures Carriers(RecordsOf(side, s), MyOpen(ViewOf(side, s, d, contract)), contract, key) ==
            OpenCarriers(side, s, d, contract, key)
  {
    forall r | r in RecordsOf(side, s)
      ensures r.id in MyOpen(ViewOf(side, s, d, contract)) <==> OpenRecord(side, d, r)
      ensures TrustedKey(r, contract) == Some(key) <==> Carries(r, contract, key)
    {
      MyOpenMeans(side, s, d, contract, r);
      CarriesMeans(r, contract, key);
    }
  }

  lemma TheirCarriers(side: RecordSide, s: Snapshot, d: Decisions, contract: ReferenceContract, key: string)
    requires s.Valid()
    ensures Carriers(OppositeOf(side, s), TheirOpen(ViewOf(side, s, d, contract)), contract, key) ==
            OpenCarriers(Across(side), s, d, contract, key)
  {
    forall q | q in OppositeOf(side, s)
      ensures q.id in TheirOpen(ViewOf(side, s, d, contract)) <==> OpenRecord(Across(side), d, q)
      ensures TrustedKey(q, contract) == Some(key) <==> Carries(q, contract, key)
    {
      TheirOpenMeans(side, s, d, contract, q);
      CarriesMeans(q, contract, key);
    }
  }

  // ----- what the fate of a record is -----

  /** Several open records of a side carry the reference. */
  ghost predicate Repeated(side: RecordSide, s: Snapshot, d: Decisions, contract: ReferenceContract, key: string) {
    |OpenCarriers(side, s, d, contract, key)| > 1 || |OpenCarriers(Across(side), s, d, contract, key)| > 1
  }

  ghost function AllCarriers(s: Snapshot, d: Decisions, contract: ReferenceContract, key: string): set<Id> {
    OpenCarriers(LeftSide, s, d, contract, key) + OpenCarriers(RightSide, s, d, contract, key)
  }

  /** The record and an opposite one are the only open records that carry the reference, and no reviewer rejected
      the two. */
  ghost predicate SoleBoth(side: RecordSide, s: Snapshot, d: Decisions, contract: ReferenceContract, key: string,
                           r: Record, y: Id) {
    && OpenCarriers(side, s, d, contract, key) == {r.id}
    && OpenCarriers(Across(side), s, d, contract, key) == {y}
    && !Relates(side, d.rejected, r.id, y)
  }

  lemma OneCarrier(s: set<Id>, y: Id)
    requires y in s
    ensures |s| <= 1 <==> s == {y}
  {
    if |s| <= 1 {
      SingleOrEmpty(s, y);
    }
  }

  /** The reference rules on the carriers of one reference. */
  lemma CarriersDecide(v: View, r: Record, key: string, mine: set<Id>, theirs: set<Id>)
    requires TrustedKey(r, v.contract) == Some(key) && r.id in mine
    requires mine == Carriers(v.mine, MyOpen(v), v.contract, key)
    requires theirs == Carriers(v.theirs, TheirOpen(v), v.contract, key)
    ensures |mine| > 1 || |theirs| > 1 ==> OpenFate(v, r) == Terminal(Unpaired(v.side, DuplicateReference, mine + theirs))
    ensures |mine| <= 1 && |theirs| <= 1 ==> OpenFate(v, r).Remaining? || OpenFate(v, r).Paired?
    ensures OpenFate(v, r).Paired? ==>
              && OpenFate(v, r).origin == AuthoritativeReference && |mine| <= 1 && |theirs| <= 1
              && OpenFate(v, r).partner in theirs && Edge(r.id, OpenFate(v, r).partner) !in v.rejected
    ensures OpenFate(v, r).Remaining? ==> forall y :: y in theirs ==> Edge(r.id, y) in v.rejected
  {
  }

  lemma PairedMeansSole(v: View, r: Record, key: string, mine: set<Id>, theirs: set<Id>, y: Id)
    requires TrustedKey(r, v.contract) == Some(key) && r.id in mine
    requires mine == Carriers(v.mine, MyOpen(v), v.contract, key)
    requires theirs == Carriers(v.theirs, TheirOpen(v), v.contract, key)
    ensures OpenFate(v, r) == Paired(y, AuthoritativeReference) <==>
            mine == {r.id} && theirs == {y} && Edge(r.id, y) !in v.rejected
  {
    CarriersDecide(v, r, key, mine, theirs);
    OneCarrier(mine, r.id);
    var fate := OpenFate(v, r);
    if fate.Paired? {
      OneCarrier(theirs, fate.partner);
    }
    if y in theirs {
      OneCarrier(theirs, y);
    }
  }

  lemma CarriersOfBoth(side: RecordSide, s: Snapshot, d: Decisions, contract: ReferenceContract, key: string)
    ensures OpenCarriers(side, s, d, contract, key) + OpenCarriers(Across(side), s, d, contract, key) ==
            AllCarriers(s, d, contract, key)
  {
  }

  lemma IsCarrier(side: RecordSide, s: Snapshot, d: Decisions, contract: ReferenceContract, r: Record, key: string)
    requires r in RecordsOf(side, s) && OpenRecord(side, d, r) && Carries(r, contract, key)
    ensures r.id in OpenCarriers(side, s, d, contract, key)
  {
  }

  lemma ViewIs(side: RecordSide, s: Snapshot, d: Decisions, contract: ReferenceContract)
    ensures var v := ViewOf(side, s, d, contract);
            v.side == side && v.mine == RecordsOf(side, s) && v.theirs == OppositeOf(side, s) && v.contract == contract
  {
  }

  lemma OpenReferenceFate(side: RecordSide, s: Snapshot, d: Decisions, contract: ReferenceContract, r: Record, key: string)
    requires s.Valid() && r in RecordsOf(side, s) && OpenRecord(side, d, r) && Carries(r, contract, key)
    ensures Repeated(side, s, d, contract, key) ==>
              OpenFate(ViewOf(side, s, d, contract), r) ==
              Terminal(Unpaired(side, DuplicateReference, AllCarriers(s, d, contract, key)))
    ensures !Repeated(side, s, d, contract, key) ==> !OpenFate(ViewOf(side, s, d, contract), r).Terminal?
    ensures OpenFate(ViewOf(side, s, d, contract), r).Paired? ==>
              OpenFate(ViewOf(side, s, d, contract), r).origin == AuthoritativeReference
  {
    ViewIs(side, s, d, contract);
    CarriesMeans(r, contract, key);
    MyCarriers(side, s, d, contract, key);
    TheirCarriers(side, s, d, contract, key);
    IsCarrier(side, s, d, contract, r, key);
    CarriersOfBoth(side, s, d, contract, key);
    CarriersDecide(ViewOf(side, s, d, contract), r, key, OpenCarriers(side, s, d, contract, key),
                   OpenCarriers(Across(side), s, d, contract, key));
  }

  lemma OpenPairFate(side: RecordSide, s: Snapshot, d: Decisions, contract: ReferenceContract, r: Record, key: string,
                     y: Id)
    requires s.Valid() && r in RecordsOf(side, s) && OpenRecord(side, d, r) && Carries(r, contract, key)
    ensures OpenFate(ViewOf(side, s, d, contract), r) == Paired(y, AuthoritativeReference) <==>
            SoleBoth(side, s, d, contract, key, r, y)
  {
    CarriesMeans(r, contract, key);
    MyCarriers(side, s, d, contract, key);
    TheirCarriers(side, s, d, contract, key);
    RelatesMean(side, s, d, contract, r.id, y);
    ViewIs(side, s, d, contract);
    IsCarrier(side, s, d, contract, r, key);
    PairedMeansSole(ViewOf(side, s, d, contract), r, key, OpenCarriers(side, s, d, contract, key),
                    OpenCarriers(Across(side), s, d, contract, key), y);
  }

  /** Without a trusted reference an open record waits for matching. */
  lemma OpenWithoutReference(side: RecordSide, s: Snapshot, d: Decisions, contract: ReferenceContract, r: Record)
    requires forall key :: !Carries(r, contract, key)
    ensures OpenFate(ViewOf(side, s, d, contract), r) == Remaining
  {
    if TrustedKey(r, contract).Some? {
      CarriesMeans(r, contract, TrustedKey(r, contract).value);
    }
  }

  lemma OneKey(r: Record, contract: ReferenceContract, k1: string, k2: string)
    requires Carries(r, contract, k1) && Carries(r, contract, k2)
    ensures k1 == k2
  {
  }

  /** The reviewer's part of a record's fate. */
  lemma ReviewedFate(side: RecordSide, s: Snapshot, d: Decisions, contract: ReferenceContract, r: Record)
    requires s.Valid() && d.Valid() && r in RecordsOf(side, s)
    ensures var fate := FateOf(ViewOf(side, s, d, contract), r);
            && (r.state == Cancelled ==> fate == Terminal(Unpaired(side, CancelledExcluded, {})))
            && (forall y :: r.state != Cancelled && Relates(side, d.manual, r.id, y) ==>
                  fate == if Standing(OppositeOf(side, s), y) then Paired(y, Manual)
                          else Terminal(Unpaired(side, ManualAttention, {y})))
            && (r.state != Cancelled && !Linked(side, d, r.id) && Names(d.accepted, r.id) ==>
                  fate == Terminal(Unpaired(side, AcceptedUnmatched, {})))
            && (r.state != Cancelled && !Linked(side, d, r.id) && !Names(d.accepted, r.id) && Names(d.reserved, r.id) ==>
                  fate == Terminal(Unpaired(side, ReviewerReserved, {})))
            && (OpenRecord(side, d, r) ==> fate == OpenFate(ViewOf(side, s, d, contract), r))
  {
    var v := ViewOf(side, s, d, contract);
    NamesMean(d.accepted, r.id);
    NamesMean(d.reserved, r.id);
    forall y
      ensures Edge(r.id, y) in v.links <==> Relates(side, d.manual, r.id, y)
      ensures y in EligibleIds(v.theirs) <==> Standing(OppositeOf(side, s), y)
    {
      RelatesMean(side, s, d, contract, r.id, y);
      StandingMeans(OppositeOf(side, s), y);
    }
    forall y, z | Edge(r.id, y) in v.links && Edge(r.id, z) in v.links
      ensures y == z
    {
      OneLinkEach(d.manual, EdgeBetween(side, r.id, y), EdgeBetween(side, r.id, z));
    }
  }

  // ----- the result shows the fate -----

  /** The record is reported unpaired for this reason, next to these identities. */
  ghost predicate Ended(pre: Preprocessed, side: RecordSide, x: Id, reason: UnpairedReason, related: set<Id>) {
    x in pre.terminal && pre.terminal[x] == Unpaired(side, reason, related)
  }

  ghost predicate Joined(pre: Preprocessed, side: RecordSide, x: Id, y: Id, origin: PairOrigin) {
    Pair(EdgeBetween(side, x, y), origin, None, None) in pre.pairs
  }

  lemma OnePair(side: RecordSide, pairs: seq<Pair>, p: Pair, q: Pair)
    requires PairsOneToOne(pairs) && p in pairs && q in pairs && EndOf(side, p.edge) == EndOf(side, q.edge)
    ensures p == q
  {
    var i :| 0 <= i < |pairs| && pairs[i] == p;
    var j :| 0 <= j < |pairs| && pairs[j] == q;
    assert Touch(pairs[i].edge, pairs[j].edge) && Touch(pairs[j].edge, pairs[i].edge);
  }

  lemma HeldShows(side: RecordSide, w: Work, x: Id, fate: Fate)
    requires Holds(side, w, x, fate) && PairsOneToOne(w.pairs)
    ensures forall y, origin :: Pair(EdgeFrom(side, x, y), origin, None, None) in w.pairs <==> fate == Paired(y, origin)
    ensures forall o :: Lookup(w.terminal, x) == Some(o) <==> fate == Terminal(o)
    ensures x in Available(side, w) <==> fate == Remaining
  {
    forall y, origin
      ensures Pair(EdgeFrom(side, x, y), origin, None, None) in w.pairs <==> fate == Paired(y, origin)
    {
      if Pair(EdgeFrom(side, x, y), origin, None, None) in w.pairs {
        assert EndOf(side, EdgeFrom(side, x, y)) == x;
        if fate.Paired? {
          assert EndOf(side, EdgeFrom(side, x, fate.partner)) == x;
          OnePair(side, w.pairs, Pair(EdgeFrom(side, x, y), origin, None, None),
                  Pair(EdgeFrom(side, x, fate.partner), fate.origin, None, None));
        }
      }
    }
  }

  lemma FateHeld(side: RecordSide, s: Snapshot, d: Decisions, contract: ReferenceContract, pre: Preprocessed, r: Record)
    requires Preprocesses(s, d, contract, pre) && r in RecordsOf(side, s)
    ensures Holds(side, AsWork(pre), r.id, FateOf(ViewOf(side, s, d, contract), r)) && PairsOneToOne(pre.pairs)
  {
  }

  lemma FateShown(side: RecordSide, s: Snapshot, d: Decisions, contract: ReferenceContract, pre: Preprocessed, r: Record)
    requires Preprocesses(s, d, contract, pre) && r in RecordsOf(side, s)
    ensures var fate := FateOf(ViewOf(side, s, d, contract), r);
            && (forall y, origin :: Joined(pre, side, r.id, y, origin) <==> fate == Paired(y, origin))
            && (forall reason, related :: Ended(pre, side, r.id, reason, related) <==>
                                          fate == Terminal(Unpaired(side, reason, related)))
            && (r.id in Ids(match side case LeftSide => pre.remainingLeft case RightSide => pre.remainingRight) <==>
                  fate == Remaining)
  {
    FateHeld(side, s, d, contract, pre, r);
    HeldShows(side, AsWork(pre), r.id, FateOf(ViewOf(side, s, d, contract), r));
    SidesMean(side, s);
    forall reason, related
      ensures Ended(pre, side, r.id, reason, related) <==>
              Lookup(AsWork(pre).terminal, r.id) == Some(Unpaired(side, reason, related))
    {
    }
  }

  // ----- the theorems -----

  /** An index holds, under each reference, exactly the indexed records that carry it. */
  lemma IndexHolds(index: Index, records: seq<Record>, open: set<Id>, contract: ReferenceContract, key: string)
    requires Indexes(index, records, open, contract)
    ensures key in index ==>
              index[key] == set r | r in records && r.id in open && Carries(r, contract, key) :: r.id
    ensures key !in index ==> forall r :: r in records && r.id in open ==> !Carries(r, contract, key)
  {
    assert At(index, key) == Carriers(records, open, contract, key);
    forall r | r in records
      ensures TrustedKey(r, contract) == Some(key) <==> Carries(r, contract, key)
    {
      CarriesMeans(r, contract, key);
    }
    if key !in index {
      forall r | r in records && r.id in open
        ensures !Carries(r, contract, key)
      {
        assert r.id !in Carriers(records, open, contract, key);
      }
    }
  }

  /** Cancelled records, and no others, end as excluded. */
  lemma CancelledOutcome(side: RecordSide, s: Snapshot, d: Decisions, contract: ReferenceContract, pre: Preprocessed,
                         r: Record)
    requires s.Valid() && d.Valid() && Preprocesses(s, d, contract, pre) && r in RecordsOf(side, s)
    ensures Ended(pre, side, r.id, CancelledExcluded, {}) <==> r.state == Cancelled
  {
    FateShown(side, s, d, contract, pre, r);
    ReviewedFate(side, s, d, contract, r);
    if r.state != Cancelled {
      FateReason(side, s, d, contract, r);
    }
  }

  /** A record that is not cancelled is excluded by nothing the rules do later. */
  lemma FateReason(side: RecordSide, s: Snapshot, d: Decisions, contract: ReferenceContract, r: Record)
    requires s.Valid() && d.Valid() && r in RecordsOf(side, s) && r.state != Cancelled
    ensures var fate := FateOf(ViewOf(side, s, d, contract), r);
            && (Linked(side, d, r.id) ==>
                  || (fate.Paired? && fate.origin == Manual)
                  || (fate.Terminal? && fate.outcome.reason == ManualAttention))
            && (!Linked(side, d, r.id) ==> !(fate.Paired? && fate.origin == Manual))
            && (!Linked(side, d, r.id) && !OpenRecord(side, d, r) ==>
                  fate.Terminal? && fate.outcome.reason in {AcceptedUnmatched, ReviewerReserved})
            && (OpenRecord(side, d, r) ==>
                  || fate.Remaining?
                  || (fate.Paired? && fate.origin == AuthoritativeReference)
                  || (fate.Terminal? && fate.outcome.reason == DuplicateReference))
  {
    ReviewedFate(side, s, d, contract, r);
    if Linked(side, d, r.id) {
      var y :| Relates(side, d.manual, r.id, y);
    } else if OpenRecord(side, d, r) {
      OpenFateReason(side, s, d, contract, r);
    }
  }

  lemma OpenFateReason(side: RecordSide, s: Snapshot, d: Decisions, contract: ReferenceContract, r: Record)
    requires s.Valid() && r in RecordsOf(side, s) && OpenRecord(side, d, r)
    ensures var fate := OpenFate(ViewOf(side, s, d, contract), r);
            || fate.Remaining?
            || (fate.Paired? && fate.origin == AuthoritativeReference)
            || (fate.Terminal? && fate.outcome.reason == DuplicateReference)
  {
    if key :| Carries(r, contract, key) {
      OpenReferenceFate(side, s, d, contract, r, key);
    } else {
      OpenWithoutReference(side, s, d, contract, r);
    }
  }

  lemma LinkFate(side: RecordSide, s: Snapshot, d: Decisions, contract: ReferenceContract, r: Record, y: Id)
    requires s.Valid() && d.Valid() && r in RecordsOf(side, s) && r.state != Cancelled && Relates(side, d.manual, r.id, y)
    ensures FateOf(ViewOf(side, s, d, contract), r) ==
            if Standing(OppositeOf(side, s), y) then Paired(y, Manual)
            else Terminal(Unpaired(side, ManualAttention, {y}))
  {
    ReviewedFate(side, s, d, contract, r);
  }

  lemma UnlinkedFate(side: RecordSide, s: Snapshot, d: Decisions, contract: ReferenceContract, r: Record)
    requires s.Valid() && d.Valid() && r in RecordsOf(side, s) && (r.state == Cancelled || !Linked(side, d, r.id))
    ensures var fate := FateOf(ViewOf(side, s, d, contract), r);
            !(fate.Paired? && fate.origin == Manual) && !(fate.Terminal? && fate.outcome.reason == ManualAttention)
  {
    if r.state == Cancelled {
      ReviewedFate(side, s, d, contract, r);
    } else {
      FateReason(side, s, d, contract, r);
    }
  }

  lemma FateOfLinks(side: RecordSide, s: Snapshot, d: Decisions, contract: ReferenceContract, r: Record, y: Id)
    requires s.Valid() && d.Valid() && r in RecordsOf(side, s)
    ensures var fate := FateOf(ViewOf(side, s, d, contract), r);
            && (fate == Paired(y, Manual) <==>
                  r.state != Cancelled && Relates(side, d.manual, r.id, y) && Standing(OppositeOf(side, s), y))
            && (fate == Terminal(Unpaired(side, ManualAttention, {y})) <==>
                  r.state != Cancelled && Relates(side, d.manual, r.id, y) && !Standing(OppositeOf(side, s), y))
  {
    if r.state != Cancelled && Relates(side, d.manual, r.id, y) {
      LinkFate(side, s, d, contract, r, y);
    } else if r.state != Cancelled && Linked(side, d, r.id) {
      var z: Id :| Relates(side, d.manual, r.id, z);
      LinkFate(side, s, d, contract, r, z);
      assert z in {z} && (z in {y} ==> z == y);
    } else {
      UnlinkedFate(side, s, d, contract, r);
    }
  }

  /** A manual link joins two standing records, and needs attention when the other one is missing or cancelled. */
  lemma LinkOutcome(side: RecordSide, s: Snapshot, d: Decisions, contract: ReferenceContract, pre: Preprocessed,
                    r: Record, y: Id)
    requires s.Valid() && d.Valid() && Preprocesses(s, d, contract, pre) && r in RecordsOf(side, s)
    ensures Joined(pre, side, r.id, y, Manual) <==>
            r.state != Cancelled && Relates(side, d.manual, r.id, y) && Standing(OppositeOf(side, s), y)
    ensures Ended(pre, side, r.id, ManualAttention, {y}) <==>
            r.state != Cancelled && Relates(side, d.manual, r.id, y) && !Standing(OppositeOf(side, s), y)
  {
    FateShown(side, s, d, contract, pre, r);
    FateOfLinks(side, s, d, contract, r, y);
  }

  /** Reservations hold exactly the records a reviewer named, accepted before reserved, that no link holds. */
  lemma ReservedOutcome(side: RecordSide, s: Snapshot, d: Decisions, contract: ReferenceContract, pre: Preprocessed,
                        r: Record)
    requires s.Valid() && d.Valid() && Preprocesses(s, d, contract, pre) && r in RecordsOf(side, s)
    ensures Ended(pre, side, r.id, AcceptedUnmatched, {}) <==>
            r.state != Cancelled && !Linked(side, d, r.id) && Names(d.accepted, r.id)
    ensures Ended(pre, side, r.id, ReviewerReserved, {}) <==>
            r.state != Cancelled && !Linked(side, d, r.id) && !Names(d.accepted, r.id) && Names(d.reserved, r.id)
  {
    FateShown(side, s, d, contract, pre, r);
    ReviewedFate(side, s, d, contract, r);
    if r.state != Cancelled {
      FateReason(side, s, d, contract, r);
    }
  }

  /** A record ends as a duplicate exactly when it is open and its trusted reference is repeated on either side;
      it then names every open record that carries the reference. */
  lemma DuplicateOutcome(side: RecordSide, s: Snapshot, d: Decisions, contract: ReferenceContract, pre: Preprocessed,
                         r: Record, related: set<Id>)
    requires s.Valid() && d.Valid() && Preprocesses(s, d, contract, pre) && r in RecordsOf(side, s)
    ensures Ended(pre, side, r.id, DuplicateReference, related) <==>
            && OpenRecord(side, d, r)
            && exists key :: && Carries(r, contract, key) && Repeated(side, s, d, contract, key)
                             && related == AllCarriers(s, d, contract, key)
  {
    FateShown(side, s, d, contract, pre, r);
    ReviewedFate(side, s, d, contract, r);
    if OpenRecord(side, d, r) {
      if key :| Carries(r, contract, key) {
        OpenReferenceFate(side, s, d, contract, r, key);
        forall k | Carries(r, contract, k)
          ensures k == key
        {
          OneKey(r, contract, k, key);
        }
      } else {
        OpenWithoutReference(side, s, d, contract, r);
      }
    } else if r.state != Cancelled {
      FateReason(side, s, d, contract, r);
    }
  }

  /** Two records are paired by reference exactly when both are open, carry the trusted reference alone on their
      sides, and no reviewer rejected the two. */
  lemma ReferenceOutcome(side: RecordSide, s: Snapshot, d: Decisions, contract: ReferenceContract, pre: Preprocessed,
                         r: Record, y: Id)
    requires s.Valid() && d.Valid() && Preprocesses(s, d, contract, pre) && r in RecordsOf(side, s)
    ensures Joined(pre, side, r.id, y, AuthoritativeReference) <==>
            && OpenRecord(side, d, r)
            && exists key :: Carries(r, contract, key) && SoleBoth(side, s, d, contract, key, r, y)
  {
    FateShown(side, s, d, contract, pre, r);
    ReviewedFate(side, s, d, contract, r);
    if OpenRecord(side, d, r) {
      if key :| Carries(r, contract, key) {
        OpenPairFate(side, s, d, contract, r, key, y);
        forall k | Carries(r, contract, k)
          ensures k == key
        {
          OneKey(r, contract, k, key);
        }
      } else {
        OpenWithoutReference(side, s, d, contract, r);
      }
    } else if r.state != Cancelled {
      FateReason(side, s, d, contract, r);
    }
  }

  /** What is left for matching: open records whose trusted reference, if any, is neither repeated nor makes a pair. */
  lemma RemainingOutcome(side: RecordSide, s: Snapshot, d: Decisions, contract: ReferenceContract, pre: Preprocessed,
                         r: Record)
    requires s.Valid() && d.Valid() && Preprocesses(s, d, contract, pre) && r in RecordsOf(side, s)
    ensures r.id in Ids(match side case LeftSide => pre.remainingLeft case RightSide => pre.remainingRight) <==>
            && OpenRecord(side, d, r)
            && forall key :: Carries(r, contract, key) ==>
                 !Repeated(side, s, d, contract, key) && forall y :: !SoleBoth(side, s, d, contract, key, r, y)
  {
    FateShown(side, s, d, contract, pre, r);
    ReviewedFate(side, s, d, contract, r);
    if OpenRecord(side, d, r) {
      OpenRemaining(side, s, d, contract, r);
    } else if r.state != Cancelled {
      FateReason(side, s, d, contract, r);
    }
  }

  lemma OpenRemaining(side: RecordSide, s: Snapshot, d: Decisions, contract: ReferenceContract, r: Record)
    requires s.Valid() && r in RecordsOf(side, s) && OpenRecord(side, d, r)
    ensures OpenFate(ViewOf(side, s, d, contract), r) == Remaining <==>
            forall key :: Carries(r, contract, key) ==>
              !Repeated(side, s, d, contract, key) && forall y :: !SoleBoth(side, s, d, contract, key, r, y)
  {
    if key :| Carries(r, contract, key) {
      OpenReferenceFate(side, s, d, contract, r, key);
      forall y
        ensures OpenFate(ViewOf(side, s, d, contract), r) == Paired(y, AuthoritativeReference) <==>
                SoleBoth(side, s, d, contract, key, r, y)
      {
        OpenPairFate(side, s, d, contract, r, key, y);
      }
      forall k | Carries(r, contract, k)
        ensures k == key
      {
        OneKey(r, contract, k, key);
      }
    } else {
      OpenWithoutReference(side, s, d, contract, r);
    }
  }

  /** The reported conflicts are exactly the references that are repeated on a side, with all their open carriers. */
  lemma ConflictsReported(s: Snapshot, d: Decisions, contract: ReferenceContract,
                          conflicts: map<string, ReferenceConflict>, key: string)
    requires s.Valid() && ConflictsAre(s, d, contract, conflicts)
    ensures key in conflicts <==> Repeated(LeftSide, s, d, contract, key)
    ensures key in conflicts ==>
              && conflicts[key].lefts == OpenCarriers(LeftSide, s, d, contract, key)
              && conflicts[key].rights == OpenCarriers(RightSide, s, d, contract, key)
  {
    var v := LeftView(s, d, contract);
    MyCarriers(LeftSide, s, d, contract, key);
    TheirCarriers(LeftSide, s, d, contract, key);
    assert ConflictIs(Carriers(s.left, MyOpen(v), contract, key), Carriers(s.right, TheirOpen(v), contract, key),
                      conflicts, key);
  }

  /** A reviewer's relationship between the two records, whether kept or rejected. */
  ghost predicate Reviewed(d: Decisions, e: Edge) {
    exists m :: (m in d.manual || m in d.rejected) && m.edge == e
  }

  ghost predicate Among(records: seq<Record>, x: Id) {
    exists r :: r in records && r.id == x
  }

  /** Relationships face the right way when none starts at a right record or ends at a left one. */
  lemma OrientationMeans(s: Snapshot, d: Decisions)
    ensures Oriented(s, d) <==>
            forall e :: Reviewed(d, e) ==> !Among(s.right, e.left) && !Among(s.left, e.right)
  {
    if Oriented(s, d) {
      forall e | Reviewed(d, e)
        ensures !Among(s.right, e.left) && !Among(s.left, e.right)
      {
        var m :| (m in d.manual || m in d.rejected) && m.edge == e;
        assert m in d.manual + d.rejected;
      }
    } else {
      var m :| m in d.manual + d.rejected && !(m.edge.left !in Ids(s.right) && m.edge.right !in Ids(s.left));
      assert Reviewed(d, m.edge);
      assert Among(s.right, m.edge.left) || Among(s.left, m.edge.right);
    }
  }

  /** The prohibitions handed to matching are exactly the rejected relationships between two records of the run. */
  lemma ProhibitionsMean(s: Snapshot, d: Decisions, contract: ReferenceContract, pre: Preprocessed, e: Edge)
    requires Preprocesses(s, d, contract, pre)
    ensures e in pre.prohibited <==>
            Relates(LeftSide, d.rejected, e.left, e.right) && Among(s.left, e.left) && Among(s.right, e.right)
  {
    assert e == EdgeBetween(LeftSide, e.left, e.right);
  }

  ghost predicate InPair(pre: Preprocessed, side: RecordSide, x: Id) {
    exists p, y :: p in pre.pairs && p.edge == EdgeBetween(side, x, y)
  }

  ghost predicate Waits(pre: Preprocessed, side: RecordSide, x: Id) {
    match side
    case LeftSide => Among(pre.remainingLeft, x)
    case RightSide => Among(pre.remainingRight, x)
  }

  ghost predicate Ends(pre: Preprocessed, side: RecordSide, x: Id) {
    x in pre.terminal && pre.terminal[x].side == side
  }

  /** Every input record is in a pair, ended or waiting, and in one of the three only; nothing else is. */
  lemma PlacedOnce(side: RecordSide, s: Snapshot, d: Decisions, contract: ReferenceContract, pre: Preprocessed, x: Id)
    requires Preprocesses(s, d, contract, pre)
    ensures Among(RecordsOf(side, s), x) <==> InPair(pre, side, x) || Ends(pre, side, x) || Waits(pre, side, x)
    ensures !(InPair(pre, side, x) && Ends(pre, side, x)) && !(InPair(pre, side, x) && Waits(pre, side, x))
    ensures !(Ends(pre, side, x) && Waits(pre, side, x))
  {
    var remaining := match side case LeftSide => pre.remainingLeft case RightSide => pre.remainingRight;
    assert SidePartitioned(side, RecordsOf(side, s), remaining, pre.pairs, pre.terminal);
    assert InPair(pre, side, x) <==> x in PairedIds(side, pre.pairs) by {
      if InPair(pre, side, x) {
        var p, y: Id :| p in pre.pairs && p.edge == EdgeBetween(side, x, y);
        assert EndOf(side, p.edge) == x;
      }
      if x in PairedIds(side, pre.pairs) {
        var p :| p in pre.pairs && EndOf(side, p.edge) == x;
        assert p.edge == EdgeBetween(side, x, EndOf(Across(side), p.edge));
      }
    }
    assert Ends(pre, side, x) <==> x in TerminalIds(side, pre.terminal);
    assert Waits(pre, side, x) <==> x in Ids(remaining);
    assert Among(RecordsOf(side, s), x) <==> x in Ids(RecordsOf(side, s));
  }
}
