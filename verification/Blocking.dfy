/** Blocking passes: which record pairs a pass admits, and how records are grouped for it. */
module Blocking {
  import opened Matchings
  import opened Domain

  /** The values a blocking pass compares; a field the pass does not require is left out. */
  datatype Key = Key(
    instrument: Option<string>, side: Option<TradeSide>, currency: Option<string>, alias: Option<string>)

  function Reason(p: BlockingPass): string {
    p.passId + "@" + p.version
  }

  /** Whether a record carries every field the pass requires. */
  predicate Groups(p: BlockingPass, r: Record) {
    && (p.window.Some? ==> r.executedAt.Some?)
    && (p.requireInstrument ==> r.instrument.Some?)
    && (p.requireSide ==> r.side.Some?)
    && (p.requireCurrency ==> r.currency.Some?)
    && (p.useAlias ==> r.alias.Some?)
  }

  function KeyOf(p: BlockingPass, r: Record): Key {
    Key(if p.requireInstrument then r.instrument else None,
        if p.requireSide then r.side else None,
        if p.requireCurrency then r.currency else None,
        if p.useAlias then r.alias else None)
  }

  predicate InGroup(p: BlockingPass, key: Key, r: Record) {
    Groups(p, r) && KeyOf(p, r) == key
  }

  predicate InWindow(p: BlockingPass, left: Record, right: Record)
    requires Groups(p, left) && Groups(p, right)
  {
    p.window.Some? ==>
      TimeOf(left) - p.window.value <= TimeOf(right) <= TimeOf(left) + p.window.value
  }

  /** The pairwise meaning of a blocking pass, with no grouping or ordering. */
  predicate Admits(p: BlockingPass, left: Record, right: Record) {
    Groups(p, left) && Groups(p, right) && KeyOf(p, left) == KeyOf(p, right) && InWindow(p, left, right)
  }

  // ----- ordering a group -----

  /** The time of a record; only asked of records that have one. */
  function TimeOf(r: Record): int {
    if r.executedAt.Some? then r.executedAt.value else 0
  }

  predicate NotAfter(p: BlockingPass, a: Record, b: Record) {
    if p.window.Some? && TimeOf(a) != TimeOf(b) then TimeOf(a) < TimeOf(b) else a.id <= b.id
  }

  ghost predicate Ordered(p: BlockingPass, s: seq<Record>) {
    && (forall r :: r in s ==> Groups(p, r))
    && forall i, j :: 0 <= i < j < |s| ==> NotAfter(p, s[i], s[j])
  }

  function Insert(p: BlockingPass, r: Record, s: seq<Record>): seq<Record> {
    if s == [] || NotAfter(p, r, s[0]) then [r] + s else [s[0]] + Insert(p, r, s[1..])
  }

  lemma {:induction false} InsertKeepsMembers(p: BlockingPass, r: Record, s: seq<Record>)
    ensures multiset(Insert(p, r, s)) == multiset{r} + multiset(s)
  {
    if !(s == [] || NotAfter(p, r, s[0])) {
      InsertKeepsMembers(p, r, s[1..]);
      assert s == [s[0]] + s[1..];
    }
  }

  lemma OrderedFrom(p: BlockingPass, first: Record, rest: seq<Record>)
    requires Groups(p, first) && Ordered(p, rest)
    requires forall x :: x in rest ==> NotAfter(p, first, x)
    ensures Ordered(p, [first] + rest)
  {
    var all := [first] + rest;
    forall i, j | 0 <= i < j < |all|
      ensures NotAfter(p, all[i], all[j])
    {
      assert all[j] == rest[j - 1] && rest[j - 1] in rest;
    }
  }

  lemma {:induction false} InsertKeepsOrder(p: BlockingPass, r: Record, s: seq<Record>)
    requires Groups(p, r) && Ordered(p, s)
    ensures multiset(Insert(p, r, s)) == multiset{r} + multiset(s)
    ensures Ordered(p, Insert(p, r, s))
  {
    InsertKeepsMembers(p, r, s);
    if s == [] || NotAfter(p, r, s[0]) {
      forall x | x in s
        ensures NotAfter(p, r, x)
      {
        var i :| 0 <= i < |s| && s[i] == x;
        assert i > 0 ==> NotAfter(p, s[0], s[i]);
      }
      OrderedFrom(p, r, s);
    } else {
      var rest := Insert(p, r, s[1..]);
      InsertKeepsOrder(p, r, s[1..]);
      forall x | x in rest
        ensures NotAfter(p, s[0], x)
      {
        assert x in multiset(rest);
        assert x == r || x in s[1..];
      }
      OrderedFrom(p, s[0], rest);
    }
  }

  lemma UniqueIdsByMembers(s: seq<Record>, t: seq<Record>)
    requires UniqueIds(s) && multiset(s) == multiset(t)
    ensures UniqueIds(t)
  {
    forall i, j | 0 <= i < j < |t|
      ensures t[i].id != t[j].id
    {
      if t[i].id == t[j].id {
        assert t[i] in multiset(t) && t[j] in multiset(t);
        assert t[i] in s && t[j] in s;
        var a :| 0 <= a < |s| && s[a] == t[i];
        var b :| 0 <= b < |s| && s[b] == t[j];
        if a == b {
          DuplicateCounts(t, i, j);
          UniqueCounts(s, a);
        }
      }
    }
  }

  lemma DuplicateCounts(t: seq<Record>, i: nat, j: nat)
    requires i < j < |t| && t[i] == t[j]
    ensures multiset(t)[t[i]] >= 2
  {
    assert t == t[..j] + [t[j]] + t[j + 1..];
    assert t[i] in t[..j];
  }

  lemma UniqueCounts(s: seq<Record>, a: nat)
    requires UniqueIds(s) && a < |s|
    ensures multiset(s)[s[a]] == 1
  {
    assert s == s[..a] + [s[a]] + s[a + 1..];
    assert s[a] !in s[..a] && s[a] !in s[a + 1..];
  }

  // ----- grouping -----

  lemma FirstsAgree(p: BlockingPass, a: seq<Record>, b: seq<Record>)
    requires a != [] && Ordered(p, a) && Ordered(p, b) && UniqueIds(a)
    requires forall r :: r in a <==> r in b
    ensures b != [] && a[0] == b[0]
  {
    assert a[0] in b;
    assert b[0] in a;
    var i :| 0 <= i < |a| && a[i] == b[0];
    var j :| 0 <= j < |b| && b[j] == a[0];
    assert i > 0 ==> NotAfter(p, a[0], a[i]);
    assert j > 0 ==> NotAfter(p, b[0], b[j]);
  }

  lemma TailsAgree(a: seq<Record>, b: seq<Record>)
    requires a != [] && b != [] && a[0] == b[0] && UniqueIds(a) && UniqueIds(b)
    requires forall r :: r in a <==> r in b
    ensures forall r :: r in a[1..] <==> r in b[1..]
  {
    forall r
      ensures r in a[1..] <==> r in b[1..]
    {
      assert r in a[1..] <==> r in a && r != a[0];
      assert r in b[1..] <==> r in b && r != b[0];
    }
  }

  lemma HasMember(s: seq<Record>)
    requires s != []
    ensures exists r :: r in s
  {
    assert s[0] in s;
  }

  /** Time and identity leave one order only. */
  lemma {:induction false} OrderIsUnique(p: BlockingPass, a: seq<Record>, b: seq<Record>)
    requires Ordered(p, a) && Ordered(p, b) && UniqueIds(a) && UniqueIds(b)
    requires forall r :: r in a <==> r in b
    ensures a == b
  {
    if a == [] {
      if b != [] {
        HasMember(b);
      }
    } else {
      FirstsAgree(p, a, b);
      TailsAgree(a, b);
      OrderIsUnique(p, a[1..], b[1..]);
      assert a == [a[0]] + a[1..] && b == [b[0]] + b[1..];
    }
  }

  /** One group: exactly the records of the pass with that key, each once, in time order. */
  ghost predicate GroupFor(p: BlockingPass, key: Key, records: seq<Record>, group: seq<Record>) {
    && group != []
    && UniqueIds(group)
    && Ordered(p, group)
    && forall r :: r in group <==> r in records && InGroup(p, key, r)
  }

  ghost predicate SortedGroupIs(p: BlockingPass, key: Key, records: set<Record>, group: seq<Record>) {
    && UniqueIds(group)
    && Ordered(p, group)
    && forall r :: r in group <==> r in records && InGroup(p, key, r)
  }

  /** The group as a function of the records alone, in whatever order they come. */
  ghost function SortedGroup(p: BlockingPass, key: Key, records: set<Record>): seq<Record> {
    if exists group :: SortedGroupIs(p, key, records, group) then
      var group :| SortedGroupIs(p, key, records, group);
      group
    else []
  }

  function RecordSet(records: seq<Record>): set<Record> {
    set r | r in records
  }

  lemma GroupIsSortedGroup(p: BlockingPass, key: Key, records: seq<Record>, group: seq<Record>)
    requires GroupFor(p, key, records, group)
    ensures group == SortedGroup(p, key, RecordSet(records))
  {
    assert SortedGroupIs(p, key, RecordSet(records), group);
    OrderIsUnique(p, group, SortedGroup(p, key, RecordSet(records)));
  }

  /** The keys of the groups a pass forms. */
  function KeysOf(p: BlockingPass, records: set<Record>): set<Key> {
    set r | r in records && Groups(p, r) :: KeyOf(p, r)
  }

  ghost predicate Inhabited(p: BlockingPass, key: Key, records: seq<Record>) {
    exists r :: r in records && InGroup(p, key, r)
  }

  ghost predicate Grouping(p: BlockingPass, records: seq<Record>, groups: map<Key, seq<Record>>) {
    && (forall key :: key in groups <==> Inhabited(p, key, records))
    && (forall key :: key in groups ==> GroupFor(p, key, records, groups[key]))
  }

  function AddToGroup(p: BlockingPass, groups: map<Key, seq<Record>>, r: Record): map<Key, seq<Record>> {
    if !Groups(p, r) then groups
    else
      var key := KeyOf(p, r);
      groups[key := Insert(p, r, if key in groups then groups[key] else [])]
  }

  method GroupRecords(records: seq<Record>, p: BlockingPass) returns (groups: map<Key, seq<Record>>)
    requires UniqueIds(records)
    ensures Grouping(p, records, groups)
  {
    groups := map[];
    for i := 0 to |records|
      invariant Grouping(p, records[..i], groups)
    {
      assert records[..i + 1] == records[..i] + [records[i]];
      GroupingGrows(p, records[..i], groups, records[i]);
      groups := AddToGroup(p, groups, records[i]);
    }
    assert records[..|records|] == records;
  }

  lemma GroupingGrows(p: BlockingPass, records: seq<Record>, groups: map<Key, seq<Record>>, r: Record)
    requires UniqueIds(records + [r]) && Grouping(p, records, groups)
    ensures Grouping(p, records + [r], AddToGroup(p, groups, r))
  {
    InhabitedGrows(p, records, r);
    var after := AddToGroup(p, groups, r);
    forall key | key in after
      ensures GroupFor(p, key, records + [r], after[key])
    {
      if InGroup(p, key, r) {
        if key in groups {
          assert GroupFor(p, key, records, groups[key]);
        } else {
          assert !Inhabited(p, key, records);
        }
        GroupGrows(p, key, records, if key in groups then groups[key] else [], r);
      } else {
        assert GroupFor(p, key, records, groups[key]);
      }
    }
  }

  lemma InhabitedGrows(p: BlockingPass, records: seq<Record>, r: Record)
    ensures forall k :: Inhabited(p, k, records + [r]) <==> Inhabited(p, k, records) || InGroup(p, k, r)
  {
    forall k
      ensures Inhabited(p, k, records + [r]) <==> Inhabited(p, k, records) || InGroup(p, k, r)
    {
      if Inhabited(p, k, records) {
        var x :| x in records && InGroup(p, k, x);
        assert x in records + [r];
      }
      assert r in records + [r];
    }
  }

  lemma GroupGrows(p: BlockingPass, key: Key, records: seq<Record>, before: seq<Record>, r: Record)
    requires UniqueIds(records + [r]) && InGroup(p, key, r)
    requires UniqueIds(before) && Ordered(p, before)
    requires forall x :: x in before <==> x in records && InGroup(p, key, x)
    ensures GroupFor(p, key, records + [r], Insert(p, r, before))
  {
    InsertKeepsOrder(p, r, before);
    var group := Insert(p, r, before);
    forall x | x in before
      ensures x.id != r.id
    {
      var i :| 0 <= i < |records| && records[i] == x;
      assert (records + [r])[i] == x && (records + [r])[|records|] == r;
    }
    assert UniqueIds([r] + before);
    assert multiset([r] + before) == multiset(group);
    UniqueIdsByMembers([r] + before, group);
    forall x
      ensures x in group <==> x in records + [r] && InGroup(p, key, x)
    {
      assert x in group <==> x in multiset(group);
      assert x in group <==> x == r || x in before;
    }
  }

  // ----- the time window of one left record -----

  function BisectLeft(times: seq<int>, x: int): (i: nat)
    ensures i <= |times|
    ensures forall k :: 0 <= k < i ==> times[k] < x
    ensures i < |times| ==> x <= times[i]
  {
    if times == [] || x <= times[0] then 0 else 1 + BisectLeft(times[1..], x)
  }

  function BisectRight(times: seq<int>, x: int): (i: nat)
    ensures i <= |times|
    ensures forall k :: 0 <= k < i ==> times[k] <= x
    ensures i < |times| ==> x < times[i]
  {
    if times == [] || x < times[0] then 0 else 1 + BisectRight(times[1..], x)
  }

  function TimesOf(records: seq<Record>): (times: seq<int>)
    ensures |times| == |records| && forall i :: 0 <= i < |times| ==> times[i] == TimeOf(records[i])
  {
    seq(|records|, i requires 0 <= i < |records| => TimeOf(records[i]))
  }

  ghost predicate SortedTimes(times: seq<int>) {
    forall i, j :: 0 <= i < j < |times| ==> times[i] <= times[j]
  }

  /** In sorted times, bisection marks off exactly the positions between the two bounds. */
  lemma BisectionIsRange(times: seq<int>, low: int, high: int, k: nat)
    requires SortedTimes(times) && k < |times|
    ensures low <= times[k] <= high <==> BisectLeft(times, low) <= k < BisectRight(times, high)
  {
    var first, last := BisectLeft(times, low), BisectRight(times, high);
    if first <= k {
      assert times[first] <= times[k];
    }
    if last <= k {
      assert times[last] <= times[k];
    }
  }

  function Slice(records: seq<Record>, first: nat, last: nat): seq<Record>
    requires first <= |records| && last <= |records|
  {
    if last <= first then [] else records[first..last]
  }

  function FirstInWindow(window: nat, left: Record, rights: seq<Record>): (first: nat)
    ensures first <= |rights|
  {
    BisectLeft(TimesOf(rights), TimeOf(left) - window)
  }

  function LastInWindow(window: nat, left: Record, rights: seq<Record>): (last: nat)
    ensures last <= |rights|
  {
    BisectRight(TimesOf(rights), TimeOf(left) + window)
  }

  /** The part of a group that bisection selects. */
  function WindowOf(p: BlockingPass, left: Record, rights: seq<Record>): seq<Record> {
    if p.window.None? then rights
    else
      Slice(rights, FirstInWindow(p.window.value, left, rights), LastInWindow(p.window.value, left, rights))
  }

  lemma BisectionIsWindow(p: BlockingPass, left: Record, rights: seq<Record>, k: nat)
    requires Groups(p, left) && Ordered(p, rights) && p.window.Some? && k < |rights|
    ensures Groups(p, rights[k])
    ensures InWindow(p, left, rights[k]) <==>
            FirstInWindow(p.window.value, left, rights) <= k < LastInWindow(p.window.value, left, rights)
  {
    assert rights[k] in rights;
    BisectionIsRange(TimesOf(rights), TimeOf(left) - p.window.value, TimeOf(left) + p.window.value, k);
  }

  /** Bisection of a time-ordered group selects exactly the time window, each record once. */
  lemma WindowIsInWindow(p: BlockingPass, left: Record, rights: seq<Record>)
    requires Groups(p, left) && Ordered(p, rights) && UniqueIds(rights)
    ensures forall r :: r in WindowOf(p, left, rights) <==> r in rights && InWindow(p, left, r)
    ensures UniqueIds(WindowOf(p, left, rights))
  {
    if p.window.Some? {
      var first, last := FirstInWindow(p.window.value, left, rights), LastInWindow(p.window.value, left, rights);
      SliceMembers(rights, first, last);
      forall r
        ensures r in Slice(rights, first, last) <==> r in rights && InWindow(p, left, r)
      {
        if r in rights {
          var k :| 0 <= k < |rights| && rights[k] == r;
          BisectionIsWindow(p, left, rights, k);
        }
        if k: nat :| first <= k < last && rights[k] == r {
          BisectionIsWindow(p, left, rights, k);
        }
      }
    }
  }

  lemma KeysAreGrouped(p: BlockingPass, records: seq<Record>, groups: map<Key, seq<Record>>)
    requires Grouping(p, records, groups)
    ensures groups.Keys == KeysOf(p, RecordSet(records))
  {
    forall key
      ensures key in groups <==> key in KeysOf(p, RecordSet(records))
    {
      if Inhabited(p, key, records) {
        var r :| r in records && InGroup(p, key, r);
        assert r in RecordSet(records);
      }
    }
  }

  lemma SliceMembers(s: seq<Record>, first: nat, last: nat)
    requires first <= |s| && last <= |s| && UniqueIds(s)
    ensures forall r :: r in Slice(s, first, last) <==> exists k: nat :: first <= k < last && s[k] == r
    ensures UniqueIds(Slice(s, first, last))
  {
    forall r
      ensures r in Slice(s, first, last) <==> exists k: nat :: first <= k < last && s[k] == r
    {
      if k: nat :| first <= k < last && s[k] == r {
        assert Slice(s, first, last)[k - first] == r;
      }
    }
  }

  // ----- what a pass compares, field by field -----

  /** The record has a value for every field the pass requires. */
  ghost predicate HasRequired(p: BlockingPass, r: Record) {
    && (p.requireInstrument ==> r.instrument != None) && (p.requireSide ==> r.side != None)
    && (p.requireCurrency ==> r.currency != None) && (p.useAlias ==> r.alias != None)
    && (p.window != None ==> r.executedAt != None)
  }

  /** The two records have the same value in every field the pass requires. */
  ghost predicate SameRequired(p: BlockingPass, a: Record, b: Record) {
    && (p.requireInstrument ==> a.instrument == b.instrument) && (p.requireSide ==> a.side == b.side)
    && (p.requireCurrency ==> a.currency == b.currency) && (p.useAlias ==> a.alias == b.alias)
  }

  /** With a window, the two times are at most the window apart. */
  ghost predicate CloseInTime(p: BlockingPass, a: Record, b: Record)
    requires HasRequired(p, a) && HasRequired(p, b)
  {
    p.window.Some? ==>
      && a.executedAt.value - b.executedAt.value <= p.window.value
      && b.executedAt.value - a.executedAt.value <= p.window.value
  }

  lemma SameKeyMeans(p: BlockingPass, a: Record, b: Record)
    ensures Groups(p, a) <==> HasRequired(p, a)
    ensures KeyOf(p, a) == KeyOf(p, b) <==> SameRequired(p, a, b)
  {
  }

  /** A pass lets two records meet exactly when they agree on every field it requires, within its window. */
  lemma AdmitsMeans(p: BlockingPass, a: Record, b: Record)
    ensures Admits(p, a, b) <==>
            HasRequired(p, a) && HasRequired(p, b) && SameRequired(p, a, b) && CloseInTime(p, a, b)
  {
    SameKeyMeans(p, a, b);
    SameKeyMeans(p, b, a);
  }

  /** Two records are in one group exactly when both have every field the pass requires, with the same values. */
  lemma GroupedMeans(p: BlockingPass, records: seq<Record>, groups: map<Key, seq<Record>>, a: Record, b: Record)
    requires Grouping(p, records, groups) && a in records && b in records
    ensures (exists key :: key in groups && a in groups[key] && b in groups[key]) <==>
            HasRequired(p, a) && HasRequired(p, b) && SameRequired(p, a, b)
  {
    SameKeyMeans(p, a, b);
    if Groups(p, a) && Groups(p, b) && KeyOf(p, a) == KeyOf(p, b) {
      InItsGroup(p, records, groups, KeyOf(p, a), a);
      InItsGroup(p, records, groups, KeyOf(p, a), b);
    }
    if key :| key in groups && a in groups[key] && b in groups[key] {
      InItsGroup(p, records, groups, key, a);
      InItsGroup(p, records, groups, key, b);
    }
  }

  lemma InItsGroup(p: BlockingPass, records: seq<Record>, groups: map<Key, seq<Record>>, key: Key, r: Record)
    requires Grouping(p, records, groups) && r in records
    ensures key in groups && r in groups[key] <==> InGroup(p, key, r)
  {
    if InGroup(p, key, r) {
      assert Inhabited(p, key, records);
    }
    if key in groups {
      assert GroupFor(p, key, records, groups[key]);
    }
  }

  /** A group is in order of time, and of identity at the same time or where the pass has no window. */
  lemma GroupOrder(p: BlockingPass, key: Key, records: seq<Record>, group: seq<Record>, i: nat, j: nat)
    requires GroupFor(p, key, records, group) && i < j < |group|
    ensures p.window.None? ==> group[i].id < group[j].id
    ensures p.window.Some? ==>
              && group[i].executedAt.Some? && group[j].executedAt.Some?
              && (|| group[i].executedAt.value < group[j].executedAt.value
                  || (group[i].executedAt == group[j].executedAt && group[i].id < group[j].id))
  {
    assert group[i] in group && group[j] in group;
    assert NotAfter(p, group[i], group[j]);
  }
}
