/** Canonical ascending order of identities and edges. */
module Ordering {
  import opened Matchings
  import opened Domain

  ghost predicate IsLeast(m: Id, s: set<Id>) {
    m in s && forall x :: x in s ==> m <= x
  }

  lemma {:induction false} LeastExists(s: set<Id>)
    requires s != {}
    ensures exists m :: IsLeast(m, s)
  {
    var y :| y in s;
    var t := s - {y};
    if t == {} {
      assert s == {y};
      assert IsLeast(y, s);
    } else {
      LeastExists(t);
      var m :| IsLeast(m, t);
      var least := if y < m then y else m;
      forall x | x in s
        ensures least <= x
      {
        assert x == y || x in t;
      }
      assert IsLeast(least, s);
    }
  }

  function Least(s: set<Id>): (m: Id)
    requires s != {}
    ensures IsLeast(m, s)
  {
    LeastExists(s);
    var m :| m in s && forall x :: x in s ==> m <= x;
    m
  }

  function SortedIds(s: set<Id>): seq<Id> {
    if s == {} then [] else [Least(s)] + SortedIds(s - {Least(s)})
  }

  ghost predicate Increasing(ids: seq<Id>) {
    forall i, j :: 0 <= i < j < |ids| ==> ids[i] < ids[j]
  }

  lemma {:induction false} SortedIdsAre(s: set<Id>)
    ensures forall x :: x in SortedIds(s) <==> x in s
    ensures Increasing(SortedIds(s))
    ensures |SortedIds(s)| == |s|
  {
    if s != {} {
      SortedIdsAre(s - {Least(s)});
      LeastFirst(s, Least(s), SortedIds(s - {Least(s)}));
    }
  }

  lemma LeastFirst(s: set<Id>, m: Id, rest: seq<Id>)
    requires IsLeast(m, s) && Increasing(rest) && |rest| == |s - {m}|
    requires forall x :: x in rest <==> x in s - {m}
    ensures forall x :: x in [m] + rest <==> x in s
    ensures Increasing([m] + rest) && |[m] + rest| == |s|
  {
    assert s == (s - {m}) + {m};
    assert forall x :: x in [m] + rest <==> x == m || x in rest;
    IncreasingFrom(m, rest);
  }

  lemma IncreasingFrom(m: Id, rest: seq<Id>)
    requires Increasing(rest) && forall x :: x in rest ==> m < x
    ensures Increasing([m] + rest)
  {
    var all := [m] + rest;
    forall i, j | 0 <= i < j < |all|
      ensures all[i] < all[j]
    {
      assert all[j] == rest[j - 1] && rest[j - 1] in rest;
    }
  }

  function Lefts(edges: set<Edge>): set<Id> {
    set e | e in edges :: e.left
  }

  function Rights(edges: set<Edge>): set<Id> {
    set e | e in edges :: e.right
  }

  predicate Before(e: Edge, f: Edge) {
    e.left < f.left || (e.left == f.left && e.right < f.right)
  }

  ghost predicate Ascending(edges: seq<Edge>) {
    forall i, j :: 0 <= i < j < |edges| ==> Before(edges[i], edges[j])
  }

  method SortedRow(edges: set<Edge>, left: Id, rights: seq<Id>) returns (row: seq<Edge>)
    requires Increasing(rights)
    ensures forall e :: e in row <==> e in edges && e.left == left && e.right in rights
    ensures Ascending(row)
  {
    row := [];
    for j := 0 to |rights|
      invariant forall e :: e in row <==> e in edges && e.left == left && e.right in rights[..j]
      invariant Ascending(row)
    {
      assert rights[..j + 1] == rights[..j] + [rights[j]];
      var e := Edge(left, rights[j]);
      if e in edges {
        forall a | 0 <= a < |row|
          ensures Before(row[a], e)
        {
          assert row[a] in row;
        }
        row := row + [e];
      }
    }
    assert rights[..|rights|] == rights;
  }

  lemma RowsAscend(sorted: seq<Edge>, row: seq<Edge>)
    requires Ascending(sorted) && Ascending(row)
    requires forall e, f :: e in sorted && f in row ==> e.left < f.left
    ensures Ascending(sorted + row)
  {
    var all := sorted + row;
    forall i, j | 0 <= i < j < |all|
      ensures Before(all[i], all[j])
    {
      if i < |sorted| <= j {
        assert all[i] in sorted && all[j] in row;
      }
    }
  }

  lemma RowJoins(edges: set<Edge>, lefts: seq<Id>, rights: seq<Id>, i: nat, sorted: seq<Edge>, row: seq<Edge>)
    requires i < |lefts| && Increasing(lefts)
    requires forall e :: e in edges ==> e.right in rights
    requires Ascending(sorted) && Ascending(row)
    requires forall e :: e in sorted <==> e in edges && e.left in lefts[..i]
    requires forall e :: e in row <==> e in edges && e.left == lefts[i] && e.right in rights
    ensures Ascending(sorted + row)
    ensures forall e :: e in sorted + row <==> e in edges && e.left in lefts[..i + 1]
  {
    assert lefts[..i + 1] == lefts[..i] + [lefts[i]];
    RowsAscend(sorted, row);
  }

  /** The edges in ascending (left, right) order. */
  method SortedEdges(edges: set<Edge>) returns (sorted: seq<Edge>)
    ensures forall e :: e in sorted <==> e in edges
    ensures Ascending(sorted)
    ensures forall i, j :: 0 <= i < j < |sorted| ==>
              || sorted[i].left < sorted[j].left
              || (sorted[i].left == sorted[j].left && sorted[i].right < sorted[j].right)
  {
    var lefts, rights := SortedIds(Lefts(edges)), SortedIds(Rights(edges));
    SortedIdsAre(Lefts(edges));
    SortedIdsAre(Rights(edges));
    sorted := [];
    for i := 0 to |lefts|
      invariant forall e :: e in sorted <==> e in edges && e.left in lefts[..i]
      invariant Ascending(sorted)
    {
      var row := SortedRow(edges, lefts[i], rights);
      RowJoins(edges, lefts, rights, i, sorted, row);
      sorted := sorted + row;
    }
    assert lefts[..|lefts|] == lefts;
    assert forall i, j :: 0 <= i < j < |sorted| ==> Before(sorted[i], sorted[j]);
  }
}
