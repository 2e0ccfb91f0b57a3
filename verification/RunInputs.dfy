/** The decision inputs a run is built from, and when the engine's constructor accepts them. */
module RunInputs {
  import opened Domain
  import Matchings
  import References
  import opened Resolutions

  /** What one active revision contributes, given which logical transactions the run observes. */
  function ManualOf(b: Book, observed: map<Key, Key>, r: Key): Option<References.Relationship> {
    if r in b.revisions && b.revisions[r].authority.Some? && b.revisions[r].authority.value.Link? then
      var a := b.revisions[r].authority.value;
      if a.left in observed && a.right in observed then
        Some(References.Relationship(b.revisions[r].decision, Matchings.Edge(observed[a.left], observed[a.right])))
      else None
    else None
  }

  /** A link with only one endpoint in the run reserves that endpoint. */
  function ReservedOf(b: Book, observed: map<Key, Key>, r: Key): Option<References.Single> {
    if r in b.revisions && b.revisions[r].authority.Some? && b.revisions[r].authority.value.Link? then
      var a := b.revisions[r].authority.value;
      if a.left in observed && a.right !in observed then Some(References.Single(b.revisions[r].decision, observed[a.left]))
      else if a.left !in observed && a.right in observed then Some(References.Single(b.revisions[r].decision, observed[a.right]))
      else None
    else None
  }

  function AcceptedOf(b: Book, observed: map<Key, Key>, r: Key): Option<References.Single> {
    if r in b.revisions && b.revisions[r].authority.Some? && b.revisions[r].authority.value.AcceptUnmatched? &&
       b.revisions[r].authority.value.record in observed then
      Some(References.Single(b.revisions[r].decision, observed[b.revisions[r].authority.value.record]))
    else None
  }

  function RejectedOf(b: Book, observed: map<Key, Key>, r: Key): Option<References.Relationship> {
    if r in b.revisions && b.revisions[r].authority.Some? && b.revisions[r].authority.value.RejectCandidate? then
      var a := b.revisions[r].authority.value;
      if a.left in observed && a.right in observed then
        Some(References.Relationship(b.revisions[r].decision, Matchings.Edge(observed[a.left], observed[a.right])))
      else None
    else None
  }

  /** The contributions of the rows, in order. */
  function Collect<T>(rows: seq<Key>, f: Key -> Option<T>): seq<T> {
    if rows == [] then []
    else
      var last := f(rows[|rows| - 1]);
      Collect(rows[..|rows| - 1], f) + if last.Some? then [last.value] else []
  }

  function ManualIn(b: Book, observed: map<Key, Key>): Key -> Option<References.Relationship> {
    (r: Key) => ManualOf(b, observed, r)
  }

  function AcceptedIn(b: Book, observed: map<Key, Key>): Key -> Option<References.Single> {
    (r: Key) => AcceptedOf(b, observed, r)
  }

  function RejectedIn(b: Book, observed: map<Key, Key>): Key -> Option<References.Relationship> {
    (r: Key) => RejectedOf(b, observed, r)
  }

  function ReservedIn(b: Book, observed: map<Key, Key>): Key -> Option<References.Single> {
    (r: Key) => ReservedOf(b, observed, r)
  }

  function InputsOf(b: Book, observed: map<Key, Key>, rows: seq<Key>): References.Decisions {
    References.Decisions(
      Collect(rows, ManualIn(b, observed)), Collect(rows, AcceptedIn(b, observed)),
      Collect(rows, RejectedIn(b, observed)), Collect(rows, ReservedIn(b, observed)))
  }

  /** The service's loop over the frozen decision rows. */
  method BuildDecisionInputs(b: Book, observed: map<Key, Key>, rows: seq<Key>) returns (d: References.Decisions)
    requires forall r :: r in rows ==> r in b.revisions
    ensures d == InputsOf(b, observed, rows)
  {
    var manual, accepted, rejected, reserved := [], [], [], [];
    for i := 0 to |rows|
      invariant manual == Collect(rows[..i], ManualIn(b, observed))
      invariant accepted == Collect(rows[..i], AcceptedIn(b, observed))
      invariant rejected == Collect(rows[..i], RejectedIn(b, observed))
      invariant reserved == Collect(rows[..i], ReservedIn(b, observed))
    {
      assert rows[..i + 1][..i] == rows[..i];
      var row := b.revisions[rows[i]];
      if row.authority.Some? {
        match row.authority.value
        case Link(left, right) =>
          if left in observed && right in observed {
            manual := manual + [References.Relationship(row.decision, Matchings.Edge(observed[left], observed[right]))];
          } else if left in observed || right in observed {
            reserved := reserved + [References.Single(row.decision, if left in observed then observed[left] else observed[right])];
          }
        case AcceptUnmatched(record, side) =>
          if record in observed {
            accepted := accepted + [References.Single(row.decision, observed[record])];
          }
        case RejectCandidate(left, right) =>
          if left in observed && right in observed {
            rejected := rejected + [References.Relationship(row.decision, Matchings.Edge(observed[left], observed[right]))];
          }
      }
    }
    assert rows[..|rows|] == rows;
    d := References.Decisions(manual, accepted, rejected, reserved);
  }

  // ----- positions -----

  ghost predicate Rising(positions: seq<nat>, limit: nat) {
    && (forall i :: 0 <= i < |positions| ==> positions[i] < limit)
    && forall i, j :: 0 <= i < j < |positions| ==> positions[i] < positions[j]
  }

  /** Every collected item comes from its own row, in order. */
  ghost predicate ComesFrom<T>(rows: seq<Key>, f: Key -> Option<T>, at: seq<nat>) {
    && |at| == |Collect(rows, f)| && Rising(at, |rows|)
    && forall i :: 0 <= i < |at| ==> f(rows[at[i]]) == Some(Collect(rows, f)[i])
  }

  lemma {:induction false} Positions<T>(rows: seq<Key>, f: Key -> Option<T>) returns (at: seq<nat>)
    ensures ComesFrom(rows, f, at)
  {
    if rows == [] {
      at := [];
    } else {
      var before := Positions(rows[..|rows| - 1], f);
      at := if f(rows[|rows| - 1]).Some? then before + [|rows| - 1] else before;
      OneMoreRow(rows, f, before, at);
    }
  }

  lemma OneMoreRow<T>(rows: seq<Key>, f: Key -> Option<T>, before: seq<nat>, at: seq<nat>)
    requires rows != [] && ComesFrom(rows[..|rows| - 1], f, before)
    requires at == if f(rows[|rows| - 1]).Some? then before + [|rows| - 1] else before
    ensures ComesFrom(rows, f, at)
  {
    var init := rows[..|rows| - 1];
    forall i | 0 <= i < |at|
      ensures at[i] < |rows| && f(rows[at[i]]) == Some(Collect(rows, f)[i])
    {
      if i < |before| {
        assert rows[before[i]] == init[before[i]];
        assert Collect(rows, f)[i] == Collect(init, f)[i];
      }
    }
  }

  lemma {:induction false} Collected<T>(rows: seq<Key>, f: Key -> Option<T>, i: nat)
    requires i < |rows| && f(rows[i]).Some?
    ensures f(rows[i]).value in Collect(rows, f)
  {
    if i < |rows| - 1 {
      Collected(rows[..|rows| - 1], f, i);
    }
  }

  // ----- authority over different endpoints -----

  predicate Different(ids: seq<Key>) {
    forall i, j :: 0 <= i < j < |ids| ==> ids[i] != ids[j]
  }

  /** The frozen rows: active revisions, each once, and the run's observations of different transactions differ. */
  ghost predicate Frozen(b: Book, observed: map<Key, Key>, rows: seq<Key>) {
    && Inv(b)
    && (forall r :: r in rows ==> Active(b, r))
    && Different(rows)
    && forall x, y :: x in observed && y in observed && observed[x] == observed[y] ==> x == y
  }

  /** The revision reserves a transaction the run observes as this record. */
  ghost predicate Holds(b: Book, observed: map<Key, Key>, r: Key, record: Key) {
    exists x :: x in observed && observed[x] == record && Entitled(b, r, x)
  }

  lemma HeldOnce(b: Book, observed: map<Key, Key>, rows: seq<Key>, r: Key, q: Key, record: Key)
    requires Frozen(b, observed, rows) && Holds(b, observed, r, record) && Holds(b, observed, q, record)
    ensures r == q
  {
    var x :| x in observed && observed[x] == record && Entitled(b, r, x);
    var y :| y in observed && observed[y] == record && Entitled(b, q, y);
    EntitledOnce(b, r, q, x);
  }

  lemma ManualHolds(b: Book, observed: map<Key, Key>, r: Key)
    requires Active(b, r) && ManualOf(b, observed, r).Some?
    ensures Holds(b, observed, r, ManualOf(b, observed, r).value.edge.left)
    ensures Holds(b, observed, r, ManualOf(b, observed, r).value.edge.right)
  {
    var a := b.revisions[r].authority.value;
    assert Entitled(b, r, a.left) && Entitled(b, r, a.right);
  }

  lemma SingleHolds(b: Book, observed: map<Key, Key>, r: Key)
    requires Active(b, r)
    ensures AcceptedOf(b, observed, r).Some? ==> Holds(b, observed, r, AcceptedOf(b, observed, r).value.record)
    ensures ReservedOf(b, observed, r).Some? ==> Holds(b, observed, r, ReservedOf(b, observed, r).value.record)
  {
    if AcceptedOf(b, observed, r).Some? {
      assert Entitled(b, r, b.revisions[r].authority.value.record);
    }
    if ReservedOf(b, observed, r).Some? {
      var a := b.revisions[r].authority.value;
      assert Entitled(b, r, a.left) && Entitled(b, r, a.right);
    }
  }

  // ----- decision identities -----

  datatype Kind = IsManual | IsAccepted | IsRejected | IsReserved

  function KindOf(b: Book, observed: map<Key, Key>, r: Key): Option<Kind> {
    if ManualOf(b, observed, r).Some? then Some(IsManual)
    else if AcceptedOf(b, observed, r).Some? then Some(IsAccepted)
    else if RejectedOf(b, observed, r).Some? then Some(IsRejected)
    else if ReservedOf(b, observed, r).Some? then Some(IsReserved)
    else None
  }

  /** Decision identities of rows of one kind, each once. */
  ghost predicate Drawn(b: Book, observed: map<Key, Key>, rows: seq<Key>, ids: seq<Key>, kind: Kind) {
    && Different(ids)
    && forall i :: 0 <= i < |ids| ==> FromKind(b, observed, rows, ids[i], kind)
  }

  ghost predicate FromKind(b: Book, observed: map<Key, Key>, rows: seq<Key>, id: Key, kind: Kind) {
    exists r :: r in rows && r in b.revisions && KindOf(b, observed, r) == Some(kind) && b.revisions[r].decision == id
  }

  lemma RowsDiffer(b: Book, observed: map<Key, Key>, rows: seq<Key>, r: Key, q: Key)
    requires Frozen(b, observed, rows) && r in rows && q in rows && b.revisions[r].decision == b.revisions[q].decision
    ensures r == q
  {
    assert Current(b, r) && Current(b, q);
  }

  lemma DrawnFrom<T>(b: Book, observed: map<Key, Key>, rows: seq<Key>, f: Key -> Option<T>, ids: seq<Key>,
                     kind: Kind, decision: T -> Key)
    requires Frozen(b, observed, rows)
    requires |ids| == |Collect(rows, f)| && forall i :: 0 <= i < |ids| ==> ids[i] == decision(Collect(rows, f)[i])
    requires forall r :: f(r).Some? ==> r in b.revisions && KindOf(b, observed, r) == Some(kind) && decision(f(r).value) == b.revisions[r].decision
    ensures Drawn(b, observed, rows, ids, kind)
  {
    var at := Positions(rows, f);
    forall i | 0 <= i < |ids|
      ensures FromKind(b, observed, rows, ids[i], kind) && ids[i] == b.revisions[rows[at[i]]].decision
    {
      assert f(rows[at[i]]) == Some(Collect(rows, f)[i]);
    }
    forall i, j | 0 <= i < j < |ids|
      ensures ids[i] != ids[j]
    {
      if ids[i] == ids[j] {
        RowsDiffer(b, observed, rows, rows[at[i]], rows[at[j]]);
      }
    }
  }

  lemma KindsApart(b: Book, observed: map<Key, Key>, rows: seq<Key>, id: Key, k: Kind, l: Kind)
    requires Frozen(b, observed, rows) && FromKind(b, observed, rows, id, k) && FromKind(b, observed, rows, id, l)
    ensures k == l
  {
    var r :| r in rows && r in b.revisions && KindOf(b, observed, r) == Some(k) && b.revisions[r].decision == id;
    var q :| q in rows && q in b.revisions && KindOf(b, observed, q) == Some(l) && b.revisions[q].decision == id;
    RowsDiffer(b, observed, rows, r, q);
  }

  lemma JoinDifferent(a: seq<Key>, b: seq<Key>)
    requires Different(a) && Different(b) && forall x :: x in a ==> x !in b
    ensures Different(a + b)
  {
    var all := a + b;
    forall i, j | 0 <= i < j < |all|
      ensures all[i] != all[j]
    {
      if i < |a| <= j {
        assert all[i] in a && all[j] in b;
      }
    }
  }

  ghost predicate FromOther(b: Book, observed: map<Key, Key>, rows: seq<Key>, ids: seq<Key>, kind: Kind) {
    forall x :: x in ids ==> exists k :: k != kind && FromKind(b, observed, rows, x, k)
  }

  lemma JoinDrawn(b: Book, observed: map<Key, Key>, rows: seq<Key>, ids: seq<Key>, more: seq<Key>, kind: Kind)
    requires Frozen(b, observed, rows) && Different(ids) && FromOther(b, observed, rows, ids, kind)
    requires Drawn(b, observed, rows, more, kind)
    ensures Different(ids + more)
  {
    forall x | x in ids
      ensures !FromKind(b, observed, rows, x, kind)
    {
      var k :| k != kind && FromKind(b, observed, rows, x, k);
      if FromKind(b, observed, rows, x, kind) {
        KindsApart(b, observed, rows, x, k, kind);
      }
    }
    JoinDifferent(ids, more);
  }

  lemma DecisionIdsDiffer(b: Book, observed: map<Key, Key>, rows: seq<Key>)
    requires Frozen(b, observed, rows)
    ensures Different(InputsOf(b, observed, rows).DecisionIds())
  {
    var d := InputsOf(b, observed, rows);
    RelationshipsDrawn(b, observed, rows, ManualIn(b, observed), d.manual, IsManual);
    SinglesDrawn(b, observed, rows, AcceptedIn(b, observed), d.accepted, IsAccepted);
    RelationshipsDrawn(b, observed, rows, RejectedIn(b, observed), d.rejected, IsRejected);
    SinglesDrawn(b, observed, rows, ReservedIn(b, observed), d.reserved, IsReserved);
    JoinFour(b, observed, rows, RelationshipIds(d.manual), SingleDecisions(d.accepted), RelationshipIds(d.rejected),
             SingleDecisions(d.reserved));
    JoinedIds(d);
  }

  function RelationshipIds(items: seq<References.Relationship>): seq<Key> {
    seq(|items|, i requires 0 <= i < |items| => items[i].decision)
  }

  function SingleDecisions(items: seq<References.Single>): seq<Key> {
    seq(|items|, i requires 0 <= i < |items| => items[i].decision)
  }

  lemma JoinedIds(d: References.Decisions)
    ensures d.DecisionIds() ==
            RelationshipIds(d.manual) + SingleDecisions(d.accepted) + RelationshipIds(d.rejected) + SingleDecisions(d.reserved)
  {
  }

  lemma RelationshipsDrawn(b: Book, observed: map<Key, Key>, rows: seq<Key>, f: Key -> Option<References.Relationship>,
                           items: seq<References.Relationship>, kind: Kind)
    requires Frozen(b, observed, rows) && items == Collect(rows, f)
    requires forall r :: f(r).Some? ==> r in b.revisions && KindOf(b, observed, r) == Some(kind) && f(r).value.decision == b.revisions[r].decision
    ensures Drawn(b, observed, rows, RelationshipIds(items), kind)
  {
    DrawnFrom(b, observed, rows, f, RelationshipIds(items), kind, (i: References.Relationship) => i.decision);
  }

  lemma SinglesDrawn(b: Book, observed: map<Key, Key>, rows: seq<Key>, f: Key -> Option<References.Single>,
                     items: seq<References.Single>, kind: Kind)
    requires Frozen(b, observed, rows) && items == Collect(rows, f)
    requires forall r :: f(r).Some? ==> r in b.revisions && KindOf(b, observed, r) == Some(kind) && f(r).value.decision == b.revisions[r].decision
    ensures Drawn(b, observed, rows, SingleDecisions(items), kind)
  {
    DrawnFrom(b, observed, rows, f, SingleDecisions(items), kind, (i: References.Single) => i.decision);
  }

  lemma JoinFour(b: Book, observed: map<Key, Key>, rows: seq<Key>, m: seq<Key>, a: seq<Key>, x: seq<Key>, s: seq<Key>)
    requires Frozen(b, observed, rows)
    requires Drawn(b, observed, rows, m, IsManual) && Drawn(b, observed, rows, a, IsAccepted)
    requires Drawn(b, observed, rows, x, IsRejected) && Drawn(b, observed, rows, s, IsReserved)
    ensures Different(m + a + x + s)
  {
    assert FromOther(b, observed, rows, m, IsAccepted);
    JoinDrawn(b, observed, rows, m, a, IsAccepted);
    assert FromOther(b, observed, rows, m + a, IsRejected);
    JoinDrawn(b, observed, rows, m + a, x, IsRejected);
    assert FromOther(b, observed, rows, m + a + x, IsReserved);
    JoinDrawn(b, observed, rows, m + a + x, s, IsReserved);
  }

  // ----- the constructor's checks -----

  lemma ManualEndsDiffer(b: Book, observed: map<Key, Key>, rows: seq<Key>)
    requires Frozen(b, observed, rows)
    ensures var manual := InputsOf(b, observed, rows).manual;
            forall i, j :: 0 <= i < j < |manual| ==>
              manual[i].edge.left != manual[j].edge.left && manual[i].edge.right != manual[j].edge.right
  {
    var f := ManualIn(b, observed);
    var manual := Collect(rows, f);
    var at := Positions(rows, f);
    forall i, j | 0 <= i < j < |manual|
      ensures manual[i].edge.left != manual[j].edge.left && manual[i].edge.right != manual[j].edge.right
    {
      ManualsApart(b, observed, rows, rows[at[i]], rows[at[j]], manual[i], manual[j]);
    }
  }

  lemma ManualsApart(b: Book, observed: map<Key, Key>, rows: seq<Key>, r: Key, q: Key, m: References.Relationship,
                     n: References.Relationship)
    requires Frozen(b, observed, rows) && r in rows && q in rows && r != q
    requires ManualOf(b, observed, r) == Some(m) && ManualOf(b, observed, q) == Some(n)
    ensures m.edge.left != n.edge.left && m.edge.right != n.edge.right
  {
    ManualHolds(b, observed, r);
    ManualHolds(b, observed, q);
    if m.edge.left == n.edge.left {
      HeldOnce(b, observed, rows, r, q, m.edge.left);
    }
    if m.edge.right == n.edge.right {
      HeldOnce(b, observed, rows, r, q, m.edge.right);
    }
  }

  /** A single reservation, whichever list it is in. */
  ghost predicate SingleFrom(b: Book, observed: map<Key, Key>, r: Key, s: References.Single) {
    AcceptedOf(b, observed, r) == Some(s) || ReservedOf(b, observed, r) == Some(s)
  }

  /** The rows the collected items come from, each once. */
  lemma Origins<T>(rows: seq<Key>, f: Key -> Option<T>) returns (origin: seq<Key>)
    requires Different(rows)
    ensures |origin| == |Collect(rows, f)| && Different(origin)
    ensures forall i :: 0 <= i < |origin| ==> origin[i] in rows && f(origin[i]) == Some(Collect(rows, f)[i])
  {
    var at := Positions(rows, f);
    origin := seq(|at|, i requires 0 <= i < |at| => rows[at[i]]);
  }

  lemma NotBoth(b: Book, observed: map<Key, Key>, r: Key)
    ensures AcceptedOf(b, observed, r).None? || ReservedOf(b, observed, r).None?
  {
  }

  ghost predicate OriginsOf(b: Book, observed: map<Key, Key>, rows: seq<Key>, origin: seq<Key>,
                            singles: seq<References.Single>) {
    && |origin| == |singles| && Different(origin)
    && forall i :: 0 <= i < |origin| ==> origin[i] in rows && SingleFrom(b, observed, origin[i], singles[i])
  }

  lemma OriginsJoin(b: Book, observed: map<Key, Key>, rows: seq<Key>, o: seq<Key>, s: seq<References.Single>,
                    p: seq<Key>, u: seq<References.Single>)
    requires OriginsOf(b, observed, rows, o, s) && OriginsOf(b, observed, rows, p, u) && forall r :: r in o ==> r !in p
    ensures OriginsOf(b, observed, rows, o + p, s + u)
  {
    JoinDifferent(o, p);
  }

  lemma SinglesFrom(b: Book, observed: map<Key, Key>, rows: seq<Key>) returns (origin: seq<Key>)
    requires Different(rows)
    ensures var d := InputsOf(b, observed, rows); OriginsOf(b, observed, rows, origin, d.accepted + d.reserved)
  {
    var accepted := Origins(rows, AcceptedIn(b, observed));
    var reserved := Origins(rows, ReservedIn(b, observed));
    forall r | r in accepted
      ensures r !in reserved
    {
      NotBoth(b, observed, r);
    }
    OriginsJoin(b, observed, rows, accepted, Collect(rows, AcceptedIn(b, observed)), reserved,
                Collect(rows, ReservedIn(b, observed)));
    origin := accepted + reserved;
  }

  lemma SinglesDiffer(b: Book, observed: map<Key, Key>, rows: seq<Key>)
    requires Frozen(b, observed, rows)
    ensures var d := InputsOf(b, observed, rows);
            var singles := d.accepted + d.reserved;
            forall i, j :: 0 <= i < j < |singles| ==> singles[i].record != singles[j].record
  {
    var d := InputsOf(b, observed, rows);
    var singles := d.accepted + d.reserved;
    var origin := SinglesFrom(b, observed, rows);
    forall i, j | 0 <= i < j < |singles|
      ensures singles[i].record != singles[j].record
    {
      SinglesApart(b, observed, rows, origin[i], origin[j], singles[i], singles[j]);
    }
  }

  lemma SinglesApart(b: Book, observed: map<Key, Key>, rows: seq<Key>, r: Key, q: Key, s: References.Single,
                     u: References.Single)
    requires Frozen(b, observed, rows) && r in rows && q in rows && r != q
    requires SingleFrom(b, observed, r, s) && SingleFrom(b, observed, q, u)
    ensures s.record != u.record
  {
    SingleHolds(b, observed, r);
    SingleHolds(b, observed, q);
    if s.record == u.record {
      HeldOnce(b, observed, rows, r, q, s.record);
    }
  }

  lemma SinglesAreNotLinked(b: Book, observed: map<Key, Key>, rows: seq<Key>)
    requires Frozen(b, observed, rows)
    ensures var d := InputsOf(b, observed, rows);
            forall m, s :: m in d.manual && s in d.accepted + d.reserved ==> s.record != m.edge.left && s.record != m.edge.right
  {
    var d := InputsOf(b, observed, rows);
    var origin := SinglesFrom(b, observed, rows);
    var links := Origins(rows, ManualIn(b, observed));
    forall m, s | m in d.manual && s in d.accepted + d.reserved
      ensures s.record != m.edge.left && s.record != m.edge.right
    {
      var i := IndexOf(d.manual, m);
      var j := IndexOf(d.accepted + d.reserved, s);
      ManualAndSingle(b, observed, rows, links[i], origin[j], m, s);
    }
  }

  lemma IndexOf<T>(items: seq<T>, x: T) returns (i: nat)
    requires x in items
    ensures i < |items| && items[i] == x
  {
    i :| 0 <= i < |items| && items[i] == x;
  }

  lemma ManualAndSingle(b: Book, observed: map<Key, Key>, rows: seq<Key>, r: Key, q: Key, m: References.Relationship,
                        s: References.Single)
    requires Frozen(b, observed, rows) && r in rows && q in rows
    requires ManualOf(b, observed, r) == Some(m) && SingleFrom(b, observed, q, s)
    ensures s.record != m.edge.left && s.record != m.edge.right
  {
    ManualHolds(b, observed, r);
    SingleHolds(b, observed, q);
    if s.record == m.edge.left || s.record == m.edge.right {
      HeldOnce(b, observed, rows, r, q, s.record);
    }
  }

  /** Two active rejections of one pair, both of whose records the run observes. */
  ghost predicate RejectedTwice(b: Book, observed: map<Key, Key>, rows: seq<Key>) {
    exists r, q :: r in rows && q in rows && r != q && RejectsSamePair(b, observed, r, q)
  }

  ghost predicate RejectsSamePair(b: Book, observed: map<Key, Key>, r: Key, q: Key) {
    && r in b.revisions && q in b.revisions
    && b.revisions[r].authority.Some? && b.revisions[r].authority == b.revisions[q].authority
    && b.revisions[r].authority.value.RejectCandidate?
    && b.revisions[r].authority.value.left in observed && b.revisions[r].authority.value.right in observed
  }

  lemma SameEdgeIffSamePair(b: Book, observed: map<Key, Key>, r: Key, q: Key)
    requires forall x, y :: x in observed && y in observed && observed[x] == observed[y] ==> x == y
    requires RejectedOf(b, observed, r).Some? && RejectedOf(b, observed, q).Some?
    ensures RejectedOf(b, observed, r).value.edge == RejectedOf(b, observed, q).value.edge <==> RejectsSamePair(b, observed, r, q)
  {
  }

  ghost predicate RejectedDiffer(d: References.Decisions) {
    forall i, j :: 0 <= i < j < |d.rejected| ==> d.rejected[i].edge != d.rejected[j].edge
  }

  lemma RejectedDifferIff(b: Book, observed: map<Key, Key>, rows: seq<Key>)
    requires Frozen(b, observed, rows)
    ensures RejectedDiffer(InputsOf(b, observed, rows)) <==> !RejectedTwice(b, observed, rows)
  {
    var f := RejectedIn(b, observed);
    var rejected := Collect(rows, f);
    var at := Positions(rows, f);
    if !RejectedTwice(b, observed, rows) {
      forall i, j | 0 <= i < j < |rejected|
        ensures rejected[i].edge != rejected[j].edge
      {
        assert f(rows[at[i]]) == Some(rejected[i]) && f(rows[at[j]]) == Some(rejected[j]);
        SameEdgeIffSamePair(b, observed, rows[at[i]], rows[at[j]]);
        assert rows[at[i]] in rows && rows[at[j]] in rows;
      }
    } else {
      var r, q :| r in rows && q in rows && r != q && RejectsSamePair(b, observed, r, q);
      RepeatedEdge(b, observed, rows, r, q);
    }
  }

  lemma RepeatedEdge(b: Book, observed: map<Key, Key>, rows: seq<Key>, r: Key, q: Key)
    requires Frozen(b, observed, rows) && r in rows && q in rows && r != q && RejectsSamePair(b, observed, r, q)
    ensures !RejectedDiffer(InputsOf(b, observed, rows))
  {
    var f := RejectedIn(b, observed);
    var rejected := Collect(rows, f);
    var i :| 0 <= i < |rows| && rows[i] == r;
    var j :| 0 <= j < |rows| && rows[j] == q;
    assert f(rows[i]).Some? && f(rows[j]).Some?;
    Collected(rows, f, i);
    Collected(rows, f, j);
    var k :| 0 <= k < |rejected| && rejected[k] == f(r).value;
    var l :| 0 <= l < |rejected| && rejected[l] == f(q).value;
    assert rejected[k].edge == rejected[l].edge;
    if k == l {
      RowsDiffer(b, observed, rows, r, q);
    }
    assert rejected == InputsOf(b, observed, rows).rejected;
  }

  /** The inputs built for any run satisfy the constructor's uniqueness and disjointness checks exactly when
      no pair of observed records is rejected by two active decisions: manual links, accepted records and
      reservations can never collide, because their endpoints are claimed once. */
  lemma InputsAreValidIff(events: seq<Event>, observed: map<Key, Key>, rows: seq<Key>)
    requires Frozen(After(EMPTY, events), observed, rows)
    ensures InputsOf(After(EMPTY, events), observed, rows).Valid() <==> !RejectedTwice(After(EMPTY, events), observed, rows)
  {
    var b := After(EMPTY, events);
    DecisionIdsDiffer(b, observed, rows);
    ManualEndsDiffer(b, observed, rows);
    SinglesDiffer(b, observed, rows);
    SinglesAreNotLinked(b, observed, rows);
    RejectedDifferIff(b, observed, rows);
    ValidByParts(InputsOf(b, observed, rows));
  }

  lemma ValidByParts(d: References.Decisions)
    requires Different(d.DecisionIds())
    requires forall i, j :: 0 <= i < j < |d.manual| ==>
               d.manual[i].edge.left != d.manual[j].edge.left && d.manual[i].edge.right != d.manual[j].edge.right
    requires var singles := d.accepted + d.reserved;
             && (forall i, j :: 0 <= i < j < |singles| ==> singles[i].record != singles[j].record)
             && forall m, s :: m in d.manual && s in singles ==> s.record != m.edge.left && s.record != m.edge.right
    ensures d.Valid() <==> RejectedDiffer(d)
  {
  }

  // ----- orientation -----

  /** The run's left inputs observe left-side transactions, its right inputs right-side ones. */
  ghost predicate Sided(b: Book, observed: map<Key, Key>, s: References.Snapshot) {
    forall x :: x in observed && x in b.logicals ==>
      && (observed[x] in Ids(s.left) ==> b.logicals[x].LeftSide?)
      && (observed[x] in Ids(s.right) ==> b.logicals[x].RightSide?)
  }

  /** The engine never refuses a service-built run for a relationship that faces the wrong way. */
  lemma InputsAreOriented(events: seq<Event>, observed: map<Key, Key>, rows: seq<Key>, s: References.Snapshot)
    requires var b := After(EMPTY, events); Frozen(b, observed, rows) && Sided(b, observed, s)
    ensures References.Oriented(s, InputsOf(After(EMPTY, events), observed, rows))
  {
    var b := After(EMPTY, events);
    ReachedKeeps(events);
    OrientedList(b, observed, rows, s, ManualIn(b, observed));
    OrientedList(b, observed, rows, s, RejectedIn(b, observed));
  }

  lemma OrientedList(b: Book, observed: map<Key, Key>, rows: seq<Key>, s: References.Snapshot,
                     f: Key -> Option<References.Relationship>)
    requires Frozen(b, observed, rows) && Sided(b, observed, s)
    requires forall r :: f(r) == ManualOf(b, observed, r) || f(r) == RejectedOf(b, observed, r)
    ensures forall m: References.Relationship :: m in Collect(rows, f) ==> m.edge.left !in Ids(s.right) && m.edge.right !in Ids(s.left)
  {
    var at := Positions(rows, f);
    forall m: References.Relationship | m in Collect(rows, f)
      ensures m.edge.left !in Ids(s.right) && m.edge.right !in Ids(s.left)
    {
      var i :| 0 <= i < |at| && Collect(rows, f)[i] == m;
      OrientedRow(b, observed, s, rows[at[i]], m);
    }
  }

  lemma OrientedRow(b: Book, observed: map<Key, Key>, s: References.Snapshot, r: Key, m: References.Relationship)
    requires Inv(b) && Sided(b, observed, s)
    requires ManualOf(b, observed, r) == Some(m) || RejectedOf(b, observed, r) == Some(m)
    ensures m.edge.left !in Ids(s.right) && m.edge.right !in Ids(s.left)
  {
    assert AuthorityKept(b, r);
  }

  // ----- the service allows repeated rejections -----

  const REJECTION: Authority := RejectCandidate(0, 1)

  /** Two logical transactions, one on each side, with one observation each. */
  const RECORDED: seq<Event> := [AddsLogical(0, LeftSide)] + [AddsLogical(1, RightSide)] + [AddsObservation(10, 0)] + [AddsObservation(11, 1)]

  /** One rejection of the pair, and then another. */
  const REJECTIONS: seq<Event> :=
    RECORDED + [Establishes(REJECTION, 0, {10, 11}, 20, 30)] + [Establishes(REJECTION, 1, {10, 11}, 21, 31)]

  lemma OneMore(b: Book, events: seq<Event>, e: Event)
    ensures After(b, events + [e]) == Next(After(b, events), e)
  {
    assert (events + [e])[..|events + [e]| - 1] == events;
  }

  lemma RecordedBook()
    ensures After(EMPTY, RECORDED) == EMPTY.(logicals := map[0 := LeftSide, 1 := RightSide], observations := map[10 := 0, 11 := 1])
  {
    var e1 := [AddsLogical(0, LeftSide)];
    var e2 := e1 + [AddsLogical(1, RightSide)];
    var e3 := e2 + [AddsObservation(10, 0)];
    OneMore(EMPTY, [], AddsLogical(0, LeftSide));
    assert [] + [AddsLogical(0, LeftSide)] == e1;
    OneMore(EMPTY, e1, AddsLogical(1, RightSide));
    OneMore(EMPTY, e2, AddsObservation(10, 0));
    OneMore(EMPTY, e3, AddsObservation(11, 1));
    assert After(EMPTY, e1) == EMPTY.(logicals := map[0 := LeftSide]);
    assert After(EMPTY, e2) == EMPTY.(logicals := map[0 := LeftSide, 1 := RightSide]);
    assert After(EMPTY, e3) == After(EMPTY, e2).(observations := map[10 := 0]);
  }

  lemma ReviewsBoth(b: Book)
    requires b.observations == map[10 := 0, 11 := 1] && b.logicals == map[0 := LeftSide, 1 := RightSide]
    ensures Reviews(b, {10, 11}, REJECTION) && Resolves(b, REJECTION)
  {
    assert 10 in {10, 11} && 11 in {10, 11};
  }

  lemma RejectedBook()
    ensures var b4 := After(EMPTY, RECORDED);
            After(EMPTY, REJECTIONS) == Established(Established(b4, REJECTION, 20, 30), REJECTION, 21, 31)
  {
    RecordedBook();
    var b4 := After(EMPTY, RECORDED);
    ReviewsBoth(b4);
    OneMore(EMPTY, RECORDED, Establishes(REJECTION, 0, {10, 11}, 20, 30));
    var b5 := Established(b4, REJECTION, 20, 30);
    ReviewsBoth(b5);
    OneMore(EMPTY, RECORDED + [Establishes(REJECTION, 0, {10, 11}, 20, 30)],
            Establishes(REJECTION, 1, {10, 11}, 21, 31));
  }

  /** The service commits a second active rejection of a pair, and the inputs of the next run are refused. */
  lemma DuplicateRejectionsCommit()
    ensures var b := After(EMPTY, REJECTIONS);
            && Active(b, 30) && Active(b, 31) && RejectedTwice(b, map[0 := 10, 1 := 11], [30, 31])
            && Frozen(b, map[0 := 10, 1 := 11], [30, 31])
            && !InputsOf(b, map[0 := 10, 1 := 11], [30, 31]).Valid()
  {
    RecordedBook();
    RejectedBook();
    var b, observed := After(EMPTY, REJECTIONS), map[0 := 10, 1 := 11];
    ReachedKeeps(REJECTIONS);
    assert Active(b, 30) && Active(b, 31);
    assert RejectsSamePair(b, observed, 30, 31) && 30 in [30, 31] && 31 in [30, 31];
    InputsAreValidIff(REJECTIONS, observed, [30, 31]);
  }
}
