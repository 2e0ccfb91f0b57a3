/** Reviewer authority: append-only decision revisions, exclusive endpoint claims, and optimistic
    concurrency through the book's resolution generation. */
module Resolutions {
  import opened Domain

  type Key = nat

  datatype Authority =
    | Link(left: Key, right: Key)
    | AcceptUnmatched(record: Key, side: RecordSide)
    | RejectCandidate(left: Key, right: Key)
  {
    predicate Valid() {
      AcceptUnmatched? || left != right
    }

    function Endpoints(): set<Key> {
      if AcceptUnmatched? then {record} else {left, right}
    }

    predicate Reserves() {
      !RejectCandidate?
    }
  }

  datatype Action = Establish | Reaffirm | Revoke | Replace

  datatype Revision = Revision(decision: Key, predecessor: Option<Key>, number: nat, action: Action, authority: Option<Authority>)

  datatype Claim = Claim(logical: Key, revision: Key)

  datatype Supersession = Supersession(replacement: Key, superseded: Key)

  datatype Target = Target(decision: Key, revision: Key)

  /** One book's decisions, with the logical transactions and observations they may refer to. */
  datatype Book = Book(
    generation: nat, decisions: map<Key, Key>, revisions: map<Key, Revision>, supersessions: set<Supersession>,
    claims: set<Claim>, logicals: map<Key, RecordSide>, observations: map<Key, Key>)

  datatype Response =
    | Committed | StaleGeneration | Unavailable | StaleRevision | EndpointClaimed | ConflictSetChanged | InsertRefused

  // ----- the checks -----

  predicate Superseded(b: Book, r: Key) {
    exists s :: s in b.supersessions && s.superseded == r
  }

  predicate Current(b: Book, r: Key) {
    r in b.revisions && b.revisions[r].decision in b.decisions && b.decisions[b.revisions[r].decision] == r
  }

  predicate Active(b: Book, r: Key) {
    Current(b, r) && !b.revisions[r].action.Revoke? && !Superseded(b, r)
  }

  /** The endpoints exist in the book, on the sides the authority needs. */
  predicate Resolves(b: Book, a: Authority) {
    && (forall x :: x in a.Endpoints() ==> x in b.logicals)
    && (if a.AcceptUnmatched? then b.logicals[a.record] == a.side
        else b.logicals[a.left].LeftSide? && b.logicals[a.right].RightSide?)
  }

  /** The reviewed observations exist and show exactly the endpoints. */
  predicate Reviews(b: Book, reviewed: set<Key>, a: Authority) {
    && (forall o :: o in reviewed ==> o in b.observations && b.observations[o] in a.Endpoints())
    && (forall x :: x in a.Endpoints() ==> exists o :: o in reviewed && o in b.observations && b.observations[o] == x)
  }

  /** Other decisions' revisions that hold a claim on an endpoint of this authority. */
  function Conflicts(b: Book, a: Authority, excluded: Option<Key>): set<Target> {
    if !a.Reserves() then {}
    else set c | c in b.claims && c.logical in a.Endpoints() && c.revision in b.revisions &&
                 Some(b.revisions[c.revision].decision) != excluded :: Target(b.revisions[c.revision].decision, c.revision)
  }

  predicate Claimed(claims: set<Claim>, endpoints: set<Key>) {
    exists c :: c in claims && c.logical in endpoints
  }

  function ClaimsFor(endpoints: set<Key>, r: Key): set<Claim> {
    set x | x in endpoints :: Claim(x, r)
  }

  // ----- establishing a decision -----

  function EstablishResponse(b: Book, a: Authority, expected: int, reviewed: set<Key>): Response {
    if b.generation != expected then StaleGeneration
    else if !Resolves(b, a) || !Reviews(b, reviewed, a) then Unavailable
    else if Conflicts(b, a, None) != {} then EndpointClaimed
    else if a.Reserves() && Claimed(b.claims, a.Endpoints()) then InsertRefused
    else Committed
  }

  function Established(b: Book, a: Authority, d: Key, r: Key): Book {
    b.(generation := b.generation + 1, decisions := b.decisions[d := r],
       revisions := b.revisions[r := Revision(d, None, 1, Establish, Some(a))],
       claims := b.claims + if a.Reserves() then ClaimsFor(a.Endpoints(), r) else {})
  }

  // ----- changing a decision -----

  datatype Change = Change(action: Action, target: Target, authority: Option<Authority>, approved: set<Target>, expected: int,
                           reviewed: set<Key>)
  {
    /** The checks of the command's constructor. */
    predicate Valid() {
      match action
      case Establish => false
      case Reaffirm => authority.None? && approved == {}
      case Revoke => authority.None? && approved == {} && reviewed == {}
      case Replace => authority.Some? && authority.value.Valid()
    }
  }

  /** The target must be its decision's current revision, and still active. */
  function TargetResponse(b: Book, t: Target): Response {
    if t.decision !in b.decisions || b.decisions[t.decision] !in b.revisions then Unavailable
    else if b.decisions[t.decision] != t.revision then StaleRevision
    else if b.revisions[t.revision].action.Revoke? || Superseded(b, t.revision) then StaleRevision
    else Committed
  }

  function NewAuthority(b: Book, c: Change): Option<Authority>
    requires c.target.revision in b.revisions
  {
    match c.action
    case Reaffirm => b.revisions[c.target.revision].authority
    case Replace => c.authority
    case _ => None
  }

  function Revisions(targets: set<Target>): set<Key> {
    set t | t in targets :: t.revision
  }

  function Without(claims: set<Claim>, revisions: set<Key>): set<Claim> {
    set c | c in claims && c.revision !in revisions
  }

  function Moved(claims: set<Claim>, from: Key, to: Key): set<Claim> {
    set c | c in claims :: if c.revision == from then Claim(c.logical, to) else c
  }

  function Superseding(b: Book, c: Change): set<Key>
    requires c.authority.Some?
  {
    {c.target.revision} + Revisions(Conflicts(b, c.authority.value, Some(c.target.decision)))
  }

  function ChangeResponse(b: Book, c: Change): Response
    requires c.Valid()
  {
    if b.generation != c.expected then StaleGeneration
    else if !TargetResponse(b, c.target).Committed? then TargetResponse(b, c.target)
    else if c.action.Revoke? then Committed
    else if NewAuthority(b, c).None? then Unavailable
    else
      var a := NewAuthority(b, c).value;
      if !Resolves(b, a) || !Reviews(b, c.reviewed, a) then Unavailable
      else if c.action.Reaffirm? then Committed
      else if Conflicts(b, a, Some(c.target.decision)) != c.approved then ConflictSetChanged
      else if a.Reserves() && Claimed(Without(b.claims, Superseding(b, c)), a.Endpoints()) then InsertRefused
      else Committed
  }

  function Changed(b: Book, c: Change, r: Key): Book
    requires c.Valid() && c.target.revision in b.revisions
  {
    var t := c.target;
    var row := Revision(t.decision, Some(t.revision), b.revisions[t.revision].number + 1, c.action, NewAuthority(b, c));
    var base := b.(generation := b.generation + 1, decisions := b.decisions[t.decision := r], revisions := b.revisions[r := row]);
    if c.action.Reaffirm? then base.(claims := Moved(b.claims, t.revision, r))
    else if c.action.Revoke? then base.(claims := Without(b.claims, {t.revision}))
    else
      base.(supersessions := b.supersessions + (set x | x in Superseding(b, c) :: Supersession(r, x)),
            claims := Without(b.claims, Superseding(b, c)) +
                      if c.authority.value.Reserves() then ClaimsFor(c.authority.value.Endpoints(), r) else {})
  }

  // ----- runs -----

  datatype Event =
    | Establishes(authority: Authority, expected: int, reviewed: set<Key>, decision: Key, revision: Key)
    | Changes(change: Change, revision: Key)
    | AddsLogical(logical: Key, side: RecordSide)
    | AddsObservation(observation: Key, logical: Key)

  function Next(b: Book, e: Event): Book {
    match e
    case Establishes(a, expected, reviewed, d, r) =>
      if a.Valid() && d !in b.decisions && r !in b.revisions && EstablishResponse(b, a, expected, reviewed).Committed? then
        Established(b, a, d, r)
      else b
    case Changes(c, r) =>
      if c.Valid() && r !in b.revisions && ChangeResponse(b, c).Committed? then Changed(b, c, r) else b
    case AddsLogical(x, side) => if x in b.logicals then b else b.(logicals := b.logicals[x := side])
    case AddsObservation(o, x) => if o in b.observations || x !in b.logicals then b else b.(observations := b.observations[o := x])
  }

  function After(b: Book, events: seq<Event>): Book {
    if events == [] then b else Next(After(b, events[..|events| - 1]), events[|events| - 1])
  }

  const EMPTY: Book := Book(0, map[], map[], {}, {}, map[], map[])

  // ----- what every step keeps -----

  ghost predicate CurrentKept(b: Book) {
    forall d :: d in b.decisions ==> b.decisions[d] in b.revisions && b.revisions[b.decisions[d]].decision == d
  }

  /** One revision's place in its decision's chain. */
  ghost predicate Placed(b: Book, r: Key)
    requires r in b.revisions
  {
    var row := b.revisions[r];
    && row.decision in b.decisions && b.decisions[row.decision] in b.revisions
    && 1 <= row.number <= b.revisions[b.decisions[row.decision]].number
    && (if row.number == 1 then row.predecessor.None?
        else row.predecessor.Some? && row.predecessor.value in b.revisions
             && b.revisions[row.predecessor.value].decision == row.decision
             && b.revisions[row.predecessor.value].number == row.number - 1)
  }

  ghost predicate ChainsKept(b: Book) {
    && (forall r {:trigger Placed(b, r)} :: r in b.revisions ==> Placed(b, r))
    && forall r, q :: r in b.revisions && q in b.revisions && SamePlace(b.revisions[r], b.revisions[q]) ==> r == q
  }

  predicate SamePlace(a: Revision, b: Revision) {
    a.decision == b.decision && a.number == b.number
  }

  ghost predicate AuthorityKept(b: Book, r: Key)
    requires r in b.revisions
  {
    && (b.revisions[r].authority.None? <==> b.revisions[r].action.Revoke?)
    && (b.revisions[r].authority.Some? ==> b.revisions[r].authority.value.Valid() && Resolves(b, b.revisions[r].authority.value))
  }

  ghost predicate AuthoritiesKept(b: Book) {
    && (forall r :: r in b.revisions ==> AuthorityKept(b, r))
    && forall s :: s in b.supersessions ==> s.superseded in b.revisions
  }

  /** The revision is entitled to a claim on this endpoint. */
  ghost predicate Entitled(b: Book, r: Key, x: Key) {
    && Active(b, r) && b.revisions[r].authority.Some?
    && b.revisions[r].authority.value.Reserves() && x in b.revisions[r].authority.value.Endpoints()
  }

  ghost predicate ClaimsKept(b: Book) {
    forall x, r :: Claim(x, r) in b.claims <==> Entitled(b, r, x)
  }

  ghost predicate ClaimedOnce(claims: set<Claim>) {
    forall c, e :: c in claims && e in claims && c.logical == e.logical ==> c == e
  }

  ghost predicate Inv(b: Book) {
    CurrentKept(b) && ChainsKept(b) && AuthoritiesKept(b) && ClaimsKept(b) && ClaimedOnce(b.claims)
  }

  lemma ClaimIsConflict(b: Book, a: Authority, excluded: Option<Key>, k: Claim)
    requires ClaimsKept(b) && a.Reserves() && k in b.claims && k.logical in a.Endpoints()
    ensures Active(b, k.revision)
    ensures Some(b.revisions[k.revision].decision) != excluded ==>
              Target(b.revisions[k.revision].decision, k.revision) in Conflicts(b, a, excluded)
  {
    assert Claim(k.logical, k.revision) in b.claims;
    assert Entitled(b, k.revision, k.logical);
  }

  lemma NoConflictMeansFree(b: Book, a: Authority)
    requires ClaimsKept(b) && a.Reserves() && Conflicts(b, a, None) == {}
    ensures !Claimed(b.claims, a.Endpoints())
  {
    if Claimed(b.claims, a.Endpoints()) {
      var k :| k in b.claims && k.logical in a.Endpoints();
      ClaimIsConflict(b, a, None, k);
    }
  }

  lemma ClaimIsSuperseded(b: Book, c: Change, k: Claim)
    requires ClaimsKept(b) && c.authority.Some? && TargetResponse(b, c.target).Committed?
    requires c.authority.value.Reserves()
    requires k in b.claims && k.logical in c.authority.value.Endpoints()
    ensures k.revision in Superseding(b, c)
  {
    ClaimIsConflict(b, c.authority.value, Some(c.target.decision), k);
    if b.revisions[k.revision].decision != c.target.decision {
      var t := Target(b.revisions[k.revision].decision, k.revision);
      assert t.revision in Revisions(Conflicts(b, c.authority.value, Some(c.target.decision)));
    }
  }

  /** After superseding the target and every conflicting revision, no endpoint is claimed any more. */
  lemma SupersedingFrees(b: Book, c: Change)
    requires ClaimsKept(b) && c.authority.Some? && TargetResponse(b, c.target).Committed?
    requires c.authority.value.Reserves()
    ensures !Claimed(Without(b.claims, Superseding(b, c)), c.authority.value.Endpoints())
  {
    forall k | k in b.claims && k.logical in c.authority.value.Endpoints()
      ensures k.revision in Superseding(b, c)
    {
      ClaimIsSuperseded(b, c, k);
    }
  }

  /** The insert can never hit the unique constraint: the integrity-error branches are unreachable. */
  lemma InitialInsertNeverRefused(b: Book, a: Authority, expected: int, reviewed: set<Key>)
    requires ClaimsKept(b)
    ensures !EstablishResponse(b, a, expected, reviewed).InsertRefused?
  {
    if a.Reserves() && Conflicts(b, a, None) == {} {
      NoConflictMeansFree(b, a);
    }
  }

  lemma ReplacementInsertNeverRefused(b: Book, c: Change)
    requires ClaimsKept(b) && c.Valid()
    ensures !ChangeResponse(b, c).InsertRefused?
  {
    if c.action.Replace? && TargetResponse(b, c.target).Committed? && c.authority.value.Reserves() {
      SupersedingFrees(b, c);
    }
  }

  // ----- establishing keeps everything -----

  /** The row a new revision of decision d must have. */
  ghost predicate Successor(b: Book, d: Key, row: Revision) {
    && row.decision == d
    && (if d in b.decisions then
          && b.decisions[d] in b.revisions && row.predecessor == Some(b.decisions[d])
          && row.number == b.revisions[b.decisions[d]].number + 1
        else row.predecessor.None? && row.number == 1)
  }

  lemma PlacesGrow(b: Book, d: Key, r: Key, row: Revision, t: Book, q: Key)
    requires CurrentKept(b) && ChainsKept(b) && r !in b.revisions && Successor(b, d, row)
    requires t.decisions == b.decisions[d := r] && t.revisions == b.revisions[r := row] && q in t.revisions
    ensures Placed(t, q)
  {
    if q != r {
      assert Placed(b, q);
    } else if d in b.decisions {
      assert Placed(b, b.decisions[d]);
    }
  }

  lemma NewPlace(b: Book, d: Key, row: Revision, q: Key)
    requires CurrentKept(b) && ChainsKept(b) && Successor(b, d, row) && q in b.revisions
    ensures !SamePlace(b.revisions[q], row)
  {
    assert Placed(b, q);
  }

  lemma ChainsFrom(b: Book, r: Key, row: Revision, t: Book)
    requires r !in b.revisions && t.revisions == b.revisions[r := row]
    requires forall p, q :: p in b.revisions && q in b.revisions && SamePlace(b.revisions[p], b.revisions[q]) ==> p == q
    requires forall q {:trigger Placed(t, q)} :: q in t.revisions ==> Placed(t, q)
    requires forall q :: q in b.revisions ==> !SamePlace(b.revisions[q], row)
    ensures ChainsKept(t)
  {
    forall p, q | p in t.revisions && q in t.revisions && SamePlace(t.revisions[p], t.revisions[q])
      ensures p == q
    {
      assert SamePlace(t.revisions[p], t.revisions[q]) && SamePlace(t.revisions[q], t.revisions[p]);
    }
  }

  lemma CurrentGrows(b: Book, d: Key, r: Key, row: Revision, t: Book)
    requires CurrentKept(b) && r !in b.revisions && row.decision == d
    requires t.decisions == b.decisions[d := r] && t.revisions == b.revisions[r := row]
    ensures CurrentKept(t)
  {
  }

  lemma RevisionsGrow(b: Book, d: Key, r: Key, row: Revision, t: Book)
    requires CurrentKept(b) && ChainsKept(b) && r !in b.revisions && Successor(b, d, row)
    requires t.decisions == b.decisions[d := r] && t.revisions == b.revisions[r := row]
    ensures CurrentKept(t) && ChainsKept(t)
  {
    assert ChainsKept(t) by {
      forall q | q in t.revisions
        ensures Placed(t, q)
      {
        PlacesGrow(b, d, r, row, t, q);
      }
      forall q | q in b.revisions
        ensures !SamePlace(b.revisions[q], row)
      {
        NewPlace(b, d, row, q);
      }
      ChainsFrom(b, r, row, t);
    }
    CurrentGrows(b, d, r, row, t);
  }

  lemma AuthorityGrows(b: Book, r: Key, row: Revision, t: Book)
    requires AuthoritiesKept(b) && r !in b.revisions && t.revisions == b.revisions[r := row] && t.logicals == b.logicals
    requires row.authority.None? <==> row.action.Revoke?
    requires row.authority.Some? ==> row.authority.value.Valid() && Resolves(b, row.authority.value)
    requires forall s :: s in t.supersessions ==> s.superseded in t.revisions
    ensures AuthoritiesKept(t)
  {
    forall q | q in t.revisions
      ensures AuthorityKept(t, q)
    {
      if q != r {
        assert AuthorityKept(b, q);
      }
    }
  }

  lemma NewIsNotSuperseded(b: Book, r: Key)
    requires AuthoritiesKept(b) && r !in b.revisions
    ensures !Superseded(b, r)
  {
  }

  lemma EstablishKeeps(b: Book, a: Authority, d: Key, r: Key, expected: int, reviewed: set<Key>)
    requires Inv(b) && a.Valid() && d !in b.decisions && r !in b.revisions
    requires EstablishResponse(b, a, expected, reviewed).Committed?
    ensures Inv(Established(b, a, d, r))
  {
    var t := Established(b, a, d, r);
    var row := Revision(d, None, 1, Establish, Some(a));
    RevisionsGrow(b, d, r, row, t);
    AuthorityGrows(b, r, row, t);
    NewIsNotSuperseded(b, r);
    forall x, q
      ensures Claim(x, q) in t.claims <==> Entitled(t, q, x)
    {
      EstablishEntitles(b, a, d, r, x, q);
    }
    if a.Reserves() {
      NoConflictMeansFree(b, a);
    }
  }

  lemma NewClaims(claims: set<Claim>, endpoints: set<Key>, r: Key, x: Key, q: Key)
    ensures Claim(x, q) in claims + ClaimsFor(endpoints, r) <==> Claim(x, q) in claims || (q == r && x in endpoints)
  {
  }

  lemma EstablishEntitles(b: Book, a: Authority, d: Key, r: Key, x: Key, q: Key)
    requires Inv(b) && d !in b.decisions && r !in b.revisions
    ensures Claim(x, q) in Established(b, a, d, r).claims <==> Entitled(Established(b, a, d, r), q, x)
  {
    var t := Established(b, a, d, r);
    NewIsNotSuperseded(b, r);
    NewClaims(b.claims, a.Endpoints(), r, x, q);
    assert Claim(x, q) in b.claims <==> Entitled(b, q, x);
    if q != r {
      assert q in b.revisions ==> Placed(b, q);
      KeepsEntitlement(b, t, d, r, q, x);
    }
  }

  /** A step that gives decision d a new current revision changes no other decision's entitlement. */
  lemma KeepsEntitlement(b: Book, t: Book, d: Key, r: Key, q: Key, x: Key)
    requires ChainsKept(b) && t.decisions == b.decisions[d := r] && t.revisions.Keys == b.revisions.Keys + {r}
    requires r !in b.revisions
    requires q != r && (q in b.revisions ==> t.revisions[q] == b.revisions[q] && b.revisions[q].decision != d)
    requires Superseded(t, q) <==> Superseded(b, q)
    ensures Entitled(t, q, x) <==> Entitled(b, q, x)
  {
  }

  // ----- changing keeps everything -----

  ghost predicate Commits(b: Book, c: Change, r: Key) {
    c.Valid() && r !in b.revisions && ChangeResponse(b, c).Committed?
  }

  lemma TargetIsActive(b: Book, c: Change, r: Key)
    requires Inv(b) && Commits(b, c, r)
    ensures Active(b, c.target.revision) && b.revisions[c.target.revision].decision == c.target.decision
    ensures b.revisions[c.target.revision].authority.Some?
  {
    assert AuthorityKept(b, c.target.revision);
  }

  lemma NoClaimYet(b: Book, r: Key, x: Key)
    requires ClaimsKept(b) && r !in b.revisions
    ensures Claim(x, r) !in b.claims
  {
    assert Claim(x, r) in b.claims <==> Entitled(b, r, x);
  }

  lemma MovedClaims(claims: set<Claim>, from: Key, to: Key, x: Key, q: Key)
    requires from != to
    ensures Claim(x, q) in Moved(claims, from, to) <==>
            if q == from then false else if q == to then Claim(x, to) in claims || Claim(x, from) in claims else Claim(x, q) in claims
  {
    if q == to && Claim(x, from) in claims {
      assert Claim(x, to) in Moved(claims, from, to);
    }
  }

  lemma MovedOnce(claims: set<Claim>, from: Key, to: Key)
    requires ClaimedOnce(claims)
    ensures ClaimedOnce(Moved(claims, from, to))
  {
  }

  /** A revision other than the target and the new one keeps its entitlement, unless this step supersedes it. */
  lemma OthersKeep(b: Book, c: Change, r: Key, q: Key, x: Key)
    requires Inv(b) && Commits(b, c, r) && q != r && q != c.target.revision
    requires Superseded(Changed(b, c, r), q) <==> Superseded(b, q)
    ensures Entitled(Changed(b, c, r), q, x) <==> Entitled(b, q, x)
  {
    TargetIsActive(b, c, r);
    if q in b.revisions && b.revisions[q].decision == c.target.decision {
      assert !Current(b, q) && !Current(Changed(b, c, r), q);
    }
  }

  lemma ReaffirmEntitles(b: Book, c: Change, r: Key, q: Key, x: Key)
    requires Inv(b) && Commits(b, c, r) && c.action.Reaffirm?
    ensures Claim(x, q) in Changed(b, c, r).claims <==> Entitled(Changed(b, c, r), q, x)
  {
    var cur := c.target.revision;
    TargetIsActive(b, c, r);
    NewIsNotSuperseded(b, r);
    NoClaimYet(b, r, x);
    MovedClaims(b.claims, cur, r, x, q);
    assert Claim(x, q) in b.claims <==> Entitled(b, q, x);
    assert Claim(x, cur) in b.claims <==> Entitled(b, cur, x);
    if q != r && q != cur {
      OthersKeep(b, c, r, q, x);
    }
  }

  lemma RevokeEntitles(b: Book, c: Change, r: Key, q: Key, x: Key)
    requires Inv(b) && Commits(b, c, r) && c.action.Revoke?
    ensures Claim(x, q) in Changed(b, c, r).claims <==> Entitled(Changed(b, c, r), q, x)
  {
    var cur := c.target.revision;
    TargetIsActive(b, c, r);
    NoClaimYet(b, r, x);
    assert Claim(x, q) in b.claims <==> Entitled(b, q, x);
    if q != r && q != cur {
      OthersKeep(b, c, r, q, x);
    }
  }

  lemma SupersedingIsOld(b: Book, c: Change, r: Key)
    requires Inv(b) && Commits(b, c, r) && c.action.Replace?
    ensures Superseding(b, c) <= b.revisions.Keys && c.target.revision in Superseding(b, c)
  {
    forall q | q in Superseding(b, c)
      ensures q in b.revisions
    {
      if q != c.target.revision {
        var t :| t in Conflicts(b, c.authority.value, Some(c.target.decision)) && t.revision == q;
      }
    }
  }

  lemma SupersededNow(b: Book, c: Change, r: Key, q: Key)
    requires Inv(b) && Commits(b, c, r) && c.action.Replace?
    ensures Superseded(Changed(b, c, r), q) <==> Superseded(b, q) || q in Superseding(b, c)
  {
    var t := Changed(b, c, r);
    if Superseded(b, q) {
      var s :| s in b.supersessions && s.superseded == q;
      assert s in t.supersessions;
    }
    if q in Superseding(b, c) {
      assert Supersession(r, q) in t.supersessions;
    }
  }

  lemma ReplaceClaims(b: Book, c: Change, r: Key, q: Key, x: Key)
    requires Inv(b) && Commits(b, c, r) && c.action.Replace?
    ensures Claim(x, q) in Changed(b, c, r).claims <==>
            || (Claim(x, q) in b.claims && q !in Superseding(b, c))
            || (q == r && c.authority.value.Reserves() && x in c.authority.value.Endpoints())
  {
    NewClaims(Without(b.claims, Superseding(b, c)), c.authority.value.Endpoints(), r, x, q);
  }

  lemma ReplaceEntitles(b: Book, c: Change, r: Key, q: Key, x: Key)
    requires Inv(b) && Commits(b, c, r) && c.action.Replace?
    ensures Claim(x, q) in Changed(b, c, r).claims <==> Entitled(Changed(b, c, r), q, x)
  {
    TargetIsActive(b, c, r);
    SupersedingIsOld(b, c, r);
    SupersededNow(b, c, r, q);
    NewIsNotSuperseded(b, r);
    NoClaimYet(b, r, x);
    ReplaceClaims(b, c, r, q, x);
    assert Claim(x, q) in b.claims <==> Entitled(b, q, x);
    if q != r && q !in Superseding(b, c) {
      OthersKeep(b, c, r, q, x);
    }
  }

  lemma ChangeEntitles(b: Book, c: Change, r: Key, q: Key, x: Key)
    requires Inv(b) && Commits(b, c, r)
    ensures Claim(x, q) in Changed(b, c, r).claims <==> Entitled(Changed(b, c, r), q, x)
  {
    match c.action
    case Reaffirm => ReaffirmEntitles(b, c, r, q, x);
    case Revoke => RevokeEntitles(b, c, r, q, x);
    case Replace => ReplaceEntitles(b, c, r, q, x);
  }

  lemma ChangeClaimsOnce(b: Book, c: Change, r: Key)
    requires Inv(b) && Commits(b, c, r)
    ensures ClaimedOnce(Changed(b, c, r).claims)
  {
    if c.action.Reaffirm? {
      MovedOnce(b.claims, c.target.revision, r);
    }
  }

  lemma ChangeAuthorities(b: Book, c: Change, r: Key)
    requires Inv(b) && Commits(b, c, r)
    ensures AuthoritiesKept(Changed(b, c, r))
  {
    var t := Changed(b, c, r);
    TargetIsActive(b, c, r);
    assert AuthorityKept(b, c.target.revision);
    if c.action.Replace? {
      SupersedingIsOld(b, c, r);
    }
    AuthorityGrows(b, r, t.revisions[r], t);
  }

  lemma ChangeKeeps(b: Book, c: Change, r: Key)
    requires Inv(b) && Commits(b, c, r)
    ensures Inv(Changed(b, c, r))
  {
    var t := Changed(b, c, r);
    assert CurrentKept(t) && ChainsKept(t) by {
      TargetIsActive(b, c, r);
      RevisionsGrow(b, c.target.decision, r, t.revisions[r], t);
    }
    ChangeAuthorities(b, c, r);
    ChangeClaimsOnce(b, c, r);
    forall x, q
      ensures Claim(x, q) in t.claims <==> Entitled(t, q, x)
    {
      ChangeEntitles(b, c, r, q, x);
    }
  }

  // ----- every run of events -----

  lemma LogicalKeeps(b: Book, x: Key, side: RecordSide)
    requires Inv(b)
    ensures Inv(Next(b, AddsLogical(x, side)))
  {
    var t := Next(b, AddsLogical(x, side));
    forall q {:trigger Placed(t, q)} | q in t.revisions
      ensures Placed(t, q)
    {
      assert Placed(b, q);
    }
    forall q | q in t.revisions
      ensures AuthorityKept(t, q)
    {
      assert AuthorityKept(b, q);
    }
    forall y, q
      ensures Claim(y, q) in t.claims <==> Entitled(t, q, y)
    {
      assert Claim(y, q) in b.claims <==> Entitled(b, q, y);
    }
  }

  lemma ObservationKeeps(b: Book, o: Key, x: Key)
    requires Inv(b)
    ensures Inv(Next(b, AddsObservation(o, x)))
  {
    var t := Next(b, AddsObservation(o, x));
    forall q {:trigger Placed(t, q)} | q in t.revisions
      ensures Placed(t, q)
    {
      assert Placed(b, q);
    }
    forall q | q in t.revisions
      ensures AuthorityKept(t, q)
    {
      assert AuthorityKept(b, q);
    }
    forall y, q
      ensures Claim(y, q) in t.claims <==> Entitled(t, q, y)
    {
      assert Claim(y, q) in b.claims <==> Entitled(b, q, y);
    }
  }

  lemma StepKeeps(b: Book, e: Event)
    requires Inv(b)
    ensures Inv(Next(b, e))
  {
    match e
    case Establishes(a, expected, reviewed, d, r) =>
      if a.Valid() && d !in b.decisions && r !in b.revisions && EstablishResponse(b, a, expected, reviewed).Committed? {
        EstablishKeeps(b, a, d, r, expected, reviewed);
      }
    case Changes(c, r) =>
      if Commits(b, c, r) {
        ChangeKeeps(b, c, r);
      }
    case AddsLogical(x, side) => LogicalKeeps(b, x, side);
    case AddsObservation(o, x) => ObservationKeeps(b, o, x);
  }

  lemma {:induction false} ReachedKeeps(events: seq<Event>)
    ensures Inv(After(EMPTY, events))
  {
    if events != [] {
      ReachedKeeps(events[..|events| - 1]);
      StepKeeps(After(EMPTY, events[..|events| - 1]), events[|events| - 1]);
    }
  }

  // ----- exclusive claims: the theorems -----

  /** In every reachable book, the claims are exactly the endpoints of current, reserving, unrevoked,
      unsuperseded revisions, each endpoint is claimed once, and no insert of claims can be refused. */
  lemma ClaimsAreExactlyAuthority(events: seq<Event>, a: Authority, expected: int, reviewed: set<Key>, c: Change)
    requires c.Valid()
    ensures var b := After(EMPTY, events);
            && ClaimsKept(b) && ClaimedOnce(b.claims)
            && !EstablishResponse(b, a, expected, reviewed).InsertRefused? && !ChangeResponse(b, c).InsertRefused?
  {
    ReachedKeeps(events);
    InitialInsertNeverRefused(After(EMPTY, events), a, expected, reviewed);
    ReplacementInsertNeverRefused(After(EMPTY, events), c);
  }

  /** Two revisions that hold authority over a common endpoint are one revision. */
  lemma EntitledOnce(b: Book, r: Key, q: Key, x: Key)
    requires ClaimsKept(b) && ClaimedOnce(b.claims) && Entitled(b, r, x) && Entitled(b, q, x)
    ensures r == q
  {
    assert Claim(x, r) in b.claims && Claim(x, q) in b.claims;
  }

  // ----- revision chains -----

  ghost predicate HasNumber(b: Book, d: Key, n: nat, r: Key) {
    r in b.revisions && b.revisions[r].decision == d && b.revisions[r].number == n
  }

  lemma {:induction false} NumberReached(b: Book, d: Key, n: nat) returns (r: Key)
    requires Inv(b) && d in b.decisions && 1 <= n <= b.revisions[b.decisions[d]].number
    ensures HasNumber(b, d, n, r)
    decreases b.revisions[b.decisions[d]].number - n
  {
    if n == b.revisions[b.decisions[d]].number {
      r := b.decisions[d];
    } else {
      var next := NumberReached(b, d, n + 1);
      assert Placed(b, next);
      r := b.revisions[next].predecessor.value;
    }
  }

  /** A decision's revisions are one chain: numbered 1 to n without a gap or a repetition, each naming the
      one before it, and ending at the current revision. */
  lemma RevisionsFormAChain(events: seq<Event>, d: Key, n: nat) returns (r: Key)
    requires d in After(EMPTY, events).decisions
    requires var b := After(EMPTY, events); b.decisions[d] in b.revisions ==> 1 <= n <= b.revisions[b.decisions[d]].number
    ensures var b := After(EMPTY, events);
            && b.decisions[d] in b.revisions && HasNumber(b, d, n, r)
            && (forall q :: HasNumber(b, d, n, q) ==> q == r)
            && (if n == 1 then b.revisions[r].predecessor.None?
                else b.revisions[r].predecessor.Some? && HasNumber(b, d, n - 1, b.revisions[r].predecessor.value))
            && (n == b.revisions[b.decisions[d]].number <==> r == b.decisions[d])
            && forall q :: q in b.revisions && b.revisions[q].decision == d ==> 1 <= b.revisions[q].number <= b.revisions[b.decisions[d]].number
  {
    ReachedKeeps(events);
    var b := After(EMPTY, events);
    r := NumberReached(b, d, n);
    assert Placed(b, r);
    forall q | HasNumber(b, d, n, q)
      ensures q == r
    {
      assert SamePlace(b.revisions[q], b.revisions[r]);
    }
    forall q | q in b.revisions && b.revisions[q].decision == d
      ensures 1 <= b.revisions[q].number <= b.revisions[b.decisions[d]].number
    {
      assert Placed(b, q);
    }
  }

  // ----- optimistic concurrency -----

  ghost predicate SameDecisions(a: Book, b: Book) {
    a.decisions == b.decisions && a.revisions == b.revisions && a.supersessions == b.supersessions && a.claims == b.claims
  }

  ghost predicate EvidenceGrows(a: Book, b: Book) {
    && (forall x :: x in a.logicals ==> x in b.logicals && b.logicals[x] == a.logicals[x])
    && (forall o :: o in a.observations ==> o in b.observations && b.observations[o] == a.observations[o])
  }

  /** Decision state changes only together with a one-step bump of the generation. */
  lemma ChangesBumpByOne(b: Book, e: Event)
    ensures var t := Next(b, e);
            && EvidenceGrows(b, t)
            && (t.generation == b.generation || t.generation == b.generation + 1)
            && (t.generation == b.generation ==> SameDecisions(b, t))
            && (t.generation == b.generation + 1 ==> t.revisions.Keys > b.revisions.Keys)
  {
  }

  /** As long as the generation is the same, so is everything decided. */
  lemma {:induction false} SameGenerationSameDecisions(b: Book, more: seq<Event>)
    ensures b.generation <= After(b, more).generation && EvidenceGrows(b, After(b, more))
    ensures b.generation == After(b, more).generation ==> SameDecisions(b, After(b, more))
  {
    if more != [] {
      SameGenerationSameDecisions(b, more[..|more| - 1]);
      ChangesBumpByOne(After(b, more[..|more| - 1]), more[|more| - 1]);
    }
  }

  lemma {:induction false} KeptThrough(b: Book, more: seq<Event>)
    requires Inv(b)
    ensures Inv(After(b, more))
  {
    if more != [] {
      KeptThrough(b, more[..|more| - 1]);
      StepKeeps(After(b, more[..|more| - 1]), more[|more| - 1]);
    }
  }

  /** What an unlocked preview collects in separate reads, each possibly of a later state. */
  ghost predicate Previewed(b0: Book, b1: Book, b2: Book, b3: Book, c: Change) {
    && c.action.Replace? && c.Valid()
    && c.expected == b0.generation
    && TargetResponse(b1, c.target).Committed?
    && Resolves(b2, c.authority.value)
    && c.approved == Conflicts(b3, c.authority.value, Some(c.target.decision))
  }

  lemma SameConflicts(a: Book, b: Book, authority: Authority, excluded: Option<Key>)
    requires SameDecisions(a, b)
    ensures Conflicts(a, authority, excluded) == Conflicts(b, authority, excluded)
  {
  }

  lemma SameTarget(a: Book, b: Book, t: Target)
    requires SameDecisions(a, b)
    ensures TargetResponse(a, t) == TargetResponse(b, t)
  {
    assert forall r :: Superseded(a, r) <==> Superseded(b, r);
  }

  /** A replacement built from a preview commits exactly when the generation still equals the previewed
      one, whatever happened between the reads, provided its reviewed observations resolve. */
  lemma PreviewedReplacementCommitsIffUnchanged(events: seq<Event>, m1: seq<Event>, m2: seq<Event>, m3: seq<Event>,
                                                m4: seq<Event>,
                                                c: Change)
    requires var b0 := After(EMPTY, events);
             var b1 := After(b0, m1); var b2 := After(b1, m2); var b3 := After(b2, m3); var b4 := After(b3, m4);
             Previewed(b0, b1, b2, b3, c) && Reviews(b4, c.reviewed, c.authority.value)
    ensures var b4 := After(After(After(After(After(EMPTY, events), m1), m2), m3), m4);
            ChangeResponse(b4, c).Committed? <==> b4.generation == After(EMPTY, events).generation
  {
    var b0 := After(EMPTY, events);
    var b1 := After(b0, m1);
    var b2 := After(b1, m2);
    var b3 := After(b2, m3);
    var b4 := After(b3, m4);
    ReachedKeeps(events);
    Quiet(b0, b1, m1);
    Quiet(b1, b2, m2);
    Quiet(b2, b3, m3);
    Quiet(b3, b4, m4);
    if b4.generation == b0.generation {
      QuietComposes(b2, b3, b4);
      QuietComposes(b1, b2, b4);
      PreviewedCommits(b0, b1, b2, b3, b4, c);
    } else {
      StaleIsRefused(b4, c);
    }
  }

  /** What holds between two reads: the generation never falls, and while it stays nothing is decided. */
  ghost predicate Follows(a: Book, b: Book) {
    && a.generation <= b.generation && EvidenceGrows(a, b) && Inv(b)
    && (a.generation == b.generation ==> SameDecisions(a, b))
  }

  lemma Quiet(a: Book, b: Book, more: seq<Event>)
    requires Inv(a) && b == After(a, more)
    ensures Follows(a, b)
  {
    SameGenerationSameDecisions(a, more);
    KeptThrough(a, more);
  }

  lemma QuietComposes(a: Book, b: Book, c: Book)
    requires Follows(a, b) && Follows(b, c)
    ensures Follows(a, c)
  {
  }

  lemma StaleIsRefused(b: Book, c: Change)
    requires c.Valid() && c.expected != b.generation
    ensures !ChangeResponse(b, c).Committed?
  {
  }

  lemma StillResolves(a: Book, b: Book, authority: Authority)
    requires EvidenceGrows(a, b) && Resolves(a, authority)
    ensures Resolves(b, authority)
  {
  }

  lemma PreviewedCommits(b0: Book, b1: Book, b2: Book, b3: Book, b4: Book, c: Change)
    requires Previewed(b0, b1, b2, b3, c) && Reviews(b4, c.reviewed, c.authority.value) &&
             b4.generation == b0.generation
    requires Inv(b4) && SameDecisions(b1, b4) && SameDecisions(b3, b4) && EvidenceGrows(b2, b4)
    ensures ChangeResponse(b4, c).Committed?
  {
    SameTarget(b1, b4, c.target);
    SameConflicts(b3, b4, c.authority.value, Some(c.target.decision));
    StillResolves(b2, b4, c.authority.value);
    ReplacementInsertNeverRefused(b4, c);
  }
}
