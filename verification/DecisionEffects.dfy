/** What each decision commit answers and does, in the fields of the book's rows. */
module DecisionEffects {
  import opened Domain
  import opened Resolutions

  /** The authority is about this logical transaction, which must be on this side. */
  ghost predicate Names(a: Authority, x: Key, side: RecordSide) {
    match a
    case Link(left, right) => (x == left && side == LeftSide) || (x == right && side == RightSide)
    case AcceptUnmatched(record, recordSide) => x == record && side == recordSide
    case RejectCandidate(left, right) => (x == left && side == LeftSide) || (x == right && side == RightSide)
  }

  ghost predicate IsAbout(a: Authority, x: Key) {
    exists side :: Names(a, x, side)
  }

  /** Links and accepted records hold their endpoints; a rejection holds none. */
  ghost predicate Holds(a: Authority) {
    match a
    case Link(_, _) => true
    case AcceptUnmatched(_, _) => true
    case RejectCandidate(_, _) => false
  }

  ghost predicate Resolvable(b: Book, a: Authority) {
    forall x, side :: Names(a, x, side) ==> x in b.logicals && b.logicals[x] == side
  }

  /** Every endpoint was reviewed through an observation of it, and nothing else was. */
  ghost predicate Reviewed(b: Book, reviewed: set<Key>, a: Authority) {
    && (forall o :: o in reviewed ==> o in b.observations && IsAbout(a, b.observations[o]))
    && forall x :: IsAbout(a, x) ==> exists o :: o in reviewed && o in b.observations && b.observations[o] == x
  }

  /** The decision's last revision, neither revoked nor superseded. */
  ghost predicate InForce(b: Book, r: Key) {
    && r in b.revisions && b.revisions[r].decision in b.decisions && b.decisions[b.revisions[r].decision] == r
    && b.revisions[r].action != Revoke
    && forall s :: s in b.supersessions ==> s.superseded != r
  }

  /** Another decision's revision claims one of the endpoints the authority would hold. */
  ghost predicate Contests(b: Book, a: Authority, excluded: Option<Key>, t: Target) {
    && Holds(a) && t.revision in b.revisions && b.revisions[t.revision].decision == t.decision && excluded != Some(t.decision)
    && exists x :: IsAbout(a, x) && Claim(x, t.revision) in b.claims
  }

  /** The claims a new revision makes: one for each endpoint the authority holds. */
  ghost predicate NewClaim(a: Authority, r: Key, c: Claim) {
    Holds(a) && c.revision == r && IsAbout(a, c.logical)
  }

  ghost predicate EstablishEffect(b: Book, t: Book, a: Authority, expected: int, reviewed: set<Key>, d: Key, r: Key,
                                  response: Response) {
    if b.generation != expected then response == StaleGeneration && t == b
    else if !Resolvable(b, a) || !Reviewed(b, reviewed, a) then response == Unavailable && t == b
    else if exists q :: Contests(b, a, None, q) then response == EndpointClaimed && t == b
    else
      && response == Committed
      && t == b.(generation := b.generation + 1, decisions := b.decisions[d := r],
                 revisions := b.revisions[r := Revision(d, None, 1, Establish, Some(a))], claims := t.claims)
      && forall c :: c in t.claims <==> c in b.claims || NewClaim(a, r, c)
  }

  /** One more revision of the target's decision becomes its current one. */
  ghost predicate Appended(b: Book, t: Book, c: Change, r: Key, authority: Option<Authority>) {
    && c.target.revision in b.revisions
    && t == b.(generation := b.generation + 1, decisions := b.decisions[c.target.decision := r],
               revisions := b.revisions[r := Revision(c.target.decision, Some(c.target.revision),
                                                      b.revisions[c.target.revision].number + 1, c.action, authority)],
               supersessions := t.supersessions, claims := t.claims)
  }

  /** What a replacement takes over: its target and the conflicting revisions the reviewer approved. */
  ghost predicate TakenOver(c: Change, x: Key) {
    x == c.target.revision || exists q :: q in c.approved && q.revision == x
  }

  ghost predicate RevokeEffect(b: Book, t: Book, c: Change, r: Key) {
    && Appended(b, t, c, r, None) && t.supersessions == b.supersessions
    && forall k :: k in t.claims <==> k in b.claims && k.revision != c.target.revision
  }

  /** The target's claims pass to the reaffirmation. */
  ghost predicate ReaffirmEffect(b: Book, t: Book, c: Change, r: Key, a: Authority) {
    && Appended(b, t, c, r, Some(a)) && t.supersessions == b.supersessions
    && forall k: Claim :: k in t.claims <==>
         || (k in b.claims && k.revision != c.target.revision)
         || (k.revision == r && Claim(k.logical, c.target.revision) in b.claims)
  }

  ghost predicate ReplaceEffect(b: Book, t: Book, c: Change, r: Key, a: Authority) {
    && Appended(b, t, c, r, Some(a))
    && (forall s :: s in t.supersessions <==> s in b.supersessions || (s.replacement == r && TakenOver(c, s.superseded)))
    && forall k :: k in t.claims <==> (k in b.claims && !TakenOver(c, k.revision)) || NewClaim(a, r, k)
  }

  ghost predicate ChangeEffect(b: Book, t: Book, c: Change, r: Key, response: Response) {
    var current := c.target.revision;
    if b.generation != c.expected then response == StaleGeneration && t == b
    else if c.target.decision !in b.decisions then response == Unavailable && t == b
    else if b.decisions[c.target.decision] != current || !InForce(b, current) then response == StaleRevision && t == b
    else if c.action == Revoke then response == Committed && RevokeEffect(b, t, c, r)
    else
      exists a :: (if c.action == Reaffirm then b.revisions[current].authority == Some(a) else c.authority == Some(a)) &&
        if !Resolvable(b, a) || !Reviewed(b, c.reviewed, a) then response == Unavailable && t == b
        else if c.action == Reaffirm then response == Committed && ReaffirmEffect(b, t, c, r, a)
        else if exists q :: !(q in c.approved <==> Contests(b, a, Some(c.target.decision), q)) then
          response == ConflictSetChanged && t == b
        else response == Committed && ReplaceEffect(b, t, c, r, a)
  }

  // ----- the shared definitions mean this -----

  lemma EndpointsAre(a: Authority, x: Key)
    ensures x in a.Endpoints() <==> IsAbout(a, x)
    ensures a.Reserves() <==> Holds(a)
  {
    if x in a.Endpoints() {
      assert Names(a, x, LeftSide) || Names(a, x, RightSide);
    }
  }

  lemma AllEndpoints(a: Authority)
    ensures forall x :: x in a.Endpoints() <==> IsAbout(a, x)
    ensures a.Reserves() <==> Holds(a)
  {
    EndpointsAre(a, 0);
    forall x
      ensures x in a.Endpoints() <==> IsAbout(a, x)
    {
      EndpointsAre(a, x);
    }
  }

  lemma ResolvesIs(b: Book, a: Authority)
    ensures Resolves(b, a) <==> Resolvable(b, a)
  {
    if Resolvable(b, a) {
      match a
      case Link(left, right) => assert Names(a, left, LeftSide) && Names(a, right, RightSide);
      case AcceptUnmatched(record, side) => assert Names(a, record, side);
      case RejectCandidate(left, right) => assert Names(a, left, LeftSide) && Names(a, right, RightSide);
    }
  }

  /** A commit's evidence is refused exactly when an endpoint lacks an observation or an observation shows something
      else. */
  lemma ReviewsIs(b: Book, reviewed: set<Key>, a: Authority)
    ensures Reviews(b, reviewed, a) <==> Reviewed(b, reviewed, a)
  {
    AllEndpoints(a);
  }

  lemma ConflictIs(b: Book, a: Authority, excluded: Option<Key>, t: Target)
    ensures t in Conflicts(b, a, excluded) <==> Contests(b, a, excluded, t)
  {
    AllEndpoints(a);
    if Contests(b, a, excluded, t) {
      var x :| IsAbout(a, x) && Claim(x, t.revision) in b.claims;
      var c := Claim(x, t.revision);
      assert c in b.claims && c.logical in a.Endpoints();
    }
  }

  lemma ActiveIs(b: Book, r: Key)
    ensures Active(b, r) <==> InForce(b, r)
  {
  }

  lemma ClaimIsNew(a: Authority, r: Key, c: Claim)
    ensures (a.Reserves() && c in ClaimsFor(a.Endpoints(), r)) <==> NewClaim(a, r, c)
  {
    EndpointsAre(a, c.logical);
  }

  // ----- establishing -----

  lemma EstablishMeans(b: Book, a: Authority, expected: int, reviewed: set<Key>, d: Key, r: Key)
    requires Inv(b)
    ensures var response := EstablishResponse(b, a, expected, reviewed);
            EstablishEffect(b, if response.Committed? then Established(b, a, d, r) else b, a, expected, reviewed, d, r, response)
  {
    ResolvesIs(b, a);
    ReviewsIs(b, reviewed, a);
    InitialInsertNeverRefused(b, a, expected, reviewed);
    forall q
      ensures q in Conflicts(b, a, None) <==> Contests(b, a, None, q)
    {
      ConflictIs(b, a, None, q);
    }
    forall c
      ensures c in Established(b, a, d, r).claims <==> c in b.claims || NewClaim(a, r, c)
    {
      ClaimIsNew(a, r, c);
    }
  }

  // ----- changing -----

  lemma TargetIs(b: Book, t: Target)
    requires Inv(b)
    ensures TargetResponse(b, t) ==
            if t.decision !in b.decisions then Unavailable
            else if b.decisions[t.decision] != t.revision || !InForce(b, t.revision) then StaleRevision
            else Committed
  {
    ActiveIs(b, t.revision);
  }

  lemma MovedIs(claims: set<Claim>, from: Key, to: Key, k: Claim)
    requires from != to && forall c :: c in claims ==> c.revision != to
    ensures k in Moved(claims, from, to) <==>
            (k in claims && k.revision != from) || (k.revision == to && Claim(k.logical, from) in claims)
  {
    if k.revision == to && Claim(k.logical, from) in claims {
      var c := Claim(k.logical, from);
      assert c in claims;
    }
  }

  lemma NoClaimsYet(b: Book, r: Key)
    requires ClaimsKept(b) && r !in b.revisions
    ensures forall c :: c in b.claims ==> c.revision != r
  {
    forall c | c in b.claims
      ensures c.revision != r
    {
      assert Claim(c.logical, c.revision) in b.claims;
      assert Entitled(b, c.revision, c.logical);
    }
  }

  lemma SupersedingIs(b: Book, c: Change, x: Key)
    requires c.authority.Some? && Conflicts(b, c.authority.value, Some(c.target.decision)) == c.approved
    ensures x in Superseding(b, c) <==> TakenOver(c, x)
  {
  }

  lemma ReplaceMeans(b: Book, c: Change, r: Key)
    requires c.Valid() && c.action.Replace? && c.target.revision in b.revisions
    requires Conflicts(b, c.authority.value, Some(c.target.decision)) == c.approved
    ensures ReplaceEffect(b, Changed(b, c, r), c, r, c.authority.value)
  {
    var t := Changed(b, c, r);
    forall s
      ensures s in t.supersessions <==> s in b.supersessions || (s.replacement == r && TakenOver(c, s.superseded))
    {
      SupersedingIs(b, c, s.superseded);
    }
    forall k
      ensures k in t.claims <==> (k in b.claims && !TakenOver(c, k.revision)) || NewClaim(c.authority.value, r, k)
    {
      SupersedingIs(b, c, k.revision);
      ClaimIsNew(c.authority.value, r, k);
    }
  }

  lemma ReaffirmMeans(b: Book, c: Change, r: Key, a: Authority)
    requires Inv(b) && c.Valid() && c.action.Reaffirm? && c.target.revision in b.revisions && r !in b.revisions
    requires b.revisions[c.target.revision].authority == Some(a)
    ensures ReaffirmEffect(b, Changed(b, c, r), c, r, a)
  {
    NoClaimsYet(b, r);
    forall k
      ensures k in Changed(b, c, r).claims <==>
              || (k in b.claims && k.revision != c.target.revision)
              || (k.revision == r && Claim(k.logical, c.target.revision) in b.claims)
    {
      MovedIs(b.claims, c.target.revision, r, k);
    }
  }

  lemma EvidenceIs(b: Book, reviewed: set<Key>, a: Authority)
    ensures Resolves(b, a) && Reviews(b, reviewed, a) <==> Resolvable(b, a) && Reviewed(b, reviewed, a)
  {
    ResolvesIs(b, a);
    ReviewsIs(b, reviewed, a);
  }

  lemma ApprovedIs(b: Book, c: Change, a: Authority)
    ensures Conflicts(b, a, Some(c.target.decision)) == c.approved <==>
            forall q :: q in c.approved <==> Contests(b, a, Some(c.target.decision), q)
  {
    forall q
      ensures q in Conflicts(b, a, Some(c.target.decision)) <==> Contests(b, a, Some(c.target.decision), q)
    {
      ConflictIs(b, a, Some(c.target.decision), q);
    }
  }

  lemma ChangeMeans(b: Book, c: Change, r: Key)
    requires Inv(b) && c.Valid() && r !in b.revisions
    ensures var response := ChangeResponse(b, c);
            ChangeEffect(b, if response.Committed? then Changed(b, c, r) else b, c, r, response)
  {
    TargetIs(b, c.target);
    ReplacementInsertNeverRefused(b, c);
    if TargetResponse(b, c.target).Committed? && !c.action.Revoke? {
      assert AuthorityKept(b, c.target.revision);
      var a := NewAuthority(b, c).value;
      EvidenceIs(b, c.reviewed, a);
      if c.action.Reaffirm? {
        ReaffirmMeans(b, c, r, a);
      } else {
        ApprovedIs(b, c, a);
        if Conflicts(b, a, Some(c.target.decision)) == c.approved {
          ReplaceMeans(b, c, r);
        }
      }
    }
  }

  /** In every reachable book a claim is there exactly when its revision is in force and its authority holds the
      claim's endpoint, and no endpoint is claimed twice. */
  lemma ClaimsAreHoldings(events: seq<Event>, x: Key, r: Key, q: Key)
    ensures var b := After(EMPTY, events);
            && (Claim(x, r) in b.claims <==>
                  InForce(b, r) && b.revisions[r].authority != None &&
                  Holds(b.revisions[r].authority.value) && IsAbout(b.revisions[r].authority.value, x))
            && (Claim(x, r) in b.claims && Claim(x, q) in b.claims ==> r == q)
  {
    ReachedKeeps(events);
    var b := After(EMPTY, events);
    ActiveIs(b, r);
    if r in b.revisions && b.revisions[r].authority.Some? {
      EndpointsAre(b.revisions[r].authority.value, x);
    }
    assert Claim(x, r) in b.claims <==> Entitled(b, r, x);
    if Claim(x, r) in b.claims && Claim(x, q) in b.claims {
      assert Claim(x, r) == Claim(x, q);
    }
  }
}
