/** The decision store as the command service updates it: each commit is one locked transaction, proved
    against the transitions whose runs the claim and chain theorems quantify over. */
module DecisionService {
  import opened Domain
  import opened Resolutions
  import opened DecisionEffects

  /** What a reviewer is shown before approving a replacement. */
  datatype Preview = Preview(target: Target, authority: Authority, conflicts: set<Target>, generation: nat)

  class DecisionStore {
    var generation: nat
    var decisions: map<Key, Key>
    var revisions: map<Key, Revision>
    var supersessions: set<Supersession>
    var claims: set<Claim>
    var logicals: map<Key, RecordSide>
    var observations: map<Key, Key>

    constructor ()
      ensures View() == EMPTY && Inv(View())
    {
      generation, decisions, revisions, supersessions := 0, map[], map[], {};
      claims, logicals, observations := {}, map[], map[];
      new;
      ReachedKeeps([]);
    }

    function View(): Book
      reads this
    {
      Book(generation, decisions, revisions, supersessions, claims, logicals, observations)
    }

    /** The decisions whose claims overlap the authority's endpoints. */
    method ClaimConflicts(a: Authority, excluded: Option<Key>) returns (conflicts: set<Target>)
      requires ClaimsKept(View())
      ensures conflicts == Conflicts(View(), a, excluded)
    {
      conflicts := {};
      if !a.Reserves() {
        return;
      }
      var waiting := claims;
      while waiting != {}
        invariant waiting <= claims
        invariant conflicts == Conflicts(View().(claims := claims - waiting), a, excluded)
        decreases waiting
      {
        var c :| c in waiting;
        assert Claim(c.logical, c.revision) in claims;
        assert Entitled(View(), c.revision, c.logical);
        if c.logical in a.Endpoints() && Some(revisions[c.revision].decision) != excluded {
          conflicts := conflicts + {Target(revisions[c.revision].decision, c.revision)};
        }
        OneMoreClaim(View(), claims - waiting, a, excluded, c);
        assert claims - (waiting - {c}) == claims - waiting + {c};
        waiting := waiting - {c};
      }
      assert claims - waiting == claims;
    }

    /** Insert one claim per endpoint; the table refuses a second claim of one endpoint, and a refusal undoes
        the whole insert. */
    method InsertClaims(endpoints: set<Key>, r: Key) returns (refused: bool)
      requires forall c :: c in claims ==> c.revision != r
      modifies this`claims
      ensures refused <==> Claimed(old(claims), endpoints)
      ensures claims == if refused then old(claims) else old(claims) + ClaimsFor(endpoints, r)
    {
      var before, waiting := claims, endpoints;
      ghost var done: set<Key> := {};
      while waiting != {}
        invariant done + waiting == endpoints && done !! waiting
        invariant claims == before + ClaimsFor(done, r) && !Claimed(before, done)
        decreases waiting
      {
        var x :| x in waiting;
        if exists c :: c in claims && c.logical == x {
          ClaimedElsewhere(before, done, r, x, endpoints);
          claims := before;
          return true;
        }
        assert ClaimsFor(done + {x}, r) == ClaimsFor(done, r) + {Claim(x, r)};
        claims := claims + {Claim(x, r)};
        waiting, done := waiting - {x}, done + {x};
      }
      assert done == endpoints;
      refused := false;
    }

    method CommitInitial(a: Authority, expected: int, reviewed: set<Key>, d: Key, r: Key) returns (response: Response)
      requires Inv(View()) && a.Valid() && d !in decisions && r !in revisions
      modifies this`generation, this`decisions, this`revisions, this`claims
      ensures response == EstablishResponse(old(View()), a, expected, reviewed)
      ensures View() == if response.Committed? then Established(old(View()), a, d, r) else old(View())
      ensures Inv(View()) && !response.InsertRefused?
      ensures EstablishEffect(old(View()), View(), a, expected, reviewed, d, r, response)
    {
      EstablishMeans(View(), a, expected, reviewed, d, r);
      InitialInsertNeverRefused(View(), a, expected, reviewed);
      if generation != expected {
        return StaleGeneration;
      }
      if !Resolves(View(), a) || !Reviews(View(), reviewed, a) {
        return Unavailable;
      }
      var conflicts := ClaimConflicts(a, None);
      if conflicts != {} {
        return EndpointClaimed;
      }
      EstablishKeeps(View(), a, d, r, expected, reviewed);
      NewRevisionHasNoClaim(View(), r);
      if a.Reserves() {
        var refused := InsertClaims(a.Endpoints(), r);
        if refused {
          return InsertRefused;
        }
      }
      decisions := decisions[d := r];
      revisions := revisions[r := Revision(d, None, 1, Establish, Some(a))];
      generation := generation + 1;
      response := Committed;
    }

    /** The target must be the decision's current revision, and still active. */
    method CurrentRevision(t: Target) returns (response: Response)
      ensures response == TargetResponse(View(), t)
    {
      if t.decision !in decisions || decisions[t.decision] !in revisions {
        return Unavailable;
      }
      if decisions[t.decision] != t.revision {
        return StaleRevision;
      }
      if revisions[t.revision].action.Revoke? || Superseded(View(), t.revision) {
        return StaleRevision;
      }
      response := Committed;
    }

    method PreviewReplacement(t: Target, a: Authority) returns (response: Response, preview: Option<Preview>)
      requires Inv(View())
      ensures preview.Some? <==> TargetResponse(View(), t).Committed? && Resolves(View(), a)
      ensures preview.Some? ==> preview.value == Preview(t, a, Conflicts(View(), a, Some(t.decision)), generation)
      ensures preview.Some? ==>
                forall q :: q in preview.value.conflicts <==> Contests(View(), a, Some(t.decision), q)
    {
      preview := None;
      response := CurrentRevision(t);
      if !response.Committed? {
        return;
      }
      if !Resolves(View(), a) {
        return Unavailable, None;
      }
      var conflicts := ClaimConflicts(a, Some(t.decision));
      preview := Some(Preview(t, a, conflicts, generation));
      forall q
        ensures q in conflicts <==> Contests(View(), a, Some(t.decision), q)
      {
        ConflictIs(View(), a, Some(t.decision), q);
      }
    }

    /** What a reaffirmation or replacement must still satisfy once its target is known to be active. */
    method CheckChange(c: Change) returns (response: Response)
      requires Inv(View()) && c.Valid() && generation == c.expected && TargetResponse(View(), c.target).Committed?
      ensures ChangeResponse(View(), c) == response
      ensures !response.InsertRefused?
    {
      ReplacementInsertNeverRefused(View(), c);
      if c.action.Revoke? {
        return Committed;
      }
      var authority := NewAuthority(View(), c);
      if authority.None? {
        return Unavailable;
      }
      var a := authority.value;
      if !Resolves(View(), a) || !Reviews(View(), c.reviewed, a) {
        return Unavailable;
      }
      if c.action.Replace? {
        var actual := ClaimConflicts(a, Some(c.target.decision));
        if actual != c.approved {
          return ConflictSetChanged;
        }
      }
      response := Committed;
    }

    /** The claims move to a reaffirmation, disappear with a revocation, and pass from everything a
        replacement supersedes to the replacement. */
    method MoveClaims(c: Change, r: Key) returns (refused: bool)
      requires Inv(View()) && Commits(View(), c, r)
      modifies this`claims, this`supersessions
      ensures !refused
      ensures claims == Changed(old(View()), c, r).claims && supersessions == Changed(old(View()), c, r).supersessions
    {
      NewRevisionHasNoClaim(View(), r);
      if c.action.Reaffirm? {
        claims := Moved(claims, c.target.revision, r);
      } else if c.action.Revoke? {
        claims := Without(claims, {c.target.revision});
      } else {
        var superseded := Superseding(View(), c);
        supersessions := supersessions + (set x | x in superseded :: Supersession(r, x));
        claims := Without(claims, superseded);
        if c.authority.value.Reserves() {
          refused := InsertClaims(c.authority.value.Endpoints(), r);
          return;
        }
      }
      refused := false;
    }

    method DecideChange(c: Change) returns (response: Response)
      requires Inv(View()) && c.Valid()
      ensures response == ChangeResponse(View(), c) && !response.InsertRefused?
    {
      if generation != c.expected {
        return StaleGeneration;
      }
      response := CurrentRevision(c.target);
      if response.Committed? {
        response := CheckChange(c);
      }
    }

    method AppendRevision(c: Change, r: Key)
      requires Inv(View()) && Commits(View(), c, r)
      modifies this`generation, this`decisions, this`revisions, this`claims, this`supersessions
      ensures View() == Changed(old(View()), c, r)
    {
      var row := Revision(c.target.decision, Some(c.target.revision), revisions[c.target.revision].number + 1, c.action,
                          NewAuthority(View(), c));
      var refused := MoveClaims(c, r);
      decisions := decisions[c.target.decision := r];
      revisions := revisions[r := row];
      generation := generation + 1;
    }

    method CommitChange(c: Change, r: Key) returns (response: Response)
      requires Inv(View()) && c.Valid() && r !in revisions
      modifies this`generation, this`decisions, this`revisions, this`claims, this`supersessions
      ensures response == ChangeResponse(old(View()), c)
      ensures View() == if response.Committed? then Changed(old(View()), c, r) else old(View())
      ensures Inv(View()) && !response.InsertRefused?
      ensures ChangeEffect(old(View()), View(), c, r, response)
    {
      ChangeMeans(View(), c, r);
      response := DecideChange(c);
      if response.Committed? {
        ChangeKeeps(View(), c, r);
        AppendRevision(c, r);
      }
    }
  }

  lemma OneMoreClaim(b: Book, done: set<Claim>, a: Authority, excluded: Option<Key>, c: Claim)
    requires a.Reserves() && c.revision in b.revisions
    ensures Conflicts(b.(claims := done + {c}), a, excluded) ==
            Conflicts(b.(claims := done), a, excluded) +
            if c.logical in a.Endpoints() && Some(b.revisions[c.revision].decision) != excluded then
              {Target(b.revisions[c.revision].decision, c.revision)}
            else {}
  {
    var more, before := Conflicts(b.(claims := done + {c}), a, excluded), Conflicts(b.(claims := done), a, excluded);
    forall t | t in before
      ensures t in more
    {
      var k :| k in done && k.logical in a.Endpoints() && k.revision in b.revisions &&
               Some(b.revisions[k.revision].decision) != excluded && t == Target(b.revisions[k.revision].decision, k.revision);
      assert k in done + {c};
    }
    assert c in done + {c};
  }

  lemma ClaimedElsewhere(before: set<Claim>, done: set<Key>, r: Key, x: Key, endpoints: set<Key>)
    requires x in endpoints && x !in done && exists c :: c in before + ClaimsFor(done, r) && c.logical == x
    ensures Claimed(before, endpoints)
  {
    var c :| c in before + ClaimsFor(done, r) && c.logical == x;
    assert c in before;
  }

  lemma NewRevisionHasNoClaim(b: Book, r: Key)
    requires ClaimsKept(b) && r !in b.revisions
    ensures forall c :: c in b.claims ==> c.revision != r
  {
    forall c | c in b.claims
      ensures c.revision != r
    {
      assert Claim(c.logical, c.revision) in b.claims;
      assert Entitled(b, c.revision, c.logical);
    }
  }
}
