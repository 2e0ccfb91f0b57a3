/** The run store as the services update it: each locked transaction is one method, proved against the
    transitions whose runs the publication theorems quantify over. */
module RunService {
  import opened Domain
  import opened Publication
  import opened RunEffects

  /** No other run is touched, none is lost, and this one keeps what it froze. */
  predicate OnlyThisRun(before: map<Key, Run>, after: map<Key, Run>, run: Key) {
    && after.Keys == before.Keys
    && (forall r :: r in before && r != run ==> after[r] == before[r])
    && (run in before ==> after[run].manifest == before[run].manifest)
  }

  class RunStore {
    var generation: nat
    var resolutionGeneration: nat
    var policies: seq<Key>
    var decisions: set<Key>
    var datasets: map<Key, Option<Key>>
    var scopes: map<Key, Scope>
    var runs: map<Key, Run>

    constructor (datasets: map<Key, Option<Key>>)
      ensures View() == Initial(datasets).s
    {
      generation, resolutionGeneration, policies, decisions := 0, 0, [], {};
      this.datasets, scopes, runs := datasets, map[], map[];
    }

    function View(): State
      reads this
    {
      State(generation, resolutionGeneration, policies, decisions, datasets, scopes, runs)
    }

    /** Raise the generation of the given scopes and mark them dirty. */
    method DirtyScopes(which: set<Key>)
      modifies this`scopes
      ensures scopes == Bumped(old(scopes), which)
    {
      var waiting := scopes.Keys * which;
      while waiting != {}
        invariant scopes.Keys == old(scopes).Keys && waiting <= scopes.Keys * which
        invariant forall k :: k in scopes ==>
                    scopes[k] == if k in which && k !in waiting then Bump(old(scopes)[k]) else old(scopes)[k]
        decreases waiting
      {
        var k :| k in waiting;
        scopes := scopes[k := Bump(scopes[k])];
        waiting := waiting - {k};
      }
    }

    method FindRun(m: Manifest) returns (found: Option<Key>)
      ensures found.Some? ==> found.value in runs && runs[found.value].manifest == m
      ensures found.None? ==> !HasManifest(View(), m)
    {
      var waiting := runs.Keys;
      while waiting != {}
        invariant waiting <= runs.Keys
        invariant forall r :: r in runs && r !in waiting ==> runs[r].manifest != m
        decreases waiting
      {
        var r :| r in waiting;
        if runs[r].manifest == m {
          return Some(r);
        }
        waiting := waiting - {r};
      }
      found := None;
    }

    /** Freezing an unchanged manifest again gives the existing run. */
    method CreateRunManifest(scope: Key, id: Key) returns (run: Option<Key>)
      requires id !in runs
      modifies this`runs
      ensures View() == CreateRun(old(View()), scope, id)
      ensures run.Some? ==> scope in old(View()).scopes && run.value in runs &&
                            Some(runs[run.value].manifest) == ManifestNow(old(View()), scope)
      ensures run.None? <==> scope !in old(View()).scopes || ManifestNow(old(View()), scope).None? ||
                             (!HasManifest(old(View()), ManifestNow(old(View()), scope).value) &&
                              ManifestNow(old(View()), scope).value.left == ManifestNow(old(View()), scope).value.right)
      ensures CreateRunEffect(old(View()), View(), scope, id)
    {
      CreateRunMeans(View(), scope, id);
      if scope !in scopes {
        return None;
      }
      var m := ManifestNow(View(), scope);
      if m.None? {
        return None;
      }
      var existing := FindRun(m.value);
      if existing.Some? {
        return existing;
      }
      if m.value.left == m.value.right {
        return None;
      }
      runs := runs[id := NewRun(m.value)];
      run := Some(id);
    }

    method CreateReconciliationScope(scope: Key, left: Key, right: Key)
      modifies this`scopes
      ensures View() == CreateScope(old(View()), scope, left, right)
      ensures forall k :: k in old(scopes) ==> k in scopes && scopes[k] == old(scopes)[k]
      ensures forall k :: k in scopes && k !in old(scopes) ==> k == scope && scopes[k].dirty && scopes[k].current.None?
      ensures ScopeEffect(old(View()), View(), scope, left, right)
    {
      ScopeMeans(View(), scope, left, right);
      if scope in scopes || left == right || left !in datasets || right !in datasets {
        return;
      }
      scopes := scopes[scope := Scope(left, right, 0, true, None)];
    }

    /** A new head revision advances the book's data generation and dirties only the consuming scopes. */
    method ActivateDataset(dataset: Key, revision: Key)
      modifies this`datasets, this`generation, this`scopes
      ensures View() == Activate(old(View()), dataset, revision)
      ensures forall k :: k in scopes <==> k in old(scopes)
      ensures forall k :: k in scopes && dataset in {scopes[k].left, scopes[k].right} ==>
                scopes[k].dirty && scopes[k].generation == old(scopes)[k].generation + 1
      ensures forall k :: k in scopes && dataset !in {scopes[k].left, scopes[k].right} ==> scopes[k] == old(scopes)[k]
      ensures ActivateEffect(old(View()), View(), dataset, revision)
    {
      ActivateMeans(View(), dataset, revision);
      datasets := datasets[dataset := Some(revision)];
      generation := generation + 1;
      DirtyScopes(Consumers(scopes, dataset));
    }

    method CreatePolicyRevision(expected: int, digest: Key) returns (conflict: bool)
      modifies this`policies, this`generation, this`scopes
      ensures conflict <==> expected != old(generation)
      ensures View() == CreatePolicy(old(View()), expected, digest)
      ensures !conflict ==> digest in policies
      ensures policies != old(policies) ==> forall k :: k in scopes ==> scopes[k].dirty
      ensures policies == old(policies) ==> scopes == old(scopes) && generation == old(generation)
      ensures PolicyEffect(old(View()), View(), expected, digest)
    {
      PolicyMeans(View(), expected, digest);
      conflict := expected != generation;
      if conflict || digest in policies {
        return;
      }
      policies := policies + [digest];
      generation := generation + 1;
      DirtyScopes(scopes.Keys);
    }

    method EnsureRunContext(scope: Key, left: Key, right: Key, digest: Key)
      modifies this`policies, this`generation, this`scopes
      ensures View() == EnsureContext(old(View()), scope, left, right, digest)
      ensures forall k :: k in old(scopes) && k != scope ==> k in scopes && scopes[k] == old(scopes)[k]
      ensures old(policies) != [] ==> policies == old(policies)
      ensures ContextEffect(old(View()), View(), scope, left, right, digest)
    {
      ContextMeans(View(), scope, left, right, digest);
      if HeadOf(View(), left).None? || HeadOf(View(), right).None? {
        return;
      }
      var before := scopes;
      CreateReconciliationScope(scope, left, right);
      if scope !in scopes || scopes[scope].left != left || scopes[scope].right != right {
        scopes := before;
        return;
      }
      if policies == [] {
        policies := [digest];
        generation := generation + 1;
        DirtyScopes({scope});
      }
    }

    /** Every committed decision change advances the resolution generation and dirties all scopes. */
    method CommitDecisions(active: set<Key>)
      modifies this`decisions, this`resolutionGeneration, this`scopes
      ensures View() == Decide(old(View()), active)
      ensures forall k :: k in scopes ==> k in old(scopes) && scopes[k].dirty && scopes[k].current == old(scopes)[k].current
      ensures DecideEffect(old(View()), View(), active)
    {
      DecideMeans(View(), active);
      decisions := active;
      resolutionGeneration := resolutionGeneration + 1;
      DirtyScopes(scopes.Keys);
    }

    /** The claiming update. It filters on the lifecycle only for untokened attempts; a row it would write
        against the table's constraints is refused, which is what protects completed runs. */
    method ClaimRun(run: Key, token: Option<Key>) returns (claimed: bool)
      modifies this`runs
      ensures claimed <==> Claims(old(View()), run, token)
      ensures View() == Claim(old(View()), run, token)
      ensures run in old(View()).runs && old(View()).runs[run].Allowed() && claimed ==>
                !old(View()).runs[run].lifecycle.Completed?
      ensures OnlyThisRun(old(runs), runs, run)
      ensures ClaimEffect(old(View()), View(), run, token)
    {
      ClaimMeans(View(), run, token);
      if run !in runs || (token.None? && !MayStart(runs[run])) {
        return false;
      }
      var row := runs[run].(lifecycle := Running, freshness := Pending, completed := false, failure := false, token := token);
      if !row.Allowed() {
        return false;
      }
      runs := runs[run := row];
      claimed := true;
    }

    /** The locked publication. A run that is not up to date is completed as stale and leaves its scope alone. */
    method PublishRun(run: Key, token: Option<Key>, result: Outcome) returns (published: bool)
      modifies this`runs, this`scopes
      ensures published <==> Publishes(old(View()), run, token) && result == OutcomeOf(old(View()).runs[run].manifest)
      ensures View() == if published then Publish(old(View()), run, result) else old(View())
      ensures OnlyThisRun(old(runs), runs, run)
      ensures published ==> !old(runs)[run].lifecycle.Completed? && runs[run].lifecycle.Completed? && runs[run].result == Some(result)
      ensures published && runs[run].freshness.Stale? ==> scopes == old(scopes)
      ensures forall k :: k in scopes && (run !in runs || runs[run].manifest.scope != k) ==> k in old(scopes) && scopes[k] == old(scopes)[k]
      ensures PublishEffect(old(View()), View(), run, token, result)
    {
      PublishMeans(View(), run, token, result);
      if run !in runs || runs[run].manifest.scope !in scopes || !runs[run].lifecycle.Running? {
        return false;
      }
      if token.Some? && runs[run].token != token {
        return false;
      }
      var m := runs[run].manifest;
      if result != OutcomeOf(m) {
        return false;
      }
      var upToDate := UpToDate(View(), m);
      runs := runs[run := runs[run].(lifecycle := Completed, freshness := if upToDate then Current else Stale,
                                     result := Some(result), completed := true, failure := false, token := None)];
      if upToDate {
        scopes := scopes[m.scope := scopes[m.scope].(current := Some(run), dirty := false)];
      }
      published := true;
    }

    /** The update after a failure reaches only a run this attempt still holds. */
    method FailRun(run: Key, token: Option<Key>)
      modifies this`runs
      ensures View() == Fail(old(View()), run, token)
      ensures OnlyThisRun(old(runs), runs, run)
      ensures run in old(runs) && (old(runs)[run].lifecycle.Completed? || old(runs)[run].token != token) ==> runs == old(runs)
      ensures FailEffect(old(View()), View(), run, token)
    {
      FailMeans(View(), run, token);
      if run in runs && runs[run].lifecycle.Running? && runs[run].token == token {
        runs := runs[run := runs[run].(lifecycle := Failed, failure := true, token := None)];
      }
    }
  }
}
