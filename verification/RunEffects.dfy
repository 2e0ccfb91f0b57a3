/** What each transaction of the run store does, in the fields of its rows. */
module RunEffects {
  import opened Domain
  import opened Publication

  /** The manifest names what is present: the heads of its scope's datasets, the last policy and every generation. */
  ghost predicate Present(s: State, m: Manifest) {
    && m.scope in s.scopes && m.scopeGeneration == s.scopes[m.scope].generation
    && m.dataGeneration == s.generation && m.resolutionGeneration == s.resolutionGeneration
    && s.scopes[m.scope].left in s.datasets && s.datasets[s.scopes[m.scope].left] == Some(m.left)
    && s.scopes[m.scope].right in s.datasets && s.datasets[s.scopes[m.scope].right] == Some(m.right)
    && s.policies != [] && s.policies[|s.policies| - 1] == m.policy
  }

  /** What a run of this scope freezes now. */
  ghost predicate Freezes(s: State, scope: Key, m: Manifest) {
    m.scope == scope && Present(s, m) && m.decisions == s.decisions
  }

  /** The same manifest is never frozen twice, and a run of two equal revisions is refused. */
  ghost predicate CreateRunEffect(s: State, t: State, scope: Key, id: Key) {
    if m :| Freezes(s, scope, m) then
      if (exists r :: r in s.runs && s.runs[r].manifest == m) || m.left == m.right || id in s.runs then t == s
      else t == s.(runs := s.runs[id := Run(m, Frozen, Pending, None, false, false, None)])
    else t == s
  }

  /** Raised by one and dirty, with nothing else changed, in the given scopes only. */
  ghost predicate Dirtied(before: map<Key, Scope>, after: map<Key, Scope>, which: set<Key>) {
    && (forall k :: k in after <==> k in before)
    && (forall k :: k in before && k !in which ==> k in after && after[k] == before[k])
    && forall k :: k in before && k in which ==>
         k in after && after[k] == Scope(before[k].left, before[k].right, before[k].generation + 1, true, before[k].current)
  }

  /** The revision becomes the dataset's head, and exactly the scopes over that dataset are dirtied. */
  ghost predicate ActivateEffect(s: State, t: State, dataset: Key, revision: Key) {
    && t == s.(datasets := s.datasets[dataset := Some(revision)], generation := s.generation + 1, scopes := t.scopes)
    && Dirtied(s.scopes, t.scopes, set k | k in s.scopes && dataset in {s.scopes[k].left, s.scopes[k].right})
  }

  /** A new policy under the expected generation becomes the last one, and every scope is dirtied. */
  ghost predicate PolicyEffect(s: State, t: State, expected: int, digest: Key) {
    if expected == s.generation && digest !in s.policies then
      && t == s.(policies := s.policies + [digest], generation := s.generation + 1, scopes := t.scopes)
      && Dirtied(s.scopes, t.scopes, s.scopes.Keys)
    else t == s
  }

  ghost predicate DecideEffect(s: State, t: State, decisions: set<Key>) {
    && t == s.(decisions := decisions, resolutionGeneration := s.resolutionGeneration + 1, scopes := t.scopes)
    && Dirtied(s.scopes, t.scopes, s.scopes.Keys)
  }

  ghost predicate ScopeEffect(s: State, t: State, scope: Key, left: Key, right: Key) {
    if scope !in s.scopes && left != right && left in s.datasets && right in s.datasets then
      t == s.(scopes := s.scopes[scope := Scope(left, right, 0, true, None)])
    else t == s
  }

  ghost predicate HasHead(s: State, dataset: Key) {
    dataset in s.datasets && s.datasets[dataset] != None
  }

  /** With a head on both sides the scope is there afterwards, and so is a policy; a first policy dirties this scope
      alone. */
  ghost predicate ContextEffect(s: State, t: State, scope: Key, left: Key, right: Key, digest: Key) {
    if !HasHead(s, left) || !HasHead(s, right) then t == s
    else if scope !in s.scopes && left == right then t == s
    else if scope in s.scopes && !(s.scopes[scope].left == left && s.scopes[scope].right == right) then t == s
    else
      var was := if scope in s.scopes then s.scopes[scope] else Scope(left, right, 0, true, None);
      if s.policies != [] then t == s.(scopes := s.scopes[scope := was])
      else t == s.(scopes := s.scopes[scope := Scope(left, right, was.generation + 1, true, was.current)],
                   policies := [digest], generation := s.generation + 1)
  }

  /** A tokened attempt takes any run without a result, an untokened one only a frozen or failed run. */
  ghost predicate ClaimEffect(s: State, t: State, run: Key, token: Option<Key>) {
    if run in s.runs && s.runs[run].result == None && (token == None ==> s.runs[run].lifecycle in {Frozen, Failed}) then
      t == s.(runs := s.runs[run := Run(s.runs[run].manifest, Running, Pending, None, false, false, token)])
    else t == s
  }

  ghost predicate FailEffect(s: State, t: State, run: Key, token: Option<Key>) {
    if run in s.runs && s.runs[run].lifecycle == Running && s.runs[run].token == token then
      t == s.(runs := s.runs[run := Run(s.runs[run].manifest, Lifecycle.Failed, s.runs[run].freshness, s.runs[run].result,
                                        s.runs[run].completed, true, None)])
    else t == s
  }

  /** A running run that the token may finish is completed with the result; only one that names what is present
      becomes current, and takes over its scope. */
  ghost predicate PublishEffect(s: State, t: State, run: Key, token: Option<Key>, result: Outcome) {
    if run in s.runs && s.runs[run].manifest.scope in s.scopes && s.runs[run].lifecycle == Running &&
       (token == None || s.runs[run].token == token) && result.frozen == s.runs[run].manifest
    then
      var m := s.runs[run].manifest;
      if Present(s, m) then
        t == s.(runs := s.runs[run := Run(m, Completed, Current, Some(result), true, false, None)],
                scopes := s.scopes[m.scope := Scope(s.scopes[m.scope].left, s.scopes[m.scope].right,
                                                    s.scopes[m.scope].generation, false, Some(run))])
      else t == s.(runs := s.runs[run := Run(m, Completed, Stale, Some(result), true, false, None)])
    else t == s
  }

  // ----- the transitions have these effects -----

  lemma FreezesIs(s: State, scope: Key, m: Manifest)
    ensures Freezes(s, scope, m) <==> scope in s.scopes && ManifestNow(s, scope) == Some(m)
  {
  }

  lemma CreateRunMeans(s: State, scope: Key, id: Key)
    ensures CreateRunEffect(s, CreateRun(s, scope, id), scope, id)
  {
    forall m
      ensures Freezes(s, scope, m) <==> scope in s.scopes && ManifestNow(s, scope) == Some(m)
    {
      FreezesIs(s, scope, m);
    }
  }

  lemma ActivateMeans(s: State, dataset: Key, revision: Key)
    ensures ActivateEffect(s, Activate(s, dataset, revision), dataset, revision)
  {
  }

  lemma PolicyMeans(s: State, expected: int, digest: Key)
    ensures PolicyEffect(s, CreatePolicy(s, expected, digest), expected, digest)
  {
  }

  lemma DecideMeans(s: State, decisions: set<Key>)
    ensures DecideEffect(s, Decide(s, decisions), decisions)
  {
  }

  lemma ScopeMeans(s: State, scope: Key, left: Key, right: Key)
    ensures ScopeEffect(s, CreateScope(s, scope, left, right), scope, left, right)
  {
  }

  lemma ContextMeans(s: State, scope: Key, left: Key, right: Key, digest: Key)
    ensures ContextEffect(s, EnsureContext(s, scope, left, right, digest), scope, left, right, digest)
  {
    if scope in s.scopes {
      assert s.scopes[scope := s.scopes[scope]] == s.scopes;
    }
    var made := CreateScope(s, scope, left, right);
    if scope in made.scopes {
      assert Bumped(made.scopes, {scope}) == made.scopes[scope := Bump(made.scopes[scope])];
      assert made.scopes[scope := Bump(made.scopes[scope])] == s.scopes[scope := Bump(made.scopes[scope])];
    }
  }

  lemma ClaimMeans(s: State, run: Key, token: Option<Key>)
    ensures ClaimEffect(s, Claim(s, run, token), run, token)
  {
  }

  lemma FailMeans(s: State, run: Key, token: Option<Key>)
    ensures FailEffect(s, Fail(s, run, token), run, token)
  {
  }

  lemma PublishMeans(s: State, run: Key, token: Option<Key>, result: Outcome)
    ensures PublishEffect(s,
              if Publishes(s, run, token) && result == OutcomeOf(s.runs[run].manifest) then Publish(s, run, result) else s,
              run, token, result)
  {
    if Publishes(s, run, token) {
      assert UpToDate(s, s.runs[run].manifest) <==> Present(s, s.runs[run].manifest);
    }
  }

  // ----- attempts -----

  /** Only this attempt's phase changes, and nothing of the store. */
  ghost predicate OnlyPhase(w: World, v: World, a: Key, phase: Phase) {
    && a in w.attempts && v.attempts == w.attempts[a := Attempt(w.attempts[a].run, w.attempts[a].token, phase)]
    && v.s == w.s && v.starters == w.starters && v.log == w.log
  }

  /** A new attempt is refused at once on a completed run, and without a token on a running one. */
  ghost predicate BeginStep(w: World, v: World, a: Key, run: Key, token: Option<Key>) {
    if a in w.attempts || run !in w.s.runs || (token != None && exists b :: b in w.attempts && w.attempts[b].token == token)
    then v == w
    else
      var lifecycle := w.s.runs[run].lifecycle;
      var refused := lifecycle == Completed || (token == None && lifecycle == Running);
      v == w.(attempts := w.attempts[a := Attempt(run, token, if refused then Done else Reading)])
  }

  /** A reading attempt starts its run if it may, and is its last starter then; otherwise it is over. */
  ghost predicate StartStep(w: World, v: World, a: Key) {
    if a !in w.attempts || w.attempts[a].phase != Reading then v == w
    else
      var run, token := w.attempts[a].run, w.attempts[a].token;
      if run in w.s.runs && w.s.runs[run].result == None && (token == None ==> w.s.runs[run].lifecycle in {Frozen, Failed}) then
        && ClaimEffect(w.s, v.s, run, token) && v.starters == w.starters[run := a] && v.log == w.log
        && v.attempts == w.attempts[a := Attempt(run, token, Working)]
      else OnlyPhase(w, v, a, Done)
  }

  /** A working attempt computes the result on what its run froze, or fails; a completed run counts as a failure. */
  ghost predicate WorkStep(w: World, v: World, a: Key, ok: bool) {
    if a !in w.attempts || w.attempts[a].phase != Working then v == w
    else
      var run := w.attempts[a].run;
      if ok && run in w.s.runs && w.s.runs[run].lifecycle != Completed then
        OnlyPhase(w, v, a, Computed(OutcomeOf(w.s.runs[run].manifest)))
      else OnlyPhase(w, v, a, Failing)
  }

  ghost predicate MayPublish(s: State, run: Key, token: Option<Key>, result: Outcome) {
    && run in s.runs && s.runs[run].manifest.scope in s.scopes && s.runs[run].lifecycle == Running
    && (token == None || s.runs[run].token == token) && result.frozen == s.runs[run].manifest
  }

  /** An attempt with a result publishes it if it may, and is over then; refused, it fails. */
  ghost predicate FinishStep(w: World, v: World, a: Key, ok: bool) {
    if a !in w.attempts || !w.attempts[a].phase.Computed? then v == w
    else
      var run, token, result := w.attempts[a].run, w.attempts[a].token, w.attempts[a].phase.result;
      if ok && MayPublish(w.s, run, token, result) then
        && PublishEffect(w.s, v.s, run, token, result) && v.starters == w.starters
        && |v.log| == |w.log| + 1 && v.log[..|w.log|] == w.log
        && v.log[|w.log|].run == run && v.log[|w.log|].attempt == a && v.log[|w.log|].result == result
        && v.attempts == w.attempts[a := Attempt(run, token, Done)]
      else OnlyPhase(w, v, a, Failing)
  }

  /** A failing attempt is over after its failure update. */
  ghost predicate GiveUpStep(w: World, v: World, a: Key) {
    if a !in w.attempts || w.attempts[a].phase != Failing then v == w
    else
      && FailEffect(w.s, v.s, w.attempts[a].run, w.attempts[a].token) && v.starters == w.starters && v.log == w.log
      && v.attempts == w.attempts[a := Attempt(w.attempts[a].run, w.attempts[a].token, Done)]
  }

  ghost predicate StoreStep(w: World, v: World) {
    v.attempts == w.attempts && v.starters == w.starters && v.log == w.log
  }

  /** Every event is one of these steps. */
  lemma StepMeans(w: World, e: Event)
    ensures match e
            case CreatesRun(scope, id) => StoreStep(w, Next(w, e)) && CreateRunEffect(w.s, Next(w, e).s, scope, id)
            case CreatesScope(scope, left, right) =>
              StoreStep(w, Next(w, e)) && ScopeEffect(w.s, Next(w, e).s, scope, left, right)
            case Activates(dataset, revision) =>
              StoreStep(w, Next(w, e)) && ActivateEffect(w.s, Next(w, e).s, dataset, revision)
            case CreatesPolicy(expected, digest) =>
              StoreStep(w, Next(w, e)) && PolicyEffect(w.s, Next(w, e).s, expected, digest)
            case EnsuresContext(scope, left, right, digest) =>
              StoreStep(w, Next(w, e)) && ContextEffect(w.s, Next(w, e).s, scope, left, right, digest)
            case Decides(decisions) => StoreStep(w, Next(w, e)) && DecideEffect(w.s, Next(w, e).s, decisions)
            case Begins(a, run, token) => BeginStep(w, Next(w, e), a, run, token)
            case ClaimsRun(a) => StartStep(w, Next(w, e), a)
            case Computes(a, ok) => WorkStep(w, Next(w, e), a, ok)
            case PublishesRun(a, ok) => FinishStep(w, Next(w, e), a, ok)
            case FailsRun(a) => GiveUpStep(w, Next(w, e), a)
  {
    match e
    case CreatesRun(scope, id) => CreateRunMeans(w.s, scope, id);
    case CreatesScope(scope, left, right) => ScopeMeans(w.s, scope, left, right);
    case Activates(dataset, revision) => ActivateMeans(w.s, dataset, revision);
    case CreatesPolicy(expected, digest) => PolicyMeans(w.s, expected, digest);
    case EnsuresContext(scope, left, right, digest) => ContextMeans(w.s, scope, left, right, digest);
    case Decides(decisions) => DecideMeans(w.s, decisions);
    case Begins(a, run, token) =>
    case ClaimsRun(a) => StartMeans(w, a);
    case Computes(a, ok) =>
    case PublishesRun(a, ok) => FinishMeans(w, a, ok);
    case FailsRun(a) =>
      if a in w.attempts {
        FailMeans(w.s, w.attempts[a].run, w.attempts[a].token);
      }
  }

  lemma StartMeans(w: World, a: Key)
    ensures StartStep(w, ClaimStep(w, a), a)
  {
    if a in w.attempts {
      ClaimMeans(w.s, w.attempts[a].run, w.attempts[a].token);
    }
  }

  lemma FinishMeans(w: World, a: Key, ok: bool)
    ensures FinishStep(w, PublishStep(w, a, ok), a, ok)
  {
    if a in w.attempts && w.attempts[a].phase.Computed? {
      PublishMeans(w.s, w.attempts[a].run, w.attempts[a].token, w.attempts[a].phase.result);
    }
  }

  /** In every interleaving a run's columns fit its lifecycle: a result, a completion time and a freshness exactly when it
      is completed, a failure exactly when it failed, a token only while it runs. */
  lemma RowsFitTheirLifecycle(datasets: map<Key, Option<Key>>, events: seq<Event>, run: Key)
    requires run in Reached(datasets, events).s.runs
    ensures var r := Reached(datasets, events).s.runs[run];
            && (r.lifecycle == Completed <==> r.result != None) && (r.lifecycle == Completed <==> r.completed)
            && (r.lifecycle == Completed <==> r.freshness != Pending)
            && (r.lifecycle == Failed <==> r.failure) && (r.token != None ==> r.lifecycle == Running)
  {
    ReachedKeeps(datasets, events);
    RowFits(Reached(datasets, events).s, run);
  }

  lemma RowFits(s: State, run: Key)
    requires RowsAllowed(s) && run in s.runs
    ensures s.runs[run].Allowed()
  {
  }

  // ----- what a change means for runs -----

  /** No run froze a generation that is still to come. */
  ghost predicate FrozenInThePast(s: State) {
    forall r :: r in s.runs ==>
      && s.runs[r].manifest.dataGeneration <= s.generation
      && s.runs[r].manifest.resolutionGeneration <= s.resolutionGeneration
  }

  lemma PastStep(w: World, e: Event)
    requires FrozenInThePast(w.s)
    ensures FrozenInThePast(Next(w, e).s)
  {
    if e.EnsuresContext? {
      ContextMeans(w.s, e.scope, e.left, e.right, e.digest);
    }
  }

  lemma {:induction false} AlwaysInThePast(datasets: map<Key, Option<Key>>, events: seq<Event>)
    ensures FrozenInThePast(Reached(datasets, events).s)
  {
    if events != [] {
      AlwaysInThePast(datasets, events[..|events| - 1]);
      PastStep(Reached(datasets, events[..|events| - 1]), events[|events| - 1]);
    }
  }

  /** The event changes what runs are made from: a head revision, the policy, or the decisions. */
  ghost predicate ChangesInputs(s: State, e: Event) {
    || e.Activates? || e.Decides? || (e.CreatesPolicy? && e.expected == s.generation && e.digest !in s.policies)
  }

  /** After any activation, decision change or new policy of the book no run frozen before is up to date any more, so
      that it can only be published as stale, whatever its scope. */
  lemma ChangesOutdateRuns(datasets: map<Key, Option<Key>>, events: seq<Event>, e: Event, run: Key)
    requires run in Reached(datasets, events).s.runs && ChangesInputs(Reached(datasets, events).s, e)
    ensures var v := Next(Reached(datasets, events), e);
            run in v.s.runs && !Present(v.s, v.s.runs[run].manifest)
  {
    AlwaysInThePast(datasets, events);
    OutdatedStep(Reached(datasets, events), e, run);
  }

  lemma OutdatedStep(w: World, e: Event, run: Key)
    requires FrozenInThePast(w.s) && run in w.s.runs && ChangesInputs(w.s, e)
    ensures run in Next(w, e).s.runs && !Present(Next(w, e).s, Next(w, e).s.runs[run].manifest)
  {
  }

  /** The next run of a scope is made from what the change brought. */
  lemma ChangesReachTheNextRun(w: World, e: Event, scope: Key, m: Manifest)
    requires ChangesInputs(w.s, e) && Freezes(Next(w, e).s, scope, m)
    ensures scope in w.s.scopes
    ensures e.CreatesPolicy? ==> m.policy == e.digest
    ensures e.Decides? ==> m.decisions == e.decisions
    ensures e.Activates? && w.s.scopes[scope].left == e.dataset ==> m.left == e.revision
    ensures e.Activates? && w.s.scopes[scope].right == e.dataset ==> m.right == e.revision
  {
    assert Next(w, e).s.scopes.Keys == w.s.scopes.Keys;
  }
}
