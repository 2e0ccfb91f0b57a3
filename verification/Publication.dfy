/** Run lifecycle and scope freshness as one shared store: every locked transaction is one step, and
    every unlocked read followed by an update is two. */
module Publication {
  import opened Domain

  type Key = nat

  datatype Lifecycle = Frozen | Running | Completed | Failed

  datatype Freshness = Pending | Current | Stale

  /** What a run froze when it was created; its digest stands for all of it. */
  datatype Manifest = Manifest(
    scope: Key, dataGeneration: nat, resolutionGeneration: nat, scopeGeneration: nat,
    left: Key, right: Key, policy: Key, decisions: set<Key>)

  /** The engine's result on the frozen inputs. They decide it: see FrozenInputsDecideResult in module
      Reconciliation. */
  datatype Outcome = OutcomeOf(frozen: Manifest)

  datatype Run = Run(
    manifest: Manifest, lifecycle: Lifecycle, freshness: Freshness, result: Option<Outcome>, completed: bool,
    failure: bool, token: Option<Key>)
  {
    /** The state-shape and token constraints of the table. */
    predicate Allowed() {
      && (|| (lifecycle.Completed? && !freshness.Pending? && result.Some? && completed && !failure)
          || ((lifecycle.Frozen? || lifecycle.Running?) && freshness.Pending? && result.None? && !completed && !failure)
          || (lifecycle.Failed? && freshness.Pending? && result.None? && !completed && failure))
      && (lifecycle.Running? || token.None?)
    }
  }

  datatype Scope = Scope(left: Key, right: Key, generation: nat, dirty: bool, current: Option<Key>)

  /** One book: its generations, policy revisions in order, active decisions, datasets, scopes and runs. */
  datatype State = State(
    generation: nat, resolutionGeneration: nat, policies: seq<Key>, decisions: set<Key>,
    datasets: map<Key, Option<Key>>, scopes: map<Key, Scope>, runs: map<Key, Run>)

  // ----- the transactions -----

  function HeadOf(s: State, dataset: Key): Option<Key> {
    if dataset in s.datasets then s.datasets[dataset] else None
  }

  function Bump(scope: Scope): Scope {
    scope.(generation := scope.generation + 1, dirty := true)
  }

  function Bumped(scopes: map<Key, Scope>, which: set<Key>): (after: map<Key, Scope>)
    ensures after.Keys == scopes.Keys
  {
    map k | k in scopes :: if k in which then Bump(scopes[k]) else scopes[k]
  }

  function Consumers(scopes: map<Key, Scope>, dataset: Key): set<Key> {
    set k | k in scopes && (scopes[k].left == dataset || scopes[k].right == dataset)
  }

  /** The manifest a run of this scope would freeze now. */
  function ManifestNow(s: State, scope: Key): Option<Manifest>
    requires scope in s.scopes
  {
    var left, right := HeadOf(s, s.scopes[scope].left), HeadOf(s, s.scopes[scope].right);
    if left.None? || right.None? || s.policies == [] then None
    else Some(Manifest(scope, s.generation, s.resolutionGeneration, s.scopes[scope].generation, left.value, right.value,
                       s.policies[|s.policies| - 1], s.decisions))
  }

  predicate HasManifest(s: State, m: Manifest) {
    exists r :: r in s.runs && s.runs[r].manifest == m
  }

  function NewRun(m: Manifest): Run {
    Run(m, Frozen, Pending, None, false, false, None)
  }

  /** Freezing the same manifest again reuses the run; two equal revisions violate a table constraint. */
  function CreateRun(s: State, scope: Key, id: Key): State {
    if scope !in s.scopes || ManifestNow(s, scope).None? then s
    else
      var m := ManifestNow(s, scope).value;
      if HasManifest(s, m) || m.left == m.right || id in s.runs then s else s.(runs := s.runs[id := NewRun(m)])
  }

  function CreateScope(s: State, scope: Key, left: Key, right: Key): State {
    if scope in s.scopes || left == right || left !in s.datasets || right !in s.datasets then s
    else s.(scopes := s.scopes[scope := Scope(left, right, 0, true, None)])
  }

  function Activate(s: State, dataset: Key, revision: Key): State {
    s.(datasets := s.datasets[dataset := Some(revision)], generation := s.generation + 1,
       scopes := Bumped(s.scopes, Consumers(s.scopes, dataset)))
  }

  /** A stale expectation is refused; an existing digest changes nothing. */
  function CreatePolicy(s: State, expected: int, digest: Key): State {
    if expected != s.generation || digest in s.policies then s
    else s.(policies := s.policies + [digest], generation := s.generation + 1, scopes := Bumped(s.scopes, s.scopes.Keys))
  }

  /** The workbench makes the default scope, and the first policy when the book has none; the policy then
      dirties this scope alone. */
  function EnsureContext(s: State, scope: Key, left: Key, right: Key, digest: Key): State {
    if HeadOf(s, left).None? || HeadOf(s, right).None? then s
    else
      var made := CreateScope(s, scope, left, right);
      if scope !in made.scopes || made.scopes[scope].left != left || made.scopes[scope].right != right then s
      else if made.policies != [] then made
      else made.(policies := [digest], generation := made.generation + 1, scopes := Bumped(made.scopes, {scope}))
  }

  function Decide(s: State, decisions: set<Key>): State {
    s.(decisions := decisions, resolutionGeneration := s.resolutionGeneration + 1,
       scopes := Bumped(s.scopes, s.scopes.Keys))
  }

  predicate MayStart(r: Run) {
    r.lifecycle.Frozen? || r.lifecycle.Failed?
  }

  function Started(r: Run, token: Option<Key>): Run {
    r.(lifecycle := Running, freshness := Pending, completed := false, failure := false, token := token)
  }

  /** Whether the claiming update takes effect: untokened attempts filter on the lifecycle, and the row it
      writes must satisfy the constraints. */
  predicate Claims(s: State, run: Key, token: Option<Key>) {
    run in s.runs && (token.None? ==> MayStart(s.runs[run])) && Started(s.runs[run], token).Allowed()
  }

  function Claim(s: State, run: Key, token: Option<Key>): State {
    if Claims(s, run, token) then s.(runs := s.runs[run := Started(s.runs[run], token)]) else s
  }

  /** Whether the locked publication accepts this attempt. */
  predicate Publishes(s: State, run: Key, token: Option<Key>) {
    && run in s.runs && s.runs[run].manifest.scope in s.scopes
    && s.runs[run].lifecycle.Running?
    && (token.Some? ==> s.runs[run].token == token)
  }

  predicate UpToDate(s: State, m: Manifest)
    requires m.scope in s.scopes
  {
    var scope := s.scopes[m.scope];
    && HeadOf(s, scope.left) == Some(m.left) && HeadOf(s, scope.right) == Some(m.right)
    && s.policies != [] && s.policies[|s.policies| - 1] == m.policy
    && s.generation == m.dataGeneration && s.resolutionGeneration == m.resolutionGeneration
    && scope.generation == m.scopeGeneration
  }

  function Finished(r: Run, result: Outcome, upToDate: bool): Run {
    r.(lifecycle := Completed, freshness := if upToDate then Current else Stale, result := Some(result), completed := true,
       failure := false, token := None)
  }

  function Publish(s: State, run: Key, result: Outcome): State
    requires run in s.runs && s.runs[run].manifest.scope in s.scopes
  {
    var m := s.runs[run].manifest;
    var upToDate := UpToDate(s, m);
    var done := s.(runs := s.runs[run := Finished(s.runs[run], result, upToDate)]);
    if upToDate then done.(scopes := s.scopes[m.scope := s.scopes[m.scope].(current := Some(run), dirty := false)]) else done
  }

  function Fallen(r: Run): Run {
    r.(lifecycle := Failed, failure := true, token := None)
  }

  predicate Falls(s: State, run: Key, token: Option<Key>) {
    run in s.runs && s.runs[run].lifecycle.Running? && s.runs[run].token == token
  }

  function Fail(s: State, run: Key, token: Option<Key>): State {
    if Falls(s, run, token) then s.(runs := s.runs[run := Fallen(s.runs[run])]) else s
  }

  // ----- attempts, interleaved in any way -----

  datatype Phase = Reading | Working | Computed(result: Outcome) | Failing | Done

  datatype Attempt = Attempt(run: Key, token: Option<Key>, phase: Phase)

  datatype Publication = Publication(run: Key, attempt: Key, result: Outcome)

  /** The store, every attempt's own position, who started each run last, and what was published. */
  datatype World = World(s: State, attempts: map<Key, Attempt>, starters: map<Key, Key>, log: seq<Publication>)

  datatype Event =
    | CreatesRun(scope: Key, id: Key)
    | CreatesScope(scope: Key, left: Key, right: Key)
    | Activates(dataset: Key, revision: Key)
    | CreatesPolicy(expected: int, digest: Key)
    | EnsuresContext(scope: Key, left: Key, right: Key, digest: Key)
    | Decides(decisions: set<Key>)
    | Begins(attempt: Key, run: Key, token: Option<Key>)
    | ClaimsRun(attempt: Key)
    | Computes(attempt: Key, ok: bool)
    | PublishesRun(attempt: Key, ok: bool)
    | FailsRun(attempt: Key)

  function At(w: World, a: Key, phase: Phase): World
    requires a in w.attempts
  {
    w.(attempts := w.attempts[a := w.attempts[a].(phase := phase)])
  }

  predicate InPhase(w: World, a: Key, phase: Phase) {
    a in w.attempts && w.attempts[a].phase == phase
  }

  predicate TokenUsed(w: World, token: Key) {
    exists a :: a in w.attempts && w.attempts[a].token == Some(token)
  }

  /** The unlocked read before the claiming update. Attempts and tokens are always new. */
  function Begin(w: World, a: Key, run: Key, token: Option<Key>): World {
    if a in w.attempts || run !in w.s.runs || (token.Some? && TokenUsed(w, token.value)) then w
    else
      var row := w.s.runs[run];
      var refused := row.lifecycle.Completed? || (token.None? && !MayStart(row));
      w.(attempts := w.attempts[a := Attempt(run, token, if refused then Done else Reading)])
  }

  function ClaimStep(w: World, a: Key): World {
    if !InPhase(w, a, Reading) then w
    else
      var (run, token) := (w.attempts[a].run, w.attempts[a].token);
      if Claims(w.s, run, token) then
        At(w, a, Working).(s := Claim(w.s, run, token), starters := w.starters[run := a])
      else At(w, a, Done)
  }

  /** Computing reads only the frozen inputs; it can also fail for reasons of its own. */
  function ComputeStep(w: World, a: Key, ok: bool): World {
    if !InPhase(w, a, Working) then w
    else
      var run := w.attempts[a].run;
      if !ok || run !in w.s.runs || w.s.runs[run].lifecycle.Completed? then At(w, a, Failing)
      else At(w, a, Computed(OutcomeOf(w.s.runs[run].manifest)))
  }

  predicate WillPublish(w: World, a: Key) {
    && a in w.attempts && w.attempts[a].phase.Computed?
    && Publishes(w.s, w.attempts[a].run, w.attempts[a].token)
    && w.attempts[a].phase.result.frozen == w.s.runs[w.attempts[a].run].manifest
  }

  function PublishStep(w: World, a: Key, ok: bool): World {
    if a !in w.attempts || !w.attempts[a].phase.Computed? then w
    else if !ok || !WillPublish(w, a) then At(w, a, Failing)
    else
      var (run, result) := (w.attempts[a].run, w.attempts[a].phase.result);
      At(w, a, Done).(s := Publish(w.s, run, result), log := w.log + [Publication(run, a, result)])
  }

  function FailStep(w: World, a: Key): World {
    if !InPhase(w, a, Failing) then w else At(w, a, Done).(s := Fail(w.s, w.attempts[a].run, w.attempts[a].token))
  }

  function Next(w: World, e: Event): World {
    match e
    case CreatesRun(scope, id) => w.(s := CreateRun(w.s, scope, id))
    case CreatesScope(scope, left, right) => w.(s := CreateScope(w.s, scope, left, right))
    case Activates(dataset, revision) => w.(s := Activate(w.s, dataset, revision))
    case CreatesPolicy(expected, digest) => w.(s := CreatePolicy(w.s, expected, digest))
    case EnsuresContext(scope, left, right, digest) => w.(s := EnsureContext(w.s, scope, left, right, digest))
    case Decides(decisions) => w.(s := Decide(w.s, decisions))
    case Begins(attempt, run, token) => Begin(w, attempt, run, token)
    case ClaimsRun(attempt) => ClaimStep(w, attempt)
    case Computes(attempt, ok) => ComputeStep(w, attempt, ok)
    case PublishesRun(attempt, ok) => PublishStep(w, attempt, ok)
    case FailsRun(attempt) => FailStep(w, attempt)
  }

  function Initial(datasets: map<Key, Option<Key>>): World {
    World(State(0, 0, [], {}, datasets, map[], map[]), map[], map[], [])
  }

  /** The world after a whole run of events. */
  function After(w: World, events: seq<Event>): World {
    if events == [] then w else Next(After(w, events[..|events| - 1]), events[|events| - 1])
  }

  function Reached(datasets: map<Key, Option<Key>>, events: seq<Event>): World {
    After(Initial(datasets), events)
  }

  // ----- what every step keeps -----

  ghost predicate RowsAllowed(s: State) {
    && (forall r :: r in s.runs ==> s.runs[r].Allowed() && s.runs[r].manifest.scope in s.scopes)
    && (s.runs != map[] ==> s.policies != [])
  }

  ghost predicate ManifestsDiffer(s: State) {
    forall r, q :: r in s.runs && q in s.runs && s.runs[r].manifest == s.runs[q].manifest ==> r == q
  }

  /** A run of the scope's present generation froze what is still present. */
  ghost predicate Matches(s: State, m: Manifest)
    requires m.scope in s.scopes
  {
    var scope := s.scopes[m.scope];
    && HeadOf(s, scope.left) == Some(m.left) && HeadOf(s, scope.right) == Some(m.right)
    && s.policies != [] && s.policies[|s.policies| - 1] == m.policy
    && s.resolutionGeneration == m.resolutionGeneration && s.decisions == m.decisions
  }

  ghost predicate Tracks(s: State, m: Manifest) {
    && m.scope in s.scopes
    && m.scopeGeneration <= s.scopes[m.scope].generation
    && (m.scopeGeneration == s.scopes[m.scope].generation ==> Matches(s, m))
  }

  ghost predicate RunsTrack(s: State) {
    forall r :: r in s.runs ==> Tracks(s, s.runs[r].manifest)
  }

  /** The scope has a current run of its own present generation. */
  ghost predicate ScopeClean(s: State, k: Key)
    requires k in s.scopes
  {
    var scope := s.scopes[k];
    scope.current.Some? && scope.current.value in s.runs &&
    s.runs[scope.current.value].manifest.scopeGeneration == scope.generation
  }

  ghost predicate ScopeTracks(s: State, k: Key)
    requires k in s.scopes
  {
    && (!s.scopes[k].dirty <==> ScopeClean(s, k))
    && (s.scopes[k].current.Some? ==>
          var r := s.scopes[k].current.value;
          r in s.runs && s.runs[r].manifest.scope == k && s.runs[r].lifecycle.Completed? && s.runs[r].freshness.Current?)
  }

  ghost predicate ScopesTrack(s: State) {
    forall k :: k in s.scopes ==> ScopeTracks(s, k)
  }

  ghost predicate StoreInv(s: State) {
    RowsAllowed(s) && ManifestsDiffer(s) && RunsTrack(s) && ScopesTrack(s)
  }

  lemma NewManifestDiffers(s: State, m: Manifest, id: Key)
    requires ManifestsDiffer(s) && !HasManifest(s, m) && id !in s.runs
    ensures ManifestsDiffer(s.(runs := s.runs[id := NewRun(m)]))
  {
  }

  lemma NewManifestTracks(s: State, scope: Key)
    requires scope in s.scopes && ManifestNow(s, scope).Some?
    ensures Tracks(s, ManifestNow(s, scope).value) && ManifestNow(s, scope).value.scope == scope
  {
  }

  lemma CreateRunKeeps(s: State, scope: Key, id: Key)
    requires StoreInv(s)
    ensures StoreInv(CreateRun(s, scope, id))
  {
    var t := CreateRun(s, scope, id);
    if t != s {
      var m := ManifestNow(s, scope).value;
      NewManifestDiffers(s, m, id);
      NewManifestTracks(s, scope);
      forall k | k in t.scopes
        ensures ScopeTracks(t, k)
      {
        assert ScopeTracks(s, k);
      }
      forall r | r in t.runs
        ensures Tracks(t, t.runs[r].manifest)
      {
        assert r != id ==> Tracks(s, s.runs[r].manifest);
      }
    }
  }

  lemma CreateScopeKeeps(s: State, scope: Key, left: Key, right: Key)
    requires StoreInv(s)
    ensures StoreInv(CreateScope(s, scope, left, right))
  {
    var t := CreateScope(s, scope, left, right);
    forall k | k in t.scopes
      ensures ScopeTracks(t, k)
    {
      assert k in s.scopes ==> ScopeTracks(s, k);
    }
    forall r | r in t.runs
      ensures Tracks(t, t.runs[r].manifest)
    {
      assert Tracks(s, s.runs[r].manifest);
    }
  }

  /** A scope generation is raised wherever anything a manifest froze changes. */
  ghost predicate Covers(s: State, t: State, which: set<Key>) {
    forall k :: k in s.scopes && k !in which ==>
      && HeadOf(t, s.scopes[k].left) == HeadOf(s, s.scopes[k].left)
      && HeadOf(t, s.scopes[k].right) == HeadOf(s, s.scopes[k].right)
      && (s.runs != map[] ==>
            t.policies == s.policies && t.resolutionGeneration == s.resolutionGeneration && t.decisions == s.decisions)
  }

  lemma BumpTracks(s: State, t: State, which: set<Key>, r: Key)
    requires RunsTrack(s) && t.runs == s.runs && t.scopes == Bumped(s.scopes, which) && Covers(s, t, which)
    requires r in s.runs
    ensures Tracks(t, s.runs[r].manifest)
  {
    assert Tracks(s, s.runs[r].manifest);
  }

  lemma BumpScope(s: State, t: State, which: set<Key>, k: Key)
    requires RunsTrack(s) && ScopesTrack(s) && t.runs == s.runs && t.scopes == Bumped(s.scopes, which) && k in s.scopes
    ensures ScopeTracks(t, k)
  {
    assert ScopeTracks(s, k);
    if s.scopes[k].current.Some? {
      assert Tracks(s, s.runs[s.scopes[k].current.value].manifest);
    }
  }

  lemma BumpKeeps(s: State, t: State, which: set<Key>)
    requires StoreInv(s) && t.runs == s.runs && t.scopes == Bumped(s.scopes, which)
    requires (s.policies != [] ==> t.policies != []) && Covers(s, t, which)
    ensures StoreInv(t)
  {
    forall k | k in t.scopes
      ensures ScopeTracks(t, k)
    {
      BumpScope(s, t, which, k);
    }
    forall r | r in t.runs
      ensures Tracks(t, t.runs[r].manifest)
    {
      BumpTracks(s, t, which, r);
    }
  }

  lemma ClaimKeeps(s: State, run: Key, token: Option<Key>)
    requires StoreInv(s)
    ensures StoreInv(Claim(s, run, token))
  {
    RowChangeKeeps(s, Claim(s, run, token));
  }

  lemma FailKeeps(s: State, run: Key, token: Option<Key>)
    requires StoreInv(s)
    ensures StoreInv(Fail(s, run, token))
  {
    RowChangeKeeps(s, Fail(s, run, token));
  }

  /** Changing the lifecycle of unpublished rows touches no scope. */
  lemma RowChangeKeeps(s: State, t: State)
    requires StoreInv(s) && t == s.(runs := t.runs) && t.runs.Keys == s.runs.Keys
    requires forall r :: r in s.runs ==> t.runs[r].manifest == s.runs[r].manifest && t.runs[r].Allowed()
    requires forall r :: r in s.runs && s.runs[r].lifecycle.Completed? ==> t.runs[r] == s.runs[r]
    ensures StoreInv(t)
  {
    forall k | k in t.scopes
      ensures ScopeTracks(t, k)
    {
      assert ScopeTracks(s, k);
    }
    forall r | r in t.runs
      ensures Tracks(t, t.runs[r].manifest)
    {
      assert Tracks(s, s.runs[r].manifest);
    }
  }

  lemma PublishScope(s: State, run: Key, result: Outcome, k: Key)
    requires StoreInv(s) && run in s.runs && s.runs[run].lifecycle.Running? && s.runs[run].manifest.scope in s.scopes
    requires k in s.scopes
    ensures ScopeTracks(Publish(s, run, result), k)
  {
    assert ScopeTracks(s, k);
    assert s.scopes[k].current != Some(run);
  }

  lemma PublishTracks(s: State, run: Key, result: Outcome, m: Manifest)
    requires run in s.runs && s.runs[run].manifest.scope in s.scopes && Tracks(s, m)
    ensures Tracks(Publish(s, run, result), m)
  {
  }

  lemma PublishRun(s: State, run: Key, result: Outcome, r: Key)
    requires StoreInv(s) && run in s.runs && s.runs[run].lifecycle.Running? && s.runs[run].manifest.scope in s.scopes
    requires r in s.runs
    ensures var t := Publish(s, run, result);
            && t.runs.Keys == s.runs.Keys && t.scopes.Keys == s.scopes.Keys && t.policies == s.policies
            && t.runs[r].manifest == s.runs[r].manifest && t.runs[r].Allowed() && Tracks(t, t.runs[r].manifest)
  {
    PublishTracks(s, run, result, s.runs[r].manifest);
  }

  lemma SameRowsKeep(s: State, t: State)
    requires RowsAllowed(s) && ManifestsDiffer(s) && t.runs.Keys == s.runs.Keys && t.scopes.Keys == s.scopes.Keys
    requires t.policies == s.policies
    requires forall r :: r in s.runs ==> t.runs[r].manifest == s.runs[r].manifest && t.runs[r].Allowed()
    ensures RowsAllowed(t) && ManifestsDiffer(t)
  {
  }

  lemma PublishKeeps(s: State, run: Key, token: Option<Key>, result: Outcome)
    requires StoreInv(s) && Publishes(s, run, token)
    ensures StoreInv(Publish(s, run, result))
  {
    var t := Publish(s, run, result);
    forall k | k in t.scopes
      ensures ScopeTracks(t, k)
    {
      PublishScope(s, run, result, k);
    }
    forall r | r in s.runs
      ensures t.runs[r].manifest == s.runs[r].manifest && t.runs[r].Allowed() && Tracks(t, t.runs[r].manifest)
    {
      PublishRun(s, run, result, r);
    }
    PublishRun(s, run, result, run);
    SameRowsKeep(s, t);
  }

  lemma StoreStepKeeps(w: World, e: Event)
    requires StoreInv(w.s)
    ensures StoreInv(Next(w, e).s)
  {
    match e
    case CreatesRun(scope, id) => CreateRunKeeps(w.s, scope, id);
    case CreatesScope(scope, left, right) => CreateScopeKeeps(w.s, scope, left, right);
    case Activates(dataset, revision) =>
      BumpKeeps(w.s, Activate(w.s, dataset, revision), Consumers(w.s.scopes, dataset));
    case CreatesPolicy(expected, digest) =>
      if CreatePolicy(w.s, expected, digest) != w.s {
        BumpKeeps(w.s, CreatePolicy(w.s, expected, digest), w.s.scopes.Keys);
      }
    case EnsuresContext(scope, left, right, digest) => EnsureContextKeeps(w.s, scope, left, right, digest);
    case Decides(decisions) => BumpKeeps(w.s, Decide(w.s, decisions), w.s.scopes.Keys);
    case Begins(attempt, run, token) =>
    case ClaimsRun(attempt) =>
      if InPhase(w, attempt, Reading) {
        ClaimKeeps(w.s, w.attempts[attempt].run, w.attempts[attempt].token);
      }
    case Computes(attempt, ok) =>
    case PublishesRun(attempt, ok) =>
      if ok && WillPublish(w, attempt) {
        PublishKeeps(w.s, w.attempts[attempt].run, w.attempts[attempt].token, w.attempts[attempt].phase.result);
      }
    case FailsRun(attempt) =>
      if InPhase(w, attempt, Failing) {
        FailKeeps(w.s, w.attempts[attempt].run, w.attempts[attempt].token);
      }
  }

  lemma EnsureContextKeeps(s: State, scope: Key, left: Key, right: Key, digest: Key)
    requires StoreInv(s)
    ensures StoreInv(EnsureContext(s, scope, left, right, digest))
  {
    CreateScopeKeeps(s, scope, left, right);
    var made := CreateScope(s, scope, left, right);
    var t := EnsureContext(s, scope, left, right, digest);
    if t != s && t != made {
      BumpKeeps(made, t, {scope});
    }
  }

  // ----- what attempts keep -----

  ghost predicate AttemptKept(w: World, a: Key)
    requires a in w.attempts
  {
    var x := w.attempts[a];
    && x.run in w.s.runs
    && (x.phase.Computed? ==> x.phase.result == OutcomeOf(w.s.runs[x.run].manifest))
  }

  ghost predicate AttemptsKept(w: World) {
    && (forall a :: a in w.attempts ==> AttemptKept(w, a))
    && forall a, b :: a in w.attempts && b in w.attempts && w.attempts[a].token.Some? && w.attempts[a].token == w.attempts[b].token ==> a == b
  }

  /** The row of a running run carries the token of the attempt that started it last. */
  ghost predicate StartersKept(w: World) {
    && (forall r :: r in w.starters ==> w.starters[r] in w.attempts && w.attempts[w.starters[r]].run == r)
    && (forall r :: r in w.s.runs && w.s.runs[r].lifecycle.Running? ==>
          r in w.starters && w.s.runs[r].token == w.attempts[w.starters[r]].token)
  }

  ghost predicate Logged(w: World, r: Key) {
    exists i :: 0 <= i < |w.log| && w.log[i].run == r
  }

  ghost predicate EntryKept(w: World, p: Publication) {
    && p.run in w.s.runs && w.s.runs[p.run].lifecycle.Completed?
    && p.result == OutcomeOf(w.s.runs[p.run].manifest) && w.s.runs[p.run].result == Some(p.result)
  }

  ghost predicate LogKept(w: World) {
    && (forall i :: 0 <= i < |w.log| ==> EntryKept(w, w.log[i]))
    && (forall i, j :: 0 <= i < j < |w.log| ==> w.log[i].run != w.log[j].run)
    && (forall r :: r in w.s.runs && w.s.runs[r].lifecycle.Completed? ==> Logged(w, r))
  }

  ghost predicate Inv(w: World) {
    StoreInv(w.s) && AttemptsKept(w) && StartersKept(w) && LogKept(w)
  }

  /** What a step may do to runs: it never removes one, never changes what it froze, and never touches a completed one. */
  ghost predicate RunsGrow(s: State, t: State) {
    && s.runs.Keys <= t.runs.Keys
    && (forall r :: r in s.runs ==> t.runs[r].manifest == s.runs[r].manifest)
    && (forall r :: r in s.runs && s.runs[r].lifecycle.Completed? ==> t.runs[r] == s.runs[r])
  }

  /** How one row may change in one step. */
  ghost predicate RowChange(w: World, e: Event, r: Key, after: Run)
    requires r in w.s.runs
  {
    var row := w.s.runs[r];
    || after == row
    || (e.ClaimsRun? && InPhase(w, e.attempt, Reading) && w.attempts[e.attempt].run == r &&
        Claims(w.s, r, w.attempts[e.attempt].token) && after == Started(row, w.attempts[e.attempt].token))
    || (e.PublishesRun? && e.ok && WillPublish(w, e.attempt) && w.attempts[e.attempt].run == r &&
        after == Finished(row, w.attempts[e.attempt].phase.result, UpToDate(w.s, row.manifest)))
    || (e.FailsRun? && InPhase(w, e.attempt, Failing) && w.attempts[e.attempt].run == r &&
        Falls(w.s, r, w.attempts[e.attempt].token) && after == Fallen(row))
  }

  lemma ContextKeepsRuns(s: State, scope: Key, left: Key, right: Key, digest: Key)
    ensures EnsureContext(s, scope, left, right, digest).runs == s.runs
  {
  }

  lemma RowStep(w: World, e: Event, r: Key)
    requires r in w.s.runs
    ensures r in Next(w, e).s.runs && RowChange(w, e, r, Next(w, e).s.runs[r])
  {
    match e
    case EnsuresContext(scope, left, right, digest) => ContextKeepsRuns(w.s, scope, left, right, digest);
    case CreatesRun(scope, id) =>
    case CreatesScope(scope, left, right) =>
    case Activates(dataset, revision) =>
    case CreatesPolicy(expected, digest) =>
    case Decides(decisions) =>
    case Begins(attempt, run, token) =>
    case ClaimsRun(attempt) =>
    case Computes(attempt, ok) =>
    case PublishesRun(attempt, ok) =>
    case FailsRun(attempt) =>
  }

  lemma RowChangeGrows(w: World, e: Event, r: Key, after: Run)
    requires r in w.s.runs && w.s.runs[r].Allowed() && RowChange(w, e, r, after)
    ensures after.manifest == w.s.runs[r].manifest
    ensures w.s.runs[r].lifecycle.Completed? ==> after == w.s.runs[r]
  {
  }

  lemma StoreStepGrows(w: World, e: Event)
    requires StoreInv(w.s)
    ensures RunsGrow(w.s, Next(w, e).s)
  {
    forall r | r in w.s.runs
      ensures r in Next(w, e).s.runs && Next(w, e).s.runs[r].manifest == w.s.runs[r].manifest
      ensures w.s.runs[r].lifecycle.Completed? ==> Next(w, e).s.runs[r] == w.s.runs[r]
    {
      RowStep(w, e, r);
      RowChangeGrows(w, e, r, Next(w, e).s.runs[r]);
    }
  }

  lemma NewRowIsFrozen(w: World, e: Event, r: Key)
    requires r !in w.s.runs && r in Next(w, e).s.runs
    ensures Next(w, e).s.runs[r].lifecycle.Frozen? && Next(w, e).s.runs[r].freshness.Pending?
  {
    match e
    case EnsuresContext(scope, left, right, digest) => ContextKeepsRuns(w.s, scope, left, right, digest);
    case CreatesRun(scope, id) =>
    case CreatesScope(scope, left, right) =>
    case Activates(dataset, revision) =>
    case CreatesPolicy(expected, digest) =>
    case Decides(decisions) =>
    case Begins(attempt, run, token) =>
    case ClaimsRun(attempt) =>
    case Computes(attempt, ok) =>
    case PublishesRun(attempt, ok) =>
    case FailsRun(attempt) =>
  }

  /** How one attempt may change in one step: its run and token never do. */
  lemma AttemptStep(w: World, e: Event, a: Key)
    ensures a in w.attempts ==>
              a in Next(w, e).attempts && Next(w, e).attempts[a].run == w.attempts[a].run
              && Next(w, e).attempts[a].token == w.attempts[a].token
    ensures a in Next(w, e).attempts && Next(w, e).attempts[a].phase.Computed? ==>
              a in w.attempts && (|| w.attempts[a].phase == Next(w, e).attempts[a].phase
                                  || (w.attempts[a].run in w.s.runs &&
                                      Next(w, e).attempts[a].phase.result == OutcomeOf(w.s.runs[w.attempts[a].run].manifest)))
    ensures a in Next(w, e).attempts && a !in w.attempts ==>
              && Next(w, e).attempts[a].run in w.s.runs
              && (Next(w, e).attempts[a].token.Some? ==> !TokenUsed(w, Next(w, e).attempts[a].token.value))
              && Next(w, e).attempts == w.attempts[a := Next(w, e).attempts[a]]
  {
    match e
    case EnsuresContext(scope, left, right, digest) =>
    case CreatesRun(scope, id) =>
    case CreatesScope(scope, left, right) =>
    case Activates(dataset, revision) =>
    case CreatesPolicy(expected, digest) =>
    case Decides(decisions) =>
    case Begins(attempt, run, token) =>
    case ClaimsRun(attempt) =>
    case Computes(attempt, ok) =>
    case PublishesRun(attempt, ok) =>
    case FailsRun(attempt) =>
  }

  lemma AttemptKeptStep(w: World, e: Event, a: Key)
    requires StoreInv(w.s) && AttemptsKept(w) && a in Next(w, e).attempts
    ensures AttemptKept(Next(w, e), a)
  {
    AttemptStep(w, e, a);
    assert a in w.attempts ==> AttemptKept(w, a);
    RowStep(w, e, Next(w, e).attempts[a].run);
    RowChangeGrows(w, e, Next(w, e).attempts[a].run, Next(w, e).s.runs[Next(w, e).attempts[a].run]);
  }

  lemma TokensDiffer(w: World, e: Event, a: Key, b: Key)
    requires AttemptsKept(w) && a in Next(w, e).attempts && b in Next(w, e).attempts && a != b
    ensures Next(w, e).attempts[a].token.Some? ==> Next(w, e).attempts[a].token != Next(w, e).attempts[b].token
  {
    AttemptStep(w, e, a);
    AttemptStep(w, e, b);
    if a !in w.attempts {
      assert b in w.attempts;
    } else if b !in w.attempts {
      assert a in w.attempts;
    }
  }

  lemma AttemptsStep(w: World, e: Event)
    requires StoreInv(w.s) && AttemptsKept(w)
    ensures AttemptsKept(Next(w, e))
  {
    forall a | a in Next(w, e).attempts
      ensures AttemptKept(Next(w, e), a)
    {
      AttemptKeptStep(w, e, a);
    }
    forall a, b | a in Next(w, e).attempts && b in Next(w, e).attempts && Next(w, e).attempts[a].token.Some? &&
                  Next(w, e).attempts[a].token == Next(w, e).attempts[b].token
      ensures a == b
    {
      if a != b {
        TokensDiffer(w, e, a, b);
      }
    }
  }

  predicate StartsRun(w: World, e: Event, r: Key) {
    && e.ClaimsRun? && InPhase(w, e.attempt, Reading) && w.attempts[e.attempt].run == r
    && Claims(w.s, r, w.attempts[e.attempt].token)
  }

  /** Only a claim that takes effect names a new last starter. */
  lemma StarterStep(w: World, e: Event, r: Key)
    ensures StartsRun(w, e, r) ==> r in Next(w, e).starters && Next(w, e).starters[r] == e.attempt
    ensures !StartsRun(w, e, r) ==> (r in Next(w, e).starters <==> r in w.starters)
    ensures !StartsRun(w, e, r) && r in w.starters ==> Next(w, e).starters[r] == w.starters[r]
  {
    match e
    case ClaimsRun(attempt) =>
    case PublishesRun(attempt, ok) =>
    case EnsuresContext(scope, left, right, digest) =>
    case CreatesRun(scope, id) =>
    case CreatesScope(scope, left, right) =>
    case Activates(dataset, revision) =>
    case CreatesPolicy(expected, digest) =>
    case Decides(decisions) =>
    case Begins(attempt, run, token) =>
    case Computes(attempt, ok) =>
    case FailsRun(attempt) =>
  }

  /** Rows of running runs change only by claiming, publishing and failing. */
  lemma StartersStep(w: World, e: Event)
    requires StoreInv(w.s) && AttemptsKept(w) && StartersKept(w)
    ensures StartersKept(Next(w, e))
  {
    var v := Next(w, e);
    forall r | r in v.starters
      ensures v.starters[r] in v.attempts && v.attempts[v.starters[r]].run == r
    {
      StarterStep(w, e, r);
      AttemptStep(w, e, v.starters[r]);
    }
    forall r | r in v.s.runs && v.s.runs[r].lifecycle.Running?
      ensures r in v.starters && v.s.runs[r].token == v.attempts[v.starters[r]].token
    {
      RunningStep(w, e, r);
    }
  }

  lemma RunningStep(w: World, e: Event, r: Key)
    requires StoreInv(w.s) && AttemptsKept(w) && StartersKept(w)
    requires r in Next(w, e).s.runs && Next(w, e).s.runs[r].lifecycle.Running?
    ensures r in Next(w, e).starters && Next(w, e).starters[r] in Next(w, e).attempts
    ensures Next(w, e).s.runs[r].token == Next(w, e).attempts[Next(w, e).starters[r]].token
  {
    if r !in w.s.runs {
      NewRowIsFrozen(w, e, r);
    }
    RowStep(w, e, r);
    if StartsRun(w, e, r) {
      StartedRow(w, e, r);
    } else {
      RunningChange(w, e, r, Next(w, e).s.runs[r]);
    }
    StarterStep(w, e, r);
    AttemptStep(w, e, if StartsRun(w, e, r) then e.attempt else w.starters[r]);
  }

  lemma StartedRow(w: World, e: Event, r: Key)
    requires StartsRun(w, e, r) && r in w.s.runs
    ensures r in Next(w, e).s.runs && Next(w, e).s.runs[r] == Started(w.s.runs[r], w.attempts[e.attempt].token)
  {
  }

  /** A row that no attempt starts now runs only because it did. */
  lemma RunningChange(w: World, e: Event, r: Key, after: Run)
    requires r in w.s.runs && RowChange(w, e, r, after) && after.lifecycle.Running? && !StartsRun(w, e, r)
    ensures after == w.s.runs[r]
  {
  }

  lemma EntryStep(w: World, e: Event, p: Publication)
    requires StoreInv(w.s) && EntryKept(w, p)
    ensures EntryKept(Next(w, e), p)
  {
    StoreStepGrows(w, e);
  }

  lemma CompletedChange(w: World, e: Event, r: Key, after: Run)
    requires r in w.s.runs && RowChange(w, e, r, after)
    requires after.lifecycle.Completed? && !w.s.runs[r].lifecycle.Completed?
    ensures e.PublishesRun? && e.ok && WillPublish(w, e.attempt) && w.attempts[e.attempt].run == r
  {
  }

  lemma CompletesOnlyByPublishing(w: World, e: Event, r: Key)
    requires r in Next(w, e).s.runs && Next(w, e).s.runs[r].lifecycle.Completed?
    requires !(r in w.s.runs && w.s.runs[r].lifecycle.Completed?)
    ensures e.PublishesRun? && e.ok && WillPublish(w, e.attempt) && w.attempts[e.attempt].run == r
  {
    if r in w.s.runs {
      RowStep(w, e, r);
      CompletedChange(w, e, r, Next(w, e).s.runs[r]);
    } else {
      NewRowIsFrozen(w, e, r);
    }
  }

  lemma LoggedStays(w: World, v: World, r: Key)
    requires Logged(w, r) && w.log <= v.log
    ensures Logged(v, r)
  {
    var i :| 0 <= i < |w.log| && w.log[i].run == r;
    assert v.log[i] == w.log[i];
  }

  lemma LogGrows(w: World, e: Event)
    ensures w.log <= Next(w, e).log
    ensures |Next(w, e).log| <= |w.log| + 1
    ensures |Next(w, e).log| > |w.log| <==> e.PublishesRun? && e.ok && WillPublish(w, e.attempt)
    ensures |Next(w, e).log| > |w.log| ==>
              Next(w, e).log == w.log + [Publication(w.attempts[e.attempt].run, e.attempt, w.attempts[e.attempt].phase.result)]
  {
  }

  lemma NewEntryKept(w: World, a: Key)
    requires AttemptsKept(w) && WillPublish(w, a)
    ensures EntryKept(PublishStep(w, a, true), Publication(w.attempts[a].run, a, w.attempts[a].phase.result))
  {
    assert AttemptKept(w, a);
  }

  lemma EntriesStep(w: World, e: Event, i: nat)
    requires StoreInv(w.s) && AttemptsKept(w) && LogKept(w) && i < |Next(w, e).log|
    ensures EntryKept(Next(w, e), Next(w, e).log[i])
  {
    LogGrows(w, e);
    if i < |w.log| {
      OldEntryKept(w, e, i);
    } else {
      LastEntryKept(w, e);
    }
  }

  lemma LastEntryKept(w: World, e: Event)
    requires AttemptsKept(w) && |Next(w, e).log| == |w.log| + 1
    ensures EntryKept(Next(w, e), Next(w, e).log[|w.log|])
  {
    LogGrows(w, e);
    NewEntryKept(w, e.attempt);
  }

  lemma OldEntryKept(w: World, e: Event, i: nat)
    requires StoreInv(w.s) && LogKept(w) && i < |w.log| <= |Next(w, e).log| && Next(w, e).log[i] == w.log[i]
    ensures EntryKept(Next(w, e), Next(w, e).log[i])
  {
    EntryStep(w, e, w.log[i]);
  }

  lemma PublishingIsNotLogged(w: World, a: Key, i: nat)
    requires LogKept(w) && WillPublish(w, a) && i < |w.log|
    ensures w.log[i].run != w.attempts[a].run
  {
    assert EntryKept(w, w.log[i]);
  }

  lemma DistinctStep(w: World, e: Event, i: nat, j: nat)
    requires LogKept(w) && i < j < |Next(w, e).log|
    ensures Next(w, e).log[i].run != Next(w, e).log[j].run
  {
    LogGrows(w, e);
    assert Next(w, e).log[i] == w.log[i];
    if j < |w.log| {
      assert Next(w, e).log[j] == w.log[j];
    } else {
      PublishingIsNotLogged(w, e.attempt, i);
    }
  }

  lemma CompletedStep(w: World, e: Event, r: Key)
    requires Inv(w) && r in Next(w, e).s.runs && Next(w, e).s.runs[r].lifecycle.Completed?
    ensures Logged(Next(w, e), r)
  {
    LogGrows(w, e);
    if r in w.s.runs && w.s.runs[r].lifecycle.Completed? {
      LoggedStays(w, Next(w, e), r);
    } else {
      CompletesOnlyByPublishing(w, e, r);
      assert Next(w, e).log[|w.log|].run == r;
    }
  }

  lemma LogStep(w: World, e: Event)
    requires Inv(w)
    ensures LogKept(Next(w, e))
  {
    var v := Next(w, e);
    forall i | 0 <= i < |v.log|
      ensures EntryKept(v, v.log[i])
    {
      EntriesStep(w, e, i);
    }
    forall i, j | 0 <= i < j < |v.log|
      ensures v.log[i].run != v.log[j].run
    {
      DistinctStep(w, e, i, j);
    }
    forall r | r in v.s.runs && v.s.runs[r].lifecycle.Completed?
      ensures Logged(v, r)
    {
      CompletedStep(w, e, r);
    }
  }

  lemma StepKeeps(w: World, e: Event)
    requires Inv(w)
    ensures Inv(Next(w, e))
  {
    StoreStepKeeps(w, e);
    AttemptsStep(w, e);
    StartersStep(w, e);
    LogStep(w, e);
  }

  /** Every interleaving of every kind of event keeps the invariant. */
  lemma {:induction false} ReachedKeeps(datasets: map<Key, Option<Key>>, events: seq<Event>)
    ensures Inv(Reached(datasets, events))
  {
    if events != [] {
      ReachedKeeps(datasets, events[..|events| - 1]);
      StepKeeps(Reached(datasets, events[..|events| - 1]), events[|events| - 1]);
    }
  }

  // ----- publication: the theorems -----

  /** A run's evidence is published at most once, it is completed exactly when it was published, and whoever
      published it stored the engine's result on the inputs the run froze. */
  lemma PublishedAtMostOnce(datasets: map<Key, Option<Key>>, events: seq<Event>)
    ensures var w := Reached(datasets, events);
            && (forall i, j :: 0 <= i < j < |w.log| ==> w.log[i].run != w.log[j].run)
            && (forall r :: r in w.s.runs ==> (w.s.runs[r].lifecycle.Completed? <==> Logged(w, r)))
            && (forall r :: r in w.s.runs && w.s.runs[r].result.Some? ==>
                  w.s.runs[r].result.value == OutcomeOf(w.s.runs[r].manifest))
  {
    ReachedKeeps(datasets, events);
    var w := Reached(datasets, events);
    forall r | r in w.s.runs && Logged(w, r)
      ensures w.s.runs[r].lifecycle.Completed? && w.s.runs[r].result == Some(OutcomeOf(w.s.runs[r].manifest))
    {
      var i :| 0 <= i < |w.log| && w.log[i].run == r;
      assert EntryKept(w, w.log[i]);
    }
    assert forall r :: r in w.s.runs && w.s.runs[r].result.Some? ==> w.s.runs[r].lifecycle.Completed?;
  }

  /** Completed rows never change again, and no run is ever lost or re-frozen. */
  lemma {:induction false} CompletedIsAbsorbing(datasets: map<Key, Option<Key>>, events: seq<Event>, more: seq<Event>)
    ensures RunsGrow(Reached(datasets, events).s, Reached(datasets, events + more).s)
  {
    if more == [] {
      assert events + more == events;
    } else {
      var init, last := more[..|more| - 1], more[|more| - 1];
      CompletedIsAbsorbing(datasets, events, init);
      assert (events + more)[..|events + more| - 1] == events + init;
      ReachedKeeps(datasets, events + init);
      StoreStepGrows(Reached(datasets, events + init), last);
      GrowthComposes(Reached(datasets, events).s, Reached(datasets, events + init).s,
                     Reached(datasets, events + more).s);
    }
  }

  lemma GrowthComposes(s: State, t: State, u: State)
    requires RunsGrow(s, t) && RunsGrow(t, u)
    ensures RunsGrow(s, u)
  {
  }

  /** Exactly when a computed attempt can publish: the run is running, and the attempt is untokened or the
      last one to have started it. The tokened half is the fence; the untokened half shows what it leaves open. */
  lemma PublishesIffLastStarter(datasets: map<Key, Option<Key>>, events: seq<Event>, a: Key)
    requires a in Reached(datasets, events).attempts && Reached(datasets, events).attempts[a].phase.Computed?
    ensures var w := Reached(datasets, events);
            var x := w.attempts[a];
            WillPublish(w, a) <==>
            && x.run in w.s.runs && w.s.runs[x.run].lifecycle.Running?
            && (x.token.None? || (x.run in w.starters && w.starters[x.run] == a))
  {
    ReachedKeeps(datasets, events);
    var w := Reached(datasets, events);
    assert AttemptKept(w, a);
  }

  /** Only the last attempt to start a run can mark it failed, if that attempt carries a token. */
  lemma FailsOnlyLastStarter(datasets: map<Key, Option<Key>>, events: seq<Event>, a: Key)
    requires InPhase(Reached(datasets, events), a, Failing) && Reached(datasets, events).attempts[a].token.Some?
    ensures var w := Reached(datasets, events);
            Falls(w.s, w.attempts[a].run, w.attempts[a].token) <==>
            && w.attempts[a].run in w.s.runs && w.s.runs[w.attempts[a].run].lifecycle.Running?
            && w.attempts[a].run in w.starters && w.starters[w.attempts[a].run] == a
  {
    ReachedKeeps(datasets, events);
  }

  // A store with one run in a given row state, for the example below.
  const FROZEN: Manifest := Manifest(0, 1, 0, 1, 10, 11, 5, {})

  const HEADS: map<Key, Option<Key>> := map[0 := Some(10), 1 := Some(11)]

  function Example(row: Run, attempts: map<Key, Attempt>, starters: map<Key, Key>): World {
    World(State(1, 0, [5], {}, HEADS, map[0 := Scope(0, 1, 1, true, None)], map[7 := row]), attempts, starters, [])
  }

  lemma OneMore(datasets: map<Key, Option<Key>>, events: seq<Event>, e: Event)
    ensures Reached(datasets, events + [e]) == Next(Reached(datasets, events), e)
  {
    assert (events + [e])[..|events + [e]| - 1] == events;
  }

  lemma ExampleStarts()
    ensures Next(Next(Initial(HEADS), EnsuresContext(0, 0, 1, 5)), CreatesRun(0, 7)) == Example(NewRun(FROZEN), map[], map[])
  {
    var s := Next(Initial(HEADS), EnsuresContext(0, 0, 1, 5)).s;
    assert s.scopes == map[0 := Scope(0, 1, 1, true, None)];
    assert s == State(1, 0, [5], {}, HEADS, map[0 := Scope(0, 1, 1, true, None)], map[]);
    assert ManifestNow(s, 0) == Some(FROZEN);
  }

  lemma ExampleFirstClaim()
    ensures Next(Next(Example(NewRun(FROZEN), map[], map[]), Begins(1, 7, None)), ClaimsRun(1)) ==
            Example(Started(NewRun(FROZEN), None), map[1 := Attempt(7, None, Working)], map[7 := 1])
  {
    var w := Next(Example(NewRun(FROZEN), map[], map[]), Begins(1, 7, None));
    assert w == Example(NewRun(FROZEN), map[1 := Attempt(7, None, Reading)], map[]);
    assert Claims(w.s, 7, None);
    assert w.s.runs[7 := Started(NewRun(FROZEN), None)] == map[7 := Started(NewRun(FROZEN), None)];
    assert w.attempts[1 := Attempt(7, None, Working)] == map[1 := Attempt(7, None, Working)];
  }

  lemma ExampleSecondClaim()
    ensures var first := map[1 := Attempt(7, None, Working)];
            Next(Next(Example(Started(NewRun(FROZEN), None), first, map[7 := 1]), Begins(2, 7, Some(9))), ClaimsRun(2)) ==
            Example(Started(NewRun(FROZEN), Some(9)), first[2 := Attempt(7, Some(9), Working)], map[7 := 2])
  {
    var first := map[1 := Attempt(7, None, Working)];
    var w := Next(Example(Started(NewRun(FROZEN), None), first, map[7 := 1]), Begins(2, 7, Some(9)));
    assert w == Example(Started(NewRun(FROZEN), None), first[2 := Attempt(7, Some(9), Reading)], map[7 := 1]);
    assert Claims(w.s, 7, Some(9));
    assert w.s.runs[7 := Started(NewRun(FROZEN), Some(9))] == map[7 := Started(NewRun(FROZEN), Some(9))];
    assert w.attempts[2 := Attempt(7, Some(9), Working)] == first[2 := Attempt(7, Some(9), Working)];
    assert w.starters[7 := 2] == map[7 := 2];
  }

  const SETUP: seq<Event> := [EnsuresContext(0, 0, 1, 5)] + [CreatesRun(0, 7)]

  const FIRST: seq<Event> := SETUP + [Begins(1, 7, None)] + [ClaimsRun(1)]

  const SECOND: seq<Event> := FIRST + [Begins(2, 7, Some(9))] + [ClaimsRun(2)]

  lemma TwoMore(datasets: map<Key, Option<Key>>, events: seq<Event>, e: Event, f: Event)
    ensures Reached(datasets, events + [e] + [f]) == Next(Next(Reached(datasets, events), e), f)
  {
    OneMore(datasets, events, e);
    OneMore(datasets, events + [e], f);
  }

  lemma ExampleReached()
    ensures Reached(HEADS, SECOND) ==
            Example(Started(NewRun(FROZEN), Some(9)),
                    map[1 := Attempt(7, None, Working)][2 := Attempt(7, Some(9), Working)], map[7 := 2])
  {
    assert [] + [EnsuresContext(0, 0, 1, 5)] + [CreatesRun(0, 7)] == SETUP;
    TwoMore(HEADS, [], EnsuresContext(0, 0, 1, 5), CreatesRun(0, 7));
    ExampleStarts();
    TwoMore(HEADS, SETUP, Begins(1, 7, None), ClaimsRun(1));
    ExampleFirstClaim();
    TwoMore(HEADS, FIRST, Begins(2, 7, Some(9)), ClaimsRun(2));
    ExampleSecondClaim();
  }

  /** The fence does not cover untokened attempts: one that started first publishes although a tokened
      attempt has started the run since. */
  lemma UntokenedAttemptIsNotFenced()
    ensures exists events, a ::
              var w := Reached(HEADS, events);
              WillPublish(w, a) && w.attempts[a].run in w.starters && w.starters[w.attempts[a].run] != a
  {
    ExampleReached();
    OneMore(HEADS, SECOND, Computes(1, true));
    ExamplePublishes();
    assert WillPublish(Reached(HEADS, SECOND + [Computes(1, true)]), 1);
  }

  lemma ExamplePublishes()
    ensures var second := map[1 := Attempt(7, None, Working)][2 := Attempt(7, Some(9), Working)];
            var w := Next(Example(Started(NewRun(FROZEN), Some(9)), second, map[7 := 2]), Computes(1, true));
            WillPublish(w, 1) && w.attempts[1].run == 7 && w.starters == map[7 := 2]
  {
  }

  // ----- scope freshness: the theorems -----

  /** A scope is clean exactly when its current run is of its own generation, and then that run matches the
      present revisions, latest policy, active decisions and resolution generation. */
  lemma CleanMeansPresent(datasets: map<Key, Option<Key>>, events: seq<Event>, k: Key)
    requires k in Reached(datasets, events).s.scopes
    ensures var s := Reached(datasets, events).s;
            && (!s.scopes[k].dirty <==> ScopeClean(s, k))
            && (!s.scopes[k].dirty ==>
                  var m := s.runs[s.scopes[k].current.value].manifest;
                  m.scope == k && Matches(s, m) && s.runs[s.scopes[k].current.value].lifecycle.Completed?)
  {
    ReachedKeeps(datasets, events);
    var s := Reached(datasets, events).s;
    assert ScopeTracks(s, k);
    if s.scopes[k].current.Some? {
      assert Tracks(s, s.runs[s.scopes[k].current.value].manifest);
    }
  }

  /** Of the six comparisons publication makes, two decide: once the scope and data generations agree, the
      revisions, the policy and the resolution generation agree as well. */
  lemma TwoGenerationsDecideFreshness(datasets: map<Key, Option<Key>>, events: seq<Event>, r: Key)
    requires r in Reached(datasets, events).s.runs
    ensures var s := Reached(datasets, events).s;
            var m := s.runs[r].manifest;
            m.scope in s.scopes &&
            (UpToDate(s, m) <==> m.scopeGeneration == s.scopes[m.scope].generation && m.dataGeneration == s.generation)
  {
    ReachedKeeps(datasets, events);
    var s := Reached(datasets, events).s;
    assert Tracks(s, s.runs[r].manifest);
  }

  ghost function CurrentGeneration(s: State, k: Key): int {
    if k in s.scopes && s.scopes[k].current.Some? && s.scopes[k].current.value in s.runs then
      s.runs[s.scopes[k].current.value].manifest.scopeGeneration
    else -1
  }

  /** How one scope may change in one step. */
  ghost predicate ScopeChange(w: World, e: Event, k: Key, after: Scope)
    requires k in w.s.scopes
  {
    var before := w.s.scopes[k];
    || after == before
    || after == Bump(before)
    || (e.PublishesRun? && e.ok && WillPublish(w, e.attempt) &&
        var run := w.attempts[e.attempt].run;
        w.s.runs[run].manifest.scope == k && UpToDate(w.s, w.s.runs[run].manifest) &&
        after == before.(current := Some(run), dirty := false))
  }

  lemma ContextScopes(s: State, scope: Key, left: Key, right: Key, digest: Key, k: Key)
    requires k in s.scopes
    ensures var t := EnsureContext(s, scope, left, right, digest);
            k in t.scopes && (t.scopes[k] == s.scopes[k] || t.scopes[k] == Bump(s.scopes[k]))
  {
  }

  lemma ScopeStep(w: World, e: Event, k: Key)
    requires k in w.s.scopes
    ensures k in Next(w, e).s.scopes && ScopeChange(w, e, k, Next(w, e).s.scopes[k])
  {
    match e
    case EnsuresContext(scope, left, right, digest) => ContextScopes(w.s, scope, left, right, digest, k);
    case CreatesRun(scope, id) =>
    case CreatesScope(scope, left, right) =>
    case Activates(dataset, revision) =>
    case CreatesPolicy(expected, digest) =>
    case Decides(decisions) =>
    case Begins(attempt, run, token) =>
    case ClaimsRun(attempt) =>
    case Computes(attempt, ok) =>
    case PublishesRun(attempt, ok) =>
    case FailsRun(attempt) =>
  }

  /** In one step, the current run of a scope changes only to a run published while up to date, and its scope
      generation never decreases. */
  lemma CurrentNeverGoesBack(datasets: map<Key, Option<Key>>, events: seq<Event>, e: Event, k: Key)
    requires k in Reached(datasets, events).s.scopes
    ensures var w := Reached(datasets, events);
            var v := Next(w, e);
            && k in v.s.scopes
            && CurrentGeneration(w.s, k) <= CurrentGeneration(v.s, k)
            && (v.s.scopes[k].current != w.s.scopes[k].current ==>
                  v.s.scopes[k].current.Some? && v.s.scopes[k].current.value in v.s.runs &&
                  v.s.runs[v.s.scopes[k].current.value].freshness.Current?)
  {
    var w := Reached(datasets, events);
    ReachedKeeps(datasets, events);
    StepKeeps(w, e);
    CurrentStep(w, e, k);
  }

  lemma CurrentStep(w: World, e: Event, k: Key)
    requires StoreInv(w.s) && StoreInv(Next(w, e).s) && k in w.s.scopes
    ensures var v := Next(w, e);
            && k in v.s.scopes
            && CurrentGeneration(w.s, k) <= CurrentGeneration(v.s, k)
            && (v.s.scopes[k].current != w.s.scopes[k].current ==>
                  v.s.scopes[k].current.Some? && v.s.scopes[k].current.value in v.s.runs &&
                  v.s.runs[v.s.scopes[k].current.value].freshness.Current?)
  {
    ScopeStep(w, e, k);
    assert ScopeTracks(w.s, k) && ScopeTracks(Next(w, e).s, k);
    if w.s.scopes[k].current.Some? {
      var r := w.s.scopes[k].current.value;
      assert Tracks(w.s, w.s.runs[r].manifest);
      RowStep(w, e, r);
      RowChangeGrows(w, e, r, Next(w, e).s.runs[r]);
    }
    if Next(w, e).s.scopes[k].current != w.s.scopes[k].current {
      var r := w.attempts[e.attempt].run;
      RowStep(w, e, r);
      RowChangeGrows(w, e, r, Next(w, e).s.runs[r]);
    }
  }

  lemma StaleChange(w: World, e: Event, r: Key, after: Run)
    requires r in w.s.runs && RowChange(w, e, r, after) && after.freshness.Stale? && !w.s.runs[r].freshness.Stale?
    ensures e.PublishesRun? && e.ok && WillPublish(w, e.attempt) && w.attempts[e.attempt].run == r
    ensures !UpToDate(w.s, w.s.runs[r].manifest)
  {
  }

  /** Whatever step leaves a run stale leaves every scope, current run and dirty flag as it was, and takes
      place exactly because the run is no longer up to date. */
  lemma StalePublicationTouchesNoScope(datasets: map<Key, Option<Key>>, events: seq<Event>, e: Event, r: Key)
    requires r in Reached(datasets, events + [e]).s.runs && Reached(datasets, events + [e]).s.runs[r].freshness.Stale?
    requires r in Reached(datasets, events).s.runs ==> !Reached(datasets, events).s.runs[r].freshness.Stale?
    ensures var s := Reached(datasets, events).s;
            && Reached(datasets, events + [e]).s.scopes == s.scopes
            && r in s.runs && s.runs[r].manifest.scope in s.scopes && !UpToDate(s, s.runs[r].manifest)
  {
    OneMore(datasets, events, e);
    StaleStep(Reached(datasets, events), e, r);
  }

  lemma PublishingStale(w: World, a: Key)
    requires WillPublish(w, a) && !UpToDate(w.s, w.s.runs[w.attempts[a].run].manifest)
    ensures PublishStep(w, a, true).s.scopes == w.s.scopes
  {
  }

  lemma StaleStep(w: World, e: Event, r: Key)
    requires r in Next(w, e).s.runs && Next(w, e).s.runs[r].freshness.Stale?
    requires r in w.s.runs ==> !w.s.runs[r].freshness.Stale?
    ensures r in w.s.runs && w.s.runs[r].manifest.scope in w.s.scopes && !UpToDate(w.s, w.s.runs[r].manifest)
    ensures Next(w, e).s.scopes == w.s.scopes
  {
    if r in w.s.runs {
      RowStep(w, e, r);
      StaleChange(w, e, r, Next(w, e).s.runs[r]);
      PublishingStale(w, e.attempt);
    } else {
      NewRowIsFrozen(w, e, r);
    }
  }
}
