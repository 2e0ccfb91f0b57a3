/** Dataset activation: a snapshot or delta is folded into a new head revision of one linear chain. */
module Activation {
  import opened Domain

  type Key = nat

  datatype Mode = FullSnapshot | Delta

  datatype Operation = Snapshot | Upsert | Cancel | Retract

  /** The fingerprint of a canonical row under a contract; the pair stands for its digest. */
  datatype Fingerprint = Fingerprint(contract: Key, canonical: Key)

  /** An observation is the row of the attempt that made it. */
  datatype Member = Member(attempt: Key, row: int, fingerprint: Fingerprint)

  /** A staged row and what its preview holds; a row whose canonical payload does not parse has none. */
  datatype RawRow = RawRow(
    number: int, clean: bool, complete: bool, key: Option<string>, operation: Option<Operation>, claimed: int,
    canonical: Option<Key>)

  datatype AttemptState = Ready | NoChange | Replayed | Activated

  datatype Attempt = Attempt(
    state: AttemptState, base: Option<nat>, mode: Mode, contract: Key, rows: seq<RawRow>, rowCount: nat, errors: nat,
    clean: bool, reason: Option<string>)

  type Members = map<string, Member>

  /** The state hash is an injective image of the keys and fingerprints it covers. */
  datatype StateHash = StateHash(prints: map<string, Fingerprint>)

  datatype Revision = Revision(parent: Option<nat>, hash: StateHash, members: Members, attempt: Key)

  /** One dataset; a revision's identity is its position in order of creation. */
  datatype Dataset = Dataset(attempts: map<Key, Attempt>, revisions: seq<Revision>, current: Option<nat>)

  datatype Response = Created | Unchanged | Replay | AttemptNotReady | StalePreview | UnsoundPreview | InvalidReason

  // ----- reasons -----

  predicate IsSpace(c: char) {
    || '\t' <= c <= '\r' || '\U{1C}' <= c <= ' ' || c == '\U{85}' || c == '\U{A0}' || c == '\U{1680}'
    || '\U{2000}' <= c <= '\U{200A}' || c == '\U{2028}' || c == '\U{2029}' || c == '\U{202F}' || c == '\U{205F}'
    || c == '\U{3000}'
  }

  function StripLeft(s: string): (t: string)
    ensures t == "" || !IsSpace(t[0])
    ensures |t| <= |s|
  {
    if s != "" && IsSpace(s[0]) then StripLeft(s[1..]) else s
  }

  function StripRight(s: string): (t: string)
    ensures t <= s
    ensures t == "" || !IsSpace(t[|t| - 1])
  {
    if s != "" && IsSpace(s[|s| - 1]) then StripRight(s[..|s| - 1]) else s
  }

  function Strip(s: string): string {
    StripRight(StripLeft(s))
  }

  predicate Blank(s: string) {
    Strip(s) == ""
  }

  predicate ReasonAccepted(reason: Option<string>) {
    reason.Some? ==> !Blank(reason.value) && |Strip(reason.value)| <= 1000
  }

  function Normalized(reason: Option<string>): Option<string> {
    if reason.Some? then Some(Strip(reason.value)) else None
  }

  lemma {:induction false} StripOfBlank(s: string)
    ensures Blank(s) <==> forall c :: c in s ==> IsSpace(c)
  {
    StripLeftEmpty(s);
    var t := StripLeft(s);
    if t != "" {
      StripRightKeeps(t);
    }
  }

  lemma {:induction false} StripLeftEmpty(s: string)
    ensures StripLeft(s) == "" <==> forall c :: c in s ==> IsSpace(c)
  {
    if s != "" {
      StripLeftEmpty(s[1..]);
      assert s == [s[0]] + s[1..];
    }
  }

  lemma {:induction false} StripRightKeeps(s: string)
    requires s != "" && !IsSpace(s[0])
    ensures StripRight(s) != ""
  {
    if IsSpace(s[|s| - 1]) {
      StripRightKeeps(s[..|s| - 1]);
    }
  }

  // ----- folding rows -----

  /** What one row does to the membership: a retraction removes its key, anything else overrides it. */
  function ApplyRow(members: Members, id: Key, contract: Key, row: RawRow): Members {
    if row.key.None? || row.operation.None? then members
    else if row.operation.value.Retract? then members - {row.key.value}
    else if row.canonical.None? then members
    else members[row.key.value := Member(id, row.number, Fingerprint(contract, row.canonical.value))]
  }

  function Fold(members: Members, id: Key, contract: Key, rows: seq<RawRow>): Members {
    if rows == [] then members
    else ApplyRow(Fold(members, id, contract, rows[..|rows| - 1]), id, contract, rows[|rows| - 1])
  }

  function Prints(members: Members): map<string, Fingerprint> {
    map k | k in members :: members[k].fingerprint
  }

  function HashOf(members: Members): StateHash {
    StateHash(Prints(members))
  }

  // ----- evidence -----

  /** The checks of one row, given the keys before it. */
  predicate RowSound(row: RawRow, mode: Mode, seen: set<string>) {
    && row.clean && row.complete
    && row.operation.Some? && row.key.Some? && !Blank(row.key.value)
    && row.claimed == row.number && row.key.value !in seen
    && (if mode.FullSnapshot? then row.operation.value.Snapshot? else !row.operation.value.Snapshot?)
    && (!row.operation.value.Retract? ==> row.canonical.Some?)
  }

  function KeysOf(rows: seq<RawRow>): set<string> {
    set r | r in rows && r.key.Some? :: r.key.value
  }

  predicate RowsSound(rows: seq<RawRow>, mode: Mode) {
    forall i :: 0 <= i < |rows| ==> RowSound(rows[i], mode, KeysOf(rows[..i]))
  }

  predicate Sound(a: Attempt) {
    |a.rows| == a.rowCount && a.errors == 0 && a.clean && RowsSound(a.rows, a.mode)
  }

  function BaseMembers(d: Dataset, a: Attempt): Members {
    if a.mode.Delta? && a.base.Some? && a.base.value < |d.revisions| then d.revisions[a.base.value].members else map[]
  }

  function Proposed(d: Dataset, id: Key): Members
    requires id in d.attempts
  {
    Fold(BaseMembers(d, d.attempts[id]), id, d.attempts[id].contract, d.attempts[id].rows)
  }

  predicate SeenBefore(d: Dataset, hash: StateHash) {
    exists k :: 0 <= k < |d.revisions| && d.revisions[k].hash == hash
  }

  // ----- the transaction -----

  function ResponseTo(d: Dataset, id: Key, reason: Option<string>): Response {
    if !ReasonAccepted(reason) then InvalidReason
    else if id !in d.attempts || !d.attempts[id].state.Ready? then AttemptNotReady
    else if d.current != d.attempts[id].base then StalePreview
    else if !Sound(d.attempts[id]) then UnsoundPreview
    else
      var hash := HashOf(Proposed(d, id));
      if d.current.Some? && d.current.value < |d.revisions| && d.revisions[d.current.value].hash == hash then Unchanged
      else if SeenBefore(d, hash) && reason.None? then Replay
      else Created
  }

  function Marked(d: Dataset, id: Key, state: AttemptState, reason: Option<string>): Dataset
    requires id in d.attempts
  {
    d.(attempts := d.attempts[id := d.attempts[id].(state := state, reason := reason)])
  }

  function AfterActivation(d: Dataset, id: Key, reason: Option<string>): Dataset {
    match ResponseTo(d, id, reason)
    case Unchanged => Marked(d, id, NoChange, d.attempts[id].reason)
    case Replay => Marked(d, id, Replayed, d.attempts[id].reason)
    case Created =>
      var members := Proposed(d, id);
      Marked(d, id, Activated, Normalized(reason)).(
        revisions := d.revisions + [Revision(d.attempts[id].base, HashOf(members), members, id)],
        current := Some(|d.revisions|))
    case _ => d
  }

  datatype Event =
    | Stages(id: Key, attempt: Attempt)
    | Activates(id: Key, reason: Option<string>)

  function Next(d: Dataset, e: Event): Dataset {
    match e
    case Stages(id, attempt) => if id in d.attempts then d else d.(attempts := d.attempts[id := attempt.(state := Ready, reason := None)])
    case Activates(id, reason) => AfterActivation(d, id, reason)
  }

  function After(events: seq<Event>): Dataset {
    if events == [] then Dataset(map[], [], None) else Next(After(events[..|events| - 1]), events[|events| - 1])
  }

  // ----- the loop over the rows -----

  /** While rows are folded, a key from this attempt waits for its observation. */
  datatype Resolved = Waiting(fingerprint: Fingerprint) | Bound(member: Member) {
    function Print(): Fingerprint {
      match this
      case Waiting(f) => f
      case Bound(m) => m.fingerprint
    }
  }

  datatype Prepared = Prepared(key: string, member: Member)

  /** The working maps agree with the fold: same keys, same fingerprints, waiting keys will be observed. */
  ghost predicate Working(resolved: map<string, Resolved>, prepared: seq<Prepared>, fold: Members) {
    && resolved.Keys == fold.Keys
    && (forall k :: k in fold ==> resolved[k].Print() == fold[k].fingerprint)
    && (forall k :: k in fold && resolved[k].Bound? ==> resolved[k].member == fold[k])
    && (forall k :: k in fold && resolved[k].Waiting? ==> Prepared(k, fold[k]) in prepared)
    && (forall p :: p in prepared ==> p.key in fold && fold[p.key] == p.member)
  }

  lemma WorkingRetract(resolved: map<string, Resolved>, prepared: seq<Prepared>, fold: Members, key: string)
    requires Working(resolved, prepared, fold) && forall p :: p in prepared ==> p.key != key
    ensures Working(resolved - {key}, prepared, fold - {key})
  {
  }

  lemma WorkingPut(resolved: map<string, Resolved>, prepared: seq<Prepared>, fold: Members, key: string, m: Member)
    requires Working(resolved, prepared, fold) && forall p :: p in prepared ==> p.key != key
    ensures Working(resolved[key := Waiting(m.fingerprint)], prepared + [Prepared(key, m)], fold[key := m])
  {
    assert Prepared(key, m) in prepared + [Prepared(key, m)];
  }

  /** One sound row: retractions drop the key, anything else puts a waiting entry and remembers the row. */
  method ResolveRow(row: RawRow, id: Key, contract: Key, before: map<string, Resolved>, soFar: seq<Prepared>,
                    ghost fold: Members)
    returns (resolved: map<string, Resolved>, prepared: seq<Prepared>)
    requires row.key.Some? && row.operation.Some? && (row.operation.value.Retract? || row.canonical.Some?)
    requires Working(before, soFar, fold) && forall p :: p in soFar ==> p.key != row.key.value
    ensures Working(resolved, prepared, ApplyRow(fold, id, contract, row))
    ensures forall p :: p in prepared ==> p in soFar || p.key == row.key.value
  {
    var key := row.key.value;
    if row.operation.value.Retract? {
      WorkingRetract(before, soFar, fold, key);
      return before - {key}, soFar;
    }
    var m := Member(id, row.number, Fingerprint(contract, row.canonical.value));
    WorkingPut(before, soFar, fold, key, m);
    resolved, prepared := before[key := Waiting(m.fingerprint)], soFar + [Prepared(key, m)];
  }

  /** Check and fold the staged rows over the base membership. */
  method ResolveRows(base: Members, id: Key, a: Attempt)
    returns (sound: bool, resolved: map<string, Resolved>, prepared: seq<Prepared>)
    ensures sound <==> WellStaged(a.rows, a.mode)
    ensures sound ==> Working(resolved, prepared, Fold(base, id, a.contract, a.rows))
  {
    resolved := map k | k in base :: Bound(base[k]);
    prepared := [];
    var seen: set<string> := {};
    for i := 0 to |a.rows|
      invariant seen == KeysOf(a.rows[..i])
      invariant RowsSound(a.rows[..i], a.mode)
      invariant forall p :: p in prepared ==> p.key in seen
      invariant Working(resolved, prepared, Fold(base, id, a.contract, a.rows[..i]))
    {
      var row := a.rows[i];
      SoundGrows(a.rows, a.mode, i);
      if !RowSound(row, a.mode, seen) {
        RowsSoundMeans(a.rows, a.mode);
        return false, resolved, prepared;
      }
      resolved, prepared := ResolveRow(row, id, a.contract, resolved, prepared, Fold(base, id, a.contract, a.rows[..i]));
      KeysGrow(a.rows, i);
      seen := seen + {row.key.value};
      assert a.rows[..i + 1][..i] == a.rows[..i];
    }
    assert a.rows[..|a.rows|] == a.rows;
    RowsSoundMeans(a.rows, a.mode);
    sound := true;
  }

  lemma SoundGrows(rows: seq<RawRow>, mode: Mode, i: nat)
    requires i < |rows| && RowsSound(rows[..i], mode)
    ensures RowSound(rows[i], mode, KeysOf(rows[..i])) ==> RowsSound(rows[..i + 1], mode)
    ensures !RowSound(rows[i], mode, KeysOf(rows[..i])) ==> !RowsSound(rows, mode)
  {
    var more := rows[..i + 1];
    if RowSound(rows[i], mode, KeysOf(rows[..i])) {
      forall j | 0 <= j < |more|
        ensures RowSound(more[j], mode, KeysOf(more[..j]))
      {
        assert more[..j] == rows[..j];
        assert j < i ==> RowSound(rows[..i][j], mode, KeysOf(rows[..i][..j])) && rows[..i][..j] == rows[..j];
      }
    }
  }

  lemma KeysGrow(rows: seq<RawRow>, i: nat)
    requires i < |rows|
    ensures KeysOf(rows[..i + 1]) == KeysOf(rows[..i]) + if rows[i].key.Some? then {rows[i].key.value} else {}
  {
    assert rows[..i + 1] == rows[..i] + [rows[i]];
  }

  /** Entries before i are bound; the waiting ones are still to come. */
  ghost predicate Binding(bound: map<string, Resolved>, prepared: seq<Prepared>, i: nat, fold: Members)
    requires i <= |prepared|
  {
    && bound.Keys == fold.Keys
    && (forall k :: k in fold && bound[k].Bound? ==> bound[k].member == fold[k])
    && (forall k :: k in fold && bound[k].Waiting? ==> Prepared(k, fold[k]) in prepared[i..])
  }

  lemma BindOne(bound: map<string, Resolved>, prepared: seq<Prepared>, i: nat, fold: Members)
    requires i < |prepared| && Binding(bound, prepared, i, fold)
    requires prepared[i].key in fold && fold[prepared[i].key] == prepared[i].member
    ensures Binding(bound[prepared[i].key := Bound(prepared[i].member)], prepared, i + 1, fold)
  {
    var after := bound[prepared[i].key := Bound(prepared[i].member)];
    forall k | k in fold && after[k].Waiting?
      ensures Prepared(k, fold[k]) in prepared[i + 1..]
    {
      assert prepared[i..] == [prepared[i]] + prepared[i + 1..];
    }
  }

  /** Bind every waiting key to the observation made for it. */
  method BindObservations(resolved: map<string, Resolved>, prepared: seq<Prepared>,
                          ghost fold: Members) returns (members: Members)
    requires Working(resolved, prepared, fold)
    ensures members == fold
  {
    var bound := resolved;
    assert prepared[0..] == prepared;
    for i := 0 to |prepared|
      invariant Binding(bound, prepared, i, fold)
    {
      assert prepared[i] in prepared;
      BindOne(bound, prepared, i, fold);
      bound := bound[prepared[i].key := Bound(prepared[i].member)];
    }
    members := map k | k in bound && bound[k].Bound? :: bound[k].member;
  }

  // ----- what every activation keeps -----

  /** Reference definition: the membership after a history of activated snapshots and deltas. */
  datatype Step = Step(id: Key, mode: Mode, contract: Key, rows: seq<RawRow>)

  function History(steps: seq<Step>): Members {
    if steps == [] then map[]
    else
      var last := steps[|steps| - 1];
      Fold(if last.mode.FullSnapshot? then map[] else History(steps[..|steps| - 1]), last.id, last.contract, last.rows)
  }

  function StepsOf(d: Dataset): seq<Step> {
    seq(|d.revisions|, k requires 0 <= k < |d.revisions| =>
      var id := d.revisions[k].attempt;
      if id in d.attempts then Step(id, d.attempts[id].mode, d.attempts[id].contract, d.attempts[id].rows)
      else Step(id, FullSnapshot, 0, []))
  }

  ghost predicate RevisionKept(d: Dataset, k: nat)
    requires k < |d.revisions|
  {
    var r := d.revisions[k];
    && r.parent == (if k == 0 then None else Some(k - 1))
    && r.attempt in d.attempts && d.attempts[r.attempt].state.Activated?
    && r.hash == HashOf(r.members)
    && r.members == History(StepsOf(d)[..k + 1])
  }

  ghost predicate Inv(d: Dataset) {
    && d.current == (if d.revisions == [] then None else Some(|d.revisions| - 1))
    && (forall k: nat :: k < |d.revisions| ==> RevisionKept(d, k))
    && (forall j, k :: 0 <= j < k < |d.revisions| ==> d.revisions[j].attempt != d.revisions[k].attempt)
    && (forall k :: 1 <= k < |d.revisions| ==> d.revisions[k].hash != d.revisions[k - 1].hash)
    && forall j: nat, k: nat :: j < k < |d.revisions| && d.revisions[j].hash == d.revisions[k].hash ==> Justified(d, k)
  }

  /** The attempt that made the revision carries a nonblank restore reason. */
  ghost predicate Justified(d: Dataset, k: nat)
    requires k < |d.revisions|
  {
    var id := d.revisions[k].attempt;
    id in d.attempts && d.attempts[id].reason.Some? && !Blank(d.attempts[id].reason.value)
  }

  // ----- every step keeps it -----

  lemma StepsGrow(d: Dataset, t: Dataset)
    requires |d.revisions| <= |t.revisions| && t.revisions[..|d.revisions|] == d.revisions
    requires forall k :: 0 <= k < |d.revisions| ==>
               var id := d.revisions[k].attempt;
               id in d.attempts && id in t.attempts && t.attempts[id] == d.attempts[id]
    ensures StepsOf(t)[..|d.revisions|] == StepsOf(d)
  {
    forall k | 0 <= k < |d.revisions|
      ensures StepsOf(t)[k] == StepsOf(d)[k]
    {
      assert t.revisions[k] == t.revisions[..|d.revisions|][k];
    }
  }

  /** Earlier revisions, their attempts and their place in the history are never touched. */
  ghost predicate Extends(d: Dataset, t: Dataset) {
    && |d.revisions| <= |t.revisions| && t.revisions[..|d.revisions|] == d.revisions
    && forall id :: id in d.attempts && !d.attempts[id].state.Ready? ==> id in t.attempts && t.attempts[id] == d.attempts[id]
  }

  lemma StepExtends(d: Dataset, e: Event)
    ensures Extends(d, Next(d, e))
  {
  }

  lemma RevisionStays(d: Dataset, t: Dataset, k: nat)
    requires Inv(d) && Extends(d, t) && k < |d.revisions|
    ensures RevisionKept(t, k) && t.revisions[k] == d.revisions[k] && (Justified(d, k) ==> Justified(t, k))
  {
    assert RevisionKept(d, k);
    forall j: nat | j < |d.revisions|
      ensures d.revisions[j].attempt in d.attempts && d.attempts[d.revisions[j].attempt].state.Activated?
    {
      assert RevisionKept(d, j);
    }
    StepsGrow(d, t);
    assert t.revisions[k] == t.revisions[..|d.revisions|][k];
    assert StepsOf(t)[..k + 1] == StepsOf(t)[..|d.revisions|][..k + 1];
  }

  lemma StageKeeps(d: Dataset, e: Event)
    requires Inv(d) && Extends(d, Next(d, e))
    requires Next(d, e).revisions == d.revisions && Next(d, e).current == d.current
    ensures Inv(Next(d, e))
  {
    var t := Next(d, e);
    forall k: nat | k < |t.revisions|
      ensures RevisionKept(t, k) && (Justified(d, k) ==> Justified(t, k))
    {
      RevisionStays(d, t, k);
    }
  }

  ghost predicate Creates(d: Dataset, id: Key, reason: Option<string>) {
    ResponseTo(d, id, reason).Created?
  }

  lemma StripNormal(s: string)
    ensures !Blank(s) ==> !Blank(Strip(s))
  {
    var t := Strip(s);
    if t != "" {
      var left := StripLeft(s);
      assert t[0] == left[0];
      assert StripLeft(t) == t;
      StripRightKeeps(t);
    }
  }

  lemma AllActivated(d: Dataset)
    requires Inv(d)
    ensures forall j: nat :: j < |d.revisions| ==>
              d.revisions[j].attempt in d.attempts && d.attempts[d.revisions[j].attempt].state.Activated?
  {
    forall j: nat | j < |d.revisions|
      ensures d.revisions[j].attempt in d.attempts && d.attempts[d.revisions[j].attempt].state.Activated?
    {
      assert RevisionKept(d, j);
    }
  }

  lemma BaseIsHistory(d: Dataset, a: Attempt)
    requires Inv(d) && d.current == a.base
    ensures BaseMembers(d, a) == if a.mode.FullSnapshot? then map[] else History(StepsOf(d))
  {
    if d.revisions != [] {
      assert RevisionKept(d, |d.revisions| - 1);
      assert StepsOf(d)[..|d.revisions|] == StepsOf(d);
    }
  }

  lemma NewHistory(d: Dataset, id: Key, reason: Option<string>)
    requires Inv(d) && Creates(d, id, reason)
    ensures var t := AfterActivation(d, id, reason);
            |t.revisions| == |d.revisions| + 1 && Proposed(d, id) == History(StepsOf(t))
  {
    NewStep(d, id, reason);
    BaseIsHistory(d, d.attempts[id]);
  }

  /** A created revision adds its own step to those of the revisions before it. */
  lemma NewStep(d: Dataset, id: Key, reason: Option<string>)
    requires Inv(d) && Creates(d, id, reason)
    ensures var t := AfterActivation(d, id, reason);
            var a := d.attempts[id];
            && |t.revisions| == |d.revisions| + 1 && |StepsOf(t)| == |d.revisions| + 1
            && StepsOf(t)[|d.revisions|] == Step(id, a.mode, a.contract, a.rows)
            && StepsOf(t)[..|d.revisions|] == StepsOf(d)
  {
    AllActivated(d);
    StepExtends(d, Activates(id, reason));
    StepsGrow(d, AfterActivation(d, id, reason));
  }

  lemma NewRevision(d: Dataset, id: Key, reason: Option<string>)
    requires Inv(d) && Creates(d, id, reason)
    ensures var t := AfterActivation(d, id, reason);
            && |t.revisions| == |d.revisions| + 1 && RevisionKept(t, |d.revisions|)
            && t.current == Some(|d.revisions|) && t.revisions[|d.revisions|].attempt == id
  {
    NewHistory(d, id, reason);
    var t := AfterActivation(d, id, reason);
    assert StepsOf(t)[..|d.revisions| + 1] == StepsOf(t);
  }

  lemma NewIsJustified(d: Dataset, id: Key, reason: Option<string>)
    requires Creates(d, id, reason) && SeenBefore(d, HashOf(Proposed(d, id)))
    ensures |AfterActivation(d, id, reason).revisions| == |d.revisions| + 1
    ensures Justified(AfterActivation(d, id, reason), |d.revisions|)
  {
    StripNormal(reason.value);
  }

  lemma OldRevision(d: Dataset, id: Key, reason: Option<string>, k: nat)
    requires Inv(d) && Creates(d, id, reason) && k < |d.revisions|
    ensures var t := AfterActivation(d, id, reason);
            && |t.revisions| == |d.revisions| + 1
            && RevisionKept(t, k) && t.revisions[k] == d.revisions[k] && (Justified(d, k) ==> Justified(t, k))
            && t.revisions[k].attempt != id
  {
    StepExtends(d, Activates(id, reason));
    RevisionStays(d, AfterActivation(d, id, reason), k);
    assert RevisionKept(d, k);
  }

  lemma NewHashDiffers(d: Dataset, id: Key, reason: Option<string>)
    requires Inv(d) && Creates(d, id, reason) && d.revisions != []
    ensures HashOf(Proposed(d, id)) != d.revisions[|d.revisions| - 1].hash
  {
  }

  lemma RepeatsStayJustified(d: Dataset, id: Key, reason: Option<string>, j: nat, k: nat)
    requires Inv(d) && Creates(d, id, reason) && j < k < |AfterActivation(d, id, reason).revisions|
    requires AfterActivation(d, id, reason).revisions[j].hash == AfterActivation(d, id, reason).revisions[k].hash
    ensures Justified(AfterActivation(d, id, reason), k)
  {
    OldRevision(d, id, reason, j);
    if k < |d.revisions| {
      OldRevision(d, id, reason, k);
      assert d.revisions[j].hash == d.revisions[k].hash;
    } else {
      assert SeenBefore(d, HashOf(Proposed(d, id)));
      NewIsJustified(d, id, reason);
    }
  }

  /** The older revisions are kept as they were, and the new one is in its place. */
  ghost predicate Appended(d: Dataset, t: Dataset, id: Key) {
    && |t.revisions| == |d.revisions| + 1 && t.current == Some(|d.revisions|)
    && (forall k: nat :: k < |t.revisions| ==> RevisionKept(t, k))
    && (forall k: nat :: k < |d.revisions| ==> t.revisions[k] == d.revisions[k] && d.revisions[k].attempt != id)
    && t.revisions[|d.revisions|].attempt == id
    && (d.revisions != [] ==> t.revisions[|d.revisions|].hash != d.revisions[|d.revisions| - 1].hash)
  }

  ghost predicate OldKept(d: Dataset, t: Dataset, id: Key, k: nat) {
    k < |d.revisions| < |t.revisions| && RevisionKept(t, k) && t.revisions[k] == d.revisions[k] && t.revisions[k].attempt != id
  }

  lemma OldAreKept(d: Dataset, id: Key, reason: Option<string>)
    requires Inv(d) && Creates(d, id, reason)
    ensures forall k: nat :: k < |d.revisions| ==> OldKept(d, AfterActivation(d, id, reason), id, k)
  {
    forall k: nat | k < |d.revisions|
      ensures OldKept(d, AfterActivation(d, id, reason), id, k)
    {
      OldRevision(d, id, reason, k);
    }
  }

  lemma KeptMakeAppended(d: Dataset, t: Dataset, id: Key)
    requires |t.revisions| == |d.revisions| + 1 && RevisionKept(t, |d.revisions|) && t.current == Some(|d.revisions|)
    requires t.revisions[|d.revisions|].attempt == id
    requires forall k: nat :: k < |d.revisions| ==> OldKept(d, t, id, k)
    requires d.revisions != [] ==> t.revisions[|d.revisions|].hash != d.revisions[|d.revisions| - 1].hash
    ensures Appended(d, t, id)
  {
    forall k: nat | k < |d.revisions|
      ensures RevisionKept(t, k) && t.revisions[k] == d.revisions[k] && d.revisions[k].attempt != id
    {
      assert OldKept(d, t, id, k);
    }
  }

  lemma NewHashIs(d: Dataset, id: Key, reason: Option<string>)
    requires Creates(d, id, reason)
    ensures |AfterActivation(d, id, reason).revisions| == |d.revisions| + 1
    ensures AfterActivation(d, id, reason).revisions[|d.revisions|].hash == HashOf(Proposed(d, id))
  {
  }

  lemma CreateAppends(d: Dataset, id: Key, reason: Option<string>)
    requires Inv(d) && Creates(d, id, reason)
    ensures Appended(d, AfterActivation(d, id, reason), id)
  {
    NewRevision(d, id, reason);
    OldAreKept(d, id, reason);
    if d.revisions != [] {
      NewHashDiffers(d, id, reason);
      NewHashIs(d, id, reason);
    }
    KeptMakeAppended(d, AfterActivation(d, id, reason), id);
  }

  lemma CreateKeeps(d: Dataset, id: Key, reason: Option<string>)
    requires Inv(d) && Creates(d, id, reason)
    ensures Inv(AfterActivation(d, id, reason))
  {
    var t := AfterActivation(d, id, reason);
    CreateAppends(d, id, reason);
    forall j: nat, k: nat | j < k < |t.revisions| && t.revisions[j].hash == t.revisions[k].hash
      ensures Justified(t, k)
    {
      RepeatsStayJustified(d, id, reason, j, k);
    }
  }

  lemma StepKeeps(d: Dataset, e: Event)
    requires Inv(d)
    ensures Inv(Next(d, e))
  {
    StepExtends(d, e);
    if e.Activates? && Creates(d, e.id, e.reason) {
      CreateKeeps(d, e.id, e.reason);
    } else {
      StageKeeps(d, e);
    }
  }

  lemma {:induction false} ReachedKeeps(events: seq<Event>)
    ensures Inv(After(events))
  {
    if events != [] {
      ReachedKeeps(events[..|events| - 1]);
      StepKeeps(After(events[..|events| - 1]), events[|events| - 1]);
    }
  }

  // ----- the theorems -----

  /** After any sequence of stagings and activations the revisions form one parent chain that ends at the head,
      and every revision's membership is the fold of the activated snapshots and deltas up to it, with the hash
      of exactly that membership. */
  lemma RevisionsFormOneChain(events: seq<Event>, k: nat)
    requires k < |After(events).revisions|
    ensures var d := After(events);
            && d.current == Some(|d.revisions| - 1)
            && d.revisions[k].parent == (if k == 0 then None else Some(k - 1))
            && d.revisions[k].members == History(StepsOf(d)[..k + 1])
            && d.revisions[k].hash == HashOf(d.revisions[k].members)
  {
    ReachedKeeps(events);
    RevisionMeans(After(events), k);
  }

  lemma RevisionMeans(d: Dataset, k: nat)
    requires Inv(d) && k < |d.revisions|
    ensures d.current == Some(|d.revisions| - 1)
    ensures d.revisions[k].parent == if k == 0 then None else Some(k - 1)
    ensures |StepsOf(d)| == |d.revisions| && d.revisions[k].members == History(StepsOf(d)[..k + 1])
    ensures d.revisions[k].hash == HashOf(d.revisions[k].members)
  {
    assert RevisionKept(d, k);
  }

  /** Adjacent revisions never share a state hash, hence never a membership by keys and fingerprints; returning
      to an older state always carries a nonblank reason. */
  lemma RepeatedStateIsJustified(events: seq<Event>, j: nat, k: nat)
    requires j < k < |After(events).revisions|
    requires Prints(After(events).revisions[j].members) == Prints(After(events).revisions[k].members)
    ensures j + 1 < k && Justified(After(events), k)
  {
    ReachedKeeps(events);
    var d := After(events);
    assert RevisionKept(d, j) && RevisionKept(d, k);
    assert d.revisions[j].hash == d.revisions[k].hash;
    assert k - 1 >= 0 && d.revisions[k].hash != d.revisions[k - 1].hash;
  }

  /** The last row that names a key decides it, and keys no row names keep what the base held. */
  lemma {:induction false} FoldAt(members: Members, id: Key, contract: Key, rows: seq<RawRow>, i: nat, key: string)
    requires i < |rows| && rows[i].key == Some(key) && rows[i].operation.Some?
    requires rows[i].operation.value.Retract? || rows[i].canonical.Some?
    requires forall j :: i < j < |rows| ==> rows[j].key != Some(key)
    ensures key in Fold(members, id, contract, rows) <==> !rows[i].operation.value.Retract?
    ensures key in Fold(members, id, contract, rows) ==>
              Fold(members, id, contract, rows)[key] == Member(id, rows[i].number, Fingerprint(contract, rows[i].canonical.value))
  {
    if i < |rows| - 1 {
      FoldAt(members, id, contract, rows[..|rows| - 1], i, key);
    }
  }

  lemma {:induction false} FoldElsewhere(members: Members, id: Key, contract: Key, rows: seq<RawRow>, key: string)
    requires forall j :: 0 <= j < |rows| ==> rows[j].key != Some(key)
    ensures key in Fold(members, id, contract, rows) <==> key in members
    ensures key in members ==> Fold(members, id, contract, rows)[key] == members[key]
  {
    if rows != [] {
      FoldElsewhere(members, id, contract, rows[..|rows| - 1], key);
    }
  }

  // ----- what an activation answers, in the reason, the rows and the revisions alone -----

  /** The code points that count as white space. */
  lemma WhiteSpaceIs(c: char)
    ensures IsSpace(c) <==>
            (c as int) in {0x9, 0xA, 0xB, 0xC, 0xD, 0x1C, 0x1D, 0x1E, 0x1F, 0x20, 0x85, 0xA0, 0x1680, 0x2000, 0x2001, 0x2002,
                           0x2003, 0x2004, 0x2005, 0x2006, 0x2007, 0x2008, 0x2009, 0x200A, 0x2028, 0x2029, 0x202F, 0x205F,
                           0x3000}
  {
  }

  /** The second text is the first without the white space around it. */
  ghost predicate Trimmed(s: string, t: string) {
    && (t != "" ==> !IsSpace(t[0]) && !IsSpace(t[|t| - 1]))
    && exists i, j :: 0 <= i <= j <= |s| && t == s[i..j] && AroundIsSpace(s, i, j)
  }

  ghost predicate AroundIsSpace(s: string, i: int, j: int) {
    forall k :: 0 <= k < |s| && (k < i || j <= k) ==> IsSpace(s[k])
  }

  lemma {:induction false} LeftDropped(s: string) returns (i: nat)
    ensures i <= |s| && StripLeft(s) == s[i..] && forall k :: 0 <= k < i ==> IsSpace(s[k])
  {
    i := 0;
    if s != "" && IsSpace(s[0]) {
      i := LeftDropped(s[1..]);
      i := i + 1;
    }
  }

  lemma {:induction false} RightDropped(s: string)
    ensures StripRight(s) == s[..|StripRight(s)|]
    ensures forall k :: |StripRight(s)| <= k < |s| ==> IsSpace(s[k])
  {
    if s != "" && IsSpace(s[|s| - 1]) {
      RightDropped(s[..|s| - 1]);
    }
  }

  lemma StripTrims(s: string)
    ensures Trimmed(s, Strip(s))
  {
    var i := LeftDropped(s);
    var left := s[i..];
    RightDropped(left);
    var t := StripRight(left);
    assert t == s[i..i + |t|];
    assert AroundIsSpace(s, i, i + |t|) by {
      forall k | i + |t| <= k < |s|
        ensures IsSpace(s[k])
      {
        assert s[k] == left[k - i];
      }
    }
    assert t != "" ==> t[0] == left[0];
  }

  lemma TextIsKept(s: string, i: int, j: int, m: int, n: int)
    requires 0 <= i < j <= |s| && 0 <= m <= n <= |s| && AroundIsSpace(s, m, n)
    requires !IsSpace(s[i]) && !IsSpace(s[j - 1])
    ensures m <= i && j <= n
  {
  }

  lemma OneTrim(s: string, i: int, j: int, m: int, n: int)
    requires 0 <= i <= j <= |s| && AroundIsSpace(s, i, j) && (i < j ==> !IsSpace(s[i]) && !IsSpace(s[j - 1]))
    requires 0 <= m <= n <= |s| && AroundIsSpace(s, m, n) && (m < n ==> !IsSpace(s[m]) && !IsSpace(s[n - 1]))
    ensures (i == j && m == n) || (i == m && j == n)
  {
    if i < j {
      TextIsKept(s, i, j, m, n);
    }
    if m < n {
      TextIsKept(s, m, n, i, j);
    }
  }

  lemma TrimEnds(s: string, t: string) returns (i: int, j: int)
    requires Trimmed(s, t)
    ensures 0 <= i <= j <= |s| && t == s[i..j] && AroundIsSpace(s, i, j)
    ensures i < j ==> !IsSpace(s[i]) && !IsSpace(s[j - 1])
  {
    i, j :| 0 <= i <= j <= |s| && t == s[i..j] && AroundIsSpace(s, i, j);
    assert i < j ==> t[0] == s[i] && t[|t| - 1] == s[j - 1];
  }

  lemma TrimmedOnce(s: string, t: string, u: string)
    requires Trimmed(s, t) && Trimmed(s, u)
    ensures t == u
  {
    var i, j := TrimEnds(s, t);
    var m, n := TrimEnds(s, u);
    OneTrim(s, i, j, m, n);
  }

  /** A given reason must keep between one and a thousand characters when trimmed. */
  ghost predicate Acceptable(reason: Option<string>) {
    reason == None || exists t :: Trimmed(reason.value, t) && 1 <= |t| <= 1000
  }

  lemma AcceptableIs(reason: Option<string>)
    ensures ReasonAccepted(reason) <==> Acceptable(reason)
  {
    if reason.Some? {
      StripTrims(reason.value);
      forall t | Trimmed(reason.value, t)
        ensures t == Strip(reason.value)
      {
        TrimmedOnce(reason.value, t, Strip(reason.value));
      }
    }
  }

  ghost predicate HasText(key: string) {
    exists c :: c in key && !IsSpace(c)
  }

  /** Staged evidence for one row: clean and complete, a nonblank key, its own number, an operation of the mode, and
      a payload unless it retracts. */
  ghost predicate Staged(row: RawRow, mode: Mode) {
    && row.clean && row.complete && row.claimed == row.number
    && row.key != None && HasText(row.key.value)
    && (mode == FullSnapshot ==> row.operation == Some(Snapshot))
    && (mode == Delta ==> row.operation in {Some(Upsert), Some(Cancel), Some(Retract)})
    && (row.canonical == None ==> row.operation == Some(Retract))
  }

  /** Every row is staged properly and no key comes twice. */
  ghost predicate WellStaged(rows: seq<RawRow>, mode: Mode) {
    (forall r :: r in rows ==> Staged(r, mode)) && forall i, j :: 0 <= i < j < |rows| ==> rows[i].key != rows[j].key
  }

  /** The counts agree, nothing is flagged, and the rows are well staged. */
  ghost predicate Faultless(a: Attempt) {
    |a.rows| == a.rowCount && a.errors == 0 && a.clean && WellStaged(a.rows, a.mode)
  }

  lemma RowSoundMeans(row: RawRow, mode: Mode, seen: set<string>)
    ensures RowSound(row, mode, seen) <==> Staged(row, mode) && row.key.value !in seen
  {
    if row.key.Some? {
      StripOfBlank(row.key.value);
    }
  }

  lemma RowsSoundMeans(rows: seq<RawRow>, mode: Mode)
    ensures RowsSound(rows, mode) <==> WellStaged(rows, mode)
  {
    forall i | 0 <= i < |rows|
      ensures RowSound(rows[i], mode, KeysOf(rows[..i])) <==>
              Staged(rows[i], mode) && forall h :: 0 <= h < i ==> rows[h].key != rows[i].key
    {
      RowSoundMeans(rows[i], mode, KeysOf(rows[..i]));
      if rows[i].key.Some? {
        NotBefore(rows, i);
      }
    }
  }

  lemma NotBefore(rows: seq<RawRow>, i: nat)
    requires i < |rows| && rows[i].key.Some?
    ensures rows[i].key.value !in KeysOf(rows[..i]) <==> forall h :: 0 <= h < i ==> rows[h].key != rows[i].key
  {
    if h :| 0 <= h < i && rows[h].key == rows[i].key {
      assert rows[..i][h] == rows[h];
    }
  }

  /** A delta starts from its base revision, a snapshot from nothing. */
  ghost predicate StartsFrom(d: Dataset, a: Attempt, base: Members) {
    && (a.mode == FullSnapshot || a.base == None ==> base == map[])
    && (a.mode == Delta && a.base != None && a.base.value < |d.revisions| ==> base == d.revisions[a.base.value].members)
  }

  ghost predicate Named(rows: seq<RawRow>, key: string) {
    exists r :: r in rows && r.key == Some(key)
  }

  /** The membership after the rows: whom no row names stays as in the base, a retracted key is gone, and any other
      row is the observation of its key. */
  ghost predicate Folded(base: Members, id: Key, a: Attempt, members: Members) {
    && (forall key :: !Named(a.rows, key) ==> (key in members <==> key in base))
    && (forall key :: !Named(a.rows, key) && key in base && key in members ==> members[key] == base[key])
    && forall r :: r in a.rows && r.key != None ==>
         if r.operation == Some(Retract) then r.key.value !in members
         else r.key.value in members && r.canonical != None &&
              members[r.key.value] == Member(id, r.number, Fingerprint(a.contract, r.canonical.value))
  }

  lemma FoldIsFolded(base: Members, id: Key, a: Attempt)
    requires Faultless(a)
    ensures Folded(base, id, a, Fold(base, id, a.contract, a.rows))
  {
    forall key | !Named(a.rows, key)
      ensures key in Fold(base, id, a.contract, a.rows) <==> key in base
      ensures key in base ==> Fold(base, id, a.contract, a.rows)[key] == base[key]
    {
      FoldElsewhere(base, id, a.contract, a.rows, key);
    }
    forall r | r in a.rows && r.key != None
      ensures r.operation == Some(Retract) ==> r.key.value !in Fold(base, id, a.contract, a.rows)
      ensures r.operation != Some(Retract) ==>
                r.canonical != None && r.key.value in Fold(base, id, a.contract, a.rows) &&
                Fold(base, id, a.contract, a.rows)[r.key.value] ==
                Member(id, r.number, Fingerprint(a.contract, r.canonical.value))
    {
      var i :| 0 <= i < |a.rows| && a.rows[i] == r;
      assert Staged(r, a.mode);
      FoldAt(base, id, a.contract, a.rows, i, r.key.value);
    }
  }

  /** The same keys with the same fingerprints. */
  ghost predicate SameState(x: Members, y: Members) {
    && (forall k :: k in x <==> k in y)
    && forall k :: k in x && k in y ==> x[k].fingerprint == y[k].fingerprint
  }

  lemma SameHashIsSameState(x: Members, y: Members)
    ensures HashOf(x) == HashOf(y) <==> SameState(x, y)
  {
    if HashOf(x) == HashOf(y) {
      assert Prints(x) == Prints(y);
      assert Prints(x).Keys == x.Keys && Prints(y).Keys == y.Keys;
      forall k | k in x
        ensures x[k].fingerprint == y[k].fingerprint
      {
        assert Prints(x)[k] == Prints(y)[k];
      }
    }
    if SameState(x, y) {
      assert Prints(x) == Prints(y);
    }
  }

  ghost predicate HeadHas(d: Dataset, members: Members) {
    d.revisions != [] && SameState(d.revisions[|d.revisions| - 1].members, members)
  }

  ghost predicate EverHad(d: Dataset, members: Members) {
    exists r :: r in d.revisions && SameState(r.members, members)
  }

  /** Only the attempt's own state and reason change. */
  ghost predicate OnlyMarked(d: Dataset, t: Dataset, id: Key, state: AttemptState) {
    && id in d.attempts && id in t.attempts && t.attempts.Keys == d.attempts.Keys
    && t.attempts[id] == d.attempts[id].(state := state, reason := t.attempts[id].reason)
    && forall other :: other in d.attempts && other != id ==> t.attempts[other] == d.attempts[other]
  }

  /** What the transaction concludes from a proposed membership: the head's own state is no change, an older state
      without a reason is a replay, and anything else becomes the new head. */
  ghost predicate Concluded(d: Dataset, t: Dataset, id: Key, reason: Option<string>, members: Members, response: Response)
    requires id in d.attempts
  {
    if HeadHas(d, members) then
      && response == Unchanged && OnlyMarked(d, t, id, NoChange) && t.attempts[id].reason == d.attempts[id].reason
      && t.revisions == d.revisions && t.current == d.current
    else if reason == None && EverHad(d, members) then
      && response == Replay && OnlyMarked(d, t, id, Replayed) && t.attempts[id].reason == d.attempts[id].reason
      && t.revisions == d.revisions && t.current == d.current
    else
      && response == Created && OnlyMarked(d, t, id, Activated)
      && (reason == None ==> t.attempts[id].reason == None)
      && (reason != None ==> t.attempts[id].reason != None && Trimmed(reason.value, t.attempts[id].reason.value))
      && |t.revisions| == |d.revisions| + 1 && t.revisions[..|d.revisions|] == d.revisions
      && t.current == Some(|d.revisions|)
      && t.revisions[|d.revisions|].members == members
      && t.revisions[|d.revisions|].attempt == id && t.revisions[|d.revisions|].parent == d.current
  }

  /** The refusals, in the order of the checks. */
  ghost predicate Refused(d: Dataset, id: Key, reason: Option<string>, response: Response) {
    if !Acceptable(reason) then response == InvalidReason
    else if id !in d.attempts || d.attempts[id].state != Ready then response == AttemptNotReady
    else if d.current != d.attempts[id].base then response == StalePreview
    else !Faultless(d.attempts[id]) && response == UnsoundPreview
  }

  ghost predicate Proceeds(d: Dataset, id: Key, reason: Option<string>) {
    && Acceptable(reason) && id in d.attempts && d.attempts[id].state == Ready
    && d.current == d.attempts[id].base && Faultless(d.attempts[id])
  }

  ghost predicate Answered(d: Dataset, t: Dataset, id: Key, reason: Option<string>, response: Response) {
    if Proceeds(d, id, reason) then
      exists base, members ::
        && StartsFrom(d, d.attempts[id], base) && Folded(base, id, d.attempts[id], members)
        && Concluded(d, t, id, reason, members, response)
    else Refused(d, id, reason, response) && t == d
  }

  lemma HashTells(d: Dataset, members: Members, k: nat)
    requires Inv(d) && k < |d.revisions|
    ensures d.revisions[k].hash == HashOf(members) <==> SameState(d.revisions[k].members, members)
  {
    assert RevisionKept(d, k);
    SameHashIsSameState(d.revisions[k].members, members);
  }

  lemma HeadTells(d: Dataset, members: Members)
    requires Inv(d)
    ensures HeadHas(d, members) <==>
            d.current.Some? && d.current.value < |d.revisions| && d.revisions[d.current.value].hash == HashOf(members)
  {
    if d.revisions != [] {
      HashTells(d, members, |d.revisions| - 1);
    }
  }

  lemma HistoryTells(d: Dataset, members: Members)
    requires Inv(d)
    ensures EverHad(d, members) <==> SeenBefore(d, HashOf(members))
  {
    if EverHad(d, members) {
      var r :| r in d.revisions && SameState(r.members, members);
      var k: nat :| k < |d.revisions| && d.revisions[k] == r;
      HashTells(d, members, k);
    }
    if SeenBefore(d, HashOf(members)) {
      var k: nat :| k < |d.revisions| && d.revisions[k].hash == HashOf(members);
      HashTells(d, members, k);
      assert d.revisions[k] in d.revisions;
    }
  }

  lemma ConclusionIs(d: Dataset, id: Key, reason: Option<string>, members: Members)
    requires id in d.attempts && d.attempts[id].state.Ready? && d.current == d.attempts[id].base
    requires ReasonAccepted(reason) && Sound(d.attempts[id]) && members == Proposed(d, id)
    requires HeadHas(d, members) <==>
             d.current.Some? && d.current.value < |d.revisions| && d.revisions[d.current.value].hash == HashOf(members)
    requires EverHad(d, members) <==> SeenBefore(d, HashOf(members))
    ensures Concluded(d, AfterActivation(d, id, reason), id, reason, members, ResponseTo(d, id, reason))
  {
    if reason.Some? {
      StripTrims(reason.value);
    }
  }

  lemma ProceedingAnswer(d: Dataset, id: Key, reason: Option<string>)
    requires Inv(d) && Proceeds(d, id, reason) && ReasonAccepted(reason) && Sound(d.attempts[id])
    ensures Answered(d, AfterActivation(d, id, reason), id, reason, ResponseTo(d, id, reason))
  {
    var a := d.attempts[id];
    var base, members := BaseMembers(d, a), Proposed(d, id);
    FoldIsFolded(base, id, a);
    HeadTells(d, members);
    HistoryTells(d, members);
    ConclusionIs(d, id, reason, members);
    assert StartsFrom(d, a, base);
  }

  /** Every activation answers from the reason, the staged rows and the revisions as stated. */
  lemma AnswerIs(d: Dataset, id: Key, reason: Option<string>)
    requires Inv(d)
    ensures Answered(d, AfterActivation(d, id, reason), id, reason, ResponseTo(d, id, reason))
  {
    AcceptableIs(reason);
    if id in d.attempts {
      RowsSoundMeans(d.attempts[id].rows, d.attempts[id].mode);
    }
    if Proceeds(d, id, reason) {
      ProceedingAnswer(d, id, reason);
    }
  }

  /** A revision created from a full snapshot holds exactly the keys of its rows. */
  lemma SnapshotHoldsItsRows(d: Dataset, t: Dataset, id: Key, reason: Option<string>, key: string)
    requires Answered(d, t, id, reason, Created) && id in d.attempts && d.attempts[id].mode == FullSnapshot
    ensures |t.revisions| == |d.revisions| + 1
    ensures key in t.revisions[|d.revisions|].members <==> Named(d.attempts[id].rows, key)
  {
    var a := d.attempts[id];
    var base, members :| StartsFrom(d, a, base) && Folded(base, id, a, members) && Concluded(d, t, id, reason, members, Created);
    if Named(a.rows, key) {
      var r :| r in a.rows && r.key == Some(key);
      assert Staged(r, a.mode);
    }
  }

  // ----- the store -----

  class DatasetStore {
    var attempts: map<Key, Attempt>
    var revisions: seq<Revision>
    var current: Option<nat>

    constructor ()
      ensures View() == After([])
    {
      attempts, revisions, current := map[], [], None;
    }

    function View(): Dataset
      reads this
    {
      Dataset(attempts, revisions, current)
    }

    method Stage(id: Key, attempt: Attempt)
      requires id !in attempts
      modifies this`attempts
      ensures View() == Next(old(View()), Stages(id, attempt))
    {
      attempts := attempts[id := attempt.(state := Ready, reason := None)];
    }

    method FinishWithoutRevision(id: Key, state: AttemptState)
      requires id in attempts
      modifies this`attempts
      ensures View() == Marked(old(View()), id, state, old(attempts)[id].reason)
    {
      attempts := attempts[id := attempts[id].(state := state)];
    }

    /** The staged evidence, checked and folded; nothing is written yet. */
    method Propose(id: Key) returns (sound: bool, hash: StateHash, members: Members)
      requires Inv(View()) && id in attempts && current == attempts[id].base
      ensures sound <==> Sound(attempts[id])
      ensures sound ==> members == Proposed(View(), id) && hash == HashOf(members)
    {
      var a := attempts[id];
      hash, members := StateHash(map[]), map[];
      if |a.rows| != a.rowCount || a.errors != 0 || !a.clean {
        return false, hash, members;
      }
      var base := if a.mode.Delta? && a.base.Some? then revisions[a.base.value].members else map[];
      var resolved, prepared;
      RowsSoundMeans(a.rows, a.mode);
      sound, resolved, prepared := ResolveRows(base, id, a);
      if sound {
        ghost var fold := Fold(base, id, a.contract, a.rows);
        hash := StateHash(map k | k in resolved :: resolved[k].Print());
        members := BindObservations(resolved, prepared, fold);
      }
    }

    /** The response is the one the staged evidence deserves; only a created revision moves the head. */
    method Activate(id: Key, reason: Option<string>) returns (response: Response)
      requires Inv(View())
      modifies this
      ensures response == ResponseTo(old(View()), id, reason)
      ensures View() == AfterActivation(old(View()), id, reason)
      ensures Answered(old(View()), View(), id, reason, response)
      ensures Inv(View())
    {
      ghost var before := View();
      if ReasonAccepted(reason) {
        response := Transact(id, reason);
      } else {
        response := InvalidReason;
      }
      AnswerIs(before, id, reason);
    }

    /** The locked part, for a reason that may be recorded. */
    method Transact(id: Key, reason: Option<string>) returns (response: Response)
      requires Inv(View()) && ReasonAccepted(reason)
      modifies this
      ensures response == ResponseTo(old(View()), id, reason)
      ensures View() == AfterActivation(old(View()), id, reason)
      ensures Inv(View())
    {
      StepKeeps(View(), Activates(id, reason));
      if id !in attempts || !attempts[id].state.Ready? {
        return AttemptNotReady;
      }
      if current != attempts[id].base {
        return StalePreview;
      }
      var sound, hash, members := Propose(id);
      if !sound {
        return UnsoundPreview;
      }
      if current.Some? && revisions[current.value].hash == hash {
        FinishWithoutRevision(id, NoChange);
        return Unchanged;
      }
      if (exists k :: 0 <= k < |revisions| && revisions[k].hash == hash) && reason.None? {
        FinishWithoutRevision(id, Replayed);
        return Replay;
      }
      revisions := revisions + [Revision(attempts[id].base, hash, members, id)];
      attempts := attempts[id := attempts[id].(state := Activated, reason := Normalized(reason))];
      current := Some(|revisions| - 1);
      response := Created;
    }
  }
}
