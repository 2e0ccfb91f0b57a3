/** Leased background work and its quota: claims, fences, retries and the active-job counter. */
module Jobs {
  import opened Domain

  type Key = nat

  datatype JobState = Ready | Leased | Succeeded | Failed

  datatype Kind = ImportValidation | ReconciliationRun

  datatype WorkItem = WorkItem(
    kind: Kind, target: Key, state: JobState, availableAt: int, leaseUntil: Option<int>, token: Option<Key>,
    attempts: nat, maxAttempts: nat)
  {
    /** Still occupying one unit of the active-job quota. */
    predicate Open() {
      state.Ready? || state.Leased?
    }

    /** The table's lease-shape constraint. */
    predicate Shaped() {
      if state.Leased? then leaseUntil.Some? && token.Some? else leaseUntil.None? && token.None?
    }

    predicate Claimable(now: int) {
      (state.Ready? && availableAt <= now) || (state.Leased? && leaseUntil.Some? && leaseUntil.value < now)
    }
  }

  datatype AttemptOutcome = Pending | Won | Lost | Expired

  /** One claim: the item, and the attempt count its worker read back. */
  datatype Ticket = Ticket(item: Key, count: nat, outcome: AttemptOutcome)

  datatype Amounts = Amounts(retainedBytes: nat, books: nat, activeJobs: nat)

  datatype Workspace = Workspace(active: bool, usage: Amounts, limits: Amounts)

  datatype FailureCategory = Transient | Permanent

  datatype RetryPolicy = RetryPolicy(maxAttempts: nat, backoff: int) {
    predicate Valid() {
      1 <= maxAttempts && 0 < backoff
    }
  }

  /** A failure that returned the item to the queue. */
  datatype Retry = Retry(count: nat, at: int, availableAt: int)

  /** One workspace's work, with the log of retries per item. */
  datatype Board = Board(workspace: Workspace, items: map<Key, WorkItem>, tickets: map<Key, Ticket>, retries: map<Key, seq<Retry>>)

  datatype RetryOutcome = TryAgain(availableAt: int) | GiveUp

  function Power(n: nat): (p: nat)
    ensures 1 <= p
  {
    if n == 0 then 1 else 2 * Power(n - 1)
  }

  /** The base delay, doubled for every attempt after the first. */
  function Delay(policy: RetryPolicy, count: nat): int
    requires 1 <= count
  {
    policy.backoff * Power(count - 1)
  }

  function Decide(policy: RetryPolicy, count: nat, category: FailureCategory, now: int): RetryOutcome
    requires 1 <= count
  {
    if category.Permanent? || policy.maxAttempts <= count then GiveUp
    else TryAgain(now + Delay(policy, count))
  }

  // ----- quota -----

  predicate Within(usage: Amounts, limits: Amounts) {
    usage.retainedBytes <= limits.retainedBytes && usage.books <= limits.books && usage.activeJobs <= limits.activeJobs
  }

  function OneMoreJob(usage: Amounts): Amounts {
    usage.(activeJobs := usage.activeJobs + 1)
  }

  predicate CanReserve(w: Workspace) {
    w.active && Within(OneMoreJob(w.usage), w.limits)
  }

  /** A release needs an active workspace and a counter it does not take below zero. */
  predicate CanRelease(w: Workspace) {
    w.active && 1 <= w.usage.activeJobs
  }

  function Released(w: Workspace): Workspace
    requires 1 <= w.usage.activeJobs
  {
    w.(usage := w.usage.(activeJobs := w.usage.activeJobs - 1))
  }

  // ----- transitions -----

  predicate HasTarget(b: Board, kind: Kind, target: Key) {
    exists i :: i in b.items && b.items[i].kind == kind && b.items[i].target == target
  }

  /** A target that already has an item keeps it and reserves nothing. */
  function Enqueue(b: Board, id: Key, kind: Kind, target: Key, maxAttempts: nat, now: int): Board {
    if HasTarget(b, kind, target) || id in b.items || maxAttempts == 0 || !CanReserve(b.workspace) then b
    else
      b.(workspace := b.workspace.(usage := OneMoreJob(b.workspace.usage)),
         items := b.items[id := WorkItem(kind, target, Ready, now, None, None, 0, maxAttempts)])
  }

  function LeasedTo(item: WorkItem, token: Key, until: int): WorkItem {
    item.(state := Leased, leaseUntil := Some(until), token := Some(token), attempts := item.attempts + 1)
  }

  /** Tokens are always new. */
  function Claim(b: Board, id: Key, token: Key, now: int, duration: int): Board {
    if id !in b.items || !b.items[id].Claimable(now) || token in b.tickets then b
    else
      b.(items := b.items[id := LeasedTo(b.items[id], token, now + duration)],
         tickets := b.tickets[token := Ticket(id, b.items[id].attempts + 1, Pending)])
  }

  predicate Live(b: Board, token: Key) {
    && token in b.tickets && b.tickets[token].item in b.items
    && b.items[b.tickets[token].item].token == Some(token)
  }

  function Mark(b: Board, token: Key, outcome: AttemptOutcome): Board
    requires token in b.tickets
  {
    b.(tickets := b.tickets[token := b.tickets[token].(outcome := outcome)])
  }

  function Ended(item: WorkItem, state: JobState): WorkItem {
    item.(state := state, leaseUntil := None, token := None)
  }

  /** A superseded token only marks its own attempt; a release that is refused undoes everything. */
  function Succeed(b: Board, token: Key): Board {
    if token !in b.tickets || b.tickets[token].item !in b.items then b
    else if !Live(b, token) then Mark(b, token, Expired)
    else if !CanRelease(b.workspace) then b
    else
      var id := b.tickets[token].item;
      Mark(b, token, Won).(workspace := Released(b.workspace), items := b.items[id := Ended(b.items[id], Succeeded)])
  }

  function RetriesOf(b: Board, id: Key): seq<Retry> {
    if id in b.retries then b.retries[id] else []
  }

  function Fail(b: Board, token: Key, category: FailureCategory, policy: RetryPolicy, now: int): Board {
    if token !in b.tickets || b.tickets[token].item !in b.items || b.tickets[token].count == 0 then b
    else if !Live(b, token) then Mark(b, token, Expired)
    else
      var (id, count) := (b.tickets[token].item, b.tickets[token].count);
      match Decide(policy, count, category, now)
      case TryAgain(at) =>
        Mark(b, token, Lost).(items := b.items[id := Ended(b.items[id], Ready).(availableAt := at)],
                              retries := b.retries[id := RetriesOf(b, id) + [Retry(count, now, at)]])
      case GiveUp =>
        if !CanRelease(b.workspace) then b
        else Mark(b, token, Lost).(workspace := Released(b.workspace), items := b.items[id := Ended(b.items[id], Failed)])
  }

  datatype Event =
    | Enqueues(id: Key, kind: Kind, target: Key, maxAttempts: nat, now: int)
    | Claims(id: Key, token: Key, now: int, duration: int)
    | Succeeds(token: Key)
    | Fails(token: Key, category: FailureCategory, now: int)
    | Expires

  /** One retry policy is configured for all workers. */
  function Next(b: Board, e: Event, policy: RetryPolicy): Board {
    match e
    case Enqueues(id, kind, target, maxAttempts, now) => Enqueue(b, id, kind, target, maxAttempts, now)
    case Claims(id, token, now, duration) => Claim(b, id, token, now, duration)
    case Succeeds(token) => Succeed(b, token)
    case Fails(token, category, now) => Fail(b, token, category, policy, now)
    case Expires => b.(workspace := b.workspace.(active := false))
  }

  function After(b: Board, events: seq<Event>, policy: RetryPolicy): Board {
    if events == [] then b else Next(After(b, events[..|events| - 1], policy), events[|events| - 1], policy)
  }

  predicate Start(b: Board) {
    b.items == map[] && b.tickets == map[] && b.retries == map[] && b.workspace.usage.activeJobs == 0
  }

  // ----- what every step keeps -----

  function OpenItems(items: map<Key, WorkItem>): set<Key> {
    set i | i in items && items[i].Open()
  }

  ghost predicate ItemKept(b: Board, i: Key)
    requires i in b.items
  {
    var item := b.items[i];
    && item.Shaped()
    && (item.token.Some? ==>
          && item.token.value in b.tickets && b.tickets[item.token.value].item == i
          && b.tickets[item.token.value].count == item.attempts)
  }

  ghost predicate ItemsKept(b: Board) {
    && (forall i :: i in b.items ==> ItemKept(b, i))
    && (forall t :: t in b.tickets ==> b.tickets[t].item in b.items && 1 <= b.tickets[t].count)
    && forall i, j :: i in b.items && j in b.items && SameTarget(b.items[i], b.items[j]) ==> i == j
  }

  predicate SameTarget(a: WorkItem, b: WorkItem) {
    a.kind == b.kind && a.target == b.target
  }

  ghost predicate CounterKept(b: Board) {
    b.workspace.usage.activeJobs == |OpenItems(b.items)| && b.workspace.usage.activeJobs <= b.workspace.limits.activeJobs
  }

  /** The counts at which an item was returned to the queue rise, and stay below the configured maximum. */
  ghost predicate RetriesRise(retries: seq<Retry>, policy: RetryPolicy) {
    && (forall k :: 0 <= k < |retries| ==>
          && 1 <= retries[k].count < policy.maxAttempts
          && retries[k].availableAt == retries[k].at + Delay(policy, retries[k].count))
    && forall k, l :: 0 <= k < l < |retries| ==> retries[k].count < retries[l].count
  }

  ghost predicate RetryKept(b: Board, i: Key, policy: RetryPolicy)
    requires i in b.items
  {
    var retries := RetriesOf(b, i);
    && RetriesRise(retries, policy)
    && (retries != [] ==>
          var last := retries[|retries| - 1].count;
          last <= b.items[i].attempts && (b.items[i].state.Leased? ==> last < b.items[i].attempts))
  }

  ghost predicate RetriesKept(b: Board, policy: RetryPolicy) {
    && (forall i :: i in b.items ==> RetryKept(b, i, policy))
    && forall i :: i in b.retries ==> i in b.items
  }

  ghost predicate Inv(b: Board, policy: RetryPolicy) {
    ItemsKept(b) && CounterKept(b) && RetriesKept(b, policy)
  }

  /** How one item may change in one step. */
  ghost predicate ItemChange(b: Board, e: Event, policy: RetryPolicy, i: Key, after: WorkItem)
    requires i in b.items
  {
    var item := b.items[i];
    || after == item
    || (e.Claims? && e.id == i && item.Claimable(e.now) && e.token !in b.tickets && after == LeasedTo(item, e.token, e.now + e.duration))
    || (e.Succeeds? && Live(b, e.token) && b.tickets[e.token].item == i && after == Ended(item, Succeeded))
    || (e.Fails? && Live(b, e.token) && b.tickets[e.token].item == i && 1 <= b.tickets[e.token].count &&
        match Decide(policy, b.tickets[e.token].count, e.category, e.now)
        case TryAgain(at) => after == Ended(item, Ready).(availableAt := at)
        case GiveUp => after == Ended(item, Failed))
  }

  lemma ItemStep(b: Board, e: Event, policy: RetryPolicy, i: Key)
    requires i in b.items
    ensures i in Next(b, e, policy).items && ItemChange(b, e, policy, i, Next(b, e, policy).items[i])
  {
  }

  lemma TicketStep(b: Board, e: Event, policy: RetryPolicy, t: Key)
    ensures t in b.tickets ==>
              && t in Next(b, e, policy).tickets && Next(b, e, policy).tickets[t].item == b.tickets[t].item
              && Next(b, e, policy).tickets[t].count == b.tickets[t].count
    ensures t in Next(b, e, policy).tickets && t !in b.tickets ==>
              && e.Claims? && e.token == t && e.id in b.items && b.items[e.id].Claimable(e.now)
              && Next(b, e, policy).tickets[t] == Ticket(e.id, b.items[e.id].attempts + 1, Pending)
              && Next(b, e, policy).items[e.id] == LeasedTo(b.items[e.id], t, e.now + e.duration)
  {
  }

  lemma NewItem(b: Board, e: Event, policy: RetryPolicy, i: Key)
    requires i !in b.items && i in Next(b, e, policy).items
    ensures e.Enqueues? && e.id == i && !HasTarget(b, e.kind, e.target)
    ensures Next(b, e, policy).items == b.items[i := WorkItem(e.kind, e.target, Ready, e.now, None, None, 0, e.maxAttempts)]
    ensures Next(b, e, policy).tickets == b.tickets && Next(b, e, policy).retries == b.retries
  {
  }

  lemma ItemKeptStep(b: Board, e: Event, policy: RetryPolicy, i: Key)
    requires ItemsKept(b) && i in Next(b, e, policy).items
    ensures ItemKept(Next(b, e, policy), i)
  {
    if i in b.items {
      ItemStep(b, e, policy, i);
      assert ItemKept(b, i);
      if b.items[i].token.Some? {
        TicketStep(b, e, policy, b.items[i].token.value);
      }
      if e.Claims? {
        TicketStep(b, e, policy, e.token);
      }
    } else {
      NewItem(b, e, policy, i);
    }
  }

  lemma TargetsStep(b: Board, e: Event, policy: RetryPolicy, i: Key, j: Key)
    requires ItemsKept(b) && i in Next(b, e, policy).items && j in Next(b, e, policy).items
    requires SameTarget(Next(b, e, policy).items[i], Next(b, e, policy).items[j])
    ensures i == j
  {
    if i in b.items {
      ItemStep(b, e, policy, i);
    } else {
      NewItem(b, e, policy, i);
    }
    if j in b.items {
      ItemStep(b, e, policy, j);
    } else {
      NewItem(b, e, policy, j);
    }
  }

  lemma TicketKeptStep(b: Board, e: Event, policy: RetryPolicy, t: Key)
    requires ItemsKept(b) && t in Next(b, e, policy).tickets
    ensures Next(b, e, policy).tickets[t].item in Next(b, e, policy).items && 1 <= Next(b, e, policy).tickets[t].count
  {
    TicketStep(b, e, policy, t);
    ItemStep(b, e, policy, Next(b, e, policy).tickets[t].item);
  }

  lemma ItemsStep(b: Board, e: Event, policy: RetryPolicy)
    requires ItemsKept(b)
    ensures ItemsKept(Next(b, e, policy))
  {
    var t := Next(b, e, policy);
    forall i | i in t.items
      ensures ItemKept(t, i)
    {
      ItemKeptStep(b, e, policy, i);
    }
    forall k | k in t.tickets
      ensures t.tickets[k].item in t.items && 1 <= t.tickets[k].count
    {
      TicketKeptStep(b, e, policy, k);
    }
    forall i, j | i in t.items && j in t.items && SameTarget(t.items[i], t.items[j])
      ensures i == j
    {
      TargetsStep(b, e, policy, i, j);
    }
  }

  // ----- the counter -----

  lemma OpenAfter(items: map<Key, WorkItem>, i: Key, item: WorkItem)
    ensures OpenItems(items[i := item]) == if item.Open() then OpenItems(items) + {i} else OpenItems(items) - {i}
  {
  }

  lemma LiveIsOpen(b: Board, token: Key)
    requires ItemsKept(b) && Live(b, token)
    ensures b.tickets[token].item in OpenItems(b.items) && b.items[b.tickets[token].item].state.Leased?
    ensures b.tickets[token].count == b.items[b.tickets[token].item].attempts
  {
    assert ItemKept(b, b.tickets[token].item);
  }

  lemma ClaimCounter(b: Board, id: Key, token: Key, now: int, duration: int)
    requires CounterKept(b)
    ensures CounterKept(Claim(b, id, token, now, duration))
  {
    if id in b.items && b.items[id].Claimable(now) {
      OpenAfter(b.items, id, LeasedTo(b.items[id], token, now + duration));
      assert id in OpenItems(b.items);
      assert OpenItems(b.items) + {id} == OpenItems(b.items);
    }
  }

  lemma EnqueueCounter(b: Board, id: Key, kind: Kind, target: Key, maxAttempts: nat, now: int)
    requires CounterKept(b)
    ensures CounterKept(Enqueue(b, id, kind, target, maxAttempts, now))
  {
    OpenAfter(b.items, id, WorkItem(kind, target, Ready, now, None, None, 0, maxAttempts));
    assert id !in b.items ==> id !in OpenItems(b.items);
  }

  lemma SucceedCounter(b: Board, token: Key)
    requires ItemsKept(b) && CounterKept(b)
    ensures CounterKept(Succeed(b, token))
  {
    if Live(b, token) {
      LiveIsOpen(b, token);
      OpenAfter(b.items, b.tickets[token].item, Ended(b.items[b.tickets[token].item], Succeeded));
    }
  }

  lemma CounterStep(b: Board, e: Event, policy: RetryPolicy)
    requires ItemsKept(b) && CounterKept(b)
    ensures CounterKept(Next(b, e, policy))
  {
    match e
    case Enqueues(id, kind, target, maxAttempts, now) => EnqueueCounter(b, id, kind, target, maxAttempts, now);
    case Claims(id, token, now, duration) => ClaimCounter(b, id, token, now, duration);
    case Succeeds(token) => SucceedCounter(b, token);
    case Fails(token, category, now) =>
      if Live(b, token) {
        FailCounter(b, token, category, policy, now);
      }
    case Expires =>
  }

  lemma FailCounter(b: Board, token: Key, category: FailureCategory, policy: RetryPolicy, now: int)
    requires ItemsKept(b) && CounterKept(b) && Live(b, token)
    ensures CounterKept(Fail(b, token, category, policy, now))
  {
    LiveIsOpen(b, token);
    var id := b.tickets[token].item;
    match Decide(policy, b.tickets[token].count, category, now)
    case TryAgain(at) =>
      OpenAfter(b.items, id, Ended(b.items[id], Ready).(availableAt := at));
      assert OpenItems(b.items) + {id} == OpenItems(b.items);
    case GiveUp =>
      OpenAfter(b.items, id, Ended(b.items[id], Failed));
  }

  // ----- retries -----

  lemma RetriesAppend(retries: seq<Retry>, policy: RetryPolicy, r: Retry)
    requires RetriesRise(retries, policy) && (retries != [] ==> retries[|retries| - 1].count < r.count)
    requires 1 <= r.count < policy.maxAttempts && r.availableAt == r.at + Delay(policy, r.count)
    ensures RetriesRise(retries + [r], policy)
  {
  }

  lemma OtherRetries(b: Board, e: Event, policy: RetryPolicy, i: Key)
    requires !(e.Fails? && Live(b, e.token) && b.tickets[e.token].item == i)
    ensures RetriesOf(Next(b, e, policy), i) == RetriesOf(b, i)
  {
  }

  lemma RetryStep(b: Board, e: Event, policy: RetryPolicy, i: Key)
    requires ItemsKept(b) && RetriesKept(b, policy) && i in b.items
    ensures i in Next(b, e, policy).items && RetryKept(Next(b, e, policy), i, policy)
  {
    ItemStep(b, e, policy, i);
    assert RetryKept(b, i, policy);
    if e.Fails? && Live(b, e.token) && b.tickets[e.token].item == i {
      FailRetries(b, e, policy, i);
    } else {
      OtherRetries(b, e, policy, i);
    }
  }

  lemma FailRetries(b: Board, e: Event, policy: RetryPolicy, i: Key)
    requires ItemsKept(b) && i in b.items && RetryKept(b, i, policy)
    requires e.Fails? && Live(b, e.token) && b.tickets[e.token].item == i
    ensures i in Next(b, e, policy).items && RetryKept(Next(b, e, policy), i, policy)
  {
    LiveIsOpen(b, e.token);
    var count := b.tickets[e.token].count;
    match Decide(policy, count, e.category, e.now)
    case TryAgain(at) => RetriesAppend(RetriesOf(b, i), policy, Retry(count, e.now, at));
    case GiveUp =>
  }

  lemma RetryKeys(b: Board, e: Event, policy: RetryPolicy, i: Key)
    requires ItemsKept(b) && (forall k :: k in b.retries ==> k in b.items) && i in Next(b, e, policy).retries
    ensures i in Next(b, e, policy).items
  {
    if i in b.items {
      ItemStep(b, e, policy, i);
    }
  }

  lemma NewRetries(b: Board, e: Event, policy: RetryPolicy, i: Key)
    requires (forall k :: k in b.retries ==> k in b.items) && i !in b.items && i in Next(b, e, policy).items
    ensures RetryKept(Next(b, e, policy), i, policy)
  {
    NewItem(b, e, policy, i);
  }

  lemma RetriesStep(b: Board, e: Event, policy: RetryPolicy)
    requires ItemsKept(b) && RetriesKept(b, policy)
    ensures RetriesKept(Next(b, e, policy), policy)
  {
    var t := Next(b, e, policy);
    forall i | i in t.items
      ensures RetryKept(t, i, policy)
    {
      if i in b.items {
        RetryStep(b, e, policy, i);
      } else {
        NewRetries(b, e, policy, i);
      }
    }
    forall i | i in t.retries
      ensures i in t.items
    {
      RetryKeys(b, e, policy, i);
    }
  }

  lemma StepKeeps(b: Board, e: Event, policy: RetryPolicy)
    requires Inv(b, policy)
    ensures Inv(Next(b, e, policy), policy)
  {
    ItemsStep(b, e, policy);
    CounterStep(b, e, policy);
    RetriesStep(b, e, policy);
  }

  lemma {:induction false} RunKeeps(start: Board, events: seq<Event>, policy: RetryPolicy)
    requires Start(start)
    ensures Inv(After(start, events, policy), policy)
  {
    if events == [] {
      assert OpenItems(start.items) == {};
    } else {
      RunKeeps(start, events[..|events| - 1], policy);
      StepKeeps(After(start, events[..|events| - 1], policy), events[|events| - 1], policy);
    }
  }

  // ----- the theorems -----

  /** After every interleaving the active-job counter is the number of ready or leased items and stays within
      the limit, and a live completion in an active workspace can always release: the counter never underflows. */
  lemma CounterIsOpenWork(start: Board, events: seq<Event>, policy: RetryPolicy, token: Key)
    requires Start(start)
    ensures var b := After(start, events, policy);
            && b.workspace.usage.activeJobs == |OpenItems(b.items)| <= b.workspace.limits.activeJobs
            && (Live(b, token) ==> 1 <= b.workspace.usage.activeJobs)
            && (Live(b, token) && b.workspace.active ==> CanRelease(b.workspace))
  {
    RunKeeps(start, events, policy);
    var b := After(start, events, policy);
    if Live(b, token) {
      LiveIsOpen(b, token);
      assert b.tickets[token].item in OpenItems(b.items);
    }
  }

  /** An item has at most one live token, no two items share one, and whoever completes with it still holds
      the stored attempt count. */
  lemma OneLiveToken(start: Board, events: seq<Event>, policy: RetryPolicy, s: Key, t: Key)
    requires Start(start)
    requires Live(After(start, events, policy), s) && Live(After(start, events, policy), t)
    ensures var b := After(start, events, policy);
            && (b.tickets[s].item == b.tickets[t].item ==> s == t)
            && b.items[b.tickets[s].item].state.Leased? && b.items[b.tickets[s].item].attempts == b.tickets[s].count
  {
    RunKeeps(start, events, policy);
    LiveIsOpen(After(start, events, policy), s);
  }

  /** Completing with a superseded token leaves every item and the quota as they were. */
  lemma FencedCompletionChangesNothing(b: Board, e: Event, policy: RetryPolicy)
    requires e.Succeeds? || e.Fails?
    requires !Live(b, e.token)
    ensures Next(b, e, policy).items == b.items && Next(b, e, policy).workspace == b.workspace
    ensures Next(b, e, policy).retries == b.retries
  {
  }

  ghost predicate Over(item: WorkItem) {
    item.state.Succeeded? || item.state.Failed?
  }

  lemma OverStays(b: Board, e: Event, policy: RetryPolicy, i: Key)
    requires ItemsKept(b) && i in b.items && Over(b.items[i])
    ensures i in Next(b, e, policy).items && Next(b, e, policy).items[i] == b.items[i]
  {
    ItemStep(b, e, policy, i);
    assert ItemKept(b, i);
  }

  /** SUCCEEDED and FAILED are absorbing. */
  lemma {:induction false} OverIsAbsorbing(start: Board, events: seq<Event>, more: seq<Event>, policy: RetryPolicy,
                                           i: Key)
    requires Start(start)
    requires i in After(start, events, policy).items && Over(After(start, events, policy).items[i])
    ensures i in After(start, events + more, policy).items
    ensures After(start, events + more, policy).items[i] == After(start, events, policy).items[i]
  {
    if more == [] {
      assert events + more == events;
    } else {
      var init := more[..|more| - 1];
      OverIsAbsorbing(start, events, init, policy, i);
      RunKeeps(start, events + init, policy);
      OverStays(After(start, events + init, policy), more[|more| - 1], policy, i);
      LastOf(start, events, more, policy);
    }
  }

  lemma LastOf(start: Board, events: seq<Event>, more: seq<Event>, policy: RetryPolicy)
    requires more != []
    ensures After(start, events + more, policy) ==
            Next(After(start, events + more[..|more| - 1], policy), more[|more| - 1], policy)
  {
    LastStep(start, events + more, policy, events + more[..|more| - 1], more[|more| - 1]);
  }

  lemma LastStep(start: Board, all: seq<Event>, policy: RetryPolicy, init: seq<Event>, last: Event)
    requires all != [] && all[..|all| - 1] == init && all[|all| - 1] == last
    ensures After(start, all, policy) == Next(After(start, init, policy), last, policy)
  {
  }

  lemma {:induction false} RisingIsShort(retries: seq<Retry>, policy: RetryPolicy)
    requires RetriesRise(retries, policy) && 1 <= policy.maxAttempts
    ensures |retries| <= if retries == [] then 0 else retries[|retries| - 1].count
  {
    if retries != [] {
      var init := retries[..|retries| - 1];
      RisingIsShort(init, policy);
      if init != [] {
        assert init[|init| - 1].count < retries[|retries| - 1].count;
      }
    }
  }

  lemma RetryWaits(policy: RetryPolicy, r: Retry)
    requires 1 <= r.count && r.availableAt == r.at + Delay(policy, r.count)
    ensures Waits(policy.backoff, r.count, r.availableAt - r.at)
  {
    var waits := DelaysDouble(policy, r.count);
    assert Doubles(policy.backoff, waits) && |waits| == r.count && waits[r.count - 1] == r.availableAt - r.at;
  }

  lemma RisingWaits(retries: seq<Retry>, policy: RetryPolicy)
    requires RetriesRise(retries, policy)
    ensures forall k :: 0 <= k < |retries| ==>
              Waits(policy.backoff, retries[k].count, retries[k].availableAt - retries[k].at)
  {
    forall k | 0 <= k < |retries|
      ensures Waits(policy.backoff, retries[k].count, retries[k].availableAt - retries[k].at)
    {
      RetryWaits(policy, retries[k]);
    }
  }

  ghost predicate Bounded(retries: seq<Retry>, policy: RetryPolicy) {
    && |retries| <= policy.maxAttempts - 1
    && (forall k :: 0 <= k < |retries| ==>
          1 <= retries[k].count < policy.maxAttempts &&
          Waits(policy.backoff, retries[k].count, retries[k].availableAt - retries[k].at))
    && forall k, l :: 0 <= k < l < |retries| ==> retries[k].count < retries[l].count
  }

  lemma RisingIsBounded(retries: seq<Retry>, policy: RetryPolicy)
    requires RetriesRise(retries, policy) && policy.Valid()
    ensures Bounded(retries, policy)
  {
    RisingWaits(retries, policy);
    RisingIsShort(retries, policy);
  }

  lemma KeptRises(b: Board, policy: RetryPolicy, i: Key)
    requires RetriesKept(b, policy) && i in b.items
    ensures RetriesRise(RetriesOf(b, i), policy)
  {
    assert RetryKept(b, i, policy);
  }

  /** At most one failure fewer than the configured maximum ever returns an item to the queue, however often
      its lease expires, and the k-th failed attempt waits the base delay doubled k - 1 times. */
  lemma RetriesAreBounded(start: Board, events: seq<Event>, policy: RetryPolicy, i: Key)
    requires Start(start) && policy.Valid() && i in After(start, events, policy).items
    ensures Bounded(RetriesOf(After(start, events, policy), i), policy)
  {
    RunKeeps(start, events, policy);
    KeptRises(After(start, events, policy), policy, i);
    RisingIsBounded(RetriesOf(After(start, events, policy), i), policy);
  }

  lemma KeptShape(b: Board, i: Key)
    requires ItemsKept(b) && i in b.items
    ensures b.items[i].Shaped()
  {
    assert ItemKept(b, i);
  }

  /** In every interleaving an item has a lease and a token exactly while it is leased. */
  lemma LeasesAreShaped(start: Board, events: seq<Event>, policy: RetryPolicy, i: Key)
    requires Start(start) && i in After(start, events, policy).items
    ensures var item := After(start, events, policy).items[i];
            (item.state == Leased <==> item.leaseUntil != None) && (item.state == Leased <==> item.token != None)
  {
    RunKeeps(start, events, policy);
    KeptShape(After(start, events, policy), i);
  }

  // ----- what each transaction does, in the fields of the rows -----

  /** The first failure waits the base delay, and every further one twice as long as the one before it. */
  ghost predicate Doubles(base: int, waits: seq<int>) {
    && (waits != [] ==> waits[0] == base)
    && forall k :: 0 < k < |waits| ==> waits[k] == 2 * waits[k - 1]
  }

  ghost predicate Waits(base: int, count: nat, wait: int) {
    exists waits :: Doubles(base, waits) && |waits| == count && count != 0 && waits[count - 1] == wait
  }

  lemma {:induction false} DelaysDouble(policy: RetryPolicy, count: nat) returns (waits: seq<int>)
    ensures Doubles(policy.backoff, waits) && |waits| == count
    ensures count != 0 ==> waits[count - 1] == Delay(policy, count)
  {
    waits := [];
    if count != 0 {
      waits := DelaysDouble(policy, count - 1);
      waits := waits + [Delay(policy, count)];
    }
  }

  /** Nothing but this item and this attempt changes; the item keeps its work and its attempt count. */
  ghost predicate OnlyThisWork(b: Board, c: Board, id: Key, token: Key) {
    && b.items.Keys == c.items.Keys && b.tickets.Keys == c.tickets.Keys && id in b.items && token in b.tickets
    && (forall i :: i in b.items && i != id ==> c.items[i] == b.items[i])
    && (forall t :: t in b.tickets && t != token ==> c.tickets[t] == b.tickets[t])
    && c.tickets[token].item == b.tickets[token].item && c.tickets[token].count == b.tickets[token].count
    && c.items[id].kind == b.items[id].kind && c.items[id].target == b.items[id].target
    && c.items[id].attempts == b.items[id].attempts && c.items[id].maxAttempts == b.items[id].maxAttempts
  }

  /** The quota gives back one job and nothing else of the workspace changes. */
  ghost predicate GivenBack(before: Workspace, after: Workspace) {
    && after.active == before.active && after.limits == before.limits
    && after.usage.activeJobs == before.usage.activeJobs - 1
    && after.usage.books == before.usage.books && after.usage.retainedBytes == before.usage.retainedBytes
  }

  ghost predicate Unleased(item: WorkItem, state: JobState, availableAt: int) {
    item.state == state && item.availableAt == availableAt && item.leaseUntil == None && item.token == None
  }

  /** A completion with a token the item no longer carries marks its own attempt expired and does nothing else. */
  ghost predicate OnlyExpired(b: Board, c: Board, id: Key, token: Key) {
    && OnlyThisWork(b, c, id, token) && c.tickets[token].outcome == Expired
    && c.items[id] == b.items[id] && c.workspace == b.workspace && c.retries == b.retries
  }

  ghost predicate SuccessEffect(b: Board, c: Board, token: Key) {
    if token !in b.tickets || b.tickets[token].item !in b.items then c == b
    else
      var id := b.tickets[token].item;
      if b.items[id].token != Some(token) then OnlyExpired(b, c, id, token)
      else if !b.workspace.active || b.workspace.usage.activeJobs == 0 then c == b
      else
        && OnlyThisWork(b, c, id, token) && c.tickets[token].outcome == Won
        && Unleased(c.items[id], Succeeded, b.items[id].availableAt)
        && GivenBack(b.workspace, c.workspace) && c.retries == b.retries
  }

  /** A transient failure below the maximum always returns the item to the queue, to wait longer each time; a permanent
      one, or the last transient one, always ends it and gives its job back. */
  ghost predicate FailureEffect(b: Board, c: Board, token: Key, category: FailureCategory, policy: RetryPolicy, now: int) {
    if token !in b.tickets || b.tickets[token].item !in b.items || b.tickets[token].count == 0 then c == b
    else
      var id, count := b.tickets[token].item, b.tickets[token].count;
      if b.items[id].token != Some(token) then OnlyExpired(b, c, id, token)
      else if category == Transient && count < policy.maxAttempts then
        && OnlyThisWork(b, c, id, token) && c.tickets[token].outcome == Lost && c.workspace == b.workspace
        && exists wait ::
             && Waits(policy.backoff, count, wait) && Unleased(c.items[id], Ready, now + wait)
             && c.retries == b.retries[id := (if id in b.retries then b.retries[id] else []) + [Retry(count, now, now + wait)]]
      else if !b.workspace.active || b.workspace.usage.activeJobs == 0 then c == b
      else
        && OnlyThisWork(b, c, id, token) && c.tickets[token].outcome == Lost
        && Unleased(c.items[id], Failed, b.items[id].availableAt)
        && GivenBack(b.workspace, c.workspace) && c.retries == b.retries
  }

  /** A free item, or one whose lease is over, is leased to the new token and counts one attempt more. */
  ghost predicate ClaimEffect(b: Board, c: Board, id: Key, token: Key, now: int, duration: int) {
    var free :=
      && id in b.items && token !in b.tickets
      && (|| (b.items[id].state == Ready && b.items[id].availableAt <= now)
          || (b.items[id].state == Leased && b.items[id].leaseUntil != None && b.items[id].leaseUntil.value < now));
    if !free then c == b
    else
      && c.workspace == b.workspace && c.retries == b.retries
      && c.items == b.items[id := WorkItem(b.items[id].kind, b.items[id].target, Leased, b.items[id].availableAt,
                                           Some(now + duration), Some(token), b.items[id].attempts + 1,
                                           b.items[id].maxAttempts)]
      && c.tickets == b.tickets[token := Ticket(id, b.items[id].attempts + 1, Pending)]
  }

  /** A target without an item gets one if the workspace is active, one job more is within its limit, and the other
      resources are within theirs. */
  ghost predicate EnqueueEffect(b: Board, c: Board, id: Key, kind: Kind, target: Key, maxAttempts: nat, now: int) {
    var fits :=
      && b.workspace.active && b.workspace.usage.activeJobs < b.workspace.limits.activeJobs
      && b.workspace.usage.books <= b.workspace.limits.books
      && b.workspace.usage.retainedBytes <= b.workspace.limits.retainedBytes;
    var taken := exists i :: i in b.items && b.items[i].kind == kind && b.items[i].target == target;
    if taken || id in b.items || maxAttempts == 0 || !fits then c == b
    else
      && GivenBack(c.workspace, b.workspace) && c.tickets == b.tickets && c.retries == b.retries
      && c.items == b.items[id := WorkItem(kind, target, Ready, now, None, None, 0, maxAttempts)]
  }

  lemma SuccessMeans(b: Board, token: Key)
    ensures SuccessEffect(b, Succeed(b, token), token)
  {
  }

  lemma FailureMeans(b: Board, token: Key, category: FailureCategory, policy: RetryPolicy, now: int)
    ensures FailureEffect(b, Fail(b, token, category, policy, now), token, category, policy, now)
  {
    if token in b.tickets && b.tickets[token].count != 0 {
      var waits := DelaysDouble(policy, b.tickets[token].count);
      assert Waits(policy.backoff, b.tickets[token].count, Delay(policy, b.tickets[token].count));
    }
  }

  lemma ClaimMeans(b: Board, id: Key, token: Key, now: int, duration: int)
    ensures ClaimEffect(b, Claim(b, id, token, now, duration), id, token, now, duration)
  {
  }

  lemma EnqueueMeans(b: Board, id: Key, kind: Kind, target: Key, maxAttempts: nat, now: int)
    ensures EnqueueEffect(b, Enqueue(b, id, kind, target, maxAttempts, now), id, kind, target, maxAttempts, now)
  {
  }
}
