/** The job store as the services update it, proved against the transitions whose runs the fence, retry and
    counter theorems quantify over. */
module JobService {
  import opened Domain
  import opened Jobs

  datatype Execution = Done | FailedTransiently | FailedForGood

  /** How recording an outcome ends: it takes effect, the token was superseded, the release is refused and
      undoes the transaction, or there is no such attempt. The last two are raised. */
  datatype Completion = Recorded | Fenced | Refused | Unavailable

  class JobStore {
    var workspace: Workspace
    var items: map<Key, WorkItem>
    var tickets: map<Key, Ticket>
    var retries: map<Key, seq<Retry>>

    constructor (limits: Amounts)
      ensures Start(View()) && View().workspace.active && View().workspace.limits == limits
    {
      workspace := Workspace(true, Amounts(0, 0, 0), limits);
      items, tickets, retries := map[], map[], map[];
    }

    function View(): Board
      reads this
    {
      Board(workspace, items, tickets, retries)
    }

    // ----- quota -----

    /** Every resource is checked against its limit, not only the one being reserved. */
    method ReserveJob() returns (ok: bool)
      modifies this`workspace
      ensures ok <==> CanReserve(old(workspace))
      ensures workspace == if ok then old(workspace).(usage := OneMoreJob(old(workspace).usage)) else old(workspace)
    {
      var resulting := OneMoreJob(workspace.usage);
      var limits := workspace.limits;
      ok := workspace.active && resulting.retainedBytes <= limits.retainedBytes && resulting.books <= limits.books;
      ok := ok && resulting.activeJobs <= limits.activeJobs;
      if ok {
        workspace := workspace.(usage := resulting);
      }
    }

    method ReleaseJob() returns (ok: bool)
      modifies this`workspace
      ensures ok <==> CanRelease(old(workspace))
      ensures workspace == if ok then Released(old(workspace)) else old(workspace)
    {
      ok := workspace.active && workspace.usage.activeJobs - 1 >= 0;
      if ok {
        workspace := workspace.(usage := workspace.usage.(activeJobs := workspace.usage.activeJobs - 1));
      }
    }

    // ----- enqueueing and claiming -----

    method FindTarget(kind: Kind, target: Key) returns (found: Option<Key>)
      ensures found.Some? ==> found.value in items && items[found.value].kind == kind && items[found.value].target == target
      ensures found.None? <==> !HasTarget(View(), kind, target)
    {
      var waiting := items.Keys;
      while waiting != {}
        invariant waiting <= items.Keys
        invariant forall i :: i in items && i !in waiting ==> !(items[i].kind == kind && items[i].target == target)
        decreases waiting
      {
        var i :| i in waiting;
        if items[i].kind == kind && items[i].target == target {
          return Some(i);
        }
        waiting := waiting - {i};
      }
      found := None;
    }

    /** The one item of a target: a second call finds it and reserves nothing. */
    method EnqueueWork(id: Key, kind: Kind, target: Key, maxAttempts: nat, now: int) returns (item: Option<Key>)
      requires id !in items && 1 <= maxAttempts
      modifies this`workspace, this`items
      ensures View() == Enqueue(old(View()), id, kind, target, maxAttempts, now)
      ensures item.Some? ==> item.value in items && items[item.value].kind == kind && items[item.value].target == target
      ensures item.None? <==> !HasTarget(old(View()), kind, target) && !CanReserve(old(workspace))
      ensures EnqueueEffect(old(View()), View(), id, kind, target, maxAttempts, now)
    {
      EnqueueMeans(View(), id, kind, target, maxAttempts, now);
      item := FindTarget(kind, target);
      if item.Some? {
        return;
      }
      var ok := ReserveJob();
      if ok {
        items := items[id := WorkItem(kind, target, Ready, now, None, None, 0, maxAttempts)];
        item := Some(id);
      }
    }

    method ClaimRow(id: Key, token: Key, now: int, duration: int)
      requires id in items && items[id].Claimable(now) && token !in tickets
      modifies this`items, this`tickets
      ensures View() == Claim(old(View()), id, token, now, duration)
    {
      var item := items[id];
      items := items[id := item.(state := Leased, leaseUntil := Some(now + duration), token := Some(token), attempts := item.attempts + 1)];
      tickets := tickets[token := Ticket(id, items[id].attempts, Pending)];
    }

    method ClaimOne(id: Key, token: Key, now: int, duration: int) returns (claimed: bool)
      requires token !in tickets
      modifies this`items, this`tickets
      ensures claimed <==> id in old(items) && old(items)[id].Claimable(now)
      ensures View() == Claim(old(View()), id, token, now, duration)
      ensures ClaimEffect(old(View()), View(), id, token, now, duration)
    {
      ClaimMeans(View(), id, token, now, duration);
      claimed := id in items && items[id].Claimable(now);
      if claimed {
        ClaimRow(id, token, now, duration);
      }
    }

    /** The item that became available first. */
    method Earliest(from: set<Key>) returns (first: Key)
      requires from != {}
      ensures first in from && forall i :: i in from ==> AvailableAt(items, first) <= AvailableAt(items, i)
    {
      first :| first in from;
      var waiting := from - {first};
      while waiting != {}
        invariant first in from && waiting <= from
        invariant forall i :: i in from && i !in waiting ==> AvailableAt(items, first) <= AvailableAt(items, i)
        decreases waiting
      {
        var i :| i in waiting;
        if AvailableAt(items, i) < AvailableAt(items, first) {
          first := i;
        }
        waiting := waiting - {i};
      }
    }

    /** Up to `size` claimable items of one kind, those available earliest first; nothing earlier is passed over. */
    method Candidates(kind: Kind, now: int, size: nat) returns (ids: seq<Key>)
      ensures Ordered(items, ids) && |ids| <= size && forall i :: i in ids ==> ClaimableHere(items, kind, now, i)
      ensures forall i :: ClaimableHere(items, kind, now, i) && i !in ids ==> |ids| == size && NotBefore(items, ids, i)
      ensures EarliestWaiting(items, kind, now, size, ids)
    {
      ids := [];
      var left := set i | i in items && ClaimableHere(items, kind, now, i);
      while left != {} && |ids| < size
        invariant Ordered(items, ids) && |ids| <= size
        invariant forall i :: ClaimableHere(items, kind, now, i) <==> i in left || i in ids
        invariant forall i :: i in left ==> i !in ids && NotBefore(items, ids, i)
        decreases left
      {
        var first := Earliest(left);
        assert NotBefore(items, ids, first);
        ids, left := ids + [first], left - {first};
      }
      CandidatesMean(items, kind, now, size, ids);
    }

    /** Every candidate is claimed, each with its own new token. */
    method ClaimBatch(kind: Kind, now: int, duration: int, size: nat, tokens: seq<Key>) returns (ids: seq<Key>)
      requires size <= |tokens| && Distinct(tokens) && forall t :: t in tokens ==> t !in tickets
      modifies this`items, this`tickets
      ensures |ids| <= size && Distinct(ids) && forall i :: i in ids ==> ClaimableHere(old(items), kind, now, i)
      ensures EarliestWaiting(old(items), kind, now, size, ids)
      ensures View() == ClaimAll(old(View()), ids, tokens[..|ids|], now, duration)
      ensures forall k :: 0 <= k < |ids| ==> Took(old(items), items, ids[k], tokens[k], now + duration)
    {
      ids := Candidates(kind, now, size);
      for k := 0 to |ids|
        invariant View() == ClaimAll(old(View()), ids[..k], tokens[..k], now, duration)
      {
        ClaimPrefix(old(View()), ids, tokens, k, now, duration);
        assert ids[..k + 1][..k] == ids[..k] && tokens[..k + 1][..k] == tokens[..k];
        ClaimRow(ids[k], tokens[k], now, duration);
      }
      assert ids[..|ids|] == ids;
      ClaimPrefix(old(View()), ids, tokens, |ids|, now, duration);
    }

    // ----- completing -----

    /** A superseded token only marks its own attempt; a refused release undoes the whole transaction. */
    method MarkSucceeded(token: Key) returns (completion: Completion)
      modifies this`workspace, this`items, this`tickets
      ensures View() == Succeed(old(View()), token)
      ensures completion.Recorded? <==> Live(old(View()), token) && CanRelease(old(workspace))
      ensures completion.Refused? <==> Live(old(View()), token) && !CanRelease(old(workspace))
      ensures completion.Unavailable? <==> !Known(old(View()), token)
      ensures completion.Recorded? || completion.Fenced? ==> Resolved(View(), token)
      ensures SuccessEffect(old(View()), View(), token)
    {
      SuccessMeans(View(), token);
      if token !in tickets || tickets[token].item !in items {
        return Unavailable;
      }
      var id := tickets[token].item;
      if items[id].token != Some(token) {
        tickets := tickets[token := tickets[token].(outcome := Expired)];
        return Fenced;
      }
      var released := ReleaseJob();
      if !released {
        return Refused;
      }
      items := items[id := items[id].(state := Succeeded, leaseUntil := None, token := None)];
      tickets := tickets[token := tickets[token].(outcome := Won)];
      completion := Recorded;
    }

    method MarkFailed(token: Key, category: FailureCategory, policy: RetryPolicy, now: int)
      returns (completion: Completion)
      requires token in tickets ==> 1 <= tickets[token].count
      modifies this`workspace, this`items, this`tickets, this`retries
      ensures View() == Fail(old(View()), token, category, policy, now)
      ensures completion.Refused? <==> Live(old(View()), token) && !CanRelease(old(workspace)) &&
                                       Decide(policy, old(tickets)[token].count, category, now).GiveUp?
      ensures completion.Recorded? ==> Live(old(View()), token)
      ensures completion.Unavailable? <==> !Known(old(View()), token)
      ensures completion.Recorded? || completion.Fenced? ==> Resolved(View(), token)
      ensures FailureEffect(old(View()), View(), token, category, policy, now)
    {
      FailureMeans(View(), token, category, policy, now);
      if token !in tickets || tickets[token].item !in items {
        return Unavailable;
      }
      var id, count := tickets[token].item, tickets[token].count;
      if items[id].token != Some(token) {
        tickets := tickets[token := tickets[token].(outcome := Expired)];
        return Fenced;
      }
      match Decide(policy, count, category, now) {
        case TryAgain(at) =>
          items := items[id := items[id].(state := Ready, availableAt := at, leaseUntil := None, token := None)];
          retries := retries[id := RetriesOf(View(), id) + [Retry(count, now, at)]];
        case GiveUp =>
          var released := ReleaseJob();
          if !released {
            return Refused;
          }
          items := items[id := items[id].(state := Failed, leaseUntil := None, token := None)];
      }
      tickets := tickets[token := tickets[token].(outcome := Lost)];
      completion := Recorded;
    }

    // ----- a worker cycle among other transactions -----

    /** Any one transaction of another worker or of the workspace. */
    method Perform(e: Event, policy: RetryPolicy)
      requires forall t :: t in tickets ==> 1 <= tickets[t].count
      modifies this
      ensures View() == Next(old(View()), e, policy)
    {
      match e {
        case Enqueues(id, kind, target, maxAttempts, now) =>
          if id !in items && 1 <= maxAttempts {
            var item := EnqueueWork(id, kind, target, maxAttempts, now);
          }
        case Claims(id, token, now, duration) =>
          if token !in tickets {
            var claimed := ClaimOne(id, token, now, duration);
          }
        case Succeeds(token) =>
          var completion := MarkSucceeded(token);
        case Fails(token, category, now) =>
          var completion := MarkFailed(token, category, policy, now);
        case Expires =>
          workspace := workspace.(active := false);
      }
    }

    method PerformAll(others: seq<Event>, policy: RetryPolicy, ghost tokens: seq<Key>, ghost k: nat)
      requires InCycle(View(), tokens, k)
      modifies this
      ensures View() == After(old(View()), others, policy) && InCycle(View(), tokens, k)
    {
      for i := 0 to |others|
        invariant View() == After(old(View()), others[..i], policy) && InCycle(View(), tokens, k)
      {
        CycleStays(View(), others[i], policy, tokens, k);
        assert others[..i + 1][..i] == others[..i];
        Perform(others[i], policy);
      }
      assert others[..|others|] == others;
    }

    method Complete(token: Key, execution: Execution, policy: RetryPolicy, now: int)
      returns (completion: Completion, ghost e: Event)
      requires token in tickets ==> 1 <= tickets[token].count
      modifies this`workspace, this`items, this`tickets, this`retries
      ensures View() == Next(old(View()), e, policy)
      ensures completion.Refused? ==> View() == old(View()) && Live(View(), token) && !CanRelease(workspace)
      ensures completion.Unavailable? <==> !Known(old(View()), token)
      ensures completion.Recorded? || completion.Fenced? ==> Resolved(View(), token)
    {
      match execution {
        case Done =>
          completion := MarkSucceeded(token);
          e := Succeeds(token);
        case FailedTransiently =>
          completion := MarkFailed(token, Transient, policy, now);
          e := Fails(token, Transient, now);
        case FailedForGood =>
          completion := MarkFailed(token, Permanent, policy, now);
          e := Fails(token, Permanent, now);
      }
    }

    /** One claimed item: other transactions run while it executes, then its outcome is recorded. */
    method ExecuteOne(id: Key, token: Key, policy: RetryPolicy, now: int, execute: (Key, Key) -> Execution,
                      others: seq<Event>, ghost tokens: seq<Key>, ghost k: nat)
      returns (completion: Completion, ghost events: seq<Event>)
      requires InCycle(View(), tokens, k) && k < |tokens| && tokens[k] == token
      modifies this
      ensures View() == After(old(View()), events, policy)
      ensures completion.Refused? ==> Live(View(), token) && !CanRelease(workspace)
      ensures !completion.Refused? ==> InCycle(View(), tokens, k + 1)
    {
      PerformAll(others, policy, tokens, k);
      ghost var was := View();
      ghost var e;
      completion, e := Complete(token, execute(id, token), policy, now);
      CycleStays(was, e, policy, tokens, k);
      events := others + [e];
      assert events[..|events| - 1] == others;
    }

    /** Claim a batch and record what the executor reported for each item. While an item executes, other
        transactions change the board. A failure of one item stops nothing else, but a release that is refused
        is raised and ends the cycle there, with the item still leased. The whole cycle is a sequence of the same
        events, so every theorem about runs covers it. */
    method ClaimAndExecute(kind: Kind, now: int, duration: int, size: nat, tokens: seq<Key>, policy: RetryPolicy,
                           execute: (Key, Key) -> Execution, meanwhile: Key -> seq<Event>)
      returns (ids: seq<Key>, interrupted: Option<Key>, ghost events: seq<Event>)
      requires size <= |tokens| && Distinct(tokens) && forall t :: t in tokens ==> t !in tickets
      requires forall t :: t in tickets ==> 1 <= tickets[t].count && tickets[t].item in items
      modifies this
      ensures View() == After(old(View()), events, policy) && |ids| <= size
      ensures interrupted.None? ==> forall k :: 0 <= k < |ids| ==> Resolved(View(), tokens[k])
      ensures interrupted.None? ==>
                forall k :: 0 <= k < |ids| ==> tokens[k] in tickets && tickets[tokens[k]].outcome != Pending
      ensures interrupted.Some? ==> Live(View(), interrupted.value) && !CanRelease(workspace)
    {
      ids := ClaimBatch(kind, now, duration, size, tokens);
      ghost var claimed := tokens[..|ids|];
      events := ClaimEvents(ids, claimed, now, duration);
      ClaimAllIsRun(old(View()), ids, claimed, now, duration, policy);
      CycleStarts(old(View()), ids, tokens, events, now, duration, policy);
      interrupted := None;
      for k := 0 to |ids|
        invariant View() == After(old(View()), events, policy) && InCycle(View(), claimed, k)
      {
        var completion, more := ExecuteOne(ids[k], tokens[k], policy, now, execute, meanwhile(tokens[k]), claimed, k);
        RunsJoin(old(View()), events, more, policy);
        events := events + more;
        if completion.Refused? {
          interrupted := Some(tokens[k]);
          return;
        }
      }
    }
  }

  predicate Known(b: Board, token: Key) {
    token in b.tickets && b.tickets[token].item in b.items
  }

  /** The attempt with this token has its outcome. */
  predicate Resolved(b: Board, token: Key) {
    token in b.tickets && !b.tickets[token].outcome.Pending?
  }

  /** Where a cycle stands when the first k of its claims are resolved. */
  ghost predicate InCycle(b: Board, tokens: seq<Key>, k: nat) {
    && (forall t :: t in b.tickets ==> 1 <= b.tickets[t].count && b.tickets[t].item in b.items)
    && (forall j :: 0 <= j < |tokens| ==> tokens[j] in b.tickets)
    && forall j :: 0 <= j < k && j < |tokens| ==> Resolved(b, tokens[j])
  }

  lemma ResolvedStays(b: Board, e: Event, policy: RetryPolicy, token: Key)
    requires Resolved(b, token)
    ensures Resolved(Next(b, e, policy), token)
  {
  }

  lemma KnownStays(b: Board, e: Event, policy: RetryPolicy, t: Key)
    requires forall s :: s in b.tickets ==> 1 <= b.tickets[s].count && b.tickets[s].item in b.items
    requires t in Next(b, e, policy).tickets
    ensures 1 <= Next(b, e, policy).tickets[t].count && Next(b, e, policy).tickets[t].item in Next(b, e, policy).items
  {
    TicketStep(b, e, policy, t);
    ItemStep(b, e, policy, Next(b, e, policy).tickets[t].item);
  }

  /** No transaction undoes what a cycle has done. */
  lemma CycleStays(b: Board, e: Event, policy: RetryPolicy, tokens: seq<Key>, k: nat)
    requires InCycle(b, tokens, k)
    ensures InCycle(Next(b, e, policy), tokens, k)
  {
    forall t | t in Next(b, e, policy).tickets
      ensures 1 <= Next(b, e, policy).tickets[t].count
      ensures Next(b, e, policy).tickets[t].item in Next(b, e, policy).items
    {
      KnownStays(b, e, policy, t);
    }
    forall j | 0 <= j < |tokens|
      ensures tokens[j] in Next(b, e, policy).tickets
    {
      TicketStep(b, e, policy, tokens[j]);
    }
    forall j | 0 <= j < k && j < |tokens|
      ensures Resolved(Next(b, e, policy), tokens[j])
    {
      ResolvedStays(b, e, policy, tokens[j]);
    }
  }

  lemma {:induction false} CycleStaysThrough(b: Board, events: seq<Event>, policy: RetryPolicy)
    requires InCycle(b, [], 0)
    ensures InCycle(After(b, events, policy), [], 0)
  {
    if events != [] {
      CycleStaysThrough(b, events[..|events| - 1], policy);
      CycleStays(After(b, events[..|events| - 1], policy), events[|events| - 1], policy, [], 0);
    }
  }

  lemma CycleStarts(b: Board, ids: seq<Key>, tokens: seq<Key>, events: seq<Event>, now: int, duration: int,
                    policy: RetryPolicy)
    requires |ids| <= |tokens| && Distinct(ids) && Distinct(tokens)
    requires forall i :: i in ids ==> i in b.items && b.items[i].Claimable(now)
    requires forall t :: t in tokens ==> t !in b.tickets
    requires forall t :: t in b.tickets ==> 1 <= b.tickets[t].count && b.tickets[t].item in b.items
    requires ClaimAll(b, ids, tokens[..|ids|], now, duration) == After(b, events, policy)
    ensures InCycle(After(b, events, policy), tokens[..|ids|], 0)
  {
    CycleStaysThrough(b, events, policy);
    ClaimPrefix(b, ids, tokens, |ids|, now, duration);
    assert ids[..|ids|] == ids;
  }

  lemma {:induction false} RunsJoin(b: Board, events: seq<Event>, more: seq<Event>, policy: RetryPolicy)
    ensures After(b, events + more, policy) == After(After(b, events, policy), more, policy)
  {
    if more == [] {
      assert events + more == events;
    } else {
      RunsJoin(b, events, more[..|more| - 1], policy);
      assert (events + more)[..|events + more| - 1] == events + more[..|more| - 1];
    }
  }

  predicate Distinct(keys: seq<Key>) {
    forall k, l :: 0 <= k < l < |keys| ==> keys[k] != keys[l]
  }

  function AvailableAt(items: map<Key, WorkItem>, i: Key): int {
    if i in items then items[i].availableAt else 0
  }

  /** Different items, in the order in which they became available. */
  predicate Ordered(items: map<Key, WorkItem>, ids: seq<Key>) {
    Distinct(ids) && forall k, l :: 0 <= k < l < |ids| ==> AvailableAt(items, ids[k]) <= AvailableAt(items, ids[l])
  }

  predicate NotBefore(items: map<Key, WorkItem>, ids: seq<Key>, i: Key) {
    forall k :: 0 <= k < |ids| ==> AvailableAt(items, ids[k]) <= AvailableAt(items, i)
  }

  predicate Took(before: map<Key, WorkItem>, after: map<Key, WorkItem>, i: Key, token: Key, until: int) {
    i in before && i in after && after[i] == LeasedTo(before[i], token, until)
  }

  /** The first k of a batch are claimed, each with its own token, and nothing else of it is touched. */
  ghost predicate PrefixClaimed(b: Board, c: Board, ids: seq<Key>, tokens: seq<Key>, k: nat, until: int) {
    && k <= |ids| <= |tokens|
    && (forall j :: 0 <= j < k ==> Took(b.items, c.items, ids[j], tokens[j], until))
    && (forall j :: 0 <= j < k ==> tokens[j] in c.tickets && c.tickets[tokens[j]].item == ids[j])
    && (forall j :: k <= j < |ids| ==> ids[j] in b.items && ids[j] in c.items && c.items[ids[j]] == b.items[ids[j]])
    && forall j :: k <= j < |tokens| ==> tokens[j] !in c.tickets
  }

  lemma ClaimOneMore(b: Board, c: Board, ids: seq<Key>, tokens: seq<Key>, k: nat, now: int, duration: int)
    requires PrefixClaimed(b, c, ids, tokens, k, now + duration) && k < |ids| && Distinct(ids) && Distinct(tokens)
    requires ids[k] in b.items && b.items[ids[k]].Claimable(now)
    ensures PrefixClaimed(b, Claim(c, ids[k], tokens[k], now, duration), ids, tokens, k + 1, now + duration)
  {
  }

  lemma {:induction false} ClaimPrefix(b: Board, ids: seq<Key>, tokens: seq<Key>, k: nat, now: int, duration: int)
    requires k <= |ids| <= |tokens| && Distinct(ids) && Distinct(tokens)
    requires forall i :: i in ids ==> i in b.items && b.items[i].Claimable(now)
    requires forall t :: t in tokens ==> t !in b.tickets
    ensures PrefixClaimed(b, ClaimAll(b, ids[..k], tokens[..k], now, duration), ids, tokens, k, now + duration)
  {
    if k != 0 {
      ClaimPrefix(b, ids, tokens, k - 1, now, duration);
      assert ids[..k][..k - 1] == ids[..k - 1] && tokens[..k][..k - 1] == tokens[..k - 1];
      assert ids[k - 1] in ids;
      ClaimOneMore(b, ClaimAll(b, ids[..k - 1], tokens[..k - 1], now, duration), ids, tokens, k - 1, now, duration);
    }
  }

  predicate ClaimableHere(items: map<Key, WorkItem>, kind: Kind, now: int, i: Key) {
    i in items && items[i].kind == kind && items[i].Claimable(now)
  }

  /** Ready and due, or leased beyond its lease. */
  ghost predicate Waiting(item: WorkItem, kind: Kind, now: int) {
    && item.kind == kind
    && (|| (item.state == Ready && item.availableAt <= now)
        || (item.state == Leased && item.leaseUntil != None && item.leaseUntil.value < now))
  }

  /** Waiting items of the kind in the order in which they became available; one is passed over only for lack of room,
      and never for a later one. */
  ghost predicate EarliestWaiting(items: map<Key, WorkItem>, kind: Kind, now: int, size: nat, ids: seq<Key>) {
    && |ids| <= size && (forall i :: i in ids ==> i in items && Waiting(items[i], kind, now))
    && (forall k, l :: 0 <= k < l < |ids| && ids[k] in items && ids[l] in items ==>
          ids[k] != ids[l] && items[ids[k]].availableAt <= items[ids[l]].availableAt)
    && forall i :: i in items && Waiting(items[i], kind, now) && i !in ids ==>
         |ids| == size && forall j :: j in ids && j in items ==> items[j].availableAt <= items[i].availableAt
  }

  lemma WaitingMeans(items: map<Key, WorkItem>, kind: Kind, now: int, i: Key)
    ensures ClaimableHere(items, kind, now, i) <==> i in items && Waiting(items[i], kind, now)
  {
  }

  lemma CandidatesMean(items: map<Key, WorkItem>, kind: Kind, now: int, size: nat, ids: seq<Key>)
    requires Ordered(items, ids) && |ids| <= size && forall i :: i in ids ==> ClaimableHere(items, kind, now, i)
    requires forall i :: ClaimableHere(items, kind, now, i) && i !in ids ==> |ids| == size && NotBefore(items, ids, i)
    ensures EarliestWaiting(items, kind, now, size, ids)
  {
    forall i
      ensures ClaimableHere(items, kind, now, i) <==> i in items && Waiting(items[i], kind, now)
    {
      WaitingMeans(items, kind, now, i);
    }
    forall i | i in items && Waiting(items[i], kind, now) && i !in ids
      ensures forall j :: j in ids && j in items ==> items[j].availableAt <= items[i].availableAt
    {
      forall j | j in ids && j in items
        ensures items[j].availableAt <= items[i].availableAt
      {
        var k :| 0 <= k < |ids| && ids[k] == j;
        assert AvailableAt(items, ids[k]) <= AvailableAt(items, i);
      }
    }
  }

  function ClaimAll(b: Board, ids: seq<Key>, tokens: seq<Key>, now: int, duration: int): Board
    requires |ids| == |tokens|
  {
    if ids == [] then b
    else
      var n := |ids| - 1;
      Claim(ClaimAll(b, ids[..n], tokens[..n], now, duration), ids[n], tokens[n], now, duration)
  }

  function ClaimEvents(ids: seq<Key>, tokens: seq<Key>, now: int, duration: int): (events: seq<Event>)
    requires |ids| == |tokens|
    ensures |events| == |ids|
  {
    if ids == [] then []
    else
      var n := |ids| - 1;
      ClaimEvents(ids[..n], tokens[..n], now, duration) + [Claims(ids[n], tokens[n], now, duration)]
  }

  lemma {:induction false} ClaimAllIsRun(b: Board, ids: seq<Key>, tokens: seq<Key>, now: int, duration: int,
                                         policy: RetryPolicy)
    requires |ids| == |tokens|
    ensures ClaimAll(b, ids, tokens, now, duration) == After(b, ClaimEvents(ids, tokens, now, duration), policy)
  {
    if ids != [] {
      var n := |ids| - 1;
      ClaimAllIsRun(b, ids[..n], tokens[..n], now, duration, policy);
      var events := ClaimEvents(ids, tokens, now, duration);
      assert events[..|events| - 1] == ClaimEvents(ids[..n], tokens[..n], now, duration);
    }
  }
}
