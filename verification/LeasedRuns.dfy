/** Safety of the leased queue over every run: any number of workers, any
    interleaving of claims, completions, failures, recoveries and operator steps. */
module LeasedRuns {
  import opened Prelude
  import opened Backoff
  import opened IdempotencyKeys
  import opened JobQueues
  import opened LeasedQueues

  // ---------------------------------------------------------------------
  // Runs
  // ---------------------------------------------------------------------

  /** Step `i` takes the table from `tables[i]` to `tables[i + 1]`. */
  datatype Trace = Trace(tables: seq<Table>, steps: seq<Step>) {
    predicate Shaped() {
      |tables| == |steps| + 1
    }
  }

  ghost predicate LegalAt(run: Trace, i: nat)
    requires run.Shaped() && i < |run.steps|
  {
    && Enabled(run.tables[i], run.steps[i])
    && run.tables[i + 1] == Apply(run.tables[i], run.steps[i])
  }

  /** A run starts empty, and every step was enabled where it was taken. */
  ghost predicate Legal(run: Trace) {
    run.Shaped() && run.tables[0] == map[] && forall i: nat :: i < |run.steps| ==> LegalAt(run, i)
  }

  lemma {:induction false} ReachableInv(run: Trace, n: nat)
    requires Legal(run) && n <= |run.steps|
    ensures Inv(run.tables[n])
  {
    if n > 0 {
      ReachableInv(run, n - 1);
      assert LegalAt(run, n - 1);
      InvKept(run.tables[n - 1], run.steps[n - 1]);
    }
  }

  // ---------------------------------------------------------------------
  // What the callers saw
  // ---------------------------------------------------------------------

  /** The effect a step reported to its caller; refused steps report nothing. */
  datatype Event =
    | Created(id: JobId, key: string, budget: u32)
    | ClaimedBy(id: JobId, worker: string)
    | CompletedBy(id: JobId, worker: string)
    | FailedBy(id: JobId, worker: string)
    | RecoveredAll(ids: set<JobId>)
    | RequeuedJob(id: JobId)
    | NoEvent

  ghost function EventOf(t: Table, s: Step): Event {
    match s
    case Enqueue(id, target, action, version, policy, _) =>
      if KeyTaken(t, Key(target, action, version)) then NoEvent
      else Created(id, Key(target, action, version), policy.maxAttempts)
    case Claim(worker, _, _, _, pick) => if pick.Some? then ClaimedBy(pick.value, worker) else NoEvent
    case Complete(id, worker, _) => if Holds(t, id, worker) then CompletedBy(id, worker) else NoEvent
    case Fail(id, worker, _, now) => if Holds(t, id, worker) && CanFail(t[id], now) then FailedBy(id, worker) else NoEvent
    case Requeue(id, _) => if InStatus(t, id, Dead) then RequeuedJob(id) else NoEvent
    case Recover(now) => RecoveredAll(ExpiredIds(t, now))
    case _ => NoEvent
  }

  ghost function EventAt(run: Trace, i: nat): Event
    requires run.Shaped() && i < |run.steps|
  {
    EventOf(run.tables[i], run.steps[i])
  }

  /** The history of one job, kept from the reported events alone. `holder` is the
      worker of the latest claim not since recovered or finished; `failures` and
      `recoveries` count since creation or the last requeue; `spent` says that
      the last failure found the budget used up. */
  datatype Account = Account(
    created: bool,
    budget: u32,
    holder: Option<string>,
    failures: nat,
    recoveries: nat,
    done: bool,
    spent: bool)

  const UNOPENED: Account := Account(false, 0, None, 0, 0, false, false)

  function Post(a: Account, e: Event, id: JobId): Account {
    match e
    case Created(i, _, budget) => if i == id then UNOPENED.(created := true, budget := budget) else a
    case ClaimedBy(i, worker) => if i == id then a.(holder := Some(worker)) else a
    case CompletedBy(i, _) => if i == id then a.(holder := None, done := true) else a
    case FailedBy(i, _) =>
      if i == id then
        a.(holder := None, failures := a.failures + 1, spent := a.failures + a.recoveries + 1 >= a.budget)
      else a
    case RecoveredAll(ids) => if id in ids then a.(holder := None, recoveries := a.recoveries + 1) else a
    case RequeuedJob(i) => if i == id then a.(failures := 0, recoveries := 0, spent := false) else a
    case NoEvent => a
  }

  /** The account after the first `n` steps. */
  ghost function History(run: Trace, n: nat, id: JobId): Account
    requires run.Shaped() && n <= |run.steps|
  {
    if n == 0 then UNOPENED else Post(History(run, n - 1, id), EventAt(run, n - 1), id)
  }

  // ---------------------------------------------------------------------
  // The row agrees with the history
  // ---------------------------------------------------------------------

  ghost predicate RowAgrees(r: Row, a: Account) {
    && r.leaseOwner == a.holder
    && (r.job.status == Running <==> a.holder.Some?)
    && (r.job.status == Succeeded <==> a.done)
    && (r.job.status == Dead <==> a.spent)
    && r.job.attempts == a.failures + a.recoveries + (if a.holder.Some? || a.done then 1 else 0)
    && r.job.policy.maxAttempts == a.budget
  }

  predicate WithinBudget(a: Account) {
    && a.failures <= Max(1, a.budget)
    && (!a.spent && a.failures > 0 ==> a.failures < a.budget)
    && (a.spent ==> a.failures > 0)
  }

  ghost predicate Agrees(t: Table, a: Account, id: JobId) {
    && (a.created <==> id in t)
    && (id in t ==> RowAgrees(t[id], a))
    && (id !in t ==> a == UNOPENED)
    && WithinBudget(a)
  }

  lemma AgreementKeptByWorker(t: Table, s: Step, a: Account, id: JobId)
    requires s.Claim? || s.Complete? || s.Fail?
    requires Enabled(t, s) && (id in t ==> GoodRow(id, t[id])) && Agrees(t, a, id)
    ensures Agrees(Apply(t, s), Post(a, EventOf(t, s), id), id)
  {}

  lemma AgreementKeptByOthers(t: Table, s: Step, a: Account, id: JobId)
    requires !(s.Claim? || s.Complete? || s.Fail?)
    requires Enabled(t, s) && (id in t ==> GoodRow(id, t[id])) && Agrees(t, a, id)
    ensures Agrees(Apply(t, s), Post(a, EventOf(t, s), id), id)
  {}

  lemma AgreementKept(t: Table, s: Step, a: Account, id: JobId)
    requires Enabled(t, s) && Inv(t) && Agrees(t, a, id)
    ensures Agrees(Apply(t, s), Post(a, EventOf(t, s), id), id)
  {
    if s.Claim? || s.Complete? || s.Fail? {
      AgreementKeptByWorker(t, s, a, id);
    } else {
      AgreementKeptByOthers(t, s, a, id);
    }
  }

  /** Attempt accounting and lease ownership, in every reachable table. */
  lemma {:induction false} HistoryAgrees(run: Trace, n: nat, id: JobId)
    requires Legal(run) && n <= |run.steps|
    ensures Agrees(run.tables[n], History(run, n, id), id)
  {
    if n > 0 {
      HistoryAgrees(run, n - 1, id);
      ReachableInv(run, n - 1);
      assert LegalAt(run, n - 1);
      AgreementKept(run.tables[n - 1], run.steps[n - 1], History(run, n - 1, id), id);
    }
  }

  // ---------------------------------------------------------------------
  // Consequences for the callers
  // ---------------------------------------------------------------------

  /** `complete` takes effect exactly for the worker of the latest claim that has
      not since been recovered or finished; so does `fail`, unless the retry
      delay is out of range. */
  lemma OnlyTheHolderFinishes(run: Trace, n: nat, id: JobId, worker: string, error: string, now: Instant)
    requires Legal(run) && n <= |run.steps|
    ensures var t, holder := run.tables[n], History(run, n, id).holder;
            var complete, fail := Step.Complete(id, worker, now), Step.Fail(id, worker, error, now);
            && (EventOf(t, complete) == CompletedBy(id, worker) <==> holder == Some(worker))
            && (holder != Some(worker) ==> Apply(t, complete) == t && Apply(t, fail) == t)
            && (holder == Some(worker) ==> (EventOf(t, fail) == FailedBy(id, worker) <==> CanFail(t[id], now)))
  {
    HistoryAgrees(run, n, id);
  }

  /** A job is claimed only while no claim on it is open and it is not finished:
      of two workers polling the same job exactly one wins. */
  lemma ClaimsDoNotOverlap(run: Trace, i: nat)
    requires Legal(run) && i < |run.steps| && EventAt(run, i).ClaimedBy?
    ensures var a := History(run, i, EventAt(run, i).id);
            a.created && a.holder.None? && !a.done && !a.spent
  {
    assert LegalAt(run, i);
    HistoryAgrees(run, i, EventAt(run, i).id);
  }

  /** Failures since creation or the last requeue stay within the budget however
      many leases expire, and the job is dead exactly when its last failure found
      the budget spent. */
  lemma FailuresStayWithinBudget(run: Trace, n: nat, id: JobId)
    requires Legal(run) && n <= |run.steps| && id in run.tables[n]
    ensures var a, r := History(run, n, id), run.tables[n][id];
            && a.failures <= Max(1, r.job.policy.maxAttempts)
            && (r.job.status == Dead <==> a.spent)
            && r.job.attempts == a.failures + a.recoveries
                 + (if r.job.status == Running || r.job.status == Succeeded then 1 else 0)
  {
    HistoryAgrees(run, n, id);
  }

  /** The row keeps its key from `t` to `u`, and a succeeded row stays as it is. */
  ghost predicate Persists(t: Table, u: Table, id: JobId) {
    id in t ==>
      && id in u && u[id].job.key == t[id].job.key
      && (t[id].job.status == Succeeded ==> u[id] == t[id])
  }

  lemma PersistsOneMore(t: Table, u: Table, s: Step, id: JobId)
    requires Persists(t, u, id) && Enabled(u, s)
    ensures Persists(t, Apply(u, s), id)
  {
    if id in t {
      RowsPersist(u, s, id);
    }
  }

  /** In every run a failure that is not the last makes the job due after the base delay
      times the factor to the number of failures and recoveries before it, capped;
      the last one leaves it dead, as of now. */
  lemma RetryIsDueAfterBackoff(run: Trace, i: nat)
    requires Legal(run) && i < |run.steps| && EventAt(run, i).FailedBy?
    ensures var s, id := run.steps[i], EventAt(run, i).id;
            id in run.tables[i] && id in run.tables[i + 1]
            && var a, before, after := History(run, i, id), run.tables[i][id].job, run.tables[i + 1][id].job;
               var n := a.failures + a.recoveries + 1;
               && after.lastError == Some(s.error)
               && (if n >= a.budget then after.status == Dead && after.nextAttemptAt == s.now
                   else after.status == Queued && after.nextAttemptAt == s.now + WaitAfter(before.policy, n))
  {
    assert LegalAt(run, i);
    var id := EventAt(run, i).id;
    HistoryAgrees(run, i, id);
    DelayIsCappedProduct(run.tables[i][id].job.policy, run.tables[i][id].job.attempts);
  }

  /** The budget is spent by the `n`-th attempt, or its retry is due within range. */
  predicate FailsInRange(p: RetryPolicy, n: nat, now: Instant) {
    n >= p.maxAttempts || (UncappedSeconds(p, n) <= CHRONO_MAX_SECONDS && InCalendar(now + WaitAfter(p, n)))
  }

  lemma CanFailExactlyWhen(r: Row, now: Instant)
    requires r.job.attempts >= 1
    ensures CanFail(r, now) <==> FailsInRange(r.job.policy, r.job.attempts, now)
  {
    DelayIsCappedProduct(r.job.policy, r.job.attempts);
  }

  lemma FailEvent(t: Table, id: JobId, worker: string, error: string, now: Instant)
    requires Holds(t, id, worker)
    ensures EventOf(t, Step.Fail(id, worker, error, now)) == FailedBy(id, worker) <==> CanFail(t[id], now)
  {}

  lemma HolderFails(t: Table, a: Account, id: JobId, worker: string, error: string, now: Instant)
    requires Agrees(t, a, id) && a.holder == Some(worker)
    ensures id in t
    ensures EventOf(t, Step.Fail(id, worker, error, now)) == FailedBy(id, worker)
       <==> FailsInRange(t[id].job.policy, a.failures + a.recoveries + 1, now)
  {
    var n := a.failures + a.recoveries + 1;
    assert t[id].job.attempts == n;
    FailEvent(t, id, worker, error, now);
    CanFailExactlyWhen(t[id], now);
  }

  /** The holder's failure takes effect exactly if the budget is spent or the next due
      time is in range. */
  lemma HolderFailsExactlyWhen(run: Trace, i: nat, id: JobId, worker: string, error: string, now: Instant)
    requires Legal(run) && i <= |run.steps| && History(run, i, id).holder == Some(worker)
    ensures id in run.tables[i]
    ensures var a := History(run, i, id);
            EventOf(run.tables[i], Step.Fail(id, worker, error, now)) == FailedBy(id, worker)
            <==> FailsInRange(run.tables[i][id].job.policy, a.failures + a.recoveries + 1, now)
  {
    HistoryAgrees(run, i, id);
    HolderFails(run.tables[i], History(run, i, id), id, worker, error, now);
  }

  lemma {:induction false} RowsPersistOverRun(run: Trace, i: nat, j: nat, id: JobId)
    requires Legal(run) && i <= j <= |run.steps|
    ensures Persists(run.tables[i], run.tables[j], id)
    decreases j
  {
    if i < j {
      RowsPersistOverRun(run, i, j - 1, id);
      assert LegalAt(run, j - 1);
      PersistsOneMore(run.tables[i], run.tables[j - 1], run.steps[j - 1], id);
    }
  }

  /** Each key has at most one row in every reachable table, and the row that
      holds a key holds it for good. */
  lemma KeyOwnerIsStable(run: Trace, i: nat, j: nat, a: JobId, b: JobId)
    requires Legal(run) && i <= j <= |run.steps|
    requires a in run.tables[i] && b in run.tables[j] && run.tables[i][a].job.key == run.tables[j][b].job.key
    ensures a == b
  {
    RowsPersistOverRun(run, i, j, a);
    ReachableInv(run, j);
  }

  /** Step `i` completed a job with this key. */
  ghost predicate CompletesKey(run: Trace, i: nat, key: string)
    requires run.Shaped() && i < |run.steps|
  {
    EventAt(run, i).CompletedBy? && run.tables[i][EventAt(run, i).id].job.key == key
  }

  lemma CompletionIsLast(run: Trace, i: nat, j: nat, key: string)
    requires Legal(run) && i < j < |run.steps| && CompletesKey(run, i, key)
    ensures !CompletesKey(run, j, key)
  {
    var a := EventAt(run, i).id;
    assert LegalAt(run, i);
    assert run.tables[i + 1][a].job.status == Succeeded;
    RowsPersistOverRun(run, i + 1, j, a);
    if CompletesKey(run, j, key) {
      KeyOwnerIsStable(run, i, j, a, EventAt(run, j).id);
    }
  }

  /** In every run each idempotency key completes at most once. */
  lemma AtMostOneCompletionPerKey(run: Trace, i: nat, j: nat, key: string)
    requires Legal(run) && i < |run.steps| && j < |run.steps|
    requires CompletesKey(run, i, key) && CompletesKey(run, j, key)
    ensures i == j
  {
    if i < j {
      CompletionIsLast(run, i, j, key);
    } else if j < i {
      CompletionIsLast(run, j, i, key);
    }
  }

  // ---------------------------------------------------------------------
  // Lost leases
  // ---------------------------------------------------------------------

  ghost predicate ClaimsAt(run: Trace, i: nat) {
    run.Shaped() && i < |run.steps| && EventAt(run, i).ClaimedBy?
  }

  function Expiry(s: Step): Instant
    requires s.Claim?
  {
    s.now + s.lease
  }

  /** Step `k` ended the claim of step `i`: its holder finished it, or a recovery at
      or after the expiry freed it. */
  ghost predicate EndsClaim(run: Trace, i: nat, k: nat)
    requires ClaimsAt(run, i) && k < |run.steps|
  {
    var id, worker, e := EventAt(run, i).id, run.steps[i].worker, EventAt(run, k);
    || e == CompletedBy(id, worker)
    || e == FailedBy(id, worker)
    || (run.steps[k].Recover? && run.steps[k].now >= Expiry(run.steps[i]) && id in e.ids)
  }

  ghost predicate AsClaimed(run: Trace, i: nat, j: nat)
    requires ClaimsAt(run, i) && j <= |run.steps|
  {
    var s, id := run.steps[i], EventAt(run, i).id;
    && id in run.tables[i] && id in run.tables[j]
    && run.tables[j][id] == RowClaimed(run.tables[i][id], s.worker, s.now, s.lease)
  }

  lemma RunningRowWaits(t: Table, s: Step, id: JobId)
    requires Enabled(t, s) && id in t && GoodRow(id, t[id]) && t[id].job.status == Running
    ensures var worker, expiry := t[id].leaseOwner.value, t[id].leaseExpiresAt.value;
            || (id in Apply(t, s) && Apply(t, s)[id] == t[id])
            || EventOf(t, s) == CompletedBy(id, worker)
            || EventOf(t, s) == FailedBy(id, worker)
            || (s.Recover? && s.now >= expiry && id in EventOf(t, s).ids)
  {}

  /** From the claim on, whatever the other workers and operators do, the row stays
      as it was claimed until its holder finishes it or a recovery at or after the
      expiry frees it. */
  lemma {:induction false} LeaseIsHeld(run: Trace, i: nat, j: nat)
    requires Legal(run) && ClaimsAt(run, i) && i < j <= |run.steps|
    ensures AsClaimed(run, i, j) || exists k: nat :: i < k < j && EndsClaim(run, i, k)
    decreases j
  {
    if j == i + 1 {
      assert LegalAt(run, i);
    } else {
      LeaseIsHeld(run, i, j - 1);
      if AsClaimed(run, i, j - 1) {
        assert LegalAt(run, j - 1);
        ReachableInv(run, j - 1);
        RunningRowWaits(run.tables[j - 1], run.steps[j - 1], EventAt(run, i).id);
        assert AsClaimed(run, i, j) || EndsClaim(run, i, j - 1);
      }
    }
  }

  /** A worker that dies after its claim strands nothing: however the run went on,
      as long as the claim is open a recovery before the expiry leaves the row
      alone, and one from the expiry on makes the job claimable again with its old
      due time and the lost attempt charged. */
  lemma LostLeaseIsRecovered(run: Trace, i: nat, j: nat, now: Instant)
    requires Legal(run) && ClaimsAt(run, i) && i < j <= |run.steps| && run.steps[i].lease >= 0
    requires forall k: nat :: i < k < j ==> !EndsClaim(run, i, k)
    ensures var s, id, t := run.steps[i], EventAt(run, i).id, run.tables[j];
            && Holds(t, id, s.worker) && id in run.tables[i]
            && var after := Apply(t, Step.Recover(now));
               if now < Expiry(s) then after[id] == t[id]
               else
                 && RowDue(after, now, id)
                 && after[id].job.nextAttemptAt == run.tables[i][id].job.nextAttemptAt
                 && after[id].job.attempts == run.tables[i][id].job.attempts + 1
                 && after[id].leaseOwner.None? && after[id].leaseExpiresAt.None?
  {
    LeaseIsHeld(run, i, j);
    assert LegalAt(run, i);
  }
}
