/** The in-memory job queue of the core crate. */
module JobQueues {
  import opened Prelude
  import opened Backoff
  import opened IdempotencyKeys

  /** Job ids are fixed-length texts; a number stands for its place in their order. */
  type JobId = nat

  datatype JobStatus = Queued | Paused | Running | Succeeded | Dead

  predicate InFlight(s: JobStatus) {
    s.Queued? || s.Paused? || s.Running?
  }

  datatype Job = Job(
    id: JobId,
    target: string,
    action: JobAction,
    key: string,
    status: JobStatus,
    attempts: nat,
    policy: RetryPolicy,
    nextAttemptAt: Instant,
    lastError: Option<string>,
    enqueuedAt: Instant,
    updatedAt: Instant)

  type Jobs = map<JobId, Job>

  predicate Valid(jobs: Jobs) {
    forall id :: id in jobs ==> jobs[id].id == id
  }

  predicate Has(jobs: Jobs, id: JobId, status: JobStatus) {
    id in jobs && jobs[id].status == status
  }

  predicate Live(jobs: Jobs, id: JobId, key: string) {
    id in jobs && jobs[id].key == key && InFlight(jobs[id].status)
  }

  predicate Due(jobs: Jobs, now: Instant, id: JobId) {
    Has(jobs, id, Queued) && jobs[id].nextAttemptAt <= now
  }

  /** Claim order: due time, then enqueue time, then place in the map. */
  predicate Before(a: Job, b: Job) {
    || a.nextAttemptAt < b.nextAttemptAt
    || (a.nextAttemptAt == b.nextAttemptAt && a.enqueuedAt < b.enqueuedAt)
    || (a.nextAttemptAt == b.nextAttemptAt && a.enqueuedAt == b.enqueuedAt && a.id < b.id)
  }

  // ---------------------------------------------------------------------
  // What each operation does to one job
  // ---------------------------------------------------------------------

  function NewJob(id: JobId, target: string, action: JobAction, version: nat,
                  policy: RetryPolicy, at: Instant): Job {
    Job(id, target, action, Key(target, action, version), Queued, 0, policy, at, None, at, at)
  }

  function Claimed(job: Job, now: Instant): Job {
    job.(status := Running, attempts := job.attempts + 1, updatedAt := now)
  }

  function Completed(job: Job, now: Instant): Job {
    job.(status := Succeeded, lastError := None, updatedAt := now)
  }

  function RetryDelay(job: Job): Option<Duration> {
    DelayFor(job.policy, Max(job.attempts, 1))
  }

  /** A retry must be due within the calendar. */
  predicate Schedulable(job: Job, now: Instant)
    requires RetryDelay(job).Some?
  {
    job.attempts >= job.policy.maxAttempts || InCalendar(now + RetryDelay(job).value)
  }

  /** The error is noted before the due time is computed, so a due time outside the
      calendar leaves a running job with the note. */
  function Failed(job: Job, error: string, now: Instant): Job
    requires RetryDelay(job).Some?
  {
    var noted := job.(lastError := Some(error), updatedAt := now);
    if job.attempts >= job.policy.maxAttempts then noted.(status := Dead)
    else if !Schedulable(job, now) then noted
    else noted.(status := Queued, nextAttemptAt := now + RetryDelay(job).value)
  }

  function PausedJob(job: Job, now: Instant): Job {
    job.(status := Paused, updatedAt := now)
  }

  function Resumed(job: Job, now: Instant): Job {
    job.(status := Queued, nextAttemptAt := now, updatedAt := now)
  }

  function Requeued(job: Job, now: Instant): Job {
    job.(status := Queued, attempts := 0, nextAttemptAt := now, updatedAt := now)
  }

  /** A failing job dies once its budget is spent; before that it is due again after
      the base delay times the factor to the number of failures before, capped. The
      failure is refused exactly when that is out of range; the delay is computed
      even for the last attempt. */
  lemma CoreRetryIsDue(jobs: Jobs, id: JobId, error: string, now: Instant)
    requires Has(jobs, id, Running)
    ensures var job, after := jobs[id], Next(jobs, Op.Fail(id, error, now))[id];
            var n := Max(job.attempts, 1);
            var due := now + WaitAfter(job.policy, n);
            if UncappedSeconds(job.policy, n) > CHRONO_MAX_SECONDS then after == job
            else if job.attempts >= job.policy.maxAttempts then after.status == Dead && after.nextAttemptAt == job.nextAttemptAt
            else if InCalendar(due) then after.status == Queued && after.nextAttemptAt == due
            else after.status == Running && after.nextAttemptAt == job.nextAttemptAt
  {
    DelayIsCappedProduct(jobs[id].policy, Max(jobs[id].attempts, 1));
  }

  // ---------------------------------------------------------------------
  // Selection
  // ---------------------------------------------------------------------

  /** The live job with this key that a scan in id order meets first. */
  ghost predicate FirstLive(jobs: Jobs, key: string, id: JobId) {
    Live(jobs, id, key) && forall o :: Live(jobs, o, key) ==> id <= o
  }

  ghost predicate HasLive(jobs: Jobs, key: string) {
    exists id :: Live(jobs, id, key)
  }

  /** The job a claim at `now` takes. */
  ghost predicate IsNext(jobs: Jobs, now: Instant, id: JobId) {
    Due(jobs, now, id) && forall o :: Due(jobs, now, o) && o != id ==> Before(jobs[id], jobs[o])
  }

  ghost function NextClaim(jobs: Jobs, now: Instant): (r: Option<JobId>)
    ensures r.Some? ==> IsNext(jobs, now, r.value)
    ensures r.None? ==> forall id :: !IsNext(jobs, now, id)
  {
    if exists id :: IsNext(jobs, now, id) then
      var id :| IsNext(jobs, now, id);
      Some(id)
    else None
  }

  lemma NextIsUnique(jobs: Jobs, now: Instant, a: JobId, b: JobId)
    requires Valid(jobs) && IsNext(jobs, now, a) && IsNext(jobs, now, b)
    ensures a == b
  {}

  lemma NextClaimIs(jobs: Jobs, now: Instant, id: JobId)
    requires Valid(jobs) && IsNext(jobs, now, id)
    ensures NextClaim(jobs, now) == Some(id)
  {
    NextIsUnique(jobs, now, id, NextClaim(jobs, now).value);
  }

  lemma {:induction false} FirstAmong(jobs: Jobs, ids: set<JobId>) returns (first: JobId)
    requires Valid(jobs) && ids != {} && ids <= jobs.Keys
    ensures first in ids && forall o :: o in ids && o != first ==> Before(jobs[first], jobs[o])
    decreases |ids|
  {
    var id :| id in ids;
    first := id;
    if ids != {id} {
      var other := FirstAmong(jobs, ids - {id});
      first := if Before(jobs[id], jobs[other]) then id else other;
    }
  }

  /** A claim finds a job whenever one is due. */
  lemma SomeDueIsClaimed(jobs: Jobs, now: Instant, due: JobId)
    requires Valid(jobs) && Due(jobs, now, due)
    ensures NextClaim(jobs, now).Some? && IsNext(jobs, now, NextClaim(jobs, now).value)
  {
    var all := set id | id in jobs && Due(jobs, now, id);
    assert due in all;
    var first := FirstAmong(jobs, all);
    assert IsNext(jobs, now, first);
  }

  // ---------------------------------------------------------------------
  // The queue as a state machine
  // ---------------------------------------------------------------------

  datatype Op =
    | Enqueue(id: JobId, target: string, action: JobAction, version: nat, policy: RetryPolicy, now: Instant)
    | Claim(now: Instant)
    | Complete(id: JobId, now: Instant)
    | Fail(id: JobId, error: string, now: Instant)
    | Pause(id: JobId, now: Instant)
    | Resume(id: JobId, now: Instant)
    | Requeue(id: JobId, now: Instant)

  /** New ids are fresh; every other operation is open to every argument. */
  predicate Possible(jobs: Jobs, op: Op) {
    op.Enqueue? ==> op.id !in jobs
  }

  ghost function Next(jobs: Jobs, op: Op): Jobs {
    match op
    case Enqueue(id, target, action, version, policy, now) =>
      if HasLive(jobs, Key(target, action, version)) then jobs
      else jobs[id := NewJob(id, target, action, version, policy, now)]
    case Claim(now) =>
      var next := NextClaim(jobs, now);
      if next.Some? then jobs[next.value := Claimed(jobs[next.value], now)] else jobs
    case Complete(id, now) =>
      if Has(jobs, id, Running) then jobs[id := Completed(jobs[id], now)] else jobs
    case Fail(id, error, now) =>
      if Has(jobs, id, Running) && RetryDelay(jobs[id]).Some? then jobs[id := Failed(jobs[id], error, now)]
      else jobs
    case Pause(id, now) =>
      if Has(jobs, id, Queued) then jobs[id := PausedJob(jobs[id], now)] else jobs
    case Resume(id, now) =>
      if Has(jobs, id, Paused) then jobs[id := Resumed(jobs[id], now)] else jobs
    case Requeue(id, now) =>
      if Has(jobs, id, Dead) then jobs[id := Requeued(jobs[id], now)] else jobs
  }

  lemma ValidKept(jobs: Jobs, op: Op)
    requires Valid(jobs)
    ensures Valid(Next(jobs, op)) && jobs.Keys <= Next(jobs, op).Keys
  {}

  // ---------------------------------------------------------------------
  // At most one job in flight per key
  // ---------------------------------------------------------------------

  ghost predicate OneLivePerKey(jobs: Jobs) {
    forall a, b | a in jobs && b in jobs && jobs[a].key == jobs[b].key ::
      InFlight(jobs[a].status) && InFlight(jobs[b].status) ==> a == b
  }

  /** A dead job is put back while another job with its key is in flight. */
  ghost predicate RequeuesBesideTwin(jobs: Jobs, op: Op) {
    op.Requeue? && Has(jobs, op.id, Dead) && HasLive(jobs, jobs[op.id].key)
  }

  /** Every operation keeps one live job per key, except exactly that requeue. */
  lemma OneLivePerKeyKept(jobs: Jobs, op: Op)
    requires Valid(jobs) && OneLivePerKey(jobs) && Possible(jobs, op)
    ensures OneLivePerKey(Next(jobs, op)) <==> !RequeuesBesideTwin(jobs, op)
  {
    var after := Next(jobs, op);
    if RequeuesBesideTwin(jobs, op) {
      var twin: JobId :| Live(jobs, twin, jobs[op.id].key);
      assert after[twin].key == after[op.id].key && twin != op.id;
    } else if op.Enqueue? {
      if !HasLive(jobs, Key(op.target, op.action, op.version)) {
        forall a | a in jobs && jobs[a].key == after[op.id].key ensures !InFlight(jobs[a].status) {
          assert !Live(jobs, a, jobs[a].key);
        }
      }
    } else if op.Requeue? && Has(jobs, op.id, Dead) {
      forall a | a in jobs && jobs[a].key == jobs[op.id].key ensures !InFlight(jobs[a].status) {
        assert !Live(jobs, a, jobs[op.id].key);
      }
    }
  }

  // ---------------------------------------------------------------------
  // Runs
  // ---------------------------------------------------------------------

  ghost function Run(jobs: Jobs, ops: seq<Op>): Jobs
    decreases |ops|
  {
    if ops == [] then jobs else Run(Next(jobs, ops[0]), ops[1..])
  }

  ghost predicate PossibleRun(jobs: Jobs, ops: seq<Op>)
    decreases |ops|
  {
    ops == [] || (Possible(jobs, ops[0]) && PossibleRun(Next(jobs, ops[0]), ops[1..]))
  }

  lemma DeadAfterOneTry(job: Job, now: Instant)
    requires job.id == 0 && job.status == Queued && job.attempts == 0 && job.nextAttemptAt == now
    requires job.policy == RetryPolicy(1, 0, 1, None)
    ensures var claimed := Claimed(job, now);
            && Next(map[0 := job], Op.Claim(now)) == map[0 := claimed]
            && RetryDelay(claimed).Some? && Failed(claimed, "", now).status == Dead
            && Next(map[0 := claimed], Op.Fail(0, "", now)) == map[0 := Failed(claimed, "", now)]
  {
    assert IsNext(map[0 := job], now, 0);
    NextClaimIs(map[0 := job], now, 0);
    DelayIsCappedProduct(job.policy, 1);
  }

  lemma TwinsAfterRequeue(dead: Job, second: Job, now: Instant)
    requires dead.status == Dead && second.status == Queued && dead.key == second.key
    ensures !OneLivePerKey(Next(map[0 := dead, 1 := second], Op.Requeue(0, now)))
  {
    var after := Next(map[0 := dead, 1 := second], Op.Requeue(0, now));
    assert after[0] == Requeued(dead, now) && after[1] == second;
  }

  lemma EnqueueOnDead(jobs: Jobs, op: Op)
    requires op.Enqueue? && forall id :: id in jobs ==> jobs[id].status == Dead
    ensures Next(jobs, op) == jobs[op.id := NewJob(op.id, op.target, op.action, op.version, op.policy, op.now)]
  {
    assert forall id :: !Live(jobs, id, Key(op.target, op.action, op.version));
  }

  /** That requeue can be reached: a key is enqueued, fails for good, is enqueued
      again, and the dead job is put back beside the new one. */
  lemma TwinsAreReachable(enqueue: Op, again: Op, now: Instant)
    requires enqueue.Enqueue? && enqueue.id == 0 && enqueue.policy == RetryPolicy(1, 0, 1, None) && enqueue.now == now
    requires again == Op.Enqueue(1, enqueue.target, enqueue.action, enqueue.version, enqueue.policy, now)
    ensures var ops := [enqueue, Op.Claim(now), Op.Fail(0, "", now), again, Op.Requeue(0, now)];
            PossibleRun(map[], ops) && !OneLivePerKey(Run(map[], ops))
  {
    var first := NewJob(0, enqueue.target, enqueue.action, enqueue.version, enqueue.policy, now);
    var second := NewJob(1, enqueue.target, enqueue.action, enqueue.version, enqueue.policy, now);
    EnqueueOnDead(map[], enqueue);
    DeadAfterOneTry(first, now);
    var dead := Failed(Claimed(first, now), "", now);
    EnqueueOnDead(map[0 := dead], again);
    TwinsAfterRequeue(dead, second, now);
    RunOfFive(map[], map[0 := first], map[0 := Claimed(first, now)], map[0 := dead], map[0 := dead, 1 := second],
              enqueue, Op.Claim(now), Op.Fail(0, "", now), again, Op.Requeue(0, now));
  }

  lemma RunOfFive(j0: Jobs, j1: Jobs, j2: Jobs, j3: Jobs, j4: Jobs, a: Op, b: Op, c: Op, d: Op, e: Op)
    requires Next(j0, a) == j1 && Next(j1, b) == j2 && Next(j2, c) == j3 && Next(j3, d) == j4
    requires Possible(j0, a) && Possible(j1, b) && Possible(j2, c) && Possible(j3, d) && Possible(j4, e)
    ensures Run(j0, [a, b, c, d, e]) == Next(j4, e) && PossibleRun(j0, [a, b, c, d, e])
  {
    assert [a, b, c, d, e][1..] == [b, c, d, e] && [b, c, d, e][1..] == [c, d, e] && [c, d, e][1..] == [d, e];
    assert [d, e][1..] == [e] && [e][1..] == [];
    assert Run(j4, [e]) == Next(j4, e) && PossibleRun(j4, [e]);
    assert Run(j3, [d, e]) == Run(j4, [e]) && PossibleRun(j3, [d, e]);
    assert Run(j2, [c, d, e]) == Run(j3, [d, e]) && PossibleRun(j2, [c, d, e]);
    assert Run(j1, [b, c, d, e]) == Run(j2, [c, d, e]) && PossibleRun(j1, [b, c, d, e]);
  }

  // ---------------------------------------------------------------------
  // The queue object
  // ---------------------------------------------------------------------

  datatype EnqueueOutcome = Enqueued(id: JobId) | Duplicate(id: JobId)

  /** `DelayOverflow` stands for the panics of an out-of-range delay or due time. */
  datatype QueueError = NotFound | WrongStatus(status: JobStatus) | DelayOverflow

  ghost predicate RefusalIs(jobs: Jobs, id: JobId, e: QueueError) {
    if id in jobs then e == WrongStatus(jobs[id].status) else e == NotFound
  }

  function Refusal(jobs: Jobs, id: JobId): QueueError {
    if id in jobs then WrongStatus(jobs[id].status) else NotFound
  }

  class JobQueue {
    var jobs: Jobs

    constructor ()
      ensures jobs == map[] && Valid(jobs)
    {
      jobs := map[];
    }

    /** Finds the first live job with `key`, in id order. */
    method FindLive(key: string) returns (found: Option<JobId>)
      ensures found.Some? ==> FirstLive(jobs, key, found.value)
      ensures found.None? ==> !HasLive(jobs, key)
    {
      found := None;
      var rest := jobs.Keys;
      while rest != {}
        invariant rest <= jobs.Keys
        invariant found.Some? ==> Live(jobs, found.value, key)
        invariant forall o :: Live(jobs, o, key) && o !in rest ==> found.Some? && found.value <= o
        decreases |rest|
      {
        var id :| id in rest;
        rest := rest - {id};
        if Live(jobs, id, key) && (found.None? || id < found.value) {
          found := Some(id);
        }
      }
    }

    /** `enqueue`; `id` is the fresh identifier. */
    method Enqueue(id: JobId, target: string, action: JobAction, version: nat, policy: RetryPolicy, at: Instant)
      returns (r: EnqueueOutcome)
      requires Valid(jobs) && id !in jobs
      modifies this
      ensures Valid(jobs) && jobs == Next(old(jobs), Op.Enqueue(id, target, action, version, policy, at))
      ensures r.Enqueued? <==> !HasLive(old(jobs), Key(target, action, version))
      ensures if r.Enqueued? then r.id == id else FirstLive(old(jobs), Key(target, action, version), r.id)
      ensures jobs == if r.Duplicate? then old(jobs) else
                old(jobs)[id := Job(id, target, action, Key(target, action, version), Queued, 0, policy, at, None, at, at)]
    {
      var key := Key(target, action, version);
      var existing := FindLive(key);
      if existing.Some? {
        return Duplicate(existing.value);
      }
      jobs := jobs[id := NewJob(id, target, action, version, policy, at)];
      return Enqueued(id);
    }

    /** The minimum of the due jobs. */
    method FindNext(now: Instant) returns (r: Option<JobId>)
      requires Valid(jobs)
      ensures r == NextClaim(jobs, now)
      ensures if r.Some? then Due(jobs, now, r.value) else forall id :: !Due(jobs, now, id)
    {
      r := None;
      var rest := jobs.Keys;
      while rest != {}
        invariant rest <= jobs.Keys
        invariant r.Some? ==> Due(jobs, now, r.value)
        invariant forall o :: Due(jobs, now, o) && o !in rest ==>
                    r.Some? && (o == r.value || Before(jobs[r.value], jobs[o]))
        decreases |rest|
      {
        var id :| id in rest;
        rest := rest - {id};
        if Due(jobs, now, id) && (r.None? || Before(jobs[id], jobs[r.value])) {
          r := Some(id);
        }
      }
      if r.Some? {
        NextClaimIs(jobs, now, r.value);
      }
    }

    /** `claim_next`: takes the minimum of the due jobs. */
    method ClaimNext(now: Instant) returns (r: Option<JobId>)
      requires Valid(jobs)
      modifies this
      ensures Valid(jobs) && jobs == Next(old(jobs), Op.Claim(now))
      ensures r == NextClaim(old(jobs), now)
      ensures r.None? ==> jobs == old(jobs) && forall id :: !Due(old(jobs), now, id)
      ensures r.Some? ==>
                && Due(old(jobs), now, r.value)
                && jobs == var job := old(jobs)[r.value];
                           old(jobs)[r.value := job.(status := Running, attempts := job.attempts + 1, updatedAt := now)]
    {
      r := FindNext(now);
      if r.Some? {
        jobs := jobs[r.value := Claimed(jobs[r.value], now)];
      }
    }

    method Complete(id: JobId, now: Instant) returns (r: Result<(), QueueError>)
      requires Valid(jobs)
      modifies this
      ensures Valid(jobs) && jobs == Next(old(jobs), Op.Complete(id, now))
      ensures r.Ok? <==> id in old(jobs) && old(jobs)[id].status == Running
      ensures r.Ok? ==> jobs == old(jobs)[id := old(jobs)[id].(status := Succeeded, lastError := None, updatedAt := now)]
      ensures r.Err? ==> jobs == old(jobs) && RefusalIs(old(jobs), id, r.error)
    {
      if !Has(jobs, id, Running) {
        return Err(Refusal(jobs, id));
      }
      jobs := jobs[id := Completed(jobs[id], now)];
      return Ok(());
    }

    method Fail(id: JobId, error: string, now: Instant) returns (r: Result<JobStatus, QueueError>)
      requires Valid(jobs)
      modifies this
      ensures Valid(jobs) && jobs == Next(old(jobs), Op.Fail(id, error, now))
      ensures r.Ok? <==> Has(old(jobs), id, Running) && RetryDelay(old(jobs)[id]).Some? && Schedulable(old(jobs)[id], now)
      ensures r.Ok? ==> r.value == jobs[id].status
      ensures r.Ok? ==> (r.value == Dead <==> old(jobs)[id].attempts >= old(jobs)[id].policy.maxAttempts)
      ensures r.Ok? ==>
                var job := old(jobs)[id];
                var due := now + WaitAfter(job.policy, Max(job.attempts, 1));
                jobs == old(jobs)[id := job.(lastError := Some(error), updatedAt := now, status := r.value,
                                             nextAttemptAt := if r.value == Dead then job.nextAttemptAt else due)]
    {
      if !Has(jobs, id, Running) {
        return Err(Refusal(jobs, id));
      }
      DelayIsCappedProduct(jobs[id].policy, Max(jobs[id].attempts, 1));
      var delay := RetryDelay(jobs[id]);
      if delay.None? {
        return Err(DelayOverflow);
      }
      var job := jobs[id].(lastError := Some(error), updatedAt := now);
      if job.attempts >= job.policy.maxAttempts {
        job := job.(status := Dead);
      } else if !InCalendar(now + delay.value) {
        jobs := jobs[id := job];
        return Err(DelayOverflow);
      } else {
        job := job.(nextAttemptAt := now + delay.value, status := Queued);
      }
      jobs := jobs[id := job];
      return Ok(job.status);
    }

    method Pause(id: JobId, now: Instant) returns (r: Result<(), QueueError>)
      requires Valid(jobs)
      modifies this
      ensures Valid(jobs) && jobs == Next(old(jobs), Op.Pause(id, now))
      ensures r.Ok? <==> id in old(jobs) && old(jobs)[id].status == Queued
      ensures r.Ok? ==> jobs == old(jobs)[id := old(jobs)[id].(status := Paused, updatedAt := now)]
      ensures r.Err? ==> jobs == old(jobs) && RefusalIs(old(jobs), id, r.error)
    {
      if !Has(jobs, id, Queued) {
        return Err(Refusal(jobs, id));
      }
      jobs := jobs[id := PausedJob(jobs[id], now)];
      return Ok(());
    }

    method Resume(id: JobId, now: Instant) returns (r: Result<(), QueueError>)
      requires Valid(jobs)
      modifies this
      ensures Valid(jobs) && jobs == Next(old(jobs), Op.Resume(id, now))
      ensures r.Ok? <==> id in old(jobs) && old(jobs)[id].status == Paused
      ensures r.Ok? ==> jobs == old(jobs)[id := old(jobs)[id].(status := Queued, nextAttemptAt := now, updatedAt := now)]
      ensures r.Err? ==> jobs == old(jobs) && RefusalIs(old(jobs), id, r.error)
    {
      if !Has(jobs, id, Paused) {
        return Err(Refusal(jobs, id));
      }
      jobs := jobs[id := Resumed(jobs[id], now)];
      return Ok(());
    }

    method Requeue(id: JobId, now: Instant) returns (r: Result<(), QueueError>)
      requires Valid(jobs)
      modifies this
      ensures Valid(jobs) && jobs == Next(old(jobs), Op.Requeue(id, now))
      ensures r.Ok? <==> id in old(jobs) && old(jobs)[id].status == Dead
      ensures r.Ok? ==> jobs == old(jobs)[id := old(jobs)[id].(status := Queued, attempts := 0, nextAttemptAt := now, updatedAt := now)]
      ensures r.Err? ==> jobs == old(jobs) && RefusalIs(old(jobs), id, r.error)
    {
      if !Has(jobs, id, Dead) {
        return Err(Refusal(jobs, id));
      }
      jobs := jobs[id := Requeued(jobs[id], now)];
      return Ok(());
    }
  }
}
