/** The durable job table that many workers step on. Every SQL transaction is one
    atomic step. */
module LeasedQueues {
  import opened Prelude
  import opened Backoff
  import opened IdempotencyKeys
  import opened JobQueues

  datatype Row = Row(job: Job, leaseOwner: Option<string>, leaseExpiresAt: Option<Instant>)

  type Table = map<JobId, Row>

  const RECOVERED: string := "lease expired; job recovered for re-claim"

  // ---------------------------------------------------------------------
  // Row predicates: the WHERE clauses
  // ---------------------------------------------------------------------

  predicate InStatus(t: Table, id: JobId, status: JobStatus) {
    id in t && t[id].job.status == status
  }

  predicate Holds(t: Table, id: JobId, worker: string) {
    InStatus(t, id, Running) && t[id].leaseOwner == Some(worker)
  }

  predicate Expired(r: Row, now: Instant) {
    r.job.status == Running && r.leaseExpiresAt.Some? && r.leaseExpiresAt.value <= now
  }

  function ExpiredIds(t: Table, now: Instant): set<JobId> {
    set id | id in t && Expired(t[id], now)
  }

  predicate RowDue(t: Table, now: Instant, id: JobId) {
    InStatus(t, id, Queued) && t[id].job.nextAttemptAt <= now
  }

  /** `ORDER BY next_attempt_at, enqueued_at`; equal rows come in any order. */
  predicate NotAfter(a: Job, b: Job) {
    a.nextAttemptAt < b.nextAttemptAt
    || (a.nextAttemptAt == b.nextAttemptAt && a.enqueuedAt <= b.enqueuedAt)
  }

  /** A claim may return `id` while other transactions hold the rows in `locked`. */
  predicate CanClaim(t: Table, now: Instant, locked: set<JobId>, id: JobId) {
    && RowDue(t, now, id) && id !in locked
    && forall o | o in t :: RowDue(t, now, o) && o !in locked ==> NotAfter(t[id].job, t[o].job)
  }

  predicate NothingToClaim(t: Table, now: Instant, locked: set<JobId>) {
    forall o | o in t :: RowDue(t, now, o) ==> o in locked
  }

  predicate KeyTaken(t: Table, key: string) {
    exists id :: id in t && t[id].job.key == key
  }

  // ---------------------------------------------------------------------
  // Row updates: the SET clauses
  // ---------------------------------------------------------------------

  function RowClaimed(r: Row, worker: string, now: Instant, lease: Duration): Row {
    Row(r.job.(status := Running, attempts := r.job.attempts + 1, updatedAt := now),
        Some(worker), Some(now + lease))
  }

  function RowCompleted(r: Row, now: Instant): Row {
    Row(r.job.(status := Succeeded, lastError := None, updatedAt := now), None, None)
  }

  function Spent(r: Row): bool {
    Max(r.job.attempts, 1) >= r.job.policy.maxAttempts
  }

  /** The due time is computed only when the job is retried. */
  predicate CanFail(r: Row, now: Instant) {
    Spent(r) || (RetryDelay(r.job).Some? && InCalendar(now + RetryDelay(r.job).value))
  }

  /** The same placeholder sets both the due time and the update time. */
  function RowFailed(r: Row, error: string, now: Instant): Row
    requires CanFail(r, now)
  {
    var status := if Spent(r) then Dead else Queued;
    var next := if Spent(r) then now else now + RetryDelay(r.job).value;
    Row(r.job.(status := status, lastError := Some(error), nextAttemptAt := next, updatedAt := next), None, None)
  }

  function RowPaused(r: Row, now: Instant): Row {
    r.(job := r.job.(status := Paused, updatedAt := now))
  }

  function RowResumed(r: Row, now: Instant): Row {
    r.(job := r.job.(status := Queued, nextAttemptAt := now, updatedAt := now))
  }

  function RowRequeued(r: Row, now: Instant): Row {
    Row(r.job.(status := Queued, attempts := 0, nextAttemptAt := now, lastError := None, updatedAt := now),
        None, None)
  }

  /** Recovery keeps the due time and the attempt count. */
  function RowRecovered(r: Row, now: Instant): Row {
    Row(r.job.(status := Queued, lastError := Some(RECOVERED), updatedAt := now), None, None)
  }

  // ---------------------------------------------------------------------
  // The table as a state machine
  // ---------------------------------------------------------------------

  datatype Step =
    | Enqueue(id: JobId, target: string, action: JobAction, version: nat, policy: RetryPolicy, now: Instant)
    | Claim(worker: string, now: Instant, lease: Duration, locked: set<JobId>, pick: Option<JobId>)
    | Complete(id: JobId, worker: string, now: Instant)
    | Fail(id: JobId, worker: string, error: string, now: Instant)
    | Pause(id: JobId, now: Instant)
    | Resume(id: JobId, now: Instant)
    | Requeue(id: JobId, now: Instant)
    | Recover(now: Instant)

  /** Ids are fresh, and a claim has an expressible expiry and returns what its query
      may return. */
  predicate Enabled(t: Table, s: Step) {
    && (s.Enqueue? ==> s.id !in t)
    && (s.Claim? ==> InCalendar(s.now + s.lease))
    && (s.Claim? && s.pick.Some? ==> CanClaim(t, s.now, s.locked, s.pick.value))
    && (s.Claim? && s.pick.None? ==> NothingToClaim(t, s.now, s.locked))
  }

  function Apply(t: Table, s: Step): Table {
    match s
    case Enqueue(id, target, action, version, policy, now) =>
      if KeyTaken(t, Key(target, action, version)) then t
      else t[id := Row(NewJob(id, target, action, version, policy, now), None, None)]
    case Claim(worker, now, lease, _, pick) =>
      if pick.Some? && pick.value in t then t[pick.value := RowClaimed(t[pick.value], worker, now, lease)] else t
    case Complete(id, worker, now) =>
      if Holds(t, id, worker) then t[id := RowCompleted(t[id], now)] else t
    case Fail(id, worker, error, now) =>
      if Holds(t, id, worker) && CanFail(t[id], now) then t[id := RowFailed(t[id], error, now)] else t
    case Pause(id, now) =>
      if InStatus(t, id, Queued) then t[id := RowPaused(t[id], now)] else t
    case Resume(id, now) =>
      if InStatus(t, id, Paused) then t[id := RowResumed(t[id], now)] else t
    case Requeue(id, now) =>
      if InStatus(t, id, Dead) then t[id := RowRequeued(t[id], now)] else t
    case Recover(now) =>
      map id | id in t :: if Expired(t[id], now) then RowRecovered(t[id], now) else t[id]
  }

  // ---------------------------------------------------------------------
  // What every step keeps
  // ---------------------------------------------------------------------

  /** Lease owner and expiry are set exactly while the job runs. */
  predicate GoodRow(id: JobId, r: Row) {
    && r.job.id == id
    && (r.leaseOwner.Some? <==> r.job.status == Running)
    && (r.leaseExpiresAt.Some? <==> r.job.status == Running)
    && (r.job.status == Running ==> r.job.attempts >= 1)
  }

  ghost predicate UniqueKeys(t: Table) {
    forall a, b | a in t && b in t :: t[a].job.key == t[b].job.key ==> a == b
  }

  ghost predicate Inv(t: Table) {
    && (forall id :: id in t ==> GoodRow(id, t[id]))
    && UniqueKeys(t)
  }

  lemma GoodRowsKept(t: Table, s: Step)
    requires Enabled(t, s) && forall id :: id in t ==> GoodRow(id, t[id])
    ensures forall id :: id in Apply(t, s) ==> GoodRow(id, Apply(t, s)[id])
  {}

  lemma InvKept(t: Table, s: Step)
    requires Inv(t) && Enabled(t, s)
    ensures Inv(Apply(t, s))
  {
    GoodRowsKept(t, s);
    forall id | id in t ensures id in Apply(t, s) && Apply(t, s)[id].job.key == t[id].job.key {
      RowsPersist(t, s, id);
    }
    if s.Enqueue? && !KeyTaken(t, Key(s.target, s.action, s.version)) {
      assert forall a :: a in t ==> t[a].job.key != Key(s.target, s.action, s.version);
    } else {
      assert Apply(t, s).Keys == t.Keys;
    }
  }

  /** Rows never disappear or change identity, and a succeeded row never changes. */
  lemma RowsPersist(t: Table, s: Step, id: JobId)
    requires Enabled(t, s) && id in t
    ensures id in Apply(t, s)
    ensures Apply(t, s)[id].job.key == t[id].job.key && Apply(t, s)[id].job.policy == t[id].job.policy
    ensures t[id].job.status == Succeeded ==> Apply(t, s)[id] == t[id]
  {}

  // ---------------------------------------------------------------------
  // The queue object
  // ---------------------------------------------------------------------

  datatype TableError = JobState | DelayOutOfRange

  datatype ClaimedJob = ClaimedJob(job: Job, leaseOwner: string, leaseExpiresAt: Instant)

  class PgJobQueue {
    var rows: Table

    constructor ()
      ensures rows == map[]
    {
      rows := map[];
    }

    /** `INSERT .. ON CONFLICT DO NOTHING`, then the id that holds the key. */
    method Enqueue(id: JobId, target: string, action: JobAction, version: nat, policy: RetryPolicy, at: Instant)
      returns (r: EnqueueOutcome)
      requires Inv(rows) && id !in rows
      modifies this
      ensures Inv(rows) && rows == Apply(old(rows), Step.Enqueue(id, target, action, version, policy, at))
      ensures r.Duplicate? <==> KeyTaken(old(rows), Key(target, action, version))
      ensures r.id in rows && rows[r.id].job.key == Key(target, action, version)
      ensures rows == if r.Duplicate? then old(rows) else
                old(rows)[id := Row(Job(id, target, action, Key(target, action, version), Queued, 0, policy, at, None, at, at),
                                    None, None)]
    {
      var key := Key(target, action, version);
      InvKept(rows, Step.Enqueue(id, target, action, version, policy, at));
      if existing :| existing in rows && rows[existing].job.key == key {
        return Duplicate(existing);
      }
      rows := rows[id := Row(NewJob(id, target, action, version, policy, at), None, None)];
      return Enqueued(id);
    }

    /** The candidate of the claim: a first due row that is not locked. */
    method FirstUnlocked(now: Instant, locked: set<JobId>) returns (best: Option<JobId>)
      ensures if best.Some? then CanClaim(rows, now, locked, best.value) else NothingToClaim(rows, now, locked)
    {
      best := None;
      var rest := rows.Keys;
      while rest != {}
        invariant rest <= rows.Keys
        invariant best.Some? ==> RowDue(rows, now, best.value) && best.value !in locked
        invariant forall o | o in rows && o !in rest ::
                    RowDue(rows, now, o) && o !in locked ==>
                      best.Some? && NotAfter(rows[best.value].job, rows[o].job)
        decreases |rest|
      {
        var id :| id in rest;
        rest := rest - {id};
        if RowDue(rows, now, id) && id !in locked
           && (best.None? || NotAfter(rows[id].job, rows[best.value].job)) {
          best := Some(id);
        }
      }
    }

    /** `locked` is what concurrent transactions hold, unseen by `SKIP LOCKED`. */
    method ClaimNext(worker: string, now: Instant, lease: Duration, locked: set<JobId>)
      returns (r: Result<Option<ClaimedJob>, TableError>)
      requires Inv(rows)
      modifies this
      ensures Inv(rows)
      ensures r.Ok? <==> InCalendar(now + lease)
      ensures r.Err? ==> rows == old(rows)
      ensures r == Ok(None) ==> NothingToClaim(old(rows), now, locked) && rows == old(rows)
      ensures r.Ok? && r.value.Some? ==>
                var id := r.value.value.job.id;
                && CanClaim(old(rows), now, locked, id)
                && (forall o :: o in old(rows) && o !in locked && old(rows)[o].job.status == Queued
                                && old(rows)[o].job.nextAttemptAt <= now ==>
                      var a, b := old(rows)[id].job, old(rows)[o].job;
                      a.nextAttemptAt < b.nextAttemptAt || (a.nextAttemptAt == b.nextAttemptAt && a.enqueuedAt <= b.enqueuedAt))
                && rows == Apply(old(rows), Step.Claim(worker, now, lease, locked, Some(id)))
                && r.value.value == ClaimedJob(rows[id].job, worker, now + lease)
                && rows == var job := old(rows)[id].job;
                           old(rows)[id := Row(job.(status := Running, attempts := job.attempts + 1, updatedAt := now),
                                               Some(worker), Some(now + lease))]
    {
      if !InCalendar(now + lease) {
        return Err(DelayOutOfRange);
      }
      var best := FirstUnlocked(now, locked);
      if best.None? {
        return Ok(None);
      }
      var id := best.value;
      InvKept(rows, Step.Claim(worker, now, lease, locked, Some(id)));
      rows := rows[id := RowClaimed(rows[id], worker, now, lease)];
      return Ok(Some(ClaimedJob(rows[id].job, worker, now + lease)));
    }

    method Complete(id: JobId, worker: string, now: Instant) returns (r: Result<(), TableError>)
      requires Inv(rows)
      modifies this
      ensures Inv(rows) && rows == Apply(old(rows), Step.Complete(id, worker, now))
      ensures r == if Holds(old(rows), id, worker) then Ok(()) else Err(JobState)
      ensures r.Ok? <==> id in old(rows) && old(rows)[id].job.status == Running && old(rows)[id].leaseOwner == Some(worker)
      ensures r.Ok? ==> rows == old(rows)[id := Row(old(rows)[id].job.(status := Succeeded, lastError := None, updatedAt := now), None, None)]
    {
      InvKept(rows, Step.Complete(id, worker, now));
      if !Holds(rows, id, worker) {
        return Err(JobState);
      }
      rows := rows[id := RowCompleted(rows[id], now)];
      return Ok(());
    }

    method Fail(id: JobId, worker: string, error: string, now: Instant) returns (r: Result<JobStatus, TableError>)
      requires Inv(rows)
      modifies this
      ensures Inv(rows) && rows == Apply(old(rows), Step.Fail(id, worker, error, now))
      ensures r.Ok? <==> Holds(old(rows), id, worker) && CanFail(old(rows)[id], now)
      ensures r.Ok? ==> r.value == rows[id].job.status && (r.value == Dead <==> Spent(old(rows)[id]))
      ensures r.Ok? ==>
                var job := old(rows)[id].job;
                var wait := WaitAfter(job.policy, job.attempts);
                var next := if job.attempts >= job.policy.maxAttempts then now else now + wait;
                rows == old(rows)[id := Row(job.(status := if job.attempts >= job.policy.maxAttempts then Dead else Queued,
                                                 lastError := Some(error), nextAttemptAt := next, updatedAt := next), None, None)]
    {
      InvKept(rows, Step.Fail(id, worker, error, now));
      if !Holds(rows, id, worker) {
        return Err(JobState);
      }
      assert GoodRow(id, rows[id]);
      DelayIsCappedProduct(rows[id].job.policy, rows[id].job.attempts);
      if !CanFail(rows[id], now) {
        return Err(DelayOutOfRange);
      }
      rows := rows[id := RowFailed(rows[id], error, now)];
      return Ok(rows[id].job.status);
    }

    method Pause(id: JobId, now: Instant) returns (r: Result<(), TableError>)
      requires Inv(rows)
      modifies this
      ensures Inv(rows) && rows == Apply(old(rows), Step.Pause(id, now))
      ensures r == if InStatus(old(rows), id, Queued) then Ok(()) else Err(JobState)
      ensures r.Ok? <==> id in old(rows) && old(rows)[id].job.status == Queued
      ensures r.Ok? ==> rows == old(rows)[id := old(rows)[id].(job := old(rows)[id].job.(status := Paused, updatedAt := now))]
    {
      InvKept(rows, Step.Pause(id, now));
      if !InStatus(rows, id, Queued) {
        return Err(JobState);
      }
      rows := rows[id := RowPaused(rows[id], now)];
      return Ok(());
    }

    method Resume(id: JobId, now: Instant) returns (r: Result<(), TableError>)
      requires Inv(rows)
      modifies this
      ensures Inv(rows) && rows == Apply(old(rows), Step.Resume(id, now))
      ensures r == if InStatus(old(rows), id, Paused) then Ok(()) else Err(JobState)
      ensures r.Ok? <==> id in old(rows) && old(rows)[id].job.status == Paused
      ensures r.Ok? ==> rows == old(rows)[id := old(rows)[id].(job := old(rows)[id].job.(status := Queued, nextAttemptAt := now, updatedAt := now))]
    {
      InvKept(rows, Step.Resume(id, now));
      if !InStatus(rows, id, Paused) {
        return Err(JobState);
      }
      rows := rows[id := RowResumed(rows[id], now)];
      return Ok(());
    }

    method Requeue(id: JobId, now: Instant) returns (r: Result<(), TableError>)
      requires Inv(rows)
      modifies this
      ensures Inv(rows) && rows == Apply(old(rows), Step.Requeue(id, now))
      ensures r == if InStatus(old(rows), id, Dead) then Ok(()) else Err(JobState)
      ensures r.Ok? <==> id in old(rows) && old(rows)[id].job.status == Dead
      ensures r.Ok? ==> rows == old(rows)[id := Row(old(rows)[id].job.(status := Queued, attempts := 0, nextAttemptAt := now, lastError := None, updatedAt := now), None, None)]
    {
      InvKept(rows, Step.Requeue(id, now));
      if !InStatus(rows, id, Dead) {
        return Err(JobState);
      }
      rows := rows[id := RowRequeued(rows[id], now)];
      return Ok(());
    }

    /** One `UPDATE` over every expired row; returns the recovered ids. */
    method RecoverExpiredLeases(now: Instant) returns (recovered: set<JobId>)
      requires Inv(rows)
      modifies this
      ensures Inv(rows) && rows == Apply(old(rows), Step.Recover(now))
      ensures recovered == ExpiredIds(old(rows), now)
      ensures rows.Keys == old(rows).Keys
      ensures forall id :: id in rows ==>
                var r := old(rows)[id];
                rows[id] == if r.job.status == Running && r.leaseExpiresAt.Some? && r.leaseExpiresAt.value <= now
                            then Row(r.job.(status := Queued, lastError := Some("lease expired; job recovered for re-claim"),
                                            updatedAt := now), None, None)
                            else r
    {
      InvKept(rows, Step.Recover(now));
      recovered := ExpiredIds(rows, now);
      rows := map id | id in rows :: if Expired(rows[id], now) then RowRecovered(rows[id], now) else rows[id];
    }
  }
}
