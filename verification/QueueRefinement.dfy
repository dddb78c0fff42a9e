/** The durable queue refines the in-memory one, and exactly where it does not. */
module QueueRefinement {
  import opened Prelude
  import opened Backoff
  import opened IdempotencyKeys
  import opened JobQueues
  import opened LeasedQueues
  import opened LeasedRuns

  // ---------------------------------------------------------------------
  // What both queues agree on
  // ---------------------------------------------------------------------

  /** A job without its error text and update time, and without the due time of a
      finished job. */
  function View(j: Job): Job {
    j.(lastError := None, updatedAt := 0, nextAttemptAt := if InFlight(j.status) then j.nextAttemptAt else 0)
  }

  ghost predicate SameView(t: Table, jobs: Jobs) {
    && t.Keys == jobs.Keys
    && forall id :: id in t ==> View(t[id].job) == View(jobs[id])
  }

  // ---------------------------------------------------------------------
  // The simple queue alongside the table
  // ---------------------------------------------------------------------

  /** The same-named operation of the simple queue. */
  function OpOf(s: Step): Op
    requires !s.Recover?
  {
    match s
    case Enqueue(id, target, action, version, policy, now) => Op.Enqueue(id, target, action, version, policy, now)
    case Claim(_, now, _, _, _) => Op.Claim(now)
    case Complete(id, _, now) => Op.Complete(id, now)
    case Fail(id, _, error, now) => Op.Fail(id, error, now)
    case Pause(id, now) => Op.Pause(id, now)
    case Resume(id, now) => Op.Resume(id, now)
    case Requeue(id, now) => Op.Requeue(id, now)
  }

  /** Abandoned jobs are put back in the queue as they are; the one thing the simple
      queue, which knows no leases, cannot do by itself. */
  function PutBack(jobs: Jobs, ids: set<JobId>): Jobs {
    map id | id in jobs :: if id in ids then jobs[id].(status := Queued) else jobs[id]
  }

  /** A worker without the lease is refused, which the simple queue cannot see. */
  predicate Stutters(t: Table, s: Step) {
    (s.Complete? || s.Fail?) && !Holds(t, s.id, s.worker)
  }

  /** What the simple queue does alongside one step. */
  ghost function Alongside(jobs: Jobs, t: Table, s: Step): Jobs {
    if s.Recover? then PutBack(jobs, ExpiredIds(t, s.now))
    else if Stutters(t, s) then jobs
    else Next(jobs, OpOf(s))
  }

  // ---------------------------------------------------------------------
  // The exact condition, step by step
  // ---------------------------------------------------------------------

  /** The key of an enqueue is held, and only by a finished job. */
  ghost predicate HeldByFinished(t: Table, s: Step) {
    s.Enqueue? && exists id :: id in t && t[id].job.key == Key(s.target, s.action, s.version)
                               && !InFlight(t[id].job.status)
  }

  ghost predicate FirstDue(t: Table, now: Instant, id: JobId) {
    RowDue(t, now, id) && forall o :: RowDue(t, now, o) && o != id ==> Before(t[id].job, t[o].job)
  }

  /** The claim takes the first of all due rows in the simple queue's order, locked
      ones and ties included, or nothing is due. */
  ghost predicate PicksFirst(t: Table, s: Step)
    requires s.Claim?
  {
    if s.pick.Some? then FirstDue(t, s.now, s.pick.value) else forall o :: !RowDue(t, s.now, o)
  }

  /** The job dies, which the simple queue cannot do here: it computes the retry
      delay even for the last attempt. */
  ghost predicate DiesOutOfRange(t: Table, s: Step) {
    s.Fail? && Holds(t, s.id, s.worker) && Spent(t[s.id]) && RetryDelay(t[s.id].job).None?
  }

  ghost predicate Comparable(t: Table, s: Step) {
    && !HeldByFinished(t, s)
    && (s.Claim? ==> PicksFirst(t, s))
    && !DiesOutOfRange(t, s)
  }

  lemma EnqueueRefines(t: Table, jobs: Jobs, s: Step)
    requires Inv(t) && SameView(t, jobs) && s.Enqueue? && Enabled(t, s)
    ensures SameView(Apply(t, s), Next(jobs, OpOf(s))) <==> !HeldByFinished(t, s)
    ensures !HeldByFinished(t, s) ==>
              (KeyTaken(t, Key(s.target, s.action, s.version)) <==> HasLive(jobs, Key(s.target, s.action, s.version)))
  {
    var key := Key(s.target, s.action, s.version);
    assert forall id :: id in t ==> View(t[id].job) == View(jobs[id]);
    if KeyTaken(t, key) {
      var id: JobId :| id in t && t[id].job.key == key;
      if InFlight(t[id].job.status) {
        assert Live(jobs, id, key);
      } else {
        forall o ensures !Live(jobs, o, key) {}
        assert s.id in Next(jobs, OpOf(s)) && s.id !in Apply(t, s);
      }
    } else {
      forall o ensures !Live(jobs, o, key) {}
    }
  }

  lemma SameOrder(t: Table, jobs: Jobs, now: Instant)
    requires SameView(t, jobs)
    ensures forall id :: RowDue(t, now, id) <==> Due(jobs, now, id)
    ensures forall id :: FirstDue(t, now, id) <==> IsNext(jobs, now, id)
  {
    assert forall id :: id in t ==> View(t[id].job) == View(jobs[id]);
    forall a, b | RowDue(t, now, a) && RowDue(t, now, b)
      ensures Before(t[a].job, t[b].job) <==> Before(jobs[a], jobs[b])
    {}
  }

  /** Both queues claim the same job if and only if the table's claim takes the first
      due row of the simple queue's order. */
  lemma ClaimRefines(t: Table, jobs: Jobs, s: Step)
    requires Inv(t) && Valid(jobs) && SameView(t, jobs) && s.Claim? && Enabled(t, s)
    ensures NextClaim(jobs, s.now) == s.pick <==> PicksFirst(t, s)
    ensures SameView(Apply(t, s), Next(jobs, OpOf(s))) <==> PicksFirst(t, s)
  {
    SameOrder(t, jobs, s.now);
    var next := NextClaim(jobs, s.now);
    if PicksFirst(t, s) {
      if s.pick.Some? {
        NextClaimIs(jobs, s.now, s.pick.value);
        ClaimSameJob(t, jobs, s);
      }
    } else {
      var due: JobId :| RowDue(t, s.now, due) && (s.pick.Some? ==> due == s.pick.value);
      SomeDueIsClaimed(jobs, s.now, due);
      ClaimOtherJob(t, jobs, s, next.value);
    }
  }

  lemma ClaimSameJob(t: Table, jobs: Jobs, s: Step)
    requires SameView(t, jobs) && s.Claim? && s.pick.Some? && s.pick.value in t && NextClaim(jobs, s.now) == s.pick
    ensures SameView(Apply(t, s), Next(jobs, OpOf(s)))
  {
    var id := s.pick.value;
    assert View(t[id].job) == View(jobs[id]);
    SameViewUpdate(t, jobs, id, RowClaimed(t[id], s.worker, s.now, s.lease), Claimed(jobs[id], s.now));
  }

  lemma ClaimOtherJob(t: Table, jobs: Jobs, s: Step, id: JobId)
    requires SameView(t, jobs) && s.Claim? && NextClaim(jobs, s.now) == Some(id) && s.pick != Some(id)
    ensures !SameView(Apply(t, s), Next(jobs, OpOf(s)))
  {
    assert Next(jobs, OpOf(s))[id].status == Running;
    assert id in t && View(t[id].job) == View(jobs[id]);
    assert Apply(t, s)[id] == t[id];
  }

  /** In particular when no row is locked and no other due job ties with the pick. */
  lemma UniqueEarliestPicksFirst(t: Table, s: Step)
    requires s.Claim? && Enabled(t, s) && s.locked == {}
    requires s.pick.Some? ==> forall o :: RowDue(t, s.now, o) && NotAfter(t[o].job, t[s.pick.value].job) ==> o == s.pick.value
    ensures PicksFirst(t, s)
  {
    if s.pick.Some? {
      var id := s.pick.value;
      forall o | RowDue(t, s.now, o) && o != id ensures Before(t[id].job, t[o].job) {
        assert NotAfter(t[id].job, t[o].job) && !NotAfter(t[o].job, t[id].job);
      }
    }
  }

  lemma SameViewUpdate(t: Table, jobs: Jobs, id: JobId, r: Row, j: Job)
    requires SameView(t, jobs) && id in t
    ensures SameView(t[id := r], jobs[id := j]) <==> View(r.job) == View(j)
  {
    var t', jobs' := t[id := r], jobs[id := j];
    assert id in t' && t'[id] == r && jobs'[id] == j;
    forall o | o in t' && o != id ensures View(t'[o].job) == View(jobs'[o]) {
      assert o in t;
    }
  }

  lemma CompleteRefines(t: Table, jobs: Jobs, s: Step)
    requires SameView(t, jobs) && s.Complete? && Holds(t, s.id, s.worker)
    ensures SameView(Apply(t, s), Next(jobs, OpOf(s)))
  {
    assert View(t[s.id].job) == View(jobs[s.id]);
    SameViewUpdate(t, jobs, s.id, RowCompleted(t[s.id], s.now), Next(jobs, OpOf(s))[s.id]);
  }

  lemma FailedViews(r: Row, j: Job, error: string, now: Instant)
    requires View(r.job) == View(j) && r.job.status == Running && r.job.attempts >= 1
    ensures var r' := if CanFail(r, now) then RowFailed(r, error, now) else r;
            var j' := if RetryDelay(j).Some? then Failed(j, error, now) else j;
            View(r'.job) == View(j') <==> !(Spent(r) && RetryDelay(r.job).None?)
  {}

  lemma FailSteps(t: Table, jobs: Jobs, s: Step)
    requires s.Fail? && Holds(t, s.id, s.worker) && Has(jobs, s.id, Running)
    ensures var r, j := t[s.id], jobs[s.id];
            && Apply(t, s) == t[s.id := if CanFail(r, s.now) then RowFailed(r, s.error, s.now) else r]
            && Next(jobs, OpOf(s)) == jobs[s.id := if RetryDelay(j).Some? then Failed(j, s.error, s.now) else j]
  {}

  lemma FailRefines(t: Table, jobs: Jobs, s: Step)
    requires Inv(t) && SameView(t, jobs) && s.Fail? && Holds(t, s.id, s.worker)
    ensures SameView(Apply(t, s), Next(jobs, OpOf(s))) <==> !DiesOutOfRange(t, s)
  {
    var r, j := t[s.id], jobs[s.id];
    assert GoodRow(s.id, r) && View(r.job) == View(j);
    FailSteps(t, jobs, s);
    FailedViews(r, j, s.error, s.now);
    SameViewUpdate(t, jobs, s.id, if CanFail(r, s.now) then RowFailed(r, s.error, s.now) else r,
                   if RetryDelay(j).Some? then Failed(j, s.error, s.now) else j);
  }

  lemma OperatorRefines(t: Table, jobs: Jobs, s: Step)
    requires SameView(t, jobs) && (s.Pause? || s.Resume? || s.Requeue?)
    ensures SameView(Apply(t, s), Next(jobs, OpOf(s)))
  {
    if s.id in t {
      assert View(t[s.id].job) == View(jobs[s.id]);
      SameViewUpdate(t, jobs, s.id, Apply(t, s)[s.id], Next(jobs, OpOf(s))[s.id]);
    }
  }

  lemma RecoverRefines(t: Table, jobs: Jobs, s: Step)
    requires SameView(t, jobs) && s.Recover?
    ensures SameView(Apply(t, s), PutBack(jobs, ExpiredIds(t, s.now)))
  {
    var after, back := Apply(t, s), PutBack(jobs, ExpiredIds(t, s.now));
    forall id | id in after ensures View(after[id].job) == View(back[id]) {
      assert View(t[id].job) == View(jobs[id]);
    }
  }

  /** Every step of the table is the same-named step of the simple queue, or a refusal
      that changes nothing, or a recovery that puts abandoned jobs back, if and only
      if it is comparable. */
  lemma StepRefines(t: Table, jobs: Jobs, s: Step)
    requires Inv(t) && Valid(jobs) && SameView(t, jobs) && Enabled(t, s)
    ensures SameView(Apply(t, s), Alongside(jobs, t, s)) <==> Comparable(t, s)
  {
    match s
    case Enqueue(_, _, _, _, _, _) => EnqueueRefines(t, jobs, s);
    case Claim(_, _, _, _, _) => ClaimRefines(t, jobs, s);
    case Complete(_, _, _) => if !Stutters(t, s) { CompleteRefines(t, jobs, s); }
    case Fail(_, _, _, _) => if !Stutters(t, s) { FailRefines(t, jobs, s); }
    case Recover(_) => RecoverRefines(t, jobs, s);
    case _ => OperatorRefines(t, jobs, s);
  }

  lemma AlongsideValid(jobs: Jobs, t: Table, s: Step)
    requires Valid(jobs)
    ensures Valid(Alongside(jobs, t, s))
  {
    if !s.Recover? {
      ValidKept(jobs, OpOf(s));
    }
  }

  // ---------------------------------------------------------------------
  // Whole runs
  // ---------------------------------------------------------------------

  /** The simple queue after the first `n` steps of the run. */
  ghost function Simple(run: Trace, n: nat): Jobs
    requires run.Shaped() && n <= |run.steps|
  {
    if n == 0 then map[] else Alongside(Simple(run, n - 1), run.tables[n - 1], run.steps[n - 1])
  }

  ghost predicate Agree(run: Trace, n: nat)
    requires run.Shaped() && n <= |run.steps|
  {
    SameView(run.tables[n], Simple(run, n))
  }

  ghost predicate ComparableAt(run: Trace, i: nat)
    requires run.Shaped() && i < |run.steps|
  {
    Comparable(run.tables[i], run.steps[i])
  }

  lemma {:induction false} SimpleValid(run: Trace, n: nat)
    requires run.Shaped() && n <= |run.steps|
    ensures Valid(Simple(run, n))
  {
    if n > 0 {
      SimpleValid(run, n - 1);
      AlongsideValid(Simple(run, n - 1), run.tables[n - 1], run.steps[n - 1]);
    }
  }

  lemma AgreementGoesOn(run: Trace, n: nat)
    requires Legal(run) && n < |run.steps| && Agree(run, n)
    ensures Agree(run, n + 1) <==> ComparableAt(run, n)
  {
    ReachableInv(run, n);
    SimpleValid(run, n);
    assert LegalAt(run, n);
    StepRefines(run.tables[n], Simple(run, n), run.steps[n]);
  }

  lemma {:induction false} ComparablePrefixAgrees(run: Trace, n: nat)
    requires Legal(run) && n <= |run.steps| && forall i: nat :: i < n ==> ComparableAt(run, i)
    ensures Agree(run, n)
  {
    if n > 0 {
      ComparablePrefixAgrees(run, n - 1);
      AgreementGoesOn(run, n - 1);
    }
  }

  /** In every run, with any workers, recoveries and operators, the two queues show
      the same jobs all along if and only if every step is comparable. */
  lemma RunRefines(run: Trace)
    requires Legal(run)
    ensures (forall n: nat :: n <= |run.steps| ==> Agree(run, n))
       <==> (forall i: nat :: i < |run.steps| ==> ComparableAt(run, i))
  {
    if forall i: nat :: i < |run.steps| ==> ComparableAt(run, i) {
      forall n: nat | n <= |run.steps| ensures Agree(run, n) {
        ComparablePrefixAgrees(run, n);
      }
    }
    if forall n: nat :: n <= |run.steps| ==> Agree(run, n) {
      forall i: nat | i < |run.steps| ensures ComparableAt(run, i) {
        assert Agree(run, i) && Agree(run, i + 1);
        AgreementGoesOn(run, i);
      }
    }
  }

  // ---------------------------------------------------------------------
  // Runs in which the queues part
  // ---------------------------------------------------------------------

  /** A comparable step from one table to the next. */
  ghost predicate Link(t: Table, s: Step, t': Table) {
    Enabled(t, s) && Comparable(t, s) && t' == Apply(t, s)
  }

  /** A step that is not. */
  ghost predicate Break(t: Table, s: Step) {
    Enabled(t, s) && !Comparable(t, s)
  }

  /** Comparable steps up to a last one that is not: there the queues part. */
  lemma PartAtLast(run: Trace)
    requires run.Shaped() && run.tables[0] == map[] && |run.steps| > 0
    requires forall i: nat :: i < |run.steps| - 1 ==> Link(run.tables[i], run.steps[i], run.tables[i + 1])
    requires var n := |run.steps| - 1; Break(run.tables[n], run.steps[n]) && run.tables[n + 1] == Apply(run.tables[n], run.steps[n])
    ensures Legal(run) && Agree(run, |run.steps| - 1) && !Agree(run, |run.steps|)
  {
    var n := |run.steps| - 1;
    forall i: nat | i < |run.steps| ensures LegalAt(run, i) {
      assert i < n ==> Link(run.tables[i], run.steps[i], run.tables[i + 1]);
    }
    forall i: nat | i < n ensures ComparableAt(run, i) {
      assert Link(run.tables[i], run.steps[i], run.tables[i + 1]);
    }
    ComparablePrefixAgrees(run, n);
    AgreementGoesOn(run, n);
  }

  lemma PartAtThird(t1: Table, t2: Table, a: Step, b: Step, c: Step) returns (run: Trace)
    requires Link(map[], a, t1) && Link(t1, b, t2) && Break(t2, c)
    ensures Legal(run) && run.steps == [a, b, c] && run.tables[2] == t2 && Agree(run, 2) && !Agree(run, 3)
  {
    run := Trace([map[], t1, t2, Apply(t2, c)], [a, b, c]);
    PartAtLast(run);
  }

  lemma PartAtFourth(t1: Table, t2: Table, t3: Table, a: Step, b: Step, c: Step, d: Step) returns (run: Trace)
    requires Link(map[], a, t1) && Link(t1, b, t2) && Link(t2, c, t3) && Break(t3, d)
    ensures Legal(run) && run.steps == [a, b, c, d] && run.tables[3] == t3 && Agree(run, 3) && !Agree(run, 4)
  {
    run := Trace([map[], t1, t2, t3, Apply(t3, d)], [a, b, c, d]);
    PartAtLast(run);
  }

  lemma PartAtFifth(t1: Table, t2: Table, t3: Table, t4: Table, a: Step, b: Step, c: Step, d: Step, e: Step)
    returns (run: Trace)
    requires Link(map[], a, t1) && Link(t1, b, t2) && Link(t2, c, t3) && Link(t3, d, t4) && Break(t4, e)
    ensures Legal(run) && run.steps == [a, b, c, d, e] && run.tables[4] == t4 && Agree(run, 4) && !Agree(run, 5)
  {
    run := Trace([map[], t1, t2, t3, t4, Apply(t4, e)], [a, b, c, d, e]);
    PartAtLast(run);
  }

  function EnqueuedRow(s: Step): Row
    requires s.Enqueue?
  {
    Row(NewJob(s.id, s.target, s.action, s.version, s.policy, s.now), None, None)
  }

  lemma FirstEnqueue(s: Step)
    requires s.Enqueue? && s.id == 0
    ensures Link(map[], s, map[0 := EnqueuedRow(s)])
  {}

  lemma OnlyRowClaimed(r: Row, s: Step)
    requires r.job.status == Queued && s.Claim? && s.locked == {} && s.pick == Some(0)
    requires r.job.nextAttemptAt <= s.now && InCalendar(s.now + s.lease)
    ensures Link(map[0 := r], s, map[0 := RowClaimed(r, s.worker, s.now, s.lease)])
  {}

  lemma OnlyRowCompleted(r: Row, s: Step)
    requires r.job.status == Running && s.Complete? && s.id == 0 && r.leaseOwner == Some(s.worker)
    ensures Link(map[0 := r], s, map[0 := RowCompleted(r, s.now)])
  {}

  lemma OnlyRowFailed(r: Row, s: Step)
    requires r.job.status == Running && s.Fail? && s.id == 0 && r.leaseOwner == Some(s.worker) && CanFail(r, s.now)
    ensures if Spent(r) && RetryDelay(r.job).None? then DiesOutOfRange(map[0 := r], s) && Break(map[0 := r], s)
            else Link(map[0 := r], s, map[0 := RowFailed(r, s.error, s.now)])
  {}

  lemma OnlyRowRefuses(r: Row, s: Step)
    requires r.job.status == Succeeded && s.Enqueue? && s.id == 1 && r.job.key == Key(s.target, s.action, s.version)
    ensures HeldByFinished(map[0 := r], s) && Break(map[0 := r], s)
  {
    var t: Table := map[0 := r];
    assert 0 in t && t[0] == r;
  }

  lemma SecondEnqueue(r: Row, s: Step)
    requires s.Enqueue? && s.id == 1 && r.job.key != Key(s.target, s.action, s.version)
    ensures Link(map[0 := r], s, map[0 := r, 1 := EnqueuedRow(s)])
  {}

  lemma TiedRowClaimed(r0: Row, r1: Row, s: Step)
    requires r0.job.status == r1.job.status == Queued && r0.job.id == 0 && r1.job.id == 1
    requires s.Claim? && s.locked == {} && s.pick == Some(1) && InCalendar(s.now + s.lease)
    requires r0.job.nextAttemptAt == r1.job.nextAttemptAt <= s.now && r0.job.enqueuedAt == r1.job.enqueuedAt
    ensures !PicksFirst(map[0 := r0, 1 := r1], s) && Break(map[0 := r0, 1 := r1], s)
  {
    var t: Table := map[0 := r0, 1 := r1];
    assert RowDue(t, s.now, 0) && !Before(t[1].job, t[0].job);
  }

  /** After a key is enqueued, claimed and completed, the table refuses it for good. */
  lemma FinishedKeyIsReachable(enqueue: Step, claim: Step, complete: Step, again: Step) returns (run: Trace)
    requires enqueue.Enqueue? && enqueue.id == 0
    requires claim.Claim? && claim.locked == {} && claim.pick == Some(0) && claim.now == enqueue.now
    requires InCalendar(claim.now + claim.lease)
    requires complete.Complete? && complete.id == 0 && complete.worker == claim.worker
    requires again == Step.Enqueue(1, enqueue.target, enqueue.action, enqueue.version, enqueue.policy, enqueue.now)
    ensures Legal(run) && run.steps == [enqueue, claim, complete, again]
    ensures HeldByFinished(run.tables[3], again) && Agree(run, 3) && !Agree(run, 4)
  {
    var r1 := EnqueuedRow(enqueue);
    var r2 := RowClaimed(r1, claim.worker, claim.now, claim.lease);
    var r3 := RowCompleted(r2, complete.now);
    FirstEnqueue(enqueue);
    OnlyRowClaimed(r1, claim);
    OnlyRowCompleted(r2, complete);
    OnlyRowRefuses(r3, again);
    run := PartAtFourth(map[0 := r1], map[0 := r2], map[0 := r3], enqueue, claim, complete, again);
  }

  /** Of two rows that tie, the table may claim the one the simple queue does not. */
  lemma TieIsReachable(first: Step, second: Step, claim: Step) returns (run: Trace)
    requires first.Enqueue? && first.id == 0 && second.Enqueue? && second.id == 1 && first.now == second.now
    requires Key(first.target, first.action, first.version) != Key(second.target, second.action, second.version)
    requires claim.Claim? && claim.locked == {} && claim.pick == Some(1) && claim.now == first.now
    requires InCalendar(claim.now + claim.lease)
    ensures Legal(run) && run.steps == [first, second, claim]
    ensures !PicksFirst(run.tables[2], claim) && Agree(run, 2) && !Agree(run, 3)
  {
    var r0, r1 := EnqueuedRow(first), EnqueuedRow(second);
    FirstEnqueue(first);
    SecondEnqueue(r0, second);
    TiedRowClaimed(r0, r1, claim);
    run := PartAtThird(map[0 := r0], map[0 := r0, 1 := r1], first, second, claim);
  }

  /** The longest base delay, doubled at the second and last attempt. */
  const STEEP: RetryPolicy := RetryPolicy(2, CHRONO_MAX_SECONDS * NANOS_PER_SECOND, 2, Some(0))

  lemma SteepDelays()
    ensures DelayFor(STEEP, 1) == Some(0) && DelayFor(STEEP, 2).None?
  {
    DelayIsCappedProduct(STEEP, 1);
    DelayIsCappedProduct(STEEP, 2);
    assert Pow(2, 0) == 1 && Pow(2, 1) == 2 * Pow(2, 0);
    assert UncappedSeconds(STEEP, 1) == CHRONO_MAX_SECONDS * Pow(2, 0);
    assert UncappedSeconds(STEEP, 2) == CHRONO_MAX_SECONDS * Pow(2, 1);
  }

  lemma SteepRowFailsOnce(r: Row, now: Instant)
    requires r.job.policy == STEEP && InCalendar(now)
    ensures r.job.attempts == 1 ==> !Spent(r) && CanFail(r, now) && RetryDelay(r.job) == Some(0)
    ensures r.job.attempts == 2 ==> Spent(r) && CanFail(r, now) && RetryDelay(r.job).None?
  {
    SteepDelays();
  }

  /** A job that fails twice: the retry is due at once, and at the last attempt the
      table buries the job while the simple queue cannot compute the delay. */
  lemma OutOfRangeDeathIsReachable(enqueue: Step, claim: Step, fail: Step) returns (run: Trace)
    requires enqueue.Enqueue? && enqueue.id == 0 && enqueue.policy == STEEP
    requires claim.Claim? && claim.locked == {} && claim.pick == Some(0) && claim.now == enqueue.now
    requires InCalendar(claim.now + claim.lease)
    requires fail.Fail? && fail.id == 0 && fail.worker == claim.worker && fail.now == claim.now && InCalendar(fail.now)
    ensures Legal(run) && run.steps == [enqueue, claim, fail, claim, fail]
    ensures DiesOutOfRange(run.tables[4], fail) && Agree(run, 4) && !Agree(run, 5)
  {
    var r1 := EnqueuedRow(enqueue);
    var r2 := RowClaimed(r1, claim.worker, claim.now, claim.lease);
    SteepRowFailsOnce(r2, fail.now);
    var r3 := RowFailed(r2, fail.error, fail.now);
    var r4 := RowClaimed(r3, claim.worker, claim.now, claim.lease);
    SteepRowFailsOnce(r4, fail.now);
    FirstEnqueue(enqueue);
    OnlyRowClaimed(r1, claim);
    OnlyRowFailed(r2, fail);
    OnlyRowClaimed(r3, claim);
    OnlyRowFailed(r4, fail);
    run := PartAtFifth(map[0 := r1], map[0 := r2], map[0 := r3], map[0 := r4], enqueue, claim, fail, claim, fail);
  }
}
