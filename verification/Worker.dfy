/** The reconciliation worker: bounded passes over the shared table while other
    workers step on it. */
module Workers {
  import opened Prelude
  import opened Backoff
  import opened JobQueues
  import opened LeasedQueues
  import opened LeasedRuns
  import opened Redaction
  import opened WorkerDiaries

  datatype WorkerError = DispatchError | StoreError | QueueError(error: TableError)

  /** The claim the worker is at work on is the diary's open one. */
  ghost predicate AtWork(d: Diary, id: JobId, worker: string, script: seq<Pass>, secrets: seq<string>) {
    && Matched(d, worker, script, secrets) && |d.turns| < |script|
    && d.open.Some? && EventAt(d.run, d.open.value) == ClaimedBy(id, worker)
  }

  ghost predicate AtRest(d: Diary, worker: string, script: seq<Pass>, secrets: seq<string>) {
    Matched(d, worker, script, secrets) && d.open.None?
  }

  lemma OneMoreForeign(d: Diary, d': Diary, s: Step, to: Table)
    requires OnlyOthers(d, d')
    ensures OnlyOthers(d, Noted(d', s, to, false))
  {
    var more := Noted(d', s, to, false);
    forall k: nat | |d.mine| <= k < |more.mine| ensures Foreign(more, k) {
      assert k < |d'.mine| ==> Foreign(d', k);
    }
  }

  lemma ScriptedSteps(script: seq<Pass>, k: nat)
    requires k < |script|
    ensures forall i :: 0 <= i < |script[k].between| ==> OthersStep(script[k].between[i], script)
    ensures forall i :: 0 <= i < |script[k].before| ==> OthersStep(script[k].before[i], script)
    ensures forall i :: 0 <= i < |script[k].meanwhile| ==> OthersStep(script[k].meanwhile[i], script)
  {
    assert script[k] in script;
  }

  lemma RecoveryNoted(stats: WorkerStats, d: Diary, t: Table, now: Instant, recovered: set<JobId>, worker: string,
                      script: seq<Pass>, secrets: seq<string>)
    requires Keeps(d, t, worker, script) && AtRest(d, worker, script, secrets) && Accounts(stats, d)
    requires recovered == ExpiredIds(t, now)
    ensures var to := Apply(t, Step.Recover(now));
            var d' := Noted(d, Step.Recover(now), to, true);
            && Keeps(d', to, worker, script) && Continues(d, d') && AtRest(d', worker, script, secrets)
            && Accounts(stats.(recovered := stats.recovered + |recovered|), d')
  {
    var s := Step.Recover(now);
    assert EventOf(t, s) == RecoveredAll(recovered);
    NotedKept(d, t, s, true, worker, script);
    NotedMatched(d, s, Apply(t, s), true, worker, script, secrets);
    NotedFreed(d, s, Apply(t, s), true);
  }

  lemma ClaimNoted(d: Diary, t: Table, s: Step, worker: string, script: seq<Pass>, secrets: seq<string>)
    requires Keeps(d, t, worker, script) && AtRest(d, worker, script, secrets) && |d.turns| < |script|
    requires s.Claim? && s.worker == worker && s.pick.Some? && Enabled(t, s)
    ensures var d' := Opened(Noted(d, s, Apply(t, s), true));
            && Keeps(d', Apply(t, s), worker, script) && Continues(d, d') && Freed(d') == Freed(d)
            && AtWork(d', s.pick.value, worker, script, secrets)
  {
    var noted := Noted(d, s, Apply(t, s), true);
    NotedKept(d, t, s, true, worker, script);
    ClaimMatched(d, s, Apply(t, s), worker, script, secrets);
    NotedFreed(d, s, Apply(t, s), true);
    SameRunContinues(d, noted, Opened(noted));
  }

  lemma ContinuedEvent(d: Diary, d': Diary, i: nat)
    requires Continues(d, d') && i < |d.run.steps|
    ensures EventAt(d'.run, i) == EventAt(d.run, i)
  {
    assert SameEntry(d, d', i);
  }

  lemma CompleteOutcome(t: Table, id: JobId, worker: string, at: Instant, p: Pass, secrets: seq<string>)
    requires Holds(t, id, worker) && p.dispatch.Some? && !p.dispatch.value.Failed?
    ensures var s, o := Step.Complete(id, worker, at), TickOutcome.Completed(id, p.dispatch.value.Ready?);
            Ends(EventOf(t, s), id, worker) && OutcomeOk(EventOf(t, s), Apply(t, s), o, p, secrets)
  {}

  lemma FailOutcome(t: Table, id: JobId, worker: string, at: Instant, p: Pass, secrets: seq<string>)
    requires Holds(t, id, worker) && CanFail(t[id], at) && p.dispatch.Some? && p.dispatch.value.Failed?
    ensures var s := Step.Fail(id, worker, Redacted(p.dispatch.value.reason, secrets), at);
            var o := if Spent(t[id]) then DeadLettered(id) else Retried(id);
            Ends(EventOf(t, s), id, worker) && OutcomeOk(EventOf(t, s), Apply(t, s), o, p, secrets)
  {}

  /** The claim that was open is ended by this step, with this outcome. */
  ghost predicate EndedBy(d: Diary, d': Diary, o: TickOutcome, worker: string, script: seq<Pass>, secrets: seq<string>) {
    && AtRest(d', worker, script, secrets)
    && d.run.Shaped() && |d.mine| == |d.run.steps| && Freed(d') == Freed(d)
    && d.open.Some? && |d'.mine| > 0 && d'.turns == d.turns + [Turn(d.open.value, |d'.mine| - 1, o)]
  }

  lemma EndKept(d: Diary, t: Table, s: Step, o: TickOutcome, worker: string, script: seq<Pass>)
    requires Keeps(d, t, worker, script) && d.open.Some? && OwnStep(s, worker) && Enabled(t, s)
    ensures var d' := Closed(Noted(d, s, Apply(t, s), true), o);
            Keeps(d', Apply(t, s), worker, script) && Continues(d, d')
  {
    var noted := Noted(d, s, Apply(t, s), true);
    NotedKept(d, t, s, true, worker, script);
    SameRunContinues(d, noted, Closed(noted, o));
  }

  lemma EndFreed(d: Diary, t: Table, s: Step, o: TickOutcome, worker: string)
    requires Leads(d, t) && d.open.Some? && Ends(EventOf(t, s), o.job, worker)
    ensures Freed(Closed(Noted(d, s, Apply(t, s), true), o)) == Freed(d)
  {
    NotedFreed(d, s, Apply(t, s), true);
  }

  lemma EndNoted(d: Diary, t: Table, s: Step, o: TickOutcome, worker: string, script: seq<Pass>, secrets: seq<string>)
    requires Leads(d, t) && AtWork(d, o.job, worker, script, secrets)
    requires Ends(EventOf(t, s), o.job, worker)
    requires OutcomeOk(EventOf(t, s), Apply(t, s), o, script[|d.turns|], secrets)
    ensures EndedBy(d, Closed(Noted(d, s, Apply(t, s), true), o), o, worker, script, secrets)
  {
    EndMatched(d, s, Apply(t, s), o, worker, script, secrets);
    EndFreed(d, t, s, o, worker);
  }

  /** A run goes on until its passes are used up, a shutdown is asked for or nothing
      is left to claim, and only the last of these counts as idle. */
  predicate StoppedWell(s: WorkerStats, script: seq<Pass>, rows: Table) {
    if s.claimed < |script| then
      var p := script[s.claimed];
      if p.stopping then s.idle == 0 else s.idle == 1 && NothingToClaim(rows, p.now, p.locked)
    else s.claimed == |script| && s.idle == 0
  }

  class Worker {
    const queue: PgJobQueue
    const workerId: string
    const lease: Duration
    const secrets: seq<string>
    var inFlight: nat

    constructor (queue: PgJobQueue, workerId: string, lease: Duration, secrets: seq<string>)
      ensures this.queue == queue && this.workerId == workerId && this.lease == lease
      ensures this.secrets == secrets && inFlight == 0
    {
      this.queue, this.workerId, this.lease, this.secrets := queue, workerId, lease, secrets;
      inFlight := 0;
    }

    /** Other workers take whatever steps are open to them. */
    method Interference(steps: seq<Step>, ghost d: Diary, ghost script: seq<Pass>) returns (ghost d': Diary)
      requires Inv(queue.rows) && Keeps(d, queue.rows, workerId, script)
      requires forall i :: 0 <= i < |steps| ==> OthersStep(steps[i], script)
      modifies queue
      ensures Inv(queue.rows) && Keeps(d', queue.rows, workerId, script)
      ensures queue.rows == Meddled(old(queue.rows), steps) && OnlyOthers(d, d')
      ensures Continues(d, d') && d'.turns == d.turns && d'.open == d.open && Freed(d') == Freed(d)
      ensures Matched(d, workerId, script, secrets) ==> Matched(d', workerId, script, secrets)
    {
      d' := d;
      var i := 0;
      while i < |steps|
        invariant 0 <= i <= |steps|
        invariant Inv(queue.rows) && Keeps(d', queue.rows, workerId, script)
        invariant queue.rows == Interfered(old(queue.rows), steps, i) && OnlyOthers(d, d')
        invariant Continues(d, d') && d'.turns == d.turns && d'.open == d.open && Freed(d') == Freed(d)
        invariant Matched(d, workerId, script, secrets) ==> Matched(d', workerId, script, secrets)
      {
        if Enabled(queue.rows, steps[i]) {
          ghost var to := Apply(queue.rows, steps[i]);
          InvKept(queue.rows, steps[i]);
          NotedKept(d', queue.rows, steps[i], false, workerId, script);
          ContinuesOn(d, d', Noted(d', steps[i], to, false));
          NotedFreed(d', steps[i], to, false);
          OneMoreForeign(d, d', steps[i], to);
          if Matched(d', workerId, script, secrets) {
            NotedMatched(d', steps[i], to, false, workerId, script, secrets);
          }
          queue.rows := Apply(queue.rows, steps[i]);
          d' := Noted(d', steps[i], to, false);
        }
        i := i + 1;
      }
    }

    /** The dispatcher failed: put the redacted reason on record and end the claim. */
    method FinalizeFailed(id: JobId, p: Pass, ghost d: Diary, ghost script: seq<Pass>)
      returns (r: Result<TickOutcome, WorkerError>, ghost d': Diary)
      requires p.dispatch.Some? && p.dispatch.value.Failed?
      requires Inv(queue.rows) && Keeps(d, queue.rows, workerId, script)
      requires AtWork(d, id, workerId, script, secrets) && script[|d.turns|] == p
      modifies queue
      ensures Inv(queue.rows) && Keeps(d', queue.rows, workerId, script) && Continues(d, d')
      ensures r.Ok? <==> FinalizeWorks(old(queue.rows), id, workerId, p)
      ensures if r.Ok? then r.value.job == id && EndedBy(d, d', r.value, workerId, script, secrets) else d'.turns == d.turns
      ensures r.Ok? ==>
                && !r.value.Completed?
                && InStatus(queue.rows, id, if r.value.DeadLettered? then Dead else Queued)
                && queue.rows[id].job.lastError == Some(Redacted(p.dispatch.value.reason, secrets))
    {
      var text := RedactReason(p.dispatch.value.reason, secrets);
      ghost var t, s := queue.rows, Step.Fail(id, workerId, text, p.finishAt);
      NotedKept(d, t, s, true, workerId, script);
      d' := Noted(d, s, Apply(t, s), true);
      var failed := queue.Fail(id, workerId, text, p.finishAt);
      if failed.Err? {
        return Err(QueueError(failed.error)), d';
      }
      if !p.eventOk {
        return Err(StoreError), d';
      }
      var outcome := if failed.value == Dead then DeadLettered(id) else Retried(id);
      FailOutcome(t, id, workerId, p.finishAt, p, secrets);
      EndKept(d, t, s, outcome, workerId, script);
      EndNoted(d, t, s, outcome, workerId, script, secrets);
      return Ok(outcome), Closed(d', outcome);
    }

    /** The job is ready, degraded or in progress: observe it and end the claim. */
    method FinalizeDone(id: JobId, p: Pass, ghost d: Diary, ghost script: seq<Pass>)
      returns (r: Result<TickOutcome, WorkerError>, ghost d': Diary)
      requires p.dispatch.Some? && !p.dispatch.value.Failed?
      requires Inv(queue.rows) && Keeps(d, queue.rows, workerId, script)
      requires AtWork(d, id, workerId, script, secrets) && script[|d.turns|] == p
      modifies queue
      ensures Inv(queue.rows) && Keeps(d', queue.rows, workerId, script) && Continues(d, d')
      ensures r.Ok? <==> FinalizeWorks(old(queue.rows), id, workerId, p)
      ensures if r.Ok? then r.value.job == id && EndedBy(d, d', r.value, workerId, script, secrets) else d'.turns == d.turns
      ensures r.Ok? ==> r.value == TickOutcome.Completed(id, p.dispatch.value.Ready?) && InStatus(queue.rows, id, Succeeded)
    {
      if !p.dispatch.value.InProgress? && !p.observeOk {
        return Err(StoreError), d;
      }
      ghost var t, s := queue.rows, Step.Complete(id, workerId, p.finishAt);
      NotedKept(d, t, s, true, workerId, script);
      d' := Noted(d, s, Apply(t, s), true);
      var completed := queue.Complete(id, workerId, p.finishAt);
      if completed.Err? {
        return Err(QueueError(completed.error)), d';
      }
      if !p.eventOk {
        return Err(StoreError), d';
      }
      var outcome := TickOutcome.Completed(id, p.dispatch.value.Ready?);
      CompleteOutcome(t, id, workerId, p.finishAt, p, secrets);
      EndKept(d, t, s, outcome, workerId, script);
      EndNoted(d, t, s, outcome, workerId, script, secrets);
      return Ok(outcome), Closed(d', outcome);
    }

    /** `finalize`: dispatch the claimed job and end its claim. */
    method Finalize(claimed: ClaimedJob, p: Pass, ghost d: Diary, ghost script: seq<Pass>)
      returns (r: Result<TickOutcome, WorkerError>, ghost d': Diary)
      requires Inv(queue.rows) && Keeps(d, queue.rows, workerId, script)
      requires AtWork(d, claimed.job.id, workerId, script, secrets) && script[|d.turns|] == p
      modifies queue
      ensures Inv(queue.rows) && Keeps(d', queue.rows, workerId, script) && Continues(d, d')
      ensures r.Ok? <==> FinalizeWorks(Meddled(old(queue.rows), p.meanwhile), claimed.job.id, workerId, p)
      ensures if r.Ok? then r.value.job == claimed.job.id && EndedBy(d, d', r.value, workerId, script, secrets)
              else d'.turns == d.turns
      ensures r.Ok? && r.value.Completed? ==>
                && InStatus(queue.rows, claimed.job.id, Succeeded)
                && !p.dispatch.value.Failed? && r.value.ready == p.dispatch.value.Ready?
      ensures r.Ok? && !r.value.Completed? ==>
                && p.dispatch.value.Failed?
                && InStatus(queue.rows, claimed.job.id, if r.value.DeadLettered? then Dead else Queued)
                && queue.rows[claimed.job.id].job.lastError == Some(Redacted(p.dispatch.value.reason, secrets))
    {
      ScriptedSteps(script, |d.turns|);
      ghost var d1 := Interference(p.meanwhile, d, script);
      ContinuedEvent(d, d1, d.open.value);
      if p.dispatch.None? {
        return Err(DispatchError), d1;
      }
      if p.dispatch.value.Failed? {
        r, d' := FinalizeFailed(claimed.job.id, p, d1, script);
      } else {
        r, d' := FinalizeDone(claimed.job.id, p, d1, script);
      }
      ContinuesOn(d, d1, d');
    }

    method RecoverLeases(now: Instant, stats: WorkerStats, ghost d: Diary, ghost script: seq<Pass>)
      returns (stats': WorkerStats, ghost d': Diary)
      requires Inv(queue.rows) && Keeps(d, queue.rows, workerId, script)
      requires AtRest(d, workerId, script, secrets) && Accounts(stats, d)
      modifies queue
      ensures Inv(queue.rows) && Keeps(d', queue.rows, workerId, script) && Continues(d, d')
      ensures AtRest(d', workerId, script, secrets) && d'.turns == d.turns && Accounts(stats', d')
      ensures queue.rows == Apply(old(queue.rows), Step.Recover(now)) && GoesOnWith(d, d', Step.Recover(now))
      ensures stats' == stats.(recovered := stats.recovered + |ExpiredIds(old(queue.rows), now)|)
    {
      ghost var t := queue.rows;
      var recovered := queue.RecoverExpiredLeases(now);
      RecoveryNoted(stats, d, t, now, recovered, workerId, script, secrets);
      d' := Noted(d, Step.Recover(now), queue.rows, true);
      stats' := stats.(recovered := stats.recovered + |recovered|);
    }

    /** The first half of a pass: recover expired leases, behind whatever others did. */
    method RecoverHalf(p: Pass, stats: WorkerStats, ghost d: Diary, ghost script: seq<Pass>)
      returns (ok: bool, stats': WorkerStats, ghost d': Diary)
      requires Inv(queue.rows) && Keeps(d, queue.rows, workerId, script)
      requires AtRest(d, workerId, script, secrets) && Accounts(stats, d)
      requires |d.turns| < |script| && script[|d.turns|] == p
      modifies queue
      ensures Inv(queue.rows) && Keeps(d', queue.rows, workerId, script)
      ensures Continues(d, d') && OwnFirst(d, d', Step.Recover(p.now))
      ensures AtRest(d', workerId, script, secrets) && d'.turns == d.turns && Accounts(stats', d')
      ensures queue.rows == Apply(RecoverTable(old(queue.rows), p), Step.Recover(p.now)) && stats'.idle == stats.idle
      ensures ok <==> RecoveryWorks(RecoverTable(old(queue.rows), p), p)
    {
      ScriptedSteps(script, |d.turns|);
      ghost var d0 := Interference(p.between, d, script);
      stats', d' := RecoverLeases(p.now, stats, d0, script);
      ContinuesOn(d, d0, d');
      OwnFirstAfterOthers(d, d0, d', Step.Recover(p.now));
      ok := stats'.recovered == stats.recovered || p.recoveryEventOk;
    }

    /** Claiming opens a turn in the diary. */
    method Claim(p: Pass, ghost d: Diary, ghost script: seq<Pass>)
      returns (r: Result<Option<ClaimedJob>, WorkerError>, ghost d': Diary)
      requires Inv(queue.rows) && Keeps(d, queue.rows, workerId, script)
      requires AtRest(d, workerId, script, secrets) && |d.turns| < |script|
      modifies queue
      ensures Inv(queue.rows) && Keeps(d', queue.rows, workerId, script) && Continues(d, d')
      ensures d'.turns == d.turns && Freed(d') == Freed(d)
      ensures r.Ok? <==> InCalendar(p.now + lease)
      ensures r.Err? ==> queue.rows == old(queue.rows)
      ensures r == Ok(None) ==> d' == d && NothingToClaim(queue.rows, p.now, p.locked) && queue.rows == old(queue.rows)
      ensures r.Ok? && r.value.Some? ==>
                var id := r.value.value.job.id;
                && AtWork(d', id, workerId, script, secrets)
                && Enabled(old(queue.rows), ClaimStep(p, workerId, lease, Some(id)))
                && queue.rows == Apply(old(queue.rows), ClaimStep(p, workerId, lease, Some(id)))
    {
      d' := d;
      ghost var t := queue.rows;
      var claimed := queue.ClaimNext(workerId, p.now, lease, p.locked);
      if claimed.Err? {
        return Err(QueueError(claimed.error)), d;
      }
      if claimed.value.Some? {
        ghost var s := Step.Claim(workerId, p.now, lease, p.locked, Some(claimed.value.value.job.id));
        ClaimNoted(d, t, s, workerId, script, secrets);
        d' := Opened(Noted(d, s, queue.rows, true));
      }
      return Ok(claimed.value), d';
    }

    /** Finalize a claimed job and count the outcome. */
    method FinishTurn(claimed: ClaimedJob, p: Pass, stats: WorkerStats, ghost d: Diary, ghost script: seq<Pass>)
      returns (r: Result<TickOutcome, WorkerError>, stats': WorkerStats, ghost d': Diary)
      requires Inv(queue.rows) && Keeps(d, queue.rows, workerId, script)
      requires AtWork(d, claimed.job.id, workerId, script, secrets) && script[|d.turns|] == p && Accounts(stats, d)
      modifies this`inFlight, queue
      ensures Inv(queue.rows) && Keeps(d', queue.rows, workerId, script) && Continues(d, d')
      ensures inFlight == old(inFlight)
      ensures r.Ok? <==> FinalizeWorks(Meddled(old(queue.rows), p.meanwhile), claimed.job.id, workerId, p)
      ensures if r.Ok? then AtRest(d', workerId, script, secrets) && Accounts(stats', d') else d'.turns == d.turns
      ensures r.Ok? ==> |d'.turns| == |d.turns| + 1 && stats'.idle == stats.idle
    {
      inFlight := inFlight + 1;
      r, d' := Finalize(claimed, p, d, script);
      inFlight := inFlight - 1;
      if r.Err? {
        stats' := stats.(claimed := stats.claimed + 1);
      } else {
        CountedAccounts(stats, d, d', Turn(d.open.value, |d'.mine| - 1, r.value));
        stats' := Counted(stats, r.value);
      }
    }

    /** Claim a due job, if there is one, and see it through. */
    method ClaimAndFinalize(p: Pass, stats: WorkerStats, ghost d: Diary, ghost script: seq<Pass>)
      returns (r: Result<bool, WorkerError>, stats': WorkerStats, ghost d': Diary, ghost pick: Option<JobId>)
      requires Inv(queue.rows) && Keeps(d, queue.rows, workerId, script)
      requires AtRest(d, workerId, script, secrets) && Accounts(stats, d)
      requires |d.turns| < |script| && script[|d.turns|] == p
      modifies this`inFlight, queue
      ensures Inv(queue.rows) && Keeps(d', queue.rows, workerId, script) && Continues(d, d')
      ensures inFlight == old(inFlight)
      ensures r.Ok? <==> ClaimWorks(old(queue.rows), p, workerId, lease, pick)
      ensures InCalendar(p.now + lease) ==> Enabled(old(queue.rows), ClaimStep(p, workerId, lease, pick))
      ensures if r.Ok? then AtRest(d', workerId, script, secrets) && Accounts(stats', d') else d'.turns == d.turns
      ensures r == Ok(true) ==> |d'.turns| == |d.turns| + 1 && stats'.idle == stats.idle
      ensures r == Ok(false) ==> d'.turns == d.turns && stats'.idle == stats.idle + 1 && NothingToClaim(queue.rows, p.now, p.locked)
    {
      stats', pick := stats, None;
      var claimed: Result<Option<ClaimedJob>, WorkerError>;
      ghost var d1;
      claimed, d1 := Claim(p, d, script);
      if claimed.Err? {
        return Err(claimed.error), stats', d1, pick;
      }
      if claimed.value.None? {
        return Ok(false), stats'.(idle := stats'.idle + 1), d1, pick;
      }
      pick := Some(claimed.value.value.job.id);
      var outcome: Result<TickOutcome, WorkerError>;
      outcome, stats', d' := FinishTurn(claimed.value.value, p, stats, d1, script);
      ContinuesOn(d, d1, d');
      r := if outcome.Ok? then Ok(true) else Err(outcome.error);
    }

    /** The second half of a pass, behind whatever others did since. */
    method ClaimHalf(p: Pass, stats: WorkerStats, ghost d: Diary, ghost script: seq<Pass>)
      returns (r: Result<bool, WorkerError>, stats': WorkerStats, ghost d': Diary, ghost pick: Option<JobId>)
      requires Inv(queue.rows) && Keeps(d, queue.rows, workerId, script)
      requires AtRest(d, workerId, script, secrets) && Accounts(stats, d)
      requires |d.turns| < |script| && script[|d.turns|] == p
      modifies this`inFlight, queue
      ensures Inv(queue.rows) && Keeps(d', queue.rows, workerId, script) && Continues(d, d')
      ensures inFlight == old(inFlight)
      ensures r.Ok? <==> ClaimWorks(Meddled(old(queue.rows), p.before), p, workerId, lease, pick)
      ensures InCalendar(p.now + lease) ==> Enabled(Meddled(old(queue.rows), p.before), ClaimStep(p, workerId, lease, pick))
      ensures if r.Ok? then AtRest(d', workerId, script, secrets) && Accounts(stats', d') else d'.turns == d.turns
      ensures r == Ok(true) ==> |d'.turns| == |d.turns| + 1 && stats'.idle == stats.idle
      ensures r == Ok(false) ==> d'.turns == d.turns && stats'.idle == stats.idle + 1 && NothingToClaim(queue.rows, p.now, p.locked)
    {
      ScriptedSteps(script, |d.turns|);
      ghost var d1 := Interference(p.before, d, script);
      r, stats', d', pick := ClaimAndFinalize(p, stats, d1, script);
      ContinuesOn(d, d1, d');
    }

    /** `tick_once`: recover, claim, finalize. */
    method TickOnce(p: Pass, stats: WorkerStats, ghost d: Diary, ghost script: seq<Pass>)
      returns (r: Result<bool, WorkerError>, stats': WorkerStats, ghost d': Diary, ghost pick: Option<JobId>)
      requires Inv(queue.rows) && Keeps(d, queue.rows, workerId, script)
      requires AtRest(d, workerId, script, secrets) && Accounts(stats, d)
      requires |d.turns| < |script| && script[|d.turns|] == p
      modifies this`inFlight, queue
      ensures Inv(queue.rows) && Keeps(d', queue.rows, workerId, script) && inFlight == old(inFlight)
      ensures Continues(d, d') && OwnFirst(d, d', Step.Recover(p.now))
      ensures r.Ok? <==> PassWorks(old(queue.rows), p, workerId, lease, pick)
      ensures PickAllowed(old(queue.rows), p, workerId, lease, pick)
      ensures if r.Ok? then AtRest(d', workerId, script, secrets) && Accounts(stats', d') else d'.turns == d.turns
      ensures r == Ok(true) ==> |d'.turns| == |d.turns| + 1 && stats'.idle == stats.idle
      ensures r == Ok(false) ==>
                && d'.turns == d.turns
                && (if p.stopping then stats'.idle == stats.idle
                    else stats'.idle == stats.idle + 1 && NothingToClaim(queue.rows, p.now, p.locked))
    {
      pick := None;
      var ok;
      ghost var d1;
      ok, stats', d1 := RecoverHalf(p, stats, d, script);
      if !ok {
        return Err(StoreError), stats', d1, pick;
      }
      if p.stopping {
        return Ok(false), stats', d1, pick;
      }
      r, stats', d', pick := ClaimHalf(p, stats', d1, script);
      ContinuesOn(d, d1, d');
      OwnFirstKept(d, d1, d', Step.Recover(p.now));
    }

    /** `run_bounded`: the diary is a legal run of the table from where it was to where
        it is. In a run that returns, the worker's effective claims and ends are
        those of its turns, one per pass, and the counters count them. */
    method RunBounded(script: seq<Pass>)
      returns (r: Result<WorkerStats, WorkerError>, ghost d: Diary, ghost at: nat, ghost pick: Option<JobId>)
      requires Inv(queue.rows)
      modifies this`inFlight, queue
      ensures Inv(queue.rows) && inFlight == old(inFlight)
      ensures Keeps(d, queue.rows, workerId, script) && d.run.tables[0] == old(queue.rows)
      ensures r.Ok? ==> AtRest(d, workerId, script, secrets) && Accounts(r.value, d)
      ensures r.Ok? ==> r.value.claimed == r.value.completed + r.value.inProgress + r.value.retried + r.value.deadLettered
      ensures r.Ok? ==> StoppedWell(r.value, script, queue.rows)
      ensures r.Err? ==> PassFailed(d, at, workerId, lease, script, pick)
    {
      var stats, going := NO_STATS, true;
      d, at, pick := NewDiary(queue.rows), 0, None;
      NewDiaryIsBlank(queue.rows, workerId, script, secrets);
      // A pass after which the run goes on claimed one job, so claims count passes.
      while going && stats.claimed < |script|
        invariant Inv(queue.rows) && inFlight == old(inFlight)
        invariant Keeps(d, queue.rows, workerId, script) && d.run.tables[0] == old(queue.rows)
        invariant AtRest(d, workerId, script, secrets) && Accounts(stats, d) && stats.claimed <= |script|
        invariant if going then stats.idle == 0 else StoppedWell(stats, script, queue.rows)
        decreases going, |script| - stats.claimed
      {
        var ticked: Result<bool, WorkerError>;
        ghost var grown;
        ticked, stats, grown, pick := TickOnce(script[stats.claimed], stats, d, script);
        if ticked.Err? {
          FailureIsPlaced(d, grown, workerId, lease, script, secrets, pick);
          return Err(ticked.error), grown, |d.mine|, pick;
        }
        d := grown;
        going := ticked.value;
      }
      AccountsBalance(stats, d);
      return Ok(stats), d, at, pick;
    }
  }

  lemma FailureIsPlaced(d: Diary, d': Diary, worker: string, lease: Duration, script: seq<Pass>, secrets: seq<string>,
                        pick: Option<JobId>)
    requires AtRest(d, worker, script, secrets) && |d.turns| < |script| && Continues(d, d') && d'.turns == d.turns
    requires PickAllowed(d.run.tables[|d.mine|], script[|d.turns|], worker, lease, pick)
    requires !PassWorks(d.run.tables[|d.mine|], script[|d.turns|], worker, lease, pick)
    ensures PassFailed(d', |d.mine|, worker, lease, script, pick)
  {
    ContinuedTable(d, d');
    forall k | 0 <= k < |d.turns| ensures d.turns[k].end < |d.mine| {
      assert EndsBefore(d.turns[k], |d.mine|);
    }
  }

  lemma NewDiaryIsBlank(t: Table, worker: string, script: seq<Pass>, secrets: seq<string>)
    ensures Keeps(NewDiary(t), t, worker, script) && AtRest(NewDiary(t), worker, script, secrets)
    ensures Accounts(NO_STATS, NewDiary(t))
  {}
}
