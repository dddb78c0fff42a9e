/** Bounded overtaking: a queued job whose due time has passed is claimed after
    a number of claims that is fixed from then on. */
module Overtaking {
  import opened Prelude
  import opened Backoff
  import opened JobQueues

  /** Backoff never moves a job into the past. */
  predicate FairPolicy(p: RetryPolicy) {
    p.maxDelay.Some? ==> p.maxDelay.value >= 0
  }

  predicate FairJobs(jobs: Jobs) {
    forall id :: id in jobs ==> FairPolicy(jobs[id].policy)
  }

  predicate FairOp(op: Op) {
    op.Enqueue? ==> FairPolicy(op.policy)
  }

  /** The queued jobs a claim would prefer to `id`. */
  ghost function Ahead(jobs: Jobs, id: JobId): set<JobId>
    requires id in jobs
  {
    set o | o in jobs && jobs[o].status == Queued && Before(jobs[o], jobs[id])
  }

  ghost predicate Waiting(jobs: Jobs, id: JobId) {
    Valid(jobs) && FairJobs(jobs) && Has(jobs, id, Queued)
  }

  ghost predicate Takes(jobs: Jobs, op: Op, id: JobId) {
    op.Claim? && NextClaim(jobs, op.now) == Some(id)
  }

  /** No operation after the due time puts a job ahead; a claim takes the job or
      takes one of those ahead of it. */
  lemma StepKeepsPlace(jobs: Jobs, op: Op, id: JobId)
    requires Waiting(jobs, id) && Possible(jobs, op) && FairOp(op)
    requires op.now > jobs[id].nextAttemptAt
    requires !(op.Pause? && op.id == id) && !Takes(jobs, op, id)
    ensures Waiting(Next(jobs, op), id) && Next(jobs, op)[id] == jobs[id]
    ensures Ahead(Next(jobs, op), id) <= Ahead(jobs, id)
    ensures op.Claim? ==> Ahead(Next(jobs, op), id) < Ahead(jobs, id)
  {
    var after := Next(jobs, op);
    match op
    case Claim(now) =>
      SomeDueIsClaimed(jobs, now, id);
      var taken := NextClaim(jobs, now).value;
      assert taken in Ahead(jobs, id) && taken !in Ahead(after, id);
    case Fail(fid, error, now) =>
      if Has(jobs, fid, Running) {
        DelayBounds(jobs[fid].policy, Max(jobs[fid].attempts, 1));
      }
    case _ =>
  }

  function Claims(ops: seq<Op>): nat {
    if ops == [] then 0 else (if ops[0].Claim? then 1 else 0) + Claims(ops[1..])
  }

  /** Whatever else happens after the due time, the job is claimed by the time as
      many claims were made as jobs were ahead of it, plus one. */
  lemma {:induction false} ClaimedWithinBound(jobs: Jobs, ops: seq<Op>, id: JobId) returns (k: nat)
    requires Waiting(jobs, id) && PossibleRun(jobs, ops)
    requires forall op :: op in ops ==> FairOp(op) && op.now > jobs[id].nextAttemptAt
    requires forall op :: op in ops ==> !(op.Pause? && op.id == id)
    requires Claims(ops) > |Ahead(jobs, id)|
    ensures k < |ops| && Takes(Run(jobs, ops[..k]), ops[k], id)
    ensures Claims(ops[..k]) <= |Ahead(jobs, id)|
    decreases |ops|
  {
    var op := ops[0];
    assert op in ops && forall o :: o in ops[1..] ==> o in ops;
    if Takes(jobs, op, id) {
      k := 0;
    } else {
      StepKeepsPlace(jobs, op, id);
      var next := Next(jobs, op);
      FewerAhead(Ahead(next, id), Ahead(jobs, id));
      var k' := ClaimedWithinBound(next, ops[1..], id);
      k := k' + 1;
      assert ops[..k][0] == op && ops[..k][1..] == ops[1..][..k'];
    }
  }

  lemma FewerAhead(a: set<JobId>, b: set<JobId>)
    requires a <= b
    ensures |a| <= |b| && (a < b ==> |a| < |b|)
  {
    assert |b - a| + |a| == |b|;
    if a < b {
      var x :| x in b - a;
      assert |b - a| > 0;
    }
  }
}
