/** One reconciliation pass of each of the five controllers over the shared queue. */
module Controllers {
  import opened Prelude
  import opened Backoff
  import opened IdempotencyKeys
  import opened JobQueues

  datatype ResourcePhase = Requested | Provisioning | Ready | Degraded | Failed | Deleting | Deleted

  datatype DriftKind = Missing | Stale | Unhealthy | Terminated

  /** What a pass reads. Reconciliation never writes controller state. */
  datatype Controller =
    | Application(target: string, desiredVersion: u64, observedVersion: u64, observedHealthy: bool)
    | Resource(target: string, desiredPresent: bool, observedPresent: Option<bool>, phase: ResourcePhase,
               desiredVersion: u64, generation: u32, hasFailure: bool)
    | Capability(target: string, desiredReady: bool, phase: ResourcePhase)
    | Preview(target: string, desiredLive: bool, observedLive: bool, observedHealthy: bool)
    | Deployment(target: string, desiredArtifact: string, observedArtifact: Option<string>)

  datatype Intent = Intent(action: JobAction, version: u64)

  datatype Report = Report(inSync: bool, drift: seq<DriftKind>, actions: seq<string>)

  /** The version that keys a resource's jobs: desired version and failure count. */
  function ConvergenceVersion(desired: u64, generation: u32): u64 {
    Min(Min(desired * 1000, U64_MAX) + generation, U64_MAX)
  }

  function DriftIf(condition: bool, kind: DriftKind): seq<DriftKind> {
    if condition then [kind] else []
  }

  function DriftOf(c: Controller): seq<DriftKind> {
    match c
    case Application(_, desired, observed, healthy) =>
      DriftIf(observed != desired, Stale) + DriftIf(!healthy, Unhealthy)
    case Resource(_, wanted, present, phase, _, _, hasFailure) =>
      DriftIf(wanted && present != Some(true), Missing)
      + DriftIf(hasFailure, Terminated)
      + DriftIf(wanted && present == Some(true) && phase != Ready, Unhealthy)
      + DriftIf(!wanted && phase != Deleted, Stale)
    case Capability(_, wanted, phase) => DriftIf(wanted && phase != Ready, Unhealthy)
    case Preview(_, wanted, live, healthy) =>
      DriftIf(wanted && !live, Missing) + DriftIf(wanted && live && !healthy, Unhealthy)
    case Deployment(_, desired, observed) => DriftIf(observed != Some(desired), Stale)
  }

  /** The action a pass enqueues, if any; no pass enqueues two. */
  function IntentOf(c: Controller): Option<Intent> {
    match c
    case Application(_, desired, observed, healthy) =>
      if observed != desired || !healthy then Some(Intent(Update, desired)) else None
    case Resource(_, wanted, present, phase, desired, generation, _) =>
      if wanted && present != Some(true) then Some(Intent(Provision, ConvergenceVersion(desired, generation)))
      else if !wanted && phase != Deleted then Some(Intent(Delete, ConvergenceVersion(desired, generation)))
      else None
    case Capability(_, wanted, phase) => if wanted && phase != Ready then Some(Intent(Provision, 1)) else None
    case Preview(_, wanted, live, healthy) =>
      if wanted && !live then Some(Intent(Provision, 1))
      else if wanted && live && !healthy then Some(Intent(Verify, 1))
      else None
    case Deployment(_, desired, observed) => if observed != Some(desired) then Some(Intent(Rollout, 1)) else None
  }

  function KeyOf(c: Controller): string
    requires IntentOf(c).Some?
  {
    Key(c.target, IntentOf(c).value.action, IntentOf(c).value.version)
  }

  /** An action is reported only out of sync, and an out-of-sync pass reports one,
      except exactly for a resource that is present as wanted but not ready or
      failed before, or that is gone as wanted with a failure on record. */
  lemma MismatchActsExactlyWhen(c: Controller)
    ensures IntentOf(c).Some? ==> DriftOf(c) != []
    ensures DriftOf(c) != [] && IntentOf(c).None? <==>
            c.Resource? && (if c.desiredPresent then c.observedPresent == Some(true) && (c.phase != Ready || c.hasFailure)
                            else c.phase == Deleted && c.hasFailure)
  {}

  /** The queue after one pass; `id` is the identifier a fresh job would get. */
  ghost function Pass(jobs: Jobs, c: Controller, id: JobId, now: Instant): Jobs {
    match IntentOf(c)
    case None => jobs
    case Some(i) => Next(jobs, Op.Enqueue(id, c.target, i.action, i.version, DEFAULT_POLICY, now))
  }

  /** `reconcile`: every reported action is in flight afterwards. */
  method Reconcile(c: Controller, queue: JobQueue, id: JobId, now: Instant) returns (r: Report)
    requires Valid(queue.jobs) && id !in queue.jobs
    modifies queue
    ensures Valid(queue.jobs) && queue.jobs == Pass(old(queue.jobs), c, id, now)
    ensures r.drift == DriftOf(c) && (r.inSync <==> DriftOf(c) == [])
    ensures r.actions == if IntentOf(c).Some? then [KeyOf(c)] else []
    ensures forall key :: key in r.actions ==> HasLive(queue.jobs, key)
  {
    var drift := DriftOf(c);
    match IntentOf(c)
    case None =>
      r := Report(drift == [], drift, []);
    case Some(i) =>
      PassLeavesActionLive(queue.jobs, c, id, now);
      var _ := queue.Enqueue(id, c.target, i.action, i.version, DEFAULT_POLICY, now);
      r := Report(drift == [], drift, [KeyOf(c)]);
  }

  lemma PassLeavesActionLive(jobs: Jobs, c: Controller, id: JobId, now: Instant)
    requires Valid(jobs) && id !in jobs && IntentOf(c).Some?
    ensures HasLive(Pass(jobs, c, id, now), KeyOf(c))
  {
    var after := Pass(jobs, c, id, now);
    if !HasLive(jobs, KeyOf(c)) {
      assert Live(after, id, KeyOf(c));
    }
  }

  lemma PassKeepsLive(jobs: Jobs, c: Controller, id: JobId, now: Instant, key: string)
    requires id !in jobs && HasLive(jobs, key)
    ensures HasLive(Pass(jobs, c, id, now), key)
  {
    var live: JobId :| Live(jobs, live, key);
    assert Live(Pass(jobs, c, id, now), live, key);
  }

  /** A pass whose action is already in flight leaves the queue alone, at any time
      and whatever else has happened to the queue since. */
  lemma PassIsIdempotent(jobs: Jobs, c: Controller, id: JobId, now: Instant)
    requires IntentOf(c).Some? ==> HasLive(jobs, KeyOf(c))
    ensures Pass(jobs, c, id, now) == jobs
  {}

  // ---------------------------------------------------------------------
  // What a pass asks for, case by case
  // ---------------------------------------------------------------------

  /** Every job is keyed by its own target and action. */
  ghost predicate WellKeyed(jobs: Jobs) {
    forall id :: id in jobs ==> KeyedAsIs(jobs[id])
  }

  ghost predicate KeyedAsIs(job: Job) {
    exists v: nat :: job.key == Key(job.target, job.action, v)
  }

  lemma WellKeyedKept(jobs: Jobs, op: Op)
    requires WellKeyed(jobs)
    ensures WellKeyed(Next(jobs, op))
  {
    var after := Next(jobs, op);
    forall id | id in after ensures KeyedAsIs(after[id]) {
      if id in jobs && !(op.Enqueue? && id == op.id && after != jobs) {
        assert KeyedAsIs(jobs[id]);
      } else {
        assert after[id].key == Key(op.target, op.action, op.version);
      }
    }
  }

  /** A job with this target, action and version is queued, paused or running. */
  ghost predicate AtWorkOn(jobs: Jobs, target: string, action: JobAction, version: nat) {
    exists id :: && id in jobs && jobs[id].target == target && jobs[id].action == action
                 && jobs[id].key == Key(target, action, version)
                 && (jobs[id].status == Queued || jobs[id].status == Paused || jobs[id].status == Running)
  }

  /** Afterwards the action is at work, what was there before is unchanged, and nothing
      else was added than a fresh job for it under the default policy. */
  ghost predicate AsksFor(jobs: Jobs, after: Jobs, target: string, action: JobAction, version: nat, now: Instant) {
    && AtWorkOn(after, target, action, version)
    && (forall id :: id in jobs ==> id in after && after[id] == jobs[id])
    && (forall id :: id in after && id !in jobs ==>
          var job := after[id];
          && job.id == id && job.target == target && job.action == action && job.key == Key(target, action, version)
          && job.status == Queued && job.attempts == 0 && job.policy == DEFAULT_POLICY
          && job.nextAttemptAt == job.enqueuedAt == job.updatedAt == now && job.lastError.None?)
  }

  lemma EnqueueAsksFor(jobs: Jobs, id: JobId, target: string, action: JobAction, version: nat, now: Instant)
    requires WellKeyed(jobs) && id !in jobs
    ensures AsksFor(jobs, Next(jobs, Op.Enqueue(id, target, action, version, DEFAULT_POLICY, now)), target, action, version, now)
  {
    var after := Next(jobs, Op.Enqueue(id, target, action, version, DEFAULT_POLICY, now));
    if live: JobId :| Live(jobs, live, Key(target, action, version)) {
      assert KeyedAsIs(jobs[live]);
      var v: nat :| jobs[live].key == Key(jobs[live].target, jobs[live].action, v);
      KeyInjective(target, action, version, jobs[live].target, jobs[live].action, v);
      assert after[live] == jobs[live];
    } else {
      assert after[id].target == target && after[id].action == action;
    }
  }

  /** An application that lags behind its desired version or is not healthy is updated
      to the desired version. */
  lemma ApplicationPass(jobs: Jobs, c: Controller, id: JobId, now: Instant)
    requires WellKeyed(jobs) && id !in jobs && c.Application?
    ensures if c.observedVersion != c.desiredVersion || !c.observedHealthy
            then AsksFor(jobs, Pass(jobs, c, id, now), c.target, Update, c.desiredVersion, now)
            else Pass(jobs, c, id, now) == jobs
  {
    EnqueueAsksFor(jobs, id, c.target, Update, c.desiredVersion, now);
  }

  /** A wanted resource that was not seen present is provisioned, an unwanted one that
      is not deleted is deleted, at its convergence version. */
  lemma ResourcePass(jobs: Jobs, c: Controller, id: JobId, now: Instant)
    requires WellKeyed(jobs) && id !in jobs && c.Resource?
    ensures var version := Min(c.desiredVersion * 1000 + c.generation, U64_MAX);
            if c.desiredPresent && c.observedPresent != Some(true)
            then AsksFor(jobs, Pass(jobs, c, id, now), c.target, Provision, version, now)
            else if !c.desiredPresent && c.phase != Deleted
            then AsksFor(jobs, Pass(jobs, c, id, now), c.target, Delete, version, now)
            else Pass(jobs, c, id, now) == jobs
  {
    var version := Min(c.desiredVersion * 1000 + c.generation, U64_MAX);
    assert ConvergenceVersion(c.desiredVersion, c.generation) == version;
    if c.desiredPresent {
      EnqueueAsksFor(jobs, id, c.target, Provision, version, now);
    } else {
      EnqueueAsksFor(jobs, id, c.target, Delete, version, now);
    }
  }

  /** A capability that should be ready and is not is provisioned. */
  lemma CapabilityPass(jobs: Jobs, c: Controller, id: JobId, now: Instant)
    requires WellKeyed(jobs) && id !in jobs && c.Capability?
    ensures if c.desiredReady && c.phase != Ready
            then AsksFor(jobs, Pass(jobs, c, id, now), c.target, Provision, 1, now)
            else Pass(jobs, c, id, now) == jobs
  {
    EnqueueAsksFor(jobs, id, c.target, Provision, 1, now);
  }

  /** A preview that should be live is provisioned if it is not, verified if it is live
      and not healthy. */
  lemma PreviewPass(jobs: Jobs, c: Controller, id: JobId, now: Instant)
    requires WellKeyed(jobs) && id !in jobs && c.Preview?
    ensures if c.desiredLive && !c.observedLive
            then AsksFor(jobs, Pass(jobs, c, id, now), c.target, Provision, 1, now)
            else if c.desiredLive && !c.observedHealthy
            then AsksFor(jobs, Pass(jobs, c, id, now), c.target, Verify, 1, now)
            else Pass(jobs, c, id, now) == jobs
  {
    EnqueueAsksFor(jobs, id, c.target, Provision, 1, now);
    EnqueueAsksFor(jobs, id, c.target, Verify, 1, now);
  }

  /** A deployment that does not run the desired artifact is rolled out. */
  lemma DeploymentPass(jobs: Jobs, c: Controller, id: JobId, now: Instant)
    requires WellKeyed(jobs) && id !in jobs && c.Deployment?
    ensures if c.observedArtifact != Some(c.desiredArtifact)
            then AsksFor(jobs, Pass(jobs, c, id, now), c.target, Rollout, 1, now)
            else Pass(jobs, c, id, now) == jobs
  {
    EnqueueAsksFor(jobs, id, c.target, Rollout, 1, now);
  }

  /** The kinds of drift a pass reports. */
  lemma DriftExactlyWhen(c: Controller)
    ensures Missing in DriftOf(c) <==>
              || (c.Resource? && c.desiredPresent && c.observedPresent != Some(true))
              || (c.Preview? && c.desiredLive && !c.observedLive)
    ensures Terminated in DriftOf(c) <==> c.Resource? && c.hasFailure
    ensures Unhealthy in DriftOf(c) <==>
              || (c.Application? && !c.observedHealthy)
              || (c.Resource? && c.desiredPresent && c.observedPresent == Some(true) && c.phase != Ready)
              || (c.Capability? && c.desiredReady && c.phase != Ready)
              || (c.Preview? && c.desiredLive && c.observedLive && !c.observedHealthy)
    ensures Stale in DriftOf(c) <==>
              || (c.Application? && c.observedVersion != c.desiredVersion)
              || (c.Resource? && !c.desiredPresent && c.phase != Deleted)
              || (c.Deployment? && c.observedArtifact != Some(c.desiredArtifact))
  {}

  /** Several kinds at once come in this order, and none twice. */
  lemma DriftOrder(c: Controller)
    ensures c.Application? && |DriftOf(c)| > 1 ==> DriftOf(c) == [Stale, Unhealthy]
    ensures c.Resource? && |DriftOf(c)| > 1 ==>
              DriftOf(c) == [Missing, Terminated] || DriftOf(c) == [Terminated, Unhealthy] || DriftOf(c) == [Terminated, Stale]
    ensures !c.Application? && !c.Resource? ==> |DriftOf(c)| <= 1
  {}

  // ---------------------------------------------------------------------
  // Rounds over any set of controllers
  // ---------------------------------------------------------------------

  predicate FreshIds(jobs: Jobs, ids: seq<JobId>) {
    && (forall i :: 0 <= i < |ids| ==> ids[i] !in jobs)
    && (forall i, j :: 0 <= i < j < |ids| ==> ids[i] != ids[j])
  }

  ghost function Round(jobs: Jobs, cs: seq<Controller>, ids: seq<JobId>, now: Instant): Jobs
    requires |ids| == |cs|
    decreases |cs|
  {
    if cs == [] then jobs else Round(Pass(jobs, cs[0], ids[0], now), cs[1..], ids[1..], now)
  }

  lemma {:induction false} RoundKeepsLive(jobs: Jobs, cs: seq<Controller>, ids: seq<JobId>, now: Instant, key: string)
    requires |ids| == |cs| && Valid(jobs) && FreshIds(jobs, ids) && HasLive(jobs, key)
    ensures HasLive(Round(jobs, cs, ids, now), key)
    decreases |cs|
  {
    if cs != [] {
      PassKeepsLive(jobs, cs[0], ids[0], now, key);
      RoundKeepsLive(Pass(jobs, cs[0], ids[0], now), cs[1..], ids[1..], now, key);
    }
  }

  lemma {:induction false} RoundLeavesActionsLive(jobs: Jobs, cs: seq<Controller>, ids: seq<JobId>, now: Instant, c: Controller)
    requires |ids| == |cs| && Valid(jobs) && FreshIds(jobs, ids)
    requires c in cs && IntentOf(c).Some?
    ensures HasLive(Round(jobs, cs, ids, now), KeyOf(c))
    decreases |cs|
  {
    var next := Pass(jobs, cs[0], ids[0], now);
    if c == cs[0] {
      PassLeavesActionLive(jobs, c, ids[0], now);
      RoundKeepsLive(next, cs[1..], ids[1..], now, KeyOf(c));
    } else {
      RoundLeavesActionsLive(next, cs[1..], ids[1..], now, c);
    }
  }

  lemma {:induction false} SettledRound(jobs: Jobs, cs: seq<Controller>, ids: seq<JobId>, now: Instant)
    requires |ids| == |cs|
    requires forall c :: c in cs && IntentOf(c).Some? ==> HasLive(jobs, KeyOf(c))
    ensures Round(jobs, cs, ids, now) == jobs
    decreases |cs|
  {
    if cs != [] {
      PassIsIdempotent(jobs, cs[0], ids[0], now);
      SettledRound(jobs, cs[1..], ids[1..], now);
    }
  }

  /** After one round every action of every controller is in flight, and further
      rounds over unchanged controllers, in any order, add nothing. */
  lemma RoundsSettle(jobs: Jobs, cs: seq<Controller>, ids: seq<JobId>, now: Instant,
                     again: seq<Controller>, moreIds: seq<JobId>, later: Instant)
    requires |ids| == |cs| && |moreIds| == |again| && Valid(jobs) && FreshIds(jobs, ids)
    requires forall c :: c in again ==> c in cs
    ensures Round(Round(jobs, cs, ids, now), again, moreIds, later) == Round(jobs, cs, ids, now)
  {
    forall c | c in again && IntentOf(c).Some? ensures HasLive(Round(jobs, cs, ids, now), KeyOf(c)) {
      RoundLeavesActionsLive(jobs, cs, ids, now, c);
    }
    SettledRound(Round(jobs, cs, ids, now), again, moreIds, later);
  }

  // ---------------------------------------------------------------------
  // The version key of a resource
  // ---------------------------------------------------------------------

  /** Two versions collide exactly when the failure counts make up for the distance,
      a thousand per desired version, or both are saturated; so never below a
      thousand failures and below saturation. */
  lemma VersionsCollideExactlyWhen(d1: u64, g1: u32, d2: u64, g2: u32)
    ensures ConvergenceVersion(d1, g1) == ConvergenceVersion(d2, g2)
       <==> g1 - g2 == 1000 * (d2 - d1) || (d1 * 1000 + g1 >= U64_MAX && d2 * 1000 + g2 >= U64_MAX)
    ensures g1 < 1000 && g2 < 1000 && d1 * 1000 + g1 < U64_MAX ==>
              (ConvergenceVersion(d1, g1) == ConvergenceVersion(d2, g2) <==> d1 == d2 && g1 == g2)
  {}

  /** A new failure opens a fresh attempt exactly while the version is not
      saturated: then the old job no longer shuts out the next one. */
  lemma FailureAllowsFreshAttempt(target: string, action: JobAction, d: u64, g: u32)
    requires g < U32_MAX
    ensures Key(target, action, ConvergenceVersion(d, g)) != Key(target, action, ConvergenceVersion(d, g + 1))
       <==> d * 1000 + g < U64_MAX
  {
    var v, w := ConvergenceVersion(d, g), ConvergenceVersion(d, g + 1);
    if Key(target, action, v) == Key(target, action, w) {
      KeyInjective(target, action, v, target, action, w);
    }
  }
}
