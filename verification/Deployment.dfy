/** One deployment: its phases, transition evidence and health gate. */
module Deployments {
  import opened Prelude
  import opened Approvals

  type DeploymentId = nat

  datatype Phase = Pending | Building | Deploying | Healthy | Degraded | Failed | Superseded | RolledBack

  /** The explicit rollout graph. */
  predicate CanMove(from: Phase, to: Phase) {
    match from
    case Pending => to.Building? || to.Failed?
    case Building => to.Deploying? || to.Failed?
    case Deploying => to.Healthy? || to.Degraded? || to.Failed?
    case Healthy => to.Degraded? || to.Superseded? || to.RolledBack?
    case Degraded => to.Healthy? || to.Failed? || to.RolledBack?
    case Failed => to.RolledBack?
    case Superseded => to.RolledBack?
    case RolledBack => false
  }

  datatype HealthStatus = Starting | Passing | Unhealthy(reason: string) | Unknown(reason: string)

  /** Why a deployment moved. */
  datatype Note = Text(text: string) | RolledBackTo(target: DeploymentId, approver: Name)

  datatype Transition = Transition(from: Phase, to: Phase, at: Instant, reason: Option<Note>)

  datatype Revision = Revision(sourceSha: string, introducesMigration: bool)

  datatype Runtime = Runtime(production: bool, ociImage: Option<string>)

  datatype Image = Image(base: string, revisionSha: string)

  datatype BuildResult = BuildSucceeded | BuildFailed(detail: string)

  datatype Deployment = Deployment(
    id: DeploymentId,
    revision: Revision,
    runtime: Runtime,
    build: Option<BuildResult>,
    image: Option<Image>,
    health: HealthStatus,
    phase: Phase,
    rollbackTarget: Option<DeploymentId>,
    transitions: seq<Transition>)

  function NewDeployment(id: DeploymentId, revision: Revision, runtime: Runtime,
                         rollbackTarget: Option<DeploymentId>, at: Instant): Deployment {
    Deployment(id, revision, runtime, None, None, Starting, Pending, rollbackTarget, [Transition(Pending, Pending, at, None)])
  }

  // ---------------------------------------------------------------------
  // Operations; each returns the deployment it leaves behind
  // ---------------------------------------------------------------------

  /** Where the evidence ends; `Good` below says that it is never empty. */
  function LastPhase(d: Deployment): Phase {
    if d.transitions == [] then d.phase else d.transitions[|d.transitions| - 1].to
  }

  function Moved(d: Deployment, next: Phase, reason: Option<Note>, at: Instant): Deployment {
    d.(phase := next, transitions := d.transitions + [Transition(LastPhase(d), next, at, reason)])
  }

  /** `move_to`: a move outside the graph changes nothing. */
  function MoveTo(d: Deployment, next: Phase, reason: Option<Note>, at: Instant): Deployment {
    if CanMove(d.phase, next) then Moved(d, next, reason, at) else d
  }

  function StartBuild(d: Deployment, at: Instant): Deployment {
    MoveTo(d, Building, None, at)
  }

  /** A failed build is recorded, a successful one needs an image reference. */
  predicate BuildAccepted(d: Deployment, build: BuildResult) {
    d.phase == Building && (build.BuildFailed? || (d.runtime.production && d.runtime.ociImage.Some?))
  }

  /** `record_build`: only a success with an image reference reaches `Deploying`; the
      result is kept even when the image is missing. */
  function RecordBuild(d: Deployment, build: BuildResult, at: Instant): Deployment {
    if d.phase != Building then d
    else
      var noted := d.(build := Some(build));
      match build
      case BuildFailed(detail) => MoveTo(noted, Failed, Some(Text(detail)), at)
      case BuildSucceeded =>
        if !d.runtime.production || d.runtime.ociImage.None? then noted
        else MoveTo(noted.(image := Some(Image(d.runtime.ociImage.value, d.revision.sourceSha))), Deploying, None, at)
  }

  /** `record_health`: the health is written even when the move is rejected. */
  function RecordHealth(d: Deployment, health: HealthStatus, at: Instant): Deployment {
    var noted := d.(health := health);
    match health
    case Passing => MoveTo(noted, Healthy, None, at)
    case Unhealthy(reason) => MoveTo(noted, if d.phase == Deploying then Failed else Degraded, Some(Text(reason)), at)
    case _ => noted
  }

  /** The move a health report asks for, if any, is in the graph. */
  predicate HealthAccepted(d: Deployment, health: HealthStatus) {
    match health
    case Passing => CanMove(d.phase, Healthy)
    case Unhealthy(_) => CanMove(d.phase, if d.phase == Deploying then Failed else Degraded)
    case _ => true
  }

  function MarkSuperseded(d: Deployment, at: Instant): Deployment {
    MoveTo(d, Superseded, Some(Text("newer revision promoted")), at)
  }

  function MarkRolledBack(d: Deployment, reason: Note, at: Instant): Deployment {
    MoveTo(d, RolledBack, Some(reason), at)
  }

  /** The edge outside the graph: a rollback target serves again. `was` is the phase
      read before the source was rolled back. */
  function Restored(d: Deployment, was: Phase, at: Instant): Deployment {
    if d.phase == Healthy then d
    else d.(phase := Healthy,
            transitions := d.transitions + [Transition(was, Healthy, at, Some(Text("restored by rollback")))])
  }

  // ---------------------------------------------------------------------
  // The health gate
  // ---------------------------------------------------------------------

  predicate PassedGate(ts: seq<Transition>) {
    exists i :: 0 <= i < |ts| && ts[i].from == Deploying && ts[i].to == Healthy
  }

  /** Built, and once confirmed healthy out of `Deploying`. */
  predicate Gated(d: Deployment) {
    d.image.Some? && PassedGate(d.transitions)
  }

  /** Phases only a gated deployment may reach. */
  predicate BehindGate(p: Phase) {
    p.Healthy? || p.Degraded? || p.Superseded? || p.RolledBack?
  }

  predicate Serving(p: Phase) {
    p.Healthy? || p.Degraded?
  }

  predicate Good(d: Deployment) {
    && d.transitions != []
    && d.transitions[|d.transitions| - 1].to == d.phase
    && (d.phase == Deploying ==> d.image.Some?)
    && (BehindGate(d.phase) ==> Gated(d))
  }

  /** What a deployment never loses. */
  predicate Evolves(before: Deployment, after: Deployment) {
    && Good(after)
    && after.id == before.id && after.rollbackTarget == before.rollbackTarget
    && (before.image.Some? ==> after.image.Some?)
    && (Gated(before) ==> Gated(after))
  }

  lemma GateIsKept(ts: seq<Transition>, t: Transition)
    ensures PassedGate(ts + [t]) <==> PassedGate(ts) || (t.from == Deploying && t.to == Healthy)
  {
    var more := ts + [t];
    assert more[|ts|] == t;
    if PassedGate(ts) {
      var i :| 0 <= i < |ts| && ts[i].from == Deploying && ts[i].to == Healthy;
      assert more[i] == ts[i];
    }
  }

  /** Moves inside the graph keep the gate, except that it must not be skipped by
      degrading out of `Deploying` or rolling back an ungated failure. */
  lemma MoveEvolves(d: Deployment, next: Phase, reason: Option<Note>, at: Instant)
    requires Good(d)
    requires CanMove(d.phase, next) && BehindGate(next) ==> Gated(d) || (d.phase == Deploying && next == Healthy)
    requires CanMove(d.phase, next) && next == Deploying ==> d.image.Some?
    ensures Evolves(d, MoveTo(d, next, reason, at))
  {
    if CanMove(d.phase, next) {
      GateIsKept(d.transitions, Transition(d.phase, next, at, reason));
    }
  }

  lemma RecordBuildEvolves(d: Deployment, build: BuildResult, at: Instant)
    requires Good(d)
    ensures Evolves(d, RecordBuild(d, build, at))
  {
    if d.phase == Building {
      var noted := d.(build := Some(build));
      if build.BuildFailed? {
        MoveEvolves(noted, Failed, Some(Text(build.detail)), at);
      } else if d.runtime.production && d.runtime.ociImage.Some? {
        var built := noted.(image := Some(Image(d.runtime.ociImage.value, d.revision.sourceSha)));
        MoveEvolves(built, Deploying, None, at);
      }
    }
  }

  /** Health reports keep the gate, and a serving deployment goes on serving. */
  lemma RecordHealthEvolves(d: Deployment, health: HealthStatus, at: Instant)
    requires Good(d)
    ensures Evolves(d, RecordHealth(d, health, at))
    ensures Serving(d.phase) ==> Serving(RecordHealth(d, health, at).phase)
  {
    var noted := d.(health := health);
    match health
    case Passing => MoveEvolves(noted, Healthy, None, at);
    case Unhealthy(reason) => MoveEvolves(noted, if d.phase == Deploying then Failed else Degraded, Some(Text(reason)), at);
    case _ =>
  }

  lemma RestoredEvolves(d: Deployment, was: Phase, at: Instant)
    requires Good(d) && BehindGate(d.phase)
    ensures Evolves(d, Restored(d, was, at)) && Restored(d, was, at).phase == Healthy
  {
    GateIsKept(d.transitions, Transition(was, Healthy, at, Some(Text("restored by rollback"))));
  }

  // ---------------------------------------------------------------------
  // What each operation does, phase by phase
  // ---------------------------------------------------------------------

  /** The deployment moved to `next` and kept the evidence; or it stayed as it was. */
  ghost predicate MovedOn(d: Deployment, after: Deployment, next: Phase, at: Instant) {
    && after.phase == next && |after.transitions| == |d.transitions| + 1
    && after.transitions[..|d.transitions|] == d.transitions
    && var t := after.transitions[|d.transitions|]; t.from == d.phase && t.to == next && t.at == at
  }

  ghost predicate Stayed(d: Deployment, after: Deployment) {
    after.phase == d.phase && after.transitions == d.transitions
  }

  /** A passing report makes a deploying or degraded deployment healthy; a failing one
      fails a deploying and degrades a healthy one; no other report moves anything. */
  lemma HealthByPhase(d: Deployment, health: HealthStatus, at: Instant)
    requires Good(d)
    ensures var after := RecordHealth(d, health, at);
            && after.health == health
            && (if health.Passing? && (d.phase == Deploying || d.phase == Degraded) then MovedOn(d, after, Healthy, at)
                else if health.Unhealthy? && d.phase == Deploying then MovedOn(d, after, Failed, at)
                else if health.Unhealthy? && d.phase == Healthy then MovedOn(d, after, Degraded, at)
                else Stayed(d, after))
    ensures HealthAccepted(d, health) <==>
              || (health.Passing? && (d.phase == Deploying || d.phase == Degraded))
              || (health.Unhealthy? && (d.phase == Deploying || d.phase == Healthy))
              || health.Starting? || health.Unknown?
  {}

  /** A failed build fails a building deployment, a successful one deploys it with the
      image of its runtime and revision, if there is one. */
  lemma BuildByPhase(d: Deployment, build: BuildResult, at: Instant)
    requires Good(d)
    ensures var after := RecordBuild(d, build, at);
            if d.phase != Building then after == d
            else
              && after.build == Some(build)
              && (if build.BuildFailed? then MovedOn(d, after, Failed, at) && after.image == d.image
                  else if d.runtime.production && d.runtime.ociImage.Some?
                  then MovedOn(d, after, Deploying, at) && after.image == Some(Image(d.runtime.ociImage.value, d.revision.sourceSha))
                  else Stayed(d, after) && after.image == d.image)
    ensures BuildAccepted(d, build) <==>
              d.phase == Building && (build.BuildFailed? || (d.runtime.production && d.runtime.ociImage.Some?))
  {}

  /** Building starts from pending, superseding from healthy, rolling back from
      healthy, degraded, failed or superseded. */
  lemma MarksByPhase(d: Deployment, reason: Note, at: Instant)
    requires Good(d)
    ensures if d.phase == Pending then MovedOn(d, StartBuild(d, at), Building, at) else StartBuild(d, at) == d
    ensures if d.phase == Healthy then MovedOn(d, MarkSuperseded(d, at), Superseded, at) else MarkSuperseded(d, at) == d
    ensures if d.phase == Healthy || d.phase == Degraded || d.phase == Failed || d.phase == Superseded
            then MovedOn(d, MarkRolledBack(d, reason, at), RolledBack, at)
                 && MarkRolledBack(d, reason, at).transitions[|d.transitions|].reason == Some(reason)
            else MarkRolledBack(d, reason, at) == d
  {}

  /** Where each phase can be entered from; nothing leads back to pending and nothing
      out of rolled back. */
  lemma EnteredFrom(from: Phase, to: Phase)
    ensures CanMove(from, to) <==>
              || (to == Building && from == Pending)
              || (to == Deploying && from == Building)
              || (to == Healthy && (from == Deploying || from == Degraded))
              || (to == Degraded && (from == Deploying || from == Healthy))
              || (to == Failed && (from == Pending || from == Building || from == Deploying || from == Degraded))
              || (to == Superseded && from == Healthy)
              || (to == RolledBack && (from == Healthy || from == Degraded || from == Failed || from == Superseded))
  {}
}
