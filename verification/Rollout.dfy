/** Rollout, planned rollback and domain attachment over one environment. */
module Rollouts {
  import opened Prelude
  import opened Utf8
  import opened Approvals
  import opened Deployments

  type Deps = seq<Deployment>

  /** A hostname; `routable` is its syntactic check. */
  datatype Domain = Domain(hostname: string, routable: bool, deployment: Option<DeploymentId>)

  datatype RollbackKind = Source | DeploymentImage | Configuration

  datatype Plan = Plan(kind: RollbackKind, from: DeploymentId, to: DeploymentId, migrationInDelta: bool)

  // ---------------------------------------------------------------------
  // Lookup and selection
  // ---------------------------------------------------------------------

  /** `get`: the first deployment with this id. */
  function Find(ds: Deps, id: DeploymentId): (r: Option<nat>)
    ensures r.Some? ==> r.value < |ds| && ds[r.value].id == id
    ensures r.Some? ==> forall i :: 0 <= i < r.value ==> ds[i].id != id
    ensures r.None? ==> forall i :: 0 <= i < |ds| ==> ds[i].id != id
  {
    if ds == [] then None
    else
      var n := |ds| - 1;
      var earlier := Find(ds[..n], id);
      if earlier.Some? then earlier else if ds[n].id == id then Some(n) else None
  }

  predicate Eligible(d: Deployment) {
    (d.phase == Healthy || d.phase == Superseded) && d.image.Some?
  }

  ghost predicate LastEligible(ds: Deps, i: nat)
    requires i < |ds|
  {
    && (ds[i].phase == Healthy || ds[i].phase == Superseded) && ds[i].image.Some?
    && forall j :: i < j < |ds| ==> !((ds[j].phase == Healthy || ds[j].phase == Superseded) && ds[j].image.Some?)
  }

  /** `rollback_target`: the latest eligible deployment. */
  function LatestEligible(ds: Deps): (r: Option<DeploymentId>)
    ensures r.Some? ==> exists i :: 0 <= i < |ds| && ds[i].id == r.value && LastEligible(ds, i)
    ensures r.None? ==> forall i :: 0 <= i < |ds| ==> !Eligible(ds[i])
  {
    if ds == [] then None
    else if Eligible(ds[|ds| - 1]) then Some(ds[|ds| - 1].id)
    else LatestEligible(ds[..|ds| - 1])
  }

  /** `plan_rollback`. */
  function PlanFor(kind: RollbackKind, from: Deployment, to: Deployment): Option<Plan> {
    if from.id == to.id || to.image.None? then None
    else Some(Plan(kind, from.id, to.id, from.revision.introducesMigration))
  }

  predicate SafeTarget(p: Phase) {
    p.Superseded? || p.RolledBack? || p.Healthy?
  }

  function Repointed(domains: seq<Domain>, from: DeploymentId, to: DeploymentId): seq<Domain> {
    seq(|domains|, i requires 0 <= i < |domains| =>
      if domains[i].deployment == Some(from) then domains[i].(deployment := Some(to)) else domains[i])
  }

  // ---------------------------------------------------------------------
  // Promotion and rollback on the history
  // ---------------------------------------------------------------------

  predicate CanPromote(ds: Deps, id: DeploymentId) {
    Find(ds, id).Some? && ds[Find(ds, id).value].phase == Healthy
  }

  /** The previous deployment is superseded if it is still healthy. */
  function Promoted(ds: Deps, current: Option<DeploymentId>, id: DeploymentId, at: Instant): Deps {
    if current.Some? && current.value != id && Find(ds, current.value).Some?
    then
      var p := Find(ds, current.value).value;
      if ds[p].phase == Healthy then ds[p := MarkSuperseded(ds[p], at)] else ds
    else ds
  }

  predicate CanRollBack(ds: Deps, plan: Plan, approval: Approval) {
    && Granted(approval) && plan.kind == DeploymentImage
    && Find(ds, plan.to).Some? && SafeTarget(ds[Find(ds, plan.to).value].phase)
  }

  function SourceRolledBack(ds: Deps, plan: Plan, approval: Approval, at: Instant): Deps {
    var f := Find(ds, plan.from);
    if f.Some? && Serving(ds[f.value].phase)
    then ds[f.value := MarkRolledBack(ds[f.value], RolledBackTo(plan.to, approval.approver), at)]
    else ds
  }

  function TargetRestored(ds: Deps, plan: Plan, was: Phase, at: Instant): Deps {
    var t := Find(ds, plan.to);
    if t.Some? then ds[t.value := Restored(ds[t.value], was, at)] else ds
  }

  /** Source rolled back, target healthy again. */
  function RolledOver(ds: Deps, plan: Plan, approval: Approval, at: Instant): Deps
    requires CanRollBack(ds, plan, approval)
  {
    TargetRestored(SourceRolledBack(ds, plan, approval, at), plan, ds[Find(ds, plan.to).value].phase, at)
  }

  // ---------------------------------------------------------------------
  // The environment as a state machine
  // ---------------------------------------------------------------------

  datatype Env = Env(deployments: Deps, current: Option<DeploymentId>, domains: seq<Domain>, plans: set<Plan>)

  const NEW_ENV: Env := Env([], None, [], {})

  datatype Step =
    | Begin(id: DeploymentId, revision: Revision, runtime: Runtime, at: Instant)
    | Build(id: DeploymentId, at: Instant)
    | Built(id: DeploymentId, result: BuildResult, at: Instant)
    | Health(id: DeploymentId, health: HealthStatus, at: Instant)
    | Promote(id: DeploymentId, at: Instant)
    | MakePlan(kind: RollbackKind, from: DeploymentId, to: DeploymentId)
    | Execute(plan: Plan, approval: Approval, at: Instant)
    | AddDomain(hostname: string, routable: bool)
    | Attach(domain: nat, id: DeploymentId, approval: Approval)

  /** Ids are fresh, and only planned rollbacks are executed. */
  predicate Enabled(e: Env, s: Step) {
    && (s.Begin? ==> Find(e.deployments, s.id).None?)
    && (s.Execute? ==> s.plan in e.plans)
  }

  /** `get_mut` and a change through it. */
  function Changed(ds: Deps, id: DeploymentId, change: Deployment -> Deployment): Deps {
    match Find(ds, id)
    case None => ds
    case Some(i) => ds[i := change(ds[i])]
  }

  function Next(e: Env, s: Step): Env {
    var ds := e.deployments;
    match s
    case Begin(id, revision, runtime, at) =>
      if runtime.production
      then e.(deployments := ds + [NewDeployment(id, revision, runtime, LatestEligible(ds), at)])
      else e
    case Build(id, at) => e.(deployments := Changed(ds, id, d => StartBuild(d, at)))
    case Built(id, result, at) => e.(deployments := Changed(ds, id, d => RecordBuild(d, result, at)))
    case Health(id, health, at) => e.(deployments := Changed(ds, id, d => RecordHealth(d, health, at)))
    case Promote(id, at) =>
      if CanPromote(ds, id) then e.(deployments := Promoted(ds, e.current, id, at), current := Some(id)) else e
    case MakePlan(kind, from, to) =>
      if Find(ds, from).Some? && Find(ds, to).Some?
         && PlanFor(kind, ds[Find(ds, from).value], ds[Find(ds, to).value]).Some?
      then e.(plans := e.plans + {PlanFor(kind, ds[Find(ds, from).value], ds[Find(ds, to).value]).value})
      else e
    case Execute(plan, approval, at) =>
      if CanRollBack(ds, plan, approval)
      then e.(deployments := RolledOver(ds, plan, approval, at),
              current := Some(plan.to),
              domains := Repointed(e.domains, plan.from, plan.to))
      else e
    case AddDomain(hostname, routable) => e.(domains := e.domains + [Domain(hostname, routable, None)])
    case Attach(k, id, approval) =>
      if k < |e.domains| && Granted(approval) && e.domains[k].routable && CanPromote(ds, id)
      then e.(domains := e.domains[k := e.domains[k].(deployment := Some(id))])
      else e
  }

  // ---------------------------------------------------------------------
  // The invariant
  // ---------------------------------------------------------------------

  predicate DistinctIds(ds: Deps) {
    forall i, j :: 0 <= i < j < |ds| ==> ds[i].id != ds[j].id
  }

  /** Some entry before `bound` has this id and is behind the health gate. */
  predicate GatedBefore(ds: Deps, id: DeploymentId, bound: nat)
    requires bound <= |ds|
  {
    exists i :: 0 <= i < bound && ds[i].id == id && Gated(ds[i])
  }

  predicate ServingEntry(ds: Deps, id: DeploymentId) {
    exists i :: 0 <= i < |ds| && ds[i].id == id && Serving(ds[i].phase)
  }

  predicate Inv(e: Env) {
    var ds := e.deployments;
    && DistinctIds(ds)
    && (forall i :: 0 <= i < |ds| ==> Good(ds[i]))
    && (forall i :: 0 <= i < |ds| && ds[i].rollbackTarget.Some? ==> GatedBefore(ds, ds[i].rollbackTarget.value, i))
    && (e.current.Some? ==> ServingEntry(ds, e.current.value))
    && (forall k :: 0 <= k < |e.domains| && e.domains[k].deployment.Some? ==>
          GatedBefore(ds, e.domains[k].deployment.value, |ds|))
    && (forall p :: p in e.plans ==> p.from != p.to)
  }

  lemma FindIs(ds: Deps, i: nat)
    requires i < |ds| && DistinctIds(ds)
    ensures Find(ds, ds[i].id) == Some(i)
  {}

  lemma GatedBeforeKept(ds: Deps, i: nat, d: Deployment, id: DeploymentId, bound: nat)
    requires i < |ds| && bound <= |ds| && Evolves(ds[i], d) && GatedBefore(ds, id, bound)
    ensures GatedBefore(ds[i := d], id, bound)
  {
    var j :| 0 <= j < bound && ds[j].id == id && Gated(ds[j]);
    assert ds[i := d][j].id == id && Gated(ds[i := d][j]);
  }

  /** Letting one deployment evolve keeps everything, as long as the current one
      still serves. */
  lemma ReplaceKeepsInv(e: Env, i: nat, d: Deployment)
    requires Inv(e) && i < |e.deployments| && Evolves(e.deployments[i], d)
    requires e.current == Some(d.id) ==> Serving(d.phase)
    ensures Inv(e.(deployments := e.deployments[i := d]))
  {
    var ds, after := e.deployments, e.deployments[i := d];
    forall k | 0 <= k < |ds| && after[k].rollbackTarget.Some?
      ensures GatedBefore(after, after[k].rollbackTarget.value, k)
    {
      GatedBeforeKept(ds, i, d, ds[k].rollbackTarget.value, k);
    }
    forall k | 0 <= k < |e.domains| && e.domains[k].deployment.Some?
      ensures GatedBefore(after, e.domains[k].deployment.value, |after|)
    {
      GatedBeforeKept(ds, i, d, e.domains[k].deployment.value, |ds|);
    }
    if e.current.Some? {
      var c :| 0 <= c < |ds| && ds[c].id == e.current.value && Serving(ds[c].phase);
      assert after[c].id == e.current.value && Serving(after[c].phase);
    }
  }

  lemma AppendKeepsInv(e: Env, d: Deployment)
    requires Inv(e) && Good(d) && Find(e.deployments, d.id).None?
    requires d.rollbackTarget.Some? ==> GatedBefore(e.deployments, d.rollbackTarget.value, |e.deployments|)
    ensures Inv(e.(deployments := e.deployments + [d]))
  {
    var ds, after := e.deployments, e.deployments + [d];
    forall k | 0 <= k < |after| && after[k].rollbackTarget.Some?
      ensures GatedBefore(after, after[k].rollbackTarget.value, k)
    {
      WiderGated(ds, after, after[k].rollbackTarget.value, k, k);
    }
    forall k | 0 <= k < |e.domains| && e.domains[k].deployment.Some?
      ensures GatedBefore(after, e.domains[k].deployment.value, |after|)
    {
      WiderGated(ds, after, e.domains[k].deployment.value, |ds|, |after|);
    }
    if e.current.Some? {
      var c :| 0 <= c < |ds| && ds[c].id == e.current.value && Serving(ds[c].phase);
      assert after[c].id == e.current.value;
    }
  }

  lemma BeginKeepsInv(e: Env, s: Step)
    requires Inv(e) && s.Begin? && Enabled(e, s)
    ensures Inv(Next(e, s))
  {
    var ds := e.deployments;
    var target := LatestEligible(ds);
    if target.Some? {
      var j :| 0 <= j < |ds| && ds[j].id == target.value && LastEligible(ds, j);
      assert Gated(ds[j]);
    }
    AppendKeepsInv(e, NewDeployment(s.id, s.revision, s.runtime, target, s.at));
  }

  lemma WiderGated(ds: Deps, after: Deps, id: DeploymentId, bound: nat, wider: nat)
    requires bound <= |ds| && ds <= after && bound <= wider <= |after| && GatedBefore(ds, id, bound)
    ensures GatedBefore(after, id, wider)
  {
    var j :| 0 <= j < bound && ds[j].id == id && Gated(ds[j]);
    assert after[j] == ds[j];
  }

  lemma OneDeploymentKeepsInv(e: Env, s: Step)
    requires Inv(e) && (s.Build? || s.Built? || s.Health?)
    ensures Inv(Next(e, s))
  {
    var f := Find(e.deployments, s.id);
    if f.Some? {
      var i := f.value;
      var d := e.deployments[i];
      CurrentServes(e, i);
      match s
      case Build(_, at) =>
        MoveEvolves(d, Building, None, at);
        ReplaceKeepsInv(e, i, StartBuild(d, at));
      case Built(_, result, at) =>
        RecordBuildEvolves(d, result, at);
        ReplaceKeepsInv(e, i, RecordBuild(d, result, at));
      case Health(_, health, at) =>
        RecordHealthEvolves(d, health, at);
        ReplaceKeepsInv(e, i, RecordHealth(d, health, at));
    }
  }

  lemma CurrentServes(e: Env, i: nat)
    requires Inv(e) && i < |e.deployments|
    ensures e.current == Some(e.deployments[i].id) ==> Serving(e.deployments[i].phase)
  {
    if e.current == Some(e.deployments[i].id) {
      var c :| 0 <= c < |e.deployments| && e.deployments[c].id == e.current.value && Serving(e.deployments[c].phase);
      assert c == i;
    }
  }

  lemma PromoteKeepsInv(e: Env, s: Step)
    requires Inv(e) && s.Promote?
    ensures Inv(Next(e, s))
  {
    var ds := e.deployments;
    if CanPromote(ds, s.id) {
      var i := Find(ds, s.id).value;
      assert ServingEntry(ds, s.id);
      var mid := e.(current := Some(s.id));
      assert Inv(mid);
      if e.current.Some? && e.current.value != s.id && Find(ds, e.current.value).Some? {
        var p := Find(ds, e.current.value).value;
        if ds[p].phase == Healthy {
          MoveEvolves(ds[p], Superseded, Some(Text("newer revision promoted")), s.at);
          ReplaceKeepsInv(mid, p, MarkSuperseded(ds[p], s.at));
        }
      }
    }
  }

  lemma SourceKeepsInv(e: Env, plan: Plan, approval: Approval, at: Instant, t: nat)
    requires Inv(e) && e.current.None? && t < |e.deployments| && e.deployments[t].id == plan.to && plan.from != plan.to
    ensures var ds1 := SourceRolledBack(e.deployments, plan, approval, at);
            && Inv(e.(deployments := ds1)) && |ds1| == |e.deployments| && ds1[t] == e.deployments[t]
  {
    var ds := e.deployments;
    var f := Find(ds, plan.from);
    if f.Some? && Serving(ds[f.value].phase) {
      MoveEvolves(ds[f.value], RolledBack, Some(RolledBackTo(plan.to, approval.approver)), at);
      ReplaceKeepsInv(e, f.value, MarkRolledBack(ds[f.value], RolledBackTo(plan.to, approval.approver), at));
    }
  }

  lemma TargetKeepsInv(e: Env, plan: Plan, at: Instant, t: nat)
    requires Inv(e) && e.current.None? && t < |e.deployments| && e.deployments[t].id == plan.to
    requires SafeTarget(e.deployments[t].phase)
    ensures var ds2 := TargetRestored(e.deployments, plan, e.deployments[t].phase, at);
            && Inv(e.(deployments := ds2)) && ServingEntry(ds2, plan.to) && GatedBefore(ds2, plan.to, |ds2|)
  {
    var d := e.deployments[t];
    FindIs(e.deployments, t);
    RestoredEvolves(d, d.phase, at);
    ReplaceKeepsInv(e, t, Restored(d, d.phase, at));
    var ds2 := TargetRestored(e.deployments, plan, d.phase, at);
    assert ds2[t].id == plan.to && Serving(ds2[t].phase) && Gated(ds2[t]);
  }

  /** The rolled-back source may have been current; the target takes its place. */
  lemma ExecuteKeepsInv(e: Env, s: Step)
    requires Inv(e) && s.Execute? && Enabled(e, s)
    ensures Inv(Next(e, s))
  {
    var ds, plan := e.deployments, s.plan;
    if CanRollBack(ds, plan, s.approval) {
      var t := Find(ds, plan.to).value;
      var idle := e.(current := None);
      SourceKeepsInv(idle, plan, s.approval, s.at, t);
      var ds1 := SourceRolledBack(ds, plan, s.approval, s.at);
      TargetKeepsInv(idle.(deployments := ds1), plan, s.at, t);
      RepointKeeps(e.domains, RolledOver(ds, plan, s.approval, s.at), plan.from, plan.to);
    }
  }

  lemma RepointKeeps(domains: seq<Domain>, ds: Deps, from: DeploymentId, to: DeploymentId)
    requires GatedBefore(ds, to, |ds|)
    requires forall k :: 0 <= k < |domains| && domains[k].deployment.Some? ==>
               GatedBefore(ds, domains[k].deployment.value, |ds|)
    ensures var after := Repointed(domains, from, to);
            forall k :: 0 <= k < |after| && after[k].deployment.Some? ==> GatedBefore(ds, after[k].deployment.value, |ds|)
  {}

  lemma OthersKeepInv(e: Env, s: Step)
    requires Inv(e) && (s.MakePlan? || s.AddDomain? || s.Attach?)
    ensures Inv(Next(e, s))
  {
    if s.Attach? && CanPromote(e.deployments, s.id) {
      assert Gated(e.deployments[Find(e.deployments, s.id).value]);
      assert GatedBefore(e.deployments, s.id, |e.deployments|);
    }
  }

  lemma InvKept(e: Env, s: Step)
    requires Inv(e) && Enabled(e, s)
    ensures Inv(Next(e, s))
  {
    match s
    case Begin(_, _, _, _) => BeginKeepsInv(e, s);
    case Promote(_, _) => PromoteKeepsInv(e, s);
    case Execute(_, _, _) => ExecuteKeepsInv(e, s);
    case MakePlan(_, _, _) => OthersKeepInv(e, s);
    case AddDomain(_, _) => OthersKeepInv(e, s);
    case Attach(_, _, _) => OthersKeepInv(e, s);
    case _ => OneDeploymentKeepsInv(e, s);
  }

  // ---------------------------------------------------------------------
  // Every run
  // ---------------------------------------------------------------------

  ghost predicate Run(steps: seq<Step>, states: seq<Env>) {
    && |states| == |steps| + 1 && states[0] == NEW_ENV
    && forall i :: 0 <= i < |steps| ==>
         Enabled(states[i], steps[i]) && states[i + 1] == Next(states[i], steps[i])
  }

  lemma {:induction false} ReachableInv(steps: seq<Step>, states: seq<Env>, n: nat)
    requires Run(steps, states) && n <= |steps|
    ensures Inv(states[n])
  {
    if n > 0 {
      ReachableInv(steps, states, n - 1);
      InvKept(states[n - 1], steps[n - 1]);
    }
  }

  /** In every run the current deployment is a serving entry of the history, and it
      and the deployment of every domain have an image and a recorded pass of the
      health gate. */
  lemma TrafficIsGated(steps: seq<Step>, states: seq<Env>, n: nat)
    requires Run(steps, states) && n <= |steps|
    ensures var e, ds := states[n], states[n].deployments;
            && DistinctIds(ds)
            && (e.current.Some? ==> exists i :: 0 <= i < |ds| && ds[i].id == e.current.value && Serving(ds[i].phase) && Gated(ds[i]))
            && (forall k :: 0 <= k < |e.domains| && e.domains[k].deployment.Some? ==>
                  exists i :: 0 <= i < |ds| && ds[i].id == e.domains[k].deployment.value && Gated(ds[i]))
  {
    ReachableInv(steps, states, n);
    var e, ds := states[n], states[n].deployments;
    if e.current.Some? {
      var i :| 0 <= i < |ds| && ds[i].id == e.current.value && Serving(ds[i].phase);
      assert Good(ds[i]);
    }
    forall k | 0 <= k < |e.domains| && e.domains[k].deployment.Some?
      ensures GatedBefore(ds, e.domains[k].deployment.value, |ds|)
    {}
  }

  /** A promotion leaves one deployment current and takes the one before out of
      service, unless that one had already degraded. */
  lemma PromoteHandsOver(e: Env, id: DeploymentId, at: Instant, i: nat)
    requires Inv(e) && CanPromote(e.deployments, id) && i < |e.deployments|
    ensures var after := Next(e, Promote(id, at));
            && after.current == Some(id) && |after.deployments| == |e.deployments|
            && var d, d' := e.deployments[i], after.deployments[i];
               if e.current == Some(d.id) && d.id != id
               then d'.phase == (if d.phase == Healthy then Superseded else Degraded)
               else d' == d
  {
    CurrentServes(e, i);
    FindIs(e.deployments, i);
  }

  /** An executed rollback makes the target the healthy current deployment, takes
      the source out of service and moves every one of its domains. */
  lemma RollbackHandsOver(e: Env, plan: Plan, approval: Approval, at: Instant, i: nat)
    requires Inv(e) && plan in e.plans && CanRollBack(e.deployments, plan, approval) && i < |e.deployments|
    ensures var after := Next(e, Execute(plan, approval, at));
            && after.current == Some(plan.to) && |after.deployments| == |e.deployments|
            && (e.deployments[i].id == plan.to ==> after.deployments[i].phase == Healthy)
            && (e.deployments[i].id == plan.from ==> !Serving(after.deployments[i].phase))
            && (e.deployments[i].id != plan.to && e.deployments[i].id != plan.from ==>
                  after.deployments[i] == e.deployments[i])
            && |after.domains| == |e.domains|
            && forall k :: 0 <= k < |e.domains| ==>
                 after.domains[k].deployment ==
                   if e.domains[k].deployment == Some(plan.from) then Some(plan.to) else e.domains[k].deployment
  {
    RolledOverEntries(e.deployments, plan, approval, at, i);
  }

  lemma RolledOverEntries(ds: Deps, plan: Plan, approval: Approval, at: Instant, i: nat)
    requires DistinctIds(ds) && plan.from != plan.to && CanRollBack(ds, plan, approval) && i < |ds|
    ensures var after := RolledOver(ds, plan, approval, at);
            && |after| == |ds|
            && (ds[i].id == plan.to ==> after[i].phase == Healthy)
            && (ds[i].id == plan.from ==> !Serving(after[i].phase))
            && (ds[i].id != plan.to && ds[i].id != plan.from ==> after[i] == ds[i])
  {
    FindIs(ds, i);
    var ds1 := SourceRolledBack(ds, plan, approval, at);
    assert DistinctIds(ds1);
    FindIs(ds1, Find(ds, plan.to).value);
  }

  /** With an approval by name and an image plan, traffic moves if and only if the target
      is superseded, rolled back or healthy. */
  lemma TrafficMovesExactlyWhen(e: Env, plan: Plan, approval: Approval, at: Instant, t: nat)
    requires Inv(e) && plan in e.plans && t < |e.deployments| && e.deployments[t].id == plan.to
    requires plan.kind == DeploymentImage && approval.approved && !OnlySpaces(approval.approver.bytes)
    ensures var phase, after := e.deployments[t].phase, Next(e, Execute(plan, approval, at));
            && (phase == Superseded || phase == RolledBack || phase == Healthy ==>
                  after.current == Some(plan.to) && |after.deployments| == |e.deployments| && after.deployments[t].phase == Healthy)
            && (!(phase == Superseded || phase == RolledBack || phase == Healthy) ==> after == e)
  {
    GrantedExactlyWhen(approval);
    FindIs(e.deployments, t);
    if CanRollBack(e.deployments, plan, approval) {
      RollbackHandsOver(e, plan, approval, at, t);
    }
  }

  /** A rollback or an attachment without an approval by name changes nothing. */
  lemma UnapprovedChangesNothing(e: Env, plan: Plan, k: nat, id: DeploymentId, approval: Approval, at: Instant)
    requires !approval.approved || OnlySpaces(approval.approver.bytes)
    ensures Next(e, Execute(plan, approval, at)) == e && Next(e, Attach(k, id, approval)) == e
  {
    GrantedExactlyWhen(approval);
  }

  /** A promotion goes through for a healthy deployment and for no other. */
  lemma PromotesExactlyWhen(e: Env, i: nat, at: Instant)
    requires Inv(e) && i < |e.deployments|
    ensures CanPromote(e.deployments, e.deployments[i].id) <==> e.deployments[i].phase == Healthy
    ensures var after := Next(e, Promote(e.deployments[i].id, at));
            if e.deployments[i].phase == Healthy then after.current == Some(e.deployments[i].id) else after == e
  {
    FindIs(e.deployments, i);
  }

  /** A plan leads from one deployment to another that has an image. */
  lemma PlanExactlyWhen(kind: RollbackKind, from: Deployment, to: Deployment)
    ensures PlanFor(kind, from, to)
         == if from.id != to.id && to.image.Some? then Some(Plan(kind, from.id, to.id, from.revision.introducesMigration))
            else None
  {}

  /** In every run a promotion that superseded a healthy predecessor can be undone: the
      plan back can be made and, approved by name, executed; then the predecessor is
      healthy and current, the promoted deployment is rolled back, and its domains
      point to the predecessor. */
  lemma PromotionCanBeUndone(steps: seq<Step>, states: seq<Env>, n: nat, i: nat, j: nat, approval: Approval, at: Instant)
    requires Run(steps, states) && n < |steps| && steps[n].Promote?
    requires var ds := states[n].deployments;
             && i < |ds| && j < |ds| && ds[i].id == steps[n].id && ds[i].phase == Healthy
             && states[n].current == Some(ds[j].id) && ds[j].phase == Healthy && i != j
    requires approval.approved && !OnlySpaces(approval.approver.bytes)
    ensures var e, id, p := states[n + 1], steps[n].id, states[n].deployments[j].id;
            var planned := Next(e, MakePlan(DeploymentImage, id, p));
            var plan := Plan(DeploymentImage, id, p, e.deployments[i].revision.introducesMigration);
            var after := Next(planned, Execute(plan, approval, at));
            && e.current == Some(id) && |e.deployments| == |states[n].deployments| && e.deployments[j].phase == Superseded
            && plan in planned.plans
            && after.current == Some(p) && |after.deployments| == |e.deployments|
            && after.deployments[j].id == p && after.deployments[j].phase == Healthy
            && after.deployments[i].id == id && after.deployments[i].phase == RolledBack
            && |after.domains| == |e.domains|
            && forall k :: 0 <= k < |e.domains| && e.domains[k].deployment == Some(id) ==> after.domains[k].deployment == Some(p)
  {
    ReachableInv(steps, states, n);
    ReachableInv(steps, states, n + 1);
    var e0, e, at0 := states[n], states[n + 1], steps[n].at;
    FindIs(e0.deployments, i);
    PromoteHandsOver(e0, steps[n].id, at0, i);
    PromoteHandsOver(e0, steps[n].id, at0, j);
    PromotionLeaves(e0, i, j, at0);
    UndoPromotion(e, i, j, approval, at);
  }

  lemma PromotionLeaves(e: Env, i: nat, j: nat, at: Instant)
    requires Inv(e) && i < |e.deployments| && j < |e.deployments| && i != j
    requires e.deployments[i].phase == Healthy && e.deployments[j].phase == Healthy && e.current == Some(e.deployments[j].id)
    ensures var ds, after := e.deployments, Next(e, Promote(e.deployments[i].id, at));
            && |after.deployments| == |ds| && after.deployments[i] == ds[i]
            && after.deployments[j].id == ds[j].id && after.deployments[j].phase == Superseded
  {
    FindIs(e.deployments, i);
    FindIs(e.deployments, j);
  }

  lemma UndoPromotion(e: Env, i: nat, j: nat, approval: Approval, at: Instant)
    requires Inv(e) && i < |e.deployments| && j < |e.deployments| && i != j
    requires e.deployments[i].phase == Healthy && e.deployments[j].phase == Superseded
    requires approval.approved && !OnlySpaces(approval.approver.bytes)
    ensures var id, p := e.deployments[i].id, e.deployments[j].id;
            var planned := Next(e, MakePlan(DeploymentImage, id, p));
            var plan := Plan(DeploymentImage, id, p, e.deployments[i].revision.introducesMigration);
            var after := Next(planned, Execute(plan, approval, at));
            && plan in planned.plans
            && after.current == Some(p) && |after.deployments| == |e.deployments|
            && after.deployments[j].id == p && after.deployments[j].phase == Healthy
            && after.deployments[i].id == id && after.deployments[i].phase == RolledBack
            && |after.domains| == |e.domains|
            && forall k :: 0 <= k < |e.domains| && e.domains[k].deployment == Some(id) ==> after.domains[k].deployment == Some(p)
  {
    var id, p := e.deployments[i].id, e.deployments[j].id;
    var plan := Plan(DeploymentImage, id, p, e.deployments[i].revision.introducesMigration);
    PlanBack(e, i, j);
    var planned := e.(plans := e.plans + {plan});
    InvKept(e, MakePlan(DeploymentImage, id, p));
    ExecuteBack(planned, plan, i, j, approval, at);
  }

  lemma PlanBack(e: Env, i: nat, j: nat)
    requires Inv(e) && i < |e.deployments| && j < |e.deployments| && i != j && e.deployments[j].phase == Superseded
    ensures var id, p := e.deployments[i].id, e.deployments[j].id;
            Next(e, MakePlan(DeploymentImage, id, p))
            == e.(plans := e.plans + {Plan(DeploymentImage, id, p, e.deployments[i].revision.introducesMigration)})
  {
    FindIs(e.deployments, i);
    FindIs(e.deployments, j);
    assert Good(e.deployments[j]);
    PlanExactlyWhen(DeploymentImage, e.deployments[i], e.deployments[j]);
  }

  lemma ExecuteBack(e: Env, plan: Plan, i: nat, j: nat, approval: Approval, at: Instant)
    requires Inv(e) && plan in e.plans && i < |e.deployments| && j < |e.deployments| && i != j
    requires plan.kind == DeploymentImage && plan.from == e.deployments[i].id && plan.to == e.deployments[j].id
    requires e.deployments[i].phase == Healthy && e.deployments[j].phase == Superseded
    requires approval.approved && !OnlySpaces(approval.approver.bytes)
    ensures var after := Next(e, Execute(plan, approval, at));
            && after.current == Some(plan.to) && |after.deployments| == |e.deployments|
            && after.deployments[j].id == plan.to && after.deployments[j].phase == Healthy
            && after.deployments[i].id == plan.from && after.deployments[i].phase == RolledBack
            && |after.domains| == |e.domains|
            && forall k :: 0 <= k < |e.domains| && e.domains[k].deployment == Some(plan.from) ==>
                 after.domains[k].deployment == Some(plan.to)
  {
    CanGoBack(e.deployments, plan, j, approval);
    ExecuteResult(e, plan, approval, at);
    RolledOverEntries(e.deployments, plan, approval, at, j);
    RolledOverIds(e.deployments, plan, approval, at, i, j);
  }

  lemma CanGoBack(ds: Deps, plan: Plan, j: nat, approval: Approval)
    requires DistinctIds(ds) && j < |ds| && ds[j].phase == Superseded && plan.kind == DeploymentImage && plan.to == ds[j].id
    requires approval.approved && !OnlySpaces(approval.approver.bytes)
    ensures CanRollBack(ds, plan, approval)
  {
    GrantedExactlyWhen(approval);
    FindIs(ds, j);
  }

  lemma ExecuteResult(e: Env, plan: Plan, approval: Approval, at: Instant)
    requires CanRollBack(e.deployments, plan, approval)
    ensures Next(e, Execute(plan, approval, at))
         == e.(deployments := RolledOver(e.deployments, plan, approval, at), current := Some(plan.to),
               domains := Repointed(e.domains, plan.from, plan.to))
  {}

  lemma RolledOverIds(ds: Deps, plan: Plan, approval: Approval, at: Instant, i: nat, j: nat)
    requires DistinctIds(ds) && CanRollBack(ds, plan, approval) && i < |ds| && j < |ds| && i != j
    requires ds[i].id == plan.from && ds[j].id == plan.to && Serving(ds[i].phase)
    ensures var after := RolledOver(ds, plan, approval, at);
            && |after| == |ds| && after[i].id == plan.from && after[j].id == plan.to && after[i].phase == RolledBack
            && LastReason(after[i]) == Some(RolledBackTo(plan.to, approval.approver))
            && after[j].transitions == if ds[j].phase == Healthy then ds[j].transitions
                                       else ds[j].transitions + [Transition(ds[j].phase, Healthy, at, Some(Text("restored by rollback")))]
  {
    FindIs(ds, i);
    FindIs(ds, j);
    var ds1 := SourceRolledBack(ds, plan, approval, at);
    assert DistinctIds(ds1);
    FindIs(ds1, j);
  }

  function LastReason(d: Deployment): Option<Note> {
    if d.transitions == [] then None else d.transitions[|d.transitions| - 1].reason
  }

  // ---------------------------------------------------------------------
  // Rollback links
  // ---------------------------------------------------------------------

  predicate LinksBack(ds: Deps) {
    && DistinctIds(ds)
    && forall i :: 0 <= i < |ds| && ds[i].rollbackTarget.Some? ==> GatedBefore(ds, ds[i].rollbackTarget.value, i)
  }

  lemma TargetIsEarlier(ds: Deps, i: nat)
    requires LinksBack(ds) && i < |ds| && ds[i].rollbackTarget.Some?
    ensures var f := Find(ds, ds[i].rollbackTarget.value);
            f.Some? && f.value < i && Gated(ds[f.value])
  {
    var j :| 0 <= j < i && ds[j].id == ds[i].rollbackTarget.value && Gated(ds[j]);
    FindIs(ds, j);
  }

  /** The positions met when the rollback links are followed from entry `i`. */
  function Chain(ds: Deps, i: nat): (c: seq<nat>)
    requires LinksBack(ds) && i < |ds|
    ensures c != [] && |c| <= i + 1
    decreases i
  {
    match ds[i].rollbackTarget
    case None => [i]
    case Some(id) =>
      TargetIsEarlier(ds, i);
      [i] + Chain(ds, Find(ds, id).value)
  }

  lemma {:induction false} ChainDescends(ds: Deps, i: nat, k: nat)
    requires LinksBack(ds) && i < |ds| && k < |Chain(ds, i)|
    ensures Chain(ds, i)[0] == i
    ensures Chain(ds, i)[k] <= i - k && (k > 0 ==> Gated(ds[Chain(ds, i)[k]]))
    decreases i
  {
    if ds[i].rollbackTarget.Some? {
      TargetIsEarlier(ds, i);
      var j := Find(ds, ds[i].rollbackTarget.value).value;
      assert Chain(ds, i) == [i] + Chain(ds, j);
      ChainDescends(ds, j, 0);
      if k > 1 {
        ChainDescends(ds, j, k - 1);
      }
    }
  }

  /** In every run the links from any entry end, and every entry they lead to lies
      earlier and is behind the gate. */
  lemma LinksEnd(steps: seq<Step>, states: seq<Env>, n: nat, i: nat, k: nat)
    requires Run(steps, states) && n <= |steps| && i < |states[n].deployments|
    ensures var ds := states[n].deployments;
            && LinksBack(ds) && |Chain(ds, i)| <= i + 1
            && (0 < k < |Chain(ds, i)| ==> Chain(ds, i)[k] < i && Gated(ds[Chain(ds, i)[k]]))
  {
    ReachableInv(steps, states, n);
    if 0 < k < |Chain(states[n].deployments, i)| {
      ChainDescends(states[n].deployments, i, k);
    }
  }

  // ---------------------------------------------------------------------
  // The call kept out of the step set
  // ---------------------------------------------------------------------

  /** Marking a deployment rolled back directly keeps the invariant exactly if the
      deployment is behind the gate and not current; on an ungated failure it
      opens a way around the gate. */
  lemma DirectMarkExactlyWhen(e: Env, i: nat, reason: Note, at: Instant)
    requires Inv(e) && i < |e.deployments| && CanMove(e.deployments[i].phase, RolledBack)
    ensures var d := e.deployments[i];
            Inv(e.(deployments := e.deployments[i := MarkRolledBack(d, reason, at)]))
            <==> Gated(d) && e.current != Some(d.id)
  {
    var d := e.deployments[i];
    var marked := MarkRolledBack(d, reason, at);
    var after := e.(deployments := e.deployments[i := marked]);
    GateIsKept(d.transitions, Transition(d.phase, RolledBack, at, Some(reason)));
    if Gated(d) && e.current != Some(d.id) {
      MoveEvolves(d, RolledBack, Some(reason), at);
      ReplaceKeepsInv(e, i, marked);
    } else if Inv(after) {
      CurrentServes(after, i);
    }
  }

  /** The marked failure is then a target that a rollback makes current. */
  lemma MarkedFailureBecomesCurrent(e: Env, i: nat, plan: Plan, approval: Approval, reason: Note, at: Instant)
    requires Inv(e) && i < |e.deployments| && e.deployments[i].phase == Failed && e.deployments[i].image.Some? && !Gated(e.deployments[i])
    requires plan.to == e.deployments[i].id && plan.from != plan.to
    requires plan.kind == DeploymentImage && Granted(approval)
    ensures var ds := e.deployments[i := MarkRolledBack(e.deployments[i], reason, at)];
            && CanRollBack(ds, plan, approval)
            && var after := Next(e.(deployments := ds), Execute(plan, approval, at));
               after.current == Some(plan.to) && |after.deployments| == |ds|
               && after.deployments[i].phase == Healthy && !Gated(after.deployments[i])
  {
    var d := e.deployments[i];
    var ds := e.deployments[i := MarkRolledBack(d, reason, at)];
    FindIs(ds, i);
    var ds1 := SourceRolledBack(ds, plan, approval, at);
    assert DistinctIds(ds1) && ds1[i] == ds[i];
    FindIs(ds1, i);
    GateIsKept(d.transitions, Transition(Failed, RolledBack, at, Some(reason)));
    GateIsKept(ds[i].transitions, Transition(RolledBack, Healthy, at, Some(Text("restored by rollback"))));
  }

  lemma OnlyEntry(d: Deployment)
    ensures Find([d], d.id) == Some(0)
  {
    assert [d][..0] == [];
  }

  /** What building and failing leaves of a first deployment. */
  function BuiltAndFailed(d: Deployment, reason: string, at: Instant): Deployment {
    RecordHealth(RecordBuild(StartBuild(d, at), BuildSucceeded, at), Unhealthy(reason), at)
  }

  lemma BuiltAndFailedIsUngated(d: Deployment, reason: string, at: Instant)
    requires d == NewDeployment(d.id, d.revision, d.runtime, None, at) && d.runtime.production && d.runtime.ociImage.Some?
    ensures var f := BuiltAndFailed(d, reason, at);
            f.id == d.id && f.phase == Failed && f.image.Some? && !Gated(f)
  {
    var d1 := StartBuild(d, at);
    var d2 := RecordBuild(d1, BuildSucceeded, at);
    GateIsKept(d.transitions, Transition(Pending, Building, at, None));
    GateIsKept(d1.transitions, Transition(Building, Deploying, at, None));
    GateIsKept(d2.transitions, Transition(Deploying, Failed, at, Some(Text(reason))));
  }

  lemma FirstDeploymentSteps(d: Deployment, reason: string, at: Instant)
    requires d == NewDeployment(d.id, d.revision, d.runtime, None, at) && d.runtime.production
    ensures var e := NEW_ENV.(deployments := [d]);
            var d1 := StartBuild(d, at);
            var d2 := RecordBuild(d1, BuildSucceeded, at);
            && Next(NEW_ENV, Begin(d.id, d.revision, d.runtime, at)) == e
            && Next(e, Build(d.id, at)) == e.(deployments := [d1])
            && Next(e.(deployments := [d1]), Built(d.id, BuildSucceeded, at)) == e.(deployments := [d2])
            && Next(e.(deployments := [d2]), Health(d.id, Unhealthy(reason), at))
                 == e.(deployments := [BuiltAndFailed(d, reason, at)])
  {
    var d1 := StartBuild(d, at);
    var d2 := RecordBuild(d1, BuildSucceeded, at);
    OnlyEntry(d);
    OnlyEntry(d1);
    OnlyEntry(d2);
  }

  lemma PlanToFailed(e: Env, f: Deployment, begin: Step)
    requires e == NEW_ENV.(deployments := [f]) && f.phase == Failed && f.image.Some?
    requires begin.Begin? && begin.id != f.id && begin.runtime.production
    ensures var g := NewDeployment(begin.id, begin.revision, begin.runtime, None, begin.at);
            var e1 := e.(deployments := [f, g]);
            && Enabled(e, begin) && Next(e, begin) == e1
            && Next(e1, MakePlan(DeploymentImage, g.id, f.id))
                 == e1.(plans := {Plan(DeploymentImage, g.id, f.id, g.revision.introducesMigration)})
  {
    var g := NewDeployment(begin.id, begin.revision, begin.runtime, None, begin.at);
    OnlyEntry(f);
    assert [f, g][..1] == [f];
    assert LatestEligible([f][..0]) == None;
  }

  lemma SixSteps(e: seq<Env>, s: seq<Step>)
    requires |e| == 7 && |s| == 6 && e[0] == NEW_ENV
    requires Enabled(e[0], s[0]) && Enabled(e[1], s[1]) && Enabled(e[2], s[2])
    requires Enabled(e[3], s[3]) && Enabled(e[4], s[4]) && Enabled(e[5], s[5])
    requires e[1] == Next(e[0], s[0]) && e[2] == Next(e[1], s[1]) && e[3] == Next(e[2], s[2])
    requires e[4] == Next(e[3], s[3]) && e[5] == Next(e[4], s[4]) && e[6] == Next(e[5], s[5])
    ensures Run(s, e)
  {
    forall i | 0 <= i < 6 ensures Enabled(e[i], s[i]) && e[i + 1] == Next(e[i], s[i]) {
      assert i == 0 || i == 1 || i == 2 || i == 3 || i == 4 || i == 5;
    }
  }

  /** A run that leaves such a failure, with a plan to go back to it: a first deployment
      is built and found unhealthy, and a second one begun. */
  lemma UngatedFailureIsReachable(first: Step, second: Step, reason: string) returns (steps: seq<Step>, states: seq<Env>)
    requires first.Begin? && first.runtime.production && first.runtime.ociImage.Some?
    requires second.Begin? && second.runtime.production && second.id != first.id
    ensures Run(steps, states) && |steps| == 6
    ensures var e := states[6];
            && |e.deployments| == 2 && e.deployments[0].id == first.id
            && e.deployments[0].phase == Failed && e.deployments[0].image.Some? && !Gated(e.deployments[0])
            && Plan(DeploymentImage, second.id, first.id, second.revision.introducesMigration) in e.plans
  {
    var at := first.at;
    var d := NewDeployment(first.id, first.revision, first.runtime, None, at);
    var f := BuiltAndFailed(d, reason, at);
    FirstDeploymentSteps(d, reason, at);
    BuiltAndFailedIsUngated(d, reason, at);
    var e1 := NEW_ENV.(deployments := [d]);
    var e2 := NEW_ENV.(deployments := [StartBuild(d, at)]);
    var e3 := NEW_ENV.(deployments := [RecordBuild(StartBuild(d, at), BuildSucceeded, at)]);
    var e4 := NEW_ENV.(deployments := [f]);
    PlanToFailed(e4, f, second);
    var e5 := Next(e4, second);
    var plan := MakePlan(DeploymentImage, second.id, first.id);
    steps := [first, Build(d.id, at), Built(d.id, BuildSucceeded, at), Health(d.id, Unhealthy(reason), at), second, plan];
    states := [NEW_ENV, e1, e2, e3, e4, e5, Next(e5, plan)];
    SixSteps(states, steps);
  }

  // ---------------------------------------------------------------------
  // The rollout object
  // ---------------------------------------------------------------------

  datatype RolloutError = NotFound | NotAllowed | ApprovalRequired

  class Rollout {
    var deployments: Deps
    var current: Option<DeploymentId>

    constructor ()
      ensures deployments == [] && current == None
    {
      deployments, current := [], None;
    }

    method Begin(id: DeploymentId, revision: Revision, runtime: Runtime, at: Instant)
      returns (r: Result<DeploymentId, RolloutError>)
      modifies this`deployments
      ensures r == if runtime.production then Ok(id) else Err(NotAllowed)
      ensures deployments == if r.Err? then old(deployments) else
                old(deployments) + [NewDeployment(id, revision, runtime, LatestEligible(old(deployments)), at)]
      ensures r.Ok? ==>
                var d := deployments[|old(deployments)|];
                && d.id == id && d.revision == revision && d.runtime == runtime && d.phase == Pending && d.health == Starting
                && d.build.None? && d.image.None? && d.rollbackTarget == LatestEligible(old(deployments))
                && d.transitions == [Transition(Pending, Pending, at, None)]
      ensures forall ds, ps :: Next(Env(old(deployments), old(current), ds, ps), Step.Begin(id, revision, runtime, at)) == Env(deployments, current, ds, ps)
    {
      if !runtime.production {
        return Err(NotAllowed);
      }
      deployments := deployments + [NewDeployment(id, revision, runtime, LatestEligible(deployments), at)];
      return Ok(id);
    }

    method StartBuild(id: DeploymentId, at: Instant) returns (r: Result<(), RolloutError>)
      modifies this`deployments
      ensures deployments == Changed(old(deployments), id, d => Deployments.StartBuild(d, at))
      ensures forall ds, ps :: Next(Env(old(deployments), old(current), ds, ps), Step.Build(id, at)) == Env(deployments, current, ds, ps)
      ensures r.Ok? <==> Find(old(deployments), id).Some? && CanMove(old(deployments)[Find(old(deployments), id).value].phase, Building)
    {
      var f := Find(deployments, id);
      if f.None? {
        return Err(NotFound);
      }
      var d := deployments[f.value];
      deployments := deployments[f.value := Deployments.StartBuild(d, at)];
      return if CanMove(d.phase, Building) then Ok(()) else Err(NotAllowed);
    }

    method RecordBuild(id: DeploymentId, build: BuildResult, at: Instant) returns (r: Result<(), RolloutError>)
      modifies this`deployments
      ensures deployments == Changed(old(deployments), id, d => Deployments.RecordBuild(d, build, at))
      ensures forall ds, ps :: Next(Env(old(deployments), old(current), ds, ps), Step.Built(id, build, at)) == Env(deployments, current, ds, ps)
      ensures var f := Find(old(deployments), id);
              r.Ok? <==> f.Some? && BuildAccepted(old(deployments)[f.value], build)
      ensures var f := Find(old(deployments), id);
              f.Some? && old(deployments)[f.value].phase == Building ==> deployments[f.value].build == Some(build)
    {
      var f := Find(deployments, id);
      if f.None? {
        return Err(NotFound);
      }
      var d := deployments[f.value];
      if d.phase != Building {
        return Err(NotAllowed);
      }
      d := d.(build := Some(build));
      match build {
        case BuildFailed(detail) =>
          d := MoveTo(d, Failed, Some(Text(detail)), at);
        case BuildSucceeded =>
          if !d.runtime.production || d.runtime.ociImage.None? {
            deployments := deployments[f.value := d];
            return Err(NotAllowed);
          }
          d := d.(image := Some(Image(d.runtime.ociImage.value, d.revision.sourceSha)));
          d := MoveTo(d, Deploying, None, at);
      }
      deployments := deployments[f.value := d];
      return Ok(());
    }

    /** The observed health is stored before the move is tried. */
    method RecordHealth(id: DeploymentId, health: HealthStatus, at: Instant) returns (r: Result<(), RolloutError>)
      modifies this`deployments
      ensures deployments == Changed(old(deployments), id, d => Deployments.RecordHealth(d, health, at))
      ensures forall ds, ps :: Next(Env(old(deployments), old(current), ds, ps), Step.Health(id, health, at)) == Env(deployments, current, ds, ps)
      ensures Find(old(deployments), id).Some? ==> deployments[Find(old(deployments), id).value].health == health
      ensures r.Ok? <==> Find(old(deployments), id).Some? && HealthAccepted(old(deployments)[Find(old(deployments), id).value], health)
    {
      var f := Find(deployments, id);
      if f.None? {
        return Err(NotFound);
      }
      var d := deployments[f.value];
      var before := d.phase;
      d := d.(health := health);
      var wanted := match health
        case Passing => Some(Healthy)
        case Unhealthy(_) => Some(if before == Deploying then Failed else Degraded)
        case _ => None;
      if wanted.Some? && CanMove(before, wanted.value) {
        d := Moved(d, wanted.value, if health.Unhealthy? then Some(Text(health.reason)) else None, at);
      }
      deployments := deployments[f.value := d];
      return if wanted.None? || CanMove(before, wanted.value) then Ok(()) else Err(NotAllowed);
    }

    method Promote(id: DeploymentId, at: Instant) returns (r: Result<(), RolloutError>)
      modifies this
      ensures r.Ok? <==> CanPromote(old(deployments), id)
      ensures var f := Find(old(deployments), id); r.Ok? <==> f.Some? && old(deployments)[f.value].phase == Healthy
      ensures r == Err(NotFound) <==> Find(old(deployments), id).None?
      ensures r.Err? ==> deployments == old(deployments) && current == old(current)
      ensures r.Ok? ==> deployments == Promoted(old(deployments), old(current), id, at) && current == Some(id)
      ensures forall ds, ps :: Next(Env(old(deployments), old(current), ds, ps), Step.Promote(id, at)) == Env(deployments, current, ds, ps)
    {
      var f := Find(deployments, id);
      if f.None? {
        return Err(NotFound);
      }
      if deployments[f.value].phase != Healthy {
        return Err(NotAllowed);
      }
      if current.Some? && current.value != id {
        var p := Find(deployments, current.value);
        if p.Some? && deployments[p.value].phase == Healthy {
          deployments := deployments[p.value := MarkSuperseded(deployments[p.value], at)];
        }
      }
      current := Some(id);
      return Ok(());
    }

    /** `execute_rollback`: `Ok(true)` when traffic moved. The domain slice is
        re-pointed in place. */
    method ExecuteRollback(plan: Plan, approval: Approval, domains: array<Domain>, at: Instant)
      returns (r: Result<bool, RolloutError>)
      modifies this, domains
      ensures r == Ok(true) <==> CanRollBack(old(deployments), plan, approval)
      ensures var f := Find(old(deployments), plan.to);
              r == Ok(true) <==>
                && Granted(approval) && plan.kind == DeploymentImage && f.Some?
                && (var p := old(deployments)[f.value].phase; p == Superseded || p == RolledBack || p == Healthy)
      ensures r == Ok(false) <==> Granted(approval) && plan.kind != DeploymentImage
      ensures r == Err(ApprovalRequired) <==> !Granted(approval)
      ensures r == Err(NotFound) <==> Granted(approval) && plan.kind == DeploymentImage && Find(old(deployments), plan.to).None?
      ensures r != Ok(true) ==> deployments == old(deployments) && current == old(current) && domains[..] == old(domains[..])
      ensures r == Ok(true) ==>
                && deployments == RolledOver(old(deployments), plan, approval, at)
                && current == Some(plan.to)
                && domains[..] == Repointed(old(domains[..]), plan.from, plan.to)
      ensures forall ps :: Next(Env(old(deployments), old(current), old(domains[..]), ps), Step.Execute(plan, approval, at))
                        == Env(deployments, current, domains[..], ps)
    {
      if !Granted(approval) {
        return Err(ApprovalRequired);
      }
      if plan.kind != DeploymentImage {
        return Ok(false);
      }
      var t := Find(deployments, plan.to);
      if t.None? {
        return Err(NotFound);
      }
      var was := deployments[t.value].phase;
      if !SafeTarget(was) {
        return Err(NotAllowed);
      }
      deployments := SourceRolledBack(deployments, plan, approval, at);
      deployments := TargetRestored(deployments, plan, was, at);
      current := Some(plan.to);
      Repoint(domains, plan.from, plan.to);
      return Ok(true);
    }

    static method Repoint(domains: array<Domain>, from: DeploymentId, to: DeploymentId)
      modifies domains
      ensures domains[..] == Repointed(old(domains[..]), from, to)
    {
      var i := 0;
      while i < domains.Length
        invariant 0 <= i <= domains.Length
        invariant domains[..i] == Repointed(old(domains[..]), from, to)[..i]
        invariant domains[i..] == old(domains[i..])
      {
        assert domains[i] == old(domains[..])[i];
        if domains[i].deployment == Some(from) {
          domains[i] := domains[i].(deployment := Some(to));
        }
        i := i + 1;
      }
    }

    /** `attach_domain`: only an approved change, a routable name and a promoted
        deployment. */
    method AttachDomain(domains: array<Domain>, k: nat, id: DeploymentId, approval: Approval)
      returns (r: Result<(), RolloutError>)
      requires k < domains.Length
      modifies domains
      ensures r.Ok? <==> Granted(approval) && old(domains[k]).routable && CanPromote(deployments, id)
      ensures r == Err(ApprovalRequired) <==> !Granted(approval)
      ensures domains[..] == if r.Err? then old(domains[..])
                             else old(domains[..])[k := old(domains[k]).(deployment := Some(id))]
      ensures forall ps :: Next(Env(deployments, current, old(domains[..]), ps), Step.Attach(k, id, approval))
                        == Env(deployments, current, domains[..], ps)
    {
      if !Granted(approval) {
        return Err(ApprovalRequired);
      }
      if !domains[k].routable || !CanPromote(deployments, id) {
        return Err(NotAllowed);
      }
      domains[k] := domains[k].(deployment := Some(id));
      return Ok(());
    }
  }
}
