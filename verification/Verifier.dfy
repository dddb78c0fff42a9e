/** The independent verifier: stage results and the verdict over them. */
module Verifiers {
  import opened Prelude

  /** Declared in the order the verdict compares them. */
  datatype Stage = Deterministic | BuildTest | Health | Schema | Browser | Advisory | Human

  function Rank(s: Stage): nat {
    match s
    case Deterministic => 0
    case BuildTest => 1
    case Health => 2
    case Schema => 3
    case Browser => 4
    case Advisory => 5
    case Human => 6
  }

  predicate Blocking(s: Stage) { s != Advisory }

  const BLOCKING_STAGES: seq<Stage> := [Deterministic, BuildTest, Health, Schema, Browser, Human]

  datatype Evidence = Evidence(id: string, stage: Stage, check: string, passed: bool, summary: string, at: Instant)

  datatype StageResult = StageResult(stage: Stage, applicable: bool, evidence: seq<Evidence>)

  predicate IsPassed(r: StageResult) {
    r.applicable && r.evidence != [] && forall e :: e in r.evidence ==> e.passed
  }

  predicate IsFailed(r: StageResult) {
    r.applicable && exists e :: e in r.evidence && !e.passed
  }

  datatype Verdict = Incomplete(missing: seq<Stage>) | Failed(firstFailure: Stage) | Passed

  type Stages = map<Stage, StageResult>

  predicate Valid(stages: Stages) {
    forall s :: s in stages ==> stages[s].stage == s
  }

  // ---------------------------------------------------------------------
  // Recording a stage
  // ---------------------------------------------------------------------

  /** A submission is stored if its stage is new, or if it turns a pass into a failure. */
  predicate Stores(stages: Stages, r: StageResult) {
    r.stage !in stages || (IsPassed(stages[r.stage]) && IsFailed(r))
  }

  predicate Disagrees(stages: Stages, r: StageResult) {
    && r.stage in stages
    && ((IsFailed(stages[r.stage]) && IsPassed(r)) || (IsPassed(stages[r.stage]) && IsFailed(r)))
  }

  function Recorded(stages: Stages, r: StageResult): Stages {
    if Stores(stages, r) then stages[r.stage := r] else stages
  }

  // ---------------------------------------------------------------------
  // The verdict
  // ---------------------------------------------------------------------

  predicate FailedBlocking(stages: Stages, s: Stage) {
    s in stages && Blocking(s) && IsFailed(stages[s])
  }

  predicate FirstFailure(stages: Stages, s: Stage) {
    FailedBlocking(stages, s) && forall o :: FailedBlocking(stages, o) ==> Rank(s) <= Rank(o)
  }

  predicate LacksEvidence(stages: Stages, s: Stage) {
    s !in stages || (stages[s].applicable && stages[s].evidence == [])
  }

  function MissingAmong(stages: Stages, wanted: seq<Stage>): seq<Stage> {
    if wanted == [] then []
    else
      var n := |wanted| - 1;
      MissingAmong(stages, wanted[..n]) + (if LacksEvidence(stages, wanted[n]) then [wanted[n]] else [])
  }

  predicate IsVerdict(stages: Stages, v: Verdict) {
    match v
    case Failed(s) => FirstFailure(stages, s)
    case Incomplete(missing) =>
      (forall s :: !FailedBlocking(stages, s)) && missing != [] && missing == MissingAmong(stages, BLOCKING_STAGES)
    case Passed => (forall s :: !FailedBlocking(stages, s)) && MissingAmong(stages, BLOCKING_STAGES) == []
  }

  lemma VerdictIsUnique(stages: Stages, a: Verdict, b: Verdict)
    requires IsVerdict(stages, a) && IsVerdict(stages, b)
    ensures a == b
  {}

  class Verifier {
    var stages: Stages
    var agentClaim: Option<string>
    var disagreements: seq<Stage>

    constructor ()
      ensures stages == map[] && agentClaim == None && disagreements == []
    {
      stages, agentClaim, disagreements := map[], None, [];
    }

    /** The claim is kept for attribution and touches nothing else. */
    method RecordAgentClaim(claim: string)
      modifies this`agentClaim
      ensures agentClaim == Some(claim)
    {
      agentClaim := Some(claim);
    }

    /** `add_stage`; `false` stands for the "already recorded" error. */
    method AddStage(r: StageResult) returns (ok: bool)
      requires Valid(stages)
      modifies this`stages, this`disagreements
      ensures Valid(stages) && stages == Recorded(old(stages), r)
      ensures disagreements == old(disagreements) + (if Disagrees(old(stages), r) then [r.stage] else [])
      ensures ok <==> r.stage !in old(stages) || Disagrees(old(stages), r)
    {
      if r.stage in stages {
        var existing := stages[r.stage];
        if IsFailed(existing) && IsPassed(r) {
          disagreements := disagreements + [r.stage];
          return true;
        }
        if IsPassed(existing) && IsFailed(r) {
          disagreements := disagreements + [r.stage];
          stages := stages[r.stage := r];
          return true;
        }
        return false;
      }
      stages := stages[r.stage := r];
      return true;
    }

    method MissingEvidence() returns (missing: seq<Stage>)
      ensures missing == MissingAmong(stages, BLOCKING_STAGES)
    {
      missing := [];
      var i := 0;
      while i < |BLOCKING_STAGES|
        invariant 0 <= i <= |BLOCKING_STAGES|
        invariant missing == MissingAmong(stages, BLOCKING_STAGES[..i])
      {
        assert BLOCKING_STAGES[..i + 1][..i] == BLOCKING_STAGES[..i];
        if LacksEvidence(stages, BLOCKING_STAGES[i]) {
          missing := missing + [BLOCKING_STAGES[i]];
        }
        i := i + 1;
      }
      assert BLOCKING_STAGES[..i] == BLOCKING_STAGES;
    }

    /** `verdict`: the least failed blocking stage, else what is missing. */
    method GetVerdict() returns (v: Verdict)
      requires Valid(stages)
      ensures IsVerdict(stages, v)
    {
      var first: Option<Stage> := None;
      var rest := stages.Keys;
      while rest != {}
        invariant rest <= stages.Keys
        invariant first.Some? ==> FailedBlocking(stages, first.value)
        invariant forall s :: FailedBlocking(stages, s) && s !in rest ==>
                    first.Some? && Rank(first.value) <= Rank(s)
        decreases |rest|
      {
        var s :| s in rest;
        rest := rest - {s};
        var r := stages[s];
        if Blocking(r.stage) && IsFailed(r) && (first.None? || Rank(r.stage) < Rank(first.value)) {
          first := Some(r.stage);
        }
      }
      if first.Some? {
        return Failed(first.value);
      }
      var missing := MissingEvidence();
      return if missing != [] then Incomplete(missing) else Passed;
    }
  }

  // ---------------------------------------------------------------------
  // Every sequence of submissions
  // ---------------------------------------------------------------------

  function AllRecorded(stages: Stages, rs: seq<StageResult>): Stages {
    if rs == [] then stages
    else Recorded(AllRecorded(stages, rs[..|rs| - 1]), rs[|rs| - 1])
  }

  /** A failed stage stays failed, with the evidence that failed it. */
  lemma {:induction false} FailureIsPermanent(stages: Stages, rs: seq<StageResult>, s: Stage)
    requires s in stages && IsFailed(stages[s])
    ensures s in AllRecorded(stages, rs) && AllRecorded(stages, rs)[s] == stages[s]
  {
    if rs != [] {
      FailureIsPermanent(stages, rs[..|rs| - 1], s);
    }
  }

  /** A failed verdict stays failed and its first failure never moves later. */
  lemma VerdictNeverRecovers(stages: Stages, rs: seq<StageResult>, before: Verdict, after: Verdict)
    requires IsVerdict(stages, before) && before.Failed?
    requires IsVerdict(AllRecorded(stages, rs), after)
    ensures after.Failed? && Rank(after.firstFailure) <= Rank(before.firstFailure)
  {
    FailureIsPermanent(stages, rs, before.firstFailure);
    assert FailedBlocking(AllRecorded(stages, rs), before.firstFailure);
  }

  lemma {:induction false} MissingMembers(stages: Stages, wanted: seq<Stage>)
    ensures forall s :: s in MissingAmong(stages, wanted) <==> s in wanted && LacksEvidence(stages, s)
  {
    if wanted != [] {
      var n := |wanted| - 1;
      MissingMembers(stages, wanted[..n]);
      assert forall s :: s in wanted <==> s in wanted[..n] || s == wanted[n];
    }
  }

  lemma NothingMissing(stages: Stages, wanted: seq<Stage>)
    ensures MissingAmong(stages, wanted) == [] <==> forall s :: s in wanted ==> !LacksEvidence(stages, s)
  {
    MissingMembers(stages, wanted);
    if MissingAmong(stages, wanted) != [] {
      assert MissingAmong(stages, wanted)[0] in MissingAmong(stages, wanted);
    }
  }

  lemma BlockingIsListed(s: Stage)
    ensures Blocking(s) <==> s in BLOCKING_STAGES
  {
    assert BLOCKING_STAGES[0] == Deterministic && BLOCKING_STAGES[1] == BuildTest && BLOCKING_STAGES[2] == Health
        && BLOCKING_STAGES[3] == Schema && BLOCKING_STAGES[4] == Browser && BLOCKING_STAGES[5] == Human;
  }

  /** Success means exactly: all six blocking stages are recorded, each passed on
      its own evidence or not applicable. */
  lemma PassedExactlyWhen(stages: Stages)
    ensures IsVerdict(stages, Passed)
       <==> forall s :: Blocking(s) ==> s in stages && (IsPassed(stages[s]) || !stages[s].applicable)
  {
    NothingMissing(stages, BLOCKING_STAGES);
    forall s: Stage ensures Blocking(s) <==> s in BLOCKING_STAGES { BlockingIsListed(s); }
    forall s | Blocking(s)
      ensures !FailedBlocking(stages, s) && !LacksEvidence(stages, s)
         <==> s in stages && (IsPassed(stages[s]) || !stages[s].applicable)
    {}
    if IsVerdict(stages, Passed) {
      forall s | Blocking(s) ensures s in stages && (IsPassed(stages[s]) || !stages[s].applicable) {
        assert !FailedBlocking(stages, s);
      }
    }
  }

  // ---------------------------------------------------------------------
  // What the verdict depends on
  // ---------------------------------------------------------------------

  /** The two records agree on what matters about every blocking stage. */
  ghost predicate SameBlocking(a: Stages, b: Stages) {
    forall s | Blocking(s) ::
      (FailedBlocking(a, s) <==> FailedBlocking(b, s)) && (LacksEvidence(a, s) <==> LacksEvidence(b, s))
  }

  lemma {:induction false} SameMissing(a: Stages, b: Stages, wanted: seq<Stage>)
    requires SameBlocking(a, b) && forall s :: s in wanted ==> Blocking(s)
    ensures MissingAmong(a, wanted) == MissingAmong(b, wanted)
  {
    if wanted != [] {
      SameMissing(a, b, wanted[..|wanted| - 1]);
    }
  }

  lemma SameVerdict(a: Stages, b: Stages, v: Verdict)
    requires SameBlocking(a, b) && IsVerdict(a, v)
    ensures IsVerdict(b, v)
  {
    forall s | s in BLOCKING_STAGES ensures Blocking(s) { BlockingIsListed(s); }
    SameMissing(a, b, BLOCKING_STAGES);
    assert forall s :: FailedBlocking(a, s) ==> Blocking(s);
    assert forall s :: FailedBlocking(b, s) ==> Blocking(s);
  }

  /** Advisory results never change the verdict. */
  lemma AdvisoryNeverMatters(stages: Stages, r: StageResult, v: Verdict)
    requires r.stage == Advisory && IsVerdict(stages, v)
    ensures IsVerdict(Recorded(stages, r), v)
  {
    SameVerdict(stages, Recorded(stages, r), v);
  }

  // ---------------------------------------------------------------------
  // Exactly when the order of submissions matters
  // ---------------------------------------------------------------------

  /** A submission that passes or fails outright. */
  predicate Decisive(r: StageResult) {
    IsPassed(r) || IsFailed(r)
  }

  /** Applicable, with nothing to support it. */
  predicate Hollow(r: StageResult) {
    r.applicable && r.evidence == []
  }

  /** The submissions to stage `s` are all outright, or none of them fails or is
      hollow, or all of them are hollow. */
  ghost predicate Uniform(rs: seq<StageResult>, s: Stage) {
    || (forall r :: r in rs && r.stage == s ==> Decisive(r))
    || (forall r :: r in rs && r.stage == s ==> !IsFailed(r) && !Hollow(r))
    || (forall r :: r in rs && r.stage == s ==> Hollow(r))
  }

  /** What the verdict reads of a stage. */
  ghost predicate SameAt(a: Stages, b: Stages, s: Stage) {
    (FailedBlocking(a, s) <==> FailedBlocking(b, s)) && (LacksEvidence(a, s) <==> LacksEvidence(b, s))
  }

  ghost predicate FirstOf(rs: seq<StageResult>, s: Stage, i: int) {
    0 <= i < |rs| && rs[i].stage == s && forall j :: 0 <= j < i ==> rs[j].stage != s
  }

  /** The first submission to a stage decides it, except that a pass yields to a
      later failure. */
  lemma {:induction false} FirstDecides(rs: seq<StageResult>, s: Stage, i: int)
    requires FirstOf(rs, s, i)
    ensures var all := AllRecorded(map[], rs);
            && s in all
            && (LacksEvidence(all, s) <==> Hollow(rs[i]))
            && (IsFailed(all[s]) <==> IsFailed(rs[i]) || (IsPassed(rs[i]) && exists r :: r in rs && r.stage == s && IsFailed(r)))
            && (IsPassed(all[s]) ==> IsPassed(rs[i]))
            && (IsPassed(rs[i]) ==> Decisive(all[s]))
  {
    var n := |rs| - 1;
    var front, last := rs[..n], rs[n];
    assert forall r :: r in rs <==> r in front || r == last;
    if i < n {
      FirstDecides(front, s, i);
    } else {
      NotYetRecorded(front, s);
    }
  }

  lemma {:induction false} NotYetRecorded(rs: seq<StageResult>, s: Stage)
    requires forall j :: 0 <= j < |rs| ==> rs[j].stage != s
    ensures s !in AllRecorded(map[], rs)
  {
    if rs != [] {
      NotYetRecorded(rs[..|rs| - 1], s);
    }
  }

  lemma SomeFirst(rs: seq<StageResult>, s: Stage) returns (i: int)
    requires exists r :: r in rs && r.stage == s
    ensures FirstOf(rs, s, i)
  {
    i := 0;
    while rs[i].stage != s
      invariant 0 <= i < |rs| && forall j :: 0 <= j < i ==> rs[j].stage != s
      decreases |rs| - i
    {
      var r :| r in rs && r.stage == s;
      var k :| 0 <= k < |rs| && rs[k] == r;
      i := i + 1;
    }
  }

  lemma SameMembers(p: seq<StageResult>, q: seq<StageResult>)
    requires multiset(p) == multiset(q)
    ensures forall r :: r in p <==> r in q
  {
    assert forall r :: r in p <==> r in multiset(p);
    assert forall r :: r in q <==> r in multiset(q);
  }

  lemma UniformAgrees(p: seq<StageResult>, q: seq<StageResult>, s: Stage)
    requires (forall r :: r in p <==> r in q) && Uniform(p, s)
    ensures SameAt(AllRecorded(map[], p), AllRecorded(map[], q), s)
  {
    if exists r :: r in p && r.stage == s {
      var i := SomeFirst(p, s);
      var j := SomeFirst(q, s);
      FirstDecides(p, s, i);
      FirstDecides(q, s, j);
      assert p[i] in p && q[j] in p;
    } else {
      NotYetRecorded(p, s);
      NotYetRecorded(q, s);
    }
  }

  /** The order that submits `p[i]` first. */
  function MovedUp(p: seq<StageResult>, i: nat): seq<StageResult>
    requires i < |p|
  {
    [p[i]] + (p[..i] + p[i + 1..])
  }

  lemma MovedUpIsOrder(p: seq<StageResult>, i: nat)
    requires i < |p|
    ensures multiset(MovedUp(p, i)) == multiset(p) && FirstOf(MovedUp(p, i), p[i].stage, 0)
  {
    assert p == p[..i] + ([p[i]] + p[i + 1..]);
  }

  /** Putting `p[i]` or `p[j]` first leads to different records of the stage. */
  lemma FirstMatters(p: seq<StageResult>, s: Stage, i: nat, j: nat)
    requires i < |p| && j < |p| && p[i].stage == s && p[j].stage == s && Blocking(s)
    requires (Hollow(p[i]) && !Hollow(p[j])) || (!p[i].applicable && IsFailed(p[j]))
    ensures !SameAt(AllRecorded(map[], MovedUp(p, i)), AllRecorded(map[], MovedUp(p, j)), s)
  {
    MovedUpIsOrder(p, i);
    MovedUpIsOrder(p, j);
    FirstDecides(MovedUp(p, i), s, 0);
    FirstDecides(MovedUp(p, j), s, 0);
  }

  lemma MixedPair(p: seq<StageResult>, s: Stage) returns (i: nat, j: nat)
    requires !Uniform(p, s)
    ensures i < |p| && j < |p| && p[i].stage == s && p[j].stage == s
    ensures (Hollow(p[i]) && !Hollow(p[j])) || (!p[i].applicable && IsFailed(p[j]))
  {
    var wavering :| wavering in p && wavering.stage == s && !Decisive(wavering);
    var bad :| bad in p && bad.stage == s && (IsFailed(bad) || Hollow(bad));
    var solid :| solid in p && solid.stage == s && !Hollow(solid);
    var a := if Hollow(bad) then bad else wavering;
    var b := if Hollow(a) then solid else bad;
    i :| 0 <= i < |p| && p[i] == a;
    j :| 0 <= j < |p| && p[j] == b;
  }

  /** The record of a blocking stage is the same in every order of the submissions
      if and only if the submissions to that stage are uniform. */
  lemma OrderMattersExactlyWhen(p: seq<StageResult>, s: Stage)
    requires Blocking(s)
    ensures (forall q :: multiset(q) == multiset(p) ==> SameAt(AllRecorded(map[], p), AllRecorded(map[], q), s))
       <==> Uniform(p, s)
  {
    if Uniform(p, s) {
      forall q | multiset(q) == multiset(p) ensures SameAt(AllRecorded(map[], p), AllRecorded(map[], q), s) {
        SameMembers(p, q);
        UniformAgrees(p, q, s);
      }
    } else {
      var i, j := MixedPair(p, s);
      FirstMatters(p, s, i, j);
      MovedUpIsOrder(p, i);
      MovedUpIsOrder(p, j);
    }
  }

  /** Submissions that are uniform at every blocking stage give the same verdict in
      every order. */
  lemma OrderNeverMatters(p: seq<StageResult>, q: seq<StageResult>, v: Verdict)
    requires multiset(p) == multiset(q) && forall s :: Blocking(s) ==> Uniform(p, s)
    requires IsVerdict(AllRecorded(map[], p), v)
    ensures IsVerdict(AllRecorded(map[], q), v)
  {
    SameMembers(p, q);
    var a, b := AllRecorded(map[], p), AllRecorded(map[], q);
    forall s | Blocking(s)
      ensures (FailedBlocking(a, s) <==> FailedBlocking(b, s)) && (LacksEvidence(a, s) <==> LacksEvidence(b, s))
    {
      UniformAgrees(p, q, s);
    }
    SameVerdict(a, b, v);
  }

  // ---------------------------------------------------------------------
  // Exactly when the order changes the verdict
  // ---------------------------------------------------------------------

  ghost predicate FailsAt(rs: seq<StageResult>, s: Stage) {
    Blocking(s) && exists r :: r in rs && r.stage == s && IsFailed(r)
  }

  ghost predicate LeastFailing(rs: seq<StageResult>, s: Stage) {
    FailsAt(rs, s) && forall o :: FailsAt(rs, o) ==> Rank(s) <= Rank(o)
  }

  ghost predicate AllDecisive(rs: seq<StageResult>, s: Stage) {
    forall r :: r in rs && r.stage == s ==> Decisive(r)
  }

  /** No submission to a blocking stage fails and all are uniform, or those to the
      least failing stage are all outright. */
  ghost predicate Settled(rs: seq<StageResult>) {
    if exists s :: FailsAt(rs, s) then forall s :: LeastFailing(rs, s) ==> AllDecisive(rs, s)
    else forall s :: Blocking(s) ==> Uniform(rs, s)
  }

  ghost predicate VerdictsAgree(a: Stages, b: Stages) {
    forall v :: IsVerdict(a, v) <==> IsVerdict(b, v)
  }

  lemma {:induction false} LeastFailingExists(rs: seq<StageResult>, s: Stage) returns (least: Stage)
    requires FailsAt(rs, s)
    ensures LeastFailing(rs, least)
    decreases Rank(s)
  {
    if o :| FailsAt(rs, o) && Rank(o) < Rank(s) {
      least := LeastFailingExists(rs, o);
    } else {
      least := s;
    }
  }

  /** Only a failing submission fails a stage, and outright ones fail it for sure. */
  lemma FailureComesFrom(rs: seq<StageResult>, s: Stage)
    ensures FailedBlocking(AllRecorded(map[], rs), s) ==> FailsAt(rs, s)
    ensures FailsAt(rs, s) && AllDecisive(rs, s) ==> FailedBlocking(AllRecorded(map[], rs), s)
  {
    if exists r :: r in rs && r.stage == s {
      var i := SomeFirst(rs, s);
      FirstDecides(rs, s, i);
      assert rs[i] in rs;
    } else {
      NotYetRecorded(rs, s);
    }
  }

  lemma FailedIsVerdict(rs: seq<StageResult>, s: Stage)
    requires LeastFailing(rs, s) && FailedBlocking(AllRecorded(map[], rs), s)
    ensures IsVerdict(AllRecorded(map[], rs), Failed(s))
  {
    forall o | FailedBlocking(AllRecorded(map[], rs), o) ensures Rank(s) <= Rank(o) {
      FailureComesFrom(rs, o);
    }
  }

  lemma SettledAgrees(p: seq<StageResult>, q: seq<StageResult>)
    requires Settled(p) && multiset(p) == multiset(q)
    ensures VerdictsAgree(AllRecorded(map[], p), AllRecorded(map[], q))
  {
    SameMembers(p, q);
    var a, b := AllRecorded(map[], p), AllRecorded(map[], q);
    if s :| FailsAt(p, s) {
      var least := LeastFailingExists(p, s);
      assert LeastFailing(q, least) && AllDecisive(q, least);
      FailureComesFrom(p, least);
      FailureComesFrom(q, least);
      FailedIsVerdict(p, least);
      FailedIsVerdict(q, least);
      OneVerdict(a, b, Failed(least));
    } else {
      forall v ensures IsVerdict(a, v) <==> IsVerdict(b, v) {
        assert forall s :: Blocking(s) ==> Uniform(q, s);
        if IsVerdict(a, v) {
          OrderNeverMatters(p, q, v);
        }
        if IsVerdict(b, v) {
          OrderNeverMatters(q, p, v);
        }
      }
    }
  }

  lemma OneVerdict(a: Stages, b: Stages, v: Verdict)
    requires IsVerdict(a, v) && IsVerdict(b, v)
    ensures VerdictsAgree(a, b)
  {
    forall w ensures IsVerdict(a, w) <==> IsVerdict(b, w) {
      if IsVerdict(a, w) {
        VerdictIsUnique(a, v, w);
      }
      if IsVerdict(b, w) {
        VerdictIsUnique(b, v, w);
      }
    }
  }

  /** The least failing stage has a submission that is not outright: put first, it
      keeps the stage from failing. */
  lemma WaveringLeast(p: seq<StageResult>, s: Stage) returns (q1: seq<StageResult>, q2: seq<StageResult>)
    requires LeastFailing(p, s) && !AllDecisive(p, s)
    ensures multiset(q1) == multiset(p) == multiset(q2)
    ensures IsVerdict(AllRecorded(map[], q1), Failed(s)) && !IsVerdict(AllRecorded(map[], q2), Failed(s))
  {
    var failing :| failing in p && failing.stage == s && IsFailed(failing);
    var wavering :| wavering in p && wavering.stage == s && !Decisive(wavering);
    var i :| 0 <= i < |p| && p[i] == failing;
    var j :| 0 <= j < |p| && p[j] == wavering;
    q1, q2 := MovedUp(p, i), MovedUp(p, j);
    MovedUpIsOrder(p, i);
    MovedUpIsOrder(p, j);
    FirstDecides(q1, s, 0);
    FirstDecides(q2, s, 0);
    SameMembers(p, q1);
    assert LeastFailing(q1, s);
    FailedIsVerdict(q1, s);
  }

  /** Without failures, a stage that is not uniform is missing in one order only. */
  lemma MissingInOne(p: seq<StageResult>, s: Stage) returns (q1: seq<StageResult>, q2: seq<StageResult>)
    requires Blocking(s) && !FailsAt(p, s) && !Uniform(p, s)
    ensures multiset(q1) == multiset(p) == multiset(q2)
    ensures LacksEvidence(AllRecorded(map[], q1), s) && !LacksEvidence(AllRecorded(map[], q2), s)
  {
    var i, j := MixedPair(p, s);
    assert p[i] in p && p[j] in p;
    q1, q2 := MovedUp(p, i), MovedUp(p, j);
    MovedUpIsOrder(p, i);
    MovedUpIsOrder(p, j);
    FirstDecides(q1, s, 0);
    FirstDecides(q2, s, 0);
  }

  lemma MissingTellsApart(a: Stages, b: Stages, s: Stage, v: Verdict)
    requires Blocking(s) && LacksEvidence(a, s) && !LacksEvidence(b, s) && !v.Failed?
    ensures !(IsVerdict(a, v) && IsVerdict(b, v))
  {
    BlockingIsListed(s);
    MissingMembers(a, BLOCKING_STAGES);
    MissingMembers(b, BLOCKING_STAGES);
  }

  lemma MissingOrderMatters(p: seq<StageResult>, s: Stage, q1: seq<StageResult>, q2: seq<StageResult>)
    requires Blocking(s) && (forall o :: !FailsAt(p, o)) && multiset(q1) == multiset(p) == multiset(q2)
    requires LacksEvidence(AllRecorded(map[], q1), s) && !LacksEvidence(AllRecorded(map[], q2), s)
    ensures !VerdictsAgree(AllRecorded(map[], q1), AllRecorded(map[], q2))
  {
    var a, b := AllRecorded(map[], q1), AllRecorded(map[], q2);
    var missing := MissingAmong(a, BLOCKING_STAGES);
    SameMembers(p, q1);
    forall o ensures !FailedBlocking(a, o) {
      assert !FailsAt(p, o);
      FailureComesFrom(q1, o);
    }
    var v := if missing != [] then Incomplete(missing) else Passed;
    assert IsVerdict(a, v);
    MissingTellsApart(a, b, s, v);
  }

  /** The verdict is the same in every order of the submissions if and only if they are
      settled. */
  lemma VerdictChangesExactlyWhen(p: seq<StageResult>)
    ensures (forall q :: multiset(q) == multiset(p) ==> VerdictsAgree(AllRecorded(map[], p), AllRecorded(map[], q)))
       <==> Settled(p)
  {
    if Settled(p) {
      forall q | multiset(q) == multiset(p) ensures VerdictsAgree(AllRecorded(map[], p), AllRecorded(map[], q)) {
        SettledAgrees(p, q);
      }
    } else {
      var q1, q2 := UnsettledOrders(p);
      assert !(VerdictsAgree(AllRecorded(map[], p), AllRecorded(map[], q1))
               && VerdictsAgree(AllRecorded(map[], p), AllRecorded(map[], q2)));
    }
  }

  lemma UnsettledOrders(p: seq<StageResult>) returns (q1: seq<StageResult>, q2: seq<StageResult>)
    requires !Settled(p)
    ensures multiset(q1) == multiset(p) == multiset(q2)
    ensures !VerdictsAgree(AllRecorded(map[], q1), AllRecorded(map[], q2))
  {
    if exists s :: FailsAt(p, s) {
      var s :| LeastFailing(p, s) && !AllDecisive(p, s);
      q1, q2 := WaveringLeast(p, s);
    } else {
      var s :| Blocking(s) && !Uniform(p, s);
      q1, q2 := MissingInOne(p, s);
      MissingOrderMatters(p, s, q1, q2);
    }
  }

  // ---------------------------------------------------------------------
  // Which failure is named, and what is noted
  // ---------------------------------------------------------------------

  /** The stage applies and some of its evidence failed. */
  ghost predicate Failing(stages: Stages, s: Stage) {
    s in stages && stages[s].applicable && exists e :: e in stages[s].evidence && !e.passed
  }

  /** Of several failed stages the verdict names the first in this order. */
  lemma FirstFailureByOrder(stages: Stages, k: nat)
    requires k < 6
    ensures var order := [Deterministic, BuildTest, Health, Schema, Browser, Human];
            IsVerdict(stages, Failed(order[k])) <==> Failing(stages, order[k]) && forall j :: 0 <= j < k ==> !Failing(stages, order[j])
  {
    var order := [Deterministic, BuildTest, Health, Schema, Browser, Human];
    assert forall j :: 0 <= j < 5 ==> Rank(order[j]) < Rank(order[j + 1]);
    forall s ensures FailedBlocking(stages, s) <==> s != Advisory && Failing(stages, s) {}
    forall j | 0 <= j < 6 ensures order[j] != Advisory && Rank(order[j]) == if j < 5 then j else 6 {}
    forall j | 0 <= j < k ensures Rank(order[j]) < Rank(order[k]) {}
    if forall j :: 0 <= j < k ==> !Failing(stages, order[j]) {
      forall o | FailedBlocking(stages, o) ensures Rank(order[k]) <= Rank(o) {
        var j := if o == Human then 5 else Rank(o);
        assert order[j] == o;
      }
    }
  }

  /** The disagreements noted over all submissions. */
  function AllDisagreements(rs: seq<StageResult>): seq<Stage> {
    if rs == [] then []
    else
      var n := |rs| - 1;
      AllDisagreements(rs[..n]) + (if Disagrees(AllRecorded(map[], rs[..n]), rs[n]) then [rs[n].stage] else [])
  }

  ghost predicate Submits(rs: seq<StageResult>, s: Stage, failed: bool) {
    exists r :: r in rs && r.stage == s && (if failed then IsFailed(r) else IsPassed(r))
  }

  lemma DecisiveRecord(rs: seq<StageResult>, s: Stage)
    requires AllDecisive(rs, s)
    ensures var all := AllRecorded(map[], rs);
            && (s in all && IsFailed(all[s]) <==> Submits(rs, s, true))
            && (s in all && IsPassed(all[s]) <==> Submits(rs, s, false) && !Submits(rs, s, true))
  {
    if exists r :: r in rs && r.stage == s {
      var i := SomeFirst(rs, s);
      FirstDecides(rs, s, i);
      assert rs[i] in rs;
    } else {
      NotYetRecorded(rs, s);
    }
  }

  /** A disagreement is noted at a stage exactly if outright submissions to it pass and
      fail, in whatever order. */
  lemma {:induction false} DisagreementExactlyWhen(rs: seq<StageResult>, s: Stage)
    requires AllDecisive(rs, s)
    ensures s in AllDisagreements(rs) <==> Submits(rs, s, true) && Submits(rs, s, false)
  {
    if rs != [] {
      var n := |rs| - 1;
      var front, last := rs[..n], rs[n];
      assert forall r :: r in rs <==> r in front || r == last;
      DisagreementExactlyWhen(front, s);
      DecisiveRecord(front, s);
      assert last in rs;
    }
  }

  /** "Not applicable" recorded first shuts out the failure of its stage; recorded
      second it does not: the same two submissions, two verdicts. */
  lemma TwoOrdersTwoVerdicts(e: Evidence, missing: seq<Stage>)
    requires !e.passed && missing == [BuildTest, Health, Schema, Browser, Human]
    ensures var waived, failed := StageResult(Deterministic, false, []), StageResult(Deterministic, true, [e]);
            && IsVerdict(AllRecorded(map[], [waived, failed]), Incomplete(missing))
            && IsVerdict(AllRecorded(map[], [failed, waived]), Failed(Deterministic))
  {
    var waived, failed := StageResult(Deterministic, false, []), StageResult(Deterministic, true, [e]);
    assert e in failed.evidence && IsFailed(failed);
    RecordedPair(waived, failed);
    RecordedPair(failed, waived);
    MissingAllBut(AllRecorded(map[], [waived, failed]));
  }

  lemma RecordedPair(a: StageResult, b: StageResult)
    ensures AllRecorded(map[], [a, b]) == Recorded(map[a.stage := a], b)
  {
    assert [a, b][..1] == [a] && [a][..0] == [];
    assert AllRecorded(map[], [a]) == Recorded(AllRecorded(map[], []), a);
  }

  lemma MissingOneMore(stages: Stages, wanted: seq<Stage>, s: Stage)
    ensures MissingAmong(stages, wanted + [s])
         == MissingAmong(stages, wanted) + (if LacksEvidence(stages, s) then [s] else [])
  {
    assert (wanted + [s])[..|wanted|] == wanted;
  }

  lemma MissingAllBut(stages: Stages)
    requires stages.Keys == {Deterministic} && !LacksEvidence(stages, Deterministic)
    ensures MissingAmong(stages, BLOCKING_STAGES) == [BuildTest, Health, Schema, Browser, Human]
  {
    var w1 := [] + [Deterministic];
    var w2 := w1 + [BuildTest];
    var w3 := w2 + [Health];
    var w4 := w3 + [Schema];
    var w5 := w4 + [Browser];
    MissingOneMore(stages, [], Deterministic);
    MissingOneMore(stages, w1, BuildTest);
    MissingOneMore(stages, w2, Health);
    MissingOneMore(stages, w3, Schema);
    MissingOneMore(stages, w4, Browser);
    MissingOneMore(stages, w5, Human);
    assert w5 + [Human] == BLOCKING_STAGES;
  }
}
