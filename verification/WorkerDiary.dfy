/** What one worker did to the shared table, step by step, among the steps of the
    others. */
module WorkerDiaries {
  import opened Prelude
  import opened Backoff
  import opened JobQueues
  import opened LeasedQueues
  import opened LeasedRuns
  import opened Redaction

  datatype DispatchOutcome = Ready | Degraded | InProgress | Failed(reason: string)

  datatype TickOutcome = Completed(job: JobId, ready: bool) | Retried(job: JobId) | DeadLettered(job: JobId)

  /** Everything outside the worker that one pass meets: the clock, the steps other
      workers take before its recovery, before its claim and during its dispatch,
      the rows they hold locked, the shutdown flag, what the dispatcher reports, and
      which of the other stores' writes succeed. */
  datatype Pass = Pass(
    now: Instant,
    between: seq<Step>,
    before: seq<Step>,
    locked: set<JobId>,
    stopping: bool,
    recoveryEventOk: bool,
    dispatch: Option<DispatchOutcome>,
    meanwhile: seq<Step>,
    finishAt: Instant,
    observeOk: bool,
    eventOk: bool)

  // ---------------------------------------------------------------------
  // The diary
  // ---------------------------------------------------------------------

  /** Where a claim of the worker was taken and where it was ended. */
  datatype Turn = Turn(claim: nat, end: nat, outcome: TickOutcome)

  /** A run of the table; `mine` marks the worker's own steps, `turns` are its claims
      in order, and `open` is a claim not yet ended. */
  datatype Diary = Diary(run: Trace, mine: seq<bool>, turns: seq<Turn>, open: Option<nat>)

  function NewDiary(t: Table): Diary {
    Diary(Trace([t], []), [], [], None)
  }

  /** The diary is a legal run that leads to this table. */
  ghost predicate Leads(d: Diary, to: Table) {
    && d.run.Shaped() && |d.mine| == |d.run.steps| && d.run.tables[|d.run.steps|] == to
    && forall i: nat :: i < |d.run.steps| ==> LegalAt(d.run, i)
  }

  predicate OwnStep(s: Step, worker: string) {
    s.Recover? || ((s.Claim? || s.Complete? || s.Fail?) && s.worker == worker)
  }

  ghost predicate OthersStep(s: Step, script: seq<Pass>) {
    exists p :: p in script && (s in p.between || s in p.before || s in p.meanwhile)
  }

  ghost predicate AttributedAt(steps: seq<Step>, mine: seq<bool>, i: nat, worker: string, script: seq<Pass>)
    requires i < |mine| == |steps|
  {
    if mine[i] then OwnStep(steps[i], worker) else OthersStep(steps[i], script)
  }

  /** Own steps are the worker's, every other step is one the script lets in. */
  ghost predicate Attributed(steps: seq<Step>, mine: seq<bool>, worker: string, script: seq<Pass>) {
    |mine| == |steps| && forall i: nat :: i < |mine| ==> AttributedAt(steps, mine, i, worker, script)
  }

  predicate Ends(e: Event, id: JobId, worker: string) {
    (e.CompletedBy? || e.FailedBy?) && e.id == id && e.worker == worker
  }

  ghost predicate OwnClaim(d: Diary, i: nat) {
    d.run.Shaped() && |d.mine| == |d.run.steps| && i < |d.mine| && d.mine[i] && EventAt(d.run, i).ClaimedBy?
  }

  ghost predicate OwnEnd(d: Diary, i: nat) {
    && d.run.Shaped() && |d.mine| == |d.run.steps| && i < |d.mine| && d.mine[i]
    && (EventAt(d.run, i).CompletedBy? || EventAt(d.run, i).FailedBy?)
  }

  ghost function OwnClaims(d: Diary): set<nat> {
    set i: nat | i < |d.mine| && OwnClaim(d, i)
  }

  ghost function OwnEnds(d: Diary): set<nat> {
    set i: nat | i < |d.mine| && OwnEnd(d, i)
  }

  function ClaimsOf(turns: seq<Turn>): set<nat> {
    set k | 0 <= k < |turns| :: turns[k].claim
  }

  function EndsOf(turns: seq<Turn>): set<nat> {
    set k | 0 <= k < |turns| :: turns[k].end
  }

  function OpenSet(open: Option<nat>): set<nat> {
    if open.Some? then {open.value} else {}
  }

  predicate EndsBefore(t: Turn, bound: nat) {
    t.claim < t.end < bound
  }

  predicate Precedes(t: Turn, u: Turn) {
    t.end < u.claim
  }

  /** One turn after the other, all before `bound`. */
  ghost predicate InOrder(turns: seq<Turn>, bound: nat) {
    && (forall k {:trigger EndsBefore(turns[k], bound)} :: 0 <= k < |turns| ==> EndsBefore(turns[k], bound))
    && (forall j, k {:trigger Precedes(turns[j], turns[k])} :: 0 <= j < k < |turns| ==> Precedes(turns[j], turns[k]))
  }

  /** What the outcome of a turn says about its last step, the table it left and what
      the dispatcher had reported. */
  ghost predicate OutcomeOk(e: Event, after: Table, o: TickOutcome, p: Pass, secrets: seq<string>) {
    && p.dispatch.Some?
    && if o.Completed? then
         e.CompletedBy? && InStatus(after, o.job, Succeeded)
         && !p.dispatch.value.Failed? && o.ready == p.dispatch.value.Ready?
       else
         && e.FailedBy? && p.dispatch.value.Failed?
         && InStatus(after, o.job, if o.DeadLettered? then Dead else Queued)
         && after[o.job].job.lastError == Some(Redacted(p.dispatch.value.reason, secrets))
  }

  /** The turn's end closes its claim, and the outcome says how. */
  ghost predicate TurnOk(d: Diary, t: Turn, worker: string, p: Pass, secrets: seq<string>) {
    && d.run.Shaped() && t.claim < |d.run.steps| && t.end < |d.run.steps|
    && EventAt(d.run, t.claim) == ClaimedBy(t.outcome.job, worker)
    && Ends(EventAt(d.run, t.end), t.outcome.job, worker)
    && OutcomeOk(EventAt(d.run, t.end), d.run.tables[t.end + 1], t.outcome, p, secrets)
  }

  ghost predicate TurnsOk(d: Diary, turns: seq<Turn>, worker: string, script: seq<Pass>, secrets: seq<string>) {
    |turns| <= |script| && forall k {:trigger TurnOk(d, turns[k], worker, script[k], secrets)} :: 0 <= k < |turns| ==> TurnOk(d, turns[k], worker, script[k], secrets)
  }

  /** The worker's effective claims and ends are exactly those of its turns, one turn
      per pass and one after the other, but for a claim that is still open. */
  ghost predicate Matched(d: Diary, worker: string, script: seq<Pass>, secrets: seq<string>) {
    && d.run.Shaped() && |d.mine| == |d.run.steps|
    && TurnsOk(d, d.turns, worker, script, secrets)
    && (d.open.Some? ==> d.open.value < |d.mine|)
    && InOrder(d.turns, if d.open.Some? then d.open.value else |d.mine|)
    && OwnClaims(d) == ClaimsOf(d.turns) + OpenSet(d.open)
    && OwnEnds(d) == EndsOf(d.turns)
  }

  // ---------------------------------------------------------------------
  // One more step
  // ---------------------------------------------------------------------

  function Noted(d: Diary, s: Step, to: Table, mine: bool): Diary {
    d.(run := Trace(d.run.tables + [to], d.run.steps + [s]), mine := d.mine + [mine])
  }

  lemma NotedLeads(d: Diary, t: Table, s: Step, mine: bool)
    requires Leads(d, t) && Enabled(t, s)
    ensures Leads(Noted(d, s, Apply(t, s), mine), Apply(t, s))
  {
    var d' := Noted(d, s, Apply(t, s), mine);
    forall i: nat | i < |d'.run.steps| ensures LegalAt(d'.run, i) {
      assert i < |d.run.steps| ==> LegalAt(d.run, i);
    }
  }

  lemma NotedAttributed(steps: seq<Step>, mine: seq<bool>, s: Step, m: bool, worker: string, script: seq<Pass>)
    requires Attributed(steps, mine, worker, script) && (if m then OwnStep(s, worker) else OthersStep(s, script))
    ensures Attributed(steps + [s], mine + [m], worker, script)
  {
    forall i: nat | i < |mine + [m]| ensures AttributedAt(steps + [s], mine + [m], i, worker, script) {
      assert i < |mine| ==> AttributedAt(steps, mine, i, worker, script);
    }
  }

  /** A legal run that leads to this table, with every step attributed. */
  ghost predicate Keeps(d: Diary, to: Table, worker: string, script: seq<Pass>) {
    Leads(d, to) && Attributed(d.run.steps, d.mine, worker, script)
  }

  ghost predicate SameEntry(d: Diary, d': Diary, i: nat)
    requires d.run.Shaped() && d'.run.Shaped() && i < |d.mine| == |d.run.steps| <= |d'.mine| == |d'.run.steps|
  {
    && d'.mine[i] == d.mine[i] && d'.run.steps[i] == d.run.steps[i]
    && d'.run.tables[i] == d.run.tables[i] && d'.run.tables[i + 1] == d.run.tables[i + 1]
  }

  /** The same diary, continued. */
  ghost predicate Continues(d: Diary, d': Diary) {
    && d.run.Shaped() && d'.run.Shaped() && |d.mine| == |d.run.steps| <= |d'.mine| == |d'.run.steps|
    && d'.run.tables[0] == d.run.tables[0]
    && forall i: nat :: i < |d.mine| ==> SameEntry(d, d', i)
  }

  lemma ContinuesOn(a: Diary, b: Diary, c: Diary)
    requires Continues(a, b) && Continues(b, c)
    ensures Continues(a, c)
  {
    forall i: nat | i < |a.mine| ensures SameEntry(a, c, i) {
      assert SameEntry(a, b, i) && SameEntry(b, c, i);
    }
  }

  lemma NotedContinues(d: Diary, s: Step, to: Table, mine: bool)
    requires d.run.Shaped() && |d.mine| == |d.run.steps|
    ensures Continues(d, Noted(d, s, to, mine))
  {}

  lemma SameRunContinues(d: Diary, d': Diary, e: Diary)
    requires Continues(d, d') && e.run == d'.run && e.mine == d'.mine
    ensures Continues(d, e)
  {
    forall i: nat | i < |d.mine| ensures SameEntry(d, e, i) {
      assert SameEntry(d, d', i);
    }
  }

  lemma NotedKept(d: Diary, t: Table, s: Step, mine: bool, worker: string, script: seq<Pass>)
    requires Keeps(d, t, worker, script) && Enabled(t, s)
    requires if mine then OwnStep(s, worker) else OthersStep(s, script)
    ensures Keeps(Noted(d, s, Apply(t, s), mine), Apply(t, s), worker, script)
    ensures Continues(d, Noted(d, s, Apply(t, s), mine))
  {
    NotedLeads(d, t, s, mine);
    NotedContinues(d, s, Apply(t, s), mine);
    NotedAttributed(d.run.steps, d.mine, s, mine, worker, script);
  }

  /** What was noted before stays as it was. */
  lemma NotedKeeps(d: Diary, s: Step, to: Table, mine: bool, i: nat)
    requires d.run.Shaped() && |d.mine| == |d.run.steps| && i < |d.mine|
    ensures var d' := Noted(d, s, to, mine);
            && EventAt(d'.run, i) == EventAt(d.run, i) && d'.run.tables[i + 1] == d.run.tables[i + 1]
            && (OwnClaim(d', i) <==> OwnClaim(d, i)) && (OwnEnd(d', i) <==> OwnEnd(d, i))
  {}

  predicate Claims(e: Event) {
    e.ClaimedBy?
  }

  predicate Finishes(e: Event) {
    e.CompletedBy? || e.FailedBy?
  }

  lemma NotedSets(d: Diary, s: Step, to: Table, mine: bool)
    requires d.run.Shaped() && |d.mine| == |d.run.steps|
    ensures var d', n, e := Noted(d, s, to, mine), |d.mine|, EventOf(d.run.tables[|d.mine|], s);
            && OwnClaims(d') == OwnClaims(d) + (if mine && Claims(e) then {n} else {})
            && OwnEnds(d') == OwnEnds(d) + (if mine && Finishes(e) then {n} else {})
  {
    var d', n := Noted(d, s, to, mine), |d.mine|;
    assert EventAt(d'.run, n) == EventOf(d.run.tables[n], s);
    forall i: nat | i < n ensures (OwnClaim(d', i) <==> OwnClaim(d, i)) && (OwnEnd(d', i) <==> OwnEnd(d, i)) {
      NotedKeeps(d, s, to, mine, i);
    }
  }

  lemma NotedTurnOk(d: Diary, s: Step, to: Table, mine: bool, t: Turn, worker: string, p: Pass, secrets: seq<string>)
    requires TurnOk(d, t, worker, p, secrets) && |d.mine| == |d.run.steps|
    ensures TurnOk(Noted(d, s, to, mine), t, worker, p, secrets)
  {
    NotedKeeps(d, s, to, mine, t.claim);
    NotedKeeps(d, s, to, mine, t.end);
  }

  lemma NotedTurns(d: Diary, s: Step, to: Table, mine: bool, worker: string, script: seq<Pass>, secrets: seq<string>)
    requires Matched(d, worker, script, secrets)
    ensures TurnsOk(Noted(d, s, to, mine), d.turns, worker, script, secrets)
  {
    forall k | 0 <= k < |d.turns| ensures TurnOk(Noted(d, s, to, mine), d.turns[k], worker, script[k], secrets) {
      NotedTurnOk(d, s, to, mine, d.turns[k], worker, script[k], secrets);
    }
  }

  /** Steps of others, refused steps and recoveries leave the turns alone. */
  lemma NotedMatched(d: Diary, s: Step, to: Table, mine: bool, worker: string, script: seq<Pass>, secrets: seq<string>)
    requires Matched(d, worker, script, secrets)
    requires var e := EventOf(d.run.tables[|d.mine|], s); mine ==> !Claims(e) && !Finishes(e)
    ensures Matched(Noted(d, s, to, mine), worker, script, secrets)
  {
    NotedTurns(d, s, to, mine, worker, script, secrets);
    NotedSets(d, s, to, mine);
  }

  function Opened(d: Diary): Diary
    requires |d.mine| > 0
  {
    d.(open := Some(|d.mine| - 1))
  }

  lemma SameRun(d: Diary, e: Diary)
    requires d.run == e.run && d.mine == e.mine
    ensures OwnClaims(d) == OwnClaims(e) && OwnEnds(d) == OwnEnds(e)
  {
    forall i: nat | i < |d.mine| ensures (OwnClaim(d, i) <==> OwnClaim(e, i)) && (OwnEnd(d, i) <==> OwnEnd(e, i)) {}
  }

  lemma SameRunTurnsOk(d: Diary, e: Diary, turns: seq<Turn>, worker: string, script: seq<Pass>, secrets: seq<string>)
    requires d.run == e.run && TurnsOk(d, turns, worker, script, secrets)
    ensures TurnsOk(e, turns, worker, script, secrets)
  {
    forall k | 0 <= k < |turns| ensures TurnOk(e, turns[k], worker, script[k], secrets) {
      assert TurnOk(d, turns[k], worker, script[k], secrets);
    }
  }

  /** An own claim opens a turn. */
  lemma ClaimMatched(d: Diary, s: Step, to: Table, worker: string, script: seq<Pass>, secrets: seq<string>)
    requires Matched(d, worker, script, secrets) && d.open.None?
    requires Claims(EventOf(d.run.tables[|d.mine|], s))
    ensures Matched(Opened(Noted(d, s, to, true)), worker, script, secrets)
  {
    var d1 := Noted(d, s, to, true);
    var d' := Opened(d1);
    NotedTurns(d, s, to, true, worker, script, secrets);
    NotedSets(d, s, to, true);
    SameRun(d1, d');
    SameRunTurnsOk(d1, d', d.turns, worker, script, secrets);
  }

  function Closed(d: Diary, o: TickOutcome): Diary
    requires d.open.Some? && |d.mine| > 0
  {
    d.(turns := d.turns + [Turn(d.open.value, |d.mine| - 1, o)], open := None)
  }

  lemma OneMoreTurn(turns: seq<Turn>, t: Turn)
    ensures ClaimsOf(turns + [t]) == ClaimsOf(turns) + {t.claim} && EndsOf(turns + [t]) == EndsOf(turns) + {t.end}
  {
    var more := turns + [t];
    assert more[|turns|] == t;
    assert forall k :: 0 <= k < |turns| ==> more[k] == turns[k];
  }

  lemma OneMoreInOrder(turns: seq<Turn>, t: Turn)
    requires InOrder(turns, t.claim) && t.claim < t.end
    ensures InOrder(turns + [t], t.end + 1)
  {
    var more := turns + [t];
    forall k | 0 <= k < |more| ensures EndsBefore(more[k], t.end + 1) {
      assert k < |turns| ==> EndsBefore(turns[k], t.claim);
    }
    forall j, k | 0 <= j < k < |more| ensures Precedes(more[j], more[k]) {
      assert EndsBefore(turns[j], t.claim) && (k < |turns| ==> Precedes(turns[j], turns[k]));
    }
  }

  /** The last step ends the open claim. */
  ghost predicate EndsOpen(d: Diary, s: Step, to: Table, o: TickOutcome, worker: string, p: Pass, secrets: seq<string>) {
    && d.run.Shaped() && |d.mine| == |d.run.steps| && d.open.Some? && d.open.value < |d.mine|
    && EventAt(d.run, d.open.value) == ClaimedBy(o.job, worker)
    && Ends(EventOf(d.run.tables[|d.mine|], s), o.job, worker)
    && OutcomeOk(EventOf(d.run.tables[|d.mine|], s), to, o, p, secrets)
  }

  lemma EndTurnOk(d: Diary, s: Step, to: Table, o: TickOutcome, worker: string, p: Pass, secrets: seq<string>)
    requires EndsOpen(d, s, to, o, worker, p, secrets)
    ensures TurnOk(Closed(Noted(d, s, to, true), o), Turn(d.open.value, |d.mine|, o), worker, p, secrets)
  {
    NotedKeeps(d, s, to, true, d.open.value);
    assert EventAt(Noted(d, s, to, true).run, |d.mine|) == EventOf(d.run.tables[|d.mine|], s);
  }

  lemma EndSets(d: Diary, s: Step, to: Table, o: TickOutcome, worker: string, p: Pass, secrets: seq<string>)
    requires EndsOpen(d, s, to, o, worker, p, secrets)
    ensures OwnClaims(Closed(Noted(d, s, to, true), o)) == OwnClaims(d)
    ensures OwnEnds(Closed(Noted(d, s, to, true), o)) == OwnEnds(d) + {|d.mine|}
  {
    NotedSets(d, s, to, true);
    SameRun(Noted(d, s, to, true), Closed(Noted(d, s, to, true), o));
  }

  lemma OneMoreTurnOk(d: Diary, turns: seq<Turn>, t: Turn, worker: string, script: seq<Pass>, secrets: seq<string>)
    requires TurnsOk(d, turns, worker, script, secrets) && |turns| < |script|
    requires TurnOk(d, t, worker, script[|turns|], secrets)
    ensures TurnsOk(d, turns + [t], worker, script, secrets)
  {}

  lemma EndTurnsOk(d: Diary, s: Step, to: Table, o: TickOutcome, worker: string, script: seq<Pass>, secrets: seq<string>)
    requires Matched(d, worker, script, secrets) && |d.turns| < |script|
    requires EndsOpen(d, s, to, o, worker, script[|d.turns|], secrets)
    ensures TurnsOk(Closed(Noted(d, s, to, true), o), d.turns + [Turn(d.open.value, |d.mine|, o)], worker, script, secrets)
  {
    var d1 := Noted(d, s, to, true);
    NotedTurns(d, s, to, true, worker, script, secrets);
    SameRunTurnsOk(d1, Closed(d1, o), d.turns, worker, script, secrets);
    EndTurnOk(d, s, to, o, worker, script[|d.turns|], secrets);
    OneMoreTurnOk(Closed(d1, o), d.turns, Turn(d.open.value, |d.mine|, o), worker, script, secrets);
  }

  /** A turn more, and the sets that go with it. */
  lemma OneMoreMatched(d: Diary, d': Diary, t: Turn, worker: string, script: seq<Pass>, secrets: seq<string>)
    requires Matched(d, worker, script, secrets) && d.open == Some(t.claim) && t.end == |d.mine|
    requires d'.run.Shaped() && |d'.mine| == |d'.run.steps| == |d.mine| + 1
    requires d'.turns == d.turns + [t] && d'.open.None? && TurnsOk(d', d'.turns, worker, script, secrets)
    requires OwnClaims(d') == OwnClaims(d) && OwnEnds(d') == OwnEnds(d) + {t.end}
    ensures Matched(d', worker, script, secrets)
  {
    OneMoreInOrder(d.turns, t);
    OneMoreTurn(d.turns, t);
  }

  /** An effective own end closes the turn. */
  lemma EndMatched(d: Diary, s: Step, to: Table, o: TickOutcome, worker: string, script: seq<Pass>, secrets: seq<string>)
    requires Matched(d, worker, script, secrets) && |d.turns| < |script|
    requires EndsOpen(d, s, to, o, worker, script[|d.turns|], secrets)
    ensures Matched(Closed(Noted(d, s, to, true), o), worker, script, secrets)
  {
    EndTurnsOk(d, s, to, o, worker, script, secrets);
    EndSets(d, s, to, o, worker, script[|d.turns|], secrets);
    OneMoreMatched(d, Closed(Noted(d, s, to, true), o), Turn(d.open.value, |d.mine|, o), worker, script, secrets);
  }

  /** The first step noted since is the worker's own `s`. */
  ghost predicate GoesOnWith(d: Diary, d': Diary, s: Step) {
    && |d.mine| < |d'.mine| && d'.mine[|d.mine|]
    && |d.mine| < |d'.run.steps| && d'.run.steps[|d.mine|] == s
  }

  predicate Foreign(d: Diary, k: nat)
    requires k < |d.mine|
  {
    !d.mine[k]
  }

  /** All steps noted since are those of others. */
  ghost predicate OnlyOthers(d: Diary, d': Diary) {
    forall k: nat :: |d.mine| <= k < |d'.mine| ==> Foreign(d', k)
  }

  /** The first own step noted since is `s`. */
  ghost predicate OwnFirst(d: Diary, d': Diary, s: Step) {
    exists i: nat :: IsOwnFirst(d, d', s, i)
  }

  ghost predicate IsOwnFirst(d: Diary, d': Diary, s: Step, i: nat) {
    && |d.mine| <= i < |d'.mine| == |d'.run.steps| && !Foreign(d', i) && d'.run.steps[i] == s
    && forall k: nat :: |d.mine| <= k < i ==> Foreign(d', k)
  }

  lemma OwnFirstAfterOthers(a: Diary, b: Diary, c: Diary, s: Step)
    requires Continues(a, b) && OnlyOthers(a, b) && GoesOnWith(b, c, s) && Continues(b, c)
    ensures OwnFirst(a, c, s)
  {
    forall k: nat | |a.mine| <= k < |b.mine| ensures Foreign(c, k) {
      assert Foreign(b, k) && SameEntry(b, c, k);
    }
    assert IsOwnFirst(a, c, s, |b.mine|);
  }

  lemma OwnFirstKept(a: Diary, b: Diary, c: Diary, s: Step)
    requires OwnFirst(a, b, s) && Continues(b, c)
    ensures OwnFirst(a, c, s)
  {
    var i: nat :| IsOwnFirst(a, b, s, i);
    assert SameEntry(b, c, i);
    forall k: nat | |a.mine| <= k < i ensures Foreign(c, k) {
      assert Foreign(b, k) && SameEntry(b, c, k);
    }
    assert IsOwnFirst(a, c, s, i);
  }

  /** The table a diary had come to is still in its continuation. */
  lemma ContinuedTable(d: Diary, d': Diary)
    requires Continues(d, d')
    ensures d'.run.tables[|d.mine|] == d.run.tables[|d.mine|]
  {
    if |d.mine| > 0 {
      assert SameEntry(d, d', |d.mine| - 1);
    }
  }

  // ---------------------------------------------------------------------
  // When a pass succeeds
  // ---------------------------------------------------------------------

  /** The table after others took those of the first `n` steps that were open to them. */
  function Interfered(t: Table, steps: seq<Step>, n: nat): Table
    requires n <= |steps|
  {
    if n == 0 then t
    else
      var before := Interfered(t, steps, n - 1);
      if Enabled(before, steps[n - 1]) then Apply(before, steps[n - 1]) else before
  }

  function Meddled(t: Table, steps: seq<Step>): Table {
    Interfered(t, steps, |steps|)
  }

  /** The dispatcher and the other stores answer, the worker still holds the job, and
      a failed job can be scheduled again. */
  predicate FinalizeWorks(t: Table, id: JobId, worker: string, p: Pass) {
    && p.dispatch.Some? && p.eventOk && Holds(t, id, worker)
    && (if p.dispatch.value.Failed? then CanFail(t[id], p.finishAt) else p.dispatch.value.InProgress? || p.observeOk)
  }

  function ClaimStep(p: Pass, worker: string, lease: Duration, pick: Option<JobId>): Step {
    Step.Claim(worker, p.now, lease, p.locked, pick)
  }

  /** The lease has an end in the calendar, and what is picked is finalized. */
  predicate ClaimWorks(t: Table, p: Pass, worker: string, lease: Duration, pick: Option<JobId>) {
    && InCalendar(p.now + lease)
    && (pick.Some? ==>
          FinalizeWorks(Meddled(Apply(t, ClaimStep(p, worker, lease, pick)), p.meanwhile), pick.value, worker, p))
  }

  /** The table a pass recovers, and the one it claims from. */
  function RecoverTable(t: Table, p: Pass): Table {
    Meddled(t, p.between)
  }

  function ClaimTable(t: Table, p: Pass): Table {
    Meddled(Apply(RecoverTable(t, p), Step.Recover(p.now)), p.before)
  }

  predicate RecoveryWorks(t: Table, p: Pass) {
    ExpiredIds(t, p.now) == {} || p.recoveryEventOk
  }

  predicate PassWorks(t: Table, p: Pass, worker: string, lease: Duration, pick: Option<JobId>) {
    && RecoveryWorks(RecoverTable(t, p), p)
    && (p.stopping || ClaimWorks(ClaimTable(t, p), p, worker, lease, pick))
  }

  /** A pass that comes to its claim picks what the table offers. */
  predicate PickAllowed(t: Table, p: Pass, worker: string, lease: Duration, pick: Option<JobId>) {
    RecoveryWorks(RecoverTable(t, p), p) && !p.stopping && InCalendar(p.now + lease) ==>
      Enabled(ClaimTable(t, p), ClaimStep(p, worker, lease, pick))
  }

  /** The pass behind the finished turns began at step `at` and could not succeed. */
  ghost predicate PassFailed(d: Diary, at: nat, worker: string, lease: Duration, script: seq<Pass>, pick: Option<JobId>) {
    && d.run.Shaped() && |d.turns| < |script| && at <= |d.run.steps|
    && (forall k :: 0 <= k < |d.turns| ==> d.turns[k].end < at)
    && PickAllowed(d.run.tables[at], script[|d.turns|], worker, lease, pick)
    && !PassWorks(d.run.tables[at], script[|d.turns|], worker, lease, pick)
  }

  // ---------------------------------------------------------------------
  // What a matched diary says
  // ---------------------------------------------------------------------

  /** The end at `j` follows the claim at `i` with no claim or end in between. */
  ghost predicate Follows(claims: set<nat>, ends: set<nat>, i: nat, j: nat) {
    i in claims && j in ends && i < j && forall k: nat :: i < k < j ==> k !in claims && k !in ends
  }

  lemma TurnFollows(turns: seq<Turn>, bound: nat, t: nat)
    requires InOrder(turns, bound) && t < |turns|
    ensures Follows(ClaimsOf(turns), EndsOf(turns), turns[t].claim, turns[t].end)
  {
    assert EndsBefore(turns[t], bound);
    forall u | 0 <= u < |turns|
      ensures !(turns[t].claim < turns[u].claim < turns[t].end) && !(turns[t].claim < turns[u].end < turns[t].end)
    {
      assert EndsBefore(turns[u], bound);
      assert (u < t ==> Precedes(turns[u], turns[t])) && (t < u ==> Precedes(turns[t], turns[u]));
    }
  }

  /** Every claim has exactly one end, every end exactly one claim. */
  lemma TurnsPairUp(turns: seq<Turn>, bound: nat)
    requires InOrder(turns, bound)
    ensures forall i: nat :: i in ClaimsOf(turns) ==> exists j: nat :: Follows(ClaimsOf(turns), EndsOf(turns), i, j)
    ensures forall j: nat :: j in EndsOf(turns) ==> exists i: nat :: Follows(ClaimsOf(turns), EndsOf(turns), i, j)
    ensures |ClaimsOf(turns)| == |turns| == |EndsOf(turns)|
  {
    forall i: nat | i in ClaimsOf(turns) ensures exists j: nat :: Follows(ClaimsOf(turns), EndsOf(turns), i, j) {
      var t :| 0 <= t < |turns| && turns[t].claim == i;
      TurnFollows(turns, bound, t);
    }
    forall j: nat | j in EndsOf(turns) ensures exists i: nat :: Follows(ClaimsOf(turns), EndsOf(turns), i, j) {
      var t :| 0 <= t < |turns| && turns[t].end == j;
      TurnFollows(turns, bound, t);
    }
    TurnsCount(turns, bound);
  }

  lemma OneFewerInOrder(turns: seq<Turn>, bound: nat)
    requires InOrder(turns, bound) && turns != []
    ensures InOrder(turns[..|turns| - 1], turns[|turns| - 1].claim)
  {
    var n := |turns| - 1;
    forall k | 0 <= k < n ensures EndsBefore(turns[..n][k], turns[n].claim) {
      assert EndsBefore(turns[k], bound) && Precedes(turns[k], turns[n]);
    }
    forall j, k | 0 <= j < k < n ensures Precedes(turns[..n][j], turns[..n][k]) {
      assert Precedes(turns[j], turns[k]);
    }
  }

  lemma AllBefore(turns: seq<Turn>, bound: nat, i: nat)
    requires InOrder(turns, bound) && bound <= i
    ensures i !in ClaimsOf(turns) && i !in EndsOf(turns)
  {
    forall k | 0 <= k < |turns| ensures turns[k].claim < i && turns[k].end < i {
      assert EndsBefore(turns[k], bound);
    }
  }

  lemma {:induction false} TurnsCount(turns: seq<Turn>, bound: nat)
    requires InOrder(turns, bound)
    ensures |ClaimsOf(turns)| == |turns| == |EndsOf(turns)|
  {
    if turns != [] {
      var front, last := turns[..|turns| - 1], turns[|turns| - 1];
      assert turns == front + [last];
      assert EndsBefore(last, bound);
      OneFewerInOrder(turns, bound);
      TurnsCount(front, last.claim);
      OneMoreTurn(front, last);
      AllBefore(front, last.claim, last.claim);
      AllBefore(front, last.claim, last.end);
    }
  }

  /** An end that follows a claim is unique, and so is the claim it follows. */
  lemma FollowsIsOneToOne(claims: set<nat>, ends: set<nat>, i: nat, j: nat, i': nat, j': nat)
    requires Follows(claims, ends, i, j) && Follows(claims, ends, i', j')
    ensures i == i' <==> j == j'
  {}

  /** In a diary without an open claim, every effective claim of the worker is
      followed by exactly one effective end before its next claim, every end follows
      exactly one claim, and there are as many as turns. */
  lemma ClaimsAndEndsPairUp(d: Diary, worker: string, script: seq<Pass>, secrets: seq<string>)
    requires Matched(d, worker, script, secrets) && d.open.None?
    ensures forall i: nat :: i in OwnClaims(d) ==> exists j: nat :: Follows(OwnClaims(d), OwnEnds(d), i, j)
    ensures forall j: nat :: j in OwnEnds(d) ==> exists i: nat :: Follows(OwnClaims(d), OwnEnds(d), i, j)
    ensures |OwnClaims(d)| == |d.turns| == |OwnEnds(d)|
  {
    TurnsPairUp(d.turns, |d.mine|);
    assert OwnClaims(d) == ClaimsOf(d.turns);
  }

  /** The end is one of the claimed job. */
  lemma EndIsOfClaim(d: Diary, worker: string, script: seq<Pass>, secrets: seq<string>, i: nat, j: nat)
    requires Matched(d, worker, script, secrets) && d.open.None? && Follows(OwnClaims(d), OwnEnds(d), i, j)
    ensures i < |d.run.steps| && j < |d.run.steps| && EventAt(d.run, i).ClaimedBy?
    ensures EventAt(d.run, i).worker == worker && Ends(EventAt(d.run, j), EventAt(d.run, i).id, worker)
  {
    assert OwnClaims(d) == ClaimsOf(d.turns);
    var t :| 0 <= t < |d.turns| && d.turns[t].claim == i;
    TurnFollows(d.turns, |d.mine|, t);
    FollowsIsOneToOne(ClaimsOf(d.turns), EndsOf(d.turns), i, j, i, d.turns[t].end);
    assert TurnOk(d, d.turns[t], worker, script[t], secrets);
  }

  // ---------------------------------------------------------------------
  // Counting
  // ---------------------------------------------------------------------

  datatype WorkerStats = WorkerStats(
    recovered: nat, claimed: nat, completed: nat, inProgress: nat, retried: nat, deadLettered: nat, idle: nat)

  const NO_STATS: WorkerStats := WorkerStats(0, 0, 0, 0, 0, 0, 0)

  datatype Ending = Finished | Progressing | Rescheduled | Buried

  function EndingOf(o: TickOutcome): Ending {
    match o
    case Completed(_, ready) => if ready then Finished else Progressing
    case Retried(_) => Rescheduled
    case DeadLettered(_) => Buried
  }

  function EndedSo(turns: seq<Turn>, e: Ending): set<nat> {
    set k: nat | k < |turns| && EndingOf(turns[k].outcome) == e
  }

  /** How many turns ended this way. */
  function CountOf(turns: seq<Turn>, e: Ending): nat {
    |EndedSo(turns, e)|
  }

  lemma EndedSoOneMore(turns: seq<Turn>, t: Turn, e: Ending)
    ensures EndedSo(turns + [t], e) == EndedSo(turns, e) + (if EndingOf(t.outcome) == e then {|turns|} else {})
  {
    forall k: nat | k < |turns| ensures (turns + [t])[k] == turns[k] {}
  }

  lemma CountOneMore(turns: seq<Turn>, t: Turn, e: Ending)
    ensures CountOf(turns + [t], e) == CountOf(turns, e) + (if EndingOf(t.outcome) == e then 1 else 0)
  {
    EndedSoOneMore(turns, t, e);
    assert |turns| !in EndedSo(turns, e);
  }

  /** The jobs an own recovery frees. */
  function FreedBy(t: Table, s: Step, mine: bool): nat {
    if mine && s.Recover? then |ExpiredIds(t, s.now)| else 0
  }

  /** The jobs the worker's own recoveries freed in the first `n` steps. */
  function RecoveredIn(run: Trace, mine: seq<bool>, n: nat): nat
    requires run.Shaped() && |mine| == |run.steps| && n <= |mine|
  {
    if n == 0 then 0
    else RecoveredIn(run, mine, n - 1) + FreedBy(run.tables[n - 1], run.steps[n - 1], mine[n - 1])
  }

  ghost predicate Accounts(s: WorkerStats, d: Diary) {
    && d.run.Shaped() && |d.mine| == |d.run.steps|
    && s.recovered == Freed(d)
    && s.claimed == |d.turns|
    && s.completed == CountOf(d.turns, Finished)
    && s.inProgress == CountOf(d.turns, Progressing)
    && s.retried == CountOf(d.turns, Rescheduled)
    && s.deadLettered == CountOf(d.turns, Buried)
  }

  /** The counters after a finished turn. */
  function Counted(s: WorkerStats, o: TickOutcome): WorkerStats {
    var s' := s.(claimed := s.claimed + 1);
    match o
    case Completed(_, ready) =>
      if ready then s'.(completed := s'.completed + 1) else s'.(inProgress := s'.inProgress + 1)
    case Retried(_) => s'.(retried := s'.retried + 1)
    case DeadLettered(_) => s'.(deadLettered := s'.deadLettered + 1)
  }

  lemma {:induction false} CountsAddUp(turns: seq<Turn>)
    ensures CountOf(turns, Finished) + CountOf(turns, Progressing) + CountOf(turns, Rescheduled) + CountOf(turns, Buried)
         == |turns|
  {
    if turns != [] {
      var front, last := turns[..|turns| - 1], turns[|turns| - 1];
      assert turns == front + [last];
      CountsAddUp(front);
      forall e: Ending ensures CountOf(turns, e) == CountOf(front, e) + (if EndingOf(last.outcome) == e then 1 else 0) {
        CountOneMore(front, last, e);
      }
    }
  }

  lemma {:induction false} RecoveredKept(d: Diary, s: Step, to: Table, mine: bool, n: nat)
    requires d.run.Shaped() && |d.mine| == |d.run.steps| && n <= |d.mine|
    ensures var d' := Noted(d, s, to, mine); RecoveredIn(d'.run, d'.mine, n) == RecoveredIn(d.run, d.mine, n)
  {
    if n > 0 {
      RecoveredKept(d, s, to, mine, n - 1);
    }
  }

  function Freed(d: Diary): nat
    requires d.run.Shaped() && |d.mine| == |d.run.steps|
  {
    RecoveredIn(d.run, d.mine, |d.mine|)
  }

  lemma NotedFreed(d: Diary, s: Step, to: Table, mine: bool)
    requires d.run.Shaped() && |d.mine| == |d.run.steps|
    ensures Freed(Noted(d, s, to, mine)) == Freed(d) + FreedBy(d.run.tables[|d.mine|], s, mine)
  {
    RecoveredKept(d, s, to, mine, |d.mine|);
  }

  /** Counting a finished turn keeps the accounts. */
  lemma CountedAccounts(stats: WorkerStats, d: Diary, d': Diary, t: Turn)
    requires Accounts(stats, d) && d'.run.Shaped() && |d'.mine| == |d'.run.steps|
    requires d'.turns == d.turns + [t] && Freed(d') == Freed(d)
    ensures Accounts(Counted(stats, t.outcome), d')
  {
    forall e: Ending ensures CountOf(d'.turns, e) == CountOf(d.turns, e) + (if EndingOf(t.outcome) == e then 1 else 0) {
      CountOneMore(d.turns, t, e);
    }
  }

  /** What the counters count: turns that ended with the job ready, otherwise
      completed, failed and queued again, and failed for good. */
  lemma CountersMean(stats: WorkerStats, d: Diary)
    requires Accounts(stats, d)
    ensures stats.completed == |set k: nat | k < |d.turns| && d.turns[k].outcome.Completed? && d.turns[k].outcome.ready|
    ensures stats.inProgress == |set k: nat | k < |d.turns| && d.turns[k].outcome.Completed? && !d.turns[k].outcome.ready|
    ensures stats.retried == |set k: nat | k < |d.turns| && d.turns[k].outcome.Retried?|
    ensures stats.deadLettered == |set k: nat | k < |d.turns| && d.turns[k].outcome.DeadLettered?|
  {
    assert EndedSo(d.turns, Finished) == set k: nat | k < |d.turns| && d.turns[k].outcome.Completed? && d.turns[k].outcome.ready;
    assert EndedSo(d.turns, Progressing) == set k: nat | k < |d.turns| && d.turns[k].outcome.Completed? && !d.turns[k].outcome.ready;
    assert EndedSo(d.turns, Rescheduled) == set k: nat | k < |d.turns| && d.turns[k].outcome.Retried?;
    assert EndedSo(d.turns, Buried) == set k: nat | k < |d.turns| && d.turns[k].outcome.DeadLettered?;
  }

  lemma AccountsBalance(stats: WorkerStats, d: Diary)
    requires Accounts(stats, d)
    ensures stats.claimed == stats.completed + stats.inProgress + stats.retried + stats.deadLettered
  {
    CountsAddUp(d.turns);
  }
}
