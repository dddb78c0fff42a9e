/** Concurrent audit appends: transactions that take the advisory lock, read the
    last row, insert, and commit or abort, in every interleaving. */
module AuditTransactions {
  import opened Prelude
  import opened Redaction
  import opened AuditLogs

  // ---------------------------------------------------------------------
  // Timestamps
  // ---------------------------------------------------------------------

  /** `round_subsecs(6)`: to the nearest microsecond, halves up. */
  function RoundMicros(t: Instant): Instant {
    var down := t % 1000;
    if 1000 - down <= down then t + (1000 - down) else t - down
  }

  /** Midnight of the first of January 2000, from which the column counts. */
  const COLUMN_EPOCH: Instant := 946684800 * NANOS_PER_SECOND

  function TruncateMicros(d: Duration): Duration {
    if d >= 0 then d / 1000 * 1000 else -((-d) / 1000 * 1000)
  }

  /** What the microsecond column gives back for a written instant: the whole
      microseconds between it and the epoch. */
  function StoredInstant(t: Instant): Instant {
    COLUMN_EPOCH + TruncateMicros(t - COLUMN_EPOCH)
  }

  function Stored(r: AuditRecord): AuditRecord {
    r.(at := StoredInstant(r.at))
  }

  /** Rounding picks the nearest microsecond, and the column stores it unchanged. */
  lemma RoundedIsExact(t: Instant)
    ensures -500 < RoundMicros(t) - t <= 500
    ensures StoredInstant(RoundMicros(t)) == RoundMicros(t)
  {
    var q, down := t / 1000, t % 1000;
    assert t == 1000 * q + down;
    WholeMicrosAreStored(if 1000 - down <= down then q + 1 else q);
  }

  lemma WholeMicrosAreStored(q: int)
    ensures StoredInstant(1000 * q) == 1000 * q
  {
    var d := q - COLUMN_EPOCH / 1000;
    assert 1000 * q - COLUMN_EPOCH == 1000 * d;
    ThousandDivides(if d < 0 then -d else d);
  }

  /** The column is off by less than a microsecond, and since 2000 never ahead. */
  lemma StoredIsClose(t: Instant)
    ensures -1000 < StoredInstant(t) - t < 1000 && (t >= COLUMN_EPOCH ==> StoredInstant(t) <= t)
  {}

  lemma ThousandDivides(n: nat)
    ensures (1000 * n) / 1000 == n
  {}

  /** Without the rounding a reloaded record fails verification, unless its time
      was whole microseconds or the digest cannot tell the two times apart. */
  lemma RoundingIsNeeded(digest: Digest, e: Entry)
    ensures var r := Chained(digest, [], e);
            (WellFormed(digest, [Stored(r)]) <==>
             (StoredInstant(e.at) == e.at || digest(Content(r)) == digest(Content(Stored(r)))))
  {
    var r := Chained(digest, [], e);
    var log := [Stored(r)];
    assert log[..0] == [];
    assert WellFormed(digest, log) <==> GoodRecord(digest, log, 0);
  }

  // ---------------------------------------------------------------------
  // The table and the transactions in flight
  // ---------------------------------------------------------------------

  type TxId = nat

  datatype Stage =
    | Started
    | Locked
    | HasRead(sequence: nat, prevHash: string)
    | Inserted(record: AuditRecord)

  datatype Tx = Tx(entry: Entry, stage: Stage)

  /** `rows` is what is committed; `commits` remembers the committed requests in
      commit order. */
  datatype System = System(rows: map<nat, AuditRecord>, lock: Option<TxId>, txs: map<TxId, Tx>, commits: seq<Entry>)

  const EMPTY: System := System(map[], None, map[], [])

  datatype Step =
    | Begin(tx: TxId, entry: Entry)
    | AcquireLock(tx: TxId)
    | ReadLast(tx: TxId)
    | Insert(tx: TxId)
    | Commit(tx: TxId)
    | Abort(tx: TxId)

  predicate At(s: System, tx: TxId, stage: Stage) {
    tx in s.txs && s.txs[tx].stage == stage
  }

  /** `ORDER BY sequence DESC LIMIT 1`. */
  predicate IsLast(rows: map<nat, AuditRecord>, k: nat) {
    k in rows && forall o :: o in rows ==> o <= k
  }

  ghost function NextLink(rows: map<nat, AuditRecord>): (nat, string) {
    if exists k: nat :: IsLast(rows, k) then
      var k: nat :| IsLast(rows, k);
      (k + 1, rows[k].hash)
    else (1, GENESIS)
  }

  /** The entry as it is hashed. */
  function Rounded(e: Entry): Entry {
    e.(at := RoundMicros(e.at))
  }

  function NewRecord(digest: Digest, e: Entry, sequence: nat, prevHash: string): AuditRecord {
    var content := Hashed(sequence, RoundMicros(e.at), e.actor, e.action, e.target, Redacted(e.detail, e.secrets), prevHash);
    AuditRecord(content.sequence, content.at, content.actor, content.action, content.target, content.detail,
                content.prevHash, digest(content))
  }

  /** The lock is granted to one transaction at a time, the guard on the detail lets
      an insert through only without leaks, and any transaction may abort. */
  ghost predicate Enabled(s: System, step: Step) {
    match step
    case Begin(tx, _) => tx !in s.txs
    case AcquireLock(tx) => At(s, tx, Started) && s.lock.None?
    case ReadLast(tx) => At(s, tx, Locked)
    case Insert(tx) =>
      && tx in s.txs && s.txs[tx].stage.HasRead?
      && Guarded("audit.detail", s.txs[tx].entry.detail, s.txs[tx].entry.secrets).Ok?
    case Commit(tx) => tx in s.txs && s.txs[tx].stage.Inserted?
    case Abort(tx) => tx in s.txs
  }

  function SetStage(s: System, tx: TxId, stage: Stage): System
    requires tx in s.txs
  {
    s.(txs := s.txs[tx := s.txs[tx].(stage := stage)])
  }

  /** Ending a transaction releases the advisory lock it holds. */
  function Ended(s: System, tx: TxId): System {
    s.(txs := s.txs - {tx}, lock := if s.lock == Some(tx) then None else s.lock)
  }

  ghost function Apply(digest: Digest, s: System, step: Step): System
    requires Enabled(s, step)
  {
    match step
    case Begin(tx, e) => s.(txs := s.txs[tx := Tx(e, Started)])
    case AcquireLock(tx) => SetStage(s, tx, Locked).(lock := Some(tx))
    case ReadLast(tx) =>
      var (sequence, prevHash) := NextLink(s.rows);
      SetStage(s, tx, HasRead(sequence, prevHash))
    case Insert(tx) =>
      var t := s.txs[tx];
      SetStage(s, tx, Inserted(NewRecord(digest, t.entry, t.stage.sequence, t.stage.prevHash)))
    case Commit(tx) =>
      var record := s.txs[tx].stage.record;
      Ended(s, tx).(rows := s.rows[record.sequence := Stored(record)], commits := s.commits + [s.txs[tx].entry])
    case Abort(tx) => Ended(s, tx)
  }

  // ---------------------------------------------------------------------
  // The invariant
  // ---------------------------------------------------------------------

  function RoundedAll(entries: seq<Entry>): seq<Entry> {
    seq(|entries|, i requires 0 <= i < |entries| => Rounded(entries[i]))
  }

  /** The core log of the commits, in commit order. */
  function CoreLog(digest: Digest, s: System): Log {
    Built(digest, RoundedAll(s.commits))
  }

  /** The table holds exactly these records, numbered from one. */
  ghost predicate Holds(rows: map<nat, AuditRecord>, log: Log) {
    && (forall k :: k in rows <==> 1 <= k <= |log|)
    && (forall k :: 1 <= k <= |log| ==> k in rows && rows[k] == log[k - 1])
  }

  ghost predicate TxOk(digest: Digest, s: System, tx: TxId)
    requires tx in s.txs
  {
    var log := CoreLog(digest, s);
    var t := s.txs[tx];
    && (t.stage.Started? <==> s.lock != Some(tx))
    && (t.stage.HasRead? ==> t.stage.sequence == |log| + 1 && t.stage.prevHash == LastHash(log))
    && (t.stage.Inserted? ==> t.stage.record == Chained(digest, log, Rounded(t.entry)))
  }

  ghost predicate Inv(digest: Digest, s: System) {
    && Holds(s.rows, CoreLog(digest, s))
    && (s.lock.Some? ==> s.lock.value in s.txs)
    && forall tx :: tx in s.txs ==> TxOk(digest, s, tx)
  }

  lemma LinkIsChain(rows: map<nat, AuditRecord>, log: Log)
    requires Holds(rows, log)
    ensures NextLink(rows) == (|log| + 1, LastHash(log))
  {
    if log != [] {
      assert IsLast(rows, |log|);
    } else {
      assert forall k :: !IsLast(rows, k);
    }
  }

  lemma CommitExtends(digest: Digest, s: System, tx: TxId)
    requires Inv(digest, s) && Enabled(s, Commit(tx))
    ensures var after := Apply(digest, s, Commit(tx));
            && CoreLog(digest, after) == CoreLog(digest, s) + [s.txs[tx].stage.record]
            && Holds(after.rows, CoreLog(digest, after))
  {
    var e := s.txs[tx].entry;
    var all := RoundedAll(s.commits + [e]);
    assert all[..|all| - 1] == RoundedAll(s.commits) && all[|all| - 1] == Rounded(e);
    assert TxOk(digest, s, tx);
    RoundedIsExact(e.at);
  }

  lemma InvKept(digest: Digest, s: System, step: Step)
    requires Inv(digest, s) && Enabled(s, step)
    ensures Inv(digest, Apply(digest, s, step))
  {
    var after := Apply(digest, s, step);
    assert step.tx in s.txs ==> TxOk(digest, s, step.tx);
    LinkIsChain(s.rows, CoreLog(digest, s));
    if step.Commit? {
      CommitExtends(digest, s, step.tx);
    }
    forall tx | tx in after.txs ensures TxOk(digest, after, tx) {
      assert tx in s.txs ==> TxOk(digest, s, tx);
    }
  }

  // ---------------------------------------------------------------------
  // Every interleaving
  // ---------------------------------------------------------------------

  ghost predicate Run(digest: Digest, steps: seq<Step>, states: seq<System>) {
    && |states| == |steps| + 1
    && states[0] == EMPTY
    && forall i :: 0 <= i < |steps| ==> Enabled(states[i], steps[i]) && states[i + 1] == Apply(digest, states[i], steps[i])
  }

  lemma {:induction false} ReachableInv(digest: Digest, steps: seq<Step>, states: seq<System>, n: nat)
    requires Run(digest, steps, states) && n <= |steps|
    ensures Inv(digest, states[n])
  {
    if n == 0 {
      assert RoundedAll([]) == [];
    } else {
      ReachableInv(digest, steps, states, n - 1);
      InvKept(digest, states[n - 1], steps[n - 1]);
    }
  }

  /** `load`: the rows in sequence order. */
  function Loaded(rows: map<nat, AuditRecord>, n: nat): Log
    requires forall k :: 1 <= k <= n ==> k in rows
  {
    seq(n, i requires 0 <= i < n => rows[i + 1])
  }

  /** In every interleaving, with any transactions aborting, the committed table is
      numbered from one without gaps, reloads to the core log of the commits in
      commit order, and that log verifies. */
  lemma TableIsTheCommittedLog(digest: Digest, steps: seq<Step>, states: seq<System>, n: nat)
    requires Run(digest, steps, states) && n <= |steps|
    ensures var s := states[n];
            var count := |s.commits|;
            && (forall k :: k in s.rows <==> 1 <= k <= count)
            && Loaded(s.rows, count) == Built(digest, RoundedAll(s.commits))
            && WellFormed(digest, Loaded(s.rows, count))
  {
    ReachableInv(digest, steps, states, n);
    BuiltAccepted(digest, RoundedAll(states[n].commits));
  }

  /** Between its lock and its end a transaction is the only one past the lock, so
      what it inserts is still the next record when it commits. */
  lemma LockIsExclusive(digest: Digest, steps: seq<Step>, states: seq<System>, n: nat, a: TxId, b: TxId)
    requires Run(digest, steps, states) && n <= |steps|
    requires a in states[n].txs && b in states[n].txs
    requires !states[n].txs[a].stage.Started? && !states[n].txs[b].stage.Started?
    ensures a == b
  {
    ReachableInv(digest, steps, states, n);
    assert TxOk(digest, states[n], a) && TxOk(digest, states[n], b);
  }

  // ---------------------------------------------------------------------
  // One append by itself
  // ---------------------------------------------------------------------

  class PgAuditLog {
    const digest: Digest
    var rows: map<nat, AuditRecord>

    constructor (digest: Digest)
      ensures this.digest == digest && rows == map[] && Holds(rows, [])
    {
      this.digest, rows := digest, map[];
    }

    method LastSequence() returns (last: nat)
      ensures if rows == map[] then last == 0 else IsLast(rows, last)
    {
      last := 0;
      var rest := rows.Keys;
      while rest != {}
        invariant rest <= rows.Keys
        invariant last in rows || (last == 0 && rest == rows.Keys)
        invariant forall k :: k in rows && k !in rest ==> k <= last
        decreases |rest|
      {
        var k :| k in rest;
        if last !in rows || k > last {
          last := k;
        }
        rest := rest - {k};
      }
      assert rows != map[] ==> rows.Keys != {};
    }

    /** `append_audit` under the lock: the core append of the rounded entry, or
        nothing at all when the guard finds a secret. */
    method Append(e: Entry, ghost log: Log) returns (r: Result<AuditRecord, Leak>)
      requires Holds(rows, log)
      modifies this
      ensures r.Ok? <==> Guarded("audit.detail", e.detail, e.secrets).Ok?
      ensures r.Err? ==> rows == old(rows)
      ensures r.Ok? ==> r.value == Chained(digest, log, Rounded(e)) && Holds(rows, log + [r.value])
    {
      var at := RoundMicros(e.at);
      var last := LastSequence();
      assert log != [] ==> |log| in rows;
      var sequence := if rows == map[] then 1 else last + 1;
      var prevHash := if rows == map[] then GENESIS else rows[last].hash;
      var detail := RedactGuard("audit.detail", e.detail, e.secrets);
      if detail.Err? {
        return Err(detail.error);
      }
      var record := AuditRecord(sequence, at, e.actor, e.action, e.target, detail.value, prevHash, "");
      record := record.(hash := digest(Content(record)));
      RoundedIsExact(e.at);
      rows := rows[sequence := Stored(record)];
      return Ok(record);
    }
  }
}
