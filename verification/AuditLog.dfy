/** The hash-chained audit log. Every statement holds for every digest function. */
module AuditLogs {
  import opened Prelude
  import opened Redaction

  datatype AuditRecord = AuditRecord(
    sequence: nat,
    at: Instant,
    actor: string,
    action: string,
    target: string,
    detail: string,
    prevHash: string,
    hash: string)

  /** The fields the digest covers. */
  datatype Hashed = Hashed(
    sequence: nat, at: Instant, actor: string, action: string, target: string, detail: string, prevHash: string)

  type Digest = Hashed -> string

  /** What a caller asks to be recorded. */
  datatype Entry = Entry(
    at: Instant, actor: string, action: string, target: string, detail: string, secrets: seq<string>)

  type Log = seq<AuditRecord>

  function Zeros(n: nat): (s: string)
    ensures |s| == n && forall i :: 0 <= i < n ==> s[i] == '0'
  {
    if n == 0 then "" else "0" + Zeros(n - 1)
  }

  /** The link of the first record. */
  const GENESIS: string := Zeros(64)

  function Content(r: AuditRecord): Hashed {
    Hashed(r.sequence, r.at, r.actor, r.action, r.target, r.detail, r.prevHash)
  }

  function LastHash(log: Log): string {
    if log == [] then GENESIS else log[|log| - 1].hash
  }

  /** The record `append` adds behind `log`. */
  function Chained(digest: Digest, log: Log, e: Entry): AuditRecord {
    var content := Hashed(|log| + 1, e.at, e.actor, e.action, e.target, Redacted(e.detail, e.secrets), LastHash(log));
    AuditRecord(content.sequence, content.at, content.actor, content.action, content.target, content.detail,
                content.prevHash, digest(content))
  }

  function Built(digest: Digest, entries: seq<Entry>): Log {
    if entries == [] then []
    else
      var log := Built(digest, entries[..|entries| - 1]);
      log + [Chained(digest, log, entries[|entries| - 1])]
  }

  /** Gap-free numbers, linked hashes, and a correct digest in every record. */
  predicate GoodRecord(digest: Digest, log: Log, i: nat)
    requires i < |log|
  {
    && log[i].sequence == i + 1
    && log[i].prevHash == LastHash(log[..i])
    && log[i].hash == digest(Content(log[i]))
  }

  ghost predicate WellFormed(digest: Digest, log: Log) {
    forall i :: 0 <= i < |log| ==> GoodRecord(digest, log, i)
  }

  // ---------------------------------------------------------------------
  // The log object
  // ---------------------------------------------------------------------

  datatype Integrity = SequenceGap(index: nat) | ChainBreak(index: nat) | DigestMismatch(index: nat)

  /** The first of the three checks that record `i` fails. */
  function Fault(digest: Digest, log: Log, i: nat): (f: Option<Integrity>)
    requires i < |log|
    ensures f.None? <==> GoodRecord(digest, log, i)
  {
    if log[i].sequence != i + 1 then Some(SequenceGap(i))
    else if log[i].prevHash != LastHash(log[..i]) then Some(ChainBreak(i))
    else if log[i].hash != digest(Content(log[i])) then Some(DigestMismatch(i))
    else None
  }

  /** What each fault means: the checks go by number, link and digest. */
  ghost predicate FaultIs(digest: Digest, log: Log, f: Integrity) {
    f.index < |log|
    && var r, prev := log[f.index], if f.index == 0 then GENESIS else log[f.index - 1].hash;
       match f
       case SequenceGap(i) => r.sequence != i + 1
       case ChainBreak(i) => r.sequence == i + 1 && r.prevHash != prev
       case DigestMismatch(i) => r.sequence == i + 1 && r.prevHash == prev && r.hash != digest(Content(r))
  }

  class AuditLog {
    const digest: Digest
    var records: Log

    /** `restore` takes the stored records as they are. */
    constructor (digest: Digest, records: Log)
      ensures this.digest == digest && this.records == records
    {
      this.digest, this.records := digest, records;
    }

    method Append(e: Entry) returns (r: AuditRecord)
      modifies this
      ensures r == Chained(digest, old(records), e) && records == old(records) + [r]
      ensures WellFormed(digest, old(records)) ==> WellFormed(digest, records)
    {
      var detail := RedactReason(e.detail, e.secrets);
      var prevHash := if records == [] then GENESIS else records[|records| - 1].hash;
      r := AuditRecord(|records| + 1, e.at, e.actor, e.action, e.target, detail, prevHash, "");
      r := r.(hash := digest(Content(r)));
      AppendKeepsWellFormed(digest, records, e);
      records := records + [r];
    }

    /** `verify`: accepts exactly the well-formed logs and names the first fault. */
    method Verify() returns (r: Result<(), Integrity>)
      ensures r.Ok? <==> WellFormed(digest, records)
      ensures r.Err? ==>
                var i := r.error.index;
                i < |records| && WellFormed(digest, records[..i]) && Fault(digest, records, i) == Some(r.error)
      ensures r.Err? ==> FaultIs(digest, records, r.error)
    {
      var expectedPrev := GENESIS;
      var i := 0;
      while i < |records|
        invariant 0 <= i <= |records|
        invariant WellFormed(digest, records[..i])
        invariant expectedPrev == LastHash(records[..i])
      {
        var record := records[i];
        if record.sequence != i + 1 {
          PrefixFault(digest, records, i);
          return Err(SequenceGap(i));
        }
        if record.prevHash != expectedPrev {
          PrefixFault(digest, records, i);
          return Err(ChainBreak(i));
        }
        if record.hash != digest(Content(record)) {
          PrefixFault(digest, records, i);
          return Err(DigestMismatch(i));
        }
        OneMoreGood(digest, records, i);
        expectedPrev := record.hash;
        i := i + 1;
      }
      assert records[..i] == records;
      return Ok(());
    }
  }

  lemma PrefixFault(digest: Digest, log: Log, i: nat)
    requires i < |log| && !GoodRecord(digest, log, i)
    ensures !WellFormed(digest, log)
  {}

  lemma OneMoreGood(digest: Digest, log: Log, i: nat)
    requires i < |log| && WellFormed(digest, log[..i]) && GoodRecord(digest, log, i)
    ensures WellFormed(digest, log[..i + 1]) && LastHash(log[..i + 1]) == log[i].hash
  {
    var longer := log[..i + 1];
    forall k | 0 <= k < |longer| ensures GoodRecord(digest, longer, k) {
      assert longer[..k] == log[..k];
      if k < i {
        assert GoodRecord(digest, log[..i], k) && log[..i][..k] == log[..k];
      }
    }
  }

  lemma AppendKeepsWellFormed(digest: Digest, log: Log, e: Entry)
    ensures WellFormed(digest, log) ==> WellFormed(digest, log + [Chained(digest, log, e)])
  {
    var longer := log + [Chained(digest, log, e)];
    if WellFormed(digest, log) {
      assert longer[..|log|] == log && longer[..|log| + 1] == longer;
      OneMoreGood(digest, longer, |log|);
    }
  }

  /** Every prefix of an accepted log is accepted. */
  lemma PrefixAccepted(digest: Digest, log: Log, n: nat)
    requires WellFormed(digest, log) && n <= |log|
    ensures WellFormed(digest, log[..n])
  {
    forall k | 0 <= k < n ensures GoodRecord(digest, log[..n], k) {
      assert GoodRecord(digest, log, k) && log[..n][..k] == log[..k];
    }
  }

  /** Every log built by appending is accepted and has one record per entry. */
  lemma {:induction false} BuiltAccepted(digest: Digest, entries: seq<Entry>)
    ensures WellFormed(digest, Built(digest, entries)) && |Built(digest, entries)| == |entries|
  {
    if entries != [] {
      var n := |entries| - 1;
      BuiltAccepted(digest, entries[..n]);
      AppendKeepsWellFormed(digest, Built(digest, entries[..n]), entries[n]);
    }
  }

  /** What a log built by appending holds: each entry as it was asked for, with its
      detail redacted, numbered from one, linked to the hash before or to sixty-four
      zeros. */
  lemma {:induction false} BuiltHolds(digest: Digest, entries: seq<Entry>, i: nat)
    requires i < |entries|
    ensures |Built(digest, entries)| == |entries|
    ensures var e, r := entries[i], Built(digest, entries)[i];
            && (if i == 0 then |r.prevHash| == 64 && forall j :: 0 <= j < 64 ==> r.prevHash[j] == '0'
                else r.prevHash == Built(digest, entries)[i - 1].hash)
            && r.sequence == i + 1 && r.at == e.at && r.actor == e.actor && r.action == e.action && r.target == e.target
            && r.detail == Redacted(e.detail, e.secrets)
            && r.hash == digest(Hashed(i + 1, e.at, e.actor, e.action, e.target, r.detail, r.prevHash))
  {
    var n := |entries| - 1;
    var front := entries[..n];
    BuiltAccepted(digest, front);
    if i < n {
      BuiltHolds(digest, front, i);
      assert Built(digest, entries)[i] == Built(digest, front)[i];
    }
  }

  // ---------------------------------------------------------------------
  // Tamper evidence
  // ---------------------------------------------------------------------

  /** Two records that differ in a hashed field yet share a digest. */
  ghost predicate Collision(digest: Digest, a: AuditRecord, b: AuditRecord) {
    Content(a) != Content(b) && digest(Content(a)) == digest(Content(b))
  }

  ghost predicate CollisionBetween(digest: Digest, a: Log, b: Log) {
    exists i, j :: 0 <= i < |a| && 0 <= j < |b| && Collision(digest, a[i], b[j])
  }

  /** Two accepted logs that end in the same hash are equal, or they exhibit a
      collision of the digest. */
  lemma {:induction false} TamperEvidence(digest: Digest, a: Log, b: Log)
    requires WellFormed(digest, a) && WellFormed(digest, b)
    requires a != [] && b != [] && LastHash(a) == LastHash(b)
    ensures a == b || CollisionBetween(digest, a, b)
    decreases |a|
  {
    var m, n := |a| - 1, |b| - 1;
    assert GoodRecord(digest, a, m) && GoodRecord(digest, b, n);
    if Content(a[m]) != Content(b[n]) {
      assert Collision(digest, a[m], b[n]);
    } else if m > 0 {
      PrefixAccepted(digest, a, m);
      PrefixAccepted(digest, b, n);
      TamperEvidence(digest, a[..m], b[..n]);
      if CollisionBetween(digest, a[..m], b[..n]) {
        var i, j :| 0 <= i < m && 0 <= j < n && Collision(digest, a[..m][i], b[..n][j]);
        assert Collision(digest, a[i], b[j]);
      } else {
        assert a == a[..m] + [a[m]] && b == b[..n] + [b[n]];
      }
    } else {
      assert a == [a[m]] && b == [b[n]];
    }
  }
}
