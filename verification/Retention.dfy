/** Evidence retention, in memory and over the evidence table. */
module Retention {
  import opened Prelude
  import opened Verifiers

  datatype RetentionPolicy = RetentionPolicy(maxAge: Duration, keepLatest: nat)

  predicate Unexpired(e: Evidence, p: RetentionPolicy, now: Instant) {
    now - e.at <= p.maxAge
  }

  predicate BlockingFailure(e: Evidence) {
    !e.passed && Blocking(e.stage)
  }

  predicate HasFailure(ev: seq<Evidence>) {
    exists e :: e in ev && BlockingFailure(e)
  }

  // ---------------------------------------------------------------------
  // Order-preserving selection
  // ---------------------------------------------------------------------

  function Filter(ev: seq<Evidence>, keep: Evidence -> bool): seq<Evidence> {
    if ev == [] then []
    else
      var n := |ev| - 1;
      Filter(ev[..n], keep) + (if keep(ev[n]) then [ev[n]] else [])
  }

  function FilterOut(ev: seq<Evidence>, keep: Evidence -> bool): seq<Evidence> {
    if ev == [] then []
    else
      var n := |ev| - 1;
      FilterOut(ev[..n], keep) + (if keep(ev[n]) then [] else [ev[n]])
  }

  lemma {:induction false} FilterMembers(ev: seq<Evidence>, keep: Evidence -> bool)
    ensures forall e :: e in Filter(ev, keep) <==> e in ev && keep(e)
    ensures forall e :: e in FilterOut(ev, keep) <==> e in ev && !keep(e)
  {
    if ev != [] {
      var n := |ev| - 1;
      FilterMembers(ev[..n], keep);
      assert ev == ev[..n] + [ev[n]];
    }
  }

  lemma {:induction false} FilterAppend(a: seq<Evidence>, b: seq<Evidence>, keep: Evidence -> bool)
    ensures Filter(a + b, keep) == Filter(a, keep) + Filter(b, keep)
    decreases |b|
  {
    if b == [] {
      assert a + b == a;
    } else {
      var n := |b| - 1;
      assert (a + b)[..|a + b| - 1] == a + b[..n];
      FilterAppend(a, b[..n], keep);
    }
  }

  lemma {:induction false} FilterTwice(ev: seq<Evidence>, first: Evidence -> bool, second: Evidence -> bool)
    requires forall e :: e in ev && second(e) ==> first(e)
    ensures Filter(Filter(ev, first), second) == Filter(ev, second)
  {
    if ev != [] {
      var n := |ev| - 1;
      FilterTwice(ev[..n], first, second);
      var tail := if first(ev[n]) then [ev[n]] else [];
      FilterAppend(Filter(ev[..n], first), tail, second);
      assert Filter([ev[n]], second) == if second(ev[n]) then [ev[n]] else [] by {
        assert [ev[n]][..0] == [];
      }
      assert ev[n] in ev;
    }
  }

  lemma {:induction false} FilterAll(ev: seq<Evidence>, keep: Evidence -> bool)
    ensures |Filter(ev, keep)| <= |ev|
    ensures Filter(ev, keep) == ev <==> forall e :: e in ev ==> keep(e)
  {
    if ev != [] {
      var n := |ev| - 1;
      FilterAll(ev[..n], keep);
      assert ev == ev[..n] + [ev[n]];
      if keep(ev[n]) && Filter(ev, keep) == ev {
        assert Filter(ev, keep)[..n] == Filter(ev[..n], keep);
      }
    }
  }

  lemma SplitOneMore(front: seq<Evidence>, last: Evidence, kept: seq<Evidence>, dropped: seq<Evidence>)
    requires multiset(front) == multiset(kept) + multiset(dropped)
    ensures multiset(front + [last]) == multiset(kept + [last]) + multiset(dropped + [])
    ensures multiset(front + [last]) == multiset(kept + []) + multiset(dropped + [last])
  {
    assert kept + [] == kept && dropped + [] == dropped;
  }

  /** Selected and rejected records are all the records. */
  lemma {:induction false} FilterSplits(ev: seq<Evidence>, keep: Evidence -> bool)
    ensures multiset(ev) == multiset(Filter(ev, keep)) + multiset(FilterOut(ev, keep))
  {
    if ev != [] {
      var n := |ev| - 1;
      var front, last := ev[..n], ev[n];
      assert ev == front + [last];
      FilterSplits(front, keep);
      SplitOneMore(front, last, Filter(front, keep), FilterOut(front, keep));
    }
  }

  // ---------------------------------------------------------------------
  // What is kept
  // ---------------------------------------------------------------------

  function UnexpiredAt(p: RetentionPolicy, now: Instant): Evidence -> bool {
    e => Unexpired(e, p, now)
  }

  function WorthKeeping(p: RetentionPolicy, now: Instant): Evidence -> bool {
    e => Unexpired(e, p, now) || BlockingFailure(e)
  }

  /** The records before the newest `keepLatest`. */
  function Older(ev: seq<Evidence>, p: RetentionPolicy): seq<Evidence> {
    if |ev| <= p.keepLatest then [] else ev[..|ev| - p.keepLatest]
  }

  function Newest(ev: seq<Evidence>, p: RetentionPolicy): seq<Evidence> {
    if |ev| <= p.keepLatest then ev else ev[|ev| - p.keepLatest..]
  }

  function Pruned(ev: seq<Evidence>, p: RetentionPolicy, now: Instant): seq<Evidence> {
    Filter(Older(ev, p), UnexpiredAt(p, now)) + Newest(ev, p)
  }

  function Retained(ev: seq<Evidence>, p: RetentionPolicy, now: Instant): seq<Evidence> {
    if HasFailure(ev) then Filter(ev, WorthKeeping(p, now)) else Pruned(ev, p, now)
  }

  function Removed(ev: seq<Evidence>, p: RetentionPolicy, now: Instant): seq<Evidence> {
    if HasFailure(ev) then FilterOut(ev, WorthKeeping(p, now)) else FilterOut(Older(ev, p), UnexpiredAt(p, now))
  }

  function Ids(ev: seq<Evidence>): seq<string> {
    seq(|ev|, i requires 0 <= i < |ev| => ev[i].id)
  }

  // ---------------------------------------------------------------------
  // The loops
  // ---------------------------------------------------------------------

  /** `prune`: the newest records are out of reach, older ones go by age. */
  method PruneEvidence(ev: seq<Evidence>, p: RetentionPolicy, now: Instant)
    returns (kept: seq<Evidence>, removed: seq<string>)
    ensures kept == Pruned(ev, p, now)
    ensures removed == Ids(FilterOut(Older(ev, p), UnexpiredAt(p, now)))
  {
    kept, removed := [], [];
    if |ev| <= p.keepLatest {
      return ev, removed;
    }
    var protectedStart := |ev| - p.keepLatest;
    var older := Older(ev, p);
    var i := 0;
    while i < |ev|
      invariant 0 <= i <= |ev|
      invariant i <= protectedStart ==>
                  && kept == Filter(older[..i], UnexpiredAt(p, now))
                  && removed == Ids(FilterOut(older[..i], UnexpiredAt(p, now)))
      invariant i > protectedStart ==>
                  && kept == Filter(older, UnexpiredAt(p, now)) + ev[protectedStart..i]
                  && removed == Ids(FilterOut(older, UnexpiredAt(p, now)))
    {
      assert i < protectedStart ==> older[..i + 1][..i] == older[..i];
      assert i == protectedStart ==> older[..i] == older;
      if i < protectedStart && !Unexpired(ev[i], p, now) {
        removed := removed + [ev[i].id];
      } else {
        kept := kept + [ev[i]];
      }
      i := i + 1;
    }
    assert older[..protectedStart] == older;
  }

  /** `retain`: with a blocking failure around, only expired other records go. */
  method RetainEvidence(ev: seq<Evidence>, p: RetentionPolicy, now: Instant)
    returns (kept: seq<Evidence>, removed: seq<string>)
    ensures kept == Retained(ev, p, now) && removed == Ids(Removed(ev, p, now))
  {
    if !HasFailure(ev) {
      kept, removed := PruneEvidence(ev, p, now);
      return;
    }
    kept, removed := [], [];
    var i := 0;
    while i < |ev|
      invariant 0 <= i <= |ev|
      invariant kept == Filter(ev[..i], WorthKeeping(p, now))
      invariant removed == Ids(FilterOut(ev[..i], WorthKeeping(p, now)))
    {
      assert ev[..i + 1][..i] == ev[..i];
      if !Unexpired(ev[i], p, now) && !BlockingFailure(ev[i]) {
        removed := removed + [ev[i].id];
      } else {
        kept := kept + [ev[i]];
      }
      i := i + 1;
    }
    assert ev[..i] == ev;
  }

  class EvidenceStore {
    const policy: RetentionPolicy
    var evidence: seq<Evidence>

    constructor (policy: RetentionPolicy)
      ensures this.policy == policy && evidence == []
    {
      this.policy, evidence := policy, [];
    }

    method Append(e: Evidence)
      modifies this
      ensures evidence == old(evidence) + [e]
    {
      evidence := evidence + [e];
    }

    method Retain(now: Instant) returns (removed: seq<string>)
      modifies this
      ensures evidence == Retained(old(evidence), policy, now)
      ensures removed == Ids(Removed(old(evidence), policy, now))
    {
      evidence, removed := RetainEvidence(evidence, policy, now);
    }
  }

  // ---------------------------------------------------------------------
  // What retention promises
  // ---------------------------------------------------------------------

  lemma OlderNewest(ev: seq<Evidence>, p: RetentionPolicy)
    ensures ev == Older(ev, p) + Newest(ev, p)
  {}

  /** Nothing is lost: kept and removed records are all the records. */
  lemma RetentionSplits(ev: seq<Evidence>, p: RetentionPolicy, now: Instant)
    ensures multiset(ev) == multiset(Retained(ev, p, now)) + multiset(Removed(ev, p, now))
  {
    if HasFailure(ev) {
      FilterSplits(ev, WorthKeeping(p, now));
    } else {
      OlderNewest(ev, p);
      FilterSplits(Older(ev, p), UnexpiredAt(p, now));
    }
  }

  /** Only expired records go, and never a blocking failure. */
  lemma OnlyExpiredGo(ev: seq<Evidence>, p: RetentionPolicy, now: Instant, e: Evidence)
    requires e in Removed(ev, p, now)
    ensures e in ev && !Unexpired(e, p, now) && !BlockingFailure(e)
  {
    if HasFailure(ev) {
      FilterMembers(ev, WorthKeeping(p, now));
    } else {
      FilterMembers(Older(ev, p), UnexpiredAt(p, now));
      OlderNewest(ev, p);
    }
  }

  /** Exactly which records go. With a failed blocking record around, those older than
      the maximal age that are no such failure; otherwise those older than that among
      all but the newest. */
  lemma GoneExactlyWhen(ev: seq<Evidence>, p: RetentionPolicy, now: Instant, e: Evidence)
    ensures (exists f :: f in ev && !f.passed && f.stage != Advisory) ==>
              (e in Removed(ev, p, now) <==> e in ev && now - e.at > p.maxAge && (e.passed || e.stage == Advisory))
    ensures !(exists f :: f in ev && !f.passed && f.stage != Advisory) ==>
              (e in Removed(ev, p, now) <==> now - e.at > p.maxAge && exists i :: 0 <= i < |ev| - p.keepLatest && ev[i] == e)
  {
    FilterMembers(ev, WorthKeeping(p, now));
    FilterMembers(Older(ev, p), UnexpiredAt(p, now));
    forall f ensures BlockingFailure(f) <==> !f.passed && f.stage != Advisory {}
    if |ev| > p.keepLatest {
      assert forall i :: 0 <= i < |ev| - p.keepLatest ==> Older(ev, p)[i] == ev[i];
    }
  }

  /** Without such a failure the newest records end what is kept, in their order. */
  lemma NewestEndTheKept(ev: seq<Evidence>, p: RetentionPolicy, now: Instant)
    requires !HasFailure(ev)
    ensures var kept, n := Retained(ev, p, now), Min(p.keepLatest, |ev|);
            |kept| >= n && kept[|kept| - n..] == ev[|ev| - n..]
  {}

  /** Pruning keeps the newest records in place at the end. `retain` does so, when a
      blocking failure exists, exactly if each of them is worth keeping by itself. */
  lemma NewestKeptExactlyWhen(ev: seq<Evidence>, p: RetentionPolicy, now: Instant)
    requires HasFailure(ev)
    ensures Retained(ev, p, now) == Filter(Older(ev, p), WorthKeeping(p, now)) + Newest(ev, p)
       <==> forall e :: e in Newest(ev, p) ==> Unexpired(e, p, now) || BlockingFailure(e)
  {
    var keep := WorthKeeping(p, now);
    OlderNewest(ev, p);
    FilterAppend(Older(ev, p), Newest(ev, p), keep);
    FilterAll(Newest(ev, p), keep);
    var head := Filter(Older(ev, p), keep);
    if Retained(ev, p, now) == head + Newest(ev, p) {
      assert Filter(Newest(ev, p), keep) == (head + Filter(Newest(ev, p), keep))[|head|..];
      assert Newest(ev, p) == (head + Newest(ev, p))[|head|..];
    }
  }

  /** One old failure makes retention drop the newest passing record. */
  lemma NewestCanGo()
    ensures var failure := Evidence("a", Human, "", false, "", 0);
            var pass := Evidence("b", Human, "", true, "", 0);
            var p := RetentionPolicy(10, 1);
            Newest([failure, pass], p) == [pass] && Retained([failure, pass], p, 11) == [failure]
  {
    var failure := Evidence("a", Human, "", false, "", 0);
    var pass := Evidence("b", Human, "", true, "", 0);
    var p := RetentionPolicy(10, 1);
    assert failure in [failure, pass] && BlockingFailure(failure);
    assert [failure, pass][..1] == [failure] && [failure][..0] == [];
    assert Filter([failure], WorthKeeping(p, 11)) == [failure];
  }

  lemma FailureSurvives(ev: seq<Evidence>, p: RetentionPolicy, now: Instant)
    ensures HasFailure(Retained(ev, p, now)) <==> HasFailure(ev)
  {
    if HasFailure(ev) {
      FilterMembers(ev, WorthKeeping(p, now));
    } else {
      FilterMembers(Older(ev, p), UnexpiredAt(p, now));
      OlderNewest(ev, p);
    }
  }

  /** Retaining early and again later leaves what retaining once later leaves. */
  lemma RetentionComposes(ev: seq<Evidence>, p: RetentionPolicy, t1: Instant, t2: Instant)
    requires t1 <= t2
    ensures Retained(Retained(ev, p, t1), p, t2) == Retained(ev, p, t2)
  {
    FailureSurvives(ev, p, t1);
    if HasFailure(ev) {
      FilterTwice(ev, WorthKeeping(p, t1), WorthKeeping(p, t2));
    } else {
      var head := Filter(Older(ev, p), UnexpiredAt(p, t1));
      var mid := head + Newest(ev, p);
      FilterTwice(Older(ev, p), UnexpiredAt(p, t1), UnexpiredAt(p, t2));
      FilterAll(Older(ev, p), UnexpiredAt(p, t1));
      if |ev| > p.keepLatest {
        assert Newest(mid, p) == Newest(ev, p) && Older(mid, p) == head;
      } else {
        assert mid == ev;
      }
    }
  }

  // ---------------------------------------------------------------------
  // The evidence table
  // ---------------------------------------------------------------------

  type Rows = map<string, Evidence>

  predicate GoodRows(rows: Rows) {
    forall id :: id in rows ==> rows[id].id == id
  }

  /** `SELECT * .. ORDER BY at`: every row once, oldest first, ties in any order. */
  ghost predicate Listing(rows: Rows, all: seq<Evidence>) {
    && (forall e :: e in all <==> e.id in rows && rows[e.id] == e)
    && (forall i, j :: 0 <= i < j < |all| ==> all[i].at <= all[j].at && all[i].id != all[j].id)
  }

  function IdSet(ids: seq<string>): set<string> {
    set id | id in ids
  }

  class PgEvidenceStore {
    const policy: RetentionPolicy
    var rows: Rows

    constructor (policy: RetentionPolicy)
      ensures this.policy == policy && rows == map[]
    {
      this.policy := policy;
      rows := map[];
    }

    /** `retain`: select in memory, then delete by id in one transaction. `arrived`
        are rows other writers insert in between. */
    method Retain(all: seq<Evidence>, arrived: Rows, now: Instant) returns (removed: seq<string>)
      requires GoodRows(rows) && Listing(rows, all)
      requires GoodRows(arrived) && arrived.Keys !! rows.Keys
      modifies this
      ensures GoodRows(rows) && removed == Ids(Removed(all, policy, now))
      ensures rows == (old(rows) + arrived) - IdSet(removed)
      ensures arrived.Keys <= rows.Keys
      ensures forall id :: id in old(rows) && BlockingFailure(old(rows)[id]) ==> id in rows
    {
      var store := new EvidenceStore(policy);
      var i := 0;
      while i < |all|
        invariant 0 <= i <= |all|
        invariant store.evidence == all[..i] && rows == old(rows)
      {
        store.Append(all[i]);
        i := i + 1;
      }
      assert all[..i] == all;
      removed := store.Retain(now);
      RemovedIdsAreExpired(rows, all, policy, now);
      rows := rows + arrived;
      Delete(removed);
    }

    /** One `DELETE` per id. */
    method Delete(ids: seq<string>)
      modifies this
      ensures rows == old(rows) - IdSet(ids)
    {
      var i := 0;
      while i < |ids|
        invariant 0 <= i <= |ids|
        invariant rows == old(rows) - IdSet(ids[..i])
      {
        assert ids[..i + 1] == ids[..i] + [ids[i]];
        assert IdSet(ids[..i + 1]) == IdSet(ids[..i]) + {ids[i]};
        rows := rows - {ids[i]};
        i := i + 1;
      }
      assert ids[..i] == ids;
    }
  }

  lemma RemovedIdsAreExpired(rows: Rows, all: seq<Evidence>, p: RetentionPolicy, now: Instant)
    requires GoodRows(rows) && Listing(rows, all)
    ensures forall id :: id in Ids(Removed(all, p, now)) ==>
              id in rows && !Unexpired(rows[id], p, now) && !BlockingFailure(rows[id])
  {
    var gone := Removed(all, p, now);
    forall id | id in Ids(gone)
      ensures id in rows && !Unexpired(rows[id], p, now) && !BlockingFailure(rows[id])
    {
      var k :| 0 <= k < |gone| && Ids(gone)[k] == id;
      OnlyExpiredGo(all, p, now, gone[k]);
      assert gone[k] in all;
    }
  }
}
