/** The per-address fixed-window rate limiter and its pruning. */
module RateLimiters {
  import opened Prelude

  type Ip = nat

  datatype Entry = Entry(start: Instant, count: nat)

  type Windows = map<Ip, Entry>

  datatype Answer = Allowed | Limited(waitSeconds: int)

  const WINDOW: Duration := 60 * NANOS_PER_SECOND
  const PRUNE_AT: nat := 4096

  /** Drops the entries whose window is over; each entry reads the clock itself. */
  function Prune(w: Windows, seen: Ip -> Instant): Windows {
    if |w| > PRUNE_AT then map ip | ip in w && seen(ip) - w[ip].start < WINDOW :: w[ip] else w
  }

  /** The entry of `ip` after a request at `now`. */
  function Counted(w: Windows, ip: Ip, now: Instant): Entry {
    var entry := if ip in w && now - w[ip].start < WINDOW then w[ip] else Entry(now, 0);
    entry.(count := entry.count + 1)
  }

  function Verdict(entry: Entry, limit: nat, now: Instant): Answer {
    if entry.count <= limit then Allowed
    else Limited(Max((WINDOW - (now - entry.start)) / NANOS_PER_SECOND, 1))
  }

  /** One request against a limiter that never prunes. */
  function Touch(w: Windows, ip: Ip, now: Instant): Windows {
    w[ip := Counted(w, ip, now)]
  }

  function AnswerTo(w: Windows, limit: nat, ip: Ip, now: Instant): Answer {
    Verdict(Counted(w, ip, now), limit, now)
  }

  class RateLimiter {
    const limit: u32
    var window: Windows

    constructor (limitPerMinute: u32)
      ensures limit == Max(limitPerMinute, 1) && window == map[]
    {
      limit := Max(limitPerMinute, 1);
      window := map[];
    }

    /** `check`: prune when the map is large, then count the request. */
    method Check(ip: Ip, now: Instant, seen: Ip -> Instant) returns (r: Answer)
      modifies this
      ensures window == Touch(Prune(old(window), seen), ip, now)
      ensures r == AnswerTo(Prune(old(window), seen), limit, ip, now)
    {
      if |window| > PRUNE_AT {
        window := map other | other in window && seen(other) - window[other].start < WINDOW :: window[other];
      }
      var entry := if ip in window then window[ip] else Entry(now, 0);
      if now - entry.start >= WINDOW {
        entry := Entry(now, 0);
      }
      entry := entry.(count := entry.count + 1);
      window := window[ip := entry];
      if entry.count > limit {
        return Limited(Max((WINDOW - (now - entry.start)) / NANOS_PER_SECOND, 1));
      }
      return Allowed;
    }
  }

  // ---------------------------------------------------------------------
  // Runs over any mix of addresses and any nondecreasing clock
  // ---------------------------------------------------------------------

  /** `seen` is what the clock showed while entries were pruned. */
  datatype Request = Request(ip: Ip, now: Instant, seen: Ip -> Instant)

  /** The clock never goes back, neither between requests nor while pruning. */
  ghost predicate Ordered(reqs: seq<Request>) {
    && (forall i, ip :: 0 <= i < |reqs| ==> reqs[i].seen(ip) <= reqs[i].now)
    && (forall i, j :: 0 <= i < j < |reqs| ==> reqs[i].now <= reqs[j].now)
  }

  /** Every window started by time `t`, and counts at least the request that
      opened it. */
  ghost predicate Begun(w: Windows, t: Instant) {
    forall ip :: ip in w ==> w[ip].start <= t && w[ip].count >= 1
  }

  function Answers(w: Windows, limit: nat, reqs: seq<Request>): (a: seq<Answer>)
    ensures |a| == |reqs|
    decreases |reqs|
  {
    if reqs == [] then []
    else [AnswerTo(w, limit, reqs[0].ip, reqs[0].now)]
         + Answers(Touch(w, reqs[0].ip, reqs[0].now), limit, reqs[1..])
  }

  /** The answers of `Check`, request after request. */
  function PrunedAnswers(w: Windows, limit: nat, reqs: seq<Request>): (a: seq<Answer>)
    ensures |a| == |reqs|
    decreases |reqs|
  {
    if reqs == [] then []
    else
      var p := Prune(w, reqs[0].seen);
      [AnswerTo(p, limit, reqs[0].ip, reqs[0].now)]
      + PrunedAnswers(Touch(p, reqs[0].ip, reqs[0].now), limit, reqs[1..])
  }

  /** The pruned map lacks only entries whose window is over at `t`. */
  ghost predicate Stands(p: Windows, w: Windows, t: Instant) {
    && (forall ip :: ip in p ==> ip in w && p[ip] == w[ip])
    && (forall ip :: ip in w && ip !in p ==> t - w[ip].start >= WINDOW)
  }

  lemma StandsThroughRequest(p: Windows, w: Windows, t: Instant, limit: nat, r: Request)
    requires Stands(p, w, t) && t <= r.now && forall ip :: r.seen(ip) <= r.now
    ensures var q := Prune(p, r.seen);
            AnswerTo(q, limit, r.ip, r.now) == AnswerTo(w, limit, r.ip, r.now)
            && Stands(Touch(q, r.ip, r.now), Touch(w, r.ip, r.now), r.now)
  {
    var q := Prune(p, r.seen);
    assert Stands(q, w, r.now) by {
      forall ip | ip in w && ip !in q ensures r.now - w[ip].start >= WINDOW {
        assert r.seen(ip) <= r.now;
      }
    }
  }

  lemma OrderedTail(reqs: seq<Request>)
    requires Ordered(reqs) && reqs != []
    ensures Ordered(reqs[1..]) && (reqs[1..] != [] ==> reqs[0].now <= reqs[1..][0].now)
  {}

  lemma {:induction false} PruningIsInvisibleFrom(p: Windows, w: Windows, t: Instant, limit: nat, reqs: seq<Request>)
    requires Stands(p, w, t) && Ordered(reqs) && (reqs != [] ==> t <= reqs[0].now)
    ensures PrunedAnswers(p, limit, reqs) == Answers(w, limit, reqs)
    decreases |reqs|
  {
    if reqs != [] {
      var r := reqs[0];
      StandsThroughRequest(p, w, t, limit, r);
      OrderedTail(reqs);
      PruningIsInvisibleFrom(Touch(Prune(p, r.seen), r.ip, r.now), Touch(w, r.ip, r.now), r.now, limit, reqs[1..]);
    }
  }

  /** The pruning limiter answers every request as one that never prunes. */
  lemma PruningIsInvisible(limit: nat, reqs: seq<Request>)
    requires Ordered(reqs)
    ensures PrunedAnswers(map[], limit, reqs) == Answers(map[], limit, reqs)
  {
    if reqs != [] {
      PruningIsInvisibleFrom(map[], map[], reqs[0].now, limit, reqs);
    }
  }

  // ---------------------------------------------------------------------
  // The guarantee of the limit
  // ---------------------------------------------------------------------

  predicate Inside(t: Instant, from: Instant) {
    from <= t < from + WINDOW
  }

  /** Requests of `ip` accepted in the interval of one window length at `from`. */
  function Accepted(answers: seq<Answer>, reqs: seq<Request>, ip: Ip, from: Instant): nat
    requires |answers| == |reqs|
    decreases |reqs|
  {
    if reqs == [] then 0
    else
      (if reqs[0].ip == ip && Inside(reqs[0].now, from) && answers[0].Allowed? then 1 else 0)
      + Accepted(answers[1..], reqs[1..], ip, from)
  }

  /** How many requests can still be accepted in the interval: the rest of the
      current window, and a whole further one if it can start in time. */
  function Room(w: Windows, limit: nat, ip: Ip, from: Instant): nat {
    if ip !in w || w[ip].start + WINDOW <= from then Max(2 * limit - 1, 0)
    else
      var rest := Max(limit - w[ip].count, 0);
      if w[ip].start < from then limit + rest
      else if w[ip].start < from + WINDOW then rest
      else 0
  }

  lemma AcceptedOneMore(w: Windows, limit: nat, reqs: seq<Request>, ip: Ip, from: Instant)
    requires reqs != []
    ensures var r := reqs[0];
            Accepted(Answers(w, limit, reqs), reqs, ip, from)
            == (if r.ip == ip && Inside(r.now, from) && AnswerTo(w, limit, ip, r.now).Allowed? then 1 else 0)
               + Accepted(Answers(Touch(w, r.ip, r.now), limit, reqs[1..]), reqs[1..], ip, from)
  {
    assert Answers(w, limit, reqs)[1..] == Answers(Touch(w, reqs[0].ip, reqs[0].now), limit, reqs[1..]);
  }

  lemma {:induction false} AcceptedFitsRoom(w: Windows, limit: nat, reqs: seq<Request>, ip: Ip, from: Instant)
    requires limit >= 1 && Ordered(reqs) && (reqs != [] ==> Begun(w, reqs[0].now))
    ensures Accepted(Answers(w, limit, reqs), reqs, ip, from) <= Room(w, limit, ip, from)
    decreases |reqs|
  {
    if reqs != [] {
      OrderedTail(reqs);
      AcceptedOneMore(w, limit, reqs, ip, from);
      AcceptedFitsRoom(Touch(w, reqs[0].ip, reqs[0].now), limit, reqs[1..], ip, from);
    }
  }

  /** Any interval of sixty seconds accepts fewer than twice the limit per address:
      the request that opened the older window lies before the interval. */
  lemma FewerThanTwiceTheLimit(limit: nat, reqs: seq<Request>, ip: Ip, from: Instant)
    requires limit >= 1 && Ordered(reqs)
    ensures Accepted(PrunedAnswers(map[], limit, reqs), reqs, ip, from) < 2 * limit
  {
    PruningIsInvisible(limit, reqs);
    AcceptedFitsRoom(map[], limit, reqs, ip, from);
  }

  // ---------------------------------------------------------------------
  // The bound is reached
  // ---------------------------------------------------------------------

  function AtTime(ip: Ip, t: Instant): Request {
    Request(ip, t, _ => t)
  }

  /** `n` requests of one address at one time. */
  function Burst(ip: Ip, t: Instant, n: nat): (b: seq<Request>)
    ensures |b| == n && forall i :: 0 <= i < n ==> b[i].ip == ip && b[i].now == t && forall o :: b[i].seen(o) == t
  {
    seq(n, _ => AtTime(ip, t))
  }

  /** While the window lasts and has room, all of a burst is accepted. */
  lemma {:induction false} BurstAccepted(w: Windows, limit: nat, ip: Ip, t: Instant, n: nat, rest: seq<Request>, from: Instant)
    requires ip in w && t - w[ip].start < WINDOW && w[ip].count + n <= limit && Inside(t, from)
    ensures var after := w[ip := Entry(w[ip].start, w[ip].count + n)];
            Accepted(Answers(w, limit, Burst(ip, t, n) + rest), Burst(ip, t, n) + rest, ip, from)
            == n + Accepted(Answers(after, limit, rest), rest, ip, from)
    decreases n
  {
    if n == 0 {
      assert Burst(ip, t, 0) + rest == rest;
      assert w[ip := Entry(w[ip].start, w[ip].count)] == w;
    } else {
      var next := Touch(w, ip, t);
      AcceptedOneMore(w, limit, Burst(ip, t, n) + rest, ip, from);
      assert (Burst(ip, t, n) + rest)[1..] == Burst(ip, t, n - 1) + rest;
      BurstAccepted(next, limit, ip, t, n - 1, rest, from);
      assert next[ip := Entry(next[ip].start, next[ip].count + n - 1)] == w[ip := Entry(w[ip].start, w[ip].count + n)];
    }
  }

  /** One request opens a window, the rest of its budget comes at its end, and a full
      budget right behind it. */
  function Rush(ip: Ip, limit: nat): seq<Request>
    requires limit >= 1
  {
    [AtTime(ip, 0)] + (Burst(ip, WINDOW - 1, limit - 1) + ([AtTime(ip, WINDOW)] + (Burst(ip, WINDOW, limit - 1) + [])))
  }

  lemma RushIsOrdered(ip: Ip, limit: nat)
    requires limit >= 1
    ensures Ordered(Rush(ip, limit))
  {
    var reqs := Rush(ip, limit);
    forall i | 0 <= i < |reqs|
      ensures reqs[i].now == (if i == 0 then 0 else if i < limit then WINDOW - 1 else WINDOW)
      ensures forall o :: reqs[i].seen(o) == reqs[i].now
    {}
  }

  lemma NextWindowAccepted(limit: nat, ip: Ip)
    requires limit >= 1
    ensures var reqs := [AtTime(ip, WINDOW)] + (Burst(ip, WINDOW, limit - 1) + []);
            Accepted(Answers(map[ip := Entry(0, limit)], limit, reqs), reqs, ip, 1) == limit
  {
    var w2: Windows := map[ip := Entry(0, limit)];
    var second := Burst(ip, WINDOW, limit - 1) + [];
    AcceptedOneMore(w2, limit, [AtTime(ip, WINDOW)] + second, ip, 1);
    assert ([AtTime(ip, WINDOW)] + second)[1..] == second;
    assert Touch(w2, ip, WINDOW) == map[ip := Entry(WINDOW, 1)];
    BurstAccepted(map[ip := Entry(WINDOW, 1)], limit, ip, WINDOW, limit - 1, [], 1);
  }

  /** For every limit there is a run that accepts one fewer than twice the limit in
      sixty seconds. */
  lemma TwiceLessOneIsReached(ip: Ip, limit: nat)
    requires limit >= 1
    ensures Ordered(Rush(ip, limit))
    ensures Accepted(PrunedAnswers(map[], limit, Rush(ip, limit)), Rush(ip, limit), ip, 1) == 2 * limit - 1
  {
    RushIsOrdered(ip, limit);
    PruningIsInvisible(limit, Rush(ip, limit));
    var second := [AtTime(ip, WINDOW)] + (Burst(ip, WINDOW, limit - 1) + []);
    var first := Burst(ip, WINDOW - 1, limit - 1) + second;
    var w1: Windows := map[ip := Entry(0, 1)];
    AcceptedOneMore(map[], limit, Rush(ip, limit), ip, 1);
    assert Rush(ip, limit)[1..] == first && Touch(map[], ip, 0) == w1;
    BurstAccepted(w1, limit, ip, WINDOW - 1, limit - 1, second, 1);
    assert w1[ip := Entry(0, limit)] == map[ip := Entry(0, limit)];
    NextWindowAccepted(limit, ip);
  }

  /** Every rejection reports a wait between one and sixty seconds, and after a
      full window the same address is served again. */
  lemma WaitIsBounded(w: Windows, limit: nat, ip: Ip, now: Instant, later: Instant)
    requires limit >= 1 && (ip in w ==> w[ip].start <= now)
    ensures AnswerTo(w, limit, ip, now).Limited? ==> 1 <= AnswerTo(w, limit, ip, now).waitSeconds <= 60
    ensures later >= now + WINDOW ==> AnswerTo(Touch(w, ip, now), limit, ip, later) == Allowed
  {}

  /** The wait points at the reset: a request of the same address is served from one
      second after the wait is over, and refused throughout a wait of two seconds or
      more. `w'` is the map then, whatever other addresses did to it. */
  lemma WaitPointsAtReset(w: Windows, limit: nat, ip: Ip, now: Instant, wait: int, w': Windows, later: Instant)
    requires limit >= 1 && (ip in w ==> w[ip].start <= now) && AnswerTo(w, limit, ip, now) == Limited(wait)
    requires ip in w' && w'[ip] == Touch(w, ip, now)[ip]
    ensures later >= now + (wait + 1) * NANOS_PER_SECOND ==> AnswerTo(w', limit, ip, later) == Allowed
    ensures wait >= 2 && now <= later < now + wait * NANOS_PER_SECOND ==> AnswerTo(w', limit, ip, later).Limited?
  {}

  /** Others' requests leave the entry of an address alone. */
  lemma OthersLeaveEntry(w: Windows, ip: Ip, other: Ip, now: Instant)
    requires other != ip
    ensures (ip in Touch(w, other, now) <==> ip in w) && (ip in w ==> Touch(w, other, now)[ip] == w[ip])
  {}

  /** A map over 4096 entries keeps only those whose window is still open. */
  lemma PruningBoundsTheMap(w: Windows, seen: Ip -> Instant, ip: Ip)
    ensures |w| > 4096 ==> (ip in Prune(w, seen) <==> ip in w && seen(ip) - w[ip].start < 60_000_000_000)
    ensures |w| <= 4096 ==> Prune(w, seen) == w
    ensures ip in Prune(w, seen) ==> Prune(w, seen)[ip] == w[ip]
  {}
}
