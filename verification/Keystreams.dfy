/** Key streams that hash a key, a reference and a running counter, for any hash. */
module Keystreams {
  import opened Utf8

  type Block = b: Bytes | |b| == 8 witness [0, 0, 0, 0, 0, 0, 0, 0]

  /** How a byte is mixed in, how a hash and a counter are written out, and where the
      hash starts. */
  datatype Scheme<!H> = Scheme(step: (H, bv8) -> H, out: H -> Block, count: nat -> Block, start: H)

  function Mix<H>(s: Scheme<H>, hash: H, bytes: Bytes): H
    decreases |bytes|
  {
    if bytes == [] then hash else Mix(s, s.step(hash, bytes[0]), bytes[1..])
  }

  lemma {:induction false} MixAppend<H>(s: Scheme<H>, hash: H, a: Bytes, b: Bytes)
    ensures Mix(s, hash, a + b) == Mix(s, Mix(s, hash, a), b)
    decreases |a|
  {
    if a == [] {
      assert a + b == b;
    } else {
      assert (a + b)[1..] == a[1..] + b;
      MixAppend(s, s.step(hash, a[0]), a[1..], b);
    }
  }

  // ---------------------------------------------------------------------
  // The stream, block by block
  // ---------------------------------------------------------------------

  function Seed<H>(s: Scheme<H>, key: Bytes, refId: Bytes): H {
    Mix(s, Mix(s, s.start, key), refId)
  }

  function HashAt<H>(s: Scheme<H>, seed: H, n: nat): H {
    if n == 0 then seed else Mix(s, HashAt(s, seed, n - 1), s.count(n - 1))
  }

  function Blocks<H>(s: Scheme<H>, seed: H, n: nat): (b: Bytes)
    ensures |b| == 8 * n
  {
    if n == 0 then [] else Blocks(s, seed, n - 1) + s.out(HashAt(s, seed, n))
  }

  function BlocksFor(len: nat): nat { (len + 7) / 8 }

  function Stream<H>(s: Scheme<H>, key: Bytes, refId: Bytes, len: nat): (b: Bytes)
    ensures |b| == len
  {
    Blocks(s, Seed(s, key, refId), BlocksFor(len))[..len]
  }

  lemma LongerStillStarts(a: Bytes, b: Bytes, more: Bytes)
    requires a <= b
    ensures a <= b + more
  {}

  lemma SameStart(a: Bytes, b: Bytes, k: nat)
    requires a <= b && k <= |a|
    ensures a[..k] == b[..k]
  {}

  lemma {:induction false} BlocksPrefix<H>(s: Scheme<H>, seed: H, m: nat, n: nat)
    requires m <= n
    ensures Blocks(s, seed, m) <= Blocks(s, seed, n)
    decreases n
  {
    if m < n {
      BlocksPrefix(s, seed, m, n - 1);
      LongerStillStarts(Blocks(s, seed, m), Blocks(s, seed, n - 1), s.out(HashAt(s, seed, n)));
    }
  }

  /** A shorter stream is a prefix of a longer one for the same key and reference. */
  lemma StreamPrefix<H>(s: Scheme<H>, key: Bytes, refId: Bytes, short: nat, long: nat)
    requires short <= long
    ensures Stream(s, key, refId, short) <= Stream(s, key, refId, long)
  {
    var seed := Seed(s, key, refId);
    var a, b := Blocks(s, seed, BlocksFor(short)), Blocks(s, seed, BlocksFor(long));
    BlocksPrefix(s, seed, BlocksFor(short), BlocksFor(long));
    SameStart(a, b, short);
    assert b[..short] <= b[..long];
  }

  // ---------------------------------------------------------------------
  // Each block is one hash
  // ---------------------------------------------------------------------

  /** The counters 0 to `n - 1`, as they are hashed. */
  function Counters<H>(s: Scheme<H>, n: nat): Bytes {
    if n == 0 then [] else Counters(s, n - 1) + s.count(n - 1)
  }

  lemma {:induction false} HashIsOneMix<H>(s: Scheme<H>, key: Bytes, refId: Bytes, n: nat)
    ensures HashAt(s, Seed(s, key, refId), n) == Mix(s, s.start, key + refId + Counters(s, n))
  {
    if n == 0 {
      MixAppend(s, s.start, key, refId);
      assert key + refId + [] == key + refId;
    } else {
      HashIsOneMix(s, key, refId, n - 1);
      MixAppend(s, s.start, key + refId + Counters(s, n - 1), s.count(n - 1));
      assert key + refId + Counters(s, n) == (key + refId + Counters(s, n - 1)) + s.count(n - 1);
    }
  }

  lemma CutLeft(a: Bytes, b: Bytes, i: nat, j: nat)
    requires i <= j <= |a|
    ensures (a + b)[i..j] == a[i..j]
  {}

  lemma {:induction false} BlockAt<H>(s: Scheme<H>, seed: H, n: nat, k: nat)
    requires k < n
    ensures Blocks(s, seed, n)[8 * k..8 * k + 8] == s.out(HashAt(s, seed, k + 1))
  {
    if k < n - 1 {
      BlockAt(s, seed, n - 1, k);
      CutLeft(Blocks(s, seed, n - 1), s.out(HashAt(s, seed, n)), 8 * k, 8 * k + 8);
    }
  }

  lemma CutTwice(all: Bytes, len: nat, i: nat, j: nat)
    requires i <= j <= len <= |all|
    ensures all[..len][i..j] == all[i..j]
  {}

  /** Every full block of the stream is the hash of the key, the reference and the
      counters up to the block, written out. */
  lemma StreamIsHashes<H>(s: Scheme<H>, key: Bytes, refId: Bytes, len: nat, k: nat)
    requires 8 * k + 8 <= len
    ensures Stream(s, key, refId, len)[8 * k..8 * k + 8] == s.out(Mix(s, s.start, key + refId + Counters(s, k + 1)))
  {
    HashIsOneMix(s, key, refId, k + 1);
    BlockAt(s, Seed(s, key, refId), BlocksFor(len), k);
    CutTwice(Blocks(s, Seed(s, key, refId), BlocksFor(len)), len, 8 * k, 8 * k + 8);
  }

  lemma StreamByte<H>(s: Scheme<H>, key: Bytes, refId: Bytes, len: nat, k: nat, i: nat)
    requires i < 8 && 8 * k + 8 <= len
    ensures Stream(s, key, refId, len)[8 * k + i] == s.out(Mix(s, s.start, key + refId + Counters(s, k + 1)))[i]
  {
    StreamIsHashes(s, key, refId, len, k);
    var stream := Stream(s, key, refId, len);
    assert stream[8 * k..8 * k + 8][i] == stream[8 * k + i];
  }

  // ---------------------------------------------------------------------
  // The loops
  // ---------------------------------------------------------------------

  /** `mix`. */
  method MixBytes<H>(s: Scheme<H>, hash: H, bytes: Bytes) returns (h: H)
    ensures h == Mix(s, hash, bytes)
  {
    h := hash;
    var i := 0;
    while i < |bytes|
      invariant 0 <= i <= |bytes| && Mix(s, h, bytes[i..]) == Mix(s, hash, bytes)
    {
      assert bytes[i..][1..] == bytes[i + 1..];
      h := s.step(h, bytes[i]);
      i := i + 1;
    }
  }

  /** `keystream`: grow by whole blocks, then truncate. */
  method Generate<H>(s: Scheme<H>, key: Bytes, refId: Bytes, len: nat) returns (out: Bytes)
    ensures out == Stream(s, key, refId, len)
  {
    var hash := MixBytes(s, s.start, key);
    hash := MixBytes(s, hash, refId);
    ghost var seed := hash;
    out := [];
    var counter: nat := 0;
    while |out| < len
      invariant out == Blocks(s, seed, counter) && hash == HashAt(s, seed, counter)
      invariant counter <= BlocksFor(len)
      decreases len - |out|
    {
      hash := MixBytes(s, hash, s.count(counter));
      out := out + s.out(hash);
      counter := counter + 1;
    }
    assert counter == BlocksFor(len);
    out := out[..len];
  }
}
