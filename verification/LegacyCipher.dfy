/** The retired keyed XOR stream that old secret envelopes still use. */
module LegacyCipher {
  import opened Prelude
  import opened Utf8
  import opened Keystreams

  // ---------------------------------------------------------------------
  // FNV-1a
  // ---------------------------------------------------------------------

  const FNV_OFFSET: bv64 := 0xcbf29ce484222325
  const FNV_PRIME: bv64 := 0x100000001b3

  /** With 64-bit wrap-around. */
  function FnvStep(hash: bv64, b: bv8): bv64 {
    (hash ^ (b as bv64)) * FNV_PRIME
  }

  function ByteOf(x: bv64, shift: bv6): bv8 {
    ((x >> shift) & 0xFF) as bv8
  }

  function LittleEndian(x: bv64): Block {
    [ByteOf(x, 0), ByteOf(x, 8), ByteOf(x, 16), ByteOf(x, 24),
     ByteOf(x, 32), ByteOf(x, 40), ByteOf(x, 48), ByteOf(x, 56)]
  }

  function Counter(n: nat): bv64 {
    if n == 0 then 0 else Counter(n - 1) + 1
  }

  const FNV: Scheme<bv64> :=
    Scheme((h, b) => FnvStep(h, b), h => LittleEndian(h), n => LittleEndian(Counter(n)), FNV_OFFSET)

  /** The published FNV-1a value of the text "a". */
  lemma FnvOfA()
    ensures Mix(FNV, FNV.start, [0x61]) == 0xaf63dc4c8601ec8c
  {
    assert [0x61 as bv8][1..] == [];
    assert Mix(FNV, FnvStep(FNV_OFFSET, 0x61), []) == FnvStep(FNV_OFFSET, 0x61);
  }

  /** Least significant byte first. */
  lemma LittleEndianIs(x: bv64)
    ensures var b := LittleEndian(x);
            x == (b[0] as bv64) | (b[1] as bv64 << 8) | (b[2] as bv64 << 16) | (b[3] as bv64 << 24)
                 | (b[4] as bv64 << 32) | (b[5] as bv64 << 40) | (b[6] as bv64 << 48) | (b[7] as bv64 << 56)
  {}

  method Keystream(key: Bytes, refId: Bytes, len: nat) returns (out: Bytes)
    ensures out == Stream(FNV, key, refId, len)
  {
    out := Generate(FNV, key, refId, len);
  }

  // ---------------------------------------------------------------------
  // Sealing and opening
  // ---------------------------------------------------------------------

  function Xor(a: Bytes, b: Bytes): (r: Bytes)
    requires |a| == |b|
    ensures |r| == |a|
  {
    seq(|a|, i requires 0 <= i < |a| => a[i] ^ b[i])
  }

  function SealLegacy(key: Bytes, refId: Bytes, plaintext: Bytes): Bytes {
    Xor(plaintext, Stream(FNV, key, refId, |plaintext|))
  }

  /** The bytes `open_legacy` recovers, before they are read as text. */
  function OpenBytes(key: Bytes, refId: Bytes, ciphertext: Bytes): Bytes {
    Xor(ciphertext, Stream(FNV, key, refId, |ciphertext|))
  }

  lemma XorTwice(a: bv8, b: bv8)
    ensures (a ^ b) ^ b == a
  {}

  lemma XorUndone(a: Bytes, b: Bytes)
    requires |a| == |b|
    ensures Xor(Xor(a, b), b) == a
  {
    forall i | 0 <= i < |a| ensures Xor(Xor(a, b), b)[i] == a[i] {
      XorTwice(a[i], b[i]);
    }
  }

  /** Opening undoes sealing, for every key, reference and plaintext. */
  lemma LegacyRoundTrip(key: Bytes, refId: Bytes, plaintext: Bytes)
    ensures OpenBytes(key, refId, SealLegacy(key, refId, plaintext)) == plaintext
  {
    XorUndone(plaintext, Stream(FNV, key, refId, |plaintext|));
  }

  lemma XorAt(a: Bytes, b: Bytes, j: nat)
    requires |a| == |b| && j < |a|
    ensures Xor(a, b)[j] == a[j] ^ b[j]
  {}

  lemma WrittenOut(h: bv64)
    ensures FNV.out(h) == LittleEndian(h) && FNV.start == FNV_OFFSET
  {}

  /** The counters start at zero and are hashed in eight bytes each. */
  lemma FirstCounters()
    ensures Counters(FNV, 2) == [0, 0, 0, 0, 0, 0, 0, 0, 1, 0, 0, 0, 0, 0, 0, 0]
  {
    assert Counter(0) == 0 && Counter(1) == 1;
    assert Counters(FNV, 0) == [];
    assert Counters(FNV, 1) == LittleEndian(0) == [0, 0, 0, 0, 0, 0, 0, 0];
    assert Counters(FNV, 2) == Counters(FNV, 1) + LittleEndian(1);
    assert LittleEndian(1) == [1, 0, 0, 0, 0, 0, 0, 0];
  }

  /** Byte `i` of block `k` is the plaintext's against that of the hash of the key, the
      reference and the counters up to `k`. */
  lemma SealedByte(key: Bytes, refId: Bytes, plaintext: Bytes, k: nat, i: nat)
    requires i < 8 && 8 * k + 8 <= |plaintext|
    ensures SealLegacy(key, refId, plaintext)[8 * k + i]
         == plaintext[8 * k + i] ^ LittleEndian(Mix(FNV, FNV_OFFSET, key + refId + Counters(FNV, k + 1)))[i]
  {
    WrittenOut(Mix(FNV, FNV_OFFSET, key + refId + Counters(FNV, k + 1)));
    StreamByte(FNV, key, refId, |plaintext|, k, i);
    XorAt(plaintext, Stream(FNV, key, refId, |plaintext|), 8 * k + i);
  }

  /** `open_legacy`: only text comes out. */
  function OpenLegacy(key: Bytes, refId: Bytes, ciphertext: Bytes): Option<Bytes> {
    var plain := OpenBytes(key, refId, ciphertext);
    if ValidUtf8(plain) then Some(plain) else None
  }
}
