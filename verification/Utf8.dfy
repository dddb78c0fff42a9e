/** Encoded text: UTF-8 (section 3 of RFC 3629) and Unicode white space. */
module Utf8 {

  type Bytes = seq<bv8>

  type CodePoint = bv21

  predicate Within(b: bv8, lo: bv8, hi: bv8) { lo <= b <= hi }

  predicate Continues(b: bv8) { Within(b, 0x80, 0xBF) }

  /** First two bytes of a three-byte character: nothing overlong, no surrogate. */
  predicate Front3(a: bv8, b: bv8) {
    || (a == 0xE0 && Within(b, 0xA0, 0xBF)) || (a == 0xED && Within(b, 0x80, 0x9F))
    || (Within(a, 0xE1, 0xEF) && a != 0xED && Continues(b))
  }

  /** First two bytes of a four-byte character, up to U+10FFFF. */
  predicate Front4(a: bv8, b: bv8) {
    || (a == 0xF0 && Within(b, 0x90, 0xBF)) || (a == 0xF4 && Within(b, 0x80, 0x8F))
    || (Within(a, 0xF1, 0xF3) && Continues(b))
  }

  /** Length of the well-formed sequence at the front, zero if there is none. */
  function FirstChar(b: Bytes): (n: nat)
    ensures n <= |b|
  {
    if |b| >= 1 && b[0] <= 0x7F then 1
    else if |b| >= 2 && Within(b[0], 0xC2, 0xDF) && Continues(b[1]) then 2
    else if |b| >= 3 && Front3(b[0], b[1]) && Continues(b[2]) then 3
    else if |b| >= 4 && Front4(b[0], b[1]) && Continues(b[2]) && Continues(b[3]) then 4
    else 0
  }

  predicate ValidUtf8(b: Bytes)
    decreases |b|
  {
    b == [] || (FirstChar(b) > 0 && ValidUtf8(b[FirstChar(b)..]))
  }

  // ---------------------------------------------------------------------
  // Valid text is a sequence of encoded characters
  // ---------------------------------------------------------------------

  /** Unicode scalar values: no surrogates. */
  predicate Scalar(c: CodePoint) {
    c <= 0xD7FF || 0xE000 <= c <= 0x10FFFF
  }

  function Lead(c: CodePoint, tag: bv21): bv8 {
    ((c | tag) & 0xFF) as bv8
  }

  /** Six bits of a character behind the first byte. */
  function Tail(c: CodePoint): bv8 {
    (0x80 | (c & 0x3F)) as bv8
  }

  function Encode(c: CodePoint): Bytes {
    if c <= 0x7F then [Lead(c, 0)]
    else if c <= 0x7FF then [Lead(c >> 6, 0xC0), Tail(c)]
    else if c <= 0xFFFF then [Lead(c >> 12, 0xE0), Tail(c >> 6), Tail(c)]
    else [Lead(c >> 18, 0xF0), Tail(c >> 12), Tail(c >> 6), Tail(c)]
  }

  function EncodeAll(cs: seq<CodePoint>): Bytes {
    if cs == [] then [] else Encode(cs[0]) + EncodeAll(cs[1..])
  }

  function Low(b: bv8, mask: bv8): bv21 {
    (b & mask) as bv21
  }

  function Join2(a: bv8, b: bv8): CodePoint {
    (Low(a, 0x1F) << 6) | Low(b, 0x3F)
  }

  function Join3(a: bv8, b: bv8, c: bv8): CodePoint {
    (Low(a, 0x0F) << 12) | (Low(b, 0x3F) << 6) | Low(c, 0x3F)
  }

  function Join4(a: bv8, b: bv8, c: bv8, d: bv8): CodePoint {
    (Low(a, 0x07) << 18) | (Low(b, 0x3F) << 12) | (Low(c, 0x3F) << 6) | Low(d, 0x3F)
  }

  /** The character at the front. */
  function Decode(b: Bytes): CodePoint
    requires FirstChar(b) > 0
  {
    match FirstChar(b)
    case 1 => b[0] as bv21
    case 2 => Join2(b[0], b[1])
    case 3 => Join3(b[0], b[1], b[2])
    case _ => Join4(b[0], b[1], b[2], b[3])
  }

  lemma TailContinues(c: CodePoint)
    ensures Continues(Tail(c))
  {}

  lemma TwoBytes(c: CodePoint)
    requires 0x7F < c <= 0x7FF
    ensures Within(Lead(c >> 6, 0xC0), 0xC2, 0xDF)
  {}

  lemma ThreeBytes(c: CodePoint)
    requires 0x7FF < c <= 0xFFFF && Scalar(c)
    ensures Front3(Lead(c >> 12, 0xE0), Tail(c >> 6))
  {}

  lemma FourBytes(c: CodePoint)
    requires 0xFFFF < c <= 0x10FFFF
    ensures Front4(Lead(c >> 18, 0xF0), Tail(c >> 12))
  {}

  lemma Bits2(a: bv8, b: bv8)
    requires Within(a, 0xC2, 0xDF) && Continues(b)
    ensures var c := Join2(a, b); 0x7F < c <= 0x7FF && Lead(c >> 6, 0xC0) == a && Tail(c) == b
  {}

  lemma Bits3(a: bv8, b: bv8, c: bv8)
    requires Front3(a, b) && Continues(c)
    ensures var p := Join3(a, b, c);
            && 0x7FF < p <= 0xFFFF && Scalar(p)
            && Lead(p >> 12, 0xE0) == a && Tail(p >> 6) == b && Tail(p) == c
  {}

  lemma Bits4(a: bv8, b: bv8, c: bv8, d: bv8)
    requires Front4(a, b) && Continues(c) && Continues(d)
    ensures var p := Join4(a, b, c, d);
            && 0xFFFF < p <= 0x10FFFF
            && Lead(p >> 18, 0xF0) == a && Tail(p >> 12) == b && Tail(p >> 6) == c && Tail(p) == d
  {}

  lemma Encoding2(c: CodePoint)
    requires 0x7F < c <= 0x7FF
    ensures Encode(c) == [Lead(c >> 6, 0xC0), Tail(c)]
  {}

  lemma Encoding3(c: CodePoint)
    requires 0x7FF < c <= 0xFFFF
    ensures Encode(c) == [Lead(c >> 12, 0xE0), Tail(c >> 6), Tail(c)]
  {}

  lemma Encoding4(c: CodePoint)
    requires 0xFFFF < c
    ensures Encode(c) == [Lead(c >> 18, 0xF0), Tail(c >> 12), Tail(c >> 6), Tail(c)]
  {}

  lemma EncodedIsFirst(c: CodePoint, rest: Bytes)
    requires Scalar(c)
    ensures FirstChar(Encode(c) + rest) == |Encode(c)|
  {
    TailContinues(c);
    TailContinues(c >> 6);
    if c <= 0x7F {
    } else if c <= 0x7FF {
      TwoBytes(c);
    } else if c <= 0xFFFF {
      ThreeBytes(c);
    } else {
      FourBytes(c);
    }
  }

  lemma ShortIsEncoded(b: Bytes)
    requires 1 <= FirstChar(b) <= 2
    ensures Scalar(Decode(b)) && Encode(Decode(b)) == b[..FirstChar(b)]
  {
    if FirstChar(b) == 1 {
      assert b[..1] == [b[0]];
    } else {
      Bits2(b[0], b[1]);
      Encoding2(Join2(b[0], b[1]));
      assert b[..2] == [b[0], b[1]];
    }
  }

  lemma Joined3(a: bv8, b: bv8, c: bv8)
    requires Front3(a, b) && Continues(c)
    ensures Scalar(Join3(a, b, c)) && Encode(Join3(a, b, c)) == [a, b, c]
  {
    Bits3(a, b, c);
    Encoding3(Join3(a, b, c));
  }

  lemma Joined4(a: bv8, b: bv8, c: bv8, d: bv8)
    requires Front4(a, b) && Continues(c) && Continues(d)
    ensures Scalar(Join4(a, b, c, d)) && Encode(Join4(a, b, c, d)) == [a, b, c, d]
  {
    Bits4(a, b, c, d);
    Encoding4(Join4(a, b, c, d));
  }

  lemma LongIsEncoded(b: Bytes)
    requires FirstChar(b) > 2
    ensures Scalar(Decode(b)) && Encode(Decode(b)) == b[..FirstChar(b)]
  {
    if FirstChar(b) == 3 {
      Joined3(b[0], b[1], b[2]);
      assert b[..3] == [b[0], b[1], b[2]];
    } else {
      Joined4(b[0], b[1], b[2], b[3]);
      assert b[..4] == [b[0], b[1], b[2], b[3]];
    }
  }

  lemma FirstIsEncoded(b: Bytes)
    requires FirstChar(b) > 0
    ensures Scalar(Decode(b)) && Encode(Decode(b)) == b[..FirstChar(b)]
  {
    if FirstChar(b) <= 2 {
      ShortIsEncoded(b);
    } else {
      LongIsEncoded(b);
    }
  }

  lemma Prepend(c: CodePoint, rest: seq<CodePoint>, b: Bytes, n: nat)
    requires n <= |b| && Encode(c) == b[..n] && EncodeAll(rest) == b[n..]
    ensures EncodeAll([c] + rest) == b
  {
    assert ([c] + rest)[1..] == rest;
    assert b == b[..n] + b[n..];
  }

  lemma {:induction false} EncodedIsValid(cs: seq<CodePoint>)
    requires forall i :: 0 <= i < |cs| ==> Scalar(cs[i])
    ensures ValidUtf8(EncodeAll(cs))
  {
    if cs != [] {
      EncodedIsFirst(cs[0], EncodeAll(cs[1..]));
      EncodedIsValid(cs[1..]);
      assert EncodeAll(cs)[|Encode(cs[0])|..] == EncodeAll(cs[1..]);
    }
  }

  lemma {:induction false} ValidIsEncoded(b: Bytes) returns (cs: seq<CodePoint>)
    requires ValidUtf8(b)
    ensures EncodeAll(cs) == b && forall i :: 0 <= i < |cs| ==> Scalar(cs[i])
    decreases |b|
  {
    if b == [] {
      cs := [];
    } else {
      FirstIsEncoded(b);
      var rest := ValidIsEncoded(b[FirstChar(b)..]);
      cs := [Decode(b)] + rest;
      Prepend(Decode(b), rest, b, FirstChar(b));
    }
  }

  predicate AllScalar(cs: seq<CodePoint>) {
    forall i :: 0 <= i < |cs| ==> Scalar(cs[i])
  }

  /** Bytes are valid text if and only if they encode some characters. */
  lemma ValidExactlyWhen(b: Bytes)
    ensures ValidUtf8(b) <==> exists cs :: AllScalar(cs) && b == EncodeAll(cs)
  {
    if ValidUtf8(b) {
      var cs := ValidIsEncoded(b);
      assert AllScalar(cs);
    }
    if cs :| AllScalar(cs) && b == EncodeAll(cs) {
      EncodedIsValid(cs);
    }
  }

  // ---------------------------------------------------------------------
  // White space
  // ---------------------------------------------------------------------

  /** The characters with the property White_Space. */
  predicate WhiteSpace(c: CodePoint) {
    || 0x09 <= c <= 0x0D || c == 0x20 || c == 0x85 || c == 0xA0 || c == 0x1680 || 0x2000 <= c <= 0x200A
    || c == 0x2028 || c == 0x2029 || c == 0x202F || c == 0x205F || c == 0x3000
  }

  /** Encoded length of the white space character at the front, or zero. */
  function LeadingSpace(b: Bytes): (n: nat)
    ensures n <= |b|
  {
    if |b| >= 1 && (Within(b[0], 0x09, 0x0D) || b[0] == 0x20) then 1
    else if |b| >= 2 && b[0] == 0xC2 && (b[1] == 0x85 || b[1] == 0xA0) then 2
    else if |b| >= 3 && (
              || (b[0] == 0xE1 && b[1] == 0x9A && b[2] == 0x80)
              || (b[0] == 0xE2 && b[1] == 0x80 && (Within(b[2], 0x80, 0x8A) || b[2] in [0xA8, 0xA9, 0xAF]))
              || (b[0] == 0xE2 && b[1] == 0x81 && b[2] == 0x9F)
              || (b[0] == 0xE3 && b[1] == 0x80 && b[2] == 0x80)) then 3
    else 0
  }

  /** `trim().is_empty()`. */
  predicate Blank(b: Bytes)
    decreases |b|
  {
    b == [] || (LeadingSpace(b) > 0 && Blank(b[LeadingSpace(b)..]))
  }

  predicate AllSpaces(cs: seq<CodePoint>) {
    forall i :: 0 <= i < |cs| ==> WhiteSpace(cs[i])
  }

  lemma SpaceLeads(c: CodePoint, rest: Bytes)
    requires WhiteSpace(c)
    ensures LeadingSpace(Encode(c) + rest) == |Encode(c)|
  {}

  lemma LeadingIsSpace(b: Bytes)
    requires LeadingSpace(b) > 0
    ensures FirstChar(b) == LeadingSpace(b) && WhiteSpace(Decode(b))
  {}

  lemma LeadingCharacter(b: Bytes) returns (c: CodePoint)
    requires LeadingSpace(b) > 0
    ensures WhiteSpace(c) && Encode(c) == b[..LeadingSpace(b)]
  {
    LeadingIsSpace(b);
    FirstIsEncoded(b);
    c := Decode(b);
  }

  lemma {:induction false} SpacesAreBlank(cs: seq<CodePoint>)
    requires AllSpaces(cs)
    ensures Blank(EncodeAll(cs))
  {
    if cs != [] {
      SpaceLeads(cs[0], EncodeAll(cs[1..]));
      SpacesAreBlank(cs[1..]);
      assert EncodeAll(cs)[|Encode(cs[0])|..] == EncodeAll(cs[1..]);
    }
  }

  lemma {:induction false} BlankIsSpaces(b: Bytes) returns (cs: seq<CodePoint>)
    requires Blank(b)
    ensures AllSpaces(cs) && EncodeAll(cs) == b
    decreases |b|
  {
    if b == [] {
      cs := [];
    } else {
      var c := LeadingCharacter(b);
      var rest := BlankIsSpaces(b[LeadingSpace(b)..]);
      cs := [c] + rest;
      Prepend(c, rest, b, LeadingSpace(b));
    }
  }

  /** The text encodes white space characters and nothing else. */
  ghost predicate OnlySpaces(b: Bytes) {
    exists cs :: AllSpaces(cs) && b == EncodeAll(cs)
  }

  /** A text is blank if and only if it is white space throughout. */
  lemma BlankExactlyWhen(b: Bytes)
    ensures Blank(b) <==> OnlySpaces(b)
  {
    if Blank(b) {
      var cs := BlankIsSpaces(b);
    }
    if cs :| AllSpaces(cs) && b == EncodeAll(cs) {
      SpacesAreBlank(cs);
    }
  }
}
