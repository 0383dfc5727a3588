/** Secrets, their stored digests, and the comparison that gates resumes and dashboard
    cookies. Go strings are sequences of bytes. */
module Secrets {
  type Bytes = seq<bv8>

  // ---------------------------------------------------------------- digests

  predicate IsAscii(s: Bytes) {
    forall i :: 0 <= i < |s| ==> s[i] < 0x80
  }

  /** What the rest of the model relies on: no collisions, and printable non-empty output. */
  ghost predicate IsSecretHash(f: Bytes -> Bytes) {
    && (forall a, b :: f(a) == f(b) ==> a == b)
    && (forall a :: f(a) != [] && IsAscii(f(a)))
  }

  /** Functions like this exist: spread each byte over two small ones, behind a prefix. */
  function SpreadDigest(s: Bytes): Bytes {
    [0x73]
    + seq(|s|, i requires 0 <= i < |s| => Low(s[i]))
    + seq(|s|, i requires 0 <= i < |s| => High(s[i]))
  }

  function Low(x: bv8): bv8 { if x < 0x80 then x else x - 0x80 }

  function High(x: bv8): bv8 { if x < 0x80 then 0 else 1 }

  lemma SpreadDigestIsSecretHash()
    ensures IsSecretHash(SpreadDigest)
  {
    forall a, b | SpreadDigest(a) == SpreadDigest(b)
      ensures a == b
    {
      assert |SpreadDigest(a)| == 1 + 2 * |a| && |SpreadDigest(b)| == 1 + 2 * |b|;
      forall i | 0 <= i < |a|
        ensures a[i] == b[i]
      {
        assert SpreadDigest(a)[1 + i] == Low(a[i]) && SpreadDigest(a)[1 + |a| + i] == High(a[i]);
        assert SpreadDigest(b)[1 + i] == Low(b[i]) && SpreadDigest(b)[1 + |b| + i] == High(b[i]);
      }
    }
  }

  type SecretHash = f: Bytes -> Bytes | IsSecretHash(f)
    witness (SpreadDigestIsSecretHash(); SpreadDigest)

  /** SHA-256 behind the "sha256:" prefix. Only the properties of SecretHash are known. */
  const HOSTED_HASH: SecretHash

  function HashHostedSecret(secret: Bytes): (h: Bytes)
    ensures h != [] && IsAscii(h)
  {
    HOSTED_HASH(secret)
  }

  lemma HashIsInjective(a: Bytes, b: Bytes)
    ensures HashHostedSecret(a) == HashHostedSecret(b) <==> a == b
  {
  }

  // ------------------------------------------------- the byte-folding compare

  predicate IsContinuation(b: bv8) { 0x80 <= b <= 0xBF }

  /** The number of bytes by which `for i := range s` advances from index i: the width of
      the well-formed UTF-8 sequence there, and 1 for an ill-formed one. */
  function RuneWidth(s: Bytes, i: nat): (w: nat)
    requires i < |s|
    ensures 1 <= w <= 4 && i + w <= |s|
    ensures s[i] < 0x80 ==> w == 1
  {
    var b := s[i];
    if 0xC2 <= b <= 0xDF && i + 1 < |s| && IsContinuation(s[i + 1]) then 2
    else if 0xE0 <= b <= 0xEF && i + 2 < |s| && IsContinuation(s[i + 2])
            && (if b == 0xE0 then 0xA0 else 0x80) <= s[i + 1] <= (if b == 0xED then 0x9F else 0xBF) then 3
    else if 0xF0 <= b <= 0xF4 && i + 3 < |s| && IsContinuation(s[i + 2]) && IsContinuation(s[i + 3])
            && (if b == 0xF0 then 0x90 else 0x80) <= s[i + 1] <= (if b == 0xF4 then 0x8F else 0xBF) then 4
    else 1
  }

  /** The Unicode scalar values. */
  predicate IsScalar(c: bv32) {
    c <= 0x10FFFF && !(0xD800 <= c <= 0xDFFF)
  }

  /** The UTF-8 encoding of a scalar value. */
  function RuneBytes(c: bv32): Bytes
    requires IsScalar(c)
  {
    if c < 0x80 then [c as bv8]
    else if c < 0x800 then [0xC0 | ((c >> 6) as bv8), 0x80 | ((c & 0x3F) as bv8)]
    else if c < 0x1_0000 then [0xE0 | ((c >> 12) as bv8), 0x80 | (((c >> 6) & 0x3F) as bv8), 0x80 | ((c & 0x3F) as bv8)]
    else [0xF0 | ((c >> 18) as bv8), 0x80 | (((c >> 12) & 0x3F) as bv8),
          0x80 | (((c >> 6) & 0x3F) as bv8), 0x80 | ((c & 0x3F) as bv8)]
  }

  lemma OneByte(c: bv32)
    requires c < 0x80
    ensures (c as bv8) < 0x80
  {
  }

  lemma TwoBytes(c: bv32)
    requires 0x80 <= c < 0x800
    ensures 0xC2 <= 0xC0 | ((c >> 6) as bv8) <= 0xDF && IsContinuation(0x80 | ((c & 0x3F) as bv8))
  {
  }

  lemma ThreeBytes(c: bv32)
    requires 0x800 <= c < 0x1_0000 && IsScalar(c)
    ensures var x, y, z := 0xE0 | ((c >> 12) as bv8), 0x80 | (((c >> 6) & 0x3F) as bv8), 0x80 | ((c & 0x3F) as bv8);
            && 0xE0 <= x <= 0xEF && IsContinuation(z)
            && (if x == 0xE0 then 0xA0 else 0x80) <= y <= (if x == 0xED then 0x9F else 0xBF)
  {
  }

  lemma FourBytes(c: bv32)
    requires 0x1_0000 <= c && IsScalar(c)
    ensures var x, y := 0xF0 | ((c >> 18) as bv8), 0x80 | (((c >> 12) & 0x3F) as bv8);
            && 0xF0 <= x <= 0xF4 && (if x == 0xF0 then 0x90 else 0x80) <= y <= (if x == 0xF4 then 0x8F else 0xBF)
            && IsContinuation(0x80 | (((c >> 6) & 0x3F) as bv8)) && IsContinuation(0x80 | ((c & 0x3F) as bv8))
  {
  }

  /** The loop steps over a whole encoded rune, whatever follows it. */
  lemma RuneWidthOfRune(s: Bytes, i: nat, c: bv32)
    requires IsScalar(c) && i + |RuneBytes(c)| <= |s| && s[i..i + |RuneBytes(c)|] == RuneBytes(c)
    ensures RuneWidth(s, i) == |RuneBytes(c)|
  {
    var bytes := RuneBytes(c);
    forall k | 0 <= k < |bytes| ensures s[i + k] == bytes[k] {
      assert s[i..i + |bytes|][k] == bytes[k];
    }
    assert s[i] == bytes[0];
    if c < 0x80 {
      OneByte(c);
    } else if c < 0x800 {
      assert s[i + 1] == bytes[1];
      TwoBytes(c);
    } else if c < 0x1_0000 {
      assert s[i + 1] == bytes[1] && s[i + 2] == bytes[2];
      ThreeBytes(c);
    } else {
      assert s[i + 1] == bytes[1] && s[i + 2] == bytes[2] && s[i + 3] == bytes[3];
      FourBytes(c);
    }
  }

  lemma FromTwo(x: bv8, y: bv8) returns (c: bv32)
    requires 0xC2 <= x <= 0xDF && IsContinuation(y)
    ensures IsScalar(c) && RuneBytes(c) == [x, y]
  {
    c := (((x & 0x1F) as bv32) << 6) | ((y & 0x3F) as bv32);
  }

  lemma FromThree(x: bv8, y: bv8, z: bv8) returns (c: bv32)
    requires 0xE0 <= x <= 0xEF && IsContinuation(z)
    requires (if x == 0xE0 then 0xA0 else 0x80) <= y <= (if x == 0xED then 0x9F else 0xBF)
    ensures IsScalar(c) && RuneBytes(c) == [x, y, z]
  {
    c := (((x & 0x0F) as bv32) << 12) | (((y & 0x3F) as bv32) << 6) | ((z & 0x3F) as bv32);
  }

  lemma FromFour(x: bv8, y: bv8, z: bv8, w: bv8) returns (c: bv32)
    requires 0xF0 <= x <= 0xF4 && IsContinuation(z) && IsContinuation(w)
    requires (if x == 0xF0 then 0x90 else 0x80) <= y <= (if x == 0xF4 then 0x8F else 0xBF)
    ensures IsScalar(c) && RuneBytes(c) == [x, y, z, w]
  {
    c := (((x & 0x07) as bv32) << 18) | (((y & 0x3F) as bv32) << 12) | (((z & 0x3F) as bv32) << 6) | ((w & 0x3F) as bv32);
  }

  /** It steps over more than one byte only where a rune is encoded. */
  lemma WideStepsAreRunes(s: Bytes, i: nat) returns (c: bv32)
    requires i < |s| && RuneWidth(s, i) > 1
    ensures IsScalar(c) && s[i..i + RuneWidth(s, i)] == RuneBytes(c)
  {
    hide RuneBytes, IsScalar;
    if RuneWidth(s, i) == 2 {
      c := FromTwo(s[i], s[i + 1]);
    } else if RuneWidth(s, i) == 3 {
      c := FromThree(s[i], s[i + 1], s[i + 2]);
    } else {
      c := FromFour(s[i], s[i + 1], s[i + 2], s[i + 3]);
    }
  }

  /** a and b agree at every index that the loop over a visits from i on. */
  predicate AgreeFrom(a: Bytes, b: Bytes, i: nat)
    requires |a| == |b|
    decreases |a| - i
  {
    i < |a| ==> a[i] == b[i] && AgreeFrom(a, b, i + RuneWidth(a, i))
  }

  predicate FoldCompare(a: Bytes, b: Bytes)
    ensures IsAscii(a) ==> (FoldCompare(a, b) <==> a == b)
  {
    assert |a| == |b| && IsAscii(a) ==> (AgreeFrom(a, b, 0) <==> a == b) by {
      if |a| == |b| && IsAscii(a) { AgreeOnSingleBytes(a, b, 0); }
    }
    |a| == |b| && AgreeFrom(a, b, 0)
  }

  predicate SingleByteRunes(a: Bytes) {
    forall i :: 0 <= i < |a| ==> RuneWidth(a, i) == 1
  }

  lemma {:induction false} AgreeOnSingleBytes(a: Bytes, b: Bytes, i: nat)
    requires |a| == |b| && i <= |a| && SingleByteRunes(a)
    ensures AgreeFrom(a, b, i) <==> forall j :: i <= j < |a| ==> a[j] == b[j]
    decreases |a| - i
  {
    if i < |a| { AgreeOnSingleBytes(a, b, i + 1); }
  }

  lemma FoldBit(diff: bv8, x: bv8, y: bv8)
    ensures (diff | (x ^ y)) == 0 <==> diff == 0 && x == y
  {
  }

  method SubtleConstantTimeCompare(a: Bytes, b: Bytes) returns (same: bool)
    ensures same <==> FoldCompare(a, b)
  {
    if |a| != |b| {
      return false;
    }
    var diff: bv8 := 0;
    var i := 0;
    while i < |a|
      invariant 0 <= i <= |a|
      invariant AgreeFrom(a, b, 0) <==> diff == 0 && AgreeFrom(a, b, i)
    {
      FoldBit(diff, a[i], b[i]);
      diff := diff | (a[i] ^ b[i]);
      i := i + RuneWidth(a, i);
    }
    same := diff == 0;
  }

  /** The loop ranges over runes, not bytes, so the compare is equality exactly for a first
      argument without multi-byte runes. Stored digests are ASCII, so the gates are sound. */
  lemma CompareIsEqualityIff(a: Bytes)
    ensures (forall b :: FoldCompare(a, b) <==> a == b) <==> SingleByteRunes(a)
  {
    if SingleByteRunes(a) {
      forall b ensures FoldCompare(a, b) <==> a == b {
        if |a| == |b| { AgreeOnSingleBytes(a, b, 0); }
      }
    } else {
      var i :| 0 <= i < |a| && RuneWidth(a, i) != 1;
      var b := DifferingTwin(a, 0, i);
      assert FoldCompare(a, b) && a != b;
    }
  }

  /** Walks to the first wide rune and changes its second byte, which no compare looks at. */
  lemma {:induction false} DifferingTwin(a: Bytes, k: nat, i: nat) returns (b: Bytes)
    requires k <= i < |a| && RuneWidth(a, i) != 1
    ensures |b| == |a| && b != a && AgreeFrom(a, b, k)
    ensures forall j :: 0 <= j < k ==> b[j] == a[j]
    decreases i - k
  {
    if RuneWidth(a, k) == 1 {
      b := DifferingTwin(a, k + 1, i);
    } else {
      b := a[k + 1 := a[k + 1] ^ 1];
      FoldBit(0, a[k + 1] ^ 1, a[k + 1]);
      OneBitFlips(a[k + 1]);
      AgreeOnSuffix(a, b, k + RuneWidth(a, k));
    }
  }

  lemma OneBitFlips(x: bv8)
    ensures x ^ 1 != x
  {
  }

  lemma {:induction false} AgreeOnSuffix(a: Bytes, b: Bytes, i: nat)
    requires |a| == |b| && forall j :: i <= j < |a| ==> a[j] == b[j]
    ensures AgreeFrom(a, b, i)
    decreases |a| - i
  {
    if i < |a| { AgreeOnSuffix(a, b, i + RuneWidth(a, i)); }
  }
}
