/** The 32-bit FNV-1a checksum of both persisted blobs, and why it sees every single-byte change. */
module Fnv {
  import opened BitArith

  type Byte = b: nat | b < 256

  const OFFSET_BASIS: nat := 2166136261
  const PRIME: nat := 16777619

  /** The prime's inverse modulo 2^32. */
  const INVERSE: nat := 899433627

  function Xor(a: Byte, b: Byte): Byte {
    Pow2Values();
    XorBits(a, b, 8)
  }

  /** hash ^ byte touches only the low eight bits. */
  function Mix(h: nat, b: Byte): nat { h / 256 * 256 + Xor(h % 256, b) }

  lemma MixParts(h: nat, b: Byte)
    ensures Mix(h, b) / 256 == h / 256 && Mix(h, b) % 256 == Xor(h % 256, b)
    ensures h < WORD ==> Mix(h, b) < WORD
  {
    JoinedParts(h / 256, Xor(h % 256, b));
  }

  lemma JoinedParts(high: nat, low: Byte)
    ensures (high * 256 + low) / 256 == high && (high * 256 + low) % 256 == low
  {
  }

  function Step(h: nat, b: Byte): (r: nat)
    ensures r < WORD
  {
    Mix(h, b) * PRIME % WORD
  }

  function Fold(h: nat, bytes: seq<Byte>): nat
    decreases |bytes|
  {
    if bytes == [] then h else Fold(Step(h, bytes[0]), bytes[1..])
  }

  function Fnv1a(bytes: seq<Byte>): (hash: nat)
    ensures hash < WORD
  {
    FoldIsBounded(OFFSET_BASIS, bytes);
    Fold(OFFSET_BASIS, bytes)
  }

  lemma {:induction false} FoldIsBounded(h: nat, bytes: seq<Byte>)
    requires h < WORD
    ensures Fold(h, bytes) < WORD
    decreases |bytes|
  {
    if bytes != [] { FoldIsBounded(Step(h, bytes[0]), bytes[1..]); }
  }

  /** The accumulator loop of schedule_checksum and checksum. */
  method Checksum(data: array<Byte>, length: nat) returns (hash: nat)
    requires length <= data.Length
    ensures hash == Fnv1a(data[..length])
  {
    hash := OFFSET_BASIS;
    var i := 0;
    while i < length
      invariant 0 <= i <= length && hash < WORD
      invariant Fold(hash, data[i..length]) == Fold(OFFSET_BASIS, data[..length])
    {
      assert data[i..length][0] == data[i] && data[i..length][1..] == data[i + 1..length];
      hash := Mix(hash, data[i]) * PRIME % WORD;
      i := i + 1;
    }
    assert data[i..length] == [];
  }

  // ---- every step is injective ----

  lemma XorInjective(a: Byte, b: Byte, c: Byte)
    ensures Xor(a, b) == Xor(a, c) ==> b == c
    ensures Xor(b, a) == Xor(c, a) ==> b == c
  {
    Pow2Values();
    XorBitsCancel(a, b, 8);
    XorBitsCancel(a, c, 8);
    XorBitsSymmetric(a, b, 8);
    XorBitsSymmetric(a, c, 8);
  }

  lemma MixInjective(h: nat, k: nat, b: Byte, c: Byte)
    ensures Mix(h, b) == Mix(k, b) ==> h == k
    ensures Mix(h, b) == Mix(h, c) ==> b == c
  {
    MixParts(h, b);
    MixParts(k, b);
    MixParts(h, c);
    XorInjective(b, h % 256, k % 256);
    XorInjective(h % 256, b, c);
  }

  /** Multiplying by the inverse undoes the multiplication by the prime. */
  lemma PrimeIsInvertible(x: nat)
    requires x < WORD
    ensures (x * PRIME % WORD) * INVERSE % WORD == x
  {
    var q, r := x * PRIME / WORD, x * PRIME % WORD;
    assert PRIME * INVERSE == 3513497 * WORD + 1;
    assert x * PRIME == q * WORD + r;
    assert r * INVERSE == x * (PRIME * INVERSE) - q * WORD * INVERSE;
    assert r * INVERSE == (x * 3513497 - q * INVERSE) * WORD + x;
    RemainderIs(r * INVERSE, x * 3513497 - q * INVERSE, x);
  }

  /** Different accumulators stay different, and different bytes make them different. */
  lemma StepInjective(h: nat, k: nat, b: Byte, c: Byte)
    requires h < WORD && k < WORD
    ensures h != k ==> Step(h, b) != Step(k, b)
    ensures b != c ==> Step(h, b) != Step(h, c)
  {
    MixParts(h, b);
    MixParts(k, b);
    MixParts(h, c);
    PrimeIsInvertible(Mix(h, b));
    PrimeIsInvertible(Mix(k, b));
    PrimeIsInvertible(Mix(h, c));
    MixInjective(h, k, b, c);
  }

  lemma {:induction false} FoldInjective(h: nat, k: nat, bytes: seq<Byte>)
    requires h < WORD && k < WORD && h != k
    ensures Fold(h, bytes) != Fold(k, bytes)
    decreases |bytes|
  {
    if bytes != [] {
      StepInjective(h, k, bytes[0], bytes[0]);
      FoldInjective(Step(h, bytes[0]), Step(k, bytes[0]), bytes[1..]);
    }
  }

  lemma {:induction false} FoldSeesByte(h: nat, bytes: seq<Byte>, i: nat, b: Byte)
    requires h < WORD && i < |bytes| && b != bytes[i]
    ensures Fold(h, bytes[i := b]) != Fold(h, bytes)
    decreases |bytes|
  {
    if i == 0 {
      StepInjective(h, h, b, bytes[0]);
      assert bytes[i := b][1..] == bytes[1..];
      FoldInjective(Step(h, b), Step(h, bytes[0]), bytes[1..]);
    } else {
      assert bytes[i := b][1..] == bytes[1..][i - 1 := b];
      FoldSeesByte(Step(h, bytes[0]), bytes[1..], i - 1, b);
    }
  }

  /** Changing any single byte changes the checksum. */
  lemma ChecksumSeesByte(bytes: seq<Byte>, i: nat, b: Byte)
    requires i < |bytes| && b != bytes[i]
    ensures Fnv1a(bytes[i := b]) != Fnv1a(bytes)
  {
    FoldSeesByte(OFFSET_BASIS, bytes, i, b);
  }
}
