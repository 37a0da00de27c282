/** Bitwise arithmetic on natural numbers, without machine words. */
module BitArith {

  function Pow2(w: nat): (p: nat)
    ensures p > 0
  {
    if w == 0 then 1 else 2 * Pow2(w - 1)
  }

  lemma Pow2Values()
    ensures Pow2(4) == 16 && Pow2(8) == 256 && Pow2(16) == 0x1_0000
  {
    assert Pow2(4) == 16;
    assert Pow2(8) == 256;
    assert Pow2(12) == 4096;
  }

  /** Exclusive or of the low w bits of two numbers. */
  function XorBits(a: nat, b: nat, w: nat): (x: nat)
    ensures x < Pow2(w)
  {
    if w == 0 then 0 else 2 * XorBits(a / 2, b / 2, w - 1) + (a + b) % 2
  }

  lemma HalfAndBit(rest: nat, bit: nat)
    requires bit < 2
    ensures (2 * rest + bit) / 2 == rest && (2 * rest + bit) % 2 == bit
  {
  }

  lemma ParityCancels(a: nat, b: nat, rest: nat)
    ensures (a + (2 * rest + (a + b) % 2)) % 2 == b % 2
  {
    var k := (a + b) / 2;
    assert a + (2 * rest + (a + b) % 2) == 2 * (a + rest - k) + b;
    EvenPart(a + rest - k, b);
  }

  lemma EvenPart(k: int, b: nat)
    requires 2 * k + b >= 0
    ensures (2 * k + b) % 2 == b % 2
  {
  }

  lemma XorBitsStep(a: nat, b: nat, w: nat)
    requires w > 0
    ensures XorBits(a, b, w) == 2 * XorBits(a / 2, b / 2, w - 1) + (a + b) % 2
  {
  }

  /** Exclusive or with the same number twice gives the other one back. */
  lemma {:induction false} XorBitsCancel(a: nat, b: nat, w: nat)
    requires b < Pow2(w)
    ensures XorBits(a, XorBits(a, b, w), w) == b
  {
    if w > 0 {
      var rest, bit := XorBits(a / 2, b / 2, w - 1), (a + b) % 2;
      XorBitsCancel(a / 2, b / 2, w - 1);
      HalfAndBit(rest, bit);
      ParityCancels(a, b, rest);
      XorBitsStep(a, b, w);
      XorBitsStep(a, 2 * rest + bit, w);
    }
  }

  lemma {:induction false} XorBitsSymmetric(a: nat, b: nat, w: nat)
    ensures XorBits(a, b, w) == XorBits(b, a, w)
  {
    if w > 0 { XorBitsSymmetric(a / 2, b / 2, w - 1); }
  }

  /** Arithmetic of 32-bit words. */
  const WORD: nat := 0x1_0000_0000

  lemma RemainderIs(n: int, q: int, r: nat)
    requires n == q * WORD + r && r < WORD
    ensures n % WORD == r
  {
  }
}
