/**
 * What the four checksum bits of a DShot frame mean, said of the sixteen bits on the
 * wire and without the exclusive-or arithmetic that computes them.
 */
module DshotChecksum {
  import opened BitArith
  import opened DshotFrame

  /** How many ones position b has over the four nibbles. */
  function Column(bits: seq<bool>, b: nat): nat
    requires |bits| == 16 && b < 4
  {
    Digit(bits[b]) + Digit(bits[b + 4]) + Digit(bits[b + 8]) + Digit(bits[b + 12])
  }

  /** The frame's four nibbles have an even number of ones in each of the four positions. */
  predicate EvenColumns(bits: seq<bool>)
    requires |bits| == 16
  {
    forall b :: 0 <= b < 4 ==> Column(bits, b) % 2 == 0
  }

  // ---- binary digits of a number, least significant first ----

  function Bit(n: nat, k: nat): (b: nat)
    ensures b < 2
  {
    if k == 0 then n % 2 else Bit(n / 2, k - 1)
  }

  lemma BitOfSum(rest: nat, bit: nat, k: nat)
    requires bit < 2
    ensures Bit(2 * rest + bit, k) == if k == 0 then bit else Bit(rest, k - 1)
  {
    HalfAndBit(rest, bit);
  }

  /** Exclusive or adds digit by digit, without carry. */
  lemma {:induction false} XorAddsBits(a: nat, b: nat, w: nat, k: nat)
    requires k < w
    ensures Bit(XorBits(a, b, w), k) == (Bit(a, k) + Bit(b, k)) % 2
  {
    BitOfSum(XorBits(a / 2, b / 2, w - 1), (a + b) % 2, k);
    if k == 0 {
      SumParity(a, b);
    } else {
      XorAddsBits(a / 2, b / 2, w - 1, k - 1);
    }
  }

  lemma SumParity(a: nat, b: nat)
    ensures (a + b) % 2 == (a % 2 + b % 2) % 2
  {
  }

  /** The digits of a number read from its wire bits. */
  lemma {:induction false} BitOfWord(bits: seq<bool>, k: nat)
    requires k < |bits|
    ensures Bit(WordOf(bits), k) == Digit(bits[|bits| - 1 - k])
  {
    var front, last := bits[..|bits| - 1], bits[|bits| - 1];
    BitOfSum(WordOf(front), Digit(last), k);
    if k > 0 { BitOfWord(front, k - 1); }
  }

  lemma BitOfHigh(n: nat, k: nat)
    ensures Bit(n / 16, k) == Bit(n, k + 4)
  {
    assert n / 16 == n / 2 / 2 / 2 / 2;
    assert Bit(n, k + 4) == Bit(n / 2, k + 3) == Bit(n / 2 / 2, k + 2) == Bit(n / 2 / 2 / 2, k + 1);
  }

  /** A number below sixteen and its digits determine each other. */
  lemma FourBits(n: nat)
    ensures n % 16 == 8 * Bit(n, 3) + 4 * Bit(n, 2) + 2 * Bit(n, 1) + Bit(n, 0)
  {
    var a, b := n / 2, n / 2 / 2;
    assert Bit(n, 1) == a % 2;
    assert Bit(n, 2) == Bit(a, 1) == b % 2;
    assert Bit(n, 3) == Bit(a, 2) == Bit(b, 1) == b / 2 % 2;
    Sixteenths(n);
  }

  lemma Sixteenths(n: nat)
    ensures n % 16 == 8 * (n / 2 / 2 / 2 % 2) + 4 * (n / 2 / 2 % 2) + 2 * (n / 2 % 2) + n % 2
  {
  }

  // ---- the checksum, digit by digit ----

  lemma ChecksumBit(payload: nat, k: nat)
    requires payload < 0x1_0000 && k < 4
    ensures Bit(Checksum(payload), k) == (Bit(payload, k) + Bit(payload, k + 4) + Bit(payload, k + 8)) % 2
  {
    var x := XorBits(payload, payload / 16, 4);
    XorAddsBits(payload, payload / 16, 4, k);
    XorAddsBits(x, payload / 256, 4, k);
    BitOfHigh(payload, k);
    BitOfHigh(payload, k + 4);
    BitOfHigh(payload / 16, k);
    assert payload / 256 == payload / 16 / 16;
  }

  /** Digit k of the checksum agrees with digit k of the word. */
  predicate Agrees(word: nat, k: nat)
    requires word < 0x1_0000
  {
    Bit(Checksum(word / 16), k) == Bit(word, k)
  }

  lemma ValidMeansAgreement(word: nat)
    requires word < 0x1_0000
    ensures ChecksumValid(word) <==> forall k :: 0 <= k < 4 ==> Agrees(word, k)
  {
    var sum := Checksum(word / 16);
    FourBits(sum);
    FourBits(word);
    assert sum % 16 == sum;
    if forall k :: 0 <= k < 4 ==> Agrees(word, k) {
      assert Agrees(word, 0) && Agrees(word, 1) && Agrees(word, 2) && Agrees(word, 3);
    }
    if ChecksumValid(word) {
      LowDigits(sum, word);
      forall k | 0 <= k < 4 ensures Agrees(word, k) { assert k == 0 || k == 1 || k == 2 || k == 3; }
    }
  }

  lemma DigitsAreUnique(a: nat, b: nat, c: nat, d: nat, p: nat, q: nat, r: nat, s: nat)
    requires a < 2 && b < 2 && c < 2 && d < 2 && p < 2 && q < 2 && r < 2 && s < 2
    requires 8 * a + 4 * b + 2 * c + d == 8 * p + 4 * q + 2 * r + s
    ensures a == p && b == q && c == r && d == s
  {
  }

  /** Numbers that agree modulo sixteen agree in their last four digits. */
  lemma LowDigits(m: nat, n: nat)
    requires m % 16 == n % 16
    ensures Bit(m, 3) == Bit(n, 3) && Bit(m, 2) == Bit(n, 2) && Bit(m, 1) == Bit(n, 1) && Bit(m, 0) == Bit(n, 0)
  {
    FourBits(m);
    FourBits(n);
    DigitsAreUnique(Bit(m, 3), Bit(m, 2), Bit(m, 1), Bit(m, 0), Bit(n, 3), Bit(n, 2), Bit(n, 1), Bit(n, 0));
  }

  lemma AgreementIsEven(bits: seq<bool>, b: nat)
    requires |bits| == 16 && b < 4 && WordOf(bits) < 0x1_0000
    ensures Agrees(WordOf(bits), 3 - b) <==> Column(bits, b) % 2 == 0
  {
    var n, k := WordOf(bits), 3 - b;
    ChecksumBit(n / 16, k);
    HighBits(n, k);
    DigitsOfColumn(bits, b);
    SumsAgree(Bit(n, k), Bit(n, k + 4), Bit(n, k + 8), Bit(n, k + 12));
  }

  lemma HighBits(n: nat, k: nat)
    ensures Bit(n / 16, k) == Bit(n, k + 4) && Bit(n / 16, k + 4) == Bit(n, k + 8) && Bit(n / 16, k + 8) == Bit(n, k + 12)
  {
    BitOfHigh(n, k);
    BitOfHigh(n, k + 4);
    BitOfHigh(n, k + 8);
  }

  lemma DigitsOfColumn(bits: seq<bool>, b: nat)
    requires |bits| == 16 && b < 4
    ensures var n, k := WordOf(bits), 3 - b;
            Column(bits, b) == Bit(n, k) + Bit(n, k + 4) + Bit(n, k + 8) + Bit(n, k + 12)
  {
    BitOfWord(bits, 3 - b);
    BitOfWord(bits, 7 - b);
    BitOfWord(bits, 11 - b);
    BitOfWord(bits, 15 - b);
  }

  lemma SumsAgree(low: nat, a: nat, b: nat, c: nat)
    requires low < 2 && a < 2 && b < 2 && c < 2
    ensures (a + b + c) % 2 == low <==> (low + a + b + c) % 2 == 0
  {
  }

  /** A sixteen-bit word has a valid checksum exactly if each of its four columns is even. */
  lemma ValidMeansEvenColumns(bits: seq<bool>)
    requires |bits| == 16
    ensures WordOf(bits) < 0x1_0000
    ensures ChecksumValid(WordOf(bits)) <==> EvenColumns(bits)
  {
    var n := WordOf(bits);
    BitsOfWord(bits);
    Pow2Values();
    ValidMeansAgreement(n);
    forall b | 0 <= b < 4 ensures Agrees(n, 3 - b) <==> Column(bits, b) % 2 == 0 { AgreementIsEven(bits, b); }
    if EvenColumns(bits) {
      forall k | 0 <= k < 4 ensures Agrees(n, k) { assert Column(bits, 3 - k) % 2 == 0; }
    }
    if ChecksumValid(n) {
      forall b | 0 <= b < 4 ensures Column(bits, b) % 2 == 0 { assert Agrees(n, 3 - b); }
    }
  }

  /** Any single bit that arrives flipped makes the analyzer reject the frame. */
  lemma FlippedBitIsRejected(throttle: nat, telemetry: bool, i: nat)
    requires throttle <= MAX_THROTTLE && i < 16
    ensures var sent := FrameBits(throttle, telemetry);
            var received := WordOf(sent[i := !sent[i]]);
            received < 0x1_0000 && !ChecksumValid(received)
  {
    var sent := FrameBits(throttle, telemetry);
    FrameIsValid(throttle, telemetry);
    ValidMeansEvenColumns(sent);
    ValidMeansEvenColumns(sent[i := !sent[i]]);
    FlipIsUneven(sent, i);
  }

  lemma FrameIsValid(throttle: nat, telemetry: bool)
    requires throttle <= MAX_THROTTLE
    ensures WordOf(FrameBits(throttle, telemetry)) < 0x1_0000
    ensures ChecksumValid(WordOf(FrameBits(throttle, telemetry)))
  {
    WireRoundTrip(throttle, telemetry);
    BuiltWordDecodes(throttle, telemetry);
  }

  /** Flipping one bit makes its column odd. */
  lemma FlipIsUneven(sent: seq<bool>, i: nat)
    requires |sent| == 16 && i < 16 && EvenColumns(sent)
    ensures !EvenColumns(sent[i := !sent[i]])
  {
    var r, b := sent[i := !sent[i]], i % 4;
    assert i == b || i == b + 4 || i == b + 8 || i == b + 12;
    assert Column(sent, b) % 2 == 0;
    assert Column(r, b) == Column(sent, b) + 1 || Column(r, b) == Column(sent, b) - 1;
    assert Column(r, b) % 2 == 1;
  }

  /** The wire carries the throttle in its first eleven bits, most significant first, then the telemetry bit. */
  lemma FrameLayout(throttle: nat, telemetry: bool)
    requires throttle <= MAX_THROTTLE
    ensures WordOf(FrameBits(throttle, telemetry)[..11]) == throttle
    ensures FrameBits(throttle, telemetry)[11] == telemetry
  {
    WireRoundTrip(throttle, telemetry);
    BuiltWordDecodes(throttle, telemetry);
    HighElevenBits(FrameBits(throttle, telemetry));
    TwelfthBit(FrameBits(throttle, telemetry));
  }

  lemma TwelfthBit(bits: seq<bool>)
    requires |bits| == 16
    ensures WordOf(bits) / 16 % 2 == 1 <==> bits[11]
  {
    BitOfWord(bits, 4);
    BitOfHigh(WordOf(bits), 0);
  }

  lemma HighElevenBits(bits: seq<bool>)
    requires |bits| == 16
    ensures WordOf(bits) < 0x1_0000 && WordOf(bits[..11]) == WordOf(bits) / 32 % 2048
  {
    var n := WordOf(bits);
    BitsOfWord(bits);
    Pow2Values();
    PrefixIsShifted(bits, 5);
    FourDigits(n / 2);
    Thirtyseconds(n);
  }

  /** Dropping k bits from the end halves the number k times. */
  lemma {:induction false} PrefixIsShifted(bits: seq<bool>, k: nat)
    requires k <= |bits|
    ensures WordOf(bits[..|bits| - k]) == Shr(WordOf(bits), k)
    decreases k
  {
    if k == 0 {
      assert bits[..|bits|] == bits;
    } else {
      var front := bits[..|bits| - 1];
      HalfAndDigit(WordOf(front), bits[|bits| - 1]);
      PrefixIsShifted(front, k - 1);
      assert front[..|front| - (k - 1)] == bits[..|bits| - k];
    }
  }

  lemma Thirtyseconds(n: nat)
    requires n < 0x1_0000
    ensures n / 2 / 16 == n / 32 == n / 32 % 2048
  {
  }
}
