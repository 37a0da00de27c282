/** The 16-bit DShot frame: encoder (main/dshot_protocol.c) and word decoding. */
module DshotFrame {
  import opened BitArith

  const MAX_THROTTLE: nat := 2047

  /** The low nibble of payload ^ payload >> 4 ^ payload >> 8, as both programs compute it. */
  function Checksum(payload: nat): (sum: nat)
    requires payload < 0x1_0000
    ensures sum < 16
  {
    Pow2Values();
    XorBits(XorBits(payload, payload / 16, 4), payload / 256, 4)
  }

  /** Throttle and telemetry bit above their checksum. */
  function BuildWord(throttle: nat, telemetry: bool): (word: nat)
    requires throttle <= MAX_THROTTLE
    ensures word < 0x1_0000
  {
    var payload := 2 * throttle + Digit(telemetry);
    16 * payload + Checksum(payload)
  }

  /** dshot_protocol_build_frame: the two wire bytes, or zeros for a value out of range. */
  function BuildFrame(throttle: nat, telemetry: bool): (r: (bool, nat, nat))
    ensures r.0 <==> throttle <= MAX_THROTTLE
    ensures !r.0 ==> r.1 == 0 == r.2
    ensures r.0 ==> r.1 < 256 && r.2 < 256
  {
    if throttle > MAX_THROTTLE then (false, 0, 0)
    else
      var frame := BuildWord(throttle, telemetry);
      (true, frame / 256, frame % 256)
  }

  function Digit(b: bool): nat { if b then 1 else 0 }

  /** The low `width` bits of n, most significant first. */
  function BitsOf(n: nat, width: nat): (bits: seq<bool>)
    ensures |bits| == width
  {
    if width == 0 then [] else BitsOf(n / 2, width - 1) + [n % 2 == 1]
  }

  /** Wire order of a frame: high byte first, most significant bit first. */
  function FrameBits(throttle: nat, telemetry: bool): (bits: seq<bool>)
    ensures |bits| == 16
  {
    var (_, high, low) := BuildFrame(throttle, telemetry);
    BitsOf(high, 8) + BitsOf(low, 8)
  }

  /** The number whose binary digits are given, most significant first. */
  function WordOf(bits: seq<bool>): nat {
    if bits == [] then 0
    else 2 * WordOf(bits[..|bits| - 1]) + Digit(bits[|bits| - 1])
  }

  /** _word_from_bits. */
  method WordFromBits(bits: seq<bool>) returns (word: nat)
    ensures word == WordOf(bits)
  {
    word := 0;
    var i := 0;
    while i < |bits|
      invariant 0 <= i <= |bits| && word == WordOf(bits[..i])
    {
      assert bits[..i + 1][..i] == bits[..i];
      word := 2 * word + Digit(bits[i]);
      i := i + 1;
    }
    assert bits[..i] == bits;
  }

  predicate ChecksumValid(word: nat)
    requires word < 0x1_0000
  {
    Checksum(word / 16) == word % 16
  }

  function Value(word: nat): nat { word / 32 % 2048 }

  predicate Telemetry(word: nat) { word / 16 % 2 == 1 }

  lemma WordOfLast(front: seq<bool>, last: bool)
    ensures WordOf(front + [last]) == 2 * WordOf(front) + Digit(last)
  {
    assert (front + [last])[..|front|] == front;
  }

  lemma HalfAndDigit(n: nat, d: bool)
    ensures (2 * n + Digit(d)) / 2 == n && ((2 * n + Digit(d)) % 2 == 1) == d
  {
  }

  lemma {:induction false} WordOfBits(n: nat, width: nat)
    requires n < Pow2(width)
    ensures WordOf(BitsOf(n, width)) == n
  {
    if width > 0 {
      var front := BitsOf(n / 2, width - 1);
      WordOfBits(n / 2, width - 1);
      WordOfLast(front, n % 2 == 1);
      assert n == 2 * (n / 2) + n % 2;
    }
  }

  lemma {:induction false} BitsOfWord(bits: seq<bool>)
    ensures WordOf(bits) < Pow2(|bits|) && BitsOf(WordOf(bits), |bits|) == bits
  {
    if bits != [] {
      var front, last := bits[..|bits| - 1], bits[|bits| - 1];
      BitsOfWord(front);
      assert bits == front + [last];
      WordOfLast(front, last);
      HalfAndDigit(WordOf(front), last);
    }
  }

  function Shr(n: nat, k: nat): nat { if k == 0 then n else Shr(n / 2, k - 1) }

  function Shl(n: nat, k: nat): nat { if k == 0 then n else 2 * Shl(n, k - 1) }

  /** The digits of a number are those of its high part followed by those of its low part. */
  lemma {:induction false} BitsSplit(n: nat, low: nat, width: nat)
    requires width >= low
    ensures BitsOf(n, width) == BitsOf(Shr(n, low), width - low) + BitsOf(n, low)
  {
    if low > 0 {
      BitsSplit(n / 2, low - 1, width - 1);
      var high, rest := BitsOf(Shr(n, low), width - low), BitsOf(n / 2, low - 1);
      assert (high + rest) + [n % 2 == 1] == high + (rest + [n % 2 == 1]);
    }
  }

  /** Multiples of 2^width do not change the low digits. */
  lemma {:induction false} LowBitsOnly(n: nat, m: nat, width: nat)
    ensures BitsOf(n + Shl(m, width), width) == BitsOf(n, width)
  {
    if width > 0 {
      var half := Shl(m, width - 1);
      assert (n + 2 * half) / 2 == n / 2 + half && (n + 2 * half) % 2 == n % 2;
      LowBitsOnly(n / 2, m, width - 1);
    }
  }

  lemma BytesOf(n: nat)
    ensures Shr(n, 8) == n / 256 && Shl(n, 8) == 256 * n
  {
    FourDigits(n);
    FourDigits(n / 16);
    ShrAdds(n, 4, 4);
    ShlAdds(n, 4, 4);
    FourDigits(16 * n);
  }

  lemma FourDigits(n: nat)
    ensures Shr(n, 4) == n / 16 && Shl(n, 4) == 16 * n
  {
    assert Shr(n, 4) == Shr(n / 2, 3) == Shr(n / 2 / 2, 2) == Shr(n / 2 / 2 / 2, 1) == n / 2 / 2 / 2 / 2;
    assert Shl(n, 1) == 2 * n;
    assert Shl(n, 2) == 4 * n;
    assert Shl(n, 3) == 8 * n;
  }

  lemma {:induction false} ShrAdds(n: nat, j: nat, k: nat)
    ensures Shr(n, j + k) == Shr(Shr(n, j), k)
  {
    if j > 0 { ShrAdds(n / 2, j - 1, k); }
  }

  lemma {:induction false} ShlAdds(n: nat, j: nat, k: nat)
    ensures Shl(n, j + k) == Shl(Shl(n, j), k)
  {
    if k > 0 { ShlAdds(n, j, k - 1); }
  }

  /** Decoding a transmitted frame gives back its word, whatever the throttle. */
  lemma WireRoundTrip(throttle: nat, telemetry: bool)
    requires throttle <= MAX_THROTTLE
    ensures WordOf(FrameBits(throttle, telemetry)) == BuildWord(throttle, telemetry)
    ensures FrameBits(throttle, telemetry) == BitsOf(BuildWord(throttle, telemetry), 16)
  {
    var word := BuildWord(throttle, telemetry);
    assert Pow2(8) == 256 && Pow2(16) == 65536 by { Pow2Values(); }
    BitsSplit(word, 8, 16);
    BytesOf(word);
    BytesOf(word / 256);
    LowBitsOnly(word % 256, word / 256, 8);
    WordOfBits(word, 16);
  }

  /** Digits of a word made of a payload and a four-bit sum. */
  lemma SplitWord(throttle: nat, telemetry: bool, sum: nat)
    requires throttle <= MAX_THROTTLE && sum < 16
    ensures var word := 16 * (2 * throttle + Digit(telemetry)) + sum;
            && word / 16 == 2 * throttle + Digit(telemetry) && word % 16 == sum
            && Value(word) == throttle && (Telemetry(word) <==> telemetry)
  {
  }

  lemma JoinWord(word: nat)
    requires word < 0x1_0000
    ensures Value(word) <= MAX_THROTTLE
    ensures word / 16 == 2 * Value(word) + Digit(Telemetry(word))
    ensures word == 16 * (word / 16) + word % 16
  {
  }

  /** The built word carries its throttle, its telemetry bit and a valid checksum. */
  lemma BuiltWordDecodes(throttle: nat, telemetry: bool)
    requires throttle <= MAX_THROTTLE
    ensures var word := BuildWord(throttle, telemetry);
            ChecksumValid(word) && Value(word) == throttle && (Telemetry(word) <==> telemetry)
  {
    SplitWord(throttle, telemetry, Checksum(2 * throttle + Digit(telemetry)));
  }

  /** A word with a valid checksum is exactly the one the encoder builds for its value. */
  lemma ValidWordIsBuilt(word: nat)
    requires word < 0x1_0000 && ChecksumValid(word)
    ensures Value(word) <= MAX_THROTTLE && word == BuildWord(Value(word), Telemetry(word))
  {
    JoinWord(word);
  }
}
