/** The two-branch decoding of a battery temperature word (`format_temp`). */
module Temperature {

  /** Python's `^` on non-negative integers, one bit at a time. */
  function Xor(a: nat, b: nat): (r: nat)
    ensures r <= a + b && r % 2 == (a + b) % 2
    decreases a + b
  {
    if a == 0 && b == 0 then 0
    else 2 * Xor(a / 2, b / 2) + (if a % 2 == b % 2 then 0 else 1)
  }

  function Pow2(n: nat): (p: nat)
    ensures p > 0
  {
    if n == 0 then 1 else 2 * Pow2(n - 1)
  }

  /** Xor with n one-bits is the n-bit complement. */
  lemma {:induction false} XorWithOnes(x: nat, n: nat)
    requires x < Pow2(n)
    ensures Xor(x, Pow2(n) - 1) == Pow2(n) - 1 - x
  {
    if n > 0 {
      var ones := Pow2(n) - 1;
      assert ones / 2 == Pow2(n - 1) - 1 && ones % 2 == 1;
      XorWithOnes(x / 2, n - 1);
    }
  }

  /** x read as a 12-bit two's-complement number. */
  function Signed12(x: nat): int
    requires x < 4096
  {
    if x < 2048 then x else x - 4096
  }

  /** v read as a 16-bit two's-complement number. */
  function Signed16(v: nat): int
    requires v < 65536
  {
    if v < 32768 then v else v - 65536
  }

  /** `format_temp`: a word below 0x8000 counts 1/256 degree; above, the top
      twelve bits are a negative two's-complement count of 1/16 degree, negated
      by the "minus one, complement twelve bits" step. Both scales are powers of
      two, so the binary64 result is exactly this real. */
  function FormatTemp(v: nat): (t: real)
    requires v < 65536
    ensures v < 32768 ==> t == v as real / 256.0 && 0.0 <= t < 128.0
    ensures v >= 32768 ==> t == Signed12(v / 16) as real / 16.0 && -128.0 <= t <= -0.0625
  {
    if v < 32768 then v as real * 0.00390625
    else
      XorWithOnes(v / 16 - 1, 12);
      Xor(v / 16 - 1, 0xFFF) as real * (-0.0625)
  }

  /** Against the plain signed 16-bit reading at 1/256 degree per count, the
      decode is exact for non-negative words and otherwise drops the low four
      bits, rounding down by less than 1/16 degree. */
  lemma FormatTempAgainstSigned16(v: nat)
    requires v < 65536
    ensures Signed16(v) as real / 256.0 - 0.0625 < FormatTemp(v) <= Signed16(v) as real / 256.0
    ensures FormatTemp(v) == Signed16(v) as real / 256.0 <==> v < 32768 || v % 16 == 0
  {
    if v >= 32768 {
      var q, r := v / 16, v % 16;
      assert v == 16 * q + r;
      assert Signed16(v) == 16 * (q - 4096) + r;
      assert FormatTemp(v) == (q - 4096) as real / 16.0;
    }
  }

  /** The worked values: 0x0100 is 1 degree, 0x8000 is -128 degrees and 0xFFFF
      is -1/16 degree (the negative branch never yields zero). */
  lemma FormatTempExamples()
    ensures FormatTemp(0x0100) == 1.0
    ensures FormatTemp(0x8000) == -128.0
    ensures FormatTemp(0xFFFF) == -0.0625
  {
    assert Signed12(0x8000 / 16) == -2048;
    assert Signed12(0xFFFF / 16) == -1;
  }
}
