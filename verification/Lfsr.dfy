/** The arbiter's pseudo-random register: a 32-bit signed int, shifted left with a
    feedback that C++'s truncating % can make negative. */
module Lfsr {
  import opened Division

  const WORD: int := 0x1_0000_0000
  const HALF: int := 0x8000_0000

  /** Two's complement wrap-around of a 32-bit int. */
  function Wrap(x: int): (r: int)
    ensures -HALF <= r < HALF && (r - x) % WORD == 0
  {
    (x + HALF) % WORD - HALF
  }

  /** x % 2 as C++ computes it, truncating toward zero. */
  function Odd(x: int): (r: int)
    ensures r == 0 <==> x % 2 == 0
    ensures -1 <= r <= 1 && (x >= 0 ==> r >= 0) && (x <= 0 ==> r <= 0)
  {
    if x >= 0 then x % 2 else -((-x) % 2)
  }

  /** Arithmetic right shift. Dafny's `/` floors for a positive divisor. */
  function ShiftRight(x: int, k: nat): int { x / Pow2(k) }

  function Pow2(k: nat): (r: int)
    ensures r >= 1
  {
    if k == 0 then 1 else 2 * Pow2(k - 1)
  }

  /** update_rand: the register after one service. */
  function Next(lfsr: int): (r: int)
    ensures -HALF <= r < HALF
  {
    Wrap(2 * lfsr + Odd(lfsr / 2 + lfsr / 64 + lfsr / 65536))
  }

  /** The register after k services, from its initial value 1. */
  function After(k: nat): (r: int)
    ensures -HALF <= r < HALF
  {
    if k == 0 then 1 else Next(After(k - 1))
  }

  /** The sum fed back never overflows, so wrapping it changes nothing. */
  lemma FeedbackFits(x: int)
    requires -HALF <= x < HALF
    ensures Wrap(Wrap(x / 2 + x / 64) + x / 65536) == x / 2 + x / 64 + x / 65536
  {
    WrapFits(x / 2 + x / 64);
    WrapFits(x / 2 + x / 64 + x / 65536);
  }

  lemma WrapFits(x: int)
    requires -HALF <= x < HALF
    ensures Wrap(x) == x
  {
  }

  /** Wrapping an intermediate sum does not change the wrapped result. */
  lemma WrapAdd(x: int, y: int)
    ensures Wrap(Wrap(x) + y) == Wrap(x + y)
  {
    var q := (x + HALF) / WORD;
    assert Wrap(x) + y + HALF == x + y + HALF - q * WORD;
    ModWord(x + y + HALF, q);
  }

  lemma ModWord(x: int, m: int)
    ensures (x - m * WORD) % WORD == x % WORD
  {
  }

  /** The step, computed with every intermediate result wrapped. */
  lemma NextWraps(x: int)
    requires -HALF <= x < HALF
    ensures Next(x) == Wrap(Wrap(2 * x) + Odd(Wrap(Wrap(x / 2 + x / 64) + x / 65536)))
  {
    FeedbackFits(x);
    WrapAdd(2 * x, Odd(x / 2 + x / 64 + x / 65536));
  }

  /** The low 17 bits of the register: the ones its feedback taps span. */
  function Low17(x: int): nat { x % 0x2_0000 }

  /** One step cannot empty the low 17 bits. Only an all-zero window maps to one: if the
      shifted-in digit and bits 0..15 vanish then bit 16 is the only tap left, and it
      vanishes with them. */
  lemma StepKeepsAlive(x: int)
    requires Low17(x) != 0
    ensures Low17(Next(x)) != 0
  {
    var r := Odd(x / 2 + x / 64 + x / 65536);
    WrapKeepsLow(2 * x + r);
    if Low17(Next(x)) == 0 {
      EmptyWindow(x, r, (2 * x + r) / 0x2_0000);
    }
  }

  lemma EmptyWindow(x: int, r: int, q: int)
    requires 2 * x + r == 0x2_0000 * q && r == Odd(x / 2 + x / 64 + x / 65536)
    ensures Low17(x) == 0
  {
    assert r % 2 == 0;
    assert x == 0x1_0000 * q;
    TapsOf(q);
    var p := q / 2;
    assert x == p * 0x2_0000 + 0;
    ModShift(0, -p);
  }

  /** Of a register whose bits 0..15 are zero, only the tap on bit 16 can be odd. */
  lemma TapsOf(q: int)
    ensures (0x1_0000 * q) / 2 + (0x1_0000 * q) / 64 + (0x1_0000 * q) / 65536 == 0x8401 * q
    ensures (0x8401 * q) % 2 == q % 2
  {
    Halved(0x8000 * q);
    SixtyFourth(0x400 * q);
    Top(q);
    SameParity(0x8401 * q, q, 0x4200 * q);
  }

  lemma Halved(y: int)
    ensures (2 * y) / 2 == y
  {
  }

  lemma SixtyFourth(y: int)
    ensures (64 * y) / 64 == y
  {
  }

  lemma Top(y: int)
    ensures (0x1_0000 * y) / 65536 == y
  {
  }

  lemma SameParity(x: int, y: int, m: int)
    requires x == y + 2 * m
    ensures x % 2 == y % 2
  {
  }

  lemma WrapKeepsLow(x: int)
    ensures Low17(Wrap(x)) == Low17(x)
  {
    var q := (x + HALF) / WORD;
    assert Wrap(x) == x - 0x8000 * q * 0x2_0000;
    ModShift(x, 0x8000 * q);
  }

  lemma ModShift(x: int, m: int)
    ensures (x - m * 0x2_0000) % 0x2_0000 == x % 0x2_0000
  {
  }

  /** The register never dies, however many services there have been. */
  lemma {:induction false} NeverZero(k: nat)
    ensures Low17(After(k)) != 0 && After(k) != 0
  {
    if k > 0 {
      NeverZero(k - 1);
      StepKeepsAlive(After(k - 1));
    }
  }

  // ---------------------------------------------------------------------------
  // The random byte
  // ---------------------------------------------------------------------------

  /** One digit of the byte: bit 4*i of the register through a uint8_t, so that the -1 of
      an odd negative value becomes 255. */
  function Digit(lfsr: int, i: nat): (b: int)
    ensures 0 <= b < 256
  {
    Odd(ShiftRight(lfsr, 4 * i)) % 256
  }

  /** The byte after the first i digits have been added in, modulo 256. */
  function ByteUpTo(lfsr: int, i: nat): (r: int)
    ensures 0 <= r < 256
  {
    if i == 0 then 0 else (ByteUpTo(lfsr, i - 1) + Digit(lfsr, i - 1) * Pow2(i - 1)) % 256
  }

  function RandomByte(lfsr: int): (r: int)
    ensures 0 <= r < 256
  {
    ByteUpTo(lfsr, 8)
  }

  /** Bits 0, 4, 8, ... of the register, read as a binary number. */
  function BitSum(lfsr: int, i: nat): int {
    if i == 0 then 0 else BitSum(lfsr, i - 1) + (ShiftRight(lfsr, 4 * (i - 1)) % 2) * Pow2(i - 1)
  }

  /** The byte is that number for a non-negative register; for a negative one each digit came
      out as 255, that is -1, and the byte is the number's negation modulo 256. */
  lemma {:induction false} ByteIsBits(lfsr: int, i: nat)
    ensures ByteUpTo(lfsr, i) == (if lfsr >= 0 then BitSum(lfsr, i) else -BitSum(lfsr, i)) % 256
  {
    if i > 0 {
      ByteIsBits(lfsr, i - 1);
      var sign := if lfsr >= 0 then 1 else -1;
      var bit, p := ShiftRight(lfsr, 4 * (i - 1)) % 2, Pow2(i - 1);
      ShiftKeepsSign(lfsr, 4 * (i - 1));
      assert Digit(lfsr, i - 1) == (sign * bit) % 256;
      AddDigit(sign * BitSum(lfsr, i - 1), bit, p, sign);
    }
  }

  /** The byte in full: bits 0, 4, ... 28 of the register, read as a binary number, negated modulo
      256 if the register is negative. */
  lemma ByteInFull(lfsr: int)
    ensures
      var b := lfsr % 2
             + 2 * (lfsr / 0x10 % 2)
             + 4 * (lfsr / 0x100 % 2)
             + 8 * (lfsr / 0x1000 % 2)
             + 16 * (lfsr / 0x1_0000 % 2)
             + 32 * (lfsr / 0x10_0000 % 2)
             + 64 * (lfsr / 0x100_0000 % 2)
             + 128 * (lfsr / 0x1000_0000 % 2);
      && 0 <= b < 256
      && RandomByte(lfsr) == if lfsr >= 0 || b == 0 then b else 256 - b
  {
    LowBits(lfsr);
    HighBits(lfsr);
    ByteOf(lfsr, lfsr % 2, lfsr / 0x10 % 2, lfsr / 0x100 % 2, lfsr / 0x1000 % 2,
           lfsr / 0x1_0000 % 2, lfsr / 0x10_0000 % 2, lfsr / 0x100_0000 % 2, lfsr / 0x1000_0000 % 2);
  }

  lemma ByteOf(lfsr: int, b0: int, b1: int, b2: int, b3: int, b4: int, b5: int, b6: int, b7: int)
    requires 0 <= b0 <= 1 && 0 <= b1 <= 1 && 0 <= b2 <= 1 && 0 <= b3 <= 1
    requires 0 <= b4 <= 1 && 0 <= b5 <= 1 && 0 <= b6 <= 1 && 0 <= b7 <= 1
    requires BitSum(lfsr, 8) == b0 + 2 * b1 + 4 * b2 + 8 * b3 + 16 * b4 + 32 * b5 + 64 * b6 + 128 * b7
    ensures
      var b := b0 + 2 * b1 + 4 * b2 + 8 * b3 + 16 * b4 + 32 * b5 + 64 * b6 + 128 * b7;
      0 <= b < 256 && RandomByte(lfsr) == if lfsr >= 0 || b == 0 then b else 256 - b
  {
    ByteIsBits(lfsr, 8);
    NegatedByte(BitSum(lfsr, 8));
  }

  lemma NegatedByte(b: int)
    requires 0 <= b < 256
    ensures b % 256 == b && (-b) % 256 == if b == 0 then 0 else 256 - b
  {
  }

  lemma Powers()
    ensures Pow2(0) == 1 && Pow2(1) == 2 && Pow2(2) == 4 && Pow2(3) == 8
    ensures Pow2(4) == 0x10 && Pow2(5) == 32 && Pow2(6) == 64 && Pow2(7) == 128
    ensures Pow2(8) == 0x100 && Pow2(12) == 0x1000 && Pow2(16) == 0x1_0000
    ensures Pow2(20) == 0x10_0000 && Pow2(24) == 0x100_0000 && Pow2(28) == 0x1000_0000
  {
    FourMore(0);
    FourMore(4);
    FourMore(8);
    FourMore(12);
    FourMore(16);
    FourMore(20);
    FourMore(24);
  }

  lemma FourMore(k: nat)
    ensures Pow2(k + 1) == 2 * Pow2(k) && Pow2(k + 2) == 4 * Pow2(k) && Pow2(k + 3) == 8 * Pow2(k)
    ensures Pow2(k + 4) == 0x10 * Pow2(k)
  {
    assert Pow2(k + 4) == 2 * Pow2(k + 3) && Pow2(k + 3) == 2 * Pow2(k + 2) && Pow2(k + 2) == 2 * Pow2(k + 1);
  }

  lemma BitSumStep(lfsr: int, i: nat, divisor: int, weight: int)
    requires i >= 1 && Pow2(4 * (i - 1)) == divisor && Pow2(i - 1) == weight
    ensures divisor >= 1 && BitSum(lfsr, i) == BitSum(lfsr, i - 1) + (lfsr / divisor % 2) * weight
  {
  }

  lemma LowBits(lfsr: int)
    ensures BitSum(lfsr, 4) == lfsr % 2 + 2 * (lfsr / 0x10 % 2) + 4 * (lfsr / 0x100 % 2) + 8 * (lfsr / 0x1000 % 2)
  {
    Powers();
    BitSumStep(lfsr, 1, 1, 1);
    BitSumStep(lfsr, 2, 0x10, 2);
    BitSumStep(lfsr, 3, 0x100, 4);
    BitSumStep(lfsr, 4, 0x1000, 8);
  }

  lemma HighBits(lfsr: int)
    ensures BitSum(lfsr, 8) == BitSum(lfsr, 4) + 16 * (lfsr / 0x1_0000 % 2) + 32 * (lfsr / 0x10_0000 % 2)
                               + 64 * (lfsr / 0x100_0000 % 2) + 128 * (lfsr / 0x1000_0000 % 2)
  {
    Powers();
    BitSumStep(lfsr, 5, 0x1_0000, 16);
    BitSumStep(lfsr, 6, 0x10_0000, 32);
    BitSumStep(lfsr, 7, 0x100_0000, 64);
    BitSumStep(lfsr, 8, 0x1000_0000, 128);
  }

  lemma ShiftKeepsSign(x: int, k: nat)
    ensures x >= 0 ==> ShiftRight(x, k) >= 0
    ensures x < 0 ==> ShiftRight(x, k) < 0
  {
    QuotientSign(x, Pow2(k), x / Pow2(k), x % Pow2(k));
  }

  lemma QuotientSign(x: int, m: int, q: int, r: int)
    requires m >= 1 && x == m * q + r && 0 <= r < m
    ensures x >= 0 ==> q >= 0
    ensures x < 0 ==> q < 0
  {
    if q >= 0 {
      Grows(m, q);
    } else {
      Grows(m, -q - 1);
      assert m * q == -(m * (-q - 1)) - m;
    }
  }

  lemma SameByte(x: int, y: int, m: int)
    requires x == y + 256 * m
    ensures x % 256 == y % 256
  {
  }

  lemma AddDigit(sum: int, bit: int, p: int, sign: int)
    requires 0 <= bit <= 1 && (sign == 1 || sign == -1)
    ensures (sum % 256 + (sign * bit) % 256 * p) % 256 == (sum + sign * (bit * p)) % 256
  {
    var q, low := sum / 256, sum % 256;
    if bit == 0 {
      assert sign * bit == 0 && bit * p == 0;
      SameByte(sum, low, q);
    } else if sign == 1 {
      assert sign * bit == 1 && sign * (bit * p) == p;
      SameByte(sum + p, low + p, q);
    } else {
      assert (sign * bit) % 256 == 255 && sign * (bit * p) == -p;
      SameByte(low + 255 * p, sum - p, p - q);
    }
  }
}
