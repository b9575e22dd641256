/** The number that a 32-bit word stands for, bit by bit. */
module Bits {
  function One(p: bv32, k: bv5): int { if (p >> k) & 1 != 0 then 1 else 0 }

  /** The number in bits `k` to `k + 3`. */
  function Digit(p: bv32, k: bv5): int { One(p, k) + 2 * One(p, k + 1) + 4 * One(p, k + 2) + 8 * One(p, k + 3) }

  function Value(p: bv32): int {
    Digit(p, 0) + 0x10 * Digit(p, 4) + 0x100 * Digit(p, 8) + 0x1000 * Digit(p, 12) + 0x1_0000 * Digit(p, 16)
    + 0x10_0000 * Digit(p, 20) + 0x100_0000 * Digit(p, 24) + 0x1000_0000 * Digit(p, 28)
  }

  lemma Byte0(p: bv32)
    ensures (p & 0xFF) as int == Digit(p, 0) + 0x10 * Digit(p, 4)
  {
  }

  lemma Byte1(p: bv32)
    ensures (p & 0xFFFF) as int == (p & 0xFF) as int + 0x100 * Digit(p, 8) + 0x1000 * Digit(p, 12)
  {
  }

  lemma Byte2(p: bv32)
    ensures (p & 0xFF_FFFF) as int == (p & 0xFFFF) as int + 0x1_0000 * Digit(p, 16) + 0x10_0000 * Digit(p, 20)
  {
  }

  lemma Byte3(p: bv32)
    ensures p as int == (p & 0xFF_FFFF) as int + 0x100_0000 * Digit(p, 24) + 0x1000_0000 * Digit(p, 28)
  {
  }

  lemma ValueIs(p: bv32)
    ensures Value(p) == p as int
  {
    hide Digit;
    Byte0(p);
    Byte1(p);
    Byte2(p);
    Byte3(p);
  }

  lemma Moves(p: bv32)
    ensures One(p >> 1, 0) == One(p, 1) && One(p >> 1, 1) == One(p, 2) && One(p >> 1, 2) == One(p, 3)
    ensures One(p >> 1, 3) == One(p, 4) && One(p >> 1, 4) == One(p, 5) && One(p >> 1, 5) == One(p, 6)
    ensures One(p >> 1, 6) == One(p, 7) && One(p >> 1, 7) == One(p, 8) && One(p >> 1, 8) == One(p, 9)
    ensures One(p >> 1, 9) == One(p, 10) && One(p >> 1, 10) == One(p, 11) && One(p >> 1, 11) == One(p, 12)
    ensures One(p >> 1, 12) == One(p, 13) && One(p >> 1, 13) == One(p, 14) && One(p >> 1, 14) == One(p, 15)
    ensures One(p >> 1, 15) == One(p, 16) && One(p >> 1, 16) == One(p, 17) && One(p >> 1, 17) == One(p, 18)
    ensures One(p >> 1, 18) == One(p, 19) && One(p >> 1, 19) == One(p, 20) && One(p >> 1, 20) == One(p, 21)
    ensures One(p >> 1, 21) == One(p, 22) && One(p >> 1, 22) == One(p, 23) && One(p >> 1, 23) == One(p, 24)
    ensures One(p >> 1, 24) == One(p, 25) && One(p >> 1, 25) == One(p, 26) && One(p >> 1, 26) == One(p, 27)
    ensures One(p >> 1, 27) == One(p, 28) && One(p >> 1, 28) == One(p, 29) && One(p >> 1, 29) == One(p, 30)
    ensures One(p >> 1, 30) == One(p, 31)
    ensures One(p >> 1, 31) == 0
  {
  }

  function Half(p: bv32): bv32 { p >> 1 }

  /** Shifting right by one place halves the number. */
  lemma HalfIs(p: bv32)
    ensures p as int == 2 * (Half(p) as int) + One(p, 0)
  {
    hide One;
    Moves(p);
    ValueIs(p);
    ValueIs(p >> 1);
  }

  lemma OneFits(p: bv32, k: bv5)
    ensures 0 <= One(p, k) <= 1
  {
  }

  lemma DigitFits(p: bv32, k: bv5)
    ensures 0 <= Digit(p, k) <= 15
  {
    hide One;
    OneFits(p, k);
    OneFits(p, k + 1);
    OneFits(p, k + 2);
    OneFits(p, k + 3);
  }
}
