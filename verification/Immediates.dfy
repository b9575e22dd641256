/** The immediates of 32-bit instructions as numbers. */
module Immediates {
  import opened Words
  import opened Bits
  import opened Decode
  import opened Assembler

  /** Immediates as words: two's complement numbers of 12, 13 and 21 bits, of which the last two
      are even. The sign bit counts negative, modulo the range of words. */
  function Low12(x: Instr): int {
    Digit(x, 0) + 0x10 * Digit(x, 4) + 0x100 * (One(x, 8) + 2 * One(x, 9) + 4 * One(x, 10))
  }

  function Low13(x: Instr): int {
    2 * One(x, 1) + 4 * One(x, 2) + 8 * One(x, 3) + 0x10 * Digit(x, 4) + 0x100 * Digit(x, 8)
  }

  function Low21(x: Instr): int {
    2 * One(x, 1) + 4 * One(x, 2) + 8 * One(x, 3) + 0x10 * Digit(x, 4) + 0x100 * Digit(x, 8)
    + 0x1000 * Digit(x, 12) + 0x1_0000 * Digit(x, 16)
  }

  lemma LowFits12(x: Instr)
    ensures 0 <= Low12(x) < 0x800 && 0 <= One(x, 11) <= 1
  {
    hide One, Digit;
    DigitFits(x, 0);
    DigitFits(x, 4);
    OneFits(x, 8);
    OneFits(x, 9);
    OneFits(x, 10);
    OneFits(x, 11);
  }

  lemma LowFits13(x: Instr)
    ensures 0 <= Low13(x) < 0x1000 && 0 <= One(x, 12) <= 1
  {
    hide One, Digit;
    OneFits(x, 1);
    OneFits(x, 2);
    OneFits(x, 3);
    DigitFits(x, 4);
    DigitFits(x, 8);
    OneFits(x, 12);
  }

  lemma LowFits21(x: Instr)
    ensures 0 <= Low21(x) < 0x10_0000 && 0 <= One(x, 20) <= 1
  {
    hide One, Digit;
    OneFits(x, 1);
    OneFits(x, 2);
    OneFits(x, 3);
    DigitFits(x, 4);
    DigitFits(x, 8);
    DigitFits(x, 12);
    DigitFits(x, 16);
    OneFits(x, 20);
  }

  function Imm12(x: Instr): Word {
    LowFits12(x);
    Low12(x) + One(x, 11) * (WORD_RANGE - 0x800)
  }

  function Imm13(x: Instr): Word {
    LowFits13(x);
    Low13(x) + One(x, 12) * (WORD_RANGE - 0x1000)
  }

  function Imm21(x: Instr): Word {
    LowFits21(x);
    Low21(x) + One(x, 20) * (WORD_RANGE - 0x10_0000)
  }

  /** The upper twenty bits. */
  function Upper(x: Instr): Word {
    UpperFits(x);
    0x1000 * Digit(x, 12) + 0x1_0000 * Digit(x, 16) + 0x10_0000 * Digit(x, 20) + 0x100_0000 * Digit(x, 24)
    + 0x1000_0000 * Digit(x, 28)
  }

  lemma UpperFits(x: Instr)
    ensures 0 <= Digit(x, 12) <= 15 && 0 <= Digit(x, 16) <= 15 && 0 <= Digit(x, 20) <= 15
    ensures 0 <= Digit(x, 24) <= 15 && 0 <= Digit(x, 28) <= 15
  {
    hide Digit;
    DigitFits(x, 12);
    DigitFits(x, 16);
    DigitFits(x, 20);
    DigitFits(x, 24);
    DigitFits(x, 28);
  }

  /** A field as a positive number, and with copies of a set sign bit above it. */
  function Positive(x: Instr, mask: Instr): Instr { x & mask }

  function Negative(x: Instr, mask: Instr, high: Instr): Instr { high | (x & mask) }

  /** Four bits of one word that are those of another, or all the same. */
  lemma Copied(p: Instr, x: Instr, k: bv5)
    requires One(p, k) == One(x, k) && One(p, k + 1) == One(x, k + 1)
    requires One(p, k + 2) == One(x, k + 2) && One(p, k + 3) == One(x, k + 3)
    ensures Digit(p, k) == Digit(x, k)
  {
    hide One;
  }

  lemma Filled(p: Instr, k: bv5, bit: int)
    requires One(p, k) == One(p, k + 1) == One(p, k + 2) == One(p, k + 3) == bit
    ensures Digit(p, k) == 15 * bit
  {
    hide One;
  }

  lemma SignIs(x: Instr, b: bv5)
    ensures One(x, b) == if BitAt(x, b) == 0 then 0 else 1
  {
  }

  lemma Cases12(x: Instr)
    ensures BitAt(x, 11) == 0 ==> Signed12(x) == Positive(x, 0xFFF)
    ensures BitAt(x, 11) != 0 ==> Signed12(x) == Negative(x, 0xFFF, 0xFFFF_F000)
  {
  }

  lemma PositiveBit12(x: Instr, k: bv5)
    ensures One(Positive(x, 0xFFF), k) == if k >= 12 then 0 else One(x, k)
  {
  }

  lemma NegativeBit12(x: Instr, k: bv5)
    ensures One(Negative(x, 0xFFF, 0xFFFF_F000), k) == if k >= 12 then 1 else One(x, k)
  {
  }

  lemma SignedBit12(x: Instr, k: bv5)
    ensures One(Signed12(x), k) == if k >= 11 then One(x, 11) else One(x, k)
  {
    Cases12(x);
    PositiveBit12(x, k);
    NegativeBit12(x, k);
    SignIs(x, 11);
    hide One, BitAt, Signed12, Positive, Negative;
  }

  lemma Signed12Is(x: Instr)
    ensures WordOf(Signed12(x)) == Imm12(x)
  {
    hide One, Signed12;
    forall k: bv5
      ensures One(Signed12(x), k) == if k >= 11 then One(x, 11) else One(x, k)
    {
      SignedBit12(x, k);
    }
    ValueIs(Signed12(x));
  }

  lemma Cases13(x: Instr)
    ensures BitAt(x, 12) == 0 ==> Signed13(x) == Positive(x, 0xFFE)
    ensures BitAt(x, 12) != 0 ==> Signed13(x) == Negative(x, 0xFFE, 0xFFFF_F000)
  {
  }

  lemma PositiveBit13(x: Instr, k: bv5)
    ensures One(Positive(x, 0xFFE), k) == if k >= 12 || k == 0 then 0 else One(x, k)
  {
  }

  lemma NegativeBit13(x: Instr, k: bv5)
    ensures One(Negative(x, 0xFFE, 0xFFFF_F000), k) == if k >= 12 then 1 else if k == 0 then 0 else One(x, k)
  {
  }

  lemma SignedBit13(x: Instr, k: bv5)
    ensures One(Signed13(x), k) == if k >= 12 then One(x, 12) else if k == 0 then 0 else One(x, k)
  {
    Cases13(x);
    PositiveBit13(x, k);
    NegativeBit13(x, k);
    SignIs(x, 12);
    hide One, BitAt, Signed13, Positive, Negative;
  }

  lemma Signed13Is(x: Instr)
    ensures WordOf(Signed13(x)) == Imm13(x)
  {
    hide One, Signed13;
    forall k: bv5
      ensures One(Signed13(x), k) == if k >= 12 then One(x, 12) else if k == 0 then 0 else One(x, k)
    {
      SignedBit13(x, k);
    }
    ValueIs(Signed13(x));
  }

  lemma Cases21(x: Instr)
    ensures BitAt(x, 20) == 0 ==> Signed21(x) == Positive(x, 0xF_FFFE)
    ensures BitAt(x, 20) != 0 ==> Signed21(x) == Negative(x, 0xF_FFFE, 0xFFF0_0000)
  {
  }

  lemma PositiveBit21(x: Instr, k: bv5)
    ensures One(Positive(x, 0xF_FFFE), k) == if k >= 20 || k == 0 then 0 else One(x, k)
  {
  }

  lemma NegativeBit21(x: Instr, k: bv5)
    ensures One(Negative(x, 0xF_FFFE, 0xFFF0_0000), k) == if k >= 20 then 1 else if k == 0 then 0 else One(x, k)
  {
  }

  lemma SignedBit21(x: Instr, k: bv5)
    ensures One(Signed21(x), k) == if k >= 20 then One(x, 20) else if k == 0 then 0 else One(x, k)
  {
    Cases21(x);
    PositiveBit21(x, k);
    NegativeBit21(x, k);
    SignIs(x, 20);
    hide One, BitAt, Signed21, Positive, Negative;
  }

  lemma Digits21(p: Instr, x: Instr)
    requires forall k: bv5 :: One(p, k) == if k >= 20 then One(x, 20) else if k == 0 then 0 else One(x, k)
    ensures Value(p) == Low21(x) + One(x, 20) * 0xFFF0_0000
  {
    Copied(p, x, 4);
    Copied(p, x, 8);
    Copied(p, x, 12);
    Copied(p, x, 16);
    Filled(p, 20, One(x, 20));
    Filled(p, 24, One(x, 20));
    Filled(p, 28, One(x, 20));
    assert Digit(p, 0) == 2 * One(x, 1) + 4 * One(x, 2) + 8 * One(x, 3);
    hide One, Digit;
  }

  lemma Signed21Is(x: Instr)
    ensures WordOf(Signed21(x)) == Imm21(x)
  {
    hide One, Signed21, Low21, Value, Digit;
    forall k: bv5
      ensures One(Signed21(x), k) == if k >= 20 then One(x, 20) else if k == 0 then 0 else One(x, k)
    {
      SignedBit21(x, k);
    }
    Digits21(Signed21(x), x);
    ValueIs(Signed21(x));
  }

  lemma UpperBit(x: Instr, k: bv5)
    ensures One(Upper20(x), k) == if k >= 12 then One(x, k) else 0
  {
  }

  lemma UpperIs(x: Instr)
    ensures WordOf(Upper20(x)) == Upper(x)
  {
    hide One, Upper20;
    forall k: bv5
      ensures One(Upper20(x), k) == if k >= 12 then One(x, k) else 0
    {
      UpperBit(x, k);
    }
    ValueIs(Upper20(x));
  }
}
