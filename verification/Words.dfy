/** Machine words, half-words and the instruction memory as the core reads it.

    Data words and addresses are integers below 2^32 with wrap-around addition; fetched
    instruction bits are bit-vectors. */
module Words {
  const WORD_RANGE: int := 0x1_0000_0000

  type Word = w: int | 0 <= w < WORD_RANGE

  type Instr = bv32

  type Half = bv16

  /** 32-bit addition. */
  function Add(a: Word, b: Word): Word {
    if a + b < WORD_RANGE then a + b else a + b - WORD_RANGE
  }

  /** 32-bit subtraction. */
  function Sub(a: Word, b: Word): Word {
    if a >= b then a - b else a - b + WORD_RANGE
  }

  predicate Aligned2(a: Word) { a % 2 == 0 }

  predicate Aligned4(a: Word) { a % 4 == 0 }

  /** Bit 1 of an address: the upper half of its memory word. */
  predicate UpperHalf(a: Word) { a % 4 >= 2 }

  /** An address with bit 0, or bits 1 and 0, cleared. */
  function ClearBit0(a: Word): Word { a - a % 2 }

  function WordAddr(a: Word): Word { a - a % 4 }

  function Lo(w: Instr): Half { (w & 0xFFFF) as Half }

  function Hi(w: Instr): Half { (w >> 16) as Half }

  function Join(lo: Half, hi: Half): Instr { (hi as Instr << 16) | lo as Instr }

  /** The half-word at address `a` of a memory that answers aligned word reads. */
  function HalfAt(mem: Word -> Instr, a: Word): Half {
    if UpperHalf(a) then Hi(mem(WordAddr(a))) else Lo(mem(WordAddr(a)))
  }

  predicate Compressed(h: Half) { h & 3 != 3 }

  /** The instruction at `pc`: one half-word when compressed, otherwise two. */
  function InstrAt(mem: Word -> Instr, pc: Word): Instr {
    var h := HalfAt(mem, pc);
    if Compressed(h) then h as Instr else Join(h, HalfAt(mem, Add(pc, 2)))
  }

  predicate Is16(w: Instr) { w & 3 != 3 }

  /** Size in bytes of the instruction whose first half-word is the low half of `w`. */
  function SizeOf(w: Instr): Word { if Is16(w) then 2 else 4 }

  /** An instruction word with the half that does not belong to it cleared. */
  function Canonical(w: Instr): Instr { if Is16(w) then w & 0xFFFF else w }

  lemma LowBits(lo: Half, hi: Half)
    ensures Is16(Join(lo, hi)) == Compressed(lo)
    ensures Is16(lo as Instr) == Compressed(lo)
    ensures Canonical(Join(lo, hi)) == if Compressed(lo) then lo as Instr else Join(lo, hi)
  {
  }

  lemma SizeOfCanonical(w: Instr)
    ensures SizeOf(Canonical(w)) == SizeOf(w)
  {
  }

  lemma Aligned2Plus2(a: Word)
    requires Aligned2(a)
    ensures Aligned2(Add(a, 2)) && Aligned2(Add(a, 4))
    ensures Add(Add(a, 2), 2) == Add(a, 4)
  {
  }

  lemma ClearBit0Even(a: Word)
    ensures Aligned2(ClearBit0(a))
    ensures Aligned2(a) ==> ClearBit0(a) == a
  {
  }

  lemma Aligned4Plus2(a: Word)
    requires Aligned4(a)
    ensures WordAddr(a) == a && !UpperHalf(a)
    ensures WordAddr(Add(a, 2)) == a && UpperHalf(Add(a, 2))
  {
  }

  lemma Aligned4Plus4(a: Word)
    requires Aligned4(a)
    ensures Aligned2(a) && Aligned4(Add(a, 4)) && Add(Add(a, 2), 2) == Add(a, 4)
  {
    FourTimes(a / 4);
    FourTimes(Add(a, 4) / 4);
    assert a == 4 * (a / 4);
    assert Add(a, 4) == 4 * (a / 4 + 1) || Add(a, 4) == 4 * (a / 4 + 1 - 0x4000_0000);
  }

  lemma EvenRest(q: int, r: int)
    requires 0 <= r < 4 && (4 * q + r) % 2 == 0
    ensures r == 0 || r == 2
  {
    OddIsOdd(2 * q);
    OddIsOdd(2 * q + 1);
  }

  lemma OddIsOdd(k: int)
    ensures (2 * k + 1) % 2 == 1
  {
  }

  lemma FourTimes(q: int)
    ensures 4 * q % 4 == 0 && 4 * q % 2 == 0
  {
    assert 4 * q == 2 * (2 * q);
  }

  lemma WordOfTarget(t: Word)
    requires Aligned2(t)
    ensures Aligned4(WordAddr(t))
    ensures if UpperHalf(t) then Sub(t, 2) == WordAddr(t) else t == WordAddr(t)
  {
    var q, r := t / 4, t % 4;
    assert t == 4 * q + r;
    EvenRest(q, r);
    FourTimes(q);
  }

  /** The two halves of an aligned memory word. */
  lemma AlignedWord(mem: Word -> Instr, a: Word)
    requires Aligned4(a)
    ensures HalfAt(mem, a) == Lo(mem(a)) && HalfAt(mem, Add(a, 2)) == Hi(mem(a))
  {
    Aligned4Plus2(a);
  }
}
