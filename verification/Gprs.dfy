/** The register file: sixteen even and sixteen odd registers written by one port that
    can write an even/odd pair at once (frv_gprs), and the hazard test of the pipeline. */
module Gprs {
  import opened Words

  type Reg = r: nat | r < 32

  /** Register contents; register 0 reads as zero. */
  type Regs = r: seq<Word> | |r| == 32 && r[0] == 0 witness seq(32, _ => 0)

  predicate Odd(r: Reg) { r % 2 == 1 }

  /** The register file after a write of `lo`, or of the pair (`lo`, `hi`) when `wide`. */
  function Write(regs: Regs, rd: Reg, wide: bool, lo: Word, hi: Word): Regs {
    if Odd(rd) then regs[rd := if wide then hi else lo]
    else
      var even := if rd == 0 then regs else regs[rd := lo];
      if wide then even[rd + 1 := hi] else even
  }

  /** The HAZARD macro: does reading `a` depend on a pending write to `f`? */
  predicate Hazard(a: Reg, f: Reg, wide: bool) {
    && a / 2 == f / 2
    && (a != 0 || (a == 0 && Odd(a) && !Odd(f) && wide))
    && (Odd(a) == Odd(f) || (Odd(a) && !Odd(f) && wide))
  }

  /** The half of a pending write that a read of `a` takes. */
  function Pick(a: Reg, wide: bool, lo: Word, hi: Word): Word {
    if Odd(a) && wide then hi else lo
  }

  /** The hazard test and the half selection give what the register file will hold. */
  lemma HazardIsWrite(regs: Regs, a: Reg, rd: Reg, wide: bool, lo: Word, hi: Word)
    ensures Write(regs, rd, wide, lo, hi)[a] == if Hazard(a, rd, wide) then Pick(a, wide, lo, hi) else regs[a]
  {
  }

  /** What a write leaves in register `a`: x0 stays zero; a wide result goes to an even register and
      the odd one after it, high half in the odd one. */
  lemma WriteMeans(regs: Regs, rd: Reg, wide: bool, lo: Word, hi: Word, a: Reg)
    ensures Write(regs, rd, wide, lo, hi)[a] ==
            if a == 0 then 0
            else if a == rd && (!wide || rd % 2 == 0) then lo
            else if wide && a % 2 == 1 && (a == rd || a == rd + 1) then hi
            else regs[a]
  {
  }

  lemma WriteTwice(regs: Regs, rd: Reg, wide: bool, lo: Word, hi: Word)
    ensures var w := Write(regs, rd, wide, lo, hi); Write(w, rd, wide, lo, hi) == w
  {
  }

  /** The register file as the two banks of the hardware. */
  class RegisterFile {
    const even: array<Word>
    const odd: array<Word>

    ghost predicate Valid()
      reads this, even, odd
    {
      even.Length == 16 && odd.Length == 16 && even != odd && even[0] == 0
    }

    /** The registers in architectural order. */
    ghost function Contents(): (r: Regs)
      reads this, even, odd
      requires Valid()
    {
      seq(32, i requires 0 <= i < 32 reads even, odd => if i % 2 == 0 then even[i / 2] else odd[i / 2])
    }

    constructor ()
      ensures Valid() && fresh(even) && fresh(odd)
    {
      even := new Word[16](_ => 0);
      odd := new Word[16](_ => 0);
    }

    method Read(a: Reg) returns (v: Word)
      requires Valid()
      ensures v == Contents()[a]
    {
      v := if a % 2 == 0 then even[a / 2] else odd[a / 2];
    }

    /** One clock edge of the write port. */
    method Clock(wen: bool, wide: bool, rd: Reg, lo: Word, hi: Word)
      requires Valid()
      modifies even, odd
      ensures Valid()
      ensures Contents() == if wen then Write(old(Contents()), rd, wide, lo, hi) else old(Contents())
    {
      var top := rd / 2;
      var wenEven := !Odd(rd) && wen;
      var wenOdd := (Odd(rd) || wide) && wen;
      if wenEven && top != 0 {
        even[top] := lo;
      }
      if wenOdd {
        odd[top] := if wide then hi else lo;
      }
    }
  }
}
