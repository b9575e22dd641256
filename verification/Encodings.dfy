/** Which 32-bit encodings the decoder takes itself: those of RV32IM, and no others. */
module Encodings {
  import opened Words
  import opened Machine
  import opened Decode
  import opened Assembler
  import opened Rvc

  /** lui, auipc, jal and jalr; branches; loads and stores; immediate operations and shifts; register
      operations, with those of the M extension; fences; ecall, ebreak, mret and wfi. */
  predicate KnownJump(w: Instr) {
    Is(w, 0x7F, 0x37) || Is(w, 0x7F, 0x17) || Is(w, 0x7F, 0x6F) || Is(w, 0x707F, 0x67)
  }

  predicate KnownBranch(w: Instr) {
    Is(w, 0x707F, 0x63) || Is(w, 0x707F, 0x1063) || Is(w, 0x707F, 0x4063)
    || Is(w, 0x707F, 0x5063) || Is(w, 0x707F, 0x6063) || Is(w, 0x707F, 0x7063)
  }

  predicate KnownAccess(w: Instr) {
    Is(w, 0x707F, 0x3) || Is(w, 0x707F, 0x1003) || Is(w, 0x707F, 0x2003) || Is(w, 0x707F, 0x4003)
    || Is(w, 0x707F, 0x5003) || Is(w, 0x707F, 0x23) || Is(w, 0x707F, 0x1023) || Is(w, 0x707F, 0x2023)
  }

  predicate KnownImmediate(w: Instr) {
    Is(w, 0x707F, 0x13) || Is(w, 0x707F, 0x2013) || Is(w, 0x707F, 0x3013)
    || Is(w, 0x707F, 0x4013) || Is(w, 0x707F, 0x6013) || Is(w, 0x707F, 0x7013)
    || Is(w, 0xFE00_707F, 0x1013) || Is(w, 0xFE00_707F, 0x5013) || Is(w, 0xFE00_707F, 0x4000_5013)
  }

  predicate KnownRegister(w: Instr) {
    Is(w, 0xFE00_707F, 0x33) || Is(w, 0xFE00_707F, 0x1033) || Is(w, 0xFE00_707F, 0x2033)
    || Is(w, 0xFE00_707F, 0x3033) || Is(w, 0xFE00_707F, 0x4033) || Is(w, 0xFE00_707F, 0x5033)
    || Is(w, 0xFE00_707F, 0x6033) || Is(w, 0xFE00_707F, 0x7033) || Is(w, 0xFE00_707F, 0x4000_0033)
    || Is(w, 0xFE00_707F, 0x4000_5033) || Is(w, 0xFE00_707F, 0x200_0033) || Is(w, 0xFE00_707F, 0x200_1033)
    || Is(w, 0xFE00_707F, 0x200_2033) || Is(w, 0xFE00_707F, 0x200_3033) || Is(w, 0xFE00_707F, 0x200_4033)
    || Is(w, 0xFE00_707F, 0x200_5033) || Is(w, 0xFE00_707F, 0x200_6033) || Is(w, 0xFE00_707F, 0x200_7033)
  }

  predicate KnownSystem(w: Instr) {
    Is(w, 0x707F, 0x0F) || Is(w, 0x707F, 0x100F) || w == ECALL || w == EBREAK || w == MRET || w == WFI
  }

  predicate Known(w: Instr) {
    KnownJump(w) || KnownBranch(w) || KnownAccess(w) || KnownImmediate(w) || KnownRegister(w) || KnownSystem(w)
  }

  lemma JumpFields(w: Instr)
    requires !Is16(w)
    ensures KnownJump(w) <==>
            || Opcode(w) == 0x0D || Opcode(w) == 0x05 || Opcode(w) == 0x1B || (Opcode(w) == 0x19 && Funct3(w) == 0)
  {
  }

  lemma BranchFields(w: Instr)
    requires !Is16(w)
    ensures KnownBranch(w) <==> Opcode(w) == 0x18 && Funct3(w) != 2 && Funct3(w) != 3
  {
  }

  lemma AccessFields(w: Instr)
    requires !Is16(w)
    ensures KnownAccess(w) <==>
            || (Opcode(w) == 0x00 && Funct3(w) != 3 && Funct3(w) != 6 && Funct3(w) != 7)
            || (Opcode(w) == 0x08 && Funct3(w) <= 2)
  {
  }

  lemma ImmediateFields(w: Instr)
    requires !Is16(w)
    ensures KnownImmediate(w) <==>
            && Opcode(w) == 0x04 && (Funct3(w) == 1 ==> Funct7(w) == 0)
            && (Funct3(w) == 5 ==> Funct7(w) == 0 || Funct7(w) == 32)
  {
  }

  lemma RegisterFields(w: Instr)
    requires !Is16(w)
    ensures KnownRegister(w) <==>
            && Opcode(w) == 0x0C
            && (Funct7(w) == 0 || Funct7(w) == 1 || (Funct7(w) == 32 && (Funct3(w) == 0 || Funct3(w) == 5)))
  {
  }

  lemma SystemFields(w: Instr)
    requires !Is16(w)
    ensures KnownSystem(w) <==>
            || (Opcode(w) == 0x03 && Funct3(w) <= 1)
            || (Opcode(w) == 0x1C && (w == ECALL || w == EBREAK || w == MRET || w == WFI))
  {
  }

  lemma FunctRange(w: Instr)
    ensures Funct3(w) <= 7
  {
  }

  /** A part of the decoder takes the instruction itself, or leaves it to the rest. */
  predicate TakesOr(known: bool, r: Raw, plain: Raw, rest: Raw) {
    if known then !r.illegal && r == plain else r == rest
  }

  function NoExt(w: Instr): Raw { ILLEGAL }

  lemma TakesBranch(w: Instr, f3: Instr, ext: Instr -> Raw)
    requires f3 <= 7
    ensures TakesOr(f3 != 2 && f3 != 3, DecodeBranch(w, f3, ext), DecodeBranch(w, f3, NoExt), ext(w))
  {
    hide Rs1Field, Rs2Field, Imm32B;
  }

  lemma TakesAccess(w: Instr, f3: Instr, ext: Instr -> Raw)
    requires f3 <= 7
    ensures TakesOr(f3 != 3 && f3 != 6 && f3 != 7, DecodeMem(w, f3, false, ext), DecodeMem(w, f3, false, NoExt), ext(w))
    ensures TakesOr(f3 <= 2, DecodeMem(w, f3, true, ext), DecodeMem(w, f3, true, NoExt), ext(w))
  {
    hide RdField, Rs1Field, Rs2Field, Imm32I, Imm32S;
  }

  lemma TakesImmediate(w: Instr, f3: Instr, f7: Instr, ext: Instr -> Raw)
    requires f3 <= 7
    ensures TakesOr((f3 == 1 ==> f7 == 0) && (f3 == 5 ==> f7 == 0 || f7 == 32),
                    DecodeOpImm(w, f3, f7, ext), DecodeOpImm(w, f3, f7, NoExt), ext(w))
  {
    hide RdField, Rs1Field, Rs2Field, Imm32I;
  }

  lemma TakesRegister(w: Instr, f3: Instr, f7: Instr, ext: Instr -> Raw)
    ensures TakesOr(f7 == 0 || f7 == 1 || (f7 == 32 && (f3 == 0 || f3 == 5)),
                    DecodeOp(w, f3, f7, ext), DecodeOp(w, f3, f7, NoExt), ext(w))
  {
    hide RdField, Rs1Field, Rs2Field, MulCode;
  }

  lemma TakesSystem(w: Instr, ext: Instr -> Raw)
    ensures TakesOr(w == ECALL || w == EBREAK || w == MRET || w == WFI,
                    DecodeSystem(w, ext), DecodeSystem(w, NoExt), ext(w))
  {
  }

  lemma TakesUpperOrJump(w: Instr, opc: Instr)
    ensures !DecodeUpperOrJump(w, opc).illegal && !Plain(Nop).illegal
  {
    hide RdField, Rs1Field, Imm32I, Imm32U, Imm32J;
  }

  /** The decoder takes the listed encodings itself, and leaves every other one to the rest. */
  lemma TakesKnown(w: Instr, ext: Instr -> Raw)
    requires !Is16(w)
    ensures TakesOr(Known(w), Decode32(w, ext), Decode32(w, NoExt), ext(w))
  {
    hide KnownJump, KnownBranch, KnownAccess, KnownImmediate, KnownRegister, KnownSystem, Opcode, Funct3, Funct7;
    hide DecodeBranch, DecodeMem, DecodeOpImm, DecodeOp, DecodeSystem, DecodeUpperOrJump, Plain, NoExt, Is16;
    var f3, f7 := Funct3(w), Funct7(w);
    FunctRange(w);
    JumpFields(w);
    BranchFields(w);
    AccessFields(w);
    ImmediateFields(w);
    RegisterFields(w);
    SystemFields(w);
    var opc := Opcode(w);
    if opc == 0x18 {
      TakesBranch(w, f3, ext);
    } else if opc == 0x00 || opc == 0x08 {
      TakesAccess(w, f3, ext);
    } else if opc == 0x04 {
      TakesImmediate(w, f3, f7, ext);
    } else if opc == 0x0C {
      TakesRegister(w, f3, f7, ext);
    } else if opc == 0x1C {
      TakesSystem(w, ext);
    } else {
      TakesUpperOrJump(w, opc);
    }
  }
}
