/** The instruction decoder for RV32IM and its compressed forms (frv_pipeline_decode).
    Every other 32-bit encoding is left to a parameter. */
module Decode {
  import opened Words
  import opened Gprs
  import opened Machine

  // ---------------------------------------------------------------- fields

  function Opcode(w: Instr): Instr { (w >> 2) & 0x1F }

  function Funct3(w: Instr): Instr { (w >> 12) & 7 }

  function Funct7(w: Instr): Instr { w >> 25 }

  function RdField(w: Instr): Instr { (w >> 7) & 0x1F }

  function Rs1Field(w: Instr): Instr { (w >> 15) & 0x1F }

  function Rs2Field(w: Instr): Instr { (w >> 20) & 0x1F }

  function BitAt(w: Instr, k: bv5): Instr { (w >> k) & 1 }

  /** The bits from `k` upwards are copies of a sign bit. */
  function SignFrom(sign: Instr, k: bv5): Instr { if sign != 0 then 0xFFFF_FFFF << k else 0 }

  function Imm32I(w: Instr): Instr { SignFrom(BitAt(w, 31), 12) | (w >> 20) }

  function Imm32S(w: Instr): Instr { SignFrom(BitAt(w, 31), 12) | ((w >> 25) << 5) | RdField(w) }

  function Imm32B(w: Instr): Instr {
    SignFrom(BitAt(w, 31), 12) | (BitAt(w, 7) << 11) | (((w >> 25) & 0x3F) << 5) | (((w >> 8) & 0xF) << 1)
  }

  function Imm32U(w: Instr): Instr { w & 0xFFFF_F000 }

  function Imm32J(w: Instr): Instr {
    SignFrom(BitAt(w, 31), 20) | (w & 0xF_F000) | (BitAt(w, 20) << 11) | (((w >> 21) & 0x3FF) << 1)
  }

  // ---------------------------------------------------------------- decoded fields

  /** A decoded instruction with its fields still in bits. */
  datatype Raw = Raw(
    op: Op, rd: Instr, rs1: Instr, rs2: Instr, rs3: Instr,
    aSrc: ASrc, bSrc: BSrc, cSrc: CSrc, imm: Instr, pcImm: Instr, illegal: bool)

  const ALU_ADD: nat := 0x01
  const ALU_SUB: nat := 0x00
  const ALU_AND: nat := 0x09
  const ALU_OR: nat := 0x0A
  const ALU_XOR: nat := 0x0C
  const ALU_SLT: nat := 0x11
  const ALU_SLTU: nat := 0x12
  const ALU_SRA: nat := 0x19
  const ALU_SRL: nat := 0x1A
  const ALU_SLL: nat := 0x1C

  const CFU_BEQ: nat := 0x01
  const CFU_BGE: nat := 0x02
  const CFU_BGEU: nat := 0x03
  const CFU_BLT: nat := 0x04
  const CFU_BLTU: nat := 0x05
  const CFU_BNE: nat := 0x06

  const MUL_MULHU: nat := 0x0D
  const MUL_MUL: nat := 0x0C
  const MUL_MULH: nat := 0x0E
  const MUL_MULHSU: nat := 0x0F
  const MUL_DIV: nat := 0x18
  const MUL_DIVU: nat := 0x19
  const MUL_REM: nat := 0x1C
  const MUL_REMU: nat := 0x1D

  function AluOp(code: nat): Op { Compute(Alu, code, false, true, true, false) }

  function AluImm(code: nat, rd: Instr, rs1: Instr, imm: Instr): Raw {
    Raw(AluOp(code), rd, rs1, 0, 0, Rs1, Imm, NoC, imm, 0, false)
  }

  function RegReg(op: Op, rd: Instr, rs1: Instr, rs2: Instr): Raw {
    Raw(op, rd, rs1, rs2, 0, Rs1, Rs2(0), NoC, 0, 0, false)
  }

  function LoadRaw(width: Width, signed: bool, rd: Instr, rs1: Instr, imm: Instr): Raw {
    Raw(Mem(true, false, width, signed), rd, rs1, 0, 0, Rs1, Imm, NoC, imm, 0, false)
  }

  function StoreRaw(width: Width, rs1: Instr, rs2: Instr, imm: Instr): Raw {
    Raw(Mem(false, true, width, false), 0, rs1, rs2, 0, Rs1, Imm, Rs2C, imm, 0, false)
  }

  function BranchRaw(cond: nat, rs1: Instr, rs2: Instr, imm: Instr): Raw {
    Raw(Branch(cond), 0, rs1, rs2, 0, Rs1, Rs2(0), PcImmC, imm, imm, false)
  }

  /** An operation without operands. */
  function Plain(op: Op): Raw { Raw(op, 0, 0, 0, 0, NoA, NoB, NoC, 0, 0, false) }

  const ILLEGAL: Raw := Raw(Nop, 0, 0, 0, 0, NoA, NoB, NoC, 0, 0, true)

  // ---------------------------------------------------------------- 32-bit instructions

  function MulCode(f3: Instr): nat {
    if f3 == 0 then MUL_MUL else if f3 == 1 then MUL_MULH else if f3 == 2 then MUL_MULHSU
    else if f3 == 3 then MUL_MULHU else if f3 == 4 then MUL_DIV else if f3 == 5 then MUL_DIVU
    else if f3 == 6 then MUL_REM else MUL_REMU
  }

  function MulOp(code: nat): Op { Compute(Mul, code, false, true, true, false) }

  function DecodeOpImm(w: Instr, f3: Instr, f7: Instr, ext: Instr -> Raw): Raw {
    var (rd, rs1, imm) := (RdField(w), Rs1Field(w), Imm32I(w));
    if f3 == 0 then AluImm(ALU_ADD, rd, rs1, imm)
    else if f3 == 2 then AluImm(ALU_SLT, rd, rs1, imm)
    else if f3 == 3 then AluImm(ALU_SLTU, rd, rs1, imm)
    else if f3 == 4 then AluImm(ALU_XOR, rd, rs1, imm)
    else if f3 == 6 then AluImm(ALU_OR, rd, rs1, imm)
    else if f3 == 7 then AluImm(ALU_AND, rd, rs1, imm)
    else if f3 == 1 && f7 == 0 then AluImm(ALU_SLL, rd, rs1, Rs2Field(w))
    else if f3 == 5 && f7 == 0 then AluImm(ALU_SRL, rd, rs1, Rs2Field(w))
    else if f3 == 5 && f7 == 32 then AluImm(ALU_SRA, rd, rs1, Rs2Field(w))
    else ext(w)
  }

  function DecodeOp(w: Instr, f3: Instr, f7: Instr, ext: Instr -> Raw): Raw {
    var (rd, rs1, rs2) := (RdField(w), Rs1Field(w), Rs2Field(w));
    if f7 == 1 then RegReg(MulOp(MulCode(f3)), rd, rs1, rs2)
    else if f7 == 0 then
      RegReg(AluOp(if f3 == 0 then ALU_ADD else if f3 == 1 then ALU_SLL else if f3 == 2 then ALU_SLT
                   else if f3 == 3 then ALU_SLTU else if f3 == 4 then ALU_XOR else if f3 == 5 then ALU_SRL
                   else if f3 == 6 then ALU_OR else ALU_AND), rd, rs1, rs2)
    else if f7 == 32 && f3 == 0 then RegReg(AluOp(ALU_SUB), rd, rs1, rs2)
    else if f7 == 32 && f3 == 5 then RegReg(AluOp(ALU_SRA), rd, rs1, rs2)
    else ext(w)
  }

  function DecodeBranch(w: Instr, f3: Instr, ext: Instr -> Raw): Raw {
    var (rs1, rs2, imm) := (Rs1Field(w), Rs2Field(w), Imm32B(w));
    if f3 == 0 then BranchRaw(CFU_BEQ, rs1, rs2, imm)
    else if f3 == 1 then BranchRaw(CFU_BNE, rs1, rs2, imm)
    else if f3 == 4 then BranchRaw(CFU_BLT, rs1, rs2, imm)
    else if f3 == 5 then BranchRaw(CFU_BGE, rs1, rs2, imm)
    else if f3 == 6 then BranchRaw(CFU_BLTU, rs1, rs2, imm)
    else if f3 == 7 then BranchRaw(CFU_BGEU, rs1, rs2, imm)
    else ext(w)
  }

  function DecodeMem(w: Instr, f3: Instr, store: bool, ext: Instr -> Raw): Raw {
    var (rd, rs1, rs2) := (RdField(w), Rs1Field(w), Rs2Field(w));
    if store then
      if f3 == 0 then StoreRaw(ByteWide, rs1, rs2, Imm32S(w))
      else if f3 == 1 then StoreRaw(HalfWide, rs1, rs2, Imm32S(w))
      else if f3 == 2 then StoreRaw(WordWide, rs1, rs2, Imm32S(w))
      else ext(w)
    else if f3 == 0 then LoadRaw(ByteWide, true, rd, rs1, Imm32I(w))
    else if f3 == 1 then LoadRaw(HalfWide, true, rd, rs1, Imm32I(w))
    else if f3 == 2 then LoadRaw(WordWide, false, rd, rs1, Imm32I(w))
    else if f3 == 4 then LoadRaw(ByteWide, false, rd, rs1, Imm32I(w))
    else if f3 == 5 then LoadRaw(HalfWide, false, rd, rs1, Imm32I(w))
    else ext(w)
  }

  function DecodeSystem(w: Instr, ext: Instr -> Raw): Raw {
    if w == 0x0000_0073 then Plain(Ecall)
    else if w == 0x0010_0073 then Plain(Ebreak)
    else if w == 0x3020_0073 then Plain(Mret)
    else if w == 0x1050_0073 then Plain(Nop)
    else ext(w)
  }

  /** lui, auipc, jal and jalr. */
  function DecodeUpperOrJump(w: Instr, opc: Instr): Raw {
    if opc == 0x0D then
      Raw(AluOp(ALU_OR), RdField(w), 0, 0, 0, ZeroA, Imm, NoC, Imm32U(w), Imm32U(w), false)
    else if opc == 0x05 then
      Raw(AluOp(ALU_ADD), RdField(w), 0, 0, 0, PcImmA, ZeroB, NoC, Imm32U(w), Imm32U(w), false)
    else if opc == 0x1B then Raw(Jali, RdField(w), 0, 0, 0, NoA, ZeroB, PcImmC, Imm32J(w), Imm32J(w), false)
    else Raw(Jalr, RdField(w), Rs1Field(w), 0, 0, Rs1, Imm, NoC, Imm32I(w), 0, false)
  }

  function Decode32(w: Instr, ext: Instr -> Raw): Raw {
    var (opc, f3) := (Opcode(w), Funct3(w));
    if opc == 0x0D || opc == 0x05 || opc == 0x1B || (opc == 0x19 && f3 == 0) then DecodeUpperOrJump(w, opc)
    else if opc == 0x18 then DecodeBranch(w, f3, ext)
    else if opc == 0x00 then DecodeMem(w, f3, false, ext)
    else if opc == 0x08 then DecodeMem(w, f3, true, ext)
    else if opc == 0x04 then DecodeOpImm(w, f3, Funct7(w), ext)
    else if opc == 0x0C then DecodeOp(w, f3, Funct7(w), ext)
    else if opc == 0x03 && (f3 == 0 || f3 == 1) then Plain(Nop)
    else if opc == 0x1C then DecodeSystem(w, ext)
    else ext(w)
  }

  // ---------------------------------------------------------------- compressed instructions

  function Quadrant(w: Instr): Instr { w & 3 }

  function CFunct3(w: Instr): Instr { (w >> 13) & 7 }

  /** s1_data[11:7] and s1_data[6:2] */
  function CRd(w: Instr): Instr { (w >> 7) & 0x1F }

  function CRs2(w: Instr): Instr { (w >> 2) & 0x1F }

  /** {2'b01, s1_data[9:7]} and {2'b01, s1_data[4:2]} */
  function CRdP(w: Instr): Instr { 8 | ((w >> 7) & 7) }

  function CRs2P(w: Instr): Instr { 8 | ((w >> 2) & 7) }

  /** s1_data[11:10], s1_data[6:5] and s1_data[12:5] */
  function CSub(w: Instr): Instr { (w >> 10) & 3 }

  function CArith(w: Instr): Instr { (w >> 5) & 3 }

  function CWide(w: Instr): Instr { (w >> 5) & 0xFF }

  function ImmAddi16sp(w: Instr): Instr {
    SignFrom(BitAt(w, 12), 9) | (((w >> 3) & 3) << 7) | (BitAt(w, 5) << 6) | (BitAt(w, 2) << 5) | (BitAt(w, 6) << 4)
  }

  function ImmAddi4spn(w: Instr): Instr {
    (((w >> 7) & 0xF) << 6) | (((w >> 11) & 3) << 4) | (BitAt(w, 5) << 3) | (BitAt(w, 6) << 2)
  }

  function ImmCLsw(w: Instr): Instr { (BitAt(w, 5) << 6) | (((w >> 10) & 7) << 3) | (BitAt(w, 6) << 2) }

  function ImmCAddi(w: Instr): Instr { SignFrom(BitAt(w, 12), 5) | ((w >> 2) & 0x1F) }

  function ImmCLui(w: Instr): Instr { SignFrom(BitAt(w, 12), 17) | (((w >> 2) & 0x1F) << 12) }

  function ImmCShamt(w: Instr): Instr { (w >> 2) & 0x1F }

  function ImmCLwsp(w: Instr): Instr { (((w >> 2) & 3) << 6) | (BitAt(w, 12) << 5) | (((w >> 4) & 7) << 2) }

  function ImmCSwsp(w: Instr): Instr { (((w >> 7) & 3) << 6) | (((w >> 9) & 0xF) << 2) }

  function ImmCJ(w: Instr): Instr {
    SignFrom(BitAt(w, 12), 11) | (BitAt(w, 8) << 10) | (((w >> 9) & 3) << 8) | (BitAt(w, 6) << 7) | (BitAt(w, 7) << 6)
    | (BitAt(w, 2) << 5) | (BitAt(w, 11) << 4) | (((w >> 3) & 7) << 1)
  }

  function ImmCBz(w: Instr): Instr {
    SignFrom(BitAt(w, 12), 8) | (((w >> 5) & 3) << 6) | (BitAt(w, 2) << 5) | (((w >> 10) & 3) << 3)
    | (((w >> 3) & 3) << 1)
  }

  /** Quadrant 0: c.addi4spn, c.lw, c.sw. */
  function DecodeC0(w: Instr, f3: Instr): Raw {
    if f3 == 0 && CWide(w) != 0 then AluImm(ALU_ADD, CRs2P(w), 2, ImmAddi4spn(w))
    else if f3 == 2 then LoadRaw(WordWide, false, CRs2P(w), CRdP(w), ImmCLsw(w))
    else if f3 == 6 then StoreRaw(WordWide, CRdP(w), CRs2P(w), ImmCLsw(w))
    else ILLEGAL
  }

  /** Quadrant 1, funct3 4: shifts, c.andi and register arithmetic. */
  function DecodeC1Alu(w: Instr, b12: Instr): Raw {
    var rd := CRdP(w);
    if CSub(w) == 0 && b12 == 0 then AluImm(ALU_SRL, rd, rd, ImmCShamt(w))
    else if CSub(w) == 1 && b12 == 0 then AluImm(ALU_SRA, rd, rd, ImmCShamt(w))
    else if CSub(w) == 2 then AluImm(ALU_AND, rd, rd, ImmCAddi(w))
    else if CSub(w) == 3 && b12 == 0 then
      RegReg(AluOp(if CArith(w) == 0 then ALU_SUB else if CArith(w) == 1 then ALU_XOR
                   else if CArith(w) == 2 then ALU_OR else ALU_AND), rd, rd, CRs2P(w))
    else ILLEGAL
  }

  /** c.addi; with no operands it is also c.nop, and the micro-ops of the two are OR-ed. */
  function DecodeCAddi(w: Instr, b12: Instr): Raw {
    AluImm(if b12 == 0 && CRd(w) == 0 && CRs2(w) == 0 then 0x0B else ALU_ADD, CRd(w), CRd(w), ImmCAddi(w))
  }

  /** Quadrant 1. */
  function DecodeC1(w: Instr, f3: Instr, b12: Instr): Raw {
    if f3 == 0 then DecodeCAddi(w, b12)
    else if f3 == 1 then Raw(Jali, 1, 0, 0, 0, NoA, NoB, PcImmC, ImmCJ(w), ImmCJ(w), false)
    else if f3 == 2 then Raw(AluOp(ALU_OR), CRd(w), 0, 0, 0, ZeroA, Imm, NoC, ImmCAddi(w), 0, false)
    else if f3 == 3 && CRd(w) == 2 then AluImm(ALU_ADD, 2, 2, ImmAddi16sp(w))
    else if f3 == 3 then
      if b12 != 0 || CRs2(w) != 0
      then Raw(AluOp(ALU_OR), CRd(w), 0, 0, 0, ZeroA, Imm, NoC, ImmCLui(w), 0, false) else ILLEGAL
    else if f3 == 4 then DecodeC1Alu(w, b12)
    else if f3 == 5 then Raw(Jali, 0, 0, 0, 0, NoA, NoB, PcImmC, ImmCJ(w), ImmCJ(w), false)
    else BranchRaw(if f3 == 6 then CFU_BEQ else CFU_BNE, CRdP(w), 0, ImmCBz(w))
  }

  /** Quadrant 2, funct3 4: c.jr, c.mv, c.ebreak, c.jalr and c.add. */
  function DecodeC2Reg(w: Instr, b12: Instr): Raw {
    var (rd, rs2) := (CRd(w), CRs2(w));
    if b12 == 0 then
      if rs2 != 0 then RegReg(AluOp(ALU_ADD), rd, 0, rs2)
      else if rd != 0 then Raw(Jalr, 0, rd, 0, 0, Rs1, ZeroB, NoC, 0, 0, false)
      else ILLEGAL
    else if rs2 != 0 then RegReg(AluOp(ALU_ADD), rd, rd, rs2)
    else if rd != 0 then Raw(Jalr, 1, rd, 0, 0, Rs1, ZeroB, NoC, 0, 0, false)
    else Plain(Ebreak)
  }

  /** Quadrant 2. */
  function DecodeC2(w: Instr, f3: Instr, b12: Instr): Raw {
    if f3 == 0 && b12 == 0 then AluImm(ALU_SLL, CRd(w), CRd(w), ImmCShamt(w))
    else if f3 == 2 && CRd(w) != 0 then LoadRaw(WordWide, false, CRd(w), 2, ImmCLwsp(w))
    else if f3 == 4 then DecodeC2Reg(w, b12)
    else if f3 == 6 then StoreRaw(WordWide, 2, CRs2(w), ImmCSwsp(w))
    else ILLEGAL
  }

  function Decode16(w: Instr): Raw {
    var (q, f3, b12) := (Quadrant(w), CFunct3(w), BitAt(w, 12));
    if q == 0 then DecodeC0(w, f3) else if q == 1 then DecodeC1(w, f3, b12) else DecodeC2(w, f3, b12)
  }

  function DecodeRaw(w: Instr, ext: Instr -> Raw): Raw {
    if Is16(w) then Decode16(w) else Decode32(w, ext)
  }

  // ---------------------------------------------------------------- the decoder of the machine

  /** The number in the low five bits. */
  function RegOf(b: Instr): Reg {
    (if b & 1 != 0 then 1 else 0) + (if b & 2 != 0 then 2 else 0) + (if b & 4 != 0 then 4 else 0)
    + (if b & 8 != 0 then 8 else 0) + (if b & 16 != 0 then 16 else 0)
  }

  function WordOf(b: Instr): Word { b as int }

  function ToCtrl(r: Raw): Ctrl {
    Ctrl(r.op, RegOf(r.rd), RegOf(r.rs1), RegOf(r.rs2), RegOf(r.rs3), r.aSrc, r.bSrc, r.cSrc,
         WordOf(r.imm), WordOf(r.pcImm), r.illegal)
  }

  lemma RegOfZero()
    ensures RegOf(0) == 0 && WordOf(0) == 0
  {
  }

  /** A machine with this decoder. */
  ghost predicate HasDecoder(m: Machine, ext: Instr -> Raw) {
    forall w :: m.decode(w) == ToCtrl(DecodeRaw(w, ext))
  }

  // ---------------------------------------------------------------- what the pipeline relies on

  lemma LowFields(w: Instr)
    ensures var v := w & 0xFFFF;
      && Is16(w) == Is16(v)
      && Quadrant(v) == Quadrant(w) && CFunct3(v) == CFunct3(w) && BitAt(v, 12) == BitAt(w, 12)
      && CRd(v) == CRd(w) && CRs2(v) == CRs2(w) && CRdP(v) == CRdP(w) && CRs2P(v) == CRs2P(w)
      && CSub(v) == CSub(w) && CArith(v) == CArith(w) && CWide(v) == CWide(w)
  {
  }

  lemma LowImmediates(w: Instr)
    ensures var v := w & 0xFFFF;
      && ImmAddi4spn(v) == ImmAddi4spn(w) && ImmCLsw(v) == ImmCLsw(w) && ImmCShamt(v) == ImmCShamt(w)
      && ImmCLwsp(v) == ImmCLwsp(w) && ImmCSwsp(v) == ImmCSwsp(w)
  {
  }

  lemma LowAddi16sp(w: Instr)
    ensures ImmAddi16sp(w & 0xFFFF) == ImmAddi16sp(w)
  {
    hide SignFrom;
    LowBit(w);
  }

  lemma LowSignedImmediates(w: Instr)
    ensures var v := w & 0xFFFF;
      && ImmAddi16sp(v) == ImmAddi16sp(w) && ImmCAddi(v) == ImmCAddi(w) && ImmCLui(v) == ImmCLui(w)
  {
    hide SignFrom, ImmAddi16sp;
    LowAddi16sp(w);
    LowBit(w);
  }

  lemma LowBit(w: Instr)
    ensures BitAt(w & 0xFFFF, 12) == BitAt(w, 12)
  {
  }

  lemma LowJump(w: Instr)
    ensures ImmCJ(w & 0xFFFF) == ImmCJ(w)
  {
    hide SignFrom;
    LowBit(w);
  }

  lemma LowBranch(w: Instr)
    ensures ImmCBz(w & 0xFFFF) == ImmCBz(w)
  {
    hide SignFrom;
    LowBit(w);
  }

  lemma LowQuadrant0(w: Instr)
    ensures DecodeC0(w & 0xFFFF, CFunct3(w)) == DecodeC0(w, CFunct3(w))
  {
    LowFields(w);
    LowImmediates(w);
    hide Quadrant, CFunct3, CRdP, CRs2P, CWide, ImmAddi4spn, ImmCLsw;
  }

  lemma LowQuadrant1Alu(w: Instr)
    ensures DecodeC1Alu(w & 0xFFFF, BitAt(w, 12)) == DecodeC1Alu(w, BitAt(w, 12))
  {
    LowFields(w);
    LowImmediates(w);
    LowSignedImmediates(w);
    hide BitAt, CRdP, CRs2P, CSub, CArith, ImmCAddi, ImmCShamt;
  }

  lemma LowQuadrant1(w: Instr)
    ensures DecodeC1(w & 0xFFFF, CFunct3(w), BitAt(w, 12)) == DecodeC1(w, CFunct3(w), BitAt(w, 12))
  {
    LowQuadrant1Alu(w);
    LowFields(w);
    LowSignedImmediates(w);
    LowJump(w);
    LowBranch(w);
    hide DecodeC1Alu, CFunct3, BitAt, CRd, CRs2, CRdP, ImmAddi16sp, ImmCAddi, ImmCLui, ImmCJ, ImmCBz;
  }

  lemma LowQuadrant2(w: Instr)
    ensures DecodeC2(w & 0xFFFF, CFunct3(w), BitAt(w, 12)) == DecodeC2(w, CFunct3(w), BitAt(w, 12))
  {
    LowFields(w);
    LowImmediates(w);
    hide CFunct3, BitAt, CRd, CRs2, ImmCShamt, ImmCLwsp, ImmCSwsp;
  }

  /** A compressed instruction is decoded from its low half-word alone. */
  lemma UpperHalfIgnored(w: Instr, ext: Instr -> Raw)
    ensures DecodeRaw(Canonical(w), ext) == DecodeRaw(w, ext)
  {
    hide DecodeC0, DecodeC1, DecodeC2, Decode32, Quadrant, CFunct3, BitAt;
    LowFields(w);
    LowQuadrant0(w);
    LowQuadrant1(w);
    LowQuadrant2(w);
  }

  /** What WellFormed asks for, of fields still in bits. */
  predicate Consistent(r: Raw) { WellFormed(ToCtrl(r)) }

  lemma OpConsistent(w: Instr, f3: Instr, f7: Instr, ext: Instr -> Raw)
    requires Consistent(ext(w))
    ensures Consistent(DecodeOp(w, f3, f7, ext))
  {
    hide WordOf, RegOf, RdField, Rs1Field, Rs2Field, MulCode;
  }

  lemma OpImmConsistent(w: Instr, f3: Instr, f7: Instr, ext: Instr -> Raw)
    requires Consistent(ext(w))
    ensures Consistent(DecodeOpImm(w, f3, f7, ext))
  {
    hide WordOf, RegOf, RdField, Rs1Field, Rs2Field, Imm32I;
  }

  lemma MemConsistent(w: Instr, f3: Instr, store: bool, ext: Instr -> Raw)
    requires Consistent(ext(w))
    ensures Consistent(DecodeMem(w, f3, store, ext))
  {
    RegOfZero();
    hide WordOf, RegOf, RdField, Rs1Field, Rs2Field, Imm32I, Imm32S;
  }

  lemma BranchConsistent(w: Instr, f3: Instr, ext: Instr -> Raw)
    requires Consistent(ext(w))
    ensures Consistent(DecodeBranch(w, f3, ext))
  {
    RegOfZero();
    hide WordOf, RegOf, Rs1Field, Rs2Field, Imm32B;
  }

  lemma UpperOrJumpConsistent(w: Instr, opc: Instr)
    ensures Consistent(DecodeUpperOrJump(w, opc))
  {
    hide WordOf, RegOf, RdField, Rs1Field, Imm32I, Imm32U, Imm32J;
  }

  lemma SystemConsistent(w: Instr, ext: Instr -> Raw)
    requires Consistent(ext(w))
    ensures Consistent(Plain(Nop)) && Consistent(DecodeSystem(w, ext))
  {
    hide WordOf, RegOf;
    RegOfZero();
  }

  lemma Decode32Consistent(w: Instr, ext: Instr -> Raw)
    requires Consistent(ext(w))
    ensures Consistent(Decode32(w, ext))
  {
    hide Consistent, Opcode, Funct3, Funct7;
    hide DecodeOpImm, DecodeOp, DecodeMem, DecodeBranch, DecodeUpperOrJump, DecodeSystem, Plain;
    UpperOrJumpConsistent(w, Opcode(w));
    SystemConsistent(w, ext);
    OpConsistent(w, Funct3(w), Funct7(w), ext);
    OpImmConsistent(w, Funct3(w), Funct7(w), ext);
    MemConsistent(w, Funct3(w), Opcode(w) == 0x08, ext);
    BranchConsistent(w, Funct3(w), ext);
  }

  lemma Quadrant1AluConsistent(w: Instr, b12: Instr)
    ensures Consistent(DecodeC1Alu(w, b12))
  {
    hide WordOf, RegOf, CRdP, CRs2P, CSub, CArith, ImmCAddi, ImmCShamt;
  }

  lemma Quadrant1Consistent(w: Instr, f3: Instr, b12: Instr)
    ensures Consistent(DecodeC1(w, f3, b12))
  {
    RegOfZero();
    Quadrant1AluConsistent(w, b12);
    hide WordOf, RegOf, DecodeC1Alu, CRd, CRs2, CRdP, ImmAddi16sp, ImmCAddi, ImmCLui, ImmCJ, ImmCBz;
  }

  lemma Quadrant2Consistent(w: Instr, f3: Instr, b12: Instr)
    ensures Consistent(DecodeC2(w, f3, b12))
  {
    RegOfZero();
    hide WordOf, RegOf, CRd, CRs2, ImmCShamt, ImmCLwsp, ImmCSwsp;
  }

  lemma Decode16Consistent(w: Instr)
    ensures Consistent(Decode16(w))
  {
    RegOfZero();
    Quadrant1Consistent(w, CFunct3(w), BitAt(w, 12));
    Quadrant2Consistent(w, CFunct3(w), BitAt(w, 12));
    hide WordOf, RegOf, DecodeC1, DecodeC2, Quadrant, CFunct3, BitAt, CRdP, CRs2P, CWide, ImmAddi4spn, ImmCLsw;
  }

  /** The decoder meets everything that the pipeline proofs ask of one. */
  lemma DecoderIsGood(m: Machine, ext: Instr -> Raw)
    requires forall w :: Consistent(ext(w))
    requires HasDecoder(m, ext)
    requires Aligned4(m.mtvec)
    ensures GoodDecoder(m)
  {
    hide WellFormed, DecodeRaw, ToCtrl, Canonical;
    forall w: Instr
      ensures WellFormed(m.decode(w)) && m.decode(w) == m.decode(Canonical(w))
    {
      RawConsistent(w, ext);
      UpperHalfIgnored(w, ext);
    }
  }

  lemma RawConsistent(w: Instr, ext: Instr -> Raw)
    requires Consistent(ext(w))
    ensures Consistent(DecodeRaw(w, ext))
  {
    hide Consistent, Decode16, Decode32;
    Decode16Consistent(w);
    Decode32Consistent(w, ext);
  }
}
