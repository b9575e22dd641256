/** The decoder undoes the encoding of every RV32IM instruction
    (chapters 2 and 7 of the RISC-V Unprivileged ISA; mret and wfi of the privileged one). */
module Assembler {
  import opened Words
  import opened Machine
  import opened Decode

  // ---------------------------------------------------------------- 32-bit encodings

  function IType(imm: Instr, rs1: Instr, f3: Instr, rd: Instr, opcode: Instr): Instr {
    (imm << 20) | (rs1 << 15) | (f3 << 12) | (rd << 7) | (opcode << 2) | 3
  }

  function RType(f7: Instr, rs2: Instr, rs1: Instr, f3: Instr, rd: Instr, opcode: Instr): Instr {
    (f7 << 25) | (rs2 << 20) | (rs1 << 15) | (f3 << 12) | (rd << 7) | (opcode << 2) | 3
  }

  function SType(imm: Instr, rs2: Instr, rs1: Instr, f3: Instr, opcode: Instr): Instr {
    (((imm >> 5) & 0x7F) << 25) | (rs2 << 20) | (rs1 << 15) | (f3 << 12) | ((imm & 0x1F) << 7) | (opcode << 2) | 3
  }

  function BType(imm: Instr, rs2: Instr, rs1: Instr, f3: Instr, opcode: Instr): Instr {
    (BitAt(imm, 12) << 31) | (((imm >> 5) & 0x3F) << 25) | (rs2 << 20) | (rs1 << 15) | (f3 << 12)
    | (((imm >> 1) & 0xF) << 8) | (BitAt(imm, 11) << 7) | (opcode << 2) | 3
  }

  function UType(imm: Instr, rd: Instr, opcode: Instr): Instr {
    (imm & 0xFFFF_F000) | (rd << 7) | (opcode << 2) | 3
  }

  function JType(imm: Instr, rd: Instr, opcode: Instr): Instr {
    (BitAt(imm, 20) << 31) | (((imm >> 1) & 0x3FF) << 21) | (BitAt(imm, 11) << 20) | (imm & 0xF_F000)
    | (rd << 7) | (opcode << 2) | 3
  }

  /** A field of `n` bits. */
  predicate Fits(x: Instr, n: bv5) { x >> n == 0 }

  /** The low 12, 13 and 21 bits sign-extended; the last two are even. */
  function Signed12(x: Instr): Instr { SignFrom(BitAt(x, 11), 12) | (x & 0xFFF) }

  function Signed13(x: Instr): Instr { SignFrom(BitAt(x, 12), 12) | (x & 0xFFE) }

  function Signed21(x: Instr): Instr { SignFrom(BitAt(x, 20), 20) | (x & 0xF_FFFE) }

  /** The upper twenty bits. */
  function Upper20(x: Instr): Instr { x & 0xFFFF_F000 }

  lemma ITypeFields(imm: Instr, rs1: Instr, f3: Instr, rd: Instr, opcode: Instr)
    requires Fits(rs1, 5) && Fits(f3, 3) && Fits(rd, 5) && Fits(opcode, 5)
    ensures var w := IType(imm, rs1, f3, rd, opcode);
      && !Is16(w) && Opcode(w) == opcode && Funct3(w) == f3 && RdField(w) == rd && Rs1Field(w) == rs1
      && Imm32I(w) == Signed12(imm)
  {
    hide SignFrom;
    assert BitAt(IType(imm, rs1, f3, rd, opcode), 31) == BitAt(imm, 11);
  }

  lemma RTypeFields(f7: Instr, rs2: Instr, rs1: Instr, f3: Instr, rd: Instr, opcode: Instr)
    requires Fits(f7, 7) && Fits(rs2, 5) && Fits(rs1, 5) && Fits(f3, 3) && Fits(rd, 5) && Fits(opcode, 5)
    ensures var w := RType(f7, rs2, rs1, f3, rd, opcode);
      && !Is16(w) && Opcode(w) == opcode && Funct3(w) == f3 && Funct7(w) == f7
      && RdField(w) == rd && Rs1Field(w) == rs1 && Rs2Field(w) == rs2
  {
  }

  lemma STypeFields(imm: Instr, rs2: Instr, rs1: Instr, f3: Instr, opcode: Instr)
    requires Fits(rs2, 5) && Fits(rs1, 5) && Fits(f3, 3) && Fits(opcode, 5)
    ensures var w := SType(imm, rs2, rs1, f3, opcode);
      && !Is16(w) && Opcode(w) == opcode && Funct3(w) == f3 && Rs1Field(w) == rs1 && Rs2Field(w) == rs2
      && Imm32S(w) == Signed12(imm)
  {
    hide SignFrom;
    assert BitAt(SType(imm, rs2, rs1, f3, opcode), 31) == BitAt(imm, 11);
  }

  lemma BTypeFields(imm: Instr, rs2: Instr, rs1: Instr, f3: Instr, opcode: Instr)
    requires Fits(rs2, 5) && Fits(rs1, 5) && Fits(f3, 3) && Fits(opcode, 5)
    ensures var w := BType(imm, rs2, rs1, f3, opcode);
      && !Is16(w) && Opcode(w) == opcode && Funct3(w) == f3 && Rs1Field(w) == rs1 && Rs2Field(w) == rs2
      && Imm32B(w) == Signed13(imm)
  {
    hide SignFrom;
    assert BitAt(BType(imm, rs2, rs1, f3, opcode), 31) == BitAt(imm, 12);
  }

  lemma UTypeFields(imm: Instr, rd: Instr, opcode: Instr)
    requires Fits(rd, 5) && Fits(opcode, 5)
    ensures var w := UType(imm, rd, opcode);
      && !Is16(w) && Opcode(w) == opcode && RdField(w) == rd
      && Imm32U(w) == Upper20(imm)
  {
  }

  lemma JTypeFields(imm: Instr, rd: Instr, opcode: Instr)
    requires Fits(rd, 5) && Fits(opcode, 5)
    ensures var w := JType(imm, rd, opcode);
      && !Is16(w) && Opcode(w) == opcode && RdField(w) == rd
      && Imm32J(w) == Signed21(imm)
  {
    hide SignFrom;
    assert BitAt(JType(imm, rd, opcode), 31) == BitAt(imm, 20);
  }

  // ---------------------------------------------------------------- instructions

  datatype AluFn = FAdd | FSub | FSll | FSlt | FSltu | FXor | FSrl | FSra | FOr | FAnd

  datatype MulFn = FMul | FMulh | FMulhsu | FMulhu | FDiv | FDivu | FRem | FRemu

  datatype Cond = Eq | Ne | Lt | Ge | Ltu | Geu

  /** An instruction as an assembler sees it; fields and immediates in bits. */
  datatype Asm =
    | RegOp(f: AluFn, rd: Instr, rs1: Instr, rs2: Instr)
    | ImmOp(f: AluFn, rd: Instr, rs1: Instr, imm: Instr)
    | ShiftOp(f: AluFn, rd: Instr, rs1: Instr, imm: Instr)
    | MulDiv(g: MulFn, rd: Instr, rs1: Instr, rs2: Instr)
    | LoadFrom(width: Width, signed: bool, rd: Instr, rs1: Instr, imm: Instr)
    | StoreTo(width: Width, rs1: Instr, rs2: Instr, imm: Instr)
    | BranchOn(cond: Cond, rs1: Instr, rs2: Instr, imm: Instr)
    | UpperImm(rd: Instr, imm: Instr)
    | UpperPc(rd: Instr, imm: Instr)
    | JumpLink(rd: Instr, imm: Instr)
    | JumpReg(rd: Instr, rs1: Instr, imm: Instr)
    | FenceOf(icache: bool, rd: Instr, rs1: Instr, imm: Instr)
    | EnvCall | Break | ReturnM | WaitM

  // ---------------------------------------------------------------- encodings

  predicate IsShift(f: AluFn) { f == FSll || f == FSrl || f == FSra }

  function AluFunct3(f: AluFn): Instr {
    match f
    case FAdd => 0 case FSub => 0 case FSll => 1 case FSlt => 2 case FSltu => 3
    case FXor => 4 case FSrl => 5 case FSra => 5 case FOr => 6 case FAnd => 7
  }

  function AluFunct7(f: AluFn): Instr { if f == FSub || f == FSra then 32 else 0 }

  function MulFunct3(g: MulFn): Instr {
    match g
    case FMul => 0 case FMulh => 1 case FMulhsu => 2 case FMulhu => 3
    case FDiv => 4 case FDivu => 5 case FRem => 6 case FRemu => 7
  }

  function CondFunct3(c: Cond): Instr {
    match c case Eq => 0 case Ne => 1 case Lt => 4 case Ge => 5 case Ltu => 6 case Geu => 7
  }

  function LoadFunct3(width: Width, signed: bool): Instr {
    match width
    case NoWidth => 0
    case ByteWide => if signed then 0 else 4
    case HalfWide => if signed then 1 else 5
    case WordWide => 2
  }

  /** The loads of the standard: lb, lbu, lh, lhu and lw. */
  predicate Loadable(width: Width, signed: bool) { width != NoWidth && (width == WordWide ==> !signed) }

  function StoreFunct3(width: Width): Instr {
    match width case NoWidth => 0 case ByteWide => 0 case HalfWide => 1 case WordWide => 2
  }

  const OP_IMM: Instr := 0x04
  const OP: Instr := 0x0C
  const LOAD: Instr := 0x00
  const STORE: Instr := 0x08
  const BRANCH: Instr := 0x18
  const JALR: Instr := 0x19
  const JAL: Instr := 0x1B
  const LUI: Instr := 0x0D
  const AUIPC: Instr := 0x05
  const MISC_MEM: Instr := 0x03

  const ECALL: Instr := 0x0000_0073
  const EBREAK: Instr := 0x0010_0073
  const MRET: Instr := 0x3020_0073
  const WFI: Instr := 0x1050_0073

  function Encode(x: Asm): Instr {
    match x
    case RegOp(f, rd, rs1, rs2) => RType(AluFunct7(f), rs2, rs1, AluFunct3(f), rd, OP)
    case ImmOp(f, rd, rs1, imm) => IType(imm, rs1, AluFunct3(f), rd, OP_IMM)
    case ShiftOp(f, rd, rs1, imm) => RType(AluFunct7(f), imm, rs1, AluFunct3(f), rd, OP_IMM)
    case MulDiv(g, rd, rs1, rs2) => RType(1, rs2, rs1, MulFunct3(g), rd, OP)
    case LoadFrom(width, signed, rd, rs1, imm) => IType(imm, rs1, LoadFunct3(width, signed), rd, LOAD)
    case StoreTo(width, rs1, rs2, imm) => SType(imm, rs2, rs1, StoreFunct3(width), STORE)
    case BranchOn(c, rs1, rs2, imm) => BType(imm, rs2, rs1, CondFunct3(c), BRANCH)
    case UpperImm(rd, imm) => UType(imm, rd, LUI)
    case UpperPc(rd, imm) => UType(imm, rd, AUIPC)
    case JumpLink(rd, imm) => JType(imm, rd, JAL)
    case JumpReg(rd, rs1, imm) => IType(imm, rs1, 0, rd, JALR)
    case FenceOf(icache, rd, rs1, imm) => IType(imm, rs1, if icache then 1 else 0, rd, MISC_MEM)
    case EnvCall => ECALL
    case Break => EBREAK
    case ReturnM => MRET
    case WaitM => WFI
  }

  /** Register numbers have five bits; subtraction has no immediate form, shifts have a
      five-bit one, and a word load has no sign. */
  predicate Encodable(x: Asm) {
    match x
    case RegOp(_, rd, rs1, rs2) => Fits(rd, 5) && Fits(rs1, 5) && Fits(rs2, 5)
    case ImmOp(f, rd, rs1, _) =>
      Fits(rd, 5) && Fits(rs1, 5) && f != FSub && !IsShift(f)
    case ShiftOp(f, rd, rs1, imm) =>
      Fits(rd, 5) && Fits(rs1, 5) && Fits(imm, 5) && IsShift(f)
    case MulDiv(_, rd, rs1, rs2) => Fits(rd, 5) && Fits(rs1, 5) && Fits(rs2, 5)
    case LoadFrom(width, signed, rd, rs1, _) => Fits(rd, 5) && Fits(rs1, 5) && Loadable(width, signed)
    case StoreTo(width, rs1, rs2, _) => Fits(rs1, 5) && Fits(rs2, 5) && width != NoWidth
    case BranchOn(_, rs1, rs2, _) => Fits(rs1, 5) && Fits(rs2, 5)
    case UpperImm(rd, _) => Fits(rd, 5)
    case UpperPc(rd, _) => Fits(rd, 5)
    case JumpLink(rd, _) => Fits(rd, 5)
    case JumpReg(rd, rs1, _) => Fits(rd, 5) && Fits(rs1, 5)
    case FenceOf(_, rd, rs1, _) => Fits(rd, 5) && Fits(rs1, 5)
    case _ => true
  }

  // ---------------------------------------------------------------- meanings

  /** The micro-op numbers of frv_common.vh. */
  function AluCode(f: AluFn): nat {
    match f
    case FAdd => 0x01 case FSub => 0x00 case FSll => 0x1C case FSlt => 0x11 case FSltu => 0x12
    case FXor => 0x0C case FSrl => 0x1A case FSra => 0x19 case FOr => 0x0A case FAnd => 0x09
  }

  function MulCodeOf(g: MulFn): nat {
    match g
    case FMul => 0x0C case FMulh => 0x0E case FMulhsu => 0x0F case FMulhu => 0x0D
    case FDiv => 0x18 case FDivu => 0x19 case FRem => 0x1C case FRemu => 0x1D
  }

  function CondCode(c: Cond): nat {
    match c
    case Eq => 0x01 case Ne => 0x06 case Lt => 0x04 case Ge => 0x02
    case Ltu => 0x05 case Geu => 0x03
  }

  /** The operation and operands that the standard gives the instruction. */
  function Meaning(x: Asm): Raw {
    match x
    case RegOp(f, rd, rs1, rs2) => RegReg(AluOp(AluCode(f)), rd, rs1, rs2)
    case ImmOp(f, rd, rs1, imm) => AluImm(AluCode(f), rd, rs1, Signed12(imm))
    case ShiftOp(f, rd, rs1, imm) => AluImm(AluCode(f), rd, rs1, imm)
    case MulDiv(g, rd, rs1, rs2) => RegReg(MulOp(MulCodeOf(g)), rd, rs1, rs2)
    case LoadFrom(width, signed, rd, rs1, imm) => LoadRaw(width, signed, rd, rs1, Signed12(imm))
    case StoreTo(width, rs1, rs2, imm) => StoreRaw(width, rs1, rs2, Signed12(imm))
    case BranchOn(c, rs1, rs2, imm) => BranchRaw(CondCode(c), rs1, rs2, Signed13(imm))
    case UpperImm(rd, imm) =>
      Raw(AluOp(ALU_OR), rd, 0, 0, 0, ZeroA, Imm, NoC, Upper20(imm), Upper20(imm), false)
    case UpperPc(rd, imm) =>
      Raw(AluOp(ALU_ADD), rd, 0, 0, 0, PcImmA, ZeroB, NoC, Upper20(imm), Upper20(imm), false)
    case JumpLink(rd, imm) => Raw(Jali, rd, 0, 0, 0, NoA, ZeroB, PcImmC, Signed21(imm), Signed21(imm), false)
    case JumpReg(rd, rs1, imm) => Raw(Jalr, rd, rs1, 0, 0, Rs1, Imm, NoC, Signed12(imm), 0, false)
    case FenceOf(_, _, _, _) => Plain(Nop)
    case EnvCall => Plain(Ecall)
    case Break => Plain(Ebreak)
    case ReturnM => Plain(Mret)
    case WaitM => Plain(Nop)
  }

  // ---------------------------------------------------------------- the decoder on encodings

  lemma ConstantsFit()
    ensures Fits(0, 5) && Fits(1, 5) && Fits(2, 5) && Fits(OP_IMM, 5) && Fits(OP, 5) && Fits(LOAD, 5) && Fits(STORE, 5)
    ensures Fits(BRANCH, 5) && Fits(MISC_MEM, 5) && Fits(JALR, 5) && Fits(JAL, 5) && Fits(LUI, 5)
    ensures Fits(0, 3) && Fits(1, 3) && Fits(2, 3) && Fits(4, 3) && Fits(5, 3) && Fits(6, 3) && Fits(7, 3)
    ensures Fits(0, 7) && Fits(32, 7)
    ensures Signed12(0) == 0
  {
  }

  lemma FunctsFit(f: AluFn, g: MulFn, c: Cond, width: Width, signed: bool)
    ensures Fits(AluFunct3(f), 3) && Fits(AluFunct7(f), 7) && Fits(MulFunct3(g), 3) && Fits(CondFunct3(c), 3)
    ensures Fits(LoadFunct3(width, signed), 3) && Fits(StoreFunct3(width), 3)
    ensures Fits(1, 7) && Fits(AUIPC, 5)
  {
  }

  lemma DecodesOp(f: AluFn, rs2: Instr, rs1: Instr, rd: Instr, ext: Instr -> Raw)
    requires Fits(rs2, 5) && Fits(rs1, 5) && Fits(rd, 5)
    ensures var w := RType(AluFunct7(f), rs2, rs1, AluFunct3(f), rd, OP);
      !Is16(w) && Decode32(w, ext) == RegReg(AluOp(AluCode(f)), rd, rs1, rs2)
  {
    hide Opcode, Funct3, Funct7, RdField, Rs1Field, Rs2Field, RType, Is16, Fits;
    ConstantsFit();
    FunctsFit(f, FMul, Eq, ByteWide, false);
    RTypeFields(AluFunct7(f), rs2, rs1, AluFunct3(f), rd, OP);
  }

  lemma DecodesMul(g: MulFn, rs2: Instr, rs1: Instr, rd: Instr, ext: Instr -> Raw)
    requires Fits(rs2, 5) && Fits(rs1, 5) && Fits(rd, 5)
    ensures var w := RType(1, rs2, rs1, MulFunct3(g), rd, OP);
      !Is16(w) && Decode32(w, ext) == RegReg(MulOp(MulCodeOf(g)), rd, rs1, rs2)
  {
    hide Opcode, Funct3, Funct7, RdField, Rs1Field, Rs2Field, RType, Is16, Fits;
    ConstantsFit();
    FunctsFit(FAdd, g, Eq, ByteWide, false);
    RTypeFields(1, rs2, rs1, MulFunct3(g), rd, OP);
  }

  lemma DecodesOpImm(f: AluFn, imm: Instr, rs1: Instr, rd: Instr, ext: Instr -> Raw)
    requires Fits(rs1, 5) && Fits(rd, 5) && f != FSub && !IsShift(f)
    ensures var w := IType(imm, rs1, AluFunct3(f), rd, OP_IMM);
      !Is16(w) && Decode32(w, ext) == AluImm(AluCode(f), rd, rs1, Signed12(imm))
  {
    hide Opcode, Funct3, Funct7, RdField, Rs1Field, Rs2Field, Imm32I, IType, Is16, Fits, Signed12;
    ConstantsFit();
    FunctsFit(f, FMul, Eq, ByteWide, false);
    ITypeFields(imm, rs1, AluFunct3(f), rd, OP_IMM);
  }

  lemma DecodesShift(f: AluFn, shamt: Instr, rs1: Instr, rd: Instr, ext: Instr -> Raw)
    requires Fits(shamt, 5) && Fits(rs1, 5) && Fits(rd, 5) && IsShift(f)
    ensures var w := RType(AluFunct7(f), shamt, rs1, AluFunct3(f), rd, OP_IMM);
      !Is16(w) && Decode32(w, ext) == AluImm(AluCode(f), rd, rs1, shamt)
  {
    hide Opcode, Funct3, Funct7, RdField, Rs1Field, Rs2Field, RType, Is16, Fits;
    ConstantsFit();
    FunctsFit(f, FMul, Eq, ByteWide, false);
    RTypeFields(AluFunct7(f), shamt, rs1, AluFunct3(f), rd, OP_IMM);
  }

  lemma DecodesLoad(width: Width, signed: bool, imm: Instr, rs1: Instr, rd: Instr, ext: Instr -> Raw)
    requires Fits(rs1, 5) && Fits(rd, 5) && Loadable(width, signed)
    ensures var w := IType(imm, rs1, LoadFunct3(width, signed), rd, LOAD);
      !Is16(w) && Decode32(w, ext) == LoadRaw(width, signed, rd, rs1, Signed12(imm))
  {
    hide Opcode, Funct3, Funct7, RdField, Rs1Field, Rs2Field, Imm32I, IType, Is16, Fits, Signed12;
    ConstantsFit();
    FunctsFit(FAdd, FMul, Eq, width, signed);
    ITypeFields(imm, rs1, LoadFunct3(width, signed), rd, LOAD);
  }

  lemma DecodesStore(width: Width, imm: Instr, rs2: Instr, rs1: Instr, ext: Instr -> Raw)
    requires Fits(rs1, 5) && Fits(rs2, 5) && width != NoWidth
    ensures var w := SType(imm, rs2, rs1, StoreFunct3(width), STORE);
      !Is16(w) && Decode32(w, ext) == StoreRaw(width, rs1, rs2, Signed12(imm))
  {
    hide Opcode, Funct3, Funct7, RdField, Rs1Field, Rs2Field, Imm32S, SType, Is16, Fits, Signed12;
    ConstantsFit();
    FunctsFit(FAdd, FMul, Eq, width, false);
    STypeFields(imm, rs2, rs1, StoreFunct3(width), STORE);
  }

  lemma DecodesBranch(c: Cond, imm: Instr, rs2: Instr, rs1: Instr, ext: Instr -> Raw)
    requires Fits(rs1, 5) && Fits(rs2, 5)
    ensures var w := BType(imm, rs2, rs1, CondFunct3(c), BRANCH);
      !Is16(w) && Decode32(w, ext) == BranchRaw(CondCode(c), rs1, rs2, Signed13(imm))
  {
    hide Opcode, Funct3, Funct7, RdField, Rs1Field, Rs2Field, Imm32B, BType, Is16, Fits, Signed13;
    ConstantsFit();
    FunctsFit(FAdd, FMul, c, ByteWide, false);
    BTypeFields(imm, rs2, rs1, CondFunct3(c), BRANCH);
  }

  lemma DecodesLui(imm: Instr, rd: Instr, ext: Instr -> Raw)
    requires Fits(rd, 5)
    ensures var w := UType(imm, rd, LUI);
      !Is16(w) && Decode32(w, ext) ==
        Raw(AluOp(ALU_OR), rd, 0, 0, 0, ZeroA, Imm, NoC, Upper20(imm), Upper20(imm), false)
  {
    hide Opcode, Funct3, RdField, Imm32U, UType, Is16, Fits, Upper20;
    ConstantsFit();
    UTypeFields(imm, rd, LUI);
  }

  lemma DecodesAuipc(imm: Instr, rd: Instr, ext: Instr -> Raw)
    requires Fits(rd, 5)
    ensures var w := UType(imm, rd, AUIPC);
      !Is16(w) && Decode32(w, ext) ==
        Raw(AluOp(ALU_ADD), rd, 0, 0, 0, PcImmA, ZeroB, NoC, Upper20(imm), Upper20(imm), false)
  {
    hide Opcode, Funct3, RdField, Imm32U, UType, Is16, Fits, Upper20;
    ConstantsFit();
    FunctsFit(FAdd, FMul, Eq, ByteWide, false);
    UTypeFields(imm, rd, AUIPC);
  }

  lemma DecodesJal(imm: Instr, rd: Instr, ext: Instr -> Raw)
    requires Fits(rd, 5)
    ensures var w := JType(imm, rd, JAL);
      !Is16(w) && Decode32(w, ext) == Raw(Jali, rd, 0, 0, 0, NoA, ZeroB, PcImmC, Signed21(imm), Signed21(imm), false)
  {
    hide Opcode, Funct3, RdField, Imm32J, JType, Is16, Fits, Signed21;
    ConstantsFit();
    JTypeFields(imm, rd, JAL);
  }

  lemma DecodesJalr(imm: Instr, rs1: Instr, rd: Instr, ext: Instr -> Raw)
    requires Fits(rd, 5) && Fits(rs1, 5)
    ensures var w := IType(imm, rs1, 0, rd, JALR);
      !Is16(w) && Decode32(w, ext) == Raw(Jalr, rd, rs1, 0, 0, Rs1, Imm, NoC, Signed12(imm), 0, false)
  {
    hide Opcode, Funct3, RdField, Rs1Field, Imm32I, IType, Is16, Fits, Signed12;
    ConstantsFit();
    ITypeFields(imm, rs1, 0, rd, JALR);
  }

  lemma DecodesSystem(ext: Instr -> Raw)
    ensures !Is16(ECALL) && Decode32(ECALL, ext) == Plain(Ecall)
    ensures !Is16(EBREAK) && Decode32(EBREAK, ext) == Plain(Ebreak)
    ensures !Is16(MRET) && Decode32(MRET, ext) == Plain(Mret)
    ensures !Is16(WFI) && Decode32(WFI, ext) == Plain(Nop)
  {
    assert Opcode(ECALL) == Opcode(EBREAK) == Opcode(MRET) == Opcode(WFI) == 0x1C;
    assert !Is16(ECALL) && !Is16(EBREAK) && !Is16(MRET) && !Is16(WFI);
    hide Opcode, Is16;
  }

  lemma DecodesFence(icache: bool, imm: Instr, rs1: Instr, rd: Instr, ext: Instr -> Raw)
    requires Fits(rd, 5) && Fits(rs1, 5)
    ensures var w := IType(imm, rs1, if icache then 1 else 0, rd, MISC_MEM);
      !Is16(w) && Decode32(w, ext) == Plain(Nop)
  {
    hide Opcode, Funct3, RdField, Rs1Field, Imm32I, IType, Is16, Fits, Signed12;
    ConstantsFit();
    ITypeFields(imm, rs1, if icache then 1 else 0, rd, MISC_MEM);
  }

  lemma ArithmeticRoundTrip(x: Asm, ext: Instr -> Raw)
    requires Encodable(x) && (x.RegOp? || x.ImmOp? || x.ShiftOp? || x.MulDiv?)
    ensures !Is16(Encode(x)) && DecodeRaw(Encode(x), ext) == Meaning(x)
  {
    hide Decode32, Is16, Fits, RType, IType, AluFunct3, AluFunct7, AluCode, MulFunct3, MulCodeOf, Signed12;
    match x
    case RegOp(f, rd, rs1, rs2) => DecodesOp(f, rs2, rs1, rd, ext);
    case ImmOp(f, rd, rs1, imm) => DecodesOpImm(f, imm, rs1, rd, ext);
    case ShiftOp(f, rd, rs1, imm) => DecodesShift(f, imm, rs1, rd, ext);
    case MulDiv(g, rd, rs1, rs2) => DecodesMul(g, rs2, rs1, rd, ext);
  }

  lemma MemoryRoundTrip(x: Asm, ext: Instr -> Raw)
    requires Encodable(x) && (x.LoadFrom? || x.StoreTo? || x.BranchOn?)
    ensures !Is16(Encode(x)) && DecodeRaw(Encode(x), ext) == Meaning(x)
  {
    hide Decode32, Is16, Fits, IType, SType, BType, CondFunct3, CondCode, LoadFunct3, StoreFunct3, Signed12, Signed13;
    match x
    case LoadFrom(width, signed, rd, rs1, imm) => DecodesLoad(width, signed, imm, rs1, rd, ext);
    case StoreTo(width, rs1, rs2, imm) => DecodesStore(width, imm, rs2, rs1, ext);
    case BranchOn(c, rs1, rs2, imm) => DecodesBranch(c, imm, rs2, rs1, ext);
  }

  lemma JumpRoundTrip(x: Asm, ext: Instr -> Raw)
    requires Encodable(x) && (x.UpperImm? || x.UpperPc? || x.JumpLink? || x.JumpReg? || x.FenceOf?)
    ensures !Is16(Encode(x)) && DecodeRaw(Encode(x), ext) == Meaning(x)
  {
    hide Decode32, Is16, Fits, IType, UType, JType, Signed12, Signed21, Upper20;
    match x
    case UpperImm(rd, imm) => DecodesLui(imm, rd, ext);
    case UpperPc(rd, imm) => DecodesAuipc(imm, rd, ext);
    case JumpLink(rd, imm) => DecodesJal(imm, rd, ext);
    case JumpReg(rd, rs1, imm) => DecodesJalr(imm, rs1, rd, ext);
    case FenceOf(icache, rd, rs1, imm) => DecodesFence(icache, imm, rs1, rd, ext);
  }

  lemma SystemRoundTrip(x: Asm, ext: Instr -> Raw)
    requires x == EnvCall || x == Break || x == ReturnM || x == WaitM
    ensures !Is16(Encode(x)) && DecodeRaw(Encode(x), ext) == Meaning(x)
  {
    hide Decode32, Is16;
    DecodesSystem(ext);
  }

  /** Decoding the encoding of an instruction gives its operation and operands, immediates
      sign-extended. */
  lemma DecodeEncode(x: Asm, ext: Instr -> Raw)
    requires Encodable(x)
    ensures !Is16(Encode(x)) && DecodeRaw(Encode(x), ext) == Meaning(x)
  {
    hide Encodable, DecodeRaw, Encode, Meaning, Is16;
    if x.RegOp? || x.ImmOp? || x.ShiftOp? || x.MulDiv? {
      ArithmeticRoundTrip(x, ext);
    } else if x.LoadFrom? || x.StoreTo? || x.BranchOn? {
      MemoryRoundTrip(x, ext);
    } else if x.UpperImm? || x.UpperPc? || x.JumpLink? || x.JumpReg? || x.FenceOf? {
      JumpRoundTrip(x, ext);
    } else {
      SystemRoundTrip(x, ext);
    }
  }
}
