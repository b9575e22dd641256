/** Compressed instructions have the effect of their 32-bit expansions
    (sections 16.3 to 16.5 of the RISC-V Unprivileged ISA). */
module Rvc {
  import opened Words
  import opened Gprs
  import opened Machine
  import opened Decode
  import opened Assembler

  // ---------------------------------------------------------------- immediates of the standard

  /** Bit `from` of the instruction is bit `to` of the immediate. */
  function At(w: Instr, from: bv5, to: bv5): Instr { ((w >> from) & 1) << to }

  function Low5(w: Instr): Instr { At(w, 6, 4) | At(w, 5, 3) | At(w, 4, 2) | At(w, 3, 1) | At(w, 2, 0) }

  function SpecAddi4spn(w: Instr): Instr {
    At(w, 12, 5) | At(w, 11, 4) | At(w, 10, 9) | At(w, 9, 8) | At(w, 8, 7) | At(w, 7, 6) | At(w, 6, 2)
    | At(w, 5, 3)
  }

  function SpecLw(w: Instr): Instr { At(w, 12, 5) | At(w, 11, 4) | At(w, 10, 3) | At(w, 6, 2) | At(w, 5, 6) }

  function SpecAddi(w: Instr): Instr { SignFrom(BitAt(w, 12), 5) | Low5(w) }

  function SpecAddi16sp(w: Instr): Instr {
    SignFrom(BitAt(w, 12), 9) | At(w, 6, 4) | At(w, 5, 6) | At(w, 4, 8) | At(w, 3, 7) | At(w, 2, 5)
  }

  function SpecLui(w: Instr): Instr { SignFrom(BitAt(w, 12), 17) | (Low5(w) << 12) }

  function SpecJ(w: Instr): Instr {
    SignFrom(BitAt(w, 12), 11) | At(w, 11, 4) | At(w, 10, 9) | At(w, 9, 8) | At(w, 8, 10) | At(w, 7, 6)
    | At(w, 6, 7) | At(w, 5, 3) | At(w, 4, 2) | At(w, 3, 1) | At(w, 2, 5)
  }

  function SpecBz(w: Instr): Instr {
    SignFrom(BitAt(w, 12), 8) | At(w, 11, 4) | At(w, 10, 3) | At(w, 6, 7) | At(w, 5, 6) | At(w, 4, 2)
    | At(w, 3, 1) | At(w, 2, 5)
  }

  function SpecLwsp(w: Instr): Instr {
    At(w, 12, 5) | At(w, 6, 4) | At(w, 5, 3) | At(w, 4, 2) | At(w, 3, 7) | At(w, 2, 6)
  }

  function SpecSwsp(w: Instr): Instr {
    At(w, 12, 5) | At(w, 11, 4) | At(w, 10, 3) | At(w, 9, 2) | At(w, 8, 7) | At(w, 7, 6)
  }

  lemma ImmAddi4spnIs(w: Instr)
    ensures Signed12(SpecAddi4spn(w)) == ImmAddi4spn(w)
  {
  }

  lemma ImmLwIs(w: Instr)
    ensures Signed12(SpecLw(w)) == ImmCLsw(w)
  {
  }

  lemma ImmAddiIs(w: Instr)
    ensures Signed12(SpecAddi(w)) == ImmCAddi(w)
  {
  }

  lemma ImmAddi16spIs(w: Instr)
    ensures Signed12(SpecAddi16sp(w)) == ImmAddi16sp(w)
  {
  }

  lemma ImmLuiIs(w: Instr)
    ensures Upper20(SpecLui(w)) == ImmCLui(w)
  {
  }

  lemma ImmShamtIs(w: Instr)
    ensures Low5(w) == ImmCShamt(w) && Fits(Low5(w), 5)
  {
  }

  lemma ImmJPlaces(w: Instr)
    ensures SpecJ(w) == ImmCJ(w)
  {
    hide SignFrom;
  }

  lemma ImmJIs(w: Instr)
    ensures Signed21(SpecJ(w)) == ImmCJ(w)
  {
    ImmJPlaces(w);
    if BitAt(w, 12) == 0 {
      assert Signed21(ImmCJ(w)) == ImmCJ(w);
    } else {
      assert BitAt(ImmCJ(w), 20) == 1;
      assert Signed21(ImmCJ(w)) == ImmCJ(w);
    }
  }

  lemma ImmBzIs(w: Instr)
    ensures Signed13(SpecBz(w)) == ImmCBz(w)
  {
  }

  lemma ImmLwspIs(w: Instr)
    ensures Signed12(SpecLwsp(w)) == ImmCLwsp(w)
  {
  }

  lemma ImmSwspIs(w: Instr)
    ensures Signed12(SpecSwsp(w)) == ImmCSwsp(w)
  {
  }

  // ---------------------------------------------------------------- encodings and expansions

  datatype Option<T> = None | Some(value: T)

  /** Bits `hi` down to `lo`. */
  function Field(w: Instr, hi: bv5, lo: bv5): Instr { (w << (31 - hi)) >> (31 - hi + lo) }

  /** A three-bit register field names x8 to x15. */
  function RegP(w: Instr, hi: bv5, lo: bv5): Instr { 8 + Field(w, hi, lo) }

  /** The bits under the mask are those of `bits`. */
  predicate Is(w: Instr, mask: Instr, bits: Instr) { w & mask == bits }

  /** Some bit under the mask is set. */
  predicate AnyBit(w: Instr, mask: Instr) { w & mask != 0 }

  /** Quadrant 0: the encodings of c.addi4spn, c.lw and c.sw, and what they stand for. */
  function Expansion0(w: Instr): Option<Asm> {
    var (p, q) := (RegP(w, 4, 2), RegP(w, 9, 7));
    if Is(w, 0xE003, 0x0000) && AnyBit(w, 0x1FE0) then Some(ImmOp(FAdd, p, 2, SpecAddi4spn(w)))
    else if Is(w, 0xE003, 0x4000) then Some(LoadFrom(WordWide, false, p, q, SpecLw(w)))
    else if Is(w, 0xE003, 0xC000) then Some(StoreTo(WordWide, q, p, SpecLw(w)))
    else None
  }

  /** Quadrant 1, arithmetic: c.srli, c.srai, c.andi, c.sub, c.xor, c.or and c.and. */
  function Expansion1Alu(w: Instr): Option<Asm> {
    var (p, q) := (RegP(w, 4, 2), RegP(w, 9, 7));
    if Is(w, 0xFC03, 0x8001) then Some(ShiftOp(FSrl, q, q, Low5(w)))
    else if Is(w, 0xFC03, 0x8401) then Some(ShiftOp(FSra, q, q, Low5(w)))
    else if Is(w, 0xEC03, 0x8801) then Some(ImmOp(FAnd, q, q, SpecAddi(w)))
    else if Is(w, 0xFC63, 0x8C01) then Some(RegOp(FSub, q, q, p))
    else if Is(w, 0xFC63, 0x8C21) then Some(RegOp(FXor, q, q, p))
    else if Is(w, 0xFC63, 0x8C41) then Some(RegOp(FOr, q, q, p))
    else if Is(w, 0xFC63, 0x8C61) then Some(RegOp(FAnd, q, q, p))
    else None
  }

  /** Quadrant 1, the rest: c.addi and c.nop, c.jal, c.li, c.addi16sp, c.lui, c.j, c.beqz, c.bnez. */
  function Expansion1(w: Instr): Option<Asm> {
    var (rd, q) := (Field(w, 11, 7), RegP(w, 9, 7));
    if Is(w, 0xE003, 0x0001) then Some(ImmOp(FAdd, rd, rd, SpecAddi(w)))
    else if Is(w, 0xE003, 0x2001) then Some(JumpLink(1, SpecJ(w)))
    else if Is(w, 0xE003, 0x4001) then Some(ImmOp(FAdd, rd, 0, SpecAddi(w)))
    else if Is(w, 0xEF83, 0x6101) then Some(ImmOp(FAdd, 2, 2, SpecAddi16sp(w)))
    else if Is(w, 0xE003, 0x6001) && !Is(w, 0x0F80, 0x0100) && AnyBit(w, 0x107C) then Some(UpperImm(rd, SpecLui(w)))
    else if Is(w, 0xE003, 0xA001) then Some(JumpLink(0, SpecJ(w)))
    else if Is(w, 0xE003, 0xC001) then Some(BranchOn(Eq, q, 0, SpecBz(w)))
    else if Is(w, 0xE003, 0xE001) then Some(BranchOn(Ne, q, 0, SpecBz(w)))
    else Expansion1Alu(w)
  }

  /** Quadrant 2: c.slli, c.lwsp, c.swsp, c.jr, c.mv, c.ebreak, c.jalr and c.add. */
  function Expansion2(w: Instr): Option<Asm> {
    var (rd, rs2) := (Field(w, 11, 7), Field(w, 6, 2));
    if Is(w, 0xF003, 0x0002) then Some(ShiftOp(FSll, rd, rd, Low5(w)))
    else if Is(w, 0xE003, 0x4002) && AnyBit(w, 0x0F80) then Some(LoadFrom(WordWide, false, rd, 2, SpecLwsp(w)))
    else if Is(w, 0xE003, 0xC002) then Some(StoreTo(WordWide, 2, rs2, SpecSwsp(w)))
    else if Is(w, 0xF07F, 0x8002) && AnyBit(w, 0x0F80) then Some(JumpReg(0, rd, 0))
    else if Is(w, 0xF003, 0x8002) && AnyBit(w, 0x007C) then Some(RegOp(FAdd, rd, 0, rs2))
    else if Is(w, 0xFFFF, 0x9002) then Some(Break)
    else if Is(w, 0xF07F, 0x9002) && AnyBit(w, 0x0F80) then Some(JumpReg(1, rd, 0))
    else if Is(w, 0xF003, 0x9002) && AnyBit(w, 0x007C) then Some(RegOp(FAdd, rd, rd, rs2))
    else None
  }

  /** The 32-bit instruction that the standard gives for a compressed one, if it is one of the
      encodings that the core implements. */
  function Expansion(w: Instr): Option<Asm> {
    if w & 3 == 0 then Expansion0(w) else if w & 3 == 1 then Expansion1(w) else if w & 3 == 2 then Expansion2(w)
    else None
  }

  // ---------------------------------------------------------------- same effect

  /** Operand B is zero. */
  predicate NoOffset(r: Raw) { r.bSrc == NoB || r.bSrc == ZeroB || (r.bSrc == Imm && r.imm == 0) }

  predicate SameOperation(r: Raw, e: Raw) {
    && r.op == e.op && r.rd == e.rd && r.rs1 == e.rs1 && r.rs2 == e.rs2 && r.rs3 == e.rs3 && r.illegal == e.illegal
    && r.aSrc == e.aSrc && r.cSrc == e.cSrc
    && ((r.bSrc == e.bSrc && (r.bSrc == Imm ==> r.imm == e.imm)) || (NoOffset(r) && NoOffset(e)))
    && (r.aSrc == PcImmA || r.cSrc == PcImmC ==> r.pcImm == e.pcImm)
  }

  /** c.li takes the immediate OR-ed with zero, addi takes it added to x0. */
  predicate LoadsImmediate(r: Raw, e: Raw) {
    && r == Raw(AluOp(ALU_OR), e.rd, 0, 0, 0, ZeroA, Imm, NoC, e.imm, 0, false)
    && e == AluImm(ALU_ADD, e.rd, 0, e.imm)
  }

  /** c.nop and its expansion write x0. */
  predicate WritesNothing(r: Raw, e: Raw) {
    && r.op.Compute? && !r.op.wide && r.rd == 0 && !r.illegal
    && e.op.Compute? && !e.op.wide && e.rd == 0 && !e.illegal
  }

  predicate SameEffect(r: Raw, e: Raw) { SameOperation(r, e) || LoadsImmediate(r, e) || WritesNothing(r, e) }

  /** The decoder accepts what has an expansion, and gives it the effect of the expansion. */
  predicate Agrees(r: Raw, o: Option<Asm>) {
    r.illegal == o.None? && (o.Some? ==> Encodable(o.value) && SameEffect(r, Meaning(o.value)))
  }

  // ---------------------------------------------------------------- quadrant by quadrant

  lemma FieldsAre(w: Instr)
    ensures Field(w, 11, 7) == CRd(w) && Field(w, 6, 2) == CRs2(w)
    ensures RegP(w, 9, 7) == CRdP(w) && RegP(w, 4, 2) == CRs2P(w)
    ensures Fits(CRd(w), 5) && Fits(CRs2(w), 5) && Fits(CRdP(w), 5) && Fits(CRs2P(w), 5)
    ensures Fits(0, 5) && Fits(1, 5) && Fits(2, 5)
  {
  }

  lemma Same(r: Raw, x: Asm)
    requires Encodable(x) && r == Meaning(x) && !r.illegal
    ensures Agrees(r, Some(x))
  {
    hide Encodable, Meaning;
  }

  lemma SameImm(f: AluFn, rd: Instr, rs1: Instr, imm: Instr)
    requires Fits(rd, 5) && Fits(rs1, 5) && f != FSub && !IsShift(f)
    ensures Agrees(AluImm(AluCode(f), rd, rs1, Signed12(imm)), Some(ImmOp(f, rd, rs1, imm)))
  {
    hide Fits, AluCode, Signed12;
  }

  lemma SameShift(f: AluFn, rd: Instr, rs1: Instr, imm: Instr)
    requires Fits(rd, 5) && Fits(rs1, 5) && Fits(imm, 5) && IsShift(f)
    ensures Agrees(AluImm(AluCode(f), rd, rs1, imm), Some(ShiftOp(f, rd, rs1, imm)))
  {
    hide Fits, AluCode;
  }

  lemma SameReg(f: AluFn, rd: Instr, rs1: Instr, rs2: Instr)
    requires Fits(rd, 5) && Fits(rs1, 5) && Fits(rs2, 5)
    ensures Agrees(RegReg(AluOp(AluCode(f)), rd, rs1, rs2), Some(RegOp(f, rd, rs1, rs2)))
  {
    hide Fits, AluCode;
  }

  lemma SameAccess(rd: Instr, rs1: Instr, rs2: Instr, imm: Instr)
    requires Fits(rd, 5) && Fits(rs1, 5) && Fits(rs2, 5)
    ensures Agrees(LoadRaw(WordWide, false, rd, rs1, Signed12(imm)), Some(LoadFrom(WordWide, false, rd, rs1, imm)))
    ensures Agrees(StoreRaw(WordWide, rs1, rs2, Signed12(imm)), Some(StoreTo(WordWide, rs1, rs2, imm)))
  {
    hide Fits, Agrees, SameEffect, Signed12;
    Same(LoadRaw(WordWide, false, rd, rs1, Signed12(imm)), LoadFrom(WordWide, false, rd, rs1, imm));
    Same(StoreRaw(WordWide, rs1, rs2, Signed12(imm)), StoreTo(WordWide, rs1, rs2, imm));
  }

  lemma Rejected(r: Raw)
    requires r == ILLEGAL
    ensures Agrees(r, None)
  {
  }

  lemma Patterns0(w: Instr)
    requires w & 3 == 0
    ensures Quadrant(w) == 0
    ensures Is(w, 0xE003, 0x0000) <==> CFunct3(w) == 0
    ensures AnyBit(w, 0x1FE0) <==> CWide(w) != 0
    ensures Is(w, 0xE003, 0x4000) <==> CFunct3(w) == 2
    ensures Is(w, 0xE003, 0xC000) <==> CFunct3(w) == 6
  {
  }

  lemma Expansion0Is(w: Instr)
    requires w & 3 == 0
    ensures Expansion0(w) ==
            if CFunct3(w) == 0 && CWide(w) != 0 then Some(ImmOp(FAdd, CRs2P(w), 2, SpecAddi4spn(w)))
            else if CFunct3(w) == 2 then Some(LoadFrom(WordWide, false, CRs2P(w), CRdP(w), SpecLw(w)))
            else if CFunct3(w) == 6 then Some(StoreTo(WordWide, CRdP(w), CRs2P(w), SpecLw(w)))
            else None
  {
    hide Field, RegP, Is, AnyBit, Fits, CFunct3, CWide, CRdP, CRs2P, SpecAddi4spn, SpecLw;
    Patterns0(w);
    FieldsAre(w);
  }

  lemma Expands0(w: Instr)
    requires w & 3 == 0
    ensures Agrees(DecodeC0(w, CFunct3(w)), Expansion0(w))
  {
    hide Field, RegP, Expansion0, Fits, Agrees, AluImm, LoadRaw, StoreRaw;
    hide CFunct3, CWide, CRdP, CRs2P, SpecAddi4spn, SpecLw, ImmAddi4spn, ImmCLsw, Signed12;
    Expansion0Is(w);
    FieldsAre(w);
    ImmAddi4spnIs(w);
    ImmLwIs(w);
    SameImm(FAdd, CRs2P(w), 2, SpecAddi4spn(w));
    SameAccess(CRs2P(w), CRdP(w), CRs2P(w), SpecLw(w));
    Rejected(ILLEGAL);
  }

  lemma Patterns1(w: Instr)
    requires w & 3 == 1
    ensures Quadrant(w) == 1
    ensures Is(w, 0xE003, 0x0001) <==> CFunct3(w) == 0
    ensures Is(w, 0xE003, 0x2001) <==> CFunct3(w) == 1
    ensures Is(w, 0xE003, 0x4001) <==> CFunct3(w) == 2
    ensures Is(w, 0xEF83, 0x6101) <==> CFunct3(w) == 3 && CRd(w) == 2
    ensures Is(w, 0xE003, 0x6001) <==> CFunct3(w) == 3
    ensures !Is(w, 0x0F80, 0x0100) <==> CRd(w) != 2
    ensures AnyBit(w, 0x107C) <==> BitAt(w, 12) != 0 || CRs2(w) != 0
    ensures Is(w, 0xE003, 0xA001) <==> CFunct3(w) == 5
    ensures Is(w, 0xE003, 0xC001) <==> CFunct3(w) == 6
    ensures Is(w, 0xE003, 0xE001) <==> CFunct3(w) == 7
    ensures CFunct3(w) <= 7 && (BitAt(w, 12) == 0 || BitAt(w, 12) == 1)
  {
  }

  lemma PatternsAlu(w: Instr)
    requires w & 3 == 1
    ensures Is(w, 0xFC03, 0x8001) <==> CFunct3(w) == 4 && CSub(w) == 0 && BitAt(w, 12) == 0
    ensures Is(w, 0xFC03, 0x8401) <==> CFunct3(w) == 4 && CSub(w) == 1 && BitAt(w, 12) == 0
    ensures Is(w, 0xEC03, 0x8801) <==> CFunct3(w) == 4 && CSub(w) == 2
    ensures Is(w, 0xFC63, 0x8C01) <==> CFunct3(w) == 4 && CSub(w) == 3 && BitAt(w, 12) == 0 && CArith(w) == 0
    ensures Is(w, 0xFC63, 0x8C21) <==> CFunct3(w) == 4 && CSub(w) == 3 && BitAt(w, 12) == 0 && CArith(w) == 1
    ensures Is(w, 0xFC63, 0x8C41) <==> CFunct3(w) == 4 && CSub(w) == 3 && BitAt(w, 12) == 0 && CArith(w) == 2
    ensures Is(w, 0xFC63, 0x8C61) <==> CFunct3(w) == 4 && CSub(w) == 3 && BitAt(w, 12) == 0 && CArith(w) == 3
    ensures CSub(w) <= 3 && CArith(w) <= 3
  {
  }

  function ArithFn(arith: Instr): AluFn {
    if arith == 0 then FSub else if arith == 1 then FXor else if arith == 2 then FOr else FAnd
  }

  lemma ArithIs(arith: Instr)
    ensures AluCode(ArithFn(arith)) ==
            if arith == 0 then ALU_SUB else if arith == 1 then ALU_XOR else if arith == 2 then ALU_OR else ALU_AND
  {
  }

  lemma AluExpansion(w: Instr)
    requires w & 3 == 1 && CFunct3(w) == 4
    ensures Expansion1Alu(w) ==
            var (p, q, b12) := (CRs2P(w), CRdP(w), BitAt(w, 12));
            if CSub(w) == 0 && b12 == 0 then Some(ShiftOp(FSrl, q, q, Low5(w)))
            else if CSub(w) == 1 && b12 == 0 then Some(ShiftOp(FSra, q, q, Low5(w)))
            else if CSub(w) == 2 then Some(ImmOp(FAnd, q, q, SpecAddi(w)))
            else if CSub(w) == 3 && b12 == 0 then Some(RegOp(ArithFn(CArith(w)), q, q, p))
            else None
  {
    hide Field, RegP, Is, Fits, CFunct3, CSub, CArith, CRdP, CRs2P, BitAt, SpecAddi, Low5;
    PatternsAlu(w);
    FieldsAre(w);
  }

  lemma Expands1Alu(w: Instr)
    requires w & 3 == 1 && CFunct3(w) == 4
    ensures Agrees(DecodeC1Alu(w, BitAt(w, 12)), Expansion1Alu(w))
  {
    hide Field, RegP, Expansion1Alu, Fits, Agrees, AluImm, RegReg, AluOp, ArithFn, SameEffect, Encodable, Meaning;
    hide CFunct3, CSub, CArith, CRdP, CRs2P, BitAt, SpecAddi, Low5, ImmCAddi, ImmCShamt, Signed12;
    AluExpansion(w);
    FieldsAre(w);
    ImmShamtIs(w);
    ImmAddiIs(w);
    var rd, b12 := CRdP(w), BitAt(w, 12);
    if CSub(w) == 0 && b12 == 0 {
      SameShift(FSrl, rd, rd, Low5(w));
    } else if CSub(w) == 1 && b12 == 0 {
      SameShift(FSra, rd, rd, Low5(w));
    } else if CSub(w) == 2 {
      SameImm(FAnd, rd, rd, SpecAddi(w));
    } else if CSub(w) == 3 && b12 == 0 {
      ArithIs(CArith(w));
      SameReg(ArithFn(CArith(w)), rd, rd, CRs2P(w));
    } else {
      Rejected(ILLEGAL);
    }
  }

  lemma Expands1(w: Instr)
    requires w & 3 == 1
    ensures Agrees(DecodeC1(w, CFunct3(w), BitAt(w, 12)), Expansion1(w))
  {
    hide Agrees, DecodeC1Alu, Expansion1Alu, CFunct3, CRd, CRs2, BitAt;
    Patterns1(w);
    if CFunct3(w) == 4 {
      Expands1Alu(w);
    } else if CFunct3(w) == 0 || CFunct3(w) == 2 {
      Expands1Imm(w);
    } else if CFunct3(w) == 3 {
      Expands1Upper(w);
    } else if CFunct3(w) == 1 || CFunct3(w) == 5 {
      Expands1Jump(w);
    } else {
      Expands1Branch(w);
    }
  }

  lemma ImmediateExpansion(w: Instr)
    requires w & 3 == 1 && (CFunct3(w) == 0 || CFunct3(w) == 2)
    ensures Expansion1(w) == Some(ImmOp(FAdd, CRd(w), if CFunct3(w) == 0 then CRd(w) else 0, SpecAddi(w)))
  {
    hide Field, RegP, Is, AnyBit, Expansion1Alu, CFunct3, CRd, CRs2, CRdP, BitAt;
    hide SpecAddi, SpecAddi16sp, SpecLui, SpecJ, SpecBz;
    Patterns1(w);
    FieldsAre(w);
  }

  lemma DecodedImmediate(w: Instr)
    ensures CFunct3(w) == 0 ==> DecodeC1(w, 0, BitAt(w, 12)) == DecodeCAddi(w, BitAt(w, 12))
    ensures CFunct3(w) == 2 ==>
              DecodeC1(w, 2, BitAt(w, 12)) ==
              Raw(AluOp(ALU_OR), CRd(w), 0, 0, 0, ZeroA, Imm, NoC, ImmCAddi(w), 0, false)
  {
    hide CFunct3, CRd, CRs2, CRdP, BitAt, DecodeC1Alu, DecodeCAddi, AluOp, ImmCAddi;
  }

  lemma Expands1Imm(w: Instr)
    requires w & 3 == 1 && (CFunct3(w) == 0 || CFunct3(w) == 2)
    ensures Agrees(DecodeC1(w, CFunct3(w), BitAt(w, 12)), Expansion1(w))
  {
    hide Fits, Agrees, SameEffect, Expansion1, DecodeC1, SameOperation;
    hide CFunct3, CRd, CRs2, BitAt, Signed12, SpecAddi, ImmCAddi;
    DecodedImmediate(w);
    ImmediateExpansion(w);
    FieldsAre(w);
    ImmAddiIs(w);
    var r, rd := DecodeC1(w, CFunct3(w), BitAt(w, 12)), CRd(w);
    if CFunct3(w) == 2 {
      Alike(r, ImmOp(FAdd, rd, 0, SpecAddi(w)));
    } else if BitAt(w, 12) == 0 && CRd(w) == 0 && CRs2(w) == 0 {
      Alike(r, ImmOp(FAdd, rd, rd, SpecAddi(w)));
    } else {
      Same(r, ImmOp(FAdd, rd, rd, SpecAddi(w)));
    }
  }

  lemma Alike(r: Raw, x: Asm)
    requires Encodable(x) && !r.illegal && (LoadsImmediate(r, Meaning(x)) || WritesNothing(r, Meaning(x)))
    ensures Agrees(r, Some(x))
  {
    hide Encodable, Meaning, LoadsImmediate, WritesNothing, SameOperation;
  }

  lemma NotAlu(w: Instr)
    requires w & 3 == 1 && CFunct3(w) != 4
    ensures Expansion1Alu(w) == None
  {
    hide Field, RegP, Is, CFunct3, CSub, CArith, CRdP, CRs2P, BitAt, SpecAddi, Low5;
    PatternsAlu(w);
  }

  lemma Expands1Upper(w: Instr)
    requires w & 3 == 1 && CFunct3(w) == 3
    ensures Agrees(DecodeC1(w, CFunct3(w), BitAt(w, 12)), Expansion1(w))
  {
    hide Field, RegP, Is, AnyBit, Fits, Agrees, SameEffect, Expansion1Alu, DecodeC1Alu, CSub, CArith, AluOp;
    hide CFunct3, CRd, CRs2, CRdP, BitAt, Signed12, Signed13, Signed21, Upper20;
    hide SpecAddi, SpecAddi16sp, SpecLui, SpecJ, SpecBz, ImmCAddi, ImmAddi16sp, ImmCLui, ImmCJ, ImmCBz;
    Patterns1(w);
    NotAlu(w);
    FieldsAre(w);
    ImmAddi16spIs(w);
    ImmLuiIs(w);
    var r := DecodeC1(w, CFunct3(w), BitAt(w, 12));
    if CRd(w) == 2 {
      Same(r, ImmOp(FAdd, 2, 2, SpecAddi16sp(w)));
    } else if BitAt(w, 12) != 0 || CRs2(w) != 0 {
      UpperSame(r, UpperImm(CRd(w), SpecLui(w)));
    } else {
      Rejected(r);
    }
  }

  /** c.lui leaves the immediate of the program counter zero. */
  lemma UpperSame(r: Raw, x: Asm)
    requires Encodable(x) && !r.illegal && SameOperation(r, Meaning(x))
    ensures Agrees(r, Some(x))
  {
    hide Encodable, Meaning, LoadsImmediate, WritesNothing, SameOperation;
  }

  lemma JumpExpansion(w: Instr)
    requires w & 3 == 1 && (CFunct3(w) == 1 || CFunct3(w) == 5 || CFunct3(w) == 6 || CFunct3(w) == 7)
    ensures CFunct3(w) == 1 ==> Expansion1(w) == Some(JumpLink(1, SpecJ(w)))
    ensures CFunct3(w) == 5 ==> Expansion1(w) == Some(JumpLink(0, SpecJ(w)))
    ensures CFunct3(w) == 6 ==> Expansion1(w) == Some(BranchOn(Eq, CRdP(w), 0, SpecBz(w)))
    ensures CFunct3(w) == 7 ==> Expansion1(w) == Some(BranchOn(Ne, CRdP(w), 0, SpecBz(w)))
  {
    hide Field, RegP, Is, AnyBit, Expansion1Alu, CFunct3, CRd, CRs2, CRdP, BitAt;
    hide SpecAddi, SpecAddi16sp, SpecLui, SpecJ, SpecBz;
    Patterns1(w);
    FieldsAre(w);
  }

  lemma SameJump(rd: Instr, imm: Instr)
    requires Fits(rd, 5)
    ensures Agrees(Raw(Jali, rd, 0, 0, 0, NoA, NoB, PcImmC, Signed21(imm), Signed21(imm), false),
                   Some(JumpLink(rd, imm)))
  {
    hide Fits, Agrees, SameEffect, Signed21;
    UpperSame(Raw(Jali, rd, 0, 0, 0, NoA, NoB, PcImmC, Signed21(imm), Signed21(imm), false), JumpLink(rd, imm));
  }

  lemma Expands1Jump(w: Instr)
    requires w & 3 == 1 && (CFunct3(w) == 1 || CFunct3(w) == 5)
    ensures Agrees(DecodeC1(w, CFunct3(w), BitAt(w, 12)), Expansion1(w))
  {
    hide Agrees, Fits, Expansion1, DecodeC1Alu, DecodeCAddi, Signed21, CFunct3, CRd, CRs2, CRdP, BitAt, SpecJ, ImmCJ;
    JumpExpansion(w);
    FieldsAre(w);
    ImmJIs(w);
    SameJump(if CFunct3(w) == 1 then 1 else 0, SpecJ(w));
  }

  lemma Expands1Branch(w: Instr)
    requires w & 3 == 1 && (CFunct3(w) == 6 || CFunct3(w) == 7)
    ensures Agrees(DecodeC1(w, CFunct3(w), BitAt(w, 12)), Expansion1(w))
  {
    hide Agrees, Fits, SameEffect, Expansion1, DecodeC1Alu, Signed13, CFunct3, CRd, CRdP, BitAt, SpecBz, ImmCBz;
    JumpExpansion(w);
    FieldsAre(w);
    ImmBzIs(w);
    Same(DecodeC1(w, CFunct3(w), BitAt(w, 12)), BranchOn(if CFunct3(w) == 6 then Eq else Ne, CRdP(w), 0, SpecBz(w)));
  }

  lemma Patterns2(w: Instr)
    requires w & 3 == 2
    ensures Quadrant(w) == 2
    ensures Is(w, 0xF003, 0x0002) <==> CFunct3(w) == 0 && BitAt(w, 12) == 0
    ensures Is(w, 0xE003, 0x4002) <==> CFunct3(w) == 2
    ensures Is(w, 0xE003, 0xC002) <==> CFunct3(w) == 6
    ensures AnyBit(w, 0x0F80) <==> CRd(w) != 0
    ensures AnyBit(w, 0x007C) <==> CRs2(w) != 0
    ensures Is(w, 0xF07F, 0x8002) <==> CFunct3(w) == 4 && BitAt(w, 12) == 0 && CRs2(w) == 0
    ensures Is(w, 0xF003, 0x8002) <==> CFunct3(w) == 4 && BitAt(w, 12) == 0
    ensures Is(w, 0xFFFF, 0x9002) <==> CFunct3(w) == 4 && BitAt(w, 12) == 1 && CRd(w) == 0 && CRs2(w) == 0
    ensures Is(w, 0xF07F, 0x9002) <==> CFunct3(w) == 4 && BitAt(w, 12) == 1 && CRs2(w) == 0
    ensures Is(w, 0xF003, 0x9002) <==> CFunct3(w) == 4 && BitAt(w, 12) == 1
    ensures BitAt(w, 12) == 0 || BitAt(w, 12) == 1
  {
  }

  lemma ZeroOffset()
    ensures Signed12(0) == 0
  {
  }

  lemma Expands2Reg(w: Instr)
    requires w & 3 == 2 && CFunct3(w) == 4
    ensures Agrees(DecodeC2Reg(w, BitAt(w, 12)), Expansion2(w))
  {
    hide Field, RegP, Is, AnyBit, Fits, Agrees, SameEffect, AluOp;
    hide CFunct3, CRd, CRs2, BitAt, Low5, SpecLwsp, SpecSwsp, Signed12;
    Patterns2(w);
    FieldsAre(w);
    ZeroOffset();
    var r, rd, rs2, b12 := DecodeC2Reg(w, BitAt(w, 12)), CRd(w), CRs2(w), BitAt(w, 12);
    if rs2 != 0 {
      Same(r, RegOp(FAdd, rd, if b12 == 0 then 0 else rd, rs2));
    } else if rd != 0 {
      UpperSame(r, JumpReg(if b12 == 0 then 0 else 1, rd, 0));
    } else if b12 == 1 {
      Same(r, Break);
    } else {
      Rejected(r);
    }
  }

  lemma MemoryExpansion(w: Instr)
    requires w & 3 == 2 && CFunct3(w) != 4
    ensures Expansion2(w) ==
            if CFunct3(w) == 0 && BitAt(w, 12) == 0 then Some(ShiftOp(FSll, CRd(w), CRd(w), Low5(w)))
            else if CFunct3(w) == 2 && CRd(w) != 0 then Some(LoadFrom(WordWide, false, CRd(w), 2, SpecLwsp(w)))
            else if CFunct3(w) == 6 then Some(StoreTo(WordWide, 2, CRs2(w), SpecSwsp(w)))
            else None
  {
    hide Field, Is, AnyBit, CFunct3, CRd, CRs2, BitAt, Low5, SpecLwsp, SpecSwsp;
    Patterns2(w);
    FieldsAre(w);
  }

  lemma Expands2(w: Instr)
    requires w & 3 == 2
    ensures Agrees(DecodeC2(w, CFunct3(w), BitAt(w, 12)), Expansion2(w))
  {
    hide Fits, Agrees, SameEffect, DecodeC2Reg, Expansion2, CFunct3, CRd, CRs2, BitAt;
    hide Low5, SpecLwsp, SpecSwsp, ImmCShamt, ImmCLwsp, ImmCSwsp, Signed12;
    var r, rd := DecodeC2(w, CFunct3(w), BitAt(w, 12)), CRd(w);
    if CFunct3(w) == 4 {
      Expands2Reg(w);
    } else {
      MemoryExpansion(w);
      FieldsAre(w);
      ImmShamtIs(w);
      ImmLwspIs(w);
      ImmSwspIs(w);
      if CFunct3(w) == 0 && BitAt(w, 12) == 0 {
        Same(r, ShiftOp(FSll, rd, rd, Low5(w)));
      } else if CFunct3(w) == 2 && rd != 0 {
        Same(r, LoadFrom(WordWide, false, rd, 2, SpecLwsp(w)));
      } else if CFunct3(w) == 6 {
        Same(r, StoreTo(WordWide, 2, CRs2(w), SpecSwsp(w)));
      } else {
        Rejected(r);
      }
    }
  }

  /** Acceptance and effect, for every half-word and whatever follows it: the decoder accepts
      exactly the listed encodings, and decodes each to the operation of its expansion. */
  lemma Expands(w: Instr, ext: Instr -> Raw)
    requires Is16(w)
    ensures Agrees(DecodeRaw(w, ext), Expansion(w))
  {
    hide Agrees, DecodeC0, DecodeC1, DecodeC2, Expansion0, Expansion1, Expansion2, CFunct3, BitAt;
    if w & 3 == 0 {
      Patterns0(w);
      Expands0(w);
    } else if w & 3 == 1 {
      Patterns1(w);
      Expands1(w);
    } else {
      SecondQuadrant(w);
      Patterns2(w);
      Expands2(w);
    }
  }

  lemma SecondQuadrant(w: Instr)
    ensures w & 3 == 0 || w & 3 == 1 || w & 3 == 2 || w & 3 == 3
    ensures Is16(w) <==> w & 3 != 3
  {
  }

  // ---------------------------------------------------------------- the machine

  /** The machine that sees the expansion in place of every compressed instruction. */
  function Expanding(ext: Instr -> Raw): Instr -> Ctrl {
    (w: Instr) => ToCtrl(DecodeRaw(match Expansion(w) case Some(x) => Encode(x) case None => w, ext))
  }

  /** The micro-ops ALU_ADD and ALU_OR of frv_common.vh, on operands A and B. */
  const ADDING: Op := Compute(Alu, 0x01, false, true, true, false)
  const ORING: Op := Compute(Alu, 0x0A, false, true, true, false)

  /** The additions and OR of the ALU that c.li and addi rely on. */
  ghost predicate AluAdds(m: Machine) {
    && (forall a, b :: m.compute(ADDING, a, b, 0).0 == Add(a, b))
    && (forall b :: m.compute(ORING, 0, b, 0).0 == b)
  }

  /** A step depends on the decoder only through the operation and its operands. */
  lemma StepFromOperands(m: Machine, m': Machine, q: Arch)
    requires m' == m.(decode := m'.decode)
    requires Dec(m, q).op == Dec(m', q).op && Dec(m, q).rd == Dec(m', q).rd && Dec(m, q).illegal == Dec(m', q).illegal
    requires A(m, q) == A(m', q) && B(m, q) == B(m', q) && C(m, q) == C(m', q)
    ensures Step(m, q) == Step(m', q)
  {
    hide A, B, C, InstrAt, SizeOf, Write, AErr;
    forall op, a
      ensures AErr(m, op, a) == AErr(m', op, a)
    {
      SameAlignment(m, m', op, a);
    }
  }

  lemma SameAlignment(m: Machine, m': Machine, op: Op, a: Word)
    requires m' == m.(decode := m'.decode)
    ensures AErr(m, op, a) == AErr(m', op, a)
  {
  }

  /** Operations that match field by field do the same to every architectural state. */
  lemma SameOperationSameStep(m: Machine, m': Machine, q: Arch, r: Raw, e: Raw)
    requires m' == m.(decode := m'.decode)
    requires Dec(m, q) == ToCtrl(r) && Dec(m', q) == ToCtrl(e) && SameOperation(r, e)
    ensures Step(m, q) == Step(m', q)
  {
    hide RegOf, WordOf, InstrAt, Step;
    RegOfZero();
    assert A(m, q) == A(m', q) && B(m, q) == B(m', q) && C(m, q) == C(m', q);
    StepFromOperands(m, m', q);
  }

  /** c.li and addi from x0. */
  lemma LoadsImmediateSameStep(m: Machine, m': Machine, q: Arch, r: Raw, e: Raw)
    requires m' == m.(decode := m'.decode) && AluAdds(m)
    requires Dec(m, q) == ToCtrl(r) && Dec(m', q) == ToCtrl(e) && LoadsImmediate(r, e)
    ensures Step(m, q) == Step(m', q)
  {
    hide RegOf, WordOf, InstrAt;
    RegOfZero();
    assert A(m, q) == 0 && A(m', q) == q.regs[0] && B(m, q) == B(m', q);
    assert Result(m, Dec(m, q).op, A(m, q), B(m, q), 0).0 == Result(m', Dec(m', q).op, A(m', q), B(m', q), 0).0;
  }

  lemma WritesNothingSameStep(m: Machine, m': Machine, q: Arch, r: Raw, e: Raw)
    requires m' == m.(decode := m'.decode)
    requires Dec(m, q) == ToCtrl(r) && Dec(m', q) == ToCtrl(e) && WritesNothing(r, e)
    ensures Step(m, q) == Step(m', q)
  {
    hide WordOf, InstrAt, Result, A, B, C;
    RegOfZero();
  }

  /** One instruction: executing a compressed instruction and executing its expansion in two
      bytes of program are the same. */
  lemma StepExpands(m: Machine, ext: Instr -> Raw, q: Arch)
    requires HasDecoder(m, ext) && AluAdds(m)
    ensures Step(m, q) == Step(m.(decode := Expanding(ext)), q)
  {
    hide Step, ToCtrl, DecodeRaw, InstrAt, SameOperation, LoadsImmediate, WritesNothing, Encode, Meaning, Encodable;
    hide Expansion0, Expansion1, Expansion2;
    var m' := m.(decode := Expanding(ext));
    var w := InstrAt(m.imem, q.pc);
    if Expansion(w).Some? {
      SecondQuadrant(w);
      Expands(w, ext);
      SameEffectSameStep(m, m', ext, q, Expansion(w).value);
    } else {
      SameStep(m, m', q);
    }
  }

  lemma SameEffectSameStep(m: Machine, m': Machine, ext: Instr -> Raw, q: Arch, x: Asm)
    requires m' == m.(decode := m'.decode) && HasDecoder(m, ext) && AluAdds(m) && Encodable(x)
    requires Dec(m', q) == ToCtrl(DecodeRaw(Encode(x), ext))
    requires SameEffect(DecodeRaw(InstrAt(m.imem, q.pc), ext), Meaning(x))
    ensures Step(m, q) == Step(m', q)
  {
    hide Step, ToCtrl, DecodeRaw, InstrAt, SameOperation, LoadsImmediate, WritesNothing, Encode, Meaning, Encodable;
    var r := DecodeRaw(InstrAt(m.imem, q.pc), ext);
    DecodeEncode(x, ext);
    if SameOperation(r, Meaning(x)) {
      SameOperationSameStep(m, m', q, r, Meaning(x));
    } else if LoadsImmediate(r, Meaning(x)) {
      LoadsImmediateSameStep(m, m', q, r, Meaning(x));
    } else {
      WritesNothingSameStep(m, m', q, r, Meaning(x));
    }
  }

  lemma SameStep(m: Machine, m': Machine, q: Arch)
    requires m' == m.(decode := m'.decode) && Dec(m, q) == Dec(m', q)
    ensures Step(m, q) == Step(m', q)
  {
    hide InstrAt;
  }
}
