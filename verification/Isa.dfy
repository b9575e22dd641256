/** What RV32IMC instructions do to the architectural state, stated on registers, program counter
    and memory requests alone (chapters 2, 7 and 16 of the RISC-V Unprivileged ISA), and the proof
    that the decoder and the sequential machine, and so the pipeline, do just that. */
module Isa {
  import opened Words
  import opened Gprs
  import opened Machine
  import opened Decode
  import opened Assembler
  import opened Rvc
  import opened Immediates
  import opened Encodings

  // ---------------------------------------------------------------- numbers

  /** The number of a register field. */
  function Num(b: Instr): Reg { (b & 0x1F) as int }

  function Sum(a: Word, b: Word): Word { (a + b) % WORD_RANGE }

  /** A branch or jump target. */
  function Even(a: Word): Word { a - a % 2 }

  // ---------------------------------------------------------------- effects

  function Put(regs: Regs, rd: Reg, v: Word): Regs { if rd == 0 then regs else regs[rd := v] }

  /** Compute a value and go on. */
  function Sets(q: Arch, size: Word, rd: Instr, v: Word): Arch {
    Arch(Sum(q.pc, size), Put(q.regs, Num(rd), v), q.mepc, q.hist)
  }

  /** Link and jump. */
  function Jumps(q: Arch, size: Word, rd: Instr, target: Word): Arch {
    Arch(Even(target), Put(q.regs, Num(rd), Sum(q.pc, size)), q.mepc, q.hist)
  }

  function Trapped(m: Machine, q: Arch): Arch { Arch(m.mtvec, q.regs, q.pc, q.hist) }

  predicate Misaligned(width: Width, a: Word) {
    (width == HalfWide && a % 2 != 0) || (width == WordWide && a % 4 != 0)
  }

  function Loads(m: Machine, q: Arch, size: Word, rd: Instr, op: Op, a: Word): Arch {
    var hist := q.hist + [Req(false, a - a % 4, m.strobe(op, a), 0)];
    Arch(Sum(q.pc, size), Put(q.regs, Num(rd), m.extract(op, m.strobe(op, a), a, m.answer(hist))), q.mepc, hist)
  }

  function Stores(m: Machine, q: Arch, size: Word, op: Op, a: Word, data: Word): Arch {
    Arch(Sum(q.pc, size), q.regs, q.mepc, q.hist + [Req(true, a - a % 4, m.strobe(op, a), m.lanes(op, a, data))])
  }

  /** The state after instruction `x`, which occupies `size` bytes. */
  function Exec(m: Machine, x: Asm, size: Word, q: Arch): Arch {
    match x
    case RegOp(f, rd, rs1, rs2) =>
      var op := Compute(Alu, AluCode(f), false, true, true, false);
      Sets(q, size, rd, m.compute(op, q.regs[Num(rs1)], q.regs[Num(rs2)], 0).0)
    case ImmOp(f, rd, rs1, imm) =>
      var op := Compute(Alu, AluCode(f), false, true, true, false);
      Sets(q, size, rd, m.compute(op, q.regs[Num(rs1)], Imm12(imm), 0).0)
    case ShiftOp(f, rd, rs1, imm) =>
      var op := Compute(Alu, AluCode(f), false, true, true, false);
      Sets(q, size, rd, m.compute(op, q.regs[Num(rs1)], Num(imm), 0).0)
    case MulDiv(g, rd, rs1, rs2) =>
      var op := Compute(Mul, MulCodeOf(g), false, true, true, false);
      Sets(q, size, rd, m.compute(op, q.regs[Num(rs1)], q.regs[Num(rs2)], 0).0)
    case LoadFrom(width, signed, rd, rs1, imm) =>
      var a := Sum(q.regs[Num(rs1)], Imm12(imm));
      if Misaligned(width, a) then Trapped(m, q) else Loads(m, q, size, rd, Mem(true, false, width, signed), a)
    case StoreTo(width, rs1, rs2, imm) =>
      var a := Sum(q.regs[Num(rs1)], Imm12(imm));
      if Misaligned(width, a) then Trapped(m, q)
      else Stores(m, q, size, Mem(false, true, width, false), a, q.regs[Num(rs2)])
    case BranchOn(c, rs1, rs2, imm) =>
      q.(pc := if m.taken(CondCode(c), q.regs[Num(rs1)], q.regs[Num(rs2)]) then Even(Sum(q.pc, Imm13(imm)))
               else Sum(q.pc, size))
    case UpperImm(rd, imm) => Sets(q, size, rd, Upper(imm))
    case UpperPc(rd, imm) => Sets(q, size, rd, Sum(q.pc, Upper(imm)))
    case JumpLink(rd, imm) => Jumps(q, size, rd, Sum(q.pc, Imm21(imm)))
    case JumpReg(rd, rs1, imm) => Jumps(q, size, rd, Sum(q.regs[Num(rs1)], Imm12(imm)))
    case FenceOf(_, _, _, _) => q.(pc := Sum(q.pc, size))
    case EnvCall => Trapped(m, q)
    case Break => Trapped(m, q)
    case ReturnM => q.(pc := q.mepc)
    case WaitM => q.(pc := Sum(q.pc, size))
  }

  /** The exception code, zero without an exception. */
  function Exception(x: Asm, q: Arch): nat {
    match x
    case LoadFrom(width, _, _, rs1, imm) => if Misaligned(width, Sum(q.regs[Num(rs1)], Imm12(imm))) then 4 else 0
    case StoreTo(width, rs1, _, imm) => if Misaligned(width, Sum(q.regs[Num(rs1)], Imm12(imm))) then 6 else 0
    case EnvCall => 11
    case Break => 3
    case _ => 0
  }

  // ---------------------------------------------------------------- numbers of the machine

  lemma RegOfIs(b: Instr)
    ensures RegOf(b) == Num(b)
  {
  }

  lemma AddIs(a: Word, b: Word)
    ensures Add(a, b) == Sum(a, b)
  {
  }

  lemma PutIs(regs: Regs, rd: Reg, v: Word, hi: Word)
    ensures Write(regs, rd, false, v, hi) == Put(regs, rd, v)
  {
  }

  lemma EvenIs(a: Word)
    ensures ClearBit0(a) == Even(a) && WordAddr(a) == a - a % 4
  {
  }

  lemma ShiftIs(x: Instr)
    requires Fits(x, 5)
    ensures WordOf(x) == Num(x)
  {
    assert x & 0x1F == x;
  }

  lemma ZeroFields()
    ensures RegOf(0) == 0 && WordOf(0) == 0
  {
  }

  // ---------------------------------------------------------------- the machine does it

  lemma ExecRegister(m: Machine, x: Asm, q: Arch)
    requires Dec(m, q) == ToCtrl(Meaning(x)) && Encodable(x) && (x.RegOp? || x.MulDiv?)
    ensures Step(m, q) == Exec(m, x, Size(m, q), q)
  {
    hide RegOf, WordOf, Num, Fits, InstrAt, Put, Sum, Write, Add, AluCode, MulCodeOf;
    ZeroFields();
    AddIs(q.pc, Size(m, q));
    RegOfIs(x.rd);
    RegOfIs(x.rs1);
    RegOfIs(x.rs2);
    var r := Result(m, Dec(m, q).op, A(m, q), B(m, q), C(m, q));
    PutIs(q.regs, Num(x.rd), r.0, r.1);
  }

  lemma ExecImmediate(m: Machine, x: Asm, q: Arch)
    requires Dec(m, q) == ToCtrl(Meaning(x)) && Encodable(x) && x.ImmOp?
    ensures Step(m, q) == Exec(m, x, Size(m, q), q)
  {
    hide RegOf, WordOf, Num, Fits, InstrAt, Put, Sum, Write, Add, AluCode, Imm12, Signed12;
    ZeroFields();
    AddIs(q.pc, Size(m, q));
    RegOfIs(x.rd);
    RegOfIs(x.rs1);
    Signed12Is(x.imm);
    var r := Result(m, Dec(m, q).op, A(m, q), B(m, q), C(m, q));
    PutIs(q.regs, Num(x.rd), r.0, r.1);
  }

  lemma ExecShift(m: Machine, x: Asm, q: Arch)
    requires Dec(m, q) == ToCtrl(Meaning(x)) && Encodable(x) && x.ShiftOp?
    ensures Step(m, q) == Exec(m, x, Size(m, q), q)
  {
    hide RegOf, WordOf, Num, Fits, InstrAt, Put, Sum, Write, Add, AluCode;
    ZeroFields();
    AddIs(q.pc, Size(m, q));
    RegOfIs(x.rd);
    RegOfIs(x.rs1);
    ShiftIs(x.imm);
    var r := Result(m, Dec(m, q).op, A(m, q), B(m, q), C(m, q));
    PutIs(q.regs, Num(x.rd), r.0, r.1);
  }

  lemma ExecLoad(m: Machine, x: Asm, q: Arch)
    requires Dec(m, q) == ToCtrl(Meaning(x)) && Encodable(x) && x.LoadFrom?
    ensures Step(m, q) == Exec(m, x, Size(m, q), q)
  {
    hide RegOf, WordOf, Num, Fits, InstrAt, Put, Sum, Write, Add, Imm12, Signed12, WordAddr;
    ZeroFields();
    AddIs(q.pc, Size(m, q));
    RegOfIs(x.rd);
    RegOfIs(x.rs1);
    Signed12Is(x.imm);
    AddIs(A(m, q), B(m, q));
    EvenIs(Addr(m, q));
    PutIs(q.regs, Num(x.rd), Loaded(m, q), 0);
  }

  lemma ExecStore(m: Machine, x: Asm, q: Arch)
    requires Dec(m, q) == ToCtrl(Meaning(x)) && Encodable(x) && x.StoreTo?
    ensures Step(m, q) == Exec(m, x, Size(m, q), q)
  {
    hide RegOf, WordOf, Num, Fits, InstrAt, Put, Sum, Write, Add, Imm12, Signed12, WordAddr;
    ZeroFields();
    AddIs(q.pc, Size(m, q));
    RegOfIs(x.rs1);
    RegOfIs(x.rs2);
    Signed12Is(x.imm);
    AddIs(A(m, q), B(m, q));
    EvenIs(Addr(m, q));
  }

  lemma ExecBranch(m: Machine, x: Asm, q: Arch)
    requires Dec(m, q) == ToCtrl(Meaning(x)) && Encodable(x) && x.BranchOn?
    ensures Step(m, q) == Exec(m, x, Size(m, q), q)
  {
    hide RegOf, WordOf, Num, Fits, InstrAt, Put, Sum, Write, Add, Imm13, Signed13, ClearBit0, Even, CondCode;
    ZeroFields();
    AddIs(q.pc, Size(m, q));
    RegOfIs(x.rs1);
    RegOfIs(x.rs2);
    Signed13Is(x.imm);
    AddIs(q.pc, Imm13(x.imm));
    EvenIs(C(m, q));
  }

  lemma ExecLink(m: Machine, x: Asm, q: Arch)
    requires Dec(m, q) == ToCtrl(Meaning(x)) && Encodable(x) && x.JumpLink?
    ensures Step(m, q) == Exec(m, x, Size(m, q), q)
  {
    hide RegOf, WordOf, Num, Fits, InstrAt, Put, Sum, Write, Add, Imm21, Signed21, ClearBit0, Even;
    ZeroFields();
    AddIs(q.pc, Size(m, q));
    RegOfIs(x.rd);
    Signed21Is(x.imm);
    AddIs(q.pc, Imm21(x.imm));
    EvenIs(C(m, q));
    PutIs(q.regs, Num(x.rd), Fall(m, q), 0);
  }

  lemma ExecLinkRegister(m: Machine, x: Asm, q: Arch)
    requires Dec(m, q) == ToCtrl(Meaning(x)) && Encodable(x) && x.JumpReg?
    ensures Step(m, q) == Exec(m, x, Size(m, q), q)
  {
    hide RegOf, WordOf, Num, Fits, InstrAt, Put, Sum, Write, Add, Imm12, Signed12, ClearBit0, Even;
    ZeroFields();
    AddIs(q.pc, Size(m, q));
    RegOfIs(x.rd);
    RegOfIs(x.rs1);
    Signed12Is(x.imm);
    AddIs(A(m, q), B(m, q));
    EvenIs(Addr(m, q));
    PutIs(q.regs, Num(x.rd), Fall(m, q), 0);
  }

  lemma ExecUpper(m: Machine, x: Asm, q: Arch)
    requires Dec(m, q) == ToCtrl(Meaning(x)) && Encodable(x) && AluAdds(m)
    requires x.UpperImm? || x.UpperPc?
    ensures Step(m, q) == Exec(m, x, Size(m, q), q)
  {
    hide RegOf, WordOf, Num, Upper, Upper20, Fits, InstrAt, Put, Sum, Write, Add;
    ZeroFields();
    RegOfIs(x.rd);
    UpperIs(x.imm);
    AddIs(q.pc, Size(m, q));
    AddIs(q.pc, Upper(x.imm));
    SumNothing(Sum(q.pc, Upper(x.imm)));
    var r := Result(m, Dec(m, q).op, A(m, q), B(m, q), C(m, q));
    PutIs(q.regs, Num(x.rd), r.0, r.1);
  }

  lemma SumNothing(a: Word)
    ensures Add(a, 0) == a
  {
  }

  lemma ExecSystem(m: Machine, x: Asm, q: Arch)
    requires Dec(m, q) == ToCtrl(Meaning(x))
    requires x.FenceOf? || x == EnvCall || x == Break || x == ReturnM || x == WaitM
    ensures Step(m, q) == Exec(m, x, Size(m, q), q)
  {
    hide RegOf, WordOf, InstrAt, Sum, Add;
    ZeroFields();
    AddIs(q.pc, Size(m, q));
  }

  /** The sequential machine executes the instruction that the decoder has understood. */
  lemma Executes(m: Machine, x: Asm, q: Arch)
    requires Dec(m, q) == ToCtrl(Meaning(x)) && Encodable(x) && AluAdds(m)
    ensures Step(m, q) == Exec(m, x, Size(m, q), q)
  {
    hide ToCtrl, Meaning, Encodable, Exec, Step, AluAdds;
    if x.RegOp? || x.MulDiv? {
      ExecRegister(m, x, q);
    } else if x.ImmOp? {
      ExecImmediate(m, x, q);
    } else if x.ShiftOp? {
      ExecShift(m, x, q);
    } else if x.LoadFrom? {
      ExecLoad(m, x, q);
    } else if x.StoreTo? {
      ExecStore(m, x, q);
    } else if x.BranchOn? {
      ExecBranch(m, x, q);
    } else if x.JumpLink? {
      ExecLink(m, x, q);
    } else if x.JumpReg? {
      ExecLinkRegister(m, x, q);
    } else if x.UpperImm? || x.UpperPc? {
      ExecUpper(m, x, q);
    } else {
      ExecSystem(m, x, q);
    }
  }

  // ---------------------------------------------------------------- from memory to effect

  /** The half-words at `pc` are an encoding of `x`, in 32 or in 16 bits. */
  predicate ReadsAs(m: Machine, pc: Word, x: Asm) {
    var w := InstrAt(m.imem, pc);
    (Encodable(x) && w == Encode(x)) || Expansion(w) == Some(x)
  }

  /** The size of the instruction at `pc`: compressed ones leave the two lowest bits not both set. */
  function Bytes(m: Machine, pc: Word): Word { if InstrAt(m.imem, pc) & 3 == 3 then 4 else 2 }

  lemma ExpansionIsEncodable(w: Instr, ext: Instr -> Raw)
    requires Expansion(w).Some?
    ensures Encodable(Expansion(w).value)
  {
    hide Expansion0, Expansion1, Expansion2, DecodeRaw, SameEffect, Encodable, Meaning;
    SecondQuadrant(w);
    Expands(w, ext);
  }

  lemma NotCompressed(x: Asm, ext: Instr -> Raw)
    requires Encodable(x)
    ensures Expansion(Encode(x)).None?
  {
    hide Encode, Encodable, Meaning, DecodeRaw, Expansion0, Expansion1, Expansion2;
    SecondQuadrant(Encode(x));
    DecodeEncode(x, ext);
  }

  lemma BytesAre(m: Machine, q: Arch)
    ensures Size(m, q) == Bytes(m, q.pc)
  {
    hide InstrAt;
  }

  /** The machine that sees expansions decodes `x` for what reads as `x`. */
  lemma Understood(m: Machine, ext: Instr -> Raw, x: Asm, q: Arch)
    requires ReadsAs(m, q.pc, x)
    ensures Encodable(x) && Dec(m.(decode := Expanding(ext)), q) == ToCtrl(Meaning(x))
  {
    hide Encode, Encodable, Meaning, Expansion, ToCtrl, DecodeRaw, InstrAt;
    if Expansion(InstrAt(m.imem, q.pc)) == Some(x) {
      ExpansionIsEncodable(InstrAt(m.imem, q.pc), ext);
    } else {
      NotCompressed(x, ext);
    }
    DecodeEncode(x, ext);
  }

  lemma ExecIgnoresDecoder(m: Machine, m': Machine, x: Asm, size: Word, q: Arch)
    requires m' == m.(decode := m'.decode)
    ensures Exec(m', x, size, q) == Exec(m, x, size, q)
  {
    hide Sum, Put, Even, Imm12, Imm13, Imm21, Upper, Num;
  }

  /** Each instruction of the program has the effect that the standard gives it, whether it is
      compressed or not. */
  lemma StepIsExec(m: Machine, ext: Instr -> Raw, x: Asm, q: Arch)
    requires HasDecoder(m, ext) && AluAdds(m) && ReadsAs(m, q.pc, x)
    ensures Step(m, q) == Exec(m, x, Bytes(m, q.pc), q)
  {
    hide Step, Exec, Bytes, HasDecoder, ToCtrl, Meaning, Encodable, ReadsAs, Expanding;
    var m' := m.(decode := Expanding(ext));
    StepExpands(m, ext, q);
    Understood(m, ext, x, q);
    Executes(m', x, q);
    ExecIgnoresDecoder(m, m', x, Bytes(m, q.pc), q);
    BytesAre(m, q);
  }

  lemma AccessException(m: Machine, x: Asm, q: Arch)
    requires Dec(m, q) == ToCtrl(Meaning(x)) && Encodable(x) && (x.LoadFrom? || x.StoreTo?)
    ensures Traps(m, q) <==> Exception(x, q) != 0
    ensures Traps(m, q) ==> Cause(m, q) == Exception(x, q)
  {
    hide RegOf, WordOf, Num, Imm12, Signed12, Fits, InstrAt, Sum, Add;
    ZeroFields();
    RegOfIs(x.rs1);
    Signed12Is(x.imm);
    AddIs(A(m, q), B(m, q));
  }

  lemma OtherException(m: Machine, x: Asm, q: Arch)
    requires Dec(m, q) == ToCtrl(Meaning(x)) && Encodable(x) && !x.LoadFrom? && !x.StoreTo?
    ensures Traps(m, q) <==> Exception(x, q) != 0
    ensures Traps(m, q) ==> Cause(m, q) == Exception(x, q)
  {
    hide RegOf, WordOf, Num, Imm12, Signed12, Fits, InstrAt, Sum, Add;
    ZeroFields();
  }

  /** Which instructions trap, and with which code. */
  lemma ExceptionIs(m: Machine, x: Asm, q: Arch)
    requires Dec(m, q) == ToCtrl(Meaning(x)) && Encodable(x)
    ensures Traps(m, q) <==> Exception(x, q) != 0
    ensures Traps(m, q) ==> Cause(m, q) == Exception(x, q)
  {
    hide Dec, ToCtrl, Meaning, Encodable, Traps, Exception, Cause;
    if x.LoadFrom? || x.StoreTo? {
      AccessException(m, x, q);
    } else {
      OtherException(m, x, q);
    }
  }

  /** What is neither listed nor known to the rest of the decoder raises exception 2. */
  lemma IllegalTraps(m: Machine, ext: Instr -> Raw, q: Arch)
    requires HasDecoder(m, ext)
    requires var w := InstrAt(m.imem, q.pc); if Is16(w) then Expansion(w).None? else !Known(w) && ext(w).illegal
    ensures Traps(m, q) && Cause(m, q) == 2 && Step(m, q) == Trapped(m, q)
  {
    hide InstrAt, Decode16, Decode32, Expansion, Known, RegOf, WordOf;
    var w := InstrAt(m.imem, q.pc);
    if Is16(w) {
      Expands(w, ext);
    } else {
      TakesKnown(w, ext);
    }
  }

  // ---------------------------------------------------------------- three operands, wide results

  /** Operations on three registers, such as fsl, cmov and xc.mmul: the unit gets rs1, rs2 and rs3, and
      a wide result goes to an even register and the odd one after it. */
  lemma ThreeOperands(m: Machine, q: Arch, a: Reg)
    requires var d := Dec(m, q);
      && d.op.Compute? && d.op.usesA && d.op.usesB && d.op.usesC && !d.illegal
      && d.aSrc == Rs1 && d.bSrc == Rs2(0) && d.cSrc == Rs3
    ensures var d, q' := Dec(m, q), Step(m, q);
      var (lo, hi) := m.compute(d.op, q.regs[d.rs1], q.regs[d.rs2], q.regs[d.rs3]);
      && q'.pc == Sum(q.pc, Bytes(m, q.pc)) && q'.mepc == q.mepc && q'.hist == q.hist
      && q'.regs[a] == (if a == 0 then 0
                        else if a == d.rd && (!d.op.wide || d.rd % 2 == 0) then lo
                        else if d.op.wide && a % 2 == 1 && (a == d.rd || a == d.rd + 1) then hi
                        else q.regs[a])
  {
    hide InstrAt, Add, Sum, Bytes, Write;
    var d := Dec(m, q);
    var (lo, hi) := m.compute(d.op, q.regs[d.rs1], q.regs[d.rs2], q.regs[d.rs3]);
    AddIs(q.pc, Size(m, q));
    BytesAre(m, q);
    WriteMeans(q.regs, d.rd, d.op.wide, lo, hi, a);
  }
}
