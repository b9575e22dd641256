/** Decoded instructions, and the sequential machine that executes one instruction at a
    time. The functional units, the data memory and the decoder are parameters: everything
    proved about the pipeline holds for any of them. */
module Machine {
  import opened Words
  import opened Gprs

  /** Units whose result is a function of the captured operands. */
  datatype Unit = Alu | Mul | Bit | Asi

  /** Width of an access; xc.gather and xc.scatter are issued without one. */
  datatype Width = NoWidth | ByteWide | HalfWide | WordWide

  /** Functional unit and micro-op. A `Compute` names the operand registers it reads. */
  datatype Op =
    | Nop
    | Compute(unit: Unit, code: nat, wide: bool, usesA: bool, usesB: bool, usesC: bool)
    | Mem(load: bool, store: bool, width: Width, signed: bool)
    | Branch(cond: nat)
    | Taken
    | NotTaken
    | Jali
    | Jalr
    | Ebreak
    | Ecall
    | Mret

  /** Operand sources; with `None` the operand register keeps its old value. */
  datatype ASrc = NoA | ZeroA | Rs1 | PcImmA
  datatype BSrc = NoB | ZeroB | Rs2(shift: nat) | Imm
  datatype CSrc = NoC | Rs2C | Rs3 | PcImmC

  datatype Ctrl = Ctrl(
    op: Op, rd: Reg, rs1: Reg, rs2: Reg, rs3: Reg,
    aSrc: ASrc, bSrc: BSrc, cSrc: CSrc, imm: Word, pcImm: Word,
    illegal: bool)

  /** A data-memory request; `wdata` is zero for loads, whose data lines carry nothing. */
  datatype Req = Req(store: bool, addr: Word, strb: nat, wdata: Word)

  datatype Machine = Machine(
    imem: Word -> Instr,
    decode: Instr -> Ctrl,
    compute: (Op, Word, Word, Word) -> (Word, Word),
    taken: (nat, Word, Word) -> bool,
    strobe: (Op, Word) -> nat,
    lanes: (Op, Word, Word) -> Word,
    extract: (Op, nat, Word, Word) -> Word,
    /** The answer to the last request of a history: any deterministic data memory. */
    answer: seq<Req> -> Word,
    /** The alignment test also looks at micro-ops of other units. */
    strayAlign: (Op, Word) -> bool,
    mtvec: Word)

  // ---------------------------------------------------------------- operands

  /** Left shift by 0, 1 or 2 of a register operand (indexed loads and stores). */
  function Shl(w: Word, k: nat): Word {
    if k == 0 then w else if k == 1 then Add(w, w) else Add(Add(w, w), Add(w, w))
  }

  function OprA(d: Ctrl, pc: Word, rs1: Word): Word {
    if d.aSrc == Rs1 then rs1 else if d.aSrc == PcImmA then Add(pc, d.pcImm) else 0
  }

  function OprB(d: Ctrl, rs2: Word): Word {
    if d.bSrc.Rs2? then Shl(rs2, d.bSrc.shift) else if d.bSrc == Imm then d.imm else 0
  }

  function OprC(d: Ctrl, pc: Word, rs2: Word, rs3: Word): Word {
    if d.cSrc == Rs2C then rs2 else if d.cSrc == Rs3 then rs3
    else if d.cSrc == PcImmC then Add(pc, d.pcImm) else 0
  }

  // ---------------------------------------------------------------- functional units

  /** A unit ignores the operands it does not use. */
  function Result(m: Machine, op: Op, a: Word, b: Word, c: Word): (Word, Word)
    requires op.Compute?
  {
    m.compute(op, if op.usesA then a else 0, if op.usesB then b else 0, if op.usesC then c else 0)
  }

  /** lsu_a_error. */
  predicate AErr(m: Machine, op: Op, addr: Word) {
    match op
    case Mem(_, _, HalfWide, _) => addr % 2 != 0
    case Mem(_, _, WordWide, _) => addr % 4 != 0
    case Mem(_, _, _, _) => false
    case _ => m.strayAlign(op, addr)
  }

  predicate InMmio(addr: Word) { 0x1000 <= addr < 0x2000 }

  function Request(m: Machine, op: Op, addr: Word, data: Word): Req
    requires op.Mem?
  {
    Req(op.store, WordAddr(addr), m.strobe(op, addr), if op.store then m.lanes(op, addr, data) else 0)
  }

  // ---------------------------------------------------------------- sequential machine

  /** Architectural state; `hist` is the list of data-memory requests made so far. */
  datatype Arch = Arch(pc: Word, regs: Regs, mepc: Word, hist: seq<Req>)

  function Dec(m: Machine, q: Arch): Ctrl { m.decode(InstrAt(m.imem, q.pc)) }

  function Size(m: Machine, q: Arch): Word { SizeOf(InstrAt(m.imem, q.pc)) }

  function A(m: Machine, q: Arch): Word { OprA(Dec(m, q), q.pc, q.regs[Dec(m, q).rs1]) }

  function B(m: Machine, q: Arch): Word { OprB(Dec(m, q), q.regs[Dec(m, q).rs2]) }

  function C(m: Machine, q: Arch): Word {
    OprC(Dec(m, q), q.pc, q.regs[Dec(m, q).rs2], q.regs[Dec(m, q).rs3])
  }

  /** Effective address of a load or store. */
  function Addr(m: Machine, q: Arch): Word { Add(A(m, q), B(m, q)) }

  function Fall(m: Machine, q: Arch): Word { Add(q.pc, Size(m, q)) }

  /** The instruction raises a synchronous exception. */
  predicate Traps(m: Machine, q: Arch) {
    var d := Dec(m, q);
    d.illegal || d.op == Ebreak || d.op == Ecall || (d.op.Mem? && AErr(m, d.op, Addr(m, q)))
  }

  /** The exception code of a trapping instruction: illegal instruction, breakpoint, call from
      machine mode, or misaligned load or store. */
  function Cause(m: Machine, q: Arch): nat {
    var d := Dec(m, q);
    if d.illegal then 2 else if d.op == Ebreak then 3 else if d.op == Ecall then 11
    else if d.op.Mem? && d.op.load then 4 else if d.op.Mem? && d.op.store then 6 else 0
  }

  /** The instruction leaves the straight line: a trap, a taken branch, a jump or mret. */
  predicate Redirects(m: Machine, q: Arch) {
    var d := Dec(m, q);
    || Traps(m, q)
    || d.op == Jali || d.op == Jalr || d.op == Mret
    || (d.op.Branch? && m.taken(d.op.cond, A(m, q), B(m, q)))
  }

  /** The pc after an instruction that does not trap. */
  function Target(m: Machine, q: Arch): Word {
    var d := Dec(m, q);
    match d.op
    case Jali => ClearBit0(C(m, q))
    case Jalr => ClearBit0(Addr(m, q))
    case Mret => q.mepc
    case Branch(k) => if m.taken(k, A(m, q), B(m, q)) then ClearBit0(C(m, q)) else Fall(m, q)
    case _ => Fall(m, q)
  }

  function MemReq(m: Machine, q: Arch): Req
    requires Dec(m, q).op.Mem?
  {
    Request(m, Dec(m, q).op, Addr(m, q), C(m, q))
  }

  /** The value that a load at `q` brings back. */
  function Loaded(m: Machine, q: Arch): Word
    requires Dec(m, q).op.Mem?
  {
    var d := Dec(m, q);
    m.extract(d.op, m.strobe(d.op, Addr(m, q)), Addr(m, q), m.answer(q.hist + [MemReq(m, q)]))
  }

  function NextRegs(m: Machine, q: Arch): Regs {
    var d := Dec(m, q);
    match d.op
    case Compute(_, _, wide, _, _, _) =>
      var r := Result(m, d.op, A(m, q), B(m, q), C(m, q));
      Write(q.regs, d.rd, wide, r.0, r.1)
    case Mem(load, _, _, _) => if load then Write(q.regs, d.rd, false, Loaded(m, q), 0) else q.regs
    case Jali => Write(q.regs, d.rd, false, Fall(m, q), 0)
    case Jalr => Write(q.regs, d.rd, false, Fall(m, q), 0)
    case _ => q.regs
  }

  /** Execute the instruction at `q.pc`. A trap saves the pc and goes to the handler. */
  function Step(m: Machine, q: Arch): Arch {
    if Traps(m, q) then q.(pc := m.mtvec, mepc := q.pc)
    else Arch(Target(m, q), NextRegs(m, q), q.mepc,
              if Dec(m, q).op.Mem? then q.hist + [MemReq(m, q)] else q.hist)
  }

  function Iter(m: Machine, q: Arch, n: nat): Arch
    decreases n
  {
    if n == 0 then q else Iter(m, Step(m, q), n - 1)
  }

  lemma {:induction false} IterSnoc(m: Machine, q: Arch, n: nat)
    ensures Iter(m, q, n + 1) == Step(m, Iter(m, q, n))
    decreases n
  {
    hide Step;
    if n > 0 {
      IterSnoc(m, Step(m, q), n - 1);
    }
  }

  // ---------------------------------------------------------------- what the decoder must give

  /** Every operand that an instruction uses is loaded, and only instructions that write a
      register name one. The exception are xc.gather and xc.scatter, memory accesses that are
      neither loads nor stores and write nothing. */
  predicate WellFormed(d: Ctrl) {
    && (d.illegal ==> d.op == Nop)
    && match d.op
       case Compute(_, _, _, a, b, c) => (a ==> d.aSrc != NoA) && (b ==> d.bSrc != NoB) && (c ==> d.cSrc != NoC)
       case Mem(load, store, _, _) =>
         !(load && store) && d.aSrc != NoA && d.bSrc != NoB && (store ==> d.rd == 0 && d.cSrc != NoC)
       case Branch(_) => d.rd == 0 && d.aSrc != NoA && d.bSrc != NoB && d.cSrc != NoC
       case Jali => d.cSrc != NoC
       case Jalr => d.aSrc != NoA && d.bSrc != NoB
       case Nop => !d.illegal ==> d.rd == 0
       case Taken => false
       case NotTaken => false
       case _ => d.rd == 0
  }

  /** The decoder is well formed and ignores the half-word after a compressed instruction, and
      the handler is aligned, as the trap vector register forces it to be. */
  ghost predicate GoodDecoder(m: Machine) {
    && (forall w :: WellFormed(m.decode(w)))
    && (forall w :: m.decode(w) == m.decode(Canonical(w)))
    && Aligned4(m.mtvec)
  }

  /** The access at `q`, if any, is to ordinary memory. */
  predicate NoMmio(m: Machine, q: Arch) {
    var d := Dec(m, q);
    !d.illegal && d.op.Mem? ==> !InMmio(Addr(m, q))
  }

  ghost predicate NeverMmio(m: Machine, q: Arch) {
    forall n: nat :: NoMmio(m, Iter(m, q, n))
  }

  lemma NeverMmioStep(m: Machine, q: Arch)
    requires NeverMmio(m, q)
    ensures NoMmio(m, q) && NeverMmio(m, Step(m, q))
  {
    assert Iter(m, q, 0) == q;
    forall n: nat
      ensures NoMmio(m, Iter(m, Step(m, q), n))
    {
      assert Iter(m, q, n + 1) == Iter(m, Step(m, q), n);
    }
  }

  // ---------------------------------------------------------------- gather and scatter

  /** The micro-op that decode gives xc.gather and xc.scatter. */
  predicate AccessOnly(op: Op) { op.Mem? && !op.load && !op.store }

  /** The instruction reads register `rd`. */
  predicate Reads(d: Ctrl, rd: Reg) { Hazard(d.rs1, rd, false) || Hazard(d.rs2, rd, false) || Hazard(d.rs3, rd, false) }

  /** If `q` executes a gather or scatter, none of the next three instructions on the straight
      line reads the register that its rd field names. */
  predicate Unfed(m: Machine, q: Arch) {
    var rd := Dec(m, q).rd;
    var q1 := Step(m, q);
    var q2 := Step(m, q1);
    AccessOnly(Dec(m, q).op) && !Redirects(m, q) ==>
      && !Reads(Dec(m, q1), rd)
      && (!Redirects(m, q1) ==>
            !Reads(Dec(m, q2), rd) && (!Redirects(m, q2) ==> !Reads(Dec(m, Step(m, q2)), rd)))
  }

  ghost predicate NeverFed(m: Machine, q: Arch) {
    forall n: nat :: Unfed(m, Iter(m, q, n))
  }

  lemma NeverFedStep(m: Machine, q: Arch)
    requires NeverFed(m, q)
    ensures Unfed(m, q) && NeverFed(m, Step(m, q))
  {
    hide Unfed, Step;
    assert Iter(m, q, 0) == q;
    forall n: nat
      ensures Unfed(m, Iter(m, Step(m, q), n))
    {
      assert Iter(m, q, n + 1) == Iter(m, Step(m, q), n);
    }
  }

  /** A program without gather and scatter. */
  lemma NeverFedWithout(m: Machine, q: Arch)
    requires forall w :: !AccessOnly(m.decode(w).op)
    ensures NeverFed(m, q)
  {
    hide Step, Redirects, Reads;
  }

  /** The programs that the results speak of. */
  ghost predicate Supported(m: Machine, q: Arch) { NeverMmio(m, q) && NeverFed(m, q) }

  lemma SupportedStep(m: Machine, q: Arch)
    requires Supported(m, q)
    ensures Supported(m, Step(m, q))
  {
    hide Step, NeverMmio, NeverFed, NoMmio, Unfed;
    NeverMmioStep(m, q);
    NeverFedStep(m, q);
  }
}
