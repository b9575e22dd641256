/** The five-stage pipeline: wires and clock edge (frv_pipeline and its stages, frv_lsu).

    Interrupts and bus errors are absent. Stage k's registers carry the instruction that
    stage k works on; a bubble has size zero and no functional unit. */
module Core {
  import opened Words
  import opened Gprs
  import opened Machine
  import Fetch

  /** Decode to execute. */
  datatype Stage2 = Stage2(op: Op, rd: Reg, trap: bool, size: Word, a: Word, b: Word, c: Word)

  /** Execute to memory. */
  datatype Stage3 = Stage3(op: Op, rd: Reg, trap: bool, size: Word, a: Word, b: Word)

  /** Memory to writeback; `mmio` and `strb` are the low bits of operand A of an access. */
  datatype Stage4 = Stage4(op: Op, rd: Reg, trap: bool, size: Word, a: Word, b: Word, mmio: bool, strb: nat)

  datatype State = State(
    fetch: Fetch.State,
    s2: Stage2, asiDone: bool,
    s3: Stage3, lsuFinished: bool, mmioDone: bool,
    s4: Stage4, pc: Word, cfuDone: bool, rspSeen: bool,   // pc is s4_pc
    regs: Regs, mepc: Word)

  /** One cycle of the outside world: instruction bus, data bus, MMIO read data and the
      completion of the multi-cycle units. */
  datatype Input = Input(
    iGnt: bool, iRecv: bool, iRdata: Instr,
    dGnt: bool, dRecv: bool, dRdata: Word,
    mmioRdata: Word, mulReady: bool, asiReady: bool)

  // ---------------------------------------------------------------- writeback wires

  predicate CfTaken(s: State) { s.s4.op == Taken || s.s4.op == Jali || s.s4.op == Jalr }

  predicate CfTrap(s: State) { s.s4.op == Ebreak || s.s4.op == Ecall }

  predicate CfReq(s: State) { CfTaken(s) || CfTrap(s) || s.s4.op == Mret || s.s4.trap }

  predicate TrapCpu(s: State) { CfTrap(s) || s.s4.trap }

  /** trap_cause: a trap raised before writeback has left its code in the rd field. */
  function TrapCause(s: State): nat {
    if s.s4.op == Ebreak then 3 else if s.s4.op == Ecall then 11 else s.s4.rd
  }

  function CfTarget(m: Machine, s: State): Word {
    if TrapCpu(s) then m.mtvec
    else if CfTaken(s) then s.s4.a
    else if s.s4.op == Mret then s.mepc
    else 0
  }

  predicate CfAck(s: State, i: Input) { !s.fetch.imemReq || i.iGnt }

  /** cf_req && cf_ack: redirect the fetch stage and flush every pipeline register. */
  predicate Flush(s: State, i: Input) { CfReq(s) && CfAck(s, i) }

  predicate LsuExpected(s: State) { s.s4.op.Mem? && !s.rspSeen && !s.s4.mmio }

  /** dmem_recv && dmem_ack */
  predicate DataAccepted(s: State, i: Input) { i.dRecv && LsuExpected(s) }

  predicate LsuBusy4(s: State, i: Input) {
    s.s4.op.Mem? && !(s.rspSeen || DataAccepted(s, i) || s.s4.mmio)
  }

  predicate CfuBusy(s: State, i: Input) {
    && !(s.cfuDone || Flush(s, i))
    && (CfTaken(s) || CfTrap(s) || s.s4.op == Mret)
  }

  predicate Busy4(s: State, i: Input) {
    CfuBusy(s, i) || (CfReq(s) && !CfAck(s, i)) || LsuBusy4(s, i)
  }

  predicate HoldLsuReq(s: State, i: Input) { CfReq(s) || LsuBusy4(s, i) }

  predicate LoadWrites(s: State, i: Input) {
    && s.s4.op.Mem? && s.s4.op.load
    && (DataAccepted(s, i) || s.s4.mmio) && !s.rspSeen
  }

  predicate GprWen(s: State, i: Input) {
    && !s.s4.trap
    && (s.s4.op.Compute? || LoadWrites(s, i) || s.s4.op == Jali || s.s4.op == Jalr)
  }

  function GprWdata(m: Machine, s: State, i: Input): Word {
    if s.s4.op.Compute? then s.s4.a
    else if LoadWrites(s, i) then m.extract(s.s4.op, s.s4.strb, s.s4.b, if s.s4.mmio then i.mmioRdata else i.dRdata)
    else if s.s4.op == Jali || s.s4.op == Jalr then Add(s.pc, s.s4.size)
    else 0
  }

  predicate Wide(op: Op) { op.Compute? && op.wide }

  predicate IsLoad(op: Op) { op.Mem? && op.load }

  // ---------------------------------------------------------------- memory stage wires

  predicate Mmio3(s: State) { s.s3.op.Mem? && InMmio(s.s3.a) }

  predicate MmioEn(s: State, i: Input) { Mmio3(s) && !s.mmioDone && !HoldLsuReq(s, i) }

  predicate DmemReq(m: Machine, s: State, i: Input) {
    s.s3.op.Mem? && !s.lsuFinished && !AErr(m, s.s3.op, s.s3.a) && !HoldLsuReq(s, i) && !Mmio3(s)
  }

  predicate DmemGranted(m: Machine, s: State, i: Input) { DmemReq(m, s, i) && i.dGnt }

  predicate LsuTxnDone(m: Machine, s: State, i: Input) { DmemGranted(m, s, i) || MmioEn(s, i) }

  predicate Busy3(m: Machine, s: State, i: Input) {
    Busy4(s, i) || (s.s3.op.Mem? && !(LsuTxnDone(m, s, i) || s.lsuFinished))
  }

  // ---------------------------------------------------------------- execute wires

  predicate Busy2(m: Machine, s: State, i: Input) {
    || Busy3(m, s, i)
    || (s.s2.op.Compute? && s.s2.op.unit == Asi && !(i.asiReady || s.asiDone))
    || (s.s2.op.Compute? && s.s2.op.unit == Mul && !i.mulReady)
  }

  function Result2(m: Machine, s2: Stage2): (Word, Word)
    requires s2.op.Compute?
  {
    Result(m, s2.op, s2.a, s2.b, s2.c)
  }

  /** n_s3_opr_a, which is also what execute forwards. */
  function ExecA(m: Machine, s2: Stage2): Word {
    match s2.op
    case Compute(_, _, _, _, _, _) => Result2(m, s2).0
    case Mem(_, _, _, _) => Add(s2.a, s2.b)
    case Jalr => ClearBit0(Add(s2.a, s2.b))
    case Nop => 0
    case _ => ClearBit0(s2.c)
  }

  /** n_s3_opr_b */
  function ExecB(m: Machine, s2: Stage2): Word {
    if s2.trap then s2.rd
    else match s2.op
      case Compute(_, _, _, _, _, _) => Result2(m, s2).1
      case Mem(_, _, _, _) => s2.c
      case _ => 0
  }

  /** Upper half of the result that execute forwards. */
  function ExecHi(m: Machine, s2: Stage2): Word {
    if s2.op.Compute? then Result2(m, s2).1 else 0
  }

  /** A conditional branch is resolved in execute. */
  function ExecOp(m: Machine, s2: Stage2): Op {
    if s2.op.Branch? then (if m.taken(s2.op.cond, s2.a, s2.b) then Taken else NotTaken) else s2.op
  }

  // ---------------------------------------------------------------- decode and forwarding

  predicate S1Valid(s: State) { Fetch.S1Valid(s.fetch) }

  function D(m: Machine, s: State): Ctrl { m.decode(Fetch.BufOut(s.fetch.buf)) }

  predicate Depends(d: Ctrl, rd: Reg, wide: bool) {
    Hazard(d.rs1, rd, wide) || Hazard(d.rs2, rd, wide) || Hazard(d.rs3, rd, wide)
  }

  predicate BubbleFrom2(m: Machine, s: State) { IsLoad(s.s2.op) && Depends(D(m, s), s.s2.rd, Wide(s.s2.op)) }

  predicate BubbleFrom3(m: Machine, s: State) { IsLoad(s.s3.op) && Depends(D(m, s), s.s3.rd, Wide(s.s3.op)) }

  predicate BubbleFrom4(m: Machine, s: State) { IsLoad(s.s4.op) && Depends(D(m, s), s.s4.rd, Wide(s.s4.op)) }

  predicate Bubble(m: Machine, s: State, i: Input) {
    || (!S1Valid(s) && !Busy2(m, s, i))
    || BubbleFrom2(m, s) || BubbleFrom3(m, s) || BubbleFrom4(m, s)
  }

  predicate Busy1(m: Machine, s: State, i: Input) { Busy2(m, s, i) || Bubble(m, s, i) }

  /** The value decode captures for source register `r`. */
  function Forward(m: Machine, s: State, i: Input, r: Reg): Word {
    if Hazard(r, s.s2.rd, Wide(s.s2.op)) then Pick(r, Wide(s.s2.op), ExecA(m, s.s2), ExecHi(m, s.s2))
    else if Hazard(r, s.s3.rd, Wide(s.s3.op)) then Pick(r, Wide(s.s3.op), s.s3.a, s.s3.b)
    else if Hazard(r, s.s4.rd, Wide(s.s4.op)) then Pick(r, Wide(s.s4.op), GprWdata(m, s, i), s.s4.b)
    else s.regs[r]
  }

  // ---------------------------------------------------------------- handshakes

  /** s2_valid, s3_valid and s4_valid: the plain pipeline register passes them through. */
  predicate Valid2(m: Machine, s: State, i: Input) { S1Valid(s) || Bubble(m, s, i) }

  predicate Valid3(m: Machine, s: State, i: Input) { Valid2(m, s, i) && !Busy2(m, s, i) }

  predicate Valid4(m: Machine, s: State, i: Input) { Valid3(m, s, i) && !Busy3(m, s, i) }

  predicate Progress2(m: Machine, s: State, i: Input) { Valid2(m, s, i) && !Busy2(m, s, i) }

  predicate Progress3(m: Machine, s: State, i: Input) { Valid3(m, s, i) && !Busy3(m, s, i) }

  predicate Progress4(m: Machine, s: State, i: Input) { Valid4(m, s, i) && !Busy4(s, i) }

  // ---------------------------------------------------------------- clock edge

  function FetchInput(m: Machine, s: State, i: Input): Fetch.Input {
    Fetch.Input(CfReq(s), CfTarget(m, s), i.iGnt, i.iRecv, i.iRdata, Busy1(m, s, i))
  }

  function Next2(m: Machine, s: State, i: Input): Stage2 {
    var d := D(m, s);
    var load := Progress2(m, s, i);
    var a := if load && d.aSrc != NoA then OprA(d, s.fetch.pc, Forward(m, s, i, d.rs1)) else s.s2.a;
    var b := if load && d.bSrc != NoB then OprB(d, Forward(m, s, i, d.rs2)) else s.s2.b;
    var c := if load && d.cSrc != NoC
             then OprC(d, s.fetch.pc, Forward(m, s, i, d.rs2), Forward(m, s, i, d.rs3)) else s.s2.c;
    if Flush(s, i) || (load && Bubble(m, s, i)) then Stage2(Nop, 0, false, 0, a, b, c)
    else if load then
      Stage2(d.op, if d.illegal && S1Valid(s) then 2 else d.rd, d.illegal && S1Valid(s),
             SizeOf(Fetch.BufOut(s.fetch.buf)), a, b, c)
    else Stage2(s.s2.op, s.s2.rd, s.s2.trap, s.s2.size, a, b, c)
  }

  function Next3(m: Machine, s: State, i: Input): Stage3 {
    var load := Progress2(m, s, i) && !Busy3(m, s, i);
    var a := if load && s.s2.op != Nop then ExecA(m, s.s2) else s.s3.a;
    var b := if load && (Wide(s.s2.op) || (s.s2.op.Mem? && s.s2.op.store)) then ExecB(m, s.s2) else s.s3.b;
    if Flush(s, i) then Stage3(Nop, 0, false, 0, a, b)
    else if load then Stage3(ExecOp(m, s.s2), s.s2.rd, s.s2.trap, s.s2.size, a, b)
    else Stage3(s.s3.op, s.s3.rd, s.s3.trap, s.s3.size, a, b)
  }

  function Next4(m: Machine, s: State, i: Input): Stage4 {
    var load := Progress3(m, s, i) && !Busy4(s, i);
    var mem := s.s3.op.Mem?;
    var err := mem && AErr(m, s.s3.op, s.s3.a);
    var a := if load && s.s3.op != Nop && !mem then s.s3.a else s.s4.a;
    var mmio := if load && mem then Mmio3(s) else s.s4.mmio;
    var strb := if load && mem then m.strobe(s.s3.op, s.s3.a) else s.s4.strb;
    var b := if load && mem then s.s3.a else if load && Wide(s.s3.op) then s.s3.b else s.s4.b;
    if Flush(s, i) then Stage4(Nop, 0, false, 0, a, b, mmio, strb)
    else if load then
      var rd := if s.s3.trap || !err then s.s3.rd else if s.s3.op.load then 4 else if s.s3.op.store then 6 else 0;
      Stage4(s.s3.op, rd, s.s3.trap || err, s.s3.size, a, b, mmio, strb)
    else Stage4(s.s4.op, s.s4.rd, s.s4.trap, s.s4.size, a, b, mmio, strb)
  }

  predicate NextAsiDone(m: Machine, s: State, i: Input) {
    (s.asiDone || (s.s2.op.Compute? && s.s2.op.unit == Asi && i.asiReady)) && !Progress2(m, s, i)
  }

  predicate NextLsuFinished(m: Machine, s: State, i: Input) {
    && (s.lsuFinished || (s.s3.op.Mem? && LsuTxnDone(m, s, i)) || AErr(m, s.s3.op, s.s3.a))
    && !Progress3(m, s, i)
  }

  predicate NextMmioDone(m: Machine, s: State, i: Input) {
    (s.mmioDone || MmioEn(s, i)) && !Progress3(m, s, i)
  }

  predicate NextCfuDone(m: Machine, s: State, i: Input) {
    !Progress4(m, s, i) && (s.cfuDone || Flush(s, i))
  }

  predicate NextRspSeen(m: Machine, s: State, i: Input) {
    !Progress4(m, s, i) && (s.rspSeen || (s.s4.op.Mem? && s.s4.mmio) || DataAccepted(s, i))
  }

  function NextPc(m: Machine, s: State, i: Input): Word {
    if Flush(s, i) then CfTarget(m, s) else if Progress4(m, s, i) then Add(s.pc, s.s4.size) else s.pc
  }

  function NextMepc(s: State): Word { if TrapCpu(s) then ClearBit0(s.pc) else s.mepc }

  function NextGprs(m: Machine, s: State, i: Input): Regs {
    if GprWen(s, i) then Write(s.regs, s.s4.rd, Wide(s.s4.op), GprWdata(m, s, i), s.s4.b) else s.regs
  }

  function Next(m: Machine, s: State, i: Input): State {
    State(
      Fetch.Next(s.fetch, FetchInput(m, s, i)),
      Next2(m, s, i), NextAsiDone(m, s, i),
      Next3(m, s, i), NextLsuFinished(m, s, i), NextMmioDone(m, s, i),
      Next4(m, s, i), NextPc(m, s, i), NextCfuDone(m, s, i), NextRspSeen(m, s, i),
      NextGprs(m, s, i), NextMepc(s))
  }

  /** trs_valid: an instruction leaves the pipeline. */
  predicate Retires(m: Machine, s: State, i: Input) {
    s.s4.size != 0 && (Progress4(m, s, i) || (Flush(s, i) && !s.cfuDone))
  }

  function Reset(pc: Word, regs: Regs): State {
    State(
      Fetch.Reset(pc),
      Stage2(Nop, 0, false, 0, 0, 0, 0), false,
      Stage3(Nop, 0, false, 0, 0, 0), false, false,
      Stage4(Nop, 0, false, 0, 0, 0, false, 0), pc, false, false,
      regs, 0)
  }

  // ---------------------------------------------------------------- environment

  /** The memories: fetches pending, the history of data requests, answers not yet taken. */
  datatype Env = Env(pending: Fetch.Pending, hist: seq<Req>, answers: seq<Word>)

  function DmemRequest(m: Machine, s: State): Req
    requires s.s3.op.Mem?
  {
    Request(m, s.s3.op, s.s3.a, s.s3.b)
  }

  function NextEnv(m: Machine, s: State, i: Input, e: Env): Env {
    var hist := if DmemGranted(m, s, i) then e.hist + [DmemRequest(m, s)] else e.hist;
    Env(
      Fetch.NextPending(s.fetch, FetchInput(m, s, i), e.pending),
      hist,
      (if DataAccepted(s, i) && e.answers != [] then e.answers[1..] else e.answers)
      + (if DmemGranted(m, s, i) then [m.answer(hist)] else []))
  }

  /** Both memories answer granted requests only, in order, and at most seven fetches are
      unanswered whenever a redirect is accepted. */
  predicate Fair(m: Machine, s: State, i: Input, e: Env) {
    && Fetch.Answers(m.imem, FetchInput(m, s, i), e.pending)
    && Fetch.RedirectInTime(s.fetch, FetchInput(m, s, i), e.pending)
    && (i.dRecv ==> e.answers != [] && i.dRdata == e.answers[0])
  }
}
