/** The pipeline refines the sequential machine. */
module Refinement {
  import opened Words
  import opened Gprs
  import opened Machine
  import Fetch
  import opened Core

  // ---------------------------------------------------------------- stage contents

  /** The micro-op after branch resolution. */
  function Resolved(m: Machine, q: Arch): Op {
    var d := Dec(m, q);
    if d.op.Branch? then (if m.taken(d.op.cond, A(m, q), B(m, q)) then Taken else NotTaken) else d.op
  }

  function Outcome(m: Machine, q: Arch): (Word, Word)
    requires Dec(m, q).op.Compute?
  {
    Result(m, Dec(m, q).op, A(m, q), B(m, q), C(m, q))
  }

  /** Stage 2 holds the instruction at `q`, with the operands that it uses. */
  predicate Match2(m: Machine, s: Stage2, q: Arch) {
    var d := Dec(m, q);
    && s.op == d.op && s.trap == d.illegal && s.size == Size(m, q)
    && s.rd == (if d.illegal then Cause(m, q) else d.rd)
    && (d.aSrc != NoA ==> s.a == A(m, q))
    && (d.bSrc != NoB ==> s.b == B(m, q))
    && (d.cSrc != NoC ==> s.c == C(m, q))
  }

  /** Stage 3 holds the instruction at `q` and its result or effective address. */
  predicate Match3(m: Machine, s: Stage3, q: Arch) {
    var d := Dec(m, q);
    && s.op == Resolved(m, q) && s.trap == d.illegal && s.size == Size(m, q)
    && s.rd == (if d.illegal then Cause(m, q) else d.rd)
    && match d.op
       case Compute(_, _, wide, _, _, _) =>
         s.a == Outcome(m, q).0 && (wide ==> s.b == Outcome(m, q).1)
       case Mem(_, store, _, _) => s.a == Addr(m, q) && (store ==> s.b == C(m, q))
       case Branch(_) => s.a == ClearBit0(C(m, q))
       case Jali => s.a == Target(m, q)
       case Jalr => s.a == Target(m, q)
       case _ => true
  }

  /** Stage 4 holds the instruction at `q`, ready to be committed. */
  predicate Match4(m: Machine, s: Stage4, q: Arch) {
    var d := Dec(m, q);
    && s.op == Resolved(m, q) && s.size == Size(m, q)
    && s.trap == (d.illegal || (d.op.Mem? && AErr(m, d.op, Addr(m, q))))
    && s.rd == (if s.trap then Cause(m, q) else d.rd)
    && match d.op
       case Compute(_, _, wide, _, _, _) =>
         s.a == Outcome(m, q).0 && (wide ==> s.b == Outcome(m, q).1)
       case Mem(_, _, _, _) => s.b == Addr(m, q) && !s.mmio && s.strb == m.strobe(d.op, Addr(m, q))
       case Branch(_) => s.a == ClearBit0(C(m, q))
       case Jali => s.a == Target(m, q)
       case Jalr => s.a == Target(m, q)
       case _ => true
  }

  // ---------------------------------------------------------------- invariant

  predicate IsBubble(op: Op, rd: Reg, trap: bool) { op == Nop && rd == 0 && !trap }

  /** The architectural state after the instruction at `q`, if the stage holds one. */
  function Past(m: Machine, size: Word, q: Arch): Arch { if size == 0 then q else Step(m, q) }

  predicate Leaves(m: Machine, size: Word, q: Arch) { size != 0 && Redirects(m, q) }

  /** Stage 4 waits for the answer to its access. */
  predicate Waiting4(s: State) { s.s4.size != 0 && s.s4.op.Mem? && !s.s4.trap && !s.rspSeen }

  /** The access of stage 3 has been granted. */
  predicate Granted3(m: Machine, s: State, q: Arch) {
    && !Leaves(m, s.s4.size, q)
    && s.s3.size != 0 && s.s3.op.Mem? && !AErr(m, s.s3.op, s.s3.a) && s.lsuFinished
  }

  /** decode's program counter is s4_pc plus the sizes of what is in flight. */
  predicate PcConserved(s: State) {
    s.fetch.pc == Add(Add(Add(s.pc, s.s4.size), s.s3.size), s.s2.size)
  }

  predicate Bubbles(s: State) {
    && (s.s2.size == 0 ==> IsBubble(s.s2.op, s.s2.rd, s.s2.trap))
    && (s.s3.size == 0 ==> IsBubble(s.s3.op, s.s3.rd, s.s3.trap))
    && (s.s4.size == 0 ==> IsBubble(s.s4.op, s.s4.rd, s.s4.trap))
  }

  /** The instruction being committed has written the register file, or not yet. */
  predicate RegsOk(m: Machine, s: State, q: Arch) {
    && (s.regs == q.regs || (s.s4.size != 0 && s.regs == Step(m, q).regs))
    && (s.s4.size != 0 && s.s4.op.Mem? && !s.s4.trap ==>
          s.regs == if s.rspSeen then Step(m, q).regs else q.regs)
  }

  predicate MepcOk(m: Machine, s: State, q: Arch) {
    s.mepc == q.mepc || (s.s4.size != 0 && s.mepc == Step(m, q).mepc)
  }

  /** Requests and answers are those of the sequential machine. */
  predicate DataOk(m: Machine, s: State, e: Env, q: Arch) {
    var q3 := Past(m, s.s4.size, q);
    && !(Waiting4(s) && Granted3(m, s, q))
    && e.hist == (if Granted3(m, s, q) then Step(m, q3).hist else q3.hist)
    && e.answers == (if Waiting4(s) then [m.answer(q3.hist)]
                     else if Granted3(m, s, q) then [m.answer(Step(m, q3).hist)] else [])
  }

  /** Stages 3 and 2 hold the next instructions, up to one that leaves the straight line. */
  predicate YoungerOk(m: Machine, s: State, q: Arch) {
    var q3 := Past(m, s.s4.size, q);
    var q2 := Past(m, s.s3.size, q3);
    !Leaves(m, s.s4.size, q) ==>
      && (s.s3.size != 0 ==> Match3(m, s.s3, q3))
      && (!Leaves(m, s.s3.size, q3) && s.s2.size != 0 ==> Match2(m, s.s2, q2))
  }

  /** Relation between the pipeline and the architectural state `q` before the instruction
      in writeback. */
  ghost predicate Inv(m: Machine, s: State, e: Env, q: Arch) {
    && Fetch.Inv(m.imem, s.fetch, e.pending)
    && s.pc == q.pc && Aligned2(q.pc) && Aligned2(q.mepc)
    && PcConserved(s) && Bubbles(s)
    && (s.cfuDone ==> s.s4.size == 0)
    && (s.rspSeen ==> s.s4.op.Mem? && !s.s4.trap)
    && (s.s4.size != 0 ==> Match4(m, s.s4, q))
    && RegsOk(m, s, q)
    && MepcOk(m, s, q)
    && DataOk(m, s, e, q)
    && YoungerOk(m, s, q)
  }

  // ---------------------------------------------------------------- lock step

  /** The three stages behind decode shift together or not at all. */
  lemma LockStep(m: Machine, s: State, i: Input)
    ensures Progress2(m, s, i) <==> !Busy2(m, s, i)
    ensures Progress3(m, s, i) <==> !Busy2(m, s, i)
    ensures Progress4(m, s, i) <==> !Busy2(m, s, i)
  {
  }

  // ---------------------------------------------------------------- writeback

  lemma TargetsAligned(m: Machine, q: Arch)
    requires GoodDecoder(m) && Aligned2(q.pc) && Aligned2(q.mepc)
    ensures Aligned2(Step(m, q).pc) && Aligned2(Step(m, q).mepc)
  {
    Aligned2Plus2(q.pc);
    ClearBit0Even(C(m, q));
    ClearBit0Even(Addr(m, q));
    Aligned4Plus4(m.mtvec);
  }

  /** Writeback asks for a redirect exactly when the sequential machine leaves the straight
      line, and to the same place. */
  lemma RedirectsAgree(m: Machine, s: State, e: Env, q: Arch)
    requires GoodDecoder(m) && Inv(m, s, e, q)
    ensures CfReq(s) <==> Leaves(m, s.s4.size, q)
    ensures CfReq(s) ==> CfTarget(m, s) == Step(m, q).pc
    ensures !CfReq(s) && s.s4.size != 0 ==> Step(m, q).pc == Add(s.pc, s.s4.size)
    ensures !CfReq(s) && s.s4.size != 0 ==> Step(m, q).mepc == q.mepc
  {
    var d := Dec(m, q);
    assert WellFormed(d);
  }

  /** The answer consumed by writeback is the one its load asked for. */
  lemma AnswerIsOwn(m: Machine, s: State, i: Input, e: Env, q: Arch)
    requires Inv(m, s, e, q) && Fair(m, s, i, e)
    requires DataAccepted(s, i)
    ensures s.s4.size != 0 && Waiting4(s)
    ensures i.dRdata == m.answer(Step(m, q).hist)
  {
  }

  /** A load writes the register file in the cycle in which its answer is taken. */
  lemma LoadWrite(m: Machine, s: State, i: Input, q: Arch)
    requires Match4(m, s.s4, q) && IsLoad(s.s4.op) && !s.s4.trap
    requires RegsOk(m, s, q) && s.s4.size != 0
    requires DataAccepted(s, i) ==> i.dRdata == m.answer(Step(m, q).hist)
    ensures Next(m, s, i).regs == if s.rspSeen || DataAccepted(s, i) then Step(m, q).regs else q.regs
  {
    if DataAccepted(s, i) {
      assert Step(m, q).hist == q.hist + [MemReq(m, q)];
      assert GprWdata(m, s, i) == Loaded(m, q);
    }
  }

  /** Every other instruction writes the same value in each cycle that it spends in writeback. */
  lemma PlainWrite(m: Machine, s: State, i: Input, q: Arch)
    requires WellFormed(Dec(m, q)) && Match4(m, s.s4, q) && (s.s4.trap || !IsLoad(s.s4.op))
    requires RegsOk(m, s, q) && s.s4.size != 0 && s.pc == q.pc
    ensures Next(m, s, i).regs == Step(m, q).regs
  {
    var d := Dec(m, q);
    if GprWen(s, i) {
      WriteTwice(q.regs, d.rd, Wide(d.op), GprWdata(m, s, i), s.s4.b);
    }
  }

  /** What the write port does in one cycle. */
  lemma WriteEffect(m: Machine, s: State, i: Input, e: Env, q: Arch)
    requires GoodDecoder(m) && Inv(m, s, e, q) && Fair(m, s, i, e)
    ensures var r' := Next(m, s, i).regs;
      if s.s4.size == 0 then r' == q.regs
      else if IsLoad(s.s4.op) && !s.s4.trap then
        r' == if s.rspSeen || DataAccepted(s, i) then Step(m, q).regs else q.regs
      else r' == Step(m, q).regs
  {
    if s.s4.size != 0 {
      if IsLoad(s.s4.op) && !s.s4.trap {
        if DataAccepted(s, i) {
          AnswerIsOwn(m, s, i, e, q);
        }
        LoadWrite(m, s, i, q);
      } else {
        assert WellFormed(Dec(m, q));
        PlainWrite(m, s, i, q);
      }
    }
  }

  // ---------------------------------------------------------------- data bus

  lemma NoMmioAhead(m: Machine, q: Arch, size: Word)
    requires NeverMmio(m, q)
    ensures NoMmio(m, Past(m, size, q)) && NeverMmio(m, Past(m, size, q))
  {
    NeverMmioStep(m, q);
    NeverMmioStep(m, Step(m, q));
  }

  /** A request is made only on behalf of the instruction that the sequential machine
      executes next, and it is that instruction's request. */
  lemma RequestIsNext(m: Machine, s: State, i: Input, e: Env, q: Arch)
    requires GoodDecoder(m) && Inv(m, s, e, q) && NeverMmio(m, q)
    ensures !MmioEn(s, i)
    ensures var q3 := Past(m, s.s4.size, q);
      DmemReq(m, s, i) ==>
        && !Leaves(m, s.s4.size, q) && s.s3.size != 0 && !Leaves(m, s.s3.size, q3)
        && !Waiting4(s.(rspSeen := s.rspSeen || DataAccepted(s, i)))
        && Step(m, q3).hist == q3.hist + [DmemRequest(m, s)]
  {
    RedirectsAgree(m, s, e, q);
    NoMmioAhead(m, q, s.s4.size);
    assert WellFormed(Dec(m, Past(m, s.s4.size, q)));
  }

  lemma HoldData(m: Machine, s: State, i: Input, e: Env, q: Arch)
    requires GoodDecoder(m) && Inv(m, s, e, q) && Fair(m, s, i, e) && NeverMmio(m, q)
    requires Busy2(m, s, i) && !Flush(s, i)
    ensures DataOk(m, Next(m, s, i), NextEnv(m, s, i, e), q)
  {
    LockStep(m, s, i);
    RequestIsNext(m, s, i, e, q);
    var s', e' := Next(m, s, i), NextEnv(m, s, i, e);
    assert s'.s4 == s.s4 && s'.s3 == s.s3;
    assert s'.rspSeen <==> s.rspSeen || DataAccepted(s, i);
    assert Granted3(m, s', q) <==> Granted3(m, s, q) || DmemGranted(m, s, i);
  }

  // ---------------------------------------------------------------- the three kinds of cycle

  /** While the pipeline holds, only the write port, the data bus and the fetch stage move. */
  lemma HoldStep(m: Machine, s: State, i: Input, e: Env, q: Arch)
    requires GoodDecoder(m) && Inv(m, s, e, q) && Fair(m, s, i, e) && NeverMmio(m, q)
    requires Busy2(m, s, i) && !Flush(s, i)
    ensures Inv(m, Next(m, s, i), NextEnv(m, s, i, e), q)
  {
    LockStep(m, s, i);
    RedirectsAgree(m, s, e, q);
    TargetsAligned(m, q);
    WriteEffect(m, s, i, e, q);
    HoldData(m, s, i, e, q);
    Fetch.StepKeepsInv(m.imem, s.fetch, FetchInput(m, s, i), e.pending);
    var s' := Next(m, s, i);
    assert s'.s4 == s.s4 && s'.s3 == s.s3 && s'.s2 == s.s2;
    assert s'.fetch.pc == s.fetch.pc;
  }

  /** Everything on the data bus belongs to the instruction that redirects or an older one. */
  lemma FlushData(m: Machine, s: State, i: Input, e: Env, q: Arch)
    requires GoodDecoder(m) && Inv(m, s, e, q) && Fair(m, s, i, e) && NeverMmio(m, q)
    requires Flush(s, i)
    ensures NextEnv(m, s, i, e).hist == Step(m, q).hist
    ensures NextEnv(m, s, i, e).answers == [] && !Next(m, s, i).rspSeen
  {
    RedirectsAgree(m, s, e, q);
    RequestIsNext(m, s, i, e, q);
  }

  /** After a redirect the pipeline is empty and every program counter is at the target. */
  lemma FlushEmpties(m: Machine, s: State, i: Input, e: Env, q: Arch)
    requires GoodDecoder(m) && Inv(m, s, e, q) && Flush(s, i)
    ensures var s' := Next(m, s, i);
      && Bubbles(s') && s'.s2.size == s'.s3.size == s'.s4.size == 0
      && s'.pc == s'.fetch.pc == CfTarget(m, s)
      && s'.fetch == Fetch.Next(s.fetch, FetchInput(m, s, i))
      && s'.mepc == (if TrapCpu(s) then ClearBit0(s.pc) else s.mepc)
  {
    hide Fetch.Inv, DataOk, RegsOk, YoungerOk, Match4, Step, Redirects, Traps;
  }

  /** A redirect commits the instruction in writeback and discards everything younger. */
  lemma FlushStep(m: Machine, s: State, i: Input, e: Env, q: Arch)
    requires GoodDecoder(m) && Inv(m, s, e, q) && Fair(m, s, i, e) && NeverMmio(m, q)
    requires Flush(s, i)
    ensures Inv(m, Next(m, s, i), NextEnv(m, s, i, e), Step(m, q))
    ensures Retires(m, s, i)
  {
    hide Next, Next2, Next3, Next4, DmemReq, Request;
    RedirectsAgree(m, s, e, q);
    TargetsAligned(m, q);
    ClearBit0Even(q.pc);
    WriteEffect(m, s, i, e, q);
    FlushData(m, s, i, e, q);
    FlushEmpties(m, s, i, e, q);
    Fetch.StepKeepsInv(m.imem, s.fetch, FetchInput(m, s, i), e.pending);
  }

  // ---------------------------------------------------------------- forwarding

  /** Operations that have nothing to forward: loads, and the accesses that write nothing. */
  predicate Resultless(op: Op) { op.Mem? && !op.store }

  /** Writeback's contribution to the register file. */
  lemma Forward4(m: Machine, s: State, i: Input, e: Env, q: Arch, r: Reg)
    requires GoodDecoder(m) && Inv(m, s, e, q)
    requires !Leaves(m, s.s4.size, q)
    requires !(Resultless(s.s4.op) && Hazard(r, s.s4.rd, Wide(s.s4.op)))
    ensures Past(m, s.s4.size, q).regs[r] ==
            if Hazard(r, s.s4.rd, Wide(s.s4.op)) then Pick(r, Wide(s.s4.op), GprWdata(m, s, i), s.s4.b) else s.regs[r]
  {
    var d := Dec(m, q);
    assert WellFormed(d);
    if s.s4.size != 0 {
      if d.op.Compute? {
        HazardIsWrite(q.regs, r, d.rd, Wide(d.op), Outcome(m, q).0, Outcome(m, q).1);
      } else if IsLoad(d.op) {
        HazardIsWrite(q.regs, r, d.rd, false, Loaded(m, q), 0);
      }
    }
  }

  lemma Forward3(m: Machine, s: Stage3, q: Arch, r: Reg)
    requires WellFormed(Dec(m, q)) && !Leaves(m, s.size, q)
    requires if s.size == 0 then IsBubble(s.op, s.rd, s.trap) else Match3(m, s, q)
    requires !(Resultless(s.op) && Hazard(r, s.rd, Wide(s.op)))
    ensures Past(m, s.size, q).regs[r] ==
            if Hazard(r, s.rd, Wide(s.op)) then Pick(r, Wide(s.op), s.a, s.b) else q.regs[r]
  {
    var d := Dec(m, q);
    if s.size != 0 {
      if d.op.Compute? {
        HazardIsWrite(q.regs, r, d.rd, Wide(d.op), Outcome(m, q).0, Outcome(m, q).1);
      } else if IsLoad(d.op) {
        HazardIsWrite(q.regs, r, d.rd, false, Loaded(m, q), 0);
      }
    }
  }

  lemma Forward2(m: Machine, s: Stage2, q: Arch, r: Reg)
    requires WellFormed(Dec(m, q)) && !Leaves(m, s.size, q)
    requires if s.size == 0 then IsBubble(s.op, s.rd, s.trap) else Match2(m, s, q)
    requires !(Resultless(s.op) && Hazard(r, s.rd, Wide(s.op)))
    ensures Past(m, s.size, q).regs[r] ==
            if Hazard(r, s.rd, Wide(s.op)) then Pick(r, Wide(s.op), ExecA(m, s), ExecHi(m, s)) else q.regs[r]
  {
    var d := Dec(m, q);
    if s.size != 0 {
      if d.op.Compute? {
        HazardIsWrite(q.regs, r, d.rd, Wide(d.op), Outcome(m, q).0, Outcome(m, q).1);
      } else if IsLoad(d.op) {
        HazardIsWrite(q.regs, r, d.rd, false, Loaded(m, q), 0);
      }
    }
  }

  /** No instruction in flight leaves the straight line. */
  predicate StraightLine(m: Machine, s: State, q: Arch) {
    var q3 := Past(m, s.s4.size, q);
    && !Leaves(m, s.s4.size, q)
    && !Leaves(m, s.s3.size, q3)
    && !Leaves(m, s.s2.size, Past(m, s.s3.size, q3))
  }

  /** The architectural state that the next instruction to leave decode must see. */
  function Ahead(m: Machine, s: State, q: Arch): Arch {
    Past(m, s.s2.size, Past(m, s.s3.size, Past(m, s.s4.size, q)))
  }

  predicate LoadHazard(s: State, r: Reg) {
    || (IsLoad(s.s2.op) && Hazard(r, s.s2.rd, Wide(s.s2.op)))
    || (IsLoad(s.s3.op) && Hazard(r, s.s3.rd, Wide(s.s3.op)))
    || (IsLoad(s.s4.op) && Hazard(r, s.s4.rd, Wide(s.s4.op)))
  }

  /** A gather or scatter in flight names the register in its rd field. */
  predicate AccessHazard(s: State, r: Reg) {
    || (AccessOnly(s.s2.op) && Hazard(r, s.s2.rd, Wide(s.s2.op)))
    || (AccessOnly(s.s3.op) && Hazard(r, s.s3.rd, Wide(s.s3.op)))
    || (AccessOnly(s.s4.op) && Hazard(r, s.s4.rd, Wide(s.s4.op)))
  }

  /** A forwarded operand is what the register file holds once all older instructions have
      completed. */
  lemma ForwardingCorrect(m: Machine, s: State, i: Input, e: Env, q: Arch, r: Reg)
    requires GoodDecoder(m) && Inv(m, s, e, q)
    requires StraightLine(m, s, q) && !LoadHazard(s, r) && !AccessHazard(s, r)
    ensures Forward(m, s, i, r) == Ahead(m, s, q).regs[r]
  {
    var q3 := Past(m, s.s4.size, q);
    var q2 := Past(m, s.s3.size, q3);
    assert WellFormed(Dec(m, q3)) && WellFormed(Dec(m, q2));
    Forward4(m, s, i, e, q, r);
    Forward3(m, s.s3, q3, r);
    Forward2(m, s.s2, q2, r);
  }

  lemma StraightOn(m: Machine, size: Word, q: Arch)
    requires !Leaves(m, size, q)
    requires size != 0 ==> size == Size(m, q)
    ensures Past(m, size, q).pc == Add(q.pc, size)
  {
    hide NextRegs, Request;
  }

  lemma AheadPc(m: Machine, s: State, e: Env, q: Arch)
    requires GoodDecoder(m) && Inv(m, s, e, q) && StraightLine(m, s, q)
    ensures Ahead(m, s, q).pc == s.fetch.pc
  {
    hide Fetch.Inv, RegsOk, MepcOk, DataOk, Bubbles, Past, Leaves;
    var q3 := Past(m, s.s4.size, q);
    var q2 := Past(m, s.s3.size, q3);
    StraightOn(m, s.s4.size, q);
    StraightOn(m, s.s3.size, q3);
    StraightOn(m, s.s2.size, q2);
  }

  // ---------------------------------------------------------------- shifting

  /** Memory to writeback. */
  lemma Shift4(m: Machine, s: State, i: Input, q: Arch)
    requires !Busy2(m, s, i) && !Flush(s, i)
    requires WellFormed(Dec(m, q)) && NoMmio(m, q)
    requires s.s3.size != 0 && Match3(m, s.s3, q)
    ensures Match4(m, Next4(m, s, i), q)
  {
    LockStep(m, s, i);
  }

  /** Execute to memory: the branch is resolved and the result computed. */
  lemma Shift3(m: Machine, s: State, i: Input, q: Arch)
    requires !Busy2(m, s, i) && !Flush(s, i)
    requires WellFormed(Dec(m, q))
    requires s.s2.size != 0 && Match2(m, s.s2, q)
    ensures Match3(m, Next3(m, s, i), q)
  {
    LockStep(m, s, i);
  }

  lemma StageReads(m: Machine, size: Word, op: Op, rd: Reg, q: Arch, d: Ctrl)
    requires if size == 0 then op == Nop else AccessOnly(op) ==> op == Dec(m, q).op && rd == Dec(m, q).rd
    requires size != 0 && AccessOnly(Dec(m, q).op) ==> !Reads(d, Dec(m, q).rd)
    ensures AccessOnly(op) ==> !Reads(d, rd)
  {
  }

  lemma StraightAccess(m: Machine, q: Arch)
    ensures !Redirects(m, q) ==> !Traps(m, q) && !Dec(m, q).illegal
    ensures !Traps(m, q) && Dec(m, q).op.Mem? ==> !AErr(m, Dec(m, q).op, Addr(m, q))
    ensures AccessOnly(Resolved(m, q)) ==> Resolved(m, q) == Dec(m, q).op
  {
  }

  /** No gather or scatter in flight names a source register of the next instruction. */
  lemma NothingFed(m: Machine, s: State, e: Env, q: Arch)
    requires GoodDecoder(m) && Inv(m, s, e, q) && StraightLine(m, s, q) && NeverFed(m, q)
    ensures var d := Dec(m, Ahead(m, s, q));
      !AccessHazard(s, d.rs1) && !AccessHazard(s, d.rs2) && !AccessHazard(s, d.rs3)
  {
    hide Fetch.Inv, RegsOk, MepcOk, DataOk, PcConserved, Step, NeverFed, Redirects, Traps, Resolved, Size, A, B, C;
    hide Addr, AErr, Outcome, Target;
    NeverFedStep(m, q);
    NeverFedStep(m, Step(m, q));
    NeverFedStep(m, Step(m, Step(m, q)));
    var q3 := Past(m, s.s4.size, q);
    var q2 := Past(m, s.s3.size, q3);
    var d := Dec(m, Ahead(m, s, q));
    StraightAccess(m, q);
    StraightAccess(m, q3);
    StraightAccess(m, q2);
    StageReads(m, s.s4.size, s.s4.op, s.s4.rd, q, d);
    StageReads(m, s.s3.size, s.s3.op, s.s3.rd, q3, d);
    StageReads(m, s.s2.size, s.s2.op, s.s2.rd, q2, d);
  }

  /** Decode to execute: the instruction at the program counter, with forwarded operands. */
  lemma Shift2(m: Machine, s: State, i: Input, e: Env, q: Arch)
    requires GoodDecoder(m) && Inv(m, s, e, q) && NeverFed(m, q)
    requires !Busy2(m, s, i) && !Flush(s, i) && !Bubble(m, s, i)
    requires StraightLine(m, s, q)
    ensures Match2(m, Next2(m, s, i), Ahead(m, s, q))
  {
    LockStep(m, s, i);
    AheadPc(m, s, e, q);
    var w := Fetch.BufOut(s.fetch.buf);
    var q1 := Ahead(m, s, q);
    var d := D(m, s);
    Fetch.DeliversInstr(m.imem, s.fetch, e.pending);
    assert m.decode(w) == m.decode(Canonical(w));
    assert d == Dec(m, q1);
    SizeOfCanonical(w);
    NothingFed(m, s, e, q);
    ForwardingCorrect(m, s, i, e, q, d.rs1);
    ForwardingCorrect(m, s, i, e, q, d.rs2);
    ForwardingCorrect(m, s, i, e, q, d.rs3);
  }

  lemma ShiftData(m: Machine, s: State, i: Input, e: Env, q: Arch)
    requires GoodDecoder(m) && Inv(m, s, e, q) && Fair(m, s, i, e) && NeverMmio(m, q)
    requires !Busy2(m, s, i) && !CfReq(s)
    ensures DataOk(m, Next(m, s, i), NextEnv(m, s, i, e), Past(m, s.s4.size, q))
  {
    LockStep(m, s, i);
    RedirectsAgree(m, s, e, q);
    RequestIsNext(m, s, i, e, q);
    NoMmioAhead(m, q, s.s4.size);
    var q3 := Past(m, s.s4.size, q);
    var s', e' := Next(m, s, i), NextEnv(m, s, i, e);
    if s.s3.size != 0 {
      Shift4(m, s, i, q3);
    }
    assert !s'.rspSeen && !s'.lsuFinished;
  }

  /** When the pipeline shifts, the instruction in writeback is committed. */
  lemma ShiftStep(m: Machine, s: State, i: Input, e: Env, q: Arch)
    requires GoodDecoder(m) && Inv(m, s, e, q) && Fair(m, s, i, e) && NeverMmio(m, q) && NeverFed(m, q)
    requires !Busy2(m, s, i) && !CfReq(s)
    ensures Inv(m, Next(m, s, i), NextEnv(m, s, i, e), Past(m, s.s4.size, q))
    ensures Retires(m, s, i) <==> s.s4.size != 0
  {
    LockStep(m, s, i);
    RedirectsAgree(m, s, e, q);
    TargetsAligned(m, q);
    WriteEffect(m, s, i, e, q);
    ShiftData(m, s, i, e, q);
    Fetch.StepKeepsInv(m.imem, s.fetch, FetchInput(m, s, i), e.pending);
    var s' := Next(m, s, i);
    var q3 := Past(m, s.s4.size, q);
    var q2 := Past(m, s.s3.size, q3);
    NoMmioAhead(m, q, s.s4.size);
    if s.s3.size != 0 {
      Shift4(m, s, i, q3);
    }
    if s.s2.size != 0 && !Leaves(m, s.s3.size, q3) {
      Shift3(m, s, i, q2);
    }
    if !Bubble(m, s, i) && StraightLine(m, s, q) {
      Shift2(m, s, i, e, q);
    }
  }
}
