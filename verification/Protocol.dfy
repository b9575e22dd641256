/** Consequences of the simulation for the data bus, for exceptions and for retirement. */
module Protocol {
  import opened Words
  import opened Gprs
  import opened Machine
  import Fetch
  import opened Core
  import opened Refinement
  import opened EndToEnd

  // ---------------------------------------------------------------- data bus

  /** At most one data request is unanswered, and the answers taken so far are exactly those
      of the retired accesses and of the one in writeback if it has been served. */
  lemma OneOutstanding(m: Machine, s: State, e: Env, q: Arch)
    requires Simulates(m, s, e, q)
    ensures |e.answers| <= 1
    ensures |e.hist| - |e.answers| == |q.hist| + (if s.s4.op.Mem? && !s.s4.trap && s.rspSeen then 1 else 0)
  {
    assert WellFormed(Dec(m, q));
  }

  /** A request that is not granted stays on the bus, unchanged. */
  lemma RequestNotWithdrawn(m: Machine, s: State, i: Input, e: Env, q: Arch, i': Input)
    requires Simulates(m, s, e, q) && Fair(m, s, i, e)
    requires DmemReq(m, s, i) && !i.dGnt
    ensures DmemReq(m, Next(m, s, i), i')
    ensures DmemRequest(m, Next(m, s, i)) == DmemRequest(m, s)
    ensures !Retires(m, s, i)
  {
    LockStep(m, s, i);
    assert s.s3.op.Mem? && Busy2(m, s, i) && !CfReq(s);
    var s' := Next(m, s, i);
    assert s'.s3 == s.s3 && s'.s4 == s.s4;
  }

  /** A redirect discards no instruction that has touched the data bus: every request made
      so far belongs to an instruction retired by the end of the cycle. */
  lemma NoRequestDiscarded(m: Machine, s: State, i: Input, e: Env, q: Arch)
    requires Simulates(m, s, e, q) && Fair(m, s, i, e) && Flush(s, i)
    ensures NextEnv(m, s, i, e).hist == Step(m, q).hist
    ensures NextEnv(m, s, i, e).answers == []
  {
    FlushData(m, s, i, e, q);
  }

  /** An access leaves writeback having made one request, its own, and having taken one
      answer, its own. */
  lemma RetiredAccess(m: Machine, s: State, i: Input, e: Env, q: Arch)
    requires Simulates(m, s, e, q) && Fair(m, s, i, e)
    requires Retires(m, s, i) && s.s4.op.Mem? && !s.s4.trap
    ensures Step(m, q).hist == q.hist + [MemReq(m, q)]
    ensures Step(m, q).hist <= e.hist
    ensures s.rspSeen != DataAccepted(s, i)
    ensures DataAccepted(s, i) ==> i.dRdata == m.answer(Step(m, q).hist)
    ensures Next(m, s, i).regs == Step(m, q).regs
  {
    var d := Dec(m, q);
    assert WellFormed(d);
    LockStep(m, s, i);
    RedirectsAgree(m, s, e, q);
    WriteEffect(m, s, i, e, q);
    if DataAccepted(s, i) {
      AnswerIsOwn(m, s, i, e, q);
    }
  }

  // ---------------------------------------------------------------- exceptions

  /** The pipeline holds an instruction that raises an exception, for as long as the fetch
      stage delays the redirect. */
  predicate Trapping(m: Machine, s: State, q: Arch) { s.s4.size != 0 && Traps(m, q) }

  lemma TrapNow(m: Machine, s: State, i: Input, e: Env, q: Arch)
    requires Simulates(m, s, e, q) && Fair(m, s, i, e) && Trapping(m, s, q)
    ensures CfReq(s) && TrapCpu(s) && CfTarget(m, s) == m.mtvec && TrapCause(s) == Cause(m, q)
    ensures s.regs == q.regs && e.hist == q.hist
    ensures !GprWen(s, i) && !DmemReq(m, s, i) && !MmioEn(s, i)
  {
    hide Fetch.Inv, YoungerOk, PcConserved, ExecA, ExecB, Busy2, Busy3;
    assert WellFormed(Dec(m, q));
    RedirectsAgree(m, s, e, q);
  }

  /** All older instructions have taken effect, and neither the instruction nor any younger
      one writes a register or asks for data. Its cause is presented on the trap bus and mepc
      takes its program counter; when the redirect is accepted, the pipeline is empty and
      fetching starts at the handler. */
  lemma PreciseTrap(m: Machine, s: State, i: Input, e: Env, q: Arch)
    requires Simulates(m, s, e, q) && Fair(m, s, i, e) && Trapping(m, s, q)
    ensures s.regs == q.regs && e.hist == q.hist
    ensures !GprWen(s, i) && !DmemReq(m, s, i) && !MmioEn(s, i)
    ensures Next(m, s, i).mepc == q.pc && TrapCpu(s) && TrapCause(s) == Cause(m, q)
    ensures Retires(m, s, i) <==> CfAck(s, i)
    ensures var s' := Next(m, s, i);
      if CfAck(s, i)
      then s'.fetch.pc == m.mtvec && s'.pc == m.mtvec && s'.s2.size == s'.s3.size == s'.s4.size == 0
      else s'.pc == q.pc && Trapping(m, s', q)
  {
    TrapNow(m, s, i, e, q);
    LockStep(m, s, i);
    ClearBit0Even(q.pc);
    hide Fetch.Inv, YoungerOk, DataOk, RegsOk, Match4, Traps, Cause, Step, WellFormed, Supported;
    hide Next2, Next3, DmemReq, MmioEn, GprWen, Busy2, Busy3, CfTarget, Request;
    if CfAck(s, i) {
      assert Flush(s, i);
    } else {
      assert Busy4(s, i) && !Flush(s, i) && Next(m, s, i).s4 == s.s4;
    }
  }

  /** However long the redirect is delayed, nothing of the trapping instruction or of a
      younger one becomes visible before the first instruction of the handler. */
  lemma {:induction false} TrapWaits(m: Machine, s: State, e: Env, ins: seq<Input>, q: Arch)
    requires Simulates(m, s, e, q) && FairRun(m, s, e, ins) && Trapping(m, s, q)
    requires Trace(m, s, ins) == []
    ensures var (s', e') := Run(m, s, e, ins);
      Simulates(m, s', e', q) && Trapping(m, s', q) && s'.regs == q.regs && e'.hist == q.hist
    decreases |ins|
  {
    hide Inv, Next, NextEnv, Step, Fair, Retires;
    if ins == [] {
      TrapState(m, s, e, q);
    } else {
      CycleRefines(m, s, ins[0], e, q);
      PreciseTrap(m, s, ins[0], e, q);
      TrapWaits(m, Next(m, s, ins[0]), NextEnv(m, s, ins[0], e), ins[1..], q);
    }
  }

  lemma TrapState(m: Machine, s: State, e: Env, q: Arch)
    requires Simulates(m, s, e, q) && Trapping(m, s, q)
    ensures s.regs == q.regs && e.hist == q.hist
  {
    assert WellFormed(Dec(m, q));
  }

  // ---------------------------------------------------------------- retirement

  /** The bookkeeping that holds whatever the inputs: program counters agree and a finished
      redirect has left writeback empty. */
  predicate Accounted(s: State) { PcConserved(s) && (s.cfuDone ==> s.s4.size == 0) }

  /** Every sized instruction that enters writeback is retired once, in the cycle in which
      it leaves, and decode's program counter always accounts for what is in flight. */
  lemma RetiresOnce(m: Machine, s: State, i: Input)
    requires Accounted(s)
    ensures Accounted(Next(m, s, i))
    ensures Retires(m, s, i) <==> s.s4.size != 0 && (Progress4(m, s, i) || Flush(s, i))
    ensures !Progress4(m, s, i) && !Flush(s, i) ==>
              Next(m, s, i).s4 == s.s4 && Next(m, s, i).s3 == s.s3 && Next(m, s, i).s2 == s.s2
    ensures Flush(s, i) ==> var s' := Next(m, s, i); s'.s2.size == s'.s3.size == s'.s4.size == 0
    ensures Progress4(m, s, i) && !Flush(s, i) ==>
              var s' := Next(m, s, i); s'.s4.size == s.s3.size && s'.s3.size == s.s2.size
  {
    LockStep(m, s, i);
  }

  function One(b: bool): nat { if b then 1 else 0 }

  /** Instructions in execute, memory and writeback. */
  function InFlight(s: State): nat { One(s.s2.size != 0) + One(s.s3.size != 0) + One(s.s4.size != 0) }

  /** Decode hands an instruction to execute. */
  predicate Issues(m: Machine, s: State, i: Input) { S1Valid(s) && !Busy1(m, s, i) && !Flush(s, i) }

  /** The memory stage hands an instruction to writeback. */
  predicate Enters(m: Machine, s: State, i: Input) { s.s3.size != 0 && Progress4(m, s, i) && !Flush(s, i) }

  /** Instructions that a redirect discards. */
  function Discards(s: State, i: Input): nat {
    if Flush(s, i) then One(s.s2.size != 0) + One(s.s3.size != 0) else 0
  }

  /** One cycle's account. */
  lemma CycleConserves(m: Machine, s: State, i: Input)
    requires Accounted(s)
    ensures var s' := Next(m, s, i);
      && Accounted(s')
      && One(Retires(m, s, i)) + One(s'.s4.size != 0) == One(s.s4.size != 0) + One(Enters(m, s, i))
      && One(Retires(m, s, i)) + Discards(s, i) + InFlight(s') == InFlight(s) + One(Issues(m, s, i))
  {
    LockStep(m, s, i);
    RetiresOnce(m, s, i);
    hide Next, Retires, Accounted, Busy2, Flush, Progress2, Progress4, Bubble;
    if Progress4(m, s, i) && !Flush(s, i) {
      IssuedSize(m, s, i);
    }
  }

  lemma IssuedSize(m: Machine, s: State, i: Input)
    requires Progress2(m, s, i) && !Flush(s, i)
    ensures Next(m, s, i).s2.size != 0 <==> Issues(m, s, i)
  {
    LockStep(m, s, i);
    hide OprA, OprB, OprC, Forward, Fetch.Next, GprWen, CfTarget, Next3, Next4, Busy2;
  }

  function Issued(m: Machine, s: State, ins: seq<Input>): nat
    decreases |ins|
  {
    if ins == [] then 0 else One(Issues(m, s, ins[0])) + Issued(m, Next(m, s, ins[0]), ins[1..])
  }

  function Entered(m: Machine, s: State, ins: seq<Input>): nat
    decreases |ins|
  {
    if ins == [] then 0 else One(Enters(m, s, ins[0])) + Entered(m, Next(m, s, ins[0]), ins[1..])
  }

  function Discarded(m: Machine, s: State, ins: seq<Input>): nat
    decreases |ins|
  {
    if ins == [] then 0 else Discards(s, ins[0]) + Discarded(m, Next(m, s, ins[0]), ins[1..])
  }

  /** Over any run, whatever the inputs: every instruction that has entered writeback has been
      retired, once, or is still there; and every instruction that decode has handed on has been
      retired, once, or discarded by a redirect before it reached writeback, or is in flight. */
  lemma {:induction false} InstructionsConserved(m: Machine, s: State, e: Env, ins: seq<Input>)
    requires Accounted(s)
    ensures var s' := Run(m, s, e, ins).0;
      && Accounted(s')
      && |Trace(m, s, ins)| + One(s'.s4.size != 0) == One(s.s4.size != 0) + Entered(m, s, ins)
      && |Trace(m, s, ins)| + Discarded(m, s, ins) + InFlight(s') == InFlight(s) + Issued(m, s, ins)
    decreases |ins|
  {
    hide Accounted, Next, NextEnv, Retires, Enters, Issues, Discards, InFlight;
    if ins != [] {
      CycleConserves(m, s, ins[0]);
      InstructionsConserved(m, Next(m, s, ins[0]), NextEnv(m, s, ins[0], e), ins[1..]);
    }
  }

  // ---------------------------------------------------------------- schedules

  lemma {:induction false} PathPrefix(m: Machine, q: Arch, k: nat, n: nat)
    requires k <= n
    ensures Path(m, q, k) <= Path(m, q, n)
    decreases k
  {
    hide Step;
    if k > 0 {
      PathPrefix(m, Step(m, q), k - 1, n - 1);
    }
  }

  /** Two runs of the same program under different schedules retire the same instructions,
      as far as both have come; and once they have retired equally many and their last
      stages are empty, their registers and data requests agree. */
  lemma SchedulesAgree(m: Machine, reset: Word, regs: Regs, x: seq<Input>, y: seq<Input>)
    requires GoodDecoder(m) && Aligned4(reset) && Supported(m, Boot(reset, regs))
    requires FairRun(m, Reset(reset, regs), NO_TRAFFIC, x)
    requires FairRun(m, Reset(reset, regs), NO_TRAFFIC, y)
    ensures var s := Reset(reset, regs);
      var tx, ty := Trace(m, s, x), Trace(m, s, y);
      var ((sx, ex), (sy, ey)) := (Run(m, s, NO_TRAFFIC, x), Run(m, s, NO_TRAFFIC, y));
      && (tx <= ty || ty <= tx)
      && (|tx| == |ty| && sx.s4.size == sx.s3.size == sy.s4.size == sy.s3.size == 0 ==>
            sx.regs == sy.regs && sx.mepc == sy.mepc && ex.hist == ey.hist)
  {
    Refines(m, reset, regs, x);
    Refines(m, reset, regs, y);
    var s := Reset(reset, regs);
    var nx, ny := |Trace(m, s, x)|, |Trace(m, s, y)|;
    if nx <= ny {
      PathPrefix(m, Boot(reset, regs), nx, ny);
    } else {
      PathPrefix(m, Boot(reset, regs), ny, nx);
    }
  }
}
