/** What the CSR lines carry when an instruction traps. Outside CSR instructions they show the
    operand registers of writeback, whatever is in them, and that can cost the trap its cause. */
module StaleCause {
  import opened Words
  import opened Gprs
  import opened Machine
  import Fetch
  import opened Core
  import opened Refinement
  import opened EndToEnd
  import opened Decode
  import opened Program
  import opened ShortRuns
  import Bits
  import Csr = Traps

  /** s4_opr_a: for an access, its strobes and whether it is memory mapped. */
  function OperandA(s: Stage4): int {
    if s.op.Mem? then s.strb + (if s.mmio then 16 else 0) else s.a
  }

  /** The CSR and trap lines in state `s`, with no CSR instruction and no interrupt. */
  predicate Shows(s: State, i: Csr.Input) {
    && !i.wr && !i.setBits && !i.clearBits && !i.intPulse
    && i.addr as int == s.s4.b % 0x1000 && i.wdata as int == OperandA(s.s4)
    && i.trapCpu == TrapCpu(s) && i.trapPc as int == s.pc && i.trapCause as int == TrapCause(s)
  }

  /** A value that software may write to mcause. */
  predicate Code(w: int) { w <= 7 || w == 11 }

  lemma LinesMean(i: Csr.Input)
    ensures Csr.Listed(i.wdata) <==> Code(i.wdata as int)
    ensures i.addr == Csr.MCAUSE <==> i.addr as int == 0x342
  {
  }

  lemma Dropped(i: Csr.Input, c: Csr.Csrs)
    requires !Csr.McauseOpen(i)
    ensures Csr.Next(c, i).cause == c.cause && Csr.Next(c, i).interrupt == c.interrupt
  {
    hide Csr.McauseOpen, Csr.NewVector, Csr.NewMode, Csr.NewMepc, Csr.NewCause, Csr.WritesMtvec;
  }

  /** The cause of the instruction in writeback reaches mcause exactly when operand A is an
      exception code, or operand B does not end in 0x342, or the cause was there before; otherwise
      mcause stays. */
  lemma CauseKept(s: State, i: Csr.Input, c: Csr.Csrs)
    requires Shows(s, i) && TrapCpu(s)
    ensures var n := Csr.Next(c, i);
      n.cause == i.trapCause as bv31 && !n.interrupt <==>
      || Code(OperandA(s.s4)) || s.s4.b % 0x1000 != 0x342
      || (c.cause == i.trapCause as bv31 && !c.interrupt)
    ensures var n := Csr.Next(c, i);
      !Code(OperandA(s.s4)) && s.s4.b % 0x1000 == 0x342 ==> n.cause == c.cause && n.interrupt == c.interrupt
  {
    hide Csr.Next, Csr.Listed, TrapCpu, TrapCause, OperandA;
    LinesMean(i);
    Csr.CauseRecorded(c, i);
    if !Code(OperandA(s.s4)) && s.s4.b % 0x1000 == 0x342 {
      Dropped(i, c);
    }
  }

  lemma NarrowIs(h: bv32)
    requires h <= 0x7FFF_FFFF
    ensures (h as bv31) as int == h as int
  {
  }

  lemma Halved(pc: bv32)
    ensures Csr.Saved(pc) as int == Bits.Half(pc) as int
  {
    assert pc >> 1 <= 0x7FFF_FFFF && Csr.Saved(pc) == (pc >> 1) as bv31;
    NarrowIs(pc >> 1);
  }

  lemma EvenPart(p: Word, h: int, b: int)
    requires p == 2 * h + b && 0 <= b <= 1
    ensures 2 * h == ClearBit0(p)
  {
  }

  /** The program counter that a trap saves, doubled, is the one on the trap bus with bit 0 cleared. */
  lemma SavedIs(pc: bv32, p: Word)
    requires pc as int == p
    ensures 2 * (Csr.Saved(pc) as int) == ClearBit0(p)
  {
    hide Csr.Saved, Bits.One, Bits.Half, ClearBit0;
    Halved(pc);
    Bits.HalfIs(pc);
    Bits.OneFits(pc, 0);
    EvenPart(p, Bits.Half(pc) as int, Bits.One(pc, 0));
  }

  lemma TrapSaves(i: Csr.Input, c: Csr.Csrs)
    requires i.trapCpu
    ensures Csr.Next(c, i).mepc == Csr.Saved(i.trapPc)
  {
    hide Csr.Saved, Csr.Mepc, Csr.NewCause, Csr.NewVector, Csr.NewMode, Csr.WritesMtvec, Csr.McauseOpen;
  }

  /** The trap registers and the pipeline's own view of mepc agree: a trap leaves its program
      counter, with bit 0 cleared. */
  lemma MepcShown(s: State, i: Csr.Input, c: Csr.Csrs)
    requires Shows(s, i) && TrapCpu(s)
    ensures 2 * (Csr.Next(c, i).mepc as int) == NextMepc(s)
  {
    hide Csr.Next, Csr.Saved, TrapCpu, TrapCause, OperandA, ClearBit0;
    TrapSaves(i, c);
    SavedIs(i.trapPc, s.pc);
  }

  // ---------------------------------------------------------------- misaligned accesses

  /** In every run: a misaligned access shows the low bits of its address and its strobes, so
      that a word access at an address ending in 0x342 loses its cause. */
  lemma MisalignedShows(m: Machine, s: State, e: Env, q: Arch, i: Csr.Input, c: Csr.Csrs)
    requires Simulates(m, s, e, q) && s.s4.size != 0 && Shows(s, i)
    requires Dec(m, q).op.Mem? && Traps(m, q)
    requires m.strobe(Dec(m, q).op, Addr(m, q)) == 15
    ensures i.trapCause as int == Cause(m, q) && i.trapPc as int == q.pc
    ensures var n := Csr.Next(c, i);
      n.cause == i.trapCause as bv31 && !n.interrupt <==>
      Addr(m, q) % 0x1000 != 0x342 || (c.cause == i.trapCause as bv31 && !c.interrupt)
  {
    hide Csr.Next, Step, Fetch.Inv, DataOk, RegsOk, YoungerOk;
    assert WellFormed(Dec(m, q));
    CauseKept(s, i, c);
  }

  // ---------------------------------------------------------------- a store, then a call

  /** sh x8, 0(x9) */
  const STORE_WORD: Instr := 0x0084_9023

  const CALL_WORD: Instr := 0x0000_0073

  const STORE: Ctrl := Ctrl(Mem(false, true, HalfWide, false), 0, 9, 8, 0, Rs1, Imm, Rs2C, 0, 0, false)

  const CALL: Ctrl := Ctrl(Ecall, 0, 0, 0, 0, NoA, NoB, NoC, 0, 0, false)

  function CallMachine(): Machine {
    Machine(a => if a == 0 then STORE_WORD else if a == 4 then CALL_WORD else 0,
            w => ToCtrl(DecodeRaw(w, _ => ILLEGAL)), AddOrPick,
            (_, _, _) => false, (_, _) => 0, (_, _, _) => 0, (_, _, _, _) => 0, _ => 0, (_, _) => false, 0)
  }

  lemma RawWords()
    ensures DecodeRaw(0, _ => ILLEGAL) == ILLEGAL
    ensures DecodeRaw(STORE_WORD, _ => ILLEGAL) == StoreRaw(HalfWide, 9, 8, 0)
    ensures DecodeRaw(CALL_WORD, _ => ILLEGAL) == Plain(Ecall)
  {
  }

  lemma Fields()
    ensures RegOf(0) == 0 && RegOf(8) == 8 && RegOf(9) == 9 && WordOf(0) == 0
  {
  }

  lemma Decodes()
    ensures var m := CallMachine();
      && Starts(m, STORE_WORD, CALL_WORD) && m.decode(STORE_WORD) == STORE && m.decode(CALL_WORD) == CALL
  {
    hide DecodeRaw, RegOf, WordOf;
    RawWords();
    Fields();
    assert !Compressed(Lo(STORE_WORD)) && !Compressed(Lo(CALL_WORD));
  }

  /** The state `k` cycles after the store has entered the buffer: x9 is the address, and the
      call takes over operand C, the store data, because it loads none. */
  function Calling(k: nat, regs: Regs): State
    requires k <= 4
  {
    var (x8, x9) := (regs[8], regs[9]);
    var store, call := STORE.op, CALL.op;
    var none3, none4 := Stage3(Nop, 0, false, 0, 0, 0), Stage4(Nop, 0, false, 0, 0, 0, false, 0);
    if k == 0 then Pipe(Filled(8, 1, STORE_WORD, 0), Stage2(Nop, 0, false, 0, 0, 0, 0), none3, none4, 0, regs)
    else if k == 1 then Pipe(Filled(8, 0, CALL_WORD, 4), Stage2(store, 0, false, 4, x9, 0, x8), none3, none4, 0, regs)
    else if k == 2 then
      Pipe(Asking(8, 0, 8), Stage2(call, 0, false, 4, x9, 0, x8), Stage3(store, 0, false, 4, x9, x8), none4, 0, regs)
    else if k == 3 then
      Pipe(Asking(8, 0, 8), Stage2(Nop, 0, false, 0, x9, 0, x8), Stage3(call, 0, false, 4, ClearBit0(x8), x8),
           Stage4(store, 0, false, 4, 0, x9, false, 0), 0, regs)
    else
      Pipe(Asking(8, 0, 8), Stage2(Nop, 0, false, 0, x9, 0, x8), Stage3(Nop, 0, false, 0, ClearBit0(x8), x8),
           Stage4(call, 0, false, 4, ClearBit0(x8), x9, false, 0), 4, regs)
  }

  const CALL_FETCHED: Input := Cycle(false, true, CALL_WORD, false)

  function Stored(regs: Regs): Env { Env([], [Req(true, WordAddr(regs[9]), 0, 0)], [0]) }

  lemma Calling1(regs: Regs)
    ensures Leads(CallMachine(), Calling(0, regs), FETCHING, [CALL_FETCHED], Calling(1, regs), NO_TRAFFIC, [])
  {
    hide Fetch.Next, Fetch.BufOut, Fetch.HasInstr, DecodeRaw, ToCtrl, Compressed, Lo, Hi, Leads, SizeOf;
    Decodes();
    WholeInstr(STORE_WORD);
    FetchHands(8, 1, STORE_WORD, 0, true, CALL_WORD);
    assert FlowEnv(CallMachine(), Calling(0, regs), CALL_FETCHED, FETCHING) == NO_TRAFFIC;
    Flow(CallMachine(), Calling(0, regs), CALL_FETCHED, FETCHING);
  }

  lemma Calling2(regs: Regs)
    ensures Leads(CallMachine(), Calling(1, regs), NO_TRAFFIC, [QUIET], Calling(2, regs), NO_TRAFFIC, [])
  {
    hide Fetch.Next, Fetch.BufOut, Fetch.HasInstr, DecodeRaw, ToCtrl, Compressed, Lo, Hi, Leads, SizeOf;
    Decodes();
    WholeInstr(CALL_WORD);
    FetchHands(8, 0, CALL_WORD, 4, false, 0);
    assert FlowEnv(CallMachine(), Calling(1, regs), QUIET, NO_TRAFFIC) == NO_TRAFFIC;
    Flow(CallMachine(), Calling(1, regs), QUIET, NO_TRAFFIC);
  }

  lemma Calling3(regs: Regs)
    requires !InMmio(regs[9]) && Aligned2(regs[9])
    ensures Leads(CallMachine(), Calling(2, regs), NO_TRAFFIC, [QUIET], Calling(3, regs), Stored(regs), [])
  {
    hide Fetch.Next, DecodeRaw, ToCtrl, Leads, InMmio;
    Decodes();
    FetchWaits(8, 0, 8, false);
    assert FlowEnv(CallMachine(), Calling(2, regs), QUIET, NO_TRAFFIC) == Stored(regs);
    Flow(CallMachine(), Calling(2, regs), QUIET, NO_TRAFFIC);
  }

  lemma Calling4(regs: Regs)
    ensures Leads(CallMachine(), Calling(3, regs), Stored(regs), [ANSWERED], Calling(4, regs),
                  Stored(regs).(answers := []), [0])
  {
    hide Fetch.Next, DecodeRaw, ToCtrl, Leads, InMmio;
    Decodes();
    FetchWaits(8, 0, 8, false);
    assert FlowEnv(CallMachine(), Calling(3, regs), ANSWERED, Stored(regs)) == Stored(regs).(answers := []);
    Flow(CallMachine(), Calling(3, regs), ANSWERED, Stored(regs));
  }

  const CALLING: seq<Input> := [CALL_FETCHED, QUIET, QUIET, ANSWERED]

  const CALLING_PCS: seq<seq<Word>> := [[], [], [], [0]]

  function CallingEnv(k: nat, regs: Regs): Env {
    if k == 0 then FETCHING else if k <= 2 then NO_TRAFFIC else if k == 3 then Stored(regs)
    else Stored(regs).(answers := [])
  }

  lemma CallingStep(k: nat, regs: Regs)
    requires k < 4 && !InMmio(regs[9]) && Aligned2(regs[9])
    ensures Leads(CallMachine(), Calling(k, regs), CallingEnv(k, regs), [CALLING[k]], Calling(k + 1, regs),
                  CallingEnv(k + 1, regs), CALLING_PCS[k])
  {
    hide Leads, Calling, DecodeRaw, ToCtrl;
    if k == 0 {
      Calling1(regs);
    } else if k == 1 {
      Calling2(regs);
    } else if k == 2 {
      Calling3(regs);
    } else {
      Calling4(regs);
    }
  }

  lemma StoreRetires()
    ensures Concat(CALLING_PCS) == [0]
  {
    assert CALLING_PCS[1..][1..][1..] == [[0]];
  }

  lemma CallRun(regs: Regs)
    requires !InMmio(regs[9]) && Aligned2(regs[9])
    ensures Leads(CallMachine(), Reset(0, regs), NO_TRAFFIC, Opening(STORE_WORD) + CALLING,
                  Calling(4, regs), CallingEnv(4, regs), [0])
  {
    assert Reset(0, regs).(fetch := Filled(8, 1, STORE_WORD, 0)) == Calling(0, regs);
    hide Leads, Calling, DecodeRaw, ToCtrl, Concat, Opening;
    var m := CallMachine();
    var s := seq(5, k requires 0 <= k <= 4 => Calling(k, regs));
    var e := seq(5, k requires 0 <= k <= 4 => CallingEnv(k, regs));
    forall k | 0 <= k < 4
      ensures Leads(m, s[k], e[k], [CALLING[k]], s[k + 1], e[k + 1], CALLING_PCS[k])
    {
      CallingStep(k, regs);
    }
    Chain(m, s, e, CALLING, CALLING_PCS);
    StoreRetires();
    Decodes();
    Arrives(m, STORE_WORD, CALL_WORD, regs);
    Then(m, Reset(0, regs), NO_TRAFFIC, Opening(STORE_WORD), s[0], FETCHING, [], CALLING, s[4], e[4], [0]);
    assert [] + [0] == [0];
  }

  /** From reset, a store of x8 to the address in x9 and then an environment call: in a fair run
      the call traps with its cause on the trap bus, and the cause reaches mcause exactly when x8
      (with bit 0 cleared) is an exception code, or the address does not end in 0x342, or it was
      there before. */
  lemma CallBehindStore(regs: Regs, i: Csr.Input, c: Csr.Csrs)
    requires !InMmio(regs[9]) && Aligned2(regs[9])
    requires Shows(Run(CallMachine(), Reset(0, regs), NO_TRAFFIC, Opening(STORE_WORD) + CALLING).0, i)
    ensures FairRun(CallMachine(), Reset(0, regs), NO_TRAFFIC, Opening(STORE_WORD) + CALLING)
    ensures i.trapCpu && i.trapCause == 11 && i.trapPc == 4
    ensures var n := Csr.Next(c, i);
      n.cause == 11 && !n.interrupt <==>
      Code(ClearBit0(regs[8])) || regs[9] % 0x1000 != 0x342 || (c.cause == 11 && !c.interrupt)
    ensures var n := Csr.Next(c, i);
      !Code(ClearBit0(regs[8])) && regs[9] % 0x1000 == 0x342 ==> n.cause == c.cause && n.interrupt == c.interrupt
  {
    hide Csr.Next, Csr.Listed, FairRun, Run, Trace, DecodeRaw, ToCtrl;
    CallRun(regs);
    CauseKept(Calling(4, regs), i, c);
  }

  const LOST: Csr.Input := Csr.Input(false, false, false, 0x342, 0x1234, true, false, 4, 11)

  /** With 0x1234 in x8 and 0x2342 in x9, mcause stays zero. */
  lemma CallCauseLost(regs: Regs)
    requires regs[8] == 0x1234 && regs[9] == 0x2342
    ensures Shows(Run(CallMachine(), Reset(0, regs), NO_TRAFFIC, Opening(STORE_WORD) + CALLING).0, LOST)
    ensures Csr.Next(Csr.RESET, LOST).cause == 0
  {
    hide Csr.Next, Csr.Listed, FairRun, Run, Trace, DecodeRaw, ToCtrl;
    CallRun(regs);
    assert Shows(Calling(4, regs), LOST);
    CallBehindStore(regs, LOST, Csr.RESET);
  }
}
