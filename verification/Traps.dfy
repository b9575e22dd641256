/** Trap registers and vectored interrupts (frv_csrs: mtvec, mepc, mcause; frv_interrupts;
    the trap target of frv_pipeline_writeback). */
module Traps {
  // ---------------------------------------------------------------- trap registers

  datatype Csrs = Csrs(
    vector: bv32, mode: bv32,       // mtvec: {reg_mtvec_base, 2'b00} and reg_mtvec_mode
    mepc: bv31,
    interrupt: bool, cause: bv31)   // mcause

  /** The CSR port and the trap bus in one cycle. */
  datatype Input = Input(
    wr: bool, setBits: bool, clearBits: bool, addr: bv12, wdata: bv32,
    trapCpu: bool, intPulse: bool, trapPc: bv32, trapCause: bv6)

  const MTVEC: bv12 := 0x305
  const MEPC: bv12 := 0x341
  const MCAUSE: bv12 := 0x342

  const RESET: Csrs := Csrs(0xC000_0000, 0, 0, false, 0)

  function Or(x: bv32, y: bv32): bv32 { x | y }

  function AndNot(x: bv32, y: bv32): bv32 { x & !y }

  /** mtvec as software reads it. The set, clear and trap target paths read `vector`. */
  function Mtvec(s: Csrs): bv32 { Or(s.vector, s.mode) }

  function Merge(i: Input, was: bv32): bv32 {
    if i.setBits then Or(was, i.wdata) else if i.clearBits then AndNot(was, i.wdata) else i.wdata
  }

  function BaseOf(x: bv32): bv32 { x & 0xFFFF_FFFC }

  function ModeOf(x: bv32): bv32 { x & 3 }

  function NewVector(vector: bv32, i: Input): bv32 { BaseOf(Merge(i, vector)) }

  function NewMode(vector: bv32, i: Input): bv32 { ModeOf(Merge(i, vector)) }

  /** mtvec_bad_write */
  predicate BadMtvec(vector: bv32, mode: bv32) { mode & 2 != 0 || (mode & 1 != 0 && vector & 0x7C != 0) }

  predicate WritesMtvec(s: Csrs, i: Input) {
    i.wr && i.addr == MTVEC && !BadMtvec(NewVector(s.vector, i), NewMode(s.vector, i))
  }

  /** mepc and the cause of mcause as software reads them, and as a word leaves them. */
  function Mepc(mepc: bv31): bv32 { mepc as bv32 << 1 }

  function Saved(pc: bv32): bv31 { (pc >> 1) as bv31 }

  function Mcause(cause: bv31): bv32 { cause as bv32 }

  function Low31(x: bv32): bv31 { (x & 0x7FFF_FFFF) as bv31 }

  function NewMepc(mepc: bv31, i: Input): bv31 {
    if i.intPulse || i.trapCpu then Saved(i.trapPc) else Saved(Merge(i, Mepc(mepc)))
  }

  function NewCause(cause: bv31, i: Input): bv31 {
    if i.intPulse || i.trapCpu then i.trapCause as bv31 else Low31(Merge(i, Mcause(cause)))
  }

  /** The exception codes that software may write to mcause. */
  predicate Listed(w: bv32) { w <= 7 || w == 11 }

  /** wen_valid_mcause: also consulted when a trap is taken. */
  predicate McauseOpen(i: Input) { Listed(i.wdata) || i.addr != MCAUSE }

  function Next(s: Csrs, i: Input): Csrs {
    var trap := i.trapCpu || i.intPulse;
    var cause := ((i.wr && i.addr == MCAUSE) || trap) && McauseOpen(i);
    Csrs(
      if WritesMtvec(s, i) then NewVector(s.vector, i) else s.vector,
      if WritesMtvec(s, i) then NewMode(s.vector, i) else s.mode,
      if (i.wr && i.addr == MEPC) || trap then NewMepc(s.mepc, i) else s.mepc,
      if cause then i.intPulse else s.interrupt,
      if cause then NewCause(s.cause, i) else s.cause)
  }

  /** A direct or vectored mode, and a vectored base is 128-byte aligned. */
  predicate LegalMtvec(vector: bv32, mode: bv32) {
    vector & 3 == 0 && (mode == 0 || (mode == 1 && vector & 127 == 0))
  }

  predicate Legal(s: Csrs) { LegalMtvec(s.vector, s.mode) }

  lemma GoodMtvec(x: bv32)
    requires !BadMtvec(BaseOf(x), ModeOf(x))
    ensures LegalMtvec(BaseOf(x), ModeOf(x))
  {
  }

  lemma AcceptedMtvec(s: Csrs, i: Input)
    requires WritesMtvec(s, i)
    ensures LegalMtvec(NewVector(s.vector, i), NewMode(s.vector, i))
  {
    hide Merge, BadMtvec, LegalMtvec, BaseOf, ModeOf;
    GoodMtvec(Merge(i, s.vector));
  }

  lemma StepKeepsLegal(s: Csrs, i: Input)
    requires Legal(s)
    ensures Legal(Next(s, i))
  {
    hide LegalMtvec, BadMtvec, NewVector, NewMode, NewMepc, NewCause, McauseOpen;
    if WritesMtvec(s, i) {
      AcceptedMtvec(s, i);
    }
  }

  /** The trap registers of frv_csrs. */
  class TrapRegisters {
    var vector: bv32
    var mode: bv32
    var mepc: bv31
    var interrupt: bool
    var cause: bv31

    ghost function View(): Csrs
      reads this
    {
      Csrs(vector, mode, mepc, interrupt, cause)
    }

    constructor ()
      ensures View() == RESET && Legal(View())
    {
      vector, mode, mepc, interrupt, cause := 0xC000_0000, 0, 0, false, 0;
    }

    /** One clock edge. */
    method Clock(i: Input)
      modifies this
      ensures View() == Next(old(View()), i)
      ensures old(Legal(View())) ==> Legal(View())
    {
      hide BadMtvec, NewVector, NewMode, NewMepc, NewCause, McauseOpen, Legal;
      if Legal(View()) {
        StepKeepsLegal(View(), i);
      }
      var trap := i.trapCpu || i.intPulse;
      var nVector, nMode := NewVector(vector, i), NewMode(vector, i);
      var nMepc := NewMepc(mepc, i);
      var nCause := NewCause(cause, i);
      if (i.wr && i.addr == MEPC) || trap {
        mepc := nMepc;
      }
      if ((i.wr && i.addr == MCAUSE) || trap) && McauseOpen(i) {
        interrupt, cause := i.intPulse, nCause;
      }
      if i.wr && i.addr == MTVEC && !BadMtvec(nVector, nMode) {
        vector, mode := nVector, nMode;
      }
    }
  }

  function Run(s: Csrs, ins: seq<Input>): Csrs
    decreases |ins|
  {
    if ins == [] then s else Run(Next(s, ins[0]), ins[1..])
  }

  /** No sequence of reads, writes, sets, clears and traps leaves mtvec illegal. */
  lemma {:induction false} RunKeepsLegal(s: Csrs, ins: seq<Input>)
    requires Legal(s)
    ensures Legal(Run(s, ins))
    decreases |ins|
  {
    hide Legal, Next;
    if ins != [] {
      StepKeepsLegal(s, ins[0]);
      RunKeepsLegal(Next(s, ins[0]), ins[1..]);
    }
  }

  // ---------------------------------------------------------------- what an edge leaves

  predicate Bit(x: bv32, k: bv5) { (x >> k) & 1 == 1 }


  /** Bit `k` after a csrrw, csrrs or csrrc with the data `w`. */
  predicate WrittenBit(i: Input, was: bv32, k: bv5) {
    if i.setBits then Bit(was, k) || Bit(i.wdata, k)
    else if i.clearBits then Bit(was, k) && !Bit(i.wdata, k)
    else Bit(i.wdata, k)
  }

  lemma MergedBit(i: Input, was: bv32, k: bv5)
    ensures Bit(Merge(i, was), k) == WrittenBit(i, was, k)
  {
  }

  predicate Trapped(i: Input) { i.trapCpu || i.intPulse }

  lemma SavedWord(x: bv32)
    ensures Mepc(Saved(x)) == AndNot(x, 1) && Saved(x) == (x >> 1) as bv31
  {
  }

  lemma ClearedBit(x: bv32, k: bv5)
    ensures Bit(AndNot(x, 1), k) == (k != 0 && Bit(x, k))
  {
  }

  lemma HalvedBit(x: bv32, k: bv5)
    ensures Bit(Mepc(Saved(x)), k) == (k != 0 && Bit(x, k))
    ensures Saved(x) == (x >> 1) as bv31
  {
    hide Bit, Mepc, Saved, AndNot;
    SavedWord(x);
    ClearedBit(x, k);
  }

  /** A trap or interrupt saves its program counter, whatever is being written; a CSR instruction
      sets, clears or writes the bits of mepc but the lowest; and otherwise mepc stays. */
  lemma MepcAfter(s: Csrs, i: Input, k: bv5)
    ensures var n := Next(s, i);
      if Trapped(i) then n.mepc == (i.trapPc >> 1) as bv31
      else if i.wr && i.addr == MEPC then Bit(Mepc(n.mepc), k) == (k != 0 && WrittenBit(i, Mepc(s.mepc), k))
      else n.mepc == s.mepc
  {
    hide Bit, Merge, Mepc, Saved, WrittenBit, WritesMtvec, NewVector, NewMode, NewCause, McauseOpen;
    HalvedBit(i.trapPc, k);
    HalvedBit(Merge(i, Mepc(s.mepc)), k);
    MergedBit(i, Mepc(s.mepc), k);
  }

  lemma BaseBit(x: bv32, k: bv5)
    ensures Bit(BaseOf(x), k) == (k >= 2 && Bit(x, k))
    ensures Bit(ModeOf(x), k) == (k < 2 && Bit(x, k))
  {
  }

  lemma ModeBits(x: bv32)
    ensures !BadMtvec(BaseOf(x), ModeOf(x)) <==> x & 3 == 0 || (x & 3 == 1 && x & 0x7C == 0)
  {
  }

  /** A write to mtvec is taken exactly when the mode is direct, or vectored with an aligned base;
      then base and mode have the written bits. Otherwise, and without a write, both stay. */
  lemma MtvecAfter(s: Csrs, i: Input, k: bv5)
    ensures var n, v := Next(s, i), Merge(i, s.vector);
      if i.wr && i.addr == MTVEC && (v & 3 == 0 || (v & 3 == 1 && v & 0x7C == 0))
      then
        && Bit(n.vector, k) == (k >= 2 && WrittenBit(i, s.vector, k))
        && Bit(n.mode, k) == (k < 2 && WrittenBit(i, s.vector, k))
      else n.vector == s.vector && n.mode == s.mode
  {
    hide Bit, Merge, WrittenBit, BaseOf, ModeOf, BadMtvec, NewMepc, NewCause, McauseOpen;
    ModeBits(Merge(i, s.vector));
    BaseBit(Merge(i, s.vector), k);
    MergedBit(i, s.vector, k);
  }

  lemma CauseBit(x: bv32, k: bv5)
    ensures Bit(Mcause(Low31(x)), k) == (k != 31 && Bit(x, k))
  {
  }

  /** A CSR instruction writes mcause if its data is an exception code; a trap does under the same
      test of the idle data lines, and then with its own cause. */
  lemma McauseAfter(s: Csrs, i: Input, k: bv5)
    ensures var n := Next(s, i);
      if Trapped(i) && (Listed(i.wdata) || i.addr != MCAUSE)
      then n.interrupt == i.intPulse && n.cause == i.trapCause as bv31
      else if !Trapped(i) && i.wr && i.addr == MCAUSE && Listed(i.wdata)
      then !n.interrupt && Bit(Mcause(n.cause), k) == (k != 31 && WrittenBit(i, Mcause(s.cause), k))
      else n.cause == s.cause && n.interrupt == s.interrupt
  {
    hide Bit, Merge, Mcause, Low31, WrittenBit, Listed, WritesMtvec, NewVector, NewMode, NewMepc;
    CauseBit(Merge(i, Mcause(s.cause)), k);
    MergedBit(i, Mcause(s.cause), k);
  }

  // ---------------------------------------------------------------- interrupts

  datatype Pending = Pending(external: bool, timer: bool, software: bool, nmi: bool)

  /** frv_interrupts */
  class InterruptUnit {
    var mip: Pending
    var cause: bv6

    constructor ()
      ensures mip == Pending(false, false, false, false) && cause == 0
    {
      mip, cause := Pending(false, false, false, false), 0;
    }

    /** One clock edge. The cause registered is below 32 whatever the external cause lines
        carry, and names a source that is pending. */
    method Clock(mie: bool, pending: Pending, exCause: bv4)
      modifies this
      ensures mip == pending
      ensures cause < 32
      ensures cause == 0 <==> pending == Pending(false, false, false, false)
      ensures pending.nmi || pending.external ==>
                cause == if mie && old(mip).nmi then 16
                         else if exCause != 0 then 16 + exCause as bv6 else 11
      ensures pending.timer && !pending.nmi && !pending.external ==> cause == 7
      ensures pending.software && !pending.nmi && !pending.external && !pending.timer ==> cause == 3
    {
      var raiseNmi := mie && mip.nmi;
      var externCause: bv6 := if raiseNmi then 16 else if exCause != 0 then (1 << 4) | exCause as bv6 else 11;
      ExternCause(exCause);
      cause := if pending.nmi || pending.external then externCause
        else if pending.timer then 7 else if pending.software then 3 else 0;
      mip := pending;
    }
  }

  lemma ExternCause(ex: bv4)
    ensures (1 as bv6 << 4) | ex as bv6 == 16 + ex as bv6
    ensures 16 <= 16 + ex as bv6 < 32
  {
  }

  // ---------------------------------------------------------------- trap target

  predicate VectorIntrs(mode: bv32) { mode & 1 != 0 }

  /** trap_vector_offset */
  function OffsetOf(cause: bv6): bv32 { cause as bv32 << 2 }

  /** trap_target_addr: the vector offset is OR-ed into the base. */
  function TrapTarget(s: Csrs, trapInt: bool, cause: bv6): bv32 {
    Or(if VectorIntrs(s.mode) && trapInt then OffsetOf(cause) else 0, s.vector)
  }

  /** BASE + 4 * cause */
  function VectorAddress(base: bv32, cause: bv6): bv32 { Plus(base, FourTimes(cause)) }

  function Plus(x: bv32, y: bv32): bv32 { x + y }

  function FourTimes(cause: bv6): bv32 { 4 * (cause as bv32) }

  /** Room for a vector offset below an aligned base. */
  predicate Below128(offset: bv32) { offset <= 127 }

  predicate Aligned128(base: bv32) { base & 127 == 0 }

  lemma OrIsPlus(base: bv32, offset: bv32)
    requires Aligned128(base) && Below128(offset)
    ensures Or(offset, base) == Plus(base, offset)
  {
  }

  lemma OffsetIsProduct(cause: bv6)
    requires cause < 32
    ensures OffsetOf(cause) == FourTimes(cause) && Below128(OffsetOf(cause))
  {
  }

  lemma Vectored(vector: bv32, cause: bv6)
    requires Aligned128(vector) && cause < 32
    ensures Or(OffsetOf(cause), vector) == VectorAddress(vector, cause)
  {
    hide OffsetOf, Or, Plus, FourTimes, Below128, Aligned128;
    OffsetIsProduct(cause);
    OrIsPlus(vector, OffsetOf(cause));
  }

  lemma LegalModes(s: Csrs)
    requires Legal(s)
    ensures s.mode == 0 || s.mode == 1
    ensures VectorIntrs(s.mode) <==> s.mode == 1
    ensures s.mode == 1 ==> Aligned128(s.vector)
  {
  }

  lemma TargetOf(s: Csrs, trapInt: bool, cause: bv6)
    requires Legal(s) && cause < 32
    ensures TrapTarget(s, trapInt, cause) ==
            if s.mode == 1 && trapInt then VectorAddress(s.vector, cause) else s.vector
  {
    hide Legal, VectorIntrs, OffsetOf, Or, VectorAddress, Aligned128;
    LegalModes(s);
    OrNothing(s.vector);
    if s.mode == 1 && trapInt {
      Vectored(s.vector, cause);
    }
  }

  lemma OrNothing(v: bv32)
    ensures Or(v, 0) == v && Or(0, v) == v
  {
  }

  /** In every reachable state an interrupt in vectored mode goes to BASE + 4 * cause, and
      every other trap to BASE. */
  lemma TargetIsVectored(ins: seq<Input>, trapInt: bool, cause: bv6)
    requires cause < 32
    ensures var s := Run(RESET, ins);
      && (s.mode == 0 || s.mode == 1)
      && TrapTarget(s, trapInt, cause) ==
         (if s.mode == 1 && trapInt then VectorAddress(s.vector, cause) else s.vector)
  {
    hide Run, TrapTarget, VectorAddress, Legal, VectorIntrs, Aligned128;
    ResetIsLegal();
    RunKeepsLegal(RESET, ins);
    LegalModes(Run(RESET, ins));
    TargetOf(Run(RESET, ins), trapInt, cause);
  }

  lemma ResetIsLegal()
    ensures Legal(RESET)
  {
  }

  // ---------------------------------------------------------------- where it falls short

  lemma Recompose(x: bv32)
    ensures Or(BaseOf(x), ModeOf(x)) == x
  {
  }

  lemma SetDropsMode(v: bv32, w: bv32)
    requires v & 3 == 0
    ensures Or(v, w) == Or(Or(v, 1), w) <==> w & 1 != 0
  {
  }

  lemma ClearDropsMode(v: bv32, w: bv32)
    requires v & 3 == 0
    ensures AndNot(v, w) == AndNot(Or(v, 1), w) <==> w & 1 != 0
  {
  }

  lemma MtvecWritten(s: Csrs, i: Input)
    requires WritesMtvec(s, i)
    ensures Mtvec(Next(s, i)) == Merge(i, s.vector)
  {
    hide BadMtvec, NewMepc, NewCause, Merge, BaseOf, ModeOf, Or;
    Recompose(Merge(i, s.vector));
  }

  lemma MergeDropsMode(i: Input, v: bv32)
    requires v & 3 == 0 && (i.setBits || i.clearBits)
    ensures Merge(i, v) == Merge(i, Or(v, 1)) <==> i.wdata & 1 != 0
  {
    hide Or, AndNot;
    if i.setBits {
      SetDropsMode(v, i.wdata);
    } else {
      ClearDropsMode(v, i.wdata);
    }
  }

  /** csrrs and csrrc read the mode as zero. A write that is accepted gives the register its
      old value with the bits set or cleared exactly when the mode was direct already or the
      mask names the mode bit. */
  lemma SetAndClear(s: Csrs, i: Input)
    requires Legal(s) && WritesMtvec(s, i) && (i.setBits || i.clearBits)
    ensures Mtvec(Next(s, i)) == Merge(i, Mtvec(s)) <==> s.mode == 0 || i.wdata & 1 != 0
  {
    hide WritesMtvec, Next, Merge, Or;
    MtvecWritten(s, i);
    if s.mode == 0 {
      OrNothing(s.vector);
    } else {
      MergeDropsMode(i, s.vector);
    }
  }

  /** A trap records its cause exactly when the operands left in writeback do not look like
      an unlisted write to mcause, or the cause was there before. */
  lemma CauseRecorded(s: Csrs, i: Input)
    requires i.trapCpu
    ensures var n := Next(s, i);
      n.cause == i.trapCause as bv31 && n.interrupt == i.intPulse <==>
      || Listed(i.wdata) || i.addr != MCAUSE
      || (s.cause == i.trapCause as bv31 && s.interrupt == i.intPulse)
  {
  }

  /** What writeback presents for a misaligned word access to ordinary memory: the low bits
      of the address on the CSR address lines, the strobes 1111 on the CSR data lines. */
  function MisalignedWord(addr: bv32, store: bool, pc: bv32): Input
  {
    Input(false, false, false, (addr & 0xFFF) as bv12, 15, true, false, pc, if store then 6 else 4)
  }

  /** So a misaligned word access records its cause exactly when its address does not end in
      0x342, or the cause was there before. */
  lemma MisalignedCause(s: Csrs, addr: bv32, store: bool, pc: bv32)
    ensures var n := Next(s, MisalignedWord(addr, store, pc));
      var cause: bv31 := if store then 6 else 4;
      n.cause == cause && !n.interrupt <==> addr & 0xFFF != 0x342 || (s.cause == cause && !s.interrupt)
  {
    assert ((addr & 0xFFF) as bv12 == MCAUSE) <==> addr & 0xFFF == 0x342;
    CauseRecorded(s, MisalignedWord(addr, store, pc));
  }

  // ---------------------------------------------------------------- inputs from reset

  /** csrrw, csrrs and csrrc on mtvec. */
  function MtvecWrite(wdata: bv32): Input { Input(true, false, false, MTVEC, wdata, false, false, 0, 0) }

  function MtvecSet(mask: bv32): Input { Input(true, true, false, MTVEC, mask, false, false, 0, 0) }

  function MtvecClear(mask: bv32): Input { Input(true, false, true, MTVEC, mask, false, false, 0, 0) }

  /** Vectored mode at 0x80000080, and then csrrs with mask 0x100, or csrrc with mask 0x80: the mode
      is lost. */
  lemma ModeLost()
    ensures Mtvec(Next(RESET, MtvecWrite(0x8000_0081))) == 0x8000_0081
    ensures Mtvec(Next(Next(RESET, MtvecWrite(0x8000_0081)), MtvecSet(0x100))) == 0x8000_0180
    ensures Mtvec(Next(Next(RESET, MtvecWrite(0x8000_0081)), MtvecClear(0x80))) == 0x8000_0000
  {
    var s := Csrs(0x8000_0080, 1, 0, false, 0);
    assert Next(RESET, MtvecWrite(0x8000_0081)) == s;
    assert Next(s, MtvecSet(0x100)) == Csrs(0x8000_0180, 0, 0, false, 0);
    assert Next(s, MtvecClear(0x80)) == Csrs(0x8000_0000, 0, 0, false, 0);
  }

  /** A misaligned load word at 0x2342: mcause stays zero, and at 0x2346 it becomes 4. */
  lemma LoadCauseLost(pc: bv32)
    ensures Next(RESET, MisalignedWord(0x2342, false, pc)).cause == 0
    ensures Next(RESET, MisalignedWord(0x2346, false, pc)).cause == 4
  {
  }
}
