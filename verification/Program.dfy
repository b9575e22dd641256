/** The pipeline with its decoder runs the program that has every compressed instruction
    replaced by its 32-bit expansion. */
module Program {
  import opened Words
  import opened Gprs
  import opened Machine
  import opened Core
  import opened Decode
  import opened XcMemory
  import opened Rvc
  import opened Assembler
  import Isa
  import opened EndToEnd
  import opened Liveness

  /** The same machine, seeing expansions. */
  function Expanded(m: Machine, ext: Instr -> Raw): Machine { m.(decode := Expanding(ext)) }

  lemma {:induction false} IterExpands(m: Machine, ext: Instr -> Raw, q: Arch, n: nat)
    requires HasDecoder(m, ext) && AluAdds(m)
    ensures Iter(m, q, n) == Iter(Expanded(m, ext), q, n)
    ensures Path(m, q, n) == Path(Expanded(m, ext), q, n)
    decreases n
  {
    hide Step, HasDecoder, AluAdds;
    if n > 0 {
      StepExpands(m, ext, q);
      IterExpands(m, ext, Step(m, q), n - 1);
    }
  }

  /** For every schedule, the program counters that retire are those of the sequential machine
      on the expanded program; and whenever writeback and memory are empty, the registers, mepc
      and the data requests are the machine's after as many instructions. */
  lemma RunsExpansions(m: Machine, ext: Instr -> Raw, reset: Word, regs: Regs, ins: seq<Input>)
    requires HasDecoder(m, ext) && AluAdds(m) && forall w :: Consistent(ext(w))
    requires Aligned4(m.mtvec) && Aligned4(reset)
    requires Supported(m, Boot(reset, regs))
    requires FairRun(m, Reset(reset, regs), NO_TRAFFIC, ins)
    ensures var m', q0 := Expanded(m, ext), Boot(reset, regs);
      var pcs := Trace(m, Reset(reset, regs), ins);
      var (s, e) := Run(m, Reset(reset, regs), NO_TRAFFIC, ins);
      var q := Iter(m', q0, |pcs|);
      && pcs == Path(m', q0, |pcs|)
      && (s.s4.size == 0 && s.s3.size == 0 ==> s.regs == q.regs && s.mepc == q.mepc && e.hist == q.hist)
  {
    hide Step, Next, NextEnv, Retires, Fair, AluAdds, Consistent;
    DecoderIsGood(m, ext);
    Refines(m, reset, regs, ins);
    IterExpands(m, ext, Boot(reset, regs), |Trace(m, Reset(reset, regs), ins)|);
  }

  // ---------------------------------------------------------------- programs of known instructions

  /** The program counters of `prog` that are reached hold encodings of its instructions. */
  ghost predicate Holds(m: Machine, prog: Word -> Asm, q: Arch) {
    forall n: nat :: Isa.ReadsAs(m, Iter(m, q, n).pc, prog(Iter(m, q, n).pc))
  }

  /** `n` instructions of `prog`, as the standard defines them. */
  function ExecIter(m: Machine, prog: Word -> Asm, q: Arch, n: nat): Arch
    decreases n
  {
    if n == 0 then q else ExecIter(m, prog, Isa.Exec(m, prog(q.pc), Isa.Bytes(m, q.pc), q), n - 1)
  }

  lemma HoldsStep(m: Machine, prog: Word -> Asm, q: Arch)
    requires Holds(m, prog, q)
    ensures Isa.ReadsAs(m, q.pc, prog(q.pc)) && Holds(m, prog, Step(m, q))
  {
    hide Step, Isa.ReadsAs;
    assert Iter(m, q, 0) == q;
    forall n: nat
      ensures Isa.ReadsAs(m, Iter(m, Step(m, q), n).pc, prog(Iter(m, Step(m, q), n).pc))
    {
      assert Iter(m, q, n + 1) == Iter(m, Step(m, q), n);
    }
  }

  lemma {:induction false} IterIsExec(m: Machine, ext: Instr -> Raw, prog: Word -> Asm, q: Arch, n: nat)
    requires HasDecoder(m, ext) && AluAdds(m) && Holds(m, prog, q)
    ensures Iter(m, q, n) == ExecIter(m, prog, q, n)
    decreases n
  {
    hide Step, HasDecoder, AluAdds, Holds, Isa.Exec, Isa.Bytes, Isa.ReadsAs;
    if n > 0 {
      HoldsStep(m, prog, q);
      Isa.StepIsExec(m, ext, prog(q.pc), q);
      IterIsExec(m, ext, prog, Step(m, q), n - 1);
    }
  }

  /** The pipeline runs an RV32IMC program. For every schedule, after n retirements the program
      counter, the registers, mepc and the data requests are those of n instructions as the
      standard defines them (with memory and writeback empty), without reference to a decoder. */
  lemma RunsProgram(m: Machine, ext: Instr -> Raw, prog: Word -> Asm, reset: Word, regs: Regs, ins: seq<Input>)
    requires HasDecoder(m, ext) && AluAdds(m) && forall w :: Consistent(ext(w))
    requires Aligned4(m.mtvec) && Aligned4(reset)
    requires Supported(m, Boot(reset, regs)) && Holds(m, prog, Boot(reset, regs))
    requires FairRun(m, Reset(reset, regs), NO_TRAFFIC, ins)
    ensures var n := |Trace(m, Reset(reset, regs), ins)|;
      var (s, e) := Run(m, Reset(reset, regs), NO_TRAFFIC, ins);
      var q := ExecIter(m, prog, Boot(reset, regs), n);
      && s.pc == q.pc
      && (s.s4.size == 0 && s.s3.size == 0 ==> s.regs == q.regs && s.mepc == q.mepc && e.hist == q.hist)
  {
    hide Step, Next, NextEnv, Retires, Fair, AluAdds, Consistent, Holds, HasDecoder, Supported;
    DecoderIsGood(m, ext);
    Refines(m, reset, regs, ins);
    IterIsExec(m, ext, prog, Boot(reset, regs), |Trace(m, Reset(reset, regs), ins)|);
  }

  // ---------------------------------------------------------------- the hypotheses can be met

  function AddOrPick(op: Op, a: Word, b: Word, c: Word): (Word, Word) {
    (if op == AluOp(ALU_ADD) then Add(a, b) else b, 0)
  }

  // 0:  c.lw x8, 0(x9)
  // 2:  add x10, x8, x9
  // 6:  xc.gather.b x5, (x9), x0
  // 10: c.j 0
  const LW: Instr := 0x4080
  const ADD: Instr := 0x0094_0533
  const GATHER: Instr := 0x3C04_9293
  const JUMP: Instr := 0xBFDD

  function LoopImage(a: Word): Instr {
    if a == 0 then 0x0533_4080 else if a == 4 then 0x9293_0094 else if a == 8 then 0xBFDD_3C04 else 0
  }

  /** The data memory answers with the number of requests made so far. */
  function LoopMachine(): Machine {
    Machine(LoopImage, w => ToCtrl(DecodeRaw(w, XcRaw)), AddOrPick,
            (_, _, _) => false, (_, _) => 15, (_, _, w) => w, (_, _, _, w) => w, h => |h| % WORD_RANGE,
            (_, _) => false, 0)
  }

  lemma LoopHalves()
    ensures Lo(0x0533_4080) == 0x4080 && Hi(0x0533_4080) == 0x0533 && Lo(0x9293_0094) == 0x0094
    ensures Hi(0x9293_0094) == 0x9293 && Lo(0xBFDD_3C04) == 0x3C04 && Hi(0xBFDD_3C04) == 0xBFDD
    ensures Compressed(0x4080) && !Compressed(0x0533) && !Compressed(0x9293) && Compressed(0xBFDD)
    ensures Join(0x0533, 0x0094) == ADD && Join(0x9293, 0x3C04) == GATHER
    ensures SizeOf(LW) == 2 && SizeOf(ADD) == 4 && SizeOf(GATHER) == 4 && SizeOf(JUMP) == 2
  {
  }

  lemma LoopInstrs()
    ensures InstrAt(LoopImage, 0) == LW && InstrAt(LoopImage, 2) == ADD
    ensures InstrAt(LoopImage, 6) == GATHER && InstrAt(LoopImage, 10) == JUMP
  {
    hide Lo, Hi, Join, Compressed, SizeOf;
    LoopHalves();
  }

  lemma LoopRaw()
    ensures DecodeRaw(LW, XcRaw) == LoadRaw(WordWide, false, 8, 9, 0)
    ensures DecodeRaw(ADD, XcRaw) == RegReg(AluOp(ALU_ADD), 10, 8, 9)
    ensures DecodeRaw(GATHER, XcRaw) == Raw(ACCESS, 5, 9, 0, 7, Rs1, Rs2(0), Rs3, 0, 0, false)
    ensures DecodeRaw(JUMP, XcRaw) == Raw(Jali, 0, 0, 0, 0, NoA, NoB, PcImmC, 0xFFFF_FFF6, 0xFFFF_FFF6, false)
  {
  }

  lemma LoopFields()
    ensures RegOf(0) == 0 && RegOf(5) == 5 && RegOf(7) == 7 && RegOf(8) == 8 && RegOf(9) == 9 && RegOf(10) == 10
    ensures WordOf(0) == 0 && WordOf(0xFFFF_FFF6) == 0xFFFF_FFF6
  {
  }

  lemma LoopDecodes(m: Machine)
    requires m == LoopMachine()
    ensures m.decode(LW) == Ctrl(Mem(true, false, WordWide, false), 8, 9, 0, 0, Rs1, Imm, NoC, 0, 0, false)
    ensures m.decode(ADD) == Ctrl(AluOp(ALU_ADD), 10, 8, 9, 0, Rs1, Rs2(0), NoC, 0, 0, false)
    ensures m.decode(GATHER) == Ctrl(ACCESS, 5, 9, 0, 7, Rs1, Rs2(0), Rs3, 0, 0, false)
    ensures m.decode(JUMP) == Ctrl(Jali, 0, 0, 0, 0, NoA, NoB, PcImmC, 0xFFFF_FFF6, 0xFFFF_FFF6, false)
  {
    hide DecodeRaw, RegOf, WordOf;
    LoopRaw();
    LoopFields();
  }

  /** In the loop, with an aligned address outside the MMIO window in x9. */
  predicate Looping(q: Arch) {
    (q.pc == 0 || q.pc == 2 || q.pc == 6 || q.pc == 10) && Aligned4(q.regs[9]) && !InMmio(q.regs[9])
  }

  function Asked(q: Arch): seq<Req> { q.hist + [Req(false, q.regs[9], 15, 0)] }

  /** What one instruction of the loop does. */
  function Around(q: Arch): Arch {
    if q.pc == 0 then
      Arch(2, Write(q.regs, 8, false, |Asked(q)| % WORD_RANGE, 0), q.mepc, Asked(q))
    else if q.pc == 2 then q.(pc := 6, regs := Write(q.regs, 10, false, Add(q.regs[8], q.regs[9]), 0))
    else if q.pc == 6 then q.(pc := 10, hist := Asked(q))
    else q.(pc := 0)
  }

  lemma LoadStep(q: Arch)
    requires Looping(q) && q.pc == 0
    ensures var m := LoopMachine();
      Step(m, q) == Around(q) && NoMmio(m, q) && Dec(m, q).op == Mem(true, false, WordWide, false)
  {
    hide InstrAt, DecodeRaw, ToCtrl, SizeOf, Write, InMmio;
    LoopInstrs();
    LoopHalves();
    LoopDecodes(LoopMachine());
  }

  lemma AddStep(q: Arch)
    requires Looping(q) && q.pc == 2
    ensures var m := LoopMachine(); Step(m, q) == Around(q) && Dec(m, q).op == AluOp(ALU_ADD)
  {
    hide InstrAt, DecodeRaw, ToCtrl, SizeOf, Write, InMmio;
    LoopInstrs();
    LoopHalves();
    LoopDecodes(LoopMachine());
  }

  lemma GatherStep(q: Arch)
    requires Looping(q) && q.pc == 6
    ensures var m := LoopMachine();
      && Step(m, q) == Around(q) && NoMmio(m, q) && Dec(m, q).op == ACCESS && Dec(m, q).rd == 5
  {
    hide InstrAt, DecodeRaw, ToCtrl, SizeOf, Write, InMmio;
    LoopInstrs();
    LoopHalves();
    LoopDecodes(LoopMachine());
  }

  lemma BackToZero(regs: Regs, v: Word)
    ensures ClearBit0(Add(10, 0xFFFF_FFF6)) == 0 && Write(regs, 0, false, v, 0) == regs
  {
  }

  lemma JumpStep(q: Arch)
    requires Looping(q) && q.pc == 10
    ensures var m := LoopMachine();
      && Step(m, q) == Around(q) && Dec(m, q).op == Jali && Redirects(m, q) && !Reads(Dec(m, q), 5)
  {
    hide InstrAt, DecodeRaw, ToCtrl, SizeOf, Write, InMmio, ClearBit0;
    LoopInstrs();
    LoopDecodes(LoopMachine());
    BackToZero(q.regs, Fall(LoopMachine(), q));
  }

  lemma LoopStep(q: Arch)
    requires Looping(q)
    ensures Step(LoopMachine(), q) == Around(q) && Looping(Around(q))
    ensures NoMmio(LoopMachine(), q) && Unfed(LoopMachine(), q)
  {
    hide InstrAt, DecodeRaw, ToCtrl, InMmio, Redirects, Reads, Step;
    if q.pc == 0 {
      LoadStep(q);
    } else if q.pc == 2 {
      AddStep(q);
    } else if q.pc == 6 {
      GatherStep(q);
      JumpStep(Around(q));
    } else {
      JumpStep(q);
    }
  }

  lemma {:induction false} LoopsForever(q: Arch, n: nat)
    requires Looping(q)
    ensures Looping(Iter(LoopMachine(), q, n))
    decreases n
  {
    hide Step, Looping, Around, NoMmio, Unfed;
    if n > 0 {
      LoopStep(q);
      LoopsForever(Step(LoopMachine(), q), n - 1);
    }
  }

  lemma FourSteps(q: Arch)
    requires Looping(q)
    ensures Iter(LoopMachine(), q, 4) == Around(Around(Around(Around(q))))
  {
    hide Step, Looping, Around, NoMmio, Unfed;
    var m, q1 := LoopMachine(), Around(q);
    var q2 := Around(q1);
    var q3 := Around(q2);
    LoopStep(q);
    LoopStep(q1);
    LoopStep(q2);
    LoopStep(q3);
    assert Iter(m, q, 4) == Iter(m, q1, 3) == Iter(m, q2, 2) == Iter(m, q3, 1) == Iter(m, Around(q3), 0);
  }

  /** One round: x8 is loaded, and added to x9. */
  lemma OneRound(q: Arch)
    requires Looping(q) && q.pc == 0
    ensures var q', v := Iter(LoopMachine(), q, 4), |Asked(q)| % WORD_RANGE;
      q'.pc == 0 && q'.regs[8] == v && q'.regs[10] == Add(v, q.regs[9]) && |q'.hist| == |q.hist| + 2
  {
    hide Iter, Looping;
    FourSteps(q);
    assert Around(Around(q)).pc == 6;
  }

  lemma LoopIsSupported(regs: Regs)
    requires Looping(Boot(0, regs))
    ensures Supported(LoopMachine(), Boot(0, regs))
  {
    hide Step, NoMmio, Unfed, Around, Looping, Iter;
    var m, q0 := LoopMachine(), Boot(0, regs);
    forall k: nat
      ensures NoMmio(m, Iter(m, q0, k)) && Unfed(m, Iter(m, q0, k))
    {
      LoopsForever(q0, k);
      LoopStep(Iter(m, q0, k));
    }
  }

  lemma LoopIsGood()
    ensures var m, ext := LoopMachine(), XcRaw;
      HasDecoder(m, ext) && AluAdds(m) && (forall w :: Consistent(ext(w))) && GoodDecoder(m)
  {
    hide DecodeRaw, ToCtrl, XcRaw;
    forall w: Instr
      ensures Consistent(XcRaw(w))
    {
      XcConsistent(w);
    }
    DecoderIsGood(LoopMachine(), XcRaw);
  }

  lemma LoopRetires(regs: Regs, n: nat)
    requires Looping(Boot(0, regs))
    ensures var m, s := LoopMachine(), Reset(0, regs);
      var ins := Replies(m, s, NO_TRAFFIC, n);
      FairRun(m, s, NO_TRAFFIC, ins) && (n >= 37 ==> Trace(m, s, ins) != [])
  {
    hide Looping, FairRun, Trace, Replies, ResponsiveRun, Supported, GoodDecoder;
    var m, s := LoopMachine(), Reset(0, regs);
    LoopIsGood();
    LoopIsSupported(regs);
    ResetInv(m, 0, regs);
    RepliesAreFair(m, s, NO_TRAFFIC, n);
    if n >= 37 {
      ReplyingRetires(m, s, NO_TRAFFIC, Boot(0, regs), n);
    }
  }

  /** What RunsExpansions asks of a machine and its program is met by this one, with runs of
      every length that retire. */
  lemma HypothesesMet(regs: Regs, n: nat)
    requires Aligned4(regs[9]) && !InMmio(regs[9])
    ensures var m, ext := LoopMachine(), XcRaw;
      && HasDecoder(m, ext) && AluAdds(m) && (forall w :: Consistent(ext(w)))
      && Aligned4(m.mtvec) && Supported(m, Boot(0, regs))
      && var ins := Replies(m, Reset(0, regs), NO_TRAFFIC, n);
         FairRun(m, Reset(0, regs), NO_TRAFFIC, ins) && (n >= 37 ==> Trace(m, Reset(0, regs), ins) != [])
  {
    hide HasDecoder, AluAdds, Consistent, Supported, FairRun, Trace, Replies;
    LoopIsGood();
    LoopIsSupported(regs);
    LoopRetires(regs, n);
  }
}
