/** Two runs from reset in which an instruction behind an xc.gather takes a value that the
    register of its rd field never held. */
module GatherRuns {
  import opened Words
  import opened Gprs
  import opened Machine
  import Fetch
  import opened Core
  import opened Refinement
  import opened EndToEnd
  import opened Decode
  import opened XcMemory
  import opened Program
  import opened ShortRuns

  // ---------------------------------------------------------------- the program

  /** xc.gather.b x5, (x6), x7 */
  const GATHER_WORD: Instr := 0x3C73_1293

  /** add x1, x5, x0 */
  const ADD_WORD: Instr := 0x0002_80B3

  const GATHER: Ctrl := Ctrl(ACCESS, 5, 6, 7, 7, Rs1, Rs2(0), Rs3, 0, 0, false)

  const ADD: Ctrl := Ctrl(AluOp(ALU_ADD), 1, 5, 0, 0, Rs1, Rs2(0), NoC, 0, 0, false)

  function GatherMachine(): Machine {
    Machine(a => if a == 0 then GATHER_WORD else if a == 4 then ADD_WORD else 0,
            w => ToCtrl(DecodeRaw(w, XcRaw)), AddOrPick,
            (_, _, _) => false, (_, _) => 0, (_, _, _) => 0, (_, _, _, _) => 0, _ => 0, (_, _) => false, 0)
  }

  lemma RawWords()
    ensures DecodeRaw(0, XcRaw) == ILLEGAL
    ensures DecodeRaw(GATHER_WORD, XcRaw) == Raw(ACCESS, 5, 6, 7, 7, Rs1, Rs2(0), Rs3, 0, 0, false)
    ensures DecodeRaw(ADD_WORD, XcRaw) == RegReg(AluOp(ALU_ADD), 1, 5, 0)
  {
  }

  lemma Fields()
    ensures RegOf(0) == 0 && RegOf(1) == 1 && RegOf(5) == 5 && RegOf(6) == 6 && RegOf(7) == 7 && WordOf(0) == 0
  {
  }

  lemma Decodes()
    ensures var m := GatherMachine();
      && Starts(m, GATHER_WORD, ADD_WORD) && m.decode(GATHER_WORD) == GATHER && m.decode(ADD_WORD) == ADD
  {
    hide DecodeRaw, RegOf, WordOf;
    RawWords();
    Fields();
    assert !Compressed(Lo(GATHER_WORD)) && !Compressed(Lo(ADD_WORD));
  }

  lemma IsGood()
    ensures HasDecoder(GatherMachine(), XcRaw) && GoodDecoder(GatherMachine())
  {
    hide DecodeRaw, ToCtrl, XcRaw;
    forall w: Instr
      ensures Consistent(XcRaw(w))
    {
      XcConsistent(w);
    }
    DecoderIsGood(GatherMachine(), XcRaw);
  }

  // ---------------------------------------------------------------- pipeline registers

  /** The address of the gather. */
  function At(regs: Regs): Word { Add(regs[6], regs[7]) }

  function Gather2(regs: Regs): Stage2 { Stage2(GATHER.op, 5, false, 4, regs[6], regs[7], regs[7]) }

  function Gather3(regs: Regs): Stage3 { Stage3(GATHER.op, 5, false, 4, At(regs), 0) }

  function Gather4(regs: Regs): Stage4 { Stage4(GATHER.op, 5, false, 4, 0, At(regs), false, 0) }

  /** The add with `v` for x5. */
  function Add2(regs: Regs, v: Word): Stage2 { Stage2(ADD.op, 1, false, 4, v, 0, regs[7]) }

  function Add3(v: Word): Stage3 { Stage3(ADD.op, 1, false, 4, v, 0) }

  function Add4(regs: Regs, v: Word): Stage4 { Stage4(ADD.op, 1, false, 4, v, At(regs), false, 0) }

  /** Bubbles; the operand registers keep what they held. */
  function Bubble2(a: Word, b: Word, c: Word): Stage2 { Stage2(Nop, 0, false, 0, a, b, c) }

  function Bubble3(a: Word): Stage3 { Stage3(Nop, 0, false, 0, a, 0) }

  function Bubble4(a: Word, b: Word): Stage4 { Stage4(Nop, 0, false, 0, a, b, false, 0) }

  function Sent(regs: Regs): Env { Env([], [Req(false, WordAddr(At(regs)), 0, 0)], [0]) }

  function Done(regs: Regs): Env { Sent(regs).(answers := []) }

  // ---------------------------------------------------------------- the add follows at once

  /** The state `k` cycles after the gather has entered the buffer. */
  function Near(k: nat, regs: Regs): State
    requires k <= 5
  {
    var (a, c) := (At(regs), regs[7]);
    if k == 0 then Pipe(Filled(8, 1, GATHER_WORD, 0), Bubble2(0, 0, 0), Bubble3(0), Bubble4(0, 0), 0, regs)
    else if k == 1 then Pipe(Filled(8, 0, ADD_WORD, 4), Gather2(regs), Bubble3(0), Bubble4(0, 0), 0, regs)
    else if k == 2 then Pipe(Asking(8, 0, 8), Add2(regs, a), Gather3(regs), Bubble4(0, 0), 0, regs)
    else if k == 3 then Pipe(Asking(8, 0, 8), Bubble2(a, 0, c), Add3(a), Gather4(regs), 0, regs)
    else if k == 4 then Pipe(Asking(8, 0, 8), Bubble2(a, 0, c), Bubble3(a), Add4(regs, a), 4, regs)
    else Pipe(Asking(8, 0, 8), Bubble2(a, 0, c), Bubble3(a), Bubble4(a, a), 8, Write(regs, 1, false, a, 0))
  }

  /** The add arrives. */
  const FETCHED: Input := Cycle(false, true, ADD_WORD, false)

  lemma Near1(regs: Regs)
    ensures Leads(GatherMachine(), Near(0, regs), FETCHING, [FETCHED], Near(1, regs), NO_TRAFFIC, [])
  {
    hide Fetch.Next, Fetch.BufOut, Fetch.HasInstr, DecodeRaw, ToCtrl, Compressed, Lo, Hi, Leads, SizeOf;
    Decodes();
    WholeInstr(GATHER_WORD);
    FetchHands(8, 1, GATHER_WORD, 0, true, ADD_WORD);
    assert FlowEnv(GatherMachine(), Near(0, regs), FETCHED, FETCHING) == NO_TRAFFIC;
    Flow(GatherMachine(), Near(0, regs), FETCHED, FETCHING);
  }

  lemma Near2(regs: Regs)
    ensures Leads(GatherMachine(), Near(1, regs), NO_TRAFFIC, [QUIET], Near(2, regs), NO_TRAFFIC, [])
  {
    hide Fetch.Next, Fetch.BufOut, Fetch.HasInstr, DecodeRaw, ToCtrl, Compressed, Lo, Hi, Leads, SizeOf;
    Decodes();
    WholeInstr(ADD_WORD);
    FetchHands(8, 0, ADD_WORD, 4, false, 0);
    assert FlowEnv(GatherMachine(), Near(1, regs), QUIET, NO_TRAFFIC) == NO_TRAFFIC;
    Flow(GatherMachine(), Near(1, regs), QUIET, NO_TRAFFIC);
  }

  lemma Near3(regs: Regs)
    requires !InMmio(At(regs))
    ensures Leads(GatherMachine(), Near(2, regs), NO_TRAFFIC, [QUIET], Near(3, regs), Sent(regs), [])
  {
    hide Fetch.Next, DecodeRaw, ToCtrl, Leads, InMmio;
    Decodes();
    FetchWaits(8, 0, 8, false);
    assert FlowEnv(GatherMachine(), Near(2, regs), QUIET, NO_TRAFFIC) == Sent(regs);
    Flow(GatherMachine(), Near(2, regs), QUIET, NO_TRAFFIC);
  }

  lemma Near4(regs: Regs)
    ensures Leads(GatherMachine(), Near(3, regs), Sent(regs), [ANSWERED], Near(4, regs), Done(regs), [0])
  {
    hide Fetch.Next, DecodeRaw, ToCtrl, Leads, InMmio;
    Decodes();
    FetchWaits(8, 0, 8, false);
    assert FlowEnv(GatherMachine(), Near(3, regs), ANSWERED, Sent(regs)) == Done(regs);
    Flow(GatherMachine(), Near(3, regs), ANSWERED, Sent(regs));
  }

  lemma Near5(regs: Regs)
    ensures Leads(GatherMachine(), Near(4, regs), Done(regs), [QUIET], Near(5, regs), Done(regs), [4])
  {
    hide Fetch.Next, DecodeRaw, ToCtrl, Leads, InMmio;
    Decodes();
    FetchWaits(8, 0, 8, false);
    assert FlowEnv(GatherMachine(), Near(4, regs), QUIET, Done(regs)) == Done(regs);
    Flow(GatherMachine(), Near(4, regs), QUIET, Done(regs));
  }

  // ---------------------------------------------------------------- the add comes two cycles late

  function Far(k: nat, regs: Regs): State
    requires k <= 7
  {
    var (a, c) := (At(regs), regs[7]);
    var empty := Bubble2(regs[6], c, c);
    if k == 0 then Near(0, regs)
    else if k == 1 then Pipe(Asking(8, 1, 4), Gather2(regs), Bubble3(0), Bubble4(0, 0), 0, regs)
    else if k == 2 then Pipe(Asking(8, 1, 4), empty, Gather3(regs), Bubble4(0, 0), 0, regs)
    else if k == 3 then Pipe(Filled(8, 0, ADD_WORD, 4), empty, Bubble3(a), Gather4(regs), 0, regs)
    else if k == 4 then Pipe(Asking(8, 0, 8), Add2(regs, 0), Bubble3(a), Bubble4(0, a), 4, regs)
    else if k == 5 then Pipe(Asking(8, 0, 8), Bubble2(0, 0, c), Add3(0), Bubble4(0, a), 4, regs)
    else if k == 6 then Pipe(Asking(8, 0, 8), Bubble2(0, 0, c), Bubble3(0), Add4(regs, 0), 4, regs)
    else Pipe(Asking(8, 0, 8), Bubble2(0, 0, c), Bubble3(0), Bubble4(0, a), 8, Write(regs, 1, false, 0, 0))
  }

  lemma Far1(regs: Regs)
    ensures Leads(GatherMachine(), Far(0, regs), FETCHING, [QUIET], Far(1, regs), FETCHING, [])
  {
    hide Fetch.Next, Fetch.BufOut, Fetch.HasInstr, DecodeRaw, ToCtrl, Compressed, Lo, Hi, Leads, SizeOf;
    Decodes();
    WholeInstr(GATHER_WORD);
    FetchHands(8, 1, GATHER_WORD, 0, false, 0);
    assert FlowEnv(GatherMachine(), Far(0, regs), QUIET, FETCHING) == FETCHING;
    Flow(GatherMachine(), Far(0, regs), QUIET, FETCHING);
  }

  lemma Far2(regs: Regs)
    ensures Leads(GatherMachine(), Far(1, regs), FETCHING, [QUIET], Far(2, regs), FETCHING, [])
  {
    hide Fetch.Next, DecodeRaw, ToCtrl, Leads, InMmio;
    Decodes();
    FetchWaits(8, 1, 4, false);
    assert FlowEnv(GatherMachine(), Far(1, regs), QUIET, FETCHING) == FETCHING;
    Flow(GatherMachine(), Far(1, regs), QUIET, FETCHING);
  }

  lemma Far3(regs: Regs)
    requires !InMmio(At(regs))
    ensures Leads(GatherMachine(), Far(2, regs), FETCHING, [FETCHED], Far(3, regs), Sent(regs), [])
  {
    hide Fetch.Next, DecodeRaw, ToCtrl, Leads, InMmio;
    Decodes();
    FetchFills(8, 4, false, ADD_WORD);
    assert FlowEnv(GatherMachine(), Far(2, regs), FETCHED, FETCHING) == Sent(regs);
    Flow(GatherMachine(), Far(2, regs), FETCHED, FETCHING);
  }

  lemma Far4(regs: Regs)
    ensures Leads(GatherMachine(), Far(3, regs), Sent(regs), [ANSWERED], Far(4, regs), Done(regs), [0])
  {
    hide Fetch.Next, Fetch.BufOut, Fetch.HasInstr, DecodeRaw, ToCtrl, Compressed, Lo, Hi, Leads, SizeOf;
    Decodes();
    WholeInstr(ADD_WORD);
    FetchHands(8, 0, ADD_WORD, 4, false, 0);
    assert FlowEnv(GatherMachine(), Far(3, regs), ANSWERED, Sent(regs)) == Done(regs);
    Flow(GatherMachine(), Far(3, regs), ANSWERED, Sent(regs));
  }

  lemma Far5(regs: Regs)
    ensures Leads(GatherMachine(), Far(4, regs), Done(regs), [QUIET], Far(5, regs), Done(regs), [])
  {
    hide Fetch.Next, DecodeRaw, ToCtrl, Leads, InMmio;
    Decodes();
    FetchWaits(8, 0, 8, false);
    assert FlowEnv(GatherMachine(), Far(4, regs), QUIET, Done(regs)) == Done(regs);
    Flow(GatherMachine(), Far(4, regs), QUIET, Done(regs));
  }

  lemma Far6(regs: Regs)
    ensures Leads(GatherMachine(), Far(5, regs), Done(regs), [QUIET], Far(6, regs), Done(regs), [])
  {
    hide Fetch.Next, DecodeRaw, ToCtrl, Leads, InMmio;
    Decodes();
    FetchWaits(8, 0, 8, false);
    assert FlowEnv(GatherMachine(), Far(5, regs), QUIET, Done(regs)) == Done(regs);
    Flow(GatherMachine(), Far(5, regs), QUIET, Done(regs));
  }

  lemma Far7(regs: Regs)
    ensures Leads(GatherMachine(), Far(6, regs), Done(regs), [QUIET], Far(7, regs), Done(regs), [4])
  {
    hide Fetch.Next, DecodeRaw, ToCtrl, Leads, InMmio;
    Decodes();
    FetchWaits(8, 0, 8, false);
    assert FlowEnv(GatherMachine(), Far(6, regs), QUIET, Done(regs)) == Done(regs);
    Flow(GatherMachine(), Far(6, regs), QUIET, Done(regs));
  }

  // ---------------------------------------------------------------- the sequential machine

  lemma Instructions()
    ensures var m := GatherMachine();
      && InstrAt(m.imem, 0) == GATHER_WORD && InstrAt(m.imem, 4) == ADD_WORD && InstrAt(m.imem, 8) == 0
      && SizeOf(GATHER_WORD) == 4 && SizeOf(ADD_WORD) == 4
  {
    hide InstrAt, DecodeRaw, Lo, Compressed, SizeOf;
    Decodes();
    InstrInWord(GatherMachine().imem, 0);
    InstrInWord(GatherMachine().imem, 4);
    NoInstr(GatherMachine().imem, 8);
  }

  lemma NoInstr(mem: Word -> Instr, a: Word)
    requires Aligned4(a) && mem(a) == 0
    ensures InstrAt(mem, a) == 0
  {
    Aligned4Plus2(a);
    assert Lo(0) == 0;
  }

  /** The gather, the add, and back to the start by way of the handler at zero. */
  lemma Steps(q: Arch)
    ensures var m, q' := GatherMachine(), Step(GatherMachine(), q);
      && (q.pc == 0 ==> q'.pc == 4 && q'.regs == q.regs && Dec(m, q) == GATHER)
      && (q.pc == 4 ==> q'.pc == 8 && q'.regs == Write(q.regs, 1, false, q.regs[5], 0) && !Dec(m, q).op.Mem?)
      && (q.pc == 8 ==> q'.pc == 0 && q'.regs == q.regs && Dec(m, q).illegal)
  {
    hide InstrAt, DecodeRaw, ToCtrl, SizeOf, Request;
    Decodes();
    Instructions();
  }

  /** The program runs round and round, with the same address for ever. */
  lemma {:induction false} Rounds(q: Arch, n: nat)
    requires q.pc == 0 || q.pc == 4 || q.pc == 8
    ensures var q' := Iter(GatherMachine(), q, n);
      && (q'.pc == 0 || q'.pc == 4 || q'.pc == 8)
      && q'.regs[6] == q.regs[6] && q'.regs[7] == q.regs[7]
    decreases n
  {
    hide Step;
    if n > 0 {
      Steps(q);
      Rounds(Step(GatherMachine(), q), n - 1);
    }
  }

  lemma AvoidsMmio(regs: Regs)
    requires !InMmio(At(regs))
    ensures NeverMmio(GatherMachine(), Boot(0, regs))
  {
    hide Step, InMmio, Iter, DecodeRaw, ToCtrl, InstrAt;
    forall n: nat
      ensures NoMmio(GatherMachine(), Iter(GatherMachine(), Boot(0, regs), n))
    {
      Rounds(Boot(0, regs), n);
      Steps(Iter(GatherMachine(), Boot(0, regs), n));
    }
  }

  lemma TwoSteps(regs: Regs)
    ensures var m, q0 := GatherMachine(), Boot(0, regs);
      Iter(m, q0, 2).regs[1] == regs[5] && Path(m, q0, 2) == [0, 4]
  {
    hide Step;
    var m, q0 := GatherMachine(), Boot(0, regs);
    Steps(q0);
    Steps(Step(m, q0));
    assert Iter(m, q0, 2) == Iter(m, Step(m, q0), 1) == Iter(m, Step(m, Step(m, q0)), 0);
    assert Path(m, q0, 2) == [0] + Path(m, Step(m, q0), 1) == [0] + ([4] + Path(m, Step(m, Step(m, q0)), 0));
  }

  /** The add reads the register that the gather names, right behind it. */
  lemma Feeds(regs: Regs)
    ensures !NeverFed(GatherMachine(), Boot(0, regs))
  {
    hide Step, InstrAt, DecodeRaw, ToCtrl, Addr;
    var q0 := Boot(0, regs);
    Steps(q0);
    Decodes();
    Instructions();
    assert Dec(GatherMachine(), Step(GatherMachine(), q0)) == ADD;
    assert !Unfed(GatherMachine(), q0) && Iter(GatherMachine(), q0, 0) == q0;
  }

  // ---------------------------------------------------------------- results

  /** The run keeps to everything that the refinement asks but the rule about gathers, and the
      first two instructions, the gather and the add, have retired. */
  ghost predicate Ends(regs: Regs, ins: seq<Input>, x1: Word) {
    var m, s0 := GatherMachine(), Reset(0, regs);
    var s := Run(m, s0, NO_TRAFFIC, ins).0;
    && HasDecoder(m, XcRaw) && GoodDecoder(m) && NeverMmio(m, Boot(0, regs)) && !NeverFed(m, Boot(0, regs))
    && FairRun(m, s0, NO_TRAFFIC, ins)
    && Trace(m, s0, ins) == Path(m, Boot(0, regs), 2)
    && s.s3.size == s.s4.size == 0 && s.regs[1] == x1
  }

  const NEAR: seq<Input> := [FETCHED, QUIET, QUIET, ANSWERED, QUIET]

  const NEAR_PCS: seq<seq<Word>> := [[], [], [], [0], [4]]

  const FAR: seq<Input> := [QUIET, QUIET, FETCHED, ANSWERED, QUIET, QUIET, QUIET]

  const FAR_PCS: seq<seq<Word>> := [[], [], [], [0], [], [], [4]]

  lemma RetiresBoth()
    ensures Concat(NEAR_PCS) == [0, 4] && Concat(FAR_PCS) == [0, 4]
  {
    assert Concat([[4]]) == [4] && Concat([[], [4]]) == [4] && Concat([[], [], [4]]) == [4];
    assert NEAR_PCS[1..][1..][1..] == [[0], [4]] && FAR_PCS[1..][1..][1..] == [[0], [], [], [4]];
    assert [[0], [4]][1..] == [[4]] && [[0], [], [], [4]][1..] == [[], [], [4]];
  }

  function NearEnv(k: nat, regs: Regs): Env {
    if k == 0 then FETCHING else if k <= 2 then NO_TRAFFIC else if k == 3 then Sent(regs) else Done(regs)
  }

  lemma NearStep(k: nat, regs: Regs)
    requires k < 5 && !InMmio(At(regs))
    ensures Leads(GatherMachine(), Near(k, regs), NearEnv(k, regs), [NEAR[k]], Near(k + 1, regs), NearEnv(k + 1, regs),
                  NEAR_PCS[k])
  {
    hide Leads, Near, DecodeRaw, ToCtrl;
    if k == 0 {
      Near1(regs);
    } else if k == 1 {
      Near2(regs);
    } else if k == 2 {
      Near3(regs);
    } else if k == 3 {
      Near4(regs);
    } else {
      Near5(regs);
    }
  }

  lemma NearRun(regs: Regs)
    requires !InMmio(At(regs))
    ensures Leads(GatherMachine(), Near(0, regs), FETCHING, NEAR, Near(5, regs), Done(regs), [0, 4])
  {
    hide Leads, Near, DecodeRaw, ToCtrl, Concat;
    var s, e := seq(6, k requires 0 <= k <= 5 => Near(k, regs)), seq(6, k requires 0 <= k <= 5 => NearEnv(k, regs));
    forall k | 0 <= k < 5
      ensures Leads(GatherMachine(), s[k], e[k], [NEAR[k]], s[k + 1], e[k + 1], NEAR_PCS[k])
    {
      NearStep(k, regs);
    }
    Chain(GatherMachine(), s, e, NEAR, NEAR_PCS);
    RetiresBoth();
  }

  function FarEnv(k: nat, regs: Regs): Env {
    if k <= 2 then FETCHING else if k == 3 then Sent(regs) else Done(regs)
  }

  lemma FarStep(k: nat, regs: Regs)
    requires k < 7 && !InMmio(At(regs))
    ensures Leads(GatherMachine(), Far(k, regs), FarEnv(k, regs), [FAR[k]], Far(k + 1, regs), FarEnv(k + 1, regs),
                  FAR_PCS[k])
  {
    hide Leads, Far, DecodeRaw, ToCtrl;
    if k == 0 {
      Far1(regs);
    } else if k == 1 {
      Far2(regs);
    } else if k == 2 {
      Far3(regs);
    } else if k == 3 {
      Far4(regs);
    } else if k == 4 {
      Far5(regs);
    } else if k == 5 {
      Far6(regs);
    } else {
      Far7(regs);
    }
  }

  lemma FarRun(regs: Regs)
    requires !InMmio(At(regs))
    ensures Leads(GatherMachine(), Far(0, regs), FETCHING, FAR, Far(7, regs), Done(regs), [0, 4])
  {
    hide Leads, Far, DecodeRaw, ToCtrl, Concat;
    var s, e := seq(8, k requires 0 <= k <= 7 => Far(k, regs)), seq(8, k requires 0 <= k <= 7 => FarEnv(k, regs));
    forall k | 0 <= k < 7
      ensures Leads(GatherMachine(), s[k], e[k], [FAR[k]], s[k + 1], e[k + 1], FAR_PCS[k])
    {
      FarStep(k, regs);
    }
    Chain(GatherMachine(), s, e, FAR, FAR_PCS);
    RetiresBoth();
  }

  lemma EndsAfter(regs: Regs, ins: seq<Input>, s: State)
    requires !InMmio(At(regs))
    requires Leads(GatherMachine(), Near(0, regs), FETCHING, ins, s, Done(regs), [0, 4])
    requires s.s3.size == s.s4.size == 0
    ensures Ends(regs, Opening(GATHER_WORD) + ins, s.regs[1])
  {
    var m, s0 := GatherMachine(), Reset(0, regs);
    hide Iter, Path, NeverMmio, NeverFed, GoodDecoder, HasDecoder, DecodeRaw, ToCtrl, Leads;
    Decodes();
    IsGood();
    AvoidsMmio(regs);
    Feeds(regs);
    TwoSteps(regs);
    Arrives(m, GATHER_WORD, ADD_WORD, regs);
    assert s0.(fetch := Filled(8, 1, GATHER_WORD, 0)) == Near(0, regs);
    Then(m, s0, NO_TRAFFIC, Opening(GATHER_WORD), Near(0, regs), FETCHING, [], ins, s, Done(regs), [0, 4]);
    assert [] + [0, 4] == [0, 4];
  }

  /** The add is in decode when the gather is in execute: x1 becomes the address of the gather,
      where the program says x5. */
  lemma WrongFromExecute(regs: Regs)
    requires !InMmio(At(regs))
    ensures Ends(regs, Opening(GATHER_WORD) + NEAR, At(regs))
    ensures Iter(GatherMachine(), Boot(0, regs), 2).regs[1] == regs[5]
  {
    hide Leads, Ends, Iter, InMmio, DecodeRaw, ToCtrl;
    TwoSteps(regs);
    NearRun(regs);
    EndsAfter(regs, NEAR, Near(5, regs));
  }

  /** The add reaches decode when the gather is in writeback: x1 becomes zero. */
  lemma WrongFromWriteback(regs: Regs)
    requires !InMmio(At(regs))
    ensures Ends(regs, Opening(GATHER_WORD) + FAR, 0)
    ensures Iter(GatherMachine(), Boot(0, regs), 2).regs[1] == regs[5]
  {
    hide Leads, Ends, Iter, InMmio, DecodeRaw, ToCtrl;
    TwoSteps(regs);
    FarRun(regs);
    EndsAfter(regs, FAR, Far(7, regs));
  }
}
