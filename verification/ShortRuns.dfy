/** Concrete runs from reset: programs of two 32-bit instructions, at 0 and at 4. */
module ShortRuns {
  import opened Words
  import opened Gprs
  import opened Machine
  import Fetch
  import opened Core
  import opened Refinement
  import opened EndToEnd

  // ---------------------------------------------------------------- runs and their parts

  /** The fair run `ins` goes from `s` and `e` to `s'` and `e'` and retires `pcs`. */
  predicate Leads(m: Machine, s: State, e: Env, ins: seq<Input>, s': State, e': Env, pcs: seq<Word>) {
    FairRun(m, s, e, ins) && Run(m, s, e, ins) == (s', e') && Trace(m, s, ins) == pcs
  }

  lemma OneCycle(m: Machine, s: State, e: Env, i: Input)
    requires Fair(m, s, i, e)
    ensures Leads(m, s, e, [i], Next(m, s, i), NextEnv(m, s, i, e), if Retires(m, s, i) then [s.pc] else [])
  {
    hide Fair, Next, NextEnv, Retires;
    var s', e' := Next(m, s, i), NextEnv(m, s, i, e);
    assert [i][1..] == [];
    assert FairRun(m, s', e', []) && Run(m, s', e', []) == (s', e') && Trace(m, s', []) == [];
  }

  lemma {:induction false} Then(
    m: Machine, s: State, e: Env, a: seq<Input>, s1: State, e1: Env, pcs: seq<Word>,
    b: seq<Input>, s2: State, e2: Env, more: seq<Word>)
    requires Leads(m, s, e, a, s1, e1, pcs) && Leads(m, s1, e1, b, s2, e2, more)
    ensures Leads(m, s, e, a + b, s2, e2, pcs + more)
    decreases |a|
  {
    hide Fair, Next, NextEnv, Retires;
    if a == [] {
      assert a + b == b && pcs + more == more;
    } else {
      var now := if Retires(m, s, a[0]) then [s.pc] else [];
      var rest := Trace(m, Next(m, s, a[0]), a[1..]);
      Then(m, Next(m, s, a[0]), NextEnv(m, s, a[0], e), a[1..], s1, e1, rest, b, s2, e2, more);
      assert (a + b)[0] == a[0] && (a + b)[1..] == a[1..] + b;
      assert now + rest + more == now + (rest + more);
    }
  }

  function Concat(parts: seq<seq<Word>>): seq<Word>
    decreases |parts|
  {
    if parts == [] then [] else parts[0] + Concat(parts[1..])
  }

  /** Cycle by cycle along a list of states. */
  lemma {:induction false} Chain(m: Machine, s: seq<State>, e: seq<Env>, ins: seq<Input>, pcs: seq<seq<Word>>)
    requires |s| == |e| == |ins| + 1 && |pcs| == |ins|
    requires forall k :: 0 <= k < |ins| ==> Leads(m, s[k], e[k], [ins[k]], s[k + 1], e[k + 1], pcs[k])
    ensures Leads(m, s[0], e[0], ins, s[|ins|], e[|ins|], Concat(pcs))
    decreases |ins|
  {
    if ins != [] {
      hide Leads;
      Chain(m, s[1..], e[1..], ins[1..], pcs[1..]);
      Then(m, s[0], e[0], [ins[0]], s[1], e[1], pcs[0], ins[1..], s[|ins|], e[|ins|], Concat(pcs[1..]));
      assert [ins[0]] + ins[1..] == ins;
    }
  }

  // ---------------------------------------------------------------- cycles in which all stages move

  /** Nothing in the pipeline stops it, redirects it or loads. */
  predicate Calm(m: Machine, s: State, i: Input) {
    !Busy2(m, s, i) && !CfReq(s) && !IsLoad(s.s2.op) && !IsLoad(s.s3.op) && !IsLoad(s.s4.op)
  }

  /** What the fetch stage sees in such a cycle. */
  function CalmFetch(s: State, i: Input): Fetch.Input {
    Fetch.Input(false, 0, i.iGnt, i.iRecv, i.iRdata, !S1Valid(s))
  }

  lemma CalmCycle(m: Machine, s: State, i: Input)
    requires Calm(m, s, i)
    ensures Next(m, s, i) ==
            State(Fetch.Next(s.fetch, CalmFetch(s, i)), Next2(m, s, i), false, Next3(m, s, i), false, false,
                  Next4(m, s, i), Add(s.pc, s.s4.size), false, false, NextGprs(m, s, i), s.mepc)
    ensures FetchInput(m, s, i) == CalmFetch(s, i)
    ensures Progress2(m, s, i) && !Busy3(m, s, i) && Progress3(m, s, i) && !Busy4(s, i) && !Flush(s, i)
    ensures Bubble(m, s, i) <==> !S1Valid(s)
    ensures Retires(m, s, i) <==> s.s4.size != 0
  {
    LockStep(m, s, i);
    hide Fetch.Next, Next2, Next3, Next4, NextGprs, Fetch.S1Valid, Depends;
  }

  /** No unit, bus or access holds the pipeline up, and the last stages hold neither a redirect
      nor a load. */
  predicate Flows(m: Machine, s: State, i: Input) {
    && i.dGnt && i.mulReady && i.asiReady
    && !CfReq(s) && !IsLoad(s.s2.op) && !IsLoad(s.s3.op) && !IsLoad(s.s4.op)
    && (s.s3.op.Mem? ==> !InMmio(s.s3.a) && !AErr(m, s.s3.op, s.s3.a) && !s.lsuFinished)
    && (s.s4.op.Mem? ==> i.dRecv && !s.rspSeen && !s.s4.mmio)
  }

  lemma FlowIsCalm(m: Machine, s: State, i: Input)
    requires Flows(m, s, i)
    ensures Calm(m, s, i)
    ensures DmemGranted(m, s, i) <==> s.s3.op.Mem?
    ensures DataAccepted(s, i) <==> s.s4.op.Mem?
    ensures GprWen(s, i) <==> s.s4.op.Compute?
  {
    hide InMmio, AErr;
  }

  /** What decode gives for an empty buffer. */
  const NOTHING: Ctrl := Ctrl(Nop, 0, 0, 0, 0, NoA, NoB, NoC, 0, 0, true)

  /** What decode, execute and the memory stage hand on. */
  function Moved2(m: Machine, s: State, i: Input): Stage2 {
    var d := D(m, s);
    if s.fetch.buf == [] then Stage2(Nop, 0, false, 0, s.s2.a, s.s2.b, s.s2.c)
    else
      Stage2(d.op, if d.illegal then 2 else d.rd, d.illegal, SizeOf(Fetch.BufOut(s.fetch.buf)),
             if d.aSrc == NoA then s.s2.a else OprA(d, s.fetch.pc, Forward(m, s, i, d.rs1)),
             if d.bSrc == NoB then s.s2.b else OprB(d, Forward(m, s, i, d.rs2)),
             if d.cSrc == NoC then s.s2.c
             else OprC(d, s.fetch.pc, Forward(m, s, i, d.rs2), Forward(m, s, i, d.rs3)))
  }

  function Moved3(m: Machine, s2: Stage2, s3: Stage3): Stage3 {
    Stage3(ExecOp(m, s2), s2.rd, s2.trap, s2.size, if s2.op == Nop then s3.a else ExecA(m, s2),
           if Wide(s2.op) || (s2.op.Mem? && s2.op.store) then ExecB(m, s2) else s3.b)
  }

  function Moved4(m: Machine, s3: Stage3, s4: Stage4): Stage4 {
    if s3.op.Mem? then Stage4(s3.op, s3.rd, s3.trap, s3.size, s4.a, s3.a, false, m.strobe(s3.op, s3.a))
    else Stage4(s3.op, s3.rd, s3.trap, s3.size, if s3.op == Nop then s4.a else s3.a,
                if Wide(s3.op) then s3.b else s4.b, s4.mmio, s4.strb)
  }

  function Written(s: State): Regs {
    if s.s4.op.Compute? then Write(s.regs, s.s4.rd, Wide(s.s4.op), s.s4.a, s.s4.b) else s.regs
  }

  lemma FlowMoves(m: Machine, s: State, i: Input)
    requires Flows(m, s, i) && m.decode(0) == NOTHING && (s.fetch.buf == [] || S1Valid(s))
    ensures Next2(m, s, i) == Moved2(m, s, i)
    ensures Next3(m, s, i) == Moved3(m, s.s2, s.s3)
    ensures Next4(m, s, i) == Moved4(m, s.s3, s.s4)
    ensures NextGprs(m, s, i) == Written(s)
  {
    FlowIsCalm(m, s, i);
    CalmCycle(m, s, i);
    hide Calm, Busy2, Busy3, Busy4, ExecA, ExecB, ExecOp, AErr, InMmio, Flush, Progress2, Progress3, Forward;
    hide OprA, OprB, OprC, DmemGranted, DataAccepted, GprWen;
  }

  /** The memories' side. */
  function FlowEnv(m: Machine, s: State, i: Input, e: Env): Env {
    var hist := if s.s3.op.Mem? then e.hist + [DmemRequest(m, s)] else e.hist;
    Env(Fetch.NextPending(s.fetch, CalmFetch(s, i), e.pending), hist,
        (if s.s4.op.Mem? && e.answers != [] then e.answers[1..] else e.answers)
        + (if s.s3.op.Mem? then [m.answer(hist)] else []))
  }

  /** One cycle of a run in which everything flows. */
  lemma Flow(m: Machine, s: State, i: Input, e: Env)
    requires Flows(m, s, i) && m.decode(0) == NOTHING && (s.fetch.buf == [] || S1Valid(s))
    requires i.iRecv ==> e.pending != [] && i.iRdata == m.imem(e.pending[0])
    requires i.dRecv ==> e.answers != [] && i.dRdata == e.answers[0]
    ensures Leads(m, s, e, [i],
                  State(Fetch.Next(s.fetch, CalmFetch(s, i)), Moved2(m, s, i), false,
                        Moved3(m, s.s2, s.s3), false, false, Moved4(m, s.s3, s.s4),
                        Add(s.pc, s.s4.size), false, false, Written(s), s.mepc),
                  FlowEnv(m, s, i, e), if s.s4.size != 0 then [s.pc] else [])
  {
    FlowIsCalm(m, s, i);
    CalmCycle(m, s, i);
    FlowMoves(m, s, i);
    assert Fair(m, s, i, e);
    hide Next, Fetch.Next, Flows, Calm, Next2, Next3, Next4, NextGprs, Moved2, Moved3, Moved4, Written;
    hide DmemGranted, DataAccepted, Fetch.NextPending, DmemRequest, Retires;
    OneCycle(m, s, e, i);
  }

  // ---------------------------------------------------------------- the program and its memory

  /** The first two instructions are `w0` and `w1`. */
  predicate Starts(m: Machine, w0: Instr, w1: Instr) {
    && m.imem(0) == w0 && m.imem(4) == w1 && !Compressed(Lo(w0)) && !Compressed(Lo(w1))
    && m.decode(0) == NOTHING
  }

  lemma JoinHalves(w: Instr)
    ensures Join(Lo(w), Hi(w)) == w
  {
  }

  function Whole(w: Instr): seq<Half> { [Lo(w), Hi(w)] }

  lemma WholeInstr(w: Instr)
    requires !Compressed(Lo(w))
    ensures Fetch.HasInstr(Whole(w)) && Fetch.BufOut(Whole(w)) == w && SizeOf(w) == 4
    ensures Fetch.Eaten(Whole(w), true) == 2 && Whole(w)[2..] == []
  {
    hide Lo, Hi, Join, Compressed, Is16;
    JoinHalves(w);
    LowBits(Lo(w), Hi(w));
  }

  /** A 32-bit instruction in one word of memory. */
  lemma InstrInWord(mem: Word -> Instr, a: Word)
    requires Aligned4(a) && !Compressed(Lo(mem(a)))
    ensures InstrAt(mem, a) == mem(a) && SizeOf(mem(a)) == 4
  {
    hide Lo, Hi, Join, Compressed, Is16, WordAddr, UpperHalf;
    Aligned4Plus2(a);
    JoinHalves(mem(a));
    LowBits(Lo(mem(a)), Hi(mem(a)));
  }

  // ---------------------------------------------------------------- the fetch stage

  /** With the buffer empty and a request for `addr` on the bus. */
  function Asking(addr: Word, reqs: Fetch.Count, pc: Word): Fetch.State {
    Fetch.State(addr, true, reqs, 0, false, [], pc)
  }

  /** With one instruction in the buffer. */
  function Filled(addr: Word, reqs: Fetch.Count, w: Instr, pc: Word): Fetch.State {
    Fetch.State(addr, true, reqs, 0, false, Whole(w), pc)
  }

  function Bus(gnt: bool, recv: bool, rdata: Instr, busy: bool): Fetch.Input {
    Fetch.Input(false, 0, gnt, recv, rdata, busy)
  }

  lemma FetchStarts()
    ensures Fetch.Next(Fetch.Reset(0), Bus(false, false, 0, true)) == Asking(0, 0, 0)
  {
    assert Fetch.Reset(0).buf[0..] == [];
  }

  /** Waiting for an answer, with or without a grant. */
  lemma FetchWaits(addr: Word, reqs: Fetch.Count, pc: Word, gnt: bool)
    requires reqs <= 1 && (gnt ==> reqs == 0)
    ensures Fetch.Next(Asking(addr, reqs, pc), Bus(gnt, false, 0, true)) ==
            if gnt then Asking(Add(addr, 4), 1, pc) else Asking(addr, reqs, pc)
  {
    assert Asking(addr, reqs, pc).buf[0..] == [];
  }

  /** An answer fills the empty buffer. */
  lemma FetchFills(addr: Word, pc: Word, gnt: bool, w: Instr)
    ensures Fetch.Next(Asking(addr, 1, pc), Bus(gnt, true, w, true)) ==
            if gnt then Filled(Add(addr, 4), 1, w, pc) else Filled(addr, 0, w, pc)
  {
    hide Lo, Hi;
    assert Asking(addr, 1, pc).buf[0..] == [];
  }

  /** The instruction leaves, and the next one may arrive. */
  lemma FetchHands(addr: Word, reqs: Fetch.Count, w: Instr, pc: Word, recv: bool, w': Instr)
    requires !Compressed(Lo(w)) && reqs <= 1 && (recv ==> reqs == 1)
    ensures Fetch.Next(Filled(addr, reqs, w, pc), Bus(false, recv, w', false)) ==
            if recv then Filled(addr, 0, w', Add(pc, 4)) else Asking(addr, reqs, Add(pc, 4))
  {
    hide Lo, Hi, Compressed, Fetch.BufOut, Fetch.Eaten, SizeOf, Fetch.HasInstr;
    WholeInstr(w);
  }

  // ---------------------------------------------------------------- the first instruction arrives

  /** Both buses grant, or only the data bus; no unit is busy. */
  function Cycle(gnt: bool, recv: bool, rdata: Instr, dRecv: bool): Input {
    Input(gnt, recv, rdata, true, dRecv, 0, 0, true, true)
  }

  const QUIET: Input := Cycle(false, false, 0, false)

  /** The answer of the data memory. */
  const ANSWERED: Input := Cycle(false, false, 0, true)

  /** The second instruction is on its way. */
  const FETCHING: Env := Env([4], [], [])

  /** A pipeline in which nothing is finished early. */
  function Pipe(f: Fetch.State, s2: Stage2, s3: Stage3, s4: Stage4, pc: Word, regs: Regs): State {
    State(f, s2, false, s3, false, false, s4, pc, false, false, regs, 0)
  }

  function Opening(w: Instr): seq<Input> { [QUIET] + [Cycle(true, false, 0, false)] + [Cycle(true, true, w, false)] }

  /** A cycle with nothing in the pipeline. */
  lemma IdleCycle(m: Machine, f: Fetch.State, p: Fetch.Pending, i: Input, regs: Regs)
    requires m.decode(0) == NOTHING && f.buf == [] && i.dGnt && !i.dRecv && i.mulReady && i.asiReady
    requires i.iRecv ==> p != [] && i.iRdata == m.imem(p[0])
    ensures var s, f' := Reset(0, regs).(fetch := f), Fetch.Next(f, Bus(i.iGnt, i.iRecv, i.iRdata, true));
      Leads(m, s, Env(p, [], []), [i], s.(fetch := f'),
            Env(Fetch.NextPending(f, Bus(i.iGnt, i.iRecv, i.iRdata, true), p), [], []), [])
  {
    hide Fetch.Next, Fetch.NextPending, Leads, Forward;
    var s, e := Reset(0, regs).(fetch := f), Env(p, [], []);
    assert Flows(m, s, i) && CalmFetch(s, i) == Bus(i.iGnt, i.iRecv, i.iRdata, true);
    assert FlowEnv(m, s, i, e) == Env(Fetch.NextPending(f, CalmFetch(s, i), p), [], []);
    Flow(m, s, i, e);
  }

  /** After three cycles the first instruction is in the buffer. */
  lemma Arrives(m: Machine, w0: Instr, w1: Instr, regs: Regs)
    requires Starts(m, w0, w1)
    ensures Leads(m, Reset(0, regs), NO_TRAFFIC, Opening(w0),
                  Reset(0, regs).(fetch := Filled(8, 1, w0, 0)), Env([4], [], []), [])
  {
    hide Leads, Fetch.Next, Compressed, Lo;
    var s := Reset(0, regs);
    var s1, s2, s3 := s.(fetch := Asking(0, 0, 0)), s.(fetch := Asking(4, 1, 0)), s.(fetch := Filled(8, 1, w0, 0));
    var i1, i2 := Cycle(true, false, 0, false), Cycle(true, true, w0, false);
    FetchStarts();
    FetchWaits(0, 0, 0, true);
    FetchFills(4, 0, true, w0);
    assert s.(fetch := Fetch.Reset(0)) == s;
    assert Fetch.NextPending(Fetch.Reset(0), Bus(false, false, 0, true), []) == [];
    assert Fetch.NextPending(Asking(0, 0, 0), Bus(true, false, 0, true), []) == [0];
    assert Fetch.NextPending(Asking(4, 1, 0), Bus(true, true, w0, true), [0]) == [4];
    IdleCycle(m, Fetch.Reset(0), [], QUIET, regs);
    IdleCycle(m, Asking(0, 0, 0), [], i1, regs);
    IdleCycle(m, Asking(4, 1, 0), [0], i2, regs);
    Then(m, s, NO_TRAFFIC, [QUIET], s1, NO_TRAFFIC, [], [i1], s2, Env([0], [], []), []);
    Then(m, s, NO_TRAFFIC, [QUIET] + [i1], s2, Env([0], [], []), [], [i2], s3, Env([4], [], []), []);
  }
}
