/** What every run of the core does, whatever the memories' grants, delays and stalls. */
module EndToEnd {
  import opened Words
  import opened Gprs
  import opened Machine
  import Fetch
  import opened Core
  import opened Refinement

  /** The architectural state after reset. */
  function Boot(reset: Word, regs: Regs): Arch { Arch(reset, regs, 0, []) }

  const NO_TRAFFIC: Env := Env([], [], [])

  lemma ResetInv(m: Machine, reset: Word, regs: Regs)
    requires Aligned4(reset)
    ensures Inv(m, Reset(reset, regs), NO_TRAFFIC, Boot(reset, regs))
  {
    Aligned4Plus4(reset);
  }

  /** The pipeline state stands for `q`, from which the program is a supported one. */
  ghost predicate Simulates(m: Machine, s: State, e: Env, q: Arch) {
    GoodDecoder(m) && Inv(m, s, e, q) && Supported(m, q)
  }

  /** The retired state after one cycle. */
  function After(m: Machine, s: State, i: Input, q: Arch): Arch {
    if Retires(m, s, i) then Step(m, q) else q
  }

  /** One cycle: the pipeline either retires the next instruction of the sequential machine
      or leaves the retired state alone. */
  lemma CycleRefines(m: Machine, s: State, i: Input, e: Env, q: Arch)
    requires Simulates(m, s, e, q) && Fair(m, s, i, e)
    ensures Simulates(m, Next(m, s, i), NextEnv(m, s, i, e), After(m, s, i, q))
    ensures s.pc == q.pc
  {
    LockStep(m, s, i);
    SupportedStep(m, q);
    if Flush(s, i) {
      FlushStep(m, s, i, e, q);
    } else if Busy2(m, s, i) {
      HoldStep(m, s, i, e, q);
    } else {
      ShiftStep(m, s, i, e, q);
    }
  }

  // ---------------------------------------------------------------- runs

  function Run(m: Machine, s: State, e: Env, ins: seq<Input>): (State, Env)
    decreases |ins|
  {
    if ins == [] then (s, e) else Run(m, Next(m, s, ins[0]), NextEnv(m, s, ins[0], e), ins[1..])
  }

  predicate FairRun(m: Machine, s: State, e: Env, ins: seq<Input>)
    decreases |ins|
  {
    ins != [] ==>
      Fair(m, s, ins[0], e) && FairRun(m, Next(m, s, ins[0]), NextEnv(m, s, ins[0], e), ins[1..])
  }

  /** trs_pc in the cycles with trs_valid: the program counters of retired instructions. */
  function Trace(m: Machine, s: State, ins: seq<Input>): seq<Word>
    decreases |ins|
  {
    if ins == [] then []
    else (if Retires(m, s, ins[0]) then [s.pc] else []) + Trace(m, Next(m, s, ins[0]), ins[1..])
  }

  /** The first `n` program counters of the sequential machine. */
  function Path(m: Machine, q: Arch, n: nat): seq<Word>
    decreases n
  {
    if n == 0 then [] else [q.pc] + Path(m, Step(m, q), n - 1)
  }

  lemma {:induction false} RunSimulates(m: Machine, s: State, e: Env, ins: seq<Input>, q: Arch)
    requires Simulates(m, s, e, q) && FairRun(m, s, e, ins)
    ensures var (s', e') := Run(m, s, e, ins); Simulates(m, s', e', Iter(m, q, |Trace(m, s, ins)|))
    decreases |ins|
  {
    hide Inv, Next, NextEnv, Step, Fair, Retires;
    if ins != [] {
      CycleRefines(m, s, ins[0], e, q);
      RunSimulates(m, Next(m, s, ins[0]), NextEnv(m, s, ins[0], e), ins[1..], After(m, s, ins[0], q));
    }
  }

  lemma {:induction false} TraceIsPath(m: Machine, s: State, e: Env, ins: seq<Input>, q: Arch)
    requires Simulates(m, s, e, q) && FairRun(m, s, e, ins)
    ensures Trace(m, s, ins) == Path(m, q, |Trace(m, s, ins)|)
    decreases |ins|
  {
    hide Inv, Next, NextEnv, Step, Fair, Retires;
    if ins != [] {
      CycleRefines(m, s, ins[0], e, q);
      TraceIsPath(m, Next(m, s, ins[0]), NextEnv(m, s, ins[0], e), ins[1..], After(m, s, ins[0], q));
    }
  }

  /** End-to-end refinement. From reset, for every supported program and every fair schedule of
      grants, answers and stalls: the retired program counters are those of the sequential
      machine; after n retirements the register file is the machine's after n instructions, or
      after n + 1 while one more is in writeback; and the data-memory requests are those of its
      first n, n + 1 or n + 2 instructions, exactly n once writeback and memory are empty. */
  lemma Refines(m: Machine, reset: Word, regs: Regs, ins: seq<Input>)
    requires GoodDecoder(m) && Aligned4(reset)
    requires Supported(m, Boot(reset, regs))
    requires FairRun(m, Reset(reset, regs), NO_TRAFFIC, ins)
    ensures var q0 := Boot(reset, regs);
      var pcs := Trace(m, Reset(reset, regs), ins);
      var n := |pcs|;
      var (s, e) := Run(m, Reset(reset, regs), NO_TRAFFIC, ins);
      && pcs == Path(m, q0, n)
      && s.pc == Iter(m, q0, n).pc
      && (s.regs == Iter(m, q0, n).regs || (s.s4.size != 0 && s.regs == Iter(m, q0, n + 1).regs))
      && (s.mepc == Iter(m, q0, n).mepc || (s.s4.size != 0 && s.mepc == Iter(m, q0, n + 1).mepc))
      && (|| e.hist == Iter(m, q0, n).hist
          || e.hist == Iter(m, q0, n + 1).hist
          || e.hist == Iter(m, q0, n + 2).hist)
      && (s.s4.size == 0 && s.s3.size == 0 ==> e.hist == Iter(m, q0, n).hist)
  {
    var q0, s0 := Boot(reset, regs), Reset(reset, regs);
    ResetInv(m, reset, regs);
    RunSimulates(m, s0, NO_TRAFFIC, ins, q0);
    TraceIsPath(m, s0, NO_TRAFFIC, ins, q0);
    var n := |Trace(m, s0, ins)|;
    IterSnoc(m, q0, n);
    IterSnoc(m, q0, n + 1);
  }
}
