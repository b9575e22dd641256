/** The pipeline does not deadlock: while its surroundings respond, instructions retire. */
module Liveness {
  import opened Words
  import opened Gprs
  import opened Machine
  import Fetch
  import opened Core
  import opened Refinement
  import opened EndToEnd

  /** In this cycle both buses grant, the answers that are due come, and no unit is busy. */
  predicate Responsive(i: Input, e: Env) {
    && i.iGnt && (e.pending != [] ==> i.iRecv)
    && i.dGnt && (e.answers != [] ==> i.dRecv)
    && i.mulReady && i.asiReady
  }

  /** Surroundings that respond in this way. */
  function Reply(m: Machine, e: Env): Input {
    Input(true, e.pending != [], if e.pending != [] then m.imem(e.pending[0]) else 0,
          true, e.answers != [], if e.answers != [] then e.answers[0] else 0, 0, true, true)
  }

  /** A misaligned access is about to be noticed by the load/store unit. */
  predicate Noticing(m: Machine, s: State) {
    s.s3.op.Mem? && AErr(m, s.s3.op, s.s3.a) && !s.lsuFinished
  }

  /** A responsive cycle moves the pipeline, by a shift or by a redirect, unless it is the one
      cycle that the memory stage takes to notice a misaligned access. */
  lemma Advances(m: Machine, s: State, i: Input, e: Env, q: Arch)
    requires Simulates(m, s, e, q) && Fair(m, s, i, e) && Responsive(i, e)
    ensures Flush(s, i) || !Busy2(m, s, i) || (Noticing(m, s) && !Noticing(m, Next(m, s, i)))
    ensures Flush(s, i) ==> Retires(m, s, i)
    ensures Busy2(m, s, i) && !Flush(s, i) ==>
              var s' := Next(m, s, i); s'.s4 == s.s4 && s'.s3 == s.s3 && s'.s2 == s.s2 && s'.fetch.pc == s.fetch.pc
  {
    LockStep(m, s, i);
    RedirectsAgree(m, s, e, q);
    NoMmioAhead(m, q, s.s4.size);
    assert WellFormed(Dec(m, q)) && WellFormed(Dec(m, Past(m, s.s4.size, q)));
    if Flush(s, i) {
      FlushStep(m, s, i, e, q);
    }
  }

  // ---------------------------------------------------------------- the back end

  /** Stages between the oldest instruction in the pipeline and its retirement. */
  function Distance(s: State): nat {
    if s.s4.size != 0 then 0 else if s.s3.size != 0 then 1 else if s.s2.size != 0 then 2 else 3
  }

  /** Decode or a later stage holds an instruction. */
  predicate Occupied(s: State) { Distance(s) < 3 || S1Valid(s) }

  function BackRank(m: Machine, s: State): nat { 2 * Distance(s) + if Noticing(m, s) then 1 else 0 }

  /** A responsive cycle retires an instruction or brings the oldest one closer. */
  lemma Closer(m: Machine, s: State, i: Input, e: Env, q: Arch)
    requires Simulates(m, s, e, q) && Fair(m, s, i, e) && Responsive(i, e)
    requires Occupied(s)
    ensures Retires(m, s, i) || (Distance(Next(m, s, i)) < 3 && BackRank(m, Next(m, s, i)) < BackRank(m, s))
  {
    LockStep(m, s, i);
    Advances(m, s, i, e, q);
    RedirectsAgree(m, s, e, q);
  }

  lemma BackBound(m: Machine, s: State, e: Env, q: Arch)
    requires Simulates(m, s, e, q)
    ensures BackRank(m, s) <= 6
  {
  }

  // ---------------------------------------------------------------- the front end

  /** Responses still needed, then a grant, then a request. */
  function FrontRank(s: State, e: Env): nat {
    3 * Fetch.Needed(s.fetch) + if e.pending != [] then 0 else if s.fetch.imemReq then 1 else 2
  }

  /** With nothing to decode and nothing in flight, a responsive cycle brings an instruction
      closer to decode. */
  lemma Fetches(m: Machine, s: State, i: Input, e: Env, q: Arch)
    requires Simulates(m, s, e, q) && Fair(m, s, i, e) && Responsive(i, e)
    requires !Occupied(s)
    ensures Occupied(Next(m, s, i)) || FrontRank(Next(m, s, i), NextEnv(m, s, i, e)) < FrontRank(s, e)
  {
    hide Next2, Next3, Next4;
    var f := FetchInput(m, s, i);
    assert !CfReq(s);
    Fetch.NeverStarves(m.imem, s.fetch, f, e.pending);
    Fetch.ResponseHelps(m.imem, s.fetch, f, e.pending);
  }

  // ---------------------------------------------------------------- together

  function Rank(m: Machine, s: State, e: Env): nat {
    if Occupied(s) then BackRank(m, s) else 7 + FrontRank(s, e)
  }

  predicate ResponsiveRun(m: Machine, s: State, e: Env, ins: seq<Input>)
    decreases |ins|
  {
    ins != [] ==>
      Responsive(ins[0], e) && ResponsiveRun(m, Next(m, s, ins[0]), NextEnv(m, s, ins[0], e), ins[1..])
  }

  /** A responsive cycle retires an instruction or lowers the rank. */
  lemma Progresses(m: Machine, s: State, i: Input, e: Env, q: Arch)
    requires Simulates(m, s, e, q) && Fair(m, s, i, e) && Responsive(i, e)
    ensures Retires(m, s, i) || Rank(m, Next(m, s, i), NextEnv(m, s, i, e)) < Rank(m, s, e)
  {
    hide Next, NextEnv, Inv, Fair, BackRank, FrontRank, Responsive, Retires;
    CycleRefines(m, s, i, e, q);
    BackBound(m, Next(m, s, i), NextEnv(m, s, i, e), After(m, s, i, q));
    if Occupied(s) {
      Closer(m, s, i, e, q);
    } else {
      Fetches(m, s, i, e, q);
    }
  }

  /** From every reachable state some instruction retires, within as many responsive cycles as
      the rank says and one more. */
  lemma {:induction false} RetiresSoon(m: Machine, s: State, e: Env, ins: seq<Input>, q: Arch)
    requires Simulates(m, s, e, q) && FairRun(m, s, e, ins) && ResponsiveRun(m, s, e, ins)
    requires |ins| > Rank(m, s, e)
    ensures Trace(m, s, ins) != []
    decreases |ins|
  {
    hide Inv, Next, NextEnv, Step, Fair, Retires, Rank, Responsive;
    Progresses(m, s, ins[0], e, q);
    if !Retires(m, s, ins[0]) {
      CycleRefines(m, s, ins[0], e, q);
      RetiresSoon(m, Next(m, s, ins[0]), NextEnv(m, s, ins[0], e), ins[1..], q);
    }
  }

  /** The rank never exceeds 36: seven stale answers, two more for an instruction that starts in
      the upper half of a word, a request and a grant, and the stages. */
  lemma RankBound(m: Machine, s: State, e: Env, q: Arch)
    requires Simulates(m, s, e, q)
    ensures Rank(m, s, e) <= 36
  {
    BackBound(m, s, e, q);
  }

  /** Every run from reset can go on: after any fair schedule, 37 responsive cycles retire
      another instruction. */
  lemma NeverStuck(m: Machine, reset: Word, regs: Regs, before: seq<Input>, ins: seq<Input>)
    requires GoodDecoder(m) && Aligned4(reset) && Supported(m, Boot(reset, regs))
    requires FairRun(m, Reset(reset, regs), NO_TRAFFIC, before)
    requires var (s, e) := Run(m, Reset(reset, regs), NO_TRAFFIC, before);
      FairRun(m, s, e, ins) && ResponsiveRun(m, s, e, ins)
    requires |ins| >= 37
    ensures var (s, e) := Run(m, Reset(reset, regs), NO_TRAFFIC, before);
      Trace(m, s, ins) != []
  {
    hide Inv, Next, NextEnv, Step, Fair, Retires, Rank, Responsive;
    var q0, s0 := Boot(reset, regs), Reset(reset, regs);
    ResetInv(m, reset, regs);
    RunSimulates(m, s0, NO_TRAFFIC, before, q0);
    var (s, e) := Run(m, s0, NO_TRAFFIC, before);
    var q := Iter(m, q0, |Trace(m, s0, before)|);
    RankBound(m, s, e, q);
    RetiresSoon(m, s, e, ins, q);
  }

  // ---------------------------------------------------------------- responding is possible

  /** Fetches unanswered or about to be requested fit the counter. */
  predicate Roomy(s: State, e: Env) { |e.pending| + (if s.fetch.imemReq then 1 else 0) <= 7 }

  lemma ReplyStaysRoomy(m: Machine, s: State, e: Env)
    requires Roomy(s, e) && Fetch.Counts(s.fetch.reqs, |e.pending|)
    ensures var i := Reply(m, e);
      && Fair(m, s, i, e) && Responsive(i, e)
      && Roomy(Next(m, s, i), NextEnv(m, s, i, e))
      && Fetch.Counts(Next(m, s, i).fetch.reqs, |NextEnv(m, s, i, e).pending|)
  {
    hide Next2, Next3, Next4, NextGprs, NextPc, NextMepc, Busy1, CfTarget, CfReq, DmemRequest, Fetch.BufOut;
    var f := FetchInput(m, s, Reply(m, e));
    Fetch.CountUp(s.fetch.reqs, |e.pending|, Fetch.Granted(s.fetch, f), Fetch.RspRecv(s.fetch, f));
    Fetch.CountIs(s.fetch.reqs, |e.pending|);
  }

  /** The inputs of `n` cycles in which the surroundings respond at once. */
  function Replies(m: Machine, s: State, e: Env, n: nat): (ins: seq<Input>)
    ensures |ins| == n
    decreases n
  {
    if n == 0 then []
    else var i := Reply(m, e); [i] + Replies(m, Next(m, s, i), NextEnv(m, s, i, e), n - 1)
  }

  lemma {:induction false} RepliesAreFair(m: Machine, s: State, e: Env, n: nat)
    requires Roomy(s, e) && Fetch.Counts(s.fetch.reqs, |e.pending|)
    ensures FairRun(m, s, e, Replies(m, s, e, n)) && ResponsiveRun(m, s, e, Replies(m, s, e, n))
    decreases n
  {
    hide Next, NextEnv, Fair, Responsive, Roomy, Reply, Fetch.Counts;
    if n > 0 {
      var i := Reply(m, e);
      ReplyStaysRoomy(m, s, e);
      RepliesAreFair(m, Next(m, s, i), NextEnv(m, s, i, e), n - 1);
      assert Replies(m, s, e, n)[1..] == Replies(m, Next(m, s, i), NextEnv(m, s, i, e), n - 1);
    }
  }

  /** From every reachable state with fewer than seven fetches unanswered, surroundings that
      respond at once are fair for any number of cycles, and 37 of them retire an instruction. */
  lemma ReplyingRetires(m: Machine, s: State, e: Env, q: Arch, n: nat)
    requires Simulates(m, s, e, q) && |e.pending| < 7 && n >= 37
    ensures FairRun(m, s, e, Replies(m, s, e, n)) && ResponsiveRun(m, s, e, Replies(m, s, e, n))
    ensures Trace(m, s, Replies(m, s, e, n)) != []
  {
    RepliesAreFair(m, s, e, n);
    RankBound(m, s, e, q);
    RetiresSoon(m, s, e, Replies(m, s, e, n), q);
  }
}
