/** What becomes of the front end when more fetches are unanswered than its counters can hold. */
module Limits {
  import opened Words
  import Fetch

  /** The environment of Fetch.Fair without its bound on pending fetches. */
  predicate Orderly(mem: Word -> Instr, s: Fetch.State, p: Fetch.Pending, ins: seq<Fetch.Input>)
    decreases |ins|
  {
    ins != [] ==>
      && Fetch.Answers(mem, ins[0], p)
      && (ins[0].cfReq ==> Aligned2(ins[0].cfTarget))
      && Orderly(mem, Fetch.Next(s, ins[0]), Fetch.NextPending(s, ins[0], p), ins[1..])
  }

  /** A redirect that leaves `n` fetches unanswered marks `n` modulo eight for discarding. */
  lemma MarkedStale(mem: Word -> Instr, s: Fetch.State, i: Fetch.Input, p: Fetch.Pending)
    requires Fetch.Inv(mem, s, p) && Fetch.Answers(mem, i, p) && Fetch.CfChange(s, i)
    ensures Fetch.Next(s, i).ignore == |Fetch.NextPending(s, i, p)| % Fetch.COUNTER_RANGE
  {
    Fetch.CountersCount(mem, s, i, p);
  }

  /** What a response puts into an empty buffer. */
  function Halves(w: Instr, upperOnly: bool): seq<Half> { if upperOnly then [Hi(w)] else [Lo(w), Hi(w)] }

  /** The stage has buffered the answer to the fetch of `a` for the instruction at its pc. */
  predicate Arrived(mem: Word -> Instr, start: Fetch.State, s: Fetch.State, a: Word) {
    s.pc == start.pc && s.buf == Halves(mem(a), start.misaligned)
  }

  /** After as many answers as are marked for discarding, the next one enters the buffer. */
  lemma {:induction false} AnswerArrives(mem: Word -> Instr, s: Fetch.State, p: Fetch.Pending, ins: seq<Fetch.Input>)
    requires Orderly(mem, s, p, ins) && Fetch.NoRedirect(s, p, ins)
    requires s.buf == [] && s.ignore < |p| && Fetch.Accepted(s, p, ins) > s.ignore
    ensures exists k :: 0 <= k <= |ins| && Arrived(mem, s, Fetch.Run(s, p, ins[..k]).0, p[s.ignore])
    decreases |ins|
  {
    hide Arrived, Fetch.Next, Fetch.NextPending, Fetch.RspRecv, Fetch.CfChange, Fetch.Answers;
    var i := ins[0];
    var s', p' := Fetch.Next(s, i), Fetch.NextPending(s, i, p);
    AnswerTaken(mem, s, i, p);
    if Fetch.RspRecv(s, i) && s.ignore == 0 {
      assert ins[..1][1..] == [] && ins[..1][0] == i;
      assert Fetch.Run(s, p, ins[..1]).0 == s';
    } else {
      AnswerArrives(mem, s', p', ins[1..]);
      var k :| 0 <= k <= |ins[1..]| && Arrived(mem, s', Fetch.Run(s', p', ins[1..][..k]).0, p'[s'.ignore]);
      assert ins[..k + 1][0] == i && ins[..k + 1][1..] == ins[1..][..k];
      SameStart(mem, s, s', Fetch.Run(s', p', ins[1..][..k]).0, p[s.ignore]);
      assert Arrived(mem, s, Fetch.Run(s, p, ins[..k + 1]).0, p[s.ignore]);
    }
  }

  lemma SameStart(mem: Word -> Instr, s: Fetch.State, s': Fetch.State, u: Fetch.State, a: Word)
    requires s'.pc == s.pc && s'.misaligned == s.misaligned && Arrived(mem, s', u, a)
    ensures Arrived(mem, s, u, a)
  {
  }

  /** One cycle with an empty buffer. */
  lemma AnswerTaken(mem: Word -> Instr, s: Fetch.State, i: Fetch.Input, p: Fetch.Pending)
    requires Fetch.Answers(mem, i, p) && !Fetch.CfChange(s, i)
    requires s.buf == [] && s.ignore < |p|
    ensures var s', p' := Fetch.Next(s, i), Fetch.NextPending(s, i, p);
      if Fetch.RspRecv(s, i) && s.ignore == 0 then Arrived(mem, s, s', p[0])
      else
        && s'.buf == [] && s'.pc == s.pc && s'.misaligned == s.misaligned
        && s'.ignore == s.ignore - (if Fetch.RspRecv(s, i) then 1 else 0)
        && s'.ignore < |p'| && p'[s'.ignore] == p[s.ignore]
  {
    assert Fetch.EatenBy(s, i) == 0 && s.buf[0..] == [];
  }

  /** With eight or more fetches unanswered at a redirect, and whatever the delays afterwards, a
      stale answer enters the buffer as the instruction at the target. */
  lemma StaleFetchIsDelivered(
    mem: Word -> Instr, s: Fetch.State, i: Fetch.Input, p: Fetch.Pending, ins: seq<Fetch.Input>)
    requires Fetch.Inv(mem, s, p) && Fetch.Answers(mem, i, p)
    requires Fetch.CfChange(s, i) && Aligned2(i.cfTarget)
    requires |Fetch.NextPending(s, i, p)| >= Fetch.COUNTER_RANGE
    requires var s1, p1 := Fetch.Next(s, i), Fetch.NextPending(s, i, p);
      && Orderly(mem, s1, p1, ins) && Fetch.NoRedirect(s1, p1, ins)
      && Fetch.Accepted(s1, p1, ins) > |p1| % Fetch.COUNTER_RANGE
    ensures var s1, p1 := Fetch.Next(s, i), Fetch.NextPending(s, i, p);
      exists k :: 0 <= k <= |ins| &&
        var u := Fetch.Run(s1, p1, ins[..k]).0;
        u.pc == i.cfTarget && u.buf == Halves(mem(p1[|p1| % Fetch.COUNTER_RANGE]), UpperHalf(i.cfTarget))
  {
    var s1, p1 := Fetch.Next(s, i), Fetch.NextPending(s, i, p);
    MarkedStale(mem, s, i, p);
    assert s1.buf == [] && s1.pc == i.cfTarget && s1.misaligned == UpperHalf(i.cfTarget);
    hide Fetch.Inv, Fetch.Next, Fetch.NextPending, Fetch.NoRedirect, Orderly, Fetch.Accepted;
    AnswerArrives(mem, s1, p1, ins);
    var k :| 0 <= k <= |ins| && Arrived(mem, s1, Fetch.Run(s1, p1, ins[..k]).0, p1[s1.ignore]);
    assert Fetch.Run(s1, p1, ins[..k]).0.pc == i.cfTarget;
  }

  /** An instruction that starts with another half-word than memory holds at its pc is wrong. */
  lemma WrongHead(mem: Word -> Instr, s: Fetch.State)
    requires Fetch.S1Valid(s) && s.buf[0] != HalfAt(mem, s.pc)
    ensures WrongInstr(mem, s)
  {
    hide Lo, Canonical, InstrAt, Fetch.BufOut, HalfAt;
    LowOfBuffer(s.buf);
    LowOfInstr(mem, s.pc);
  }

  lemma LowOfBuffer(buf: seq<Half>)
    requires buf != []
    ensures Lo(Canonical(Fetch.BufOut(buf))) == buf[0]
  {
    hide Lo, Canonical, Join, Compressed;
    LowOfPair(buf[0], if |buf| == 1 then 0 else buf[1]);
  }

  lemma LowOfInstr(mem: Word -> Instr, pc: Word)
    ensures Lo(InstrAt(mem, pc)) == HalfAt(mem, pc)
  {
    hide Lo, Join, Compressed, HalfAt;
    LowOfPair(HalfAt(mem, pc), HalfAt(mem, Add(pc, 2)));
  }

  lemma LowOfPair(lo: Half, hi: Half)
    ensures Lo(Join(lo, hi)) == lo && Lo(lo as Instr) == lo && Lo(Canonical(Join(lo, hi))) == lo
  {
  }

  // ---------------------------------------------------------------- where the bound holds by itself

  /** Fetches unanswered or on the bus. */
  function Claimed(s: Fetch.State, p: Fetch.Pending): nat { |p| + if s.imemReq then 1 else 0 }

  /** No cycle of the run waits with half an instruction in the buffer. */
  predicate NoHalves(s: Fetch.State, p: Fetch.Pending, ins: seq<Fetch.Input>)
    decreases |ins|
  {
    ins != [] ==>
      && !Fetch.IncompleteInstr(s)
      && NoHalves(Fetch.Next(s, ins[0]), Fetch.NextPending(s, ins[0], p), ins[1..])
  }

  /** The stage itself asks for at most two words at a time. */
  lemma StaysTwo(mem: Word -> Instr, s: Fetch.State, i: Fetch.Input, p: Fetch.Pending)
    requires Claimed(s, p) <= 2 && s.reqs == |p| && Fetch.Answers(mem, i, p) && !Fetch.IncompleteInstr(s)
    ensures var s', p' := Fetch.Next(s, i), Fetch.NextPending(s, i, p);
      Claimed(s', p') <= 2 && s'.reqs == |p'| && Fetch.RedirectInTime(s, i, p)
  {
    hide Fetch.ImemAck, Fetch.CfChange, Fetch.IncompleteInstr;
  }

  lemma {:induction false} TwoIsFair(mem: Word -> Instr, s: Fetch.State, p: Fetch.Pending, ins: seq<Fetch.Input>)
    requires Claimed(s, p) <= 2 && s.reqs == |p|
    requires Orderly(mem, s, p, ins) && NoHalves(s, p, ins)
    ensures Fetch.Fair(mem, s, p, ins) && |Fetch.Run(s, p, ins).1| <= 2
    decreases |ins|
  {
    hide Fetch.Next, Fetch.NextPending, Fetch.Answers, Fetch.RedirectInTime, Fetch.IncompleteInstr;
    if ins != [] {
      StaysTwo(mem, s, ins[0], p);
      TwoIsFair(mem, Fetch.Next(s, ins[0]), Fetch.NextPending(s, ins[0], p), ins[1..]);
    }
  }

  /** From reset, with any memory that answers in order, a run that never waits with half an
      instruction in the buffer has at most two fetches unanswered, and every instruction that it
      offers is the right one. */
  lemma TwoOutstanding(mem: Word -> Instr, reset: Word, ins: seq<Fetch.Input>)
    requires Aligned4(reset) && Orderly(mem, Fetch.Reset(reset), [], ins)
    requires NoHalves(Fetch.Reset(reset), [], ins)
    ensures var (s, p) := Fetch.Run(Fetch.Reset(reset), [], ins);
      |p| <= 2 && (Fetch.S1Valid(s) ==> Canonical(Fetch.BufOut(s.buf)) == InstrAt(mem, s.pc))
  {
    hide Fetch.Next, Fetch.NextPending, Orderly, NoHalves, Fetch.Fair;
    TwoIsFair(mem, Fetch.Reset(reset), [], ins);
    Fetch.FrontEndCorrect(mem, reset, ins);
  }

  // ---------------------------------------------------------------- a run that goes wrong

  /** A memory with a 32-bit instruction that straddles the first two words. */
  function Straddle(a: Word): Instr {
    if a == 0 then 0x0003_0001 else if a == 0x100 then 0x0001_0005 else 0x0001_0009
  }

  function Quiet(gnt: bool): Fetch.Input { Fetch.Input(false, 0, gnt, false, 0, false) }

  /** `n` grants without an answer, one more together with a redirect, then an answer. */
  function GrantsThenRedirect(n: nat): seq<Fetch.Input>
    decreases n
  {
    if n == 0 then
      [Fetch.Input(true, 0x100, true, false, 0, false), Fetch.Input(false, 0, false, true, 0x0001_0009, false)]
    else [Quiet(true)] + GrantsThenRedirect(n - 1)
  }

  /** The first answer leaves half an instruction in the buffer, which keeps requests coming. */
  function Overrun(): seq<Fetch.Input> {
    [Quiet(false), Quiet(true), Fetch.Input(false, 0, false, true, 0x0003_0001, false)] + GrantsThenRedirect(7)
  }

  /** The buffer after the first answer, and when its compressed half has been handed on. */
  function TwoHalves(): seq<Half> { [1, 3] }

  function OneHalf(): seq<Half> { [3] }

  /** After the first answer and `k` more grants. */
  function Mid(k: nat): Fetch.State
    requires k < 8
  {
    Fetch.State(4 + 4 * k, true, k, 0, false, if k == 0 then TwoHalves() else OneHalf(), if k == 0 then 0 else 2)
  }

  function MidPending(k: nat): Fetch.Pending
    requires k < 8
    decreases k
  {
    if k == 0 then [] else MidPending(k - 1) + [4 * k]
  }

  lemma FirstHalves()
    ensures Compressed(1) && !Compressed(3)
  {
  }

  lemma MidEats(k: nat)
    requires k < 7
    ensures var s := Mid(k);
      && Fetch.S1Valid(s) == (k == 0) && !Fetch.RspRecv(s, Quiet(true))
      && (k == 0 ==> SizeOf(Fetch.BufOut(s.buf)) == 2)
      && Fetch.EatenBy(s, Quiet(true)) <= |s.buf|
      && s.buf[Fetch.EatenBy(s, Quiet(true))..] == OneHalf()
  {
    hide Compressed, SizeOf, Fetch.BufOut;
    FirstHalves();
    var s := Mid(k);
    if k == 0 {
      Fetch.SizeMatchesEaten(s);
      assert s.buf[1..] == [3];
    } else {
      assert s.buf[0..] == [3];
    }
  }

  lemma MidRequests(k: nat)
    requires k < 7
    ensures Fetch.NextReqs(Mid(k), Quiet(true)) == k + 1 && Fetch.NextImemReq(Mid(k), Quiet(true))
  {
    hide Compressed;
    FirstHalves();
  }

  lemma MidStep(k: nat)
    requires k < 7
    ensures Fetch.Next(Mid(k), Quiet(true)) == Mid(k + 1)
  {
    hide Fetch.S1Valid, Fetch.EatenBy, Fetch.BufOut, SizeOf, Fetch.Inserted, Fetch.NextReqs, Fetch.NextImemReq;
    hide Fetch.RspRecv, WordAddr, UpperHalf, MidPending, Compressed, OneHalf, TwoHalves;
    MidEats(k);
    MidRequests(k);
    NothingInserted(Mid(k));
    assert OneHalf() + [] == OneHalf();
  }

  lemma MidPends(k: nat)
    requires k < 7
    ensures Fetch.NextPending(Mid(k), Quiet(true), MidPending(k)) == MidPending(k + 1)
  {
    hide Fetch.RspRecv, Fetch.EatenBy, Fetch.BufOut, SizeOf;
    MidEats(k);
    assert Fetch.Granted(Mid(k), Quiet(true)) && Mid(k).imemAddr == 4 * (k + 1);
  }

  lemma NothingInserted(s: Fetch.State)
    ensures Fetch.Inserted(s, Quiet(true)) == []
  {
  }

  /** The state after the eighth grant and the redirect that comes with it. */
  function Redirected(): Fetch.State { Fetch.State(0x100, true, 0, 0, false, [], 0x100) }

  lemma RedirectCycle()
    ensures var s, i := Mid(7), GrantsThenRedirect(0)[0];
      Fetch.CfChange(s, i) && Fetch.Next(s, i) == Redirected()
  {
    hide Fetch.EatenBy, Fetch.BufOut, Fetch.Inserted, Fetch.ImemAck, SizeOf, Compressed;
    FirstHalves();
    Aligned4Plus2(0x100);
  }

  /** The stale answer arrives at the target. */
  lemma StaleCycle(p: Fetch.Pending)
    requires p != [] && p[0] == 4
    ensures var s, i := Redirected(), GrantsThenRedirect(0)[1];
      && Fetch.RspRecv(s, i) && !Fetch.CfChange(s, i) && Fetch.Answers(Straddle, i, p)
      && Fetch.Next(s, i).pc == 0x100 && Fetch.Next(s, i).buf == [9, 1]
  {
    hide Fetch.Next, Fetch.NextPending, Fetch.EatenBy;
    AnswerTaken(Straddle, Redirected(), GrantsThenRedirect(0)[1], p);
    assert Lo(0x0001_0009) == 9 && Hi(0x0001_0009) == 1;
  }

  predicate WrongInstr(mem: Word -> Instr, s: Fetch.State) {
    Fetch.S1Valid(s) && Canonical(Fetch.BufOut(s.buf)) != InstrAt(mem, s.pc)
  }

  /** The stale word 0x0001_0009 stands where memory holds 0x0005. */
  lemma WrongAtTarget(s: Fetch.State)
    requires s.pc == 0x100 && s.buf == [9, 1]
    ensures WrongInstr(Straddle, s)
  {
    Aligned4Plus2(0x100);
    assert HalfAt(Straddle, 0x100) == 5 && Compressed(9);
    WrongHead(Straddle, s);
  }

  lemma FirstPending(k: nat)
    requires 1 <= k < 8
    ensures MidPending(k) != [] && MidPending(k)[0] == 4
    decreases k
  {
    if k > 1 {
      FirstPending(k - 1);
    }
  }

  /** The redirect with the eighth grant, and the answer to the first of the eight. */
  lemma FromLast()
    ensures Orderly(Straddle, Mid(7), MidPending(7), GrantsThenRedirect(0))
    ensures WrongInstr(Straddle, Fetch.Run(Mid(7), MidPending(7), GrantsThenRedirect(0)).0)
  {
    hide Fetch.Next, Fetch.S1Valid, InstrAt, WrongInstr;
    RedirectCycle();
    FirstPending(7);
    var ins, s, p := GrantsThenRedirect(0), Mid(7), MidPending(7);
    var s1, p1 := Fetch.Next(s, ins[0]), Fetch.NextPending(s, ins[0], p);
    var s2, p2 := Fetch.Next(s1, ins[1]), Fetch.NextPending(s1, ins[1], p1);
    assert p1[0] == 4 && ins[1..] == [ins[1]] && ins[1..][1..] == [];
    StaleCycle(p1);
    assert Orderly(Straddle, s2, p2, []) && Fetch.Run(s2, p2, []) == (s2, p2);
    assert Orderly(Straddle, s1, p1, ins[1..]) && Fetch.Run(s1, p1, ins[1..]) == (s2, p2);
    WrongAtTarget(s2);
  }

  lemma {:induction false} FromMid(k: nat)
    requires k < 8
    ensures Orderly(Straddle, Mid(k), MidPending(k), GrantsThenRedirect(7 - k))
    ensures WrongInstr(Straddle, Fetch.Run(Mid(k), MidPending(k), GrantsThenRedirect(7 - k)).0)
    decreases 7 - k
  {
    hide Fetch.Next, Fetch.NextPending, WrongInstr;
    if k < 7 {
      MidStep(k);
      MidPends(k);
      FromMid(k + 1);
      assert GrantsThenRedirect(7 - k)[1..] == GrantsThenRedirect(7 - (k + 1));
    } else {
      FromLast();
    }
  }

  lemma FirstSteps()
    ensures var ins, s := Overrun(), Fetch.Reset(0);
      var s1 := Fetch.Next(s, ins[0]);
      var s2 := Fetch.Next(s1, ins[1]);
      && Fetch.NextPending(s, ins[0], []) == []
      && Fetch.NextPending(s1, ins[1], []) == [0]
      && Fetch.NextPending(s2, ins[2], [0]) == []
      && Fetch.Next(s2, ins[2]) == Mid(0)
  {
    var ins, s := Overrun(), Fetch.Reset(0);
    var s1 := Fetch.Next(s, ins[0]);
    assert s.buf[0..] == [] && s1 == Fetch.State(0, true, 0, 0, false, [], 0);
    var s2 := Fetch.Next(s1, ins[1]);
    assert s1.buf[0..] == [] && s2 == Fetch.State(4, true, 1, 0, false, [], 0);
    assert s2.buf[0..] == [] && Lo(0x0003_0001) == 1 && Hi(0x0003_0001) == 3;
  }

  /** Without the bound on pending fetches the front end is wrong: from reset, a memory that
      answers in order but late makes it offer an instruction that is not at its pc. */
  lemma FrontEndOverruns()
    ensures Orderly(Straddle, Fetch.Reset(0), [], Overrun())
    ensures WrongInstr(Straddle, Fetch.Run(Fetch.Reset(0), [], Overrun()).0)
  {
    hide Fetch.Next, Fetch.NextPending, WrongInstr, Canonical, InstrAt;
    FirstSteps();
    FromMid(0);
    var ins := Overrun();
    assert ins[1..][1..][1..] == GrantsThenRedirect(7);
    assert ins[1..][0] == ins[1] && ins[1..][1..][0] == ins[2];
  }
}
