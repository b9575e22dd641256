/** The fetch stage and the decode stage's program counter
    (frv_pipeline_fetch, frv_core_fetch_buffer).

    The fetch buffer is the sequence of half-words it holds; FetchUnit.dfy shows that
    the 64-bit shift register of the hardware behaves as this queue. */
module Fetch {
  import opened Words

  const COUNTER_RANGE: nat := 8

  /** A three-bit counter. */
  type Count = n: nat | n < COUNTER_RANGE

  /** Wrap-around of a three-bit counter moved by at most one in either direction. */
  function Bits3(x: int): Count
    requires -1 <= x <= 8
  {
    if x < 0 then 7 else if x == 8 then 0 else x
  }

  /** Clocked registers. */
  datatype State = State(
    imemAddr: Word,
    imemReq: bool,
    reqs: Count,         // reqs_outstanding
    ignore: Count,       // ignore_rsps
    misaligned: bool,    // fetch_misaligned
    buf: seq<Half>,      // buffer and bdepth
    pc: Word)            // program_counter of the decode stage

  /** What the stage sees in one cycle: the redirect bus, the memory bus and s1_busy. */
  datatype Input = Input(
    cfReq: bool, cfTarget: Word,
    gnt: bool, recv: bool, rdata: Instr,
    s1Busy: bool)

  const MAX_REQS_OUTSTANDING: nat := 1

  function Reset(pc: Word): State { State(pc, false, 0, 0, false, [], pc) }

  // ---------------------------------------------------------------- fetch buffer

  /** buf_out: the two oldest half-words, with zeros where the buffer holds none. */
  function BufOut(buf: seq<Half>): Instr {
    if buf == [] then 0 else if |buf| == 1 then Join(buf[0], 0) else Join(buf[0], buf[1])
  }

  predicate Buf16(buf: seq<Half>) { |buf| > 0 && Compressed(buf[0]) }

  predicate Buf32(buf: seq<Half>) { |buf| > 0 && !Compressed(buf[0]) }

  /** buf_valid: a complete instruction is at the head. */
  predicate HasInstr(buf: seq<Half>) { Buf16(buf) || (Buf32(buf) && |buf| >= 2) }

  /** Half-words removed when the consumer is ready (eat_2, eat_4). */
  function Eaten(buf: seq<Half>, ready: bool): nat {
    if !ready || !HasInstr(buf) then 0 else if Buf16(buf) then 1 else 2
  }

  /** f_ready: room for a whole response. */
  predicate BufRoom(buf: seq<Half>, eaten: nat) {
    |buf| <= 2 || (|buf| == 3 && eaten > 0) || (|buf| == 4 && eaten == 2)
  }

  // ---------------------------------------------------------------- wires

  predicate S1Valid(s: State) { HasInstr(s.buf) }

  predicate CfAck(s: State, i: Input) { !s.imemReq || i.gnt }

  predicate CfChange(s: State, i: Input) { i.cfReq && CfAck(s, i) }

  predicate Granted(s: State, i: Input) { s.imemReq && i.gnt }

  function EatenBy(s: State, i: Input): nat { Eaten(s.buf, S1Valid(s) && !i.s1Busy) }

  predicate ImemAck(s: State, i: Input) { BufRoom(s.buf, EatenBy(s, i)) }

  predicate RspRecv(s: State, i: Input) { i.recv && ImemAck(s, i) }

  function NextReqs(s: State, i: Input): Count {
    Bits3(s.reqs + (if Granted(s, i) then 1 else 0) - (if RspRecv(s, i) then 1 else 0))
  }

  predicate AllowNewReq(s: State, i: Input) {
    || s.reqs < MAX_REQS_OUTSTANDING
    || NextReqs(s, i) == 0
    || (s.reqs == MAX_REQS_OUTSTANDING && NextReqs(s, i) == MAX_REQS_OUTSTANDING)
  }

  predicate IncompleteInstr(s: State) { Buf32(s.buf) && |s.buf| == 1 }

  predicate NextImemReq(s: State, i: Input) {
    || ((ImemAck(s, i) || CfChange(s, i)) && AllowNewReq(s, i))
    || IncompleteInstr(s)
    || (s.imemReq && !i.gnt)
  }

  /** Half-words a response adds to the buffer (f_4byte, f_2byte, drop_response). */
  function Inserted(s: State, i: Input): seq<Half> {
    if !RspRecv(s, i) || s.ignore != 0 then []
    else if s.misaligned then [Hi(i.rdata)]
    else [Lo(i.rdata), Hi(i.rdata)]
  }

  /** One clock edge. */
  function Next(s: State, i: Input): State {
    State(
      if CfChange(s, i) then WordAddr(i.cfTarget)
      else if Granted(s, i) then Add(s.imemAddr, 4)
      else s.imemAddr,
      NextImemReq(s, i),
      NextReqs(s, i),
      if CfChange(s, i) then NextReqs(s, i)
      else if s.ignore != 0 then Bits3(s.ignore - (if RspRecv(s, i) then 1 else 0))
      else 0,
      if CfChange(s, i) then UpperHalf(i.cfTarget) else s.misaligned && |Inserted(s, i)| != 1,
      if CfChange(s, i) then [] else s.buf[EatenBy(s, i)..] + Inserted(s, i),
      if CfChange(s, i) then i.cfTarget
      else if S1Valid(s) && !i.s1Busy then Add(s.pc, SizeOf(BufOut(s.buf)))
      else s.pc)
  }

  // ---------------------------------------------------------------- environment

  /** Addresses granted by the memory and not yet answered, oldest first. */
  type Pending = seq<Word>

  function NextPending(s: State, i: Input, p: Pending): Pending {
    (if RspRecv(s, i) && p != [] then p[1..] else p) + (if Granted(s, i) then [s.imemAddr] else [])
  }

  /** The memory answers granted requests only, in order, with the word it holds. */
  predicate Answers(mem: Word -> Instr, i: Input, p: Pending) {
    i.recv ==> p != [] && i.rdata == mem(p[0])
  }

  // ---------------------------------------------------------------- invariant

  /** `buf` is the memory content from `a` on. */
  predicate Holds(mem: Word -> Instr, a: Word, buf: seq<Half>)
    decreases |buf|
  {
    buf != [] ==> buf[0] == HalfAt(mem, a) && Holds(mem, Add(a, 2), buf[1..])
  }

  /** The address `n` half-words after `a`. */
  function After(a: Word, n: nat): Word
    decreases n
  {
    if n == 0 then a else After(Add(a, 2), n - 1)
  }

  /** `p` lists consecutive word addresses from `a` up to `end`. */
  predicate Consecutive(a: Word, p: Pending, end: Word)
    decreases |p|
  {
    if p == [] then a == end else p[0] == a && Consecutive(Add(a, 4), p[1..], end)
  }

  /** Address of the word that the first fresh response carries. */
  function NextFresh(s: State): Word {
    if s.misaligned then Sub(s.pc, 2) else After(s.pc, |s.buf|)
  }

  /** A three-bit counter that has counted to `n`. */
  predicate Counts(c: Count, n: nat) { n % COUNTER_RANGE == c }

  /** The buffered half-words, then the words of the outstanding requests that will not
      be dropped (less the low half of the first one after a jump to an odd half-word),
      are the memory content from `pc` up to `imemAddr`. */
  ghost predicate Inv(mem: Word -> Instr, s: State, p: Pending) {
    && |s.buf| <= 4
    && Counts(s.reqs, |p|)
    && s.ignore <= |p|
    && Aligned4(s.imemAddr)
    && Aligned2(s.pc)
    && (s.misaligned ==> s.buf == [] && UpperHalf(s.pc))
    && Holds(mem, s.pc, s.buf)
    && Aligned4(NextFresh(s))
    && Consecutive(NextFresh(s), p[s.ignore..], s.imemAddr)
  }

  // ---------------------------------------------------------------- lemmas

  lemma {:induction false} ConsecutiveSnoc(a: Word, p: Pending, end: Word)
    requires Consecutive(a, p, end)
    ensures Consecutive(a, p + [end], Add(end, 4))
    decreases |p|
  {
    if p == [] {
    } else {
      ConsecutiveSnoc(Add(a, 4), p[1..], end);
      assert (p + [end])[1..] == p[1..] + [end];
    }
  }

  lemma {:induction false} HoldsConcat(mem: Word -> Instr, a: Word, x: seq<Half>, y: seq<Half>)
    requires Holds(mem, a, x) && Holds(mem, After(a, |x|), y)
    ensures Holds(mem, a, x + y)
    ensures After(a, |x + y|) == After(After(a, |x|), |y|)
    decreases |x|
  {
    if x == [] {
      assert x + y == y;
    } else {
      HoldsConcat(mem, Add(a, 2), x[1..], y);
      assert (x + y)[1..] == x[1..] + y;
    }
  }

  lemma {:induction false} HoldsDrop(mem: Word -> Instr, a: Word, x: seq<Half>, n: nat)
    requires n <= |x| && Holds(mem, a, x)
    ensures Holds(mem, After(a, n), x[n..])
    ensures After(After(a, n), |x[n..]|) == After(a, |x|)
    decreases n
  {
    if n > 0 {
      HoldsDrop(mem, Add(a, 2), x[1..], n - 1);
      assert x[1..][n - 1..] == x[n..];
    }
  }

  lemma HeadHalves(mem: Word -> Instr, pc: Word, buf: seq<Half>)
    requires buf != [] && Holds(mem, pc, buf)
    ensures buf[0] == HalfAt(mem, pc)
    ensures |buf| >= 2 ==> buf[1] == HalfAt(mem, Add(pc, 2))
  {
    if |buf| >= 2 {
      assert Holds(mem, Add(pc, 2), buf[1..]) && buf[1..][0] == buf[1];
    }
  }

  lemma JoinIsInstr(mem: Word -> Instr, pc: Word, lo: Half, hi: Half)
    requires lo == HalfAt(mem, pc)
    requires Compressed(lo) || hi == HalfAt(mem, Add(pc, 2))
    ensures Canonical(Join(lo, hi)) == InstrAt(mem, pc)
  {
    LowBits(lo, hi);
  }

  /** The instruction that the stage presents is the one in memory at the program counter. */
  lemma DeliversInstr(mem: Word -> Instr, s: State, p: Pending)
    requires Inv(mem, s, p) && S1Valid(s)
    ensures Canonical(BufOut(s.buf)) == InstrAt(mem, s.pc)
  {
    HeadHalves(mem, s.pc, s.buf);
    JoinIsInstr(mem, s.pc, s.buf[0], if |s.buf| == 1 then 0 else s.buf[1]);
  }

  lemma SizeMatchesEaten(s: State)
    requires S1Valid(s)
    ensures SizeOf(BufOut(s.buf)) == (if Buf16(s.buf) then 2 else 4)
    ensures After(s.pc, Eaten(s.buf, true)) == Add(s.pc, SizeOf(BufOut(s.buf)))
  {
    LowBits(s.buf[0], if |s.buf| >= 2 then s.buf[1] else 0);
    assert After(s.pc, 1) == Add(s.pc, 2);
    assert After(s.pc, 2) == After(Add(s.pc, 2), 1) == Add(s.pc, 4);
  }

  lemma CountUp(c: Count, n: nat, up: bool, down: bool)
    requires Counts(c, n) && (down ==> n > 0)
    ensures Counts(Bits3(c + (if up then 1 else 0) - (if down then 1 else 0)),
                   n + (if up then 1 else 0) - (if down then 1 else 0))
  {
  }

  lemma CountIs(c: Count, n: nat)
    requires Counts(c, n)
    ensures c == n <==> n < COUNTER_RANGE
    ensures c <= n
  {
  }

  /** The counters count modulo eight, and ignore_rsps goes down to zero. */
  lemma CountersCount(mem: Word -> Instr, s: State, i: Input, p: Pending)
    requires Inv(mem, s, p) && Answers(mem, i, p)
    ensures Counts(NextReqs(s, i), |NextPending(s, i, p)|)
    ensures !CfChange(s, i) ==>
              Next(s, i).ignore == if s.ignore > 0 && RspRecv(s, i) then s.ignore - 1 else s.ignore
  {
    CountUp(s.reqs, |p|, Granted(s, i), RspRecv(s, i));
  }

  /** A redirect makes every outstanding response stale. */
  lemma RedirectKeepsInv(mem: Word -> Instr, s: State, i: Input, p: Pending)
    requires Inv(mem, s, p) && Answers(mem, i, p)
    requires CfChange(s, i) && Aligned2(i.cfTarget)
    requires |NextPending(s, i, p)| < COUNTER_RANGE
    ensures Inv(mem, Next(s, i), NextPending(s, i, p))
  {
    CountersCount(mem, s, i, p);
    WordOfTarget(i.cfTarget);
    var p' := NextPending(s, i, p);
    CountIs(NextReqs(s, i), |p'|);
    assert p'[|p'|..] == [];
  }

  /** Consuming an instruction moves the program counter and leaves the rest in place. */
  lemma EatKeepsContent(mem: Word -> Instr, s: State, i: Input, p: Pending)
    requires Inv(mem, s, p) && !CfChange(s, i)
    ensures EatenBy(s, i) <= |s.buf|
    ensures Next(s, i).pc == After(s.pc, EatenBy(s, i))
    ensures Holds(mem, Next(s, i).pc, s.buf[EatenBy(s, i)..])
    ensures After(Next(s, i).pc, |s.buf[EatenBy(s, i)..]|) == After(s.pc, |s.buf|)
    ensures Aligned2(Next(s, i).pc)
  {
    if S1Valid(s) && !i.s1Busy {
      SizeMatchesEaten(s);
    }
    Aligned2Plus2(s.pc);
    HoldsDrop(mem, s.pc, s.buf, EatenBy(s, i));
  }

  /** A response that is not dropped carries the next half-words in order. */
  lemma InsertKeepsContent(mem: Word -> Instr, s: State, i: Input, p: Pending)
    requires Inv(mem, s, p) && Answers(mem, i, p) && !CfChange(s, i)
    ensures var s' := Next(s, i);
      && |s'.buf| <= 4
      && Holds(mem, s'.pc, s'.buf)
      && Aligned2(s'.pc)
      && (s'.misaligned ==> s'.buf == [] && UpperHalf(s'.pc))
      && Aligned4(NextFresh(s'))
      && NextFresh(s') == (if RspRecv(s, i) && s.ignore == 0 then Add(NextFresh(s), 4) else NextFresh(s))
  {
    var s' := Next(s, i);
    var rest, ins := s.buf[EatenBy(s, i)..], Inserted(s, i);
    EatKeepsContent(mem, s, i, p);
    if RspRecv(s, i) && s.ignore == 0 {
      var a := NextFresh(s);
      assert p[s.ignore..] == p;
      AlignedWord(mem, a);
      Aligned4Plus4(a);
      if s.misaligned {
        assert s'.pc == Add(a, 2) && rest == [] && s'.buf == ins;
        assert ins[1..] == [];
        assert After(s'.pc, 1) == Add(s'.pc, 2);
      } else {
        assert After(s'.pc, |rest|) == a;
        assert ins[1..][1..] == [];
        assert ins[1..][0] == HalfAt(mem, Add(a, 2));
        assert Holds(mem, a, ins);
        HoldsConcat(mem, s'.pc, rest, ins);
        assert After(a, 2) == After(Add(a, 2), 1) == Add(a, 4);
      }
    } else {
      assert s'.buf == rest;
    }
  }

  /** The fresh requests stay consecutive. */
  lemma PendingKeepsOrder(s: State, i: Input, p: Pending, a: Word)
    requires s.ignore <= |p| && (i.recv ==> p != [])
    requires Consecutive(a, p[s.ignore..], s.imemAddr)
    requires !CfChange(s, i)
    ensures var p', k' := NextPending(s, i, p), Next(s, i).ignore;
      && k' <= |p'|
      && Consecutive(if RspRecv(s, i) && s.ignore == 0 then Add(a, 4) else a, p'[k'..], Next(s, i).imemAddr)
  {
    var k, k' := s.ignore, Next(s, i).ignore;
    var q := if RspRecv(s, i) then p[1..] else p;
    var a' := if RspRecv(s, i) && k == 0 then Add(a, 4) else a;
    if RspRecv(s, i) && k == 0 {
      assert p[0..] == p && q[0..] == q;
    } else {
      assert q[k'..] == p[k..];
    }
    assert Consecutive(a', q[k'..], s.imemAddr);
    if Granted(s, i) {
      ConsecutiveSnoc(a', q[k'..], s.imemAddr);
      assert (q + [s.imemAddr])[k'..] == q[k'..] + [s.imemAddr];
    } else {
      assert (q + [])[k'..] == q[k'..];
    }
  }

  /** The one thing the stage asks of its memory: a redirect finds room in the three-bit
      counter for every fetch that it leaves unanswered. */
  predicate RedirectInTime(s: State, i: Input, p: Pending) {
    CfChange(s, i) ==> |NextPending(s, i, p)| < COUNTER_RANGE
  }

  /** Words of memory. */
  const MEMORY_WORDS: nat := 0x4000_0000

  /** Consecutive addresses end four bytes further for each, modulo the address space. */
  lemma {:induction false} ConsecutiveEnd(a: Word, p: Pending, end: Word) returns (wraps: int)
    requires Consecutive(a, p, end)
    ensures end == a + 4 * |p| - wraps * WORD_RANGE
    decreases |p|
  {
    if p == [] {
      wraps := 0;
    } else {
      wraps := ConsecutiveEnd(Add(a, 4), p[1..], end);
      if a + 4 >= WORD_RANGE {
        wraps := wraps + 1;
      }
    }
  }

  /** A late redirect leaves stale fetches that the stage takes for fresh ones. */
  lemma LateRedirectBreaksInv(mem: Word -> Instr, s: State, i: Input, p: Pending)
    requires Inv(mem, s, p) && Answers(mem, i, p)
    requires CfChange(s, i) && Aligned2(i.cfTarget)
    requires COUNTER_RANGE <= |NextPending(s, i, p)| < MEMORY_WORDS
    ensures !Inv(mem, Next(s, i), NextPending(s, i, p))
  {
    var s', p' := Next(s, i), NextPending(s, i, p);
    CountersCount(mem, s, i, p);
    WordOfTarget(i.cfTarget);
    if Inv(mem, s', p') {
      var wraps := ConsecutiveEnd(NextFresh(s'), p'[s'.ignore..], s'.imemAddr);
    }
  }

  /** A cycle keeps the invariant if a redirect finds fewer than eight fetches unanswered; and
      only if, as long as fewer fetches are unanswered than memory has words. */
  lemma StepKeepsInv(mem: Word -> Instr, s: State, i: Input, p: Pending)
    requires Inv(mem, s, p) && Answers(mem, i, p)
    requires i.cfReq ==> Aligned2(i.cfTarget)
    ensures RedirectInTime(s, i, p) ==> Inv(mem, Next(s, i), NextPending(s, i, p))
    ensures |NextPending(s, i, p)| < MEMORY_WORDS ==>
              (Inv(mem, Next(s, i), NextPending(s, i, p)) <==> RedirectInTime(s, i, p))
  {
    if CfChange(s, i) {
      if RedirectInTime(s, i, p) {
        RedirectKeepsInv(mem, s, i, p);
      } else if |NextPending(s, i, p)| < MEMORY_WORDS {
        LateRedirectBreaksInv(mem, s, i, p);
      }
    } else {
      CountersCount(mem, s, i, p);
      InsertKeepsContent(mem, s, i, p);
      PendingKeepsOrder(s, i, p, NextFresh(s));
      Aligned4Plus4(s.imemAddr);
    }
  }

  /** An instruction leaves the stage only by moving the program counter past it. */
  lemma ConsumesInstr(mem: Word -> Instr, s: State, i: Input, p: Pending)
    requires Inv(mem, s, p) && S1Valid(s) && !i.s1Busy && !CfChange(s, i)
    ensures Next(s, i).pc == Add(s.pc, SizeOf(InstrAt(mem, s.pc)))
  {
    DeliversInstr(mem, s, p);
    var lo := s.buf[0];
    LowBits(lo, if |s.buf| == 1 then 0 else s.buf[1]);
  }

  // ---------------------------------------------------------------- runs

  /** State and pending requests after a sequence of cycles. */
  function Run(s: State, p: Pending, ins: seq<Input>): (State, Pending)
    decreases |ins|
  {
    if ins == [] then (s, p) else Run(Next(s, ins[0]), NextPending(s, ins[0], p), ins[1..])
  }

  /** The environment of a run: in-order answers, even targets, and at most seven fetches
      unanswered whenever a redirect is accepted. */
  predicate Fair(mem: Word -> Instr, s: State, p: Pending, ins: seq<Input>)
    decreases |ins|
  {
    ins != [] ==>
      && Answers(mem, ins[0], p)
      && (ins[0].cfReq ==> Aligned2(ins[0].cfTarget))
      && RedirectInTime(s, ins[0], p)
      && Fair(mem, Next(s, ins[0]), NextPending(s, ins[0], p), ins[1..])
  }

  lemma {:induction false} RunKeepsInv(mem: Word -> Instr, s: State, p: Pending, ins: seq<Input>)
    requires Inv(mem, s, p) && Fair(mem, s, p, ins)
    ensures var (s', p') := Run(s, p, ins); Inv(mem, s', p')
    decreases |ins|
  {
    if ins != [] {
      StepKeepsInv(mem, s, ins[0], p);
      RunKeepsInv(mem, Next(s, ins[0]), NextPending(s, ins[0], p), ins[1..]);
    }
  }

  /** From reset, under every interleaving of redirects, grants, responses and stalls, the
      instruction offered to decode is the one in memory at its program counter. */
  lemma FrontEndCorrect(mem: Word -> Instr, reset: Word, ins: seq<Input>)
    requires Aligned4(reset) && Fair(mem, Reset(reset), [], ins)
    ensures var (s, p) := Run(Reset(reset), [], ins);
      && |s.buf| <= 4
      && (S1Valid(s) ==> Canonical(BufOut(s.buf)) == InstrAt(mem, s.pc))
  {
    Aligned4Plus4(reset);
    RunKeepsInv(mem, Reset(reset), [], ins);
    var (s, p) := Run(Reset(reset), [], ins);
    if S1Valid(s) {
      DeliversInstr(mem, s, p);
    }
  }

  // ---------------------------------------------------------------- progress

  /** Without a complete instruction the stage listens for a response, and one is
      outstanding, or a request is on the bus, or one will be in the next cycle. */
  lemma NeverStarves(mem: Word -> Instr, s: State, i: Input, p: Pending)
    requires Inv(mem, s, p) && !S1Valid(s)
    ensures ImemAck(s, i)
    ensures p != [] || s.imemReq || Next(s, i).imemReq
  {
  }

  /** Responses still needed before an instruction is complete. */
  function Needed(s: State): nat {
    if S1Valid(s) then 0 else s.ignore + if s.misaligned then 2 else 1
  }

  lemma ResponseHelps(mem: Word -> Instr, s: State, i: Input, p: Pending)
    requires Inv(mem, s, p) && Answers(mem, i, p) && !CfChange(s, i) && !S1Valid(s)
    ensures S1Valid(Next(s, i)) || Needed(Next(s, i)) == Needed(s) - (if RspRecv(s, i) then 1 else 0)
  {
    CountersCount(mem, s, i, p);
    assert EatenBy(s, i) == 0 && s.buf[0..] == s.buf;
  }

  /** Responses accepted during a run. */
  function Accepted(s: State, p: Pending, ins: seq<Input>): nat
    decreases |ins|
  {
    if ins == [] then 0
    else (if RspRecv(s, ins[0]) then 1 else 0) + Accepted(Next(s, ins[0]), NextPending(s, ins[0], p), ins[1..])
  }

  predicate NoRedirect(s: State, p: Pending, ins: seq<Input>)
    decreases |ins|
  {
    ins != [] ==> !CfChange(s, ins[0]) && NoRedirect(Next(s, ins[0]), NextPending(s, ins[0], p), ins[1..])
  }

  /** Absent a redirect, `ignore_rsps + 2` accepted responses make an instruction valid. */
  lemma {:induction false} ResponsesComplete(mem: Word -> Instr, s: State, p: Pending, ins: seq<Input>)
    requires Inv(mem, s, p) && Fair(mem, s, p, ins) && NoRedirect(s, p, ins)
    requires Accepted(s, p, ins) >= Needed(s)
    ensures exists k :: 0 <= k <= |ins| && S1Valid(Run(s, p, ins[..k]).0)
    ensures Needed(s) <= s.ignore + 2
    decreases |ins|
  {
    hide Inv, Next, NextPending, Answers, RspRecv, CfChange, S1Valid, RedirectInTime;
    if S1Valid(s) {
      assert S1Valid(Run(s, p, ins[..0]).0);
    } else {
      var s', p' := Next(s, ins[0]), NextPending(s, ins[0], p);
      StepKeepsInv(mem, s, ins[0], p);
      ResponseHelps(mem, s, ins[0], p);
      ResponsesComplete(mem, s', p', ins[1..]);
      var k :| 0 <= k <= |ins[1..]| && S1Valid(Run(s', p', ins[1..][..k]).0);
      assert ins[..k + 1][0] == ins[0] && ins[..k + 1][1..] == ins[1..][..k];
      assert S1Valid(Run(s, p, ins[..k + 1]).0);
    }
  }
}
