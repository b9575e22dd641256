/** Forwarding behind xc.gather and xc.scatter. Decode gives them the access unit, no load or
    store bit and no width, but a destination field: they write nothing, decode does not wait
    for them, and yet later stages forward for that field. */
module Gather {
  import opened Words
  import opened Gprs
  import opened Machine
  import Fetch
  import opened Core
  import opened Refinement
  import opened EndToEnd

  /** What the youngest instruction in flight whose rd field names `r` must not spoil. Execute
      and memory forward the address of a gather or scatter, writeback forwards zero. */
  predicate Harmless(m: Machine, s: State, q: Arch, r: Reg) {
    var q3 := Past(m, s.s4.size, q);
    var q2 := Past(m, s.s3.size, q3);
    if Hazard(r, s.s2.rd, Wide(s.s2.op)) then AccessOnly(s.s2.op) ==> q2.regs[r] == Addr(m, q2)
    else if Hazard(r, s.s3.rd, Wide(s.s3.op)) then AccessOnly(s.s3.op) ==> q3.regs[r] == Addr(m, q3)
    else if Hazard(r, s.s4.rd, Wide(s.s4.op)) then AccessOnly(s.s4.op) ==> q.regs[r] == 0
    else true
  }

  /** What execute offers for `r` is right behind the instruction at `q`. */
  lemma Exact2(m: Machine, s: Stage2, q: Arch, r: Reg)
    requires WellFormed(Dec(m, q)) && !Leaves(m, s.size, q)
    requires if s.size == 0 then IsBubble(s.op, s.rd, s.trap) else Match2(m, s, q)
    requires !(IsLoad(s.op) && Hazard(r, s.rd, Wide(s.op)))
    ensures !Hazard(r, s.rd, Wide(s.op)) ==> Past(m, s.size, q).regs[r] == q.regs[r]
    ensures Hazard(r, s.rd, Wide(s.op)) ==>
              (Pick(r, Wide(s.op), ExecA(m, s), ExecHi(m, s)) == Past(m, s.size, q).regs[r] <==>
               (AccessOnly(s.op) ==> q.regs[r] == Addr(m, q)))
  {
    if !(AccessOnly(s.op) && Hazard(r, s.rd, Wide(s.op))) {
      Forward2(m, s, q, r);
    }
  }

  /** What the memory stage offers. */
  lemma Exact3(m: Machine, s: Stage3, q: Arch, r: Reg)
    requires WellFormed(Dec(m, q)) && !Leaves(m, s.size, q)
    requires if s.size == 0 then IsBubble(s.op, s.rd, s.trap) else Match3(m, s, q)
    requires !(IsLoad(s.op) && Hazard(r, s.rd, Wide(s.op)))
    ensures !Hazard(r, s.rd, Wide(s.op)) ==> Past(m, s.size, q).regs[r] == q.regs[r]
    ensures Hazard(r, s.rd, Wide(s.op)) ==>
              (Pick(r, Wide(s.op), s.a, s.b) == Past(m, s.size, q).regs[r] <==>
               (AccessOnly(s.op) ==> q.regs[r] == Addr(m, q)))
  {
    if !(AccessOnly(s.op) && Hazard(r, s.rd, Wide(s.op))) {
      Forward3(m, s, q, r);
    }
  }

  /** What writeback offers: the register file has not been written by a gather or scatter, and
      its write data is zero. */
  lemma Exact4(m: Machine, s: State, i: Input, e: Env, q: Arch, r: Reg)
    requires GoodDecoder(m) && Inv(m, s, e, q) && !Leaves(m, s.s4.size, q)
    requires !(IsLoad(s.s4.op) && Hazard(r, s.s4.rd, Wide(s.s4.op)))
    ensures !Hazard(r, s.s4.rd, Wide(s.s4.op)) ==> Past(m, s.s4.size, q).regs[r] == s.regs[r]
    ensures Hazard(r, s.s4.rd, Wide(s.s4.op)) ==>
              (Pick(r, Wide(s.s4.op), GprWdata(m, s, i), s.s4.b) == Past(m, s.s4.size, q).regs[r] <==>
               (AccessOnly(s.s4.op) ==> q.regs[r] == 0))
  {
    assert WellFormed(Dec(m, q));
    if !(AccessOnly(s.s4.op) && Hazard(r, s.s4.rd, Wide(s.s4.op))) {
      Forward4(m, s, i, e, q, r);
    }
  }

  /** A value that decode may take is right exactly when the youngest instruction that feeds the
      register is harmless. Loads are not fed: decode waits for them. */
  lemma ForwardingExact(m: Machine, s: State, i: Input, e: Env, q: Arch, r: Reg)
    requires GoodDecoder(m) && Inv(m, s, e, q)
    requires StraightLine(m, s, q) && !LoadHazard(s, r)
    ensures Forward(m, s, i, r) == Ahead(m, s, q).regs[r] <==> Harmless(m, s, q, r)
  {
    var q3 := Past(m, s.s4.size, q);
    var q2 := Past(m, s.s3.size, q3);
    assert WellFormed(Dec(m, q)) && WellFormed(Dec(m, q3)) && WellFormed(Dec(m, q2));
    hide Step, Redirects, GprWdata, ExecA, ExecHi, Match2, Match3, Match4, WellFormed, Addr, Hazard, Pick;
    hide Fetch.Inv, RegsOk, MepcOk, DataOk, PcConserved, Size;
    Exact4(m, s, i, e, q, r);
    Exact3(m, s.s3, q3, r);
    Exact2(m, s.s2, q2, r);
  }
}
