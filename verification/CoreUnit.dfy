/** The pipeline as clocked hardware: its registers, wires computed stage by stage from the
    old registers and the inputs, then every register updated at once. Each clock edge is
    Core.Next, so what is proved of that function holds of these registers. */
module CoreUnit {
  import opened Words
  import opened Gprs
  import opened Machine
  import opened Core
  import Fetch
  import FetchUnit
  import EndToEnd

  /** What writeback drives in one cycle (frv_pipeline_writeback). */
  datatype WritebackWires = WritebackWires(
    cfReq: bool, cfTarget: Word, flush: bool, trapCpu: bool,
    busy: bool, holdLsu: bool, accepted: bool,
    gprWen: bool, gprWdata: Word)

  /** What the memory stage and its load/store unit drive. */
  datatype MemoryWires = MemoryWires(busy: bool, aError: bool, mmio: bool, mmioEn: bool, txnDone: bool)

  /** What decode has before it, and which stages take new values at the clock edge. */
  datatype Shake = Shake(
    d: Ctrl, data: Instr, s1Valid: bool, busy2: bool, bubble: bool, load2: bool, load3: bool, load4: bool)

  /** The wires have the values that the model gives them. */
  ghost predicate Wired(m: Machine, s: State, i: Input, w: WritebackWires, x: MemoryWires, h: Shake) {
    && w == WritebackWires(CfReq(s), CfTarget(m, s), Flush(s, i), TrapCpu(s), Busy4(s, i), HoldLsuReq(s, i),
                           DataAccepted(s, i), GprWen(s, i), GprWdata(m, s, i))
    && x == MemoryWires(Busy3(m, s, i), AErr(m, s.s3.op, s.s3.a), Mmio3(s), MmioEn(s, i), LsuTxnDone(m, s, i))
    && h == Shake(D(m, s), Fetch.BufOut(s.fetch.buf), S1Valid(s), Busy2(m, s, i), Bubble(m, s, i),
                  Progress2(m, s, i), Progress3(m, s, i), Progress4(m, s, i))
  }

  /** The next values of the registers that the pipeline itself owns. */
  datatype Registers = Registers(
    s2: Stage2, asiDone: bool, s3: Stage3, lsuFinished: bool, mmioDone: bool, s4: Stage4,
    pc: Word, cfuDone: bool, rspSeen: bool, mepc: Word)

  function NextRegisters(m: Machine, s: State, i: Input): Registers {
    Registers(Next2(m, s, i), NextAsiDone(m, s, i), Next3(m, s, i), NextLsuFinished(m, s, i), NextMmioDone(m, s, i),
              Next4(m, s, i), NextPc(m, s, i), NextCfuDone(m, s, i), NextRspSeen(m, s, i), NextMepc(s))
  }

  class Pipeline {
    const m: Machine
    const front: FetchUnit.FetchStage
    const gprs: RegisterFile
    var s2: Stage2
    var asiDone: bool
    var s3: Stage3
    var lsuFinished: bool
    var mmioDone: bool
    var s4: Stage4
    var pc: Word
    var cfuDone: bool
    var rspSeen: bool
    var mepc: Word

    ghost predicate Valid()
      reads this, front, front.buf, gprs, gprs.even, gprs.odd
    {
      front.Valid() && gprs.Valid()
    }

    ghost function View(): State
      reads this, front, front.buf, gprs, gprs.even, gprs.odd
      requires Valid()
    {
      State(front.View(), s2, asiDone, s3, lsuFinished, mmioDone, s4, pc, cfuDone, rspSeen, gprs.Contents(), mepc)
    }

    constructor (m: Machine, reset: Word)
      ensures Valid() && fresh(front) && fresh(front.buf) && fresh(gprs) && fresh(gprs.even) && fresh(gprs.odd)
      ensures this.m == m && View() == Reset(reset, gprs.Contents())
    {
      this.m := m;
      front := new FetchUnit.FetchStage(reset);
      gprs := new RegisterFile();
      s2, asiDone := Stage2(Nop, 0, false, 0, 0, 0, 0), false;
      s3, lsuFinished, mmioDone := Stage3(Nop, 0, false, 0, 0, 0), false, false;
      s4, pc, cfuDone, rspSeen := Stage4(Nop, 0, false, 0, 0, 0, false, 0), reset, false, false;
      mepc := 0;
    }

    // -------------------------------------------------------------- wires, oldest stage first

    method Writeback(i: Input, ghost s: State) returns (w: WritebackWires)
      requires Valid() && s == View()
      ensures w == WritebackWires(CfReq(s), CfTarget(m, s), Flush(s, i), TrapCpu(s), Busy4(s, i), HoldLsuReq(s, i),
                            DataAccepted(s, i), GprWen(s, i), GprWdata(m, s, i))
    {
      var cfTaken := s4.op == Taken || s4.op == Jali || s4.op == Jalr;
      var cfTrap := s4.op == Ebreak || s4.op == Ecall;
      var trapCpu := cfTrap || s4.trap;
      var cfReq := cfTaken || cfTrap || s4.op == Mret || s4.trap;
      var cfTarget := if trapCpu then m.mtvec else if cfTaken then s4.a else if s4.op == Mret then mepc else 0;
      var cfAck := !front.imemReq || i.iGnt;
      var flush := cfReq && cfAck;
      var accepted := i.dRecv && s4.op.Mem? && !rspSeen && !s4.mmio;
      var lsuBusy := s4.op.Mem? && !(rspSeen || accepted || s4.mmio);
      var cfuBusy := !(cfuDone || flush) && (cfTaken || cfTrap || s4.op == Mret);
      var loadWrites := s4.op.Mem? && s4.op.load && (accepted || s4.mmio) && !rspSeen;
      var link := s4.op == Jali || s4.op == Jalr;
      var wdata := if s4.op.Compute? then s4.a
        else if loadWrites then m.extract(s4.op, s4.strb, s4.b, if s4.mmio then i.mmioRdata else i.dRdata)
        else if link then Add(pc, s4.size) else 0;
      w := WritebackWires(cfReq, cfTarget, flush, trapCpu, cfuBusy || (cfReq && !cfAck) || lsuBusy,
                          cfReq || lsuBusy, accepted,
                          !s4.trap && (s4.op.Compute? || loadWrites || link), wdata);
    }

    method Memory(i: Input, ghost s: State, w: WritebackWires) returns (x: MemoryWires)
      requires Valid() && s == View()
      requires w.holdLsu == HoldLsuReq(s, i) && w.busy == Busy4(s, i)
      ensures x == MemoryWires(Busy3(m, s, i), AErr(m, s3.op, s3.a), Mmio3(s), MmioEn(s, i), LsuTxnDone(m, s, i))
    {
      var aError := AErr(m, s3.op, s3.a);
      var mmio := s3.op.Mem? && InMmio(s3.a);
      var mmioEn := mmio && !mmioDone && !w.holdLsu;
      var dmemReq := s3.op.Mem? && !lsuFinished && !aError && !w.holdLsu && !mmio;
      var txnDone := (dmemReq && i.dGnt) || mmioEn;
      x := MemoryWires(w.busy || (s3.op.Mem? && !(txnDone || lsuFinished)), aError, mmio, mmioEn, txnDone);
    }

    method ExecuteBusy(i: Input, ghost s: State, x: MemoryWires) returns (busy: bool)
      requires Valid() && s == View() && x.busy == Busy3(m, s, i)
      ensures busy == Busy2(m, s, i)
    {
      var asi := s2.op.Compute? && s2.op.unit == Asi;
      var mul := s2.op.Compute? && s2.op.unit == Mul;
      busy := x.busy || (asi && !(i.asiReady || asiDone)) || (mul && !i.mulReady);
    }

    /** What decode sees of the fetch stage. */
    method DecodeWires(ghost s: State) returns (d: Ctrl, data: Instr, s1Valid: bool)
      requires Valid() && s == View()
      ensures d == D(m, s) && data == Fetch.BufOut(s.fetch.buf) && s1Valid == S1Valid(s)
    {
      hide Fetch.BufOut, Fetch.S1Valid;
      var s1Data, valid, _, _, _, _ := front.Wires(Fetch.Input(false, 0, false, false, 0, false));
      d, data, s1Valid := m.decode(s1Data), s1Data, valid;
    }

    /** The bubble test of frv_pipeline. */
    method BubbleWire(i: Input, ghost s: State, d: Ctrl, s1Valid: bool, busy2: bool) returns (bubble: bool)
      requires Valid() && s == View()
      requires d == D(m, s) && s1Valid == S1Valid(s) && busy2 == Busy2(m, s, i)
      ensures bubble == Bubble(m, s, i)
    {
      hide Hazard, Busy2, Fetch.S1Valid, D;
      var from2 := IsLoad(s2.op) && Depends(d, s2.rd, Wide(s2.op));
      var from3 := IsLoad(s3.op) && Depends(d, s3.rd, Wide(s3.op));
      var from4 := IsLoad(s4.op) && Depends(d, s4.rd, Wide(s4.op));
      bubble := (!s1Valid && !busy2) || from4 || from3 || from2;
    }

    /** The forwarding network for one source register. */
    method Operand(i: Input, ghost s: State, r: Reg, wdata: Word) returns (v: Word)
      requires Valid() && s == View() && wdata == GprWdata(m, s, i)
      ensures v == Forward(m, s, i, r)
    {
      hide Hazard, Pick, ExecA, ExecHi, GprWdata;
      v := gprs.Read(r);
      if Hazard(r, s2.rd, Wide(s2.op)) {
        v := Pick(r, Wide(s2.op), ExecA(m, s2), ExecHi(m, s2));
      } else if Hazard(r, s3.rd, Wide(s3.op)) {
        v := Pick(r, Wide(s3.op), s3.a, s3.b);
      } else if Hazard(r, s4.rd, Wide(s4.op)) {
        v := Pick(r, Wide(s4.op), wdata, s4.b);
      }
    }

    /** The busy and progress signals of a cycle, and what decode has before it. */
    method Handshakes(i: Input, ghost s: State) returns (w: WritebackWires, x: MemoryWires, h: Shake)
      requires Valid() && s == View()
      ensures Wired(m, s, i, w, x, h)
    {
      hide Fetch.S1Valid, Fetch.BufOut, D, Bubble, Busy2, Busy3, Busy4, CfReq, CfTarget, Flush, TrapCpu, HoldLsuReq;
      hide DataAccepted, GprWen, GprWdata, AErr, Mmio3, MmioEn, LsuTxnDone;
      w := Writeback(i, s);
      x := Memory(i, s, w);
      var busy2 := ExecuteBusy(i, s, x);
      var d, data, s1Valid := DecodeWires(s);
      var bubble := BubbleWire(i, s, d, s1Valid, busy2);
      var load2 := (s1Valid || bubble) && !busy2;
      var load3 := load2 && !x.busy;
      h := Shake(d, data, s1Valid, busy2, bubble, load2, load3, load3 && !w.busy);
    }

    // -------------------------------------------------------------- next values

    /** Decode to execute. */
    method Decode(i: Input, ghost s: State, w: WritebackWires, ghost x: MemoryWires, h: Shake) returns (n: Stage2)
      requires Valid() && s == View() && Wired(m, s, i, w, x, h)
      ensures n == Next2(m, s, i)
    {
      hide Forward, D, Busy2, Bubble, Flush, GprWdata, S1Valid, Fetch.BufOut, SizeOf, OprA, OprB, OprC;
      hide Busy3, Busy4, AErr, Mmio3, MmioEn, LsuTxnDone, Progress2, Progress3, Progress4, GprWen;
      var d := h.d;
      var rs1 := Operand(i, s, d.rs1, w.gprWdata);
      var rs2 := Operand(i, s, d.rs2, w.gprWdata);
      var rs3 := Operand(i, s, d.rs3, w.gprWdata);
      var a := if h.load2 && d.aSrc != NoA then OprA(d, front.pc, rs1) else s2.a;
      var b := if h.load2 && d.bSrc != NoB then OprB(d, rs2) else s2.b;
      var c := if h.load2 && d.cSrc != NoC then OprC(d, front.pc, rs2, rs3) else s2.c;
      var trap := d.illegal && h.s1Valid;
      if w.flush || (h.load2 && h.bubble) {
        n := Stage2(Nop, 0, false, 0, a, b, c);
      } else if h.load2 {
        n := Stage2(d.op, if trap then 2 else d.rd, trap, SizeOf(h.data), a, b, c);
      } else {
        n := s2.(a := a, b := b, c := c);
      }
    }

    /** Execute to memory. */
    method Execute(i: Input, ghost s: State, w: WritebackWires, x: MemoryWires, h: Shake) returns (n: Stage3)
      requires Valid() && s == View() && Wired(m, s, i, w, x, h)
      ensures n == Next3(m, s, i)
    {
      hide ExecA, ExecB, ExecOp, Flush, Busy3, Progress2;
      var load := h.load2 && !x.busy;
      var a := if load && s2.op != Nop then ExecA(m, s2) else s3.a;
      var b := if load && (Wide(s2.op) || (s2.op.Mem? && s2.op.store)) then ExecB(m, s2) else s3.b;
      if w.flush {
        n := Stage3(Nop, 0, false, 0, a, b);
      } else if load {
        n := Stage3(ExecOp(m, s2), s2.rd, s2.trap, s2.size, a, b);
      } else {
        n := s3.(a := a, b := b);
      }
    }

    /** Memory to writeback. */
    method MemoryNext(i: Input, ghost s: State, w: WritebackWires, x: MemoryWires, h: Shake) returns (n: Stage4)
      requires Valid() && s == View() && Wired(m, s, i, w, x, h)
      ensures n == Next4(m, s, i)
    {
      hide Flush, Busy4, AErr, Mmio3, Progress3;
      var load := h.load3 && !w.busy;
      var mem := s3.op.Mem?;
      var err := mem && x.aError;
      var a := if load && s3.op != Nop && !mem then s3.a else s4.a;
      var mmio := if load && mem then x.mmio else s4.mmio;
      var strb := if load && mem then m.strobe(s3.op, s3.a) else s4.strb;
      var b := if load && mem then s3.a else if load && Wide(s3.op) then s3.b else s4.b;
      if w.flush {
        n := Stage4(Nop, 0, false, 0, a, b, mmio, strb);
      } else if load {
        var rd := if s3.trap || !err then s3.rd else if s3.op.load then 4 else if s3.op.store then 6 else 0;
        n := Stage4(s3.op, rd, s3.trap || err, s3.size, a, b, mmio, strb);
      } else {
        n := s4.(a := a, b := b, mmio := mmio, strb := strb);
      }
    }

    /** The done flags of the multi-cycle units and of the load/store unit. */
    method UnitFlags(i: Input, ghost s: State, x: MemoryWires, h: Shake)
      returns (nAsiDone: bool, nLsuFinished: bool, nMmioDone: bool)
      requires Valid() && s == View()
      requires x.aError == AErr(m, s3.op, s3.a) && x.mmioEn == MmioEn(s, i) && x.txnDone == LsuTxnDone(m, s, i)
      requires h.load2 == Progress2(m, s, i) && h.load3 == Progress3(m, s, i)
      ensures nAsiDone == NextAsiDone(m, s, i)
      ensures nLsuFinished == NextLsuFinished(m, s, i) && nMmioDone == NextMmioDone(m, s, i)
    {
      hide AErr, MmioEn, LsuTxnDone, Progress2, Progress3;
      nAsiDone := (asiDone || (s2.op.Compute? && s2.op.unit == Asi && i.asiReady)) && !h.load2;
      nLsuFinished := (lsuFinished || (s3.op.Mem? && x.txnDone) || x.aError) && !h.load3;
      nMmioDone := (mmioDone || x.mmioEn) && !h.load3;
    }

    /** The registers of the writeback stage itself. */
    method WritebackNext(i: Input, ghost s: State, w: WritebackWires, h: Shake)
      returns (nCfuDone: bool, nRspSeen: bool, nMepc: Word, nPc: Word)
      requires Valid() && s == View()
      requires w.flush == Flush(s, i) && w.cfTarget == CfTarget(m, s) && w.trapCpu == TrapCpu(s)
      requires w.accepted == DataAccepted(s, i) && h.load4 == Progress4(m, s, i)
      ensures nCfuDone == NextCfuDone(m, s, i) && nRspSeen == NextRspSeen(m, s, i)
      ensures nMepc == NextMepc(s) && nPc == NextPc(m, s, i)
    {
      hide Flush, CfTarget, TrapCpu, DataAccepted, Progress4;
      nCfuDone := !h.load4 && (cfuDone || w.flush);
      nRspSeen := !h.load4 && (rspSeen || (s4.op.Mem? && s4.mmio) || w.accepted);
      nMepc := if w.trapCpu then ClearBit0(pc) else mepc;
      nPc := if w.flush then w.cfTarget else if h.load4 then Add(pc, s4.size) else pc;
    }

    /** All wires of a cycle: the next register values, and what the fetch stage and the
        register file are told. */
    method Wires(i: Input, ghost s: State)
      returns (n: Registers, toFetch: Fetch.Input, gprWen: bool, gprWdata: Word, retired: bool)
      requires Valid() && s == View()
      ensures n == NextRegisters(m, s, i)
      ensures toFetch == FetchInput(m, s, i)
      ensures gprWen == GprWen(s, i) && gprWdata == GprWdata(m, s, i)
      ensures retired == Retires(m, s, i)
    {
      hide Next2, Next3, Next4, NextAsiDone, NextLsuFinished, NextMmioDone, NextCfuDone, NextRspSeen, NextPc, NextMepc;
      hide S1Valid, Fetch.BufOut, D, Bubble, Busy2, Busy3, Busy4;
      hide CfReq, CfTarget, Flush, TrapCpu, HoldLsuReq, DataAccepted, GprWen, GprWdata, AErr, Mmio3, MmioEn, LsuTxnDone;
      hide Progress2, Progress3, Progress4, Forward;
      var w, x, h := Handshakes(i, s);
      var n2 := Decode(i, s, w, x, h);
      var n3 := Execute(i, s, w, x, h);
      var n4 := MemoryNext(i, s, w, x, h);
      var nAsiDone, nLsuFinished, nMmioDone := UnitFlags(i, s, x, h);
      var nCfuDone, nRspSeen, nMepc, nPc := WritebackNext(i, s, w, h);
      n := Registers(n2, nAsiDone, n3, nLsuFinished, nMmioDone, n4, nPc, nCfuDone, nRspSeen, nMepc);
      toFetch := Fetch.Input(w.cfReq, w.cfTarget, i.iGnt, i.iRecv, i.iRdata, h.busy2 || h.bubble);
      gprWen, gprWdata := w.gprWen, w.gprWdata;
      retired := s4.size != 0 && (h.load4 || (w.flush && !cfuDone));
    }

    /** The registers of the pipeline itself take their new values. */
    method Update(n: Registers)
      modifies `s2, `asiDone, `s3, `lsuFinished, `mmioDone, `s4, `pc, `cfuDone, `rspSeen, `mepc
      ensures n == Registers(s2, asiDone, s3, lsuFinished, mmioDone, s4, pc, cfuDone, rspSeen, mepc)
    {
      s2, asiDone, s3, lsuFinished, mmioDone := n.s2, n.asiDone, n.s3, n.lsuFinished, n.mmioDone;
      s4, pc, cfuDone, rspSeen, mepc := n.s4, n.pc, n.cfuDone, n.rspSeen, n.mepc;
    }

    /** One clock edge; `retired` is trs_valid. */
    method Clock(i: Input) returns (retired: bool)
      requires Valid()
      modifies this, front, front.buf, gprs.even, gprs.odd
      ensures Valid()
      ensures View() == Next(m, old(View()), i)
      ensures retired == Retires(m, old(View()), i)
    {
      hide Next2, Next3, Next4, NextAsiDone, NextLsuFinished, NextMmioDone, NextCfuDone, NextRspSeen, NextPc, NextMepc;
      hide Fetch.Next, Write, FetchInput, GprWen, GprWdata, Retires;
      ghost var s := View();
      var n, toFetch, gprWen, gprWdata, trs := Wires(i, s);
      retired := trs;
      front.Clock(toFetch);
      gprs.Clock(gprWen, Wide(s4.op), s4.rd, gprWdata, s4.b);
      Update(n);
    }
  }

  /** The registers after a whole run are those that the run of the model gives, and the
      program counters retired on the way are its trace: EndToEnd.Refines speaks of both. */
  method Simulate(p: Pipeline, ins: seq<Input>, ghost e: Env) returns (pcs: seq<Word>)
    requires p.Valid()
    modifies p, p.front, p.front.buf, p.gprs.even, p.gprs.odd
    ensures p.Valid()
    ensures p.View() == EndToEnd.Run(p.m, old(p.View()), e, ins).0
    ensures pcs == EndToEnd.Trace(p.m, old(p.View()), ins)
  {
    hide Next, NextEnv, Retires;
    ghost var s, env := p.View(), e;
    pcs := [];
    for k := 0 to |ins|
      invariant p.Valid() && s == p.View()
      invariant EndToEnd.Run(p.m, old(p.View()), e, ins) == EndToEnd.Run(p.m, s, env, ins[k..])
      invariant EndToEnd.Trace(p.m, old(p.View()), ins) == pcs + EndToEnd.Trace(p.m, s, ins[k..])
    {
      var at := p.pc;
      var retired := p.Clock(ins[k]);
      if retired {
        pcs := pcs + [at];
      }
      assert ins[k..][0] == ins[k] && ins[k..][1..] == ins[k + 1..];
      env := NextEnv(p.m, s, ins[k], env);
      s := p.View();
    }
  }
}
