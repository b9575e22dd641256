/** The fetch stage as clocked hardware: the 64-bit buffer register behaves as the half-word
    queue of module Fetch, and the stage's registers follow Fetch.Next. */
module FetchUnit {
  import opened Words
  import Fetch

  /** The 64-bit buffer register as its four half-words; both of its shifts move by whole
      half-words. */
  type Lanes = s: seq<Half> | |s| == 4 witness [0, 0, 0, 0]

  const EMPTY: Lanes := [0, 0, 0, 0]

  function Shl(b: Lanes, k: nat): Lanes
    requires k <= 4
  {
    seq(k, _ => 0 as Half) + b[..4 - k]
  }

  function Shr(b: Lanes, k: nat): Lanes
    requires k <= 4
  {
    b[k..] + seq(k, _ => 0 as Half)
  }

  function Or(a: Lanes, b: Lanes): Lanes {
    seq(4, i requires 0 <= i < 4 => a[i] | b[i])
  }

  /** Every half-word from the `n`th on is zero; this is what makes OR an insertion. */
  predicate ClearAbove(b: Lanes, n: nat) {
    forall i :: n <= i < 4 ==> b[i] == 0
  }

  lemma OrZero(h: Half)
    ensures h | 0 == h && 0 | h == h
  {
  }

  lemma OrLane(a: Lanes, b: Lanes, i: nat)
    requires i < 4
    ensures a[i] == 0 ==> Or(a, b)[i] == b[i]
    ensures b[i] == 0 ==> Or(a, b)[i] == a[i]
  {
    OrZero(a[i]);
    OrZero(b[i]);
  }

  /** Shifting out `k` half-words and OR-ing in `j` others above the rest removes from the
      head of the queue and appends to its tail. */
  lemma ShiftAndInsert(b: Lanes, n: nat, k: nat, d: Lanes, j: nat)
    requires k <= n <= 4 && n - k + j <= 4 && ClearAbove(b, n) && ClearAbove(d, j)
    ensures var r := Or(Shl(d, n - k), Shr(b, k));
      r[..n - k + j] == b[k..n] + d[..j] && ClearAbove(r, n - k + j)
  {
    hide Or;
    var t := n - k;
    var x, y := Shl(d, t), Shr(b, k);
    forall i | 0 <= i < 4
      ensures Or(x, y)[i] == if i < t then b[i + k] else d[i - t]
    {
      if i < t {
        assert x[i] == 0 && y[i] == b[i + k];
      } else {
        assert x[i] == d[i - t] && y[i] == 0;
      }
      OrLane(x, y, i);
    }
  }

  /** frv_core_fetch_buffer */
  class FetchBuffer {
    var buffer: Lanes
    var bdepth: nat

    ghost predicate Valid()
      reads this
    {
      bdepth <= 4 && ClearAbove(buffer, bdepth)
    }

    ghost function Contents(): (s: seq<Half>)
      reads this
      requires Valid()
      ensures |s| == bdepth
    {
      buffer[..bdepth]
    }

    constructor ()
      ensures Valid() && Contents() == []
    {
      buffer, bdepth := EMPTY, 0;
    }

    /** buf_out, buf_valid, the half-words eaten when `ready`, and f_ready. */
    method Outputs(ready: bool) returns (out: Instr, valid: bool, eaten: nat, room: bool)
      requires Valid()
      ensures out == Fetch.BufOut(Contents())
      ensures valid == Fetch.HasInstr(Contents())
      ensures eaten == Fetch.Eaten(Contents(), ready)
      ensures room == Fetch.BufRoom(Contents(), eaten)
    {
      out := Join(buffer[0], buffer[1]);
      LowBits(buffer[0], buffer[1]);
      var is16 := Is16(out) && bdepth != 0;
      var is32 := !Is16(out) && bdepth != 0;
      var out2 := bdepth >= 1 && is16;
      var out4 := bdepth >= 2 && is32;
      var eat2, eat4 := out2 && ready, out4 && ready;
      valid := out2 || out4;
      eaten := if eat4 then 2 else if eat2 then 1 else 0;
      room := bdepth <= 2 || (bdepth == 3 && (eat2 || eat4)) || (bdepth == 4 && eat4);
      if bdepth == 0 {
        JoinZero();
      }
    }

    /** One clock edge: remove what the consumer ate, append what the memory sent. */
    method Clock(flush: bool, f4byte: bool, f2byte: bool, fIn: Instr, ready: bool)
      requires Valid() && !(f4byte && f2byte)
      requires f4byte || f2byte ==> Fetch.BufRoom(Contents(), Fetch.Eaten(Contents(), ready))
      modifies this
      ensures Valid()
      ensures Contents() ==
              if flush then [] else
              old(Contents())[Fetch.Eaten(old(Contents()), ready)..]
              + (if f2byte then [Hi(fIn)] else if f4byte then [Lo(fIn), Hi(fIn)] else [])
    {
      hide Or, Shl, Shr, Lo, Hi, Fetch.BufOut;
      var _, _, bdepthSub, _ := Outputs(ready);
      var bdepthAdd := if f4byte then 2 else if f2byte then 1 else 0;
      var insertAt := bdepth - bdepthSub;
      var d: Lanes := if f2byte then [Hi(fIn), 0, 0, 0] else if f4byte then [Lo(fIn), Hi(fIn), 0, 0] else EMPTY;
      assert d[..bdepthAdd] == if f2byte then [Hi(fIn)] else if f4byte then [Lo(fIn), Hi(fIn)] else [];
      assert buffer[bdepthSub..bdepth] == Contents()[bdepthSub..];
      ShiftAndInsert(buffer, bdepth, bdepthSub, d, bdepthAdd);
      if flush {
        buffer, bdepth := EMPTY, 0;
      } else if f4byte || f2byte || ready {
        buffer := Or(Shl(d, insertAt), Shr(buffer, bdepthSub));
        bdepth := bdepth + bdepthAdd - bdepthSub;
      }
    }
  }

  lemma JoinZero()
    ensures Join(0, 0) == 0
  {
  }

  /** frv_pipeline_fetch, with the program counter of frv_pipeline_decode. */
  class FetchStage {
    const buf: FetchBuffer
    var imemAddr: Word
    var imemReq: bool
    var reqs: Fetch.Count
    var ignore: Fetch.Count
    var misaligned: bool
    var pc: Word

    ghost predicate Valid()
      reads this, buf
    {
      buf.Valid()
    }

    ghost function View(): Fetch.State
      reads this, buf
      requires Valid()
    {
      Fetch.State(imemAddr, imemReq, reqs, ignore, misaligned, buf.Contents(), pc)
    }

    constructor (reset: Word)
      ensures Valid() && fresh(buf) && View() == Fetch.Reset(reset)
    {
      buf := new FetchBuffer();
      imemAddr, imemReq, reqs, ignore, misaligned, pc := reset, false, 0, 0, false, reset;
    }

    /** The stage's wires. */
    method Wires(i: Fetch.Input)
      returns (s1Data: Instr, s1Valid: bool, cfChange: bool, rspRecv: bool, nReqs: Fetch.Count, nImemReq: bool)
      requires Valid()
      ensures s1Data == Fetch.BufOut(buf.Contents())
      ensures s1Valid == Fetch.S1Valid(View())
      ensures cfChange == Fetch.CfChange(View(), i)
      ensures rspRecv == Fetch.RspRecv(View(), i)
      ensures nReqs == Fetch.NextReqs(View(), i)
      ensures nImemReq == Fetch.NextImemReq(View(), i)
    {
      hide Lo, Hi, Join, Is16, Compressed;
      var data, valid, _, _ := buf.Outputs(false);
      var _, _, _, fReady := buf.Outputs(valid && !i.s1Busy);
      s1Data, s1Valid := data, valid;
      cfChange := i.cfReq && (!imemReq || (imemReq && i.gnt));
      rspRecv := i.recv && fReady;
      nReqs := Fetch.Bits3(reqs + (if imemReq && i.gnt then 1 else 0) - (if rspRecv then 1 else 0));
      var incomplete := !Is16(s1Data) && buf.bdepth == 1;
      var allow := reqs < Fetch.MAX_REQS_OUTSTANDING || nReqs == 0
                   || (reqs == Fetch.MAX_REQS_OUTSTANDING && nReqs == Fetch.MAX_REQS_OUTSTANDING);
      nImemReq := ((fReady || cfChange) && allow) || incomplete || (imemReq && !i.gnt);
      if buf.bdepth >= 1 {
        LowBits(buf.Contents()[0], buf.buffer[1]);
      }
    }

    /** Clock edge of the buffer. */
    method ClockBuffer(i: Fetch.Input, s1Valid: bool, cfChange: bool, rspRecv: bool)
      requires Valid()
      requires s1Valid == Fetch.S1Valid(View()) && cfChange == Fetch.CfChange(View(), i)
      requires rspRecv == Fetch.RspRecv(View(), i)
      modifies buf
      ensures Valid()
      ensures buf.Contents() == Fetch.Next(old(View()), i).buf
    {
      hide Lo, Hi, Fetch.NextReqs, Fetch.NextImemReq;
      var f4byte, f2byte := rspRecv && !misaligned && ignore == 0, rspRecv && misaligned && ignore == 0;
      buf.Clock(cfChange, f4byte, f2byte, i.rdata, s1Valid && !i.s1Busy);
    }

    /** One clock edge: wires from the old registers and the inputs, then every register. */
    method Clock(i: Fetch.Input)
      requires Valid()
      modifies this, buf
      ensures Valid()
      ensures View() == Fetch.Next(old(View()), i)
    {
      hide Fetch.BufOut, Fetch.HasInstr, Fetch.EatenBy, Fetch.NextReqs, Fetch.NextImemReq, Fetch.RspRecv;
      var s1Data, s1Valid, cfChange, rspRecv, nReqs, nImemReq := Wires(i);
      ClockBuffer(i, s1Valid, cfChange, rspRecv);
      var progress := imemReq && i.gnt;
      if cfChange {
        imemAddr, pc := WordAddr(i.cfTarget), i.cfTarget;
        ignore, misaligned := nReqs, UpperHalf(i.cfTarget);
      } else {
        imemAddr := if progress then Add(imemAddr, 4) else imemAddr;
        pc := if s1Valid && !i.s1Busy then Add(pc, SizeOf(s1Data)) else pc;
        misaligned := misaligned && !(rspRecv && ignore == 0);
        ignore := if ignore != 0 then Fetch.Bits3(ignore - (if rspRecv then 1 else 0)) else ignore;
      }
      imemReq, reqs := nImemReq, nReqs;
    }
  }
}
