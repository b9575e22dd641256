/** The randomised SRAM agent of the simulator (sram_agent). */
module SramAgent {
  import opened Words

  datatype Request = Request(addr: Word, write: bool, wdata: Word, strb: nat)

  datatype Response = Response(error: bool, data: Word)

  /** What the core drives in one cycle, and the two random draws of the agent. */
  datatype Input = Input(req: bool, txn: Request, ack: bool, luckyGnt: bool, luckyRsp: bool)

  class Agent {
    /** The memory behind the agent: the response to the last request of those served. */
    const bus: seq<Request> -> Response
    const maxReqStall: nat
    const maxRspStall: nat

    // Signals driven to the core.
    var memGnt: bool
    var memRecv: bool
    var memError: bool
    var memRdata: Word

    // The values that the next drive_signals puts on them.
    var nGnt: bool
    var nRecv: bool
    var nError: bool
    var nRdata: Word

    var reqStall: nat
    var rspStall: nat
    var reqQ: seq<Request>
    var served: seq<Request>

    ghost var granted: seq<Request>   // requests accepted so far
    ghost var acked: nat              // responses acknowledged so far
    ghost var refused: nat            // edges for which the present request has been refused
    ghost var edges: nat              // clock edges so far

    /** The response on the bus, once driven, is the memory's answer to its request. */
    ghost predicate Answered(recv: bool, error: bool, rdata: Word)
      reads this
    {
      recv ==>
        && served != []
        && error == bus(served).error
        && (!served[|served| - 1].write ==> rdata == bus(served).data)
    }

    /** Acknowledged responses, the response being driven and the queued requests are the
        granted requests, in order; and the stall counters keep their bounds. */
    ghost predicate Books(recv: bool, gnt: bool)
      reads this
    {
      && granted == served + reqQ
      && acked + (if recv then 1 else 0) == |served|
      && rspStall <= maxRspStall
      && refused <= reqStall <= maxReqStall
      && (!gnt ==> reqStall < maxReqStall)
    }

    /** Between two clock edges. */
    ghost predicate Valid()
      reads this
    {
      Books(memRecv, memGnt) && Answered(memRecv, memError, memRdata)
      && nRecv == memRecv && nError == memError && nRdata == memRdata && nGnt == memGnt
    }

    /** After an edge, before the new values are driven. */
    ghost predicate Ready()
      reads this
    {
      Books(nRecv, nGnt) && Answered(nRecv, nError, nRdata)
    }

    constructor (bus: seq<Request> -> Response, maxReqStall: nat, maxRspStall: nat)
      requires maxReqStall >= 1
      ensures Valid() && granted == [] && acked == 0 && refused == 0 && edges == 0
    {
      this.bus, this.maxReqStall, this.maxRspStall := bus, maxReqStall, maxRspStall;
      memGnt, memRecv, memError, memRdata := false, false, false, 0;
      nGnt, nRecv, nError, nRdata := false, false, false, 0;
      reqStall, rspStall, reqQ, served := 0, 0, [], [];
      granted, acked, refused, edges := [], 0, 0, 0;
    }

    /** drive_signals */
    method DriveSignals()
      requires Ready()
      modifies `memGnt, `memRecv, `memError, `memRdata
      ensures Valid()
    {
      memRecv, memError, memRdata, memGnt := nRecv, nError, nRdata, nGnt;
    }

    /** drive_response: serve the oldest request, or let it wait. */
    method DriveResponse(lucky: bool)
      requires granted == served + reqQ && acked == |served|
      requires rspStall <= maxRspStall
      modifies `nError, `nRecv, `nRdata, `rspStall, `reqQ, `served
      ensures served + reqQ == old(served + reqQ)
      ensures acked + (if nRecv then 1 else 0) == |served|
      ensures Answered(nRecv, nError, nRdata)
      ensures rspStall <= maxRspStall
      ensures old(reqQ) != [] ==> nRecv || rspStall == old(rspStall) + 1
      ensures nRecv ==> old(reqQ) != [] && served == old(served) + [old(reqQ)[0]] && rspStall == 0
      ensures !nRecv ==> !nError && nRdata == 0 && served == old(served)
    {
      if reqQ != [] && (lucky || rspStall >= maxRspStall) {
        var req := reqQ[0];
        served := served + [req];
        var rsp := bus(served);
        nError, nRecv := rsp.error, true;
        rspStall := 0;
        if !req.write {
          nRdata := rsp.data;
        }
        reqQ := reqQ[1..];
      } else {
        rspStall := rspStall + if |reqQ| > 0 then 1 else 0;
        nError, nRecv, nRdata := false, false, 0;
      }
    }

    /** The request half of posedge_clk: queue a granted request, and draw the next grant. */
    method TakeRequest(i: Input)
      requires Books(memRecv, memGnt) && maxReqStall >= 1
      modifies `nGnt, `reqStall, `reqQ, `granted, `refused
      ensures Books(memRecv, nGnt)
      ensures granted == old(granted) + (if i.req && memGnt then [i.txn] else [])
      ensures refused == if i.req && !memGnt then old(refused) + 1 else 0
      ensures old(reqQ) <= reqQ
    {
      var newTxn := i.req && memGnt;
      if i.req && !memGnt {
        reqStall := reqStall + 1;
      }
      refused := if i.req && !memGnt then refused + 1 else 0;
      if newTxn {
        reqStall := 0;
        reqQ := reqQ + [i.txn];
        granted := granted + [i.txn];
      }
      nGnt := i.luckyGnt || reqStall >= maxReqStall;
    }

    /** posedge_clk */
    method PosedgeClk(i: Input)
      requires Valid() && maxReqStall >= 1
      modifies `nGnt, `nError, `nRecv, `nRdata, `reqStall, `rspStall, `reqQ, `served, `granted, `acked, `refused, `edges
      ensures Ready() && edges == old(edges) + 1
      ensures granted == old(granted) + (if i.req && memGnt then [i.txn] else [])
      ensures acked == old(acked) + (if memRecv && i.ack then 1 else 0)
      ensures refused == if i.req && !memGnt then old(refused) + 1 else 0
      // An unacknowledged response stays.
      ensures memRecv && !i.ack ==> nRecv && nError == memError && nRdata == memRdata && served == old(served)
      // With the channel free, a waiting request is served or has waited one edge more.
      ensures (!memRecv || i.ack) && |granted| > acked ==> nRecv || rspStall == old(rspStall) + 1
    {
      edges := edges + 1;
      TakeRequest(i);
      if !memRecv || i.ack {
        acked := acked + if memRecv then 1 else 0;
        DriveResponse(i.luckyRsp);
      }
    }
  }

  /** A request held without interruption is accepted after at most `maxReqStall` refusals,
      whatever the random draws: `refusals` edges refuse it and the next one accepts it. */
  method HeldRequestIsGranted(a: Agent, txn: Request, ins: seq<Input>) returns (refusals: nat)
    requires a.Valid() && a.refused == 0 && a.maxReqStall >= 1
    requires |ins| == a.maxReqStall + 1
    requires forall k :: 0 <= k < |ins| ==> ins[k].req && ins[k].txn == txn
    modifies a
    ensures a.Valid()
    ensures refusals <= a.maxReqStall
    ensures a.edges == old(a.edges) + refusals + 1
    ensures a.granted == old(a.granted) + [txn]
  {
    refusals := 0;
    while !a.memGnt
      invariant a.Valid() && refusals == a.refused <= a.maxReqStall
      invariant a.edges == old(a.edges) + refusals
      invariant a.granted == old(a.granted)
      decreases a.maxReqStall + 1 - refusals
    {
      a.PosedgeClk(ins[refusals]);
      a.DriveSignals();
      refusals := refusals + 1;
    }
    a.PosedgeClk(ins[refusals]);
    a.DriveSignals();
  }

  /** With the core always ready, the oldest waiting request gets its response within
      `maxRspStall + 1` edges. */
  method WaitingRequestIsServed(a: Agent, ins: seq<Input>) returns (waited: nat)
    requires a.Valid() && a.maxReqStall >= 1 && !a.memRecv && |a.granted| > a.acked
    requires |ins| == a.maxRspStall + 1
    modifies a
    ensures a.Valid() && a.memRecv
    ensures 1 <= waited <= a.maxRspStall + 1
    ensures a.edges == old(a.edges) + waited
    ensures a.acked == old(a.acked) && a.acked < |a.served| && a.served <= a.granted
    ensures old(a.granted) <= a.granted && a.served[a.acked] == old(a.granted)[a.acked]
  {
    waited := 0;
    ghost var stall := a.rspStall;
    while waited == 0 || !a.memRecv
      invariant a.Valid() && (waited > 0 || !a.memRecv)
      invariant a.edges == old(a.edges) + waited
      invariant old(a.granted) <= a.granted && a.acked == old(a.acked)
      invariant waited <= a.maxRspStall + 1
      invariant !a.memRecv ==> a.rspStall == stall + waited
      decreases a.maxRspStall + 1 - waited
    {
      a.PosedgeClk(ins[waited]);
      a.DriveSignals();
      waited := waited + 1;
    }
  }
}
