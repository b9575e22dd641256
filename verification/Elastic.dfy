/** The two-place pipeline register (frv_pipeline_register with BUFFER_HANDSHAKE=1). */
module Elastic {
  /** One cycle of the neighbours: an item offered, the next stage busy, a flush. */
  datatype Input<T> = Input(data: T, valid: bool, busy: bool, flush: bool)

  /** Clocked registers. */
  datatype State<T> = State(
    oData: T,         // o_data
    bData: T,         // b_data
    bFull: bool,
    roBusy: bool,
    roValid: bool)

  /** The item taken in during a cycle: it is offered and o_busy is low. */
  function Taken<T>(s: State<T>, i: Input<T>): seq<T> { if i.valid && !s.roBusy then [i.data] else [] }

  /** The item passed on during a cycle: o_valid is high and the next stage is not busy. */
  function Passed<T>(s: State<T>, i: Input<T>): seq<T> { if s.roValid && !i.busy then [s.oData] else [] }

  /** One clock edge. The data buffer has a clocked block of its own; the flush value of the
      main block is never read, because a flush leaves the buffer empty. */
  function Next<T>(s: State<T>, i: Input<T>, flushData: T): State<T> {
    var bData := if s.roBusy then s.bData else i.data;
    if i.flush then State(flushData, bData, false, false, false)
    else if !i.busy then State(if s.bFull then s.bData else i.data, bData, false, false, s.bFull || i.valid)
    else if !s.roValid then State(i.data, bData, false, false, i.valid)
    else if i.valid && !s.roBusy then s.(bData := bData, bFull := true, roBusy := true)
    else s.(bData := bData)
  }

  /** The items taken in and not yet passed on, oldest first. */
  function Held<T>(s: State<T>): seq<T> {
    (if s.roValid then [s.oData] else []) + (if s.bFull then [s.bData] else [])
  }

  predicate Valid<T>(s: State<T>) { s.bFull == s.roBusy && (s.bFull ==> s.roValid) }

  /** One edge is a queue operation; the register is busy exactly when it is full, and a flush
      empties it. */
  lemma NextIsQueue<T>(s: State<T>, i: Input<T>, flushData: T)
    requires Valid(s)
    ensures var s' := Next(s, i, flushData);
      && Valid(s') && |Held(s')| <= 2 && (s'.roBusy <==> |Held(s')| == 2)
      && (s'.roValid <==> Held(s') != []) && (s'.roValid ==> s'.oData == Held(s')[0])
      && (if i.flush then Held(s') == [] else Held(s) + Taken(s, i) == Passed(s, i) + Held(s'))
  {
  }

  // ---------------------------------------------------------------- runs

  function Run<T>(s: State<T>, ins: seq<Input<T>>, flushData: T): State<T>
    decreases |ins|
  {
    if ins == [] then s else Run(Next(s, ins[0], flushData), ins[1..], flushData)
  }

  /** Everything taken in during a run, and everything passed on. */
  function AcceptedBy<T>(s: State<T>, ins: seq<Input<T>>, flushData: T): seq<T>
    decreases |ins|
  {
    if ins == [] then [] else Taken(s, ins[0]) + AcceptedBy(Next(s, ins[0], flushData), ins[1..], flushData)
  }

  function EmittedBy<T>(s: State<T>, ins: seq<Input<T>>, flushData: T): seq<T>
    decreases |ins|
  {
    if ins == [] then [] else Passed(s, ins[0]) + EmittedBy(Next(s, ins[0], flushData), ins[1..], flushData)
  }

  /** Over any sequence of cycles without a flush: what was held and what went in is what came
      out followed by what is held, in order and without loss or duplication. */
  lemma {:induction false} NothingLost<T>(s: State<T>, ins: seq<Input<T>>, flushData: T)
    requires Valid(s) && forall k :: 0 <= k < |ins| ==> !ins[k].flush
    ensures var s' := Run(s, ins, flushData);
      && Valid(s') && |Held(s')| <= 2
      && Held(s) + AcceptedBy(s, ins, flushData) == EmittedBy(s, ins, flushData) + Held(s')
    decreases |ins|
  {
    hide Next, Held, Taken, Passed, Valid;
    if ins == [] {
      HeldBound(s);
      assert Held(s) + [] == [] + Held(s);
    } else {
      var s' := Next(s, ins[0], flushData);
      NextIsQueue(s, ins[0], flushData);
      NothingLost(s', ins[1..], flushData);
      calc {
        Held(s) + AcceptedBy(s, ins, flushData);
        (Held(s) + Taken(s, ins[0])) + AcceptedBy(s', ins[1..], flushData);
        (Passed(s, ins[0]) + Held(s')) + AcceptedBy(s', ins[1..], flushData);
        Passed(s, ins[0]) + (Held(s') + AcceptedBy(s', ins[1..], flushData));
        Passed(s, ins[0]) + (EmittedBy(s', ins[1..], flushData) + Held(Run(s, ins, flushData)));
        EmittedBy(s, ins, flushData) + Held(Run(s, ins, flushData));
      }
    }
  }

  lemma HeldBound<T>(s: State<T>)
    ensures |Held(s)| <= 2
  {
  }

  // ---------------------------------------------------------------- the hardware

  class Register<T> {
    var oData: T
    var bData: T
    var bFull: bool
    var roBusy: bool
    var roValid: bool
    const flushData: T

    ghost function View(): State<T>
      reads this
    {
      State(oData, bData, bFull, roBusy, roValid)
    }

    constructor (reset: T)
      ensures Valid(View()) && Held(View()) == [] && flushData == reset
    {
      oData, bData, flushData := reset, reset, reset;
      bFull, roBusy, roValid := false, false, false;
    }

    /** One clock edge. */
    method Clock(i: Input<T>)
      requires Valid(View())
      modifies this
      ensures View() == Next(old(View()), i, flushData)
      ensures Valid(View()) && |Held(View())| <= 2
      ensures if i.flush then Held(View()) == []
              else old(Held(View())) + Taken(old(View()), i) == Passed(old(View()), i) + Held(View())
    {
      NextIsQueue(View(), i, flushData);
      var nb := if roBusy then bData else i.data;
      if i.flush {
        bFull, roBusy, roValid, oData := false, false, false, flushData;
      } else if !i.busy {
        if !bFull {
          roValid, oData := i.valid, i.data;
        } else {
          roValid, oData := true, bData;
        }
        roBusy, bFull := false, false;
      } else if !roValid {
        roBusy, roValid, oData, bFull := false, i.valid, i.data, false;
      } else if i.valid && !roBusy {
        bFull, roBusy := i.valid && roValid, i.valid && roValid;
      }
      bData := nb;
    }
  }

  /** The items of a run, one cycle at a time, after those collected so far. */
  lemma OneCycle<T>(s: State<T>, ins: seq<Input<T>>, k: nat, flushData: T, a: seq<T>, e: seq<T>)
    requires k < |ins|
    ensures var s' := Next(s, ins[k], flushData);
      && a + AcceptedBy(s, ins[k..], flushData) == (a + Taken(s, ins[k])) + AcceptedBy(s', ins[k + 1..], flushData)
      && e + EmittedBy(s, ins[k..], flushData) == (e + Passed(s, ins[k])) + EmittedBy(s', ins[k + 1..], flushData)
      && Run(s, ins[k..], flushData) == Run(s', ins[k + 1..], flushData)
  {
    hide Next, Taken, Passed;
    assert ins[k..][0] == ins[k] && ins[k..][1..] == ins[k + 1..];
  }

  lemma NoCycle<T>(s: State<T>, flushData: T, a: seq<T>)
    ensures a + AcceptedBy(s, [], flushData) == a && a + EmittedBy(s, [], flushData) == a && Run(s, [], flushData) == s
  {
  }

  /** Clocking the register through a run collects exactly the items that the run takes in and
      passes on; NothingLost relates them. */
  method Stream<T>(r: Register<T>, ins: seq<Input<T>>) returns (accepted: seq<T>, emitted: seq<T>)
    requires Valid(r.View())
    requires forall k :: 0 <= k < |ins| ==> !ins[k].flush
    modifies r
    ensures accepted == AcceptedBy(old(r.View()), ins, r.flushData)
    ensures emitted == EmittedBy(old(r.View()), ins, r.flushData)
    ensures r.View() == Run(old(r.View()), ins, r.flushData)
    ensures Valid(r.View()) && |Held(r.View())| <= 2
    ensures old(Held(r.View())) + accepted == emitted + Held(r.View())
  {
    hide Next, Held, Valid, AcceptedBy, EmittedBy, Run;
    ghost var start := r.View();
    accepted, emitted := [], [];
    assert ins[0..] == ins && ins[|ins|..] == [];
    assert [] + AcceptedBy(start, ins, r.flushData) == AcceptedBy(start, ins, r.flushData);
    assert [] + EmittedBy(start, ins, r.flushData) == EmittedBy(start, ins, r.flushData);
    for k := 0 to |ins|
      invariant Valid(r.View())
      invariant AcceptedBy(start, ins, r.flushData) == accepted + AcceptedBy(r.View(), ins[k..], r.flushData)
      invariant EmittedBy(start, ins, r.flushData) == emitted + EmittedBy(r.View(), ins[k..], r.flushData)
      invariant Run(start, ins, r.flushData) == Run(r.View(), ins[k..], r.flushData)
    {
      OneCycle(r.View(), ins, k, r.flushData, accepted, emitted);
      accepted := accepted + if ins[k].valid && !r.roBusy then [ins[k].data] else [];
      emitted := emitted + if r.roValid && !ins[k].busy then [r.oData] else [];
      r.Clock(ins[k]);
    }
    NoCycle(r.View(), r.flushData, accepted);
    NoCycle(r.View(), r.flushData, emitted);
    NothingLost(start, ins, r.flushData);
  }
}
