/** The memory-mapped timer (frv_counters) and the routines that read and write its 64-bit
    registers with 32-bit accesses while it ticks (__rd_mtime, __wr_mtimecmp). */
module Timer {
  import opened Words

  const LONG_RANGE: int := WORD_RANGE * WORD_RANGE

  type Long = v: int | 0 <= v < LONG_RANGE

  function High(v: Long): Word { v / WORD_RANGE }

  function Low(v: Long): Word { v % WORD_RANGE }

  function Pair(hi: Word, lo: Word): Long { hi * WORD_RANGE + lo }

  lemma PairHalves(v: Long)
    ensures Pair(High(v), Low(v)) == v
  {
  }

  lemma HalvesOfPair(hi: Word, lo: Word)
    ensures High(Pair(hi, lo)) == hi && Low(Pair(hi, lo)) == lo
  {
  }

  lemma HighMonotone(v: Long, w: Long)
    requires v <= w
    ensures High(v) <= High(w)
    ensures w < v + WORD_RANGE ==> High(w) <= High(v) + 1
  {
  }

  lemma PairOrder(hi: Word, lo: Word, lo': Word)
    requires lo <= lo'
    ensures Pair(hi, lo) <= Pair(hi, lo')
  {
  }

  const BASE: Word := 0x1000

  /** One cycle of the MMIO port. */
  datatype Port = Port(en: bool, wen: bool, addr: Word, wdata: Word)

  const IDLE: Port := Port(false, false, 0, 0)

  /** Offset in the MMIO page; an idle port selects no register. */
  predicate Selects(p: Port, offset: Word) { p.en && p.addr % 0x1000 == offset }

  /** A clock edge: the port and mtime before it, and the registers after it. */
  datatype Snapshot = Snapshot(port: Port, was: Long, mtime: Long, mtimecmp: Long, irq: bool)

  /** The times at which the low word of mtime was read. */
  function LowReads(trace: seq<Snapshot>): seq<Long>
    decreases |trace|
  {
    if trace == [] then []
    else
      var last := trace[|trace| - 1];
      LowReads(trace[..|trace| - 1]) + (if Selects(last.port, 0) && !last.port.wen then [last.was] else [])
  }

  lemma LowReadsSnoc(a: seq<Snapshot>, x: Snapshot)
    ensures LowReads(a + [x]) == LowReads(a) + (if Selects(x.port, 0) && !x.port.wen then [x.was] else [])
  {
    hide Selects;
    assert (a + [x])[..|a|] == a;
  }

  class Counters {
    var mtime: Long           // mapped_mtime
    var mtimecmp: Long        // mapped_mtimecmp
    var irq: bool             // timer_interrupt
    var rdata: Word           // mmio_rdata
    var error: bool           // mmio_error
    ghost var trace: seq<Snapshot>

    constructor ()
      ensures mtime == 0 && mtimecmp == LONG_RANGE - 1 && !irq && trace == []
    {
      mtime, mtimecmp, irq, rdata, error, trace := 0, LONG_RANGE - 1, false, 0, false, [];
    }

    /** One clock edge. */
    method Clock(inhibit: bool, p: Port)
      modifies this
      ensures mtime == if Selects(p, 4) && p.wen then Pair(p.wdata, Low(old(mtime)))
                       else if Selects(p, 0) && p.wen then Pair(High(old(mtime)), p.wdata)
                       else if inhibit then old(mtime)
                       else if old(mtime) + 1 < LONG_RANGE then old(mtime) + 1 else 0
      ensures mtimecmp == if Selects(p, 12) && p.wen then Pair(p.wdata, Low(old(mtimecmp)))
                          else if Selects(p, 8) && p.wen then Pair(High(old(mtimecmp)), p.wdata)
                          else old(mtimecmp)
      ensures irq == (old(mtime) >= old(mtimecmp))
      ensures Selects(p, 0) ==> rdata == Low(old(mtime))
      ensures Selects(p, 4) ==> rdata == High(old(mtime))
      ensures Selects(p, 8) ==> rdata == Low(old(mtimecmp))
      ensures Selects(p, 12) ==> rdata == High(old(mtimecmp))
      ensures p.en ==> error == (p.addr % 0x1000 !in {0, 4, 8, 12})
      ensures p.en && error ==> rdata == 0
      ensures !p.en ==> rdata == old(rdata) && error == old(error)
      ensures trace == old(trace) + [Snapshot(p, old(mtime), mtime, mtimecmp, irq)]
    {
      ghost var was := mtime;
      irq := mtime >= mtimecmp;
      if p.en {
        var offset := p.addr % 0x1000;
        rdata := if offset == 0 then Low(mtime) else if offset == 4 then High(mtime)
          else if offset == 8 then Low(mtimecmp) else if offset == 12 then High(mtimecmp) else 0;
        error := offset != 0 && offset != 4 && offset != 8 && offset != 12;
      }
      if Selects(p, 4) && p.wen {
        mtime := Pair(p.wdata, Low(mtime));
      } else if Selects(p, 0) && p.wen {
        mtime := Pair(High(mtime), p.wdata);
      } else if !inhibit {
        mtime := if mtime + 1 < LONG_RANGE then mtime + 1 else 0;
      }
      if Selects(p, 12) && p.wen {
        mtimecmp := Pair(p.wdata, Low(mtimecmp));
      } else if Selects(p, 8) && p.wen {
        mtimecmp := Pair(High(mtimecmp), p.wdata);
      }
      trace := trace + [Snapshot(p, was, mtime, mtimecmp, irq)];
    }

    /** `n` cycles without an access, then a load; `at` is mtime when the register is read. */
    method Load(n: nat, offset: Word) returns (v: Word, ghost at: Long)
      requires offset == 0 || offset == 4
      requires mtime + n + 1 < LONG_RANGE
      modifies this
      ensures old(mtime) <= at <= mtime <= old(mtime) + n + 1
      ensures v == if offset == 0 then Low(at) else High(at)
      ensures mtimecmp == old(mtimecmp)
      ensures LowReads(trace) == LowReads(old(trace)) + (if offset == 0 then [at] else [])
    {
      for k := 0 to n
        invariant old(mtime) <= mtime <= old(mtime) + k
        invariant mtimecmp == old(mtimecmp)
        invariant LowReads(trace) == LowReads(old(trace))
      {
        var inhibit: bool := *;
        ghost var before := trace;
        Clock(inhibit, IDLE);
        LowReadsSnoc(before, trace[|before|]);
      }
      at := mtime;
      var inhibit: bool := *;
      ghost var before := trace;
      Clock(inhibit, Port(true, false, BASE + offset, 0));
      LowReadsSnoc(before, trace[|before|]);
      v := rdata;
    }

    /** The registers are those that the last edge left. */
    ghost predicate Shown()
      reads this
    {
      && trace != []
      && trace[|trace| - 1].mtime == mtime && trace[|trace| - 1].mtimecmp == mtimecmp && trace[|trace| - 1].irq == irq
    }

    /** Every edge since `from` has shown at least `bound` in mtimecmp, and has raised the
        interrupt only when mtime was at or above `bound`. */
    ghost predicate Quiet(from: nat, bound: Long)
      reads this
    {
      && 1 <= from <= |trace|
      && Shown()
      && mtimecmp >= bound
      && forall k :: from <= k < |trace| ==>
           trace[k].mtimecmp >= bound && (trace[k].irq ==> trace[k - 1].mtime >= bound)
    }

    /** `n` cycles without an access, then a store to one half of mtimecmp. */
    method Store(n: nat, offset: Word, v: Word, ghost from: nat, ghost bound: Long)
      requires offset == 8 || offset == 12
      requires Quiet(from, bound)
      requires bound <= if offset == 12 then Pair(v, Low(mtimecmp)) else Pair(High(mtimecmp), v)
      modifies this
      ensures Quiet(from, bound)
      ensures mtimecmp == if offset == 12 then Pair(v, Low(old(mtimecmp))) else Pair(High(old(mtimecmp)), v)
      ensures |trace| > |old(trace)|
    {
      for k := 0 to n
        invariant Quiet(from, bound) && mtimecmp == old(mtimecmp)
        invariant |trace| == |old(trace)| + k
      {
        var inhibit: bool := *;
        Clock(inhibit, IDLE);
      }
      var inhibit: bool := *;
      Clock(inhibit, Port(true, true, BASE + offset, v));
    }
  }

  // ---------------------------------------------------------------- __rd_mtime

  /** The cycles that pass before each of the three loads of an iteration. */
  datatype Delays = Delays(d0: nat, d1: nat, d2: nat)

  /** Ticks of mtime during some iterations, at most. */
  function Ticks(ds: seq<Delays>): nat
    decreases |ds|
  {
    if ds == [] then 0 else ds[0].d0 + ds[0].d1 + ds[0].d2 + 3 + Ticks(ds[1..])
  }

  /** One iteration. Equal high words pin down the time of the low-word read. */
  method ReadOnce(c: Counters, d: Delays) returns (hi: Word, lo: Word, again: Word, ghost at: Long)
    requires c.mtime + Ticks([d]) < LONG_RANGE
    modifies c
    ensures old(c.mtime) <= at <= c.mtime <= old(c.mtime) + Ticks([d])
    ensures High(old(c.mtime)) <= hi <= again <= High(c.mtime)
    ensures hi == again ==> Pair(hi, lo) == at
    ensures LowReads(c.trace) == LowReads(old(c.trace)) + [at]
    ensures c.mtimecmp == old(c.mtimecmp)
  {
    assert [d][1..] == [];
    ghost var first, second;
    hi, first := c.Load(d.d0, 4);
    lo, at := c.Load(d.d1, 0);
    again, second := c.Load(d.d2, 4);
    HighMonotone(old(c.mtime), first);
    HighMonotone(first, at);
    HighMonotone(at, second);
    HighMonotone(second, c.mtime);
    PairHalves(at);
  }

  /** __rd_mtime, for as many iterations as `ds` describes. Each iteration times the low word
      once. When the routine returns, the two words are mtime at the last of these reads; and it
      returns in the second iteration at the latest if two iterations take fewer than 2^32
      ticks. */
  method RdMtime(c: Counters, ds: seq<Delays>) returns (done: bool, hi: Word, lo: Word, ghost times: seq<Long>)
    requires |ds| >= 2 && c.mtime + Ticks(ds) < LONG_RANGE
    modifies c
    ensures LowReads(c.trace) == LowReads(old(c.trace)) + times
    ensures 1 <= |times| <= |ds| && c.mtime <= old(c.mtime) + Ticks(ds[..|times|])
    ensures forall k :: 0 <= k < |times| ==> old(c.mtime) <= times[k] <= c.mtime
    ensures if done then Pair(hi, lo) == times[|times| - 1] else |times| == |ds|
    ensures Ticks(ds[..2]) < WORD_RANGE ==> done && |times| <= 2
    ensures c.mtimecmp == old(c.mtimecmp)
  {
    hide Ticks, LowReads, Pair, High, Low;
    ghost var start := c.mtime;
    TwoTicks(ds);
    var iterations := 0;
    done, hi, lo, times := false, 0, 0, [];
    while !done && iterations < |ds|
      invariant iterations == |times| <= |ds|
      invariant LowReads(c.trace) == LowReads(old(c.trace)) + times
      invariant forall k :: 0 <= k < |times| ==> start <= times[k] <= c.mtime
      invariant start <= c.mtime <= start + Ticks(ds[..iterations])
      invariant c.mtime + Ticks(ds[iterations..]) < LONG_RANGE
      invariant !done && iterations > 0 ==> High(start) < High(c.mtime)
      invariant done ==> iterations > 0 && Pair(hi, lo) == times[iterations - 1]
      invariant Ticks(ds[..2]) < WORD_RANGE ==> (iterations >= 2 ==> done) && iterations <= 2
      invariant c.mtimecmp == old(c.mtimecmp)
    {
      TicksSplit(ds, iterations);
      TicksGrow(ds, iterations);
      ghost var before := c.mtime;
      var again;
      ghost var at;
      hi, lo, again, at := ReadOnce(c, ds[iterations]);
      HighMonotone(start, before);
      if iterations == 1 && c.mtime < start + WORD_RANGE {
        HighMonotone(start, c.mtime);
      }
      done := hi == again;
      iterations, times := iterations + 1, times + [at];
    }
  }

  lemma {:induction false} TicksGrow(ds: seq<Delays>, k: nat)
    requires k < |ds|
    ensures Ticks(ds[..k + 1]) == Ticks(ds[..k]) + Ticks([ds[k]])
    decreases k
  {
    assert [ds[k]][1..] == [];
    if k > 0 {
      TicksGrow(ds[1..], k - 1);
      assert ds[..k + 1][1..] == ds[1..][..k] && ds[..k][1..] == ds[1..][..k - 1];
    }
  }

  lemma TicksSplit(ds: seq<Delays>, k: nat)
    requires k < |ds|
    ensures Ticks(ds[k..]) == Ticks([ds[k]]) + Ticks(ds[k + 1..])
  {
    assert [ds[k]][1..] == [];
    assert ds[k..][1..] == ds[k + 1..];
  }

  lemma TwoTicks(ds: seq<Delays>)
    requires |ds| >= 2
    ensures Ticks(ds[..2]) == Ticks([ds[0]]) + Ticks([ds[1]])
    ensures ds[0..] == ds && Ticks(ds[..0]) == 0
  {
    assert ds[..2][1..] == [ds[1]];
    assert [ds[0]][1..] == [] && [ds[1]][1..] == [];
  }

  // ---------------------------------------------------------------- __wr_mtimecmp

  function Min(a: Long, b: Long): Long { if a <= b then a else b }

  /** __wr_mtimecmp: at no edge does mtimecmp fall below both its old and its new value, so
      no timer interrupt is raised unless mtime has reached one of them. */
  method WrMtimecmp(c: Counters, hi: Word, lo: Word, d: Delays)
    requires c.Shown()
    modifies c
    ensures c.mtimecmp == Pair(hi, lo)
    ensures |old(c.trace)| < |c.trace|
    ensures forall k :: |old(c.trace)| <= k < |c.trace| ==>
              var bound := Min(old(c.mtimecmp), Pair(hi, lo));
              && c.trace[k].mtimecmp >= bound
              && (c.trace[k].irq ==> c.trace[k - 1].mtime >= bound)
  {
    ghost var was, bound, from := c.mtimecmp, Min(c.mtimecmp, Pair(hi, lo)), |c.trace|;
    var ones: Word := WORD_RANGE - 1;
    PairHalves(was);
    PairOrder(High(was), Low(was), ones);
    PairOrder(hi, lo, ones);
    HalvesOfPair(High(was), ones);
    HalvesOfPair(hi, ones);
    c.Store(d.d0, 8, ones, from, bound);
    c.Store(d.d1, 12, hi, from, bound);
    c.Store(d.d2, 8, lo, from, bound);
  }
}
