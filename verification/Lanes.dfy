/** Byte lanes of the data bus: the store path of frv_lsu, the load path of
    frv_pipeline_writeback, and what they mean for a byte memory. */
module Lanes {
  import opened Words
  import opened Machine

  type Byte = b: int | 0 <= b < 256

  /** A word as its bytes, least significant first. */
  datatype Bytes = Bytes(b0: Byte, b1: Byte, b2: Byte, b3: Byte)

  function Pack(b: Bytes): Word { b.b0 + 0x100 * b.b1 + 0x1_0000 * b.b2 + 0x100_0000 * b.b3 }

  function Unpack(w: Word): Bytes {
    Bytes(w % 0x100, w / 0x100 % 0x100, w / 0x1_0000 % 0x100, w / 0x100_0000)
  }

  function Lane(b: Bytes, k: nat): Byte {
    if k == 0 then b.b0 else if k == 1 then b.b1 else if k == 2 then b.b2 else b.b3
  }

  lemma PackUnpack(w: Word)
    ensures Pack(Unpack(w)) == w
  {
    var q, r, s := w / 0x100, w / 0x1_0000, w / 0x100_0000;
    assert w == 0x100 * q + w % 0x100 && q == 0x100 * r + q % 0x100 && r == 0x100 * s + r % 0x100;
  }

  lemma Multiples(n: int, d: int)
    requires n > 0
    ensures d >= 1 ==> n * d >= n
    ensures d <= -1 ==> n * d <= -n
  {
  }

  /** Quotient and remainder are determined. */
  lemma Remainder(x: int, n: int, q: int, r: int)
    requires 0 <= r < n && x == n * q + r
    ensures x / n == q && x % n == r
  {
    assert n * (x / n - q) == r - x % n;
    Multiples(n, x / n - q);
  }

  lemma UnpackPack(b: Bytes)
    ensures Unpack(Pack(b)) == b
  {
    var w := Pack(b);
    Remainder(w, 0x100, b.b1 + 0x100 * b.b2 + 0x1_0000 * b.b3, b.b0);
    Remainder(w, 0x1_0000, b.b2 + 0x100 * b.b3, b.b0 + 0x100 * b.b1);
    Remainder(w, 0x100_0000, b.b3, b.b0 + 0x100 * b.b1 + 0x1_0000 * b.b2);
    Remainder(b.b1 + 0x100 * b.b2 + 0x1_0000 * b.b3, 0x100, b.b2 + 0x100 * b.b3, b.b1);
    Remainder(b.b2 + 0x100 * b.b3, 0x100, b.b3, b.b2);
  }

  lemma Window(w: bv32)
    ensures w & 0xFFFF_F000 == 0x1000 <==> w >= 0x1000 && w <= 0x1FFF
  {
  }

  lemma WindowLow(w: bv32)
    ensures w >= 0x1000 <==> w as int >= 0x1000
  {
  }

  lemma WindowHigh(w: bv32)
    ensures w <= 0x1FFF <==> w as int <= 0x1FFF
  {
  }

  /** The memory-mapped registers are where base and mask of the load/store unit say. */
  lemma MmioWindow(w: bv32)
    ensures InMmio(w as int) <==> w & 0xFFFF_F000 == 0x1000
  {
    Window(w);
    WindowLow(w);
    WindowHigh(w);
  }

  // ---------------------------------------------------------------- store path

  /** dmem_strb: which lanes carry data. */
  predicate Strobed(width: Width, addr: Word, k: nat) {
    match width
    case NoWidth => false
    case ByteWide => addr % 4 == k
    case HalfWide => UpperHalf(addr) == (k >= 2)
    case WordWide => true
  }

  function Weight(b: bool, w: nat): nat { if b then w else 0 }

  /** The four strobe bits as a number. */
  function Strobes(op: Op, addr: Word): (n: nat)
    ensures n < 16
  {
    if !op.Mem? then 0
    else Weight(Strobed(op.width, addr, 0), 1) + Weight(Strobed(op.width, addr, 1), 2)
         + Weight(Strobed(op.width, addr, 2), 4) + Weight(Strobed(op.width, addr, 3), 8)
  }

  predicate StrobeBit(n: nat, k: nat)
    requires k < 4
  {
    (if k == 0 then n else if k == 1 then n / 2 else if k == 2 then n / 4 else n / 8) % 2 == 1
  }

  lemma StrobeBits(op: Op, addr: Word, k: nat)
    requires op.Mem? && k < 4
    ensures StrobeBit(Strobes(op, addr), k) == Strobed(op.width, addr, k)
  {
    var s0, s1 := Strobed(op.width, addr, 0), Strobed(op.width, addr, 1);
    var s2, s3 := Strobed(op.width, addr, 2), Strobed(op.width, addr, 3);
    var n := Strobes(op, addr);
    assert n / 2 == Weight(s1, 1) + Weight(s2, 2) + Weight(s3, 4);
    assert n / 4 == Weight(s2, 1) + Weight(s3, 2);
    assert n / 8 == Weight(s3, 1);
  }

  /** dmem_wdata: the low bytes of the data, moved to the lanes of the address. */
  function StoreLanes(op: Op, addr: Word, data: Word): Word {
    var d := Unpack(data);
    if !op.Mem? then 0
    else
      match op.width
      case NoWidth => 0
      case ByteWide =>
        Pack(if addr % 4 == 0 then Bytes(d.b0, 0, 0, 0) else if addr % 4 == 1 then Bytes(0, d.b0, 0, 0)
             else if addr % 4 == 2 then Bytes(0, 0, d.b0, 0) else Bytes(0, 0, 0, d.b0))
      case HalfWide => Pack(if UpperHalf(addr) then Bytes(0, 0, d.b0, d.b1) else Bytes(d.b0, d.b1, 0, 0))
      case WordWide => data
  }

  // ---------------------------------------------------------------- load path

  function Sign(signed: bool, b: Byte): Byte { if signed && b >= 0x80 then 0xFF else 0 }

  /** lsu_rdata */
  function LoadLanes(op: Op, strb: nat, addr: Word, rdata: Word): Word {
    var r := Unpack(rdata);
    if !op.Mem? then 0
    else
      var b0 :=
        if StrobeBit(strb, 0) then r.b0
        else if op.width == ByteWide && addr % 4 == 1 then r.b1
        else if op.width == ByteWide && addr % 4 == 2 then r.b2
        else if op.width == HalfWide && UpperHalf(addr) then r.b2
        else if op.width == ByteWide && addr % 4 == 3 then r.b3
        else 0;
      var b1 :=
        match op.width
        case NoWidth => 0
        case ByteWide => Sign(op.signed, b0)
        case HalfWide => if UpperHalf(addr) then r.b3 else r.b1
        case WordWide => r.b1;
      var (b2, b3) :=
        match op.width
        case NoWidth => (0, 0)
        case WordWide => (r.b2, r.b3)
        case _ => (Sign(op.signed, b1), Sign(op.signed, b1));
      Pack(Bytes(b0, b1, b2, b3))
  }

  // ---------------------------------------------------------------- byte memory

  type Memory = Word -> Byte

  function ReadWord(mem: Memory, a: Word): Word {
    Pack(Bytes(mem(a), mem(Add(a, 1)), mem(Add(a, 2)), mem(Add(a, 3))))
  }

  /** The memory after a request: the strobed lanes of the addressed word are written. */
  function Served(mem: Memory, r: Req): Memory {
    (b: Word) =>
      if r.store && WordAddr(b) == r.addr && StrobeBit(r.strb, b % 4) then Lane(Unpack(r.wdata), b % 4) else mem(b)
  }

  function After(init: Memory, hist: seq<Req>): Memory
    decreases |hist|
  {
    if hist == [] then init else Served(After(init, hist[..|hist| - 1]), hist[|hist| - 1])
  }

  /** The answer to the last request of a history. */
  function Answer(init: Memory): seq<Req> -> Word {
    (hist: seq<Req>) =>
      if hist == [] then 0 else ReadWord(After(init, hist[..|hist| - 1]), hist[|hist| - 1].addr)
  }

  // ---------------------------------------------------------------- what accesses mean

  function Bytewidth(w: Width): nat {
    match w case NoWidth => 0 case ByteWide => 1 case HalfWide => 2 case WordWide => 4
  }

  predicate Aligned(w: Width, a: Word) {
    match w case NoWidth => true case ByteWide => true case HalfWide => a % 2 == 0 case WordWide => a % 4 == 0
  }

  /** The sign- or zero-extended little-endian value of the bytes at `a`. */
  function ValueAt(mem: Memory, w: Width, signed: bool, a: Word): Word {
    match w
    case NoWidth => 0
    case ByteWide =>
      var v := mem(a);
      if signed && v >= 0x80 then v + 0xFFFF_FF00 else v
    case HalfWide =>
      var v := mem(a) + 0x100 * mem(Add(a, 1));
      if signed && v >= 0x8000 then v + 0xFFFF_0000 else v
    case WordWide => ReadWord(mem, a)
  }

  /** The byte at `b` after the low bytes of `data` have been stored at `a`. */
  function ByteAfterStore(mem: Memory, w: Width, a: Word, data: Word, b: Word): Byte {
    if a <= b < a + Bytewidth(w) then Lane(Unpack(data), b - a) else mem(b)
  }

  lemma LoadWidth(mem: Memory, op: Op, a: Word)
    requires op.Mem? && Aligned(op.width, a)
    ensures LoadLanes(op, Strobes(op, a), a, ReadWord(mem, WordAddr(a))) == ValueAt(mem, op.width, op.signed, a)
  {
    hide Strobes, StrobeBit, Unpack;
    var base := WordAddr(a);
    UnpackPack(Bytes(mem(base), mem(Add(base, 1)), mem(Add(base, 2)), mem(Add(base, 3))));
    StrobeBits(op, a, 0);
    assert a == base + a % 4;
  }

  lemma WordAndLane(a: Word)
    ensures a == WordAddr(a) + a % 4 && 0 <= a % 4 < 4 && WordAddr(a) == 4 * (a / 4)
  {
  }

  lemma EvenLane(a: Word)
    requires a % 2 == 0
    ensures a % 4 == 0 || a % 4 == 2
  {
    assert a == 4 * (a / 4) + a % 4;
    EvenRest(a / 4, a % 4);
  }

  /** The strobed lanes of the addressed word are the bytes that the width names. */
  lemma Within(w: Width, a: Word, b: Word)
    requires Aligned(w, a)
    ensures a <= b < a + Bytewidth(w) <==> WordAddr(b) == WordAddr(a) && Strobed(w, a, b % 4)
    ensures WordAddr(b) == WordAddr(a) ==> b - a == b % 4 - a % 4
    ensures w == HalfWide ==> a % 4 == if UpperHalf(a) then 2 else 0
    ensures w == WordWide ==> a % 4 == 0
  {
    hide WordAddr;
    WordAndLane(a);
    WordAndLane(b);
    if w == HalfWide {
      EvenLane(a);
    }
    var p, q := a / 4, b / 4;
    if p < q {
      assert WordAddr(a) + 4 <= WordAddr(b);
    } else if q < p {
      assert WordAddr(b) + 4 <= WordAddr(a);
    }
  }

  /** A strobed lane carries the byte of the data that belongs there. */
  lemma StoredLane(op: Op, a: Word, data: Word, k: nat)
    requires op.Mem? && Aligned(op.width, a) && k < 4 && Strobed(op.width, a, k)
    ensures a % 4 <= k
    ensures Lane(Unpack(StoreLanes(op, a, data)), k) == Lane(Unpack(data), k - a % 4)
  {
    hide Unpack, Pack;
    var d := Unpack(data);
    match op.width
    case ByteWide =>
      UnpackPack(if a % 4 == 0 then Bytes(d.b0, 0, 0, 0) else if a % 4 == 1 then Bytes(0, d.b0, 0, 0)
                 else if a % 4 == 2 then Bytes(0, 0, d.b0, 0) else Bytes(0, 0, 0, d.b0));
    case HalfWide =>
      UnpackPack(if UpperHalf(a) then Bytes(0, 0, d.b0, d.b1) else Bytes(d.b0, d.b1, 0, 0));
    case WordWide =>
  }

  lemma StoreByte(mem: Memory, op: Op, a: Word, data: Word, b: Word)
    requires op.Mem? && op.store && Aligned(op.width, a)
    ensures Served(mem, Req(true, WordAddr(a), Strobes(op, a), StoreLanes(op, a, data)))(b)
         == ByteAfterStore(mem, op.width, a, data, b)
  {
    hide Strobes, StrobeBit, StoreLanes, Unpack, Strobed;
    StrobeBits(op, a, b % 4);
    Within(op.width, a, b);
    if Strobed(op.width, a, b % 4) {
      StoredLane(op, a, data, b % 4);
    }
  }

  /** The low bits of `data`, sign- or zero-extended. */
  function Extend(w: Width, signed: bool, data: Word): Word {
    match w
    case NoWidth => 0
    case ByteWide =>
      var v := data % 0x100;
      if signed && v >= 0x80 then v + 0xFFFF_FF00 else v
    case HalfWide =>
      var v := data % 0x1_0000;
      if signed && v >= 0x8000 then v + 0xFFFF_0000 else v
    case WordWide => data
  }

  lemma LowHalf(data: Word)
    ensures Unpack(data).b0 + 0x100 * Unpack(data).b1 == data % 0x1_0000
  {
    var q := data / 0x100;
    var r := q / 0x100;
    assert data == 0x100 * q + data % 0x100 && q == 0x100 * r + q % 0x100;
    Remainder(data, 0x1_0000, r, data % 0x100 + 0x100 * (q % 0x100));
  }

  /** Storing and then loading through the lanes gives back the low bits of the data, and no
      other byte of memory changes. */
  lemma StoreThenLoad(mem: Memory, st: Op, ld: Op, a: Word, data: Word)
    requires st.Mem? && st.store && ld.Mem? && ld.width == st.width && Aligned(st.width, a)
    ensures var mem' := Served(mem, Req(true, WordAddr(a), Strobes(st, a), StoreLanes(st, a, data)));
      && LoadLanes(ld, Strobes(ld, a), a, ReadWord(mem', WordAddr(a))) == Extend(ld.width, ld.signed, data)
      && forall b: Word :: !(a <= b < a + Bytewidth(st.width)) ==> mem'(b) == mem(b)
  {
    hide Served, LoadLanes, StoreLanes, Strobes, Unpack;
    var mem' := Served(mem, Req(true, WordAddr(a), Strobes(st, a), StoreLanes(st, a, data)));
    forall b: Word
      ensures mem'(b) == ByteAfterStore(mem, st.width, a, data, b)
    {
      StoreByte(mem, st, a, data, b);
    }
    LoadWidth(mem', ld, a);
    LowHalf(data);
    PackUnpack(data);
    LowByte(data);
    if ld.width != NoWidth {
      assert mem'(a) == Lane(Unpack(data), 0);
    }
    if ld.width == HalfWide || ld.width == WordWide {
      assert mem'(Add(a, 1)) == Lane(Unpack(data), 1);
    }
    if ld.width == WordWide {
      assert mem'(Add(a, 2)) == Lane(Unpack(data), 2) && mem'(Add(a, 3)) == Lane(Unpack(data), 3);
    }
  }

  lemma LowByte(data: Word)
    ensures Unpack(data).b0 == data % 0x100
  {
  }

  // ---------------------------------------------------------------- the sequential machine

  /** A machine whose load/store unit and data memory are the ones above. */
  ghost predicate HasLanes(m: Machine, init: Memory) {
    && (forall op, a :: m.strobe(op, a) == Strobes(op, a))
    && (forall op, a, d :: m.lanes(op, a, d) == StoreLanes(op, a, d))
    && (forall op, n, a, d :: m.extract(op, n, a, d) == LoadLanes(op, n, a, d))
    && (forall h :: m.answer(h) == Answer(init)(h))
  }

  lemma AfterSnoc(init: Memory, hist: seq<Req>, r: Req)
    ensures After(init, hist + [r]) == Served(After(init, hist), r)
  {
    assert (hist + [r])[..|hist|] == hist;
  }

  /** A load that does not trap brings back the value that the byte memory holds at its
      address: the bytes that the program's stores have left there. */
  lemma LoadMeans(m: Machine, init: Memory, q: Arch)
    requires HasLanes(m, init) && Dec(m, q).op.Mem? && Dec(m, q).op.load && !Dec(m, q).op.store
    requires !Traps(m, q)
    ensures var op := Dec(m, q).op;
      Loaded(m, q) == ValueAt(After(init, q.hist), op.width, op.signed, Addr(m, q))
  {
    hide LoadLanes, Strobes, ValueAt, After, Served, ReadWord, Addr;
    var op, a := Dec(m, q).op, Addr(m, q);
    assert (q.hist + [MemReq(m, q)])[..|q.hist|] == q.hist;
    LoadWidth(After(init, q.hist), op, a);
  }

  /** A store that does not trap changes exactly the bytes that its width names; every other
      instruction leaves the byte memory alone. */
  lemma StoreMeans(m: Machine, init: Memory, q: Arch, b: Word)
    requires HasLanes(m, init) && WellFormed(Dec(m, q))
    ensures var op := Dec(m, q).op;
      After(init, Step(m, q).hist)(b) ==
      if op.Mem? && op.store && !Traps(m, q)
      then ByteAfterStore(After(init, q.hist), op.width, Addr(m, q), C(m, q), b)
      else After(init, q.hist)(b)
  {
    hide StoreLanes, Strobes, ByteAfterStore, After, Addr, C, Redirects;
    var op := Dec(m, q).op;
    if op.Mem? && !Traps(m, q) {
      AfterSnoc(init, q.hist, MemReq(m, q));
      if op.store {
        StoreByte(After(init, q.hist), op, Addr(m, q), C(m, q), b);
      }
    }
  }
}
