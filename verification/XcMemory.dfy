/** The memory instructions of XCrypto: indexed loads and stores, gather and scatter. */
module XcMemory {
  import opened Words
  import opened Gprs
  import opened Machine
  import opened Decode
  import opened Assembler
  import opened Rvc
  import opened Encodings
  import opened Isa

  // ---------------------------------------------------------------- the decoder

  /** What decode gives a gather or scatter: the access unit, neither load nor store, no width. */
  const ACCESS: Op := Mem(false, false, NoWidth, false)

  /** xc.ldr, with rs2 shifted left by `shift`. */
  function LdrRaw(w: Instr, width: Width, signed: bool, shift: nat): Raw {
    Raw(Mem(true, false, width, signed), RdField(w), Rs1Field(w), Rs2Field(w), 0, Rs1, Rs2(shift), NoC, 0, 0, false)
  }

  /** xc.str; the data register is in the top bits. */
  function StrRaw(w: Instr, width: Width, shift: nat): Raw {
    Raw(Mem(false, true, width, false), 0, Rs1Field(w), Rs2Field(w), w >> 27, Rs1, Rs2(shift), Rs3, 0, 0, false)
  }

  function AccessRaw(w: Instr, shift: nat): Raw {
    Raw(ACCESS, RdField(w), Rs1Field(w), Rs2Field(w), w >> 27, Rs1, Rs2(shift), Rs3, 0, 0, false)
  }

  /** xc.ldr.b, h, w, bu and hu. */
  function DecodeLdr(w: Instr): Raw {
    if Is(w, 0xFE00_707F, 0x0000_7003) then LdrRaw(w, ByteWide, true, 0)
    else if Is(w, 0xFE00_707F, 0x0200_7003) then LdrRaw(w, HalfWide, true, 1)
    else if Is(w, 0xFE00_707F, 0x0400_7003) then LdrRaw(w, WordWide, false, 2)
    else if Is(w, 0xFE00_707F, 0x0800_7003) then LdrRaw(w, ByteWide, false, 0)
    else if Is(w, 0xFE00_707F, 0x0A00_7003) then LdrRaw(w, HalfWide, false, 1)
    else ILLEGAL
  }

  /** xc.str.b, h and w, and xc.scatter.b and h, whose encodings fix the bits of the rd field. */
  function DecodeStr(w: Instr): Raw {
    if Is(w, 0x0600_7FFF, 0x4023) then StrRaw(w, ByteWide, 0)
    else if Is(w, 0x0600_7FFF, 0x40A3) then StrRaw(w, HalfWide, 1)
    else if Is(w, 0x0600_7FFF, 0x4123) then StrRaw(w, WordWide, 2)
    else if Is(w, 0x0600_7FFF, 0x4223) then AccessRaw(w, 0)
    else if Is(w, 0x0600_7FFF, 0x42A3) then AccessRaw(w, 1)
    else ILLEGAL
  }

  /** xc.gather.b and h. */
  function DecodeGather(w: Instr): Raw {
    if Is(w, 0xFE00_707F, 0x3C00_1013) then AccessRaw(w, 0)
    else if Is(w, 0xFE00_707F, 0x3E00_1013) then AccessRaw(w, 1)
    else ILLEGAL
  }

  /** These twelve, and everything else that is left open is illegal. */
  function XcRaw(w: Instr): Raw {
    if w & 0x7F == 0x03 then DecodeLdr(w) else if w & 0x7F == 0x23 then DecodeStr(w)
    else if w & 0x7F == 0x13 then DecodeGather(w) else ILLEGAL
  }

  lemma ShapesConsistent(w: Instr, width: Width, signed: bool, shift: nat)
    ensures Consistent(LdrRaw(w, width, signed, shift)) && Consistent(StrRaw(w, width, shift))
    ensures Consistent(AccessRaw(w, shift)) && Consistent(ILLEGAL)
  {
    hide RegOf, RdField, Rs1Field, Rs2Field, WordOf;
    RegOfZero();
  }

  lemma XcConsistent(w: Instr)
    ensures Consistent(XcRaw(w))
  {
    hide Consistent, LdrRaw, StrRaw, AccessRaw, Is;
    ShapesConsistent(w, ByteWide, true, 0);
    ShapesConsistent(w, ByteWide, false, 0);
    ShapesConsistent(w, HalfWide, true, 1);
    ShapesConsistent(w, HalfWide, false, 1);
    ShapesConsistent(w, WordWide, false, 2);
  }

  // ---------------------------------------------------------------- instructions and encodings

  datatype Xc =
    | LoadIndexed(width: Width, signed: bool, rd: Instr, rs1: Instr, rs2: Instr)
    | StoreIndexed(width: Width, rs1: Instr, rs2: Instr, rs3: Instr)
    | Gather(half: bool, rd: Instr, rs1: Instr, rs2: Instr)
    | Scatter(half: bool, rs1: Instr, rs2: Instr, rs3: Instr)

  function LoadWord(width: Width, signed: bool): Instr {
    match width
    case NoWidth => 0
    case ByteWide => if signed then 0x0000_7003 else 0x0800_7003
    case HalfWide => if signed then 0x0200_7003 else 0x0A00_7003
    case WordWide => 0x0400_7003
  }

  function StoreWord(width: Width): Instr {
    match width case NoWidth => 0 case ByteWide => 0x4023 case HalfWide => 0x40A3 case WordWide => 0x4123
  }

  /** Register fields around the fixed bits: rd in 11:7, rs1 in 19:15, rs2 in 24:20. */
  function WithRd(fixed: Instr, rd: Instr, rs1: Instr, rs2: Instr): Instr {
    fixed | (rd << 7) | (rs1 << 15) | (rs2 << 20)
  }

  /** The same with rs3 in 31:27 instead of rd. */
  function WithRs3(fixed: Instr, rs1: Instr, rs2: Instr, rs3: Instr): Instr {
    fixed | (rs1 << 15) | (rs2 << 20) | (rs3 << 27)
  }

  function XcEncode(x: Xc): Instr {
    match x
    case LoadIndexed(width, signed, rd, rs1, rs2) => WithRd(LoadWord(width, signed), rd, rs1, rs2)
    case StoreIndexed(width, rs1, rs2, rs3) => WithRs3(StoreWord(width), rs1, rs2, rs3)
    case Gather(half, rd, rs1, rs2) => WithRd(if half then 0x3E00_1013 else 0x3C00_1013, rd, rs1, rs2)
    case Scatter(half, rs1, rs2, rs3) => WithRs3(if half then 0x42A3 else 0x4223, rs1, rs2, rs3)
  }

  predicate XcEncodable(x: Xc) {
    match x
    case LoadIndexed(width, signed, rd, rs1, rs2) =>
      Fits(rd, 5) && Fits(rs1, 5) && Fits(rs2, 5) && Loadable(width, signed)
    case StoreIndexed(width, rs1, rs2, rs3) => Fits(rs1, 5) && Fits(rs2, 5) && Fits(rs3, 5) && width != NoWidth
    case Gather(_, rd, rs1, rs2) => Fits(rd, 5) && Fits(rs1, 5) && Fits(rs2, 5)
    case Scatter(_, rs1, rs2, rs3) => Fits(rs1, 5) && Fits(rs2, 5) && Fits(rs3, 5)
  }

  // ---------------------------------------------------------------- effects

  /** rs1 plus rs2 times the size of the access. */
  function Indexed(q: Arch, rs1: Instr, rs2: Instr, scale: int): Word {
    (q.regs[Num(rs1)] + scale * q.regs[Num(rs2)]) % WORD_RANGE
  }

  function Scale(width: Width): int { match width case HalfWide => 2 case WordWide => 4 case _ => 1 }

  /** A read whose answer is dropped. */
  function Touches(m: Machine, q: Arch, a: Word): Arch {
    Arch(Sum(q.pc, 4), q.regs, q.mepc, q.hist + [Req(false, a - a % 4, m.strobe(ACCESS, a), 0)])
  }

  function XcExec(m: Machine, x: Xc, q: Arch): Arch {
    match x
    case LoadIndexed(width, signed, rd, rs1, rs2) =>
      var a := Indexed(q, rs1, rs2, Scale(width));
      if Misaligned(width, a) then Trapped(m, q) else Loads(m, q, 4, rd, Mem(true, false, width, signed), a)
    case StoreIndexed(width, rs1, rs2, rs3) =>
      var a := Indexed(q, rs1, rs2, Scale(width));
      if Misaligned(width, a) then Trapped(m, q)
      else Stores(m, q, 4, Mem(false, true, width, false), a, q.regs[Num(rs3)])
    case Gather(half, _, rs1, rs2) => Touches(m, q, Indexed(q, rs1, rs2, if half then 2 else 1))
    case Scatter(half, rs1, rs2, _) => Touches(m, q, Indexed(q, rs1, rs2, if half then 2 else 1))
  }

  // ---------------------------------------------------------------- the decoder on encodings

  lemma WithRdFields(fixed: Instr, rd: Instr, rs1: Instr, rs2: Instr)
    requires Fits(rd, 5) && Fits(rs1, 5) && Fits(rs2, 5) && fixed & 0xFE00_707F == fixed
    ensures var w := WithRd(fixed, rd, rs1, rs2);
      RdField(w) == rd && Rs1Field(w) == rs1 && Rs2Field(w) == rs2
    ensures forall bits :: Is(WithRd(fixed, rd, rs1, rs2), 0xFE00_707F, bits) <==> fixed == bits
  {
  }

  lemma WithRs3Fields(fixed: Instr, rs1: Instr, rs2: Instr, rs3: Instr)
    requires Fits(rs1, 5) && Fits(rs2, 5) && Fits(rs3, 5) && fixed & 0x0600_7FFF == fixed
    ensures var w := WithRs3(fixed, rs1, rs2, rs3);
      Rs1Field(w) == rs1 && Rs2Field(w) == rs2 && w >> 27 == rs3
    ensures forall bits :: Is(WithRs3(fixed, rs1, rs2, rs3), 0x0600_7FFF, bits) <==> fixed == bits
  {
  }

  /** Under either mask the low seven bits of the fixed part are kept, and these are none of the
      encodings that the base decoder takes. */
  lemma RdOpens(w: Instr, fixed: Instr)
    requires Is(w, 0xFE00_707F, fixed)
    requires fixed & 0x707F == 0x7003 || fixed == 0x3C00_1013 || fixed == 0x3E00_1013
    ensures w & 0x7F == fixed & 0x7F && !Is16(w) && !Known(w)
  {
  }

  lemma StoresFree(w: Instr)
    requires w & 0x707F == 0x4023
    ensures w & 0x7F == 0x23 && !Is16(w) && !Known(w)
  {
  }

  lemma Rs3Opens(w: Instr, fixed: Instr)
    requires Is(w, 0x0600_7FFF, fixed) && fixed & 0x707F == 0x4023
    ensures w & 0x7F == 0x23 && !Is16(w) && !Known(w)
  {
    hide Known, Is16;
    assert w & 0x707F == (w & 0x0600_7FFF) & 0x707F;
    StoresFree(w);
  }

  lemma LdrDecoded(x: Xc)
    requires XcEncodable(x) && x.LoadIndexed?
    ensures !Is16(XcEncode(x)) && DecodeRaw(XcEncode(x), XcRaw) ==
            Raw(Mem(true, false, x.width, x.signed), x.rd, x.rs1, x.rs2, 0, Rs1,
                Rs2(match x.width case HalfWide => 1 case WordWide => 2 case _ => 0), NoC, 0, 0, false)
  {
    hide WithRd, Is, RdField, Rs1Field, Rs2Field, Decode32, Known, Fits;
    var w := XcEncode(x);
    WithRdFields(LoadWord(x.width, x.signed), x.rd, x.rs1, x.rs2);
    RdOpens(w, LoadWord(x.width, x.signed));
    TakesKnown(w, XcRaw);
  }

  lemma StrDecoded(x: Xc)
    requires XcEncodable(x) && x.StoreIndexed?
    ensures !Is16(XcEncode(x)) && DecodeRaw(XcEncode(x), XcRaw) ==
            Raw(Mem(false, true, x.width, false), 0, x.rs1, x.rs2, x.rs3, Rs1,
                Rs2(match x.width case HalfWide => 1 case WordWide => 2 case _ => 0), Rs3, 0, 0, false)
  {
    hide WithRs3, Is, Rs1Field, Rs2Field, Decode32, Known, Fits;
    var w := XcEncode(x);
    WithRs3Fields(StoreWord(x.width), x.rs1, x.rs2, x.rs3);
    Rs3Opens(w, StoreWord(x.width));
    TakesKnown(w, XcRaw);
  }

  lemma GatherDecoded(x: Xc)
    requires XcEncodable(x) && x.Gather?
    ensures !Is16(XcEncode(x)) && DecodeRaw(XcEncode(x), XcRaw) == AccessRaw(XcEncode(x), if x.half then 1 else 0)
    ensures Rs1Field(XcEncode(x)) == x.rs1 && Rs2Field(XcEncode(x)) == x.rs2 && RdField(XcEncode(x)) == x.rd
  {
    hide WithRd, Is, RdField, Rs1Field, Rs2Field, Decode32, Known, Fits;
    var w := XcEncode(x);
    WithRdFields(if x.half then 0x3E00_1013 else 0x3C00_1013, x.rd, x.rs1, x.rs2);
    RdOpens(w, if x.half then 0x3E00_1013 else 0x3C00_1013);
    TakesKnown(w, XcRaw);
  }

  lemma ScatterDecoded(x: Xc)
    requires XcEncodable(x) && x.Scatter?
    ensures !Is16(XcEncode(x)) && DecodeRaw(XcEncode(x), XcRaw) == AccessRaw(XcEncode(x), if x.half then 1 else 0)
    ensures Rs1Field(XcEncode(x)) == x.rs1 && Rs2Field(XcEncode(x)) == x.rs2
  {
    hide WithRs3, Is, Rs1Field, Rs2Field, Decode32, Known, Fits;
    var w := XcEncode(x);
    WithRs3Fields(if x.half then 0x42A3 else 0x4223, x.rs1, x.rs2, x.rs3);
    Rs3Opens(w, if x.half then 0x42A3 else 0x4223);
    TakesKnown(w, XcRaw);
  }

  // ---------------------------------------------------------------- the machine does it

  lemma Scaled(a: Word, b: Word, shift: nat)
    requires shift <= 2
    ensures Add(a, Shl(b, shift)) == (a + (if shift == 0 then 1 else if shift == 1 then 2 else 4) * b) % WORD_RANGE
  {
  }

  function Shift(x: Xc): nat {
    match x
    case LoadIndexed(width, _, _, _, _) => if width == HalfWide then 1 else if width == WordWide then 2 else 0
    case StoreIndexed(width, _, _, _) => if width == HalfWide then 1 else if width == WordWide then 2 else 0
    case Gather(half, _, _, _) => if half then 1 else 0
    case Scatter(half, _, _, _) => if half then 1 else 0
  }

  /** What decode hands on. */
  predicate Dispatched(m: Machine, x: Xc, q: Arch) {
    var d := Dec(m, q);
    && Size(m, q) == 4 && !d.illegal && d.rs1 == Num(x.rs1) && d.rs2 == Num(x.rs2)
    && d.aSrc == Rs1 && d.bSrc == Rs2(Shift(x))
    && match x
       case LoadIndexed(width, signed, rd, _, _) => d.op == Mem(true, false, width, signed) && d.rd == Num(rd)
       case StoreIndexed(width, _, _, rs3) =>
         d.op == Mem(false, true, width, false) && d.cSrc == Rs3 && d.rs3 == Num(rs3)
       case _ => d.op == ACCESS
  }

  lemma Dispatches(m: Machine, x: Xc, q: Arch)
    requires HasDecoder(m, XcRaw) && XcEncodable(x) && InstrAt(m.imem, q.pc) == XcEncode(x)
    ensures Dispatched(m, x, q)
  {
    hide DecodeRaw, XcEncode, RegOf, WordOf, Num, InstrAt, Fits, RdField, Rs1Field, Rs2Field;
    RegOfIs(x.rs1);
    RegOfIs(x.rs2);
    match x
    case LoadIndexed(_, _, rd, _, _) =>
      LdrDecoded(x);
      RegOfIs(rd);
    case StoreIndexed(_, _, _, rs3) =>
      StrDecoded(x);
      RegOfIs(rs3);
    case Gather(_, _, _, _) => GatherDecoded(x);
    case Scatter(_, _, _, _) => ScatterDecoded(x);
  }

  lemma AddressIs(m: Machine, x: Xc, q: Arch)
    requires Dispatched(m, x, q)
    ensures Addr(m, q) == Indexed(q, x.rs1, x.rs2, if Shift(x) == 0 then 1 else if Shift(x) == 1 then 2 else 4)
    ensures match x
            case LoadIndexed(width, _, _, _, _) => Addr(m, q) == Indexed(q, x.rs1, x.rs2, Scale(width))
            case StoreIndexed(width, _, _, _) => Addr(m, q) == Indexed(q, x.rs1, x.rs2, Scale(width))
            case Gather(half, _, _, _) => Addr(m, q) == Indexed(q, x.rs1, x.rs2, if half then 2 else 1)
            case Scatter(half, _, _, _) => Addr(m, q) == Indexed(q, x.rs1, x.rs2, if half then 2 else 1)
  {
    hide Num, InstrAt, Add, Shl, Dec, Size;
    Scaled(q.regs[Num(x.rs1)], q.regs[Num(x.rs2)], Shift(x));
  }

  lemma DispatchedLoad(m: Machine, x: Xc, q: Arch)
    requires Dispatched(m, x, q) && x.LoadIndexed?
    ensures Step(m, q) == XcExec(m, x, q)
  {
    hide Num, InstrAt, Put, Sum, Write, Add, Shl, WordAddr, Dec, Size, Shift;
    AddIs(q.pc, 4);
    AddressIs(m, x, q);
    EvenIs(Addr(m, q));
    PutIs(q.regs, Num(x.rd), Loaded(m, q), 0);
  }

  lemma DispatchedStore(m: Machine, x: Xc, q: Arch)
    requires Dispatched(m, x, q) && x.StoreIndexed?
    ensures Step(m, q) == XcExec(m, x, q)
  {
    hide Num, InstrAt, Put, Sum, Write, Add, Shl, WordAddr, Dec, Size, Shift;
    AddIs(q.pc, 4);
    AddressIs(m, x, q);
    EvenIs(Addr(m, q));
  }

  lemma DispatchedAccess(m: Machine, x: Xc, q: Arch)
    requires Dispatched(m, x, q) && (x.Gather? || x.Scatter?)
    ensures Step(m, q) == XcExec(m, x, q)
  {
    hide Num, InstrAt, Put, Sum, Write, Add, Shl, WordAddr, Dec, Size, Shift;
    AddIs(q.pc, 4);
    AddressIs(m, x, q);
    EvenIs(Addr(m, q));
  }

  /** Each of the twelve instructions accesses rs1 plus rs2 times the width, moves the registers
      named, traps if that is misaligned, and gather and scatter do nothing but the access. */
  lemma XcStep(m: Machine, x: Xc, q: Arch)
    requires HasDecoder(m, XcRaw) && XcEncodable(x) && InstrAt(m.imem, q.pc) == XcEncode(x)
    ensures Step(m, q) == XcExec(m, x, q)
  {
    hide Step, XcExec, XcEncode, XcEncodable, HasDecoder, InstrAt, Dispatched;
    Dispatches(m, x, q);
    if x.LoadIndexed? {
      DispatchedLoad(m, x, q);
    } else if x.StoreIndexed? {
      DispatchedStore(m, x, q);
    } else {
      DispatchedAccess(m, x, q);
    }
  }
}
