/** The rotate and funnel-shift network (frv_bitwise), on bits listed least significant first. */
module Funnel {
  type Bits = seq<bool>

  type Word = s: Bits | |s| == 32 witness seq(32, _ => false)

  type Long = s: Bits | |s| == 64 witness seq(64, _ => false)

  datatype Uop = Fsl | Fsr | Mror

  // ---------------------------------------------------------------- the network

  /** The number on six amount lines. */
  function Amount(w: Word): (k: nat)
    ensures k < 64
  {
    (if w[0] then 1 else 0) + (if w[1] then 2 else 0) + (if w[2] then 4 else 0)
    + (if w[3] then 8 else 0) + (if w[4] then 16 else 0) + (if w[5] then 32 else 0)
  }

  /** {r[n-1:0], r[63:n]} */
  function RotateBy(r: Long, n: nat): Long
    requires n <= 64
  {
    r[n..] + r[..n]
  }

  function Stage(r: Long, on: bool, n: nat): Long
    requires n <= 64
  {
    if on then RotateBy(r, n) else r
  }

  /** rt_5 down to rt_0 */
  function Stages(r: Long, ramt: Word): Long {
    var upper := Stage(Stage(Stage(r, ramt[5], 32), ramt[4], 16), ramt[3], 8);
    Stage(Stage(Stage(upper, ramt[2], 4), ramt[1], 2), ramt[0], 1)
  }

  function Reverse(r: Long): Long { seq(64, i requires 0 <= i < 64 => r[63 - i]) }

  function Zeros(n: nat): (z: Bits)
    ensures |z| == n
  {
    seq(n, _ => false)
  }

  /** {hi, lo} */
  function Wide(hi: Word, lo: Word): Long { lo + hi }

  /** The high half of a 64-bit word, zero-extended. */
  function HighHalf(r: Long): Long { Wide(Zeros(32), r[32..]) }

  /** ramt */
  function AmountWord(uop: Uop, rs2: Word, rs3: Word): Word { if uop == Mror then rs3 else rs2 }

  /** rword_r */
  function Rword(uop: Uop, rs1: Word, rs2: Word, rs3: Word): Long { Wide(rs1, if uop == Mror then rs2 else rs3) }

  /** r_out: the bits are reversed around the stages for a left rotation. */
  function Rotated(left: bool, r: Long, ramt: Word): Long {
    if left then Reverse(Stages(Reverse(r), ramt)) else Stages(r, ramt)
  }

  function Result(uop: Uop, rs1: Word, rs2: Word, rs3: Word): Long {
    if uop == Mror then Rotated(false, Rword(uop, rs1, rs2, rs3), AmountWord(uop, rs2, rs3))
    else HighHalf(Rotated(uop == Fsl, Rword(uop, rs1, rs2, rs3), AmountWord(uop, rs2, rs3)))
  }

  // ---------------------------------------------------------------- the specification

  function Shl(r: Long, k: nat): Long
    requires k <= 64
  {
    Zeros(k) + r[..64 - k]
  }

  function Shr(r: Long, k: nat): Long
    requires k <= 64
  {
    r[k..] + Zeros(k)
  }

  function Or(a: Long, b: Long): Long { seq(64, i requires 0 <= i < 64 => a[i] || b[i]) }

  function ShiftOrLeft(r: Long, k: nat): Long
    requires k < 64
  {
    Or(Shl(r, k), Shr(r, 64 - k))
  }

  function ShiftOrRight(r: Long, k: nat): Long
    requires k < 64
  {
    Or(Shr(r, k), Shl(r, 64 - k))
  }

  /** The results that the instruction checks of the core's formal flow ask for. */
  function Spec(uop: Uop, rs1: Word, rs2: Word, rs3: Word): Long {
    match uop
    case Fsl => HighHalf(ShiftOrLeft(Wide(rs1, rs3), Amount(rs2)))
    case Fsr => HighHalf(ShiftOrRight(Wide(rs1, rs3), Amount(rs2)))
    case Mror => ShiftOrRight(Wide(rs1, rs2), Amount(rs3))
  }

  // ---------------------------------------------------------------- lemmas

  lemma RotateTwice(r: Long, a: nat, b: nat)
    requires a + b <= 64
    ensures RotateBy(RotateBy(r, a), b) == RotateBy(r, a + b)
  {
  }

  lemma StageAdds(r: Long, a: nat, on: bool, n: nat)
    requires a + n <= 64
    ensures Stage(RotateBy(r, a), on, n) == RotateBy(r, if on then a + n else a)
  {
    if on {
      RotateTwice(r, a, n);
    }
  }

  /** The six conditional stages rotate right by the amount. */
  lemma StagesRotate(r: Long, ramt: Word)
    ensures Stages(r, ramt) == RotateBy(r, Amount(ramt))
  {
    hide Stage, RotateBy;
    var a5 := if ramt[5] then 32 else 0;
    var a4 := if ramt[4] then a5 + 16 else a5;
    var a3 := if ramt[3] then a4 + 8 else a4;
    var a2 := if ramt[2] then a3 + 4 else a3;
    var a1 := if ramt[1] then a2 + 2 else a2;
    RotateNone(r);
    StageAdds(r, 0, ramt[5], 32);
    StageAdds(r, a5, ramt[4], 16);
    StageAdds(r, a4, ramt[3], 8);
    StageAdds(r, a3, ramt[2], 4);
    StageAdds(r, a2, ramt[1], 2);
    StageAdds(r, a1, ramt[0], 1);
  }

  lemma RotateNone(r: Long)
    ensures RotateBy(r, 0) == r
  {
  }

  lemma RightIsShiftOr(r: Long, k: nat)
    requires k < 64
    ensures RotateBy(r, k) == ShiftOrRight(r, k)
  {
  }

  /** Reversal around a right rotation makes a left rotation. */
  lemma LeftIsShiftOr(r: Long, k: nat)
    requires k < 64
    ensures Reverse(RotateBy(Reverse(r), k)) == ShiftOrLeft(r, k)
  {
    var l, sl := Reverse(RotateBy(Reverse(r), k)), ShiftOrLeft(r, k);
    forall i | 0 <= i < 64
      ensures l[i] == sl[i]
    {
      if i < k {
        assert l[i] == Reverse(r)[k - 1 - i] == r[64 - k + i];
      } else {
        assert l[i] == Reverse(r)[63 - i + k] == r[i - k];
      }
    }
  }

  /** fsl, fsr and mror compute the shift-or specifications, for all operands. */
  lemma NetworkMeetsSpec(uop: Uop, rs1: Word, rs2: Word, rs3: Word)
    ensures Result(uop, rs1, rs2, rs3) == Spec(uop, rs1, rs2, rs3)
  {
    hide Stages, RotateBy, Reverse, ShiftOrLeft, ShiftOrRight, Amount;
    var ramt, right := AmountWord(uop, rs2, rs3), Rword(uop, rs1, rs2, rs3);
    StagesRotate(right, ramt);
    StagesRotate(Reverse(right), ramt);
    RightIsShiftOr(right, Amount(ramt));
    LeftIsShiftOr(right, Amount(ramt));
  }

  /** Rotating left after rotating right by the same amount changes nothing. */
  lemma LeftUndoesRight(r: Long, k: nat)
    requires k < 64
    ensures ShiftOrLeft(ShiftOrRight(r, k), k) == r && ShiftOrRight(ShiftOrLeft(r, k), k) == r
  {
    var x, y := ShiftOrRight(r, k), ShiftOrLeft(r, k);
    forall i | 0 <= i < 64
      ensures x[i] == r[if i + k < 64 then i + k else i + k - 64]
      ensures y[i] == r[if i < k then 64 - k + i else i - k]
    {
    }
    assert ShiftOrLeft(x, k) == r;
    assert ShiftOrRight(y, k) == r;
  }

  // ---------------------------------------------------------------- the results, bit by bit

  /** Bit `i` of the 64 bits with high half `hi` and low half `lo`. */
  predicate Of(hi: Word, lo: Word, i: int)
    requires 0 <= i < 64
  {
    if i < 32 then lo[i] else hi[i - 32]
  }

  lemma RotatedBit(left: bool, r: Long, ramt: Word, i: nat)
    requires i < 64
    ensures Rotated(left, r, ramt)[i] == r[(if left then i - Amount(ramt) else i + Amount(ramt)) % 64]
  {
    hide Stages, RotateBy, Reverse, Amount;
    var k := Amount(ramt);
    StagesRotate(r, ramt);
    StagesRotate(Reverse(r), ramt);
    LeftBit(r, k, i);
    RightBit(r, k, i);
  }

  lemma RightBit(r: Long, k: nat, i: nat)
    requires k < 64 && i < 64
    ensures RotateBy(r, k)[i] == r[(i + k) % 64]
  {
    assert (i + k) % 64 == if i + k < 64 then i + k else i + k - 64;
  }

  lemma LeftBit(r: Long, k: nat, i: nat)
    requires k < 64 && i < 64
    ensures Reverse(RotateBy(Reverse(r), k))[i] == r[(i - k) % 64]
  {
    hide Reverse, RotateBy;
    LeftIsShiftOr(r, k);
    assert (i - k) % 64 == if i >= k then i - k else i - k + 64;
  }

  /** fsl gives the high half of rs1:rs3 shifted left by the amount in rs2, and fsr of the same shifted
      right, both rotating; mror rotates rs1:rs2 right by the amount in rs3. */
  lemma ResultBits(uop: Uop, rs1: Word, rs2: Word, rs3: Word, i: nat)
    requires i < 64
    ensures uop == Fsl ==> Result(uop, rs1, rs2, rs3)[i] == (i < 32 && Of(rs1, rs3, (32 + i - Amount(rs2)) % 64))
    ensures uop == Fsr ==> Result(uop, rs1, rs2, rs3)[i] == (i < 32 && Of(rs1, rs3, (32 + i + Amount(rs2)) % 64))
    ensures uop == Mror ==> Result(uop, rs1, rs2, rs3)[i] == Of(rs1, rs2, (i + Amount(rs3)) % 64)
  {
    hide Rotated, Amount;
    var r, ramt := Rword(uop, rs1, rs2, rs3), AmountWord(uop, rs2, rs3);
    RotatedBit(uop == Fsl, r, ramt, i);
    if i < 32 {
      RotatedBit(uop == Fsl, r, ramt, i + 32);
    }
  }

  /** The number in the lowest `n` bits. */
  function Low(w: Word, n: nat): nat
    requires n <= 6
    decreases n
  {
    if n == 0 then 0 else (if w[n - 1] then Power(n - 1) else 0) + Low(w, n - 1)
  }

  function Power(n: nat): nat
    decreases n
  {
    if n == 0 then 1 else 2 * Power(n - 1)
  }

  /** The amount is the number in the six low bits. */
  lemma AmountIs(w: Word)
    ensures Amount(w) == Low(w, 6)
  {
    assert Low(w, 6) == (if w[5] then 32 else 0) + Low(w, 5);
    assert Low(w, 5) == (if w[4] then 16 else 0) + Low(w, 4);
    assert Low(w, 3) == (if w[2] then 4 else 0) + Low(w, 2);
    assert Low(w, 1) == (if w[0] then 1 else 0) + Low(w, 0);
  }
}
