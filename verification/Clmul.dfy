/** The carry-less multiplication reference (clmul_ref), on bits listed least significant
    first: a word is a polynomial over GF(2). */
module Clmul {
  type Poly = seq<bool>

  function Xor(a: Poly, b: Poly): (r: Poly)
    requires |a| == |b|
    ensures |r| == |a|
  {
    seq(|a|, i requires 0 <= i < |a| => a[i] != b[i])
  }

  /** lhs << i, in `n` bits. */
  function Shifted(a: Poly, i: nat, n: nat): (r: Poly)
    requires i + |a| <= n
    ensures |r| == n
  {
    seq(i, _ => false) + a + seq(n - |a| - i, _ => false)
  }

  function Zeros(n: nat): (r: Poly)
    ensures |r| == n
  {
    seq(n, _ => false)
  }

  // ---------------------------------------------------------------- polynomial product

  /** Coefficient `i`, zero outside the word. */
  predicate At(a: Poly, i: int) { 0 <= i < |a| && a[i] }

  /** Parity of the number of indices below `n` at which `f` holds. */
  function Parity(f: int -> bool, n: nat): bool
    decreases n
  {
    n > 0 && Parity(f, n - 1) != f(n - 1)
  }

  /** The terms that make up coefficient `k` of the product. */
  function Terms(a: Poly, b: Poly, k: int): int -> bool {
    (i: int) => At(b, i) && At(a, k - i)
  }

  /** Coefficient `k` of the product over GF(2). */
  predicate Coefficient(a: Poly, b: Poly, k: nat) { Parity(Terms(a, b, k), k + 1) }

  /** The product; NothingCutOff says that these are all its coefficients. */
  function Product(a: Poly, b: Poly): (r: Poly)
    ensures |r| == |a| + |b|
  {
    seq(|a| + |b|, k requires 0 <= k < |a| + |b| => Coefficient(a, b, k))
  }

  // ---------------------------------------------------------------- parities

  lemma {:induction false} ParitySame(f: int -> bool, g: int -> bool, n: nat)
    requires forall i :: 0 <= i < n ==> f(i) == g(i)
    ensures Parity(f, n) == Parity(g, n)
    decreases n
  {
    if n > 0 {
      ParitySame(f, g, n - 1);
    }
  }

  lemma {:induction false} ParityXor(f: int -> bool, g: int -> bool, h: int -> bool, n: nat)
    requires forall i :: 0 <= i < n ==> h(i) == (f(i) != g(i))
    ensures Parity(h, n) == (Parity(f, n) != Parity(g, n))
    decreases n
  {
    if n > 0 {
      ParityXor(f, g, h, n - 1);
    }
  }

  /** Terms from `m` on that do not hold make no difference. */
  lemma {:induction false} ParityStops(f: int -> bool, m: nat, n: nat)
    requires m <= n && forall i :: m <= i < n ==> !f(i)
    ensures Parity(f, n) == Parity(f, m)
    decreases n
  {
    if m < n {
      ParityStops(f, m, n - 1);
    }
  }

  lemma {:induction false} ParityFront(f: int -> bool, g: int -> bool, n: nat)
    requires forall i :: 0 <= i < n ==> g(i) == f(i + 1)
    ensures Parity(f, n + 1) == (f(0) != Parity(g, n))
    decreases n
  {
    if n > 0 {
      ParityFront(f, g, n - 1);
    } else {
      assert Parity(f, 0) == false;
    }
  }

  lemma {:induction false} ParityReversed(f: int -> bool, g: int -> bool, n: nat)
    requires forall i :: 0 <= i < n ==> g(i) == f(n - 1 - i)
    ensures Parity(g, n) == Parity(f, n)
    decreases n
  {
    if n > 0 {
      var h := (i: int) => g(i + 1);
      ParityFront(g, h, n - 1);
      ParityReversed(f, h, n - 1);
    }
  }

  // ---------------------------------------------------------------- the loop

  /** The terms of `b` below `n` only. */
  predicate PartialCoefficient(a: Poly, b: Poly, k: nat, n: nat) { Parity(Terms(a, b, k), n) }

  lemma Complete(a: Poly, b: Poly, k: nat)
    ensures PartialCoefficient(a, b, k, |b|) == Coefficient(a, b, k)
  {
    if |b| <= k + 1 {
      ParityStops(Terms(a, b, k), |b|, k + 1);
    } else {
      ParityStops(Terms(a, b, k), k + 1, |b|);
    }
  }

  /** clmul_ref computes the product of polynomials. */
  method ClmulRef(lhs: Poly, rhs: Poly) returns (result: Poly)
    requires |lhs| == |rhs| == 32
    ensures result == Product(lhs, rhs)
  {
    hide Parity, Terms;
    result := if rhs[0] then Shifted(lhs, 0, 64) else Zeros(64);
    forall k | 0 <= k < 64
      ensures result[k] == PartialCoefficient(lhs, rhs, k, 1)
    {
      OneMore(lhs, rhs, k, 0);
    }
    for i := 1 to 32
      invariant |result| == 64
      invariant forall k :: 0 <= k < 64 ==> result[k] == PartialCoefficient(lhs, rhs, k, i)
    {
      ghost var was := result;
      result := Xor(result, if rhs[i] then Shifted(lhs, i, 64) else Zeros(64));
      forall k | 0 <= k < 64
        ensures result[k] == PartialCoefficient(lhs, rhs, k, i + 1)
      {
        OneMore(lhs, rhs, k, i);
        assert was[k] == PartialCoefficient(lhs, rhs, k, i);
      }
    }
    forall k | 0 <= k < 64
      ensures result[k] == Coefficient(lhs, rhs, k)
    {
      Complete(lhs, rhs, k);
    }
  }

  lemma OneMore(a: Poly, b: Poly, k: nat, i: nat)
    ensures PartialCoefficient(a, b, k, i + 1) == (PartialCoefficient(a, b, k, i) != (At(b, i) && At(a, k - i)))
    ensures !PartialCoefficient(a, b, k, 0)
  {
  }

  /** The 64-bit result holds every coefficient of the product of two 32-bit words. */
  lemma NothingCutOff(a: Poly, b: Poly, k: nat)
    requires k >= |a| + |b|
    ensures !Coefficient(a, b, k)
  {
    ParityStops(Terms(a, b, k), 0, k + 1);
  }

  // ---------------------------------------------------------------- laws

  lemma Commutes(a: Poly, b: Poly)
    ensures Product(a, b) == Product(b, a)
  {
    forall k: nat
      ensures Coefficient(a, b, k) == Coefficient(b, a, k)
    {
      ParityReversed(Terms(a, b, k), Terms(b, a, k), k + 1);
    }
  }

  lemma DistributesLeft(a: Poly, b: Poly, c: Poly)
    requires |a| == |b|
    ensures Product(Xor(a, b), c) == Xor(Product(a, c), Product(b, c))
  {
    forall k: nat
      ensures Coefficient(Xor(a, b), c, k) == (Coefficient(a, c, k) != Coefficient(b, c, k))
    {
      ParityXor(Terms(a, c, k), Terms(b, c, k), Terms(Xor(a, b), c, k), k + 1);
    }
  }

  lemma DistributesRight(a: Poly, b: Poly, c: Poly)
    requires |b| == |c|
    ensures Product(a, Xor(b, c)) == Xor(Product(a, b), Product(a, c))
  {
    Commutes(a, Xor(b, c));
    Commutes(a, b);
    Commutes(a, c);
    DistributesLeft(b, c, a);
  }
}
