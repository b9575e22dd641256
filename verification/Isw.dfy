/** Masked multiplication over any number of shares (mul_isw) and the splitting of secrets
    into shares around it (test_main). */
module Isw {
  type Word = bv32

  /** The addition and multiplication of shares: bitwise XOR and AND. */
  function Plus(x: Word, y: Word): Word { x ^ y }

  function Times(x: Word, y: Word): Word { x & y }

  /** The value that a list of shares stands for. */
  function Sum(s: seq<Word>): Word
    decreases |s|
  {
    if s == [] then 0 else Plus(s[0], Sum(s[1..]))
  }

  /** Sum of the share-by-share products. */
  function Diagonal(a: seq<Word>, b: seq<Word>): Word
    requires |a| == |b|
    decreases |a|
  {
    if a == [] then 0 else Plus(Times(a[0], b[0]), Diagonal(a[1..], b[1..]))
  }

  /** Sum of the products of different shares. */
  function Cross(a: seq<Word>, b: seq<Word>): Word
    requires |a| == |b|
  {
    Plus(Times(Sum(a), Sum(b)), Diagonal(a, b))
  }

  // ---------------------------------------------------------------- algebra

  lemma Assoc(x: Word, y: Word, z: Word)
    ensures Plus(Plus(x, y), z) == Plus(x, Plus(y, z))
  {
  }

  lemma Comm(x: Word, y: Word)
    ensures Plus(x, y) == Plus(y, x)
  {
  }

  lemma DistribRight(x: Word, y: Word, z: Word)
    ensures Times(Plus(x, y), z) == Plus(Times(x, z), Times(y, z))
  {
  }

  lemma DistribLeft(x: Word, y: Word, z: Word)
    ensures Times(z, Plus(x, y)) == Plus(Times(z, x), Times(z, y))
  {
  }

  lemma Zero(x: Word, y: Word)
    ensures Plus(x, 0) == x && Plus(0, x) == x && Times(0, y) == 0 && Times(x, 0) == 0
    ensures Plus(x, x) == 0
  {
  }

  lemma Swap(x: Word, d: Word, r: Word)
    ensures Plus(Plus(x, d), r) == Plus(Plus(x, r), d)
  {
    hide Plus;
    Assoc(x, d, r);
    Comm(d, r);
    Assoc(x, r, d);
  }

  lemma Cancel(d: Word, p: Word)
    ensures Plus(d, Plus(p, d)) == p && Plus(d, Plus(d, p)) == p
  {
    hide Plus;
    Comm(p, d);
    Assoc(d, d, p);
    Zero(d, 0);
    Zero(p, 0);
  }

  lemma Exchange(a: Word, b: Word, c: Word, d: Word)
    ensures Plus(Plus(a, b), Plus(c, d)) == Plus(Plus(a, c), Plus(b, d))
  {
    hide Plus;
    Assoc(Plus(a, b), c, d);
    Swap(a, b, c);
    Assoc(Plus(a, c), b, d);
  }

  /** (x + p)(y + q) + (xy + d) = (xq + py) + (pq + d) */
  lemma CrossAlgebra(x: Word, y: Word, p: Word, q: Word, d: Word)
    ensures Plus(Times(Plus(x, p), Plus(y, q)), Plus(Times(x, y), d))
         == Plus(Plus(Times(x, q), Times(p, y)), Plus(Times(p, q), d))
  {
    hide Plus, Times;
    var u, v, w, z := Times(x, y), Times(x, q), Times(p, y), Times(p, q);
    DistribRight(x, p, Plus(y, q));
    DistribLeft(y, q, x);
    DistribLeft(y, q, p);
    Assoc(u, v, Plus(w, z));
    var r := Plus(v, Plus(w, z));
    Exchange(u, r, u, d);
    Zero(u, 0);
    Zero(Plus(r, d), 0);
    Assoc(v, w, z);
    Assoc(Plus(v, w), z, d);
  }

  /** One inner iteration: the random word cancels and the pair's products remain. */
  lemma PairAlgebra(c: Word, s: Word, ai: Word, aj: Word, bi: Word, bj: Word, xa: Word, xb: Word, rest: Word)
    ensures var t := Plus(Plus(Times(ai, bj), s), Times(aj, bi));
      Plus(Plus(Plus(c, s), t), Plus(Plus(Times(ai, xb), Times(xa, bi)), rest))
      == Plus(c, Plus(Plus(Times(ai, Plus(bj, xb)), Times(Plus(aj, xa), bi)), rest))
  {
    hide Plus, Times;
    var p, q, a, b := Times(ai, bj), Times(aj, bi), Times(ai, xb), Times(xa, bi);
    Swap(p, s, q);
    Exchange(c, s, Plus(p, q), s);
    Zero(s, 0);
    Zero(Plus(c, Plus(p, q)), 0);
    Assoc(c, Plus(p, q), Plus(Plus(a, b), rest));
    Assoc(Plus(p, q), Plus(a, b), rest);
    Exchange(p, q, a, b);
    DistribLeft(bj, xb, ai);
    DistribRight(aj, xa, bi);
  }

  // ---------------------------------------------------------------- sums

  lemma {:induction false} SumSnoc(s: seq<Word>, w: Word)
    ensures Sum(s + [w]) == Plus(Sum(s), w)
    decreases |s|
  {
    hide Plus;
    if s == [] {
      assert (s + [w])[1..] == [];
      Zero(w, 0);
    } else {
      assert (s + [w])[1..] == s[1..] + [w];
      SumSnoc(s[1..], w);
      Assoc(s[0], Sum(s[1..]), w);
    }
  }

  lemma {:induction false} SumUpdate(s: seq<Word>, k: nat, d: Word)
    requires k < |s|
    ensures Sum(s[k := Plus(s[k], d)]) == Plus(Sum(s), d)
    decreases k
  {
    hide Plus;
    var w := Plus(s[k], d);
    var u, t := s[k := w], s[1..];
    if k == 0 {
      assert u[1..] == t;
      Swap(s[0], d, Sum(t));
    } else {
      assert u[1..] == t[k - 1 := w];
      SumUpdate(t, k - 1, d);
      Assoc(s[0], Sum(t), d);
    }
  }

  lemma {:induction false} DiagonalIsSum(a: seq<Word>, b: seq<Word>, c: seq<Word>)
    requires |a| == |b| == |c| && forall k :: 0 <= k < |a| ==> c[k] == Times(a[k], b[k])
    ensures Sum(c) == Diagonal(a, b)
    decreases |a|
  {
    hide Plus, Times;
    if a != [] {
      DiagonalIsSum(a[1..], b[1..], c[1..]);
    }
  }

  /** The cross products split into those of the first share and those of the rest. */
  lemma CrossSplit(a: seq<Word>, b: seq<Word>)
    requires |a| == |b| > 0
    ensures Cross(a, b) ==
            Plus(Plus(Times(a[0], Sum(b[1..])), Times(Sum(a[1..]), b[0])), Cross(a[1..], b[1..]))
  {
    hide Plus, Times;
    CrossAlgebra(a[0], b[0], Sum(a[1..]), Sum(b[1..]), Diagonal(a[1..], b[1..]));
  }

  lemma CrossSingle(x: Word, y: Word)
    ensures Cross([x], [y]) == 0
  {
    hide Plus, Times;
    assert [x][1..] == [] && [y][1..] == [] && Sum([]) == 0 && Diagonal([], []) == 0;
    Zero(x, 0);
    Zero(y, 0);
    Zero(Times(x, y), 0);
    assert Sum([x]) == x && Sum([y]) == y && Diagonal([x], [y]) == Times(x, y);
  }

  // ---------------------------------------------------------------- the loops

  /** What is still to be added: row i's products from column j on, and the later rows. */
  function Rest(a: seq<Word>, b: seq<Word>, i: nat, j: nat): Word
    requires |a| == |b| && i < j <= |a|
  {
    Plus(Plus(Times(a[i], Sum(b[j..])), Times(Sum(a[j..]), b[i])), Cross(a[i + 1..], b[i + 1..]))
  }

  /** The word that share j receives when share i receives `s`. */
  function Correction(a: seq<Word>, b: seq<Word>, i: nat, j: nat, s: Word): Word
    requires |a| == |b| && i < |a| && j < |a|
  {
    Plus(Plus(Times(a[i], b[j]), s), Times(a[j], b[i]))
  }

  /** One inner iteration moves the products of a pair of shares into the result. */
  lemma PairStep(c: seq<Word>, a: seq<Word>, b: seq<Word>, i: nat, j: nat, s: Word)
    requires |a| == |b| == |c| && i < j < |a|
    ensures Plus(Sum(c[i := Plus(c[i], s)][j := Plus(c[j], Correction(a, b, i, j, s))]), Rest(a, b, i, j + 1))
         == Plus(Sum(c), Rest(a, b, i, j))
  {
    hide Plus, Times;
    SumUpdate(c, i, s);
    SumUpdate(c[i := Plus(c[i], s)], j, Correction(a, b, i, j, s));
    assert b[j..][1..] == b[j + 1..] && a[j..][1..] == a[j + 1..];
    PairAlgebra(Sum(c), s, a[i], a[j], b[i], b[j], Sum(a[j + 1..]), Sum(b[j + 1..]), Cross(a[i + 1..], b[i + 1..]));
  }

  /** A row starts with the cross products from i on and ends with those from i + 1 on. */
  lemma RowEnds(a: seq<Word>, b: seq<Word>, i: nat)
    requires |a| == |b| && i < |a|
    ensures Rest(a, b, i, i + 1) == Cross(a[i..], b[i..])
    ensures Rest(a, b, i, |a|) == Cross(a[i + 1..], b[i + 1..])
  {
    hide Plus, Times;
    assert a[i..][1..] == a[i + 1..] && b[i..][1..] == b[i + 1..];
    CrossSplit(a[i..], b[i..]);
    assert a[|a|..] == [] && b[|a|..] == [];
    Zero(a[i], b[i]);
    Zero(Cross(a[i + 1..], b[i + 1..]), 0);
    Zero(0, 0);
  }

  /** mul_isw: `c` becomes shares of the product of `a` and `b`, for every share count
      above one and every choice of the random words. */
  method MulIsw(a: array<Word>, b: array<Word>, c: array<Word>)
    requires a.Length == b.Length == c.Length >= 2
    requires c != a && c != b
    modifies c
    ensures Sum(c[..]) == Times(Sum(a[..]), Sum(b[..]))
  {
    hide Plus, Times, Cross, Sum;
    var d := a.Length;
    ghost var sa, sb := a[..], b[..];
    ghost var goal := Times(Sum(sa), Sum(sb));
    var i := 0;
    while i < d
      invariant 0 <= i <= d
      invariant forall k :: 0 <= k < i ==> c[k] == Times(a[k], b[k])
    {
      c[i] := Times(a[i], b[i]);
      i := i + 1;
    }
    ProductsDone(sa, sb, c[..]);
    i := 0;
    while i < d - 1
      invariant 0 <= i <= d - 1
      invariant Plus(Sum(c[..]), Cross(sa[i..], sb[i..])) == goal
    {
      var j := i + 1;
      RowEnds(sa, sb, i);
      while j < d
        invariant i < j <= d
        invariant Plus(Sum(c[..]), Rest(sa, sb, i, j)) == goal
      {
        var s: Word := *;
        var t := Plus(Plus(Times(a[i], b[j]), s), Times(a[j], b[i]));
        ghost var was := c[..];
        PairStep(was, sa, sb, i, j, s);
        var ci, cj := Plus(c[i], s), Plus(c[j], t);
        c[i] := ci;
        c[j] := cj;
        assert c[..] == was[i := ci][j := cj];
        j := j + 1;
      }
      i := i + 1;
    }
    assert sa[i..] == [sa[i]] && sb[i..] == [sb[i]];
    CrossSingle(sa[i], sb[i]);
    Zero(Sum(c[..]), 0);
  }

  lemma ProductsDone(a: seq<Word>, b: seq<Word>, c: seq<Word>)
    requires |a| == |b| == |c| && forall k :: 0 <= k < |a| ==> c[k] == Times(a[k], b[k])
    ensures Plus(Sum(c), Cross(a[0..], b[0..])) == Times(Sum(a), Sum(b))
  {
    hide Plus, Times;
    DiagonalIsSum(a, b, c);
    assert a[0..] == a && b[0..] == b;
    Cancel(Diagonal(a, b), Times(Sum(a), Sum(b)));
  }

  // ---------------------------------------------------------------- sharing

  /** The share-splitting loop: all shares but the last are random, the last makes the sum. */
  method Split(secret: Word, shares: array<Word>)
    requires shares.Length >= 1
    modifies shares
    ensures Sum(shares[..]) == secret
  {
    hide Plus, Sum;
    var last := shares.Length - 1;
    shares[last] := 0;
    var i := 0;
    SumEmpty();
    assert shares[..0] == [];
    while i < last
      invariant 0 <= i <= last
      invariant shares[last] == Sum(shares[..i])
    {
      var r: Word := *;
      SumSnoc(shares[..i], r);
      ghost var was := shares[..i];
      shares[i] := r;
      shares[last] := Plus(shares[last], r);
      i := i + 1;
      assert shares[..i] == was + [r];
    }
    shares[last] := Plus(shares[last], secret);
    ghost var front := shares[..last];
    assert shares[..] == front + [shares[last]];
    SumSnoc(front, shares[last]);
    Cancel(Sum(front), secret);
  }

  lemma SumEmpty()
    ensures Sum([]) == 0
  {
  }

  /** test_main: share both inputs, multiply, and recombine. */
  method TestMain(a: Word, b: Word, nshares: nat) returns (actual: Word)
    requires nshares >= 2
    ensures actual == Times(a, b)
  {
    hide Plus, Times, Sum;
    var sharesA, sharesB, sharesC := new Word[nshares], new Word[nshares], new Word[nshares];
    Split(a, sharesA);
    ghost var sa := sharesA[..];
    Split(b, sharesB);
    ghost var sb := sharesB[..];
    assert sharesA[..] == sa;
    MulIsw(sharesA, sharesB, sharesC);
    assert sharesA[..] == sa && sharesB[..] == sb;
    ghost var sc := sharesC[..];
    actual := 0;
    var i := 0;
    SumEmpty();
    assert sc[..0] == [];
    while i < nshares
      invariant 0 <= i <= nshares
      invariant sharesC[..] == sc && actual == Sum(sc[..i])
    {
      SumSnoc(sc[..i], sc[i]);
      assert sc[..i + 1] == sc[..i] + [sc[i]];
      actual := Plus(actual, sharesC[i]);
      i := i + 1;
    }
    assert sc[..nshares] == sc;
  }
}
