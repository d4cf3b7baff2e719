/** Finite sums over `real`, the arithmetic that numpy's `dot`, `sum`
    and `+=` accumulations perform.  Everything here is exact: the model
    does not represent floating-point rounding. */
module Sums {

  /** Sum of f(0) + ... + f(n-1). */
  function Sum(n: nat, f: int -> real): real
  {
    if n == 0 then 0.0 else Sum(n - 1, f) + f(n - 1)
  }

  /** Sums of two functions that agree below n are equal. */
  lemma {:induction false} SumExt(n: nat, f: int -> real, g: int -> real)
    requires forall k :: 0 <= k < n ==> f(k) == g(k)
    ensures Sum(n, f) == Sum(n, g)
  {
    if n > 0 { SumExt(n - 1, f, g); }
  }

  /** A sum of terms that are all zero is zero. */
  lemma {:induction false} SumOfZeros(n: nat, f: int -> real)
    requires forall k :: 0 <= k < n ==> f(k) == 0.0
    ensures Sum(n, f) == 0.0
  {
    if n > 0 { SumOfZeros(n - 1, f); }
  }

  /** Sums are additive: the sum of f - g is the difference of the sums. */
  lemma {:induction false} SumSub(n: nat, f: int -> real, g: int -> real, h: int -> real)
    requires forall k :: 0 <= k < n ==> h(k) == f(k) - g(k)
    ensures Sum(n, h) == Sum(n, f) - Sum(n, g)
  {
    if n > 0 { SumSub(n - 1, f, g, h); }
  }

  /** Sums are additive: the sum of f + g is the sum of the sums. */
  lemma {:induction false} SumAdd(n: nat, f: int -> real, g: int -> real, h: int -> real)
    requires forall k :: 0 <= k < n ==> h(k) == f(k) + g(k)
    ensures Sum(n, h) == Sum(n, f) + Sum(n, g)
  {
    if n > 0 { SumAdd(n - 1, f, g, h); }
  }

  /** Sums are homogeneous: a constant factor comes out of the sum. */
  lemma {:induction false} SumScale(n: nat, c: real, f: int -> real, g: int -> real)
    requires forall k :: 0 <= k < n ==> g(k) == c * f(k)
    ensures Sum(n, g) == c * Sum(n, f)
  {
    if n > 0 { SumScale(n - 1, c, f, g); }
  }

  /** If only the term at p can be non-zero, the sum is that term. */
  lemma {:induction false} SumSingle(n: nat, p: nat, f: int -> real)
    requires p < n
    requires forall k :: 0 <= k < n && k != p ==> f(k) == 0.0
    ensures Sum(n, f) == f(p)
  {
    if n - 1 == p {
      SumOfZeros(n - 1, f);
    } else {
      SumSingle(n - 1, p, f);
    }
  }

  /** k |-> f(k) - g(k). */
  function Minus(f: int -> real, g: int -> real): int -> real
  {
    k => f(k) - g(k)
  }

  /** k |-> c * f(k). */
  function Scaled(c: real, f: int -> real): int -> real
  {
    k => c * f(k)
  }

  lemma SumMinus(n: nat, f: int -> real, g: int -> real)
    ensures Sum(n, Minus(f, g)) == Sum(n, f) - Sum(n, g)
  {
    SumSub(n, f, g, Minus(f, g));
  }

  lemma SumScaled(n: nat, c: real, f: int -> real)
    ensures Sum(n, Scaled(c, f)) == c * Sum(n, f)
  {
    SumScale(n, c, f, Scaled(c, f));
  }

  /** Below n, f is g less c times r, term by term. */
  predicate LessScaled(n: nat, f: int -> real, g: int -> real, c: real, r: int -> real)
  {
    forall k :: 0 <= k < n ==> f(k) == g(k) - c * r(k)
  }

  lemma SumLessScaled(n: nat, f: int -> real, g: int -> real, c: real, r: int -> real)
    requires LessScaled(n, f, g, c, r)
    ensures Sum(n, f) == Sum(n, g) - c * Sum(n, r)
  {
    SumExt(n, f, Minus(g, Scaled(c, r)));
    SumMinus(n, g, Scaled(c, r));
    SumScaled(n, c, r);
  }

  /** Row i of a double-indexed family: j |-> f(i, j). */
  function Row(f: (int, int) -> real, i: int): int -> real
  {
    j => f(i, j)
  }

  /** Column j of a double-indexed family: i |-> f(i, j). */
  function Column(f: (int, int) -> real, j: int): int -> real
  {
    i => f(i, j)
  }

  /** i |-> f(i, 0) + ... + f(i, n-1): the sums along the second index. */
  function InnerSums(n: nat, f: (int, int) -> real): int -> real
  {
    i => Sum(n, Row(f, i))
  }

  /** j |-> f(0, j) + ... + f(m-1, j): the sums along the first index. */
  function OuterSums(m: nat, f: (int, int) -> real): int -> real
  {
    j => Sum(m, Column(f, j))
  }

  /** The order of a finite double sum does not matter. */
  lemma {:induction false} SumSwap(m: nat, n: nat, f: (int, int) -> real)
    ensures Sum(m, InnerSums(n, f)) == Sum(n, OuterSums(m, f))
  {
    if m > 0 {
      SumSwap(m - 1, n, f);
      forall j | 0 <= j < n ensures OuterSums(m, f)(j) == OuterSums(m - 1, f)(j) + Row(f, m - 1)(j) { }
      SumAdd(n, OuterSums(m - 1, f), Row(f, m - 1), OuterSums(m, f));
    } else {
      SumOfZeros(n, OuterSums(m, f));
    }
  }

  /** k |-> 1 at the indices k with k % 3 == d, and 0 elsewhere. */
  function ResidueOnes(d: nat): int -> real
  {
    k => if k % 3 == d then 1.0 else 0.0
  }

  /** Among 0 .. 3*na-1 exactly na indices have remainder d modulo 3. */
  lemma {:induction false} ResidueTally(na: nat, d: nat)
    requires d < 3
    ensures Sum(3 * na, ResidueOnes(d)) == na as real
  {
    if na > 0 {
      var f, m := ResidueOnes(d), 3 * (na - 1);
      ResidueTally(na - 1, d);
      SumThree(m, f);
      Residues(na - 1);
    }
  }

  /** Adding c at each of the na indices with remainder d gives na * c. */
  lemma ResidueCount(na: nat, d: nat, c: real)
    requires d < 3
    ensures Sum(3 * na, ResidueTerms(d, c)) == na as real * c
  {
    forall k | 0 <= k < 3 * na ensures ResidueTerms(d, c)(k) == Scaled(c, ResidueOnes(d))(k) {
      ResidueTermScaled(d, c, k);
    }
    SumExt(3 * na, ResidueTerms(d, c), Scaled(c, ResidueOnes(d)));
    SumScaled(3 * na, c, ResidueOnes(d));
    ResidueTally(na, d);
  }

  /** k |-> c at the indices k with k % 3 == d, and 0 elsewhere. */
  function ResidueTerms(d: nat, c: real): int -> real
  {
    k => if k % 3 == d then c else 0.0
  }

  lemma ResidueTermScaled(d: nat, c: real, k: int)
    ensures ResidueTerms(d, c)(k) == Scaled(c, ResidueOnes(d))(k)
  {
  }

  lemma Residues(q: nat)
    ensures (3 * q) % 3 == 0 && (3 * q + 1) % 3 == 1 && (3 * q + 2) % 3 == 2
  {
  }

  /** Three more terms of a sum. */
  lemma SumThree(m: nat, f: int -> real)
    ensures Sum(m + 3, f) == Sum(m, f) + f(m) + f(m + 1) + f(m + 2)
  {
    assert Sum(m + 3, f) == Sum(m + 2, f) + f(m + 2);
    assert Sum(m + 2, f) == Sum(m + 1, f) + f(m + 1);
  }
}
