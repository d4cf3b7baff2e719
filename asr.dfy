/** The exact acoustic-sum-rule projector `CustomASR`
    (symmetries.py:884-919).

    For a force-constant matrix of side 3*nat, u_d is the uniform
    translation of every atom along Cartesian direction d (1 at every
    index k with k % 3 == d).  The projector is
        P = I - sum_{d < 3} u_d u_d^T / (u_d . u_d)
    and CustomASR overwrites F with P.(F.P).  Since u_d . u_d = nat, the
    entries of P are [i == j] - [i == j mod 3] / nat, so the whole
    construction is exact over the reals: no square root is needed once
    `v1 /= sqrt(v1.v1)` followed by `outer(v1, v1)` is read as
    `outer(u, u) / (u . u)`.

    Matrices are real here.  P is real, so applied to a complex matrix
    it acts on the real and the imaginary part separately, each as
    below.
 */
module AcousticSumRule {
  import opened Sums
  import opened Matrices
  import opened Wrappers

  /** u_d: every atom displaced by one unit along Cartesian axis d. */
  function Translation(nat_: nat, d: nat): (u: Vec)
    ensures |u| == 3 * nat_
  {
    seq(3 * nat_, k => if k % 3 == d then 1.0 else 0.0)
  }

  /** 1 / nat, and 0 for an empty matrix (where no entry uses it). */
  function InvNat(nat_: nat): real
  {
    if nat_ == 0 then 0.0 else 1.0 / nat_ as real
  }

  /** [i == j] - c [i == j mod 3]: the shape of the projector, with the
      coefficient c left free so that proofs about it stay linear. */
  function ProjectorWith(nat_: nat, c: real): (p: Mat)
    ensures IsMatrix(p, 3 * nat_, 3 * nat_)
  {
    seq(3 * nat_, i => seq(3 * nat_, j => Kronecker(i, j) - (if i % 3 == j % 3 then c else 0.0)))
  }

  /** P[i][j] = [i == j] - [i == j mod 3] / nat. */
  function Projector(nat_: nat): (p: Mat)
    ensures IsMatrix(p, 3 * nat_, 3 * nat_)
  {
    ProjectorWith(nat_, InvNat(nat_))
  }

  /** `trans` after the loop of symmetries.py:910-915 has run for the
      directions 0 .. d-1. */
  function PartialProjector(nat_: nat, d: nat): (p: Mat)
    ensures IsMatrix(p, 3 * nat_, 3 * nat_)
  {
    seq(3 * nat_, i => seq(3 * nat_, j => Kronecker(i, j) - (if i % 3 == j % 3 && i % 3 < d then InvNat(nat_) else 0.0)))
  }

  /** `outer(v1, v1)` after `v1 /= sqrt(v1.dot(v1))`, written without the
      square root.  (A zero vector only occurs for an empty matrix.) */
  function NormalisedOuter(v: Vec): (m: Mat)
    ensures IsMatrix(m, |v|, |v|)
  {
    var s := Dot(v, v);
    seq(|v|, i => seq(|v|, j => if s == 0.0 then 0.0 else VAt(v, i) * VAt(v, j) / s))
  }

  /** The result of CustomASR: trans.dot(fc.dot(trans)). */
  function Sandwich(f: Mat, nat_: nat): (g: Mat)
    ensures IsMatrix(g, 3 * nat_, 3 * nat_)
  {
    var p := Projector(nat_);
    MatMul(p, MatMul(f, p, 3 * nat_), 3 * nat_)
  }

  /** CustomASR(fc_matrix), symmetries.py:884-919.  Fails, leaving the
      matrix untouched, when it is not square, when its side is not a
      multiple of 3, or when it is empty (`fc_matrix[0,0]` at
      symmetries.py:907 raises IndexError); otherwise overwrites it with
      P.(F.P). */
  method CustomASR(fc: array2<real>) returns (r: Outcome)
    modifies fc
    ensures fc.Length0 != fc.Length1 ==> r == Fail(NotSquare)
    ensures fc.Length0 == fc.Length1 && fc.Length0 % 3 != 0 ==> r == Fail(NotMultipleOfThree)
    ensures fc.Length0 == fc.Length1 == 0 ==> r == Fail(IndexError)
    ensures r.Pass? <==> fc.Length0 == fc.Length1 && fc.Length0 % 3 == 0 && fc.Length0 > 0
    ensures r.Fail? ==> Contents(fc) == old(Contents(fc))
    ensures r.Pass? ==> Contents(fc) == Sandwich(old(Contents(fc)), fc.Length0 / 3)
  {
    if fc.Length0 != fc.Length1 {
      return Fail(NotSquare);
    }
    var nat_ := fc.Length0 / 3;
    if nat_ * 3 != fc.Length0 {
      return Fail(NotMultipleOfThree);
    }
    if fc.Length0 == 0 {
      return Fail(IndexError);
    }
    var n, f := 3 * nat_, Contents(fc);
    var trans := Identity(n);
    StartProjector(nat_);
    for i := 0 to 3
      invariant trans == PartialProjector(nat_, i)
    {
      var v1 := Translation(nat_, i);
      trans := MatSub(trans, NormalisedOuter(v1), n, n);
      StepProjector(nat_, i);
    }
    FinishProjector(nat_);
    var g := MatMul(trans, MatMul(f, trans, n), n);
    forall i, j | 0 <= i < n && 0 <= j < n {
      fc[i, j] := g[i][j];
    }
    assert Contents(fc) == g by {
      assert forall i :: 0 <= i < n ==> Contents(fc)[i] == g[i];
    }
    r := Pass;
  }

  /** `trans = eye(3*nat)` is the projector before any direction is removed. */
  lemma StartProjector(nat_: nat)
    ensures Identity(3 * nat_) == PartialProjector(nat_, 0)
  {
    var a, b := Identity(3 * nat_), PartialProjector(nat_, 0);
    forall i | 0 <= i < 3 * nat_ ensures a[i] == b[i] {
      assert forall j :: 0 <= j < 3 * nat_ ==> a[i][j] == b[i][j];
    }
  }

  /** One pass of the loop removes direction d. */
  lemma StepProjector(nat_: nat, d: nat)
    requires d < 3
    ensures MatSub(PartialProjector(nat_, d), NormalisedOuter(Translation(nat_, d)), 3 * nat_, 3 * nat_)
         == PartialProjector(nat_, d + 1)
  {
    var n := 3 * nat_;
    var a := MatSub(PartialProjector(nat_, d), NormalisedOuter(Translation(nat_, d)), n, n);
    var b := PartialProjector(nat_, d + 1);
    OuterOfTranslation(nat_, d);
    forall i | 0 <= i < n ensures a[i] == b[i] {
      forall j | 0 <= j < n ensures a[i][j] == b[i][j] {
        assert NormalisedOuter(Translation(nat_, d))[i][j]
            == if i % 3 == d && j % 3 == d then InvNat(nat_) else 0.0;
      }
    }
  }

  /** After the three directions, trans is the projector P. */
  lemma FinishProjector(nat_: nat)
    ensures PartialProjector(nat_, 3) == Projector(nat_)
  {
    var a, b := PartialProjector(nat_, 3), Projector(nat_);
    forall i | 0 <= i < 3 * nat_ ensures a[i] == b[i] {
      assert forall j :: 0 <= j < 3 * nat_ ==> a[i][j] == b[i][j];
    }
  }

  // ---------------------------------------------------------------------
  // Properties of the projection

  /** (M.u_d)[i]: the sum of row i of m over the columns k with k % 3 == d. */
  function RowClass(m: Mat, n: nat, i: int, d: nat): real
  {
    Sum(n, RowTerms(m, i, d))
  }

  function RowTerms(m: Mat, i: int, d: nat): int -> real
  {
    k => if k % 3 == d then At(m, i, k) else 0.0
  }

  /** (u_d^T.M)[j]: the sum of column j of m over the rows k with k % 3 == d. */
  function ColClass(m: Mat, n: nat, j: int, d: nat): real
  {
    Sum(n, ColTerms(m, j, d))
  }

  function ColTerms(m: Mat, j: int, d: nat): int -> real
  {
    k => if k % 3 == d then At(m, k, j) else 0.0
  }

  /** M.v for an n x n matrix. */
  function MatVec(m: Mat, v: Vec, n: nat): (w: Vec)
    ensures |w| == n
  {
    seq(n, i => Sum(n, k => At(m, i, k) * VAt(v, k)))
  }

  /** v^T.M for an n x n matrix. */
  function VecMat(v: Vec, m: Mat, n: nat): (w: Vec)
    ensures |w| == n
  {
    seq(n, j => Sum(n, k => VAt(v, k) * At(m, k, j)))
  }

  /** A matrix satisfies the acoustic sum rule when every uniform
      translation is in its right and left null space. */
  predicate AcousticSumRuleHolds(m: Mat, nat_: nat)
  {
    forall d :: 0 <= d < 3 ==>
      MatVec(m, Translation(nat_, d), 3 * nat_) == seq(3 * nat_, _ => 0.0) &&
      VecMat(Translation(nat_, d), m, 3 * nat_) == seq(3 * nat_, _ => 0.0)
  }

  /** u_d . u_d = nat: exactly nat entries of u_d are 1. */
  lemma {:induction false} TranslationNorm(nat_: nat, d: nat)
    requires d < 3
    ensures Dot(Translation(nat_, d), Translation(nat_, d)) == nat_ as real
  {
    var u := Translation(nat_, d);
    var ones := k => if k % 3 == d then 1.0 else 0.0;
    forall k | 0 <= k < 3 * nat_ ensures VAt(u, k) * VAt(u, k) == ones(k) {
      assert VAt(u, k) == ones(k);
    }
    SumExt(3 * nat_, k => VAt(u, k) * VAt(u, k), ones);
    ResidueCount(nat_, d, 1.0);
  }

  /** The term subtracted at step d of the loop is [i == j == d mod 3] / nat. */
  lemma OuterOfTranslation(nat_: nat, d: nat)
    requires d < 3
    ensures forall i, j :: 0 <= i < 3 * nat_ && 0 <= j < 3 * nat_ ==>
      NormalisedOuter(Translation(nat_, d))[i][j] == if i % 3 == d && j % 3 == d then InvNat(nat_) else 0.0
  {
    TranslationNorm(nat_, d);
  }

  lemma InvNatInverse(nat_: nat)
    requires nat_ > 0
    ensures nat_ as real * InvNat(nat_) == 1.0
  {
  }

  /** M.u_d, entry i, is the row-class sum. */
  lemma MatVecTranslation(m: Mat, nat_: nat, d: nat, i: nat)
    requires d < 3 && i < 3 * nat_
    ensures MatVec(m, Translation(nat_, d), 3 * nat_)[i] == RowClass(m, 3 * nat_, i, d)
  {
    var u := Translation(nat_, d);
    SumExt(3 * nat_, k => At(m, i, k) * VAt(u, k), RowTerms(m, i, d));
  }

  /** u_d^T.M, entry j, is the column-class sum. */
  lemma VecMatTranslation(m: Mat, nat_: nat, d: nat, j: nat)
    requires d < 3 && j < 3 * nat_
    ensures VecMat(Translation(nat_, d), m, 3 * nat_)[j] == ColClass(m, 3 * nat_, j, d)
  {
    var u := Translation(nat_, d);
    SumExt(3 * nat_, k => VAt(u, k) * At(m, k, j), ColTerms(m, j, d));
  }

  /** The terms of row i of H against the identity column j. */
  function DiagRight(h: Mat, i: int, j: int): int -> real
  {
    k => At(h, i, k) * Kronecker(k, j)
  }

  /** The terms of the identity row i against column j of H. */
  function DiagLeft(h: Mat, i: int, j: int): int -> real
  {
    k => Kronecker(i, k) * At(h, k, j)
  }

  lemma SumDiagRight(h: Mat, n: nat, i: int, j: nat)
    requires j < n
    ensures Sum(n, DiagRight(h, i, j)) == At(h, i, j)
  {
    SumSingle(n, j, DiagRight(h, i, j));
  }

  lemma SumDiagLeft(h: Mat, n: nat, i: nat, j: int)
    requires i < n
    ensures Sum(n, DiagLeft(h, i, j)) == At(h, i, j)
  {
    SumSingle(n, i, DiagLeft(h, i, j));
  }

  /** One term of (H.P)[i][j]. */
  lemma TimesProjectorTerm(h: Mat, nat_: nat, c: real, i: nat, j: nat, k: nat)
    requires j < 3 * nat_ && k < 3 * nat_
    ensures ProductTerms(h, ProjectorWith(nat_, c), i, j)(k)
         == Minus(DiagRight(h, i, j), Scaled(c, RowTerms(h, i, j % 3)))(k)
  {
    var x := At(h, i, k);
    if k % 3 == j % 3 {
      assert At(ProjectorWith(nat_, c), k, j) == Kronecker(k, j) - c;
      assert RowTerms(h, i, j % 3)(k) == x;
      if k == j {
        assert x * (1.0 - c) == x * 1.0 - c * x;
      } else {
        assert x * (0.0 - c) == x * 0.0 - c * x;
      }
    } else {
      assert At(ProjectorWith(nat_, c), k, j) == Kronecker(k, j);
      assert RowTerms(h, i, j % 3)(k) == 0.0;
    }
  }

  /** One term of (P.H)[i][j]. */
  lemma ProjectorTimesTerm(h: Mat, nat_: nat, c: real, i: nat, j: nat, k: nat)
    requires i < 3 * nat_ && k < 3 * nat_
    ensures ProductTerms(ProjectorWith(nat_, c), h, i, j)(k)
         == Minus(DiagLeft(h, i, j), Scaled(c, ColTerms(h, j, i % 3)))(k)
  {
    var x := At(h, k, j);
    if k % 3 == i % 3 {
      assert At(ProjectorWith(nat_, c), i, k) == Kronecker(i, k) - c;
      assert ColTerms(h, j, i % 3)(k) == x;
      if k == i {
        assert (1.0 - c) * x == 1.0 * x - c * x;
      } else {
        assert (0.0 - c) * x == 0.0 * x - c * x;
      }
    } else {
      assert At(ProjectorWith(nat_, c), i, k) == Kronecker(i, k);
      assert ColTerms(h, j, i % 3)(k) == 0.0;
    }
  }

  /** (H.P)[i][j] = H[i][j] - c (H.u_{j mod 3})[i]. */
  lemma {:induction false} TimesProjector(h: Mat, nat_: nat, c: real, i: nat, j: nat)
    requires i < 3 * nat_ && j < 3 * nat_
    ensures MatMul(h, ProjectorWith(nat_, c), 3 * nat_)[i][j]
         == At(h, i, j) - c * RowClass(h, 3 * nat_, i, j % 3)
  {
    TimesProjectorTerms(h, nat_, c, i, j);
    TimesLessClass(h, ProjectorWith(nat_, c), nat_, c, i, j);
    MatMulEntry(h, ProjectorWith(nat_, c), 3 * nat_, i, j);
  }

  /** The sum behind (H.K)[i][j], when its terms are those of H[i][j]
      less c times row class j mod 3 of H. */
  lemma TimesLessClass(h: Mat, k: Mat, nat_: nat, c: real, i: nat, j: nat)
    requires i < 3 * nat_ && j < 3 * nat_
    requires LessScaled(3 * nat_, ProductTerms(h, k, i, j), DiagRight(h, i, j), c, RowTerms(h, i, j % 3))
    ensures Sum(3 * nat_, ProductTerms(h, k, i, j)) == At(h, i, j) - c * RowClass(h, 3 * nat_, i, j % 3)
  {
    SumDiagRight(h, 3 * nat_, i, j);
    ProductLessScaled(h, k, 3 * nat_, i, j, DiagRight(h, i, j), c, RowTerms(h, i, j % 3), At(h, i, j), RowClass(h, 3 * nat_, i, j % 3));
  }

  lemma TimesProjectorTerms(h: Mat, nat_: nat, c: real, i: nat, j: nat)
    requires j < 3 * nat_
    ensures LessScaled(3 * nat_, ProductTerms(h, ProjectorWith(nat_, c), i, j), DiagRight(h, i, j), c, RowTerms(h, i, j % 3))
  {
    forall k | 0 <= k < 3 * nat_
      ensures ProductTerms(h, ProjectorWith(nat_, c), i, j)(k) == DiagRight(h, i, j)(k) - c * RowTerms(h, i, j % 3)(k)
    {
      TimesProjectorTerm(h, nat_, c, i, j, k);
    }
  }

  /** (P.H)[i][j] = H[i][j] - c (u_{i mod 3}^T.H)[j]. */
  lemma {:induction false} ProjectorTimes(h: Mat, nat_: nat, c: real, i: nat, j: nat)
    requires i < 3 * nat_ && j < 3 * nat_
    ensures MatMul(ProjectorWith(nat_, c), h, 3 * nat_)[i][j]
         == At(h, i, j) - c * ColClass(h, 3 * nat_, j, i % 3)
  {
    ProjectorTimesTerms(h, nat_, c, i, j);
    LessClassTimes(ProjectorWith(nat_, c), h, nat_, c, i, j);
    MatMulEntry(ProjectorWith(nat_, c), h, 3 * nat_, i, j);
  }

  /** The sum behind (K.H)[i][j], when its terms are those of H[i][j]
      less c times column class i mod 3 of H. */
  lemma LessClassTimes(k: Mat, h: Mat, nat_: nat, c: real, i: nat, j: nat)
    requires i < 3 * nat_ && j < 3 * nat_
    requires LessScaled(3 * nat_, ProductTerms(k, h, i, j), DiagLeft(h, i, j), c, ColTerms(h, j, i % 3))
    ensures Sum(3 * nat_, ProductTerms(k, h, i, j)) == At(h, i, j) - c * ColClass(h, 3 * nat_, j, i % 3)
  {
    SumDiagLeft(h, 3 * nat_, i, j);
    ProductLessScaled(k, h, 3 * nat_, i, j, DiagLeft(h, i, j), c, ColTerms(h, j, i % 3), At(h, i, j), ColClass(h, 3 * nat_, j, i % 3));
  }

  lemma ProjectorTimesTerms(h: Mat, nat_: nat, c: real, i: nat, j: nat)
    requires i < 3 * nat_
    ensures LessScaled(3 * nat_, ProductTerms(ProjectorWith(nat_, c), h, i, j), DiagLeft(h, i, j), c, ColTerms(h, j, i % 3))
  {
    forall k | 0 <= k < 3 * nat_
      ensures ProductTerms(ProjectorWith(nat_, c), h, i, j)(k) == DiagLeft(h, i, j)(k) - c * ColTerms(h, j, i % 3)(k)
    {
      ProjectorTimesTerm(h, nat_, c, i, j, k);
    }
  }

  /** Spreading s / nat over the nat indices of one class adds up to s. */
  lemma ResidueAverage(nat_: nat, d: nat, c: real, s: real)
    requires d < 3 && nat_ as real * c == 1.0
    ensures Sum(3 * nat_, ResidueTerms(d, c * s)) == s
  {
    ResidueCount(nat_, d, c * s);
    assert nat_ as real * (c * s) == (nat_ as real * c) * s;
  }

  /** One term of a row class of H.P. */
  lemma RowTermAfterProjection(h: Mat, nat_: nat, c: real, i: nat, d: nat, k: nat)
    requires i < 3 * nat_ && d < 3 && k < 3 * nat_
    ensures RowTerms(MatMul(h, ProjectorWith(nat_, c), 3 * nat_), i, d)(k)
         == Minus(RowTerms(h, i, d), ResidueTerms(d, c * RowClass(h, 3 * nat_, i, d)))(k)
  {
    if k % 3 == d {
      TimesProjector(h, nat_, c, i, k);
    }
  }

  /** One term of a column class of P.H. */
  lemma ColTermAfterProjection(h: Mat, nat_: nat, c: real, j: nat, d: nat, k: nat)
    requires j < 3 * nat_ && d < 3 && k < 3 * nat_
    ensures ColTerms(MatMul(ProjectorWith(nat_, c), h, 3 * nat_), j, d)(k)
         == Minus(ColTerms(h, j, d), ResidueTerms(d, c * ColClass(h, 3 * nat_, j, d)))(k)
  {
    var ph := MatMul(ProjectorWith(nat_, c), h, 3 * nat_);
    var s := ColClass(h, 3 * nat_, j, d);
    if k % 3 == d {
      ProjectorTimes(h, nat_, c, k, j);
      assert ColTerms(ph, j, d)(k) == At(ph, k, j) == At(h, k, j) - c * s;
      assert Minus(ColTerms(h, j, d), ResidueTerms(d, c * s))(k) == At(h, k, j) - c * s;
    } else {
      assert ColTerms(ph, j, d)(k) == 0.0;
      assert Minus(ColTerms(h, j, d), ResidueTerms(d, c * s))(k) == 0.0 - 0.0;
    }
  }

  /** Every row class of H.P sums to zero: (H.P).u_d = 0. */
  lemma RowClassesVanishAfterProjection(h: Mat, nat_: nat, c: real, i: nat, d: nat)
    requires i < 3 * nat_ && d < 3 && nat_ as real * c == 1.0
    ensures RowClass(MatMul(h, ProjectorWith(nat_, c), 3 * nat_), 3 * nat_, i, d) == 0.0
  {
    RowTermsAfterProjection(h, nat_, c, i, d);
    RowClassCancels(MatMul(h, ProjectorWith(nat_, c), 3 * nat_), h, nat_, c, i, d, RowClass(h, 3 * nat_, i, d));
  }

  /** Term by term, row class d of K is that of H less r on the indices
      of class d. */
  predicate RowTermsLess(k: Mat, h: Mat, n: nat, i: nat, d: nat, r: real)
  {
    forall l :: 0 <= l < n ==> RowTerms(k, i, d)(l) == Minus(RowTerms(h, i, d), ResidueTerms(d, r))(l)
  }

  lemma RowTermsAfterProjection(h: Mat, nat_: nat, c: real, i: nat, d: nat)
    requires i < 3 * nat_ && d < 3
    ensures RowTermsLess(MatMul(h, ProjectorWith(nat_, c), 3 * nat_), h, 3 * nat_, i, d, c * RowClass(h, 3 * nat_, i, d))
  {
    forall l | 0 <= l < 3 * nat_
      ensures RowTerms(MatMul(h, ProjectorWith(nat_, c), 3 * nat_), i, d)(l)
        == Minus(RowTerms(h, i, d), ResidueTerms(d, c * RowClass(h, 3 * nat_, i, d)))(l)
    {
      RowTermAfterProjection(h, nat_, c, i, d, l);
    }
  }

  /** When the s / nat taken off each term add up to H's class s, K's
      class is zero. */
  lemma RowClassCancels(k: Mat, h: Mat, nat_: nat, c: real, i: nat, d: nat, s: real)
    requires d < 3 && nat_ as real * c == 1.0 && s == RowClass(h, 3 * nat_, i, d)
    requires RowTermsLess(k, h, 3 * nat_, i, d, c * s)
    ensures RowClass(k, 3 * nat_, i, d) == 0.0
  {
    ResidueAverage(nat_, d, c, s);
    SumExt(3 * nat_, RowTerms(k, i, d), Minus(RowTerms(h, i, d), ResidueTerms(d, c * s)));
    SumMinus(3 * nat_, RowTerms(h, i, d), ResidueTerms(d, c * s));
  }

  /** Term by term, column class d of K is that of H less r on the
      indices of class d. */
  predicate ColTermsLess(k: Mat, h: Mat, n: nat, j: nat, d: nat, r: real)
  {
    forall l :: 0 <= l < n ==> ColTerms(k, j, d)(l) == Minus(ColTerms(h, j, d), ResidueTerms(d, r))(l)
  }

  lemma ColTermsAfterProjection(h: Mat, nat_: nat, c: real, j: nat, d: nat)
    requires j < 3 * nat_ && d < 3
    ensures ColTermsLess(MatMul(ProjectorWith(nat_, c), h, 3 * nat_), h, 3 * nat_, j, d, c * ColClass(h, 3 * nat_, j, d))
  {
    forall l | 0 <= l < 3 * nat_
      ensures ColTerms(MatMul(ProjectorWith(nat_, c), h, 3 * nat_), j, d)(l)
        == Minus(ColTerms(h, j, d), ResidueTerms(d, c * ColClass(h, 3 * nat_, j, d)))(l)
    {
      ColTermAfterProjection(h, nat_, c, j, d, l);
    }
  }

  /** Every column class of P.H sums to zero: u_d^T.(P.H) = 0. */
  lemma ColClassesVanishAfterProjection(h: Mat, nat_: nat, c: real, j: nat, d: nat)
    requires j < 3 * nat_ && d < 3 && nat_ as real * c == 1.0
    ensures ColClass(MatMul(ProjectorWith(nat_, c), h, 3 * nat_), 3 * nat_, j, d) == 0.0
  {
    ColTermsAfterProjection(h, nat_, c, j, d);
    ColClassCancels(MatMul(ProjectorWith(nat_, c), h, 3 * nat_), h, nat_, c, j, d, ColClass(h, 3 * nat_, j, d));
  }

  /** When the s / nat taken off each term add up to H's class s, K's
      class is zero. */
  lemma ColClassCancels(k: Mat, h: Mat, nat_: nat, c: real, j: nat, d: nat, s: real)
    requires d < 3 && nat_ as real * c == 1.0 && s == ColClass(h, 3 * nat_, j, d)
    requires ColTermsLess(k, h, 3 * nat_, j, d, c * s)
    ensures ColClass(k, 3 * nat_, j, d) == 0.0
  {
    ResidueAverage(nat_, d, c, s);
    SumExt(3 * nat_, ColTerms(k, j, d), Minus(ColTerms(h, j, d), ResidueTerms(d, c * s)));
    SumMinus(3 * nat_, ColTerms(h, j, d), ResidueTerms(d, c * s));
  }

  /** m |-> [m == d mod 3] (u_e^T.K)[m]. */
  function CrossTerms(k: Mat, n: nat, d: nat, e: nat): int -> real
  {
    m => if m % 3 == d then ColClass(k, n, m, e) else 0.0
  }

  /** (m, l) |-> K[l][m] when m == d and l == e mod 3, else 0. */
  function CrossGrid(k: Mat, d: nat, e: nat): (int, int) -> real
  {
    (m, l) => if m % 3 == d && l % 3 == e then At(k, l, m) else 0.0
  }

  lemma CrossGridRow(k: Mat, n: nat, d: nat, e: nat, m: int)
    ensures InnerSums(n, CrossGrid(k, d, e))(m) == CrossTerms(k, n, d, e)(m)
  {
    if m % 3 == d {
      SumExt(n, Row(CrossGrid(k, d, e), m), ColTerms(k, m, e));
    } else {
      SumOfZeros(n, Row(CrossGrid(k, d, e), m));
    }
  }

  lemma CrossGridColumn(k: Mat, n: nat, d: nat, e: nat, l: int)
    ensures OuterSums(n, CrossGrid(k, d, e))(l) == if l % 3 == e then RowClass(k, n, l, d) else 0.0
  {
    if l % 3 == e {
      SumExt(n, Column(CrossGrid(k, d, e), l), RowTerms(k, l, d));
    } else {
      SumOfZeros(n, Column(CrossGrid(k, d, e), l));
    }
  }

  /** The double sum of K over the rows of class e and the columns of
      class d, taken column by column, vanishes when every row class of
      K does. */
  lemma {:induction false} CrossClassSumVanishes(k: Mat, nat_: nat, d: nat, e: nat)
    requires d < 3 && e < 3
    requires forall l, e' :: 0 <= l < 3 * nat_ && 0 <= e' < 3 ==> RowClass(k, 3 * nat_, l, e') == 0.0
    ensures Sum(3 * nat_, CrossTerms(k, 3 * nat_, d, e)) == 0.0
  {
    var n, f := 3 * nat_, CrossGrid(k, d, e);
    SumSwap(n, n, f);
    forall m | 0 <= m < n ensures InnerSums(n, f)(m) == CrossTerms(k, n, d, e)(m) {
      CrossGridRow(k, n, d, e, m);
    }
    SumExt(n, InnerSums(n, f), CrossTerms(k, n, d, e));
    forall l | 0 <= l < n ensures OuterSums(n, f)(l) == 0.0 {
      CrossGridColumn(k, n, d, e, l);
    }
    SumOfZeros(n, OuterSums(n, f));
  }

  /** One term of a row class of P.K. */
  lemma RowTermAfterLeftProjection(k: Mat, nat_: nat, c: real, i: nat, d: nat, m: nat)
    requires i < 3 * nat_ && d < 3 && m < 3 * nat_
    ensures RowTerms(MatMul(ProjectorWith(nat_, c), k, 3 * nat_), i, d)(m)
         == Minus(RowTerms(k, i, d), Scaled(c, CrossTerms(k, 3 * nat_, d, i % 3)))(m)
  {
    if m % 3 == d {
      ProjectorTimes(k, nat_, c, i, m);
    }
  }

  /** Left-multiplying by P keeps the row classes at zero. */
  lemma {:induction false} ProjectorKeepsRowClassesZero(k: Mat, nat_: nat, c: real, i: nat, d: nat)
    requires i < 3 * nat_ && d < 3
    requires forall l, e :: 0 <= l < 3 * nat_ && 0 <= e < 3 ==> RowClass(k, 3 * nat_, l, e) == 0.0
    ensures RowClass(MatMul(ProjectorWith(nat_, c), k, 3 * nat_), 3 * nat_, i, d) == 0.0
  {
    var n, e := 3 * nat_, i % 3;
    var pk := MatMul(ProjectorWith(nat_, c), k, n);
    var split := Minus(RowTerms(k, i, d), Scaled(c, CrossTerms(k, n, d, e)));
    forall m | 0 <= m < n ensures RowTerms(pk, i, d)(m) == split(m) {
      RowTermAfterLeftProjection(k, nat_, c, i, d, m);
    }
    SumExt(n, RowTerms(pk, i, d), split);
    SumMinus(n, RowTerms(k, i, d), Scaled(c, CrossTerms(k, n, d, e)));
    assert Sum(n, Scaled(c, CrossTerms(k, n, d, e))) == 0.0 by {
      SumScaled(n, c, CrossTerms(k, n, d, e));
      CrossClassSumVanishes(k, nat_, d, e);
    }
    assert RowClass(k, n, i, d) == 0.0;
  }

  /** A matrix whose row classes all vanish is fixed by H -> H.P. */
  lemma ProjectorFixesRight(h: Mat, nat_: nat, c: real)
    requires IsMatrix(h, 3 * nat_, 3 * nat_)
    requires forall l, e :: 0 <= l < 3 * nat_ && 0 <= e < 3 ==> RowClass(h, 3 * nat_, l, e) == 0.0
    ensures MatMul(h, ProjectorWith(nat_, c), 3 * nat_) == h
  {
    var hp := MatMul(h, ProjectorWith(nat_, c), 3 * nat_);
    forall i | 0 <= i < 3 * nat_ ensures hp[i] == h[i] {
      forall j | 0 <= j < 3 * nat_ ensures hp[i][j] == h[i][j] {
        TimesProjector(h, nat_, c, i, j);
      }
    }
  }

  /** A matrix whose column classes all vanish is fixed by H -> P.H. */
  lemma ProjectorFixesLeft(h: Mat, nat_: nat, c: real)
    requires IsMatrix(h, 3 * nat_, 3 * nat_)
    requires forall l, e :: 0 <= l < 3 * nat_ && 0 <= e < 3 ==> ColClass(h, 3 * nat_, l, e) == 0.0
    ensures MatMul(ProjectorWith(nat_, c), h, 3 * nat_) == h
  {
    var ph := MatMul(ProjectorWith(nat_, c), h, 3 * nat_);
    forall i | 0 <= i < 3 * nat_ ensures ph[i] == h[i] {
      forall j | 0 <= j < 3 * nat_ ensures ph[i][j] == h[i][j] {
        ProjectorTimes(h, nat_, c, i, j);
      }
    }
  }

  /** Both class sums of P.(F.P) vanish everywhere. */
  lemma SandwichClassesVanish(f: Mat, nat_: nat)
    ensures forall l, e :: 0 <= l < 3 * nat_ && 0 <= e < 3 ==> RowClass(Sandwich(f, nat_), 3 * nat_, l, e) == 0.0
    ensures forall l, e :: 0 <= l < 3 * nat_ && 0 <= e < 3 ==> ColClass(Sandwich(f, nat_), 3 * nat_, l, e) == 0.0
  {
    if nat_ > 0 {
      var n, c := 3 * nat_, InvNat(nat_);
      InvNatInverse(nat_);
      var fp := MatMul(f, ProjectorWith(nat_, c), n);
      forall l, e | 0 <= l < n && 0 <= e < 3 ensures RowClass(fp, n, l, e) == 0.0 {
        RowClassesVanishAfterProjection(f, nat_, c, l, e);
      }
      forall l, e | 0 <= l < n && 0 <= e < 3
        ensures RowClass(Sandwich(f, nat_), n, l, e) == 0.0
        ensures ColClass(Sandwich(f, nat_), n, l, e) == 0.0
      {
        ProjectorKeepsRowClassesZero(fp, nat_, c, l, e);
        ColClassesVanishAfterProjection(fp, nat_, c, l, e);
      }
    }
  }

  /** After CustomASR, F'.u_d = 0 and u_d^T.F' = 0 for every uniform
      translation u_d: the result obeys the acoustic sum rule. */
  lemma SandwichObeysSumRule(f: Mat, nat_: nat)
    ensures AcousticSumRuleHolds(Sandwich(f, nat_), nat_)
  {
    var n, g := 3 * nat_, Sandwich(f, nat_);
    SandwichClassesVanish(f, nat_);
    forall d | 0 <= d < 3
      ensures MatVec(g, Translation(nat_, d), n) == seq(n, _ => 0.0)
      ensures VecMat(Translation(nat_, d), g, n) == seq(n, _ => 0.0)
    {
      forall i | 0 <= i < n
        ensures MatVec(g, Translation(nat_, d), n)[i] == 0.0
        ensures VecMat(Translation(nat_, d), g, n)[i] == 0.0
      {
        MatVecTranslation(g, nat_, d, i);
        VecMatTranslation(g, nat_, d, i);
      }
    }
  }

  /** CustomASR leaves a matrix that already obeys the sum rule unchanged. */
  lemma SandwichFixesSumRuleMatrices(f: Mat, nat_: nat)
    requires IsMatrix(f, 3 * nat_, 3 * nat_)
    requires AcousticSumRuleHolds(f, nat_)
    ensures Sandwich(f, nat_) == f
  {
    var n := 3 * nat_;
    forall l, e | 0 <= l < n && 0 <= e < 3
      ensures RowClass(f, n, l, e) == 0.0 && ColClass(f, n, l, e) == 0.0
    {
      MatVecTranslation(f, nat_, e, l);
      VecMatTranslation(f, nat_, e, l);
      assert MatVec(f, Translation(nat_, e), n)[l] == 0.0;
      assert VecMat(Translation(nat_, e), f, n)[l] == 0.0;
    }
    ProjectorFixesRight(f, nat_, InvNat(nat_));
    ProjectorFixesLeft(f, nat_, InvNat(nat_));
  }

  /** Applying CustomASR twice is the same as applying it once. */
  lemma SandwichIdempotent(f: Mat, nat_: nat)
    ensures Sandwich(Sandwich(f, nat_), nat_) == Sandwich(f, nat_)
  {
    SandwichObeysSumRule(f, nat_);
    SandwichFixesSumRuleMatrices(Sandwich(f, nat_), nat_);
  }
}
