/** Scalar helpers shared by the symmetry code: the tolerance, Python's
    float truncation and modulo, the in-cell fold of SetupQPoint, numpy's
    `argmin` and index rules, and squared distances.
 */
module Numerics {
  import opened Wrappers
  import opened Sums
  import opened Matrices

  /** `__EPSILON__` of symmetries.py:21. */
  const Epsilon: real := 0.00001

  /** An integer-valued 3 x 3 matrix (the Fortran `s(3, 3, 48)` slices). */
  type IMat = seq<seq<int>>

  /** Python's `int(x)` for a float: truncation toward zero. */
  function Trunc(x: real): (t: int)
    ensures x >= 0.0 ==> t as real <= x < t as real + 1.0
    ensures x < 0.0 ==> t as real - 1.0 < x <= t as real
  {
    if x >= 0.0 then x.Floor else -((-x).Floor)
  }

  /** Python's `x % 1` for a float: the remainder has the sign of the divisor. */
  function ModOne(x: real): (y: real)
    ensures 0.0 <= y < 1.0
    ensures (x - y).Floor as real == x - y
  {
    x - x.Floor as real
  }

  /** One component of the fold at symmetries.py:605-608 and :614-617:
      `x - int(x)`, plus 1 when that is negative. */
  function Fold(x: real): real
  {
    var y := x - Trunc(x) as real;
    if y < 0.0 then y + 1.0 else y
  }

  /** The fold lands in [0, 1) and moves x by a whole number: it is the
      fractional part x - floor(x), whatever the sign of x. */
  lemma FoldIsFraction(x: real)
    ensures Fold(x) == ModOne(x)
    ensures 0.0 <= Fold(x) < 1.0
  {
    var f := x.Floor;
    if x < 0.0 && f as real != x {
      assert Trunc(x) == f + 1;
    }
  }

  /** Folding a folded value changes nothing. */
  lemma FoldIdempotent(x: real)
    ensures Fold(Fold(x)) == Fold(x)
  {
    FoldIsFraction(x);
    FoldIsFraction(Fold(x));
  }

  /** Points that differ by a lattice vector fold to the same point. */
  lemma FoldPeriodic(x: real, n: int)
    ensures Fold(x + n as real) == Fold(x)
  {
    FoldIsFraction(x);
    FoldIsFraction(x + n as real);
    assert (x + n as real).Floor == x.Floor + n;
  }

  /** The three-component fold applied to `aq` and `new_q`. */
  function Fold3(v: Vec): (w: Vec)
    ensures |w| == 3
  {
    seq(3, i => Fold(VAt(v, i)))
  }

  /** `np.sum((u - v)**2)` over three components. */
  function SqDist3(u: Vec, v: Vec): real
  {
    var d0, d1, d2 := VAt(u, 0) - VAt(v, 0), VAt(u, 1) - VAt(v, 1), VAt(u, 2) - VAt(v, 2);
    d0 * d0 + d1 * d1 + d2 * d2
  }

  /** `np.sum((a - b)**2)` over the entries of two 3 x 3 matrices. */
  function SqDist33(a: Mat, b: Mat): real
  {
    SqDist3(Line(a, 0), Line(b, 0)) + SqDist3(Line(a, 1), Line(b, 1)) + SqDist3(Line(a, 2), Line(b, 2))
  }

  /** Row i of a matrix, empty outside it. */
  function Line(m: Mat, i: int): Vec
  {
    if 0 <= i < |m| then m[i] else []
  }

  /** Entry (i, j) of an integer matrix, 0 outside it. */
  function IAt(m: IMat, i: int, j: int): int
  {
    if 0 <= i < |m| && 0 <= j < |m[i]| then m[i][j] else 0
  }

  /** `m.dot(v)` for a 3 x 3 integer matrix and a 3-vector. */
  function IMatVec(m: IMat, v: Vec): (w: Vec)
    ensures |w| == 3
  {
    seq(3, i => IAt(m, i, 0) as real * VAt(v, 0) + IAt(m, i, 1) as real * VAt(v, 1) + IAt(m, i, 2) as real * VAt(v, 2))
  }

  /** `m.dot(v)` for a 3 x 3 real matrix and a 3-vector. */
  function MatVec3(m: Mat, v: Vec): (w: Vec)
    ensures |w| == 3
  {
    seq(3, i => At(m, i, 0) * VAt(v, 0) + At(m, i, 1) * VAt(v, 1) + At(m, i, 2) * VAt(v, 2))
  }

  function VecAdd(u: Vec, v: Vec): (w: Vec)
    ensures |w| == |u|
  {
    seq(|u|, i requires 0 <= i < |u| => u[i] + VAt(v, i))
  }

  function VecScale(c: real, v: Vec): (w: Vec)
    ensures |w| == |v|
  {
    seq(|v|, i requires 0 <= i < |v| => c * v[i])
  }

  function Negate(v: Vec): (w: Vec)
    ensures |w| == |v|
  {
    seq(|v|, i requires 0 <= i < |v| => -v[i])
  }

  /** numpy's `argmin`: the FIRST position of the smallest value. */
  function ArgMin(xs: seq<real>): (k: nat)
    requires |xs| > 0
    ensures k < |xs|
    ensures forall j :: 0 <= j < |xs| ==> xs[k] <= xs[j]
    ensures forall j :: 0 <= j < k ==> xs[k] < xs[j]
  {
    if |xs| == 1 then 0
    else
      var t := ArgMin(xs[..|xs| - 1]);
      if xs[|xs| - 1] < xs[t] then |xs| - 1 else t
  }

  /** numpy's rule for an integer index into an axis of length n: negative
      indices count from the end, anything else out of range raises. */
  function NumpyIndex(i: int, n: nat): (r: Option<nat>)
    ensures r.Some? <==> -(n as int) <= i < n
    ensures r.Some? ==> r.value < n && (r.value == i || r.value == i + n)
  {
    if 0 <= i < n then Some(i) else if -(n as int) <= i < 0 then Some(i + n) else None
  }
}
