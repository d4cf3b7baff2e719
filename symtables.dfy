/** The parts of QE_Symmetry that only rearrange or search tables and do
    not call the symmetry library:
      - the 3 x 4 CellConstructor symmetry blocks of GetSymmetries and the
        Fortran rotations InitFromSymmetries stores;
      - the three searches over a list of operations (the minus-q
        operation of SetupQPoint, the inverse and the minus-q operation of
        InitFromSymmetries);
      - the effective-charge layout of ImposeSumRule.
 */
module SymmetryTables {
  import opened Wrappers
  import opened Matrices
  import opened Numerics
  import opened Oracles

  // ---------------------------------------------------------------------
  // Searching

  /** The first k < n for which p holds: a `for k ...: if ...: break` loop. */
  function FirstWhere(p: nat -> bool, n: nat): (r: Option<nat>)
    ensures r.Some? ==> r.value < n && p(r.value) && forall j: nat :: j < r.value ==> !p(j)
    ensures r.None? ==> forall j: nat :: j < n ==> !p(j)
  {
    FirstFrom(p, 0, n)
  }

  function FirstFrom(p: nat -> bool, k: nat, n: nat): (r: Option<nat>)
    ensures r.Some? ==> k <= r.value < n && p(r.value) && forall j: nat :: k <= j < r.value ==> !p(j)
    ensures r.None? ==> forall j: nat :: k <= j < n ==> !p(j)
    decreases n - k
  {
    if k >= n then None else if p(k) then Some(k) else FirstFrom(p, k + 1, n)
  }

  // ---------------------------------------------------------------------
  // Symmetry blocks

  /** `sym[:, :3]`: the rotation part of a 3 x 4 symmetry block. */
  function Rotation(sym: Mat): (r: Mat)
    ensures IsMatrix(r, 3, 3)
  {
    seq(3, a => seq(3, b => At(sym, a, b)))
  }

  /** The block GetSymmetries builds for operation i (symmetries.py:695-696):
      the transpose of QE_s[:, :, i] in the first three columns and
      QE_ft[:, i] in the last. */
  function SymmetryBlock(rot: IMat, t: Vec): (m: Mat)
    ensures IsMatrix(m, 3, 4)
  {
    seq(3, a => seq(4, b => if b < 3 then IAt(rot, b, a) as real else VAt(t, a)))
  }

  /** What GetSymmetries returns for the first nsymq operations: QE_s and
      QE_ft have room for 48, so a larger count raises IndexError. */
  function SymmetryList(s: Rotations, ft: Translations, nsymq: int): (r: Result<seq<Mat>>)
  {
    if nsymq > MaxSymmetries then Err(IndexError)
    else Ok(seq(if nsymq < 0 then 0 else nsymq, i requires 0 <= i < 48 => SymmetryBlock(s[i], ft[i])))
  }

  /** `QE_s[:, :, i] = np.transpose(sym[:, :3])` in an integer array
      (symmetries.py:639): the entries are truncated toward zero. */
  function StoredRotation(sym: Mat): (rot: IMat)
    ensures |rot| == 3 && forall a :: 0 <= a < 3 ==> |rot[a]| == 3
  {
    seq(3, a => seq(3, b => Trunc(At(sym, b, a))))
  }

  /** A rotation whose entries are whole numbers. */
  predicate IntegralRotation(sym: Mat)
  {
    forall a, b :: 0 <= a < 3 && 0 <= b < 3 ==> Trunc(At(sym, a, b)) as real == At(sym, a, b)
  }

  /** Storing a symmetry and reading it back with GetSymmetries returns the
      rotation (truncated to integers) but the translation column holds
      whatever QE_ft has: the round trip gives the block back exactly when
      its rotation is integral and its translation is the stored one. */
  lemma SymmetryRoundTrip(sym: Mat, t: Vec)
    requires IsMatrix(sym, 3, 4)
    ensures var m := SymmetryBlock(StoredRotation(sym), t);
      (forall a, b :: 0 <= a < 3 && 0 <= b < 3 ==> m[a][b] == Trunc(sym[a][b]) as real) &&
      (forall a :: 0 <= a < 3 ==> m[a][3] == VAt(t, a))
    ensures IntegralRotation(sym) ==>
      (SymmetryBlock(StoredRotation(sym), t) == sym <==> forall a :: 0 <= a < 3 ==> sym[a][3] == VAt(t, a))
  {
    var m := SymmetryBlock(StoredRotation(sym), t);
    forall a, b | 0 <= a < 3 && 0 <= b < 3 ensures m[a][b] == Trunc(sym[a][b]) as real {
      assert IAt(StoredRotation(sym), b, a) == Trunc(At(sym, a, b));
    }
    if IntegralRotation(sym) && forall a :: 0 <= a < 3 ==> sym[a][3] == VAt(t, a) {
      forall a | 0 <= a < 3 ensures m[a] == sym[a] {
        assert forall b :: 0 <= b < 3 ==> m[a][b] == At(sym, a, b);
      }
    }
  }

  // ---------------------------------------------------------------------
  // The minus-q operation of SetupQPoint

  /** The test of symmetries.py:612-620: the rotation of `sym` maps the
      folded q onto itself, within the tolerance, once its image is folded. */
  predicate FixesFoldedQ(sym: Mat, aq: Vec)
  {
    var f := Fold3(aq);
    SqDist3(Fold3(MatVec3(sym, f)), f) < Epsilon
  }

  function FixesFoldedQAt(syms: seq<Mat>, aq: Vec): nat -> bool
  {
    (k: nat) => k < |syms| && FixesFoldedQ(syms[k], aq)
  }

  /** The index whose successor SetupQPoint stores in QE_irotmq. */
  function MinusQOperation(syms: seq<Mat>, aq: Vec): Option<nat>
  {
    FirstWhere(FixesFoldedQAt(syms, aq), |syms|)
  }

  /** The fold of symmetries.py:605-608 puts every component of q in
      [0, 1), and folding again changes nothing. */
  lemma FoldedQInCell(aq: Vec)
    ensures forall i :: 0 <= i < 3 ==> 0.0 <= Fold3(aq)[i] < 1.0
    ensures Fold3(Fold3(aq)) == Fold3(aq)
  {
    forall i | 0 <= i < 3 ensures 0.0 <= Fold3(aq)[i] < 1.0 && Fold(Fold3(aq)[i]) == Fold3(aq)[i] {
      FoldIsFraction(VAt(aq, i));
      FoldIdempotent(VAt(aq, i));
    }
  }

  // ---------------------------------------------------------------------
  // The inverse search of InitFromSymmetries

  function IsInverseAt(inverse: Mat -> Mat, syms: seq<Mat>, i: nat): nat -> bool
    requires i < |syms|
  {
    (k: nat) => k < |syms| && SqDist33(inverse(Rotation(syms[i])), Rotation(syms[k])) < Epsilon
  }

  /** The k whose successor InitFromSymmetries stores in QE_invs[i]
      (symmetries.py:649-655): the first operation whose rotation is the
      inverse of that of operation i, and, when there is none, the last
      operation, which the loop variable holds once the loop ends. */
  function InverseIndex(inverse: Mat -> Mat, syms: seq<Mat>, i: nat): (k: nat)
    requires i < |syms|
    ensures k < |syms|
    ensures (exists j: nat :: j < |syms| && IsInverseAt(inverse, syms, i)(j)) ==>
      IsInverseAt(inverse, syms, i)(k) && forall j: nat :: j < k ==> !IsInverseAt(inverse, syms, i)(j)
    ensures (forall j: nat :: j < |syms| ==> !IsInverseAt(inverse, syms, i)(j)) ==> k == |syms| - 1
  {
    match FirstWhere(IsInverseAt(inverse, syms, i), |syms|)
    case Some(k) => k
    case None => |syms| - 1
  }

  // ---------------------------------------------------------------------
  // The minus-q search of InitFromSymmetries

  /** The test of symmetries.py:672-673 for operation k: QE_s[:, :, k]
      maps q (in the crystal coordinates of b) onto -q put into the cell. */
  function SendsQToMinusQ(geo: Geometry, s: Rotations, b: Mat, qPoint: Vec): nat -> bool
  {
    (k: nat) => k < 3 && SqDist3(geo.putIntoCell(b, Negate(qPoint)), IMatVec(s[k], geo.covariant(b, qPoint))) < Epsilon
  }

  /** The loop of symmetries.py:671 enumerates the first axis of the
      (3, 3, 48) array QE_s, so only the operations 0, 1 and 2 are tried. */
  function MinusQByFirstAxis(geo: Geometry, s: Rotations, b: Mat, qPoint: Vec): Option<nat>
  {
    FirstWhere(SendsQToMinusQ(geo, s, b, qPoint), 3)
  }

  // ---------------------------------------------------------------------
  // Effective charges in ImposeSumRule

  /** `f_zeu = np.einsum("ijk -> kji", zeu)` (symmetries.py:488):
      f_zeu[a][b][na] = zeu[na][b][a]. */
  function PackZeu(zeu: seq<Mat>): (f: FZeu)
    ensures |f| == 3 && forall a :: 0 <= a < 3 ==> |f[a]| == 3 && forall b :: 0 <= b < 3 ==> |f[a][b]| == |zeu|
  {
    seq(3, a => seq(3, b => seq(|zeu|, na requires 0 <= na < |zeu| => At(zeu[na], b, a))))
  }

  /** Entry f_zeu(a, b, na), 0 outside the array. */
  function ZAt(f: FZeu, a: int, b: int, na: int): real
  {
    if 0 <= a < |f| && 0 <= b < |f[a]| && 0 <= na < |f[a][b]| then f[a][b][na] else 0.0
  }

  /** `zeu[na, :, :] = f_zeu[:, :, na]` for every atom (symmetries.py:510). */
  function UnpackZeu(f: FZeu, nat_: nat): (zeu: seq<Mat>)
    ensures |zeu| == nat_ && forall na :: 0 <= na < nat_ ==> IsMatrix(zeu[na], 3, 3)
  {
    seq(nat_, na => seq(3, a => seq(3, b => ZAt(f, a, b, na))))
  }

  /** Effective charges of nat atoms, one 3 x 3 block each. */
  predicate IsZeu(zeu: seq<Mat>, nat_: nat)
  {
    |zeu| == nat_ && forall na :: 0 <= na < nat_ ==> IsMatrix(zeu[na], 3, 3)
  }

  /** Even when the sum rule leaves f_zeu alone, every block of zeu comes
      back transposed: the pack permutes the axes as (k, j, i), the copy
      back reads them as (i, j, k). */
  lemma ZeuComesBackTransposed(zeu: seq<Mat>, nat_: nat)
    requires IsZeu(zeu, nat_)
    ensures forall na :: 0 <= na < nat_ ==> UnpackZeu(PackZeu(zeu), nat_)[na] == Transpose(zeu[na], 3, 3)
  {
    var back := UnpackZeu(PackZeu(zeu), nat_);
    forall na | 0 <= na < nat_ ensures back[na] == Transpose(zeu[na], 3, 3) {
      forall a | 0 <= a < 3 ensures back[na][a] == Transpose(zeu[na], 3, 3)[a] {
        assert forall b :: 0 <= b < 3 ==> back[na][a][b] == At(zeu[na], b, a);
      }
    }
  }

  /** So pack and copy back leave zeu as it was exactly when every block
      is symmetric. */
  lemma ZeuRoundTripIffSymmetric(zeu: seq<Mat>, nat_: nat)
    requires IsZeu(zeu, nat_)
    ensures UnpackZeu(PackZeu(zeu), nat_) == zeu <==>
      forall na, a, b :: 0 <= na < nat_ && 0 <= a < 3 && 0 <= b < 3 ==> zeu[na][a][b] == zeu[na][b][a]
  {
    ZeuComesBackTransposed(zeu, nat_);
    var back := UnpackZeu(PackZeu(zeu), nat_);
    if back == zeu {
      forall na, a, b | 0 <= na < nat_ && 0 <= a < 3 && 0 <= b < 3 ensures zeu[na][a][b] == zeu[na][b][a] {
        assert back[na][a][b] == Transpose(zeu[na], 3, 3)[a][b];
      }
    }
    if forall na, a, b :: 0 <= na < nat_ && 0 <= a < 3 && 0 <= b < 3 ==> zeu[na][a][b] == zeu[na][b][a] {
      forall na | 0 <= na < nat_ ensures back[na] == zeu[na] {
        forall a | 0 <= a < 3 ensures back[na][a] == zeu[na][a] {
          assert forall b :: 0 <= b < 3 ==> back[na][a][b] == zeu[na][b][a];
        }
      }
    }
  }

  /** The fold of symmetries.py:605-608 and :614-617 on the three
      components of a vector. */
  method FoldIntoCell(v: Vec) returns (w: Vec)
    ensures w == Fold3(v)
  {
    w := [VAt(v, 0), VAt(v, 1), VAt(v, 2)];
    for i := 0 to 3
      invariant |w| == 3
      invariant forall j :: 0 <= j < i ==> w[j] == Fold(VAt(v, j))
      invariant forall j :: i <= j < 3 ==> w[j] == VAt(v, j)
    {
      var x := w[i] - Trunc(w[i]) as real;
      if x < 0.0 {
        x := x + 1.0;
      }
      w := w[i := x];
    }
  }

  /** The search of symmetries.py:612-621: the first operation whose
      rotation maps the folded q onto itself once the image is folded. */
  method FixingOperation(syms: seq<Mat>, aq: Vec) returns (r: Option<nat>)
    ensures r == MinusQOperation(syms, aq)
  {
    var f := FoldIntoCell(aq);
    var p := FixesFoldedQAt(syms, aq);
    for k := 0 to |syms|
      invariant forall j: nat :: j < k ==> !p(j)
    {
      var image := FoldIntoCell(MatVec3(syms[k], f));
      if SqDist3(image, f) < Epsilon {
        assert p(k);
        FirstWhereIsFirst(p, |syms|, k);
        return Some(k);
      }
    }
    r := None;
  }

  /** The search of symmetries.py:662-676 over the first axis of QE_s
      (only the operations 0, 1 and 2), in the crystal coordinates of
      the reciprocal vectors b. */
  method MinusQSearch(geo: Geometry, s: Rotations, b: Mat, qPoint: Vec) returns (r: Option<nat>)
    ensures r == MinusQByFirstAxis(geo, s, b, qPoint)
  {
    var crystal := geo.covariant(b, qPoint);
    var p := SendsQToMinusQ(geo, s, b, qPoint);
    for k := 0 to 3
      invariant forall j: nat :: j < k ==> !p(j)
    {
      if SqDist3(geo.putIntoCell(b, Negate(qPoint)), IMatVec(s[k], crystal)) < Epsilon {
        assert p(k);
        FirstWhereIsFirst(p, 3, k);
        return Some(k);
      }
    }
    r := None;
  }

  /** The search for the inverse of operation i (symmetries.py:649-655):
      the loop breaks at the first match and otherwise ends on the last
      operation. */
  method InverseSearch(inverse: Mat -> Mat, syms: seq<Mat>, i: nat) returns (k: nat)
    requires i < |syms|
    ensures k == InverseIndex(inverse, syms, i)
  {
    var invSym := inverse(Rotation(syms[i]));
    var p := IsInverseAt(inverse, syms, i);
    k := 0;
    while true
      invariant k < |syms|
      invariant forall j: nat :: j < k ==> !p(j)
      decreases |syms| - k
    {
      if SqDist33(invSym, Rotation(syms[k])) < Epsilon {
        assert p(k);
        FirstWhereIsFirst(p, |syms|, k);
        return;
      }
      if k == |syms| - 1 {
        assert forall j: nat :: j < |syms| ==> !p(j);
        return;
      }
      k := k + 1;
    }
  }

  /** A k that satisfies p, with no earlier one that does, is what
      FirstWhere finds. */
  lemma FirstWhereIsFirst(p: nat -> bool, n: nat, k: nat)
    requires k < n && p(k) && forall j: nat :: j < k ==> !p(j)
    ensures FirstWhere(p, n) == Some(k)
  {
  }
}
