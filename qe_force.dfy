/** What `QE_Symmetry.ForceSymmetry(structure)` computes
    (symmetries.py:101-132): every operation k of the small group sends
    atom i to atom irt[k][i]; the image of atom i (rotated, then shifted
    by the fractional translation, in crystal coordinates) is added to the
    column of that atom, and the sums are divided by the number of
    operations.
 */
module QEForce {
  import opened Wrappers
  import opened Matrices
  import opened Numerics
  import opened Oracles
  import opened QEState
  import opened StarAverage

  /** Three components of a vector, 0 beyond its end. */
  function Column(m: Mat, i: int): (v: Vec)
    ensures |v| == 3
  {
    seq(3, c => At(m, c, i))
  }

  function Add3(u: Vec, v: Vec): (w: Vec)
    ensures |w| == 3
  {
    seq(3, c => VAt(u, c) + VAt(v, c))
  }

  function Scale3(a: real, v: Vec): (w: Vec)
    ensures |w| == 3
  {
    seq(3, c => a * VAt(v, c))
  }

  /** `coords` transposed to (3, N) and converted by
      `cryst_to_cart(coords, QE_bg, -1)` (symmetries.py:114-118). */
  function CrystalCoords(fx: Setting, coords: seq<Vec>, n: nat): Mat
  {
    fx.lib.crystToCart(Transpose(coords, n, 3), fx.bg, -1)
  }

  /** The column `QE_irt[k, i] - 1` of new_coords: numpy counts a negative
      index from the end and raises IndexError for anything out of range,
      including an operation past the 48 of the table or an atom past the
      row. */
  function Target(st: SymState, k: nat, i: nat, n: nat): Option<nat>
  {
    if k < MaxSymmetries && i < |st.irt[k]| then NumpyIndex(st.irt[k][i] - 1, n) else None
  }

  /** `QE_s[:, :, k].dot(coords[:, i]) + QE_ft[:, k]` */
  function Contribution(st: SymState, crys: Mat, k: nat, i: nat): Vec
    requires k < MaxSymmetries
  {
    Add3(IMatVec(st.s[k], Column(crys, i)), st.ft[k])
  }

  /** new_coords (one 3-vector per atom) once the operations before k, and
      the atoms before i of operation k, have been added; the first bad
      index raises. */
  function Scatter(st: SymState, crys: Mat, n: nat, k: nat, i: nat): (r: Result<seq<Vec>>)
    requires i <= n
    ensures r.Ok? ==> |r.value| == n
    decreases k, i
  {
    if i == 0 then
      if k == 0 then Ok(seq(n, _ => [0.0, 0.0, 0.0])) else Scatter(st, crys, n, k - 1, n)
    else match Scatter(st, crys, n, k, i - 1)
      case Err(e) => Err(e)
      case Ok(cols) =>
        match Target(st, k, i - 1, n)
        case None => Err(IndexError)
        case Some(t) => Ok(cols[t := Add3(cols[t], Contribution(st, crys, k, i - 1))])
  }

  /** The new coordinates ForceSymmetry writes into a structure of n atoms
      at `coords`, or what it raises (in which case it writes nothing). */
  function ForcedCoords(fx: Setting, st: SymState, coords: seq<Vec>, n: nat): Result<seq<Vec>>
  {
    if st.nsymq == 0 then Err(SymmetriesNotInitialised)
    else match Scatter(st, CrystalCoords(fx, coords, n), n, st.nsymq, 0)
      case Err(e) => Err(e)
      case Ok(cols) =>
        var averaged := MatScale(cols, InvCount(st.nsymq), n, 3);
        Ok(Transpose(fx.lib.crystToCart(Transpose(averaged, n, 3), fx.at, 1), 3, n))
  }

  // ---------------------------------------------------------------------
  // When it raises

  /** Every index the loop reads is valid. */
  predicate AllTargets(st: SymState, n: nat)
  {
    forall k, i :: 0 <= k < st.nsymq && 0 <= i < n ==> Target(st, k, i, n).Some?
  }

  lemma {:induction false} ScatterOkIff(st: SymState, crys: Mat, n: nat, k: nat, i: nat)
    requires i <= n
    ensures Scatter(st, crys, n, k, i).Ok? <==>
      (forall k', i' :: 0 <= k' < k && 0 <= i' < n ==> Target(st, k', i', n).Some?) &&
      (forall i' :: 0 <= i' < i ==> Target(st, k, i', n).Some?)
    decreases k, i
  {
    if i == 0 {
      if k > 0 {
        ScatterOkIff(st, crys, n, k - 1, n);
      }
    } else {
      ScatterOkIff(st, crys, n, k, i - 1);
    }
  }

  /** ForceSymmetry raises when no symmetries are set up, and otherwise
      exactly when some operation and atom lead to a bad index. */
  lemma ForceSymmetryFails(fx: Setting, st: SymState, coords: seq<Vec>, n: nat)
    ensures st.nsymq == 0 ==> ForcedCoords(fx, st, coords, n) == Err(SymmetriesNotInitialised)
    ensures st.nsymq > 0 ==> (ForcedCoords(fx, st, coords, n).Ok? <==> AllTargets(st, n))
    ensures st.nsymq > 0 && !AllTargets(st, n) ==> ForcedCoords(fx, st, coords, n) == Err(IndexError)
  {
    if st.nsymq > 0 {
      var crys := CrystalCoords(fx, coords, n);
      ScatterOkIff(st, crys, n, st.nsymq, 0);
      ScatterErrors(st, crys, n, st.nsymq, 0);
    }
  }

  /** The only error the scatter loop raises is IndexError. */
  lemma {:induction false} ScatterErrors(st: SymState, crys: Mat, n: nat, k: nat, i: nat)
    requires i <= n
    ensures Scatter(st, crys, n, k, i).Err? ==> Scatter(st, crys, n, k, i).error == IndexError
    decreases k, i
  {
    if i == 0 {
      if k > 0 {
        ScatterErrors(st, crys, n, k - 1, n);
      }
    } else {
      ScatterErrors(st, crys, n, k, i - 1);
    }
  }

  // ---------------------------------------------------------------------
  // A symmetric structure is left where it is

  /** Operation k sends the n atoms one-to-one onto the n atoms. */
  predicate PermutesAtoms(st: SymState, k: nat, n: nat)
  {
    (forall i :: 0 <= i < n ==> Target(st, k, i, n).Some?) &&
    (forall j :: 0 <= j < n ==> exists i :: 0 <= i < n && Target(st, k, i, n) == Some(j)) &&
    (forall i1, i2 :: 0 <= i1 < n && 0 <= i2 < n && Target(st, k, i1, n) == Target(st, k, i2, n) ==> i1 == i2)
  }

  /** Operation k moves every atom exactly onto the atom irt names. */
  predicate MapsOnto(st: SymState, crys: Mat, k: nat, n: nat)
  {
    k < MaxSymmetries &&
    forall i :: 0 <= i < n ==> Target(st, k, i, n).Some? && Contribution(st, crys, k, i) == Column(crys, Target(st, k, i, n).value)
  }

  /** How many of the atoms before i operation k sends to atom j. */
  function Hits(st: SymState, k: nat, i: nat, j: int, n: nat): nat
  {
    if i == 0 then 0 else Hits(st, k, i - 1, j, n) + (if Target(st, k, i - 1, n) == Some(j) then 1 else 0)
  }

  lemma {:induction false} HitsUpTo(st: SymState, k: nat, i: nat, j: int, n: nat, i0: nat)
    requires i <= n && i0 < n && Target(st, k, i0, n) == Some(j)
    requires forall i' :: 0 <= i' < n && Target(st, k, i', n) == Some(j) ==> i' == i0
    ensures Hits(st, k, i, j, n) == if i > i0 then 1 else 0
  {
    if i > 0 {
      HitsUpTo(st, k, i - 1, j, n, i0);
    }
  }

  /** A permutation hits every atom once. */
  lemma HitsOnce(st: SymState, k: nat, j: nat, n: nat)
    requires PermutesAtoms(st, k, n) && j < n
    ensures Hits(st, k, n, j, n) == 1
  {
    var i0 :| 0 <= i0 < n && Target(st, k, i0, n) == Some(j);
    HitsUpTo(st, k, n, j, n, i0);
  }

  lemma AddOnce(a: real, v: Vec)
    ensures Add3(Scale3(a, v), v) == Scale3(a + 1.0, v)
  {
    assert forall c :: 0 <= c < 3 ==> a * VAt(v, c) + VAt(v, c) == (a + 1.0) * VAt(v, c);
  }

  /** Column j of the crystal coordinates, k + Hits(...) times over. */
  function Tally(st: SymState, crys: Mat, n: nat, k: nat, i: nat): (cols: seq<Vec>)
    ensures |cols| == n
  {
    seq(n, j => Scale3((k + Hits(st, k, i, j, n)) as real, Column(crys, j)))
  }

  lemma TallyStart(st: SymState, crys: Mat, n: nat)
    ensures Tally(st, crys, n, 0, 0) == seq(n, _ => [0.0, 0.0, 0.0])
  {
    var t := Tally(st, crys, n, 0, 0);
    forall j | 0 <= j < n ensures t[j] == [0.0, 0.0, 0.0] {
      assert forall c :: 0 <= c < 3 ==> t[j][c] == 0.0;
    }
  }

  lemma TallyCarry(st: SymState, crys: Mat, n: nat, k: nat)
    requires forall j :: 0 <= j < n ==> Hits(st, k, n, j, n) == 1
    ensures Tally(st, crys, n, k, n) == Tally(st, crys, n, k + 1, 0)
  {
    var a, b := Tally(st, crys, n, k, n), Tally(st, crys, n, k + 1, 0);
    forall j | 0 <= j < n ensures a[j] == b[j] {
      assert (k + Hits(st, k, n, j, n)) as real == (k + 1 + Hits(st, k + 1, 0, j, n)) as real;
    }
  }

  lemma TallyStep(st: SymState, crys: Mat, n: nat, k: nat, i: nat, t: nat)
    requires 0 < i <= n && t < n && Target(st, k, i - 1, n) == Some(t)
    ensures var cols := Tally(st, crys, n, k, i - 1);
      cols[t := Add3(cols[t], Column(crys, t))] == Tally(st, crys, n, k, i)
  {
    var cols := Tally(st, crys, n, k, i - 1);
    var got := cols[t := Add3(cols[t], Column(crys, t))];
    var want := Tally(st, crys, n, k, i);
    forall j | 0 <= j < n ensures got[j] == want[j] {
      if j == t {
        AddOnce((k + Hits(st, k, i - 1, j, n)) as real, Column(crys, j));
        assert ((k + Hits(st, k, i - 1, j, n)) as real) + 1.0 == (k + Hits(st, k, i, j, n)) as real;
      }
    }
  }

  /** Finishing operation k1 leaves every column counted once more. */
  lemma ScatterCarry(st: SymState, crys: Mat, n: nat, k1: nat)
    requires PermutesAtoms(st, k1, n)
    requires Scatter(st, crys, n, k1, n) == Ok(Tally(st, crys, n, k1, n))
    ensures Scatter(st, crys, n, k1 + 1, 0) == Ok(Tally(st, crys, n, k1 + 1, 0))
  {
    forall j | 0 <= j < n ensures Hits(st, k1, n, j, n) == 1 {
      HitsOnce(st, k1, j, n);
    }
    TallyCarry(st, crys, n, k1);
  }

  /** Adding atom i - 1 of operation k adds one copy of the column it is
      sent to. */
  lemma ScatterAdvance(st: SymState, crys: Mat, n: nat, k: nat, i: nat)
    requires 0 < i <= n && MapsOnto(st, crys, k, n)
    requires Scatter(st, crys, n, k, i - 1) == Ok(Tally(st, crys, n, k, i - 1))
    ensures Scatter(st, crys, n, k, i) == Ok(Tally(st, crys, n, k, i))
  {
    var cols := Tally(st, crys, n, k, i - 1);
    var t := Target(st, k, i - 1, n).value;
    assert Contribution(st, crys, k, i - 1) == Column(crys, t);
    assert Scatter(st, crys, n, k, i) == Ok(cols[t := Add3(cols[t], Column(crys, t))]);
    TallyStep(st, crys, n, k, i, t);
  }

  /** The scatter of a structure every operation maps onto itself:
      column j holds column j of the crystal coordinates once per
      operation done and once more if the current operation has already
      reached the atom sent to j. */
  lemma {:induction false} ScatterSymmetric(st: SymState, crys: Mat, n: nat, k: nat, i: nat)
    requires i <= n
    requires forall k' :: 0 <= k' < k ==> PermutesAtoms(st, k', n) && MapsOnto(st, crys, k', n)
    requires i > 0 ==> MapsOnto(st, crys, k, n)
    ensures Scatter(st, crys, n, k, i) == Ok(Tally(st, crys, n, k, i))
    decreases k, i
  {
    if i == 0 {
      if k == 0 {
        TallyStart(st, crys, n);
      } else {
        var k1 := k - 1;
        ScatterSymmetric(st, crys, n, k1, n);
        ScatterCarry(st, crys, n, k1);
      }
    } else {
      ScatterSymmetric(st, crys, n, k, i - 1);
      ScatterAdvance(st, crys, n, k, i);
    }
  }

  lemma AverageOfCopies(crys: Mat, n: nat, m: nat)
    requires m > 0
    ensures MatScale(seq(n, j => Scale3(m as real, Column(crys, j))), InvCount(m), n, 3) == Transpose(crys, 3, n)
  {
    var cols := seq(n, j => Scale3(m as real, Column(crys, j)));
    var a := MatScale(cols, InvCount(m), n, 3);
    forall j, c | 0 <= j < n && 0 <= c < 3 ensures a[j][c] == Transpose(crys, 3, n)[j][c] {
      InverseTimes(m, At(crys, c, j));
    }
    assert forall j :: 0 <= j < n ==> a[j] == Transpose(crys, 3, n)[j];
  }

  /** ForceSymmetry leaves a structure in place when every operation of
      the small group permutes its atoms and maps each atom exactly onto
      the one `irt` names, provided the two coordinate conversions undo
      each other on it. */
  lemma ForceSymmetryKeepsSymmetricStructure(fx: Setting, st: SymState, coords: seq<Vec>, n: nat)
    requires IsMatrix(coords, n, 3) && st.nsymq > 0
    requires IsMatrix(CrystalCoords(fx, coords, n), 3, n)
    requires fx.lib.crystToCart(CrystalCoords(fx, coords, n), fx.at, 1) == Transpose(coords, n, 3)
    requires forall k :: 0 <= k < st.nsymq ==>
      PermutesAtoms(st, k, n) && MapsOnto(st, CrystalCoords(fx, coords, n), k, n)
    ensures ForcedCoords(fx, st, coords, n) == Ok(coords)
  {
    var crys := CrystalCoords(fx, coords, n);
    ScatterSymmetric(st, crys, n, st.nsymq, 0);
    assert Tally(st, crys, n, st.nsymq, 0) == seq(n, j => Scale3(st.nsymq as real, Column(crys, j)));
    AverageOfCopies(crys, n, st.nsymq);
    TransposeTwice(crys, 3, n);
    TransposeTwice(coords, n, 3);
  }

  lemma {:induction false} ScatterRowStopped(st: SymState, crys: Mat, n: nat, k: nat, i: nat, j: nat)
    requires i <= j <= n && Scatter(st, crys, n, k, i).Err?
    ensures Scatter(st, crys, n, k, j) == Scatter(st, crys, n, k, i)
    decreases j - i
  {
    if j > i {
      ScatterRowStopped(st, crys, n, k, i, j - 1);
    }
  }

  lemma {:induction false} ScatterStopped(st: SymState, crys: Mat, n: nat, k: nat, i: nat, last: nat)
    requires i <= n && k < last && Scatter(st, crys, n, k, i).Err?
    ensures Scatter(st, crys, n, last, 0) == Scatter(st, crys, n, k, i)
    decreases last
  {
    ScatterRowStopped(st, crys, n, k, i, n);
    if last > k + 1 {
      ScatterStopped(st, crys, n, k, i, last - 1);
      ScatterRowStopped(st, crys, n, last - 1, 0, n);
    }
  }
}
