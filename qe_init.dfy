/** What `QE_Symmetry.InitFromSymmetries(symmetries, q_point)` does to the
    symmetry tables (symmetries.py:623-676).

    For every operation i, in order, the loop stores the rotation, the
    atom map, the index of the inverse and the shifted positions; the
    first failure stops it with what was already written left in place.
    Only when the loop ends normally does the minus-q search run.
 */
module QEInit {
  import opened Wrappers
  import opened Matrices
  import opened Numerics
  import opened Oracles
  import opened Structures
  import opened SymmetryTables
  import opened QEState

  /** `QE_irt[i, :] = eq_atoms + 1` (symmetries.py:647): numpy spreads a
      one-element array over the row and refuses any other length. */
  function AtomRow(eq: seq<int>, nat_: nat): (r: Result<seq<int>>)
    ensures r.Ok? <==> |eq| == nat_ || |eq| == 1
    ensures r.Ok? ==> |r.value| == nat_
    ensures r.Ok? && |eq| == nat_ ==> forall a :: 0 <= a < nat_ ==> r.value[a] == eq[a] + 1
    ensures r.Ok? && |eq| == 1 ==> forall a :: 0 <= a < nat_ ==> r.value[a] == eq[0] + 1
  {
    if |eq| == nat_ then Ok(seq(nat_, a requires 0 <= a < nat_ => eq[a] + 1))
    else if |eq| == 1 then Ok(seq(nat_, _ => eq[0] + 1))
    else Err(BadShape)
  }

  /** `QE_rtau[:, i, k] = aux_atoms.coords[k, :]` for k = 0, 1, ...
      (symmetries.py:658-659): the positions the image has are copied, and
      the loop stops (raising) at the first one it lacks. */
  function ShiftRow(row: seq<Vec>, image: seq<Vec>, nat_: nat): (r: seq<Vec>)
    ensures |r| == nat_
    ensures forall k :: 0 <= k < nat_ && k < |image| ==> r[k] == image[k]
    ensures forall k :: 0 <= k < nat_ && |image| <= k < |row| ==> r[k] == row[k]
  {
    seq(nat_, k requires 0 <= k < nat_ => if k < |image| then image[k] else if k < |row| then row[k] else [0.0, 0.0, 0.0])
  }

  /** The positions of the structure after operation `sym`, folded into the cell. */
  function Image(fx: Setting, sv: StructureValue, sym: Mat): seq<Vec>
  {
    fx.geo.symmetryImage(sv, sym)
  }

  /** `structure.get_equivalent_atoms(aux_atoms) + 1` as a row of QE_irt. */
  function AtomsOf(fx: Setting, sv: StructureValue, sym: Mat): Result<seq<int>>
  {
    AtomRow(fx.geo.equivalentAtoms(sv, Image(fx, sv, sym)), fx.natoms)
  }

  /** One pass of the loop body (symmetries.py:639-659) for operation i. */
  function InitEntry(fx: Setting, sv: StructureValue, syms: seq<Mat>, st: SymState, i: nat): (SymState, Outcome)
    requires i < |syms|
  {
    if i >= MaxSymmetries then (st, Fail(IndexError))
    else
      var st1 := st.(s := st.s[i := StoredRotation(syms[i])]);
      var image := Image(fx, sv, syms[i]);
      match AtomsOf(fx, sv, syms[i])
      case Err(e) => (st1, Fail(e))
      case Ok(row) =>
        var st2 := st1.(irt := st1.irt[i := row],
                        invs := st1.invs[i := InverseIndex(fx.geo.inverse, syms, i) + 1],
                        rtau := st1.rtau[i := ShiftRow(st1.rtau[i], image, fx.natoms)]);
        (st2, if |image| < fx.natoms then Fail(IndexError) else Pass)
  }

  /** The tables after a pass whose atom map was found. */
  lemma InitEntryTables(fx: Setting, sv: StructureValue, syms: seq<Mat>, st: SymState, i: nat, row: seq<int>)
    requires i < |syms| && i < MaxSymmetries && AtomsOf(fx, sv, syms[i]) == Ok(row)
    ensures var image := Image(fx, sv, syms[i]);
      InitEntry(fx, sv, syms, st, i).0 ==
        st.(s := st.s[i := StoredRotation(syms[i])], irt := st.irt[i := row],
            invs := st.invs[i := InverseIndex(fx.geo.inverse, syms, i) + 1],
            rtau := st.rtau[i := ShiftRow(st.rtau[i], image, fx.natoms)])
    ensures InitEntry(fx, sv, syms, st, i).1 == if |Image(fx, sv, syms[i])| < fx.natoms then Fail(IndexError) else Pass
  {
  }

  /** The tables after the first n passes, or after the pass that raised. */
  function InitLoop(fx: Setting, sv: StructureValue, syms: seq<Mat>, st: SymState, n: nat): (SymState, Outcome)
    requires n <= |syms|
  {
    if n == 0 then (st, Pass)
    else
      var prev := InitLoop(fx, sv, syms, st, n - 1);
      if prev.1.Fail? then prev else InitEntry(fx, sv, syms, prev.0, n - 1)
  }

  /** The minus-q search of symmetries.py:662-676.  `QE_minusq` (sic) is
      set to False, so QE_minus_q itself is never cleared; only the
      operations 0, 1 and 2 are tried. */
  function MinusQStage(fx: Setting, cell: Mat, st: SymState, qPoint: Vec): SymState
  {
    var st1 := st.(minusqTypo := Some(false));
    match MinusQByFirstAxis(fx.geo, st.s, fx.geo.structureReciprocal(cell), qPoint)
    case Some(k) => st1.(minusQ := true, irotmq := k + 1)
    case None => st1
  }

  /** InitFromSymmetries(symmetries, q_point) on a structure `sv`: the new
      tables and whether it raised.  QE_nsymq is set before the loop. */
  function InitResult(fx: Setting, sv: StructureValue, st: SymState, syms: seq<Mat>, qPoint: Vec): (SymState, Outcome)
  {
    var r := InitLoop(fx, sv, syms, st.(nsymq := |syms|), |syms|);
    if r.1.Fail? then r else (MinusQStage(fx, sv.unitCell, r.0, qPoint), Pass)
  }

  // ---------------------------------------------------------------------
  // Properties

  /** What the first n passes store when none of them raised: the
      entries 0 .. n-1 of the tables hold operation i's rotation (as
      Fortran integers), atom map, inverse and shifts, the entries after
      them and QE_ft are as they were, and nothing else changes. */
  predicate StoredUpTo(fx: Setting, sv: StructureValue, syms: seq<Mat>, st: SymState, r: SymState, n: nat)
    requires n <= |syms| && n <= 48
  {
    r.ft == st.ft && r.nsymq == st.nsymq && r.minusQ == st.minusQ && r.irotmq == st.irotmq &&
    r.nsym == st.nsym && r.minusqTypo == st.minusqTypo &&
    StoredPrefix(fx, sv, syms, r, n) && KeptSuffix(st, r, n)
  }

  /** The entries 0 .. n-1 hold what the first n passes compute. */
  predicate StoredPrefix(fx: Setting, sv: StructureValue, syms: seq<Mat>, r: SymState, n: nat)
    requires n <= |syms| && n <= 48
  {
    forall i :: 0 <= i < n ==>
      r.s[i] == StoredRotation(syms[i]) &&
      AtomsOf(fx, sv, syms[i]) == Ok(r.irt[i]) &&
      r.invs[i] == InverseIndex(fx.geo.inverse, syms, i) + 1 &&
      fx.natoms <= |Image(fx, sv, syms[i])| && r.rtau[i] == Image(fx, sv, syms[i])[..fx.natoms]
  }

  /** The entries from n on are those of `st`. */
  predicate KeptSuffix(st: SymState, r: SymState, n: nat)
  {
    forall i :: n <= i < 48 ==> r.s[i] == st.s[i] && r.irt[i] == st.irt[i] && r.invs[i] == st.invs[i] && r.rtau[i] == st.rtau[i]
  }

  /** Entry i of tables that store the first n operations. */
  lemma StoredEntry(fx: Setting, sv: StructureValue, syms: seq<Mat>, r: SymState, n: nat, i: nat)
    requires n <= |syms| && n <= 48 && i < n
    requires StoredPrefix(fx, sv, syms, r, n)
    ensures r.s[i] == StoredRotation(syms[i])
    ensures AtomsOf(fx, sv, syms[i]) == Ok(r.irt[i])
    ensures r.invs[i] == InverseIndex(fx.geo.inverse, syms, i) + 1
    ensures fx.natoms <= |Image(fx, sv, syms[i])| && r.rtau[i] == Image(fx, sv, syms[i])[..fx.natoms]
  {
  }

  /** A pass that does not raise stores its own entry. */
  lemma InitEntryExtendsPrefix(fx: Setting, sv: StructureValue, syms: seq<Mat>, p: SymState, n: nat)
    requires n < |syms| && n < 48
    requires StoredPrefix(fx, sv, syms, p, n)
    requires InitEntry(fx, sv, syms, p, n).1.Pass?
    ensures StoredPrefix(fx, sv, syms, InitEntry(fx, sv, syms, p, n).0, n + 1)
  {
    var image := Image(fx, sv, syms[n]);
    var row := AtomsOf(fx, sv, syms[n]).value;
    InitEntryTables(fx, sv, syms, p, n, row);
    var r := InitEntry(fx, sv, syms, p, n).0;
    assert |image| >= fx.natoms;
    assert r.rtau[n] == image[..fx.natoms];
    forall i | 0 <= i < n + 1
      ensures r.s[i] == StoredRotation(syms[i]) && AtomsOf(fx, sv, syms[i]) == Ok(r.irt[i])
      ensures r.invs[i] == InverseIndex(fx.geo.inverse, syms, i) + 1
      ensures fx.natoms <= |Image(fx, sv, syms[i])| && r.rtau[i] == Image(fx, sv, syms[i])[..fx.natoms]
    {
      if i < n {
        StoredEntry(fx, sv, syms, p, n, i);
      }
    }
  }

  /** A pass leaves the entries after its own alone. */
  lemma InitEntryKeepsSuffix(fx: Setting, sv: StructureValue, syms: seq<Mat>, st: SymState, p: SymState, n: nat)
    requires n < |syms| && n < 48
    requires KeptSuffix(st, p, n)
    requires InitEntry(fx, sv, syms, p, n).1.Pass?
    ensures KeptSuffix(st, InitEntry(fx, sv, syms, p, n).0, n + 1)
  {
    InitEntryTables(fx, sv, syms, p, n, AtomsOf(fx, sv, syms[n]).value);
  }

  /** One pass that does not raise extends what is stored by one entry. */
  lemma InitEntryStores(fx: Setting, sv: StructureValue, syms: seq<Mat>, st: SymState, p: SymState, n: nat)
    requires n < |syms| && n < 48
    requires StoredUpTo(fx, sv, syms, st, p, n)
    requires InitEntry(fx, sv, syms, p, n).1.Pass?
    ensures StoredUpTo(fx, sv, syms, st, InitEntry(fx, sv, syms, p, n).0, n + 1)
  {
    InitEntryExtendsPrefix(fx, sv, syms, p, n);
    InitEntryKeepsSuffix(fx, sv, syms, st, p, n);
    InitEntryTables(fx, sv, syms, p, n, AtomsOf(fx, sv, syms[n]).value);
  }

  /** The loop, when it does not raise, stores every operation. */
  lemma {:induction false} InitLoopStores(fx: Setting, sv: StructureValue, syms: seq<Mat>, st: SymState, n: nat)
    requires n <= |syms|
    requires InitLoop(fx, sv, syms, st, n).1.Pass?
    ensures n <= 48
    ensures StoredUpTo(fx, sv, syms, st, InitLoop(fx, sv, syms, st, n).0, n)
  {
    if n > 0 {
      InitLoopStores(fx, sv, syms, st, n - 1);
      var p := InitLoop(fx, sv, syms, st, n - 1).0;
      InitEntryStores(fx, sv, syms, st, p, n - 1);
    }
  }

  /** The loop never changes QE_nsymq, whether it raises or not. */
  lemma {:induction false} InitLoopKeepsCount(fx: Setting, sv: StructureValue, syms: seq<Mat>, st: SymState, n: nat)
    requires n <= |syms|
    ensures InitLoop(fx, sv, syms, st, n).0.nsymq == st.nsymq
    ensures InitLoop(fx, sv, syms, st, n).0.ft == st.ft
  {
    if n > 0 {
      InitLoopKeepsCount(fx, sv, syms, st, n - 1);
      var prev := InitLoop(fx, sv, syms, st, n - 1);
      if prev.1.Pass? {
        InitEntryKeepsCount(fx, sv, syms, prev.0, n - 1);
      }
    }
  }

  /** One pass writes neither QE_nsymq nor the translations. */
  lemma InitEntryKeepsCount(fx: Setting, sv: StructureValue, syms: seq<Mat>, p: SymState, i: nat)
    requires i < |syms|
    ensures InitEntry(fx, sv, syms, p, i).0.nsymq == p.nsymq && InitEntry(fx, sv, syms, p, i).0.ft == p.ft
  {
  }

  /** InitFromSymmetries succeeds only for at most 48 operations, and then
      stores every one of them (rotation, atom permutation, inverse and
      image positions) while leaving QE_ft alone; QE_nsymq is the
      number of operations even when it raises. */
  lemma InitFromSymmetriesStores(fx: Setting, sv: StructureValue, st: SymState, syms: seq<Mat>, qPoint: Vec)
    ensures InitResult(fx, sv, st, syms, qPoint).0.nsymq == |syms|
    ensures InitResult(fx, sv, st, syms, qPoint).0.ft == st.ft
    ensures |syms| > 48 ==> InitResult(fx, sv, st, syms, qPoint).1.Fail?
    ensures InitResult(fx, sv, st, syms, qPoint).1.Pass? ==>
      var r := InitResult(fx, sv, st, syms, qPoint).0;
      forall i :: 0 <= i < |syms| ==>
        r.s[i] == StoredRotation(syms[i]) &&
        AtomRow(fx.geo.equivalentAtoms(sv, Image(fx, sv, syms[i])), fx.natoms) == Ok(r.irt[i]) &&
        r.invs[i] == InverseIndex(fx.geo.inverse, syms, i) + 1 &&
        fx.natoms <= |Image(fx, sv, syms[i])| && r.rtau[i] == Image(fx, sv, syms[i])[..fx.natoms]
  {
    var st0 := st.(nsymq := |syms|);
    InitLoopKeepsCount(fx, sv, syms, st0, |syms|);
    var loop := InitLoop(fx, sv, syms, st0, |syms|);
    if loop.1.Pass? {
      InitLoopStores(fx, sv, syms, st0, |syms|);
      var r := InitResult(fx, sv, st, syms, qPoint).0;
      assert r.s == loop.0.s && r.irt == loop.0.irt && r.invs == loop.0.invs && r.rtau == loop.0.rtau;
      forall i | 0 <= i < |syms|
        ensures r.s[i] == StoredRotation(syms[i])
        ensures AtomRow(fx.geo.equivalentAtoms(sv, Image(fx, sv, syms[i])), fx.natoms) == Ok(r.irt[i])
        ensures r.invs[i] == InverseIndex(fx.geo.inverse, syms, i) + 1
        ensures fx.natoms <= |Image(fx, sv, syms[i])| && r.rtau[i] == Image(fx, sv, syms[i])[..fx.natoms]
      {
        StoredEntry(fx, sv, syms, loop.0, |syms|, i);
      }
    }
  }

  /** The minus-q search of InitFromSymmetries never clears QE_minus_q (it
      resets the misspelled `QE_minusq` instead), tries only the first
      three operations, and otherwise records the first that sends q to
      -q put into the cell. */
  lemma InitFromSymmetriesMinusQ(fx: Setting, sv: StructureValue, st: SymState, syms: seq<Mat>, qPoint: Vec)
    requires InitResult(fx, sv, st, syms, qPoint).1.Pass?
    ensures var r := InitResult(fx, sv, st, syms, qPoint).0;
      var found := MinusQByFirstAxis(fx.geo, r.s, fx.geo.structureReciprocal(sv.unitCell), qPoint);
      r.minusqTypo == Some(false) &&
      (st.minusQ ==> r.minusQ) &&
      (r.minusQ <==> st.minusQ || found.Some?) &&
      (found.Some? ==> r.irotmq == found.value + 1 && 1 <= r.irotmq <= 3) &&
      (found.None? ==> r.irotmq == st.irotmq)
  {
    var st0 := st.(nsymq := |syms|);
    InitLoopStores(fx, sv, syms, st0, |syms|);
  }

  /** Reading the operations back with GetSymmetries after a successful
      InitFromSymmetries gives each rotation back (truncated to integers)
      but the translations QE_ft held before: an operation with an
      integral rotation comes back unchanged exactly when its
      translation is the stale one. */
  lemma InitThenGetSymmetries(fx: Setting, sv: StructureValue, st: SymState, syms: seq<Mat>, qPoint: Vec)
    requires InitResult(fx, sv, st, syms, qPoint).1.Pass?
    requires forall i :: 0 <= i < |syms| ==> IsMatrix(syms[i], 3, 4)
    ensures var r := InitResult(fx, sv, st, syms, qPoint).0;
      var back := SymmetryList(r.s, r.ft, r.nsymq);
      back.Ok? && |back.value| == |syms| &&
      forall i :: 0 <= i < |syms| ==>
        back.value[i] == SymmetryBlock(StoredRotation(syms[i]), st.ft[i]) &&
        (IntegralRotation(syms[i]) ==>
           (back.value[i] == syms[i] <==> forall a :: 0 <= a < 3 ==> At(syms[i], a, 3) == VAt(st.ft[i], a)))
  {
    InitFromSymmetriesStores(fx, sv, st, syms, qPoint);
    var r := InitResult(fx, sv, st, syms, qPoint).0;
    forall i | 0 <= i < |syms|
      ensures IntegralRotation(syms[i]) ==>
        (SymmetryBlock(StoredRotation(syms[i]), st.ft[i]) == syms[i] <==> forall a :: 0 <= a < 3 ==> At(syms[i], a, 3) == VAt(st.ft[i], a))
    {
      SymmetryRoundTrip(syms[i], st.ft[i]);
    }
  }

  lemma {:induction false} InitLoopStopped(fx: Setting, sv: StructureValue, syms: seq<Mat>, st: SymState, m: nat, n: nat)
    requires m <= n <= |syms| && InitLoop(fx, sv, syms, st, m).1.Fail?
    ensures InitLoop(fx, sv, syms, st, n) == InitLoop(fx, sv, syms, st, m)
    decreases n - m
  {
    if n > m {
      InitLoopStopped(fx, sv, syms, st, m, n - 1);
    }
  }
}
