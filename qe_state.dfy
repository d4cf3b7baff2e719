/** The state of a QE_Symmetry object (symmetries.py:25-98) and what
    SetupQPoint does to it (symmetries.py:520-621).

    A QE_Symmetry fixes, when it is built, the structure-derived arrays
    QE_nat, QE_tau, QE_ityp, QE_at and QE_bg (a `Setting`); its symmetry
    tables (a `SymState`) are what the other methods rewrite.
 */
module QEState {
  import opened Wrappers
  import opened Matrices
  import opened Numerics
  import opened Oracles
  import opened SymmetryTables

  /** The arrays the constructor computes once, with the foreign code the
      object calls. */
  datatype Setting = Setting(
    lib: Symph,
    geo: Geometry,
    natoms: nat,       // QE_nat
    tau: Mat,          // QE_tau(3, nat): the atomic positions, one column per atom
    ityp: seq<int>,    // QE_ityp: species numbers from 1
    at: Mat,           // QE_at: the transposed unit cell
    bg: Mat)           // QE_bg: the transposed reciprocal vectors over 2 pi

  /** The symmetry tables: QE_s, QE_ft, QE_irt, QE_invs, QE_rtau,
      QE_minus_q, QE_irotmq, QE_nsymq, QE_nsym, and the attribute
      `QE_minusq` that InitFromSymmetries sets (None while it does not
      exist). */
  datatype SymState = SymState(
    s: Rotations,
    ft: Translations,
    irt: AtomMaps,
    invs: Inverses,
    rtau: Shifts,
    minusQ: bool,
    irotmq: int,
    nsymq: nat,
    nsym: int,
    minusqTypo: Option<bool>)

  /** The zero-filled tables of a new object (symmetries.py:60-71). */
  function Initial(nat_: nat): (st: SymState)
    ensures st.nsymq == 0 && !st.minusQ && st.irotmq == 0 && st.minusqTypo.None?
    ensures forall k :: 0 <= k < 48 ==> |st.irt[k]| == nat_ && |st.rtau[k]| == nat_
  {
    SymState(
      seq(48, _ => seq(3, _ => seq(3, _ => 0))),
      seq(48, _ => seq(3, _ => 0.0)),
      seq(48, _ => seq(nat_, _ => 0)),
      seq(48, _ => 0),
      seq(48, _ => seq(nat_, _ => seq(3, _ => 0.0))),
      false, 0, 0, 0, None)
  }

  /** The arrays the Fortran routines are handed. */
  function Data(fx: Setting, st: SymState): SymData
  {
    SymData(fx.at, fx.bg, st.nsymq, st.s, st.invs, st.irt, st.rtau, st.irotmq, st.minusQ, fx.natoms)
  }

  /** The default q point of SetupQPoint. */
  const Gamma: Vec := [0.0, 0.0, 0.0]

  // ---------------------------------------------------------------------
  // SetupQPoint

  /** `aq`: q in the crystal axes of QE_bg (symmetries.py:538). */
  function CrystalQ(fx: Setting, q: Vec): Vec
  {
    fx.geo.covariant(Transpose(fx.bg, 3, 3), q)
  }

  /** What the symmetry library finds for the small group of q
      (symmetries.py:541-598). */
  function SmallGroupOf(fx: Setting, q: Vec): SmallGroup
  {
    fx.lib.smallGroup(fx.at, fx.bg, fx.tau, fx.ityp, CrystalQ(fx, q))
  }

  /** The 3 x 4 blocks GetSymmetries lists once the small group is stored:
      a small group never has more than 48 operations, so it cannot fail. */
  function GroupBlocks(g: SmallGroup): (syms: seq<Mat>)
    ensures |syms| == g.nsymq
    ensures forall k :: 0 <= k < g.nsymq ==> syms[k] == SymmetryBlock(g.s[k], g.ft[k])
  {
    SymmetryList(g.s, g.ft, g.nsymq).value
  }

  /** QE_irotmq after SetupQPoint (symmetries.py:602-621): one more than
      the first operation that fixes the folded q, when the small group
      contains -q; otherwise the value it had before. */
  function IrotmqAfter(g: SmallGroup, aq: Vec, previous: int): int
  {
    if !g.minusQ then previous
    else match MinusQOperation(GroupBlocks(g), aq)
      case Some(k) => k + 1
      case None => previous
  }

  /** The tables after SetupQPoint(q) for a three-component q. */
  function AfterSetup(fx: Setting, st: SymState, q: Vec): SymState
  {
    var g := SmallGroupOf(fx, q);
    SymState(g.s, g.ft, g.irt, g.invs, g.rtau, g.minusQ, IrotmqAfter(g, CrystalQ(fx, q), st.irotmq),
             g.nsymq, g.nrot, st.minusqTypo)
  }

  /** SetupQPoint(q): the new tables and whether it raised. */
  function SetupResult(fx: Setting, st: SymState, q: Vec): (SymState, Outcome)
  {
    if |q| != 3 then (st, Fail(QPointNot3D)) else (AfterSetup(fx, st, q), Pass)
  }

  // ---------------------------------------------------------------------
  // Properties

  /** SetupQPoint raises exactly for a q point that is not three-dimensional,
      and then changes nothing; otherwise the small group's tables replace
      the old ones. */
  lemma SetupQPointChecksDimension(fx: Setting, st: SymState, q: Vec)
    ensures SetupResult(fx, st, q).1.Fail? <==> |q| != 3
    ensures |q| != 3 ==> SetupResult(fx, st, q) == (st, Fail(QPointNot3D))
    ensures |q| == 3 ==> var st' := SetupResult(fx, st, q).0;
      var g := SmallGroupOf(fx, q);
      st'.s == g.s && st'.ft == g.ft && st'.irt == g.irt && st'.invs == g.invs && st'.rtau == g.rtau &&
      st'.nsymq == g.nsymq && st'.minusQ == g.minusQ && st'.minusqTypo == st.minusqTypo
  {
  }

  /** When the small group contains -q, QE_irotmq becomes one more than the
      index of the first listed operation whose rotation maps the folded
      q onto itself within the tolerance; the operations before it do
      not.  Otherwise, or when no operation qualifies, QE_irotmq keeps its
      previous (possibly stale) value. */
  lemma SetupQPointFindsMinusQ(g: SmallGroup, aq: Vec, previous: int)
    ensures var syms := GroupBlocks(g);
      var r := IrotmqAfter(g, aq, previous);
      (g.minusQ && (exists k :: 0 <= k < g.nsymq && FixesFoldedQ(syms[k], aq)) ==>
         1 <= r <= g.nsymq && FixesFoldedQ(syms[r - 1], aq) &&
         forall j :: 0 <= j < r - 1 ==> !FixesFoldedQ(syms[j], aq)) &&
      (!g.minusQ || (forall k :: 0 <= k < g.nsymq ==> !FixesFoldedQ(syms[k], aq)) ==> r == previous)
  {
    var syms := GroupBlocks(g);
    var p := FixesFoldedQAt(syms, aq);
    if g.minusQ && exists k :: 0 <= k < g.nsymq && FixesFoldedQ(syms[k], aq) {
      var k :| 0 <= k < g.nsymq && FixesFoldedQ(syms[k], aq);
      assert p(k);
      var m := MinusQOperation(syms, aq);
      assert m.Some?;
      assert m.value < |syms| && p(m.value);
      assert IrotmqAfter(g, aq, previous) == m.value + 1;
      forall j | 0 <= j < m.value ensures !FixesFoldedQ(syms[j], aq) {
        assert !p(j);
      }
    }
    if g.minusQ && forall k :: 0 <= k < g.nsymq ==> !FixesFoldedQ(syms[k], aq) {
      assert forall j: nat :: j < |syms| ==> !p(j);
    }
  }

  /** Setting up the same q point twice is setting it up once: the second
      search finds the same operation, or again none. */
  lemma SetupQPointIdempotent(fx: Setting, st: SymState, q: Vec)
    ensures AfterSetup(fx, AfterSetup(fx, st, q), q) == AfterSetup(fx, st, q)
  {
    var g, aq := SmallGroupOf(fx, q), CrystalQ(fx, q);
    assert IrotmqAfter(g, aq, IrotmqAfter(g, aq, st.irotmq)) == IrotmqAfter(g, aq, st.irotmq);
  }

  /** The fold the minus-q search applies to q and to its images: every
      component lands in [0, 1), points one lattice vector apart fold to
      the same point, and folding twice is folding once. */
  lemma FoldedSearchIsPeriodic(aq: Vec, n: int)
    ensures forall i :: 0 <= i < 3 ==> 0.0 <= Fold3(aq)[i] < 1.0
    ensures Fold3(Fold3(aq)) == Fold3(aq)
    ensures forall i :: 0 <= i < 3 ==> Fold(VAt(aq, i) + n as real) == Fold3(aq)[i]
  {
    FoldedQInCell(aq);
    forall i | 0 <= i < 3 ensures Fold(VAt(aq, i) + n as real) == Fold3(aq)[i] {
      FoldPeriodic(VAt(aq, i), n);
    }
  }
}
