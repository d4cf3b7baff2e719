/** The code the modelled Python calls but does not contain.

    - `Geometry` stands for the `Methods.*` helpers, the geometric
      routines of Structure.py and numpy's matrix inverse.
    - `Symph` stands for the Fortran module `symph` (Quantum ESPRESSO's
      `symm_base`, `star_q`, `q2qstar_out`, `symdynph_gq_new`, `set_asr`,
      `symvector`, `cryst_to_cart`).

    Each routine is a function-typed field: the model calls it and
    assumes nothing about what it returns beyond the fixed Fortran array
    shapes written into the types below.
 */
module Oracles {
  import opened Matrices
  import opened Numerics
  import opened Structures

  /** Maximum number of symmetry operations in a Fortran table. */
  const MaxSymmetries: nat := 48

  /** `s(3, 3, 48)`: Rotations[k] is the matrix s(:, :, k+1). */
  type Rotations = t: seq<IMat> | |t| == 48 witness seq(48, _ => [])

  /** `ft(3, 48)`: Translations[k] is the column ft(:, k+1). */
  type Translations = t: seq<Vec> | |t| == 48 witness seq(48, _ => [])

  /** `invs(48)` */
  type Inverses = t: seq<int> | |t| == 48 witness seq(48, _ => 0)

  /** `irt(48, nat)`: AtomMaps[k][i] is the (1-based) atom that operation
      k+1 sends atom i+1 to. */
  type AtomMaps = t: seq<seq<int>> | |t| == 48 witness seq(48, _ => [])

  /** `rtau(3, 48, nat)`: Shifts[k][i] is the column rtau(:, k+1, i+1). */
  type Shifts = t: seq<seq<Vec>> | |t| == 48 witness seq(48, _ => [])

  /** The star of a q point as `star_q` returns it: `sxq[:, :nq_new]`.  It
      holds at least q itself (the caller's `while` loop relies on it). */
  type Star = t: seq<Vec> | |t| > 0 witness [[]]

  type PositiveReal = r: real | r > 0.0 witness 1.0

  /** A number of operations that fits the Fortran tables. */
  type SymCount = n: int | 0 <= n <= 48

  /** The effective-charge array in Fortran order, `f_zeu(3, 3, nat)`:
      FZeu[a][b][na] is f_zeu(a+1, b+1, na+1). */
  type FZeu = seq<seq<seq<real>>>

  datatype Geometry = Geometry(
    /** `Methods.get_min_dist_into_cell(bg, v1, v2)` */
    minDist: (Mat, Vec, Vec) -> real,
    /** `Methods.covariant_coordinates(basis, v)` */
    covariant: (Mat, Vec) -> Vec,
    /** `Methods.put_into_cell(bg, v)` */
    putIntoCell: (Mat, Vec) -> Vec,
    /** `Methods.get_reciprocal_vectors(cell)` */
    reciprocal: Mat -> Mat,
    /** `structure.get_reciprocal_vectors()` for a structure with this cell */
    structureReciprocal: Mat -> Mat,
    /** 2 * numpy.pi */
    twoPi: PositiveReal,
    /** `Methods.convert_matrix_cart_cryst(m, cell, False)` */
    cartToCryst: (Mat, Mat) -> Mat,
    /** `Methods.convert_matrix_cart_cryst(m, cell, True)` */
    crystToCart: (Mat, Mat) -> Mat,
    /** `numpy.linalg.inv` */
    inverse: Mat -> Mat,
    /** the coordinates of `s.copy()` after `apply_symmetry(sym, delete_original = True)`
        and `fix_coords_in_unit_cell()` */
    symmetryImage: (StructureValue, Mat) -> seq<Vec>,
    /** `structure.get_equivalent_atoms(other)` for `other` with these coordinates */
    equivalentAtoms: (StructureValue, seq<Vec>) -> seq<int>)

  /** What `SetupQPoint` copies out of `symm_base` after `set_at_bg`,
      `set_sym_bl`, `find_sym`, `smallg_q`, `copy_sym` and `inverse_s`,
      and the `rtau` of `sgam_ph_new`. */
  datatype SmallGroup = SmallGroup(
    s: Rotations,
    ft: Translations,
    nrot: int,
    minusQ: bool,
    nsymq: SymCount,
    invs: Inverses,
    irt: AtomMaps,
    rtau: Shifts)

  /** The symmetry data the Fortran routines read from a QE_Symmetry. */
  datatype SymData = SymData(
    at: Mat,
    bg: Mat,
    nsymq: int,
    s: Rotations,
    invs: Inverses,
    irt: AtomMaps,
    rtau: Shifts,
    irotmq: int,
    minusQ: bool,
    nat: int)

  /** `star_q`: the star, `isq` and `imq`. */
  datatype StarOfQ = StarOfQ(sxq: Star, isq: seq<int>, imq: int)

  datatype Symph = Symph(
    /** the small group of q, given (at, bg, tau, ityp, q in crystal axes) */
    smallGroup: (Mat, Mat, Mat, seq<int>, Vec) -> SmallGroup,
    /** `star_q(q, at, bg, nsymq, s, invs, 0)` */
    starQ: (Vec, Mat, Mat, int, Rotations, Inverses) -> StarOfQ,
    /** `q2qstar_out(dyn, ...)`: dyn_star, the matrix at every point of
        the star as a grid of 3 x 3 blocks, one grid per star member */
    q2qstar: (Mat, SymData, StarOfQ) -> seq<BlockGrid>,
    /** `set_asr(asr, axis, tau, QE_fc, f_zeu)`: the new QE_fc and f_zeu */
    setAsr: (string, int, Mat, BlockGrid, FZeu) -> (BlockGrid, FZeu),
    /** `symdynph_gq_new(xq, QE_dyn, ...)`: the new QE_dyn */
    symdyn: (Vec, BlockGrid, SymData) -> BlockGrid,
    /** `symvector(nsymq, irt, s, at, bg, v, nat)` on v(3, nat): the new v */
    symvector: (SymData, Mat) -> Mat,
    /** `cryst_to_cart(v, trmat, iflag)` on v(3, n): the new v */
    crystToCart: (Mat, Mat, int) -> Mat)
}
