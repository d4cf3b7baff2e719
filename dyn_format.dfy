/** What the reader (`Phonons.LoadFromQE`) and the writer
    (`Phonons.save_qe`) of Quantum ESPRESSO dynamical-matrix files share:
    unit factors, the block headers, complex matrix entries and the
    number conversions.

    Numbers in a file are tokens: `float(token)` and the `"%.<p>f"`
    formats are the oracles of `Numbers`.  A field width (`"%12.8f"`) is
    the format without width padded on the left, which is what Python
    does for any number whose text is shorter than the width.
 */
module DynFormat {
  import opened Wrappers
  import opened Matrices
  import opened Text

  /** `BOHR_TO_ANGSTROM` (Phonons.py:15) */
  const BohrToAngstrom: real := 0.52918

  /** `A_TO_BOHR` of save_qe (Phonons.py:656) */
  const AngstromToBohr: real := 1.889725989

  /** The text the reader looks for before the first matrix: two spaces
      between the words. */
  const ReadHeader: string := "Dynamical  Matrix in cartesian axes"

  /** The title save_qe gives a block AS WRITTEN (Phonons.py:724): one
      space between the words, so the reader does not find it. */
  const BlockTitle: string := "Dynamical Matrix in cartesian axes"

  /** The block header save_qe emits as written: the title after five
      spaces. */
  const WrittenHeader: string := "     " + BlockTitle

  /** The block header as Quantum ESPRESSO writes it and the reader looks
      for it: the reader's text after five spaces.  This is the header
      save_qe means to write. */
  const BlockHeader: string := "     " + ReadHeader

  /** The line the writer puts after the last block of a file. */
  const DiagonalizingLine: string := "     Diagonalizing the dynamical matrix"

  datatype Complex = Complex(re: real, im: real)

  const CZero: Complex := Complex(0.0, 0.0)

  /** A complex matrix, row by row. */
  type CMat = seq<seq<Complex>>

  predicate IsCMatrix(m: CMat, n: nat)
  {
    |m| == n && forall i :: 0 <= i < n ==> |m[i]| == n
  }

  /** `np.zeros((n, n), dtype = np.complex64)` */
  function CZeros(n: nat): (m: CMat)
    ensures IsCMatrix(m, n)
  {
    seq(n, _ => seq(n, _ => CZero))
  }

  datatype Numbers = Numbers(
    /** `float(s)`; None when Python raises a ValueError */
    parseFloat: string -> Option<real>,
    /** `"%.<p>f" % x` */
    fixed: (real, nat) -> string)

  /** What the reader needs of the formats to read the writer's numbers
      back: a formatted float is one field, without quotes or
      parentheses, that `float()` accepts, and `float()` reads a written
      integer as that integer. */
  ghost predicate Readable(num: Numbers)
  {
    (forall x, p :: IsWord(num.fixed(x, p)) && '\'' !in num.fixed(x, p) && '(' !in num.fixed(x, p) &&
                    ')' !in num.fixed(x, p) && num.parseFloat(num.fixed(x, p)).Some?) &&
    (forall n: int :: num.parseFloat(ShowInt(n)) == Some(n as real))
  }

  /** The name of file iq (from 0) of a set: `prefix + str(iq + 1)`
      (`"%s%i"` in the reader), or the prefix itself with `full_name`. */
  function FileName(prefix: string, iq: nat, fullName: bool): string
  {
    if fullName then prefix else prefix + ShowInt(iq + 1)
  }
}
