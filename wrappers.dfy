/** Failure-carrying results shared by every module of the model.

    The Python code signals failures by raising exceptions (mostly
    `ValueError`, sometimes an `IndexError`, `KeyError` or `TypeError`
    that escapes from list, dictionary or array access).  Each raise site
    of the modelled code becomes one constructor of `Error`, so a contract
    can say exactly which failure a given input produces.
 */
module Wrappers {

  datatype Option<+T> = None | Some(value: T)

  /** One constructor per raise site (or per escaping built-in exception). */
  datatype Error =
    // symmetries.py
    | NoUnitCell                  // structure without a unit cell
    | QPointNot3D                 // SetupQPoint: len(q_point) != 3
    | SymmetriesNotInitialised    // ForceSymmetry: QE_nsymq == 0
    | StarSizeMismatch            // ApplyQStar: QE star size != len(q star)
    | StarMatchCount(count: nat)  // ApplyQStar: a q has zero or several matches
    | FcqLengthMismatch           // SymmetrizeFCQ: fcq and q_stars disagree
    | UnknownAsrMode              // SymmetrizeFCQ: asr not simple/crystal/custom/no
    | NotSquare                   // CustomASR: matrix not square
    | NotMultipleOfThree          // CustomASR: side not divisible by 3
    | MissingTranslations         // GetSymmetriesFromSPGLIB: no 'translations' key
    | MissingRotations            // GetSymmetriesFromSPGLIB: no 'rotations' key
    | QPointFoundTwice            // GetQGrid: two grid points coincide
    | TooManySymmetries           // InitFromSymmetries: more than 48 operations
    | EmptyArgmin                 // SetupQStar: np.argmin of an emptied q list
    // Phonons.py
    | BadNqirr                    // LoadFromQE: nqirr <= 0
    | FullNameNeedsGamma          // LoadFromQE: full_name with nqirr > 1
    | MissingFile(path: string)   // LoadFromQE: file does not exist
    | UnsupportedIbrav            // LoadFromQE: ibrav != 0
    | EmptyStructure              // Phonons(structure): N_atoms <= 0
    | NotIterable                 // Phonons(structure): `for i in nqirr`
    | NoStructure                 // attribute access on a missing structure
    | NoNqirr                     // CheckCompatibility: `other.nqirr` on an object without it
    // built-in exceptions escaping from the Python code
    | IndexError
    | KeyError
    | ParseError                  // int(...) or float(...) of a malformed field
    | BadShape                    // numpy cannot broadcast or allocate an array

  datatype Result<+T> = Ok(value: T) | Err(error: Error)

  /** The outcome of an operation that returns nothing but may raise. */
  datatype Outcome = Pass | Fail(error: Error)
}
