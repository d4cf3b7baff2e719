# CellConstructor symmetry bookkeeping and QE dynamical-matrix files, in Dafny

This project models two parts of CellConstructor, a Python package for
crystal structures and their phonons.

The first part is `symmetries.py` (`build/lib.linux-x86_64-2.7/cellconstructor/symmetries.py`):

- The `QE_Symmetry` class holds the symmetry tables in the layout of Quantum
  ESPRESSO: rotations `QE_s`, fractional translations `QE_ft`, the atom
  permutations `QE_irt`, the inverses `QE_invs`, the shifts `QE_rtau`,
  `QE_nsymq`, and the `QE_minus_q`/`QE_irotmq` pair. The model is the class
  `QESymmetries.QESymmetry`. Its fields are the Python object's fields, and its
  methods update them in place.
- On top of those tables the class offers star construction (`SetupQStar`),
  averaging over a star (`ApplyQStar`), symmetrisation of force-constant
  stacks, vectors and dynamical matrices, the acoustic sum rule, and the
  symmetrisation of atomic positions (`ForceSymmetry`).
- The module-level helpers are also modelled: `CustomASR`,
  `GetSymmetriesFromSPGLIB`, `GetQGrid`, `CheckSupercellQ` and
  `GetISOTROPYFindSymInput`.

The second part is the `Phonons` class of `cellconstructor/Phonons.py`:

- its constructor checks;
- `LoadFromQE`, which reads the Quantum ESPRESSO `dynN` files;
- `save_qe`, which writes them;
- `CheckCompatibility` and `Copy`.

The model is the class `PhononsModel.Phonons`. Each state-changing method is
proved against a pure specification function. The reader is specified by
`DynRead`/`DynLoad` and the writer by `DynWrite`. On the symmetry side,
`QEState`, `QEInit`, `QEForce`, `QEFcq`, `QStars` and `StarAverage` are the
specification modules.

Calls into code outside the model become function-valued parameters. These
"oracles" are:

- `Symph`: the Fortran `symph` library;
- `Geometry`: the `Methods` helpers, such as the reciprocal cell and the
  crystal/Cartesian conversions;
- `Numbers`: float parsing and formatting;
- `Dyag`: `DyagDinQ`.

The properties are proved for every possible oracle, or under an explicitly
stated predicate about it (for example `SymdynKeeps` or `SetAsrKeeps`).

Files are modelled as `map<string, seq<string>>` from file name to lines.
Writing returns the list of (file name, lines) pairs instead of touching a
disk.

## Model

| member | source | states |
|---|---|---|
| AcousticSumRule.CustomASR | build/lib.linux-x86_64-2.7/cellconstructor/symmetries.py:884-919 | It fails with NotSquare or NotMultipleOfThree, or with IndexError on an empty 0x0 matrix (the first row read at line 907), and then leaves the matrix untouched. It succeeds exactly when the matrix is non-empty, square, with a side divisible by 3, and the matrix then becomes P·F·P, where P is the translation projector. |
| AcousticSumRule.StartProjector | build/lib.linux-x86_64-2.7/cellconstructor/symmetries.py:909 | The loop's starting matrix, the identity, is the projector with no translation removed yet. |
| AcousticSumRule.StepProjector | build/lib.linux-x86_64-2.7/cellconstructor/symmetries.py:910-915 | Subtracting the normalised outer product of translation d removes one more translation direction from the partial projector. |
| AcousticSumRule.FinishProjector | build/lib.linux-x86_64-2.7/cellconstructor/symmetries.py:909-915 | After the three directions the accumulated matrix is the full projector onto the complement of the rigid translations. |
| AcousticSumRule.TranslationNorm | build/lib.linux-x86_64-2.7/cellconstructor/symmetries.py:911-913 | The squared norm of a rigid-translation vector is the number of atoms. |
| AcousticSumRule.OuterOfTranslation | build/lib.linux-x86_64-2.7/cellconstructor/symmetries.py:913-915 | The normalised outer product of translation d has entry 1/nat exactly where both indices point along direction d, and 0 elsewhere. |
| AcousticSumRule.TimesProjector | build/lib.linux-x86_64-2.7/cellconstructor/symmetries.py:919 | Multiplying by the projector on the right subtracts the row's per-direction class sum, scaled by 1/nat, from each entry. |
| AcousticSumRule.ProjectorTimes | build/lib.linux-x86_64-2.7/cellconstructor/symmetries.py:919 | Multiplying by the projector on the left subtracts the column's per-direction class sum, scaled by 1/nat. |
| AcousticSumRule.RowClassesVanishAfterProjection | build/lib.linux-x86_64-2.7/cellconstructor/symmetries.py:919 | After F·P, every row sums to zero over the atoms along each direction. |
| AcousticSumRule.ColClassesVanishAfterProjection | build/lib.linux-x86_64-2.7/cellconstructor/symmetries.py:919 | After P·F, every column sums to zero over the atoms along each direction. |
| AcousticSumRule.ProjectorKeepsRowClassesZero | build/lib.linux-x86_64-2.7/cellconstructor/symmetries.py:919 | Multiplying on the left by the projector does not spoil row sums that are already zero. |
| AcousticSumRule.ProjectorFixesRight | build/lib.linux-x86_64-2.7/cellconstructor/symmetries.py:919 | A matrix whose rows already obey the sum rule is unchanged by F·P. |
| AcousticSumRule.ProjectorFixesLeft | build/lib.linux-x86_64-2.7/cellconstructor/symmetries.py:919 | A matrix whose columns already obey the sum rule is unchanged by P·F. |
| AcousticSumRule.SandwichClassesVanish | build/lib.linux-x86_64-2.7/cellconstructor/symmetries.py:919 | In P·F·P both the row and the column class sums vanish. |
| AcousticSumRule.SandwichObeysSumRule | build/lib.linux-x86_64-2.7/cellconstructor/symmetries.py:884-919 | The result of the custom rule always satisfies the acoustic sum rule. |
| AcousticSumRule.SandwichFixesSumRuleMatrices | build/lib.linux-x86_64-2.7/cellconstructor/symmetries.py:884-919 | A matrix that already satisfies the sum rule is returned unchanged. |
| AcousticSumRule.SandwichIdempotent | build/lib.linux-x86_64-2.7/cellconstructor/symmetries.py:884-919 | Applying the custom rule twice gives the same result as applying it once. |
| Species.RankSpecies | build/lib.linux-x86_64-2.7/cellconstructor/symmetries.py:77-86 | The loop that hands out type numbers yields exactly the first-appearance ranks of the atom labels. |
| Species.RankOne | build/lib.linux-x86_64-2.7/cellconstructor/symmetries.py:81-86 | One pass of the loop keeps the dictionary and counter consistent with the ranks of the atoms seen so far, and returns this atom's rank. |
| Species.RankTableKeep | build/lib.linux-x86_64-2.7/cellconstructor/symmetries.py:82-86 | A label already in the dictionary gets its stored number, and that number is its rank. |
| Species.RankTableAdd | build/lib.linux-x86_64-2.7/cellconstructor/symmetries.py:82-86 | A new label gets the current counter, which equals its rank. The counter then advances. |
| Species.Seen | cellconstructor/Phonons.py:678-683 | The species list built from a prefix of the atoms holds exactly the labels of that prefix, without repeats. |
| Species.FirstAppearance | cellconstructor/Phonons.py:678-683 | The species list holds exactly the labels that occur among the atoms, each once. |
| Species.SpeciesList | cellconstructor/Phonons.py:678-683 | The writer's loop builds the species list in order of first appearance. |
| Species.RanksSeparateSpecies | build/lib.linux-x86_64-2.7/cellconstructor/symmetries.py:77-86 | Two atoms get the same type number if and only if they carry the same label. |
| Species.RanksAreOneToCount | build/lib.linux-x86_64-2.7/cellconstructor/symmetries.py:77-86 | The type numbers run over exactly 1 to the number of distinct species. |
| Species.RanksByFirstAppearance | build/lib.linux-x86_64-2.7/cellconstructor/symmetries.py:81-86 | An atom whose label is new gets one more than the number of species seen before it. |
| Structures.Structure.constructor | cellconstructor/Phonons.py:119 | A new structure is empty: no atoms, no unit cell, and no masses. |
| Structures.Structure.SetTo | cellconstructor/Phonons.py:152-173 | After the header fields are written, the structure holds exactly the given value. |
| Structures.Structure.Copy | cellconstructor/Phonons.py:300 | The copy is a fresh object with the same contents. |
| SpglibImport.Operation | build/lib.linux-x86_64-2.7/cellconstructor/symmetries.py:869-871 | Each 3x4 operation has the spglib rotation in its first three columns and the translation, regularised or not, in the fourth. |
| SpglibImport.GetSymmetriesFromSpglib | build/lib.linux-x86_64-2.7/cellconstructor/symmetries.py:853-882 | The loop returns the list of operations given by the specification function `Imported`. |
| SpglibImport.ImportedCases | build/lib.linux-x86_64-2.7/cellconstructor/symmetries.py:854-871 | A missing translations key raises first, then a missing rotations key. Otherwise there is one operation per translation, built from the matching rotation. |
| SpglibImport.PlainTranslations | build/lib.linux-x86_64-2.7/cellconstructor/symmetries.py:871 | Without regularisation the fourth column is the spglib translation unchanged. |
| SpglibImport.RegulariseHalf | build/lib.linux-x86_64-2.7/cellconstructor/symmetries.py:874-878 | A regularised translation component is always 0 or 1/2. |
| SpglibImport.RegulariseNearest | build/lib.linux-x86_64-2.7/cellconstructor/symmetries.py:874-878 | The regularised value is, up to a whole lattice vector, within 1/4 of the original. |
| SpglibImport.RegulariseFixed | build/lib.linux-x86_64-2.7/cellconstructor/symmetries.py:874-878 | The values 0 and 1/2 are left as they are. |
| SpglibImport.RegulariseIdempotent | build/lib.linux-x86_64-2.7/cellconstructor/symmetries.py:874-878 | Regularising twice gives the same result as regularising once. |
| SpglibImport.RegularisePeriodic | build/lib.linux-x86_64-2.7/cellconstructor/symmetries.py:874-878 | Shifting a translation by a whole lattice vector does not change its regularised value. |
| SpglibImport.RegularisedTranslations | build/lib.linux-x86_64-2.7/cellconstructor/symmetries.py:874-878 | With regularisation on, every imported translation component is 0 or 1/2. |
| SpglibImport.Imported | build/lib.linux-x86_64-2.7/cellconstructor/symmetries.py:853-882 | Specification of `GetSymmetriesFromSPGLIB`; its meaning is ImportedCases, PlainTranslations and RegularisedTranslations. |
| SpglibImport.Regularise | build/lib.linux-x86_64-2.7/cellconstructor/symmetries.py:874-878 | Specification of one regularised component; its meaning is RegulariseHalf, RegulariseNearest, RegulariseFixed, RegulariseIdempotent and RegularisePeriodic. |
| Numerics.Trunc | build/lib.linux-x86_64-2.7/cellconstructor/symmetries.py:607 | Conversion to an integer rounds toward zero, on both sides of zero. |
| Numerics.ModOne | build/lib.linux-x86_64-2.7/cellconstructor/symmetries.py:878 | Python's `% 1` lands in [0, 1) and differs from its argument by an integer. |
| Numerics.FoldIsFraction | build/lib.linux-x86_64-2.7/cellconstructor/symmetries.py:606-609 | Folding a coordinate into the cell is the fractional part, which lies in [0, 1). |
| Numerics.FoldIdempotent | build/lib.linux-x86_64-2.7/cellconstructor/symmetries.py:606-609 | Folding a folded coordinate changes nothing. |
| Numerics.FoldPeriodic | build/lib.linux-x86_64-2.7/cellconstructor/symmetries.py:606-609 | Coordinates that differ by an integer fold to the same value. |
| Numerics.ArgMin | build/lib.linux-x86_64-2.7/cellconstructor/symmetries.py:194-203 | numpy's argmin gives the first position holding the minimum. |
| Numerics.NumpyIndex | cellconstructor/Phonons.py:227 | An index is valid exactly when it lies in [-n, n). A negative index counts from the end. |
| SymmetryTables.SymmetryRoundTrip | build/lib.linux-x86_64-2.7/cellconstructor/symmetries.py:694-696 | A symmetry stored in the integer table and read back has its rotation truncated and the stored translation attached. For an integral rotation it comes back unchanged if and only if the translations agree. |
| SymmetryTables.FoldedQInCell | build/lib.linux-x86_64-2.7/cellconstructor/symmetries.py:606-609 | The folded q point has all coordinates in [0, 1), and folding it again changes nothing. |
| SymmetryTables.InverseIndex | build/lib.linux-x86_64-2.7/cellconstructor/symmetries.py:650-655 | The index is the first symmetry that is the inverse. If there is none, the loop variable keeps its last value, the last index. |
| SymmetryTables.ZeuComesBackTransposed | build/lib.linux-x86_64-2.7/cellconstructor/symmetries.py:488-510 | Packing the effective charges for the library and copying them back transposes every 3x3 block. |
| SymmetryTables.ZeuRoundTripIffSymmetric | build/lib.linux-x86_64-2.7/cellconstructor/symmetries.py:488-510 | The charges survive the round trip if and only if every block is symmetric. |
| SymmetryTables.FoldIntoCell | build/lib.linux-x86_64-2.7/cellconstructor/symmetries.py:606-609 | The loop folds each coordinate of the vector into the cell. |
| SymmetryTables.FixingOperation | build/lib.linux-x86_64-2.7/cellconstructor/symmetries.py:611-621 | The search with `break` finds the first symmetry whose image matches the folded q point, or none. |
| SymmetryTables.MinusQSearch | build/lib.linux-x86_64-2.7/cellconstructor/symmetries.py:670-676 | The search with `break` finds the first operation that sends q to -q, comparing along the first axis as written, or none. |
| SymmetryTables.InverseSearch | build/lib.linux-x86_64-2.7/cellconstructor/symmetries.py:650-655 | The loop computes the inverse index, including the fall-through to the last index. |
| SymmetryTables.MinusQByFirstAxis | build/lib.linux-x86_64-2.7/cellconstructor/symmetries.py:670-676 | Specification of the minus-q search as written; its meaning is MinusQSearch and QEInit.InitFromSymmetriesMinusQ. |
| SymmetryTables.PackZeu | build/lib.linux-x86_64-2.7/cellconstructor/symmetries.py:488 | Specification of the `einsum` packing; its meaning is ZeuComesBackTransposed and ZeuRoundTripIffSymmetric. |
| SymmetryTables.UnpackZeu | build/lib.linux-x86_64-2.7/cellconstructor/symmetries.py:510 | Specification of the copy back; its meaning is ZeuComesBackTransposed and ZeuRoundTripIffSymmetric. |
| QEState.Initial | build/lib.linux-x86_64-2.7/cellconstructor/symmetries.py:60-71 | The tables start empty: no symmetries, minus-q off, `irotmq` 0, and every row sized for the atom count. |
| QEState.GroupBlocks | build/lib.linux-x86_64-2.7/cellconstructor/symmetries.py:692-700 | One 3x4 block per symmetry of the small group, built from its rotation and translation. |
| QEState.SetupQPointChecksDimension | build/lib.linux-x86_64-2.7/cellconstructor/symmetries.py:535-598 | A q point that is not 3-dimensional raises and changes nothing. Otherwise the tables are replaced by the small group of q, and `QE_minusq` is left alone. |
| QEState.SetupQPointFindsMinusQ | build/lib.linux-x86_64-2.7/cellconstructor/symmetries.py:602-621 | When minus-q is set and some symmetry fixes the folded q, `irotmq` becomes the 1-based index of the first one. Otherwise it keeps its previous value. |
| QEState.SetupQPointIdempotent | build/lib.linux-x86_64-2.7/cellconstructor/symmetries.py:520-621 | Setting up the same q point twice leaves the same state as setting it up once. |
| QEState.FoldedSearchIsPeriodic | build/lib.linux-x86_64-2.7/cellconstructor/symmetries.py:606-609 | The folded q lies in the cell, is stable under folding, and does not depend on integer shifts of q. |
| QEState.SetupResult | build/lib.linux-x86_64-2.7/cellconstructor/symmetries.py:520-621 | Specification of `SetupQPoint`; its meaning is SetupQPointChecksDimension, SetupQPointFindsMinusQ and SetupQPointIdempotent. |
| QESymmetries.ConstructorTables | build/lib.linux-x86_64-2.7/cellconstructor/symmetries.py:57-98 | The constructor gives equal species numbers exactly to equal labels, numbered 1 to the species count. `QE_tau` is the transposed coordinates and `QE_at` the transposed unit cell. |
| QESymmetries.TransposedCopy | build/lib.linux-x86_64-2.7/cellconstructor/symmetries.py:722-725 | The element-by-element copy into the Fortran buffer is the transpose of the vector array. |
| QESymmetries.WriteSlice | build/lib.linux-x86_64-2.7/cellconstructor/symmetries.py:329 | Writing the averaged star replaces exactly the slice [lo, lo+n) and keeps everything else. |
| QESymmetries.FlattenStars | build/lib.linux-x86_64-2.7/cellconstructor/symmetries.py:389-398 | The flattening loop returns `QPoints`: the stars concatenated in order, each q point broadcast to 3 components, or BadShape when one has neither 1 nor 3. |
| QESymmetries.QESymmetry.constructor | build/lib.linux-x86_64-2.7/cellconstructor/symmetries.py:48-98 | The object keeps the structure it was given, derives its settings from that structure, and starts from the initial tables. |
| QESymmetries.QESymmetry.New | build/lib.linux-x86_64-2.7/cellconstructor/symmetries.py:48-49 | Construction fails with NoUnitCell exactly when the structure has no unit cell. Otherwise the new object has the constructor's state. |
| QESymmetries.QESymmetry.GetSymmetries | build/lib.linux-x86_64-2.7/cellconstructor/symmetries.py:692-700 | The loop returns the first `QE_nsymq` table entries as 3x4 blocks. |
| QESymmetries.QESymmetry.SetupQPoint | build/lib.linux-x86_64-2.7/cellconstructor/symmetries.py:535-621 | The new tables and the outcome are those of the specification `SetupResult`, whose meaning is proved in the QEState lemmas. |
| QESymmetries.QESymmetry.InitPass | build/lib.linux-x86_64-2.7/cellconstructor/symmetries.py:638-659 | One iteration of the initialisation loop has the effect of the specification `InitEntry`. |
| QESymmetries.QESymmetry.StoreEntry | build/lib.linux-x86_64-2.7/cellconstructor/symmetries.py:639-659 | Exactly entry i of the rotation, permutation, inverse and shift tables is replaced. |
| QESymmetries.QESymmetry.StoreGroup | build/lib.linux-x86_64-2.7/cellconstructor/symmetries.py:551-598 | The tables are replaced by the small group's tables, and nothing else changes. |
| QESymmetries.QESymmetry.InitFromSymmetries | build/lib.linux-x86_64-2.7/cellconstructor/symmetries.py:633-676 | The state and outcome are those of the specification `InitResult`, whose meaning is proved in the QEInit lemmas. |
| QESymmetries.QESymmetry.MinusQStep | build/lib.linux-x86_64-2.7/cellconstructor/symmetries.py:663-676 | The minus-q stage, including the `QE_minusq` typo, updates the state as `MinusQStage` says. |
| QESymmetries.QESymmetry.SetupQStar | build/lib.linux-x86_64-2.7/cellconstructor/symmetries.py:158-208 | The tables are set up at Gamma, and the result is the star partition `StarsOf` of the q list. |
| QESymmetries.QESymmetry.MemberTerms | build/lib.linux-x86_64-2.7/cellconstructor/symmetries.py:237-322 | The per-member contribution is `MemberTerm`: a star of the wrong size or a matrix that is not 3·nat x 3·nat raises, otherwise the images are sorted onto the given order. |
| QESymmetries.QESymmetry.StarAverageOf | build/lib.linux-x86_64-2.7/cellconstructor/symmetries.py:237-326 | The accumulate-then-divide loop computes the star average `Average`. |
| QESymmetries.QESymmetry.ApplyQStar | build/lib.linux-x86_64-2.7/cellconstructor/symmetries.py:226-329 | The tables are set up at Gamma. On success the slice of the star is replaced by its average; on failure the stack is unchanged and the error is returned. |
| QESymmetries.QESymmetry.ImposeSumRule | build/lib.linux-x86_64-2.7/cellconstructor/symmetries.py:483-515 | The matrix, the outcome and the charges are those of `QELayout.SumRule`. The custom mode is `CustomASR` in place, with its errors, and leaves the charges alone (CustomSumRuleHolds). The other modes go through the library and succeed exactly when the array holds the 3·nat block, failing otherwise with BadShape (LibrarySumRuleShapes). A side that does not pack keeps the contents; at a side of 3·nat-2 the broadcast pack goes through and the charges and blocks before the first misfit are written (BroadcastSumRule). |
| QESymmetries.QESymmetry.SymmetrizeDynQ | build/lib.linux-x86_64-2.7/cellconstructor/symmetries.py:758-779 | The matrix and outcome are those of `QELayout.DynQ` (DynQOutcome). A matrix too small for the 3·nat block fails in the conversion loop, and a q point of the wrong shape fails after it; both fail with BadShape and leave the matrix unchanged. Otherwise the 3·nat block is replaced by the symmetrised matrix. |
| QESymmetries.QESymmetry.SymmetrizeVector | build/lib.linux-x86_64-2.7/cellconstructor/symmetries.py:720-732 | On success the vector array becomes the library-symmetrised one. On failure it is unchanged and the error is returned. |
| QESymmetries.QESymmetry.SymmetrizeEachQ | build/lib.linux-x86_64-2.7/cellconstructor/symmetries.py:404-434 | The per-q loop over a stack of rows x cols matrices has the effect of `PerQ` over the whole list, errors included (PerQFrame). |
| QESymmetries.QESymmetry.SymmetrizeAt | build/lib.linux-x86_64-2.7/cellconstructor/symmetries.py:404-434 | One iteration is `QStep` and advances `PerQ` by one q point; a failing sum rule leaves in matrix iq what it wrote. A failure is final. |
| QESymmetries.QESymmetry.AverageStars | build/lib.linux-x86_64-2.7/cellconstructor/symmetries.py:438-446 | The per-star loop has the effect of `PerStar` over all stars. |
| QESymmetries.QESymmetry.AverageAt | build/lib.linux-x86_64-2.7/cellconstructor/symmetries.py:438-446 | One iteration averages star i at its offset and advances `PerStar`. A failure is final. |
| QESymmetries.QESymmetry.SymmetrizeFCQ | build/lib.linux-x86_64-2.7/cellconstructor/symmetries.py:389-446 | The state and stack after the call are those of `Symmetrized`: a q point that is neither 1- nor 3-dimensional fails with BadShape, a length mismatch with FcqLengthMismatch, and the rest is proved in QEFcq.SymmetrizeFCQOutcome. |
| QESymmetries.QESymmetry.ForceSymmetry | build/lib.linux-x86_64-2.7/cellconstructor/symmetries.py:111-132 | On success the coordinates are replaced by the symmetry-averaged ones. On failure they are unchanged. Labels, cell and masses are never touched. |
| QEFcq.AsrAt | build/lib.linux-x86_64-2.7/cellconstructor/symmetries.py:416-424 | An unknown ASR mode is the only error. |
| QEFcq.SumRuleDispatch | build/lib.linux-x86_64-2.7/cellconstructor/symmetries.py:416-424 | The mode is accepted exactly when it is known. "custom" at Gamma is `CustomASR`: it succeeds exactly for a non-empty square matrix of side 3k, then obeys the sum rule, and otherwise fails with CustomASR's error and the matrix unchanged. "crystal", and "simple" at Gamma, are the library rule, which succeeds exactly when the matrix holds the 3·nat block and otherwise fails with BadShape, writing nothing when a side does not pack. "simple" and "custom" away from Gamma, and "no", leave the matrix alone. |
| QEFcq.QPoints | build/lib.linux-x86_64-2.7/cellconstructor/symmetries.py:389-398 | The flattened q list exists exactly when every q point has 1 or 3 components, and then each entry is that point broadcast to 3; otherwise it is BadShape. |
| QEFcq.Symmetrized | build/lib.linux-x86_64-2.7/cellconstructor/symmetries.py:389-446 | Specification of `SymmetrizeFCQ`; its meaning is SymmetrizeFCQOutcome. |
| QEFcq.QStep | build/lib.linux-x86_64-2.7/cellconstructor/symmetries.py:404-434 | Specification of one per-q iteration; its meaning is QStepFrame and PerQNext. |
| QEFcq.PerStar | build/lib.linux-x86_64-2.7/cellconstructor/symmetries.py:438-446 | Specification of the per-star loop; its meaning is PerStarNext, PerStarAverages and PerStarStopped. |
| QEFcq.PerQFrame | build/lib.linux-x86_64-2.7/cellconstructor/symmetries.py:404-434 | The first n steps touch only the first n matrices. A known mode on matrices that hold the 3·nat block (and, for "custom", are non-empty squares of side 3k) never fails. An unknown mode fails at the first q point with the stack untouched. A matrix too small for the library fails at the first q point, with every later matrix untouched. |
| QEFcq.QStepFrame | build/lib.linux-x86_64-2.7/cellconstructor/symmetries.py:404-434 | One step changes only matrix iq. It succeeds exactly for a known mode, a matrix holding the 3·nat block, and a successful sum rule. An unknown mode ends the step with the stack unchanged. A failing sum rule ends it with matrix iq as the sum rule left it. A matrix too small for the block after a successful sum rule ends it with BadShape and matrix iq as the sum rule left it. On success matrix iq is the symmetrised one. |
| QEFcq.PerQNext | build/lib.linux-x86_64-2.7/cellconstructor/symmetries.py:404-434 | After a successful prefix, the next step is one more q step. |
| QEFcq.PerQStopped | build/lib.linux-x86_64-2.7/cellconstructor/symmetries.py:404-434 | Once the per-q loop has failed, later iterations change nothing. |
| QEFcq.StarStepFromSlice | build/lib.linux-x86_64-2.7/cellconstructor/symmetries.py:438-446 | One star step is the Gamma setup followed by `ApplyQStar` on the star's slice. |
| QEFcq.PerStarNext | build/lib.linux-x86_64-2.7/cellconstructor/symmetries.py:438-446 | After a successful prefix, the next step averages the next star. |
| QEFcq.PerStarStopped | build/lib.linux-x86_64-2.7/cellconstructor/symmetries.py:438-446 | Once the per-star loop has failed, later iterations change nothing. |
| QEFcq.SplicePreserves | build/lib.linux-x86_64-2.7/cellconstructor/symmetries.py:442 | Writing star i's slice replaces that slice and leaves every other star's slice as it was. |
| QEFcq.SpliceWrites | build/lib.linux-x86_64-2.7/cellconstructor/symmetries.py:442 | Star i's slice reads back as what was written. |
| QEFcq.SpliceKeeps | build/lib.linux-x86_64-2.7/cellconstructor/symmetries.py:442 | Every other star's slice is unchanged. |
| QEFcq.PastSlices | build/lib.linux-x86_64-2.7/cellconstructor/symmetries.py:442 | Entries past star i are unchanged. |
| QEFcq.OffsetsIncrease | build/lib.linux-x86_64-2.7/cellconstructor/symmetries.py:438-446 | Star offsets do not decrease, so later stars lie after earlier ones. |
| QEFcq.StarStepAverages | build/lib.linux-x86_64-2.7/cellconstructor/symmetries.py:438-446 | A successful star step extends the "first j stars replaced by their averages" invariant to j+1. |
| QEFcq.PerStarAverages | build/lib.linux-x86_64-2.7/cellconstructor/symmetries.py:438-446 | A successful per-star loop leaves every processed star equal to the average of its original slice. |
| QEFcq.SymmetrizeFCQOutcome | build/lib.linux-x86_64-2.7/cellconstructor/symmetries.py:389-446 | A q point of the wrong shape fails with BadShape and a length mismatch with FcqLengthMismatch, both with nothing changed. An unknown mode fails at the first q point. Matrices too small for 3·nat blocks fail, leaving every matrix after the first untouched. On success every star's slice is the star average of its per-q-symmetrised slice, and every one of those matrices was 3·nat x 3·nat. |
| QEInit.AtomRow | build/lib.linux-x86_64-2.7/cellconstructor/symmetries.py:645-647 | The permutation row is the equivalent-atom list shifted to 1-based indices, broadcast when it has one entry, and an error for any other length. |
| QEInit.ShiftRow | build/lib.linux-x86_64-2.7/cellconstructor/symmetries.py:658-659 | The first entries of the shift row take the image; the rest keep their previous values. |
| QEInit.InitEntry | build/lib.linux-x86_64-2.7/cellconstructor/symmetries.py:638-659 | Specification of one initialisation pass; its meaning is InitEntryTables, InitEntryExtendsPrefix, InitEntryKeepsSuffix and InitEntryStores. |
| QEInit.InitEntryTables | build/lib.linux-x86_64-2.7/cellconstructor/symmetries.py:638-659 | One loop pass stores the rotation, the permutation, the 1-based inverse index and the shifts at position i. It fails when the image has too few atoms. |
| QEInit.StoredEntry | build/lib.linux-x86_64-2.7/cellconstructor/symmetries.py:638-659 | Every stored entry holds the truncated rotation, the atom permutation, the inverse and the image. |
| QEInit.InitEntryExtendsPrefix | build/lib.linux-x86_64-2.7/cellconstructor/symmetries.py:638-659 | A successful pass extends the stored prefix by one entry. |
| QEInit.InitEntryKeepsSuffix | build/lib.linux-x86_64-2.7/cellconstructor/symmetries.py:638-659 | Entries beyond the pass keep their old values. |
| QEInit.InitEntryStores | build/lib.linux-x86_64-2.7/cellconstructor/symmetries.py:638-659 | A successful pass preserves the loop invariant "prefix stored, suffix kept". |
| QEInit.InitLoopStores | build/lib.linux-x86_64-2.7/cellconstructor/symmetries.py:638-659 | A successful loop over n symmetries has stored all n of them, and n is at most 48. |
| QEInit.InitLoopStopped | build/lib.linux-x86_64-2.7/cellconstructor/symmetries.py:638-659 | After a failing pass, later iterations change nothing. |
| QEInit.InitLoopKeepsCount | build/lib.linux-x86_64-2.7/cellconstructor/symmetries.py:635-659 | The loop changes neither `QE_nsymq` nor the translations. |
| QEInit.InitFromSymmetriesStores | build/lib.linux-x86_64-2.7/cellconstructor/symmetries.py:633-659 | `QE_nsymq` becomes the number of symmetries; more than 48 fails. On success every symmetry is stored with its rotation, its 1-based atom permutation, its inverse and its shifts. |
| QEInit.InitFromSymmetriesMinusQ | build/lib.linux-x86_64-2.7/cellconstructor/symmetries.py:663-676 | The typo attribute is set to False. Minus-q is on exactly when it was before or an operation sends q to -q; `irotmq` is then that operation, 1-based. |
| QEInit.InitThenGetSymmetries | build/lib.linux-x86_64-2.7/cellconstructor/symmetries.py:638-700 | Reading the symmetries back gives one block per input. An integral input comes back unchanged exactly when its translation matches the stored one. |
| QEInit.InitResult | build/lib.linux-x86_64-2.7/cellconstructor/symmetries.py:633-676 | Specification of `InitFromSymmetries`; its meaning is InitFromSymmetriesStores, InitFromSymmetriesMinusQ and InitThenGetSymmetries. |
| QEInit.MinusQStage | build/lib.linux-x86_64-2.7/cellconstructor/symmetries.py:662-676 | Specification of the minus-q stage; its meaning is InitFromSymmetriesMinusQ. |
| QEForce.ScatterOkIff | build/lib.linux-x86_64-2.7/cellconstructor/symmetries.py:121-124 | The scatter loop succeeds exactly when every visited permutation entry points at an existing atom. |
| QEForce.ScatterErrors | build/lib.linux-x86_64-2.7/cellconstructor/symmetries.py:121-124 | The only error the scatter loop raises is IndexError. |
| QEForce.ScatterRowStopped | build/lib.linux-x86_64-2.7/cellconstructor/symmetries.py:121-124 | After an error inside one symmetry, the rest of that row changes nothing. |
| QEForce.ScatterStopped | build/lib.linux-x86_64-2.7/cellconstructor/symmetries.py:121-124 | After an error, later symmetries change nothing either. |
| QEForce.ForceSymmetryFails | build/lib.linux-x86_64-2.7/cellconstructor/symmetries.py:111-124 | With no symmetries set it raises. Otherwise it succeeds exactly when all permutation targets are valid, and raises IndexError when one is not. |
| QEForce.HitsOnce | build/lib.linux-x86_64-2.7/cellconstructor/symmetries.py:121-124 | When a symmetry permutes the atoms, each atom receives exactly one contribution from it. |
| QEForce.ScatterSymmetric | build/lib.linux-x86_64-2.7/cellconstructor/symmetries.py:121-124 | For symmetries that permute the atoms and map the structure onto itself, the scatter loop accumulates one copy of each atom's position per symmetry. |
| QEForce.AverageOfCopies | build/lib.linux-x86_64-2.7/cellconstructor/symmetries.py:126 | Dividing m accumulated copies by m gives the positions back. |
| QEForce.ForceSymmetryKeepsSymmetricStructure | build/lib.linux-x86_64-2.7/cellconstructor/symmetries.py:111-132 | A structure that already has every symmetry is left exactly as it was. |
| QEForce.ForcedCoords | build/lib.linux-x86_64-2.7/cellconstructor/symmetries.py:111-132 | Specification of `ForceSymmetry`; its meaning is ForceSymmetryFails and ForceSymmetryKeepsSymmetricStructure. |
| QEForce.Scatter | build/lib.linux-x86_64-2.7/cellconstructor/symmetries.py:121-124 | Specification of the scatter loop; its meaning is ScatterOkIff, ScatterErrors, ScatterSymmetric, ScatterRowStopped and ScatterStopped. |
| QELayout.WriteLeading | build/lib.linux-x86_64-2.7/cellconstructor/symmetries.py:775-779 | Writing a result back changes only the leading rows×cols block of the array. |
| QELayout.OverlaySame | build/lib.linux-x86_64-2.7/cellconstructor/symmetries.py:512-513 | Writing a matrix's own block back changes nothing. |
| QELayout.LibrarySumRule | build/lib.linux-x86_64-2.7/cellconstructor/symmetries.py:493-513 | The library path returns a square 3·nat matrix, and returns charges exactly when charges were given, shaped per atom. |
| QELayout.SumRule | build/lib.linux-x86_64-2.7/cellconstructor/symmetries.py:493-515 | A failure in the custom mode, or on a side that does not pack, leaves the matrix and the charges as they were; the library path is characterised by LibrarySumRuleShapes and BroadcastSumRule. |
| QELayout.CustomRuleOutcome | build/lib.linux-x86_64-2.7/cellconstructor/symmetries.py:884-919 | The value form of `CustomASR`: NotSquare, NotMultipleOfThree, or IndexError for 0x0; it succeeds exactly for a non-empty square of side 3k, and its result obeys the sum rule and is a fixed point. |
| QELayout.LibrarySumRuleShapes | build/lib.linux-x86_64-2.7/cellconstructor/symmetries.py:493-513 | Away from the custom mode the rule succeeds exactly when the matrix holds the 3·nat block and fails only with BadShape. A side that does not pack leaves the matrix and the charges as they were. The matrix keeps its shape, and charges come back exactly when charges were given. |
| QELayout.BroadcastSumRule | build/lib.linux-x86_64-2.7/cellconstructor/symmetries.py:493-513 | At a side of 3·nat-2 the rule fails with BadShape after writing, in loop order, every block before the first misfit (block (0, nat-1) for a narrow array, otherwise (nat-1, 0)), and the charges of every atom up to that block's row. Every other entry and charge is as it was. |
| QELayout.PacksIff | build/lib.linux-x86_64-2.7/cellconstructor/symmetries.py:494-496 | A side packs exactly when every one of its nat slices has 1 or 3 entries. |
| QELayout.PackMeaning | build/lib.linux-x86_64-2.7/cellconstructor/symmetries.py:494-496 | The pack goes through exactly when numpy can broadcast every slice into its 3x3 block, and the blocks handed to `set_asr` are then those broadcasts. |
| QELayout.BroadcastBlock | build/lib.linux-x86_64-2.7/cellconstructor/symmetries.py:496 | Reference definition of numpy assigning an r x c slice to a 3x3 block: it succeeds exactly when each side is 1 or 3. |
| QELayout.Packed | build/lib.linux-x86_64-2.7/cellconstructor/symmetries.py:494-496 | Specification of the matrix the pack hands to the library; its meaning is PackMeaning. |
| QELayout.CustomSumRuleHolds | build/lib.linux-x86_64-2.7/cellconstructor/symmetries.py:514-515 | The custom mode keeps the charges and succeeds exactly for a non-empty square matrix of side 3k; otherwise it fails with CustomASR's error. Its output obeys the sum rule, and applying the rule again changes nothing. |
| QELayout.SumRuleLayoutRoundTrip | build/lib.linux-x86_64-2.7/cellconstructor/symmetries.py:488-513 | When the library leaves its input alone, the force constants survive the pack and unpack unchanged, while the charges come back block-transposed. |
| QELayout.Broadcast3 | build/lib.linux-x86_64-2.7/cellconstructor/symmetries.py:767-768 | The q point is accepted with 3 entries (kept) or 1 (broadcast), and rejected otherwise. |
| QELayout.CopiedBeforeMismatch | build/lib.linux-x86_64-2.7/cellconstructor/symmetries.py:507-513 | When the matrix is too small for the 3·nat block, the element-by-element copy-back after `set_asr` stops at a 3x3 block boundary short of 3·nat in some direction. |
| QELayout.DynQOutcome | build/lib.linux-x86_64-2.7/cellconstructor/symmetries.py:758-779 | It succeeds exactly for a q point of 1 or 3 components and a matrix holding the 3·nat block. It fails only with BadShape, and then the matrix is unchanged. On success the leading 3·nat block is the symmetrised matrix and every other entry is kept. |
| QELayout.SymmetrizedDynLayoutRoundTrip | build/lib.linux-x86_64-2.7/cellconstructor/symmetries.py:758-779 | When the library and the unit conversions are neutral, the pack and unpack around `symdynph` return the matrix unchanged, and `DynQ` on a well-shaped q point writes the matrix back and passes. |
| QELayout.SymmetrizedVector | build/lib.linux-x86_64-2.7/cellconstructor/symmetries.py:720-732 | A successful result has the input's shape. With no atoms the vector comes back as it was. |
| QELayout.SymmetrizedVectorShapes | build/lib.linux-x86_64-2.7/cellconstructor/symmetries.py:720-732 | It succeeds exactly when the array has at least nat rows of 3 columns (or there are no atoms). A neutral library gives the vector back. |
| QStars.Remove | build/lib.linux-x86_64-2.7/cellconstructor/symmetries.py:195 | Popping removes exactly one occurrence of the element. |
| QStars.Nearest | build/lib.linux-x86_64-2.7/cellconstructor/symmetries.py:198-203 | Every star member gets a valid index into the original q list. |
| QStars.PopMembers | build/lib.linux-x86_64-2.7/cellconstructor/symmetries.py:189-205 | Each member of the star takes one point out of the remaining list. |
| QStars.PopStar | build/lib.linux-x86_64-2.7/cellconstructor/symmetries.py:189-205 | The popping loop computes `PopMembers`. |
| QStars.PopMembersRecords | build/lib.linux-x86_64-2.7/cellconstructor/symmetries.py:198-205 | The index list gains, for each member, the nearest original q point. |
| QStars.PartitionAccounts | build/lib.linux-x86_64-2.7/cellconstructor/symmetries.py:167-205 | The while loop only appends stars, every q point is placed exactly once, and the index list matches the flattened stars. |
| QStars.PartitionKeeps | build/lib.linux-x86_64-2.7/cellconstructor/symmetries.py:167-205 | Stars already found are never changed. |
| QStars.StarsOfAccounts | build/lib.linux-x86_64-2.7/cellconstructor/symmetries.py:161-208 | The stars hold as many points as the input, with one index per point, and the first star is the star of the first q point. |
| QStars.StarsOfWorklists | build/lib.linux-x86_64-2.7/cellconstructor/symmetries.py:167-186 | Star k is the star of the first point still in working list k. The first working list is the whole q list, and each later one has lost as many points as the previous star has members. There is one working list per star. |
| QStars.PartitionHeads | build/lib.linux-x86_64-2.7/cellconstructor/symmetries.py:167-205 | The stars the outer loop adds are, in order, the stars of the first points of its working lists. |
| QStars.WorklistStep | build/lib.linux-x86_64-2.7/cellconstructor/symmetries.py:189-205 | Working list k is non-empty, and the next one is it less as many points as the star of its first point has members, as a sub-multiset. |
| QStars.WorklistsNonEmpty | build/lib.linux-x86_64-2.7/cellconstructor/symmetries.py:167 | Every working list the loop body sees is non-empty. |
| QStars.WorklistsShrink | build/lib.linux-x86_64-2.7/cellconstructor/symmetries.py:189-205 | Every working list after the first pops its star's worth of points from the one before. |
| QStars.Worklists | build/lib.linux-x86_64-2.7/cellconstructor/symmetries.py:167-205 | The working list at the start of every pass of the outer loop; its meaning is StarsOfWorklists. |
| QStars.FirstStar | build/lib.linux-x86_64-2.7/cellconstructor/symmetries.py:167-186 | The first star found is the star of the first q point. |
| QStars.StarsOf | build/lib.linux-x86_64-2.7/cellconstructor/symmetries.py:158-208 | Specification of `SetupQStar`; its meaning is StarsOfAccounts, FirstStar and StarsOfWorklists. |
| QStars.Partition | build/lib.linux-x86_64-2.7/cellconstructor/symmetries.py:167-205 | Specification of the outer while loop; its meaning is PartitionAccounts and PartitionKeeps. |
| QStars.OversizedStarFails | build/lib.linux-x86_64-2.7/cellconstructor/symmetries.py:189-195 | A star larger than the points left raises, because argmin is taken over an empty list. |
| QStars.PopMembersFailsWhenShort | build/lib.linux-x86_64-2.7/cellconstructor/symmetries.py:189-195 | The same holds partway through a star. |
| QStars.StarSlices | build/lib.linux-x86_64-2.7/cellconstructor/symmetries.py:438-446 | The star offsets cut the flattened q list back into the stars. |
| StarAverage.Matches | build/lib.linux-x86_64-2.7/cellconstructor/symmetries.py:292-297 | Specification of the matches the count loop finds; its meaning is MatchesExactly. |
| StarAverage.MatchesExactly | build/lib.linux-x86_64-2.7/cellconstructor/symmetries.py:292-297 | The list holds exactly the star images closer to q than the tolerance. |
| StarAverage.CountMatches | build/lib.linux-x86_64-2.7/cellconstructor/symmetries.py:292-297 | The loop counts the matches and succeeds with the match exactly when there is one. |
| StarAverage.MatchOf | build/lib.linux-x86_64-2.7/cellconstructor/symmetries.py:292-312 | Succeeds exactly when one image matches and returns it. Otherwise it raises with the number of matches. |
| StarAverage.SortingMatches | build/lib.linux-x86_64-2.7/cellconstructor/symmetries.py:291-312 | The sorting succeeds exactly when every member has a unique match, and entry x is that match. |
| StarAverage.SortStar | build/lib.linux-x86_64-2.7/cellconstructor/symmetries.py:291-312 | The sorting loop computes `SortingOf`. |
| StarAverage.AccumulatedOkIff | build/lib.linux-x86_64-2.7/cellconstructor/symmetries.py:319-322 | Accumulation succeeds exactly when every term does. |
| StarAverage.AccumulatedConsistent | build/lib.linux-x86_64-2.7/cellconstructor/symmetries.py:319-322 | Accumulating n identical terms gives n copies. |
| StarAverage.AverageOkIff | build/lib.linux-x86_64-2.7/cellconstructor/symmetries.py:237-329 | The star average succeeds exactly when every member's term does, and then every matrix of the star is 3·nat x 3·nat. |
| StarAverage.MemberTermOkIff | build/lib.linux-x86_64-2.7/cellconstructor/symmetries.py:239-312 | A member's term succeeds exactly when its star has the right size, its matrix is 3·nat x 3·nat, every member matches, and the images are addressable. |
| StarAverage.ScaleBack | build/lib.linux-x86_64-2.7/cellconstructor/symmetries.py:326 | Dividing the n-fold sum by n returns the matrix. |
| StarAverage.AverageKeepsConsistentStars | build/lib.linux-x86_64-2.7/cellconstructor/symmetries.py:237-329 | A star whose members are already images of one another is left unchanged by averaging. |
| StarAverage.WrongStarSizeFails | build/lib.linux-x86_64-2.7/cellconstructor/symmetries.py:243-250 | A star of the wrong size makes the average raise. |
| StarAverage.Average | build/lib.linux-x86_64-2.7/cellconstructor/symmetries.py:237-329 | Specification of `ApplyQStar`'s result; its meaning is AverageOkIff, AverageKeepsConsistentStars and WrongStarSizeFails. |
| StarAverage.MemberTerm | build/lib.linux-x86_64-2.7/cellconstructor/symmetries.py:239-327 | Specification of one member's contribution; its meaning is MemberTermOkIff. |
| StarAverage.SortingOf | build/lib.linux-x86_64-2.7/cellconstructor/symmetries.py:291-312 | Specification of `sorting_q`; its meaning is SortingMatches and SortStar. |
| QGrid.Supercell | build/lib.linux-x86_64-2.7/cellconstructor/symmetries.py:1025 | Each supercell vector is the unit-cell vector scaled by its size. |
| QGrid.FindDuplicate | build/lib.linux-x86_64-2.7/cellconstructor/symmetries.py:1039-1046 | The loop reports a duplicate exactly when some earlier point is equivalent. |
| QGrid.GetQGrid | build/lib.linux-x86_64-2.7/cellconstructor/symmetries.py:1020-1051 | The triple loop computes `QGridOf`. |
| QGrid.GridPlane | build/lib.linux-x86_64-2.7/cellconstructor/symmetries.py:1033-1048 | One pass of the outer loop extends the list by a plane and keeps the points pairwise inequivalent. An error is the whole result's error. |
| QGrid.GridRow | build/lib.linux-x86_64-2.7/cellconstructor/symmetries.py:1034-1048 | The same for one pass of the middle loop. |
| QGrid.AppendSeparated | build/lib.linux-x86_64-2.7/cellconstructor/symmetries.py:1039-1048 | Appending a point with no equivalent keeps the list pairwise inequivalent. |
| QGrid.DuplicateBreaksSeparation | build/lib.linux-x86_64-2.7/cellconstructor/symmetries.py:1039-1046 | Once a duplicate is seen, no completed grid can be pairwise inequivalent, so raising is the only way out. |
| QGrid.QGridProperties | build/lib.linux-x86_64-2.7/cellconstructor/symmetries.py:1032-1051 | A grid has nx·ny·nz pairwise-inequivalent points. The only error is a point found twice. |
| QGrid.FirstMatch | build/lib.linux-x86_64-2.7/cellconstructor/symmetries.py:1086-1089 | The first remaining point equivalent to q, or none. |
| QGrid.FirstMatchIndex | build/lib.linux-x86_64-2.7/cellconstructor/symmetries.py:1086-1089 | The search with `break` finds that point. |
| QGrid.ConsumeRemovesOne | build/lib.linux-x86_64-2.7/cellconstructor/symmetries.py:1086-1089 | Consuming removes exactly the first equivalent point, or nothing. |
| QGrid.CheckSupercellQ | build/lib.linux-x86_64-2.7/cellconstructor/symmetries.py:1079-1096 | The method computes `Covered`. |
| QGrid.ConsumeAll | build/lib.linux-x86_64-2.7/cellconstructor/symmetries.py:1085-1089 | The outer loop leaves the grid points no given q matched. |
| QGrid.RemainingLength | build/lib.linux-x86_64-2.7/cellconstructor/symmetries.py:1085-1091 | Each given q removes at most one point. |
| QGrid.CoveredNeedsEnoughPoints | build/lib.linux-x86_64-2.7/cellconstructor/symmetries.py:1079-1096 | Coverage needs at least as many q points as the grid has. |
| QGrid.RemainingSelf | build/lib.linux-x86_64-2.7/cellconstructor/symmetries.py:1085-1089 | Matching the grid against itself consumes it in order. |
| QGrid.GridCoversItself | build/lib.linux-x86_64-2.7/cellconstructor/symmetries.py:1079-1096 | The grid covers its own supercell. |
| QGrid.QGridOf | build/lib.linux-x86_64-2.7/cellconstructor/symmetries.py:1020-1051 | Specification of `GetQGrid`; its meaning is QGridProperties and GridCoversItself. |
| QGrid.Covered | build/lib.linux-x86_64-2.7/cellconstructor/symmetries.py:1079-1096 | Specification of `CheckSupercellQ`; its meaning is CoveredNeedsEnoughPoints and GridCoversItself. |
| FindSym.GetISOTROPYFindSymInput | build/lib.linux-x86_64-2.7/cellconstructor/symmetries.py:964-994 | The method builds the line list given by `FindSymInput`. |
| FindSym.FindSymLayout | build/lib.linux-x86_64-2.7/cellconstructor/symmetries.py:964-994 | The keyword lines sit at their fixed positions, followed by one position line per atom. |
| FindSym.FindSymNewlines | build/lib.linux-x86_64-2.7/cellconstructor/symmetries.py:968-994 | Every line ends in a newline. |
| FindSym.FindSymReadBack | build/lib.linux-x86_64-2.7/cellconstructor/symmetries.py:982-985 | The atom count line parses back to the atom count, and the type line splits back to the labels. |
| FindSym.FindSymInput | build/lib.linux-x86_64-2.7/cellconstructor/symmetries.py:964-994 | Specification of `GetISOTROPYFindSymInput`; its meaning is FindSymLayout, FindSymNewlines and FindSymReadBack. |
| Matrices.FromToBlocks | build/lib.linux-x86_64-2.7/cellconstructor/symmetries.py:493-513 | Packing the force constants into 3x3 blocks and unpacking them gives the matrix back. |
| Matrices.ToFromBlocks | build/lib.linux-x86_64-2.7/cellconstructor/symmetries.py:493-513 | Unpacking the blocks and packing them again gives the blocks back. |
| Matrices.TransposeInto | build/lib.linux-x86_64-2.7/cellconstructor/symmetries.py:87-97 | The copy loop builds the transpose. |
| DynRead.LineAt | cellconstructor/Phonons.py:205 | A line index is valid exactly in [-n, n). Anything else raises IndexError. |
| DynRead.StructInfoOf | cellconstructor/Phonons.py:140-149 | Specification of the info-line reader; its meaning on written lines is DynLines.InfoLineReadBack. |
| DynRead.SpeciesLine | cellconstructor/Phonons.py:159-163 | Specification of one species line; its meaning is DynLines.SpeciesLineReadBack. |
| DynRead.AtomLine | cellconstructor/Phonons.py:176-181 | Specification of one atom line; its meaning is DynLines.AtomLineReadBack. |
| DynRead.QPointOf | cellconstructor/Phonons.py:210 | Specification of the q-line parse; its meaning is DynLines.QPointReadBack. |
| DynRead.Fill | cellconstructor/Phonons.py:224-228 | Specification of one matrix row; its meaning is FillStep, FillStopped and FillWrites. |
| DynRead.ReadFrom | cellconstructor/Phonons.py:204-231 | Specification of the reading loop; its meaning is ReadFromCounts, ReadFromCountsTo, ReadIgnoresTail and BlocksYieldEqualCounts. |
| DynRead.Floats | cellconstructor/Phonons.py:210 | Conversion keeps one number per field, and the only error is a parse error. |
| DynRead.FloatsValues | cellconstructor/Phonons.py:210 | Conversion succeeds exactly when every field parses, and each value is the parsed field. |
| DynRead.ScaledRow | cellconstructor/Phonons.py:181 | Rows of 3 numbers or of 1 broadcast number are accepted and give a 3-vector. Other lengths raise. |
| DynRead.CellUpTo | cellconstructor/Phonons.py:168-170 | The cell rows read are 3-vectors. |
| DynRead.AtomsUpTo | cellconstructor/Phonons.py:176-181 | One label and one coordinate per atom line. |
| DynRead.HeaderOf | cellconstructor/Phonons.py:140-181 | The header yields as many labels and coordinates as its atom count. |
| DynRead.AfterPreamble | cellconstructor/Phonons.py:189-193 | The body after the preamble is strictly shorter than the file. |
| DynRead.AfterPreambleCut | cellconstructor/Phonons.py:189-193 | The body starts right after the first line holding the "Dynamical  Matrix" title. Without such a line it raises IndexError. |
| DynRead.PlainLine | cellconstructor/Phonons.py:217-228 | A number line keeps the matrix shape and does not touch the star or the finished matrices. |
| DynRead.ReadLine | cellconstructor/Phonons.py:205-228 | Every line keeps the matrix shape. |
| DynRead.ReadLineCounts | cellconstructor/Phonons.py:208-215 | A "q = " line adds one q point. A "ynamical" line that is not a q line adds one matrix. |
| DynRead.ReadFromCounts | cellconstructor/Phonons.py:204-231 | Reading stops at the first "Diagonalizing" line, after counting the q lines and matrix lines up to it. |
| DynRead.ReadFromStop | cellconstructor/Phonons.py:204-231 | The loop stops at the first "Diagonalizing" line. |
| DynRead.ReadIgnoresTail | cellconstructor/Phonons.py:204-206 | Lines after the "Diagonalizing" line are never read. |
| DynRead.FillWrites | cellconstructor/Phonons.py:224-228 | A 6-field line writes exactly the three complex entries of one row and leaves the rest of the matrix alone. |
| DynRead.PlainCounts | cellconstructor/Phonons.py:216-228 | Number lines count neither as q points nor as matrices. |
| DynRead.BodyCounts | cellconstructor/Phonons.py:208-215 | A body of well-formed blocks has as many q lines and matrix lines as blocks. |
| DynRead.BodyEnds | cellconstructor/Phonons.py:204-206 | Only the last line of such a body says "Diagonalizing". |
| DynRead.BlocksYieldEqualCounts | cellconstructor/Phonons.py:204-234 | Reading such a body gives one q point and one matrix per block. |
| DynLoad.WithHeader | cellconstructor/Phonons.py:137-181 | Only the first file sets the structure, which then has a cell and one coordinate per atom. Matrices and q lists are untouched. |
| DynLoad.Added | cellconstructor/Phonons.py:211-234 | The file's matrices and q points are appended, and its star is appended to the star list. |
| DynLoad.FileBody | cellconstructor/Phonons.py:183-234 | Reading a body keeps the structure and the lattice parameter. |
| DynLoad.LoadFile | cellconstructor/Phonons.py:122-234 | A loaded file has a non-negative atom count. |
| DynLoad.LoadFileAdds | cellconstructor/Phonons.py:122-234 | Each file appends one star and its points. The first file fixes the structure; later files keep it. |
| DynLoad.LoadFileShaped | cellconstructor/Phonons.py:122-234 | One file more keeps the shape invariant: one star per file, matrices matching q points. |
| DynLoad.LoadErrors | cellconstructor/Phonons.py:112-145 | The raises come in the source's order: nqirr <= 0, then full_name with several files, then a missing first file, then ibrav != 0. |
| DynLoad.LoadMissingLater | cellconstructor/Phonons.py:122-130 | A missing later file raises with its own name. |
| DynLoad.LoadShapes | cellconstructor/Phonons.py:112-237 | A successful load has valid arguments, one star per file, and one matrix per q point. |
| DynLoad.FileOfBlocks | cellconstructor/Phonons.py:183-234 | A file of n well-formed blocks yields one star of n points and n matrices. |
| DynLoad.LoadResult | cellconstructor/Phonons.py:98-237 | Specification of `LoadFromQE`; its errors, shapes and the failure on written files are proved in LoadErrors, LoadMissingLater, LoadShapes and DynReadBack.SavedUnreadable. |
| DynWrite.CellLines | cellconstructor/Phonons.py:698-699 | One line per cell vector. |
| DynWrite.HeaderText | cellconstructor/Phonons.py:673-711 | Specification of the file header; its meaning is DynLayout.HeaderLayout and DynReadBack.HeaderUnfound. |
| DynWrite.QText | cellconstructor/Phonons.py:726-727 | Specification of the q line; its meaning is BlockHead and DynLines.QPointReadBack. |
| DynWrite.RowText | cellconstructor/Phonons.py:736-741 | Specification of one matrix row line; its meaning is DynLayout.PairBlock. |
| DynWrite.FreqText | cellconstructor/Phonons.py:760-761 | Specification of the frequency line; its meaning is DynLayout.ModeBlock and DynLayout.ModeTextOk. |
| DynWrite.Trailer | cellconstructor/Phonons.py:746-769 | Specification of the lines after the last block; its meaning is DynReadBack.TrailerUnfound. |
| DynWrite.Saved | cellconstructor/Phonons.py:629-770 | Specification of what `save_qe` writes when it returns; its meaning is DynLayout.SavedFiles and DynReadBack.SavedFilesUnread. |
| DynWrite.SavedBefore | cellconstructor/Phonons.py:672-770 | Specification of the files `save_qe` has closed when it returns or raises; its meaning is DynLayout.CompletedFiles. |
| DynWrite.SpeciesLines | cellconstructor/Phonons.py:702-703 | One line per species with its mass. A species with no mass raises KeyError. |
| DynWrite.AtomLines | cellconstructor/Phonons.py:706-711 | One line per atom, with its species number and coordinates. |
| DynWrite.Entry | cellconstructor/Phonons.py:737-739 | An entry exists exactly when the indices are in range, and is the matrix element. Otherwise it raises IndexError. |
| DynWrite.PairLines | cellconstructor/Phonons.py:734-741 | An atom-pair block is the pair line followed by its rows. Errors are IndexError. |
| DynWrite.BlockHead | cellconstructor/Phonons.py:723-728 | The block head is 5 lines, blank except for the second, which is the header as written with one space ("Dynamical Matrix in cartesian axes"), and the fourth, the q line; a q point with fewer than 3 components raises IndexError. |
| DynWrite.PolNumbersAsWritten | cellconstructor/Phonons.py:764-768 | The six numbers as the source writes them: the real parts of the x, y, z components, the imaginary parts of x and y, and the imaginary part of y again in sixth place. They exist exactly when the three components exist; otherwise IndexError. |
| DynWrite.PolNumbers | cellconstructor/Phonons.py:764-768 | The intended six numbers: the real and imaginary parts of the atom's x, y, z components. They exist exactly when those components exist. |
| DynWrite.PolLines | cellconstructor/Phonons.py:764-768 | One line per atom exactly when every atom's components exist, each formatted from the as-written `PolNumbersAsWritten`; otherwise IndexError. |
| DynWrite.FileText | cellconstructor/Phonons.py:667-769 | File iq is written only for an existing star, and advances the q counter by that star's size. Its text is header, blocks and trailer as written (DynReadBack.FileUnread shows the reader cannot read it back). |
| DynWrite.WriteFiles | cellconstructor/Phonons.py:667-671 | One file per iteration. |
| DynLayout.WriteFilesCount | cellconstructor/Phonons.py:665-744 | After n files: file k has its `dynK` name and the text of star k, and the q counter is the number of points written. |
| DynLayout.SavedFiles | cellconstructor/Phonons.py:660-744 | `save_qe` writes nqirr files (or one with full_name), named and filled in star order. |
| DynLayout.CompletedFiles | cellconstructor/Phonons.py:665-770 | When the loop raises, the files it closed are exactly the k files before the iteration that raised, written whole, and that iteration raised the loop's error; when it does not raise they are all of its files. |
| DynLayout.CompletedStopped | cellconstructor/Phonons.py:665-770 | Once an iteration raises, no later iteration closes a file. |
| DynLayout.MatrixTextLength | cellconstructor/Phonons.py:731-741 | A matrix takes 4 lines per atom pair. |
| DynLayout.BlockTextLength | cellconstructor/Phonons.py:721-741 | Every q block has the same length. |
| DynLayout.StarBlock | cellconstructor/Phonons.py:721-744 | Block j of a file is the head for q_j followed by the matrix of that q point. |
| DynLayout.PairBlock | cellconstructor/Phonons.py:734-741 | An atom-pair block is the pair line followed by its three rows. |
| DynLayout.HeaderLayout | cellconstructor/Phonons.py:675-711 | The header holds the title lines, the info line, three cell lines, one line per species and one per atom, at fixed positions. |
| DynLayout.AtomSpecies | cellconstructor/Phonons.py:678-711 | The species number written for an atom points back to its own label. |
| DynLayout.StrippedBlockHeader | cellconstructor/Phonons.py:724 | The written block header, stripped, is the one-space title. |
| DynLayout.BlockHeaderMismatch | cellconstructor/Phonons.py:724 | As written, the block header does not contain the two-space title the reader looks for. |
| DynLayout.BlockHeaderFound | cellconstructor/Phonons.py:191 | The corrected header strips to exactly the reader's title. |
| DynReadBack.BlockHeadUnfound | cellconstructor/Phonons.py:185-193 | No line of a written block head holds the two-space title the reader searches for. |
| DynReadBack.HeaderUnfound | cellconstructor/Phonons.py:185-193 | No line of a written file header holds that title either, when no printed number contains a capital D and no atom label contains the title. |
| DynReadBack.TrailerUnfound | cellconstructor/Phonons.py:185-193 | No line of the written trailer holds that title. |
| DynReadBack.FileUnread | cellconstructor/Phonons.py:185-193 | The reader's preamble search runs off the end of any file `save_qe` writes and raises IndexError. |
| DynReadBack.SavedFilesUnread | cellconstructor/Phonons.py:185-193 | This holds for every file of the list `save_qe` writes. |
| DynReadBack.SavedUnreadable | cellconstructor/Phonons.py:98-237 | Loading files written by `save_qe` as written always raises, whatever nqirr is asked for. |
| DynLines.InfoLineReadBack | cellconstructor/Phonons.py:140-149 | The info line `save_qe` writes (line 692-693) is read back as its species count, its atom count and the printed alat converted back to angstrom. |
| DynLines.SpeciesLineReadBack | cellconstructor/Phonons.py:159-163 | A species line as written (line 703) gives back its label and its printed mass. |
| DynLines.AtomLineReadBack | cellconstructor/Phonons.py:176-181 | An atom line as written (lines 706-711) gives back the label of its species number, or KeyError for an unknown number, and the printed coordinates scaled by the reader's alat. |
| DynLines.QPointReadBack | cellconstructor/Phonons.py:210 | A q line as written (lines 726-727 and 750-751) gives back its three printed components. |
| DynLayout.PolNumbersAsWrittenSixth | cellconstructor/Phonons.py:764-768 | The as-written numbers differ from the intended ones only in the sixth, which is imag(pol[3i+1]) instead of imag(pol[3i+2]). |
| DynLayout.PolNumbersCounterexample | cellconstructor/Phonons.py:764-768 | A mode with a purely imaginary z component loses it in the as-written output. |
| DynLayout.ModeTextLength | cellconstructor/Phonons.py:758-768 | A mode block has one frequency line plus one line per atom. |
| DynLayout.ModeBlock | cellconstructor/Phonons.py:756-768 | Mode mu's block is its frequency line followed by its polarisation lines. |
| PhononsModel.SkipPreamble | cellconstructor/Phonons.py:185-193 | The loop finds the body after the title line, as `AfterPreamble`, which AfterPreambleCut characterises. |
| PhononsModel.CompatibilityMeaning | cellconstructor/Phonons.py:311-339 | A value that is not a class instance gives False. Otherwise a missing structure on either side raises; so does a missing nqirr once the atom counts agree, since an instance of another classic class passes the type test at line 327. The result is True exactly when both structures and both nqirr are present and agree. |
| PhononsModel.CompatibilityEquivalence | cellconstructor/Phonons.py:311-339 | Compatibility is reflexive when a structure and nqirr are present, and symmetric. |
| PhononsModel.StructureBranch | cellconstructor/Phonons.py:76-89 | With a structure the constructor raises: on zero atoms, on nqirr <= 0, and otherwise because an integer cannot be iterated. |
| PhononsModel.LoadNew | cellconstructor/Phonons.py:55-74 | Creating an object and loading files gives the load result, starting from empty lists and alat 1. |
| PhononsModel.Phonons.constructor | cellconstructor/Phonons.py:55-69 | A new object has empty lists, nqirr 1, alat 1, no structure, and is not initialised. |
| PhononsModel.Phonons.FillRow | cellconstructor/Phonons.py:224-228 | Writing one row into the work matrix has the effect of `Fill`. |
| PhononsModel.Phonons.Store | cellconstructor/Phonons.py:227 | Exactly one matrix element changes. |
| PhononsModel.Phonons.ReadPlain | cellconstructor/Phonons.py:216-228 | A number line updates the work matrix and the counters as `PlainLine`. |
| PhononsModel.Phonons.ReadStep | cellconstructor/Phonons.py:205-228 | One line updates the object's q list and matrix list as `ReadLine`, and nothing else. |
| PhononsModel.Phonons.ReadAt | cellconstructor/Phonons.py:204-231 | The reading loop from a given line computes `ReadFrom`. |
| PhononsModel.Phonons.ReadMatrices | cellconstructor/Phonons.py:196-231 | Reading a body appends its q points and matrices to the object's lists, as `ReadFrom` says. |
| PhononsModel.Phonons.TakeHeader | cellconstructor/Phonons.py:137-181 | The first file's header sets the structure and alat, as `WithHeader`. |
| PhononsModel.Phonons.SetHeader | cellconstructor/Phonons.py:149-173 | The structure and alat take the header's values. |
| PhononsModel.Phonons.LoadOne | cellconstructor/Phonons.py:122-234 | Loading one file updates the object as `LoadFile`. |
| PhononsModel.Phonons.ReadBody | cellconstructor/Phonons.py:183-234 | Reading one file's body updates the object as `FileBody`. |
| PhononsModel.Phonons.LoadFromQE | cellconstructor/Phonons.py:111-237 | The object ends as `LoadResult` says: on success with a fresh structure, marked initialised, and the files' stars appended. Otherwise it fails with the source's error. |
| PhononsModel.Phonons.CheckCompatibility | cellconstructor/Phonons.py:311-339 | The answer is `Compatibility` of this object's outline and the argument's: another Phonons object's outline, the attributes of any other classic instance, or none for a value that is not an instance. It is characterised by CompatibilityMeaning. |
| PhononsModel.WriteAll | cellconstructor/Phonons.py:665-770 | The file loop returns the files closed before the first error (`SavedBefore`), and raises exactly when `Saved` does, with its error; on success the files are `Saved`. |
| PhononsModel.Phonons.SaveQE | cellconstructor/Phonons.py:629-770 | With no file to write nothing is written and nothing is raised. Without a structure it raises before closing any file. Otherwise the files returned are those closed before the first error, whole (DynLayout.CompletedFiles). It raises exactly when `Saved` does, with the same error, and on success they are `Saved` as written, characterised by SavedFiles; DynReadBack.SavedUnreadable proves that `LoadFromQE` then fails on them. |
| PhononsModel.Phonons.Copy | cellconstructor/Phonons.py:292-309 | Without a structure it raises. Otherwise it returns a fresh object with a fresh structure equal to the original. Lists and nqirr are the same, and alat is reset to 1 as the source leaves it. |

## Left out

- The `symph` Fortran routines are parameters of the `Symph` datatype: small group, star of q, `q2qstar`, `set_asr`, `symdynph`, `symvector` and `crystal_to_cart`. So are the `Methods` helpers (`Geometry`). Their numerics are outside the model.
- Float formatting and parsing are the `Numbers` parameter. Unit factors are not simplified: 1.889725989 × 0.52918 is not 1, so no save-then-load round trip is claimed.
- File I/O is modelled as a map from file names to line lists for reading and as a returned list of (name, lines) pairs for writing.
- `DyagDinQ` (cellconstructor/Phonons.py:239-290) is the `Dyag` parameter of the writer. Its diagonalisation is not modelled.
- `GetUpsilonMatrix`, `GetProbability`, `GetRatioProbability` and `GetStrainMatrix` are not part of this model; they are numerical routines outside the file-format core.
- `ApplySymmetryToMatrix`, `ApplySymmetryToVector`, `get_symmetries_from_ita`, `PrepareISOTROPYFindSymInput` (which only writes the FindSym text to a file), `ChangeThreshold`, `GetNewQFromUnitCell`, printing and timing are not part of this model.
- On the symmetry side, matrix entries are reals. The complex force constants of the source are not modelled, because every modelled operation is linear with real coefficients.
- PhononsModel.StructureBranch: the constructor's structure branch is modelled only by this function, because `for i in nqirr` over an integer always raises. The dispatch on the argument's type is dropped.
- PhononsModel.Phonons.SaveQE: requires a shaped structure, whose label list and coordinate rows have exactly N_atoms entries. `save_qe` loops over the first N_atoms of each (Phonons.py:677-683, 706-711), so it would write only a prefix of longer lists and raise IndexError on shorter ones; those structures are excluded by the requires, not modelled.
- PhononsModel.Phonons.SaveQE: `save_qe` opens each file and writes into it before it can raise (on a missing structure, a missing mass, a star or matrix list that is too short, or a failing diagonalisation). The files closed before the error are returned, but the partly written file of the iteration that raises is not modelled.
- PhononsModel.Phonons.LoadFromQE: on an error the contract says only which error is raised, not how far the lists were already extended. `nqirr` is left as it was, as in the source.
- PhononsModel.Phonons.Copy: the source shares `q_tot` and `q_stars` between the original and the copy. The model holds them as sequence values, so that aliasing is not represented.
- Structures.Structure.SetTo: the header reader's field-by-field writes into the structure are collapsed into one assignment.
- QELayout.DynQOutcome: `Methods.convert_matrix_cart_cryst` is not part of this model. The model takes it to refuse any slice that is not 3x3, as the store into a 3x3 slot of `QE_dyn` at symmetries.py:764 does for any other result. So a matrix too small for the 3·nat block raises in the first loop, before the matrix is written.
- QELayout.SumRule: numpy's ValueError on a slice it cannot broadcast, in the pack or in the copy-back, is reported as BadShape.
- QELayout.SumRule: the effective charges are taken to hold nat 3x3 blocks, as `einsum` and `set_asr` expect; charges of any other shape are copied back as if they did, where the source raises in `einsum`, in the Fortran interface or at `zeu[na, :, :]`.
- StarAverage.MemberTerm: a matrix that is not 3·nat x 3·nat raises BadShape at once, where `new_dyn[:,:] = fcq[i]` (symmetries.py:272) still broadcasts a matrix with one row or one column, which then raises only at the accumulation (symmetries.py:318), possibly after a matching error in between. With nat = 0 the source also accepts matrices with one row or column, and the model only the empty one.
- DynRead.Fill: the source's work matrix is `complex64` (Phonons.py:198), so every value read is rounded to single precision. The model stores the parsed reals exactly, and the same holds for PhononsModel.Phonons.FillRow.
- DynWrite.Over: with alat = 0 numpy's division gives inf or nan, which are then printed. Reals have neither, so the model prints 0 for every coordinate in that case.
- QStars.Partition: the `Star` type holds only non-empty stars, which makes the outer loop terminate. If the library returned an empty star, symmetries.py:167 would loop forever; that case is outside the model.
- DynLines: the read-back lemmas assume the `Numbers` oracle is `Readable`. Under that assumption every formatted float is one word with no quotes or parentheses and parses back, and a printed integer parses to itself. DynReadBack also assumes `PlainFixed` (no printed number contains a capital D) and `LabelsApart` (no atom label contains the reader's title). Species labels must be single words without quotes, because `save_qe` writes them between quotes and the reader splits on quotes.
- DynLines.AtomLineReadBack: the coordinates read back are stated as `ScaledRow` of the three printed numbers, which is the printed values multiplied by the reader's alat.
- DynLines: the read-back lemmas are stated line by line. Because of the header defect under Findings, no whole-file save-then-load round trip exists to be stated.
- The model keeps several source behaviours as they are, each stated by a lemma:
  - the effective charges come back block-transposed (SymmetryTables.ZeuComesBackTransposed);
  - `InitFromSymmetries` sets `QE_minusq` instead of `QE_minus_q`;
  - the minus-q search compares along the first axis only (SymmetryTables.MinusQSearch);
  - `save_qe` writes the one-space block header and the y component's imaginary part in sixth place (see Findings).

## Findings

| source | as written | input that shows it | evidently intended | confidence | as-written member | corrected member |
|---|---|---|---|---|---|---|
| cellconstructor/Phonons.py:764-768 | The sixth number of each polarisation line is `imag(pol[3i+1])`, the y component. The writer (`DynWrite.PolLines`) is modelled this way. | `pol = [[0],[0],[i]]` (one atom, one mode): z = i is written as 0 0 0 0 0 0. | The imaginary part of the z component, `imag(pol[3i+2])`, giving 0 0 0 0 0 1. | not executed | DynLayout.PolNumbersCounterexample | DynWrite.PolNumbers |
| cellconstructor/Phonons.py:724 | Each q block's header is "Dynamical Matrix in cartesian axes" with one space. The writer (`DynWrite.BlockHead`) is modelled this way. | Any file written by `save_qe`: the reader at Phonons.py:191 looks for "Dynamical  Matrix" with two spaces and never finds it, so reading back raises IndexError (DynReadBack.SavedUnreadable). | The two-space header that Quantum ESPRESSO writes and the reader expects. | not executed | DynLayout.BlockHeaderMismatch | DynLayout.BlockHeaderFound |
