/** `GetSymmetriesFromSPGLIB` (symmetries.py:831-882): turns the
    dictionary `spglib.get_symmetry` returns into a list of 3 x 4
    symmetry operations, whose first three columns are the rotation and
    whose last column is the fractional translation, optionally snapped
    to the nearest multiple of 1/2.
 */
module SpglibImport {
  import opened Wrappers
  import opened Matrices
  import opened Numerics

  /** One row of the `translations` array: a fractional translation. */
  type Translation = v: Vec | |v| == 3 witness [0.0, 0.0, 0.0]

  /** One slice of the `rotations` array: a 3 x 3 rotation in crystal axes. */
  type Rotation = m: Mat | IsMatrix(m, 3, 3) witness [[0.0, 0.0, 0.0], [0.0, 0.0, 0.0], [0.0, 0.0, 0.0]]

  /** The dictionary returned by spglib: each key may be missing. */
  datatype Dataset = Dataset(translations: Option<seq<Translation>>, rotations: Option<seq<Rotation>>)

  /** One translation component after `*= 2`, `floor(. + .5)`, `*= .5`
      and `% 1`. */
  function Regularise(t: real): real
  {
    ModOne((2.0 * t + 0.5).Floor as real / 2.0)
  }

  /** Column 3 of an operation: the translation, regularised on request. */
  function Shift(tr: Translation, a: nat, regularise: bool): real
    requires a < 3
  {
    if regularise then Regularise(tr[a]) else tr[a]
  }

  /** Entry (a, c) of the operation `sym` built from one rotation and one
      translation. */
  function OperationEntry(rot: Rotation, tr: Translation, regularise: bool, a: nat, c: nat): real
    requires a < 3 && c < 4
  {
    if c < 3 then rot[a][c] else Shift(tr, a, regularise)
  }

  function OperationRow(rot: Rotation, tr: Translation, regularise: bool, a: nat): Vec
    requires a < 3
  {
    seq(4, c requires 0 <= c < 4 => OperationEntry(rot, tr, regularise, a, c))
  }

  /** `sym = np.zeros((3, 4)); sym[:, :3] = rot; sym[:, 3] = tr`,
      followed by the regularisation when it is asked for. */
  function Operation(rot: Rotation, tr: Translation, regularise: bool): (op: Mat)
    ensures IsMatrix(op, 3, 4)
    ensures forall a, c :: 0 <= a < 3 && 0 <= c < 3 ==> op[a][c] == rot[a][c]
    ensures forall a :: 0 <= a < 3 ==> op[a][3] == Shift(tr, a, regularise)
  {
    seq(3, a requires 0 <= a < 3 => OperationRow(rot, tr, regularise, a))
  }

  /** What `GetSymmetriesFromSPGLIB(spglib_sym, regolarize)` returns or
      raises: the keys are checked in the order 'translations',
      'rotations'; one operation is built per translation, and a missing
      rotation for one of them is an IndexError. */
  function Imported(d: Dataset, regularise: bool): Result<seq<Mat>>
  {
    if d.translations.None? then Err(MissingTranslations)
    else if d.rotations.None? then Err(MissingRotations)
    else
      var tr, rot := d.translations.value, d.rotations.value;
      if |rot| < |tr| then Err(IndexError)
      else Ok(seq(|tr|, i requires 0 <= i < |tr| => Operation(rot[i], tr[i], regularise)))
  }

  /** The loop of symmetries.py:867-880, appending one operation per
      translation to `out_sym`. */
  method GetSymmetriesFromSpglib(d: Dataset, regularise: bool) returns (r: Result<seq<Mat>>)
    ensures r == Imported(d, regularise)
  {
    if d.translations.None? {
      return Err(MissingTranslations);
    }
    if d.rotations.None? {
      return Err(MissingRotations);
    }
    var translations, rotations := d.translations.value, d.rotations.value;
    var nSym := |translations|;
    var outSym: seq<Mat> := [];
    for i := 0 to nSym
      invariant |outSym| == i
      invariant i <= |rotations|
      invariant forall k :: 0 <= k < i ==> outSym[k] == Operation(rotations[k], translations[k], regularise)
    {
      if i >= |rotations| {
        return Err(IndexError);
      }
      outSym := outSym + [Operation(rotations[i], translations[i], regularise)];
    }
    ghost var spec := Imported(d, regularise);
    assert outSym == spec.value;
    r := Ok(outSym);
  }

  /** The failures, in the order the source checks them, and the shape of
      a successful import: one 3 x 4 operation per translation, rotation
      in columns 0-2 and (possibly regularised) translation in column 3. */
  lemma ImportedCases(d: Dataset, regularise: bool)
    ensures d.translations.None? ==> Imported(d, regularise) == Err(MissingTranslations)
    ensures d.translations.Some? && d.rotations.None? ==> Imported(d, regularise) == Err(MissingRotations)
    ensures Imported(d, regularise).Ok? <==>
      d.translations.Some? && d.rotations.Some? && |d.translations.value| <= |d.rotations.value|
    ensures Imported(d, regularise).Ok? ==>
      var ops, tr, rot := Imported(d, regularise).value, d.translations.value, d.rotations.value;
      |ops| == |tr| &&
      forall i, a :: 0 <= i < |ops| && 0 <= a < 3 ==>
        |ops[i][a]| == 4 && ops[i][a][..3] == rot[i][a] && ops[i][a][3] == Shift(tr[i], a, regularise)
  {
    if Imported(d, regularise).Ok? {
      var ops, tr, rot := Imported(d, regularise).value, d.translations.value, d.rotations.value;
      forall i, a | 0 <= i < |ops| && 0 <= a < 3
        ensures |ops[i][a]| == 4 && ops[i][a][..3] == rot[i][a] && ops[i][a][3] == Shift(tr[i], a, regularise)
      {
        assert ops[i] == Operation(rot[i], tr[i], regularise);
        assert |rot[i][a]| == 3;
      }
    }
  }

  /** Without regularisation the translations are copied unchanged. */
  lemma PlainTranslations(d: Dataset)
    requires Imported(d, false).Ok?
    ensures forall i, a :: 0 <= i < |Imported(d, false).value| && 0 <= a < 3 ==>
      Imported(d, false).value[i][a][3] == d.translations.value[i][a]
  {
    ImportedCases(d, false);
  }

  /** A half of an integer has fractional part 0 (even) or 1/2 (odd). */
  lemma HalfFraction(k: int)
    ensures k % 2 == 0 ==> ModOne(k as real / 2.0) == 0.0
    ensures k % 2 == 1 ==> ModOne(k as real / 2.0) == 0.5
    ensures (k as real / 2.0).Floor == k / 2
  {
    var q := k / 2;
    var h := k as real / 2.0;
    if k % 2 == 0 {
      assert k as real == 2.0 * q as real;
      assert h == q as real;
    } else {
      assert k as real == 2.0 * q as real + 1.0;
      assert h == q as real + 0.5;
    }
  }

  /** A regularised component is exactly 0 or 1/2. */
  lemma RegulariseHalf(t: real)
    ensures Regularise(t) == 0.0 || Regularise(t) == 0.5
  {
    HalfFraction((2.0 * t + 0.5).Floor);
  }

  /** Regularisation moves a component by at most 1/4, up to a whole
      lattice translation n: it picks the nearest multiple of 1/2. */
  lemma RegulariseNearest(t: real) returns (n: int)
    ensures -0.25 <= t - (Regularise(t) + n as real) < 0.25
  {
    var k := (2.0 * t + 0.5).Floor;
    HalfFraction(k);
    n := k / 2;
    assert Regularise(t) + n as real == k as real / 2.0;
  }

  /** Components 0 and 1/2 are left as they are. */
  lemma RegulariseFixed(t: real)
    requires t == 0.0 || t == 0.5
    ensures Regularise(t) == t
  {
    if t == 0.0 {
      assert (2.0 * t + 0.5).Floor == 0;
    } else {
      assert (2.0 * t + 0.5).Floor == 1;
      HalfFraction(1);
    }
  }

  /** Regularising twice is regularising once. */
  lemma RegulariseIdempotent(t: real)
    ensures Regularise(Regularise(t)) == Regularise(t)
  {
    RegulariseHalf(t);
    RegulariseFixed(Regularise(t));
  }

  /** Translations that differ by a lattice vector are regularised alike. */
  lemma RegularisePeriodic(t: real, n: int)
    ensures Regularise(t + n as real) == Regularise(t)
  {
    var k := (2.0 * t + 0.5).Floor;
    assert (2.0 * (t + n as real) + 0.5).Floor == k + 2 * n;
    HalfFraction(k);
    HalfFraction(k + 2 * n);
  }

  /** With regularisation every translation component of every imported
      operation is exactly 0 or 1/2. */
  lemma RegularisedTranslations(d: Dataset)
    requires Imported(d, true).Ok?
    ensures forall i, a :: 0 <= i < |Imported(d, true).value| && 0 <= a < 3 ==>
      Imported(d, true).value[i][a][3] == 0.0 || Imported(d, true).value[i][a][3] == 0.5
  {
    ImportedCases(d, true);
    var ops := Imported(d, true).value;
    forall i, a | 0 <= i < |ops| && 0 <= a < 3
      ensures ops[i][a][3] == 0.0 || ops[i][a][3] == 0.5
    {
      RegulariseHalf(d.translations.value[i][a]);
    }
  }
}
