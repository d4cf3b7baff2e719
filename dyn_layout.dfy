/** How the files `Phonons.save_qe` writes are laid out, and where they
    meet what `Phonons.LoadFromQE` reads: the names of the files, the
    matrices each star block prints, the header lines at the indices the
    reader looks at, and the block header, which the reader does not
    recognise.
 */
module DynLayout {
  import opened Wrappers
  import opened Matrices
  import opened Text
  import opened Species
  import opened Structures
  import opened QStars
  import opened DynFormat
  import opened DynRead
  import opened DynWrite

  // ---------------------------------------------------------------------
  // The files and count_q

  /** Once a file fails, no later file is written. */
  lemma {:induction false} WriteFilesStopped(text: (nat, nat) -> Result<(seq<string>, nat)>, filename: string, fullName: bool,
                                             k: nat, n: nat)
    requires k <= n && WriteFiles(text, filename, fullName, k).Err?
    ensures WriteFiles(text, filename, fullName, n) == WriteFiles(text, filename, fullName, k)
    decreases n
  {
    if n > k {
      WriteFilesStopped(text, filename, fullName, k, n - 1);
    }
  }

  /** The files completed by the first n iterations: when the loop
      raises, exactly the k files before the iteration k that raised,
      whole, and that iteration's error is the loop's. */
  lemma {:induction false} CompletedFiles(text: (nat, nat) -> Result<(seq<string>, nat)>, filename: string, fullName: bool, n: nat)
    ensures WriteFiles(text, filename, fullName, n).Ok? ==>
      Completed(text, filename, fullName, n) == WriteFiles(text, filename, fullName, n).value.0
    ensures WriteFiles(text, filename, fullName, n).Err? ==>
      var k := |Completed(text, filename, fullName, n)|;
      k < n && WriteFiles(text, filename, fullName, k).Ok? &&
      Completed(text, filename, fullName, n) == WriteFiles(text, filename, fullName, k).value.0 &&
      text(k, WriteFiles(text, filename, fullName, k).value.1) == Err(WriteFiles(text, filename, fullName, n).error)
    decreases n
  {
    if n > 0 && WriteFiles(text, filename, fullName, n).Err? {
      CompletedFiles(text, filename, fullName, n - 1);
    }
  }

  /** Once an iteration raises, no later one completes a file. */
  lemma {:induction false} CompletedStopped(text: (nat, nat) -> Result<(seq<string>, nat)>, filename: string, fullName: bool,
                                            k: nat, n: nat)
    requires k <= n && WriteFiles(text, filename, fullName, k).Err?
    ensures Completed(text, filename, fullName, n) == Completed(text, filename, fullName, k)
    decreases n
  {
    if n > k {
      WriteFilesStopped(text, filename, fullName, k, n);
      CompletedStopped(text, filename, fullName, k, n - 1);
    }
  }

  /** One more file: its name and text are appended, or its error ends
      the writing. */
  lemma WriteFilesNext(text: (nat, nat) -> Result<(seq<string>, nat)>, filename: string, fullName: bool, n: nat)
    requires WriteFiles(text, filename, fullName, n).Ok?
    ensures var prev := WriteFiles(text, filename, fullName, n).value;
      var file := text(n, prev.1);
      (file.Err? ==> WriteFiles(text, filename, fullName, n + 1) == Err(file.error)) &&
      (file.Ok? ==> WriteFiles(text, filename, fullName, n + 1) ==
                    Ok((prev.0 + [(FileName(filename, n, fullName), file.value.0)], file.value.1)))
  {
  }

  /** When the text of file iq advances `count_q` by the size of star
      iq, then after n files `count_q` is the number of points in the
      first n stars, and file k is named after k and holds the text of
      star k started at the count of the stars before it. */
  lemma {:induction false} WriteFilesCount(text: (nat, nat) -> Result<(seq<string>, nat)>, filename: string, fullName: bool,
                                           stars: seq<seq<Vec>>, n: nat)
    requires forall iq: nat, c: nat :: text(iq, c).Ok? ==> iq < |stars| && text(iq, c).value.1 == c + |stars[iq]|
    requires WriteFiles(text, filename, fullName, n).Ok?
    ensures n <= |stars|
    ensures var r := WriteFiles(text, filename, fullName, n).value;
      r.1 == |Flatten(stars[..n])| &&
      forall k :: 0 <= k < n ==>
        r.0[k].0 == FileName(filename, k, fullName) &&
        text(k, |Flatten(stars[..k])|) == Ok((r.0[k].1, |Flatten(stars[..k + 1])|))
    decreases n
  {
    if n > 0 {
      var _ := WriteFilesLast(text, filename, fullName, n);
      WriteFilesCount(text, filename, fullName, stars, n - 1);
      WriteFilesCountStep(text, filename, fullName, stars, n);
    }
  }

  /** One more file keeps what WriteFilesCount states. */
  lemma WriteFilesCountStep(text: (nat, nat) -> Result<(seq<string>, nat)>, filename: string, fullName: bool,
                            stars: seq<seq<Vec>>, n: nat)
    requires forall iq: nat, c: nat :: text(iq, c).Ok? ==> iq < |stars| && text(iq, c).value.1 == c + |stars[iq]|
    requires n > 0 && WriteFiles(text, filename, fullName, n).Ok? && WriteFiles(text, filename, fullName, n - 1).Ok?
    requires n - 1 <= |stars|
    requires var r := WriteFiles(text, filename, fullName, n - 1).value;
      r.1 == |Flatten(stars[..n - 1])| &&
      forall k :: 0 <= k < n - 1 ==>
        r.0[k].0 == FileName(filename, k, fullName) &&
        text(k, |Flatten(stars[..k])|) == Ok((r.0[k].1, |Flatten(stars[..k + 1])|))
    ensures n <= |stars|
    ensures var r := WriteFiles(text, filename, fullName, n).value;
      r.1 == |Flatten(stars[..n])| &&
      forall k :: 0 <= k < n ==>
        r.0[k].0 == FileName(filename, k, fullName) &&
        text(k, |Flatten(stars[..k])|) == Ok((r.0[k].1, |Flatten(stars[..k + 1])|))
  {
    var prev := WriteFiles(text, filename, fullName, n - 1).value;
    var file := WriteFilesLast(text, filename, fullName, n);
    FlattenTake(stars, n);
    var r := WriteFiles(text, filename, fullName, n).value;
    forall k | 0 <= k < n
      ensures r.0[k].0 == FileName(filename, k, fullName)
      ensures text(k, |Flatten(stars[..k])|) == Ok((r.0[k].1, |Flatten(stars[..k + 1])|))
    {
      if k < n - 1 {
        assert r.0[k] == prev.0[k];
      } else {
        assert k + 1 == n && r.0[k] == (FileName(filename, k, fullName), file.0);
      }
    }
  }

  /** The first n stars hold the points of the first n - 1 and of star n - 1. */
  lemma FlattenTake(stars: seq<seq<Vec>>, n: nat)
    requires 0 < n <= |stars|
    ensures |Flatten(stars[..n])| == |Flatten(stars[..n - 1])| + |stars[n - 1]|
  {
    assert stars[..n][..n - 1] == stars[..n - 1];
  }

  /** The last of n files written: the text of iq = n - 1 at the count
      the earlier files left. */
  lemma WriteFilesLast(text: (nat, nat) -> Result<(seq<string>, nat)>, filename: string, fullName: bool, n: nat)
    returns (file: (seq<string>, nat))
    requires n > 0 && WriteFiles(text, filename, fullName, n).Ok?
    ensures WriteFiles(text, filename, fullName, n - 1).Ok?
    ensures var prev := WriteFiles(text, filename, fullName, n - 1).value;
      text(n - 1, prev.1) == Ok(file) &&
      WriteFiles(text, filename, fullName, n).value == (prev.0 + [(FileName(filename, n - 1, fullName), file.0)], file.1)
  {
    file := text(n - 1, WriteFiles(text, filename, fullName, n - 1).value.1).value;
  }

  /** `save_qe` writes one file per irreducible q point (one with
      `full_name`), named as `LoadFromQE` names them; file k is the text
      of star k whose first matrix is `dynmats[c]`, c being the number of
      points in the stars before it. */
  lemma {:induction false} SavedFiles(num: Numbers, p: PhononsValue, dyag: Dyag, filename: string, fullName: bool)
    requires Shaped(p.structure) && Saved(num, p, dyag, filename, fullName).Ok?
    ensures var files := Saved(num, p, dyag, filename, fullName).value;
      |files| == FileCount(p.nqirr, fullName) <= |p.qStars| &&
      forall k :: 0 <= k < |files| ==>
        files[k].0 == FileName(filename, k, fullName) &&
        FileText(num, p, dyag, k, |Flatten(p.qStars[..k])|) == Ok((files[k].1, |Flatten(p.qStars[..k + 1])|))
  {
    var text := TextStep(num, p, dyag);
    forall iq: nat, c: nat
      ensures text(iq, c).Ok? ==> iq < |p.qStars| && text(iq, c).value.1 == c + |p.qStars[iq]|
    {
      assert text(iq, c) == FileText(num, p, dyag, iq, c);
    }
    WriteFilesCount(text, filename, fullName, p.qStars, FileCount(p.nqirr, fullName));
  }

  // ---------------------------------------------------------------------
  // The blocks of a star

  /** A matrix of N atoms takes 4 N^2 lines: a pair line and three rows
      for each pair of atoms. */
  lemma {:induction false} MatrixTextLength(num: Numbers, dynmats: seq<CMat>, k: nat, nAtoms: nat, n: nat)
    requires MatrixText(num, dynmats, k, nAtoms, n).Ok?
    ensures |MatrixText(num, dynmats, k, nAtoms, n).value| == 4 * nAtoms * n
    decreases n
  {
    if n > 0 {
      MatrixTextLength(num, dynmats, k, nAtoms, n - 1);
      assert 4 * nAtoms * n == 4 * nAtoms * (n - 1) + 4 * nAtoms;
    }
  }

  /** The lines of the first j blocks begin the lines of the first n. */
  lemma {:induction false} ConcatPrefix(block: nat -> Result<seq<string>>, j: nat, n: nat)
    requires j <= n && Concat(block, n).Ok?
    ensures Concat(block, j).Ok? && Concat(block, j).value <= Concat(block, n).value
    decreases n
  {
    if j < n {
      ConcatPrefix(block, j, n - 1);
    }
  }

  /** (j + 1) b = j b + b */
  lemma {:induction false} MulSucc(j: nat, b: nat)
    ensures (j + 1) * b == j * b + b
  {
  }

  /** When every block takes b lines, n blocks take n b lines. */
  lemma {:induction false} ConcatLength(block: nat -> Result<seq<string>>, b: nat, n: nat)
    requires forall j: nat :: block(j).Ok? ==> |block(j).value| == b
    requires Concat(block, n).Ok?
    ensures |Concat(block, n).value| == n * b
    decreases n
  {
    if n > 0 {
      ConcatLength(block, b, n - 1);
      MulSucc(n - 1, b);
    }
  }

  /** When every block takes b lines, block j of n is found at j b. */
  lemma {:induction false} ConcatAt(block: nat -> Result<seq<string>>, b: nat, n: nat, j: nat)
    requires forall j: nat :: block(j).Ok? ==> |block(j).value| == b
    requires j < n && Concat(block, n).Ok?
    ensures var lines := Concat(block, n).value;
      block(j).Ok? && 0 <= j * b <= j * b + b <= |lines| && lines[j * b..j * b + b] == block(j).value
  {
    ConcatPrefix(block, j + 1, n);
    ConcatLength(block, b, j);
    ConcatLength(block, b, j + 1);
    MulSucc(j, b);
    var lines := Concat(block, n).value;
    var upTo := Concat(block, j + 1).value;
    var before := Concat(block, j).value;
    assert upTo == before + block(j).value;
    assert lines[|before|..|upTo|] == upTo[|before|..];
  }

  /** Every block of a star takes 5 + 4 N^2 lines. */
  lemma {:induction false} BlockTextLength(num: Numbers, dynmats: seq<CMat>, nAtoms: nat, star: seq<Vec>, countQ: nat, j: nat)
    requires BlockText(num, dynmats, nAtoms, star, countQ, j).Ok?
    ensures |BlockText(num, dynmats, nAtoms, star, countQ, j).value| == BlockSize(nAtoms)
  {
    MatrixTextLength(num, dynmats, countQ + j, nAtoms, nAtoms);
  }

  /** Block j of a star whose first matrix is `dynmats[countQ]` is the
      head of q point j followed by the lines of `dynmats[countQ + j]`,
      found at line j b, b = 5 + 4 N^2 being the size of a block. */
  lemma {:induction false} StarBlock(num: Numbers, dynmats: seq<CMat>, nAtoms: nat, star: seq<Vec>, countQ: nat, n: nat, j: nat)
    requires j < n && StarLines(num, dynmats, nAtoms, star, countQ, n).Ok?
    ensures var lines := StarLines(num, dynmats, nAtoms, star, countQ, n).value;
      var b := BlockSize(nAtoms);
      j < |star| && BlockHead(num, star[j]).Ok? && MatrixText(num, dynmats, countQ + j, nAtoms, nAtoms).Ok? &&
      0 <= j * b <= j * b + b <= |lines| &&
      lines[j * b..j * b + b] == BlockHead(num, star[j]).value + MatrixText(num, dynmats, countQ + j, nAtoms, nAtoms).value
  {
    var b := BlockSize(nAtoms);
    var block := (i: nat) => BlockText(num, dynmats, nAtoms, star, countQ, i);
    forall i: nat | block(i).Ok?
      ensures |block(i).value| == b
    {
      BlockTextLength(num, dynmats, nAtoms, star, countQ, i);
    }
    ConcatAt(block, b, n, j);
  }

  /** The pair line of atoms (i, j) and its three rows: row x holds the
      entries (3i + x, 3j), (3i + x, 3j + 1) and (3i + x, 3j + 2). */
  lemma {:induction false} PairBlock(num: Numbers, dynmats: seq<CMat>, k: nat, i: nat, j: nat)
    requires PairLines(num, dynmats, k, i, j, 3).Ok?
    ensures RowText(num, dynmats, k, 3 * i, 3 * j).Ok? && RowText(num, dynmats, k, 3 * i + 1, 3 * j).Ok? &&
      RowText(num, dynmats, k, 3 * i + 2, 3 * j).Ok?
    ensures PairLines(num, dynmats, k, i, j, 3).value ==
      [PairText(i, j), RowText(num, dynmats, k, 3 * i, 3 * j).value,
       RowText(num, dynmats, k, 3 * i + 1, 3 * j).value, RowText(num, dynmats, k, 3 * i + 2, 3 * j).value]
  {
    assert PairLines(num, dynmats, k, i, j, 2).Ok?;
    assert PairLines(num, dynmats, k, i, j, 1).Ok?;
    assert PairLines(num, dynmats, k, i, j, 0) == Ok([PairText(i, j)]);
  }

  // ---------------------------------------------------------------------
  // The header

  /** The header puts the `ntyp nat ibrav alat` line at index 2, the
      cell rows at 4 .. 6, species k (numbered k + 1) at 7 + k and atom
      i at 7 + ntyp + i: the indices the reader looks at. */
  lemma {:induction false} HeaderLayout(num: Numbers, s: StructureValue, alat: real)
    requires Shaped(s) && HeaderText(num, s, alat).Ok?
    ensures var h := HeaderText(num, s, alat).value;
      var types := FirstAppearance(s.atoms);
      |h| == 7 + |types| + s.nAtoms &&
      h[0] == FileTitle && h[1] == Credit && h[2] == InfoLine(num, |types|, s.nAtoms, alat) && h[3] == BasisTitle &&
      (forall i :: 0 <= i < 3 ==> h[4 + i] == CellLine(num, s.unitCell, i, alat)) &&
      (forall k :: 0 <= k < |types| ==> types[k] in s.masses && h[7 + k] == SpeciesText(num, k, types[k], s.masses[types[k]])) &&
      (forall i :: 0 <= i < s.nAtoms ==> h[7 + |types| + i] == AtomText(num, i, Rank(s.atoms, i), s.coords[i], alat))
  {
    var types := FirstAppearance(s.atoms);
    var species := SpeciesLines(num, types, s.masses, |types|).value;
    var cells := CellLines(num, s.unitCell, alat, 3);
    var atoms := AtomLines(num, s, alat, s.nAtoms);
    var h := HeaderText(num, s, alat).value;
    assert h == [FileTitle, Credit, InfoLine(num, |types|, s.nAtoms, alat), BasisTitle] + cells + species + atoms;
  }

  /** The species number written on the line of atom i names, on the
      species lines, the label of atom i. */
  lemma {:induction false} AtomSpecies(atoms: seq<Label>, i: nat)
    requires i < |atoms|
    ensures var types := FirstAppearance(atoms);
      1 <= Rank(atoms, i) <= |types| && types[Rank(atoms, i) - 1] == atoms[i]
  {
    assert atoms[i] in FirstAppearance(atoms);
  }

  // ---------------------------------------------------------------------
  // The block header

  /** The block header save_qe emits as written, stripped as the reader
      strips every line, is its 34-character title: one space between
      "Dynamical" and "Matrix", where the reader expects two. */
  lemma {:induction false} StrippedBlockHeader()
    ensures Strip(WrittenHeader) == BlockTitle && |BlockTitle| == 34
  {
    StripPadded("     ", BlockTitle, "");
    assert "     " + BlockTitle + "" == WrittenHeader;
  }

  /** So the stripped header as written does not contain the text the
      reader looks for, which is one character longer: the reader never
      finds the first block of such a file. */
  lemma {:induction false} BlockHeaderMismatch()
    ensures !Contains(Strip(WrittenHeader), ReadHeader)
  {
    StrippedBlockHeader();
    assert |Strip(WrittenHeader)| < |ReadHeader|;
  }

  /** The header save_qe means to write, stripped, is the text the reader
      looks for, so the reader would stop at it. */
  lemma {:induction false} BlockHeaderFound()
    ensures Strip(BlockHeader) == ReadHeader && Contains(Strip(BlockHeader), ReadHeader)
  {
    StripPadded("     ", ReadHeader, "");
    assert "     " + ReadHeader + "" == BlockHeader;
    assert OccursAt(ReadHeader, ReadHeader, 0);
  }

  // ---------------------------------------------------------------------
  // The modes

  /** The numbers printed as written differ from the intended ones in the
      sixth only, which is the imaginary part of the y component instead
      of the z component. */
  lemma {:induction false} PolNumbersAsWrittenSixth(pol: CMat, i: nat, mu: nat)
    requires PolNumbers(pol, i, mu).Ok?
    ensures PolNumbersAsWritten(pol, i, mu) == Ok(PolNumbers(pol, i, mu).value[5 := pol[3 * i + 1][mu].im])
  {
    var x, y, z := pol[3 * i][mu], pol[3 * i + 1][mu], pol[3 * i + 2][mu];
    assert PolNumbers(pol, i, mu).value == [x.re, x.im, y.re, y.im, z.re, z.im];
    assert PolNumbersAsWritten(pol, i, mu) == Ok([x.re, x.im, y.re, y.im, z.re, y.im]);
    var v := [x.re, x.im, y.re, y.im, z.re, z.im];
    assert v[5 := y.im] == [x.re, x.im, y.re, y.im, z.re, y.im] by {
      forall k | 0 <= k < 6
        ensures v[5 := y.im][k] == [x.re, x.im, y.re, y.im, z.re, y.im][k]
      {
      }
    }
  }

  /** A mode whose z component is imaginary and whose y component is zero
      prints, as written, a zero where the intended line has 1. */
  lemma {:induction false} PolNumbersCounterexample()
    ensures var pol := [[Complex(0.0, 0.0)], [Complex(0.0, 0.0)], [Complex(0.0, 1.0)]];
      PolNumbers(pol, 0, 0) == Ok([0.0, 0.0, 0.0, 0.0, 0.0, 1.0]) &&
      PolNumbersAsWritten(pol, 0, 0) == Ok([0.0, 0.0, 0.0, 0.0, 0.0, 0.0])
  {
  }

  /** Every mode takes one line for its frequency and one per atom. */
  lemma {:induction false} ModeTextLength(num: Numbers, freqs: seq<real>, pol: CMat, nAtoms: nat, mu: nat)
    requires ModeText(num, freqs, pol, nAtoms, mu).Ok?
    ensures |ModeText(num, freqs, pol, nAtoms, mu).value| == 1 + nAtoms
  {
  }

  /** Mode mu of the report is found at line mu (1 + N): the frequency
      line of mode mu, then the line of every atom for column mu. */
  lemma {:induction false} ModeBlock(num: Numbers, freqs: seq<real>, pol: CMat, nAtoms: nat, mu: nat)
    requires mu < |freqs| && ModeLines(num, freqs, pol, nAtoms).Ok?
    ensures var lines := ModeLines(num, freqs, pol, nAtoms).value;
      var b := 1 + nAtoms;
      PolLines(num, pol, mu, nAtoms).Ok? && 0 <= mu * b <= mu * b + b <= |lines| &&
      lines[mu * b..mu * b + b] == [FreqText(num, mu, freqs[mu])] + PolLines(num, pol, mu, nAtoms).value
  {
    var b := 1 + nAtoms;
    var mode := (m: nat) => ModeText(num, freqs, pol, nAtoms, m);
    forall m: nat | mode(m).Ok?
      ensures |mode(m).value| == b
    {
      ModeTextLength(num, freqs, pol, nAtoms, m);
    }
    ConcatAt(mode, b, |freqs|, mu);
    ModeTextOk(num, freqs, pol, nAtoms, mu);
  }

  /** A mode that is written: its frequency line, then its atom lines. */
  lemma ModeTextOk(num: Numbers, freqs: seq<real>, pol: CMat, nAtoms: nat, mu: nat)
    requires ModeText(num, freqs, pol, nAtoms, mu).Ok?
    ensures mu < |freqs| && PolLines(num, pol, mu, nAtoms).Ok?
    ensures ModeText(num, freqs, pol, nAtoms, mu).value == [FreqText(num, mu, freqs[mu])] + PolLines(num, pol, mu, nAtoms).value
  {
  }
}
