/** Why `Phonons.LoadFromQE` cannot read back what `Phonons.save_qe`
    writes.  The reader skips stripped lines until one contains
    "Dynamical  Matrix in cartesian axes", with two spaces
    (Phonons.py:185-193), and no line of a written file contains it:
    the block header and the "Diagonalizing" line leave no room for it
    after their five-space indent, the title is too short, a species
    line holds its label between quotes, and every other line has no
    capital D at all.
 */
module DynReadBack {
  import opened Wrappers
  import opened Matrices
  import opened Text
  import opened Species
  import opened Structures
  import opened QStars
  import opened DynFormat
  import opened DynRead
  import opened DynWrite
  import opened DynLayout
  import DynLoad

  /** `"%.<p>f"` prints a sign, digits, a point, or `inf` or `nan`: never
      a capital D. */
  ghost predicate PlainFixed(num: Numbers)
  {
    forall x, p :: 'D' !in num.fixed(x, p)
  }

  /** No label holds the text the reader looks for. */
  predicate LabelsApart(atoms: seq<Label>)
  {
    forall i :: 0 <= i < |atoms| ==> !Contains(atoms[i], ReadHeader)
  }

  /** The line does not contain the text the reader looks for, nor
      then does the line stripped (`StripContains`). */
  predicate Unfound(line: string)
  {
    !Contains(line, ReadHeader)
  }

  predicate AllUnfound(lines: seq<string>)
  {
    forall k :: 0 <= k < |lines| ==> Unfound(lines[k])
  }

  // ---------------------------------------------------------------------
  // Occurrences

  /** p does not occur at i when one of its characters differs there. */
  lemma Mismatch(s: string, p: string, i: nat, j: nat)
    requires i + |p| <= |s| && j < |p| && s[i + j] != p[j]
    ensures !OccursAt(s, p, i)
  {
    assert s[i..i + |p|][j] == s[i + j];
  }

  /** Stripping cuts a slice out of a line, so what occurs in the
      stripped line occurs in the line. */
  lemma StripContains(s: string, p: string)
    ensures Contains(Strip(s), p) ==> Contains(s, p)
  {
    var t := TrimLeft(s);
    var u := TrimRight(t);
    var m := |s| - |t|;
    assert u == s[m..m + |u|];
    if Contains(u, p) {
      var i :| 0 <= i <= |u| && OccursAt(u, p, i);
      OccursInside(s, m, u, p, i);
    }
  }

  /** What occurs in a slice of s occurs in s, shifted by the slice's start. */
  lemma OccursInside(s: string, m: nat, u: string, p: string, i: nat)
    requires m + |u| <= |s| && u == s[m..m + |u|] && OccursAt(u, p, i)
    ensures OccursAt(s, p, m + i)
  {
    var a, b := u[i..i + |p|], s[m + i..m + i + |p|];
    forall x | 0 <= x < |p|
      ensures a[x] == b[x]
    {
      assert a[x] == u[i + x] == s[m..m + |u|][i + x];
    }
    assert a == b;
  }

  /** A line without a capital D does not contain the header. */
  lemma NoCapitalD(s: string)
    requires 'D' !in s
    ensures Unfound(s)
  {
    forall i | 0 <= i && i + |ReadHeader| <= |s|
      ensures !OccursAt(s, ReadHeader, i)
    {
      assert s[i] in s;
      Mismatch(s, ReadHeader, i, 0);
    }
  }

  /** Every line in a list without a capital D. */
  lemma AllNoCapitalD(lines: seq<string>)
    requires forall k :: 0 <= k < |lines| ==> 'D' !in lines[k]
    ensures AllUnfound(lines)
  {
    forall k | 0 <= k < |lines|
      ensures Unfound(lines[k])
    {
      NoCapitalD(lines[k]);
    }
  }

  /** A line of five spaces and fewer characters than the header: the
      text cannot start in the indentation, and there is no room after
      it. */
  lemma IndentedShort(s: string)
    requires |s| < 5 + |ReadHeader| && forall i :: 0 <= i < 5 && i < |s| ==> s[i] == ' '
    ensures Unfound(s)
  {
    forall i | 0 <= i && i + |ReadHeader| <= |s|
      ensures !OccursAt(s, ReadHeader, i)
    {
      Mismatch(s, ReadHeader, i, 0);
    }
  }

  // ---------------------------------------------------------------------
  // Fields and lines without a capital D

  lemma {:induction false} JoinPlain(ws: seq<string>, sep: string)
    requires 'D' !in sep && forall k :: 0 <= k < |ws| ==> 'D' !in ws[k]
    ensures 'D' !in Join(ws, sep)
    decreases |ws|
  {
    if |ws| > 1 {
      JoinPlain(ws[1..], sep);
    }
  }

  lemma ShowIntPlain(n: int)
    ensures 'D' !in ShowInt(n)
  {
    var s := ShowNat(if n < 0 then -n else n);
    assert forall i :: 0 <= i < |s| ==> IsDigit(s[i]);
  }

  lemma FixedPlain(num: Numbers, x: real, p: nat)
    requires PlainFixed(num)
    ensures 'D' !in num.fixed(x, p)
  {
  }

  /** The fields every number line is made of. */
  lemma FieldsPlain(num: Numbers)
    requires PlainFixed(num)
    ensures forall x :: 'D' !in F10(num, x)
    ensures forall x :: 'D' !in F12(num, x)
    ensures forall x :: 'D' !in F15(num, x)
    ensures forall n :: 'D' !in I5(n)
  {
    forall x
      ensures 'D' !in F10(num, x) && 'D' !in F12(num, x) && 'D' !in F15(num, x)
    {
      FixedPlain(num, x, 6);
      FixedPlain(num, x, 8);
      FixedPlain(num, x, 10);
    }
    forall n
      ensures 'D' !in I5(n)
    {
      ShowIntPlain(n);
    }
  }

  /** The number lines of the header. */
  lemma InfoLinePlain(num: Numbers, nTypes: int, nAtoms: int, alat: real)
    requires PlainFixed(num)
    ensures 'D' !in InfoLine(num, nTypes, nAtoms, alat)
  {
    var fields := InfoFields(num, nTypes, nAtoms, alat);
    ShowIntPlain(nTypes);
    ShowIntPlain(nAtoms);
    ShowIntPlain(0);
    FixedPlain(num, alat * AngstromToBohr, 8);
    FixedPlain(num, 0.0, 8);
    assert forall k :: 0 <= k < |fields| ==> 'D' !in fields[k];
    JoinPlain(fields, " ");
  }

  lemma CellLinePlain(num: Numbers, cell: Mat, i: nat, alat: real)
    requires PlainFixed(num)
    ensures 'D' !in CellLine(num, cell, i, alat)
  {
    FieldsPlain(num);
    var fields := [F12(num, Over(At(cell, i, 0), alat)), F12(num, Over(At(cell, i, 1), alat)),
                   F12(num, Over(At(cell, i, 2), alat))];
    assert forall k :: 0 <= k < |fields| ==> 'D' !in fields[k];
    JoinPlain(fields, " ");
  }

  lemma AtomTextPlain(num: Numbers, i: int, itau: int, coord: Vec, alat: real)
    requires PlainFixed(num)
    ensures 'D' !in AtomText(num, i, itau, coord, alat)
  {
    FieldsPlain(num);
    var fields := [I5(i + 1), I5(itau), F15(num, Over(VAt(coord, 0), alat)), F15(num, Over(VAt(coord, 1), alat)),
                   F15(num, Over(VAt(coord, 2), alat))];
    assert forall k :: 0 <= k < |fields| ==> 'D' !in fields[k];
    JoinPlain(fields, " ");
  }

  lemma QTextPlain(num: Numbers, q: Vec)
    requires PlainFixed(num) && QText(num, q).Ok?
    ensures 'D' !in QText(num, q).value
  {
    FixedPlain(num, q[0], 9);
    FixedPlain(num, q[1], 9);
    FixedPlain(num, q[2], 9);
    assert 'D' !in "     q = (    " && 'D' !in "   " && 'D' !in " )";
  }

  lemma RowTextPlain(num: Numbers, dynmats: seq<CMat>, k: nat, a: nat, b: nat)
    requires PlainFixed(num) && RowText(num, dynmats, k, a, b).Ok?
    ensures 'D' !in RowText(num, dynmats, k, a, b).value
  {
    FieldsPlain(num);
  }

  lemma FreqTextPlain(num: Numbers, mu: nat, f: real)
    requires PlainFixed(num)
    ensures 'D' !in FreqText(num, mu, f)
  {
    FixedPlain(num, f * RyToTHz, 8);
    FixedPlain(num, f * RyToCm, 8);
    ShowIntPlain(mu + 1);
    assert 'D' !in "   freq (" && 'D' !in ") = " && 'D' !in " [THz] = " && 'D' !in " [cm-1]";
  }

  lemma PolTextPlain(num: Numbers, v: seq<real>)
    requires PlainFixed(num) && |v| == 6
    ensures 'D' !in PolText(num, v)
  {
    FieldsPlain(num);
  }

  /** Lines the reader passes over, one list after the other. */
  lemma AppendUnfound(a: seq<string>, b: seq<string>)
    requires AllUnfound(a) && AllUnfound(b)
    ensures AllUnfound(a + b)
  {
    forall k | 0 <= k < |a + b|
      ensures Unfound((a + b)[k])
    {
      if k >= |a| {
        assert (a + b)[k] == b[k - |a|];
      }
    }
  }

  // ---------------------------------------------------------------------
  // The blocks

  /** No line holds a capital D. */
  predicate AllPlain(lines: seq<string>)
  {
    forall k :: 0 <= k < |lines| ==> 'D' !in lines[k]
  }

  /** Plain lines hold no title. */
  lemma PlainUnfound(lines: seq<string>)
    requires AllPlain(lines)
    ensures AllUnfound(lines)
  {
    forall k | 0 <= k < |lines|
      ensures Unfound(lines[k])
    {
      NoCapitalD(lines[k]);
    }
  }

  /** Plain lines, one more plain line appended. */
  lemma AppendOnePlain(a: seq<string>, line: string, whole: seq<string>)
    requires AllPlain(a) && 'D' !in line && whole == a + [line]
    ensures AllPlain(whole)
  {
    forall k | 0 <= k < |whole|
      ensures 'D' !in whole[k]
    {
      if k < |a| {
        assert whole[k] == a[k];
      }
    }
  }

  /** A successful pair block of n rows is the block of n - 1 rows and
      row n - 1. */
  lemma PairLinesStep(num: Numbers, dynmats: seq<CMat>, k: nat, i: nat, j: nat, n: nat)
    requires 0 < n <= 3 && PairLines(num, dynmats, k, i, j, n).Ok?
    ensures PairLines(num, dynmats, k, i, j, n - 1).Ok? && RowText(num, dynmats, k, 3 * i + (n - 1), 3 * j).Ok?
    ensures PairLines(num, dynmats, k, i, j, n).value ==
      PairLines(num, dynmats, k, i, j, n - 1).value + [RowText(num, dynmats, k, 3 * i + (n - 1), 3 * j).value]
  {
  }

  /** The rows of atom pair (i, j) print no capital D. */
  predicate RowsPlain(num: Numbers, dynmats: seq<CMat>, k: nat, i: nat, j: nat)
  {
    forall a: nat :: 3 * i <= a < 3 * i + 3 && RowText(num, dynmats, k, a, 3 * j).Ok? ==>
      'D' !in RowText(num, dynmats, k, a, 3 * j).value
  }

  lemma PairRowsPlain(num: Numbers, dynmats: seq<CMat>, k: nat, i: nat, j: nat)
    requires PlainFixed(num)
    ensures 'D' !in PairText(i, j) && RowsPlain(num, dynmats, k, i, j)
  {
    FieldsPlain(num);
    forall a: nat | 3 * i <= a < 3 * i + 3 && RowText(num, dynmats, k, a, 3 * j).Ok?
      ensures 'D' !in RowText(num, dynmats, k, a, 3 * j).value
    {
      RowTextPlain(num, dynmats, k, a, 3 * j);
    }
  }

  /** A pair block of no rows is its plain head line. */
  lemma PairLinesPlainBase(num: Numbers, dynmats: seq<CMat>, k: nat, i: nat, j: nat)
    requires 'D' !in PairText(i, j)
    ensures AllPlain(PairLines(num, dynmats, k, i, j, 0).value)
  {
    assert PairLines(num, dynmats, k, i, j, 0).value == [PairText(i, j)];
  }

  /** Adding a plain row to a plain pair block keeps it plain. */
  lemma PairLinesPlainStep(num: Numbers, dynmats: seq<CMat>, k: nat, i: nat, j: nat, n: nat)
    requires RowsPlain(num, dynmats, k, i, j) && 0 < n <= 3
    requires PairLines(num, dynmats, k, i, j, n - 1).Ok? ==> AllPlain(PairLines(num, dynmats, k, i, j, n - 1).value)
    ensures PairLines(num, dynmats, k, i, j, n).Ok? ==> AllPlain(PairLines(num, dynmats, k, i, j, n).value)
  {
    if PairLines(num, dynmats, k, i, j, n).Ok? {
      PairLinesStep(num, dynmats, k, i, j, n);
      AppendOnePlain(PairLines(num, dynmats, k, i, j, n - 1).value, RowText(num, dynmats, k, 3 * i + (n - 1), 3 * j).value,
                     PairLines(num, dynmats, k, i, j, n).value);
    }
  }

  lemma {:induction false} PairLinesPlain(num: Numbers, dynmats: seq<CMat>, k: nat, i: nat, j: nat, n: nat)
    requires 'D' !in PairText(i, j) && RowsPlain(num, dynmats, k, i, j) && n <= 3
    ensures PairLines(num, dynmats, k, i, j, n).Ok? ==> AllPlain(PairLines(num, dynmats, k, i, j, n).value)
  {
    if n == 0 {
      PairLinesPlainBase(num, dynmats, k, i, j);
    } else {
      PairLinesPlain(num, dynmats, k, i, j, n - 1);
      PairLinesPlainStep(num, dynmats, k, i, j, n);
    }
  }

  lemma PairLinesUnfound(num: Numbers, dynmats: seq<CMat>, k: nat, i: nat, j: nat, n: nat)
    requires PlainFixed(num) && n <= 3 && PairLines(num, dynmats, k, i, j, n).Ok?
    ensures AllUnfound(PairLines(num, dynmats, k, i, j, n).value)
  {
    PairRowsPlain(num, dynmats, k, i, j);
    PairLinesPlain(num, dynmats, k, i, j, n);
    PlainUnfound(PairLines(num, dynmats, k, i, j, n).value);
  }

  lemma {:induction false} PairRowLinesUnfound(num: Numbers, dynmats: seq<CMat>, k: nat, i: nat, n: nat)
    requires PlainFixed(num) && PairRowLines(num, dynmats, k, i, n).Ok?
    ensures AllUnfound(PairRowLines(num, dynmats, k, i, n).value)
  {
    if n > 0 {
      PairRowLinesUnfound(num, dynmats, k, i, n - 1);
      PairLinesUnfound(num, dynmats, k, i, n - 1, 3);
      AppendUnfound(PairRowLines(num, dynmats, k, i, n - 1).value, PairLines(num, dynmats, k, i, n - 1, 3).value);
    }
  }

  lemma {:induction false} MatrixTextUnfound(num: Numbers, dynmats: seq<CMat>, k: nat, nAtoms: nat, n: nat)
    requires PlainFixed(num) && MatrixText(num, dynmats, k, nAtoms, n).Ok?
    ensures AllUnfound(MatrixText(num, dynmats, k, nAtoms, n).value)
  {
    if n > 0 {
      MatrixTextUnfound(num, dynmats, k, nAtoms, n - 1);
      PairRowLinesUnfound(num, dynmats, k, n - 1, nAtoms);
      AppendUnfound(MatrixText(num, dynmats, k, nAtoms, n - 1).value, PairRowLines(num, dynmats, k, n - 1, nAtoms).value);
    }
  }

  /** Blocks whose lines the reader passes over, one after the other. */
  lemma {:induction false} ConcatUnfound(block: nat -> Result<seq<string>>, n: nat)
    requires forall i: nat :: block(i).Ok? ==> AllUnfound(block(i).value)
    ensures Concat(block, n).Ok? ==> AllUnfound(Concat(block, n).value)
  {
    if n > 0 {
      ConcatUnfound(block, n - 1);
    }
  }

  /** The head of a block: three empty lines, the header as written,
      five spaces and 34 characters, and the q point. */
  lemma BlockHeadUnfound(num: Numbers, q: Vec)
    requires PlainFixed(num) && BlockHead(num, q).Ok?
    ensures AllUnfound(BlockHead(num, q).value)
  {
    var h := BlockHead(num, q).value;
    StrippedBlockHeader();
    IndentedShort(WrittenHeader);
    assert Unfound("");
    QTextPlain(num, q);
    NoCapitalD(h[3]);
  }

  lemma BlockTextUnfound(num: Numbers, dynmats: seq<CMat>, nAtoms: nat, star: seq<Vec>, countQ: nat, j: nat)
    requires PlainFixed(num) && BlockText(num, dynmats, nAtoms, star, countQ, j).Ok?
    ensures AllUnfound(BlockText(num, dynmats, nAtoms, star, countQ, j).value)
  {
    BlockHeadUnfound(num, star[j]);
    MatrixTextUnfound(num, dynmats, countQ + j, nAtoms, nAtoms);
    AppendUnfound(BlockHead(num, star[j]).value, MatrixText(num, dynmats, countQ + j, nAtoms, nAtoms).value);
  }

  lemma StarLinesUnfound(num: Numbers, dynmats: seq<CMat>, nAtoms: nat, star: seq<Vec>, countQ: nat, n: nat)
    requires PlainFixed(num) && StarLines(num, dynmats, nAtoms, star, countQ, n).Ok?
    ensures AllUnfound(StarLines(num, dynmats, nAtoms, star, countQ, n).value)
  {
    var block := (j: nat) => BlockText(num, dynmats, nAtoms, star, countQ, j);
    forall j: nat | block(j).Ok?
      ensures AllUnfound(block(j).value)
    {
      BlockTextUnfound(num, dynmats, nAtoms, star, countQ, j);
    }
    ConcatUnfound(block, n);
  }

  // ---------------------------------------------------------------------
  // The trailer

  lemma {:induction false} PolLinesUnfound(num: Numbers, pol: CMat, mu: nat, n: nat)
    requires PlainFixed(num) && PolLines(num, pol, mu, n).Ok?
    ensures AllUnfound(PolLines(num, pol, mu, n).value)
  {
    if n > 0 {
      PolLinesUnfound(num, pol, mu, n - 1);
      var line := PolText(num, PolNumbersAsWritten(pol, n - 1, mu).value);
      PolTextPlain(num, PolNumbersAsWritten(pol, n - 1, mu).value);
      NoCapitalD(line);
      AppendUnfound(PolLines(num, pol, mu, n - 1).value, [line]);
    }
  }

  lemma ModeTextUnfound(num: Numbers, freqs: seq<real>, pol: CMat, nAtoms: nat, mu: nat)
    requires PlainFixed(num) && ModeText(num, freqs, pol, nAtoms, mu).Ok?
    ensures AllUnfound(ModeText(num, freqs, pol, nAtoms, mu).value)
  {
    PolLinesUnfound(num, pol, mu, nAtoms);
    FreqTextPlain(num, mu, freqs[mu]);
    NoCapitalD(FreqText(num, mu, freqs[mu]));
    AppendUnfound([FreqText(num, mu, freqs[mu])], PolLines(num, pol, mu, nAtoms).value);
  }

  lemma ModeLinesUnfound(num: Numbers, freqs: seq<real>, pol: CMat, nAtoms: nat)
    requires PlainFixed(num) && ModeLines(num, freqs, pol, nAtoms).Ok?
    ensures AllUnfound(ModeLines(num, freqs, pol, nAtoms).value)
  {
    var mode := (mu: nat) => ModeText(num, freqs, pol, nAtoms, mu);
    forall mu: nat | mode(mu).Ok?
      ensures AllUnfound(mode(mu).value)
    {
      ModeTextUnfound(num, freqs, pol, nAtoms, mu);
    }
    ConcatUnfound(mode, |freqs|);
  }

  /** The "Diagonalizing" line is five spaces and 34 characters. */
  lemma DiagonalizingUnfound()
    ensures Unfound(DiagonalizingLine)
  {
    assert DiagonalizingLine == "     Diagonalizing the dynamical matrix";
    IndentedShort(DiagonalizingLine);
  }

  lemma TrailerUnfound(num: Numbers, s: StructureValue, dynmats: seq<CMat>, star: seq<Vec>, dyagIndex: nat, dyag: Dyag)
    requires PlainFixed(num) && Shaped(s) && Trailer(num, s, dynmats, star, dyagIndex, dyag).Ok?
    ensures AllUnfound(Trailer(num, s, dynmats, star, dyagIndex, dyag).value)
  {
    var d := dyag(s, dynmats, dyagIndex).value;
    var modes := ModeLines(num, d.0, d.1, s.nAtoms).value;
    var qt := QText(num, star[0]).value;
    ModeLinesUnfound(num, d.0, d.1, s.nAtoms);
    QTextPlain(num, star[0]);
    NoCapitalD(qt);
    DiagonalizingUnfound();
    assert Unfound("");
    NoCapitalD(Rule);
    var opening := ["", DiagonalizingLine, "", qt, "", Rule];
    assert AllUnfound(opening);
    AppendUnfound(opening, modes);
    AppendUnfound(opening + modes, [Rule]);
  }

  // ---------------------------------------------------------------------
  // The header

  /** A line whose only capital Ds are in a label closed by " '": the
      text cannot start outside the label, nor run from the label over
      the closing quote, which it does not contain. */
  lemma QuotedUnfound(pre: string, name: string, post: string)
    requires 'D' !in pre && 'D' !in post && !Contains(name, ReadHeader)
    requires |post| >= 2 && post[0] == ' ' && post[1] == '\''
    ensures Unfound(pre + name + post)
  {
    var line := pre + name + post;
    var a, e := |pre|, |pre| + |name|;
    forall i | 0 <= i && i + |ReadHeader| <= |line|
      ensures !OccursAt(line, ReadHeader, i)
    {
      if i < a {
        assert line[i] == pre[i] && pre[i] in pre;
        Mismatch(line, ReadHeader, i, 0);
      } else if i >= e {
        assert line[i] == post[i - e] && post[i - e] in post;
        Mismatch(line, ReadHeader, i, 0);
      } else if i + |ReadHeader| <= e {
        assert !OccursAt(name, ReadHeader, i - a);
        assert line[i..i + |ReadHeader|] == name[i - a..i - a + |ReadHeader|];
      } else if i + |ReadHeader| == e + 1 {
        assert line[e] == ' ' != ReadHeader[e - i];
        Mismatch(line, ReadHeader, i, e - i);
      } else {
        assert line[e + 1] == '\'' && ReadHeader[e + 1 - i] in ReadHeader;
        Mismatch(line, ReadHeader, i, e + 1 - i);
      }
    }
  }

  /** A species line holds its label between quotes and no capital D
      elsewhere. */
  lemma SpeciesUnfound(num: Numbers, k: int, name: Label, mass: real)
    requires PlainFixed(num) && !Contains(name, ReadHeader)
    ensures Unfound(SpeciesText(num, k, name, mass))
  {
    var pre := "\t" + ShowInt(k + 1) + "  '";
    var post := " '  " + num.fixed(mass, 8);
    assert SpeciesText(num, k, name, mass) == pre + name + post;
    ShowIntPlain(k + 1);
    FixedPlain(num, mass, 8);
    QuotedUnfound(pre, name, post);
  }

  /** The species lines, for labels that do not hold the text. */
  lemma SpeciesLinesUnfound(num: Numbers, s: StructureValue)
    requires PlainFixed(num) && LabelsApart(s.atoms)
    requires SpeciesLines(num, FirstAppearance(s.atoms), s.masses, |FirstAppearance(s.atoms)|).Ok?
    ensures AllUnfound(SpeciesLines(num, FirstAppearance(s.atoms), s.masses, |FirstAppearance(s.atoms)|).value)
  {
    var types := FirstAppearance(s.atoms);
    var lines := SpeciesLines(num, types, s.masses, |types|).value;
    forall k | 0 <= k < |lines|
      ensures Unfound(lines[k])
    {
      assert types[k] in s.atoms;
      SpeciesUnfound(num, k, types[k], s.masses[types[k]]);
    }
  }

  /** The title, the credit, the info line and "Basis vectors". */
  lemma OpeningUnfound(num: Numbers, nTypes: int, nAtoms: int, alat: real)
    requires PlainFixed(num)
    ensures AllUnfound([FileTitle, Credit, InfoLine(num, nTypes, nAtoms, alat), BasisTitle])
  {
    CreditUnfound();
    TitlesUnfound();
    InfoLinePlain(num, nTypes, nAtoms, alat);
    NoCapitalD(InfoLine(num, nTypes, nAtoms, alat));
  }

  lemma CreditUnfound()
    ensures Unfound(Credit)
  {
    CreditPlain();
    NoCapitalD(Credit);
  }

  /** A character in neither half is not in the whole. */
  lemma NotInJoined(a: string, b: string, c: char)
    requires c !in a && c !in b
    ensures c !in a + b
  {
    forall i | 0 <= i < |a + b|
      ensures (a + b)[i] != c
    {
      if i < |a| {
        assert (a + b)[i] == a[i];
      } else {
        assert (a + b)[i] == b[i - |a|];
      }
    }
  }

  lemma CreditPlain()
    ensures 'D' !in Credit
  {
    var p1, p2, p3, p4 := "File generated ", "with the ", "CellConstructor ", "by Lorenzo Monacelli";
    assert 'D' !in p1 && 'D' !in p2;
    assert 'D' !in p3 && 'D' !in p4;
    NotInJoined(p1, p2, 'D');
    NotInJoined(p1 + p2, p3, 'D');
    NotInJoined(p1 + p2 + p3, p4, 'D');
  }

  lemma TitlesUnfound()
    ensures Unfound(FileTitle) && Unfound(BasisTitle)
  {
    assert |FileTitle| < |ReadHeader| && |BasisTitle| < |ReadHeader|;
  }

  lemma CellLinesUnfound(num: Numbers, cell: Mat, alat: real)
    requires PlainFixed(num)
    ensures AllUnfound(CellLines(num, cell, alat, 3))
  {
    var cells := CellLines(num, cell, alat, 3);
    forall i | 0 <= i < 3
      ensures Unfound(cells[i])
    {
      CellLinePlain(num, cell, i, alat);
      NoCapitalD(cells[i]);
    }
  }

  lemma AtomLinesUnfound(num: Numbers, s: StructureValue, alat: real)
    requires PlainFixed(num) && Shaped(s)
    ensures AllUnfound(AtomLines(num, s, alat, s.nAtoms))
  {
    var atoms := AtomLines(num, s, alat, s.nAtoms);
    forall i | 0 <= i < s.nAtoms
      ensures Unfound(atoms[i])
    {
      AtomTextPlain(num, i, Rank(s.atoms, i), s.coords[i], alat);
      NoCapitalD(atoms[i]);
    }
  }

  lemma HeaderUnfound(num: Numbers, s: StructureValue, alat: real)
    requires PlainFixed(num) && Shaped(s) && LabelsApart(s.atoms) && HeaderText(num, s, alat).Ok?
    ensures AllUnfound(HeaderText(num, s, alat).value)
  {
    var types := FirstAppearance(s.atoms);
    var fixed := [FileTitle, Credit, InfoLine(num, |types|, s.nAtoms, alat), BasisTitle];
    var cells := CellLines(num, s.unitCell, alat, 3);
    var species := SpeciesLines(num, types, s.masses, |types|).value;
    var atoms := AtomLines(num, s, alat, s.nAtoms);
    assert HeaderText(num, s, alat).value == fixed + cells + species + atoms;
    OpeningUnfound(num, |types|, s.nAtoms, alat);
    CellLinesUnfound(num, s.unitCell, alat);
    AtomLinesUnfound(num, s, alat);
    SpeciesLinesUnfound(num, s);
    AppendUnfound(fixed, cells);
    AppendUnfound(fixed + cells, species);
    AppendUnfound(fixed + cells + species, atoms);
  }

  // ---------------------------------------------------------------------
  // The files

  /** No line of a file save_qe writes stops the reader. */
  lemma FileTextUnfound(num: Numbers, p: PhononsValue, dyag: Dyag, iq: nat, countQ: nat)
    requires PlainFixed(num) && Shaped(p.structure) && LabelsApart(p.structure.atoms)
    requires FileText(num, p, dyag, iq, countQ).Ok?
    ensures AllUnfound(FileText(num, p, dyag, iq, countQ).value.0)
  {
    var star := p.qStars[iq];
    var header := HeaderText(num, p.structure, p.alat).value;
    var blocks := StarLines(num, p.dynmats, p.structure.nAtoms, star, countQ, |star|).value;
    var trailer := Trailer(num, p.structure, p.dynmats, star, countQ, dyag).value;
    HeaderUnfound(num, p.structure, p.alat);
    StarLinesUnfound(num, p.dynmats, p.structure.nAtoms, star, countQ, |star|);
    TrailerUnfound(num, p.structure, p.dynmats, star, countQ, dyag);
    AppendUnfound(blocks, trailer);
    AppendUnfound(header, blocks + trailer);
  }

  /** Nor does any line once the reader has stripped it. */
  lemma StripAllUnfound(lines: seq<string>)
    requires AllUnfound(lines)
    ensures AllUnfound(DynLoad.StripAll(lines))
  {
    forall k | 0 <= k < |lines|
      ensures Unfound(Strip(lines[k]))
    {
      StripContains(lines[k], ReadHeader);
    }
  }

  /** The reader runs out of lines in a file save_qe writes, looking for
      the first block: an IndexError. */
  lemma FileUnread(num: Numbers, p: PhononsValue, dyag: Dyag, iq: nat, countQ: nat)
    requires PlainFixed(num) && Shaped(p.structure) && LabelsApart(p.structure.atoms)
    requires FileText(num, p, dyag, iq, countQ).Ok?
    ensures AfterPreamble(DynLoad.StripAll(FileText(num, p, dyag, iq, countQ).value.0)) == Err(IndexError)
  {
    var lines := FileText(num, p, dyag, iq, countQ).value.0;
    FileTextUnfound(num, p, dyag, iq, countQ);
    StripAllUnfound(lines);
    AfterPreambleCut(DynLoad.StripAll(lines));
  }

  /** So in every file of a set save_qe writes. */
  lemma SavedFilesUnread(num: Numbers, p: PhononsValue, dyag: Dyag, filename: string, fullName: bool)
    requires PlainFixed(num) && Shaped(p.structure) && LabelsApart(p.structure.atoms)
    requires Saved(num, p, dyag, filename, fullName).Ok?
    ensures var files := Saved(num, p, dyag, filename, fullName).value;
      forall k :: 0 <= k < |files| ==> AfterPreamble(DynLoad.StripAll(files[k].1)) == Err(IndexError)
  {
    var files := Saved(num, p, dyag, filename, fullName).value;
    SavedFiles(num, p, dyag, filename, fullName);
    forall k | 0 <= k < |files|
      ensures AfterPreamble(DynLoad.StripAll(files[k].1)) == Err(IndexError)
    {
      assert FileText(num, p, dyag, k, |Flatten(p.qStars[..k])|) == Ok((files[k].1, |Flatten(p.qStars[..k + 1])|));
      FileUnread(num, p, dyag, k, |Flatten(p.qStars[..k])|);
    }
  }

  /** So `LoadFromQE`, given the first file save_qe wrote under the name
      it looks for, fails for every nqirr. */
  lemma SavedUnreadable(num: Numbers, p: PhononsValue, dyag: Dyag, filename: string, fullName: bool,
                        files: map<string, seq<string>>, nqirr: int, alat0: real)
    requires PlainFixed(num) && Shaped(p.structure) && LabelsApart(p.structure.atoms)
    requires Saved(num, p, dyag, filename, fullName).Ok? && |Saved(num, p, dyag, filename, fullName).value| > 0
    requires FileName(filename, 0, fullName) in files
    requires files[FileName(filename, 0, fullName)] == Saved(num, p, dyag, filename, fullName).value[0].1
    ensures DynLoad.LoadResult(num, files, filename, nqirr, fullName, alat0).Err?
  {
    if nqirr > 0 && !(fullName && nqirr > 1) {
      SavedFilesUnread(num, p, dyag, filename, fullName);
      SavedFiles(num, p, dyag, filename, fullName);
      var step := DynLoad.FileStep(num, files, filename, fullName);
      assert step(0, DynLoad.Fresh(alat0)).Err?;
      assert DynLoad.ReadFiles(step, DynLoad.Fresh(alat0), 1).Err?;
      DynLoad.ReadFilesStopped(step, DynLoad.Fresh(alat0), 1, nqirr);
    }
  }
}
