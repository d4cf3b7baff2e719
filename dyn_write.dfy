/** The files `Phonons.save_qe` (Phonons.py:629-769) writes, as functions
    giving the lines of every file (without their newlines).

    One file per irreducible q point: a header (title, comment, the
    `ntyp nat ibrav alat` line, the cell, one line per species and one
    per atom), then for every q point of the star a block holding the
    matrix `dynmats[count_q]`, then the "Diagonalizing" trailer with the
    frequency report.  `count_q` runs on across files, so the stars take
    the matrices of `dynmats` one after the other.
 */
module DynWrite {
  import opened Wrappers
  import opened Matrices
  import opened Text
  import opened Species
  import opened Structures
  import opened DynFormat

  /** What save_qe reads of a `Phonons` object. */
  datatype PhononsValue = PhononsValue(structure: StructureValue, alat: real, nqirr: int,
                                       dynmats: seq<CMat>, qStars: seq<seq<Vec>>)

  /** The shapes a `Structure` keeps: one label and one position per atom. */
  predicate Shaped(s: StructureValue)
  {
    s.nAtoms == |s.atoms| == |s.coords|
  }

  /** `self.DyagDinQ(dyag_q_index)` (Phonons.py:239-290) on the structure
      and the matrices: the frequencies and the polarisation vectors,
      column mu holding mode mu.  The eigenproblem is not modelled; the
      call may raise. */
  type Dyag = (StructureValue, seq<CMat>, nat) -> Result<(seq<real>, CMat)>

  /** `RyToTHz` and `RyToCm` of save_qe (Phonons.py:657-658) */
  const RyToTHz: real := 3289.84377
  const RyToCm: real := 109737.37595

  const FileTitle: string := "Dynamical matrix file"
  /** The credit line of Phonons.py:691, one line of output.  It is
      spelt in four pieces because the solver decides which characters a
      string literal contains only for short literals (DynReadBack.CreditPlain). */
  const Credit: string := "File generated " + "with the " + "CellConstructor " + "by Lorenzo Monacelli"
  const BasisTitle: string := "Basis vectors"

  /** `"*" * 75` */
  const Rule: string := seq(75, _ => '*')

  /** `x / self.alat`. */
  function Over(x: real, alat: real): real
  {
    if alat == 0.0 then 0.0 else x / alat
  }

  /** `"%12.8f"`, `"%15.10f"`, `"%10.6f"` and `"%5d"`. */
  function F12(num: Numbers, x: real): string
  {
    PadLeft(num.fixed(x, 8), 12)
  }

  function F15(num: Numbers, x: real): string
  {
    PadLeft(num.fixed(x, 10), 15)
  }

  /** `"%10.6f"` */
  function F10(num: Numbers, x: real): string
  {
    PadLeft(num.fixed(x, 6), 10)
  }

  function I5(n: int): string
  {
    PadLeft(ShowInt(n), 5)
  }

  // ---------------------------------------------------------------------
  // The header

  /** The fields of `"%d %d %d %.8f %.8f %.8f %.8f %.8f %.8f"` with
      ibrav 0, alat in bohr and five zero cell parameters. */
  function InfoFields(num: Numbers, nTypes: int, nAtoms: int, alat: real): seq<string>
  {
    [ShowInt(nTypes), ShowInt(nAtoms), ShowInt(0), num.fixed(alat * AngstromToBohr, 8),
     num.fixed(0.0, 8), num.fixed(0.0, 8), num.fixed(0.0, 8), num.fixed(0.0, 8), num.fixed(0.0, 8)]
  }

  function InfoLine(num: Numbers, nTypes: int, nAtoms: int, alat: real): string
  {
    Join(InfoFields(num, nTypes, nAtoms, alat), " ")
  }

  /** Row i of the cell in units of alat. */
  function CellLine(num: Numbers, cell: Mat, i: nat, alat: real): string
  {
    Join([F12(num, Over(At(cell, i, 0), alat)), F12(num, Over(At(cell, i, 1), alat)),
          F12(num, Over(At(cell, i, 2), alat))], " ")
  }

  /** The first n rows of the cell. */
  function CellLines(num: Numbers, cell: Mat, alat: real, n: nat): (lines: seq<string>)
    ensures |lines| == n
    ensures forall i :: 0 <= i < n ==> lines[i] == CellLine(num, cell, i, alat)
  {
    if n == 0 then [] else CellLines(num, cell, alat, n - 1) + [CellLine(num, cell, n - 1, alat)]
  }

  /** `"\t%d  '%s '  %.8f"`: species k (numbered from 0), its label and mass. */
  function SpeciesText(num: Numbers, k: int, name: Label, mass: real): string
  {
    "\t" + ShowInt(k + 1) + "  '" + name + " '  " + num.fixed(mass, 8)
  }

  /** The first n species lines; a species without a mass is a KeyError. */
  function SpeciesLines(num: Numbers, types: seq<Label>, masses: map<Label, real>, n: nat): (r: Result<seq<string>>)
    requires n <= |types|
    ensures r.Ok? <==> forall k :: 0 <= k < n ==> types[k] in masses
    ensures r.Ok? ==> |r.value| == n
    ensures r.Ok? ==> forall k :: 0 <= k < n ==> r.value[k] == SpeciesText(num, k, types[k], masses[types[k]])
    ensures r.Err? ==> r.error == KeyError
  {
    if n == 0 then Ok([])
    else
      var prev := SpeciesLines(num, types, masses, n - 1);
      if prev.Err? then prev
      else if types[n - 1] !in masses then Err(KeyError)
      else Ok(prev.value + [SpeciesText(num, n - 1, types[n - 1], masses[types[n - 1]])])
  }

  /** `"%5d %5d %15.10f %15.10f %15.10f"`: atom i (from 0), its species
      number and its position in units of alat. */
  function AtomText(num: Numbers, i: int, itau: int, coord: Vec, alat: real): string
  {
    Join([I5(i + 1), I5(itau), F15(num, Over(VAt(coord, 0), alat)), F15(num, Over(VAt(coord, 1), alat)),
          F15(num, Over(VAt(coord, 2), alat))], " ")
  }

  /** The first n atom lines; `itau` numbers the species by first appearance. */
  function AtomLines(num: Numbers, s: StructureValue, alat: real, n: nat): (lines: seq<string>)
    requires Shaped(s) && n <= s.nAtoms
    ensures |lines| == n
    ensures forall i :: 0 <= i < n ==> lines[i] == AtomText(num, i, Rank(s.atoms, i), s.coords[i], alat)
  {
    if n == 0 then []
    else
      var before := AtomLines(num, s, alat, n - 1);
      var r := before + [AtomText(num, n - 1, Rank(s.atoms, n - 1), s.coords[n - 1], alat)];
      assert forall i :: 0 <= i < n - 1 ==> r[i] == before[i];
      r
  }

  /** The header of every file: 7 fixed lines (title, comment, info line,
      "Basis vectors", three cell rows), the species, the atoms. */
  function HeaderText(num: Numbers, s: StructureValue, alat: real): Result<seq<string>>
    requires Shaped(s)
  {
    var types := FirstAppearance(s.atoms);
    var species := SpeciesLines(num, types, s.masses, |types|);
    if species.Err? then Err(species.error)
    else
      Ok([FileTitle, Credit, InfoLine(num, |types|, s.nAtoms, alat), BasisTitle] +
         CellLines(num, s.unitCell, alat, 3) + species.value + AtomLines(num, s, alat, s.nAtoms))
  }

  // ---------------------------------------------------------------------
  // The blocks

  /** `"     q = (    %.9f   %.9f   %.9f )"`; a q point with fewer than
      three components is an IndexError. */
  function QText(num: Numbers, q: Vec): Result<string>
  {
    if |q| < 3 then Err(IndexError)
    else Ok("     q = (    " + num.fixed(q[0], 9) + "   " + num.fixed(q[1], 9) + "   " + num.fixed(q[2], 9) + " )")
  }

  /** `self.dynmats[k][a, b]`: an IndexError outside the list or the matrix. */
  function Entry(dynmats: seq<CMat>, k: nat, a: nat, b: nat): (r: Result<Complex>)
    ensures r.Ok? <==> k < |dynmats| && a < |dynmats[k]| && b < |dynmats[k][a]|
    ensures r.Ok? ==> r.value == dynmats[k][a][b]
    ensures r.Err? ==> r.error == IndexError
  {
    if k < |dynmats| && a < |dynmats[k]| && b < |dynmats[k][a]| then Ok(dynmats[k][a][b]) else Err(IndexError)
  }

  /** `"%12.8f%12.8f   %12.8f%12.8f   %12.8f%12.8f"` of entries (a, b),
      (a, b + 1) and (a, b + 2), real part before imaginary part. */
  function RowText(num: Numbers, dynmats: seq<CMat>, k: nat, a: nat, b: nat): (r: Result<string>)
    ensures r.Err? ==> r.error == IndexError
  {
    var e0, e1, e2 := Entry(dynmats, k, a, b), Entry(dynmats, k, a, b + 1), Entry(dynmats, k, a, b + 2);
    if e0.Err? || e1.Err? || e2.Err? then Err(IndexError)
    else
      Ok(F12(num, e0.value.re) + F12(num, e0.value.im) + "   " +
         F12(num, e1.value.re) + F12(num, e1.value.im) + "   " +
         F12(num, e2.value.re) + F12(num, e2.value.im))
  }

  /** `"%5d%5d"` of the atom pair (from 0). */
  function PairText(i: int, j: int): string
  {
    I5(i + 1) + I5(j + 1)
  }

  /** The pair line of atoms (i, j) and the first n of its three rows. */
  function PairLines(num: Numbers, dynmats: seq<CMat>, k: nat, i: nat, j: nat, n: nat): (r: Result<seq<string>>)
    requires n <= 3
    ensures r.Ok? ==> |r.value| == n + 1 && r.value[0] == PairText(i, j)
    ensures r.Err? ==> r.error == IndexError
  {
    if n == 0 then Ok([PairText(i, j)])
    else
      var prev := PairLines(num, dynmats, k, i, j, n - 1);
      if prev.Err? then prev
      else
        var row := RowText(num, dynmats, k, 3 * i + (n - 1), 3 * j);
        if row.Err? then Err(row.error) else Ok(prev.value + [row.value])
  }

  /** The blocks of pairs (i, 0) .. (i, n - 1). */
  function PairRowLines(num: Numbers, dynmats: seq<CMat>, k: nat, i: nat, n: nat): (r: Result<seq<string>>)
    ensures r.Ok? ==> |r.value| == 4 * n
    ensures r.Err? ==> r.error == IndexError
  {
    if n == 0 then Ok([])
    else
      var prev := PairRowLines(num, dynmats, k, i, n - 1);
      if prev.Err? then prev
      else
        var pair := PairLines(num, dynmats, k, i, n - 1, 3);
        if pair.Err? then pair else Ok(prev.value + pair.value)
  }

  /** The blocks of pairs (0, _) .. (n - 1, _) of matrix k for N atoms. */
  function MatrixText(num: Numbers, dynmats: seq<CMat>, k: nat, nAtoms: nat, n: nat): (r: Result<seq<string>>)
    ensures r.Err? ==> r.error == IndexError
  {
    if n == 0 then Ok([])
    else
      var prev := MatrixText(num, dynmats, k, nAtoms, n - 1);
      if prev.Err? then prev
      else
        var row := PairRowLines(num, dynmats, k, n - 1, nAtoms);
        if row.Err? then row
        else Ok(prev.value + row.value)
  }

  /** The five lines that open the block of q point q (Phonons.py:722-727):
      an empty line, the header as written, an empty line, the q point
      and an empty line; a q point with fewer than three components is
      an IndexError. */
  function BlockHead(num: Numbers, q: Vec): (r: Result<seq<string>>)
    ensures r.Ok? <==> |q| >= 3
    ensures r.Ok? ==> |r.value| == 5 && r.value[1] == WrittenHeader && r.value[3] == QText(num, q).value
    ensures r.Ok? ==> r.value[0] == r.value[2] == r.value[4] == ""
    ensures r.Err? ==> r.error == IndexError
  {
    var qt := QText(num, q);
    if qt.Err? then Err(qt.error) else Ok(["", WrittenHeader, "", qt.value, ""])
  }

  /** The lines of one block of a star: 5 + 4 N^2. */
  function BlockSize(nAtoms: nat): nat
  {
    5 + 4 * nAtoms * nAtoms
  }

  /** The lines of blocks 0 .. n - 1, one after the other; the first
      block that fails ends the writing. */
  function Concat(block: nat -> Result<seq<string>>, n: nat): Result<seq<string>>
  {
    if n == 0 then Ok([])
    else
      var prev := Concat(block, n - 1);
      if prev.Err? then prev
      else
        var last := block(n - 1);
        if last.Err? then last else Ok(prev.value + last.value)
  }

  /** The block of q point j of a star whose first matrix is
      `dynmats[countQ]`: its head, then the lines of `dynmats[countQ + j]`. */
  function BlockText(num: Numbers, dynmats: seq<CMat>, nAtoms: nat, star: seq<Vec>, countQ: nat, j: nat): Result<seq<string>>
  {
    if j >= |star| then Err(IndexError)
    else
      var head := BlockHead(num, star[j]);
      if head.Err? then head
      else
        var m := MatrixText(num, dynmats, countQ + j, nAtoms, nAtoms);
        if m.Err? then m else Ok(head.value + m.value)
  }

  /** The blocks of the first n q points of a star (the loop over the
      star in save_qe, Phonons.py:713-741). */
  function StarLines(num: Numbers, dynmats: seq<CMat>, nAtoms: nat, star: seq<Vec>, countQ: nat, n: nat): Result<seq<string>>
  {
    Concat((j: nat) => BlockText(num, dynmats, nAtoms, star, countQ, j), n)
  }

  /** `"%7s (%5d) = %14.8f [THz] = %14.8f [cm-1]" % ("freq", mu + 1, ...)`
      of mode mu, whose frequency is f Ry. */
  function FreqText(num: Numbers, mu: nat, f: real): string
  {
    "   freq (" + I5(mu + 1) + ") = " + PadLeft(num.fixed(f * RyToTHz, 8), 14) + " [THz] = " +
    PadLeft(num.fixed(f * RyToCm, 8), 14) + " [cm-1]"
  }

  /** The six numbers save_qe prints for atom i of mode mu
      (Phonons.py:764-768): the real and imaginary parts of the x and y
      components, the real part of the z component, and then again the
      imaginary part of the y component (row 3i + 1), where that of the
      z component (row 3i + 2) is meant; an IndexError outside the
      matrix. */
  function PolNumbersAsWritten(pol: CMat, i: nat, mu: nat): (r: Result<seq<real>>)
    ensures r.Ok? <==> 3 * i + 2 < |pol| && mu < |pol[3 * i]| && mu < |pol[3 * i + 1]| && mu < |pol[3 * i + 2]|
    ensures r.Ok? ==> |r.value| == 6
    ensures r.Ok? ==> forall x :: 0 <= x < 3 ==> r.value[2 * x] == pol[3 * i + x][mu].re
    ensures r.Ok? ==> r.value[1] == pol[3 * i][mu].im && r.value[3] == r.value[5] == pol[3 * i + 1][mu].im
    ensures r.Err? ==> r.error == IndexError
  {
    var x, y, z := Entry([pol], 0, 3 * i, mu), Entry([pol], 0, 3 * i + 1, mu), Entry([pol], 0, 3 * i + 2, mu);
    if x.Err? || y.Err? || z.Err? then Err(IndexError)
    else Ok([x.value.re, x.value.im, y.value.re, y.value.im, z.value.re, y.value.im])
  }

  /** The six numbers save_qe means to print for atom i of mode mu: the
      real and imaginary parts of its x, y and z components, rows 3i,
      3i + 1 and 3i + 2 of column mu; an IndexError outside the matrix. */
  function PolNumbers(pol: CMat, i: nat, mu: nat): (r: Result<seq<real>>)
    ensures r.Ok? <==> 3 * i + 2 < |pol| && mu < |pol[3 * i]| && mu < |pol[3 * i + 1]| && mu < |pol[3 * i + 2]|
    ensures r.Ok? ==> |r.value| == 6
    ensures r.Ok? ==> forall x :: 0 <= x < 3 ==>
                        r.value[2 * x] == pol[3 * i + x][mu].re && r.value[2 * x + 1] == pol[3 * i + x][mu].im
    ensures r.Err? ==> r.error == IndexError
  {
    var x, y, z := Entry([pol], 0, 3 * i, mu), Entry([pol], 0, 3 * i + 1, mu), Entry([pol], 0, 3 * i + 2, mu);
    if x.Err? || y.Err? || z.Err? then Err(IndexError)
    else Ok([x.value.re, x.value.im, y.value.re, y.value.im, z.value.re, z.value.im])
  }

  /** `"( %10.6f%10.6f %10.6f%10.6f %10.6f%10.6f )"` of six numbers. */
  function PolText(num: Numbers, v: seq<real>): string
    requires |v| == 6
  {
    "( " + F10(num, v[0]) + F10(num, v[1]) + " " + F10(num, v[2]) + F10(num, v[3]) + " " +
    F10(num, v[4]) + F10(num, v[5]) + " )"
  }

  /** The lines of atoms 0 .. n - 1 of mode mu, as save_qe writes them. */
  function PolLines(num: Numbers, pol: CMat, mu: nat, n: nat): (r: Result<seq<string>>)
    ensures r.Ok? <==> forall i :: 0 <= i < n ==> PolNumbersAsWritten(pol, i, mu).Ok?
    ensures r.Ok? ==> |r.value| == n
    ensures r.Ok? ==> forall i :: 0 <= i < n ==>
                        PolNumbersAsWritten(pol, i, mu).Ok? && r.value[i] == PolText(num, PolNumbersAsWritten(pol, i, mu).value)
    ensures r.Err? ==> r.error == IndexError
  {
    if n == 0 then Ok([])
    else
      var prev := PolLines(num, pol, mu, n - 1);
      if prev.Err? then prev
      else
        var v := PolNumbersAsWritten(pol, n - 1, mu);
        if v.Err? then Err(v.error) else Ok(prev.value + [PolText(num, v.value)])
  }

  /** The lines of mode mu: its frequency, then one line per atom. */
  function ModeText(num: Numbers, freqs: seq<real>, pol: CMat, nAtoms: nat, mu: nat): Result<seq<string>>
  {
    if mu >= |freqs| then Err(IndexError)
    else
      var atoms := PolLines(num, pol, mu, nAtoms);
      if atoms.Err? then atoms else Ok([FreqText(num, mu, freqs[mu])] + atoms.value)
  }

  /** The loop over the modes (Phonons.py:758-768). */
  function ModeLines(num: Numbers, freqs: seq<real>, pol: CMat, nAtoms: nat): Result<seq<string>>
  {
    Concat((mu: nat) => ModeText(num, freqs, pol, nAtoms, mu), |freqs|)
  }

  /** The lines after the last block (Phonons.py:746-769): the
      "Diagonalizing" line, the first q point of the star again, and the
      modes of the first matrix of the star between two rules; an empty
      star is an IndexError. */
  function Trailer(num: Numbers, s: StructureValue, dynmats: seq<CMat>, star: seq<Vec>, dyagIndex: nat, dyag: Dyag): Result<seq<string>>
    requires Shaped(s)
  {
    if |star| == 0 then Err(IndexError)
    else
      var qt := QText(num, star[0]);
      if qt.Err? then Err(qt.error)
      else
        var d := dyag(s, dynmats, dyagIndex);
        if d.Err? then Err(d.error)
        else
          var modes := ModeLines(num, d.value.0, d.value.1, s.nAtoms);
          if modes.Err? then modes
          else Ok(["", DiagonalizingLine, "", qt.value, "", Rule] + modes.value + [Rule])
  }

  // ---------------------------------------------------------------------
  // The files

  /** File iq, whose first block uses `dynmats[countQ]`, and the value of
      `count_q` after it. */
  function FileText(num: Numbers, p: PhononsValue, dyag: Dyag, iq: nat, countQ: nat): (r: Result<(seq<string>, nat)>)
    requires Shaped(p.structure)
    ensures r.Ok? ==> iq < |p.qStars| && r.value.1 == countQ + |p.qStars[iq]|
  {
    var header := HeaderText(num, p.structure, p.alat);
    if header.Err? then Err(header.error)
    else if iq >= |p.qStars| then Err(IndexError)
    else
      var body := StarText(num, p, dyag, p.qStars[iq], countQ);
      if body.Err? then Err(body.error) else Ok((header.value + body.value, countQ + |p.qStars[iq]|))
  }

  /** The blocks of a star and the trailer after them. */
  function StarText(num: Numbers, p: PhononsValue, dyag: Dyag, star: seq<Vec>, countQ: nat): Result<seq<string>>
    requires Shaped(p.structure)
  {
    var blocks := StarLines(num, p.dynmats, p.structure.nAtoms, star, countQ, |star|);
    if blocks.Err? then blocks
    else
      var trailer := Trailer(num, p.structure, p.dynmats, star, countQ, dyag);
      if trailer.Err? then trailer else Ok(blocks.value + trailer.value)
  }

  /** How many files are written: one with `full_name`, else `nqirr`. */
  function FileCount(nqirr: int, fullName: bool): nat
  {
    if fullName then 1 else if nqirr < 0 then 0 else nqirr
  }

  /** The loop `for iq in range(n)` of save_qe (Phonons.py:667): file
      iq gets the name `FileName` gives and the lines `text(iq, count_q)`
      gives, together with `count_q` after it; the first error ends the
      loop. */
  function WriteFiles(text: (nat, nat) -> Result<(seq<string>, nat)>, filename: string, fullName: bool, n: nat)
    : (r: Result<(seq<(string, seq<string>)>, nat)>)
    ensures r.Ok? ==> |r.value.0| == n
  {
    if n == 0 then Ok(([], 0))
    else
      var prev := WriteFiles(text, filename, fullName, n - 1);
      if prev.Err? then prev
      else
        var file := text(n - 1, prev.value.1);
        if file.Err? then Err(file.error)
        else Ok((prev.value.0 + [(FileName(filename, n - 1, fullName), file.value.0)], file.value.1))
  }

  /** The text of file iq of a shaped object. */
  function TextStep(num: Numbers, p: PhononsValue, dyag: Dyag): (nat, nat) -> Result<(seq<string>, nat)>
    requires Shaped(p.structure)
  {
    (iq: nat, countQ: nat) => FileText(num, p, dyag, iq, countQ)
  }

  /** The first n files with their names, and `count_q` after them. */
  function SavedUpTo(num: Numbers, p: PhononsValue, dyag: Dyag, filename: string, fullName: bool, n: nat): (r: Result<(seq<(string, seq<string>)>, nat)>)
    requires Shaped(p.structure)
  {
    WriteFiles(TextStep(num, p, dyag), filename, fullName, n)
  }

  /** What `save_qe(filename, full_name)` writes, file by file. */
  function Saved(num: Numbers, p: PhononsValue, dyag: Dyag, filename: string, fullName: bool): Result<seq<(string, seq<string>)>>
    requires Shaped(p.structure)
  {
    var r := SavedUpTo(num, p, dyag, filename, fullName, FileCount(p.nqirr, fullName));
    if r.Err? then Err(r.error) else Ok(r.value.0)
  }

  /** The files the first n iterations of the loop complete: all n when
      none raises, otherwise those before the first that raises. */
  function Completed(text: (nat, nat) -> Result<(seq<string>, nat)>, filename: string, fullName: bool, n: nat)
    : seq<(string, seq<string>)>
  {
    if n == 0 then []
    else
      var r := WriteFiles(text, filename, fullName, n);
      if r.Ok? then r.value.0 else Completed(text, filename, fullName, n - 1)
  }

  /** The files `save_qe(filename, full_name)` has closed when it
      returns or raises. */
  function SavedBefore(num: Numbers, p: PhononsValue, dyag: Dyag, filename: string, fullName: bool): seq<(string, seq<string>)>
    requires Shaped(p.structure)
  {
    Completed(TextStep(num, p, dyag), filename, fullName, FileCount(p.nqirr, fullName))
  }
}
