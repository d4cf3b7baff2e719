/** The reader of `Phonons.LoadFromQE` (Phonons.py:137-237) as functions
    over the stripped lines of one file: the header of the first file
    (species, cell, atoms) and, for every file, the matrices and q points
    between the first block header and the "Diagonalizing" line.
 */
module DynRead {
  import opened Wrappers
  import opened Matrices
  import opened Numerics
  import opened Text
  import opened DynFormat

  /** `range(n)` and `range(1, n + 1)` are empty for n <= 0. */
  function Count(n: int): nat
  {
    if n < 0 then 0 else n
  }

  /** `dynlines[i]` for a Python list index (negative counts from the end). */
  function LineAt(lines: seq<string>, i: int): (r: Result<string>)
    ensures r.Ok? <==> -|lines| <= i < |lines|
    ensures r.Err? ==> r.error == IndexError
  {
    var k := NumpyIndex(i, |lines|);
    if k.None? then Err(IndexError) else Ok(lines[k.value])
  }

  /** `[float(item) for item in fields]` */
  function Floats(num: Numbers, fields: seq<string>): (r: Result<seq<real>>)
    ensures r.Ok? ==> |r.value| == |fields|
    ensures r.Err? ==> r.error == ParseError
  {
    if |fields| == 0 then Ok([])
    else
      var x := num.parseFloat(fields[0]);
      if x.None? then Err(ParseError)
      else
        var rest := Floats(num, fields[1..]);
        if rest.Err? then rest else Ok([x.value] + rest.value)
  }

  /** `Floats` succeeds exactly when every field is a float, and then
      holds their values in order. */
  lemma {:induction false} FloatsValues(num: Numbers, fields: seq<string>)
    ensures Floats(num, fields).Ok? <==> forall k :: 0 <= k < |fields| ==> num.parseFloat(fields[k]).Some?
    ensures Floats(num, fields).Ok? ==>
      forall k :: 0 <= k < |fields| ==> Some(Floats(num, fields).value[k]) == num.parseFloat(fields[k])
  {
    if |fields| > 0 {
      FloatsValues(num, fields[1..]);
      assert forall k :: 1 <= k < |fields| ==> fields[k] == fields[1..][k - 1];
    }
  }

  /** `np.array(values) * alat` stored into a row of three: numpy
      broadcasts a single value and rejects every other length. */
  function ScaledRow(values: seq<real>, alat: real): (r: Result<Vec>)
    ensures r.Ok? <==> |values| == 3 || |values| == 1
    ensures r.Ok? ==> |r.value| == 3
  {
    if |values| == 3 then Ok([values[0] * alat, values[1] * alat, values[2] * alat])
    else if |values| == 1 then Ok([values[0] * alat, values[0] * alat, values[0] * alat])
    else Err(BadShape)
  }

  // ---------------------------------------------------------------------
  // The header of the first file

  /** Line 2: `ntyp nat ibrav alat ...` */
  datatype StructInfo = StructInfo(ntyp: int, natoms: int, alat: real)

  /** Phonons.py:142-153: ibrav is read and checked first, then nat and
      ntyp, and alat is converted from bohr to angstrom. */
  function StructInfoOf(num: Numbers, lines: seq<string>): Result<StructInfo>
  {
    var line := LineAt(lines, 2);
    if line.Err? then Err(line.error) else InfoOfFields(num, Split(line.value))
  }

  /** The fields of line 2, in the order Phonons.py:143-149 reads them. */
  function InfoOfFields(num: Numbers, f: seq<string>): Result<StructInfo>
  {
    if |f| < 3 then Err(IndexError)
    else
      var ibrav := ParseInt(f[2]);
      if ibrav.None? then Err(ParseError)
      else if ibrav.value != 0 then Err(UnsupportedIbrav)
      else
        var natoms := ParseInt(f[1]);
        var ntyp := ParseInt(f[0]);
        if natoms.None? || ntyp.None? then Err(ParseError)
        else if |f| < 4 then Err(IndexError)
        else
          var alat := num.parseFloat(f[3]);
          if alat.None? then Err(ParseError)
          else Ok(StructInfo(ntyp.value, natoms.value, alat.value * BohrToAngstrom))
  }

  /** One species line: the name between the first pair of quotes and the
      mass after the last quote. */
  datatype SpeciesEntry = SpeciesEntry(name: string, mass: real)

  function SpeciesLine(num: Numbers, line: string): Result<SpeciesEntry>
  {
    var parts := SplitOn(line, '\'');
    if |parts| < 2 then Err(IndexError)
    else
      var mass := num.parseFloat(Strip(parts[|parts| - 1]));
      if mass.None? then Err(ParseError) else Ok(SpeciesEntry(Strip(parts[1]), mass.value))
  }

  /** `atoms_dict` (species number to name) and `masses_dict`. */
  datatype SpeciesTable = SpeciesTable(names: map<int, string>, masses: map<string, real>)

  /** The species loop after its first n passes (atom_index = 1 .. n):
      species k is on line 6 + k. */
  function SpeciesUpTo(num: Numbers, lines: seq<string>, n: nat): Result<SpeciesTable>
  {
    if n == 0 then Ok(SpeciesTable(map[], map[]))
    else
      var prev := SpeciesUpTo(num, lines, n - 1);
      if prev.Err? then prev
      else
        var line := LineAt(lines, 6 + n);
        if line.Err? then Err(line.error)
        else
          var e := SpeciesLine(num, line.value);
          if e.Err? then Err(e.error)
          else Ok(SpeciesTable(prev.value.names[n := e.value.name], prev.value.masses[e.value.name := e.value.mass]))
  }

  /** The cell loop after its first n passes: row i is line 4 + i, scaled
      by alat. */
  function CellUpTo(num: Numbers, lines: seq<string>, alat: real, n: nat): (r: Result<Mat>)
    requires n <= 3
    ensures r.Ok? ==> |r.value| == n && forall i :: 0 <= i < n ==> |r.value[i]| == 3
  {
    if n == 0 then Ok([])
    else
      var prev := CellUpTo(num, lines, alat, n - 1);
      if prev.Err? then prev
      else
        var line := LineAt(lines, 4 + (n - 1));
        if line.Err? then Err(line.error)
        else
          var values := Floats(num, Split(line.value));
          if values.Err? then Err(values.error)
          else
            var row := ScaledRow(values.value, alat);
            if row.Err? then Err(row.error) else Ok(prev.value + [row.value])
  }

  /** The labels and positions of the atoms read so far. */
  datatype AtomTable = AtomTable(labels: seq<string>, coords: seq<Vec>)

  /** One atom line: the species number is field 1 (as a float,
      truncated), the position fields 2.. scaled by alat. */
  function AtomLine(num: Numbers, line: string, names: map<int, string>, alat: real): Result<(string, Vec)>
  {
    var values := Floats(num, Split(line));
    if values.Err? then Err(values.error) else AtomOfValues(values.value, names, alat)
  }

  /** The numbers of an atom line: `atoms_dict[int(atom_info[1])]` and
      `atom_info[2:] * alat`. */
  function AtomOfValues(values: seq<real>, names: map<int, string>, alat: real): Result<(string, Vec)>
  {
    if |values| < 2 then Err(IndexError)
    else
      var key := Trunc(values[1]);
      if key !in names then Err(KeyError)
      else
        var row := ScaledRow(values[2..], alat);
        if row.Err? then Err(row.error) else Ok((names[key], row.value))
  }

  /** The atom loop after its first n passes: atom i is on line
      7 + ntyp + i. */
  function AtomsUpTo(num: Numbers, lines: seq<string>, info: StructInfo, names: map<int, string>, n: nat): (r: Result<AtomTable>)
    ensures r.Ok? ==> |r.value.labels| == |r.value.coords| == n
  {
    if n == 0 then Ok(AtomTable([], []))
    else
      var prev := AtomsUpTo(num, lines, info, names, n - 1);
      if prev.Err? then prev
      else
        var line := LineAt(lines, 7 + info.ntyp + (n - 1));
        if line.Err? then Err(line.error)
        else
          var atom := AtomLine(num, line.value, names, info.alat);
          if atom.Err? then Err(atom.error)
          else Ok(AtomTable(prev.value.labels + [atom.value.0], prev.value.coords + [atom.value.1]))
  }

  /** Everything the first file's header defines. */
  datatype Header = Header(info: StructInfo, species: SpeciesTable, cell: Mat, atoms: AtomTable)

  /** Phonons.py:140-181: `np.zeros((nat, 3))` rejects a negative nat
      before the species are read. */
  function HeaderOf(num: Numbers, lines: seq<string>): (r: Result<Header>)
    ensures r.Ok? ==> r.value.info.natoms >= 0 && |r.value.atoms.labels| == |r.value.atoms.coords| == r.value.info.natoms
  {
    var info := StructInfoOf(num, lines);
    if info.Err? then Err(info.error)
    else if info.value.natoms < 0 then Err(BadShape)
    else
      var species := SpeciesUpTo(num, lines, Count(info.value.ntyp));
      if species.Err? then Err(species.error)
      else
        var cell := CellUpTo(num, lines, info.value.alat, 3);
        if cell.Err? then Err(cell.error)
        else
          var atoms := AtomsUpTo(num, lines, info.value, species.value.names, info.value.natoms);
          if atoms.Err? then Err(atoms.error)
          else Ok(Header(info.value, species.value, cell.value, atoms.value))
  }

  // ---------------------------------------------------------------------
  // The matrices of one file

  /** Phonons.py:185-191: the lines after the first one containing the
      block header; running out of lines is an IndexError. */
  function AfterPreamble(lines: seq<string>): (r: Result<seq<string>>)
    ensures r.Ok? ==> |r.value| < |lines|
  {
    if |lines| == 0 then Err(IndexError)
    else if Contains(lines[0], ReadHeader) then Ok(lines[1..])
    else AfterPreamble(lines[1..])
  }

  /** The preamble ends right after the first line containing the block
      header the reader looks for; without one the reader runs out of
      lines. */
  lemma {:induction false} AfterPreambleCut(lines: seq<string>)
    ensures var r := AfterPreamble(lines);
      (r.Ok? ==> r.value == lines[|lines| - |r.value|..] &&
                 Contains(lines[|lines| - |r.value| - 1], ReadHeader) &&
                 forall k :: 0 <= k < |lines| - |r.value| - 1 ==> !Contains(lines[k], ReadHeader)) &&
      (r.Err? <==> forall k :: 0 <= k < |lines| ==> !Contains(lines[k], ReadHeader)) &&
      (r.Err? ==> r.error == IndexError)
  {
    if |lines| > 0 && !Contains(lines[0], ReadHeader) {
      AfterPreambleCut(lines[1..]);
      assert forall k :: 1 <= k < |lines| ==> lines[k] == lines[1..][k - 1];
    }
  }

  /** The reading loop's variables: `current_dyn`, `atm_i`, `atm_j`,
      `coordline`, the star of this file and the matrices appended. */
  datatype Reader = Reader(cur: CMat, atmI: int, atmJ: int, coordline: int, star: seq<Vec>, mats: seq<CMat>)

  /** The state before the first line is read: a zero 3nat x 3nat matrix. */
  function StartReader(n3: nat): Reader
  {
    Reader(CZeros(n3), 0, 0, 0, [], [])
  }

  /** `dynlines[index].replace("(", ")").split(')')[1].split()` read as floats. */
  function QPointOf(num: Numbers, line: string): Result<Vec>
  {
    var parts := SplitOn(ReplaceChar(line, '(', ')'), ')');
    if |parts| < 2 then Err(IndexError) else Floats(num, Split(parts[1]))
  }

  /** The first k entries of `for k in range(3): current_dyn[row, col + k]
      = float(f[2k]) + 1j * float(f[2k + 1])`. */
  function Fill(num: Numbers, cur: CMat, n3: nat, row: int, col: int, f: seq<string>, k: nat): (r: Result<CMat>)
    requires IsCMatrix(cur, n3) && |f| == 6 && k <= 3
    ensures r.Ok? ==> IsCMatrix(r.value, n3)
  {
    if k == 0 then Ok(cur)
    else
      var prev := Fill(num, cur, n3, row, col, f, k - 1);
      if prev.Err? then prev
      else
        var re, im := num.parseFloat(f[2 * (k - 1)]), num.parseFloat(f[2 * (k - 1) + 1]);
        if re.None? || im.None? then Err(ParseError)
        else
          var i, j := NumpyIndex(row, n3), NumpyIndex(col + (k - 1), n3);
          if i.None? || j.None? then Err(IndexError)
          else Ok(prev.value[i.value := prev.value[i.value][j.value := Complex(re.value, im.value)]])
  }

  /** A line that is neither a q line nor a block header: a 2-field line
      selects an atom pair, a 6-field line fills one row of that pair's
      block, anything else is skipped. */
  function PlainLine(num: Numbers, n3: nat, r: Reader, f: seq<string>): (next: Result<Reader>)
    requires IsCMatrix(r.cur, n3)
    ensures next.Ok? ==> IsCMatrix(next.value.cur, n3) && next.value.star == r.star && next.value.mats == r.mats
  {
    if |f| == 2 then
      var a, b := ParseInt(f[0]), ParseInt(f[1]);
      if a.None? || b.None? then Err(ParseError)
      else Ok(r.(atmI := a.value - 1, atmJ := b.value - 1, coordline := 0))
    else if |f| == 6 then
      var m := Fill(num, r.cur, n3, 3 * r.atmI + r.coordline, 3 * r.atmJ, f, 3);
      if m.Err? then Err(m.error) else Ok(r.(cur := m.value, coordline := r.coordline + 1))
    else Ok(r)
  }

  /** One pass of the reading loop (Phonons.py:204-228): a "q = " line
      adds a q point, any other line containing "ynamical" stores a copy
      of the current matrix, a 2-field line selects an atom pair, a
      6-field line fills one row of that pair's block, anything else is
      skipped. */
  function ReadLine(num: Numbers, n3: nat, r: Reader, line: string): (next: Result<Reader>)
    requires IsCMatrix(r.cur, n3)
    ensures next.Ok? ==> IsCMatrix(next.value.cur, n3)
  {
    if Contains(line, "q = ") then
      var q := QPointOf(num, line);
      if q.Err? then Err(q.error) else Ok(r.(star := r.star + [q.value]))
    else if Contains(line, "ynamical") then Ok(r.(mats := r.mats + [r.cur]))
    else PlainLine(num, n3, r, Split(line))
  }

  /** The reading loop from line i on: it stops after the first line
      containing "Diagonalizing"; running out of lines is an IndexError. */
  function ReadFrom(num: Numbers, n3: nat, lines: seq<string>, r: Reader, i: nat): Result<Reader>
    requires IsCMatrix(r.cur, n3)
    decreases |lines| - i
  {
    if i >= |lines| then Err(IndexError)
    else
      var next := ReadLine(num, n3, r, lines[i]);
      if next.Err? || Contains(lines[i], "Diagonalizing") then next
      else ReadFrom(num, n3, lines, next.value, i + 1)
  }

  // ---------------------------------------------------------------------
  // Properties of the reader

  /** The lines that add a q point, and those that store a matrix. */
  function QLines(lines: seq<string>): nat
  {
    if |lines| == 0 then 0
    else QLines(lines[..|lines| - 1]) + (if Contains(lines[|lines| - 1], "q = ") then 1 else 0)
  }

  function MatrixLines(lines: seq<string>): nat
  {
    if |lines| == 0 then 0
    else
      var last := lines[|lines| - 1];
      MatrixLines(lines[..|lines| - 1]) + (if !Contains(last, "q = ") && Contains(last, "ynamical") then 1 else 0)
  }

  /** One pass adds one q point for a "q = " line, one matrix for another
      "ynamical" line, and nothing otherwise. */
  lemma {:induction false} ReadLineCounts(num: Numbers, n3: nat, r: Reader, line: string)
    requires IsCMatrix(r.cur, n3) && ReadLine(num, n3, r, line).Ok?
    ensures var next := ReadLine(num, n3, r, line).value;
      |next.star| == |r.star| + (if Contains(line, "q = ") then 1 else 0) &&
      |next.mats| == |r.mats| + (if !Contains(line, "q = ") && Contains(line, "ynamical") then 1 else 0)
  {
  }

  lemma {:induction false} CountsAppend(lines: seq<string>, line: string)
    ensures QLines(lines + [line]) == QLines(lines) + (if Contains(line, "q = ") then 1 else 0)
    ensures MatrixLines(lines + [line]) == MatrixLines(lines) + (if !Contains(line, "q = ") && Contains(line, "ynamical") then 1 else 0)
  {
    assert (lines + [line])[..|lines|] == lines;
  }

  /** A successful read stops at the first "Diagonalizing" line at or
      after i, and has added one q point per "q = " line and one matrix
      per other "ynamical" line up to and including it. */
  lemma {:induction false} ReadFromCounts(num: Numbers, n3: nat, lines: seq<string>, r: Reader, i: nat) returns (stop: nat)
    requires IsCMatrix(r.cur, n3) && ReadFrom(num, n3, lines, r, i).Ok?
    ensures i <= stop < |lines| && Contains(lines[stop], "Diagonalizing")
    ensures forall k :: i <= k < stop ==> !Contains(lines[k], "Diagonalizing")
    ensures var out := ReadFrom(num, n3, lines, r, i).value;
      |out.star| == |r.star| + QLines(lines[i..stop + 1]) &&
      |out.mats| == |r.mats| + MatrixLines(lines[i..stop + 1])
  {
    stop := ReadFromStop(num, n3, lines, r, i);
    ReadFromCountsTo(num, n3, lines, r, i, stop);
  }

  /** The line a successful read stops at. */
  lemma {:induction false} ReadFromStop(num: Numbers, n3: nat, lines: seq<string>, r: Reader, i: nat) returns (stop: nat)
    requires IsCMatrix(r.cur, n3) && ReadFrom(num, n3, lines, r, i).Ok?
    ensures i <= stop < |lines| && Contains(lines[stop], "Diagonalizing")
    ensures forall k :: i <= k < stop ==> !Contains(lines[k], "Diagonalizing")
    decreases |lines| - i
  {
    if Contains(lines[i], "Diagonalizing") {
      stop := i;
    } else {
      stop := ReadFromStop(num, n3, lines, ReadLine(num, n3, r, lines[i]).value, i + 1);
    }
  }

  /** The counts of a read that stops at line stop. */
  lemma {:induction false} ReadFromCountsTo(num: Numbers, n3: nat, lines: seq<string>, r: Reader, i: nat, stop: nat)
    requires IsCMatrix(r.cur, n3) && ReadFrom(num, n3, lines, r, i).Ok?
    requires i <= stop < |lines| && Contains(lines[stop], "Diagonalizing")
    requires forall k :: i <= k < stop ==> !Contains(lines[k], "Diagonalizing")
    ensures var out := ReadFrom(num, n3, lines, r, i).value;
      |out.star| == |r.star| + QLines(lines[i..stop + 1]) &&
      |out.mats| == |r.mats| + MatrixLines(lines[i..stop + 1])
    decreases stop - i
  {
    ReadLineCounts(num, n3, r, lines[i]);
    if i == stop {
      LastLineCounts(lines, i);
    } else {
      ReadFromCountsTo(num, n3, lines, ReadLine(num, n3, r, lines[i]).value, i + 1, stop);
      FirstLineCounts(lines, i, stop);
    }
  }

  lemma {:induction false} LastLineCounts(lines: seq<string>, i: nat)
    requires i < |lines|
    ensures QLines(lines[i..i + 1]) == (if Contains(lines[i], "q = ") then 1 else 0)
    ensures MatrixLines(lines[i..i + 1]) == (if !Contains(lines[i], "q = ") && Contains(lines[i], "ynamical") then 1 else 0)
  {
    assert lines[i..i + 1] == [] + [lines[i]];
    CountsAppend([], lines[i]);
  }

  lemma {:induction false} FirstLineCounts(lines: seq<string>, i: nat, stop: nat)
    requires i < stop < |lines|
    ensures QLines(lines[i..stop + 1]) == (if Contains(lines[i], "q = ") then 1 else 0) + QLines(lines[i + 1..stop + 1])
    ensures MatrixLines(lines[i..stop + 1]) == (if !Contains(lines[i], "q = ") && Contains(lines[i], "ynamical") then 1 else 0) + MatrixLines(lines[i + 1..stop + 1])
  {
    assert lines[i..stop + 1] == [lines[i]] + lines[i + 1..stop + 1];
    PrependCounts(lines[i], lines[i + 1..stop + 1]);
  }

  lemma {:induction false} PrependCounts(line: string, lines: seq<string>)
    ensures QLines([line] + lines) == (if Contains(line, "q = ") then 1 else 0) + QLines(lines)
    ensures MatrixLines([line] + lines) == (if !Contains(line, "q = ") && Contains(line, "ynamical") then 1 else 0) + MatrixLines(lines)
  {
    if |lines| > 0 {
      var init := lines[..|lines| - 1];
      PrependCounts(line, init);
      assert ([line] + lines)[..|[line] + lines| - 1] == [line] + init;
    }
  }

  /** Lines after the one that ends the reading are never looked at: the
      frequency report after "Diagonalizing" does not change the result. */
  lemma {:induction false} ReadIgnoresTail(num: Numbers, n3: nat, lines: seq<string>, tail: seq<string>, r: Reader, i: nat, stop: nat)
    requires IsCMatrix(r.cur, n3)
    requires i <= stop < |lines| && Contains(lines[stop], "Diagonalizing")
    ensures ReadFrom(num, n3, lines + tail, r, i) == ReadFrom(num, n3, lines, r, i)
    decreases |lines| - i
  {
    assert (lines + tail)[i] == lines[i];
    var next := ReadLine(num, n3, r, lines[i]);
    if next.Ok? && !Contains(lines[i], "Diagonalizing") {
      ReadIgnoresTail(num, n3, lines, tail, next.value, i + 1, stop);
    }
  }

  /** Once an entry fails to parse or to index, the rest of the row is
      not looked at. */
  lemma {:induction false} FillStopped(num: Numbers, cur: CMat, n3: nat, row: int, col: int, f: seq<string>, k: nat, n: nat)
    requires IsCMatrix(cur, n3) && |f| == 6 && k <= n <= 3
    requires Fill(num, cur, n3, row, col, f, k).Err?
    ensures Fill(num, cur, n3, row, col, f, n) == Fill(num, cur, n3, row, col, f, k)
    decreases n
  {
    if n > k {
      FillStopped(num, cur, n3, row, col, f, k, n - 1);
    }
  }

  lemma FillStep(num: Numbers, cur: CMat, n3: nat, row: int, col: int, f: seq<string>, k: nat)
    requires IsCMatrix(cur, n3) && |f| == 6 && 0 < k <= 3
    requires Fill(num, cur, n3, row, col, f, k).Ok?
    ensures Fill(num, cur, n3, row, col, f, k - 1).Ok?
    ensures NumpyIndex(row, n3).Some? && ColumnOf(n3, col, k - 1).Some?
    ensures var m, prev := Fill(num, cur, n3, row, col, f, k).value, Fill(num, cur, n3, row, col, f, k - 1).value;
      var i, j := NumpyIndex(row, n3).value, ColumnOf(n3, col, k - 1).value;
      Some(m[i][j].re) == num.parseFloat(f[2 * (k - 1)]) && Some(m[i][j].im) == num.parseFloat(f[2 * (k - 1) + 1]) &&
      forall a, b :: 0 <= a < n3 && 0 <= b < n3 && (a != i || b != j) ==> m[a][b] == prev[a][b]
  {
  }

  /** The column entry c of a 6-field line lands in: `3*atm_j + c` under
      numpy's index rule. */
  function ColumnOf(n3: nat, col: int, c: nat): Option<nat>
  {
    NumpyIndex(col + c, n3)
  }

  /** A 6-field line writes exactly its three entries: row `row` and
      columns `col` .. `col + 2` (with numpy's negative-index rule)
      receive re + i im from the three field pairs, and every other entry
      keeps its value. */
  lemma FillWrites(num: Numbers, cur: CMat, n3: nat, row: int, col: int, f: seq<string>)
    requires IsCMatrix(cur, n3) && n3 % 3 == 0 && |f| == 6
    requires Fill(num, cur, n3, row, col, f, 3).Ok?
    ensures NumpyIndex(row, n3).Some?
    ensures forall c :: 0 <= c < 3 ==> ColumnOf(n3, col, c).Some?
    ensures var m, i := Fill(num, cur, n3, row, col, f, 3).value, NumpyIndex(row, n3).value;
      forall c :: 0 <= c < 3 ==>
        Some(m[i][ColumnOf(n3, col, c).value].re) == num.parseFloat(f[2 * c]) &&
        Some(m[i][ColumnOf(n3, col, c).value].im) == num.parseFloat(f[2 * c + 1])
    ensures var m, i := Fill(num, cur, n3, row, col, f, 3).value, NumpyIndex(row, n3).value;
      forall a, b :: 0 <= a < n3 && 0 <= b < n3 && (a != i || forall c :: 0 <= c < 3 ==> ColumnOf(n3, col, c) != Some(b)) ==>
        m[a][b] == cur[a][b]
  {
    var i := NumpyIndex(row, n3).value;
    FillStep(num, cur, n3, row, col, f, 3);
    FillStep(num, cur, n3, row, col, f, 2);
    FillStep(num, cur, n3, row, col, f, 1);
    var c0, c1, c2 := ColumnOf(n3, col, 0).value, ColumnOf(n3, col, 1).value, ColumnOf(n3, col, 2).value;
    assert c0 != c1 && c1 != c2 && c0 != c2;
  }

  // ---------------------------------------------------------------------
  // A well-formed file body

  /** A line that neither adds a q point nor stores a matrix nor ends the
      reading: blank lines, atom pairs and matrix rows. */
  predicate Plain(line: string)
  {
    !Contains(line, "q = ") && !Contains(line, "ynamical") && !Contains(line, "Diagonalizing")
  }

  /** A q line of the body. */
  predicate IsQLine(line: string)
  {
    Contains(line, "q = ") && !Contains(line, "Diagonalizing")
  }

  /** One block: its q line and the plain lines of its matrix. */
  datatype Block = Block(qLine: string, rows: seq<string>)

  predicate WellFormedBlock(b: Block)
  {
    IsQLine(b.qLine) && forall k :: 0 <= k < |b.rows| ==> Plain(b.rows[k])
  }

  /** The body after the preamble: the first block, then each further
      block preceded by a block header line, then the line that ends the
      reading. */
  function Body(blocks: seq<Block>, separator: string, last: string): seq<string>
    requires |blocks| > 0
  {
    if |blocks| == 1 then [blocks[0].qLine] + blocks[0].rows + [last]
    else Body(blocks[..|blocks| - 1], separator, separator) + [blocks[|blocks| - 1].qLine] + blocks[|blocks| - 1].rows + [last]
  }

  lemma {:induction false} PlainCounts(rows: seq<string>)
    requires forall k :: 0 <= k < |rows| ==> Plain(rows[k])
    ensures QLines(rows) == 0 && MatrixLines(rows) == 0
  {
    if |rows| > 0 {
      PlainCounts(rows[..|rows| - 1]);
    }
  }

  lemma {:induction false} ConcatCounts(a: seq<string>, b: seq<string>)
    ensures QLines(a + b) == QLines(a) + QLines(b)
    ensures MatrixLines(a + b) == MatrixLines(a) + MatrixLines(b)
  {
    if |b| > 0 {
      var init := b[..|b| - 1];
      ConcatCounts(a, init);
      assert (a + b)[..|a + b| - 1] == a + init;
    } else {
      assert a + b == a;
    }
  }

  /** A body ends with its last line, right after the rows of its last
      block. */
  lemma BodySplit(blocks: seq<Block>, separator: string, last: string)
    requires |blocks| > 0
    ensures var n := |blocks|;
      var head := if n == 1 then [] else Body(blocks[..n - 1], separator, separator);
      Body(blocks, separator, last) == head + [blocks[n - 1].qLine] + blocks[n - 1].rows + [last]
  {
  }

  /** A body of k blocks has k q lines, and its k - 1 separators and its
      final line each store a matrix. */
  lemma {:induction false} BodyCounts(blocks: seq<Block>, separator: string, last: string)
    requires |blocks| > 0 && forall k :: 0 <= k < |blocks| ==> WellFormedBlock(blocks[k])
    requires !Contains(separator, "q = ") && Contains(separator, "ynamical")
    requires !Contains(last, "q = ") && Contains(last, "ynamical")
    ensures QLines(Body(blocks, separator, last)) == |blocks|
    ensures MatrixLines(Body(blocks, separator, last)) == |blocks|
  {
    var n := |blocks|;
    var b := blocks[n - 1];
    PlainCounts(b.rows);
    var head := if n == 1 then [] else Body(blocks[..n - 1], separator, separator);
    if n > 1 {
      BodyCounts(blocks[..n - 1], separator, separator);
    }
    BodySplit(blocks, separator, last);
    var withQ := head + [b.qLine];
    var withRows := withQ + b.rows;
    CountsAppend(head, b.qLine);
    assert QLines(withQ) == n && MatrixLines(withQ) == n - 1;
    ConcatCounts(withQ, b.rows);
    CountsAppend(withRows, last);
  }

  /** In a body only the last line may contain "Diagonalizing". */
  lemma {:induction false} BodyEnds(blocks: seq<Block>, separator: string, last: string)
    requires |blocks| > 0 && forall k :: 0 <= k < |blocks| ==> WellFormedBlock(blocks[k])
    requires !Contains(separator, "Diagonalizing")
    ensures var body := Body(blocks, separator, last);
      |body| > 0 && body[|body| - 1] == last &&
      forall k :: 0 <= k < |body| - 1 ==> !Contains(body[k], "Diagonalizing")
  {
    var n := |blocks|;
    var b := blocks[n - 1];
    var head := if n == 1 then [] else Body(blocks[..n - 1], separator, separator);
    if n > 1 {
      BodyEnds(blocks[..n - 1], separator, separator);
    }
    BodySplit(blocks, separator, last);
    var body := Body(blocks, separator, last);
    forall k | 0 <= k < |body| - 1 ensures !Contains(body[k], "Diagonalizing") {
      if k < |head| {
        assert body[k] == head[k];
      } else if k == |head| {
        assert body[k] == b.qLine;
      } else {
        assert body[k] == b.rows[k - |head| - 1];
      }
    }
  }

  /** Reading a well-formed body of k blocks that ends with the
      "Diagonalizing" line yields k q points and k matrices: the block
      headers between blocks and the "Diagonalizing the dynamical matrix"
      line each store the matrix just read. */
  lemma BlocksYieldEqualCounts(num: Numbers, n3: nat, blocks: seq<Block>, separator: string, last: string)
    requires |blocks| > 0 && forall k :: 0 <= k < |blocks| ==> WellFormedBlock(blocks[k])
    requires !Contains(separator, "q = ") && Contains(separator, "ynamical") && !Contains(separator, "Diagonalizing")
    requires !Contains(last, "q = ") && Contains(last, "ynamical") && Contains(last, "Diagonalizing")
    requires ReadFrom(num, n3, Body(blocks, separator, last), StartReader(n3), 0).Ok?
    ensures var out := ReadFrom(num, n3, Body(blocks, separator, last), StartReader(n3), 0).value;
      |out.star| == |blocks| && |out.mats| == |blocks|
  {
    var body := Body(blocks, separator, last);
    BodyCounts(blocks, separator, last);
    BodyEnds(blocks, separator, last);
    var stop := ReadFromCounts(num, n3, body, StartReader(n3), 0);
    assert stop == |body| - 1;
    assert body[0..stop + 1] == body;
  }
}
