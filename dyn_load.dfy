/** `Phonons.LoadFromQE` over a whole set of files (Phonons.py:98-237):
    the files are a map from path to lines, the first file's header
    gives the structure, and every file contributes its matrices, its q
    points and one star.
 */
module DynLoad {
  import opened Wrappers
  import opened Matrices
  import opened Text
  import opened Structures
  import opened DynFormat
  import opened DynRead
  import opened QStars

  /** `[line.strip() for line in dynfile.readlines()]` */
  function StripAll(lines: seq<string>): seq<string>
  {
    seq(|lines|, k requires 0 <= k < |lines| => Strip(lines[k]))
  }

  /** What `LoadFromQE` has put into the object: the structure, alat, and
      what it appended to `dynmats`, `q_tot` and `q_stars`. */
  datatype Loaded = Loaded(structure: StructureValue, alat: real, dynmats: seq<CMat>, qTot: seq<Vec>, qStars: seq<seq<Vec>>)

  /** A fresh `Structure.Structure()`: no atoms and no unit cell. */
  const EmptyStructure: StructureValue := StructureValue(0, [], [], Zeros(3, 3), false, map[])

  /** The structure the first file's header describes. */
  function StructureOf(h: Header): StructureValue
  {
    StructureValue(h.info.natoms, h.atoms.labels, h.atoms.coords, h.cell, true, h.species.masses)
  }

  /** The object's contents once the header of file iq has been dealt
      with: only the first file's header (Phonons.py:137-181) is read,
      and it replaces the structure and alat. */
  function WithHeader(num: Numbers, lines: seq<string>, iq: nat, acc: Loaded): (r: Result<Loaded>)
    ensures r.Ok? ==> r.value.dynmats == acc.dynmats && r.value.qTot == acc.qTot && r.value.qStars == acc.qStars
    ensures iq > 0 ==> r == Ok(acc)
    ensures iq == 0 && r.Ok? ==>
      r.value.structure.nAtoms >= 0 && r.value.structure.hasUnitCell && |r.value.structure.atoms| == |r.value.structure.coords| == r.value.structure.nAtoms
  {
    if iq > 0 then Ok(acc)
    else
      var header := HeaderOf(num, lines);
      if header.Err? then Err(header.error)
      else Ok(acc.(structure := StructureOf(header.value), alat := header.value.info.alat))
  }

  /** The matrices, q points and star one file adds (Phonons.py:204-234). */
  function Added(base: Loaded, read: Reader): (r: Loaded)
    ensures r.structure == base.structure && r.alat == base.alat
    ensures r.dynmats == base.dynmats + read.mats && r.qTot == base.qTot + read.star
    ensures r.qStars == base.qStars + [read.star]
  {
    base.(dynmats := base.dynmats + read.mats, qTot := base.qTot + read.star, qStars := base.qStars + [read.star])
  }

  /** What a file's lines add once its header has been dealt with
      (Phonons.py:183-234): the preamble is skipped; `np.zeros((3 nat,
      3 nat))` refuses a negative atom count (which the header reader
      never yields); the matrices and q points read are appended, and
      the star read becomes one more entry of `q_stars`. */
  function FileBody(num: Numbers, lines: seq<string>, base: Loaded): (r: Result<Loaded>)
    ensures r.Ok? ==> base.structure.nAtoms >= 0 && r.value.structure == base.structure && r.value.alat == base.alat
  {
    var body := AfterPreamble(lines);
    if body.Err? then Err(body.error)
    else if base.structure.nAtoms < 0 then Err(BadShape)
    else
      var n3 := 3 * base.structure.nAtoms;
      var dyn := ReadFrom(num, n3, body.value, StartReader(n3), 0);
      if dyn.Err? then Err(dyn.error) else Ok(Added(base, dyn.value))
  }

  /** File iq of the set (Phonons.py:128-234): it must exist; the first
      file's header fixes the structure and alat; then its body is
      read. */
  function LoadFile(num: Numbers, files: map<string, seq<string>>, prefix: string, fullName: bool, iq: nat, acc: Loaded): (r: Result<Loaded>)
    ensures r.Ok? ==> r.value.structure.nAtoms >= 0
  {
    var path := FileName(prefix, iq, fullName);
    if path !in files then Err(MissingFile(path))
    else
      var lines := StripAll(files[path]);
      var base := WithHeader(num, lines, iq, acc);
      if base.Err? then Err(base.error) else FileBody(num, lines, base.value)
  }

  /** What one file adds: one star, whose points extend `q_tot`; the
      first file's header gives a structure with a unit cell and one
      label and one position per atom, and later files keep it. */
  lemma {:induction false} LoadFileAdds(num: Numbers, files: map<string, seq<string>>, prefix: string, fullName: bool, iq: nat, acc: Loaded)
    requires LoadFile(num, files, prefix, fullName, iq, acc).Ok?
    ensures var r := LoadFile(num, files, prefix, fullName, iq, acc).value;
      exists star :: r.qStars == acc.qStars + [star] && r.qTot == acc.qTot + star
    ensures var r := LoadFile(num, files, prefix, fullName, iq, acc).value;
      iq == 0 ==> r.structure.hasUnitCell && |r.structure.atoms| == |r.structure.coords| == r.structure.nAtoms
    ensures iq > 0 ==> LoadFile(num, files, prefix, fullName, iq, acc).value.structure == acc.structure
  {
    var lines := StripAll(files[FileName(prefix, iq, fullName)]);
    var base := WithHeader(num, lines, iq, acc).value;
    var n3 := 3 * base.structure.nAtoms;
    var rd := ReadFrom(num, n3, AfterPreamble(lines).value, StartReader(n3), 0).value;
    assert FileBody(num, lines, base) == Ok(Added(base, rd));
  }

  /** Reading one file of the set as a step of the loop over files. */
  function FileStep(num: Numbers, files: map<string, seq<string>>, prefix: string, fullName: bool): (nat, Loaded) -> Result<Loaded>
  {
    (iq: nat, acc: Loaded) => LoadFile(num, files, prefix, fullName, iq, acc)
  }

  /** `for iq in range(nqirr)` (Phonons.py:128): files 0 .. n - 1 read in
      turn by `step`, the first error ending the loop. */
  function ReadFiles(step: (nat, Loaded) -> Result<Loaded>, start: Loaded, n: nat): Result<Loaded>
  {
    if n == 0 then Ok(start)
    else
      var prev := ReadFiles(step, start, n - 1);
      if prev.Err? then prev else step(n - 1, prev.value)
  }

  /** The object before the first file: a fresh structure, the previous
      alat, and nothing read. */
  function Fresh(alat0: real): Loaded
  {
    Loaded(EmptyStructure, alat0, [], [], [])
  }

  /** `LoadFromQE(fildyn_prefix, nqirr, full_name)` (Phonons.py:98-237). */
  function LoadResult(num: Numbers, files: map<string, seq<string>>, prefix: string, nqirr: int, fullName: bool, alat0: real): Result<Loaded>
  {
    if nqirr <= 0 then Err(BadNqirr)
    else if fullName && nqirr > 1 then Err(FullNameNeedsGamma)
    else ReadFiles(FileStep(num, files, prefix, fullName), Fresh(alat0), nqirr)
  }

  // ---------------------------------------------------------------------
  // Properties of the loop over files, for any step

  /** Once a file fails, the files after it are never opened. */
  lemma {:induction false} ReadFilesStopped(step: (nat, Loaded) -> Result<Loaded>, start: Loaded, k: nat, n: nat)
    requires k <= n && ReadFiles(step, start, k).Err?
    ensures ReadFiles(step, start, n) == ReadFiles(step, start, k)
    decreases n
  {
    if n > k {
      ReadFilesStopped(step, start, k, n - 1);
    }
  }

  /** A property of the object that holds before the first file and that
      every successful step carries from file iq to file iq + 1 holds
      after every successful prefix of the loop. */
  lemma {:induction false} ReadFilesKeeps(step: (nat, Loaded) -> Result<Loaded>, start: Loaded, inv: (nat, Loaded) -> bool, n: nat)
    requires inv(0, start)
    requires forall iq: nat, acc :: inv(iq, acc) && step(iq, acc).Ok? ==> inv(iq + 1, step(iq, acc).value)
    ensures ReadFiles(step, start, n).Ok? ==> inv(n, ReadFiles(step, start, n).value)
    decreases n
  {
    if n > 0 {
      ReadFilesKeeps(step, start, inv, n - 1);
    }
  }

  // ---------------------------------------------------------------------
  // Properties of the loader

  /** The ibrav field of line 2, when there is one that `int()` reads. */
  function IbravField(lines: seq<string>): Option<int>
  {
    if |lines| > 2 && |Split(lines[2])| >= 3 then ParseInt(Split(lines[2])[2]) else None
  }

  /** The checks made before any matrix is read (Phonons.py:112-145): a
      non-positive nqirr, `full_name` with more than one file, a missing
      first file, and a first file whose ibrav is not 0, each raise. */
  lemma {:induction false} LoadErrors(num: Numbers, files: map<string, seq<string>>, prefix: string, nqirr: int, fullName: bool, alat0: real)
    ensures nqirr <= 0 ==> LoadResult(num, files, prefix, nqirr, fullName, alat0) == Err(BadNqirr)
    ensures nqirr > 1 && fullName ==> LoadResult(num, files, prefix, nqirr, fullName, alat0) == Err(FullNameNeedsGamma)
    ensures nqirr >= 1 && !(fullName && nqirr > 1) && FileName(prefix, 0, fullName) !in files ==>
      LoadResult(num, files, prefix, nqirr, fullName, alat0) == Err(MissingFile(FileName(prefix, 0, fullName)))
    ensures nqirr >= 1 && !(fullName && nqirr > 1) && FileName(prefix, 0, fullName) in files &&
      IbravField(StripAll(files[FileName(prefix, 0, fullName)])).Some? &&
      IbravField(StripAll(files[FileName(prefix, 0, fullName)])).value != 0
      ==> LoadResult(num, files, prefix, nqirr, fullName, alat0) == Err(UnsupportedIbrav)
  {
    if nqirr >= 1 && !(fullName && nqirr > 1) {
      var step := FileStep(num, files, prefix, fullName);
      assert ReadFiles(step, Fresh(alat0), 0) == Ok(Fresh(alat0));
      var first := ReadFiles(step, Fresh(alat0), 1);
      assert first == LoadFile(num, files, prefix, fullName, 0, Fresh(alat0));
      if first.Err? {
        ReadFilesStopped(step, Fresh(alat0), 1, nqirr);
      }
    }
  }

  /** A file missing after the first k were read raises for that file. */
  lemma {:induction false} LoadMissingLater(num: Numbers, files: map<string, seq<string>>, prefix: string, nqirr: int, fullName: bool,
                                            alat0: real, k: nat)
    requires 1 <= nqirr && !(fullName && nqirr > 1) && k < nqirr
    requires ReadFiles(FileStep(num, files, prefix, fullName), Fresh(alat0), k).Ok? && FileName(prefix, k, fullName) !in files
    ensures LoadResult(num, files, prefix, nqirr, fullName, alat0) == Err(MissingFile(FileName(prefix, k, fullName)))
  {
    var step := FileStep(num, files, prefix, fullName);
    var prev := ReadFiles(step, Fresh(alat0), k).value;
    assert ReadFiles(step, Fresh(alat0), k + 1) == LoadFile(num, files, prefix, fullName, k, prev);
    ReadFilesStopped(step, Fresh(alat0), k + 1, nqirr);
  }

  /** What the object holds after n files: one star per file, `q_tot`
      the stars' points star after star, and, once the first header is
      read, a structure with its unit cell and one label and one
      position per atom. */
  predicate Shaped(n: nat, l: Loaded)
  {
    |l.qStars| == n && l.qTot == Flatten(l.qStars) &&
    (n > 0 ==> l.structure.hasUnitCell && |l.structure.atoms| == |l.structure.coords| == l.structure.nAtoms)
  }

  /** Reading file iq on top of the first iq keeps the shape. */
  lemma {:induction false} LoadFileShaped(num: Numbers, files: map<string, seq<string>>, prefix: string, fullName: bool,
                                          iq: nat, acc: Loaded)
    requires Shaped(iq, acc) && LoadFile(num, files, prefix, fullName, iq, acc).Ok?
    ensures Shaped(iq + 1, LoadFile(num, files, prefix, fullName, iq, acc).value)
  {
    LoadFileAdds(num, files, prefix, fullName, iq, acc);
    var l := LoadFile(num, files, prefix, fullName, iq, acc).value;
    var star :| l.qStars == acc.qStars + [star] && l.qTot == acc.qTot + star;
    FlattenAppend(acc.qStars, star);
  }

  /** What a successful `LoadFromQE(prefix, nqirr, full_name)` leaves:
      nqirr stars (one with `full_name`), `q_tot` their concatenation,
      and a structure with a unit cell. */
  lemma {:induction false} LoadShapes(num: Numbers, files: map<string, seq<string>>, prefix: string, nqirr: int, fullName: bool, alat0: real)
    requires LoadResult(num, files, prefix, nqirr, fullName, alat0).Ok?
    ensures nqirr >= 1 && (fullName ==> nqirr == 1)
    ensures Shaped(nqirr, LoadResult(num, files, prefix, nqirr, fullName, alat0).value)
  {
    var step := FileStep(num, files, prefix, fullName);
    forall iq: nat, acc | Shaped(iq, acc) && step(iq, acc).Ok?
      ensures Shaped(iq + 1, step(iq, acc).value)
    {
      LoadFileShaped(num, files, prefix, fullName, iq, acc);
    }
    ReadFilesKeeps(step, Fresh(alat0), Shaped, nqirr);
  }

  /** A file whose body after the first block header is k well-formed
      blocks, separated by lines that store a matrix and ended by the
      "Diagonalizing the dynamical matrix" line, adds k q points to
      `q_tot`, k matrices to `dynmats`, and one star of k points. */
  lemma {:induction false} FileOfBlocks(num: Numbers, files: map<string, seq<string>>, prefix: string, fullName: bool, iq: nat, acc: Loaded,
                     blocks: seq<Block>, separator: string, last: string)
    requires LoadFile(num, files, prefix, fullName, iq, acc).Ok?
    requires |blocks| > 0 && forall k :: 0 <= k < |blocks| ==> WellFormedBlock(blocks[k])
    requires !Contains(separator, "q = ") && Contains(separator, "ynamical") && !Contains(separator, "Diagonalizing")
    requires !Contains(last, "q = ") && Contains(last, "ynamical") && Contains(last, "Diagonalizing")
    requires FileName(prefix, iq, fullName) in files
    requires AfterPreamble(StripAll(files[FileName(prefix, iq, fullName)])) == Ok(Body(blocks, separator, last))
    ensures var l := LoadFile(num, files, prefix, fullName, iq, acc).value;
      |l.qStars| == |acc.qStars| + 1 && |l.qStars[|acc.qStars|]| == |blocks| &&
      |l.qTot| == |acc.qTot| + |blocks| && |l.dynmats| == |acc.dynmats| + |blocks|
  {
    var lines := StripAll(files[FileName(prefix, iq, fullName)]);
    var l := LoadFile(num, files, prefix, fullName, iq, acc).value;
    var n3 := 3 * l.structure.nAtoms;
    BlocksYieldEqualCounts(num, n3, blocks, separator, last);
  }
}
