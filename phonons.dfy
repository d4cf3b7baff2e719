/** The `Phonons` object (Phonons.py:22-339): the dynamical matrices, the
    q points and their stars, and the atomic structure they belong to.
    `LoadFromQE` fills the object from a set of Quantum ESPRESSO files,
    `save_qe` writes it back out, and each method is proved against the
    functions of modules DynLoad and DynWrite that say what it does.

    Files are a map from path to lines (`os.path.isfile` is membership,
    `readlines` the lines); written files are returned as (name, lines)
    pairs in the order they are written.
 */
module PhononsModel {
  import opened Wrappers
  import opened SeqFacts
  import opened Matrices
  import opened Numerics
  import opened Text
  import opened Structures
  import opened DynFormat
  import opened DynRead
  import opened DynLoad
  import opened DynWrite
  import opened DynLayout

  /** `dynlines.pop(0)` until the block header has been popped
      (Phonons.py:185-191). */
  method SkipPreamble(lines: seq<string>) returns (r: Result<seq<string>>)
    ensures r == AfterPreamble(lines)
  {
    var rest := lines;
    var reading := true;
    while reading
      invariant AfterPreamble(lines) == if reading then AfterPreamble(rest) else Ok(rest)
      decreases |rest|
    {
      if |rest| == 0 {
        return Err(IndexError);
      }
      if Contains(rest[0], ReadHeader) {
        reading := false;
      }
      rest := rest[1..];
    }
    return Ok(rest);
  }

  /** The entries of a complex array, row by row. */
  function Snapshot(a: array2<Complex>): (m: CMat)
    reads a
    ensures a.Length0 == a.Length1 ==> IsCMatrix(m, a.Length0)
  {
    seq(a.Length0, i requires 0 <= i < a.Length0 reads a => seq(a.Length1, j requires 0 <= j < a.Length1 reads a => a[i, j]))
  }

  /** A matrix that agrees with an array entry by entry is its snapshot. */
  lemma SnapshotOf(a: array2<Complex>, m: CMat)
    requires a.Length0 == a.Length1 && IsCMatrix(m, a.Length0)
    requires forall x, y :: 0 <= x < a.Length0 && 0 <= y < a.Length1 ==> m[x][y] == a[x, y]
    ensures Snapshot(a) == m
  {
    assert forall x :: 0 <= x < a.Length0 ==> Snapshot(a)[x] == m[x];
  }

  /** What the object holds once it has gained `acc` on top of the lists
      d0, q0 and s0 it held before. */
  datatype Lists = Lists(dynmats: seq<CMat>, qTot: seq<Vec>, qStars: seq<seq<Vec>>)

  /** What `other` can be.  The module is Python 2 and `class Phonons:`
      declares a classic class; every classic instance has the same
      type, so `type(other) != type(self)` (Phonons.py:327) singles out
      only values that are not classic instances.  Another `Phonons`
      object, or an instance of any other classic class, described by the
      attributes the check reads, goes on to the comparisons. */
  datatype Other = AnotherPhonons(p: Phonons) | OtherInstance(attributes: Summary) | NotInstance

  /** What `CheckCompatibility` reads from an object: the atom count of
      its structure (None when `structure.N_atoms` cannot be read) and
      nqirr (None when the object has no such attribute). */
  datatype Summary = Summary(nAtoms: Option<int>, nqirr: Option<int>)

  /** `self.CheckCompatibility(other)` (Phonons.py:310-339) on summaries;
      `other` is None when it is not a classic instance.  A missing
      structure on either side raises before the atom counts are
      compared, and a missing nqirr only once they agree. */
  function Compatibility(self: Summary, other: Option<Summary>): Result<bool>
  {
    if other.None? then Ok(false)
    else if self.nAtoms.None? || other.value.nAtoms.None? then Err(NoStructure)
    else if self.nAtoms.value != other.value.nAtoms.value then Ok(false)
    else if self.nqirr.None? || other.value.nqirr.None? then Err(NoNqirr)
    else Ok(self.nqirr.value == other.value.nqirr.value)
  }

  /** Two objects are compatible exactly when both have a structure, with
      the same number of atoms, and the same nqirr; a value that is not a
      classic instance is not compatible; the check raises exactly when a
      structure is missing, or when the atom counts agree and an nqirr is
      missing. */
  lemma {:induction false} CompatibilityMeaning(self: Summary, other: Option<Summary>)
    ensures other.None? ==> Compatibility(self, other) == Ok(false)
    ensures other.Some? ==>
      (Compatibility(self, other).Err? <==>
         self.nAtoms.None? || other.value.nAtoms.None? ||
         (self.nAtoms == other.value.nAtoms && (self.nqirr.None? || other.value.nqirr.None?)))
    ensures other.Some? && Compatibility(self, other).Err? ==>
      Compatibility(self, other).error == (if self.nAtoms.None? || other.value.nAtoms.None? then NoStructure else NoNqirr)
    ensures Compatibility(self, other) == Ok(true) <==>
      other.Some? && self.nAtoms.Some? && self.nqirr.Some? && self == other.value
  {
  }

  /** Compatibility is reflexive and symmetric. */
  lemma {:induction false} CompatibilityEquivalence(a: Summary, b: Summary)
    ensures a.nAtoms.Some? && a.nqirr.Some? ==> Compatibility(a, Some(a)) == Ok(true)
    ensures Compatibility(a, Some(b)) == Compatibility(b, Some(a))
  {
  }

  /** Why the structure branch of `Phonons(structure, nqirr)`
      (Phonons.py:77-89) raises: an empty structure, a non-positive
      nqirr, and otherwise `for i in nqirr`, which cannot iterate an int. */
  function StructureBranch(nAtoms: int, nqirr: int): (e: Error)
    ensures e == EmptyStructure <==> nAtoms <= 0
    ensures e == BadNqirr <==> nAtoms > 0 && nqirr <= 0
    ensures e == NotIterable <==> nAtoms > 0 && nqirr > 0
  {
    if nAtoms <= 0 then EmptyStructure else if nqirr <= 0 then BadNqirr else NotIterable
  }

  /** The file loop of `save_qe` (Phonons.py:665-770) on the object's
      contents: the files closed before the first error, whole, and that
      error, if any. */
  method WriteAll(num: Numbers, p: PhononsValue, dyag: Dyag, filename: string, fullName: bool)
    returns (files: seq<(string, seq<string>)>, out: Outcome)
    requires DynWrite.Shaped(p.structure)
    ensures files == SavedBefore(num, p, dyag, filename, fullName)
    ensures out.Pass? <==> Saved(num, p, dyag, filename, fullName).Ok?
    ensures out.Pass? ==> Saved(num, p, dyag, filename, fullName) == Ok(files)
    ensures out.Fail? ==> Saved(num, p, dyag, filename, fullName) == Err(out.error)
  {
    var count := FileCount(p.nqirr, fullName);
    ghost var text := TextStep(num, p, dyag);
    files := [];
    var countQ: nat := 0;
    for iq := 0 to count
      invariant WriteFiles(text, filename, fullName, iq) == Ok((files, countQ))
    {
      var t := FileText(num, p, dyag, iq, countQ);
      WriteFilesNext(text, filename, fullName, iq);
      assert text(iq, countQ) == t;
      if t.Err? {
        WriteFilesStopped(text, filename, fullName, iq + 1, count);
        CompletedFiles(text, filename, fullName, iq);
        CompletedStopped(text, filename, fullName, iq + 1, count);
        return files, Fail(t.error);
      }
      files := files + [(FileName(filename, iq, fullName), t.value.0)];
      countQ := t.value.1;
    }
    CompletedFiles(text, filename, fullName, count);
    out := Pass;
  }

  class Phonons {
    /** The number conversions of the files read and written. */
    const num: Numbers
    var dynmats: seq<CMat>          // dynmats
    var nqirr: int                  // nqirr
    var qTot: seq<Vec>              // q_tot
    var alat: real                  // alat
    var initialized: bool           // initialized
    var qStars: seq<seq<Vec>>       // q_stars
    var structure: Structure?       // structure (None before loading)

    /** `Phonons()` with no structure (Phonons.py:56-72). */
    constructor (num: Numbers)
      ensures this.num == num
      ensures dynmats == [] && nqirr == 1 && qTot == [] && alat == 1.0
      ensures !initialized && qStars == [] && structure == null
    {
      this.num := num;
      dynmats := [];
      nqirr := 1;
      qTot := [];
      alat := 1.0;
      initialized := false;
      qStars := [];
      structure := null;
    }

    /** The object holds the lists `base` followed by what `acc` gained,
        and `acc`'s structure and alat. */
    ghost predicate Mirrors(base: Lists, acc: Loaded)
      reads this, structure
    {
      structure != null && structure.Value() == acc.structure && alat == acc.alat &&
      dynmats == base.dynmats + acc.dynmats && qTot == base.qTot + acc.qTot && qStars == base.qStars + acc.qStars
    }

    /** `for k in range(3): current_dyn[row, col + k] = float(f[2k]) +
        1j * float(f[2k + 1])` (Phonons.py:224-226). */
    method FillRow(cur: array2<Complex>, n3: nat, row: int, col: int, f: seq<string>) returns (r: Outcome)
      requires cur.Length0 == n3 && cur.Length1 == n3 && |f| == 6
      modifies cur
      ensures var m := Fill(num, old(Snapshot(cur)), n3, row, col, f, 3);
        (r.Pass? <==> m.Ok?) && (r.Fail? ==> r.error == m.error) && (r.Pass? ==> Snapshot(cur) == m.value)
    {
      ghost var before := Snapshot(cur);
      for k := 0 to 3
        invariant Fill(num, before, n3, row, col, f, k) == Ok(Snapshot(cur))
      {
        var re, im := num.parseFloat(f[2 * k]), num.parseFloat(f[2 * k + 1]);
        if re.None? || im.None? {
          FillStopped(num, before, n3, row, col, f, k + 1, 3);
          return Fail(ParseError);
        }
        var i, j := NumpyIndex(row, n3), NumpyIndex(col + k, n3);
        if i.None? || j.None? {
          FillStopped(num, before, n3, row, col, f, k + 1, 3);
          return Fail(IndexError);
        }
        Store(cur, i.value, j.value, Complex(re.value, im.value));
      }
      return Pass;
    }

    /** `current_dyn[i, j] = v` */
    static method Store(cur: array2<Complex>, i: nat, j: nat, v: Complex)
      requires cur.Length0 == cur.Length1 && i < cur.Length0 && j < cur.Length1
      modifies cur
      ensures Snapshot(cur) == old(Snapshot(cur))[i := old(Snapshot(cur))[i][j := v]]
    {
      ghost var prev := Snapshot(cur);
      cur[i, j] := v;
      SnapshotOf(cur, prev[i := prev[i][j := v]]);
    }

    /** A line that is neither a q line nor a block header
        (Phonons.py:217-228): the new `atm_i`, `atm_j` and `coordline`. */
    method ReadPlain(cur: array2<Complex>, n3: nat, f: seq<string>, atmI: int, atmJ: int, coordline: int, ghost r: Reader)
      returns (res: Result<(int, int, int)>)
      requires cur.Length0 == n3 && cur.Length1 == n3
      requires r.cur == Snapshot(cur) && r.atmI == atmI && r.atmJ == atmJ && r.coordline == coordline
      modifies cur
      ensures var p := PlainLine(num, n3, r, f);
        (res.Ok? <==> p.Ok?) && (res.Err? ==> res.error == p.error) &&
        (res.Ok? ==> p.value == r.(cur := Snapshot(cur), atmI := res.value.0, atmJ := res.value.1, coordline := res.value.2))
    {
      if |f| == 2 {
        var a, b := ParseInt(f[0]), ParseInt(f[1]);
        if a.None? || b.None? {
          return Err(ParseError);
        }
        return Ok((a.value - 1, b.value - 1, 0));
      } else if |f| == 6 {
        var m := FillRow(cur, n3, 3 * atmI + coordline, 3 * atmJ, f);
        if m.Fail? {
          return Err(m.error);
        }
        return Ok((atmI, atmJ, coordline + 1));
      }
      return Ok((atmI, atmJ, coordline));
    }

    /** One pass of the reading loop (Phonons.py:204-231) with `atm_i`,
        `atm_j`, `coordline` and `q_star` before it; `mats` are the
        matrices the loop has appended so far and `base` what `q_tot` and
        `dynmats` held before the loop. */
    method ReadStep(cur: array2<Complex>, n3: nat, line: string, atmI: int, atmJ: int, coordline: int, star: seq<Vec>,
                    ghost mats: seq<CMat>, ghost base: Lists)
      returns (res: Result<(int, int, int, seq<Vec>)>, ghost mats': seq<CMat>)
      requires cur.Length0 == n3 && cur.Length1 == n3
      requires qTot == base.qTot + star && dynmats == base.dynmats + mats
      modifies this, cur
      ensures alat == old(alat) && qStars == old(qStars) && structure == old(structure)
      ensures nqirr == old(nqirr) && initialized == old(initialized)
      ensures var next := ReadLine(num, n3, Reader(old(Snapshot(cur)), atmI, atmJ, coordline, star, mats), line);
        (res.Ok? <==> next.Ok?) && (res.Err? ==> res.error == next.error) &&
        (res.Ok? ==> next.value == Reader(Snapshot(cur), res.value.0, res.value.1, res.value.2, res.value.3, mats') &&
                     qTot == base.qTot + res.value.3 && dynmats == base.dynmats + mats')
    {
      ghost var now := Reader(Snapshot(cur), atmI, atmJ, coordline, star, mats);
      mats' := mats;
      if Contains(line, "q = ") {
        var q := QPointOf(num, line);
        if q.Err? {
          return Err(q.error), mats';
        }
        qTot := qTot + [q.value];
        return Ok((atmI, atmJ, coordline, star + [q.value])), mats';
      } else if Contains(line, "ynamical") {
        var copy := Snapshot(cur);
        mats' := mats + [copy];
        dynmats := dynmats + [copy];
        return Ok((atmI, atmJ, coordline, star)), mats';
      } else {
        var p := ReadPlain(cur, n3, Split(line), atmI, atmJ, coordline, now);
        if p.Err? {
          return Err(p.error), mats';
        }
        return Ok((p.value.0, p.value.1, p.value.2, star)), mats';
      }
    }

    /** One pass of the reading loop at line `index` (Phonons.py:193-234):
        running out of lines is an IndexError, and `stop` says that the
        line read contains "Diagonalizing".  The ensures relate the reading
        from `index` on before the pass to the reading after it. */
    method ReadAt(cur: array2<Complex>, n3: nat, lines: seq<string>, index: nat, atmI: int, atmJ: int, coordline: int,
                  star: seq<Vec>, ghost mats: seq<CMat>, ghost base: Lists)
      returns (res: Result<(int, int, int, seq<Vec>)>, stop: bool, ghost mats': seq<CMat>)
      requires cur.Length0 == n3 && cur.Length1 == n3
      requires qTot == base.qTot + star && dynmats == base.dynmats + mats
      modifies this, cur
      ensures alat == old(alat) && qStars == old(qStars) && structure == old(structure)
      ensures nqirr == old(nqirr) && initialized == old(initialized)
      ensures res.Err? ==>
        ReadFrom(num, n3, lines, Reader(old(Snapshot(cur)), atmI, atmJ, coordline, star, mats), index) == Err(res.error)
      ensures res.Ok? ==>
        index < |lines| && qTot == base.qTot + res.value.3 && dynmats == base.dynmats + mats' &&
        ReadFrom(num, n3, lines, Reader(old(Snapshot(cur)), atmI, atmJ, coordline, star, mats), index) ==
          if stop then Ok(Reader(Snapshot(cur), res.value.0, res.value.1, res.value.2, res.value.3, mats'))
          else ReadFrom(num, n3, lines, Reader(Snapshot(cur), res.value.0, res.value.1, res.value.2, res.value.3, mats'), index + 1)
    {
      mats' := mats;
      if index >= |lines| {
        return Err(IndexError), false, mats';
      }
      stop := Contains(lines[index], "Diagonalizing");
      res, mats' := ReadStep(cur, n3, lines[index], atmI, atmJ, coordline, star, mats, base);
    }

    /** The reading loop of `LoadFromQE` (Phonons.py:193-234) over the
        lines after the preamble, from a zero `current_dyn`: the line
        containing "Diagonalizing" is the last one read, and running out
        of lines is an IndexError.  The star is returned; `q_tot` and
        `dynmats` have gained what the reader appended. */
    method ReadMatrices(n3: nat, lines: seq<string>) returns (r: Result<seq<Vec>>)
      modifies this
      ensures alat == old(alat) && qStars == old(qStars) && structure == old(structure)
      ensures nqirr == old(nqirr) && initialized == old(initialized)
      ensures var rd := ReadFrom(num, n3, lines, StartReader(n3), 0);
        (r.Ok? <==> rd.Ok?) && (r.Err? ==> r.error == rd.error) &&
        (r.Ok? ==> r.value == rd.value.star && qTot == old(qTot) + rd.value.star && dynmats == old(dynmats) + rd.value.mats)
    {
      var cur := new Complex[n3, n3]((_, _) => CZero);
      SnapshotOf(cur, CZeros(n3));
      ghost var whole := ReadFrom(num, n3, lines, StartReader(n3), 0);
      var atmI, atmJ, coordline := 0, 0, 0;
      var star: seq<Vec> := [];
      ghost var mats: seq<CMat> := [];
      ghost var base := Lists(dynmats, qTot, []);
      var index := 0;
      var reading := true;
      while reading
        invariant index <= |lines|
        invariant alat == old(alat) && qStars == old(qStars) && structure == old(structure)
        invariant nqirr == old(nqirr) && initialized == old(initialized)
        invariant qTot == base.qTot + star && dynmats == base.dynmats + mats
        invariant cur.Length0 == n3 && cur.Length1 == n3
        invariant reading ==> whole == ReadFrom(num, n3, lines, Reader(Snapshot(cur), atmI, atmJ, coordline, star, mats), index)
        invariant !reading ==> whole == Ok(Reader(Snapshot(cur), atmI, atmJ, coordline, star, mats))
        decreases |lines| - index, reading
      {
        var step, stop, mats' := ReadAt(cur, n3, lines, index, atmI, atmJ, coordline, star, mats, base);
        if step.Err? {
          return Err(step.error);
        }
        atmI, atmJ, coordline, star := step.value.0, step.value.1, step.value.2, step.value.3;
        mats := mats';
        reading := !stop;
        index := index + 1;
      }
      return Ok(star);
    }

    /** The header of file iq (Phonons.py:137-181): read only for the
        first file, where it sets alat and the structure. */
    method TakeHeader(lines: seq<string>, iq: nat, ghost base: Lists, ghost acc: Loaded) returns (r: Outcome)
      requires Mirrors(base, acc)
      modifies this, structure
      ensures structure == old(structure) && nqirr == old(nqirr) && initialized == old(initialized)
      ensures var w := WithHeader(num, lines, iq, acc);
        (r.Pass? <==> w.Ok?) && (r.Fail? ==> r.error == w.error) && (r.Pass? ==> Mirrors(base, w.value))
    {
      if iq == 0 {
        var h := HeaderOf(num, lines);
        if h.Err? {
          return Fail(h.error);
        }
        SetHeader(h.value, base, acc);
      }
      return Pass;
    }

    /** `self.alat = ...` and the structure's fields as the header gives
        them (Phonons.py:150-181). */
    method SetHeader(h: Header, ghost base: Lists, ghost acc: Loaded)
      requires Mirrors(base, acc)
      modifies this, structure
      ensures structure == old(structure) && nqirr == old(nqirr) && initialized == old(initialized)
      ensures Mirrors(base, acc.(structure := StructureOf(h), alat := h.info.alat))
    {
      alat := h.info.alat;
      structure.SetTo(StructureOf(h));
    }

    /** File iq of `LoadFromQE` (Phonons.py:129-234) on an object that
        mirrors `acc`: the object then mirrors what `LoadFile` makes of
        `acc`, or the method fails with the error `LoadFile` gives. */
    method LoadOne(files: map<string, seq<string>>, prefix: string, fullName: bool, iq: nat, ghost base: Lists, ghost acc: Loaded)
      returns (r: Outcome)
      requires Mirrors(base, acc)
      modifies this, structure
      ensures structure == old(structure) && nqirr == old(nqirr) && initialized == old(initialized)
      ensures var l := LoadFile(num, files, prefix, fullName, iq, acc);
        (r.Pass? <==> l.Ok?) && (r.Fail? ==> r.error == l.error) && (r.Pass? ==> Mirrors(base, l.value))
    {
      var path := FileName(prefix, iq, fullName);
      if path !in files {
        return Fail(MissingFile(path));
      }
      var lines := StripAll(files[path]);
      ghost var header := WithHeader(num, lines, iq, acc);
      r := TakeHeader(lines, iq, base, acc);
      if r.Fail? {
        return;
      }
      r := ReadBody(lines, base, header.value);
    }

    /** The rest of file iq once its header has been dealt with
        (Phonons.py:183-234): the object then mirrors what `FileBody`
        makes of `acc`. */
    method ReadBody(lines: seq<string>, ghost base: Lists, ghost acc: Loaded) returns (r: Outcome)
      requires Mirrors(base, acc)
      modifies this
      ensures structure == old(structure) && nqirr == old(nqirr) && initialized == old(initialized)
      ensures var l := FileBody(num, lines, acc);
        (r.Pass? <==> l.Ok?) && (r.Fail? ==> r.error == l.error) && (r.Pass? ==> Mirrors(base, l.value))
    {
      var body := SkipPreamble(lines);
      if body.Err? {
        return Fail(body.error);
      }
      var nAtoms := structure.nAtoms;
      assert nAtoms == acc.structure.nAtoms;
      if nAtoms < 0 {
        return Fail(BadShape);
      }
      ghost var rd := ReadFrom(num, 3 * nAtoms, body.value, StartReader(3 * nAtoms), 0);
      var star := ReadMatrices(3 * nAtoms, body.value);
      if star.Err? {
        return Fail(star.error);
      }
      qStars := qStars + [star.value];
      assert FileBody(num, lines, acc) == Ok(Added(acc, rd.value));
      Associative(base.dynmats, acc.dynmats, rd.value.mats);
      Associative(base.qTot, acc.qTot, rd.value.star);
      return Pass;
    }

    /** `LoadFromQE(fildyn_prefix, nqirr, full_name)` (Phonons.py:98-237):
        the object ends up with a new structure and holds what
        `LoadResult` loads on top of the lists it held before, or the
        method fails with the error `LoadResult` gives.  `nqirr` itself
        is left as it was. */
    method LoadFromQE(files: map<string, seq<string>>, prefix: string, nq: int, fullName: bool) returns (r: Outcome)
      modifies this
      ensures nqirr == old(nqirr)
      ensures var l := LoadResult(num, files, prefix, nq, fullName, old(alat));
        (r.Pass? <==> l.Ok?) && (r.Fail? ==> r.error == l.error) &&
        (r.Pass? ==> fresh(structure) && initialized && Mirrors(Lists(old(dynmats), old(qTot), old(qStars)), l.value))
    {
      if nq <= 0 {
        return Fail(BadNqirr);
      }
      if fullName && nq > 1 {
        return Fail(FullNameNeedsGamma);
      }
      var s := new Structure();
      structure := s;
      ghost var base := Lists(dynmats, qTot, qStars);
      ghost var step := FileStep(num, files, prefix, fullName);
      ghost var acc := Fresh(alat);
      for iq := 0 to nq
        invariant structure == s && fresh(s) && nqirr == old(nqirr)
        invariant ReadFiles(step, Fresh(old(alat)), iq) == Ok(acc)
        invariant Mirrors(base, acc)
      {
        var one := LoadOne(files, prefix, fullName, iq, base, acc);
        if one.Fail? {
          ReadFilesStopped(step, Fresh(old(alat)), iq + 1, nq);
          return one;
        }
        acc := LoadFile(num, files, prefix, fullName, iq, acc).value;
      }
      initialized := true;
      return Pass;
    }

    /** What `CheckCompatibility` looks at. */
    function Outline(): Summary
      reads this, structure
    {
      Summary(if structure == null then None else Some(structure.nAtoms), Some(nqirr))
    }

    /** `self.CheckCompatibility(other)` (Phonons.py:311-339): false for a
        value that is not a classic instance; a missing structure on
        either side raises; otherwise the atom counts are compared, and
        then nqirr, which raises on an instance without it. */
    method CheckCompatibility(other: Other) returns (r: Result<bool>)
      ensures r == Compatibility(Outline(), match other
                                            case AnotherPhonons(p) => Some(p.Outline())
                                            case OtherInstance(a) => Some(a)
                                            case NotInstance => None)
    {
      if other.NotInstance? {
        return Ok(false);
      }
      var theirs := if other.AnotherPhonons? then
                      Summary(if other.p.structure == null then None else Some(other.p.structure.nAtoms), Some(other.p.nqirr))
                    else other.attributes;
      if structure == null || theirs.nAtoms.None? {
        return Err(NoStructure);
      }
      if structure.nAtoms != theirs.nAtoms.value {
        return Ok(false);
      }
      if theirs.nqirr.None? {
        return Err(NoNqirr);
      }
      return Ok(nqirr == theirs.nqirr.value);
    }

    /** The contents `save_qe` writes out. */
    function Contents(): PhononsValue
      reads this, structure
      requires structure != null
    {
      PhononsValue(structure.Value(), alat, nqirr, dynmats, qStars)
    }

    /** `self.save_qe(filename, full_name)` (Phonons.py:629-770): the files
        closed when it returns or raises, in the order they are written,
        and the error it raises if any.  With no file to write nothing is
        touched; otherwise a missing structure raises before any file is
        opened; otherwise every file before the first whose text raises is
        written whole, and that one's error is raised. */
    method SaveQE(filename: string, fullName: bool, dyag: Dyag) returns (files: seq<(string, seq<string>)>, out: Outcome)
      requires structure != null ==> DynWrite.Shaped(structure.Value())
      ensures FileCount(nqirr, fullName) == 0 ==> files == [] && out == Pass
      ensures FileCount(nqirr, fullName) > 0 && structure == null ==> files == [] && out == Fail(NoStructure)
      ensures FileCount(nqirr, fullName) > 0 && structure != null ==>
        files == SavedBefore(num, Contents(), dyag, filename, fullName) &&
        (out.Pass? <==> Saved(num, Contents(), dyag, filename, fullName).Ok?) &&
        (out.Pass? ==> Saved(num, Contents(), dyag, filename, fullName) == Ok(files)) &&
        (out.Fail? ==> Saved(num, Contents(), dyag, filename, fullName) == Err(out.error))
    {
      var count := FileCount(nqirr, fullName);
      files := [];
      if count == 0 {
        return files, Pass;
      }
      if structure == null {
        return files, Fail(NoStructure);
      }
      files, out := WriteAll(num, Contents(), dyag, filename, fullName);
    }

    /** `self.Copy()` (Phonons.py:292-309): a new object built by
        `Phonons()`, with a copy of the structure, the same q points,
        nqirr, flag and stars, and a copy of every matrix; alat keeps the
        default 1.  A missing structure raises. */
    method Copy() returns (r: Result<Phonons>)
      ensures structure == null ==> r == Err(NoStructure)
      ensures structure != null ==> r.Ok? && fresh(r.value) && fresh(r.value.structure)
      ensures r.Ok? ==> var c := r.value;
        c.num == num && c.structure != null && c.structure.Value() == structure.Value() &&
        c.qTot == qTot && c.nqirr == nqirr && c.initialized == initialized && c.qStars == qStars &&
        c.dynmats == dynmats && c.alat == 1.0
    {
      if structure == null {
        return Err(NoStructure);
      }
      var c := new Phonons(num);
      var s := structure.Copy();
      c.structure := s;
      c.qTot := qTot;
      c.nqirr := nqirr;
      c.initialized := initialized;
      c.qStars := qStars;
      for i := 0 to |dynmats|
        invariant c.dynmats == dynmats[..i]
        invariant c.structure == s && c.qTot == qTot && c.nqirr == nqirr && c.alat == 1.0
        invariant c.initialized == initialized && c.qStars == qStars && s.Value() == structure.Value()
      {
        c.dynmats := c.dynmats + [dynmats[i]];
      }
      assert dynmats[..|dynmats|] == dynmats;
      return Ok(c);
    }
  }

  /** `Phonons(fildyn_prefix, nqirr, full_name)` with a file prefix
      (Phonons.py:56-75): a new object whose nqirr is the one given,
      filled by `LoadFromQE`. */
  method LoadNew(num: Numbers, files: map<string, seq<string>>, prefix: string, nq: int, fullName: bool)
    returns (p: Phonons, r: Outcome)
    ensures fresh(p) && p.num == num && p.nqirr == nq
    ensures var l := LoadResult(num, files, prefix, nq, fullName, 1.0);
      (r.Pass? <==> l.Ok?) && (r.Fail? ==> r.error == l.error) &&
      (r.Pass? ==> fresh(p.structure) && p.initialized && p.Mirrors(Lists([], [], []), l.value))
  {
    p := new Phonons(num);
    p.nqirr := nq;
    r := p.LoadFromQE(files, prefix, nq, fullName);
  }
}
