/** The input file of ISOTROPY's `findsym` program, as
    `GetISOTROPYFindSymInput` (symmetries.py:957-994) builds it: a list
    of lines, each ending in a newline, made of `!keyword` lines each
    followed by its value(s).

    The float formats `"%.8f"` and `"%16.8f"` are the oracles of
    `FloatFormats`; `"%d"` is `Text.ShowInt`.
 */
module FindSym {
  import opened Wrappers
  import opened Matrices
  import opened Oracles
  import opened Species
  import opened Structures
  import opened Text

  datatype FloatFormats = FloatFormats(
    /** `"%.8f" % x` */
    plain: real -> string,
    /** `"%16.8f" % x` */
    wide: real -> string)

  /** Index of the first position line: 8 header lines, 3 cell rows and
      the 5 lines of the atom count and types. */
  const PositionsStart: nat := 16

  /** `"%16.8f %16.8f %16.8f\n" % (x, y, z)` */
  function Row(fmt: FloatFormats, x: real, y: real, z: real): string
  {
    fmt.wide(x) + " " + fmt.wide(y) + " " + fmt.wide(z) + "\n"
  }

  /** The position line of an atom: its crystal coordinates. */
  function PositionLine(geo: Geometry, fmt: FloatFormats, cell: Mat, coord: Vec): string
  {
    var v := geo.covariant(cell, coord);
    Row(fmt, VAt(v, 0), VAt(v, 1), VAt(v, 2))
  }

  /** Every line before the atom positions. */
  function Preamble(fmt: FloatFormats, s: StructureValue, title: string, latticeTolerance: real, positionTolerance: real): (lines: seq<string>)
    ensures |lines| == PositionsStart
  {
    var cell := s.unitCell;
    ["!useKeyWords\n", "!title\n", title + "\n",
     "!latticeTolerance\n", fmt.plain(latticeTolerance) + "\n",
     "!atomicPositionTolerance\n", fmt.plain(positionTolerance) + "\n",
     "!latticeBasisVectors\n"] +
    [Row(fmt, At(cell, 0, 0), At(cell, 0, 1), At(cell, 0, 2)),
     Row(fmt, At(cell, 1, 0), At(cell, 1, 1), At(cell, 1, 2)),
     Row(fmt, At(cell, 2, 0), At(cell, 2, 1), At(cell, 2, 2))] +
    ["!atomCount\n", ShowInt(s.nAtoms) + "\n",
     "!atomType\n", Join(s.atoms, " ") + "\n",
     "!atomPosition\n"]
  }

  /** What `GetISOTROPYFindSymInput(structure, title, latticeTolerance,
      atomicPositionTolerance)` returns or raises. */
  function FindSymInput(geo: Geometry, fmt: FloatFormats, s: StructureValue, title: string,
                        latticeTolerance: real, positionTolerance: real): Result<seq<string>>
    requires s.nAtoms == |s.coords|
  {
    if !s.hasUnitCell then Err(NoUnitCell)
    else
      Ok(Preamble(fmt, s, title, latticeTolerance, positionTolerance) +
         seq(s.nAtoms, i requires 0 <= i < s.nAtoms => PositionLine(geo, fmt, s.unitCell, s.coords[i])))
  }

  /** symmetries.py:964-994: the header lines, then a loop appending one
      position line per atom. */
  method GetISOTROPYFindSymInput(geo: Geometry, fmt: FloatFormats, structure: Structure, title: string,
                                 latticeTolerance: real, positionTolerance: real) returns (r: Result<seq<string>>)
    requires structure.Valid()
    ensures r == FindSymInput(geo, fmt, structure.Value(), title, latticeTolerance, positionTolerance)
  {
    if !structure.hasUnitCell {
      return Err(NoUnitCell);
    }
    var lines := Preamble(fmt, structure.Value(), title, latticeTolerance, positionTolerance);
    for i := 0 to structure.nAtoms
      invariant |lines| == PositionsStart + i
      invariant lines[..PositionsStart] == Preamble(fmt, structure.Value(), title, latticeTolerance, positionTolerance)
      invariant forall k :: 0 <= k < i ==>
        lines[PositionsStart + k] == PositionLine(geo, fmt, structure.unitCell, structure.coords[k])
    {
      lines := lines + [PositionLine(geo, fmt, structure.unitCell, structure.coords[i])];
    }
    ghost var spec := FindSymInput(geo, fmt, structure.Value(), title, latticeTolerance, positionTolerance);
    assert lines == spec.value;
    r := Ok(lines);
  }

  /** The file has 16 + N_atoms lines; the keywords sit at fixed indices,
      each followed by its value, and line 16 + i holds the crystal
      coordinates of atom i. */
  lemma FindSymLayout(geo: Geometry, fmt: FloatFormats, s: StructureValue, title: string,
                      latticeTolerance: real, positionTolerance: real)
    requires s.nAtoms == |s.coords| && s.hasUnitCell
    ensures var r := FindSymInput(geo, fmt, s, title, latticeTolerance, positionTolerance);
      r.Ok? && |r.value| == PositionsStart + s.nAtoms &&
      r.value[0] == "!useKeyWords\n" && r.value[1] == "!title\n" && r.value[2] == title + "\n" &&
      r.value[3] == "!latticeTolerance\n" && r.value[5] == "!atomicPositionTolerance\n" &&
      r.value[7] == "!latticeBasisVectors\n" && r.value[11] == "!atomCount\n" &&
      r.value[13] == "!atomType\n" && r.value[15] == "!atomPosition\n" &&
      (forall i :: 0 <= i < s.nAtoms ==> r.value[PositionsStart + i] == PositionLine(geo, fmt, s.unitCell, s.coords[i]))
  {
    var lines := FindSymInput(geo, fmt, s, title, latticeTolerance, positionTolerance).value;
    assert lines[..PositionsStart] == Preamble(fmt, s, title, latticeTolerance, positionTolerance);
  }

  /** Every line of the file ends in a newline. */
  lemma FindSymNewlines(geo: Geometry, fmt: FloatFormats, s: StructureValue, title: string,
                        latticeTolerance: real, positionTolerance: real)
    requires s.nAtoms == |s.coords| && s.hasUnitCell
    ensures var r := FindSymInput(geo, fmt, s, title, latticeTolerance, positionTolerance);
      r.Ok? && forall k :: 0 <= k < |r.value| ==> |r.value[k]| > 0 && r.value[k][|r.value[k]| - 1] == '\n'
  {
    var lines := FindSymInput(geo, fmt, s, title, latticeTolerance, positionTolerance).value;
    var pre := Preamble(fmt, s, title, latticeTolerance, positionTolerance);
    forall k | 0 <= k < |lines|
      ensures |lines[k]| > 0 && lines[k][|lines[k]| - 1] == '\n'
    {
      if k < PositionsStart {
        assert lines[k] == pre[k];
      }
    }
  }

  /** The atom count reads back as N_atoms with `int()`, and the
      atom-type line splits back into the atom labels. */
  lemma FindSymReadBack(geo: Geometry, fmt: FloatFormats, s: StructureValue, title: string,
                        latticeTolerance: real, positionTolerance: real)
    requires s.nAtoms == |s.coords| && s.hasUnitCell
    requires forall k :: 0 <= k < |s.atoms| ==> IsWord(s.atoms[k])
    ensures var r := FindSymInput(geo, fmt, s, title, latticeTolerance, positionTolerance);
      r.Ok? && ParseInt(r.value[12][..|r.value[12]| - 1]) == Some(s.nAtoms) &&
      Split(r.value[14][..|r.value[14]| - 1]) == s.atoms
  {
    var lines := FindSymInput(geo, fmt, s, title, latticeTolerance, positionTolerance).value;
    var count := ShowInt(s.nAtoms) + "\n";
    assert lines[12] == count && count[..|count| - 1] == ShowInt(s.nAtoms);
    ParseShowInt(s.nAtoms);
    var types := Join(s.atoms, " ") + "\n";
    assert lines[14] == types && types[..|types| - 1] == Join(s.atoms, " ");
    SplitJoin(s.atoms);
  }
}
