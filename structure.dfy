/** The parts of the atomic structure (Structure.py) the modelled code
    reads and writes.  Structure.py itself is not part of this model: its
    geometric routines are the oracles of module Oracles, and a fresh
    `Structure.Structure()` is taken to be empty (no atoms, no unit cell,
    no masses).
 */
module Structures {
  import opened Matrices
  import opened Species

  /** A snapshot of a structure, handed to the oracles that work on one. */
  datatype StructureValue = StructureValue(
    nAtoms: int,
    atoms: seq<Label>,
    coords: seq<Vec>,
    unitCell: Mat,
    hasUnitCell: bool,
    masses: map<Label, real>)

  class Structure {
    var nAtoms: int                 // N_atoms
    var atoms: seq<Label>           // atoms: the label of every atom
    var coords: seq<Vec>            // coords[i]: Cartesian position of atom i
    var unitCell: Mat               // unit_cell: rows are the lattice vectors
    var hasUnitCell: bool           // has_unit_cell
    var masses: map<Label, real>    // masses: mass of every species

    /** The shapes Structure.py keeps consistent. */
    ghost predicate Valid()
      reads this
    {
      nAtoms == |atoms| == |coords| &&
      (forall i :: 0 <= i < |coords| ==> |coords[i]| == 3) &&
      IsMatrix(unitCell, 3, 3)
    }

    function Value(): StructureValue
      reads this
    {
      StructureValue(nAtoms, atoms, coords, unitCell, hasUnitCell, masses)
    }

    /** `Structure.Structure()` */
    constructor ()
      ensures nAtoms == 0 && atoms == [] && coords == [] && !hasUnitCell && masses == map[]
      ensures unitCell == Zeros(3, 3)
      ensures Valid()
    {
      nAtoms := 0;
      atoms := [];
      coords := [];
      unitCell := Zeros(3, 3);
      hasUnitCell := false;
      masses := map[];
    }

    /** Sets every field at once. */
    method SetTo(v: StructureValue)
      modifies this
      ensures Value() == v
    {
      nAtoms, atoms, coords := v.nAtoms, v.atoms, v.coords;
      unitCell, hasUnitCell, masses := v.unitCell, v.hasUnitCell, v.masses;
    }

    /** `structure.copy()`: a new structure with the same contents. */
    method Copy() returns (c: Structure)
      ensures fresh(c) && c.Value() == Value()
    {
      c := new Structure();
      c.nAtoms, c.atoms, c.coords := nAtoms, atoms, coords;
      c.unitCell, c.hasUnitCell, c.masses := unitCell, hasUnitCell, masses;
    }
  }
}
