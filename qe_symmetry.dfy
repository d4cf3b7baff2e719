/** The `QE_Symmetry` object itself (symmetries.py:23-784): the
    structure-derived arrays it fixes when it is built, the symmetry
    tables its methods rewrite in place, and each method proved against
    the function of modules QEState ... QEFcq that says what it does.
 */
module QESymmetries {
  import opened Wrappers
  import opened Matrices
  import opened Numerics
  import opened Oracles
  import opened Structures
  import opened Species
  import opened SymmetryTables
  import opened QEState
  import opened QEInit
  import opened QEForce
  import opened QStars
  import opened StarAverage
  import opened AcousticSumRule
  import opened QELayout
  import opened QEFcq

  // ---------------------------------------------------------------------
  // What the constructor computes

  /** The arrays `QE_Symmetry(structure)` derives from a structure
      (symmetries.py:56-95): QE_nat, QE_tau (the positions, one column per
      atom), QE_ityp (species numbered by first appearance), QE_at (the
      transposed cell) and QE_bg (the transposed reciprocal vectors over
      2 pi). */
  function SettingOf(sv: StructureValue, geo: Geometry, lib: Symph): Setting
    requires sv.nAtoms == |sv.atoms|
  {
    var rec := Transpose(geo.structureReciprocal(sv.unitCell), 3, 3);
    Setting(lib, geo, |sv.atoms|, Transpose(sv.coords, |sv.atoms|, 3), Ranks(sv.atoms),
            Transpose(sv.unitCell, 3, 3), seq(3, i => seq(3, j => At(rec, i, j) / geo.twoPi)))
  }

  /** The tables of a new object: QE_ityp gives two atoms the same number
      exactly when they carry the same label, and uses every number from 1
      to the number of species; QE_tau holds atom i's position in column
      i; QE_at is the transposed cell. */
  lemma ConstructorTables(sv: StructureValue, geo: Geometry, lib: Symph)
    requires sv.nAtoms == |sv.atoms|
    ensures var fx := SettingOf(sv, geo, lib);
      fx.natoms == |sv.atoms| && |fx.ityp| == fx.natoms &&
      (forall i, j :: 0 <= i < fx.natoms && 0 <= j < fx.natoms ==> (fx.ityp[i] == fx.ityp[j] <==> sv.atoms[i] == sv.atoms[j])) &&
      (forall i :: 0 <= i < fx.natoms ==> 1 <= fx.ityp[i] <= |FirstAppearance(sv.atoms)|) &&
      (forall r :: 1 <= r <= |FirstAppearance(sv.atoms)| ==> r in fx.ityp) &&
      IsMatrix(fx.tau, 3, fx.natoms) &&
      (forall c, i :: 0 <= c < 3 && 0 <= i < fx.natoms ==> fx.tau[c][i] == At(sv.coords, i, c)) &&
      IsMatrix(fx.at, 3, 3) &&
      (forall i, j :: 0 <= i < 3 && 0 <= j < 3 ==> fx.at[i][j] == At(sv.unitCell, j, i))
  {
    forall i, j | 0 <= i < |sv.atoms| && 0 <= j < |sv.atoms|
      ensures Ranks(sv.atoms)[i] == Ranks(sv.atoms)[j] <==> sv.atoms[i] == sv.atoms[j]
    {
      RanksSeparateSpecies(sv.atoms, i, j);
    }
    RanksAreOneToCount(sv.atoms);
  }

  // ---------------------------------------------------------------------
  // The object

  /** The star `star_q` computes for a q point with the current tables. */
  function StarFunction(fx: Setting, st: SymState): Vec -> Star
  {
    (q: Vec) => fx.lib.starQ(q, fx.at, fx.bg, st.nsymq, st.s, st.invs).sxq
  }

  /** `Methods.get_min_dist_into_cell(QE_bg.transpose(), v1, v2)` */
  function DistanceFunction(fx: Setting): (Vec, Vec) -> real
  {
    (a: Vec, b: Vec) => fx.geo.minDist(Transpose(fx.bg, 3, 3), a, b)
  }

  /** A 3 x n array filled column by column from the rows of a matrix
      holds its transpose. */
  lemma TransposedCopy(v: Mat, tmp: Mat, n: nat)
    requires n <= |v| && forall k :: 0 <= k < n ==> 3 <= |v[k]|
    requires IsMatrix(tmp, 3, n)
    requires forall c, k :: 0 <= c < 3 && 0 <= k < n ==> tmp[c][k] == v[k][c]
    ensures tmp == Transpose(v, n, 3)
  {
    var t := Transpose(v, n, 3);
    forall c | 0 <= c < 3 ensures tmp[c] == t[c] {
      forall k | 0 <= k < n ensures tmp[c][k] == t[c][k] {
        assert t[c][k] == At(v, k, c);
      }
    }
  }

  /** `fcq[lo : lo + len(m)] = m` */
  method WriteSlice(fcq: array<Mat>, lo: nat, m: seq<Mat>)
    requires lo + |m| <= fcq.Length
    modifies fcq
    ensures fcq[..] == old(fcq[..lo]) + m + old(fcq[lo + |m|..])
  {
    ghost var before := fcq[..];
    for k := 0 to |m|
      invariant forall t :: 0 <= t < fcq.Length ==> fcq[t] == if lo <= t < lo + k then m[t - lo] else before[t]
    {
      fcq[lo + k] := m[k];
    }
    SpliceAt(fcq[..], before, lo, m);
  }

  /** A sequence that agrees with m on [lo, lo + |m|) and with `before`
      elsewhere is `before` with that slice replaced by m. */
  lemma SpliceAt(after: seq<Mat>, before: seq<Mat>, lo: nat, m: seq<Mat>)
    requires lo + |m| <= |before| == |after|
    requires forall t :: 0 <= t < |after| ==> after[t] == if lo <= t < lo + |m| then m[t - lo] else before[t]
    ensures after == before[..lo] + m + before[lo + |m|..]
  {
    var whole := before[..lo] + m + before[lo + |m|..];
    forall t | 0 <= t < |after|
      ensures after[t] == whole[t]
    {
      if t < lo {
        assert whole[t] == before[..lo][t];
      } else if t < lo + |m| {
        assert whole[t] == m[t - lo];
      } else {
        assert whole[t] == before[lo + |m|..][t - lo - |m|];
      }
    }
  }

  /** `q_points`: the points of all the stars, star after star, each
      broadcast to three components (symmetries.py:392-397); the first
      point numpy cannot broadcast raises. */
  method FlattenStars(stars: seq<seq<Vec>>) returns (r: Result<seq<Vec>>)
    ensures r == QPoints(stars)
  {
    var qs: seq<Vec> := [];
    ghost var seen: seq<Vec> := [];
    for i := 0 to |stars|
      invariant seen == Flatten(stars[..i])
      invariant |qs| == |seen| && forall k :: 0 <= k < |seen| ==> Broadcast3(seen[k]) == Ok(qs[k])
    {
      for j := 0 to |stars[i]|
        invariant seen == Flatten(stars[..i]) + stars[i][..j]
        invariant |qs| == |seen| && forall k :: 0 <= k < |seen| ==> Broadcast3(seen[k]) == Ok(qs[k])
      {
        var b := Broadcast3(stars[i][j]);
        if b.Err? {
          MemberOfFlattened(stars, i, j);
          return Err(BadShape);
        }
        assert stars[i][..j + 1] == stars[i][..j] + [stars[i][j]];
        seen, qs := seen + [stars[i][j]], qs + [b.value];
      }
      assert stars[i][..|stars[i]|] == stars[i];
      assert stars[..i + 1] == stars[..i] + [stars[i]];
      FlattenAppend(stars[..i], stars[i]);
    }
    assert stars[..|stars|] == stars;
    r := Ok(qs);
    assert QPoints(stars).Ok?;
    assert qs == QPoints(stars).value;
  }

  /** Member j of star i sits at Offset(stars, i) + j of the flattened list. */
  lemma MemberOfFlattened(stars: seq<seq<Vec>>, i: nat, j: nat)
    requires i < |stars| && j < |stars[i]|
    ensures Offset(stars, i) + j < |Flatten(stars)| && Flatten(stars)[Offset(stars, i) + j] == stars[i][j]
  {
    StarSlices(stars, i);
    assert Flatten(stars)[Offset(stars, i)..Offset(stars, i + 1)][j] == stars[i][j];
  }

  class QESymmetry {
    const structure: Structure
    const threshold: real
    const lib: Symph
    const geo: Geometry
    const natoms: nat        // QE_nat
    const tau: Mat           // QE_tau
    const ityp: seq<int>     // QE_ityp
    const at: Mat            // QE_at
    const bg: Mat            // QE_bg

    var s: Rotations         // QE_s
    var ft: Translations     // QE_ft
    var irt: AtomMaps        // QE_irt
    var invs: Inverses       // QE_invs
    var rtau: Shifts         // QE_rtau
    var minusQ: bool         // QE_minus_q
    var irotmq: int          // QE_irotmq
    var nsymq: nat           // QE_nsymq
    var nsym: int            // QE_nsym
    var minusqTypo: Option<bool>   // QE_minusq, once InitFromSymmetries has set it

    /** The arrays fixed at construction. */
    function Settings(): Setting
    {
      Setting(lib, geo, natoms, tau, ityp, at, bg)
    }

    /** The symmetry tables as they are now. */
    function State(): SymState
      reads this
    {
      SymState(s, ft, irt, invs, rtau, minusQ, irotmq, nsymq, nsym, minusqTypo)
    }

    /** `QE_Symmetry(structure, threshold)` for a structure with a unit
        cell (symmetries.py:24-95). */
    constructor (structure: Structure, threshold: real, geo: Geometry, lib: Symph)
      requires structure.Valid() && structure.hasUnitCell
      ensures this.structure == structure && this.threshold == threshold
      ensures Settings() == SettingOf(structure.Value(), geo, lib)
      ensures State() == Initial(natoms)
    {
      var n := |structure.atoms|;
      var ranks := RankSpecies(structure.atoms);
      var positions := TransposeInto(structure.coords, n, 3);
      var cellT := TransposeInto(structure.unitCell, 3, 3);
      var recT := TransposeInto(geo.structureReciprocal(structure.unitCell), 3, 3);
      this.structure := structure;
      this.threshold := threshold;
      this.lib := lib;
      this.geo := geo;
      natoms := n;
      tau := positions;
      ityp := ranks;
      at := cellT;
      bg := seq(3, i => seq(3, j => At(recT, i, j) / geo.twoPi));
      var init := Initial(n);
      s, ft, irt, invs, rtau := init.s, init.ft, init.irt, init.invs, init.rtau;
      minusQ, irotmq, nsymq, nsym, minusqTypo := false, 0, 0, 0, None;
    }

    /** `QE_Symmetry(structure, threshold)`, which raises for a structure
        without a unit cell. */
    static method New(structure: Structure, threshold: real, geo: Geometry, lib: Symph) returns (r: Result<QESymmetry>)
      requires structure.Valid()
      ensures r.Err? <==> !structure.hasUnitCell
      ensures r.Err? ==> r.error == NoUnitCell
      ensures r.Ok? ==> fresh(r.value) && r.value.structure == structure
      ensures r.Ok? ==> r.value.Settings() == SettingOf(structure.Value(), geo, lib)
      ensures r.Ok? ==> r.value.State() == Initial(r.value.natoms)
    {
      if !structure.hasUnitCell {
        return Err(NoUnitCell);
      }
      var q := new QESymmetry(structure, threshold, geo, lib);
      r := Ok(q);
    }

    /** GetSymmetries() (symmetries.py:678-700): one 3 x 4 block per
        operation of the small group. */
    method GetSymmetries() returns (r: Result<seq<Mat>>)
      ensures r == SymmetryList(s, ft, nsymq)
    {
      var syms: seq<Mat> := [];
      for i := 0 to nsymq
        invariant i <= MaxSymmetries && |syms| == i
        invariant forall j :: 0 <= j < i ==> syms[j] == SymmetryBlock(s[j], ft[j])
      {
        if i >= MaxSymmetries {
          return Err(IndexError);
        }
        syms := syms + [SymmetryBlock(s[i], ft[i])];
      }
      assert syms == SymmetryList(s, ft, nsymq).value;
      r := Ok(syms);
    }

    /** SetupQPoint(q) (symmetries.py:520-621). */
    method SetupQPoint(q: Vec) returns (out: Outcome)
      modifies this
      ensures (State(), out) == SetupResult(Settings(), old(State()), q)
    {
      if |q| != 3 {
        return Fail(QPointNot3D);
      }
      var fx := Settings();
      var aq := CrystalQ(fx, q);
      var g := SmallGroupOf(fx, q);
      StoreGroup(g);
      if minusQ {
        var listed := GetSymmetries();
        assert listed == Ok(GroupBlocks(g));
        var found := FixingOperation(listed.value, aq);
        if found.Some? {
          irotmq := found.value + 1;
        }
      }
      out := Pass;
    }

    /** One pass of the InitFromSymmetries loop (symmetries.py:638-659):
        operation i's rotation, atom map, inverse and shifts are stored. */
    method InitPass(sv: StructureValue, syms: seq<Mat>, i: nat) returns (out: Outcome)
      requires i < |syms|
      modifies this
      ensures (State(), out) == InitEntry(Settings(), sv, syms, old(State()), i)
    {
      var fx := Settings();
      ghost var st := State();
      if i >= MaxSymmetries {
        return Fail(IndexError);
      }
      var rotation := StoredRotation(syms[i]);
      var image := Image(fx, sv, syms[i]);
      var row := AtomsOf(fx, sv, syms[i]);
      if row.Err? {
        s := s[i := rotation];
        return Fail(row.error);
      }
      var k := InverseSearch(geo.inverse, syms, i);
      InitEntryTables(fx, sv, syms, st, i, row.value);
      StoreEntry(i, rotation, row.value, k + 1, ShiftRow(rtau[i], image, natoms));
      out := if |image| < natoms then Fail(IndexError) else Pass;
    }

    /** Entry i of QE_s, QE_irt, QE_invs and QE_rtau is overwritten. */
    method StoreEntry(i: nat, rotation: IMat, row: seq<int>, inv: int, shifts: seq<Vec>)
      requires i < MaxSymmetries
      modifies this
      ensures State() == old(State()).(s := old(s)[i := rotation], irt := old(irt)[i := row],
                                       invs := old(invs)[i := inv], rtau := old(rtau)[i := shifts])
    {
      s, irt, invs, rtau := s[i := rotation], irt[i := row], invs[i := inv], rtau[i := shifts];
    }

    /** The tables `symm_base` returned for the small group are copied in
        (symmetries.py:582-598); QE_irotmq is left for the caller. */
    method StoreGroup(g: SmallGroup)
      modifies this
      ensures State() == old(State()).(s := g.s, ft := g.ft, irt := g.irt, invs := g.invs, rtau := g.rtau,
                                       minusQ := g.minusQ, nsymq := g.nsymq, nsym := g.nrot)
    {
      s, ft, nsym := g.s, g.ft, g.nrot;
      minusQ, nsymq := g.minusQ, g.nsymq;
      invs, irt, rtau := g.invs, g.irt, g.rtau;
    }

    /** InitFromSymmetries(symmetries, q_point) (symmetries.py:623-676). */
    method InitFromSymmetries(syms: seq<Mat>, qPoint: Vec) returns (out: Outcome)
      modifies this
      ensures (State(), out) == InitResult(Settings(), structure.Value(), old(State()), syms, qPoint)
    {
      var fx := Settings();
      var sv := structure.Value();
      nsymq := |syms|;
      ghost var st0 := State();
      for i := 0 to |syms|
        invariant (State(), Pass) == InitLoop(fx, sv, syms, st0, i)
      {
        var step := InitPass(sv, syms, i);
        if step.Fail? {
          InitLoopStopped(fx, sv, syms, st0, i + 1, |syms|);
          return step;
        }
      }
      MinusQStep(sv.unitCell, qPoint);
      out := Pass;
    }

    /** The minus-q search that ends InitFromSymmetries
        (symmetries.py:662-676). */
    method MinusQStep(cell: Mat, qPoint: Vec)
      modifies this
      ensures State() == MinusQStage(Settings(), cell, old(State()), qPoint)
    {
      var b := geo.structureReciprocal(cell);
      minusqTypo := Some(false);
      var found := MinusQSearch(geo, s, b, qPoint);
      if found.Some? {
        minusQ := true;
        irotmq := found.value + 1;
      }
    }

    /** SetupQStar(q_tot) (symmetries.py:134-208): with the symmetries of
        Gamma set up, the list is divided into stars; returns `(q_stars,
        q_indices)` or the error of `argmin` on an emptied list. */
    method SetupQStar(qTot: seq<Vec>) returns (r: Result<(seq<seq<Vec>>, seq<nat>)>)
      modifies this
      ensures State() == AfterSetup(Settings(), old(State()), Gamma)
      ensures r == StarsOf(StarFunction(Settings(), State()), DistanceFunction(Settings()), qTot)
    {
      var _ := SetupQPoint(Gamma);
      var starOf := StarFunction(Settings(), State());
      var dist := DistanceFunction(Settings());
      var list := qTot;
      var stars: seq<seq<Vec>> := [];
      var indices: seq<nat> := [];
      while |list| > 0
        invariant |list| <= |qTot|
        invariant Partition(starOf, dist, list, qTot, stars, indices) == StarsOf(starOf, dist, qTot)
        decreases |list|
        modifies {}
      {
        var star := lib.starQ(list[0], at, bg, nsymq, s, invs).sxq;
        var popped := PopStar(dist, star, list, qTot, indices);
        if popped.Err? {
          return Err(popped.error);
        }
        list, indices := popped.value.0, popped.value.1;
        stars := stars + [star];
      }
      r := Ok((stars, indices));
    }

    /** The term member i of a star contributes in ApplyQStar
        (symmetries.py:238-327): its star, checked against the supplied
        points, the library images of fcq[i] and the matched image for every
        supplied point. */
    method MemberTerms(data: SymData, fcq: seq<Mat>, group: seq<Vec>, i: nat) returns (r: Result<seq<Mat>>)
      requires i < |group| == |fcq|
      requires data == Data(Settings(), State())
      ensures r == MemberTerm(lib, geo, data, fcq, group, natoms, i)
    {
      var nq := |group|;
      var star := lib.starQ(group[i], at, bg, nsymq, s, invs);
      if |star.sxq| != nq {
        return Err(StarSizeMismatch);
      }
      if !IsMatrix(fcq[i], 3 * natoms, 3 * natoms) {
        return Err(BadShape);
      }
      var images := lib.q2qstar(fcq[i], data, star);
      var sorting := SortStar(geo.minDist, Transpose(bg, 3, 3), star.sxq, group);
      if sorting.Err? {
        return Err(sorting.error);
      }
      var sq := sorting.value;
      if !Addressable(images, sq) {
        return Err(IndexError);
      }
      r := Ok(seq(nq, xq requires 0 <= xq < nq => FromBlocks(images[sq[xq]], natoms)));
    }

    /** The loop of ApplyQStar over the members of the star
        (symmetries.py:236-330): final_fc summed over the members and
        divided by nq, or the first error a member raises. */
    method StarAverageOf(data: SymData, fcq: seq<Mat>, group: seq<Vec>) returns (r: Result<seq<Mat>>)
      requires |group| == |fcq|
      requires data == Data(Settings(), State())
      ensures r == Average(lib, geo, data, fcq, group, natoms)
    {
      var nq := |group|;
      var n3 := 3 * natoms;
      ghost var ts := Terms(lib, geo, data, fcq, group, natoms);
      var finalFc: seq<Mat> := seq(nq, xq => Zeros(n3, n3));
      for i := 0 to nq
        invariant Accumulated(ts, nq, natoms, i) == Ok(finalFc)
        modifies {}
      {
        var t := MemberTerms(data, fcq, group, i);
        if t.Err? {
          AccumulatedStopped(ts, nq, natoms, i + 1, nq);
          return Err(t.error);
        }
        finalFc := seq(nq, xq requires 0 <= xq < nq => MatAdd(finalFc[xq], t.value[xq], n3, n3));
      }
      r := Ok(seq(nq, xq requires 0 <= xq < nq => MatScale(finalFc[xq], InvCount(nq), n3, n3)));
    }

    /** ApplyQStar(fcq[lo : lo + nq], q_point_group) (symmetries.py:210-329):
        with the symmetries of Gamma set up, the star's matrices are
        replaced by their star average, or nothing is written. */
    method ApplyQStar(fcq: array<Mat>, lo: nat, group: seq<Vec>) returns (out: Outcome)
      requires lo + |group| <= fcq.Length
      modifies this, fcq
      ensures State() == AfterSetup(Settings(), old(State()), Gamma)
      ensures StarApplied(Settings(), State(), old(fcq[..]), lo, group, fcq[..], out)
    {
      var _ := SetupQPoint(Gamma);
      var avg := StarAverageOf(Data(Settings(), State()), fcq[lo..lo + |group|], group);
      if avg.Err? {
        return Fail(avg.error);
      }
      WriteSlice(fcq, lo, avg.value);
      out := Pass;
    }

    /** ImposeSumRule(force_constant, asr, axis, zeu) (symmetries.py:483-515).
        "custom" runs CustomASR on the array; every other mode packs the
        leading 3 nat x 3 nat region for `set_asr`, broadcasting a
        one-row or one-column slice, and copies the result back up to the
        first block that does not fit.  The new effective charges are
        returned. */
    method ImposeSumRule(fc: array2<real>, asr: string, axis: int, zeu: Option<seq<Mat>>)
      returns (out: Outcome, zeuOut: Option<seq<Mat>>)
      modifies fc
      ensures var r := SumRule(Settings(), old(Contents(fc)), fc.Length0, fc.Length1, asr, axis, zeu);
        out == r.out && zeuOut == r.zeu && Contents(fc) == r.fc
    {
      if asr == "custom" {
        out := CustomASR(fc);
        zeuOut := zeu;
        return;
      }
      if !(Packs(natoms, fc.Length0) && Packs(natoms, fc.Length1)) {
        return Fail(BadShape), zeu;
      }
      var r := LibrarySumRule(Settings(), Packed(Contents(fc), fc.Length0, fc.Length1, natoms), asr, axis, zeu);
      if FitsBlocks(natoms, fc.Length0, fc.Length1) {
        WriteLeading(fc, r.0, 3 * natoms, 3 * natoms);
        out, zeuOut := Pass, r.1;
      } else {
        var w := CopiedBeforeMismatch(fc.Length0, fc.Length1, natoms);
        WriteLeading(fc, r.0, w.0, w.1);
        out := Fail(BadShape);
        zeuOut := ChargesWritten(zeu, r.1, if fc.Length1 < 3 * natoms then 1 else natoms);
      }
    }

    /** SymmetrizeDynQ(dyn_matrix, q_point) (symmetries.py:758-779): the
        leading 3 nat x 3 nat region is replaced by its symmetrised form;
        an array too small for the blocks raises in the conversion loop,
        and a q point numpy cannot broadcast to three components raises
        after it, both before anything is written. */
    method SymmetrizeDynQ(dyn: array2<real>, q: Vec) returns (out: Outcome)
      modifies dyn
      ensures var r := DynQ(Settings(), State(), structure.unitCell, old(Contents(dyn)), dyn.Length0, dyn.Length1, q);
        out == r.out && Contents(dyn) == r.fc
    {
      if !FitsBlocks(natoms, dyn.Length0, dyn.Length1) {
        return Fail(BadShape);
      }
      var xq := Broadcast3(q);
      if xq.Err? {
        return Fail(BadShape);
      }
      var m := SymmetrizedDyn(Settings(), State(), structure.unitCell, Contents(dyn), xq.value);
      WriteLeading(dyn, m, 3 * natoms, 3 * natoms);
      out := Pass;
    }

    /** SymmetrizeVector(vector) (symmetries.py:703-732): the nat x 3
        vector is copied into a 3 x nat array, symmetrised by `symvector`
        and copied back. */
    method SymmetrizeVector(vector: array2<real>) returns (out: Outcome)
      modifies vector
      ensures var r := SymmetrizedVector(Settings(), State(), old(Contents(vector)), vector.Length0, vector.Length1);
        (r.Ok? ==> out == Pass && Contents(vector) == r.value) &&
        (r.Err? ==> out == Fail(r.error) && Contents(vector) == old(Contents(vector)))
    {
      var n := natoms;
      if n > 0 && (vector.Length0 < n || vector.Length1 < 3) {
        return Fail(IndexError);
      }
      var tmp := new real[3, n]((c, i) => 0.0);
      for i := 0 to n
        invariant forall c, k :: 0 <= c < 3 && 0 <= k < i ==> tmp[c, k] == vector[k, c]
        modifies tmp
      {
        tmp[0, i] := vector[i, 0];
        tmp[1, i] := vector[i, 1];
        tmp[2, i] := vector[i, 2];
      }
      TransposedCopy(Contents(vector), Contents(tmp), n);
      var sym := lib.symvector(Data(Settings(), State()), Contents(tmp));
      if n > 0 && vector.Length1 != 3 {
        return Fail(BadShape);
      }
      if n > 0 {
        WriteLeading(vector, Transpose(sym, 3, n), n, 3);
      } else {
        OverlayEmpty(Contents(vector), Transpose(sym, 3, n), n);
      }
      out := Pass;
    }

    /** The per-q loop of SymmetrizeFCQ (symmetries.py:404-434) on a stack
        of rows x cols matrices: at every q point the small group is set
        up, the sum rule is imposed where the mode asks for it and the
        matrix is symmetrised. */
    method SymmetrizeEachQ(fcq: array<Mat>, rows: nat, cols: nat, qs: seq<Vec>, asr: string) returns (out: Outcome)
      requires |qs| == fcq.Length
      requires forall k :: 0 <= k < |qs| ==> |qs[k]| == 3
      modifies this, fcq
      ensures Step(State(), fcq[..], out) == PerQ(Settings(), old(State()), structure.unitCell, old(fcq[..]), rows, cols, qs, asr, |qs|)
    {
      var fx := Settings();
      var cell := structure.unitCell;
      ghost var st0, fcq0 := State(), fcq[..];
      out := Pass;
      var iq := 0;
      while iq < |qs| && out.Pass?
        invariant iq <= |qs| && cell == structure.unitCell
        invariant out.Pass? ==> PerQAt(fx, st0, cell, fcq0, rows, cols, qs, asr, iq, Step(State(), fcq[..], out))
        invariant out.Fail? ==> PerQAt(fx, st0, cell, fcq0, rows, cols, qs, asr, |qs|, Step(State(), fcq[..], out))
      {
        out := SymmetrizeAt(fcq, rows, cols, qs, asr, iq, cell, st0, fcq0);
        iq := iq + 1;
      }
    }

    /** One pass of the per-q loop (symmetries.py:404-434) at q point iq. */
    method SymmetrizeAt(fcq: array<Mat>, rows: nat, cols: nat, qs: seq<Vec>, asr: string, iq: nat, cell: Mat,
                        ghost st0: SymState, ghost fcq0: seq<Mat>)
      returns (out: Outcome)
      requires iq < |qs| == fcq.Length == |fcq0| && |qs[iq]| == 3 && cell == structure.unitCell
      requires PerQAt(Settings(), st0, cell, fcq0, rows, cols, qs, asr, iq, Step(State(), fcq[..], Pass))
      modifies this, fcq
      ensures Step(State(), fcq[..], out) == QStep(Settings(), old(State()), cell, old(fcq[..]), rows, cols, qs, asr, iq)
      ensures PerQAt(Settings(), st0, cell, fcq0, rows, cols, qs, asr, iq + 1, Step(State(), fcq[..], out))
      ensures out.Fail? ==> PerQAt(Settings(), st0, cell, fcq0, rows, cols, qs, asr, |qs|, Step(State(), fcq[..], out))
    {
      QStepContinues(Settings(), st0, cell, fcq0, rows, cols, qs, asr, iq, State(), fcq[..]);
      var _ := SetupQPoint(qs[iq]);
      var apply := AsrAt(asr, qs[iq]);
      if apply.Err? {
        return Fail(apply.error);
      }
      var p := Prepared(Settings(), fcq[iq], rows, cols, asr, apply.value);
      if p.out.Fail? {
        fcq[iq] := p.fc;
        return p.out;
      }
      var d := DynQ(Settings(), State(), cell, p.fc, rows, cols, qs[iq]);
      fcq[iq] := d.fc;
      out := d.out;
    }

    /** The per-star loop of SymmetrizeFCQ (symmetries.py:437-446): every
        star's consecutive slice goes through ApplyQStar. */
    method AverageStars(fcq: array<Mat>, stars: seq<seq<Vec>>) returns (out: Outcome)
      requires fcq.Length == TotalSize(stars)
      modifies this, fcq
      ensures Step(State(), fcq[..], out) == PerStar(Settings(), old(State()), old(fcq[..]), stars, |stars|)
    {
      var fx := Settings();
      ghost var st0, fcq0 := State(), fcq[..];
      var q0Index := 0;
      for i := 0 to |stars|
        invariant i < |stars| ==> q0Index == Offset(stars, i)
        invariant Step(State(), fcq[..], Pass) == PerStar(fx, st0, fcq0, stars, i)
      {
        StarSlices(stars, i);
        var step := AverageAt(fcq, q0Index, stars, i, st0, fcq0);
        if step.Fail? {
          return step;
        }
        q0Index := q0Index + |stars[i]|;
      }
      out := Pass;
    }

    /** One pass of the per-star loop (symmetries.py:438-446): ApplyQStar
        on star i's slice, which starts at q0Index. */
    method AverageAt(fcq: array<Mat>, q0Index: nat, stars: seq<seq<Vec>>, i: nat, ghost st0: SymState, ghost fcq0: seq<Mat>)
      returns (out: Outcome)
      requires i < |stars| && fcq.Length == TotalSize(stars) == |fcq0|
      requires q0Index == Offset(stars, i) && q0Index + |stars[i]| <= fcq.Length
      requires Step(State(), fcq[..], Pass) == PerStar(Settings(), st0, fcq0, stars, i)
      modifies this, fcq
      ensures Step(State(), fcq[..], out) == StarStep(Settings(), old(State()), old(fcq[..]), stars, i)
      ensures Step(State(), fcq[..], out) == PerStar(Settings(), st0, fcq0, stars, i + 1)
      ensures out.Fail? ==> Step(State(), fcq[..], out) == PerStar(Settings(), st0, fcq0, stars, |stars|)
    {
      PerStarNext(Settings(), st0, fcq0, stars, i);
      ghost var before, fcqBefore := State(), fcq[..];
      out := ApplyQStar(fcq, q0Index, stars[i]);
      StarStepFromSlice(Settings(), before, fcqBefore, stars, i, State(), fcq[..], out);
      if out.Fail? {
        PerStarStopped(Settings(), st0, fcq0, stars, i + 1, |stars|);
      }
    }

    /** SymmetrizeFCQ(fcq, q_stars, asr) (symmetries.py:389-446) on fcq,
        an ndarray(nq, rows, cols). */
    method SymmetrizeFCQ(fcq: array<Mat>, rows: nat, cols: nat, stars: seq<seq<Vec>>, asr: string) returns (out: Outcome)
      requires forall k :: 0 <= k < fcq.Length ==> IsMatrix(fcq[k], rows, cols)
      modifies this, fcq
      ensures Step(State(), fcq[..], out) == Symmetrized(Settings(), old(State()), structure.unitCell, old(fcq[..]), rows, cols, stars, asr)
    {
      var qs := FlattenStars(stars);
      if qs.Err? {
        return Fail(qs.error);
      }
      if |qs.value| != fcq.Length {
        return Fail(FcqLengthMismatch);
      }
      out := SymmetrizeEachQ(fcq, rows, cols, qs.value, asr);
      if out.Pass? {
        out := AverageStars(fcq, stars);
      }
    }

    /** ForceSymmetry(structure) (symmetries.py:98-132): the coordinates of
        `target` are replaced by their average over the small group, or
        nothing is written. */
    method ForceSymmetry(target: Structure) returns (out: Outcome)
      requires target.Valid()
      modifies target
      ensures var r := ForcedCoords(Settings(), State(), old(target.coords), |old(target.coords)|);
        (r.Ok? ==> out == Pass && target.coords == r.value) &&
        (r.Err? ==> out == Fail(r.error) && target.coords == old(target.coords))
      ensures target.nAtoms == old(target.nAtoms) && target.atoms == old(target.atoms)
      ensures target.unitCell == old(target.unitCell) && target.hasUnitCell == old(target.hasUnitCell)
      ensures target.masses == old(target.masses)
    {
      var n := |target.coords|;
      if nsymq == 0 {
        return Fail(SymmetriesNotInitialised);
      }
      var fx := Settings();
      var st := State();
      var crys := CrystalCoords(fx, target.coords, n);
      var cols: seq<Vec> := seq(n, _ => [0.0, 0.0, 0.0]);
      for k := 0 to nsymq
        invariant Scatter(st, crys, n, k, 0) == Ok(cols)
      {
        for i := 0 to n
          invariant Scatter(st, crys, n, k, i) == Ok(cols)
        {
          var t := Target(st, k, i, n);
          if t.None? {
            ScatterStopped(st, crys, n, k, i + 1, nsymq);
            return Fail(IndexError);
          }
          cols := cols[t.value := Add3(cols[t.value], Contribution(st, crys, k, i))];
        }
        assert Scatter(st, crys, n, k + 1, 0) == Scatter(st, crys, n, k, n);
      }
      var averaged := MatScale(cols, InvCount(nsymq), n, 3);
      target.coords := Transpose(lib.crystToCart(Transpose(averaged, n, 3), at, 1), 3, n);
      out := Pass;
    }
  }
}
