/** The layout conversions around the Fortran calls of ImposeSumRule
    (symmetries.py:457-517), SymmetrizeVector (symmetries.py:703-732) and
    SymmetrizeDynQ (symmetries.py:735-779): the Cartesian (3 nat x 3 nat)
    matrix goes into the block layout QE_fc(3, 3, nat, nat), a vector
    (nat x 3) into its transpose (3 x nat), and back again.
 */
module QELayout {
  import opened Wrappers
  import opened Matrices
  import opened Oracles
  import opened SymmetryTables
  import opened AcousticSumRule
  import opened QEState

  // ---------------------------------------------------------------------
  // Writing back into the caller's array

  /** `base` with its leading rows x cols region replaced by m: what the
      copy-back loops leave in an array at least that large. */
  function Overlay(base: Mat, m: Mat, rows: nat, cols: nat): (r: Mat)
    ensures |r| == |base| && forall i :: 0 <= i < |base| ==> |r[i]| == |base[i]|
  {
    seq(|base|, i requires 0 <= i < |base| =>
      seq(|base[i]|, j requires 0 <= j < |base[i]| => if i < rows && j < cols then At(m, i, j) else base[i][j]))
  }

  /** Overwrites the leading rows x cols region of `a` with m. */
  method WriteLeading(a: array2<real>, m: Mat, rows: nat, cols: nat)
    requires rows <= a.Length0 && cols <= a.Length1
    modifies a
    ensures Contents(a) == Overlay(old(Contents(a)), m, rows, cols)
  {
    ghost var before := Contents(a);
    for i := 0 to rows
      invariant forall x, y :: 0 <= x < a.Length0 && 0 <= y < a.Length1 ==>
        a[x, y] == if x < i && y < cols then At(m, x, y) else before[x][y]
    {
      for j := 0 to cols
        invariant forall x, y :: 0 <= x < a.Length0 && 0 <= y < a.Length1 ==>
          a[x, y] == if (x < i && y < cols) || (x == i && y < j) then At(m, x, y) else before[x][y]
      {
        a[i, j] := At(m, i, j);
      }
    }
    assert forall x :: 0 <= x < a.Length0 ==> Contents(a)[x] == Overlay(before, m, rows, cols)[x];
  }

  /** Overwriting a region with what it already holds changes nothing. */
  lemma OverlaySame(base: Mat, rows: nat, cols: nat)
    requires |base| >= rows && forall i :: 0 <= i < rows ==> |base[i]| >= cols
    ensures Overlay(base, base, rows, cols) == base
  {
    var r := Overlay(base, base, rows, cols);
    assert forall i :: 0 <= i < |base| ==> r[i] == base[i];
  }

  // ---------------------------------------------------------------------
  // ImposeSumRule

  /** `f_zeu = np.zeros((3, 3, nat))` */
  function ZeroZeu(nat_: nat): (f: FZeu)
    ensures |f| == 3
  {
    seq(3, a => seq(3, b => seq(nat_, na => 0.0)))
  }

  /** The library branch of ImposeSumRule (every mode but "custom") on a
      3 nat x 3 nat matrix: pack into blocks (symmetries.py:496-498), call
      `set_asr`, copy the blocks back and, when effective charges were
      given, copy `f_zeu[:, :, na]` back into `zeu[na]`
      (symmetries.py:507-513). */
  function LibrarySumRule(fx: Setting, fc: Mat, asr: string, axis: int, zeu: Option<seq<Mat>>)
    : (r: (Mat, Option<seq<Mat>>))
    ensures IsMatrix(r.0, 3 * fx.natoms, 3 * fx.natoms)
    ensures r.1.Some? <==> zeu.Some?
    ensures r.1.Some? ==> IsZeu(r.1.value, fx.natoms)
  {
    var fzeu := if zeu.Some? then PackZeu(zeu.value) else ZeroZeu(fx.natoms);
    var out := fx.lib.setAsr(asr, axis, fx.tau, ToBlocks(fc, fx.natoms), fzeu);
    (FromBlocks(out.0, fx.natoms), if zeu.Some? then Some(UnpackZeu(out.1, fx.natoms)) else None)
  }

  /** CustomASR (symmetries.py:884-919) on a rows x cols array holding
      fc: the three raises in the order the source makes them (not
      square, side not a multiple of 3, and the IndexError of
      `fc_matrix[0,0]` on an empty matrix), otherwise P.F.P with the
      atom count read off the matrix's own side. */
  function CustomRule(fc: Mat, rows: nat, cols: nat): (r: Result<Mat>)
  {
    if rows != cols then Err(NotSquare)
    else if rows % 3 != 0 then Err(NotMultipleOfThree)
    else if rows == 0 then Err(IndexError)
    else Ok(Sandwich(fc, rows / 3))
  }

  /** The matrix and effective charges ImposeSumRule leaves, and whether
      it raised. */
  datatype Imposed = Imposed(fc: Mat, zeu: Option<seq<Mat>>, out: Outcome)

  /** The shape CustomASR accepts: a non-empty square whose side is a
      multiple of 3. */
  predicate CustomShape(rows: nat, cols: nat)
  {
    rows == cols && rows % 3 == 0 && rows > 0
  }

  /** The array is large enough for every 3 x 3 block of the nat x nat
      grid the library branches read and write. */
  predicate FitsBlocks(natoms: nat, rows: nat, cols: nat)
  {
    3 * natoms <= rows && 3 * natoms <= cols
  }

  /** The pack of symmetries.py:494-496 goes through on a side: every
      slice `[3 k : 3 k + 3]` is whole, or the last one has a single
      row, which numpy repeats (PackMeaning). */
  predicate Packs(natoms: nat, side: nat)
  {
    side >= 3 * natoms || side + 2 == 3 * natoms
  }

  /** The index the broadcast pack reads for index i of a side: itself,
      or the side's last one past its end. */
  function PackIndex(side: nat, i: nat): nat
  {
    if i < side || side == 0 then i else side - 1
  }

  /** The 3 nat x 3 nat matrix the pack hands to `set_asr`, read in the
      Cartesian layout. */
  function Packed(fc: Mat, rows: nat, cols: nat, natoms: nat): (r: Mat)
    ensures IsMatrix(r, 3 * natoms, 3 * natoms)
  {
    seq(3 * natoms, i requires 0 <= i => seq(3 * natoms, j requires 0 <= j => At(fc, PackIndex(rows, i), PackIndex(cols, j))))
  }

  /** `zeu[na, :, :] = f_zeu[:, :, na]` for the first k atoms. */
  function ChargesWritten(zeu: Option<seq<Mat>>, back: Option<seq<Mat>>, k: nat): (r: Option<seq<Mat>>)
    ensures r.Some? <==> zeu.Some?
    ensures r.Some? ==> |r.value| == |zeu.value|
  {
    if zeu.None? then None
    else Some(seq(|zeu.value|, na requires 0 <= na < |zeu.value| =>
      if back.Some? && na < k && na < |back.value| then back.value[na] else zeu.value[na]))
  }

  /** ImposeSumRule(fc, asr, axis, zeu) (symmetries.py:483-515) on a
      rows x cols array holding fc.  "custom" is CustomRule and leaves the
      charges alone.  Every other mode packs the leading 3 nat x 3 nat
      region for `set_asr`, which raises BadShape, writing nothing, when
      a slice does not broadcast; it then copies the charges and blocks
      back atom by atom, and raises BadShape at the first block whose
      slot is narrower than 3 x 3, after the copies before it. */
  function SumRule(fx: Setting, fc: Mat, rows: nat, cols: nat, asr: string, axis: int, zeu: Option<seq<Mat>>)
    : (r: Imposed)
    ensures r.out.Fail? && (asr == "custom" || !Packs(fx.natoms, rows) || !Packs(fx.natoms, cols)) ==>
      r.fc == fc && r.zeu == zeu
  {
    var n := fx.natoms;
    if asr == "custom" then
      match CustomRule(fc, rows, cols)
      case Err(e) => Imposed(fc, zeu, Fail(e))
      case Ok(g) => Imposed(g, zeu, Pass)
    else if !(Packs(n, rows) && Packs(n, cols)) then Imposed(fc, zeu, Fail(BadShape))
    else
      var l := LibrarySumRule(fx, Packed(fc, rows, cols, n), asr, axis, zeu);
      if FitsBlocks(n, rows, cols) then Imposed(Overlay(fc, l.0, 3 * n, 3 * n), l.1, Pass)
      else
        var w := CopiedBeforeMismatch(rows, cols, n);
        Imposed(Overlay(fc, l.0, w.0, w.1), ChargesWritten(zeu, l.1, if cols < 3 * n then 1 else n), Fail(BadShape))
  }

  // The broadcast pack, against numpy's rule for one slice

  /** The length of the slice `[3 k : 3 k + 3]` of a side. */
  function SliceLength(side: nat, k: nat): (l: nat)
    ensures l <= 3
  {
    if side <= 3 * k then 0 else if side - 3 * k >= 3 then 3 else side - 3 * k
  }

  /** `fc[3 na : 3 na + 3, 3 nb : 3 nb + 3]` of a rows x cols array. */
  function Slice(fc: Mat, rows: nat, cols: nat, na: nat, nb: nat): (s: Mat)
    ensures IsMatrix(s, SliceLength(rows, na), SliceLength(cols, nb))
  {
    seq(SliceLength(rows, na), a => seq(SliceLength(cols, nb), d => At(fc, 3 * na + a, 3 * nb + d)))
  }

  /** numpy assigning an r x c slice to a 3 x 3 block: a side of one is
      repeated, a side of three kept, any other side raises. */
  function BroadcastBlock(s: Mat, r: nat, c: nat): (b: Result<Mat>)
    ensures b.Ok? <==> (r == 1 || r == 3) && (c == 1 || c == 3)
    ensures b.Ok? ==> IsMatrix(b.value, 3, 3)
  {
    if (r == 1 || r == 3) && (c == 1 || c == 3) then
      Ok(seq(3, a => seq(3, d => At(s, if r == 1 then 0 else a, if c == 1 then 0 else d))))
    else Err(BadShape)
  }

  /** A side packs exactly when every one of its nat slices broadcasts. */
  lemma {:induction false} PacksIff(natoms: nat, side: nat)
    ensures Packs(natoms, side) <==>
      forall k :: 0 <= k < natoms ==> SliceLength(side, k) == 1 || SliceLength(side, k) == 3
  {
    if !Packs(natoms, side) {
      var k := natoms - 1;
      assert SliceLength(side, k) == 0 || SliceLength(side, k) == 2;
    }
  }

  /** The pack goes through exactly when numpy broadcasts every slice,
      and then block (na, nb) handed to `set_asr` is the broadcast of
      slice (na, nb). */
  lemma PackMeaning(fc: Mat, rows: nat, cols: nat, natoms: nat)
    requires IsMatrix(fc, rows, cols)
    ensures (Packs(natoms, rows) && Packs(natoms, cols)) <==>
      forall na, nb :: 0 <= na < natoms && 0 <= nb < natoms ==>
        BroadcastBlock(Slice(fc, rows, cols, na, nb), SliceLength(rows, na), SliceLength(cols, nb)).Ok?
    ensures Packs(natoms, rows) && Packs(natoms, cols) ==>
      forall na, nb :: 0 <= na < natoms && 0 <= nb < natoms ==>
        ToBlocks(Packed(fc, rows, cols, natoms), natoms)[na][nb] ==
        BroadcastBlock(Slice(fc, rows, cols, na, nb), SliceLength(rows, na), SliceLength(cols, nb)).value
  {
    PacksIff(natoms, rows);
    PacksIff(natoms, cols);
    if Packs(natoms, rows) && Packs(natoms, cols) {
      forall na, nb | 0 <= na < natoms && 0 <= nb < natoms
        ensures ToBlocks(Packed(fc, rows, cols, natoms), natoms)[na][nb] ==
          BroadcastBlock(Slice(fc, rows, cols, na, nb), SliceLength(rows, na), SliceLength(cols, nb)).value
      {
        PackedBlock(fc, rows, cols, natoms, na, nb);
      }
    } else if !Packs(natoms, rows) {
      assert !BroadcastBlock(Slice(fc, rows, cols, natoms - 1, 0), SliceLength(rows, natoms - 1), SliceLength(cols, 0)).Ok?;
    } else {
      assert !BroadcastBlock(Slice(fc, rows, cols, 0, natoms - 1), SliceLength(rows, 0), SliceLength(cols, natoms - 1)).Ok?;
    }
  }

  /** One block of PackMeaning. */
  lemma PackedBlock(fc: Mat, rows: nat, cols: nat, natoms: nat, na: nat, nb: nat)
    requires IsMatrix(fc, rows, cols) && Packs(natoms, rows) && Packs(natoms, cols)
    requires na < natoms && nb < natoms
    ensures ToBlocks(Packed(fc, rows, cols, natoms), natoms)[na][nb] ==
      BroadcastBlock(Slice(fc, rows, cols, na, nb), SliceLength(rows, na), SliceLength(cols, nb)).value
  {
    PacksIff(natoms, rows);
    PacksIff(natoms, cols);
    var r, c := SliceLength(rows, na), SliceLength(cols, nb);
    var s := Slice(fc, rows, cols, na, nb);
    var p := Packed(fc, rows, cols, natoms);
    var got := ToBlocks(p, natoms)[na][nb];
    var want := BroadcastBlock(s, r, c).value;
    forall a, d | 0 <= a < 3 && 0 <= d < 3
      ensures got[a][d] == want[a][d]
    {
      var a', d' := if r == 1 then 0 else a, if c == 1 then 0 else d;
      assert PackIndex(rows, 3 * na + a) == 3 * na + a';
      assert PackIndex(cols, 3 * nb + d) == 3 * nb + d';
      assert got[a][d] == At(p, 3 * na + a, 3 * nb + d);
      assert want[a][d] == At(s, a', d') == At(fc, 3 * na + a', 3 * nb + d');
    }
    assert |got| == 3 && forall a :: 0 <= a < 3 ==> |got[a]| == 3;
    assert forall a :: 0 <= a < 3 ==> got[a] == want[a];
  }

  /** On an array that holds every block the pack reads the leading
      3 nat x 3 nat region as it is. */
  lemma PackedLeading(fc: Mat, rows: nat, cols: nat, natoms: nat)
    requires FitsBlocks(natoms, rows, cols)
    ensures forall i, j :: 0 <= i < 3 * natoms && 0 <= j < 3 * natoms ==>
      Packed(fc, rows, cols, natoms)[i][j] == At(fc, i, j)
  {
  }

  /** CustomASR raises NotSquare, NotMultipleOfThree or IndexError exactly
      as the shape dictates; otherwise its result has the array's shape,
      obeys the acoustic sum rule for side/3 atoms, and is a fixed point. */
  lemma CustomRuleOutcome(fc: Mat, rows: nat, cols: nat)
    ensures rows != cols ==> CustomRule(fc, rows, cols) == Err(NotSquare)
    ensures rows == cols && rows % 3 != 0 ==> CustomRule(fc, rows, cols) == Err(NotMultipleOfThree)
    ensures rows == cols == 0 ==> CustomRule(fc, rows, cols) == Err(IndexError)
    ensures CustomRule(fc, rows, cols).Ok? <==> rows == cols && rows % 3 == 0 && rows > 0
    ensures CustomRule(fc, rows, cols).Ok? ==>
      var g := CustomRule(fc, rows, cols).value;
      IsMatrix(g, rows, cols) && AcousticSumRuleHolds(g, rows / 3) && CustomRule(g, rows, cols) == Ok(g)
  {
    if rows == cols && rows % 3 == 0 && rows > 0 {
      SandwichObeysSumRule(fc, rows / 3);
      SandwichIdempotent(fc, rows / 3);
    }
  }

  /** In "custom" mode the charges are untouched, the outcome is that of
      CustomASR, a success obeys the acoustic sum rule, and imposing it
      again changes nothing. */
  lemma CustomSumRuleHolds(fx: Setting, fc: Mat, rows: nat, cols: nat, axis: int, zeu: Option<seq<Mat>>)
    ensures var r := SumRule(fx, fc, rows, cols, "custom", axis, zeu);
      r.zeu == zeu &&
      (r.out.Pass? <==> rows == cols && rows % 3 == 0 && rows > 0) &&
      (r.out.Fail? ==> r.out.error == CustomRule(fc, rows, cols).error) &&
      (r.out.Pass? ==> AcousticSumRuleHolds(r.fc, rows / 3) &&
                       SumRule(fx, r.fc, rows, cols, "custom", axis, zeu) == r)
  {
    CustomRuleOutcome(fc, rows, cols);
  }

  /** Every other mode raises exactly on an array too small for the
      blocks, and then only BadShape; a side that does not pack writes
      nothing; the array keeps its shape, and charges come back exactly
      when charges were given. */
  lemma LibrarySumRuleShapes(fx: Setting, fc: Mat, rows: nat, cols: nat, asr: string, axis: int, zeu: Option<seq<Mat>>)
    requires asr != "custom"
    ensures var r := SumRule(fx, fc, rows, cols, asr, axis, zeu);
      (r.out.Pass? <==> FitsBlocks(fx.natoms, rows, cols)) &&
      (r.out.Fail? ==> r.out == Fail(BadShape)) &&
      (!(Packs(fx.natoms, rows) && Packs(fx.natoms, cols)) ==> r.fc == fc && r.zeu == zeu) &&
      r.zeu.Some? == zeu.Some? && |r.fc| == |fc| &&
      forall i :: 0 <= i < |fc| ==> |r.fc[i]| == |fc[i]|
  {
  }

  /** At a side of 3 nat - 2 the pack broadcasts and `set_asr` runs; the
      copy-back then goes atom by atom, charges first, and raises at the
      first block whose slot is narrower than 3 x 3: block (0, nat - 1)
      when the array is too narrow, otherwise block (nat - 1, 0).  Every
      entry of a block before that one in loop order is the library's,
      the charges of every atom up to that block's row are the
      library's, and everything else is as it was. */
  lemma {:induction false} BroadcastSumRule(fx: Setting, fc: Mat, rows: nat, cols: nat, asr: string, axis: int, zeu: Option<seq<Mat>>)
    requires asr != "custom" && IsMatrix(fc, rows, cols)
    requires Packs(fx.natoms, rows) && Packs(fx.natoms, cols) && !FitsBlocks(fx.natoms, rows, cols)
    ensures var n := fx.natoms;
      var r := SumRule(fx, fc, rows, cols, asr, axis, zeu);
      var l := LibrarySumRule(fx, Packed(fc, rows, cols, n), asr, axis, zeu);
      var stop := if cols < 3 * n then (0, n - 1) else (n - 1, 0);
      r.out == Fail(BadShape) && IsMatrix(r.fc, rows, cols) &&
      (forall i, j :: 0 <= i < rows && 0 <= j < cols ==>
        r.fc[i][j] == if i < 3 * n && j < 3 * n && (i / 3 < stop.0 || (i / 3 == stop.0 && j / 3 < stop.1))
                      then l.0[i][j] else fc[i][j]) &&
      (zeu.Some? ==>
         r.zeu.Some? && |r.zeu.value| == |zeu.value| &&
         forall na :: 0 <= na < |zeu.value| ==>
           r.zeu.value[na] == if na <= stop.0 && na < n then l.1.value[na] else zeu.value[na])
  {
    var n := fx.natoms;
    var r := SumRule(fx, fc, rows, cols, asr, axis, zeu);
    var l := LibrarySumRule(fx, Packed(fc, rows, cols, n), asr, axis, zeu);
    var w := CopiedBeforeMismatch(rows, cols, n);
    var stop := if cols < 3 * n then (0, n - 1) else (n - 1, 0);
    assert n >= 1;
    if cols < 3 * n {
      assert cols == 3 * (n - 1) + 1;
      assert w == (if rows >= 3 then 3 else 0, 3 * (n - 1));
    } else {
      assert rows == 3 * (n - 1) + 1;
      assert w == (3 * (n - 1), 3 * n);
    }
    forall i, j | 0 <= i < rows && 0 <= j < cols
      ensures r.fc[i][j] == if i < 3 * n && j < 3 * n && (i / 3 < stop.0 || (i / 3 == stop.0 && j / 3 < stop.1))
                            then l.0[i][j] else fc[i][j]
    {
      assert r.fc[i][j] == if i < w.0 && j < w.1 then At(l.0, i, j) else fc[i][j];
    }
  }

  /** The library receives what it returns. */
  ghost predicate SetAsrKeeps(lib: Symph)
  {
    forall asr, axis, tau, b, f :: lib.setAsr(asr, axis, tau, b, f) == (b, f)
  }

  /** Every 3 x 3 block transposed. */
  function TransposedBlocks(zeu: seq<Mat>): (r: seq<Mat>)
    ensures |r| == |zeu|
  {
    seq(|zeu|, na requires 0 <= na < |zeu| => Transpose(zeu[na], 3, 3))
  }

  /** The pack and copy-back around `set_asr`: if the library returned its
      arguments unchanged, the matrix would come back as it was, but every
      3 x 3 block of the effective charges would come back transposed
      (the pack is einsum "ijk -> kji", the copy-back reads the axes in
      the original order). */
  lemma SumRuleLayoutRoundTrip(fx: Setting, fc: Mat, asr: string, axis: int, zeu: seq<Mat>)
    requires asr != "custom" && SetAsrKeeps(fx.lib)
    requires IsMatrix(fc, 3 * fx.natoms, 3 * fx.natoms) && IsZeu(zeu, fx.natoms)
    ensures SumRule(fx, fc, 3 * fx.natoms, 3 * fx.natoms, asr, axis, Some(zeu)) == Imposed(fc, Some(TransposedBlocks(zeu)), Pass)
  {
    var n := fx.natoms;
    PackedLeading(fc, 3 * n, 3 * n, n);
    assert forall i :: 0 <= i < 3 * n ==> Packed(fc, 3 * n, 3 * n, n)[i] == fc[i];
    assert Packed(fc, 3 * n, 3 * n, n) == fc;
    FromToBlocks(fc, n);
    ZeuComesBackTransposed(zeu, n);
    var out := fx.lib.setAsr(asr, axis, fx.tau, ToBlocks(fc, n), PackZeu(zeu));
    assert out == (ToBlocks(fc, n), PackZeu(zeu));
    var back := UnpackZeu(out.1, n);
    var want := TransposedBlocks(zeu);
    assert forall na :: 0 <= na < n ==> back[na] == want[na];
    assert back == want;
    assert LibrarySumRule(fx, fc, asr, axis, Some(zeu)) == (fc, Some(back));
    OverlaySame(fc, 3 * n, 3 * n);
  }

  // ---------------------------------------------------------------------
  // SymmetrizeDynQ

  /** `convert_matrix_cart_cryst` applied to every 3 x 3 block. */
  function ConvertBlocks(b: BlockGrid, conv: (Mat, Mat) -> Mat, cell: Mat, nat_: nat): (r: BlockGrid)
    ensures |r| == nat_ && forall na :: 0 <= na < nat_ ==> |r[na]| == nat_
  {
    seq(nat_, na => seq(nat_, nb => conv(if 0 <= na < |b| && 0 <= nb < |b[na]| then b[na][nb] else Zeros(3, 3), cell)))
  }

  /** SymmetrizeDynQ(dyn, xq) on a 3 nat x 3 nat matrix: the blocks are
      taken to crystal coordinates, symmetrised by `symdynph_gq_new`, and
      taken back to Cartesian coordinates. */
  function SymmetrizedDyn(fx: Setting, st: SymState, cell: Mat, dyn: Mat, xq: Vec): (r: Mat)
    ensures IsMatrix(r, 3 * fx.natoms, 3 * fx.natoms)
  {
    var crystal := ConvertBlocks(ToBlocks(dyn, fx.natoms), fx.geo.cartToCryst, cell, fx.natoms);
    var symmetric := fx.lib.symdyn(xq, crystal, Data(fx, st));
    FromBlocks(ConvertBlocks(symmetric, fx.geo.crystToCart, cell, fx.natoms), fx.natoms)
  }

  /** `xq = np.ones(3) * q_point`: numpy broadcasts a single component to
      all three and refuses any other length. */
  function Broadcast3(q: Vec): (r: Result<Vec>)
    ensures r.Ok? <==> |q| == 3 || |q| == 1
    ensures r.Ok? ==> |r.value| == 3
    ensures |q| == 3 ==> r == Ok(q)
  {
    if |q| == 3 then Ok(q) else if |q| == 1 then Ok([q[0], q[0], q[0]]) else Err(BadShape)
  }

  /** The two conversions undo each other on 3 x 3 blocks. */
  ghost predicate ConversionsInverse(geo: Geometry, cell: Mat)
  {
    forall m :: IsMatrix(m, 3, 3) ==> geo.crystToCart(geo.cartToCryst(m, cell), cell) == m
  }

  /** The symmetrisation library returns the matrix it is handed. */
  ghost predicate SymdynKeeps(lib: Symph)
  {
    forall xq, b, d :: lib.symdyn(xq, b, d) == b
  }

  /** The leading rows x cols rectangle the copy-back loop of
      ImposeSumRule (symmetries.py:507-513) has written when numpy
      refuses the first block of a rows x cols array that is not 3 x 3.
      The loop runs over na, then nb: an array narrower than 3 nat fails
      in block row 0 (at once when it has fewer than 3 rows), otherwise a
      shorter one fails at the first block row that does not fit. */
  function CopiedBeforeMismatch(rows: nat, cols: nat, natoms: nat): (w: (nat, nat))
    ensures !FitsBlocks(natoms, rows, cols) ==>
      w.0 <= rows && w.1 <= cols && w.0 % 3 == 0 && w.1 % 3 == 0 && (w.0 < 3 * natoms || w.1 < 3 * natoms)
  {
    if cols < 3 * natoms then (if rows >= 3 then 3 else 0, 3 * (cols / 3))
    else (3 * (rows / 3), 3 * natoms)
  }

  /** A matrix after an in-place step, and whether the step raised. */
  datatype Written = Written(fc: Mat, out: Outcome)

  /** SymmetrizeDynQ(dyn_matrix, q_point) (symmetries.py:758-779) on a
      rows x cols array holding dyn.  The first loop (:761-764) hands
      every slice `[3 na : 3 na + 3, 3 nb : 3 nb + 3]` to the conversion
      and stores the result in a 3 x 3 slot of QE_dyn, so an array too
      small for the blocks raises there; a q point numpy cannot broadcast
      raises next (:767-768).  Both come before the first write into
      dyn_matrix (:779).  Otherwise the leading 3 nat x 3 nat region is
      replaced by the symmetrised matrix. */
  function DynQ(fx: Setting, st: SymState, cell: Mat, dyn: Mat, rows: nat, cols: nat, q: Vec): (r: Written)
  {
    if !FitsBlocks(fx.natoms, rows, cols) then Written(dyn, Fail(BadShape))
    else match Broadcast3(q)
      case Err(e) => Written(dyn, Fail(e))
      case Ok(xq) =>
        var m := SymmetrizedDyn(fx, st, cell, dyn, xq);
        Written(Overlay(dyn, m, 3 * fx.natoms, 3 * fx.natoms), Pass)
  }

  /** SymmetrizeDynQ succeeds exactly when the array holds every block and
      the q point broadcasts; it raises only BadShape, and then the matrix
      is untouched; on success the leading 3 nat x 3 nat region is the
      symmetrised matrix and every other entry is kept. */
  lemma DynQOutcome(fx: Setting, st: SymState, cell: Mat, dyn: Mat, rows: nat, cols: nat, q: Vec)
    ensures var r := DynQ(fx, st, cell, dyn, rows, cols, q);
      (r.out.Pass? <==> Broadcast3(q).Ok? && FitsBlocks(fx.natoms, rows, cols)) &&
      (r.out.Fail? ==> r == Written(dyn, Fail(BadShape))) &&
      (r.out.Pass? ==> r.fc == Overlay(dyn, SymmetrizedDyn(fx, st, cell, dyn, Broadcast3(q).value), 3 * fx.natoms, 3 * fx.natoms))
  {
  }

  /** The layout conversions around `symdynph_gq_new` lose nothing: with a
      library that changes nothing and conversions that undo each other,
      the dynamical matrix comes back as it was, and SymmetrizeDynQ on a
      3 nat x 3 nat array at a broadcastable q point leaves it alone. */
  lemma SymmetrizedDynLayoutRoundTrip(fx: Setting, st: SymState, cell: Mat, dyn: Mat, xq: Vec)
    requires SymdynKeeps(fx.lib) && ConversionsInverse(fx.geo, cell)
    requires IsMatrix(dyn, 3 * fx.natoms, 3 * fx.natoms)
    ensures SymmetrizedDyn(fx, st, cell, dyn, xq) == dyn
    ensures Broadcast3(xq).Ok? ==> DynQ(fx, st, cell, dyn, 3 * fx.natoms, 3 * fx.natoms, xq) == Written(dyn, Pass)
  {
    NeutralLibraryKeeps(fx, st, cell, dyn, xq);
    if Broadcast3(xq).Ok? {
      NeutralLibraryKeeps(fx, st, cell, dyn, Broadcast3(xq).value);
      OverlaySame(dyn, 3 * fx.natoms, 3 * fx.natoms);
    }
  }

  lemma NeutralLibraryKeeps(fx: Setting, st: SymState, cell: Mat, dyn: Mat, xq: Vec)
    requires SymdynKeeps(fx.lib) && ConversionsInverse(fx.geo, cell)
    requires IsMatrix(dyn, 3 * fx.natoms, 3 * fx.natoms)
    ensures SymmetrizedDyn(fx, st, cell, dyn, xq) == dyn
  {
    var n := fx.natoms;
    var blocks := ToBlocks(dyn, n);
    var crystal := ConvertBlocks(blocks, fx.geo.cartToCryst, cell, n);
    var back := ConvertBlocks(crystal, fx.geo.crystToCart, cell, n);
    forall na | 0 <= na < n ensures back[na] == blocks[na] {
      forall nb | 0 <= nb < n ensures back[na][nb] == blocks[na][nb] {
        assert IsMatrix(blocks[na][nb], 3, 3);
      }
    }
    assert back == blocks;
    FromToBlocks(dyn, n);
  }

  // ---------------------------------------------------------------------
  // SymmetrizeVector

  /** What SymmetrizeVector does to a vector array whose contents are
      `old` (a rows x cols array), or what it raises (then it writes
      nothing).  With atoms to read, an array with fewer than nat rows or
      fewer than 3 columns fails on the first read (IndexError), one with
      more than 3 columns on the first copy back (numpy's broadcast
      error); otherwise the leading nat x 3 region is replaced by the
      transpose of what `symvector` returns for the transposed vector. */
  function SymmetrizedVector(fx: Setting, st: SymState, old_: Mat, rows: nat, cols: nat): (r: Result<Mat>)
    requires IsMatrix(old_, rows, cols)
    ensures r.Ok? ==> IsMatrix(r.value, rows, cols)
    ensures fx.natoms == 0 ==> r == Ok(old_)
  {
    var n := fx.natoms;
    if n > 0 && (rows < n || cols < 3) then Err(IndexError)
    else
      var tmp := fx.lib.symvector(Data(fx, st), Transpose(old_, n, 3));
      if n > 0 && cols != 3 then Err(BadShape)
      else
        var r := Overlay(old_, Transpose(tmp, 3, n), n, 3);
        OverlayEmpty(old_, Transpose(tmp, 3, n), n);
        Ok(r)
  }

  /** Overlaying no rows leaves the matrix alone. */
  lemma OverlayEmpty(base: Mat, m: Mat, n: nat)
    ensures n == 0 ==> Overlay(base, m, n, 3) == base
  {
    if n == 0 {
      assert forall i :: 0 <= i < |base| ==> Overlay(base, m, n, 3)[i] == base[i];
    }
  }

  /** The library returns the vector it is handed. */
  ghost predicate SymvectorKeeps(lib: Symph)
  {
    forall d, v :: lib.symvector(d, v) == v
  }

  /** SymmetrizeVector fails exactly on the shapes above, and its two
      transpositions undo each other: with a library that changes nothing
      the vector comes back as it was. */
  lemma SymmetrizedVectorShapes(fx: Setting, st: SymState, v: Mat, rows: nat, cols: nat)
    requires IsMatrix(v, rows, cols)
    ensures SymmetrizedVector(fx, st, v, rows, cols).Ok? <==> fx.natoms == 0 || (rows >= fx.natoms && cols == 3)
    ensures SymvectorKeeps(fx.lib) && SymmetrizedVector(fx, st, v, rows, cols).Ok? ==> SymmetrizedVector(fx, st, v, rows, cols) == Ok(v)
  {
    var n := fx.natoms;
    if SymvectorKeeps(fx.lib) && n > 0 && rows >= n && cols == 3 {
      var tmp := Transpose(v, n, 3);
      assert fx.lib.symvector(Data(fx, st), tmp) == tmp;
      var back := Transpose(tmp, 3, n);
      forall i | 0 <= i < rows ensures Overlay(v, back, n, 3)[i] == v[i] {
        if i < n {
          assert forall j :: 0 <= j < 3 ==> back[i][j] == v[i][j];
        }
      }
      assert Overlay(v, back, n, 3) == v;
    }
  }
}
