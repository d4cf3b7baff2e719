/** What `QE_Symmetry.SymmetrizeFCQ(fcq, q_stars, asr)` does
    (symmetries.py:375-446): the stars are flattened into one list of q
    points; at every point the small group is set up, the acoustic sum
    rule is imposed where the mode asks for it, and the matrix is
    symmetrised; then every star's consecutive slice of fcq is replaced
    by its star average.
 */
module QEFcq {
  import opened Wrappers
  import opened Matrices
  import opened Numerics
  import opened Oracles
  import opened AcousticSumRule
  import opened QEState
  import opened StarAverage
  import opened QStars
  import opened QELayout

  /** The symmetry tables, the matrices and whether the run has raised. */
  datatype Step = Step(st: SymState, fcq: seq<Mat>, out: Outcome)

  /** |q|^2 */
  function SqNorm(q: Vec): real
  {
    VAt(q, 0) * VAt(q, 0) + VAt(q, 1) * VAt(q, 1) + VAt(q, 2) * VAt(q, 2)
  }

  /** Whether the sum rule is imposed at q (symmetries.py:412-421):
      "simple" and "custom" only at Gamma (|q| below the tolerance,
      compared here as |q|^2 < tolerance^2), "crystal" everywhere, "no"
      nowhere; any other mode raises. */
  function AsrAt(asr: string, q: Vec): (r: Result<bool>)
    ensures r.Err? ==> r.error == UnknownAsrMode
  {
    if asr == "simple" || asr == "custom" then Ok(SqNorm(q) < Epsilon * Epsilon)
    else if asr == "crystal" then Ok(true)
    else if asr == "no" then Ok(false)
    else Err(UnknownAsrMode)
  }

  /** The modes SymmetrizeFCQ knows. */
  predicate KnownMode(asr: string)
  {
    asr == "simple" || asr == "custom" || asr == "crystal" || asr == "no"
  }

  /** `ImposeSumRule(fcq[iq], asr)` on the rows x cols matrix fcq[iq]
      when `apply` says so, and nothing otherwise. */
  function Prepared(fx: Setting, m: Mat, rows: nat, cols: nat, asr: string, apply: bool): Imposed
  {
    if apply then SumRule(fx, m, rows, cols, asr, 1, None) else Imposed(m, None, Pass)
  }

  /** Iteration iq of the per-q loop (symmetries.py:404-434) on a stack of
      rows x cols matrices: the small group of q is set up, the sum rule
      is imposed where the mode asks for it and the matrix is symmetrised;
      the first of them that raises ends the iteration, keeping what it
      wrote. */
  function QStep(fx: Setting, st: SymState, cell: Mat, fcq: seq<Mat>, rows: nat, cols: nat,
                 qs: seq<Vec>, asr: string, iq: nat): (r: Step)
    requires iq < |fcq| == |qs|
    ensures |r.fcq| == |fcq|
  {
    var st' := AfterSetup(fx, st, qs[iq]);
    match AsrAt(asr, qs[iq])
    case Err(e) => Step(st', fcq, Fail(e))
    case Ok(apply) =>
      var p := Prepared(fx, fcq[iq], rows, cols, asr, apply);
      if p.out.Fail? then Step(st', fcq[iq := p.fc], p.out)
      else
        var d := DynQ(fx, st', cell, p.fc, rows, cols, qs[iq]);
        Step(st', fcq[iq := d.fc], d.out)
  }

  /** The per-q loop after its first n iterations, stopping at the first
      that raises. */
  function PerQ(fx: Setting, st: SymState, cell: Mat, fcq: seq<Mat>, rows: nat, cols: nat,
                qs: seq<Vec>, asr: string, n: nat): (r: Step)
    requires n <= |qs| == |fcq|
    ensures |r.fcq| == |fcq|
  {
    if n == 0 then Step(st, fcq, Pass)
    else
      var p := PerQ(fx, st, cell, fcq, rows, cols, qs, asr, n - 1);
      if p.out.Fail? then p else QStep(fx, p.st, cell, p.fcq, rows, cols, qs, asr, n - 1)
  }

  /** s is where the per-q loop stands after n iterations.  The equation
      sits under a quantifier on the iteration count so that the solver
      opens it only where PerQ at that count is already in view. */
  predicate PerQAt(fx: Setting, st: SymState, cell: Mat, fcq: seq<Mat>, rows: nat, cols: nat,
                   qs: seq<Vec>, asr: string, n: nat, s: Step)
  {
    forall m: nat :: m == n ==> m <= |qs| == |fcq| && s == PerQ(fx, st, cell, fcq, rows, cols, qs, asr, m)
  }

  /** The slice of star i: `fcq[q0_index : q0_index + q_len]`. */
  function Slice(fcq: seq<Mat>, stars: seq<seq<Vec>>, i: nat): (s: seq<Mat>)
    requires i < |stars| && |fcq| == TotalSize(stars)
    ensures |s| == |stars[i]|
  {
    StarSlices(stars, i);
    fcq[Offset(stars, i)..Offset(stars, i + 1)]
  }

  /** fcq with the slice of star i replaced by `avg`. */
  function Spliced(fcq: seq<Mat>, stars: seq<seq<Vec>>, i: nat, avg: seq<Mat>): (r: seq<Mat>)
    requires i < |stars| && |fcq| == TotalSize(stars) && |avg| == |stars[i]|
    ensures |r| == |fcq|
  {
    StarSlices(stars, i);
    fcq[..Offset(stars, i)] + avg + fcq[Offset(stars, i + 1)..]
  }

  /** `ApplyQStar(fcq[q0_index : q0_index + q_len], q_stars[i])`
      (symmetries.py:436-446): the symmetries of Gamma are set up and
      the star's slice is replaced by its average, or nothing is written. */
  function StarStep(fx: Setting, st: SymState, fcq: seq<Mat>, stars: seq<seq<Vec>>, i: nat): (r: Step)
    requires i < |stars| && |fcq| == TotalSize(stars)
    ensures |r.fcq| == |fcq|
  {
    var st' := AfterSetup(fx, st, Gamma);
    match Average(fx.lib, fx.geo, Data(fx, st'), Slice(fcq, stars, i), stars[i], fx.natoms)
    case Err(e) => Step(st', fcq, Fail(e))
    case Ok(avg) => Step(st', Spliced(fcq, stars, i, avg), Pass)
  }

  /** The per-star loop after its first n stars. */
  function PerStar(fx: Setting, st: SymState, fcq: seq<Mat>, stars: seq<seq<Vec>>, n: nat): (r: Step)
    requires n <= |stars| && |fcq| == TotalSize(stars)
    ensures |r.fcq| == |fcq|
  {
    if n == 0 then Step(st, fcq, Pass)
    else
      var p := PerStar(fx, st, fcq, stars, n - 1);
      if p.out.Fail? then p else StarStep(fx, p.st, p.fcq, stars, n - 1)
  }

  /** What ApplyQStar(fcq[lo : lo + nq], group) leaves, with the tables
      `st` it sets up: the slice replaced by its star average and `Pass`,
      or nothing written and the error. */
  predicate StarApplied(fx: Setting, st: SymState, before: seq<Mat>, lo: nat, group: seq<Vec>, after: seq<Mat>, out: Outcome)
    requires lo + |group| <= |before|
  {
    var avg := Average(fx.lib, fx.geo, Data(fx, st), before[lo..lo + |group|], group, fx.natoms);
    (avg.Ok? ==> out == Pass && after == before[..lo] + avg.value + before[lo + |group|..]) &&
    (avg.Err? ==> out == Fail(avg.error) && after == before)
  }

  /** ApplyQStar on star i's slice is one StarStep. */
  lemma StarStepFromSlice(fx: Setting, st: SymState, fcq: seq<Mat>, stars: seq<seq<Vec>>, i: nat,
                          st': SymState, f': seq<Mat>, out: Outcome)
    requires i < |stars| && |fcq| == TotalSize(stars)
    requires st' == AfterSetup(fx, st, Gamma)
    requires Offset(stars, i) + |stars[i]| <= |fcq|
    requires StarApplied(fx, st', fcq, Offset(stars, i), stars[i], f', out)
    ensures Step(st', f', out) == StarStep(fx, st, fcq, stars, i)
  {
    StarSlices(stars, i);
    var lo := Offset(stars, i);
    assert Slice(fcq, stars, i) == fcq[lo..lo + |stars[i]|];
    var avg := Average(fx.lib, fx.geo, Data(fx, st'), Slice(fcq, stars, i), stars[i], fx.natoms);
    if avg.Ok? {
      assert Spliced(fcq, stars, i, avg.value) == fcq[..lo] + avg.value + fcq[lo + |stars[i]|..];
    }
  }

  /** The per-star loop after one more star that did not raise before it. */
  lemma PerStarNext(fx: Setting, st: SymState, fcq: seq<Mat>, stars: seq<seq<Vec>>, n: nat)
    requires n < |stars| && |fcq| == TotalSize(stars) && PerStar(fx, st, fcq, stars, n).out.Pass?
    ensures var p := PerStar(fx, st, fcq, stars, n);
      PerStar(fx, st, fcq, stars, n + 1) == StarStep(fx, p.st, p.fcq, stars, n)
  {
  }

  /** Every point has a length numpy can broadcast to three components. */
  predicate AllBroadcast(qs: seq<Vec>)
  {
    forall k :: 0 <= k < |qs| ==> Broadcast3(qs[k]).Ok?
  }

  /** `q_points[sigma, :] = q_vec` for every star member
      (symmetries.py:392-397): each point broadcast to three components,
      or the BadShape numpy raises for a point it cannot broadcast. */
  function QPoints(stars: seq<seq<Vec>>): (r: Result<seq<Vec>>)
    ensures r.Ok? <==> AllBroadcast(Flatten(stars))
    ensures r.Err? ==> r.error == BadShape
    ensures r.Ok? ==>
      |r.value| == TotalSize(stars) &&
      forall k :: 0 <= k < |r.value| ==> Broadcast3(Flatten(stars)[k]) == Ok(r.value[k])
  {
    var qs := Flatten(stars);
    if AllBroadcast(qs) then
      Ok(seq(|qs|, k requires 0 <= k < |qs| && Broadcast3(qs[k]).Ok? => Broadcast3(qs[k]).value))
    else Err(BadShape)
  }

  /** SymmetrizeFCQ(fcq, q_stars, asr) on a stack of rows x cols matrices:
      the new tables and matrices, and whether it raised.  What was
      written before an error stays written. */
  function Symmetrized(fx: Setting, st: SymState, cell: Mat, fcq: seq<Mat>, rows: nat, cols: nat,
                       stars: seq<seq<Vec>>, asr: string): (r: Step)
    ensures |r.fcq| == |fcq|
  {
    match QPoints(stars)
    case Err(e) => Step(st, fcq, Fail(e))
    case Ok(qs) =>
      if |qs| != |fcq| then Step(st, fcq, Fail(FcqLengthMismatch))
      else
        var p := PerQ(fx, st, cell, fcq, rows, cols, qs, asr, |qs|);
        if p.out.Fail? then p else PerStar(fx, p.st, p.fcq, stars, |stars|)
  }

  // ---------------------------------------------------------------------
  // Properties

  /** Where the sum rule is imposed and what it does: the mode is
      accepted exactly when known; in "custom" mode at Gamma the matrix
      goes through CustomASR, which raises for a matrix that is not a
      non-empty square of side 3k and otherwise obeys the acoustic sum
      rule for k atoms; "simple" at Gamma and "crystal" everywhere go
      through the library branch, which raises BadShape exactly for an
      array too small for the blocks, and writes nothing when a side does
      not even pack; "simple" and "custom" leave every other q alone, and
      "no" leaves every q alone. */
  lemma SumRuleDispatch(fx: Setting, m: Mat, rows: nat, cols: nat, asr: string, q: Vec)
    ensures AsrAt(asr, q).Ok? <==> KnownMode(asr)
    ensures asr == "custom" && SqNorm(q) < Epsilon * Epsilon ==>
      var p := Prepared(fx, m, rows, cols, asr, AsrAt(asr, q).value);
      (p.out.Pass? <==> CustomShape(rows, cols)) &&
      (p.out.Fail? ==> p == Imposed(m, None, Fail(CustomRule(m, rows, cols).error))) &&
      (p.out.Pass? ==> AcousticSumRuleHolds(p.fc, rows / 3))
    ensures (asr == "crystal" || (asr == "simple" && SqNorm(q) < Epsilon * Epsilon)) ==>
      var p := Prepared(fx, m, rows, cols, asr, AsrAt(asr, q).value);
      p == SumRule(fx, m, rows, cols, asr, 1, None) &&
      (p.out.Pass? <==> FitsBlocks(fx.natoms, rows, cols)) &&
      (p.out.Fail? ==> p.out == Fail(BadShape) && p.zeu.None?) &&
      (!(Packs(fx.natoms, rows) && Packs(fx.natoms, cols)) ==> p == Imposed(m, None, Fail(BadShape)))
    ensures (asr == "simple" || asr == "custom") && SqNorm(q) >= Epsilon * Epsilon ==>
      Prepared(fx, m, rows, cols, asr, AsrAt(asr, q).value) == Imposed(m, None, Pass)
    ensures asr == "no" ==> Prepared(fx, m, rows, cols, asr, AsrAt(asr, q).value) == Imposed(m, None, Pass)
  {
    if asr == "custom" {
      CustomSumRuleHolds(fx, m, rows, cols, 1, None);
    } else {
      LibrarySumRuleShapes(fx, m, rows, cols, asr, 1, None);
    }
  }

  /** The first n iterations of the per-q loop leave the later matrices
      alone.  An unknown mode raises at the very first iteration, before
      any matrix is written; so does, after writing at most matrix 0, an
      array too small for the blocks.  A known mode on an array that
      holds every block (and, for "custom", is a non-empty square of side
      3k) never raises. */
  lemma {:induction false} PerQFrame(fx: Setting, st: SymState, cell: Mat, fcq: seq<Mat>, rows: nat, cols: nat,
                                     qs: seq<Vec>, asr: string, n: nat)
    requires n <= |qs| == |fcq|
    requires forall k :: 0 <= k < |qs| ==> |qs[k]| == 3
    ensures var r := PerQ(fx, st, cell, fcq, rows, cols, qs, asr, n);
      (forall k :: n <= k < |fcq| ==> r.fcq[k] == fcq[k]) &&
      (KnownMode(asr) && FitsBlocks(fx.natoms, rows, cols) && (asr == "custom" ==> CustomShape(rows, cols)) ==> r.out == Pass) &&
      (!KnownMode(asr) && n > 0 ==> r == Step(AfterSetup(fx, st, qs[0]), fcq, Fail(UnknownAsrMode))) &&
      (!FitsBlocks(fx.natoms, rows, cols) && n > 0 ==> r.out.Fail? && forall k :: 1 <= k < |fcq| ==> r.fcq[k] == fcq[k])
  {
    if n == 0 {
      assert PerQ(fx, st, cell, fcq, rows, cols, qs, asr, 0) == Step(st, fcq, Pass);
    } else {
      PerQFrame(fx, st, cell, fcq, rows, cols, qs, asr, n - 1);
      PerQFrameStep(fx, st, cell, fcq, rows, cols, qs, asr, n);
    }
  }

  /** One more iteration keeps what PerQFrame states. */
  lemma PerQFrameStep(fx: Setting, st: SymState, cell: Mat, fcq: seq<Mat>, rows: nat, cols: nat,
                      qs: seq<Vec>, asr: string, n: nat)
    requires 0 < n <= |qs| == |fcq|
    requires forall k :: 0 <= k < |qs| ==> |qs[k]| == 3
    requires var p := PerQ(fx, st, cell, fcq, rows, cols, qs, asr, n - 1);
      (forall k :: n - 1 <= k < |fcq| ==> p.fcq[k] == fcq[k]) &&
      (KnownMode(asr) && FitsBlocks(fx.natoms, rows, cols) && (asr == "custom" ==> CustomShape(rows, cols)) ==> p.out == Pass) &&
      (!KnownMode(asr) && n - 1 > 0 ==> p == Step(AfterSetup(fx, st, qs[0]), fcq, Fail(UnknownAsrMode))) &&
      (!FitsBlocks(fx.natoms, rows, cols) && n - 1 > 0 ==> p.out.Fail? && forall k :: 1 <= k < |fcq| ==> p.fcq[k] == fcq[k])
    ensures var r := PerQ(fx, st, cell, fcq, rows, cols, qs, asr, n);
      (forall k :: n <= k < |fcq| ==> r.fcq[k] == fcq[k]) &&
      (KnownMode(asr) && FitsBlocks(fx.natoms, rows, cols) && (asr == "custom" ==> CustomShape(rows, cols)) ==> r.out == Pass) &&
      (!KnownMode(asr) ==> r == Step(AfterSetup(fx, st, qs[0]), fcq, Fail(UnknownAsrMode))) &&
      (!FitsBlocks(fx.natoms, rows, cols) ==> r.out.Fail? && forall k :: 1 <= k < |fcq| ==> r.fcq[k] == fcq[k])
  {
    var p := PerQ(fx, st, cell, fcq, rows, cols, qs, asr, n - 1);
    if p.out.Pass? {
      PerQNext(fx, st, cell, fcq, rows, cols, qs, asr, n - 1);
      QStepFrame(fx, p.st, cell, p.fcq, rows, cols, qs, asr, n - 1);
      if KnownMode(asr) {
        SumRuleDispatch(fx, p.fcq[n - 1], rows, cols, asr, qs[n - 1]);
      }
    } else {
      PerQStoppedStep(fx, st, cell, fcq, rows, cols, qs, asr, n, p);
    }
  }

  /** Iteration iq of the per-q loop writes at most matrix iq; it raises
      exactly for an unknown mode (writing nothing), for a failing sum
      rule (keeping what the sum rule wrote into matrix iq), or for an
      array too small for the blocks (keeping what the sum rule wrote,
      since SymmetrizeDynQ raises before writing); on success matrix iq is
      the symmetrised one. */
  lemma QStepFrame(fx: Setting, st: SymState, cell: Mat, fcq: seq<Mat>, rows: nat, cols: nat,
                   qs: seq<Vec>, asr: string, iq: nat)
    requires iq < |fcq| == |qs| && |qs[iq]| == 3
    ensures var r := QStep(fx, st, cell, fcq, rows, cols, qs, asr, iq);
      (forall k :: 0 <= k < |fcq| && k != iq ==> r.fcq[k] == fcq[k]) &&
      (r.out.Pass? <==> KnownMode(asr) && FitsBlocks(fx.natoms, rows, cols) &&
                        Prepared(fx, fcq[iq], rows, cols, asr, AsrAt(asr, qs[iq]).value).out.Pass?) &&
      (!KnownMode(asr) ==> r == Step(AfterSetup(fx, st, qs[iq]), fcq, Fail(UnknownAsrMode))) &&
      (KnownMode(asr) && Prepared(fx, fcq[iq], rows, cols, asr, AsrAt(asr, qs[iq]).value).out.Fail? ==>
         var p := Prepared(fx, fcq[iq], rows, cols, asr, AsrAt(asr, qs[iq]).value);
         r == Step(AfterSetup(fx, st, qs[iq]), fcq[iq := p.fc], p.out)) &&
      (KnownMode(asr) && Prepared(fx, fcq[iq], rows, cols, asr, AsrAt(asr, qs[iq]).value).out.Pass? ==>
         var p := Prepared(fx, fcq[iq], rows, cols, asr, AsrAt(asr, qs[iq]).value);
         var st' := AfterSetup(fx, st, qs[iq]);
         if FitsBlocks(fx.natoms, rows, cols) then
           r == Step(st', fcq[iq := Overlay(p.fc, SymmetrizedDyn(fx, st', cell, p.fc, qs[iq]), 3 * fx.natoms, 3 * fx.natoms)], Pass)
         else r == Step(st', fcq[iq := p.fc], Fail(BadShape)))
  {
    if KnownMode(asr) {
      var st' := AfterSetup(fx, st, qs[iq]);
      var p := Prepared(fx, fcq[iq], rows, cols, asr, AsrAt(asr, qs[iq]).value);
      if p.out.Pass? {
        DynQOutcome(fx, st', cell, p.fc, rows, cols, qs[iq]);
      }
    }
  }

  /** Star slices are disjoint: writing star i's slice keeps every other
      slice. */
  lemma SplicePreserves(fcq: seq<Mat>, stars: seq<seq<Vec>>, i: nat, avg: seq<Mat>, j: nat)
    requires i < |stars| && j < |stars| && |fcq| == TotalSize(stars) && |avg| == |stars[i]|
    ensures Slice(Spliced(fcq, stars, i, avg), stars, j) == (if j == i then avg else Slice(fcq, stars, j))
  {
    if j == i {
      SpliceWrites(fcq, stars, i, avg);
    } else {
      SpliceKeeps(fcq, stars, i, avg, j);
    }
  }

  lemma SpliceWrites(fcq: seq<Mat>, stars: seq<seq<Vec>>, i: nat, avg: seq<Mat>)
    requires i < |stars| && |fcq| == TotalSize(stars) && |avg| == |stars[i]|
    ensures Slice(Spliced(fcq, stars, i, avg), stars, i) == avg
  {
    StarSlices(stars, i);
  }

  lemma SpliceKeeps(fcq: seq<Mat>, stars: seq<seq<Vec>>, i: nat, avg: seq<Mat>, j: nat)
    requires i < |stars| && j < |stars| && i != j && |fcq| == TotalSize(stars) && |avg| == |stars[i]|
    ensures Slice(Spliced(fcq, stars, i, avg), stars, j) == Slice(fcq, stars, j)
  {
    var f := Spliced(fcq, stars, i, avg);
    StarSlices(stars, i);
    StarSlices(stars, j);
    if i < j {
      OffsetsIncrease(stars, i, j);
    } else {
      OffsetsIncrease(stars, j, i);
    }
    var lo := Offset(stars, j);
    forall t | 0 <= t < |stars[j]| ensures Slice(f, stars, j)[t] == Slice(fcq, stars, j)[t] {
      assert Slice(f, stars, j)[t] == f[lo + t];
    }
  }

  /** Offsets grow with the star index. */
  lemma {:induction false} OffsetsIncrease(stars: seq<seq<Vec>>, i: nat, j: nat)
    requires i < j <= |stars|
    ensures Offset(stars, i + 1) <= Offset(stars, j)
    decreases j - i
  {
    StarSlices(stars, i);
    if i + 1 < j {
      OffsetsIncrease(stars, i + 1, j);
      StarSlices(stars, i + 1);
    }
  }

  /** Every entry past star i is untouched by writing it. */
  lemma PastSlices(fcq: seq<Mat>, stars: seq<seq<Vec>>, i: nat, avg: seq<Mat>, k: nat)
    requires i < |stars| && |fcq| == TotalSize(stars) && |avg| == |stars[i]|
    requires Offset(stars, i + 1) <= k < |fcq|
    ensures Spliced(fcq, stars, i, avg)[k] == fcq[k]
  {
    StarSlices(stars, i);
  }

  /** `now` agrees with `fcq` from star n on, and each of the first n
      stars holds the average of its slice of `fcq`. */
  predicate AveragedUpTo(lib: Symph, geo: Geometry, data: SymData, nat_: nat,
                         fcq: seq<Mat>, stars: seq<seq<Vec>>, n: nat, now: seq<Mat>)
    requires n <= |stars| && |fcq| == TotalSize(stars) && |now| == |fcq|
  {
    (forall k :: Offset(stars, n) <= k < |fcq| ==> now[k] == fcq[k]) &&
    (forall i :: 0 <= i < n ==> Average(lib, geo, data, Slice(fcq, stars, i), stars[i], nat_) == Ok(Slice(now, stars, i)))
  }

  /** Two lists that agree from star j on agree on star j's slice. */
  lemma SameTailSameSlice(a: seq<Mat>, b: seq<Mat>, stars: seq<seq<Vec>>, j: nat)
    requires j < |stars| && |a| == |b| == TotalSize(stars)
    requires forall k :: Offset(stars, j) <= k < |a| ==> a[k] == b[k]
    ensures Slice(a, stars, j) == Slice(b, stars, j)
  {
    StarSlices(stars, j);
    var lo := Offset(stars, j);
    forall t | 0 <= t < |stars[j]| ensures Slice(a, stars, j)[t] == Slice(b, stars, j)[t] {
      assert a[lo + t] == b[lo + t];
    }
  }

  /** One more star averaged. */
  lemma StarStepAverages(fx: Setting, st0: SymState, fcq0: seq<Mat>, stars: seq<seq<Vec>>, j: nat,
                         pst: SymState, pfcq: seq<Mat>)
    requires j < |stars| && |fcq0| == TotalSize(stars) && |pfcq| == |fcq0|
    requires AfterSetup(fx, pst, Gamma) == AfterSetup(fx, st0, Gamma)
    requires AveragedUpTo(fx.lib, fx.geo, Data(fx, AfterSetup(fx, st0, Gamma)), fx.natoms, fcq0, stars, j, pfcq)
    requires StarStep(fx, pst, pfcq, stars, j).out.Pass?
    ensures StarStep(fx, pst, pfcq, stars, j).st == AfterSetup(fx, st0, Gamma)
    ensures AveragedUpTo(fx.lib, fx.geo, Data(fx, AfterSetup(fx, st0, Gamma)), fx.natoms, fcq0, stars, j + 1,
                         StarStep(fx, pst, pfcq, stars, j).fcq)
  {
    var data := Data(fx, AfterSetup(fx, st0, Gamma));
    StarSlices(stars, j);
    SameTailSameSlice(pfcq, fcq0, stars, j);
    var avg := Average(fx.lib, fx.geo, data, Slice(pfcq, stars, j), stars[j], fx.natoms).value;
    var f := Spliced(pfcq, stars, j, avg);
    assert StarStep(fx, pst, pfcq, stars, j) == Step(AfterSetup(fx, st0, Gamma), f, Pass);
    forall i | 0 <= i < j + 1
      ensures Average(fx.lib, fx.geo, data, Slice(fcq0, stars, i), stars[i], fx.natoms) == Ok(Slice(f, stars, i))
    {
      SplicePreserves(pfcq, stars, j, avg, i);
    }
    forall k | Offset(stars, j + 1) <= k < |fcq0| ensures f[k] == fcq0[k] {
      PastSlices(pfcq, stars, j, avg, k);
    }
  }

  /** After n stars, each of them holds the star average (computed with
      the symmetries of Gamma) of its own original slice, the later
      entries are untouched, and the tables are those of Gamma. */
  lemma {:induction false} PerStarAverages(fx: Setting, st: SymState, fcq: seq<Mat>, stars: seq<seq<Vec>>, n: nat)
    requires n <= |stars| && |fcq| == TotalSize(stars)
    requires PerStar(fx, st, fcq, stars, n).out.Pass?
    ensures n > 0 ==> PerStar(fx, st, fcq, stars, n).st == AfterSetup(fx, st, Gamma)
    ensures AveragedUpTo(fx.lib, fx.geo, Data(fx, AfterSetup(fx, st, Gamma)), fx.natoms, fcq, stars, n,
                         PerStar(fx, st, fcq, stars, n).fcq)
  {
    if n == 0 {
      assert Offset(stars, 0) == 0;
    } else {
      var p := PerStar(fx, st, fcq, stars, n - 1);
      PerStarAverages(fx, st, fcq, stars, n - 1);
      if n - 1 > 0 {
        SetupQPointIdempotent(fx, st, Gamma);
      }
      StarStepAverages(fx, st, fcq, stars, n - 1, p.st, p.fcq);
    }
  }

  /** SymmetrizeFCQ raises BadShape, changing nothing, when a star member
      has neither 1 nor 3 components, and FcqLengthMismatch, changing
      nothing, when fcq does not hold one matrix per star member.  Past
      those checks, with at least one q point, an unknown mode raises
      before any matrix is written, and an array too small for the blocks
      raises after writing at most matrix 0.  When the whole call succeeds,
      every star's slice ends up as the average of that slice as the
      per-q loop left it, and every matrix the per-q loop left was
      3 nat x 3 nat. */
  lemma SymmetrizeFCQOutcome(fx: Setting, st: SymState, cell: Mat, fcq: seq<Mat>, rows: nat, cols: nat,
                             stars: seq<seq<Vec>>, asr: string)
    ensures QPoints(stars).Err? ==> Symmetrized(fx, st, cell, fcq, rows, cols, stars, asr) == Step(st, fcq, Fail(BadShape))
    ensures QPoints(stars).Ok? && |fcq| != TotalSize(stars) ==>
      Symmetrized(fx, st, cell, fcq, rows, cols, stars, asr) == Step(st, fcq, Fail(FcqLengthMismatch))
    ensures QPoints(stars).Ok? && |fcq| == TotalSize(stars) > 0 && !KnownMode(asr) ==>
      Symmetrized(fx, st, cell, fcq, rows, cols, stars, asr)
        == Step(AfterSetup(fx, st, QPoints(stars).value[0]), fcq, Fail(UnknownAsrMode))
    ensures QPoints(stars).Ok? && |fcq| == TotalSize(stars) > 0 && !FitsBlocks(fx.natoms, rows, cols) ==>
      var r := Symmetrized(fx, st, cell, fcq, rows, cols, stars, asr);
      r.out.Fail? && forall k :: 1 <= k < |fcq| ==> r.fcq[k] == fcq[k]
    ensures QPoints(stars).Ok? && |fcq| == TotalSize(stars) && Symmetrized(fx, st, cell, fcq, rows, cols, stars, asr).out.Pass? ==>
      var p := PerQ(fx, st, cell, fcq, rows, cols, QPoints(stars).value, asr, |fcq|);
      var r := Symmetrized(fx, st, cell, fcq, rows, cols, stars, asr);
      (forall i :: 0 <= i < |stars| ==>
         Average(fx.lib, fx.geo, Data(fx, AfterSetup(fx, p.st, Gamma)), Slice(p.fcq, stars, i), stars[i], fx.natoms)
           == Ok(Slice(r.fcq, stars, i))) &&
      forall i, t :: 0 <= i < |stars| && 0 <= t < |stars[i]| ==>
        IsMatrix(Slice(p.fcq, stars, i)[t], 3 * fx.natoms, 3 * fx.natoms)
  {
    if QPoints(stars).Ok? && |fcq| == TotalSize(stars) {
      var qs := QPoints(stars).value;
      PerQFrame(fx, st, cell, fcq, rows, cols, qs, asr, |qs|);
      var p := PerQ(fx, st, cell, fcq, rows, cols, qs, asr, |qs|);
      if p.out.Pass? && PerStar(fx, p.st, p.fcq, stars, |stars|).out.Pass? {
        PerStarAverages(fx, p.st, p.fcq, stars, |stars|);
        var data := Data(fx, AfterSetup(fx, p.st, Gamma));
        forall i | 0 <= i < |stars|
          ensures forall t :: 0 <= t < |stars[i]| ==> IsMatrix(Slice(p.fcq, stars, i)[t], 3 * fx.natoms, 3 * fx.natoms)
        {
          AverageOkIff(fx.lib, fx.geo, data, Slice(p.fcq, stars, i), stars[i], fx.natoms);
        }
      }
    }
  }

  lemma {:induction false} PerQStopped(fx: Setting, st: SymState, cell: Mat, fcq: seq<Mat>, rows: nat, cols: nat, qs: seq<Vec>, asr: string, m: nat, n: nat)
    requires m <= n <= |qs| == |fcq| && PerQ(fx, st, cell, fcq, rows, cols, qs, asr, m).out.Fail?
    ensures PerQ(fx, st, cell, fcq, rows, cols, qs, asr, n) == PerQ(fx, st, cell, fcq, rows, cols, qs, asr, m)
    decreases n - m
  {
    if m < n {
      PerQStoppedStep(fx, st, cell, fcq, rows, cols, qs, asr, m + 1, PerQ(fx, st, cell, fcq, rows, cols, qs, asr, m));
      PerQStopped(fx, st, cell, fcq, rows, cols, qs, asr, m + 1, n);
    }
  }

  /** Iteration n of the per-q loop, after n passes that did not raise. */
  lemma {:induction false} PerQNext(fx: Setting, st: SymState, cell: Mat, fcq: seq<Mat>, rows: nat, cols: nat, qs: seq<Vec>, asr: string, n: nat)
    requires n < |qs| == |fcq| && PerQ(fx, st, cell, fcq, rows, cols, qs, asr, n).out.Pass?
    ensures var p := PerQ(fx, st, cell, fcq, rows, cols, qs, asr, n);
      PerQ(fx, st, cell, fcq, rows, cols, qs, asr, n + 1) == QStep(fx, p.st, cell, p.fcq, rows, cols, qs, asr, n)
  {
  }

  /** Iteration iq run on the state the first iq iterations left is
      iteration iq + 1 of the loop, and, when it raises, the whole loop. */
  lemma QStepAdvances(fx: Setting, st0: SymState, cell: Mat, fcq0: seq<Mat>, rows: nat, cols: nat, qs: seq<Vec>, asr: string,
                      iq: nat, st: SymState, fcq: seq<Mat>)
    requires iq < |qs| == |fcq0| && Step(st, fcq, Pass) == PerQ(fx, st0, cell, fcq0, rows, cols, qs, asr, iq)
    ensures |fcq| == |fcq0|
    ensures QStep(fx, st, cell, fcq, rows, cols, qs, asr, iq) == PerQ(fx, st0, cell, fcq0, rows, cols, qs, asr, iq + 1)
    ensures QStep(fx, st, cell, fcq, rows, cols, qs, asr, iq).out.Fail? ==>
      QStep(fx, st, cell, fcq, rows, cols, qs, asr, iq) == PerQ(fx, st0, cell, fcq0, rows, cols, qs, asr, |qs|)
  {
    PerQNext(fx, st0, cell, fcq0, rows, cols, qs, asr, iq);
    var r := QStep(fx, st, cell, fcq, rows, cols, qs, asr, iq);
    if r.out.Fail? {
      PerQStopped(fx, st0, cell, fcq0, rows, cols, qs, asr, iq + 1, |qs|);
    }
  }

  lemma QStepContinues(fx: Setting, st0: SymState, cell: Mat, fcq0: seq<Mat>, rows: nat, cols: nat, qs: seq<Vec>, asr: string,
                       iq: nat, st: SymState, fcq: seq<Mat>)
    requires iq < |qs| == |fcq0| && PerQAt(fx, st0, cell, fcq0, rows, cols, qs, asr, iq, Step(st, fcq, Pass))
    ensures |fcq| == |fcq0|
    ensures PerQAt(fx, st0, cell, fcq0, rows, cols, qs, asr, iq + 1, QStep(fx, st, cell, fcq, rows, cols, qs, asr, iq))
    ensures QStep(fx, st, cell, fcq, rows, cols, qs, asr, iq).out.Fail? ==>
      PerQAt(fx, st0, cell, fcq0, rows, cols, qs, asr, |qs|, QStep(fx, st, cell, fcq, rows, cols, qs, asr, iq))
  {
    assert Step(st, fcq, Pass) == PerQ(fx, st0, cell, fcq0, rows, cols, qs, asr, iq);
    QStepAdvances(fx, st0, cell, fcq0, rows, cols, qs, asr, iq, st, fcq);
  }

  lemma PerQStoppedStep(fx: Setting, st: SymState, cell: Mat, fcq: seq<Mat>, rows: nat, cols: nat, qs: seq<Vec>, asr: string, n: nat,
                        stopped: Step)
    requires 0 < n <= |qs| == |fcq| && PerQ(fx, st, cell, fcq, rows, cols, qs, asr, n - 1) == stopped && stopped.out.Fail?
    ensures PerQ(fx, st, cell, fcq, rows, cols, qs, asr, n) == stopped
  {
  }

  lemma {:induction false} PerStarStopped(fx: Setting, st: SymState, fcq: seq<Mat>, stars: seq<seq<Vec>>, m: nat, n: nat)
    requires m <= n <= |stars| && |fcq| == TotalSize(stars) && PerStar(fx, st, fcq, stars, m).out.Fail?
    ensures PerStar(fx, st, fcq, stars, n) == PerStar(fx, st, fcq, stars, m)
    decreases n - m
  {
    if m < n {
      PerStarStoppedStep(fx, st, fcq, stars, m + 1, PerStar(fx, st, fcq, stars, m));
      PerStarStopped(fx, st, fcq, stars, m + 1, n);
    }
  }

  lemma PerStarStoppedStep(fx: Setting, st: SymState, fcq: seq<Mat>, stars: seq<seq<Vec>>, n: nat, stopped: Step)
    requires 0 < n <= |stars| && |fcq| == TotalSize(stars) && PerStar(fx, st, fcq, stars, n - 1) == stopped && stopped.out.Fail?
    ensures PerStar(fx, st, fcq, stars, n) == stopped
  {
  }
}
