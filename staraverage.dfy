/** The star average of ApplyQStar (symmetries.py:237-329).

    For every member i of a star of nq points the symmetry library
    rebuilds the matrix at every point of the star from fcq[i]; each
    supplied point q[xq] is then matched with the one library point
    within the tolerance, and the matched images are summed over i and
    divided by nq.
 */
module StarAverage {
  import opened Wrappers
  import opened Matrices
  import opened Numerics
  import opened Oracles

  /** The library star points yq < n within the tolerance of q, in
      increasing order (the `count` loop of symmetries.py:297-301). */
  function Matches(dist: (Mat, Vec, Vec) -> real, bgT: Mat, sxq: seq<Vec>, q: Vec, n: nat): (ms: seq<nat>)
    requires n <= |sxq|
    ensures |ms| <= n
  {
    if n == 0 then []
    else Matches(dist, bgT, sxq, q, n - 1) + (if dist(bgT, sxq[n - 1], q) < Epsilon then [n - 1] else [])
  }

  /** The matches are exactly the library points yq < n within the
      tolerance of q. */
  lemma {:induction false} MatchesExactly(dist: (Mat, Vec, Vec) -> real, bgT: Mat, sxq: seq<Vec>, q: Vec, n: nat)
    requires n <= |sxq|
    ensures forall k :: 0 <= k < |Matches(dist, bgT, sxq, q, n)| ==>
      Matches(dist, bgT, sxq, q, n)[k] < n && dist(bgT, sxq[Matches(dist, bgT, sxq, q, n)[k]], q) < Epsilon
    ensures forall yq :: 0 <= yq < n && dist(bgT, sxq[yq], q) < Epsilon ==> yq in Matches(dist, bgT, sxq, q, n)
  {
    if n > 0 {
      MatchesExactly(dist, bgT, sxq, q, n - 1);
    }
  }

  /** `sorting_q[xq]` for one supplied point: the library point it matches,
      and the `count != 1` error when it matches none or several. */
  function MatchOf(dist: (Mat, Vec, Vec) -> real, bgT: Mat, sxq: seq<Vec>, q: Vec): (r: Result<nat>)
    ensures r.Ok? ==> r.value < |sxq| && dist(bgT, sxq[r.value], q) < Epsilon
    ensures r.Ok? ==> forall yq :: 0 <= yq < |sxq| && dist(bgT, sxq[yq], q) < Epsilon ==> yq == r.value
    ensures r.Err? ==> r.error == StarMatchCount(|Matches(dist, bgT, sxq, q, |sxq|)|)
    ensures r.Ok? <==> |Matches(dist, bgT, sxq, q, |sxq|)| == 1
  {
    MatchesExactly(dist, bgT, sxq, q, |sxq|);
    var ms := Matches(dist, bgT, sxq, q, |sxq|);
    if |ms| == 1 then Ok(ms[0]) else Err(StarMatchCount(|ms|))
  }

  /** `sorting_q` for the first n supplied points; the first point without
      exactly one match raises. */
  function SortingOf(dist: (Mat, Vec, Vec) -> real, bgT: Mat, sxq: seq<Vec>, group: seq<Vec>, n: nat)
    : (r: Result<seq<nat>>)
    requires n <= |group|
    ensures r.Ok? ==> |r.value| == n
  {
    if n == 0 then Ok([])
    else match SortingOf(dist, bgT, sxq, group, n - 1)
      case Err(e) => Err(e)
      case Ok(prefix) =>
        match MatchOf(dist, bgT, sxq, group[n - 1])
        case Err(e) => Err(e)
        case Ok(k) => Ok(prefix + [k])
  }

  /** `sorting_q` is there exactly when every supplied point has exactly
      one match, and then it holds that match for every point. */
  lemma {:induction false} SortingMatches(dist: (Mat, Vec, Vec) -> real, bgT: Mat, sxq: seq<Vec>, group: seq<Vec>, n: nat)
    requires n <= |group|
    ensures SortingOf(dist, bgT, sxq, group, n).Ok? <==> forall xq :: 0 <= xq < n ==> MatchOf(dist, bgT, sxq, group[xq]).Ok?
    ensures SortingOf(dist, bgT, sxq, group, n).Ok? ==>
      forall xq :: 0 <= xq < n ==> MatchOf(dist, bgT, sxq, group[xq]) == Ok(SortingOf(dist, bgT, sxq, group, n).value[xq])
  {
    if n > 0 {
      SortingMatches(dist, bgT, sxq, group, n - 1);
      var prev := SortingOf(dist, bgT, sxq, group, n - 1);
      var last := MatchOf(dist, bgT, sxq, group[n - 1]);
      var r := SortingOf(dist, bgT, sxq, group, n);
      if prev.Ok? && last.Ok? {
        assert r == Ok(prev.value + [last.value]);
        forall xq | 0 <= xq < n
          ensures MatchOf(dist, bgT, sxq, group[xq]) == Ok(r.value[xq])
        {
          if xq < n - 1 {
            assert r.value[xq] == prev.value[xq];
          }
        }
      } else if prev.Ok? {
        assert r == Err(last.error);
      } else {
        assert r == Err(prev.error);
        var xq :| 0 <= xq < n - 1 && !MatchOf(dist, bgT, sxq, group[xq]).Ok?;
      }
    }
  }

  /** The star `star_q` computes for member i. */
  function StarOf(lib: Symph, data: SymData, group: seq<Vec>, i: nat): StarOfQ
    requires i < |group|
  {
    lib.starQ(group[i], data.at, data.bg, data.nsymq, data.s, data.invs)
  }

  /** Whether all the indices of `sorting` address an image. */
  predicate Addressable(images: seq<BlockGrid>, sorting: seq<nat>)
  {
    forall xq :: 0 <= xq < |sorting| ==> sorting[xq] < |images|
  }

  /** The matched images in the Cartesian layout, once the star size and
      the matches have been checked. */
  function MatchedImages(images: seq<BlockGrid>, sorting: Result<seq<nat>>, nq: nat, nat_: nat): (r: Result<seq<Mat>>)
    requires sorting.Ok? ==> |sorting.value| == nq
    ensures r.Ok? ==> |r.value| == nq && forall xq :: 0 <= xq < nq ==> IsMatrix(r.value[xq], 3 * nat_, 3 * nat_)
  {
    match sorting
    case Err(e) => Err(e)
    case Ok(sq) =>
      if Addressable(images, sq) then Ok(seq(nq, xq requires 0 <= xq < nq => FromBlocks(images[sq[xq]], nat_)))
      else Err(IndexError)
  }

  /** What member i adds to every final_fc[xq]: the library image matched
      with q[xq], in the Cartesian layout (symmetries.py:324-327).  A
      matrix that is not 3 nat x 3 nat does not fit `new_dyn` (or, once
      broadcast there, the blocks of `final_fc`), and numpy raises. */
  function MemberTerm(lib: Symph, geo: Geometry, data: SymData, fcq: seq<Mat>, group: seq<Vec>, nat_: nat, i: nat)
    : (r: Result<seq<Mat>>)
    requires i < |group| == |fcq|
    ensures r.Ok? ==> |r.value| == |group| && forall xq :: 0 <= xq < |group| ==> IsMatrix(r.value[xq], 3 * nat_, 3 * nat_)
  {
    var star := StarOf(lib, data, group, i);
    if |star.sxq| != |group| then Err(StarSizeMismatch)
    else if !IsMatrix(fcq[i], 3 * nat_, 3 * nat_) then Err(BadShape)
    else MatchedImages(lib.q2qstar(fcq[i], data, star),
                       SortingOf(geo.minDist, Transpose(data.bg, 3, 3), star.sxq, group, |group|), |group|, nat_)
  }

  /** A list of member terms, each of which (when there) holds nq matrices. */
  predicate Sized(ts: seq<Result<seq<Mat>>>, nq: nat)
  {
    forall i :: 0 <= i < |ts| && ts[i].Ok? ==> |ts[i].value| == nq
  }

  /** The terms of all the members of the star, in member order. */
  function Terms(lib: Symph, geo: Geometry, data: SymData, fcq: seq<Mat>, group: seq<Vec>, nat_: nat)
    : (ts: seq<Result<seq<Mat>>>)
    requires |group| == |fcq|
    ensures |ts| == |group| && Sized(ts, |group|)
  {
    seq(|group|, i requires 0 <= i < |group| => MemberTerm(lib, geo, data, fcq, group, nat_, i))
  }

  /** final_fc after the members 0 .. n-1 have been added; the first
      member that raises decides the error. */
  function Accumulated(ts: seq<Result<seq<Mat>>>, nq: nat, nat_: nat, n: nat): (r: Result<seq<Mat>>)
    requires n <= |ts| && Sized(ts, nq)
    ensures r.Ok? ==> |r.value| == nq && forall xq :: 0 <= xq < nq ==> IsMatrix(r.value[xq], 3 * nat_, 3 * nat_)
  {
    if n == 0 then Ok(seq(nq, xq => Zeros(3 * nat_, 3 * nat_)))
    else match Accumulated(ts, nq, nat_, n - 1)
      case Err(e) => Err(e)
      case Ok(acc) =>
        match ts[n - 1]
        case Err(e) => Err(e)
        case Ok(t) => Ok(seq(nq, xq requires 0 <= xq < nq => MatAdd(acc[xq], t[xq], 3 * nat_, 3 * nat_)))
  }

  /** 1 / nq, and 0 for an empty star (where there is nothing to scale). */
  function InvCount(n: nat): real
  {
    if n == 0 then 0.0 else 1.0 / n as real
  }

  /** final_fc divided by the number of points. */
  function Scaled(acc: Result<seq<Mat>>, nq: nat, nat_: nat): (r: Result<seq<Mat>>)
    requires acc.Ok? ==> |acc.value| == nq
    ensures r.Ok? <==> acc.Ok?
    ensures r.Ok? ==> |r.value| == nq
  {
    match acc
    case Err(e) => Err(e)
    case Ok(a) => Ok(seq(nq, xq requires 0 <= xq < nq => MatScale(a[xq], InvCount(nq), 3 * nat_, 3 * nat_)))
  }

  /** What ApplyQStar writes into the nq matrices of the star, or the error
      it raises (in which case it writes nothing). */
  function Average(lib: Symph, geo: Geometry, data: SymData, fcq: seq<Mat>, group: seq<Vec>, nat_: nat)
    : (r: Result<seq<Mat>>)
    requires |group| == |fcq|
    ensures r.Ok? ==> |r.value| == |group|
  {
    var ts := Terms(lib, geo, data, fcq, group, nat_);
    Scaled(Accumulated(ts, |group|, nat_, |group|), |group|, nat_)
  }

  // ---------------------------------------------------------------------
  // Properties

  /** final_fc is there after n members exactly when none of them raised. */
  lemma {:induction false} AccumulatedOkIff(ts: seq<Result<seq<Mat>>>, nq: nat, nat_: nat, n: nat)
    requires n <= |ts| && Sized(ts, nq)
    ensures Accumulated(ts, nq, nat_, n).Ok? <==> forall i :: 0 <= i < n ==> ts[i].Ok?
  {
    if n > 0 {
      AccumulatedOkIff(ts, nq, nat_, n - 1);
    }
  }

  /** The average succeeds exactly when every member passes its checks,
      and then every matrix of the star was 3 nat x 3 nat. */
  lemma AverageOkIff(lib: Symph, geo: Geometry, data: SymData, fcq: seq<Mat>, group: seq<Vec>, nat_: nat)
    requires |group| == |fcq|
    ensures Average(lib, geo, data, fcq, group, nat_).Ok? <==>
      forall i :: 0 <= i < |group| ==> MemberTerm(lib, geo, data, fcq, group, nat_, i).Ok?
    ensures Average(lib, geo, data, fcq, group, nat_).Ok? ==>
      forall i :: 0 <= i < |fcq| ==> IsMatrix(fcq[i], 3 * nat_, 3 * nat_)
  {
    var ts := Terms(lib, geo, data, fcq, group, nat_);
    AccumulatedOkIff(ts, |group|, nat_, |group|);
    assert forall i :: 0 <= i < |group| ==> ts[i] == MemberTerm(lib, geo, data, fcq, group, nat_, i);
    if Average(lib, geo, data, fcq, group, nat_).Ok? {
      forall i | 0 <= i < |fcq| ensures IsMatrix(fcq[i], 3 * nat_, 3 * nat_) {
        MemberTermShape(lib, geo, data, fcq, group, nat_, i);
      }
    }
  }

  /** A member that passes has a 3 nat x 3 nat matrix. */
  lemma MemberTermShape(lib: Symph, geo: Geometry, data: SymData, fcq: seq<Mat>, group: seq<Vec>, nat_: nat, i: nat)
    requires i < |group| == |fcq| && MemberTerm(lib, geo, data, fcq, group, nat_, i).Ok?
    ensures IsMatrix(fcq[i], 3 * nat_, 3 * nat_)
  {
  }

  /** A member passes its checks exactly when its star has nq points,
      its matrix is 3 nat x 3 nat, every supplied point has exactly one
      match in the star, and the library returned an image for every
      match. */
  lemma MemberTermOkIff(lib: Symph, geo: Geometry, data: SymData, fcq: seq<Mat>, group: seq<Vec>, nat_: nat, i: nat)
    requires i < |group| == |fcq|
    ensures var star := StarOf(lib, data, group, i);
      var sorting := SortingOf(geo.minDist, Transpose(data.bg, 3, 3), star.sxq, group, |group|);
      MemberTerm(lib, geo, data, fcq, group, nat_, i).Ok? <==>
        |star.sxq| == |group| && IsMatrix(fcq[i], 3 * nat_, 3 * nat_) &&
        (forall xq :: 0 <= xq < |group| ==> MatchOf(geo.minDist, Transpose(data.bg, 3, 3), star.sxq, group[xq]).Ok?) &&
        sorting.Ok? && Addressable(lib.q2qstar(fcq[i], data, star), sorting.value)
  {
    var star := StarOf(lib, data, group, i);
    SortingMatches(geo.minDist, Transpose(data.bg, 3, 3), star.sxq, group, |group|);
  }

  lemma AddOneMore(m: Mat, rows: nat, cols: nat, k: nat)
    requires IsMatrix(m, rows, cols)
    ensures MatAdd(MatScale(m, k as real, rows, cols), m, rows, cols) == MatScale(m, (k + 1) as real, rows, cols)
  {
    var a, b := MatAdd(MatScale(m, k as real, rows, cols), m, rows, cols), MatScale(m, (k + 1) as real, rows, cols);
    forall i | 0 <= i < rows ensures a[i] == b[i] {
      forall j | 0 <= j < cols ensures a[i][j] == b[i][j] {
        assert a[i][j] == k as real * m[i][j] + m[i][j];
      }
    }
  }

  lemma ZerosAreNoneOf(m: Mat, rows: nat, cols: nat)
    requires IsMatrix(m, rows, cols)
    ensures Zeros(rows, cols) == MatScale(m, 0.0, rows, cols)
  {
    var a, b := Zeros(rows, cols), MatScale(m, 0.0, rows, cols);
    assert forall i :: 0 <= i < rows ==> a[i] == b[i];
  }

  /** n copies of the star's matrices. */
  function Copies(fcq: seq<Mat>, nat_: nat, n: nat): seq<Mat>
  {
    seq(|fcq|, xq requires 0 <= xq < |fcq| => MatScale(fcq[xq], n as real, 3 * nat_, 3 * nat_))
  }

  /** When the first n members all give back the star's own matrices,
      final_fc holds n times those matrices. */
  lemma {:induction false} AccumulatedConsistent(ts: seq<Result<seq<Mat>>>, fcq: seq<Mat>, nat_: nat, n: nat)
    requires n <= |ts| && Sized(ts, |fcq|)
    requires forall xq :: 0 <= xq < |fcq| ==> IsMatrix(fcq[xq], 3 * nat_, 3 * nat_)
    requires forall i :: 0 <= i < n ==> ts[i] == Ok(fcq)
    ensures Accumulated(ts, |fcq|, nat_, n) == Ok(Copies(fcq, nat_, n))
  {
    var want := Copies(fcq, nat_, n);
    var got := Accumulated(ts, |fcq|, nat_, n);
    if n == 0 {
      forall xq | 0 <= xq < |fcq| ensures got.value[xq] == want[xq] {
        ZerosAreNoneOf(fcq[xq], 3 * nat_, 3 * nat_);
      }
      assert got.value == want;
    } else {
      AccumulatedConsistent(ts, fcq, nat_, n - 1);
      assert ts[n - 1] == Ok(fcq);
      assert got == Ok(seq(|fcq|, xq requires 0 <= xq < |fcq| =>
        MatAdd(Copies(fcq, nat_, n - 1)[xq], fcq[xq], 3 * nat_, 3 * nat_)));
      forall xq | 0 <= xq < |fcq| ensures got.value[xq] == want[xq] {
        assert Copies(fcq, nat_, n - 1)[xq] == MatScale(fcq[xq], (n - 1) as real, 3 * nat_, 3 * nat_);
        AddOneMore(fcq[xq], 3 * nat_, 3 * nat_, n - 1);
      }
      assert got.value == want;
    }
  }

  lemma ScaleBack(m: Mat, rows: nat, cols: nat, n: nat)
    requires IsMatrix(m, rows, cols) && n > 0
    ensures MatScale(MatScale(m, n as real, rows, cols), InvCount(n), rows, cols) == m
  {
    var a := MatScale(MatScale(m, n as real, rows, cols), InvCount(n), rows, cols);
    forall i | 0 <= i < rows ensures a[i] == m[i] {
      forall j | 0 <= j < cols ensures a[i][j] == m[i][j] {
        InverseTimes(n, m[i][j]);
      }
    }
  }

  lemma InverseTimes(n: nat, x: real)
    requires n > 0
    ensures InvCount(n) * (n as real * x) == x
  {
    DivMul(n as real, InvCount(n), x);
  }

  lemma DivMul(r: real, c: real, x: real)
    requires r > 0.0 && c == 1.0 / r
    ensures c * (r * x) == x
  {
    assert c * r == 1.0;
    assert c * (r * x) == (c * r) * x;
  }

  /** A member is consistent with the star when, for every supplied point,
      the image the library builds from it is the matrix already held
      at that point. */
  predicate Consistent(lib: Symph, geo: Geometry, data: SymData, fcq: seq<Mat>, group: seq<Vec>, nat_: nat, i: nat)
    requires i < |group| == |fcq|
  {
    MemberTerm(lib, geo, data, fcq, group, nat_, i) == Ok(fcq)
  }

  /** Averaging a star whose matrices every member already reproduces
      leaves them unchanged: the average is a projection. */
  lemma AverageKeepsConsistentStars(lib: Symph, geo: Geometry, data: SymData, fcq: seq<Mat>, group: seq<Vec>, nat_: nat)
    requires |group| == |fcq|
    requires forall xq :: 0 <= xq < |fcq| ==> IsMatrix(fcq[xq], 3 * nat_, 3 * nat_)
    requires forall i :: 0 <= i < |group| ==> Consistent(lib, geo, data, fcq, group, nat_, i)
    ensures Average(lib, geo, data, fcq, group, nat_) == Ok(fcq)
  {
    var ts := Terms(lib, geo, data, fcq, group, nat_);
    forall i | 0 <= i < |group| ensures ts[i] == Ok(fcq) {
      assert Consistent(lib, geo, data, fcq, group, nat_, i);
    }
    AccumulatedConsistent(ts, fcq, nat_, |group|);
    var acc := Accumulated(ts, |group|, nat_, |group|);
    assert Average(lib, geo, data, fcq, group, nat_) == Scaled(acc, |group|, nat_);
    var got := Scaled(acc, |group|, nat_).value;
    forall xq | 0 <= xq < |group| ensures got[xq] == fcq[xq] {
      assert acc.value[xq] == MatScale(fcq[xq], |group| as real, 3 * nat_, 3 * nat_);
      ScaleBack(fcq[xq], 3 * nat_, 3 * nat_, |group|);
    }
    assert got == fcq;
  }

  /** A member whose star has the wrong size makes the average fail,
      whatever the other members give. */
  lemma WrongStarSizeFails(lib: Symph, geo: Geometry, data: SymData, fcq: seq<Mat>, group: seq<Vec>, nat_: nat, i: nat)
    requires i < |group| == |fcq|
    requires |StarOf(lib, data, group, i).sxq| != |group|
    ensures Average(lib, geo, data, fcq, group, nat_).Err?
  {
    AverageOkIff(lib, geo, data, fcq, group, nat_);
    assert MemberTerm(lib, geo, data, fcq, group, nat_, i) == Err(StarSizeMismatch);
  }

  /** The `count` loop for one supplied point q (symmetries.py:293-297):
      how many library points match q, and the last of them; `found`
      keeps `start` when none does. */
  method CountMatches(dist: (Mat, Vec, Vec) -> real, bgT: Mat, sxq: seq<Vec>, q: Vec, start: nat)
    returns (count: nat, found: nat)
    ensures count == |Matches(dist, bgT, sxq, q, |sxq|)|
    ensures MatchOf(dist, bgT, sxq, q) == if count == 1 then Ok(found) else Err(StarMatchCount(count))
  {
    count, found := 0, start;
    for yq := 0 to |sxq|
      invariant count == |Matches(dist, bgT, sxq, q, yq)|
      invariant count > 0 ==> found == Matches(dist, bgT, sxq, q, yq)[count - 1]
    {
      MatchesNext(dist, bgT, sxq, q, yq);
      if dist(bgT, sxq[yq], q) < Epsilon {
        found := yq;
        count := count + 1;
      }
    }
  }

  /** One more library point: it is appended when it matches q. */
  lemma MatchesNext(dist: (Mat, Vec, Vec) -> real, bgT: Mat, sxq: seq<Vec>, q: Vec, n: nat)
    requires n < |sxq|
    ensures var ms := Matches(dist, bgT, sxq, q, n);
      Matches(dist, bgT, sxq, q, n + 1) == if dist(bgT, sxq[n], q) < Epsilon then ms + [n] else ms
  {
  }

  /** `sorting_q` as the count loops of ApplyQStar build it
      (symmetries.py:291-312): each supplied point keeps the last matching
      star point, and a count other than one raises. */
  method SortStar(dist: (Mat, Vec, Vec) -> real, bgT: Mat, sxq: seq<Vec>, group: seq<Vec>) returns (r: Result<seq<nat>>)
    ensures r == SortingOf(dist, bgT, sxq, group, |group|)
  {
    var sorting: seq<nat> := [];
    for xq := 0 to |group|
      invariant SortingOf(dist, bgT, sxq, group, xq) == Ok(sorting)
    {
      var count, found := CountMatches(dist, bgT, sxq, group[xq], xq);
      SortingStep(dist, bgT, sxq, group, xq + 1);
      if count != 1 {
        SortingStopped(dist, bgT, sxq, group, xq + 1, |group|);
        return Err(StarMatchCount(count));
      }
      sorting := sorting + [found];
    }
    r := Ok(sorting);
  }

  /** One more supplied point: its match is appended, or its error ends
      the sorting. */
  lemma {:induction false} SortingStep(dist: (Mat, Vec, Vec) -> real, bgT: Mat, sxq: seq<Vec>, group: seq<Vec>, n: nat)
    requires 0 < n <= |group| && SortingOf(dist, bgT, sxq, group, n - 1).Ok?
    ensures var m := MatchOf(dist, bgT, sxq, group[n - 1]);
      SortingOf(dist, bgT, sxq, group, n) ==
        if m.Err? then Err(m.error) else Ok(SortingOf(dist, bgT, sxq, group, n - 1).value + [m.value])
  {
  }

  lemma {:induction false} SortingStopped(dist: (Mat, Vec, Vec) -> real, bgT: Mat, sxq: seq<Vec>, group: seq<Vec>, m: nat, n: nat)
    requires m <= n <= |group| && SortingOf(dist, bgT, sxq, group, m).Err?
    ensures SortingOf(dist, bgT, sxq, group, n) == Err(SortingOf(dist, bgT, sxq, group, m).error)
    decreases n - m
  {
    if n > m {
      SortingStopped(dist, bgT, sxq, group, m, n - 1);
      SortingStoppedStep(dist, bgT, sxq, group, n);
    }
  }

  lemma SortingStoppedStep(dist: (Mat, Vec, Vec) -> real, bgT: Mat, sxq: seq<Vec>, group: seq<Vec>, n: nat)
    requires 0 < n <= |group| && SortingOf(dist, bgT, sxq, group, n - 1).Err?
    ensures SortingOf(dist, bgT, sxq, group, n) == Err(SortingOf(dist, bgT, sxq, group, n - 1).error)
  {
  }

  lemma {:induction false} AccumulatedStopped(ts: seq<Result<seq<Mat>>>, nq: nat, nat_: nat, m: nat, n: nat)
    requires m <= n <= |ts| && Sized(ts, nq) && Accumulated(ts, nq, nat_, m).Err?
    ensures Accumulated(ts, nq, nat_, n) == Accumulated(ts, nq, nat_, m)
    decreases n - m
  {
    if n > m {
      AccumulatedStopped(ts, nq, nat_, m, n - 1);
    }
  }
}
