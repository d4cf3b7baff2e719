/** The q-point grid of a supercell and the check that a list of q
    points covers it (`GetQGrid` and `CheckSupercellQ`,
    symmetries.py:998-1096).

    The grid points are n_s . bg_s for n_s = (ix, iy, iz) in
    [0, s0) x [0, s1) x [0, s2), enumerated with iz fastest, where bg_s
    are the reciprocal vectors of the supercell, each folded into the
    reciprocal cell of the unit cell.  `Methods.get_reciprocal_vectors`,
    `Methods.put_into_cell` and `Methods.get_min_dist_into_cell` are the
    `Geometry` oracles.
 */
module QGrid {
  import opened Wrappers
  import opened Matrices
  import opened Numerics
  import opened Oracles

  /** `range(n)` is empty for n <= 0. */
  function Count(n: int): nat
  {
    if n < 0 then 0 else n
  }

  /** `np.tile(supercell_size, (3, 1)).transpose() * unit_cell`: row i of
      the unit cell scaled by supercell_size[i]. */
  function Supercell(cell: Mat, size: seq<int>): (m: Mat)
    requires |size| == 3
    ensures IsMatrix(m, 3, 3)
    ensures forall i, j :: 0 <= i < 3 && 0 <= j < 3 ==> m[i][j] == size[i] as real * At(cell, i, j)
  {
    seq(3, i requires 0 <= i < 3 => seq(3, j => size[i] as real * At(cell, i, j)))
  }

  /** `n_s.dot(bg_s)` for n_s = (ix, iy, iz). */
  function Combination(bgs: Mat, ix: int, iy: int, iz: int): (v: Vec)
    ensures |v| == 3
  {
    seq(3, j => ix as real * At(bgs, 0, j) + iy as real * At(bgs, 1, j) + iz as real * At(bgs, 2, j))
  }

  /** The grid point (ix, iy, iz), folded into the cell of `bg`. */
  function Candidate(geo: Geometry, cell: Mat, size: seq<int>, ix: int, iy: int, iz: int): Vec
    requires |size| == 3
  {
    var bg := geo.reciprocal(cell);
    var bgs := geo.reciprocal(Supercell(cell, size));
    geo.putIntoCell(bg, Combination(bgs, ix, iy, iz))
  }

  /** The first n points of the innermost loop, for fixed ix and iy. */
  function ZList(geo: Geometry, cell: Mat, size: seq<int>, ix: int, iy: int, n: nat): (qs: seq<Vec>)
    requires |size| == 3
    ensures |qs| == n
  {
    if n == 0 then [] else ZList(geo, cell, size, ix, iy, n - 1) + [Candidate(geo, cell, size, ix, iy, n - 1)]
  }

  /** The points of the first n middle iterations, for fixed ix. */
  function YList(geo: Geometry, cell: Mat, size: seq<int>, ix: int, n: nat): (qs: seq<Vec>)
    requires |size| == 3
  {
    if n == 0 then [] else YList(geo, cell, size, ix, n - 1) + ZList(geo, cell, size, ix, n - 1, Count(size[2]))
  }

  /** The points of the first n outer iterations. */
  function XList(geo: Geometry, cell: Mat, size: seq<int>, n: nat): (qs: seq<Vec>)
    requires |size| == 3
  {
    if n == 0 then [] else XList(geo, cell, size, n - 1) + YList(geo, cell, size, n - 1, Count(size[1]))
  }

  /** Every grid point, in the order the three loops visit them. */
  function Candidates(geo: Geometry, cell: Mat, size: seq<int>): seq<Vec>
    requires |size| == 3
  {
    XList(geo, cell, size, Count(size[0]))
  }

  /** q lies within `__EPSILON__` of an earlier point of the list. */
  predicate Duplicate(geo: Geometry, bg: Mat, q: Vec, list: seq<Vec>)
  {
    exists k :: 0 <= k < |list| && geo.minDist(bg, q, list[k]) < Epsilon
  }

  /** No point lies within `__EPSILON__` of an earlier one. */
  predicate Separated(geo: Geometry, bg: Mat, qs: seq<Vec>)
  {
    forall i, j :: 0 <= i < j < |qs| ==> geo.minDist(bg, qs[j], qs[i]) >= Epsilon
  }

  /** What `GetQGrid(unit_cell, supercell_size)` returns or raises. */
  function QGridOf(geo: Geometry, cell: Mat, size: seq<int>): Result<seq<Vec>>
    requires |size| == 3
  {
    var qs := Candidates(geo, cell, size);
    if Separated(geo, geo.reciprocal(cell), qs) then Ok(qs) else Err(QPointFoundTwice)
  }

  /** The scan `for q in q_list: if ... < __EPSILON__: raise`. */
  method FindDuplicate(geo: Geometry, bg: Mat, q: Vec, list: seq<Vec>) returns (found: bool)
    ensures found <==> Duplicate(geo, bg, q, list)
  {
    for k := 0 to |list|
      invariant forall l :: 0 <= l < k ==> geo.minDist(bg, q, list[l]) >= Epsilon
    {
      if geo.minDist(bg, q, list[k]) < Epsilon {
        return true;
      }
    }
    return false;
  }

  /** The points visited before (ix, iy, 0): what `q_list` holds when
      the innermost loop starts. */
  function Before(geo: Geometry, cell: Mat, size: seq<int>, ix: nat, iy: nat): seq<Vec>
    requires |size| == 3
  {
    XList(geo, cell, size, ix) + YList(geo, cell, size, ix, iy)
  }

  /** symmetries.py:1032-1048: three nested loops append each grid point
      to `q_list` unless it repeats an earlier one. */
  method GetQGrid(geo: Geometry, cell: Mat, size: seq<int>) returns (r: Result<seq<Vec>>)
    requires |size| == 3
    ensures r == QGridOf(geo, cell, size)
  {
    var qList: seq<Vec> := [];
    for ix := 0 to Count(size[0])
      invariant qList == XList(geo, cell, size, ix)
      invariant Separated(geo, geo.reciprocal(cell), qList)
    {
      var plane := GridPlane(geo, cell, size, ix, qList);
      if plane.Err? {
        return plane;
      }
      qList := plane.value;
    }
    r := Ok(qList);
  }

  /** The middle loop, over iy, for one ix. */
  method GridPlane(geo: Geometry, cell: Mat, size: seq<int>, ix: nat, qList: seq<Vec>) returns (r: Result<seq<Vec>>)
    requires |size| == 3 && ix < Count(size[0])
    requires qList == XList(geo, cell, size, ix) && Separated(geo, geo.reciprocal(cell), qList)
    ensures r.Ok? ==> r.value == XList(geo, cell, size, ix + 1) && Separated(geo, geo.reciprocal(cell), r.value)
    ensures r.Err? ==> r == QGridOf(geo, cell, size)
  {
    var list := qList;
    for iy := 0 to Count(size[1])
      invariant list == Before(geo, cell, size, ix, iy)
      invariant Separated(geo, geo.reciprocal(cell), list)
    {
      var row := GridRow(geo, cell, size, ix, iy, list);
      if row.Err? {
        return row;
      }
      list := row.value;
    }
    r := Ok(list);
  }

  /** The innermost loop, over iz, for one (ix, iy). */
  method GridRow(geo: Geometry, cell: Mat, size: seq<int>, ix: nat, iy: nat, qList: seq<Vec>) returns (r: Result<seq<Vec>>)
    requires |size| == 3 && ix < Count(size[0]) && iy < Count(size[1])
    requires qList == Before(geo, cell, size, ix, iy) && Separated(geo, geo.reciprocal(cell), qList)
    ensures r.Ok? ==> r.value == Before(geo, cell, size, ix, iy + 1) && Separated(geo, geo.reciprocal(cell), r.value)
    ensures r.Err? ==> r == QGridOf(geo, cell, size)
  {
    var bg := geo.reciprocal(cell);
    var list := qList;
    for iz := 0 to Count(size[2])
      invariant list == qList + ZList(geo, cell, size, ix, iy, iz)
      invariant Separated(geo, bg, list)
    {
      var q := Candidate(geo, cell, size, ix, iy, iz);
      var dup := FindDuplicate(geo, bg, q, list);
      if dup {
        CandidatePrefix(geo, cell, size, ix, iy, iz);
        DuplicateBreaksSeparation(geo, bg, list, q, Candidates(geo, cell, size));
        return Err(QPointFoundTwice);
      }
      AppendSeparated(geo, bg, list, q);
      list := list + [q];
    }
    r := Ok(list);
  }

  /** Appending a point that repeats nothing keeps a list separated. */
  lemma AppendSeparated(geo: Geometry, bg: Mat, qs: seq<Vec>, q: Vec)
    requires Separated(geo, bg, qs) && !Duplicate(geo, bg, q, qs)
    ensures Separated(geo, bg, qs + [q])
  {
    var s := qs + [q];
    forall i, j | 0 <= i < j < |s| ensures geo.minDist(bg, s[j], s[i]) >= Epsilon {
      if j == |qs| {
        assert s[i] == qs[i];
      } else {
        assert s[i] == qs[i] && s[j] == qs[j];
      }
    }
  }

  /** A repeated point in a prefix means the whole list is not separated. */
  lemma DuplicateBreaksSeparation(geo: Geometry, bg: Mat, qs: seq<Vec>, q: Vec, all: seq<Vec>)
    requires Duplicate(geo, bg, q, qs) && qs + [q] <= all
    ensures !Separated(geo, bg, all)
  {
    var k :| 0 <= k < |qs| && geo.minDist(bg, q, qs[k]) < Epsilon;
    assert all[k] == qs[k] && all[|qs|] == q;
  }

  lemma {:induction false} ZListPrefix(geo: Geometry, cell: Mat, size: seq<int>, ix: int, iy: int, m: nat, n: nat)
    requires |size| == 3 && m <= n
    ensures ZList(geo, cell, size, ix, iy, m) <= ZList(geo, cell, size, ix, iy, n)
    decreases n
  {
    if m < n {
      ZListPrefix(geo, cell, size, ix, iy, m, n - 1);
    }
  }

  lemma {:induction false} YListPrefix(geo: Geometry, cell: Mat, size: seq<int>, ix: int, m: nat, n: nat)
    requires |size| == 3 && m <= n
    ensures YList(geo, cell, size, ix, m) <= YList(geo, cell, size, ix, n)
    decreases n
  {
    if m < n {
      YListPrefix(geo, cell, size, ix, m, n - 1);
    }
  }

  lemma {:induction false} XListPrefix(geo: Geometry, cell: Mat, size: seq<int>, m: nat, n: nat)
    requires |size| == 3 && m <= n
    ensures XList(geo, cell, size, m) <= XList(geo, cell, size, n)
    decreases n
  {
    if m < n {
      XListPrefix(geo, cell, size, m, n - 1);
    }
  }

  lemma PrefixCat(a: seq<Vec>, b: seq<Vec>, c: seq<Vec>)
    requires b <= c
    ensures a + b <= a + c
  {
    assert (a + c)[..|a + b|] == a + b;
  }

  lemma PrefixTrans(a: seq<Vec>, b: seq<Vec>, c: seq<Vec>)
    requires a <= b && b <= c
    ensures a <= c
  {
    assert c[..|a|] == b[..|a|];
  }

  lemma SeqAssoc(a: seq<Vec>, b: seq<Vec>, c: seq<Vec>, d: seq<Vec>)
    ensures a + b + c + d == a + (b + (c + d))
  {
  }

  /** The points visited up to and including (ix, iy, iz) form a prefix of
      the whole enumeration. */
  lemma CandidatePrefix(geo: Geometry, cell: Mat, size: seq<int>, ix: nat, iy: nat, iz: nat)
    requires |size| == 3 && ix < Count(size[0]) && iy < Count(size[1]) && iz < Count(size[2])
    ensures Before(geo, cell, size, ix, iy) + ZList(geo, cell, size, ix, iy, iz)
      + [Candidate(geo, cell, size, ix, iy, iz)] <= Candidates(geo, cell, size)
  {
    var xs, ys := XList(geo, cell, size, ix), YList(geo, cell, size, ix, iy);
    var zs := ZList(geo, cell, size, ix, iy, iz + 1);
    var zFull := ZList(geo, cell, size, ix, iy, Count(size[2]));
    var yFull := YList(geo, cell, size, ix, Count(size[1]));
    ZListPrefix(geo, cell, size, ix, iy, iz + 1, Count(size[2]));
    PrefixCat(ys, zs, zFull);
    YListPrefix(geo, cell, size, ix, iy + 1, Count(size[1]));
    PrefixTrans(ys + zs, ys + zFull, yFull);
    PrefixCat(xs, ys + zs, yFull);
    XListPrefix(geo, cell, size, ix + 1, Count(size[0]));
    PrefixTrans(xs + (ys + zs), xs + yFull, Candidates(geo, cell, size));
    var z0, q := ZList(geo, cell, size, ix, iy, iz), Candidate(geo, cell, size, ix, iy, iz);
    assert zs == z0 + [q];
    SeqAssoc(xs, ys, z0, [q]);
  }

  lemma {:induction false} YListLength(geo: Geometry, cell: Mat, size: seq<int>, ix: int, n: nat)
    requires |size| == 3
    ensures |YList(geo, cell, size, ix, n)| == n * Count(size[2])
  {
    if n > 0 {
      YListLength(geo, cell, size, ix, n - 1);
      assert (n - 1) * Count(size[2]) + Count(size[2]) == n * Count(size[2]);
    }
  }

  lemma {:induction false} XListLength(geo: Geometry, cell: Mat, size: seq<int>, n: nat)
    requires |size| == 3
    ensures |XList(geo, cell, size, n)| == n * (Count(size[1]) * Count(size[2]))
  {
    if n > 0 {
      XListLength(geo, cell, size, n - 1);
      YListLength(geo, cell, size, n - 1, Count(size[1]));
      var m := Count(size[1]) * Count(size[2]);
      assert (n - 1) * m + m == n * m;
    }
  }

  /** A successful grid has one point per supercell cell, no two of them
      within `__EPSILON__`; the only failure is a repeated point. */
  lemma QGridProperties(geo: Geometry, cell: Mat, size: seq<int>)
    requires |size| == 3
    ensures var r := QGridOf(geo, cell, size);
      (r.Ok? ==> |r.value| == Count(size[0]) * (Count(size[1]) * Count(size[2])) &&
                 Separated(geo, geo.reciprocal(cell), r.value)) &&
      (r.Err? ==> r.error == QPointFoundTwice)
  {
    XListLength(geo, cell, size, Count(size[0]));
  }

  // ---------------------------------------------------------------------
  // CheckSupercellQ

  /** `get_min_dist_into_cell(bg, q, qnew) < __EPSILON__` */
  predicate Close(geo: Geometry, bg: Mat, q: Vec, qnew: Vec)
  {
    geo.minDist(bg, q, qnew) < Epsilon
  }

  /** The index of the first point of `rem` close to q, if any. */
  function FirstMatch(geo: Geometry, bg: Mat, q: Vec, rem: seq<Vec>): (r: Option<nat>)
    ensures r.Some? ==> r.value < |rem| && Close(geo, bg, q, rem[r.value])
    ensures r.Some? ==> forall j :: 0 <= j < r.value ==> !Close(geo, bg, q, rem[j])
    ensures r.None? ==> forall j :: 0 <= j < |rem| ==> !Close(geo, bg, q, rem[j])
  {
    if |rem| == 0 then None
    else if Close(geo, bg, q, rem[0]) then Some(0)
    else
      var tail := FirstMatch(geo, bg, q, rem[1..]);
      if tail.None? then None else Some(tail.value + 1)
  }

  /** `correct_q.pop(jq)` for the first match jq, if any. */
  function Consume(geo: Geometry, bg: Mat, rem: seq<Vec>, q: Vec): seq<Vec>
  {
    var m := FirstMatch(geo, bg, q, rem);
    if m.None? then rem else rem[..m.value] + rem[m.value + 1..]
  }

  /** The grid points left after the first n supplied points have each
      consumed their first match. */
  function Remaining(geo: Geometry, bg: Mat, grid: seq<Vec>, qs: seq<Vec>, n: nat): seq<Vec>
    requires n <= |qs|
  {
    if n == 0 then grid else Consume(geo, bg, Remaining(geo, bg, grid, qs, n - 1), qs[n - 1])
  }

  /** What `CheckSupercellQ(unit_cell, supercell_size, q_list)` returns:
      true when every grid point was consumed. */
  function Covered(geo: Geometry, cell: Mat, size: seq<int>, qs: seq<Vec>): Result<bool>
    requires |size| == 3
  {
    var g := QGridOf(geo, cell, size);
    if g.Err? then Err(g.error)
    else Ok(|Remaining(geo, geo.reciprocal(cell), g.value, qs, |qs|)| == 0)
  }

  /** The inner `for jq, qnew in enumerate(correct_q)` loop with its `break`. */
  method FirstMatchIndex(geo: Geometry, bg: Mat, q: Vec, rem: seq<Vec>) returns (m: Option<nat>)
    ensures m == FirstMatch(geo, bg, q, rem)
  {
    for jq := 0 to |rem|
      invariant forall j :: 0 <= j < jq ==> !Close(geo, bg, q, rem[j])
    {
      if geo.minDist(bg, q, rem[jq]) < Epsilon {
        FirstMatchUnique(geo, bg, q, rem, jq);
        return Some(jq);
      }
    }
    FirstMatchUnique(geo, bg, q, rem, |rem|);
    return None;
  }

  /** FirstMatch is determined by its contract. */
  lemma FirstMatchUnique(geo: Geometry, bg: Mat, q: Vec, rem: seq<Vec>, k: nat)
    requires k <= |rem|
    requires forall j :: 0 <= j < k ==> !Close(geo, bg, q, rem[j])
    requires k < |rem| ==> Close(geo, bg, q, rem[k])
    ensures FirstMatch(geo, bg, q, rem) == if k < |rem| then Some(k) else None
  {
    var m := FirstMatch(geo, bg, q, rem);
    if m.Some? {
      assert m.value >= k;
    }
  }

  /** `CheckSupercellQ(unit_cell, supercell_size, q_list)` (symmetries.py:1054-1096). */
  method CheckSupercellQ(geo: Geometry, cell: Mat, size: seq<int>, qs: seq<Vec>) returns (r: Result<bool>)
    requires |size| == 3
    ensures r == Covered(geo, cell, size, qs)
  {
    var grid := GetQGrid(geo, cell, size);
    if grid.Err? {
      return Err(grid.error);
    }
    var correctQ := ConsumeAll(geo, geo.reciprocal(cell), grid.value, qs);
    r := Ok(|correctQ| == 0);
  }

  /** The outer loop of symmetries.py:1085-1089: every supplied point pops
      its first match from `correct_q`. */
  method ConsumeAll(geo: Geometry, bg: Mat, grid: seq<Vec>, qs: seq<Vec>) returns (correctQ: seq<Vec>)
    ensures correctQ == Remaining(geo, bg, grid, qs, |qs|)
  {
    correctQ := grid;
    for iq := 0 to |qs|
      invariant correctQ == Remaining(geo, bg, grid, qs, iq)
    {
      ghost var next := Consume(geo, bg, correctQ, qs[iq]);
      var jq := FirstMatchIndex(geo, bg, qs[iq], correctQ);
      if jq.Some? {
        correctQ := correctQ[..jq.value] + correctQ[jq.value + 1..];
      }
      assert correctQ == next;
    }
  }

  /** Each supplied point removes at most one grid point, and only one
      within `__EPSILON__` of it. */
  lemma ConsumeRemovesOne(geo: Geometry, bg: Mat, rem: seq<Vec>, q: Vec)
    ensures var m := FirstMatch(geo, bg, q, rem);
      (m.None? ==> Consume(geo, bg, rem, q) == rem) &&
      (m.Some? ==> multiset(Consume(geo, bg, rem, q)) + multiset{rem[m.value]} == multiset(rem) &&
                   Close(geo, bg, q, rem[m.value]))
  {
    var m := FirstMatch(geo, bg, q, rem);
    if m.Some? {
      var j := m.value;
      assert rem == rem[..j] + [rem[j]] + rem[j + 1..];
    }
  }

  lemma {:induction false} RemainingLength(geo: Geometry, bg: Mat, grid: seq<Vec>, qs: seq<Vec>, n: nat)
    requires n <= |qs|
    ensures |Remaining(geo, bg, grid, qs, n)| + n >= |grid|
    ensures |Remaining(geo, bg, grid, qs, n)| <= |grid|
  {
    if n > 0 {
      RemainingLength(geo, bg, grid, qs, n - 1);
    }
  }

  /** The check can only pass with at least as many supplied q points as
      the supercell has grid points. */
  lemma CoveredNeedsEnoughPoints(geo: Geometry, cell: Mat, size: seq<int>, qs: seq<Vec>)
    requires |size| == 3
    requires Covered(geo, cell, size, qs) == Ok(true)
    ensures |qs| >= Count(size[0]) * (Count(size[1]) * Count(size[2]))
  {
    var g := QGridOf(geo, cell, size);
    QGridProperties(geo, cell, size);
    RemainingLength(geo, geo.reciprocal(cell), g.value, qs, |qs|);
  }

  lemma {:induction false} RemainingSelf(geo: Geometry, bg: Mat, grid: seq<Vec>, n: nat)
    requires n <= |grid|
    requires forall k :: 0 <= k < |grid| ==> Close(geo, bg, grid[k], grid[k])
    ensures Remaining(geo, bg, grid, grid, n) == grid[n..]
  {
    if n > 0 {
      RemainingSelf(geo, bg, grid, n - 1);
      var rem := grid[n - 1..];
      assert rem[0] == grid[n - 1];
      FirstMatchUnique(geo, bg, grid[n - 1], rem, 0);
      assert rem[1..] == grid[n..];
    }
  }

  /** The grid itself passes the check, provided the distance oracle puts
      every grid point within `__EPSILON__` of itself. */
  lemma GridCoversItself(geo: Geometry, cell: Mat, size: seq<int>)
    requires |size| == 3 && QGridOf(geo, cell, size).Ok?
    requires var g := QGridOf(geo, cell, size).value;
      forall k :: 0 <= k < |g| ==> Close(geo, geo.reciprocal(cell), g[k], g[k])
    ensures Covered(geo, cell, size, QGridOf(geo, cell, size).value) == Ok(true)
  {
    var g := QGridOf(geo, cell, size).value;
    RemainingSelf(geo, geo.reciprocal(cell), g, |g|);
  }
}
