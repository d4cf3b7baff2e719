/** Dividing a list of q points into stars (`QE_Symmetry.SetupQStar`,
    symmetries.py:161-208) and the star bookkeeping of `SymmetrizeFCQ`
    (symmetries.py:386-395, 437-446).

    `starOf` stands for the `star_q` call with the current symmetries and
    `dist` for `Methods.get_min_dist_into_cell(QE_bg.T, ., .)`.
 */
module QStars {
  import opened Wrappers
  import opened SeqFacts
  import opened Matrices
  import opened Numerics
  import opened Oracles

  /** `[dist(v, q) for q in list]` */
  function Distances(dist: (Vec, Vec) -> real, v: Vec, list: seq<Vec>): (d: seq<real>)
    ensures |d| == |list|
  {
    seq(|list|, k requires 0 <= k < |list| => dist(v, list[k]))
  }

  /** `list.pop(p)`: the list without its entry p. */
  function Remove(list: seq<Vec>, p: nat): (r: seq<Vec>)
    requires p < |list|
    ensures |r| == |list| - 1
    ensures multiset(r) + multiset{list[p]} == multiset(list)
  {
    assert list == list[..p] + [list[p]] + list[p + 1..];
    list[..p] + list[p + 1..]
  }

  /** The first nearest point of `qTot` to each of `members`: `q_indices`. */
  function Nearest(dist: (Vec, Vec) -> real, qTot: seq<Vec>, members: seq<Vec>): (ix: seq<nat>)
    requires |qTot| > 0
    ensures |ix| == |members|
    ensures forall c :: 0 <= c < |members| ==> ix[c] < |qTot|
  {
    seq(|members|, c requires 0 <= c < |members| => ArgMin(Distances(dist, members[c], qTot)))
  }

  /** The inner `for jq` loop (symmetries.py:190-205) from member j on:
      every member pops the first nearest entry of the working list and
      records its first nearest entry of `qTot`.  Running out of entries is
      numpy's "argmin of an empty sequence". */
  function PopMembers(dist: (Vec, Vec) -> real, star: seq<Vec>, j: nat, list: seq<Vec>,
                      qTot: seq<Vec>, indices: seq<nat>): (r: Result<(seq<Vec>, seq<nat>)>)
    requires j <= |star| && |list| <= |qTot|
    ensures r.Ok? ==> |r.value.0| + (|star| - j) == |list|
    ensures r.Ok? ==> multiset(r.value.0) <= multiset(list)
    decreases |star| - j
  {
    if j == |star| then Ok((list, indices))
    else if |list| == 0 then Err(EmptyArgmin)
    else
      var p := ArgMin(Distances(dist, star[j], list));
      var q := ArgMin(Distances(dist, star[j], qTot));
      PopMembers(dist, star, j + 1, Remove(list, p), qTot, indices + [q])
  }

  /** The `for jq` loop of SetupQStar for one star, popping from `list`
      and recording into `indices` (symmetries.py:190-205). */
  method PopStar(dist: (Vec, Vec) -> real, star: seq<Vec>, list: seq<Vec>, qTot: seq<Vec>, indices: seq<nat>)
    returns (r: Result<(seq<Vec>, seq<nat>)>)
    requires |list| <= |qTot|
    ensures r == PopMembers(dist, star, 0, list, qTot, indices)
  {
    var rest, recorded := list, indices;
    for jq := 0 to |star|
      invariant |rest| <= |qTot|
      invariant PopMembers(dist, star, jq, rest, qTot, recorded) == PopMembers(dist, star, 0, list, qTot, indices)
    {
      if |rest| == 0 {
        return Err(EmptyArgmin);
      }
      var popIndex := ArgMin(Distances(dist, star[jq], rest));
      rest := Remove(rest, popIndex);
      var qIndex := ArgMin(Distances(dist, star[jq], qTot));
      recorded := recorded + [qIndex];
    }
    r := Ok((rest, recorded));
  }

  /** The outer `while` loop (symmetries.py:167-205) on a working list:
      the star of the list's first entry is recorded and its members popped. */
  function Partition(starOf: Vec -> Star, dist: (Vec, Vec) -> real, list: seq<Vec>,
                     qTot: seq<Vec>, stars: seq<seq<Vec>>, indices: seq<nat>)
    : (r: Result<(seq<seq<Vec>>, seq<nat>)>)
    requires |list| <= |qTot|
    decreases |list|
  {
    if |list| == 0 then Ok((stars, indices))
    else
      var star := starOf(list[0]);
      match PopMembers(dist, star, 0, list, qTot, indices)
      case Err(e) => Err(e)
      case Ok(next) => Partition(starOf, dist, next.0, qTot, stars + [star], next.1)
  }

  /** What `SetupQStar(q_tot)` returns: `(q_stars, q_indices)`. */
  function StarsOf(starOf: Vec -> Star, dist: (Vec, Vec) -> real, qTot: seq<Vec>): Result<(seq<seq<Vec>>, seq<nat>)>
  {
    Partition(starOf, dist, qTot, qTot, [], [])
  }

  /** All the points of a list of stars, star after star. */
  function Flatten(stars: seq<seq<Vec>>): (qs: seq<Vec>)
    ensures |qs| == TotalSize(stars)
  {
    if |stars| == 0 then [] else Flatten(stars[..|stars| - 1]) + stars[|stars| - 1]
  }

  /** `np.sum([len(x) for x in q_stars])` */
  function TotalSize(stars: seq<seq<Vec>>): nat
  {
    if |stars| == 0 then 0 else TotalSize(stars[..|stars| - 1]) + |stars[|stars| - 1]|
  }

  // ---------------------------------------------------------------------
  // Properties of the partition

  /** One star pops exactly its own size of entries and records, in
      member order, the first nearest entry of `qTot` of every member. */
  lemma {:induction false} PopMembersRecords(dist: (Vec, Vec) -> real, star: seq<Vec>, j: nat, list: seq<Vec>,
                                             qTot: seq<Vec>, indices: seq<nat>)
    requires j <= |star| && |list| <= |qTot|
    requires PopMembers(dist, star, j, list, qTot, indices).Ok?
    ensures |qTot| > 0 || j == |star|
    ensures |qTot| > 0 ==>
      PopMembers(dist, star, j, list, qTot, indices).value.1 == indices + Nearest(dist, qTot, star[j..])
    ensures |qTot| == 0 ==> PopMembers(dist, star, j, list, qTot, indices).value.1 == indices
    decreases |star| - j
  {
    if j < |star| {
      if |list| == 0 {
        assert false;
      } else {
        var p := ArgMin(Distances(dist, star[j], list));
        var q := ArgMin(Distances(dist, star[j], qTot));
        PopMembersRecords(dist, star, j + 1, Remove(list, p), qTot, indices + [q]);
        NearestStep(dist, qTot, star, j);
        Associative(indices, [q], Nearest(dist, qTot, star[j + 1..]));
      }
    } else {
      assert star[j..] == [];
    }
  }

  lemma NearestStep(dist: (Vec, Vec) -> real, qTot: seq<Vec>, star: seq<Vec>, j: nat)
    requires |qTot| > 0 && j < |star|
    ensures Nearest(dist, qTot, star[j..]) == [ArgMin(Distances(dist, star[j], qTot))] + Nearest(dist, qTot, star[j + 1..])
  {
    assert star[j..] == [star[j]] + star[j + 1..];
  }

  lemma FlattenAppend(stars: seq<seq<Vec>>, star: seq<Vec>)
    ensures Flatten(stars + [star]) == Flatten(stars) + star
  {
    assert (stars + [star])[..|stars|] == stars;
  }

  lemma NearestAppend(dist: (Vec, Vec) -> real, qTot: seq<Vec>, a: seq<Vec>, b: seq<Vec>)
    requires |qTot| > 0
    ensures Nearest(dist, qTot, a + b) == Nearest(dist, qTot, a) + Nearest(dist, qTot, b)
  {
  }

  /** A successful partition keeps the stars already found, and what it
      adds covers exactly the rest of the working list: the sizes add up
      and there is one index per member, the first nearest entry of
      `qTot`. */
  lemma {:induction false} PartitionAccounts(starOf: Vec -> Star, dist: (Vec, Vec) -> real, list: seq<Vec>,
                                             qTot: seq<Vec>, stars: seq<seq<Vec>>, indices: seq<nat>)
    requires |list| <= |qTot|
    requires |qTot| > 0 ==> indices == Nearest(dist, qTot, Flatten(stars))
    requires |qTot| == 0 ==> stars == [] && indices == []
    requires Partition(starOf, dist, list, qTot, stars, indices).Ok?
    ensures var (s, ix) := Partition(starOf, dist, list, qTot, stars, indices).value;
      stars <= s &&
      TotalSize(s) == TotalSize(stars) + |list| &&
      (|qTot| > 0 ==> ix == Nearest(dist, qTot, Flatten(s))) &&
      (|qTot| == 0 ==> s == [] && ix == [])
    decreases |list|
  {
    if |list| > 0 {
      var star := starOf(list[0]);
      var next := PopMembers(dist, star, 0, list, qTot, indices).value;
      PopMembersRecords(dist, star, 0, list, qTot, indices);
      assert star[0..] == star;
      FlattenAppend(stars, star);
      NearestAppend(dist, qTot, Flatten(stars), star);
      PartitionAccounts(starOf, dist, next.0, qTot, stars + [star], next.1);
    }
  }

  /** `SetupQStar`: on success the star sizes add up to `len(q_tot)`, the
      first star is the star of `q_tot[0]`, and `q_indices[c]` is the first
      nearest entry of `q_tot` to the c-th star member (StarsOfWorklists
      gives the later stars). */
  lemma {:induction false} StarsOfAccounts(starOf: Vec -> Star, dist: (Vec, Vec) -> real, qTot: seq<Vec>)
    requires StarsOf(starOf, dist, qTot).Ok?
    ensures var (s, ix) := StarsOf(starOf, dist, qTot).value;
      TotalSize(s) == |qTot| &&
      |ix| == |qTot| &&
      (|qTot| > 0 ==> ix == Nearest(dist, qTot, Flatten(s)) && s[0] == starOf(qTot[0]))
  {
    PartitionAccounts(starOf, dist, qTot, qTot, [], []);
    if |qTot| > 0 {
      FirstStar(starOf, dist, qTot);
    }
  }

  /** The first star found is the star of the first point. */
  lemma {:induction false} FirstStar(starOf: Vec -> Star, dist: (Vec, Vec) -> real, qTot: seq<Vec>)
    requires |qTot| > 0 && StarsOf(starOf, dist, qTot).Ok?
    ensures |StarsOf(starOf, dist, qTot).value.0| > 0
    ensures StarsOf(starOf, dist, qTot).value.0[0] == starOf(qTot[0])
  {
    var star := starOf(qTot[0]);
    var next := PopMembers(dist, star, 0, qTot, qTot, []).value;
    assert [] + [star] == [star];
    PartitionKeeps(starOf, dist, next.0, qTot, [star], next.1);
  }

  /** A successful partition keeps the stars already found. */
  lemma {:induction false} PartitionKeeps(starOf: Vec -> Star, dist: (Vec, Vec) -> real, list: seq<Vec>,
                                          qTot: seq<Vec>, stars: seq<seq<Vec>>, indices: seq<nat>)
    requires |list| <= |qTot|
    requires Partition(starOf, dist, list, qTot, stars, indices).Ok?
    ensures stars <= Partition(starOf, dist, list, qTot, stars, indices).value.0
    decreases |list|
  {
    if |list| > 0 {
      var star := starOf(list[0]);
      var next := PopMembers(dist, star, 0, list, qTot, indices).value;
      PartitionKeeps(starOf, dist, next.0, qTot, stars + [star], next.1);
    }
  }

  /** The working list at the start of every pass of the outer `while`
      loop (symmetries.py:167), up to the pass that raises. */
  function Worklists(starOf: Vec -> Star, dist: (Vec, Vec) -> real, list: seq<Vec>,
                     qTot: seq<Vec>, indices: seq<nat>): seq<seq<Vec>>
    requires |list| <= |qTot|
    decreases |list|
  {
    if |list| == 0 then []
    else
      match PopMembers(dist, starOf(list[0]), 0, list, qTot, indices)
      case Err(_) => [list]
      case Ok(next) => [list] + Worklists(starOf, dist, next.0, qTot, next.1)
  }

  /** The star of the first point of every working list. */
  function Heads(starOf: Vec -> Star, w: seq<seq<Vec>>): (h: seq<seq<Vec>>)
    ensures |h| == |w|
  {
    seq(|w|, k requires 0 <= k < |w| => if |w[k]| > 0 then starOf(w[k][0]) else [])
  }

  /** Working list k is working list k - 1 less as many of its points as
      the star of its first point has members. */
  predicate PoppedFrom(starOf: Vec -> Star, w: seq<seq<Vec>>, k: nat)
    requires 0 < k < |w|
  {
    |w[k - 1]| > 0 && |w[k]| + |starOf(w[k - 1][0])| == |w[k - 1]| && multiset(w[k]) <= multiset(w[k - 1])
  }

  /** `SetupQStar`, star by star: star k is the star of the first point of
      working list k, the first working list is `q_tot` itself, and each
      later one is the one before less as many of its points as the star
      found in it has members. */
  lemma StarsOfWorklists(starOf: Vec -> Star, dist: (Vec, Vec) -> real, qTot: seq<Vec>)
    requires StarsOf(starOf, dist, qTot).Ok?
    ensures |Worklists(starOf, dist, qTot, qTot, [])| == |StarsOf(starOf, dist, qTot).value.0|
    ensures |qTot| > 0 ==> Worklists(starOf, dist, qTot, qTot, [])[0] == qTot
    ensures forall k :: 0 <= k < |Worklists(starOf, dist, qTot, qTot, [])| ==>
      |Worklists(starOf, dist, qTot, qTot, [])[k]| > 0 &&
      StarsOf(starOf, dist, qTot).value.0[k] == starOf(Worklists(starOf, dist, qTot, qTot, [])[k][0])
    ensures forall k :: 0 < k < |Worklists(starOf, dist, qTot, qTot, [])| ==>
      PoppedFrom(starOf, Worklists(starOf, dist, qTot, qTot, []), k)
  {
    var s := StarsOf(starOf, dist, qTot).value.0;
    var w := Worklists(starOf, dist, qTot, qTot, []);
    PartitionHeads(starOf, dist, qTot, qTot, [], []);
    assert s == Heads(starOf, w);
    WorklistsNonEmpty(starOf, dist, qTot, qTot, []);
    WorklistsShrink(starOf, dist, qTot, qTot, []);
    if |qTot| > 0 {
      WorklistsFirst(starOf, dist, qTot, qTot, []);
    }
    forall k | 0 <= k < |w|
      ensures |w[k]| > 0 && s[k] == starOf(w[k][0])
    {
      assert s[k] == Heads(starOf, w)[k];
    }
  }

  /** The first working list is the list the loop starts from. */
  lemma WorklistsFirst(starOf: Vec -> Star, dist: (Vec, Vec) -> real, list: seq<Vec>,
                       qTot: seq<Vec>, indices: seq<nat>)
    requires 0 < |list| <= |qTot|
    ensures |Worklists(starOf, dist, list, qTot, indices)| > 0
    ensures Worklists(starOf, dist, list, qTot, indices)[0] == list
  {
  }

  /** Every working list is non-empty. */
  lemma WorklistsNonEmpty(starOf: Vec -> Star, dist: (Vec, Vec) -> real, list: seq<Vec>,
                          qTot: seq<Vec>, indices: seq<nat>)
    requires |list| <= |qTot|
    ensures forall k :: 0 <= k < |Worklists(starOf, dist, list, qTot, indices)| ==>
      |Worklists(starOf, dist, list, qTot, indices)[k]| > 0
  {
    forall k | 0 <= k < |Worklists(starOf, dist, list, qTot, indices)|
      ensures |Worklists(starOf, dist, list, qTot, indices)[k]| > 0
    {
      WorklistStep(starOf, dist, list, qTot, indices, k);
    }
  }

  /** Every working list after the first pops its star's worth of points
      from the one before. */
  lemma WorklistsShrink(starOf: Vec -> Star, dist: (Vec, Vec) -> real, list: seq<Vec>,
                        qTot: seq<Vec>, indices: seq<nat>)
    requires |list| <= |qTot|
    ensures forall k :: 0 < k < |Worklists(starOf, dist, list, qTot, indices)| ==>
      PoppedFrom(starOf, Worklists(starOf, dist, list, qTot, indices), k)
  {
    var w := Worklists(starOf, dist, list, qTot, indices);
    forall k | 0 < k < |w|
      ensures PoppedFrom(starOf, w, k)
    {
      WorklistStep(starOf, dist, list, qTot, indices, k - 1);
      assert k - 1 + 1 == k;
    }
  }

  /** Working list k is never empty, and the next one is it less as many
      of its points as the star of its first point has members. */
  lemma {:induction false} WorklistStep(starOf: Vec -> Star, dist: (Vec, Vec) -> real, list: seq<Vec>,
                                        qTot: seq<Vec>, indices: seq<nat>, k: nat)
    requires |list| <= |qTot|
    requires k < |Worklists(starOf, dist, list, qTot, indices)|
    ensures var w := Worklists(starOf, dist, list, qTot, indices);
      |w[k]| > 0 &&
      (k + 1 < |w| ==> |w[k + 1]| + |starOf(w[k][0])| == |w[k]| && multiset(w[k + 1]) <= multiset(w[k]))
    decreases k
  {
    var r := PopMembers(dist, starOf(list[0]), 0, list, qTot, indices);
    if r.Ok? {
      var w' := Worklists(starOf, dist, r.value.0, qTot, r.value.1);
      if k > 0 {
        WorklistStep(starOf, dist, r.value.0, qTot, r.value.1, k - 1);
      } else if |w'| > 0 {
        assert w'[0] == r.value.0;
      }
    }
  }

  /** One pass of the outer loop that does not raise: the star of the
      first point is popped, and both the partition and the working lists
      go on from what is left. */
  lemma PartitionUnfold(starOf: Vec -> Star, dist: (Vec, Vec) -> real, list: seq<Vec>,
                        qTot: seq<Vec>, stars: seq<seq<Vec>>, indices: seq<nat>)
    requires 0 < |list| <= |qTot|
    requires Partition(starOf, dist, list, qTot, stars, indices).Ok?
    ensures PopMembers(dist, starOf(list[0]), 0, list, qTot, indices).Ok?
    ensures var next := PopMembers(dist, starOf(list[0]), 0, list, qTot, indices).value;
      Partition(starOf, dist, next.0, qTot, stars + [starOf(list[0])], next.1).Ok? &&
      Partition(starOf, dist, list, qTot, stars, indices) == Partition(starOf, dist, next.0, qTot, stars + [starOf(list[0])], next.1) &&
      Worklists(starOf, dist, list, qTot, indices) == [list] + Worklists(starOf, dist, next.0, qTot, next.1)
  {
  }

  lemma HeadsCons(starOf: Vec -> Star, list: seq<Vec>, w: seq<seq<Vec>>)
    requires |list| > 0
    ensures Heads(starOf, [list] + w) == [starOf(list[0])] + Heads(starOf, w)
  {
    assert forall k :: 0 < k <= |w| ==> ([list] + w)[k] == w[k - 1];
  }

  /** The stars the outer loop adds are, in order, the stars of the first
      points of its working lists. */
  lemma {:induction false} PartitionHeads(starOf: Vec -> Star, dist: (Vec, Vec) -> real, list: seq<Vec>,
                                          qTot: seq<Vec>, stars: seq<seq<Vec>>, indices: seq<nat>)
    requires |list| <= |qTot|
    requires Partition(starOf, dist, list, qTot, stars, indices).Ok?
    ensures Partition(starOf, dist, list, qTot, stars, indices).value.0 ==
            stars + Heads(starOf, Worklists(starOf, dist, list, qTot, indices))
    decreases |list|
  {
    if |list| > 0 {
      var star := starOf(list[0]);
      PartitionUnfold(starOf, dist, list, qTot, stars, indices);
      var next := PopMembers(dist, star, 0, list, qTot, indices).value;
      var w' := Worklists(starOf, dist, next.0, qTot, next.1);
      PartitionHeads(starOf, dist, next.0, qTot, stars + [star], next.1);
      HeadsCons(starOf, list, w');
      assert stars + [star] + Heads(starOf, w') == stars + ([star] + Heads(starOf, w'));
    }
  }

  /** Running out of q points in the middle of a star is an error. */
  lemma OversizedStarFails(dist: (Vec, Vec) -> real, star: seq<Vec>, list: seq<Vec>, qTot: seq<Vec>, indices: seq<nat>)
    requires |list| <= |qTot| && |star| > |list|
    ensures PopMembers(dist, star, 0, list, qTot, indices) == Err(EmptyArgmin)
  {
    PopMembersFailsWhenShort(dist, star, 0, list, qTot, indices);
  }

  lemma {:induction false} PopMembersFailsWhenShort(dist: (Vec, Vec) -> real, star: seq<Vec>, j: nat, list: seq<Vec>,
                                                    qTot: seq<Vec>, indices: seq<nat>)
    requires j <= |star| && |list| <= |qTot| && |star| - j > |list|
    ensures PopMembers(dist, star, j, list, qTot, indices) == Err(EmptyArgmin)
    decreases |star| - j
  {
    if |list| > 0 {
      var p := ArgMin(Distances(dist, star[j], list));
      var q := ArgMin(Distances(dist, star[j], qTot));
      PopMembersFailsWhenShort(dist, star, j + 1, Remove(list, p), qTot, indices + [q]);
    }
  }

  // ---------------------------------------------------------------------
  // The per-star slices of SymmetrizeFCQ

  /** `q0_index` before star i: the number of points in the stars before it. */
  function Offset(stars: seq<seq<Vec>>, i: nat): nat
    requires i <= |stars|
  {
    TotalSize(stars[..i])
  }

  /** The slices `[q0_index, q0_index + len(q_stars[i]))` are consecutive,
      start at 0, end at the total number of points, and hold exactly the
      points of star i in the flattened list. */
  lemma {:induction false} StarSlices(stars: seq<seq<Vec>>, i: nat)
    requires i < |stars|
    ensures Offset(stars, 0) == 0
    ensures Offset(stars, i + 1) == Offset(stars, i) + |stars[i]|
    ensures Offset(stars, |stars|) == |Flatten(stars)|
    ensures Offset(stars, i + 1) <= |Flatten(stars)|
    ensures Flatten(stars)[Offset(stars, i)..Offset(stars, i + 1)] == stars[i]
  {
    assert stars[..i + 1][..i] == stars[..i];
    assert stars[..|stars|] == stars;
    FlattenPrefix(stars, i + 1);
    assert Flatten(stars[..i + 1]) == Flatten(stars[..i]) + stars[i];
  }

  /** The points of the first i stars open the flattened list. */
  lemma {:induction false} FlattenPrefix(stars: seq<seq<Vec>>, i: nat)
    requires i <= |stars|
    ensures Flatten(stars[..i]) <= Flatten(stars)
    decreases |stars| - i
  {
    if i < |stars| {
      FlattenPrefix(stars, i + 1);
      assert stars[..i + 1][..i] == stars[..i];
    } else {
      assert stars[..i] == stars;
    }
  }
}
