/** Numbering of atomic species by first appearance.

    Both the symmetry wrapper (the `QE_ityp` table of
    symmetries.py:77-86) and the dynamical-matrix writer (the `types`
    list and `itau` dictionary of Phonons.py:678-688) number the species
    of a structure 1, 2, 3, ... in the order in which their labels first
    occur in the atom list.
 */
module Species {

  type Label = string

  predicate Distinct(xs: seq<Label>)
  {
    forall i, j :: 0 <= i < j < |xs| ==> xs[i] != xs[j]
  }

  /** The distinct labels among the first n atoms, in order of first appearance. */
  function Seen(atoms: seq<Label>, n: nat): (order: seq<Label>)
    requires n <= |atoms|
    ensures forall a :: a in order <==> exists k :: 0 <= k < n && atoms[k] == a
    ensures Distinct(order)
  {
    if n == 0 then []
    else
      var prev := Seen(atoms, n - 1);
      if atoms[n - 1] in prev then prev else prev + [atoms[n - 1]]
  }

  /** The distinct labels of `atoms`, in order of first appearance. */
  function FirstAppearance(atoms: seq<Label>): (order: seq<Label>)
    ensures forall a :: a in order <==> a in atoms
    ensures Distinct(order)
  {
    var order := Seen(atoms, |atoms|);
    assert forall a :: a in atoms ==> exists k :: 0 <= k < |atoms| && atoms[k] == a;
    order
  }

  /** The position of `a` in `xs`. */
  function IndexOf(xs: seq<Label>, a: Label): (k: nat)
    requires a in xs
    ensures k < |xs| && xs[k] == a
    ensures forall j :: 0 <= j < k ==> xs[j] != a
  {
    if xs[0] == a then 0 else 1 + IndexOf(xs[1..], a)
  }

  /** The species number of every atom: 1 + position of its label. */
  function Ranks(atoms: seq<Label>): (r: seq<int>)
    ensures |r| == |atoms|
  {
    seq(|atoms|, i requires 0 <= i < |atoms| => Rank(atoms, i))
  }

  /** What the first n atoms have seen is a prefix of what all have seen. */
  lemma {:induction false} SeenPrefix(atoms: seq<Label>, n: nat, m: nat)
    requires n <= m <= |atoms|
    ensures Seen(atoms, n) <= Seen(atoms, m)
    decreases m - n
  {
    if n < m {
      SeenPrefix(atoms, n, m - 1);
    }
  }

  /** In a list, the position of an element of a prefix is its position
      in the prefix. */
  lemma IndexOfPrefix(p: seq<Label>, xs: seq<Label>, a: Label)
    requires p <= xs && a in p
    ensures IndexOf(p, a) == IndexOf(xs, a)
  {
    var k := IndexOf(p, a);
    assert xs[k] == a;
    assert forall j :: 0 <= j < k ==> xs[j] == p[j];
  }

  /** The position of an atom's label among the labels seen so far is
      its position among all labels. */
  lemma SeenIndex(atoms: seq<Label>, n: nat, a: Label)
    requires n <= |atoms| && a in Seen(atoms, n)
    ensures a in FirstAppearance(atoms)
    ensures IndexOf(Seen(atoms, n), a) == IndexOf(FirstAppearance(atoms), a)
  {
    SeenPrefix(atoms, n, |atoms|);
    IndexOfPrefix(Seen(atoms, n), FirstAppearance(atoms), a);
  }

  /** The state of the ranking loop after the first n atoms: `symbs`
      numbers exactly the labels seen, by position, and `counter` is the
      next free number. */
  ghost predicate RankTable(atoms: seq<Label>, n: nat, symbs: map<Label, int>, counter: int)
    requires n <= |atoms|
  {
    counter == 1 + |Seen(atoms, n)| &&
    (forall a :: a in symbs <==> a in Seen(atoms, n)) &&
    (forall a :: a in symbs ==> symbs[a] == 1 + IndexOf(Seen(atoms, n), a))
  }

  /** Seen labels keep their positions when one more atom is looked at. */
  lemma SeenGrows(atoms: seq<Label>, n: nat)
    requires n < |atoms|
    ensures forall a :: a in Seen(atoms, n) ==> IndexOf(Seen(atoms, n), a) == IndexOf(Seen(atoms, n + 1), a)
    ensures Rank(atoms, n) == 1 + IndexOf(Seen(atoms, n + 1), atoms[n])
  {
    var prev := Seen(atoms, n);
    forall a | a in prev ensures IndexOf(prev, a) == IndexOf(Seen(atoms, n + 1), a) {
      IndexOfPrefix(prev, Seen(atoms, n + 1), a);
    }
    SeenIndex(atoms, n + 1, atoms[n]);
  }

  /** A pass over an atom whose label is already numbered changes nothing. */
  lemma RankTableKeep(atoms: seq<Label>, n: nat, symbs: map<Label, int>, counter: int)
    requires n < |atoms| && RankTable(atoms, n, symbs, counter) && atoms[n] in symbs
    ensures RankTable(atoms, n + 1, symbs, counter) && symbs[atoms[n]] == Rank(atoms, n)
  {
    SeenGrows(atoms, n);
  }

  /** A pass over a new label gives it the next free number. */
  lemma RankTableAdd(atoms: seq<Label>, n: nat, symbs: map<Label, int>, counter: int)
    requires n < |atoms| && RankTable(atoms, n, symbs, counter) && atoms[n] !in symbs
    ensures RankTable(atoms, n + 1, symbs[atoms[n] := counter], counter + 1)
    ensures counter == Rank(atoms, n)
  {
    var prev := Seen(atoms, n);
    assert IndexOf(prev + [atoms[n]], atoms[n]) == |prev|;
    SeenGrows(atoms, n);
  }

  /** The constructor's ranking loop (symmetries.py:77-86): a dictionary
      `symbs` from label to number and a counter of the next free number. */
  method RankSpecies(atoms: seq<Label>) returns (ityp: seq<int>)
    ensures ityp == Ranks(atoms)
  {
    var symbs: map<Label, int> := map[];
    var counter := 1;
    ityp := [];
    for i := 0 to |atoms|
      invariant RankTable(atoms, i, symbs, counter)
      invariant ityp == RankPrefix(atoms, i)
    {
      var rank;
      symbs, counter, rank := RankOne(atoms, i, symbs, counter);
      ityp := ityp + [rank];
    }
    assert RankPrefix(atoms, |atoms|) == Ranks(atoms);
  }

  /** One pass of the ranking loop: the atom's label is looked up, and
      numbered with the counter when it is new. */
  method RankOne(atoms: seq<Label>, i: nat, symbs: map<Label, int>, counter: int)
    returns (symbs': map<Label, int>, counter': int, rank: int)
    requires i < |atoms| && RankTable(atoms, i, symbs, counter)
    ensures RankTable(atoms, i + 1, symbs', counter')
    ensures rank == Rank(atoms, i)
  {
    var atm := atoms[i];
    if atm in symbs {
      RankTableKeep(atoms, i, symbs, counter);
      symbs', counter' := symbs, counter;
    } else {
      RankTableAdd(atoms, i, symbs, counter);
      symbs', counter' := symbs[atm := counter], counter + 1;
    }
    rank := symbs'[atm];
  }

  /** The numbers of the first n atoms. */
  function RankPrefix(atoms: seq<Label>, n: nat): (r: seq<int>)
    requires n <= |atoms|
    ensures |r| == n && forall k :: 0 <= k < n ==> r[k] == Rank(atoms, k)
  {
    if n == 0 then [] else RankPrefix(atoms, n - 1) + [Rank(atoms, n - 1)]
  }

  /** The number of atom i. */
  function Rank(atoms: seq<Label>, i: nat): int
    requires i < |atoms|
  {
    1 + IndexOf(FirstAppearance(atoms), atoms[i])
  }

  /** The writer's `types` list (Phonons.py:678-682): labels appended
      when not yet present. */
  method SpeciesList(atoms: seq<Label>) returns (types: seq<Label>)
    ensures types == FirstAppearance(atoms)
  {
    types := [];
    for i := 0 to |atoms|
      invariant types == Seen(atoms, i)
    {
      if !(atoms[i] in types) {
        types := types + [atoms[i]];
      }
    }
  }

  /** Two atoms get the same number exactly when they carry the same label. */
  lemma RanksSeparateSpecies(atoms: seq<Label>, i: nat, j: nat)
    requires i < |atoms| && j < |atoms|
    ensures Ranks(atoms)[i] == Ranks(atoms)[j] <==> atoms[i] == atoms[j]
  {
    var order := FirstAppearance(atoms);
    assert atoms[i] in order && atoms[j] in order;
  }

  /** The numbers used are exactly 1 .. number of distinct labels. */
  lemma RanksAreOneToCount(atoms: seq<Label>)
    ensures forall i :: 0 <= i < |atoms| ==> 1 <= Ranks(atoms)[i] <= |FirstAppearance(atoms)|
    ensures forall r :: 1 <= r <= |FirstAppearance(atoms)| ==> r in Ranks(atoms)
  {
    var order := FirstAppearance(atoms);
    forall r | 1 <= r <= |order| ensures r in Ranks(atoms) {
      var a := order[r - 1];
      assert a in atoms;
      var i :| 0 <= i < |atoms| && atoms[i] == a;
      var k := IndexOf(order, a);
      assert order[k] == order[r - 1];
      assert k == r - 1;
      assert Ranks(atoms)[i] == r;
    }
  }

  /** The first atom carrying a label not seen before gets the next
      free number. */
  lemma RanksByFirstAppearance(atoms: seq<Label>, i: nat)
    requires i < |atoms|
    requires forall k :: 0 <= k < i ==> atoms[k] != atoms[i]
    ensures Ranks(atoms)[i] == 1 + |Seen(atoms, i)|
  {
    var prev := Seen(atoms, i);
    assert atoms[i] !in prev;
    assert IndexOf(Seen(atoms, i + 1), atoms[i]) == |prev|;
    SeenIndex(atoms, i + 1, atoms[i]);
  }
}
