/** Dense real matrices as sequences of rows, and the two layouts the
    symmetry code moves force-constant matrices between:
      - the Cartesian layout, a (3*nat) x (3*nat) matrix, and
      - the Fortran block layout QE_fc(3, 3, nat, nat), modelled as a
        nat x nat grid of 3 x 3 blocks: Blocks[na][nb][a][b] is the
        Fortran element QE_fc(a, b, na, nb).
 */
module Matrices {
  import opened Sums

  type Vec = seq<real>
  type Mat = seq<seq<real>>

  /** A 3 x 3 block grid: BlockGrid[na][nb] is a 3 x 3 matrix. */
  type BlockGrid = seq<seq<Mat>>

  predicate IsMatrix(m: Mat, rows: nat, cols: nat)
  {
    |m| == rows && forall i :: 0 <= i < rows ==> |m[i]| == cols
  }

  predicate IsBlockGrid(b: BlockGrid, nat_: nat)
  {
    |b| == nat_ &&
    forall na :: 0 <= na < nat_ ==> |b[na]| == nat_ && forall nb :: 0 <= nb < nat_ ==> IsMatrix(b[na][nb], 3, 3)
  }

  /** Entry (i, j), and 0 outside the matrix: lets sums range freely. */
  function At(m: Mat, i: int, j: int): real
  {
    if 0 <= i < |m| && 0 <= j < |m[i]| then m[i][j] else 0.0
  }

  /** Entry k of a vector, and 0 outside it. */
  function VAt(v: Vec, k: int): real
  {
    if 0 <= k < |v| then v[k] else 0.0
  }

  function Kronecker(i: int, j: int): real
  {
    if i == j then 1.0 else 0.0
  }

  function Identity(n: nat): (m: Mat)
    ensures IsMatrix(m, n, n)
  {
    seq(n, i => seq(n, j => Kronecker(i, j)))
  }

  function Dot(u: Vec, v: Vec): real
  {
    Sum(|u|, k => VAt(u, k) * VAt(v, k))
  }

  /** The terms of row i of a times column j of b. */
  function ProductTerms(a: Mat, b: Mat, i: int, j: int): int -> real
  {
    k => At(a, i, k) * At(b, k, j)
  }

  /** numpy's `a.dot(b)` for n x n matrices. */
  function MatMul(a: Mat, b: Mat, n: nat): (m: Mat)
    ensures IsMatrix(m, n, n)
  {
    seq(n, i => seq(n, j => Sum(n, ProductTerms(a, b, i, j))))
  }

  /** The sum behind (a.b)[i][j], when its terms are those of g less c
      times r, where g sums to x and r to y. */
  lemma ProductLessScaled(a: Mat, b: Mat, n: nat, i: nat, j: nat, g: int -> real, c: real, r: int -> real, x: real, y: real)
    requires i < n && j < n && LessScaled(n, ProductTerms(a, b, i, j), g, c, r)
    requires Sum(n, g) == x && Sum(n, r) == y
    ensures Sum(n, ProductTerms(a, b, i, j)) == x - c * y
  {
    SumLessScaled(n, ProductTerms(a, b, i, j), g, c, r);
  }

  /** (a.b)[i][j] is the sum of its terms. */
  lemma MatMulEntry(a: Mat, b: Mat, n: nat, i: nat, j: nat)
    requires i < n && j < n
    ensures MatMul(a, b, n)[i][j] == Sum(n, ProductTerms(a, b, i, j))
  {
  }

  function MatAdd(a: Mat, b: Mat, rows: nat, cols: nat): (m: Mat)
    ensures IsMatrix(m, rows, cols)
  {
    seq(rows, i => seq(cols, j => At(a, i, j) + At(b, i, j)))
  }

  function MatSub(a: Mat, b: Mat, rows: nat, cols: nat): (m: Mat)
    ensures IsMatrix(m, rows, cols)
  {
    seq(rows, i => seq(cols, j => At(a, i, j) - At(b, i, j)))
  }

  function MatScale(a: Mat, c: real, rows: nat, cols: nat): (m: Mat)
    ensures IsMatrix(m, rows, cols)
  {
    seq(rows, i => seq(cols, j => c * At(a, i, j)))
  }

  function Zeros(rows: nat, cols: nat): (m: Mat)
    ensures IsMatrix(m, rows, cols)
  {
    seq(rows, i => seq(cols, j => 0.0))
  }

  /** m[j][i] for a rows x cols matrix m. */
  function Transpose(m: Mat, rows: nat, cols: nat): (t: Mat)
    ensures IsMatrix(t, cols, rows)
  {
    seq(cols, j => seq(rows, i => At(m, i, j)))
  }

  /** The current contents of a two-dimensional array. */
  function Contents(a: array2<real>): (m: Mat)
    reads a
    ensures IsMatrix(m, a.Length0, a.Length1)
  {
    seq(a.Length0, i requires 0 <= i < a.Length0 reads a =>
      seq(a.Length1, j requires 0 <= j < a.Length1 reads a => a[i, j]))
  }

  /** Transposing twice gives back the matrix. */
  lemma TransposeTwice(m: Mat, rows: nat, cols: nat)
    requires IsMatrix(m, rows, cols)
    ensures Transpose(Transpose(m, rows, cols), cols, rows) == m
  {
    var t := Transpose(Transpose(m, rows, cols), cols, rows);
    assert forall i :: 0 <= i < rows ==> t[i] == m[i];
  }

  // ---------------------------------------------------------------------
  // Cartesian layout <-> Fortran block layout

  /** QE_fc[:, :, na, nb] = fc[3*na : 3*na+3, 3*nb : 3*nb+3] for every pair. */
  function ToBlocks(f: Mat, nat_: nat): (b: BlockGrid)
    ensures IsBlockGrid(b, nat_)
  {
    seq(nat_, na => seq(nat_, nb => seq(3, a => seq(3, c => At(f, 3 * na + a, 3 * nb + c)))))
  }

  /** Entry (i, j) of a block grid read in the Cartesian layout. */
  function BlockAt(b: BlockGrid, i: int, j: int): real
  {
    if 0 <= i && 0 <= j && i / 3 < |b| && j / 3 < |b[i / 3]| then At(b[i / 3][j / 3], i % 3, j % 3) else 0.0
  }

  /** fc[3*na : 3*na+3, 3*nb : 3*nb+3] = QE_fc[:, :, na, nb] for every pair. */
  function FromBlocks(b: BlockGrid, nat_: nat): (f: Mat)
    ensures IsMatrix(f, 3 * nat_, 3 * nat_)
  {
    seq(3 * nat_, i => seq(3 * nat_, j => BlockAt(b, i, j)))
  }

  /** Packing into blocks and unpacking again returns the matrix. */
  lemma FromToBlocks(f: Mat, nat_: nat)
    requires IsMatrix(f, 3 * nat_, 3 * nat_)
    ensures FromBlocks(ToBlocks(f, nat_), nat_) == f
  {
    var g := FromBlocks(ToBlocks(f, nat_), nat_);
    forall i | 0 <= i < 3 * nat_ ensures g[i] == f[i] {
      forall j | 0 <= j < 3 * nat_ ensures g[i][j] == f[i][j] {
        var blocks := ToBlocks(f, nat_);
        assert 3 * (i / 3) + i % 3 == i && 3 * (j / 3) + j % 3 == j;
        assert i / 3 < nat_ && j / 3 < nat_;
        assert blocks[i / 3][j / 3][i % 3][j % 3] == At(f, i, j);
      }
    }
  }

  /** Unpacking a block grid and packing it again returns the grid. */
  lemma ToFromBlocks(b: BlockGrid, nat_: nat)
    requires IsBlockGrid(b, nat_)
    ensures ToBlocks(FromBlocks(b, nat_), nat_) == b
  {
    var g := ToBlocks(FromBlocks(b, nat_), nat_);
    forall na | 0 <= na < nat_ ensures g[na] == b[na] {
      forall nb | 0 <= nb < nat_ ensures g[na][nb] == b[na][nb] {
        forall a | 0 <= a < 3 ensures g[na][nb][a] == b[na][nb][a] {
          forall c | 0 <= c < 3 ensures g[na][nb][a][c] == b[na][nb][a][c] {
            var i, j := 3 * na + a, 3 * nb + c;
            assert i / 3 == na && i % 3 == a;
            assert j / 3 == nb && j % 3 == c;
            assert g[na][nb][a][c] == At(FromBlocks(b, nat_), i, j) == BlockAt(b, i, j);
          }
        }
      }
    }
  }

  /** `m` transposed by the nested copy loops of the constructor
      (symmetries.py:77-95). */
  method TransposeInto(m: Mat, rows: nat, cols: nat) returns (t: Mat)
    ensures t == Transpose(m, rows, cols)
  {
    var a := new real[cols, rows];
    for i := 0 to rows
      invariant forall c, k :: 0 <= c < cols && 0 <= k < i ==> a[c, k] == At(m, k, c)
    {
      for j := 0 to cols
        invariant forall c, k :: 0 <= c < cols && 0 <= k < i ==> a[c, k] == At(m, k, c)
        invariant forall c :: 0 <= c < j ==> a[c, i] == At(m, i, c)
      {
        a[j, i] := At(m, i, j);
      }
    }
    t := Contents(a);
    forall c | 0 <= c < cols ensures t[c] == Transpose(m, rows, cols)[c] {
    }
  }
}
