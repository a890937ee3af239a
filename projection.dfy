/** The sparse-times-dense projection of one field (ffm.cpp `UTx`, `UTX`)
    and the row-wise dot products built on it (`hadmard_product`,
    `add_side`). Row `i` of the projection of a field store `(N, X)` through
    a factor matrix `A` is the sum, over the entries `x` of row `i`, of
    `x.val` times row `x.idx` of `A`. */
module Projection {
  import opened Types
  import opened LinAlg

  /** Coordinate `d` of the projection of the entries `nodes`. */
  function RowDot(nodes: seq<Node>, A: Matrix, d: nat): real
  {
    if nodes == [] then 0.0
    else RowDot(nodes[..|nodes| - 1], A, d) + nodes[|nodes| - 1].val * Entry(A, nodes[|nodes| - 1].idx, d)
  }

  function ProjectRow(nodes: seq<Node>, A: Matrix, k: nat): (r: seq<real>)
    ensures |r| == k && forall d :: 0 <= d < k ==> r[d] == RowDot(nodes, A, d)
  {
    seq(k, d requires 0 <= d < k => RowDot(nodes, A, d))
  }

  /** The projection of the `rows` rows of the store `(N, X)` through `A`. */
  function Project(N: seq<Node>, X: seq<nat>, rows: nat, A: Matrix, k: nat): (C: Matrix)
    requires IsOffsets(X, rows, |N|)
    ensures Shaped(C, rows, k)
    ensures forall i :: 0 <= i < rows ==> C[i] == ProjectRow(N[X[i]..X[i + 1]], A, k)
  {
    seq(rows, i requires 0 <= i < rows => ProjectRow(RowOf(N, X, rows, i), A, k))
  }

  /** Every entry of the store names a row of `A` with `k` columns. */
  predicate Fits(N: seq<Node>, A: Matrix, k: nat)
  {
    forall p :: 0 <= p < |N| ==> N[p].idx < |A| && |A[N[p].idx]| == k
  }

  // ---------------------------------------------------------------------
  // Linearity.

  /** One coordinate of a row projection is additive in the factor matrix. */
  lemma {:induction false} RowDotLinear(nodes: seq<Node>, A: Matrix, S: Matrix, rows: nat, k: nat, d: nat)
    requires Shaped(A, rows, k) && Shaped(S, rows, k)
    ensures RowDot(nodes, MatAdd(A, S), d) == RowDot(nodes, A, d) + RowDot(nodes, S, d)
  {
    if nodes != [] {
      RowDotLinear(nodes[..|nodes| - 1], A, S, rows, k, d);
      var x := nodes[|nodes| - 1];
      assert Entry(MatAdd(A, S), x.idx, d) == Entry(A, x.idx, d) + Entry(S, x.idx, d);
    }
  }

  /** The projection is linear in the factor matrix:
      `UTX(X, A + S) = UTX(X, A) + UTX(X, S)`. */
  lemma ProjectLinear(N: seq<Node>, X: seq<nat>, rows: nat, A: Matrix, S: Matrix, r: nat, k: nat)
    requires IsOffsets(X, rows, |N|) && Shaped(A, r, k) && Shaped(S, r, k)
    ensures Project(N, X, rows, MatAdd(A, S), k) == MatAdd(Project(N, X, rows, A, k), Project(N, X, rows, S, k))
  {
    var l, rr := Project(N, X, rows, MatAdd(A, S), k), MatAdd(Project(N, X, rows, A, k), Project(N, X, rows, S, k));
    forall i | 0 <= i < rows
      ensures l[i] == rr[i]
    {
      forall d | 0 <= d < k
        ensures l[i][d] == rr[i][d]
      {
        RowDotLinear(N[X[i]..X[i + 1]], A, S, r, k, d);
      }
    }
  }

  /** A row without entries projects to zero. */
  lemma ProjectEmptyRow(N: seq<Node>, X: seq<nat>, rows: nat, A: Matrix, k: nat, i: nat)
    requires IsOffsets(X, rows, |N|) && i < rows && X[i] == X[i + 1]
    ensures forall d :: 0 <= d < k ==> Project(N, X, rows, A, k)[i][d] == 0.0
  {
    assert N[X[i]..X[i + 1]] == [];
  }

  /** Projecting through the zero matrix gives zero. */
  lemma {:induction false} RowDotZero(nodes: seq<Node>, rows: nat, k: nat, d: nat)
    ensures RowDot(nodes, Zeros(rows, k), d) == 0.0
  {
    if nodes != [] {
      RowDotZero(nodes[..|nodes| - 1], rows, k, d);
    }
  }

  // ---------------------------------------------------------------------
  // The loops.

  /** `UTx(x0, x1, A, c)`: adds the projection of the entries `N[lo..hi]`
      to the row buffer `c`. */
  method UTx(N: seq<Node>, lo: nat, hi: nat, A: Matrix, k: nat, c: seq<real>) returns (c': seq<real>)
    requires lo <= hi <= |N| && |c| == k
    requires forall p :: lo <= p < hi ==> N[p].idx < |A| && |A[N[p].idx]| == k
    ensures |c'| == k && forall d :: 0 <= d < k ==> c'[d] == c[d] + RowDot(N[lo..hi], A, d)
  {
    c' := c;
    var x := lo;
    while x < hi
      invariant lo <= x <= hi && |c'| == k
      invariant forall d :: 0 <= d < k ==> c'[d] == c[d] + RowDot(N[lo..x], A, d)
    {
      var idx, val := N[x].idx, N[x].val;
      assert N[lo..x + 1][..x - lo] == N[lo..x] && N[lo..x + 1][x - lo] == N[x];
      var d := 0;
      while d < k
        invariant d <= k && |c'| == k
        invariant forall e :: 0 <= e < d ==> c'[e] == c[e] + RowDot(N[lo..x + 1], A, e)
        invariant forall e :: d <= e < k ==> c'[e] == c[e] + RowDot(N[lo..x], A, e)
      {
        c' := c'[d := c'[d] + val * A[idx][d]];
        d := d + 1;
      }
      x := x + 1;
    }
  }

  /** `UTX(X, m1, A, C)`: zeroes the buffer `C`, whatever it held, and
      writes the projection of each of the `m1` rows into it. */
  method UTX(N: seq<Node>, X: seq<nat>, m1: nat, A: Matrix, k: nat, C0: Matrix) returns (C: Matrix)
    requires IsOffsets(X, m1, |N|) && Fits(N, A, k)
    ensures C == Project(N, X, m1, A, k)
  {
    C := Zeros(m1, k);
    var i := 0;
    while i < m1
      invariant i <= m1 && Shaped(C, m1, k)
      invariant forall r :: 0 <= r < i ==> C[r] == ProjectRow(N[X[r]..X[r + 1]], A, k)
      invariant forall r, d :: i <= r < m1 && 0 <= d < k ==> C[r][d] == 0.0
    {
      assert X[i] <= X[i + 1] <= |N|;
      var row := UTx(N, X[i], X[i + 1], A, k, C[i]);
      C := C[i := row];
      i := i + 1;
    }
  }

  /** `hadmard_product(V1, V2, row, col, alpha, vv)`: adds `alpha` times the
      dot product of row `i` of `V1` and `V2` to `vv[i]`, for each row. */
  method HadamardProduct(V1: Matrix, V2: Matrix, rows: nat, k: nat, alpha: real, vv: seq<real>)
    returns (vv': seq<real>)
    requires Shaped(V1, rows, k) && Shaped(V2, rows, k) && |vv| == rows
    ensures |vv'| == rows && forall i :: 0 <= i < rows ==> vv'[i] == vv[i] + alpha * Inner(V1[i], V2[i])
  {
    vv' := vv;
    var i := 0;
    while i < rows
      invariant i <= rows && |vv'| == rows
      invariant forall r :: 0 <= r < i ==> vv'[r] == vv[r] + alpha * Inner(V1[r], V2[r])
      invariant forall r :: i <= r < rows ==> vv'[r] == vv[r]
    {
      vv' := vv'[i := vv'[i] + alpha * Inner(V1[i], V2[i])];
      i := i + 1;
    }
  }

  /** `add_side(p, q, m1, a1)`: adds the dot product of row `i` of `p` and
      `q` to `a1[i]`, for each row. */
  method AddSide(p: Matrix, q: Matrix, m1: nat, k: nat, a1: seq<real>) returns (a1': seq<real>)
    requires Shaped(p, m1, k) && Shaped(q, m1, k) && |a1| == m1
    ensures |a1'| == m1 && forall i :: 0 <= i < m1 ==> a1'[i] == a1[i] + Inner(p[i], q[i])
  {
    a1' := HadamardProduct(p, q, m1, k, 1.0, a1);
  }
}
