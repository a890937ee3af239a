/** Dense vectors and matrices of the trainer, in idealised arithmetic.
    A factor matrix or projection is a `Vec` of `rows * k` doubles laid out
    row-major in the source; here it is a sequence of rows of length `k`. */
module LinAlg {

  type Matrix = seq<seq<real>>

  /** `A` has `rows` rows of `k` entries each. */
  predicate Shaped(A: Matrix, rows: nat, k: nat)
  {
    |A| == rows && forall i :: 0 <= i < rows ==> |A[i]| == k
  }

  /** `inner(p, q, k)`: the dot product of two rows (ffm.cpp:57-67),
      taken over their common length. */
  function Inner(x: seq<real>, y: seq<real>): real
  {
    if x == [] || y == [] then 0.0 else x[0] * y[0] + Inner(x[1..], y[1..])
  }

  function VecAdd(x: seq<real>, y: seq<real>): (r: seq<real>)
    requires |x| == |y|
    ensures |r| == |x| && forall d :: 0 <= d < |x| ==> r[d] == x[d] + y[d]
  {
    seq(|x|, d requires 0 <= d < |x| => x[d] + y[d])
  }

  /** `axpy(S, W, size, 1)`: `W + S`, entry by entry. */
  function MatAdd(A: Matrix, B: Matrix): (r: Matrix)
    requires |A| == |B| && forall i :: 0 <= i < |A| ==> |A[i]| == |B[i]|
    ensures |r| == |A| && forall i :: 0 <= i < |A| ==> r[i] == VecAdd(A[i], B[i])
  {
    seq(|A|, i requires 0 <= i < |A| => VecAdd(A[i], B[i]))
  }

  /** Entry `(r, d)` of `A`, or 0 outside it. */
  function Entry(A: Matrix, r: nat, d: nat): real
  {
    if r < |A| && d < |A[r]| then A[r][d] else 0.0
  }

  /** Row `i` of `A`, or empty outside it. */
  function Row(A: Matrix, i: nat): seq<real>
  {
    if i < |A| then A[i] else []
  }

  /** Entry `i` of `x`, or 0 outside it. */
  function At(x: seq<real>, i: nat): real
  {
    if i < |x| then x[i] else 0.0
  }

  function Zeros(rows: nat, k: nat): (Z: Matrix)
    ensures Shaped(Z, rows, k)
    ensures forall i, d :: 0 <= i < rows && 0 <= d < k ==> Z[i][d] == 0.0
  {
    seq(rows, _ => seq(k, _ => 0.0))
  }

  /** The dot product is symmetric. */
  lemma {:induction false} InnerComm(x: seq<real>, y: seq<real>)
    ensures Inner(x, y) == Inner(y, x)
  {
    if x != [] && y != [] {
      InnerComm(x[1..], y[1..]);
    }
  }

  /** The dot product is additive in its left argument. */
  lemma {:induction false} InnerAddLeft(x: seq<real>, s: seq<real>, y: seq<real>)
    requires |x| == |s|
    ensures Inner(VecAdd(x, s), y) == Inner(x, y) + Inner(s, y)
  {
    if x != [] && y != [] {
      assert VecAdd(x, s)[1..] == VecAdd(x[1..], s[1..]);
      InnerAddLeft(x[1..], s[1..], y[1..]);
    }
  }

  /** The dot product is additive in its right argument. */
  lemma InnerAddRight(x: seq<real>, y: seq<real>, s: seq<real>)
    requires |y| == |s|
    ensures Inner(x, VecAdd(y, s)) == Inner(x, y) + Inner(x, s)
  {
    InnerComm(x, VecAdd(y, s));
    InnerAddLeft(y, s, x);
    InnerComm(y, x);
    InnerComm(s, x);
  }

  /** The dot product with an all-zero row vanishes. */
  lemma {:induction false} InnerZero(x: seq<real>, z: seq<real>)
    requires forall d :: 0 <= d < |z| ==> z[d] == 0.0
    ensures Inner(x, z) == 0.0
  {
    if x != [] && z != [] {
      InnerZero(x[1..], z[1..]);
    }
  }
}
