/** `ImpData` (ffm.h:52-72): one side of the training data. Its public fields
    are updated in place by `read`, `split_fields` and `transY`; each method
    here assigns them from the corresponding algorithm of the `Reader`, `Csr`
    and `Transpose` modules. Row pointers (`Node*` in the source) are offsets
    into the backing sequence they point into. */
module Data {
  import opened Types
  import Reader
  import Csr
  import Transpose

  class ImpData {
    var m: nat
    var n: nat
    var f: nat
    var nnzX: nat
    var nnzY: nat
    /** Interaction entries: row `i` of `Y` lists the items (or users) row
        `i` interacts with; `val` caches that edge's residual. */
    var M: seq<Node>
    /** Feature entries, row-major; emptied by `split_fields`. */
    var N: seq<Node>
    var X: seq<nat>
    var Y: seq<nat>
    /** Per field: its entries, its row pointers, its cardinality, and the
        occurrences of each of its columns. */
    var Ns: seq<seq<Node>>
    var Xs: seq<seq<nat>>
    var Ds: seq<nat>
    var freq: seq<seq<nat>>

    /** `ImpData(file_name)`: every counter starts at zero, every store empty. */
    constructor ()
      ensures m == 0 && n == 0 && f == 0
      ensures M == [] && N == [] && X == [] && Y == []
      ensures Ns == [] && Xs == [] && Ds == [] && freq == []
    {
      m, n, f, nnzX, nnzY := 0, 0, 0, 0, 0;
      M, N, X, Y := [], [], [], [];
      Ns, Xs, Ds, freq := [], [], [], [];
    }

    /** The row-major store is well formed: `X` tiles `N`, every field id
        is below `f`. */
    predicate RowMajor()
      reads this
    {
      IsOffsets(X, m, |N|) && Csr.FieldsBelow(N, f)
    }

    /** `read(has_label, ds)` on a fresh object, over tokenised lines. */
    method Read(lines: seq<Reader.Line>, hasLabel: bool, ds: Option<seq<nat>>)
      requires m == 0 && n == 0 && f == 0 && M == []
      requires Reader.Covers(ds, lines)
      modifies this
      ensures Reader.ReadResult(lines, hasLabel, ds, m, n, f, nnzX, nnzY, N, X, M, Y)
      ensures Ns == old(Ns) && Xs == old(Xs) && Ds == old(Ds) && freq == old(freq)
    {
      var m', n', f', nX, nY, N', X', M', Y' := Reader.Read(lines, hasLabel, ds);
      m, n, f, nnzX, nnzY := m', n', f', nX, nY;
      N, X, M, Y := N', X', M', Y';
    }

    /** `split_fields()`: one compressed store per field, the cardinalities
        and the column counts; the row-major store is released. */
    method SplitFields()
      requires RowMajor()
      modifies this
      ensures m == old(m) && n == old(n) && f == old(f) && M == old(M) && Y == old(Y)
      ensures nnzX == old(nnzX) && nnzY == old(nnzY)
      ensures |Ns| == f && |Xs| == f && |Ds| == f && |freq| == f
      ensures forall fi :: 0 <= fi < f ==>
        && Ns[fi] == Csr.FieldOf(old(N), fi)
        && IsOffsets(Xs[fi], m, |Ns[fi]|)
        && forall i :: 0 <= i < m ==> Ns[fi][Xs[fi][i]..Xs[fi][i + 1]] == Csr.FieldOf(old(N)[old(X)[i]..old(X)[i + 1]], fi)
      ensures forall fi :: 0 <= fi < f ==> Ds[fi] == Csr.DimOf(old(N), fi)
      ensures forall fi :: 0 <= fi < f ==> |freq[fi]| == Ds[fi]
      ensures forall fi, idx :: 0 <= fi < f && 0 <= idx < Ds[fi] ==> freq[fi][idx] == Csr.Occ(old(N), fi, idx)
      ensures X == [] && N == []
    {
      Ns, Xs, Ds, freq := Csr.SplitFields(N, X, m, f);
      X, N := [], [];
    }

    /** `transY(YT)`: the other side's interaction rows `(YN, YX)`, with
        `n = |YT| - 1` rows, transposed into this side's `M` and `Y`. */
    method TransY(YN: seq<Node>, YX: seq<nat>, rows: nat)
      requires IsOffsets(YX, rows, |YN|)
      modifies this
      ensures n == rows && nnzY == |M| && IsOffsets(Y, m, |M|)
      ensures M == Transpose.Relabel(Transpose.SortByColumn(Transpose.Kept(YN, YX, rows, rows, m), m))
      ensures forall t :: 0 <= t < m ==>
        M[Y[t]..Y[t + 1]] == Transpose.Relabel(Transpose.ByColumn(Transpose.Kept(YN, YX, rows, rows, m), t))
      ensures m == old(m) && f == old(f) && N == old(N) && X == old(X)
      ensures Ns == old(Ns) && Xs == old(Xs) && Ds == old(Ds) && freq == old(freq) && nnzX == old(nnzX)
    {
      var M', Y', nnz' := Transpose.TransY(YN, YX, rows, m);
      n, M, Y, nnzY := rows, M', Y', nnz';
    }
  }
}
