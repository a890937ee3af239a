/** Value types shared by every part of the model of the field-aware
    factorisation trainer (ffm.h). Indices are unsigned in the source
    (`ImpInt`, `ImpLong`), so they are naturals here; doubles are reals. */
module Types {

  /** One nonzero entry of a sparse row: field id, column index and value.
      The same record carries one interaction edge (then `idx` is the row of
      the other side and `val` is the cached residual of that edge). */
  datatype Node = Node(fid: nat, idx: nat, val: real)

  /** `Node()` default-constructs every field to zero. */
  const DefaultNode: Node := Node(0, 0, 0.0)

  /** MIN_Z: the score that top-k selection writes over an index it has
      already picked, so that it is not picked again. */
  const MinZ: real := -1000.0

  /** The training options. */
  datatype Parameter = Parameter(
    omega: real, lambda: real, r: real,
    nrPass: nat, k: nat, nrThreads: nat,
    selfSide: bool, freq: bool)

  /** `Parameter()`: the defaults every run starts from. */
  const DefaultParameter: Parameter :=
    Parameter(0.1, 0.00001, -1.0, 20, 4, 1, true, false)

  datatype Option<T> = None | Some(value: T)

  /** `X` holds the row pointers of a compressed sparse store over a backing
      sequence of length `len`: row `i` is `[X[i], X[i+1])`, the first row
      starts at 0 and the last one ends at `len`. */
  predicate IsOffsets(X: seq<nat>, rows: nat, len: nat)
  {
    && |X| == rows + 1
    && X[0] == 0
    && X[rows] == len
    && forall i, j :: 0 <= i <= j <= rows ==> X[i] <= X[j]
  }

  /** The entries of row `i` of a compressed sparse store. */
  function RowOf(nodes: seq<Node>, X: seq<nat>, rows: nat, i: nat): (r: seq<Node>)
    requires IsOffsets(X, rows, |nodes|) && i < rows
    ensures |r| == X[i + 1] - X[i]
  {
    nodes[X[i]..X[i + 1]]
  }
}
