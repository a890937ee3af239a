/** The state `ImpProblem` (ffm.h:86-145) keeps between block updates, as a
    value, and the invariant every block update preserves: the cached
    projections `P`, `Q` are the projections of the current factors `W`, `H`,
    the self-side sums `a`, `b` are the sums `calc_side` computes, and every
    interaction edge, seen from either side, caches its residual
    `a[u] + b[v] + calc_cross(u, v) - 1`. The class in the `Problem` module
    updates its fields in place; its methods are specified by the step
    predicates of this module on snapshots of its fields. */
module Training {
  import opened Types
  import opened Blocks
  import opened LinAlg
  import opened Projection
  import opened BlockSum

  /** The part of one `ImpData` the trainer reads and writes: its row count,
      its field count, its per-field stores and their cardinalities, and its
      interaction rows (whose `val` the trainer overwrites). */
  datatype Side = Side(rows: nat, nf: nat, Ns: seq<seq<Node>>, Xs: seq<seq<nat>>, Ds: seq<nat>,
                       M: seq<Node>, Y: seq<nat>)

  /** The fields of `ImpProblem` the updates touch. The user side `U` owns
      the fields `[0, fu)`, the item side `V` the fields `[fu, f)`. */
  datatype State = State(k: nat, selfSide: bool, U: Side, V: Side,
                         W: seq<Matrix>, H: seq<Matrix>, P: seq<Matrix>, Q: seq<Matrix>,
                         a: seq<real>, b: seq<real>)
  {
    function Fu(): nat { U.nf }
    function F(): nat { U.nf + V.nf }
    /** `(f1 < fu) ? U : V` */
    function SideFor(g: nat): Side { if g < U.nf then U else V }
    /** `(f1 >= fu) ? f1 - fu : f1` */
    function Local(g: nat): nat { if g < U.nf then g else g - U.nf }
  }

  /** Every entry of a field store names a column below `d`. */
  predicate ColumnsBelow(N: seq<Node>, d: nat)
  {
    forall p :: 0 <= p < |N| ==> N[p].idx < d
  }

  /** The stores of one side are well formed. */
  predicate SideOk(s: Side)
  {
    && |s.Ns| == s.nf && |s.Xs| == s.nf && |s.Ds| == s.nf
    && (forall fi :: 0 <= fi < s.nf ==> IsOffsets(s.Xs[fi], s.rows, |s.Ns[fi]|))
    && (forall fi :: 0 <= fi < s.nf ==> ColumnsBelow(s.Ns[fi], s.Ds[fi]))
    && IsOffsets(s.Y, s.rows, |s.M|)
  }

  /** The block vectors have one slot per block. */
  predicate Shape(t: State)
  {
    && SideOk(t.U) && SideOk(t.V)
    && |t.W| == NrBlocks(t.F()) && |t.H| == NrBlocks(t.F())
    && |t.P| == NrBlocks(t.F()) && |t.Q| == NrBlocks(t.F())
  }

  predicate Frame(t: State)
  {
    Shape(t) && |t.a| == t.U.rows && |t.b| == t.V.rows
  }

  /** The factors of block `(f1, f2)` have one row per column of their field
      (`init_pair`: `W[f12]` is `Df1 x k`, `H[f12]` is `Df2 x k`). */
  predicate FactorsShaped(t: State, f1: nat, f2: nat)
    requires Shape(t) && f1 <= f2 < t.F()
  {
    var s := Slot((f1, f2), t.F());
    && Shaped(t.W[s], t.SideFor(f1).Ds[t.Local(f1)], t.k)
    && Shaped(t.H[s], t.SideFor(f2).Ds[t.Local(f2)], t.k)
  }

  /** Block `(f1, f2)` is well shaped and its cached projections are current:
      `P[f12] = UTX(X1, W[f12])` and `Q[f12] = UTX(X2, H[f12])`. */
  predicate BlockOk(t: State, f1: nat, f2: nat)
    requires Shape(t) && f1 <= f2 < t.F()
  {
    var s := Slot((f1, f2), t.F());
    var d1, fi := t.SideFor(f1), t.Local(f1);
    var d2, fj := t.SideFor(f2), t.Local(f2);
    && FactorsShaped(t, f1, f2)
    && t.P[s] == Project(d1.Ns[fi], d1.Xs[fi], d1.rows, t.W[s], t.k)
    && t.Q[s] == Project(d2.Ns[fj], d2.Xs[fj], d2.rows, t.H[s], t.k)
  }

  predicate AllBlocksOk(t: State)
    requires Shape(t)
  {
    forall f1, f2 :: 0 <= f1 <= f2 < t.F() ==> BlockOk(t, f1, f2)
  }

  /** `a` and `b` hold the self-side sums, or stay zero without self-side
      terms. */
  predicate SidesOk(t: State)
    requires Frame(t)
  {
    && (forall i :: 0 <= i < |t.a| ==> t.a[i] == if t.selfSide then SideU(t.P, t.Q, t.Fu(), t.F(), i) else 0.0)
    && (forall j :: 0 <= j < |t.b| ==> t.b[j] == if t.selfSide then SideV(t.P, t.Q, t.Fu(), t.F(), j) else 0.0)
  }

  /** `a[i] + b[j] + calc_cross(i, j) - 1`: the residual `init_y_tilde`
      caches on the edge between user `i` and item `j`. */
  function ScoreOf(a: seq<real>, b: seq<real>, P: seq<Matrix>, Q: seq<Matrix>, fu: nat, f: nat, i: nat, j: nat): real
  {
    At(a, i) + At(b, j) + Cross(P, Q, fu, f, i, j) - 1.0
  }

  /** The residual of the edge between user `u` and item `v`. */
  function Score(t: State, u: nat, v: nat): real
  {
    ScoreOf(t.a, t.b, t.P, t.Q, t.Fu(), t.F(), u, v)
  }

  /** Every edge of the interaction rows `(M, Y)` of one side names a row of
      the other side and caches its residual. `uView` says whether the rows
      are users (`U->Y`) or items (`V->Y`). */
  predicate ResidualView(t: State, M: seq<Node>, Y: seq<nat>, rows: nat, others: nat, uView: bool)
    requires IsOffsets(Y, rows, |M|)
  {
    forall r, p :: 0 <= r < rows && Y[r] <= p < Y[r + 1] ==>
      && M[p].idx < others
      && M[p].val == if uView then Score(t, r, M[p].idx) else Score(t, M[p].idx, r)
  }

  /** The invariant of a trained or training `ImpProblem`. */
  predicate Inv(t: State)
  {
    && Frame(t)
    && AllBlocksOk(t)
    && SidesOk(t)
    && ResidualView(t, t.U.M, t.U.Y, t.U.rows, t.V.rows, true)
    && ResidualView(t, t.V.M, t.V.Y, t.V.rows, t.U.rows, false)
  }

  // ---------------------------------------------------------------------
  // How an update moves the cached residuals.

  /** The change an update makes to the residual of edge `(u, v)`.
      `update_cross` adds the dot product of row `o` of `XS` (the projection
      of the step on the updated side, `o` that side's end of the edge) and
      row `x` of `Q1` (the other side's projection of the block, `x` its end
      of the edge); `update_side` adds `gaps[o]`. `ownU` says whether the
      updated side is the user side. */
  datatype Gain = CrossGain(XS: Matrix, Q1: Matrix, ownU: bool) | SideGain(gaps: seq<real>, ownU: bool)

  function GainAt(g: Gain, u: nat, v: nat): real
  {
    match g
    case CrossGain(XS, Q1, ownU) =>
      if ownU then Inner(Row(XS, u), Row(Q1, v)) else Inner(Row(XS, v), Row(Q1, u))
    case SideGain(gaps, ownU) =>
      if ownU then At(gaps, u) else At(gaps, v)
  }

  /** What a loop over the interaction rows does to one edge `x` of row
      `r`: raise its residual by its gain, or (`init_y_tilde`) overwrite it
      with the residual computed from `a`, `b`, `P`, `Q`. */
  datatype Edit =
    | Shift(g: Gain)
    | Reset(a: seq<real>, b: seq<real>, P: seq<Matrix>, Q: seq<Matrix>, fu: nat, f: nat)

  function Edited(e: Edit, x: Node, r: nat, uView: bool): Node
  {
    match e
    case Shift(g) =>
      x.(val := x.val + if uView then GainAt(g, r, x.idx) else GainAt(g, x.idx, r))
    case Reset(a, b, P, Q, fu, f) =>
      x.(val := if uView then ScoreOf(a, b, P, Q, fu, f, r, x.idx) else ScoreOf(a, b, P, Q, fu, f, x.idx, r))
  }

  /** `M'` is `M` with every edge edited by `e`. */
  predicate EditedView(M: seq<Node>, M': seq<Node>, Y: seq<nat>, rows: nat, uView: bool, e: Edit)
    requires IsOffsets(Y, rows, |M|)
  {
    && |M'| == |M|
    && forall r, p :: 0 <= r < rows && Y[r] <= p < Y[r + 1] ==> M'[p] == Edited(e, M[p], r, uView)
  }

  /** `M'` is `M` with the residual of every edge raised by its gain. */
  predicate ShiftedView(M: seq<Node>, M': seq<Node>, Y: seq<nat>, rows: nat, uView: bool, g: Gain)
    requires IsOffsets(Y, rows, |M|)
  {
    EditedView(M, M', Y, rows, uView, Shift(g))
  }

  /** `M'` differs from `M` at most in the values of its edges: every edge
      keeps its field id and its target. */
  predicate SameEdges(M: seq<Node>, M': seq<Node>)
  {
    |M'| == |M| && forall p :: 0 <= p < |M| ==> M'[p] == M[p].(val := M'[p].val)
  }

  /** Editing a view writes only `y->val`: every edge keeps its target. */
  lemma EditedKeepsEdges(M: seq<Node>, M': seq<Node>, Y: seq<nat>, rows: nat, uView: bool, e: Edit)
    requires IsOffsets(Y, rows, |M|) && EditedView(M, M', Y, rows, uView, e)
    ensures SameEdges(M, M')
  {
    forall p | 0 <= p < |M|
      ensures M'[p] == M[p].(val := M'[p].val)
    {
      var r := RowOfPosition(Y, rows, |M|, p);
    }
  }

  /** `hadmard_product(XS, Q1, m1, k, 1, gaps)` on a zero `gaps`. */
  function Gaps(XS: Matrix, Q1: Matrix, rows: nat): (gaps: seq<real>)
    ensures |gaps| == rows
  {
    seq(rows, i requires 0 <= i < rows => Inner(Row(XS, i), Row(Q1, i)))
  }

  /** A step keeps the data of both sides and the options; only the
      residuals cached in the interaction rows may change. */
  predicate SameData(t: State, t': State)
  {
    t'.k == t.k && t'.selfSide == t.selfSide && t'.U == t.U.(M := t'.U.M) && t'.V == t.V.(M := t'.V.M)
  }

  /** Every edge of both views rises by its gain. */
  predicate EdgeStep(t: State, t': State, g: Gain)
    requires SideOk(t.U) && SideOk(t.V)
  {
    && ShiftedView(t.U.M, t'.U.M, t.U.Y, t.U.rows, true, g)
    && ShiftedView(t.V.M, t'.V.M, t.V.Y, t.V.rows, false, g)
  }

  /** Shifting both views by a gain keeps every edge's target. */
  lemma EdgeStepKeepsEdges(t: State, t': State, g: Gain)
    requires SideOk(t.U) && SideOk(t.V) && EdgeStep(t, t', g)
    ensures SameEdges(t.U.M, t'.U.M) && SameEdges(t.V.M, t'.V.M)
  {
    EditedKeepsEdges(t.U.M, t'.U.M, t.U.Y, t.U.rows, true, Shift(g));
    EditedKeepsEdges(t.V.M, t'.V.M, t.V.Y, t.V.rows, false, Shift(g));
  }

  /** If every residual rises by the gain and every edge is shifted by its
      gain, the cached residuals stay current. */
  lemma ResidualShift(t: State, t': State, M: seq<Node>, M': seq<Node>, Y: seq<nat>,
                      rows: nat, others: nat, uView: bool, g: Gain)
    requires IsOffsets(Y, rows, |M|) && ResidualView(t, M, Y, rows, others, uView)
    requires ShiftedView(M, M', Y, rows, uView, g)
    requires forall u, v :: 0 <= u < (if uView then rows else others) && 0 <= v < (if uView then others else rows) ==>
      Score(t', u, v) == Score(t, u, v) + GainAt(g, u, v)
    ensures IsOffsets(Y, rows, |M'|) && ResidualView(t', M', Y, rows, others, uView)
  {
    forall r, p | 0 <= r < rows && Y[r] <= p < Y[r + 1]
      ensures M'[p].idx < others
      ensures M'[p].val == if uView then Score(t', r, M'[p].idx) else Score(t', M'[p].idx, r)
    {
      assert Y[r + 1] <= Y[rows];
      if uView {
        assert Score(t', r, M[p].idx) == Score(t, r, M[p].idx) + GainAt(g, r, M[p].idx);
      } else {
        assert Score(t', M[p].idx, r) == Score(t, M[p].idx, r) + GainAt(g, M[p].idx, r);
      }
    }
  }

  /** Both views of a step that shifts every edge by its gain. */
  lemma ViewsShift(t: State, t': State, g: Gain)
    requires SideOk(t.U) && SideOk(t.V) && SameData(t, t')
    requires ResidualView(t, t.U.M, t.U.Y, t.U.rows, t.V.rows, true)
    requires ResidualView(t, t.V.M, t.V.Y, t.V.rows, t.U.rows, false)
    requires EdgeStep(t, t', g)
    requires forall u, v :: 0 <= u < t.U.rows && 0 <= v < t.V.rows ==>
      Score(t', u, v) == Score(t, u, v) + GainAt(g, u, v)
    ensures SideOk(t'.U) && SideOk(t'.V)
    ensures ResidualView(t', t'.U.M, t'.U.Y, t'.U.rows, t'.V.rows, true)
    ensures ResidualView(t', t'.V.M, t'.V.Y, t'.V.rows, t'.U.rows, false)
  {
    ResidualShift(t, t', t.U.M, t'.U.M, t.U.Y, t.U.rows, t.V.rows, true, g);
    ResidualShift(t, t', t.V.M, t'.V.M, t.V.Y, t.V.rows, t.U.rows, false, g);
  }

  /** A step that only shifts residuals keeps both sides well formed. */
  lemma ViewsShiftShape(t: State, t': State, g: Gain)
    requires SideOk(t.U) && SideOk(t.V) && SameData(t, t') && EdgeStep(t, t', g)
    ensures SideOk(t'.U) && SideOk(t'.V)
  {
  }

  /** Every edge names a row of the other side. */
  predicate EdgesBelow(M: seq<Node>, others: nat)
  {
    forall p :: 0 <= p < |M| ==> M[p].idx < others
  }

  /** Every position of a compressed store lies in some row. */
  lemma RowOfPosition(Y: seq<nat>, rows: nat, len: nat, p: nat) returns (r: nat)
    requires IsOffsets(Y, rows, len) && p < len
    ensures r < rows && Y[r] <= p < Y[r + 1]
  {
    r := 0;
    while Y[r + 1] <= p
      invariant r < rows && Y[r] <= p
      decreases rows - r
    {
      r := r + 1;
    }
  }

  /** Under the invariant every edge, in both views, names a row of the
      other side. */
  lemma InvEdgesBelow(t: State)
    requires Inv(t)
    ensures EdgesBelow(t.U.M, t.V.rows) && EdgesBelow(t.V.M, t.U.rows)
  {
    forall p | 0 <= p < |t.U.M|
      ensures t.U.M[p].idx < t.V.rows
    {
      var r := RowOfPosition(t.U.Y, t.U.rows, |t.U.M|, p);
    }
    forall p | 0 <= p < |t.V.M|
      ensures t.V.M[p].idx < t.U.rows
    {
      var r := RowOfPosition(t.V.Y, t.V.rows, |t.V.M|, p);
    }
  }

  /** `init_y_tilde` on a state whose blocks and side sums are current:
      afterwards every edge caches its residual, whatever it held before. */
  lemma {:induction false} ResetEstablishesInv(t: State, mu: seq<Node>, mv: seq<Node>)
    requires Frame(t) && AllBlocksOk(t) && SidesOk(t)
    requires EdgesBelow(t.U.M, t.V.rows) && EdgesBelow(t.V.M, t.U.rows)
    requires EditedView(t.U.M, mu, t.U.Y, t.U.rows, true, Reset(t.a, t.b, t.P, t.Q, t.Fu(), t.F()))
    requires EditedView(t.V.M, mv, t.V.Y, t.V.rows, false, Reset(t.a, t.b, t.P, t.Q, t.Fu(), t.F()))
    ensures Inv(t.(U := t.U.(M := mu), V := t.V.(M := mv)))
  {
    var t' := t.(U := t.U.(M := mu), V := t.V.(M := mv));
    var e := Reset(t.a, t.b, t.P, t.Q, t.Fu(), t.F());
    assert t'.a == t.a && t'.b == t.b && t'.P == t.P && t'.Q == t.Q && t'.Fu() == t.Fu() && t'.F() == t.F();
    assert SideOk(t'.U) && SideOk(t'.V) && Frame(t');
    assert AllBlocksOk(t') by {
      forall f1, f2 | 0 <= f1 <= f2 < t.F()
        ensures BlockOk(t', f1, f2)
      {
        BlockOkFrame(t, t', f1, f2);
      }
    }
    forall r, p | 0 <= r < t.U.rows && t.U.Y[r] <= p < t.U.Y[r + 1]
      ensures t'.U.M[p].idx < t.V.rows && t'.U.M[p].val == Score(t', r, t'.U.M[p].idx)
    {
      assert t.U.Y[r + 1] <= t.U.Y[t.U.rows];
      assert t'.U.M[p] == Edited(e, t.U.M[p], r, true);
    }
    forall r, p | 0 <= r < t.V.rows && t.V.Y[r] <= p < t.V.Y[r + 1]
      ensures t'.V.M[p].idx < t.U.rows && t'.V.M[p].val == Score(t', t'.V.M[p].idx, r)
    {
      assert t.V.Y[r + 1] <= t.V.Y[t.V.rows];
      assert t'.V.M[p] == Edited(e, t.V.M[p], r, false);
    }
  }

  /** A block whose slot and sides are untouched keeps its status. */
  lemma BlockOkFrame(t: State, t': State, f1: nat, f2: nat)
    requires Shape(t) && Shape(t') && f1 <= f2 < t.F()
    requires t'.k == t.k && t'.U.(M := t.U.M) == t.U && t'.V.(M := t.V.M) == t.V
    requires var s := Slot((f1, f2), t.F());
      t'.W[s] == t.W[s] && t'.H[s] == t.H[s] && t'.P[s] == t.P[s] && t'.Q[s] == t.Q[s]
    ensures BlockOk(t', f1, f2) == BlockOk(t, f1, f2)
  {
  }

  // ---------------------------------------------------------------------
  // The effect of one step on the block sums.

  /** `A` has the row structure of `B`. */
  predicate SameShape(A: Matrix, B: Matrix)
  {
    |A| == |B| && forall i :: 0 <= i < |A| ==> |A[i]| == |B[i]|
  }

  /** No block of `SelfPairs(lo, hi)` shares the slot of a block outside
      that range. */
  lemma SelfSlotsAvoid(lo: nat, hi: nat, f: nat, f1: nat, f2: nat)
    requires hi <= f && f1 <= f2 < f && !(lo <= f1 && f2 < hi)
    ensures forall p :: p in SelfPairs(lo, hi) ==> IndexVec(p.0, p.1, f) != IndexVec(f1, f2, f)
  {
    forall p | p in SelfPairs(lo, hi)
      ensures IndexVec(p.0, p.1, f) != IndexVec(f1, f2, f)
    {
      SelfPairsMember(lo, hi, p);
      IndexVecInjective(p.0, p.1, f1, f2, f);
    }
  }

  /** No cross block shares the slot of a self-side block. */
  lemma CrossSlotsAvoid(fu: nat, f: nat, f1: nat, f2: nat)
    requires f1 <= f2 < f && !(f1 < fu <= f2)
    ensures forall p :: p in CrossPairs(0, fu, f) ==> IndexVec(p.0, p.1, f) != IndexVec(f1, f2, f)
  {
    forall p | p in CrossPairs(0, fu, f)
      ensures IndexVec(p.0, p.1, f) != IndexVec(f1, f2, f)
    {
      CrossPairsMember(0, fu, f, p);
      IndexVecInjective(p.0, p.1, f1, f2, f);
    }
  }

  /** Adding `XS` to the left (or right) projection of block `p0` raises
      its term by the dot product of `XS` with the other projection. */
  lemma TermMoves(P: seq<Matrix>, Q: seq<Matrix>, P': seq<Matrix>, Q': seq<Matrix>, f: nat, p0: Pair,
                  left: bool, XS: Matrix, u: nat, v: nat)
    requires ValidPair(p0, f) && |P| == |P'| == |Q| == |Q'| == NrBlocks(f)
    requires var s := Slot(p0, f);
      && u < |P[s]| && v < |Q[s]|
      && if left then SameShape(XS, P[s]) && P'[s] == MatAdd(P[s], XS) && Q'[s] == Q[s]
         else SameShape(XS, Q[s]) && Q'[s] == MatAdd(Q[s], XS) && P'[s] == P[s]
    ensures var s := Slot(p0, f);
      Term(P', Q', f, p0, u, v) == Term(P, Q, f, p0, u, v) +
        if left then Inner(Row(XS, u), Row(Q[s], v)) else Inner(Row(XS, v), Row(P[s], u))
  {
    var s := Slot(p0, f);
    if left {
      InnerAddLeft(P[s][u], XS[u], Q[s][v]);
    } else {
      InnerAddRight(P[s][u], Q[s][v], XS[v]);
      InnerComm(P[s][u], XS[v]);
    }
  }

  /** The same over a duplicate-free list of blocks holding `p0`, when no
      other slot changes. */
  lemma SumMoves(P: seq<Matrix>, Q: seq<Matrix>, P': seq<Matrix>, Q': seq<Matrix>, f: nat, ps: seq<Pair>, p0: Pair,
                 left: bool, XS: Matrix, u: nat, v: nat)
    requires NoDup(ps) && AllValid(ps, f) && p0 in ps
    requires ValidPair(p0, f) && |P| == |P'| == |Q| == |Q'| == NrBlocks(f)
    requires forall s :: 0 <= s < NrBlocks(f) && s != Slot(p0, f) ==> P'[s] == P[s] && Q'[s] == Q[s]
    requires var s := Slot(p0, f);
      && u < |P[s]| && v < |Q[s]|
      && if left then SameShape(XS, P[s]) && P'[s] == MatAdd(P[s], XS) && Q'[s] == Q[s]
         else SameShape(XS, Q[s]) && Q'[s] == MatAdd(Q[s], XS) && P'[s] == P[s]
    ensures var s := Slot(p0, f);
      PairSum(P', Q', f, ps, u, v) == PairSum(P, Q, f, ps, u, v) +
        if left then Inner(Row(XS, u), Row(Q[s], v)) else Inner(Row(XS, v), Row(P[s], u))
  {
    BlockSumChanged(P, Q, P', Q', f, ps, u, v, p0);
    TermMoves(P, Q, P', Q', f, p0, left, XS, u, v);
  }

  /** Blocks other than `(f1, f2)` keep their slots' contents. */
  predicate OnlySlotChanges(t: State, t': State, f1: nat, f2: nat)
    requires Shape(t) && Shape(t') && t'.F() == t.F() && f1 <= f2 < t.F()
  {
    forall s :: 0 <= s < NrBlocks(t.F()) && s != Slot((f1, f2), t.F()) ==>
      t'.W[s] == t.W[s] && t'.H[s] == t.H[s] && t'.P[s] == t.P[s] && t'.Q[s] == t.Q[s]
  }

  /** A step that touches only the slot of `(f1, f2)` and leaves that block
      consistent keeps every block consistent. */
  lemma BlocksKept(t: State, t': State, f1: nat, f2: nat)
    requires Shape(t) && AllBlocksOk(t) && Shape(t') && f1 <= f2 < t.F()
    requires t'.k == t.k && t'.U.(M := t.U.M) == t.U && t'.V.(M := t.V.M) == t.V
    requires OnlySlotChanges(t, t', f1, f2) && BlockOk(t', f1, f2)
    ensures AllBlocksOk(t')
  {
    forall g1, g2 | 0 <= g1 <= g2 < t'.F()
      ensures BlockOk(t', g1, g2)
    {
      if (g1, g2) != (f1, f2) {
        IndexVecInjective(g1, g2, f1, f2, t.F());
        assert BlockOk(t, g1, g2);
        BlockOkFrame(t, t', g1, g2);
      }
    }
  }

  /** The projections of block `(f1, f2)` after one of its factors took
      the step whose projection is `XS`. */
  predicate SlotMoved(t: State, t': State, f1: nat, f2: nat, left: bool, XS: Matrix)
    requires Shape(t) && Shape(t') && t'.F() == t.F() && f1 <= f2 < t.F()
  {
    var s := Slot((f1, f2), t.F());
    if left then SameShape(XS, t.P[s]) && t'.P[s] == MatAdd(t.P[s], XS) && t'.Q[s] == t.Q[s]
    else SameShape(XS, t.Q[s]) && t'.Q[s] == MatAdd(t.Q[s], XS) && t'.P[s] == t.P[s]
  }

  // ---------------------------------------------------------------------
  // The factor half of an update: `axpy(S, W1)` then `UTX(X12, m1, W1, P1)`.

  /** The field whose store the step is projected through: `f1` when the
      left factor `W[f12]` moves, `f2` when the right factor `H[f12]` does. */
  function StepField(f1: nat, f2: nat, left: bool): nat
  {
    if left then f1 else f2
  }

  /** The step has the shape of the factor it is added to. */
  predicate StepShaped(t: State, f1: nat, f2: nat, left: bool, S: Matrix)
    requires Shape(t) && f1 <= f2 < t.F()
  {
    var g := StepField(f1, f2, left);
    Shaped(S, t.SideFor(g).Ds[t.Local(g)], t.k)
  }

  /** `XS = UTX(X12, m1, S)`: the projection of the step. */
  function StepXS(t: State, f1: nat, f2: nat, left: bool, S: Matrix): Matrix
    requires Shape(t) && f1 <= f2 < t.F()
  {
    var g := StepField(f1, f2, left);
    var d, fi := t.SideFor(g), t.Local(g);
    Project(d.Ns[fi], d.Xs[fi], d.rows, S, t.k)
  }

  /** `Q1`: the projection of the block on the side that does not move. */
  function Partner(t: State, f1: nat, f2: nat, left: bool): Matrix
    requires Shape(t) && f1 <= f2 < t.F()
  {
    var s := Slot((f1, f2), t.F());
    if left then t.Q[s] else t.P[s]
  }

  /** The moving factor takes the step and its projection is recomputed;
      every other factor and projection stays. */
  predicate FactorStep(t: State, t': State, f1: nat, f2: nat, left: bool, S: Matrix)
    requires Shape(t) && f1 <= f2 < t.F() && FactorsShaped(t, f1, f2) && StepShaped(t, f1, f2, left, S)
  {
    var s := Slot((f1, f2), t.F());
    var g := StepField(f1, f2, left);
    var d, fi := t.SideFor(g), t.Local(g);
    if left then
      && t'.W == t.W[s := MatAdd(t.W[s], S)] && t'.H == t.H && t'.Q == t.Q
      && t'.P == t.P[s := Project(d.Ns[fi], d.Xs[fi], d.rows, t'.W[s], t.k)]
    else
      && t'.H == t.H[s := MatAdd(t.H[s], S)] && t'.W == t.W && t'.P == t.P
      && t'.Q == t.Q[s := Project(d.Ns[fi], d.Xs[fi], d.rows, t'.H[s], t.k)]
  }

  /** By linearity of the projection, the recomputed projection is the old
      one plus `XS`, and every block stays consistent. */
  lemma FactorStepKeepsBlocks(t: State, t': State, f1: nat, f2: nat, left: bool, S: Matrix)
    requires Shape(t) && AllBlocksOk(t) && f1 <= f2 < t.F() && StepShaped(t, f1, f2, left, S)
    requires SideOk(t'.U) && SideOk(t'.V) && SameData(t, t')
    requires FactorsShaped(t, f1, f2) && FactorStep(t, t', f1, f2, left, S)
    ensures Shape(t') && t'.F() == t.F() && t'.Fu() == t.Fu()
    ensures OnlySlotChanges(t, t', f1, f2) && SlotMoved(t, t', f1, f2, left, StepXS(t, f1, f2, left, S))
    ensures AllBlocksOk(t')
  {
    var s := Slot((f1, f2), t.F());
    var g := StepField(f1, f2, left);
    var d, fi := t.SideFor(g), t.Local(g);
    assert BlockOk(t, f1, f2);
    if left {
      ProjectLinear(d.Ns[fi], d.Xs[fi], d.rows, t.W[s], S, d.Ds[fi], t.k);
    } else {
      ProjectLinear(d.Ns[fi], d.Xs[fi], d.rows, t.H[s], S, d.Ds[fi], t.k);
    }
    assert BlockOk(t', f1, f2);
    BlocksKept(t, t', f1, f2);
  }

  /** `solve_side` and `solve_cross` on block `(f1, f2)`: `W[f12]` took
      the step `S1` and `H[f12]` the step `S2`; no other factor moved. */
  predicate BlockSolved(t: State, t': State, f1: nat, f2: nat, S1: Matrix, S2: Matrix)
    requires Inv(t) && f1 <= f2 < t.F()
    requires StepShaped(t, f1, f2, true, S1) && StepShaped(t, f1, f2, false, S2)
  {
    assert BlockOk(t, f1, f2);
    var s := Slot((f1, f2), t.F());
    t'.W == t.W[s := MatAdd(t.W[s], S1)] && t'.H == t.H[s := MatAdd(t.H[s], S2)]
  }

  /** A left step followed by a right step on the same block moves both of
      its factors and nothing else. */
  lemma TwoFactorSteps(t0: State, t1: State, t2: State, f1: nat, f2: nat, S1: Matrix, S2: Matrix)
    requires Inv(t0) && Inv(t1) && f1 <= f2 < t0.F()
    requires StepShaped(t0, f1, f2, true, S1) && StepShaped(t0, f1, f2, false, S2)
    requires SameData(t0, t1) && SameData(t1, t2)
    requires FactorsShaped(t0, f1, f2) && FactorStep(t0, t1, f1, f2, true, S1)
    requires StepShaped(t1, f1, f2, false, S2)
    requires FactorsShaped(t1, f1, f2) && FactorStep(t1, t2, f1, f2, false, S2)
    ensures SameData(t0, t2) && BlockSolved(t0, t2, f1, f2, S1, S2)
  {
  }

  // ---------------------------------------------------------------------
  // update_cross

  /** `update_cross` on block `(f1, f2)` (`f1 < fu <= f2`) with step `S`:
      on the left (`sub_type`, user side) `W[f12] += S` and `P[f12]` is
      recomputed, on the right `H[f12] += S` and `Q[f12]` is recomputed;
      `a` and `b` stay; every edge, in both views, rises by the dot product
      of its row of `XS = UTX(X12, S)` on the moving side and its row of
      the other side's projection `Q1`. */
  predicate CrossStep(t: State, t': State, f1: nat, f2: nat, left: bool, S: Matrix)
    requires Inv(t) && f1 < t.Fu() <= f2 < t.F()
  {
    assert BlockOk(t, f1, f2);
    && StepShaped(t, f1, f2, left, S)
    && SameData(t, t') && FactorStep(t, t', f1, f2, left, S)
    && t'.a == t.a && t'.b == t.b
    && EdgeStep(t, t', CrossGain(StepXS(t, f1, f2, left, S), Partner(t, f1, f2, left), left))
  }

  /** `update_cross` writes only edge values: every edge keeps its target. */
  lemma CrossStepKeepsEdges(t: State, t': State, f1: nat, f2: nat, left: bool, S: Matrix)
    requires Inv(t) && f1 < t.Fu() <= f2 < t.F() && CrossStep(t, t', f1, f2, left, S)
    ensures SameEdges(t.U.M, t'.U.M) && SameEdges(t.V.M, t'.V.M)
  {
    assert BlockOk(t, f1, f2);
    EdgeStepKeepsEdges(t, t', CrossGain(StepXS(t, f1, f2, left, S), Partner(t, f1, f2, left), left));
  }

  /** A cross step leaves the self-side sums alone. */
  lemma CrossSidesStay(t: State, t': State, f1: nat, f2: nat)
    requires Frame(t) && SidesOk(t) && Shape(t') && t'.F() == t.F() && t'.Fu() == t.Fu()
    requires f1 < t.Fu() <= f2 < t.F() && OnlySlotChanges(t, t', f1, f2)
    requires t'.a == t.a && t'.b == t.b && t'.U.rows == t.U.rows && t'.V.rows == t.V.rows && t'.selfSide == t.selfSide
    ensures Frame(t') && SidesOk(t')
  {
    var f := t.F();
    var s := Slot((f1, f2), f);
    SelfSlotsAvoid(0, t.Fu(), f, f1, f2);
    SelfSlotsAvoid(t.Fu(), f, f, f1, f2);
    forall i | 0 <= i < |t.a|
      ensures SideU(t'.P, t'.Q, t.Fu(), f, i) == SideU(t.P, t.Q, t.Fu(), f, i)
    {
      BlockSumUnchanged(t.P, t.Q, t'.P, t'.Q, f, SelfPairs(0, t.Fu()), i, i, s);
    }
    forall j | 0 <= j < |t.b|
      ensures SideV(t'.P, t'.Q, t.Fu(), f, j) == SideV(t.P, t.Q, t.Fu(), f, j)
    {
      BlockSumUnchanged(t.P, t.Q, t'.P, t'.Q, f, SelfPairs(t.Fu(), f), j, j, s);
    }
  }

  /** A cross step moves the cross score of `(u, v)` by its cross gain. */
  lemma CrossScoresMove(t: State, t': State, f1: nat, f2: nat, left: bool, XS: Matrix)
    requires Shape(t) && AllBlocksOk(t) && Shape(t') && t'.F() == t.F() && t'.Fu() == t.Fu()
    requires f1 < t.Fu() <= f2 < t.F()
    requires OnlySlotChanges(t, t', f1, f2) && SlotMoved(t, t', f1, f2, left, XS)
    requires t'.a == t.a && t'.b == t.b
    ensures forall u, v :: 0 <= u < t.U.rows && 0 <= v < t.V.rows ==>
      Score(t', u, v) == Score(t, u, v) + GainAt(CrossGain(XS, Partner(t, f1, f2, left), left), u, v)
  {
    var f := t.F();
    assert BlockOk(t, f1, f2);
    CrossPairsNoDup(0, t.Fu(), f);
    CrossPairsMember(0, t.Fu(), f, (f1, f2));
    forall x | 0 <= x < |CrossPairs(0, t.Fu(), f)|
      ensures ValidPair(CrossPairs(0, t.Fu(), f)[x], f)
    {
      CrossPairsMember(0, t.Fu(), f, CrossPairs(0, t.Fu(), f)[x]);
    }
    forall u, v | 0 <= u < t.U.rows && 0 <= v < t.V.rows
      ensures Score(t', u, v) == Score(t, u, v) + GainAt(CrossGain(XS, Partner(t, f1, f2, left), left), u, v)
    {
      SumMoves(t.P, t.Q, t'.P, t'.Q, f, CrossPairs(0, t.Fu(), f), (f1, f2), left, XS, u, v);
    }
  }

  /** The headline property of `update_cross`: the residual cached on
      every edge stays `a[u] + b[v] + calc_cross(u, v) - 1`, because the
      projection is linear in the factor and only the cross score of the
      block moves. */
  lemma {:induction false} CrossStepKeepsInv(t: State, t': State, f1: nat, f2: nat, left: bool, S: Matrix)
    requires Inv(t) && f1 < t.Fu() <= f2 < t.F()
    requires CrossStep(t, t', f1, f2, left, S)
    ensures Inv(t')
  {
    assert BlockOk(t, f1, f2);
    var XS := StepXS(t, f1, f2, left, S);
    var g := CrossGain(XS, Partner(t, f1, f2, left), left);
    ViewsShiftShape(t, t', g);
    FactorStepKeepsBlocks(t, t', f1, f2, left, S);
    CrossSidesStay(t, t', f1, f2);
    CrossScoresMove(t, t', f1, f2, left, XS);
    ViewsShift(t, t', g);
  }

  /** With `a` and `b` unchanged, a step that keeps the invariant keeps
      `y.val - calc_cross(i, j)` on every edge of both views. */
  lemma EdgeGapKept(t: State, t': State, g: Gain)
    requires Inv(t) && Inv(t') && SameData(t, t') && EdgeStep(t, t', g)
    requires t'.a == t.a && t'.b == t.b
    ensures forall u, p :: 0 <= u < t.U.rows && t.U.Y[u] <= p < t.U.Y[u + 1] ==>
      t'.U.M[p].idx == t.U.M[p].idx &&
      t'.U.M[p].val - Cross(t'.P, t'.Q, t.Fu(), t.F(), u, t.U.M[p].idx) ==
        t.U.M[p].val - Cross(t.P, t.Q, t.Fu(), t.F(), u, t.U.M[p].idx)
    ensures forall v, p :: 0 <= v < t.V.rows && t.V.Y[v] <= p < t.V.Y[v + 1] ==>
      t'.V.M[p].idx == t.V.M[p].idx &&
      t'.V.M[p].val - Cross(t'.P, t'.Q, t.Fu(), t.F(), t.V.M[p].idx, v) ==
        t.V.M[p].val - Cross(t.P, t.Q, t.Fu(), t.F(), t.V.M[p].idx, v)
  {
    forall u, p | 0 <= u < t.U.rows && t.U.Y[u] <= p < t.U.Y[u + 1]
      ensures t'.U.M[p].idx == t.U.M[p].idx
    {
    }
    forall v, p | 0 <= v < t.V.rows && t.V.Y[v] <= p < t.V.Y[v + 1]
      ensures t'.V.M[p].idx == t.V.M[p].idx
    {
    }
  }

  /** `update_cross` leaves `y.val - calc_cross(i, j)` unchanged on every
      edge. */
  lemma CrossStepKeepsEdgeGap(t: State, t': State, f1: nat, f2: nat, left: bool, S: Matrix)
    requires Inv(t) && f1 < t.Fu() <= f2 < t.F()
    requires CrossStep(t, t', f1, f2, left, S)
    ensures forall u, p :: 0 <= u < t.U.rows && t.U.Y[u] <= p < t.U.Y[u + 1] ==>
      t'.U.M[p].idx == t.U.M[p].idx &&
      t'.U.M[p].val - Cross(t'.P, t'.Q, t.Fu(), t.F(), u, t.U.M[p].idx) ==
        t.U.M[p].val - Cross(t.P, t.Q, t.Fu(), t.F(), u, t.U.M[p].idx)
    ensures forall v, p :: 0 <= v < t.V.rows && t.V.Y[v] <= p < t.V.Y[v + 1] ==>
      t'.V.M[p].idx == t.V.M[p].idx &&
      t'.V.M[p].val - Cross(t'.P, t'.Q, t.Fu(), t.F(), t.V.M[p].idx, v) ==
        t.V.M[p].val - Cross(t.P, t.Q, t.Fu(), t.F(), t.V.M[p].idx, v)
  {
    CrossStepKeepsInv(t, t', f1, f2, left, S);
    assert BlockOk(t, f1, f2);
    EdgeGapKept(t, t', CrossGain(StepXS(t, f1, f2, left, S), Partner(t, f1, f2, left), left));
  }

  // ---------------------------------------------------------------------
  // update_side

  /** `update_side` on the self-side block `(f1, f2)` (both fields on one
      side; `sub_type` is `f1 < fu`) with step `S`: the factor moves as in
      `update_cross`; with `gaps[i]` the dot product of row `i` of `XS` and
      of `Q1`, the side sum (`a` or `b`) of each row `i` of the moving side
      and every edge touching that row rise by `gaps[i]`. */
  predicate SideStep(t: State, t': State, f1: nat, f2: nat, left: bool, S: Matrix)
    requires Inv(t) && f1 <= f2 < t.F() && (f2 < t.Fu() || t.Fu() <= f1)
  {
    assert BlockOk(t, f1, f2);
    var ownU := f1 < t.Fu();
    var gaps := Gaps(StepXS(t, f1, f2, left, S), Partner(t, f1, f2, left), t.SideFor(f1).rows);
    && StepShaped(t, f1, f2, left, S)
    && SameData(t, t') && FactorStep(t, t', f1, f2, left, S)
    && (if ownU then t'.a == VecAdd(t.a, gaps) && t'.b == t.b
        else t'.a == t.a && t'.b == VecAdd(t.b, gaps))
    && EdgeStep(t, t', SideGain(gaps, ownU))
  }

  /** `update_side` writes only edge values: every edge keeps its target. */
  lemma SideStepKeepsEdges(t: State, t': State, f1: nat, f2: nat, left: bool, S: Matrix)
    requires Inv(t) && f1 <= f2 < t.F() && (f2 < t.Fu() || t.Fu() <= f1)
    requires SideStep(t, t', f1, f2, left, S)
    ensures SameEdges(t.U.M, t'.U.M) && SameEdges(t.V.M, t'.V.M)
  {
    assert BlockOk(t, f1, f2);
    var gaps := Gaps(StepXS(t, f1, f2, left, S), Partner(t, f1, f2, left), t.SideFor(f1).rows);
    EdgeStepKeepsEdges(t, t', SideGain(gaps, f1 < t.Fu()));
  }

  /** A self-side step leaves every cross score alone. */
  lemma CrossUnmoved(t: State, t': State, f1: nat, f2: nat)
    requires Shape(t) && Shape(t') && t'.F() == t.F() && t'.Fu() == t.Fu() && f1 <= f2 < t.F()
    requires f2 < t.Fu() || t.Fu() <= f1
    requires OnlySlotChanges(t, t', f1, f2)
    ensures forall u, v :: Cross(t'.P, t'.Q, t.Fu(), t.F(), u, v) == Cross(t.P, t.Q, t.Fu(), t.F(), u, v)
  {
    CrossSlotsAvoid(t.Fu(), t.F(), f1, f2);
    forall u, v
      ensures Cross(t'.P, t'.Q, t.Fu(), t.F(), u, v) == Cross(t.P, t.Q, t.Fu(), t.F(), u, v)
    {
      BlockSumUnchanged(t.P, t.Q, t'.P, t'.Q, t.F(), CrossPairs(0, t.Fu(), t.F()), u, v, Slot((f1, f2), t.F()));
    }
  }

  /** Over the self-side blocks `[lo, hi)` holding `(f1, f2)`, the sum of
      row `i` rises by `gaps[i]`. */
  lemma SelfSumMoves(t: State, t': State, lo: nat, hi: nat, f1: nat, f2: nat, left: bool, XS: Matrix, i: nat)
    requires Shape(t) && Shape(t') && t'.F() == t.F() && lo <= f1 <= f2 < hi <= t.F()
    requires OnlySlotChanges(t, t', f1, f2) && SlotMoved(t, t', f1, f2, left, XS)
    requires var s := Slot((f1, f2), t.F()); i < |t.P[s]| && i < |t.Q[s]|
    ensures PairSum(t'.P, t'.Q, t.F(), SelfPairs(lo, hi), i, i) ==
      PairSum(t.P, t.Q, t.F(), SelfPairs(lo, hi), i, i) + Inner(Row(XS, i), Row(Partner(t, f1, f2, left), i))
  {
    var f := t.F();
    var s := Slot((f1, f2), f);
    SelfPairsNoDup(lo, hi);
    SelfPairsMember(lo, hi, (f1, f2));
    forall x | 0 <= x < |SelfPairs(lo, hi)|
      ensures ValidPair(SelfPairs(lo, hi)[x], f)
    {
      SelfPairsMember(lo, hi, SelfPairs(lo, hi)[x]);
    }
    SumMoves(t.P, t.Q, t'.P, t'.Q, f, SelfPairs(lo, hi), (f1, f2), left, XS, i, i);
    if !left {
      InnerComm(Row(XS, i), Row(t.P[s], i));
    }
  }

  /** Over self-side blocks of the other side, nothing moves. */
  lemma SelfSumStays(t: State, t': State, lo: nat, hi: nat, f1: nat, f2: nat, j: nat)
    requires Shape(t) && Shape(t') && t'.F() == t.F() && hi <= t.F() && f1 <= f2 < t.F()
    requires !(lo <= f1 && f2 < hi)
    requires OnlySlotChanges(t, t', f1, f2)
    ensures PairSum(t'.P, t'.Q, t.F(), SelfPairs(lo, hi), j, j) == PairSum(t.P, t.Q, t.F(), SelfPairs(lo, hi), j, j)
  {
    SelfSlotsAvoid(lo, hi, t.F(), f1, f2);
    BlockSumUnchanged(t.P, t.Q, t'.P, t'.Q, t.F(), SelfPairs(lo, hi), j, j, Slot((f1, f2), t.F()));
  }

  /** The side sums of the moving side rise by `gaps`, so they stay the
      sums `calc_side` computes. */
  lemma SideSumsMove(t: State, t': State, f1: nat, f2: nat, left: bool, XS: Matrix)
    requires Frame(t) && AllBlocksOk(t) && SidesOk(t) && t.selfSide
    requires Shape(t') && t'.F() == t.F() && t'.Fu() == t.Fu() && t'.selfSide
    requires t'.U.rows == t.U.rows && t'.V.rows == t.V.rows
    requires f1 <= f2 < t.F() && (f2 < t.Fu() || t.Fu() <= f1)
    requires OnlySlotChanges(t, t', f1, f2) && SlotMoved(t, t', f1, f2, left, XS)
    requires var gaps := Gaps(XS, Partner(t, f1, f2, left), t.SideFor(f1).rows);
      if f1 < t.Fu() then t'.a == VecAdd(t.a, gaps) && t'.b == t.b else t'.a == t.a && t'.b == VecAdd(t.b, gaps)
    ensures Frame(t') && SidesOk(t')
  {
    var f := t.F();
    assert BlockOk(t, f1, f2);
    var gaps := Gaps(XS, Partner(t, f1, f2, left), t.SideFor(f1).rows);
    if f1 < t.Fu() {
      assert forall i :: 0 <= i < |t'.a| ==> t'.a[i] == SideU(t'.P, t'.Q, t'.Fu(), t'.F(), i) by {
        forall i | 0 <= i < |t'.a|
          ensures t'.a[i] == SideU(t'.P, t'.Q, t'.Fu(), t'.F(), i)
        {
          SelfSumMoves(t, t', 0, t.Fu(), f1, f2, left, XS, i);
        }
      }
      assert forall j :: 0 <= j < |t'.b| ==> t'.b[j] == SideV(t'.P, t'.Q, t'.Fu(), t'.F(), j) by {
        forall j | 0 <= j < |t'.b|
          ensures t'.b[j] == SideV(t'.P, t'.Q, t'.Fu(), t'.F(), j)
        {
          SelfSumStays(t, t', t.Fu(), f, f1, f2, j);
        }
      }
    } else {
      assert forall i :: 0 <= i < |t'.a| ==> t'.a[i] == SideU(t'.P, t'.Q, t'.Fu(), t'.F(), i) by {
        forall i | 0 <= i < |t'.a|
          ensures t'.a[i] == SideU(t'.P, t'.Q, t'.Fu(), t'.F(), i)
        {
          SelfSumStays(t, t', 0, t.Fu(), f1, f2, i);
        }
      }
      assert forall j :: 0 <= j < |t'.b| ==> t'.b[j] == SideV(t'.P, t'.Q, t'.Fu(), t'.F(), j) by {
        forall j | 0 <= j < |t'.b|
          ensures t'.b[j] == SideV(t'.P, t'.Q, t'.Fu(), t'.F(), j)
        {
          SelfSumMoves(t, t', t.Fu(), f, f1, f2, left, XS, j);
        }
      }
    }
  }

  /** When the cross scores stay and the side sums of one side rise by
      `gaps`, every residual rises by its side gain. */
  lemma SideScoresMove(t: State, t': State, gaps: seq<real>, ownU: bool)
    requires |t.a| == t.U.rows && |t.b| == t.V.rows && t'.Fu() == t.Fu() && t'.F() == t.F()
    requires |gaps| == if ownU then |t.a| else |t.b|
    requires if ownU then t'.a == VecAdd(t.a, gaps) && t'.b == t.b else t'.a == t.a && t'.b == VecAdd(t.b, gaps)
    requires forall u, v :: Cross(t'.P, t'.Q, t.Fu(), t.F(), u, v) == Cross(t.P, t.Q, t.Fu(), t.F(), u, v)
    ensures forall u, v :: 0 <= u < t.U.rows && 0 <= v < t.V.rows ==>
      Score(t', u, v) == Score(t, u, v) + GainAt(SideGain(gaps, ownU), u, v)
  {
  }

  /** `update_side` keeps the invariant when the self-side terms are on
      (`solve_side` only runs then): the side sum of the moving side rises
      by exactly `gaps`, the other side's sums and every cross score stay,
      so every cached residual stays current. */
  lemma {:induction false} SideStepKeepsInv(t: State, t': State, f1: nat, f2: nat, left: bool, S: Matrix)
    requires Inv(t) && t.selfSide && f1 <= f2 < t.F() && (f2 < t.Fu() || t.Fu() <= f1)
    requires SideStep(t, t', f1, f2, left, S)
    ensures Inv(t')
  {
    assert BlockOk(t, f1, f2);
    var XS := StepXS(t, f1, f2, left, S);
    var gaps := Gaps(XS, Partner(t, f1, f2, left), t.SideFor(f1).rows);
    var g := SideGain(gaps, f1 < t.Fu());
    ViewsShiftShape(t, t', g);
    FactorStepKeepsBlocks(t, t', f1, f2, left, S);
    SideSumsMove(t, t', f1, f2, left, XS);
    CrossUnmoved(t, t', f1, f2);
    SideScoresMove(t, t', gaps, f1 < t.Fu());
    ViewsShift(t, t', g);
  }
}
