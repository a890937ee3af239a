/** The loops of `ImpProblem` (ffm.cpp:323-454) on values: the block
    initialisation of `init`, `calc_side`, `calc_cross`, `init_y_tilde`
    and the two edge loops of `update_side` and `update_cross`. Each is
    proved against the specification of the `Training` module. */
module Loops {
  import opened Types
  import opened Blocks
  import opened LinAlg
  import opened Projection
  import opened BlockSum
  import opened Training

  // ---------------------------------------------------------------------
  // Edge loops: `for i < rows, for y in Y[i] .. Y[i+1]: edit y`.

  /** The edges before position `pos` are edited, the others untouched. */
  ghost predicate EditedUpTo(M: seq<Node>, M': seq<Node>, Y: seq<nat>, rows: nat, uView: bool, e: Edit, pos: nat)
    requires IsOffsets(Y, rows, |M|)
  {
    && |M'| == |M|
    && forall r, q {:trigger Y[r], M'[q]} :: 0 <= r < rows && Y[r] <= q < Y[r + 1] ==>
      M'[q] == if q < pos then Edited(e, M[q], r, uView) else M[q]
  }

  /** Editing the edge at `pos`, which lies in row `i`, advances the loop. */
  lemma EditOne(M: seq<Node>, M': seq<Node>, Y: seq<nat>, rows: nat, uView: bool, e: Edit, i: nat, pos: nat)
    requires IsOffsets(Y, rows, |M|) && EditedUpTo(M, M', Y, rows, uView, e, pos)
    requires i < rows && Y[i] <= pos < Y[i + 1]
    ensures pos < |M'| && M'[pos] == M[pos]
    ensures EditedUpTo(M, M'[pos := Edited(e, M[pos], i, uView)], Y, rows, uView, e, pos + 1)
  {
    assert Y[i + 1] <= Y[rows];
    forall r | 0 <= r < rows && Y[r] <= pos < Y[r + 1]
      ensures r == i
    {
    }
  }

  /** Once every row is done, the whole view is edited. */
  lemma EditAll(M: seq<Node>, M': seq<Node>, Y: seq<nat>, rows: nat, uView: bool, e: Edit)
    requires IsOffsets(Y, rows, |M|) && EditedUpTo(M, M', Y, rows, uView, e, Y[rows])
    ensures EditedView(M, M', Y, rows, uView, e)
  {
  }

  /** The own-view loop of `update_side`: `a1[i] += gaps[i]` and every edge
      of row `i` rises by `gaps[i]`. */
  method SideOwnLoop(M: seq<Node>, Y: seq<nat>, rows: nat, gaps: seq<real>, a1: seq<real>, ownU: bool)
    returns (M': seq<Node>, a1': seq<real>)
    requires IsOffsets(Y, rows, |M|) && |gaps| == rows && |a1| == rows
    ensures a1' == VecAdd(a1, gaps)
    ensures ShiftedView(M, M', Y, rows, ownU, SideGain(gaps, ownU))
  {
    ghost var e := Shift(SideGain(gaps, ownU));
    M', a1' := M, a1;
    var i := 0;
    while i < rows
      invariant i <= rows && |a1'| == rows
      invariant forall r :: 0 <= r < i ==> a1'[r] == a1[r] + gaps[r]
      invariant forall r :: i <= r < rows ==> a1'[r] == a1[r]
      invariant EditedUpTo(M, M', Y, rows, ownU, e, Y[i])
    {
      a1' := a1'[i := a1'[i] + gaps[i]];
      var p := Y[i];
      while p < Y[i + 1]
        invariant Y[i] <= p <= Y[i + 1]
        invariant EditedUpTo(M, M', Y, rows, ownU, e, p)
      {
        EditOne(M, M', Y, rows, ownU, e, i, p);
        var x := M'[p].(val := M'[p].val + gaps[i]);
        assert x == Edited(e, M[p], i, ownU) by {
          assert GainAt(e.g, if ownU then i else M[p].idx, if ownU then M[p].idx else i) == gaps[i];
        }
        M' := M'[p := x];
        p := p + 1;
      }
      i := i + 1;
    }
    EditAll(M, M', Y, rows, ownU, e);
  }

  /** The other-view loop of `update_side`: every edge rises by the gap of
      the row of the moving side it names. */
  method SideOtherLoop(M: seq<Node>, Y: seq<nat>, rows: nat, gaps: seq<real>, ownU: bool) returns (M': seq<Node>)
    requires IsOffsets(Y, rows, |M|) && EdgesBelow(M, |gaps|)
    ensures ShiftedView(M, M', Y, rows, !ownU, SideGain(gaps, ownU))
  {
    ghost var e := Shift(SideGain(gaps, ownU));
    M' := M;
    var j := 0;
    while j < rows
      invariant j <= rows
      invariant EditedUpTo(M, M', Y, rows, !ownU, e, Y[j])
    {
      var p := Y[j];
      while p < Y[j + 1]
        invariant Y[j] <= p <= Y[j + 1]
        invariant EditedUpTo(M, M', Y, rows, !ownU, e, p)
      {
        EditOne(M, M', Y, rows, !ownU, e, j, p);
        assert Y[j + 1] <= Y[rows];
        var i := M'[p].idx;
        var x := M'[p].(val := M'[p].val + gaps[i]);
        assert x == Edited(e, M[p], j, !ownU) by {
          assert GainAt(e.g, if ownU then i else j, if ownU then j else i) == gaps[i];
        }
        M' := M'[p := x];
        p := p + 1;
      }
      j := j + 1;
    }
    EditAll(M, M', Y, rows, !ownU, e);
  }

  /** The own-view loop of `update_cross`: the edge from row `i` to row `j`
      of the other side rises by `inner(XS_i, Q1_j)`. */
  method CrossOwnLoop(M: seq<Node>, Y: seq<nat>, rows: nat, XS: Matrix, Q1: Matrix, ownU: bool) returns (M': seq<Node>)
    requires IsOffsets(Y, rows, |M|) && |XS| == rows && EdgesBelow(M, |Q1|)
    ensures ShiftedView(M, M', Y, rows, ownU, CrossGain(XS, Q1, ownU))
  {
    ghost var e := Shift(CrossGain(XS, Q1, ownU));
    M' := M;
    var i := 0;
    while i < rows
      invariant i <= rows
      invariant EditedUpTo(M, M', Y, rows, ownU, e, Y[i])
    {
      var p := Y[i];
      while p < Y[i + 1]
        invariant Y[i] <= p <= Y[i + 1]
        invariant EditedUpTo(M, M', Y, rows, ownU, e, p)
      {
        EditOne(M, M', Y, rows, ownU, e, i, p);
        assert Y[i + 1] <= Y[rows];
        var j := M'[p].idx;
        var x := M'[p].(val := M'[p].val + Inner(XS[i], Q1[j]));
        assert x == Edited(e, M[p], i, ownU) by {
          assert Row(XS, i) == XS[i] && Row(Q1, j) == Q1[j];
        }
        M' := M'[p := x];
        p := p + 1;
      }
      i := i + 1;
    }
    EditAll(M, M', Y, rows, ownU, e);
  }

  /** The other-view loop of `update_cross`: the edge from row `j` to row
      `i` of the moving side rises by `inner(XS_i, Q1_j)`. */
  method CrossOtherLoop(M: seq<Node>, Y: seq<nat>, rows: nat, XS: Matrix, Q1: Matrix, ownU: bool) returns (M': seq<Node>)
    requires IsOffsets(Y, rows, |M|) && |Q1| == rows && EdgesBelow(M, |XS|)
    ensures ShiftedView(M, M', Y, rows, !ownU, CrossGain(XS, Q1, ownU))
  {
    ghost var e := Shift(CrossGain(XS, Q1, ownU));
    M' := M;
    var j := 0;
    while j < rows
      invariant j <= rows
      invariant EditedUpTo(M, M', Y, rows, !ownU, e, Y[j])
    {
      var p := Y[j];
      while p < Y[j + 1]
        invariant Y[j] <= p <= Y[j + 1]
        invariant EditedUpTo(M, M', Y, rows, !ownU, e, p)
      {
        EditOne(M, M', Y, rows, !ownU, e, j, p);
        assert Y[j + 1] <= Y[rows];
        var i := M'[p].idx;
        var x := M'[p].(val := M'[p].val + Inner(XS[i], Q1[j]));
        assert x == Edited(e, M[p], j, !ownU) by {
          assert Row(XS, i) == XS[i] && Row(Q1, j) == Q1[j];
        }
        M' := M'[p := x];
        p := p + 1;
      }
      j := j + 1;
    }
    EditAll(M, M', Y, rows, !ownU, e);
  }

  // ---------------------------------------------------------------------
  // calc_cross, init_y_tilde, calc_side

  /** The inner loop over `f2` takes the block `(f1, lo)` off the front. */
  lemma PairSumRowStep(P: seq<Matrix>, Q: seq<Matrix>, f: nat, f1: nat, lo: nat, hi: nat, tail: seq<Pair>, u: nat, v: nat, s: int)
    requires lo < hi && s == IndexVec(f1, lo, f)
    ensures PairSum(P, Q, f, RowPairs(f1, lo, hi) + tail, u, v) ==
      Inner(SlotRow(P, s, u), SlotRow(Q, s, v)) + PairSum(P, Q, f, RowPairs(f1, lo + 1, hi) + tail, u, v)
  {
    var rest := RowPairs(f1, lo + 1, hi) + tail;
    var s := RowPairs(f1, lo, hi) + tail;
    assert s == [(f1, lo)] + rest;
    assert s[0] == (f1, lo) && s[1..] == rest;
  }

  /** `calc_cross(i, j)`: the loop over the cross blocks computes the cross
      score. */
  method CalcCross(P: seq<Matrix>, Q: seq<Matrix>, fu: nat, f: nat, i: nat, j: nat) returns (r: real)
    ensures r == Cross(P, Q, fu, f, i, j)
  {
    ghost var total := Cross(P, Q, fu, f, i, j);
    r := 0.0;
    var f1 := 0;
    while f1 < fu
      invariant r + PairSum(P, Q, f, CrossPairs(f1, fu, f), i, j) == total
    {
      ghost var tail := CrossPairs(f1 + 1, fu, f);
      CrossPairsSplit(f1, fu, f);
      var f2 := fu;
      while f2 < f
        invariant fu <= f2
        invariant r + PairSum(P, Q, f, RowPairs(f1, f2, f) + tail, i, j) == total
      {
        var f12 := IndexVec(f1, f2, f);
        PairSumRowStep(P, Q, f, f1, f2, f, tail, i, j, f12);
        r := r + Inner(SlotRow(P, f12, i), SlotRow(Q, f12, j));
        f2 := f2 + 1;
      }
      RowPairsDone(f1, f2, f, tail);
      f1 := f1 + 1;
    }
  }

  /** One view of `init_y_tilde`: every edge between user `i` and item `j`
      gets `a[i] + b[j] + calc_cross(i, j) - 1`. */
  method InitView(M: seq<Node>, Y: seq<nat>, rows: nat, uView: bool,
                  a: seq<real>, b: seq<real>, P: seq<Matrix>, Q: seq<Matrix>, fu: nat, f: nat)
    returns (M': seq<Node>)
    requires IsOffsets(Y, rows, |M|)
    requires if uView then |a| == rows && EdgesBelow(M, |b|) else |b| == rows && EdgesBelow(M, |a|)
    ensures EditedView(M, M', Y, rows, uView, Reset(a, b, P, Q, fu, f))
  {
    ghost var e := Reset(a, b, P, Q, fu, f);
    M' := M;
    var r := 0;
    while r < rows
      invariant r <= rows
      invariant EditedUpTo(M, M', Y, rows, uView, e, Y[r])
    {
      var p := Y[r];
      while p < Y[r + 1]
        invariant Y[r] <= p <= Y[r + 1]
        invariant EditedUpTo(M, M', Y, rows, uView, e, p)
      {
        EditOne(M, M', Y, rows, uView, e, r, p);
        assert Y[r + 1] <= Y[rows];
        var i, j := if uView then r else M'[p].idx, if uView then M'[p].idx else r;
        var c := CalcCross(P, Q, fu, f, i, j);
        var x := M'[p].(val := a[i] + b[j] + c - 1.0);
        assert x == Edited(e, M[p], r, uView) by {
          assert a[i] == At(a, i) && b[j] == At(b, j);
        }
        M' := M'[p := x];
        p := p + 1;
      }
      r := r + 1;
    }
    EditAll(M, M', Y, rows, uView, e);
  }

  /** The self-side blocks `[lo, hi)` have `rows x k` projections. */
  predicate SelfBlocksShaped(P: seq<Matrix>, Q: seq<Matrix>, lo: nat, hi: nat, f: nat, rows: nat, k: nat)
  {
    forall f1, f2 :: lo <= f1 <= f2 < hi ==>
      var s := IndexVec(f1, f2, f);
      && 0 <= s < |P| && s < |Q| && Shaped(P[s], rows, k) && Shaped(Q[s], rows, k)
  }

  /** Partway through `calc_side`: `acc` plus what the pairs `left` still
      owe is `a1` plus the sum over all pairs `all`. */
  ghost predicate Owed(acc: seq<real>, a1: seq<real>, P: seq<Matrix>, Q: seq<Matrix>, f: nat,
                       left: seq<Pair>, all: seq<Pair>, rows: nat)
  {
    && |acc| == rows && |a1| == rows
    && forall i {:trigger acc[i]} :: 0 <= i < rows ==> acc[i] + PairSum(P, Q, f, left, i, i) == a1[i] + PairSum(P, Q, f, all, i, i)
  }

  lemma SelfBlockAt(P: seq<Matrix>, Q: seq<Matrix>, lo: nat, hi: nat, f: nat, rows: nat, k: nat, f1: nat, f2: nat, s: int)
    requires SelfBlocksShaped(P, Q, lo, hi, f, rows, k) && lo <= f1 <= f2 < hi && s == IndexVec(f1, f2, f)
    ensures 0 <= s < |P| && s < |Q| && Shaped(P[s], rows, k) && Shaped(Q[s], rows, k)
  {
  }

  /** `add_side` on block `(f1, f2)` pays what that block owes. */
  lemma OwedStep(acc: seq<real>, acc': seq<real>, a1: seq<real>, P: seq<Matrix>, Q: seq<Matrix>, f: nat,
                 f1: nat, f2: nat, hi: nat, all: seq<Pair>, rows: nat, s: int)
    requires f2 < hi && s == IndexVec(f1, f2, f) && 0 <= s < |P| && s < |Q|
    requires rows <= |P[s]| && rows <= |Q[s]|
    requires Owed(acc, a1, P, Q, f, RowPairs(f1, f2, hi), all, rows)
    requires |acc'| == rows && forall i :: 0 <= i < rows ==> acc'[i] == acc[i] + Inner(P[s][i], Q[s][i])
    ensures Owed(acc', a1, P, Q, f, RowPairs(f1, f2 + 1, hi), all, rows)
  {
    forall i | 0 <= i < rows
      ensures acc'[i] + PairSum(P, Q, f, RowPairs(f1, f2 + 1, hi), i, i) == a1[i] + PairSum(P, Q, f, all, i, i)
    {
      PairSumRowStep(P, Q, f, f1, f2, hi, [], i, i, s);
      assert RowPairs(f1, f2, hi) + [] == RowPairs(f1, f2, hi);
      assert RowPairs(f1, f2 + 1, hi) + [] == RowPairs(f1, f2 + 1, hi);
      assert SlotRow(P, s, i) == P[s][i] && SlotRow(Q, s, i) == Q[s][i];
    }
  }

  /** The blocks of field `f1` paid, the outer loop of `calc_side` moves on. */
  lemma OwedRow(acc: seq<real>, acc': seq<real>, a1: seq<real>, P: seq<Matrix>, Q: seq<Matrix>, f: nat,
                f1: nat, hi: nat, all: seq<Pair>, rows: nat)
    requires f1 < hi && Owed(acc, a1, P, Q, f, SelfPairs(f1, hi), all, rows)
    requires Owed(acc', acc, P, Q, f, [], RowPairs(f1, f1, hi), rows)
    ensures Owed(acc', a1, P, Q, f, SelfPairs(f1 + 1, hi), all, rows)
  {
    SelfPairsSplit(f1, hi);
    forall i | 0 <= i < rows
      ensures acc'[i] + PairSum(P, Q, f, SelfPairs(f1 + 1, hi), i, i) == a1[i] + PairSum(P, Q, f, all, i, i)
    {
      BlockSumAppend(P, Q, f, RowPairs(f1, f1, hi), SelfPairs(f1 + 1, hi), i, i);
    }
  }

  /** One pass of the inner loop of `calc_side`: `add_side` on block `(f1, f2)`. */
  method SideBlock(P: seq<Matrix>, Q: seq<Matrix>, lo: nat, f1: nat, f2: nat, hi: nat, f: nat, rows: nat, k: nat,
                   a1: seq<real>, ghost all: seq<Pair>, acc: seq<real>)
    returns (acc': seq<real>)
    requires lo <= f1 <= f2 < hi && SelfBlocksShaped(P, Q, lo, hi, f, rows, k)
    requires Owed(acc, a1, P, Q, f, RowPairs(f1, f2, hi), all, rows)
    ensures Owed(acc', a1, P, Q, f, RowPairs(f1, f2 + 1, hi), all, rows)
  {
    var f12 := IndexVec(f1, f2, f);
    SelfBlockAt(P, Q, lo, hi, f, rows, k, f1, f2, f12);
    acc' := AddSide(P[f12], Q[f12], rows, k, acc);
    OwedStep(acc, acc', a1, P, Q, f, f1, f2, hi, all, rows, f12);
  }

  /** The inner loop of `calc_side` for field `f1`: `add_side` on the blocks
      `(f1, f2)`, `f1 <= f2 < hi`. */
  method SideRowSums(P: seq<Matrix>, Q: seq<Matrix>, lo: nat, f1: nat, hi: nat, f: nat, rows: nat, k: nat, a1: seq<real>)
    returns (a1': seq<real>)
    requires lo <= f1 < hi && |a1| == rows
    requires SelfBlocksShaped(P, Q, lo, hi, f, rows, k)
    ensures Owed(a1', a1, P, Q, f, [], RowPairs(f1, f1, hi), rows)
  {
    a1' := a1;
    var f2 := f1;
    while f2 < hi
      invariant f1 <= f2 <= hi
      invariant Owed(a1', a1, P, Q, f, RowPairs(f1, f2, hi), RowPairs(f1, f1, hi), rows)
    {
      a1' := SideBlock(P, Q, lo, f1, f2, hi, f, rows, k, a1, RowPairs(f1, f1, hi), a1');
      f2 := f2 + 1;
    }
    assert RowPairs(f1, f2, hi) == [];
  }

  /** One pass of the outer loop of `calc_side`: row `f1`'s blocks paid. */
  method SideRow(P: seq<Matrix>, Q: seq<Matrix>, lo: nat, f1: nat, hi: nat, f: nat, rows: nat, k: nat,
                 a1: seq<real>, ghost all: seq<Pair>, acc: seq<real>)
    returns (acc': seq<real>)
    requires lo <= f1 < hi && SelfBlocksShaped(P, Q, lo, hi, f, rows, k)
    requires Owed(acc, a1, P, Q, f, SelfPairs(f1, hi), all, rows)
    ensures Owed(acc', a1, P, Q, f, SelfPairs(f1 + 1, hi), all, rows)
  {
    acc' := SideRowSums(P, Q, lo, f1, hi, f, rows, k, acc);
    OwedRow(acc, acc', a1, P, Q, f, f1, hi, all, rows);
  }

  lemma OwedDone(acc: seq<real>, a1: seq<real>, P: seq<Matrix>, Q: seq<Matrix>, f: nat, left: seq<Pair>, all: seq<Pair>, rows: nat)
    requires left == [] && Owed(acc, a1, P, Q, f, left, all, rows)
    ensures |acc| == rows
    ensures forall i :: 0 <= i < rows ==> acc[i] == a1[i] + PairSum(P, Q, f, all, i, i)
  {
  }

  /** One half of `calc_side`: `add_side(P[f12], Q[f12], rows, a1)` over the
      self-side blocks of the fields `[lo, hi)`. */
  method SideSums(P: seq<Matrix>, Q: seq<Matrix>, lo: nat, hi: nat, f: nat, rows: nat, k: nat, a1: seq<real>)
    returns (a1': seq<real>)
    requires lo <= hi && |a1| == rows
    requires SelfBlocksShaped(P, Q, lo, hi, f, rows, k)
    ensures |a1'| == rows
    ensures forall i :: 0 <= i < rows ==> a1'[i] == a1[i] + PairSum(P, Q, f, SelfPairs(lo, hi), i, i)
  {
    a1' := a1;
    var f1 := lo;
    while f1 < hi
      invariant lo <= f1 <= hi
      invariant Owed(a1', a1, P, Q, f, SelfPairs(f1, hi), SelfPairs(lo, hi), rows)
    {
      a1' := SideRow(P, Q, lo, f1, hi, f, rows, k, a1, SelfPairs(lo, hi), a1');
      f1 := f1 + 1;
    }
    OwedDone(a1', a1, P, Q, f, SelfPairs(f1, hi), SelfPairs(lo, hi), rows);
  }

  // ---------------------------------------------------------------------
  // The block loop of `init`: `init_pair` on every block, row by row.

  /** Every factor has the shape `init_mat` gives it in `init_pair`. */
  predicate AllFactorsShaped(t: State)
    requires Shape(t)
  {
    forall f1, f2 :: 0 <= f1 <= f2 < t.F() ==> FactorsShaped(t, f1, f2)
  }

  /** The blocks before `(f1, f2)` in the order of `init` are current. */
  ghost predicate PairsDone(t: State, f1: nat, f2: nat)
    requires Shape(t)
  {
    forall g1, g2 :: 0 <= g1 <= g2 < t.F() && (g1 < f1 || (g1 == f1 && g2 < f2)) ==> BlockOk(t, g1, g2)
  }

  /** A store whose columns lie below `d` fits a `d x k` factor. */
  lemma FitsFromShape(N: seq<Node>, A: Matrix, d: nat, k: nat)
    requires ColumnsBelow(N, d) && Shaped(A, d, k)
    ensures Fits(N, A, k)
  {
  }

  /** `init_pair(f12, ...)` makes block `(f1, f2)` current and disturbs no
      other block. */
  lemma PairStep(t: State, f1: nat, f2: nat, p: Matrix, q: Matrix)
    requires Shape(t) && f1 <= f2 < t.F() && PairsDone(t, f1, f2) && FactorsShaped(t, f1, f2)
    requires var s := Slot((f1, f2), t.F());
      var d1, fi := t.SideFor(f1), t.Local(f1);
      var d2, fj := t.SideFor(f2), t.Local(f2);
      && p == Project(d1.Ns[fi], d1.Xs[fi], d1.rows, t.W[s], t.k)
      && q == Project(d2.Ns[fj], d2.Xs[fj], d2.rows, t.H[s], t.k)
    ensures var s := Slot((f1, f2), t.F());
      var t' := t.(P := t.P[s := p], Q := t.Q[s := q]);
      Shape(t') && PairsDone(t', f1, f2 + 1)
  {
    var s := Slot((f1, f2), t.F());
    var t' := t.(P := t.P[s := p], Q := t.Q[s := q]);
    assert Shape(t');
    forall g1, g2 | 0 <= g1 <= g2 < t.F() && (g1 < f1 || (g1 == f1 && g2 < f2 + 1))
      ensures BlockOk(t', g1, g2)
    {
      if g1 == f1 && g2 == f2 {
        assert t'.P[s] == p && t'.Q[s] == q;
      } else {
        assert BlockOk(t, g1, g2);
        IndexVecInjective(f1, f2, g1, g2, t.F());
        BlockOkFrame(t, t', g1, g2);
      }
    }
  }

  /** `init`'s block loop: afterwards every block is current. */
  method InitBlocks(t: State) returns (P: seq<Matrix>, Q: seq<Matrix>)
    requires Shape(t) && AllFactorsShaped(t)
    ensures Shape(t.(P := P, Q := Q)) && AllBlocksOk(t.(P := P, Q := Q))
  {
    P, Q := t.P, t.Q;
    var f := t.U.nf + t.V.nf;
    var f1 := 0;
    while f1 < f
      invariant f1 <= f && Shape(t.(P := P, Q := Q))
      invariant PairsDone(t.(P := P, Q := Q), f1, f1)
    {
      var d1, fi := t.SideFor(f1), t.Local(f1);
      var f2 := f1;
      while f2 < f
        invariant f1 <= f2 <= f && Shape(t.(P := P, Q := Q))
        invariant PairsDone(t.(P := P, Q := Q), f1, f2)
      {
        var d2, fj := t.SideFor(f2), t.Local(f2);
        var f12 := Slot((f1, f2), f);
        assert FactorsShaped(t, f1, f2);
        FitsFromShape(d1.Ns[fi], t.W[f12], d1.Ds[fi], t.k);
        FitsFromShape(d2.Ns[fj], t.H[f12], d2.Ds[fj], t.k);
        var p := UTX(d1.Ns[fi], d1.Xs[fi], d1.rows, t.W[f12], t.k, P[f12]);
        var q := UTX(d2.Ns[fj], d2.Xs[fj], d2.rows, t.H[f12], t.k, Q[f12]);
        PairStep(t.(P := P, Q := Q), f1, f2, p, q);
        P, Q := P[f12 := p], Q[f12 := q];
        f2 := f2 + 1;
      }
      f1 := f1 + 1;
    }
  }

  // ---------------------------------------------------------------------
  // The factor half of `update_side` and `update_cross`.

  /** `axpy(S, W1)` and `UTX(X12, m1, W1, P1)` on the moving factor of
      block `(f1, f2)`, then `XS = UTX(X12, m1, S)`. */
  method FactorUpdate(t: State, f1: nat, f2: nat, left: bool, S: Matrix)
    returns (W: seq<Matrix>, H: seq<Matrix>, P: seq<Matrix>, Q: seq<Matrix>, XS: Matrix)
    requires Shape(t) && AllBlocksOk(t) && f1 <= f2 < t.F() && StepShaped(t, f1, f2, left, S)
    ensures FactorsShaped(t, f1, f2)
    ensures FactorStep(t, t.(W := W, H := H, P := P, Q := Q), f1, f2, left, S)
    ensures XS == StepXS(t, f1, f2, left, S)
  {
    assert BlockOk(t, f1, f2);
    var f12 := Slot((f1, f2), t.F());
    var g := if left then f1 else f2;
    var d, fi := t.SideFor(g), t.Local(g);
    W, H, P, Q := t.W, t.H, t.P, t.Q;
    if left {
      W := W[f12 := MatAdd(W[f12], S)];
      FitsFromShape(d.Ns[fi], W[f12], d.Ds[fi], t.k);
      var p := UTX(d.Ns[fi], d.Xs[fi], d.rows, W[f12], t.k, P[f12]);
      P := P[f12 := p];
    } else {
      H := H[f12 := MatAdd(H[f12], S)];
      FitsFromShape(d.Ns[fi], H[f12], d.Ds[fi], t.k);
      var q := UTX(d.Ns[fi], d.Xs[fi], d.rows, H[f12], t.k, Q[f12]);
      Q := Q[f12 := q];
    }
    FitsFromShape(d.Ns[fi], S, d.Ds[fi], t.k);
    XS := UTX(d.Ns[fi], d.Xs[fi], d.rows, S, t.k, Zeros(d.rows, t.k));
  }

  /** `update_side` on values: the factor half, then `gaps` by
      `hadmard_product`, then the own-view loop (which also raises `a1`) and
      the other-view loop. */
  method SideUpdate(t: State, f1: nat, f2: nat, left: bool, S: Matrix) returns (t': State)
    requires Inv(t) && f1 <= f2 < t.F() && (f2 < t.Fu() || t.Fu() <= f1)
    requires StepShaped(t, f1, f2, left, S)
    ensures SideStep(t, t', f1, f2, left, S)
  {
    InvEdgesBelow(t);
    assert BlockOk(t, f1, f2);
    var W, H, P, Q, XS := FactorUpdate(t, f1, f2, left, S);
    var sub := f1 < t.Fu();
    var m1 := t.SideFor(f1).rows;
    var f12 := Slot((f1, f2), t.F());
    var Q1 := if left then t.Q[f12] else t.P[f12];
    assert Q1 == Partner(t, f1, f2, left);
    var gaps := HadamardProduct(XS, Q1, m1, t.k, 1.0, seq(m1, _ => 0.0));
    assert gaps == Gaps(XS, Q1, m1);
    var mu, mv, a, b;
    if sub {
      mu, a := SideOwnLoop(t.U.M, t.U.Y, t.U.rows, gaps, t.a, true);
      mv := SideOtherLoop(t.V.M, t.V.Y, t.V.rows, gaps, true);
      b := t.b;
    } else {
      mv, b := SideOwnLoop(t.V.M, t.V.Y, t.V.rows, gaps, t.b, false);
      mu := SideOtherLoop(t.U.M, t.U.Y, t.U.rows, gaps, false);
      a := t.a;
    }
    t' := t.(U := t.U.(M := mu), V := t.V.(M := mv), W := W, H := H, P := P, Q := Q, a := a, b := b);
  }

  /** `update_cross` on values: the factor half, then the own-view and the
      other-view loops, each edge rising by `inner(XS_i, Q1_j)`. */
  method CrossUpdate(t: State, f1: nat, f2: nat, left: bool, S: Matrix) returns (t': State)
    requires Inv(t) && f1 < t.Fu() <= f2 < t.F()
    requires StepShaped(t, f1, f2, left, S)
    ensures CrossStep(t, t', f1, f2, left, S)
  {
    InvEdgesBelow(t);
    assert BlockOk(t, f1, f2);
    var W, H, P, Q, XS := FactorUpdate(t, f1, f2, left, S);
    var f12 := Slot((f1, f2), t.F());
    var Q1 := if left then t.Q[f12] else t.P[f12];
    assert Q1 == Partner(t, f1, f2, left);
    var mu, mv;
    if left {
      mu := CrossOwnLoop(t.U.M, t.U.Y, t.U.rows, XS, Q1, true);
      mv := CrossOtherLoop(t.V.M, t.V.Y, t.V.rows, XS, Q1, true);
    } else {
      mv := CrossOwnLoop(t.V.M, t.V.Y, t.V.rows, XS, Q1, false);
      mu := CrossOtherLoop(t.U.M, t.U.Y, t.U.rows, XS, Q1, false);
    }
    t' := t.(U := t.U.(M := mu), V := t.V.(M := mv), W := W, H := H, P := P, Q := Q);
  }

  /** Current blocks have `rows x k` projections on the side of their
      fields, so `calc_side` may add them up. */
  lemma SelfShapes(t: State)
    requires Shape(t) && AllBlocksOk(t)
    ensures SelfBlocksShaped(t.P, t.Q, 0, t.Fu(), t.F(), t.U.rows, t.k)
    ensures SelfBlocksShaped(t.P, t.Q, t.Fu(), t.F(), t.F(), t.V.rows, t.k)
  {
    forall f1, f2 | 0 <= f1 <= f2 < t.F()
      ensures var s := IndexVec(f1, f2, t.F());
        && 0 <= s < |t.P| && s < |t.Q|
        && Shaped(t.P[s], t.SideFor(f1).rows, t.k) && Shaped(t.Q[s], t.SideFor(f2).rows, t.k)
    {
      assert BlockOk(t, f1, f2);
    }
  }
}
