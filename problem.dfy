/** `ImpProblem` (ffm.h:75-145, ffm.cpp:323-502, 813-848): the trainer
    object. Its factor blocks `W`, `H`, their projections `P`, `Q` and the
    self-side sums `a`, `b` are fields it updates in place; the residuals it
    caches live in the interaction rows `M` of the two `ImpData` objects it
    points to, which it overwrites. Every method below keeps `Valid()`, the
    invariant of the `Training` module on a snapshot of these fields. */
module Problem {
  import opened Types
  import opened Blocks
  import opened LinAlg
  import opened Projection
  import opened BlockSum
  import opened Training
  import opened Loops
  import opened Data

  /** The part of an `ImpData` object the trainer reads and writes. */
  function SideOf(d: ImpData): Side
    reads d
  {
    Side(d.m, d.f, d.Ns, d.Xs, d.Ds, d.M, d.Y)
  }

  /** `v.resize(len, 0)`: the entries below `len` are kept, the vector is
      cut at `len` or padded with zeros up to it. */
  function Resize(v: seq<real>, len: nat): (r: seq<real>)
    ensures |r| == len
    ensures forall i :: 0 <= i < len ==> r[i] == if i < |v| then v[i] else 0.0
  {
    if len <= |v| then v[..len] else v + seq(len - |v|, _ => 0.0)
  }

  /** The cardinality of field `g` of the concatenated field list: the
      user fields come first, the item fields after them. */
  function FieldDim(u: Side, v: Side, g: nat): nat
    requires SideOk(u) && SideOk(v) && g < u.nf + v.nf
  {
    if g < u.nf then u.Ds[g] else v.Ds[g - u.nf]
  }

  /** The starting factors `init_mat` draws: one `Df1 x k` block `W0[f12]`
      and one `Df2 x k` block `H0[f12]` per field pair. */
  predicate StartFactors(u: Side, v: Side, k: nat, W0: seq<Matrix>, H0: seq<Matrix>)
    requires SideOk(u) && SideOk(v)
  {
    var f := u.nf + v.nf;
    && |W0| == NrBlocks(f) && |H0| == NrBlocks(f)
    && forall f1, f2 :: 0 <= f1 <= f2 < f ==>
      var s := Slot((f1, f2), f);
      Shaped(W0[s], FieldDim(u, v, f1), k) && Shaped(H0[s], FieldDim(u, v, f2), k)
  }

  /** Starting factors of the right shapes give every block its shape. */
  lemma StartShapes(t: State)
    requires SideOk(t.U) && SideOk(t.V) && StartFactors(t.U, t.V, t.k, t.W, t.H)
    requires |t.P| == NrBlocks(t.F()) && |t.Q| == NrBlocks(t.F())
    ensures Shape(t) && AllFactorsShaped(t)
  {
    forall f1, f2 | 0 <= f1 <= f2 < t.F()
      ensures FactorsShaped(t, f1, f2)
    {
      var s := Slot((f1, f2), t.F());
      assert Shaped(t.W[s], FieldDim(t.U, t.V, f1), t.k) && Shaped(t.H[s], FieldDim(t.U, t.V, f2), t.k);
    }
  }

  /** Side sums that start at zero and gain the self-side sums (what
      `calc_side` does when `self_side` is set) are the sums the invariant
      asks for. */
  lemma StartSides(t: State, a: seq<real>, b: seq<real>)
    requires Frame(t) && t.selfSide
    requires forall i :: 0 <= i < |t.a| ==> t.a[i] == 0.0
    requires forall j :: 0 <= j < |t.b| ==> t.b[j] == 0.0
    requires |a| == |t.a| && forall i :: 0 <= i < |a| ==> a[i] == t.a[i] + SideU(t.P, t.Q, t.Fu(), t.F(), i)
    requires |b| == |t.b| && forall j :: 0 <= j < |b| ==> b[j] == t.b[j] + SideV(t.P, t.Q, t.Fu(), t.F(), j)
    ensures SidesOk(t.(a := a, b := b))
  {
  }

  /** The blocks do not depend on the side sums. */
  lemma BlocksKeep(t: State, a: seq<real>, b: seq<real>)
    requires Shape(t) && AllBlocksOk(t)
    ensures AllBlocksOk(t.(a := a, b := b))
  {
    var t' := t.(a := a, b := b);
    forall f1, f2 | 0 <= f1 <= f2 < t'.F()
      ensures BlockOk(t', f1, f2)
    {
      assert BlockOk(t, f1, f2);
    }
  }

  /** Without self-side terms, side sums left at zero are what the
      invariant asks for. */
  lemma ZeroSides(t: State)
    requires Frame(t) && !t.selfSide
    requires forall i :: 0 <= i < |t.a| ==> t.a[i] == 0.0
    requires forall j :: 0 <= j < |t.b| ==> t.b[j] == 0.0
    ensures SidesOk(t)
  {
  }

  class ImpProblem {
    const U: ImpData
    const V: ImpData
    const param: Parameter

    var k: nat
    var fu: nat
    var fv: nat
    var f: nat
    var m: nat
    var n: nat
    var W: seq<Matrix>
    var H: seq<Matrix>
    var P: seq<Matrix>
    var Q: seq<Matrix>
    var a: seq<real>
    var b: seq<real>

    /** The fields the updates read and write, as a value. */
    function Snapshot(): State
      reads this, U, V
    {
      State(k, param.selfSide, SideOf(U), SideOf(V), W, H, P, Q, a, b)
    }

    /** The two data sides are distinct objects, the counters mirror them,
        and the training invariant holds. */
    predicate Valid()
      reads this, U, V
    {
      && U != V
      && k == param.k && m == U.m && n == V.m && fu == U.f && fv == V.f && f == fu + fv
      && Inv(Snapshot())
    }

    /** `ImpProblem(U, Uva, V, param)`: it keeps the data and the options;
        every vector starts empty. */
    constructor (u: ImpData, v: ImpData, p: Parameter)
      ensures U == u && V == v && param == p
      ensures W == [] && H == [] && P == [] && Q == [] && a == [] && b == []
    {
      U, V, param := u, v, p;
      k, fu, fv, f, m, n := 0, 0, 0, 0, 0, 0;
      W, H, P, Q, a, b := [], [], [], [], [], [];
    }

    /** Writes a state that differs from the current one only in the
        residuals, the blocks and the side sums back into the fields. */
    method Store(t': State)
      requires U != V && SameData(Snapshot(), t')
      modifies this, U`M, V`M
      ensures Snapshot() == t'
      ensures k == old(k) && fu == old(fu) && fv == old(fv) && f == old(f) && m == old(m) && n == old(n)
    {
      U.M, V.M := t'.U.M, t'.V.M;
      W, H, P, Q, a, b := t'.W, t'.H, t'.P, t'.Q, t'.a, t'.b;
    }

    /** `calc_side()`: `a[i]` gains the sum over the user-side blocks, and
        `b[j]` over the item-side blocks, of the dot products of row `i`
        (`j`) of both projections. */
    method CalcSide()
      requires f == fu + fv && fu == U.f && fv == V.f && m == U.m && n == V.m
      requires Frame(Snapshot()) && AllBlocksOk(Snapshot())
      modifies this
      ensures unchanged(U) && unchanged(V)
      ensures k == old(k) && fu == old(fu) && fv == old(fv) && f == old(f) && m == old(m) && n == old(n)
      ensures W == old(W) && H == old(H) && P == old(P) && Q == old(Q)
      ensures |a| == m && forall i :: 0 <= i < m ==> a[i] == old(a[i]) + SideU(P, Q, fu, f, i)
      ensures |b| == n && forall j :: 0 <= j < n ==> b[j] == old(b[j]) + SideV(P, Q, fu, f, j)
    {
      SelfShapes(Snapshot());
      a := SideSums(P, Q, 0, fu, f, m, k, a);
      b := SideSums(P, Q, fu, f, f, n, k, b);
    }

    /** `init_y_tilde()`: every edge, in both views, is overwritten with
        its residual `a[i] + b[j] + calc_cross(i, j) - 1`; afterwards the
        invariant holds. */
    method InitYTilde()
      requires U != V && f == fu + fv && fu == U.f && fv == V.f && m == U.m && n == V.m
      requires Frame(Snapshot()) && AllBlocksOk(Snapshot()) && SidesOk(Snapshot())
      requires EdgesBelow(U.M, n) && EdgesBelow(V.M, m)
      modifies U`M, V`M
      ensures Inv(Snapshot())
      ensures SideOf(U) == old(SideOf(U)).(M := U.M) && SideOf(V) == old(SideOf(V)).(M := V.M)
      ensures SameEdges(old(U.M), U.M) && SameEdges(old(V.M), V.M)
    {
      ghost var t := Snapshot();
      assert t.U.M == U.M && t.U.Y == U.Y && t.U.rows == m && t.V.M == V.M && t.V.Y == V.Y && t.V.rows == n;
      assert t.a == a && t.b == b && t.P == P && t.Q == Q && t.Fu() == fu && t.F() == f;
      var mu := InitView(U.M, U.Y, m, true, a, b, P, Q, fu, f);
      var mv := InitView(V.M, V.Y, n, false, a, b, P, Q, fu, f);
      EditedKeepsEdges(U.M, mu, U.Y, m, true, Reset(a, b, P, Q, fu, f));
      EditedKeepsEdges(V.M, mv, V.Y, n, false, Reset(a, b, P, Q, fu, f));
      ResetEstablishesInv(t, mu, mv);
      U.M := mu;
      V.M := mv;
      assert Snapshot() == t.(U := t.U.(M := mu), V := t.V.(M := mv));
    }

    /** The counters of `init()`, from the data and the options; `a` and
        `b` resized to `m` and `n` (existing entries kept, new ones zero);
        the starting factors in place and one empty projection slot per
        field pair. */
    method InitCounters(W0: seq<Matrix>, H0: seq<Matrix>)
      modifies this
      ensures k == param.k && m == U.m && n == V.m && fu == U.f && fv == V.f && f == fu + fv
      ensures W == W0 && H == H0 && |P| == NrBlocks(f) && |Q| == NrBlocks(f)
      ensures a == Resize(old(a), m) && b == Resize(old(b), n)
    {
      var nrBlocks := NrBlocks(U.f + V.f);
      var blank: seq<Matrix> := seq(nrBlocks, _ => []);
      k, m, n, fu, fv, f := param.k, U.m, V.m, U.f, V.f, U.f + V.f;
      a, b, W, H, P, Q := Resize(a, U.m), Resize(b, V.m), W0, H0, blank, blank;
    }

    /** The first half of `init()`: `InitCounters`, then one factor block
        pair per field pair with current projections (`init_pair`, its
        random `init_mat` draws given as `W0`, `H0`). */
    method InitPairs(W0: seq<Matrix>, H0: seq<Matrix>)
      requires SideOk(SideOf(U)) && SideOk(SideOf(V))
      requires StartFactors(SideOf(U), SideOf(V), param.k, W0, H0)
      modifies this
      ensures k == param.k && m == U.m && n == V.m && fu == U.f && fv == V.f && f == fu + fv
      ensures W == W0 && H == H0
      ensures a == Resize(old(a), m) && b == Resize(old(b), n)
      ensures Frame(Snapshot()) && AllBlocksOk(Snapshot())
    {
      InitCounters(W0, H0);
      var t := Snapshot();
      StartShapes(t);
      var P', Q' := InitBlocks(t);
      P, Q := P', Q';
      assert Snapshot() == t.(P := P', Q := Q');
    }

    /** The second half of `init()`: the self-side sums when `self_side`
        is set (`calc_side`, on zero-filled `a`, `b`), then the residuals
        of every edge (`init_y_tilde`). */
    method InitSidesAndResiduals()
      requires U != V && k == param.k && m == U.m && n == V.m && fu == U.f && fv == V.f && f == fu + fv
      requires Frame(Snapshot()) && AllBlocksOk(Snapshot())
      requires forall i :: 0 <= i < |a| ==> a[i] == 0.0
      requires forall j :: 0 <= j < |b| ==> b[j] == 0.0
      requires EdgesBelow(U.M, n) && EdgesBelow(V.M, m)
      modifies this, U`M, V`M
      ensures Valid() && W == old(W) && H == old(H)
      ensures SideOf(U) == old(SideOf(U)).(M := U.M) && SideOf(V) == old(SideOf(V)).(M := V.M)
      ensures SameEdges(old(U.M), U.M) && SameEdges(old(V.M), V.M)
    {
      ghost var t := Snapshot();
      if param.selfSide {
        CalcSide();
        StartSides(t, a, b);
        BlocksKeep(t, a, b);
        assert Snapshot() == t.(a := a, b := b);
      } else {
        ZeroSides(t);
      }
      InitYTilde();
    }

    /** `init()` on a fresh object: `InitPairs` (which zero-fills the empty
        `a`, `b`), then `InitSidesAndResiduals`. */
    method Init(W0: seq<Matrix>, H0: seq<Matrix>)
      requires U != V && a == [] && b == []
      requires SideOk(SideOf(U)) && SideOk(SideOf(V))
      requires EdgesBelow(U.M, V.m) && EdgesBelow(V.M, U.m)
      requires StartFactors(SideOf(U), SideOf(V), param.k, W0, H0)
      modifies this, U`M, V`M
      ensures Valid() && W == W0 && H == H0
      ensures SideOf(U) == old(SideOf(U)).(M := U.M) && SideOf(V) == old(SideOf(V)).(M := V.M)
      ensures SameEdges(old(U.M), U.M) && SameEdges(old(V.M), V.M)
    {
      InitPairs(W0, H0);
      assert forall i :: 0 <= i < |a| ==> a[i] == 0.0;
      assert forall j :: 0 <= j < |b| ==> b[j] == 0.0;
      InitSidesAndResiduals();
    }

    /** `update_side(sub_type, S, Q1, W1, X12, P1)` on the self-side block
        `(f1, f2)`: the moving factor (`W[f12]` when `left`, else
        `H[f12]`) takes the step `S` and its projection is recomputed;
        with `gaps[i] = inner(XS_i, Q1_i)`, `a1[i]` and every edge touching
        row `i` of the moving side rise by `gaps[i]`. The invariant is
        kept. */
    method UpdateSide(f1: nat, f2: nat, left: bool, S: Matrix)
      requires Valid() && param.selfSide && f1 <= f2 < f && (f2 < fu || fu <= f1)
      requires StepShaped(Snapshot(), f1, f2, left, S)
      modifies this, U`M, V`M
      ensures Valid() && SideStep(old(Snapshot()), Snapshot(), f1, f2, left, S)
      ensures SameEdges(old(U.M), U.M) && SameEdges(old(V.M), V.M)
    {
      var t := Snapshot();
      var t' := SideUpdate(t, f1, f2, left, S);
      SideStepKeepsInv(t, t', f1, f2, left, S);
      SideStepKeepsEdges(t, t', f1, f2, left, S);
      Store(t');
    }

    /** `update_cross(sub_type, S, Q1, W1, X12, P1)` on the cross block
        `(f1, f2)`: the moving factor takes the step `S` and its projection
        is recomputed; every edge between row `i` of the moving side and
        row `j` of the other side rises by `inner(XS_i, Q1_j)`. The
        invariant is kept. */
    method UpdateCross(f1: nat, f2: nat, left: bool, S: Matrix)
      requires Valid() && f1 < fu <= f2 < f
      requires StepShaped(Snapshot(), f1, f2, left, S)
      modifies this, U`M, V`M
      ensures Valid() && CrossStep(old(Snapshot()), Snapshot(), f1, f2, left, S)
      ensures SameEdges(old(U.M), U.M) && SameEdges(old(V.M), V.M)
    {
      var t := Snapshot();
      var t' := CrossUpdate(t, f1, f2, left, S);
      CrossStepKeepsInv(t, t', f1, f2, left, S);
      CrossStepKeepsEdges(t, t', f1, f2, left, S);
      Store(t');
    }

    /** `solve_side(f1, f2)` on the self-side block `(f1, f2)`: `W[f12]`
        takes the step `S1`, then `H[f12]` the step `S2` (the Newton
        directions `cg` finds), each through `update_side`. The data stay,
        the invariant is kept. */
    method SolveSide(f1: nat, f2: nat, S1: Matrix, S2: Matrix)
      requires Valid() && param.selfSide && f1 <= f2 < f && (f2 < fu || fu <= f1)
      requires StepShaped(Snapshot(), f1, f2, true, S1) && StepShaped(Snapshot(), f1, f2, false, S2)
      modifies this, U`M, V`M
      ensures Valid() && SameData(old(Snapshot()), Snapshot())
      ensures BlockSolved(old(Snapshot()), Snapshot(), f1, f2, S1, S2)
      ensures SameEdges(old(U.M), U.M) && SameEdges(old(V.M), V.M)
    {
      ghost var t0 := Snapshot();
      assert BlockOk(t0, f1, f2);
      UpdateSide(f1, f2, true, S1);
      ghost var t1 := Snapshot();
      assert BlockOk(t1, f1, f2);
      assert StepShaped(t1, f1, f2, false, S2);
      UpdateSide(f1, f2, false, S2);
      TwoFactorSteps(t0, t1, Snapshot(), f1, f2, S1, S2);
    }

    /** `solve_cross(f1, f2)` on the cross block `(f1, f2)`: `W[f12]`
        takes the step `SW`, then `H[f12]` the step `SH`, each through
        `update_cross`. The data stay, the invariant is kept. */
    method SolveCross(f1: nat, f2: nat, SW: Matrix, SH: Matrix)
      requires Valid() && f1 < fu <= f2 < f
      requires StepShaped(Snapshot(), f1, f2, true, SW) && StepShaped(Snapshot(), f1, f2, false, SH)
      modifies this, U`M, V`M
      ensures Valid() && SameData(old(Snapshot()), Snapshot())
      ensures BlockSolved(old(Snapshot()), Snapshot(), f1, f2, SW, SH)
      ensures SameEdges(old(U.M), U.M) && SameEdges(old(V.M), V.M)
    {
      ghost var t0 := Snapshot();
      assert BlockOk(t0, f1, f2);
      UpdateCross(f1, f2, true, SW);
      ghost var t1 := Snapshot();
      assert BlockOk(t1, f1, f2);
      assert StepShaped(t1, f1, f2, false, SH);
      UpdateCross(f1, f2, false, SH);
      TwoFactorSteps(t0, t1, Snapshot(), f1, f2, SW, SH);
    }
  }
}
