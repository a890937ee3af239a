/** Sums over field-pair blocks of the row-wise dot products of the cached
    projections: the self-side sums `calc_side` accumulates into `a` and
    `b` (ffm.cpp:349-363) and the cross score `calc_cross` (ffm.cpp:365-376).
    The projections of block `f12` are `P[f12]` (left field) and `Q[f12]`
    (right field). */
module BlockSum {
  import opened Blocks
  import opened LinAlg

  /** Row `i` of the matrix in slot `s`, or empty outside the slots. */
  function SlotRow(Ps: seq<Matrix>, s: int, i: nat): seq<real>
  {
    if 0 <= s < |Ps| && i < |Ps[s]| then Ps[s][i] else []
  }

  /** The dot product of row `u` of the left projection and row `v` of the
      right projection of the block of pair `p`. */
  function Term(P: seq<Matrix>, Q: seq<Matrix>, f: nat, p: Pair, u: nat, v: nat): real
  {
    Inner(SlotRow(P, IndexVec(p.0, p.1, f), u), SlotRow(Q, IndexVec(p.0, p.1, f), v))
  }

  /** The sum of `Term` over the blocks of the pairs `ps`. */
  function PairSum(P: seq<Matrix>, Q: seq<Matrix>, f: nat, ps: seq<Pair>, u: nat, v: nat): real
  {
    if ps == [] then 0.0 else Term(P, Q, f, ps[0], u, v) + PairSum(P, Q, f, ps[1..], u, v)
  }

  /** `calc_cross(i, j)`: the sum over the cross blocks `f1 < fu <= f2 < f`
      of the dot product of row `i` of `P[f12]` and row `j` of `Q[f12]`. */
  function Cross(P: seq<Matrix>, Q: seq<Matrix>, fu: nat, f: nat, i: nat, j: nat): real
  {
    PairSum(P, Q, f, CrossPairs(0, fu, f), i, j)
  }

  /** What `calc_side` adds to `a[i]`: the sum over the self-side blocks of
      the U fields `[0, fu)` of the dot product of row `i` of `P` and `Q`. */
  function SideU(P: seq<Matrix>, Q: seq<Matrix>, fu: nat, f: nat, i: nat): real
  {
    PairSum(P, Q, f, SelfPairs(0, fu), i, i)
  }

  /** What `calc_side` adds to `b[j]`: the same over the V fields `[fu, f)`. */
  function SideV(P: seq<Matrix>, Q: seq<Matrix>, fu: nat, f: nat, j: nat): real
  {
    PairSum(P, Q, f, SelfPairs(fu, f), j, j)
  }

  predicate AllValid(ps: seq<Pair>, f: nat)
  {
    forall x :: 0 <= x < |ps| ==> ValidPair(ps[x], f)
  }

  /** Changing a block no pair of `ps` names leaves the sum alone. */
  lemma {:induction false} BlockSumUnchanged(P: seq<Matrix>, Q: seq<Matrix>, P': seq<Matrix>, Q': seq<Matrix>,
                                             f: nat, ps: seq<Pair>, u: nat, v: nat, s0: int)
    requires forall p :: p in ps ==> IndexVec(p.0, p.1, f) != s0
    requires forall s :: s != s0 ==> SlotRow(P', s, u) == SlotRow(P, s, u) && SlotRow(Q', s, v) == SlotRow(Q, s, v)
    ensures PairSum(P', Q', f, ps, u, v) == PairSum(P, Q, f, ps, u, v)
  {
    if ps != [] {
      assert ps[0] in ps;
      BlockSumUnchanged(P, Q, P', Q', f, ps[1..], u, v, s0);
    }
  }

  /** Changing the block of one pair `p0` of a duplicate-free list of valid
      pairs changes the sum by exactly the change of that block's term. */
  lemma {:induction false} BlockSumChanged(P: seq<Matrix>, Q: seq<Matrix>, P': seq<Matrix>, Q': seq<Matrix>,
                                           f: nat, ps: seq<Pair>, u: nat, v: nat, p0: Pair)
    requires NoDup(ps) && AllValid(ps, f) && p0 in ps
    requires forall s :: s != IndexVec(p0.0, p0.1, f) ==>
      SlotRow(P', s, u) == SlotRow(P, s, u) && SlotRow(Q', s, v) == SlotRow(Q, s, v)
    ensures PairSum(P', Q', f, ps, u, v) ==
      PairSum(P, Q, f, ps, u, v) + (Term(P', Q', f, p0, u, v) - Term(P, Q, f, p0, u, v))
  {
    var s0 := IndexVec(p0.0, p0.1, f);
    assert ValidPair(p0, f) by {
      var x :| 0 <= x < |ps| && ps[x] == p0;
    }
    var rest := ps[1..];
    assert NoDup(rest) && AllValid(rest, f);
    if ps[0] == p0 {
      forall p | p in rest
        ensures IndexVec(p.0, p.1, f) != s0
      {
        var x :| 0 <= x < |rest| && rest[x] == p;
        assert ps[x + 1] == p && ps[0] == p0;
        IndexVecInjective(p.0, p.1, p0.0, p0.1, f);
      }
      BlockSumUnchanged(P, Q, P', Q', f, rest, u, v, s0);
    } else {
      assert p0 in rest;
      BlockSumChanged(P, Q, P', Q', f, rest, u, v, p0);
      assert ValidPair(ps[0], f);
      IndexVecInjective(ps[0].0, ps[0].1, p0.0, p0.1, f);
    }
  }

  /** Sums split over concatenation. */
  lemma {:induction false} BlockSumAppend(P: seq<Matrix>, Q: seq<Matrix>, f: nat, ps: seq<Pair>, qs: seq<Pair>, u: nat, v: nat)
    ensures PairSum(P, Q, f, ps + qs, u, v) == PairSum(P, Q, f, ps, u, v) + PairSum(P, Q, f, qs, u, v)
  {
    if ps == [] {
      assert ps + qs == qs;
    } else {
      assert (ps + qs)[0] == ps[0] && (ps + qs)[1..] == ps[1..] + qs;
      BlockSumAppend(P, Q, f, ps[1..], qs, u, v);
    }
  }
}
