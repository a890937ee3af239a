/** The block schedule of one training epoch (ffm.cpp `one_epoch`): every
    self-side block of the U fields, then every self-side block of the V
    fields (both only when self-side blocks are enabled), then every cross
    block, then the refresh of the cached cross aggregates `sa, sb`.
    U fields are `[0, fu)`, V fields `[fu, f)`. */
module Schedule {
  import opened Blocks

  /** One call `one_epoch` makes, in the order it makes them. */
  datatype Step = SolveSide(f1: nat, f2: nat) | SolveCross(f1: nat, f2: nat) | CacheSaSb

  function Sides(ps: seq<Pair>): (r: seq<Step>)
    ensures |r| == |ps|
  {
    if ps == [] then [] else [SolveSide(ps[0].0, ps[0].1)] + Sides(ps[1..])
  }

  function Crosses(ps: seq<Pair>): (r: seq<Step>)
    ensures |r| == |ps|
  {
    if ps == [] then [] else [SolveCross(ps[0].0, ps[0].1)] + Crosses(ps[1..])
  }

  /** The calls of one epoch, as the loops of `one_epoch` make them. */
  function EpochSchedule(fu: nat, f: nat, selfSide: bool): seq<Step>
    requires fu <= f
  {
    (if selfSide then Sides(SelfPairs(0, fu)) + Sides(SelfPairs(fu, f)) else [])
    + Crosses(CrossPairs(0, fu, f))
    + (if selfSide then [CacheSaSb] else [])
  }

  /** The block one call solves, if any. */
  function SolvedBy(step: Step): seq<Pair>
  {
    match step
    case SolveSide(f1, f2) => [(f1, f2)]
    case SolveCross(f1, f2) => [(f1, f2)]
    case CacheSaSb => []
  }

  /** The blocks a sequence of calls solves, in order. */
  function Solved(trace: seq<Step>): seq<Pair>
  {
    if trace == [] then [] else SolvedBy(trace[0]) + Solved(trace[1..])
  }

  lemma {:induction false} SidesAppend(a: seq<Pair>, b: seq<Pair>)
    ensures Sides(a + b) == Sides(a) + Sides(b)
  {
    if a == [] {
      assert a + b == b;
    } else {
      assert (a + b)[0] == a[0];
      assert (a + b)[1..] == a[1..] + b;
      SidesAppend(a[1..], b);
    }
  }

  lemma {:induction false} CrossesAppend(a: seq<Pair>, b: seq<Pair>)
    ensures Crosses(a + b) == Crosses(a) + Crosses(b)
  {
    if a == [] {
      assert a + b == b;
    } else {
      assert (a + b)[0] == a[0];
      assert (a + b)[1..] == a[1..] + b;
      CrossesAppend(a[1..], b);
    }
  }

  lemma {:induction false} SolvedAppend(a: seq<Step>, b: seq<Step>)
    ensures Solved(a + b) == Solved(a) + Solved(b)
  {
    if a == [] {
      assert a + b == b;
    } else {
      assert (a + b)[0] == a[0];
      assert (a + b)[1..] == a[1..] + b;
      SolvedAppend(a[1..], b);
      assert SolvedBy(a[0]) + (Solved(a[1..]) + Solved(b)) == (SolvedBy(a[0]) + Solved(a[1..])) + Solved(b);
    }
  }

  lemma {:induction false} SolvedSides(ps: seq<Pair>)
    ensures Solved(Sides(ps)) == ps
    ensures Solved(Crosses(ps)) == ps
  {
    if ps != [] {
      SolvedSides(ps[1..]);
    }
  }

  /** Taking the head off the remaining work of a nested loop: the call made
      next, followed by the calls still to come. */
  lemma RowStep(f1: nat, f2: nat, hi: nat, rest: seq<Pair>)
    requires f2 < hi
    ensures Sides(RowPairs(f1, f2, hi) + rest) == [SolveSide(f1, f2)] + Sides(RowPairs(f1, f2 + 1, hi) + rest)
    ensures Crosses(RowPairs(f1, f2, hi) + rest) == [SolveCross(f1, f2)] + Crosses(RowPairs(f1, f2 + 1, hi) + rest)
  {
    var tail := RowPairs(f1, f2 + 1, hi) + rest;
    assert RowPairs(f1, f2, hi) + rest == [(f1, f2)] + tail;
    assert ([(f1, f2)] + tail)[1..] == tail;
  }

  /** Making the next call of a nested loop: the trace so far plus that call,
      followed by the calls still to come, is the trace that was promised. */
  lemma SideCall(trace: seq<Step>, f1: nat, f2: nat, hi: nat, rest: seq<Pair>)
    requires f2 < hi
    ensures (trace + [SolveSide(f1, f2)]) + Sides(RowPairs(f1, f2 + 1, hi) + rest) == trace + Sides(RowPairs(f1, f2, hi) + rest)
  {
    RowStep(f1, f2, hi, rest);
  }

  lemma CrossCall(trace: seq<Step>, f1: nat, f2: nat, hi: nat, rest: seq<Pair>)
    requires f2 < hi
    ensures (trace + [SolveCross(f1, f2)]) + Crosses(RowPairs(f1, f2 + 1, hi) + rest) == trace + Crosses(RowPairs(f1, f2, hi) + rest)
  {
    RowStep(f1, f2, hi, rest);
  }

  /** The nested loop `one_epoch` runs over the self-side blocks of one side,
      whose fields are `[lo, hi)`: `solve_side(f1, f2)` for `lo <= f1 <= f2 < hi`. */
  method SideLoop(lo: nat, hi: nat) returns (trace: seq<Step>)
    ensures trace == Sides(SelfPairs(lo, hi))
  {
    trace := [];
    var f1 := lo;
    while f1 < hi
      invariant lo <= f1
      invariant trace + Sides(SelfPairs(f1, hi)) == Sides(SelfPairs(lo, hi))
    {
      SelfPairsSplit(f1, hi);
      var f2 := f1;
      while f2 < hi
        invariant f1 <= f2 <= hi
        invariant trace + Sides(RowPairs(f1, f2, hi) + SelfPairs(f1 + 1, hi)) == Sides(SelfPairs(lo, hi))
      {
        SideCall(trace, f1, f2, hi, SelfPairs(f1 + 1, hi));
        trace := trace + [SolveSide(f1, f2)];
        f2 := f2 + 1;
      }
      RowPairsDone(f1, f2, hi, SelfPairs(f1 + 1, hi));
      f1 := f1 + 1;
    }
    assert SelfPairs(f1, hi) == [];
    assert trace + [] == trace;
  }

  /** The nested loop `one_epoch` runs over the cross blocks:
      `solve_cross(f1, f2)` for `f1 < fu <= f2 < f`. */
  method CrossLoop(fu: nat, f: nat) returns (trace: seq<Step>)
    ensures trace == Crosses(CrossPairs(0, fu, f))
  {
    trace := [];
    var f1 := 0;
    while f1 < fu
      invariant f1 <= fu
      invariant trace + Crosses(CrossPairs(f1, fu, f)) == Crosses(CrossPairs(0, fu, f))
    {
      CrossPairsSplit(f1, fu, f);
      var f2 := fu;
      while f2 < f
        invariant fu <= f2
        invariant trace + Crosses(RowPairs(f1, f2, f) + CrossPairs(f1 + 1, fu, f)) == Crosses(CrossPairs(0, fu, f))
      {
        CrossCall(trace, f1, f2, f, CrossPairs(f1 + 1, fu, f));
        trace := trace + [SolveCross(f1, f2)];
        f2 := f2 + 1;
      }
      RowPairsDone(f1, f2, f, CrossPairs(f1 + 1, fu, f));
      f1 := f1 + 1;
    }
    assert CrossPairs(f1, fu, f) == [];
    assert trace + [] == trace;
  }

  /** `one_epoch`, with the calls it makes recorded in `trace`. */
  method OneEpoch(fu: nat, f: nat, selfSide: bool) returns (trace: seq<Step>)
    requires fu <= f
    ensures trace == EpochSchedule(fu, f, selfSide)
  {
    trace := [];
    if selfSide {
      var us := SideLoop(0, fu);
      var vs := SideLoop(fu, f);
      trace := us + vs;
    }
    var cs := CrossLoop(fu, f);
    trace := trace + cs;
    if selfSide {
      trace := trace + [CacheSaSb];
    }
  }

  /** The blocks an epoch solves: the U self-side blocks, the V self-side
      blocks and the cross blocks, in that order. */
  lemma EpochSolvedPairs(fu: nat, f: nat, selfSide: bool)
    requires fu <= f
    ensures Solved(EpochSchedule(fu, f, selfSide)) ==
      (if selfSide then SelfPairs(0, fu) + SelfPairs(fu, f) else []) + CrossPairs(0, fu, f)
  {
    var us, vs, cs := SelfPairs(0, fu), SelfPairs(fu, f), CrossPairs(0, fu, f);
    var tail: seq<Step> := if selfSide then [CacheSaSb] else [];
    assert Solved(tail) == [];
    SolvedSides(cs);
    if selfSide {
      SidesAppend(us, vs);
      SolvedSides(us + vs);
      SolvedAppend(Sides(us + vs), Crosses(cs));
      SolvedAppend(Sides(us + vs) + Crosses(cs), tail);
      assert EpochSchedule(fu, f, selfSide) == Sides(us + vs) + Crosses(cs) + tail;
    } else {
      SolvedAppend(Crosses(cs), tail);
      assert EpochSchedule(fu, f, selfSide) == Crosses(cs) + tail;
    }
  }

  /** One epoch solves every block at most once; with self-side blocks
      enabled it solves every block of the triangle, otherwise exactly the
      cross blocks. */
  lemma EpochSolvesEachBlockOnce(fu: nat, f: nat, selfSide: bool)
    requires fu <= f
    ensures NoDup(Solved(EpochSchedule(fu, f, selfSide)))
    ensures forall p: Pair :: p in Solved(EpochSchedule(fu, f, selfSide)) <==>
      ValidPair(p, f) && (selfSide || p.0 < fu <= p.1)
  {
    var us, vs, cs := SelfPairs(0, fu), SelfPairs(fu, f), CrossPairs(0, fu, f);
    EpochSolvedPairs(fu, f, selfSide);
    SelfPairsNoDup(0, fu);
    SelfPairsNoDup(fu, f);
    CrossPairsNoDup(0, fu, f);
    forall p: Pair
      ensures p in us <==> 0 <= p.0 <= p.1 < fu
      ensures p in vs <==> fu <= p.0 <= p.1 < f
      ensures p in cs <==> 0 <= p.0 < fu <= p.1 < f
    {
      SelfPairsMember(0, fu, p);
      SelfPairsMember(fu, f, p);
      CrossPairsMember(0, fu, f, p);
    }
    if selfSide {
      NoDupConcat(us, vs);
      NoDupConcat(us + vs, cs);
    } else {
      assert [] + cs == cs;
    }
  }

  /** With self-side blocks enabled, every slot `0 .. f(f+1)/2 - 1` of the
      block vectors is solved in an epoch. */
  lemma EpochCoversEverySlot(fu: nat, f: nat, s: nat)
    requires fu <= f && s < NrBlocks(f)
    ensures exists p: Pair :: p in Solved(EpochSchedule(fu, f, true)) && ValidPair(p, f) && IndexVec(p.0, p.1, f) == s
  {
    AllPairsSlots(f);
    var p := SelfPairs(0, f)[s];
    SelfPairsMember(0, f, p);
    EpochSolvesEachBlockOnce(fu, f, true);
    assert p in Solved(EpochSchedule(fu, f, true));
  }
}
