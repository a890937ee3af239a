/** Field-pair blocks (ffm.cpp `index_vec`, the block count of `init`).
    Fields are numbered `[0, f)`; a block is an unordered pair `f1 <= f2 < f`
    and owns one slot of the flat block vectors `W, H, P, Q`. */
module Blocks {

  type Pair = (nat, nat)

  /** `index_vec(f1, f2, f)`: the flat slot of the block `(f1, f2)`. */
  function IndexVec(f1: nat, f2: nat, f: nat): int
  {
    f2 + (f - 1) * f1 - f1 * (f1 - 1) / 2
  }

  /** The number of slots `init` allocates: `f(f+1)/2`. */
  function NrBlocks(f: nat): int
  {
    f * (f + 1) / 2
  }

  predicate ValidPair(p: Pair, f: nat)
  {
    p.0 <= p.1 < f
  }

  /** The slot of the first block `(f1, f1)` of row `f1` of the triangle, by
      enumeration: row `g` holds the `f - g` blocks `(g, g) .. (g, f-1)`. */
  function RowStart(f1: nat, f: nat): nat
    requires f1 <= f
  {
    if f1 == 0 then 0 else RowStart(f1 - 1, f) + (f - (f1 - 1))
  }

  /** `0 + 1 + ... + x`, the triangular number, by enumeration. */
  function Tri(x: nat): nat
  {
    if x == 0 then 0 else Tri(x - 1) + x
  }

  lemma {:induction false} TriClosedForm(x: nat)
    ensures x * (x + 1) == 2 * Tri(x)
  {
    if x > 0 {
      TriClosedForm(x - 1);
      assert x * (x + 1) == (x - 1) * x + 2 * x;
    }
  }

  /** The halving in the source is exact. */
  lemma HalfTri(x: nat)
    ensures (x + 1) * x / 2 == Tri(x)
  {
    TriClosedForm(x);
    assert (x + 1) * x == x * (x + 1);
  }

  /** The closed form of the source agrees with the enumeration of rows. */
  lemma {:induction false} RowStartClosedForm(f1: nat, f: nat)
    requires f1 <= f
    ensures IndexVec(f1, f1, f) == RowStart(f1, f)
  {
    if f1 > 0 {
      RowStartClosedForm(f1 - 1, f);
      HalfTri(f1 - 1);
      var t1 := Tri(f1 - 1);
      assert IndexVec(f1, f1, f) == f1 + (f - 1) * f1 - t1;
      if f1 >= 2 {
        HalfTri(f1 - 2);
        assert IndexVec(f1 - 1, f1 - 1, f) == (f1 - 1) + (f - 1) * (f1 - 1) - Tri(f1 - 2);
      } else {
        assert IndexVec(f1 - 1, f1 - 1, f) == 0;
      }
      assert (f - 1) * f1 == (f - 1) * (f1 - 1) + (f - 1);
    }
  }

  /** Within row `f1` the slots are consecutive. */
  lemma IndexVecInRow(f1: nat, f2: nat, f: nat)
    requires f1 <= f2 < f
    ensures IndexVec(f1, f2, f) == RowStart(f1, f) + (f2 - f1)
  {
    RowStartClosedForm(f1, f);
  }

  lemma {:induction false} RowStartMonotone(a: nat, b: nat, f: nat)
    requires a <= b <= f
    ensures RowStart(a, f) <= RowStart(b, f)
    decreases b - a
  {
    if a < b {
      RowStartMonotone(a, b - 1, f);
    }
  }

  /** The last row ends at the block count `init` allocates. */
  lemma NrBlocksIsEnd(f: nat)
    ensures RowStart(f, f) == NrBlocks(f)
  {
    RowStartClosedForm(f, f);
    TriClosedForm(f);
    if f >= 1 {
      TriClosedForm(f - 1);
      assert f * (f - 1) == 2 * Tri(f - 1);
      assert f * f == f * (f - 1) + f;
    }
  }

  /** Every valid pair lands in `[0, f(f+1)/2)`, inside its own row's range. */
  lemma IndexVecInRange(f1: nat, f2: nat, f: nat)
    requires f1 <= f2 < f
    ensures RowStart(f1, f) <= IndexVec(f1, f2, f) < RowStart(f1 + 1, f)
    ensures 0 <= IndexVec(f1, f2, f) < NrBlocks(f)
  {
    IndexVecInRow(f1, f2, f);
    RowStartMonotone(f1 + 1, f, f);
    NrBlocksIsEnd(f);
  }

  /** `index_vec` is injective on valid pairs: two blocks never share a slot. */
  lemma IndexVecInjective(f1: nat, f2: nat, g1: nat, g2: nat, f: nat)
    requires f1 <= f2 < f && g1 <= g2 < f
    ensures IndexVec(f1, f2, f) == IndexVec(g1, g2, f) <==> f1 == g1 && f2 == g2
  {
    IndexVecInRange(f1, f2, f);
    IndexVecInRange(g1, g2, f);
    if f1 < g1 {
      RowStartMonotone(f1 + 1, g1, f);
    } else if g1 < f1 {
      RowStartMonotone(g1 + 1, f1, f);
    } else {
      IndexVecInRow(f1, f2, f);
      IndexVecInRow(g1, g2, f);
    }
  }

  /** The slot of a valid pair, as a natural. */
  function Slot(p: Pair, f: nat): (s: nat)
    requires ValidPair(p, f)
    ensures s == IndexVec(p.0, p.1, f) && s < NrBlocks(f)
  {
    IndexVecInRange(p.0, p.1, f);
    IndexVec(p.0, p.1, f)
  }

  // ---------------------------------------------------------------------
  // The loop orders the trainer uses to visit blocks.

  /** `for (f2 = lo; f2 < hi; f2++)` with `f1` fixed. */
  function RowPairs(f1: nat, lo: nat, hi: nat): seq<Pair>
    decreases hi - lo
  {
    if lo >= hi then [] else [(f1, lo)] + RowPairs(f1, lo + 1, hi)
  }

  /** `for (f1 = lo; f1 < hi; f1++) for (f2 = f1; f2 < hi; f2++)`: the blocks
      whose two fields both lie in `[lo, hi)`. */
  function SelfPairs(lo: nat, hi: nat): seq<Pair>
    decreases hi - lo
  {
    if lo >= hi then [] else RowPairs(lo, lo, hi) + SelfPairs(lo + 1, hi)
  }

  /** `for (f1 = lo; f1 < fu; f1++) for (f2 = fu; f2 < f; f2++)`: the cross
      blocks, one field on each side. */
  function CrossPairs(lo: nat, fu: nat, f: nat): seq<Pair>
    decreases fu - lo
  {
    if lo >= fu then [] else RowPairs(lo, fu, f) + CrossPairs(lo + 1, fu, f)
  }

  predicate NoDup<T(==)>(s: seq<T>)
  {
    forall x, y :: 0 <= x < y < |s| ==> s[x] != s[y]
  }

  lemma NoDupConcat<T>(a: seq<T>, b: seq<T>)
    requires NoDup(a) && NoDup(b)
    requires forall t :: t in a ==> t !in b
    ensures NoDup(a + b)
  {
    forall x, y | 0 <= x < y < |a + b|
      ensures (a + b)[x] != (a + b)[y]
    {
      if y >= |a| && x < |a| {
        assert (a + b)[x] in a;
        assert (a + b)[y] in b;
      }
    }
  }

  lemma {:induction false} RowPairsAt(f1: nat, lo: nat, hi: nat)
    ensures |RowPairs(f1, lo, hi)| == if lo <= hi then hi - lo else 0
    ensures forall x :: 0 <= x < |RowPairs(f1, lo, hi)| ==> RowPairs(f1, lo, hi)[x] == (f1, lo + x)
    decreases hi - lo
  {
    if lo < hi {
      RowPairsAt(f1, lo + 1, hi);
    }
  }

  lemma RowPairsMember(f1: nat, lo: nat, hi: nat, p: Pair)
    ensures p in RowPairs(f1, lo, hi) <==> p.0 == f1 && lo <= p.1 < hi
    ensures NoDup(RowPairs(f1, lo, hi))
  {
    RowPairsAt(f1, lo, hi);
    if p.0 == f1 && lo <= p.1 < hi {
      assert RowPairs(f1, lo, hi)[p.1 - lo] == p;
    }
  }

  /** A pair is enumerated by `SelfPairs(lo, hi)` exactly when both of its
      fields lie in `[lo, hi)`. */
  lemma {:induction false} SelfPairsMember(lo: nat, hi: nat, p: Pair)
    ensures p in SelfPairs(lo, hi) <==> lo <= p.0 <= p.1 < hi
    decreases hi - lo
  {
    if lo < hi {
      SelfPairsMember(lo + 1, hi, p);
      RowPairsMember(lo, lo, hi, p);
      var row, rest := RowPairs(lo, lo, hi), SelfPairs(lo + 1, hi);
      assert SelfPairs(lo, hi) == row + rest;
      assert p in row + rest <==> p in row || p in rest;
    }
  }

  /** `SelfPairs(lo, hi)` never enumerates a block twice. */
  lemma {:induction false} SelfPairsNoDup(lo: nat, hi: nat)
    ensures NoDup(SelfPairs(lo, hi))
    decreases hi - lo
  {
    if lo < hi {
      SelfPairsNoDup(lo + 1, hi);
      RowPairsMember(lo, lo, hi, (lo, lo));
      forall q | q in RowPairs(lo, lo, hi)
        ensures q !in SelfPairs(lo + 1, hi)
      {
        RowPairsMember(lo, lo, hi, q);
        SelfPairsMember(lo + 1, hi, q);
      }
      NoDupConcat(RowPairs(lo, lo, hi), SelfPairs(lo + 1, hi));
    }
  }

  /** A pair is enumerated by `CrossPairs(lo, fu, f)` exactly when its first
      field lies in `[lo, fu)` and its second in `[fu, f)`. */
  lemma {:induction false} CrossPairsMember(lo: nat, fu: nat, f: nat, p: Pair)
    ensures p in CrossPairs(lo, fu, f) <==> lo <= p.0 < fu <= p.1 < f
    decreases fu - lo
  {
    if lo < fu {
      CrossPairsMember(lo + 1, fu, f, p);
      RowPairsMember(lo, fu, f, p);
      var row, rest := RowPairs(lo, fu, f), CrossPairs(lo + 1, fu, f);
      assert CrossPairs(lo, fu, f) == row + rest;
      assert p in row + rest <==> p in row || p in rest;
    }
  }

  /** `CrossPairs(lo, fu, f)` never enumerates a block twice. */
  lemma {:induction false} CrossPairsNoDup(lo: nat, fu: nat, f: nat)
    ensures NoDup(CrossPairs(lo, fu, f))
    decreases fu - lo
  {
    if lo < fu {
      CrossPairsNoDup(lo + 1, fu, f);
      RowPairsMember(lo, fu, f, (lo, fu));
      forall q | q in RowPairs(lo, fu, f)
        ensures q !in CrossPairs(lo + 1, fu, f)
      {
        RowPairsMember(lo, fu, f, q);
        CrossPairsMember(lo + 1, fu, f, q);
      }
      NoDupConcat(RowPairs(lo, fu, f), CrossPairs(lo + 1, fu, f));
    }
  }

  /** Visiting the triangle from row `lo` in `init`'s loop order yields the
      slots `RowStart(lo), RowStart(lo) + 1, ...` consecutively, up to the
      block count. */
  lemma {:induction false} SelfPairsSlots(lo: nat, f: nat)
    requires lo <= f
    ensures |SelfPairs(lo, f)| == RowStart(f, f) - RowStart(lo, f)
    ensures forall x :: 0 <= x < |SelfPairs(lo, f)| ==>
      IndexVec(SelfPairs(lo, f)[x].0, SelfPairs(lo, f)[x].1, f) == RowStart(lo, f) + x
    decreases f - lo
  {
    if lo < f {
      SelfPairsSlots(lo + 1, f);
      RowPairsAt(lo, lo, f);
      RowStartMonotone(lo + 1, f, f);
      var row: seq<Pair>, rest: seq<Pair> := RowPairs(lo, lo, f), SelfPairs(lo + 1, f);
      forall x | 0 <= x < |row + rest|
        ensures IndexVec((row + rest)[x].0, (row + rest)[x].1, f) == RowStart(lo, f) + x
      {
        if x < |row| {
          IndexVecInRow(lo, lo + x, f);
        } else {
          assert (row + rest)[x] == rest[x - |row|];
        }
      }
    }
  }

  /** `init`'s loop visits the slots `0, 1, 2, ...` and fills all
      `f(f+1)/2` of them, each once. */
  lemma AllPairsSlots(f: nat)
    ensures |SelfPairs(0, f)| == NrBlocks(f)
    ensures forall x :: 0 <= x < |SelfPairs(0, f)| ==>
      IndexVec(SelfPairs(0, f)[x].0, SelfPairs(0, f)[x].1, f) == x
  {
    SelfPairsSlots(0, f);
    NrBlocksIsEnd(f);
  }

  /** The inner loop over `f2` has run out of blocks. */
  lemma RowPairsDone(f1: nat, lo: nat, hi: nat, tail: seq<Pair>)
    requires lo >= hi
    ensures RowPairs(f1, lo, hi) + tail == tail
  {
    assert RowPairs(f1, lo, hi) == [];
  }

  /** The outer loop over `f1` of a self-side enumeration moves to the next field. */
  lemma SelfPairsSplit(f1: nat, hi: nat)
    requires f1 < hi
    ensures SelfPairs(f1, hi) == RowPairs(f1, f1, hi) + SelfPairs(f1 + 1, hi)
  {
  }

  /** The outer loop over `f1` of a cross enumeration moves to the next field. */
  lemma CrossPairsSplit(f1: nat, fu: nat, f: nat)
    requires f1 < fu
    ensures CrossPairs(f1, fu, f) == RowPairs(f1, fu, f) + CrossPairs(f1 + 1, fu, f)
  {
  }
}
