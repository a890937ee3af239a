/** Transposing the interaction store (ffm.cpp `ImpData::transY`): given the
    interactions of the other side, one compressed row per other-side row
    `i < n`, each edge naming a row of this side in `idx`, build this side's
    interaction store, one compressed row per own row `t < m`, listing the
    other-side rows that point at `t`. Edges whose target is `>= m` are
    dropped. The entries are gathered in row order and then sorted by
    (target, source); that sort is modelled by the bucket order
    `SortByColumn`, which is proved sorted and a permutation. */
module Transpose {
  import opened Types

  /** One gathered edge: the other-side row it comes from and its entry. */
  type Entry = (nat, Node)

  function Target(e: Entry): nat { e.1.idx }

  /** The edges of one other-side row `i` (entries `s`) whose target is
      below `m`, in their order. */
  function KeptIn(i: nat, s: seq<Node>, m: nat): (r: seq<Entry>)
    ensures |r| <= |s|
  {
    if s == [] then []
    else KeptIn(i, s[..|s| - 1], m) + (if s[|s| - 1].idx < m then [(i, s[|s| - 1])] else [])
  }

  /** The edges of the first `rows` other-side rows whose target is below `m`. */
  function Kept(YN: seq<Node>, YX: seq<nat>, n: nat, rows: nat, m: nat): seq<Entry>
    requires IsOffsets(YX, n, |YN|) && rows <= n
  {
    if rows == 0 then []
    else Kept(YN, YX, n, rows - 1, m) + KeptIn(rows - 1, YN[YX[rows - 1]..YX[rows]], m)
  }

  /** The entries of `perm` aimed at target `t`, in their order. */
  function ByColumn(perm: seq<Entry>, t: nat): (r: seq<Entry>)
    ensures |r| <= |perm|
  {
    if perm == [] then []
    else ByColumn(perm[..|perm| - 1], t) + (if Target(perm[|perm| - 1]) == t then [perm[|perm| - 1]] else [])
  }

  /** The bucket order: all entries aimed at 0, then at 1, ..., up to `t - 1`. */
  function SortByColumn(perm: seq<Entry>, t: nat): seq<Entry>
  {
    if t == 0 then [] else SortByColumn(perm, t - 1) + ByColumn(perm, t - 1)
  }

  /** The entry written into the transposed store: the source row and the
      value. The field id of an interaction entry is never set; it is 0. */
  function Relabel(es: seq<Entry>): (r: seq<Node>)
    ensures |r| == |es|
    ensures forall j :: 0 <= j < |es| ==> r[j] == Node(0, es[j].0, es[j].1.val)
  {
    if es == [] then [] else Relabel(es[..|es| - 1]) + [Node(0, es[|es| - 1].0, es[|es| - 1].1.val)]
  }

  /** `(target, source)` order: the comparison `transY` sorts with. */
  predicate KeyLe(a: Entry, b: Entry)
  {
    Target(a) < Target(b) || (Target(a) == Target(b) && a.0 <= b.0)
  }

  predicate SortedByKey(s: seq<Entry>)
  {
    forall a, b :: 0 <= a < b < |s| ==> KeyLe(s[a], s[b])
  }

  predicate SourcesAscending(s: seq<Entry>)
  {
    forall a, b :: 0 <= a < b < |s| ==> s[a].0 <= s[b].0
  }

  // ---------------------------------------------------------------------
  // Facts about the specification functions.

  lemma Snoc(s: seq<Entry>, e: Entry)
    ensures (s + [e])[..|s|] == s && (s + [e])[|s|] == e
  {
  }

  /** An entry is gathered from row `i` exactly when it is one of that row's
      entries and its target is below `m`. */
  lemma {:induction false} KeptInMember(i: nat, s: seq<Node>, m: nat, e: Entry)
    ensures e in KeptIn(i, s, m) <==> e.0 == i && e.1 in s && e.1.idx < m
  {
    if s != [] {
      var s' := s[..|s| - 1];
      KeptInMember(i, s', m, e);
      assert s == s' + [s[|s| - 1]];
    }
  }

  /** An entry is gathered exactly when it is an entry of an other-side row
      below `rows` whose target is below `m`. */
  lemma {:induction false} KeptMember(YN: seq<Node>, YX: seq<nat>, n: nat, rows: nat, m: nat, e: Entry)
    requires IsOffsets(YX, n, |YN|) && rows <= n
    ensures e in Kept(YN, YX, n, rows, m) <==>
      e.0 < rows && e.1 in YN[YX[e.0]..YX[e.0 + 1]] && e.1.idx < m
  {
    if rows > 0 {
      KeptMember(YN, YX, n, rows - 1, m, e);
      KeptInMember(rows - 1, YN[YX[rows - 1]..YX[rows]], m, e);
    }
  }

  /** The gathered entries come in row order, and every one of them is below `rows`. */
  lemma {:induction false} KeptAscending(YN: seq<Node>, YX: seq<nat>, n: nat, rows: nat, m: nat)
    requires IsOffsets(YX, n, |YN|) && rows <= n
    ensures SourcesAscending(Kept(YN, YX, n, rows, m))
    ensures forall j :: 0 <= j < |Kept(YN, YX, n, rows, m)| ==> Kept(YN, YX, n, rows, m)[j].0 < rows
  {
    if rows > 0 {
      var front := Kept(YN, YX, n, rows - 1, m);
      var row := KeptIn(rows - 1, YN[YX[rows - 1]..YX[rows]], m);
      KeptAscending(YN, YX, n, rows - 1, m);
      forall j | 0 <= j < |row|
        ensures row[j].0 == rows - 1
      {
        KeptInMember(rows - 1, YN[YX[rows - 1]..YX[rows]], m, row[j]);
      }
      var all := front + row;
      forall a, b | 0 <= a < b < |all|
        ensures all[a].0 <= all[b].0
      {
        if b < |front| {
          assert all[a] == front[a] && all[b] == front[b];
        } else if a < |front| {
          assert all[a] == front[a] && all[b] == row[b - |front|];
        } else {
          assert all[a] == row[a - |front|] && all[b] == row[b - |front|];
        }
      }
      forall j | 0 <= j < |all|
        ensures all[j].0 < rows
      {
        if j < |front| {
          assert all[j] == front[j];
        } else {
          assert all[j] == row[j - |front|];
        }
      }
    }
  }

  /** Every gathered entry aims below `m`. */
  lemma {:induction false} KeptTargets(YN: seq<Node>, YX: seq<nat>, n: nat, m: nat, e: Entry)
    requires IsOffsets(YX, n, |YN|) && e in Kept(YN, YX, n, n, m)
    ensures Target(e) < m
  {
    KeptMember(YN, YX, n, n, m, e);
  }

  /** A bucket holds exactly the entries of `perm` aimed at `t`, each as
      often as in `perm`. */
  lemma {:induction false} ByColumnCount(perm: seq<Entry>, t: nat, e: Entry)
    ensures multiset(ByColumn(perm, t))[e] == if Target(e) == t then multiset(perm)[e] else 0
  {
    if perm != [] {
      var p' := perm[..|perm| - 1];
      ByColumnCount(p', t, e);
      assert perm == p' + [perm[|perm| - 1]];
    }
  }

  lemma {:induction false} ByColumnMember(perm: seq<Entry>, t: nat, e: Entry)
    ensures e in ByColumn(perm, t) <==> e in perm && Target(e) == t
  {
    ByColumnCount(perm, t, e);
  }

  /** A bucket keeps the order of `perm`: if the sources ascend in `perm`
      they ascend in the bucket. */
  lemma {:induction false} ByColumnAscending(perm: seq<Entry>, t: nat)
    requires SourcesAscending(perm)
    ensures SourcesAscending(ByColumn(perm, t))
  {
    if perm != [] {
      var p' := perm[..|perm| - 1];
      var last := perm[|perm| - 1];
      ByColumnAscending(p', t);
      var b := ByColumn(p', t);
      if Target(last) == t {
        forall j | 0 <= j < |b|
          ensures b[j].0 <= last.0
        {
          ByColumnMember(p', t, b[j]);
          var q :| 0 <= q < |p'| && p'[q] == b[j];
          assert perm[q] == b[j];
        }
        var all := b + [last];
        forall x, y | 0 <= x < y < |all|
          ensures all[x].0 <= all[y].0
        {
          assert all[x] == b[x];
          if y < |b| {
            assert all[y] == b[y];
          }
        }
      } else {
        assert ByColumn(perm, t) == b + [];
      }
    }
  }

  /** The bucket order up to `t` holds each entry aimed below `t` as often
      as `perm` does, and nothing else. */
  lemma {:induction false} SortByColumnCount(perm: seq<Entry>, t: nat, e: Entry)
    ensures multiset(SortByColumn(perm, t))[e] == if Target(e) < t then multiset(perm)[e] else 0
  {
    if t > 0 {
      var front, b := SortByColumn(perm, t - 1), ByColumn(perm, t - 1);
      SortByColumnCount(perm, t - 1, e);
      ByColumnCount(perm, t - 1, e);
      assert SortByColumn(perm, t) == front + b;
      assert multiset(front + b) == multiset(front) + multiset(b);
    }
  }

  /** When every target is below `m`, the bucket order is a permutation. */
  lemma SortByColumnPermutation(perm: seq<Entry>, m: nat)
    requires forall j :: 0 <= j < |perm| ==> Target(perm[j]) < m
    ensures multiset(SortByColumn(perm, m)) == multiset(perm)
  {
    forall e
      ensures multiset(SortByColumn(perm, m))[e] == multiset(perm)[e]
    {
      SortByColumnCount(perm, m, e);
    }
  }

  /** Every entry of the bucket order up to `t` aims below `t`. */
  lemma {:induction false} SortByColumnTargets(perm: seq<Entry>, t: nat)
    ensures forall j :: 0 <= j < |SortByColumn(perm, t)| ==> Target(SortByColumn(perm, t)[j]) < t
  {
    if t > 0 {
      var front := SortByColumn(perm, t - 1);
      var b := ByColumn(perm, t - 1);
      SortByColumnTargets(perm, t - 1);
      forall j | 0 <= j < |front + b|
        ensures Target((front + b)[j]) < t
      {
        if j < |front| {
          assert (front + b)[j] == front[j];
        } else {
          ByColumnMember(perm, t - 1, b[j - |front|]);
        }
      }
    }
  }

  /** Appending a bucket of a larger target, in ascending source order, to a
      sorted sequence keeps it sorted. */
  lemma AppendBucketSorted(front: seq<Entry>, b: seq<Entry>, t: nat)
    requires SortedByKey(front) && SourcesAscending(b)
    requires forall j :: 0 <= j < |front| ==> Target(front[j]) < t
    requires forall j :: 0 <= j < |b| ==> Target(b[j]) == t
    ensures SortedByKey(front + b)
  {
    var all := front + b;
    forall x, y | 0 <= x < y < |all|
      ensures KeyLe(all[x], all[y])
    {
      if y < |front| {
        assert all[x] == front[x] && all[y] == front[y];
      } else if x < |front| {
        assert all[x] == front[x] && all[y] == b[y - |front|];
      } else {
        assert all[x] == b[x - |front|] && all[y] == b[y - |front|];
      }
    }
  }

  /** When the sources ascend in `perm`, the bucket order is sorted by
      (target, source). */
  lemma {:induction false} SortByColumnSorted(perm: seq<Entry>, t: nat)
    requires SourcesAscending(perm)
    ensures SortedByKey(SortByColumn(perm, t))
  {
    if t > 0 {
      var b := ByColumn(perm, t - 1);
      SortByColumnSorted(perm, t - 1);
      SortByColumnTargets(perm, t - 1);
      ByColumnAscending(perm, t - 1);
      forall j | 0 <= j < |b|
        ensures Target(b[j]) == t - 1
      {
        ByColumnMember(perm, t - 1, b[j]);
      }
      AppendBucketSorted(SortByColumn(perm, t - 1), b, t - 1);
    }
  }

  // ---------------------------------------------------------------------
  // The loops of transY.

  /** What the gathering loop has done once it has seen rows `[0, i)` and the
      entries `[YX[i], p)` of row `i`: `perm` holds the kept entries so far,
      `nnzs[t]` counts those aimed at `t`. */
  ghost predicate Gathered(YN: seq<Node>, YX: seq<nat>, n: nat, m: nat, i: nat, p: nat,
                           perm: seq<Entry>, nnzs: seq<nat>)
    requires IsOffsets(YX, n, |YN|) && i < n && YX[i] <= p <= YX[i + 1]
  {
    && perm == Kept(YN, YX, n, i, m) + KeptIn(i, YN[YX[i]..p], m)
    && |nnzs| == m
    && forall t {:trigger nnzs[t]} :: 0 <= t < m ==> nnzs[t] == |ByColumn(perm, t)|
  }

  /** Looking at one more entry keeps `Gathered`. */
  lemma GatherStep(YN: seq<Node>, YX: seq<nat>, n: nat, m: nat, i: nat, p: nat,
                   perm: seq<Entry>, nnzs: seq<nat>)
    requires IsOffsets(YX, n, |YN|) && i < n && YX[i] <= p < YX[i + 1]
    requires Gathered(YN, YX, n, m, i, p, perm, nnzs)
    ensures YN[p].idx >= m ==> Gathered(YN, YX, n, m, i, p + 1, perm, nnzs)
    ensures YN[p].idx < m ==>
      Gathered(YN, YX, n, m, i, p + 1, perm + [(i, YN[p])], nnzs[YN[p].idx := nnzs[YN[p].idx] + 1])
  {
    assert YX[i + 1] <= |YN|;
    var s := YN[YX[i]..p + 1];
    assert s[..|s| - 1] == YN[YX[i]..p] && s[|s| - 1] == YN[p];
    var e := (i, YN[p]);
    if YN[p].idx < m {
      var perm' := perm + [e];
      Snoc(perm, e);
      assert perm'[..|perm'| - 1] == perm;
    }
  }

  /** Moving on to the next other-side row keeps `Gathered`. */
  lemma GatherNextRow(YN: seq<Node>, YX: seq<nat>, n: nat, m: nat, i: nat,
                      perm: seq<Entry>, nnzs: seq<nat>)
    requires IsOffsets(YX, n, |YN|) && i + 1 < n
    requires Gathered(YN, YX, n, m, i, YX[i + 1], perm, nnzs)
    ensures Gathered(YN, YX, n, m, i + 1, YX[i + 1], perm, nnzs)
  {
    assert YN[YX[i + 1]..YX[i + 1]] == [];
    assert perm + [] == perm;
  }

  /** One pass of the gathering loop's body: an entry aiming at a kept target
      is counted for its column and appended. */
  method GatherOne(YN: seq<Node>, YX: seq<nat>, n: nat, m: nat, i: nat, p: nat,
                   perm: seq<Entry>, nnzs: seq<nat>, nnz: nat)
    returns (perm': seq<Entry>, nnzs': seq<nat>, nnz': nat)
    requires IsOffsets(YX, n, |YN|) && i < n && YX[i] <= p < YX[i + 1]
    requires Gathered(YN, YX, n, m, i, p, perm, nnzs) && nnz == |perm|
    ensures Gathered(YN, YX, n, m, i, p + 1, perm', nnzs') && nnz' == |perm'|
  {
    GatherStep(YN, YX, n, m, i, p, perm, nnzs);
    perm', nnzs', nnz' := perm, nnzs, nnz;
    if YN[p].idx < m {
      nnzs' := nnzs[YN[p].idx := nnzs[YN[p].idx] + 1];
      perm' := perm + [(i, YN[p])];
      nnz' := nnz + 1;
    }
  }

  /** The gathering loop of `transY`: the kept entries in row order, and how
      many of them aim at each target. */
  method Gather(YN: seq<Node>, YX: seq<nat>, n: nat, m: nat)
    returns (perm: seq<Entry>, nnzs: seq<nat>, nnz: nat)
    requires IsOffsets(YX, n, |YN|)
    ensures perm == Kept(YN, YX, n, n, m) && nnz == |perm|
    ensures |nnzs| == m && forall t {:trigger nnzs[t]} :: 0 <= t < m ==> nnzs[t] == |ByColumn(perm, t)|
  {
    perm, nnzs, nnz := [], seq(m, _ => 0), 0;
    if n == 0 {
      return;
    }
    assert YN[YX[0]..YX[0]] == [];
    var i := 0;
    while i < n
      invariant i < n
      invariant Gathered(YN, YX, n, m, i, YX[i], perm, nnzs) && nnz == |perm|
    {
      var p := YX[i];
      assert YX[i] <= YX[i + 1] <= |YN|;
      while p < YX[i + 1]
        invariant YX[i] <= p <= YX[i + 1]
        invariant Gathered(YN, YX, n, m, i, p, perm, nnzs) && nnz == |perm|
      {
        perm, nnzs, nnz := GatherOne(YN, YX, n, m, i, p, perm, nnzs, nnz);
        p := p + 1;
      }
      if i + 1 == n {
        return;
      }
      GatherNextRow(YN, YX, n, m, i, perm, nnzs);
      i := i + 1;
    }
  }

  /** The copy loop: `M[j]` takes the source row and the value of the `j`-th
      sorted entry. */
  method CopyEntries(sorted: seq<Entry>) returns (M: seq<Node>)
    ensures |M| == |sorted|
    ensures forall j :: 0 <= j < |sorted| ==> M[j] == Node(0, sorted[j].0, sorted[j].1.val)
  {
    M := seq(|sorted|, _ => DefaultNode);
    var j := 0;
    while j < |sorted|
      invariant j <= |sorted| && |M| == |sorted|
      invariant forall q :: 0 <= q < j ==> M[q] == Node(0, sorted[q].0, sorted[q].1.val)
    {
      M := M[j := Node(0, sorted[j].0, sorted[j].1.val)];
      j := j + 1;
    }
  }

  /** The row-pointer loop: `Y[t+1] = Y[t] + nnzs[t]`, so `Y[t]` counts the
      entries aimed below `t`. */
  method TargetOffsets(perm: seq<Entry>, m: nat, nnzs: seq<nat>) returns (Y: seq<nat>)
    requires |nnzs| == m && forall t {:trigger nnzs[t]} :: 0 <= t < m ==> nnzs[t] == |ByColumn(perm, t)|
    ensures |Y| == m + 1
    ensures forall t :: 0 <= t <= m ==> Y[t] == |SortByColumn(perm, t)|
  {
    Y := [0];
    var startIdx := 0;
    var i := 0;
    while i < m
      invariant i <= m && |Y| == i + 1
      invariant startIdx == |SortByColumn(perm, i)|
      invariant forall t {:trigger Y[t]} :: 0 <= t <= i ==> Y[t] == |SortByColumn(perm, t)|
    {
      assert SortByColumn(perm, i + 1) == SortByColumn(perm, i) + ByColumn(perm, i);
      startIdx := startIdx + nnzs[i];
      Y := Y + [startIdx];
      i := i + 1;
    }
  }

  /** The prefix of the bucket order up to `t` is a prefix of the whole one. */
  lemma {:induction false} SortByColumnPrefix(perm: seq<Entry>, t: nat, u: nat)
    requires t <= u
    ensures |SortByColumn(perm, t)| <= |SortByColumn(perm, u)|
    ensures SortByColumn(perm, u)[..|SortByColumn(perm, t)|] == SortByColumn(perm, t)
    decreases u
  {
    if t < u {
      SortByColumnPrefix(perm, t, u - 1);
      var a := SortByColumn(perm, u - 1);
      assert SortByColumn(perm, u)[..|a|] == a;
    }
  }

  /** Bucket `t` sits in the bucket order between the counts of entries
      aimed below `t` and below `t + 1`. */
  lemma BucketSlice(perm: seq<Entry>, t: nat, m: nat)
    requires t < m
    ensures |SortByColumn(perm, t)| <= |SortByColumn(perm, t + 1)| <= |SortByColumn(perm, m)|
    ensures SortByColumn(perm, m)[|SortByColumn(perm, t)|..|SortByColumn(perm, t + 1)|] == ByColumn(perm, t)
  {
    SortByColumnPrefix(perm, t + 1, m);
    var front := SortByColumn(perm, t + 1);
    assert front == SortByColumn(perm, t) + ByColumn(perm, t);
    assert front[|SortByColumn(perm, t)|..] == ByColumn(perm, t);
  }

  lemma RelabelSlice(s: seq<Entry>, a: nat, b: nat)
    requires a <= b <= |s|
    ensures Relabel(s)[a..b] == Relabel(s[a..b])
  {
  }

  /** `transY`: this side's interaction store. `Y` tiles `M`, and row `t`
      of it lists, in ascending source order, every gathered edge aimed at
      `t`, as (source row, value). */
  method TransY(YN: seq<Node>, YX: seq<nat>, n: nat, m: nat)
    returns (M: seq<Node>, Y: seq<nat>, nnzY: nat)
    requires IsOffsets(YX, n, |YN|)
    ensures nnzY == |M| && IsOffsets(Y, m, |M|)
    ensures M == Relabel(SortByColumn(Kept(YN, YX, n, n, m), m))
    ensures forall t :: 0 <= t < m ==> M[Y[t]..Y[t + 1]] == Relabel(ByColumn(Kept(YN, YX, n, n, m), t))
  {
    var perm, nnzs, nnz := Gather(YN, YX, n, m);
    var sorted := SortByColumn(perm, m);
    forall j | 0 <= j < |perm|
      ensures Target(perm[j]) < m
    {
      KeptTargets(YN, YX, n, m, perm[j]);
    }
    SortByColumnPermutation(perm, m);
    assert |sorted| == |multiset(sorted)| == |multiset(perm)| == |perm|;
    M := CopyEntries(sorted);
    assert M == Relabel(sorted);
    nnzY := nnz;
    Y := TargetOffsets(perm, m, nnzs);
    forall i, j | 0 <= i <= j <= m
      ensures Y[i] <= Y[j]
    {
      SortByColumnPrefix(perm, i, j);
    }
    forall t | 0 <= t < m
      ensures M[Y[t]..Y[t + 1]] == Relabel(ByColumn(perm, t))
    {
      BucketSlice(perm, t, m);
      RelabelSlice(sorted, Y[t], Y[t + 1]);
    }
  }

  /** What the transposed store means: an entry `(source i, value v)` is in
      row `t` exactly when row `i < n` of the other side has an entry aimed
      at `t` with value `v`; row `t` lists its sources in ascending order;
      and the whole store is the gathered edges, sorted by (target, source)
      and nothing lost or added. */
  lemma TransposeMeaning(YN: seq<Node>, YX: seq<nat>, n: nat, m: nat, t: nat, e: Entry)
    requires IsOffsets(YX, n, |YN|) && t < m
    ensures e in ByColumn(Kept(YN, YX, n, n, m), t) <==>
      e.0 < n && e.1 in YN[YX[e.0]..YX[e.0 + 1]] && e.1.idx == t
    ensures SourcesAscending(ByColumn(Kept(YN, YX, n, n, m), t))
    ensures SortedByKey(SortByColumn(Kept(YN, YX, n, n, m), m))
    ensures multiset(SortByColumn(Kept(YN, YX, n, n, m), m)) == multiset(Kept(YN, YX, n, n, m))
  {
    var perm := Kept(YN, YX, n, n, m);
    ByColumnMember(perm, t, e);
    KeptMember(YN, YX, n, n, m, e);
    KeptAscending(YN, YX, n, n, m);
    ByColumnAscending(perm, t);
    SortByColumnSorted(perm, m);
    forall j | 0 <= j < |perm|
      ensures Target(perm[j]) < m
    {
      KeptTargets(YN, YX, n, m, perm[j]);
    }
    SortByColumnPermutation(perm, m);
  }
}
