/** Re-bucketing a row-major sparse store into one compressed store per field
    (ffm.cpp `ImpData::split_fields`). The input is the backing sequence `N`
    of all entries and the row pointers `X` of `m` rows; every entry names a
    field below `f`. The output, per field `fi`, is the entries of that field
    (`Ns[fi]`), its own row pointers (`Xs[fi]`), its cardinality (`Ds[fi]`)
    and the number of occurrences of each column (`freq[fi]`). */
module Csr {
  import opened Types

  // ---------------------------------------------------------------------
  // What the loops compute, stated over the entries seen so far.

  /** The entries of `s` that belong to field `fi`, in their original order. */
  function FieldOf(s: seq<Node>, fi: nat): (r: seq<Node>)
    ensures |r| <= |s|
  {
    if s == [] then []
    else FieldOf(s[..|s| - 1], fi) + (if s[|s| - 1].fid == fi then [s[|s| - 1]] else [])
  }

  /** One past the largest column of field `fi` in `s`, or 0 when the field
      does not occur: the cardinality `D_fi`. */
  function DimOf(s: seq<Node>, fi: nat): nat
  {
    if s == [] then 0
    else
      var d := DimOf(s[..|s| - 1], fi);
      var x := s[|s| - 1];
      if x.fid == fi && x.idx + 1 > d then x.idx + 1 else d
  }

  /** How often column `idx` of field `fi` occurs in `s`. */
  function Occ(s: seq<Node>, fi: nat, idx: nat): nat
  {
    if s == [] then 0
    else Occ(s[..|s| - 1], fi, idx) + (if s[|s| - 1].fid == fi && s[|s| - 1].idx == idx then 1 else 0)
  }

  /** Every entry of `s` names a field below `f`. */
  predicate FieldsBelow(s: seq<Node>, f: nat)
  {
    forall p :: 0 <= p < |s| ==> s[p].fid < f
  }

  lemma Snoc(s: seq<Node>, x: Node)
    ensures (s + [x])[..|s|] == s && (s + [x])[|s|] == x
  {
  }

  lemma PrefixStep(s: seq<Node>, a: nat, p: nat)
    requires a <= p < |s|
    ensures s[a..p + 1] == s[a..p] + [s[p]]
  {
  }

  /** Filtering distributes over concatenation. */
  lemma {:induction false} FieldOfAppend(a: seq<Node>, b: seq<Node>, fi: nat)
    ensures FieldOf(a + b, fi) == FieldOf(a, fi) + FieldOf(b, fi)
    decreases |b|
  {
    if b == [] {
      assert a + b == a;
    } else {
      var b' := b[..|b| - 1];
      assert (a + b)[..|a + b| - 1] == a + b';
      FieldOfAppend(a, b', fi);
    }
  }

  /** An entry is kept by the field filter exactly when it is in `s` and
      belongs to field `fi`. */
  lemma {:induction false} FieldOfMember(s: seq<Node>, fi: nat, x: Node)
    ensures x in FieldOf(s, fi) <==> x in s && x.fid == fi
  {
    if s != [] {
      var s' := s[..|s| - 1];
      FieldOfMember(s', fi, x);
      assert s == s' + [s[|s| - 1]];
    }
  }

  /** The field entries of a prefix are a prefix of the field entries. */
  lemma FieldOfPrefix(s: seq<Node>, a: nat, b: nat, fi: nat)
    requires a <= b <= |s|
    ensures FieldOf(s[..b], fi) == FieldOf(s[..a], fi) + FieldOf(s[a..b], fi)
  {
    assert s[..b] == s[..a] + s[a..b];
    FieldOfAppend(s[..a], s[a..b], fi);
  }

  /** `D_fi` bounds every column of field `fi` and is attained by one of them. */
  lemma {:induction false} DimOfIsMax(s: seq<Node>, fi: nat)
    ensures forall p :: 0 <= p < |s| && s[p].fid == fi ==> s[p].idx < DimOf(s, fi)
    ensures DimOf(s, fi) == 0 || exists p :: 0 <= p < |s| && s[p].fid == fi && s[p].idx + 1 == DimOf(s, fi)
  {
    if s != [] {
      var s' := s[..|s| - 1];
      DimOfIsMax(s', fi);
      if DimOf(s', fi) != DimOf(s, fi) {
        assert s[|s| - 1].idx + 1 == DimOf(s, fi);
      } else if DimOf(s, fi) != 0 {
        var p :| 0 <= p < |s'| && s'[p].fid == fi && s'[p].idx + 1 == DimOf(s', fi);
        assert s[p] == s'[p];
      }
    }
  }

  /** No column at or beyond `D_fi` occurs in field `fi`: the frequency table
      of length `D_fi` misses nothing. */
  lemma {:induction false} OccBeyondDim(s: seq<Node>, fi: nat, idx: nat)
    requires idx >= DimOf(s, fi)
    ensures Occ(s, fi, idx) == 0
  {
    if s != [] {
      OccBeyondDim(s[..|s| - 1], fi, idx);
    }
  }

  // ---------------------------------------------------------------------
  // The loops of split_fields.

  /** What the counting pass has done once it has seen rows `[0, i)` and
      the entries `[X[i], p)` of row `i`. */
  ghost predicate Counted(N: seq<Node>, X: seq<nat>, m: nat, f: nat, i: nat, p: nat,
                          fSum: seq<nat>, fNnz: seq<seq<nat>>)
    requires IsOffsets(X, m, |N|) && i < m && X[i] <= p <= X[i + 1]
  {
    && |fSum| == f && |fNnz| == f
    && (forall fi :: 0 <= fi < f ==> |fNnz[fi]| == m)
    && (forall fi :: 0 <= fi < f ==> fSum[fi] == |FieldOf(N[..p], fi)|)
    && (forall fi, r :: 0 <= fi < f && 0 <= r < i ==> fNnz[fi][r] == |FieldOf(N[X[r]..X[r + 1]], fi)|)
    && (forall fi :: 0 <= fi < f ==> fNnz[fi][i] == |FieldOf(N[X[i]..p], fi)|)
    && (forall fi, r :: 0 <= fi < f && i < r < m ==> fNnz[fi][r] == 0)
  }

  /** Counting one more entry of row `i` keeps `Counted`. */
  lemma CountStep(N: seq<Node>, X: seq<nat>, m: nat, f: nat, i: nat, p: nat,
                  fSum: seq<nat>, fNnz: seq<seq<nat>>)
    requires IsOffsets(X, m, |N|) && FieldsBelow(N, f) && i < m && X[i] <= p < X[i + 1]
    requires Counted(N, X, m, f, i, p, fSum, fNnz)
    ensures
      var fid := N[p].fid;
      && fid < f
      && Counted(N, X, m, f, i, p + 1,
           fSum[fid := fSum[fid] + 1], fNnz[fid := fNnz[fid][i := fNnz[fid][i] + 1]])
  {
    assert X[i + 1] <= |N|;
    PrefixStep(N, 0, p);
    PrefixStep(N, X[i], p);
    Snoc(N[..p], N[p]);
    Snoc(N[X[i]..p], N[p]);
    assert N[..p + 1] == N[..p] + [N[p]];
  }

  /** Moving on to the next row keeps `Counted`. */
  lemma CountNextRow(N: seq<Node>, X: seq<nat>, m: nat, f: nat, i: nat,
                     fSum: seq<nat>, fNnz: seq<seq<nat>>)
    requires IsOffsets(X, m, |N|) && i + 1 < m
    requires Counted(N, X, m, f, i, X[i + 1], fSum, fNnz)
    ensures Counted(N, X, m, f, i + 1, X[i + 1], fSum, fNnz)
  {
    assert N[X[i + 1]..X[i + 1]] == [];
  }

  /** The counting pass: `f_sum_nnz[fi]` entries of field `fi` in all, and
      `f_nnz[fi][i]` of them in row `i`. */
  method CountFields(N: seq<Node>, X: seq<nat>, m: nat, f: nat)
    returns (fSum: seq<nat>, fNnz: seq<seq<nat>>)
    requires IsOffsets(X, m, |N|) && FieldsBelow(N, f)
    ensures |fSum| == f && forall fi :: 0 <= fi < f ==> fSum[fi] == |FieldOf(N, fi)|
    ensures |fNnz| == f
    ensures forall fi :: 0 <= fi < f ==> |fNnz[fi]| == m
    ensures forall fi, i :: 0 <= fi < f && 0 <= i < m ==> fNnz[fi][i] == |FieldOf(N[X[i]..X[i + 1]], fi)|
  {
    fSum := seq(f, _ => 0);
    fNnz := seq(f, _ => seq(m, _ => 0));
    if m == 0 {
      return;
    }
    assert N[..0] == [] && N[0..0] == [];
    var i := 0;
    while i < m
      invariant i < m
      invariant Counted(N, X, m, f, i, X[i], fSum, fNnz)
    {
      var p := X[i];
      assert X[i] <= X[i + 1] <= |N|;
      while p < X[i + 1]
        invariant X[i] <= p <= X[i + 1]
        invariant Counted(N, X, m, f, i, p, fSum, fNnz)
      {
        var fid := N[p].fid;
        CountStep(N, X, m, f, i, p, fSum, fNnz);
        fSum := fSum[fid := fSum[fid] + 1];
        fNnz := fNnz[fid := fNnz[fid][i := fNnz[fid][i] + 1]];
        p := p + 1;
      }
      if i + 1 == m {
        assert N[..X[m]] == N;
        return;
      }
      CountNextRow(N, X, m, f, i, fSum, fNnz);
      i := i + 1;
    }
  }

  /** What the filling pass has done once it has seen the entries `N[..p]`:
      each field's cursor counts that field's entries so far, the store is
      filled up to the cursor with them, and `Ds` is their cardinality. */
  ghost predicate Filled(N: seq<Node>, p: nat, f: nat, Ns: seq<seq<Node>>, cursor: seq<nat>, Ds: seq<nat>)
    requires p <= |N|
  {
    && |cursor| == f && |Ns| == f && |Ds| == f
    && forall fi :: 0 <= fi < f ==>
         && cursor[fi] == |FieldOf(N[..p], fi)|
         && |Ns[fi]| == |FieldOf(N, fi)|
         && cursor[fi] <= |Ns[fi]|
         && Ns[fi][..cursor[fi]] == FieldOf(N[..p], fi)
         && Ds[fi] == DimOf(N[..p], fi)
  }

  /** One step of the filling pass keeps `Filled`. */
  lemma FillStep(N: seq<Node>, p: nat, f: nat, Ns: seq<seq<Node>>, cursor: seq<nat>, Ds: seq<nat>)
    requires p < |N| && FieldsBelow(N, f) && Filled(N, p, f, Ns, cursor, Ds)
    ensures
      var x := N[p];
      var c := cursor[x.fid];
      && x.fid < f
      && c < |Ns[x.fid]|
      && Filled(N, p + 1, f,
        Ns[x.fid := Ns[x.fid][c := Node(x.fid, x.idx, x.val)]],
        cursor[x.fid := c + 1],
        if x.idx + 1 > Ds[x.fid] then Ds[x.fid := x.idx + 1] else Ds)
  {
    var x := N[p];
    var c := cursor[x.fid];
    assert N[..p + 1] == N[..p] + [x];
    assert N[..p + 1][..p] == N[..p];
    FieldOfPrefix(N, p + 1, |N|, x.fid);
    assert N[..|N|] == N;
    assert |FieldOf(N[..p + 1], x.fid)| == c + 1;
    var Ns', cursor' := Ns[x.fid := Ns[x.fid][c := x]], cursor[x.fid := c + 1];
    var Ds' := if x.idx + 1 > Ds[x.fid] then Ds[x.fid := x.idx + 1] else Ds;
    forall fi | 0 <= fi < f
      ensures cursor'[fi] == |FieldOf(N[..p + 1], fi)|
      ensures cursor'[fi] <= |Ns'[fi]|
      ensures Ns'[fi][..cursor'[fi]] == FieldOf(N[..p + 1], fi)
      ensures Ds'[fi] == DimOf(N[..p + 1], fi)
    {
      if fi == x.fid {
        assert Ns'[fi][..c + 1] == Ns[fi][..c] + [x];
      }
    }
  }

  /** The body of the filling loop for the entry at `p`: the field's cursor
      advances, `Ds[fid]` grows to one past the column, and the entry is
      stored at the cursor's old position. */
  method FillOne(N: seq<Node>, p: nat, f: nat, Ns: seq<seq<Node>>, cursor: seq<nat>, Ds: seq<nat>)
    returns (Ns': seq<seq<Node>>, cursor': seq<nat>, Ds': seq<nat>)
    requires p < |N| && FieldsBelow(N, f) && Filled(N, p, f, Ns, cursor, Ds)
    ensures Filled(N, p + 1, f, Ns', cursor', Ds')
  {
    var fid, idx, val := N[p].fid, N[p].idx, N[p].val;
    FillStep(N, p, f, Ns, cursor, Ds);
    cursor' := cursor[fid := cursor[fid] + 1];
    Ds' := if idx + 1 > Ds[fid] then Ds[fid := idx + 1] else Ds;
    var nnz := cursor'[fid] - 1;
    Ns' := Ns[fid := Ns[fid][nnz := Node(fid, idx, val)]];
  }

  /** The filling pass: each entry is appended to its field's store at that
      field's cursor, and `Ds[fid]` grows to one past the column seen. */
  method FillFields(N: seq<Node>, X: seq<nat>, m: nat, f: nat, fSum: seq<nat>)
    returns (Ns: seq<seq<Node>>, Ds: seq<nat>)
    requires IsOffsets(X, m, |N|) && FieldsBelow(N, f)
    requires |fSum| == f && forall fi :: 0 <= fi < f ==> fSum[fi] == |FieldOf(N, fi)|
    ensures |Ns| == f && forall fi :: 0 <= fi < f ==> Ns[fi] == FieldOf(N, fi)
    ensures |Ds| == f && forall fi :: 0 <= fi < f ==> Ds[fi] == DimOf(N, fi)
  {
    Ds := seq(f, _ => 0);
    Ns := seq(f, fi requires 0 <= fi < f => seq(fSum[fi], _ => DefaultNode));
    var cursor: seq<nat> := seq(f, _ => 0);
    assert N[..0] == [];
    var i := 0;
    while i < m
      invariant i <= m
      invariant Filled(N, X[i], f, Ns, cursor, Ds)
    {
      var p := X[i];
      assert X[i] <= X[i + 1] <= |N|;
      while p < X[i + 1]
        invariant X[i] <= p <= X[i + 1]
        invariant Filled(N, p, f, Ns, cursor, Ds)
      {
        Ns, cursor, Ds := FillOne(N, p, f, Ns, cursor, Ds);
        p := p + 1;
      }
      i := i + 1;
    }
    assert N[..X[m]] == N;
    forall fi | 0 <= fi < f
      ensures Ns[fi] == FieldOf(N, fi)
    {
      assert Ns[fi][..cursor[fi]] == Ns[fi];
    }
  }

  /** The frequency pass: `freq[fi]` has one counter per column below `D_fi`,
      zeroed, then incremented once per occurrence. */
  method CountFreq(N: seq<Node>, X: seq<nat>, m: nat, f: nat, Ds: seq<nat>)
    returns (freq: seq<seq<nat>>)
    requires IsOffsets(X, m, |N|) && FieldsBelow(N, f)
    requires |Ds| == f && forall fi :: 0 <= fi < f ==> Ds[fi] == DimOf(N, fi)
    ensures |freq| == f
    ensures forall fi :: 0 <= fi < f ==> |freq[fi]| == Ds[fi]
    ensures forall fi, idx :: 0 <= fi < f && 0 <= idx < Ds[fi] ==> freq[fi][idx] == Occ(N, fi, idx)
  {
    freq := seq(f, fi requires 0 <= fi < f => seq(Ds[fi], _ => 0));
    DimOfIsMax(N, 0);
    var i := 0;
    while i < m
      invariant i <= m
      invariant |freq| == f && forall fi :: 0 <= fi < f ==> |freq[fi]| == Ds[fi]
      invariant forall fi, idx :: 0 <= fi < f && 0 <= idx < Ds[fi] ==> freq[fi][idx] == Occ(N[..X[i]], fi, idx)
    {
      var p := X[i];
      assert X[i] <= X[i + 1] <= |N|;
      while p < X[i + 1]
        invariant X[i] <= p <= X[i + 1]
        invariant |freq| == f && forall fi :: 0 <= fi < f ==> |freq[fi]| == Ds[fi]
        invariant forall fi, idx :: 0 <= fi < f && 0 <= idx < Ds[fi] ==> freq[fi][idx] == Occ(N[..p], fi, idx)
      {
        var fid, idx := N[p].fid, N[p].idx;
        DimOfIsMax(N, fid);
        Snoc(N[..p], N[p]);
        assert N[..p + 1] == N[..p] + [N[p]];
        freq := freq[fid := freq[fid][idx := freq[fid][idx] + 1]];
        p := p + 1;
      }
      i := i + 1;
    }
    assert N[..X[m]] == N;
  }

  /** The offset pass: `Xs[fi][i+1] = Xs[fi][i] + f_nnz[fi][i]`, so that
      `Xs[fi][i]` counts the entries of field `fi` in the rows before `i`. */
  method FieldOffsets(N: seq<Node>, X: seq<nat>, m: nat, f: nat, fNnz: seq<seq<nat>>)
    returns (Xs: seq<seq<nat>>)
    requires IsOffsets(X, m, |N|)
    requires |fNnz| == f && forall fi :: 0 <= fi < f ==> |fNnz[fi]| == m
    requires forall fi, i :: 0 <= fi < f && 0 <= i < m ==> fNnz[fi][i] == |FieldOf(N[X[i]..X[i + 1]], fi)|
    ensures |Xs| == f
    ensures forall fi :: 0 <= fi < f ==> |Xs[fi]| == m + 1
    ensures forall fi, i :: 0 <= fi < f && 0 <= i <= m ==> Xs[fi][i] == |FieldOf(N[..X[i]], fi)|
  {
    Xs := [];
    var fi := 0;
    while fi < f
      invariant fi <= f && |Xs| == fi
      invariant forall g :: 0 <= g < fi ==> |Xs[g]| == m + 1
      invariant forall g, i :: 0 <= g < fi && 0 <= i <= m ==> Xs[g][i] == |FieldOf(N[..X[i]], g)|
    {
      var row: seq<nat> := [0];
      var start := 0;
      var i := 0;
      while i < m
        invariant i <= m && |row| == i + 1
        invariant start == |FieldOf(N[..X[i]], fi)|
        invariant forall r :: 0 <= r <= i ==> row[r] == |FieldOf(N[..X[r]], fi)|
      {
        assert X[i] <= X[i + 1] <= |N|;
        FieldOfPrefix(N, X[i], X[i + 1], fi);
        row := row + [start + fNnz[fi][i]];
        start := start + fNnz[fi][i];
        i := i + 1;
      }
      Xs := Xs + [row];
      fi := fi + 1;
    }
  }

  /** `split_fields`: the four passes in order. Field `fi`'s slice of row `i`
      holds exactly the entries of row `i` in that field, in their original
      order, and the slices tile the field's store. */
  method SplitFields(N: seq<Node>, X: seq<nat>, m: nat, f: nat)
    returns (Ns: seq<seq<Node>>, Xs: seq<seq<nat>>, Ds: seq<nat>, freq: seq<seq<nat>>)
    requires IsOffsets(X, m, |N|) && FieldsBelow(N, f)
    ensures |Ns| == f && |Xs| == f && |Ds| == f && |freq| == f
    ensures forall fi :: 0 <= fi < f ==>
      && Ns[fi] == FieldOf(N, fi)
      && IsOffsets(Xs[fi], m, |Ns[fi]|)
      && forall i :: 0 <= i < m ==> Ns[fi][Xs[fi][i]..Xs[fi][i + 1]] == FieldOf(N[X[i]..X[i + 1]], fi)
    ensures forall fi :: 0 <= fi < f ==> Ds[fi] == DimOf(N, fi)
    ensures forall fi :: 0 <= fi < f ==> |freq[fi]| == Ds[fi]
    ensures forall fi, idx :: 0 <= fi < f && 0 <= idx < Ds[fi] ==> freq[fi][idx] == Occ(N, fi, idx)
  {
    var fSum, fNnz := CountFields(N, X, m, f);
    Ns, Ds := FillFields(N, X, m, f, fSum);
    freq := CountFreq(N, X, m, f, Ds);
    Xs := FieldOffsets(N, X, m, f, fNnz);
    forall fi | 0 <= fi < f
      ensures IsOffsets(Xs[fi], m, |Ns[fi]|)
      ensures forall i :: 0 <= i < m ==> Ns[fi][Xs[fi][i]..Xs[fi][i + 1]] == FieldOf(N[X[i]..X[i + 1]], fi)
    {
      assert N[..X[0]] == [];
      assert N[..X[m]] == N;
      forall i, j | 0 <= i <= j <= m
        ensures Xs[fi][i] <= Xs[fi][j]
      {
        FieldOfPrefix(N, X[i], X[j], fi);
      }
      forall i | 0 <= i < m
        ensures Ns[fi][Xs[fi][i]..Xs[fi][i + 1]] == FieldOf(N[X[i]..X[i + 1]], fi)
      {
        FieldSlice(N, X[i], X[i + 1], fi);
      }
    }
  }

  /** The field entries of `s[a..b]` sit in the field store between the counts
      of field entries before `a` and before `b`. */
  lemma FieldSlice(s: seq<Node>, a: nat, b: nat, fi: nat)
    requires a <= b <= |s|
    ensures |FieldOf(s[..a], fi)| <= |FieldOf(s[..b], fi)| <= |FieldOf(s, fi)|
    ensures FieldOf(s, fi)[|FieldOf(s[..a], fi)|..|FieldOf(s[..b], fi)|] == FieldOf(s[a..b], fi)
  {
    FieldOfPrefix(s, a, b, fi);
    FieldOfPrefix(s, b, |s|, fi);
    assert s[..|s|] == s;
  }
}
