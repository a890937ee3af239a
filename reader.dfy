/** The array-assembly half of reading a data file (ffm.cpp `ImpData::read`).
    Parsing text is left out: each line arrives already split into its
    label indices (present only when the file has labels) and its
    `fid:idx:val` entries. The first pass counts rows, label and entry
    nonzeros and the bounds `n` and `f`; the second pass copies the labels
    into `M` and the entries into `N`, dropping every entry whose column is
    at or beyond the cardinality `ds[fid]` of its field when a cardinality
    table is given; then the row pointers `X` and `Y` are laid out. */
module Reader {
  import opened Types

  /** One line of the data file, tokenised. */
  datatype Line = Line(labels: seq<nat>, feats: seq<Node>)

  /** An entry survives the read unless a cardinality table is given and
      its column is at or beyond its field's cardinality. */
  predicate Keep(ds: Option<seq<nat>>, x: Node)
    requires ds.Some? ==> x.fid < |ds.value|
  {
    ds.None? || x.idx < ds.value[x.fid]
  }

  /** Every field id of every line has an entry in the cardinality table. */
  predicate Covers(ds: Option<seq<nat>>, lines: seq<Line>)
  {
    ds.Some? ==> forall i, j :: 0 <= i < |lines| && 0 <= j < |lines[i].feats| ==> lines[i].feats[j].fid < |ds.value|
  }

  predicate CoversFeats(ds: Option<seq<nat>>, xs: seq<Node>)
  {
    ds.Some? ==> forall j :: 0 <= j < |xs| ==> xs[j].fid < |ds.value|
  }

  /** The surviving entries of one line, in their order. */
  function KeptFeats(xs: seq<Node>, ds: Option<seq<nat>>): (r: seq<Node>)
    requires CoversFeats(ds, xs)
    ensures |r| <= |xs|
  {
    if xs == [] then []
    else KeptFeats(xs[..|xs| - 1], ds) + (if Keep(ds, xs[|xs| - 1]) then [xs[|xs| - 1]] else [])
  }

  /** The label indices of all lines, in order. */
  function Labels(lines: seq<Line>): seq<nat>
  {
    if lines == [] then [] else Labels(lines[..|lines| - 1]) + lines[|lines| - 1].labels
  }

  /** The surviving entries of all lines, in order. */
  function Feats(lines: seq<Line>, ds: Option<seq<nat>>): seq<Node>
    requires Covers(ds, lines)
  {
    if lines == [] then []
    else Feats(lines[..|lines| - 1], ds) + KeptFeats(lines[|lines| - 1].feats, ds)
  }

  /** One past the largest label index, or 0: the number of items `n`. */
  function LabelBound(ls: seq<nat>): nat
  {
    if ls == [] then 0
    else
      var b := LabelBound(ls[..|ls| - 1]);
      if ls[|ls| - 1] + 1 > b then ls[|ls| - 1] + 1 else b
  }

  /** One past the largest field id of the entries, or 0. */
  function FieldBound(xs: seq<Node>): nat
  {
    if xs == [] then 0
    else
      var b := FieldBound(xs[..|xs| - 1]);
      if xs[|xs| - 1].fid + 1 > b then xs[|xs| - 1].fid + 1 else b
  }

  /** One past the largest field id over all lines, dropped entries included. */
  function LinesFieldBound(lines: seq<Line>): nat
  {
    if lines == [] then 0
    else
      var a := LinesFieldBound(lines[..|lines| - 1]);
      var b := FieldBound(lines[|lines| - 1].feats);
      if b > a then b else a
  }

  /** The label entries stored in `M`: only the index is set. */
  function LabelNodes(ls: seq<nat>): (r: seq<Node>)
    ensures |r| == |ls|
    ensures forall j :: 0 <= j < |ls| ==> r[j] == Node(0, ls[j], 0.0)
  {
    if ls == [] then [] else LabelNodes(ls[..|ls| - 1]) + [Node(0, ls[|ls| - 1], 0.0)]
  }

  // ---------------------------------------------------------------------
  // Facts about the specification functions.

  /** The field bound is a strict bound on every field id and is attained. */
  lemma {:induction false} FieldBoundIsMax(xs: seq<Node>)
    ensures forall j :: 0 <= j < |xs| ==> xs[j].fid < FieldBound(xs)
    ensures FieldBound(xs) == 0 || exists j :: 0 <= j < |xs| && xs[j].fid + 1 == FieldBound(xs)
  {
    if xs != [] {
      var xs' := xs[..|xs| - 1];
      FieldBoundIsMax(xs');
      if FieldBound(xs) == FieldBound(xs') && FieldBound(xs) != 0 {
        var j :| 0 <= j < |xs'| && xs'[j].fid + 1 == FieldBound(xs');
        assert xs[j] == xs'[j];
      }
    }
  }

  /** The label bound is a strict bound on every label and is attained. */
  lemma {:induction false} LabelBoundIsMax(ls: seq<nat>)
    ensures forall j :: 0 <= j < |ls| ==> ls[j] < LabelBound(ls)
    ensures LabelBound(ls) == 0 || exists j :: 0 <= j < |ls| && ls[j] + 1 == LabelBound(ls)
  {
    if ls != [] {
      var ls' := ls[..|ls| - 1];
      LabelBoundIsMax(ls');
      if LabelBound(ls) == LabelBound(ls') && LabelBound(ls) != 0 {
        var j :| 0 <= j < |ls'| && ls'[j] + 1 == LabelBound(ls');
        assert ls[j] == ls'[j];
      }
    }
  }

  /** An entry survives exactly when it is in the line and passes the
      cardinality test. */
  lemma {:induction false} KeptFeatsMember(xs: seq<Node>, ds: Option<seq<nat>>, x: Node)
    requires CoversFeats(ds, xs)
    ensures x in KeptFeats(xs, ds) <==> x in xs && (ds.None? || (x.fid < |ds.value| && x.idx < ds.value[x.fid]))
  {
    if xs != [] {
      var xs' := xs[..|xs| - 1];
      KeptFeatsMember(xs', ds, x);
      assert xs == xs' + [xs[|xs| - 1]];
    }
  }

  /** Every surviving entry has its column below its field's cardinality. */
  lemma KeptFeatsBelow(xs: seq<Node>, ds: seq<nat>)
    requires CoversFeats(Some(ds), xs)
    ensures forall j :: 0 <= j < |KeptFeats(xs, Some(ds))| ==>
      KeptFeats(xs, Some(ds))[j].fid < |ds| && KeptFeats(xs, Some(ds))[j].idx < ds[KeptFeats(xs, Some(ds))[j].fid]
  {
    forall j | 0 <= j < |KeptFeats(xs, Some(ds))|
      ensures KeptFeats(xs, Some(ds))[j].fid < |ds| && KeptFeats(xs, Some(ds))[j].idx < ds[KeptFeats(xs, Some(ds))[j].fid]
    {
      KeptFeatsMember(xs, Some(ds), KeptFeats(xs, Some(ds))[j]);
    }
  }

  /** Without a cardinality table nothing is dropped. */
  lemma {:induction false} KeptFeatsAll(xs: seq<Node>)
    ensures KeptFeats(xs, None) == xs
  {
    if xs != [] {
      KeptFeatsAll(xs[..|xs| - 1]);
    }
  }

  // ---------------------------------------------------------------------
  // The counting pass.

  /** The state of the counting pass after lines `[0, i)`. */
  ghost predicate CountedLines(lines: seq<Line>, hasLabel: bool, ds: Option<seq<nat>>, i: nat,
                               m: nat, n: nat, f: nat, yNnz: nat, xNnz: nat)
    requires i <= |lines| && Covers(ds, lines)
  {
    && m == i
    && n == (if hasLabel then LabelBound(Labels(lines[..i])) else 0)
    && yNnz == (if hasLabel then |Labels(lines[..i])| else 0)
    && f == LinesFieldBound(lines[..i])
    && xNnz == |Feats(lines[..i], ds)|
  }

  lemma CoversPrefix(ds: Option<seq<nat>>, lines: seq<Line>, i: nat)
    requires Covers(ds, lines) && i <= |lines|
    ensures Covers(ds, lines[..i])
    ensures i < |lines| ==> CoversFeats(ds, lines[i].feats)
  {
  }

  /** Counting the labels of one line. */
  method CountLabels(ls: seq<nat>, n0: nat) returns (n: nat, cnt: nat)
    ensures n == (if LabelBound(ls) > n0 then LabelBound(ls) else n0)
    ensures cnt == |ls|
  {
    n, cnt := n0, 0;
    var j := 0;
    while j < |ls|
      invariant j <= |ls| && cnt == j
      invariant n == (if LabelBound(ls[..j]) > n0 then LabelBound(ls[..j]) else n0)
    {
      assert ls[..j + 1][..j] == ls[..j];
      if ls[j] + 1 > n {
        n := ls[j] + 1;
      }
      cnt := cnt + 1;
      j := j + 1;
    }
    assert ls[..j] == ls;
  }

  /** Counting the entries of one line: every field id raises `f`, and only
      the surviving entries are counted. */
  method CountFeats(xs: seq<Node>, ds: Option<seq<nat>>, f0: nat) returns (f: nat, cnt: nat)
    requires CoversFeats(ds, xs)
    ensures f == (if FieldBound(xs) > f0 then FieldBound(xs) else f0)
    ensures cnt == |KeptFeats(xs, ds)|
  {
    f, cnt := f0, 0;
    var j := 0;
    while j < |xs|
      invariant j <= |xs|
      invariant f == (if FieldBound(xs[..j]) > f0 then FieldBound(xs[..j]) else f0)
      invariant cnt == |KeptFeats(xs[..j], ds)|
    {
      assert xs[..j + 1][..j] == xs[..j];
      if xs[j].fid + 1 > f {
        f := xs[j].fid + 1;
      }
      if Keep(ds, xs[j]) {
        cnt := cnt + 1;
      }
      j := j + 1;
    }
    assert xs[..j] == xs;
  }

  /** The first pass of `read`: the number of rows `m`, the number of items
      `n` (one past the largest label), the number of fields `f` (one past
      the largest field id, dropped entries included) and the nonzero
      counts of the labels and of the surviving entries. */
  method CountPass(lines: seq<Line>, hasLabel: bool, ds: Option<seq<nat>>)
    returns (m: nat, n: nat, f: nat, yNnz: nat, xNnz: nat)
    requires Covers(ds, lines)
    ensures m == |lines|
    ensures n == (if hasLabel then LabelBound(Labels(lines)) else 0)
    ensures yNnz == (if hasLabel then |Labels(lines)| else 0)
    ensures f == LinesFieldBound(lines)
    ensures xNnz == |Feats(lines, ds)|
  {
    m, n, f, yNnz, xNnz := 0, 0, 0, 0, 0;
    assert lines[..0] == [];
    var i := 0;
    while i < |lines|
      invariant i <= |lines|
      invariant CountedLines(lines, hasLabel, ds, i, m, n, f, yNnz, xNnz)
    {
      var line := lines[i];
      CoversPrefix(ds, lines, i + 1);
      assert lines[..i + 1][..i] == lines[..i];
      LabelBoundAppend(Labels(lines[..i]), line.labels);
      m := m + 1;
      if hasLabel {
        var c;
        n, c := CountLabels(line.labels, n);
        yNnz := yNnz + c;
      }
      var c;
      f, c := CountFeats(line.feats, ds, f);
      xNnz := xNnz + c;
      i := i + 1;
    }
    assert lines[..i] == lines;
  }

  /** The label bound of a concatenation is the larger of the two. */
  lemma {:induction false} LabelBoundAppend(a: seq<nat>, b: seq<nat>)
    ensures LabelBound(a + b) == if LabelBound(b) > LabelBound(a) then LabelBound(b) else LabelBound(a)
    decreases |b|
  {
    if b == [] {
      assert a + b == a;
    } else {
      var b' := b[..|b| - 1];
      assert (a + b)[..|a + b| - 1] == a + b';
      LabelBoundAppend(a, b');
    }
  }

  // ---------------------------------------------------------------------
  // The filling pass and the row pointers.

  /** Taking one more line: its labels and surviving entries follow those
      of the lines before it. */
  lemma LineStep(lines: seq<Line>, ds: Option<seq<nat>>, i: nat)
    requires Covers(ds, lines) && i < |lines|
    ensures Covers(ds, lines[..i]) && Covers(ds, lines[..i + 1]) && CoversFeats(ds, lines[i].feats)
    ensures Feats(lines[..i + 1], ds) == Feats(lines[..i], ds) + KeptFeats(lines[i].feats, ds)
    ensures Labels(lines[..i + 1]) == Labels(lines[..i]) + lines[i].labels
  {
    assert lines[..i + 1][..i] == lines[..i];
  }

  /** Copying the labels of one line into `M` after the `M0` already there. */
  method FillLabels(ls: seq<nat>, M0: seq<Node>) returns (M: seq<Node>)
    ensures M == M0 + LabelNodes(ls)
  {
    M := M0;
    var j := 0;
    while j < |ls|
      invariant j <= |ls|
      invariant M == M0 + LabelNodes(ls[..j])
    {
      assert ls[..j + 1][..j] == ls[..j];
      M := M + [Node(0, ls[j], 0.0)];
      j := j + 1;
    }
    assert ls[..j] == ls;
  }

  /** Copying the surviving entries of one line into `N` after the `N0`
      already there. */
  method FillFeats(xs: seq<Node>, ds: Option<seq<nat>>, N0: seq<Node>) returns (N: seq<Node>)
    requires CoversFeats(ds, xs)
    ensures N == N0 + KeptFeats(xs, ds)
  {
    N := N0;
    var j := 0;
    while j < |xs|
      invariant j <= |xs|
      invariant N == N0 + KeptFeats(xs[..j], ds)
    {
      assert xs[..j + 1][..j] == xs[..j];
      if Keep(ds, xs[j]) {
        N := N + [Node(xs[j].fid, xs[j].idx, xs[j].val)];
      }
      j := j + 1;
    }
    assert xs[..j] == xs;
  }

  /** `Labels` over all lines is `LabelNodes` line by line. */
  lemma LabelNodesAppend(a: seq<nat>, b: seq<nat>)
    ensures LabelNodes(a + b) == LabelNodes(a) + LabelNodes(b)
  {
    var l, r := LabelNodes(a + b), LabelNodes(a) + LabelNodes(b);
    assert |l| == |r|;
    forall j | 0 <= j < |l|
      ensures l[j] == r[j]
    {
      if j < |a| {
        assert (a + b)[j] == a[j];
      } else {
        assert (a + b)[j] == b[j - |a|];
      }
    }
  }

  /** The state of the filling pass after lines `[0, i)`. */
  ghost predicate FilledLines(lines: seq<Line>, hasLabel: bool, ds: Option<seq<nat>>, i: nat,
                              N: seq<Node>, M: seq<Node>, nnx: seq<nat>, nny: seq<nat>)
    requires Covers(ds, lines) && i <= |lines|
  {
    && |nnx| == i && |nny| == i
    && N == Feats(lines[..i], ds)
    && M == (if hasLabel then LabelNodes(Labels(lines[..i])) else [])
    && (forall r :: 0 <= r < i ==> nnx[r] == |Feats(lines[..r + 1], ds)|)
    && (forall r :: 0 <= r < i ==> nny[r] == if hasLabel then |Labels(lines[..r + 1])| else 0)
  }

  /** Filling one more line keeps `FilledLines`. */
  lemma FillLineStep(lines: seq<Line>, hasLabel: bool, ds: Option<seq<nat>>, i: nat,
                     N: seq<Node>, M: seq<Node>, nnx: seq<nat>, nny: seq<nat>)
    requires Covers(ds, lines) && i < |lines|
    requires FilledLines(lines, hasLabel, ds, i, N, M, nnx, nny)
    ensures CoversFeats(ds, lines[i].feats)
    ensures
      var N' := N + KeptFeats(lines[i].feats, ds);
      var M' := if hasLabel then M + LabelNodes(lines[i].labels) else M;
      FilledLines(lines, hasLabel, ds, i + 1, N', M', nnx + [|N'|],
                  nny + [if hasLabel then |M'| else 0])
  {
    LineStep(lines, ds, i);
    LabelNodesAppend(Labels(lines[..i]), lines[i].labels);
  }

  /** The second pass of `read`: `N` holds the surviving entries of all lines
      and `nnx[i]` counts those of lines `[0, i]`; with labels, `M` holds
      every label and `nny[i]` counts those of lines `[0, i]`. */
  method FillPass(lines: seq<Line>, hasLabel: bool, ds: Option<seq<nat>>)
    returns (N: seq<Node>, M: seq<Node>, nnx: seq<nat>, nny: seq<nat>)
    requires Covers(ds, lines)
    ensures FilledLines(lines, hasLabel, ds, |lines|, N, M, nnx, nny)
  {
    N, M := [], [];
    nnx, nny := [], [];
    assert lines[..0] == [];
    var i := 0;
    while i < |lines|
      invariant i <= |lines|
      invariant FilledLines(lines, hasLabel, ds, i, N, M, nnx, nny)
    {
      FillLineStep(lines, hasLabel, ds, i, N, M, nnx, nny);
      if hasLabel {
        M := FillLabels(lines[i].labels, M);
        nny := nny + [|M|];
      } else {
        nny := nny + [0];
      }
      N := FillFeats(lines[i].feats, ds, N);
      nnx := nnx + [|N|];
      i := i + 1;
    }
  }

  /** The row pointers: `X[0] = 0` and `X[i+1] = nnx[i]`. */
  method RowPointers(cum: seq<nat>) returns (X: seq<nat>)
    ensures X == [0] + cum
  {
    X := [0];
    var i := 0;
    while i < |cum|
      invariant i <= |cum| && X == [0] + cum[..i]
    {
      assert cum[..i + 1] == cum[..i] + [cum[i]];
      X := X + [cum[i]];
      i := i + 1;
    }
    assert cum[..i] == cum;
  }

  /** Line `i`'s surviving entries sit in `Feats` between the counts of
      lines before `i` and lines up to `i`. */
  lemma {:induction false} FeatsPrefix(lines: seq<Line>, ds: Option<seq<nat>>, a: nat, b: nat)
    requires Covers(ds, lines) && a <= b <= |lines|
    ensures Covers(ds, lines[..a]) && Covers(ds, lines[..b])
    ensures |Feats(lines[..a], ds)| <= |Feats(lines[..b], ds)|
    ensures Feats(lines[..b], ds)[..|Feats(lines[..a], ds)|] == Feats(lines[..a], ds)
    decreases b - a
  {
    if a < b {
      FeatsPrefix(lines, ds, a, b - 1);
      LineStep(lines, ds, b - 1);
      var front := Feats(lines[..b - 1], ds);
      assert Feats(lines[..b], ds)[..|front|] == front;
    }
  }

  lemma {:induction false} LabelsPrefix(lines: seq<Line>, a: nat, b: nat)
    requires a <= b <= |lines|
    ensures |Labels(lines[..a])| <= |Labels(lines[..b])|
    ensures Labels(lines[..b])[..|Labels(lines[..a])|] == Labels(lines[..a])
    decreases b - a
  {
    if a < b {
      LabelsPrefix(lines, a, b - 1);
      assert lines[..b][..b - 1] == lines[..b - 1];
      var front := Labels(lines[..b - 1]);
      assert Labels(lines[..b])[..|front|] == front;
    }
  }

  /** Line `i`'s surviving entries, as a slice of all of them. */
  lemma FeatsRow(lines: seq<Line>, ds: Option<seq<nat>>, i: nat)
    requires Covers(ds, lines) && i < |lines|
    ensures Covers(ds, lines[..i]) && Covers(ds, lines[..i + 1]) && CoversFeats(ds, lines[i].feats)
    ensures |Feats(lines[..i], ds)| <= |Feats(lines[..i + 1], ds)| <= |Feats(lines, ds)|
    ensures Feats(lines, ds)[|Feats(lines[..i], ds)|..|Feats(lines[..i + 1], ds)|] == KeptFeats(lines[i].feats, ds)
  {
    FeatsPrefix(lines, ds, i + 1, |lines|);
    LineStep(lines, ds, i);
    assert lines[..|lines|] == lines;
  }

  /** Line `i`'s labels, as a slice of all of them. */
  lemma LabelsRow(lines: seq<Line>, i: nat)
    requires i < |lines|
    ensures |Labels(lines[..i])| <= |Labels(lines[..i + 1])| <= |Labels(lines)|
    ensures Labels(lines)[|Labels(lines[..i])|..|Labels(lines[..i + 1])|] == lines[i].labels
  {
    LabelsPrefix(lines, i + 1, |lines|);
    assert lines[..|lines|] == lines;
    assert lines[..i + 1][..i] == lines[..i];
  }

  lemma LabelNodesSlice(ls: seq<nat>, a: nat, b: nat)
    requires a <= b <= |ls|
    ensures LabelNodes(ls)[a..b] == LabelNodes(ls[a..b])
  {
  }

  /** Row pointers whose consecutive entries ascend, from 0 to `len`. */
  lemma {:induction false} StepwiseOffsets(X: seq<nat>, m: nat, len: nat)
    requires |X| == m + 1 && X[0] == 0 && X[m] == len
    requires forall i :: 0 <= i < m ==> X[i] <= X[i + 1]
    ensures IsOffsets(X, m, len)
  {
    forall i, j | 0 <= i <= j <= m
      ensures X[i] <= X[j]
    {
      var k := i;
      while k < j
        invariant i <= k <= j && X[i] <= X[k]
      {
        k := k + 1;
      }
    }
  }

  /** The entry row pointers laid out from the filling pass's counts tile
      the entry store, one line per row. */
  lemma EntryPointers(lines: seq<Line>, ds: Option<seq<nat>>, nnx: seq<nat>, X: seq<nat>)
    requires Covers(ds, lines) && |nnx| == |lines| && X == [0] + nnx
    requires forall r :: 0 <= r < |lines| ==> nnx[r] == |Feats(lines[..r + 1], ds)|
    ensures IsOffsets(X, |lines|, |Feats(lines, ds)|)
    ensures forall i :: 0 <= i < |lines| ==> Feats(lines, ds)[X[i]..X[i + 1]] == KeptFeats(lines[i].feats, ds)
  {
    var m := |lines|;
    assert lines[..0] == [] && lines[..m] == lines;
    assert forall i :: 0 <= i <= m ==> X[i] == |Feats(lines[..i], ds)|;
    forall i | 0 <= i < m
      ensures X[i] <= X[i + 1]
    {
      FeatsRow(lines, ds, i);
    }
    StepwiseOffsets(X, m, |Feats(lines, ds)|);
    forall i | 0 <= i < m
      ensures Feats(lines, ds)[X[i]..X[i + 1]] == KeptFeats(lines[i].feats, ds)
    {
      FeatsRow(lines, ds, i);
    }
  }

  /** The label row pointers laid out from the filling pass's counts tile
      the label store, one line per row. */
  lemma LabelPointers(lines: seq<Line>, nny: seq<nat>, Y: seq<nat>)
    requires |nny| == |lines| && Y == [0] + nny
    requires forall r :: 0 <= r < |lines| ==> nny[r] == |Labels(lines[..r + 1])|
    ensures IsOffsets(Y, |lines|, |LabelNodes(Labels(lines))|)
    ensures forall i :: 0 <= i < |lines| ==> LabelNodes(Labels(lines))[Y[i]..Y[i + 1]] == LabelNodes(lines[i].labels)
  {
    var m := |lines|;
    assert lines[..0] == [] && lines[..m] == lines;
    var all := Labels(lines);
    forall i | 0 <= i < m
      ensures Y[i] <= Y[i + 1]
    {
      assert Y[i] == |Labels(lines[..i])| && Y[i + 1] == |Labels(lines[..i + 1])|;
      LabelsRow(lines, i);
    }
    StepwiseOffsets(Y, m, |all|);
    forall i | 0 <= i < m
      ensures LabelNodes(all)[Y[i]..Y[i + 1]] == LabelNodes(lines[i].labels)
    {
      assert Y[i] == |Labels(lines[..i])| && Y[i + 1] == |Labels(lines[..i + 1])|;
      LabelsRow(lines, i);
      LabelNodesSlice(all, Y[i], Y[i + 1]);
    }
  }

  /** What `read` leaves behind for the tokenised `lines`. The entry row
      pointers `X` tile `N` and row `i` holds exactly line `i`'s surviving
      entries; with labels, `Y` tiles `M` and row `i` holds line `i`'s
      labels; without labels every label row is empty. */
  ghost predicate ReadResult(lines: seq<Line>, hasLabel: bool, ds: Option<seq<nat>>,
                             m: nat, n: nat, f: nat, nnzX: nat, nnzY: nat,
                             N: seq<Node>, X: seq<nat>, M: seq<Node>, Y: seq<nat>)
    requires Covers(ds, lines)
  {
    && m == |lines| && f == LinesFieldBound(lines)
    && n == (if hasLabel then LabelBound(Labels(lines)) else 0)
    && nnzX == |N| && N == Feats(lines, ds) && IsOffsets(X, m, |N|)
    && (forall i :: 0 <= i < m ==> N[X[i]..X[i + 1]] == KeptFeats(lines[i].feats, ds))
    && nnzY == |M| && IsOffsets(Y, m, |M|)
    && M == (if hasLabel then LabelNodes(Labels(lines)) else [])
    && (forall i :: 0 <= i < m ==> M[Y[i]..Y[i + 1]] == if hasLabel then LabelNodes(lines[i].labels) else [])
  }

  /** `ImpData::read` without the text parsing, for a fresh object. */
  method Read(lines: seq<Line>, hasLabel: bool, ds: Option<seq<nat>>)
    returns (m: nat, n: nat, f: nat, nnzX: nat, nnzY: nat,
             N: seq<Node>, X: seq<nat>, M: seq<Node>, Y: seq<nat>)
    requires Covers(ds, lines)
    ensures ReadResult(lines, hasLabel, ds, m, n, f, nnzX, nnzY, N, X, M, Y)
  {
    var yNnz, xNnz;
    m, n, f, yNnz, xNnz := CountPass(lines, hasLabel, ds);
    var nnx, nny;
    N, M, nnx, nny := FillPass(lines, hasLabel, ds);
    assert lines[..m] == lines;
    nnzX := xNnz;
    nnzY := if hasLabel then yNnz else 0;
    X := RowPointers(nnx);
    EntryPointers(lines, ds, nnx, X);
    if hasLabel {
      Y := RowPointers(nny);
      LabelPointers(lines, nny, Y);
    } else {
      Y := seq(m + 1, _ => 0);
    }
  }
}
