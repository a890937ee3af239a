/** Top-k evaluation of the trainer (ffm.cpp:870-1016): the cutoffs
    `init_va` builds, the greedy selection `prec_k` makes for one user and
    the hit counts it accumulates, and the precision `validate` averages
    them into. The scores `pred_z` writes (a foreign matrix-vector product)
    are inputs here. */
module Evaluation {
  import opened Types

  // ---------------------------------------------------------------------
  // The cutoffs of `init_va`.

  /** `ImpInt` is 32 bits wide: every product wraps modulo this. */
  const Word: nat := 0x1_0000_0000

  function Pow2(i: nat): (p: nat)
    ensures p >= 1
  {
    if i == 0 then 1 else 2 * Pow2(i - 1)
  }

  /** The cutoff `init_va` stores in `top_k[i]`: `5 * 2^i` in 32-bit
      unsigned arithmetic. */
  function Cutoff(i: nat): nat
  {
    5 * Pow2(i) % Word
  }

  lemma ModShift(q: nat, b: nat)
    ensures (q * Word + b) % Word == b % Word
  {
    var r := b % Word;
    assert b == (b / Word) * Word + r;
    assert q * Word + b == (q + b / Word) * Word + r;
  }

  /** Doubling commutes with the reduction modulo `Word`. */
  lemma DoubleMod(x: nat)
    ensures (x % Word) * 2 % Word == x * 2 % Word
  {
    var q := x / Word;
    assert x == q * Word + x % Word;
    assert x * 2 == (2 * q) * Word + (x % Word) * 2;
    ModShift(2 * q, (x % Word) * 2);
  }

  /** `init_va(size)`: `top_k[i] = start; start *= 2` from `start = 5`. */
  method InitVaCutoffs(size: nat) returns (topK: seq<nat>)
    ensures |topK| == size && forall i :: 0 <= i < size ==> topK[i] == Cutoff(i)
  {
    topK := [];
    var start: nat := 5;
    var i := 0;
    while i < size
      invariant i <= size && |topK| == i && start == Cutoff(i)
      invariant forall j :: 0 <= j < i ==> topK[j] == Cutoff(j)
    {
      topK := topK + [start];
      DoubleMod(5 * Pow2(i));
      start := start * 2 % Word;
      i := i + 1;
    }
  }

  lemma {:induction false} Pow2Monotone(i: nat, j: nat)
    requires i <= j
    ensures Pow2(i) <= Pow2(j)
  {
    if i < j {
      Pow2Monotone(i, j - 1);
    }
  }

  /** Up to `i = 29` nothing wraps: the cutoffs are exactly `5 * 2^i` (the
      trainer asks for five of them). */
  lemma CutoffsExact(i: nat)
    requires i <= 29
    ensures Cutoff(i) == 5 * Pow2(i)
  {
    Pow2At29();
    Pow2Monotone(i, 29);
  }

  lemma Pow2At29()
    ensures Pow2(29) == 0x2000_0000
  {
    assert Pow2(10) == 1024;
    assert Pow2(20) == 1048576;
  }

  /** So the first 30 cutoffs strictly increase. */
  lemma CutoffsIncrease(i: nat, j: nat)
    requires i < j <= 29
    ensures Cutoff(i) < Cutoff(j)
  {
    CutoffsExact(i);
    CutoffsExact(j);
    assert Pow2(i + 1) == 2 * Pow2(i);
    Pow2Monotone(i + 1, j);
  }

  /** At `i = 30` the doubling wraps and the cutoffs stop increasing. */
  lemma CutoffWraps()
    ensures Cutoff(30) == 0x4000_0000 && Cutoff(30) < Cutoff(29)
  {
    CutoffsExact(29);
    Pow2At29();
    assert 5 * Pow2(30) == 1 * Word + 0x4000_0000;
    ModShift(1, 0x4000_0000);
  }

  // ---------------------------------------------------------------------
  // `max_element` and the greedy selection of `prec_k`.

  /** `distance(z, max_element(z, z + n))`: the first index holding the
      largest score. */
  function ArgMax(z: seq<real>): (r: nat)
    requires |z| > 0
    ensures r < |z|
    ensures forall j :: 0 <= j < |z| ==> z[j] <= z[r]
    ensures forall j :: 0 <= j < r ==> z[j] < z[r]
  {
    if |z| == 1 then 0
    else
      var r := ArgMax(z[..|z| - 1]);
      if z[r] < z[|z| - 1] then |z| - 1 else r
  }

  /** `max_element` over the array `z`. */
  method MaxElement(z: array<real>) returns (r: nat)
    requires z.Length > 0
    ensures r == ArgMax(z[..])
  {
    r := 0;
    var i := 1;
    while i < z.Length
      invariant 1 <= i <= z.Length && r == ArgMax(z[..i])
    {
      assert z[..i + 1][..i] == z[..i];
      if z[r] < z[i] {
        r := i;
      }
      i := i + 1;
    }
    assert z[..z.Length] == z[..];
  }

  /** The scores after `c` rounds of selection, each writing `MIN_Z` over
      the index it picks, and the indices picked, in order. */
  function Extract(z: seq<real>, c: nat): (e: (seq<real>, seq<nat>))
    requires |z| > 0
    ensures |e.0| == |z| && |e.1| == c
    ensures forall q :: 0 <= q < c ==> e.1[q] < |z|
  {
    if c == 0 then (z, [])
    else
      var prev := Extract(z, c - 1);
      var p := ArgMax(prev.0);
      (prev.0[p := MinZ], prev.1 + [p])
  }

  function Marked(z: seq<real>, c: nat): seq<real>
    requires |z| > 0
  {
    Extract(z, c).0
  }

  function Picks(z: seq<real>, c: nat): seq<nat>
    requires |z| > 0
  {
    Extract(z, c).1
  }

  /** Later rounds extend the picks of earlier ones. */
  lemma {:induction false} PicksPrefix(z: seq<real>, a: nat, b: nat)
    requires |z| > 0 && a <= b
    ensures |Picks(z, b)| == b && Picks(z, b)[..a] == Picks(z, a)
  {
    if a < b {
      PicksPrefix(z, a, b - 1);
      assert Picks(z, b)[..b - 1] == Picks(z, b - 1);
    }
  }

  predicate Distinct(ps: seq<nat>)
  {
    forall i, j :: 0 <= i < j < |ps| ==> ps[i] != ps[j]
  }

  /** A duplicate-free list of fewer than `n` indices below `n` misses one
      of them. */
  lemma {:induction false} Missing(ps: seq<nat>, n: nat) returns (j: nat)
    requires Distinct(ps) && |ps| < n && forall x :: x in ps ==> x < n
    ensures j < n && j !in ps
  {
    if n - 1 !in ps {
      return n - 1;
    }
    var i :| 0 <= i < |ps| && ps[i] == n - 1;
    var rest := ps[..i] + ps[i + 1..];
    forall x | x in rest
      ensures x < n - 1
    {
      var q :| 0 <= q < |rest| && rest[q] == x;
      assert x in ps by {
        if q < i {
          assert ps[q] == x;
        } else {
          assert ps[q + 1] == x;
        }
      }
      if q < i {
        assert x == ps[q] && ps[q] != ps[i];
      } else {
        assert x == ps[q + 1] && ps[i] != ps[q + 1];
      }
    }
    assert Distinct(rest) by {
      forall a, b | 0 <= a < b < |rest|
        ensures rest[a] != rest[b]
      {
        var a' := if a < i then a else a + 1;
        var b' := if b < i then b else b + 1;
        assert rest[a] == ps[a'] && rest[b] == ps[b'];
      }
    }
    j := Missing(rest, n - 1);
    assert ps == ps[..i] + [n - 1] + ps[i + 1..];
  }

  /** While at most `|z|` rounds run on scores above `MIN_Z`, the picks
      are distinct, every picked index holds `MIN_Z` and every other index
      its original score. */
  lemma {:induction false} SelectionState(z: seq<real>, c: nat)
    requires |z| > 0 && c <= |z| && forall j :: 0 <= j < |z| ==> MinZ < z[j]
    ensures Distinct(Picks(z, c))
    ensures forall j :: 0 <= j < |z| ==> Marked(z, c)[j] == if j in Picks(z, c) then MinZ else z[j]
  {
    if c > 0 {
      SelectionState(z, c - 1);
      var prev := Picks(z, c - 1);
      var zc := Marked(z, c - 1);
      var p := ArgMax(zc);
      var free := Missing(prev, |z|);
      assert zc[free] == z[free];
      assert p !in prev;
      assert Picks(z, c) == prev + [p];
    }
  }

  /** The picks come in descending order of score, ties broken by the
      lowest index (`max_element` returns the first maximum). */
  lemma PicksDescend(z: seq<real>, c: nat)
    requires |z| > 0 && c <= |z| && forall j :: 0 <= j < |z| ==> MinZ < z[j]
    ensures forall i, j :: 0 <= i < j < c ==>
      var ps := Picks(z, c);
      z[ps[j]] < z[ps[i]] || (z[ps[j]] == z[ps[i]] && ps[i] < ps[j])
  {
    var ps := Picks(z, c);
    SelectionState(z, c);
    forall i, j | 0 <= i < j < c
      ensures z[ps[j]] < z[ps[i]] || (z[ps[j]] == z[ps[i]] && ps[i] < ps[j])
    {
      PicksPrefix(z, i, c);
      PicksPrefix(z, i + 1, c);
      SelectionState(z, i);
      var zi := Marked(z, i);
      assert Picks(z, i + 1) == Picks(z, i) + [ArgMax(zi)];
      assert ps[i] == ArgMax(zi);
      assert ps[j] !in Picks(z, i) && ps[i] !in Picks(z, i) by {
        assert Picks(z, i) == ps[..i];
      }
    }
  }

  /** Every index left unpicked scores no more than any pick: the picks
      are the top scores. */
  lemma PicksAreTop(z: seq<real>, c: nat)
    requires |z| > 0 && c <= |z| && forall j :: 0 <= j < |z| ==> MinZ < z[j]
    ensures forall i, j :: 0 <= i < c && 0 <= j < |z| && j !in Picks(z, c) ==> z[j] <= z[Picks(z, c)[i]]
  {
    var ps := Picks(z, c);
    SelectionState(z, c);
    forall i, j | 0 <= i < c && 0 <= j < |z| && j !in ps
      ensures z[j] <= z[ps[i]]
    {
      PicksPrefix(z, i, c);
      PicksPrefix(z, i + 1, c);
      SelectionState(z, i);
      var zi := Marked(z, i);
      assert Picks(z, i + 1) == Picks(z, i) + [ArgMax(zi)];
      assert Picks(z, i) == ps[..i];
      assert ps[i] !in Picks(z, i);
    }
  }

  // ---------------------------------------------------------------------
  // Hit counting.

  /** The interaction row lists the item `x`. */
  predicate Listed(row: seq<Node>, x: nat)
  {
    exists q :: 0 <= q < |row| && row[q].idx == x
  }

  /** The scan `prec_k` makes of the user's row for the picked item. */
  method InRow(row: seq<Node>, x: nat) returns (b: bool)
    ensures b == Listed(row, x)
  {
    var q := 0;
    while q < |row|
      invariant q <= |row|
      invariant forall q' :: 0 <= q' < q ==> row[q'].idx != x
    {
      if row[q].idx == x {
        return true;
      }
      q := q + 1;
    }
    return false;
  }

  /** How many of the picks the row lists. */
  function CountIn(ps: seq<nat>, row: seq<Node>): (c: nat)
    ensures c <= |ps|
  {
    if ps == [] then 0
    else CountIn(ps[..|ps| - 1], row) + if Listed(row, ps[|ps| - 1]) then 1 else 0
  }

  lemma {:induction false} CountSplit(ps: seq<nat>, a: nat, row: seq<Node>)
    requires a <= |ps|
    ensures CountIn(ps, row) == CountIn(ps[..a], row) + CountIn(ps[a..], row)
  {
    if a < |ps| {
      var last := |ps| - 1;
      CountSplit(ps[..last], a, row);
      assert ps[..last][..a] == ps[..a];
      assert ps[..last][a..] == ps[a..][..|ps[a..]| - 1];
    } else {
      assert ps[..a] == ps;
    }
  }

  function Max(x: nat, y: nat): nat
  {
    if x < y then y else x
  }

  /** `valid_count` after the rounds for the first `s` cutoffs. */
  function Reach(topK: seq<nat>, s: nat): nat
    requires s <= |topK|
  {
    if s == 0 then 0 else Max(Reach(topK, s - 1), topK[s - 1])
  }

  /** The hits the round for cutoff `s` adds to `hit_count[s]`. */
  function Window(z: seq<real>, row: seq<Node>, topK: seq<nat>, s: nat): nat
    requires |z| > 0 && s < |topK|
  {
    CountIn(Picks(z, Reach(topK, s + 1))[Reach(topK, s)..], row)
  }

  /** The hits among the first `c` picks. */
  function TopHits(z: seq<real>, row: seq<Node>, c: nat): (h: nat)
    requires |z| > 0
    ensures h <= c
  {
    CountIn(Picks(z, c), row)
  }

  /** One round of `prec_k`'s outer loop: pick until `goal` indices are
      picked, counting the picks the row lists. */
  method PickUpTo(z: array<real>, ghost z0: seq<real>, row: seq<Node>, goal: nat, start: nat)
    returns (count: nat, hits: nat)
    requires |z0| > 0 && z[..] == Marked(z0, start)
    modifies z
    ensures count == Max(start, goal) && z[..] == Marked(z0, count)
    ensures hits == CountIn(Picks(z0, count)[start..], row)
  {
    count, hits := start, 0;
    while count < goal
      invariant start <= count <= Max(start, goal)
      invariant z[..] == Marked(z0, count)
      invariant hits == CountIn(Picks(z0, count)[start..], row)
    {
      ghost var before := z[..];
      var argmax := MaxElement(z);
      z[argmax] := MinZ;
      assert z[..] == before[argmax := MinZ];
      var hit := InRow(row, argmax);
      if hit {
        hits := hits + 1;
      }
      ghost var ps := Picks(z0, count);
      assert Picks(z0, count + 1) == ps + [argmax];
      assert (ps + [argmax])[start..] == ps[start..] + [argmax];
      assert (ps[start..] + [argmax])[..|ps[start..]|] == ps[start..];
      count := count + 1;
    }
  }

  /** Adding the round for cutoff `s` to the hits up to the round before
      gives the hits among the first `Reach(topK, s + 1)` picks. */
  lemma CumulativeStep(z: seq<real>, row: seq<Node>, topK: seq<nat>, s: nat)
    requires |z| > 0 && s < |topK|
    ensures Window(z, row, topK, s) + TopHits(z, row, Reach(topK, s)) == TopHits(z, row, Reach(topK, s + 1))
  {
    var r0, r1 := Reach(topK, s), Reach(topK, s + 1);
    PicksPrefix(z, r0, r1);
    CountSplit(Picks(z, r1), r0, row);
  }

  /** `prec_k(z, i, top_k, hit_counts)` for a user whose interaction row is
      `row`, with one thread: selection rounds until `top_k[state]` indices
      are picked, for each cutoff in turn; then `hit_count` is made
      cumulative and added to `hit_counts`. Afterwards `hit_counts[s]` has
      gained the hits among the first `Reach(top_k, s + 1)` picks (which is
      `top_k[s]` for non-decreasing cutoffs), and `z` holds `MIN_Z` at
      every pick. */
  method PrecK(z: array<real>, row: seq<Node>, topK: seq<nat>, hitCounts: seq<nat>) returns (hitCounts': seq<nat>)
    requires z.Length > 0 && |hitCounts| == |topK|
    modifies z
    ensures z[..] == Marked(old(z[..]), Reach(topK, |topK|))
    ensures |hitCounts'| == |topK|
    ensures forall s :: 0 <= s < |topK| ==> hitCounts'[s] == hitCounts[s] + TopHits(old(z[..]), row, Reach(topK, s + 1))
  {
    ghost var z0 := z[..];
    var nrK := |topK|;
    var hitCount: seq<nat> := seq(nrK, _ => 0);
    var validCount := 0;
    var state := 0;
    while state < nrK
      invariant state <= nrK && |hitCount| == nrK
      invariant validCount == Reach(topK, state) && z[..] == Marked(z0, validCount)
      invariant forall s :: 0 <= s < state ==> hitCount[s] == Window(z0, row, topK, s)
    {
      var count, hits := PickUpTo(z, z0, row, topK[state], validCount);
      hitCount := hitCount[state := hits];
      validCount := count;
      state := state + 1;
    }
    ghost var zEnd := z[..];
    var i := 1;
    while i < nrK
      invariant 1 <= i <= nrK + 1 && |hitCount| == nrK && z[..] == zEnd
      invariant forall s :: 0 <= s < i && s < nrK ==> hitCount[s] == TopHits(z0, row, Reach(topK, s + 1))
      invariant forall s :: i <= s < nrK ==> hitCount[s] == Window(z0, row, topK, s)
    {
      CumulativeStep(z0, row, topK, i);
      hitCount := hitCount[i := hitCount[i] + hitCount[i - 1]];
      i := i + 1;
    }
    if nrK > 0 {
      CumulativeStep(z0, row, topK, 0);
    }
    hitCounts' := hitCounts;
    i := 0;
    while i < nrK
      invariant i <= nrK && |hitCounts'| == nrK && z[..] == zEnd
      invariant forall s :: 0 <= s < i ==> hitCounts'[s] == hitCounts[s] + hitCount[s]
      invariant forall s :: i <= s < nrK ==> hitCounts'[s] == hitCounts[s]
    {
      hitCounts' := hitCounts'[i := hitCounts'[i] + hitCount[i]];
      i := i + 1;
    }
  }

  /** The cutoffs never decrease. */
  predicate Sorted(topK: seq<nat>)
  {
    forall i, j :: 0 <= i < j < |topK| ==> topK[i] <= topK[j]
  }

  /** For non-decreasing cutoffs, the rounds up to cutoff `s` pick exactly
      `top_k[s]` indices, so `hit_count[s] <= top_k[s]`. */
  lemma {:induction false} ReachSorted(topK: seq<nat>, s: nat)
    requires Sorted(topK) && s < |topK|
    ensures Reach(topK, s + 1) == topK[s]
  {
    if s > 0 {
      ReachSorted(topK, s - 1);
    }
  }

  // ---------------------------------------------------------------------
  // The averaging of `validate`.

  /** `va_loss[s] = hits / (valid_samples * top_k[s])`; a zero denominator
      (no validation user, or a zero cutoff) has no value. */
  function Precision(hits: nat, samples: nat, cutoff: nat): (r: Option<real>)
    ensures r.None? <==> samples * cutoff == 0
    ensures r.Some? && hits <= samples * cutoff ==> 0.0 <= r.value <= 1.0
  {
    if samples * cutoff == 0 then None else Some(hits as real / (samples * cutoff) as real)
  }

  /** The hits for cutoff `s` summed over the first `u` users. */
  function TotalHits(scores: seq<seq<real>>, rows: seq<seq<Node>>, topK: seq<nat>, s: nat, u: nat): (h: nat)
    requires u <= |scores| && u <= |rows| && s < |topK|
    requires forall i :: 0 <= i < |scores| ==> |scores[i]| > 0
    ensures h <= u * Reach(topK, s + 1)
  {
    if u == 0 then 0
    else TotalHits(scores, rows, topK, s, u - 1) + TopHits(scores[u - 1], rows[u - 1], Reach(topK, s + 1))
  }

  /** The loop of `validate` over the validation rows: `prec_k` on each row's
      scores, hits summed per cutoff. */
  method CountHits(scores: seq<seq<real>>, rows: seq<seq<Node>>, n: nat, topK: seq<nat>)
    returns (hitCounts: seq<nat>, validSamples: nat)
    requires n > 0 && |rows| == |scores| && forall i :: 0 <= i < |scores| ==> |scores[i]| == n
    ensures validSamples == |scores| && |hitCounts| == |topK|
    ensures forall s :: 0 <= s < |topK| ==> hitCounts[s] == TotalHits(scores, rows, topK, s, |scores|)
  {
    hitCounts, validSamples := seq(|topK|, _ => 0), 0;
    var u := 0;
    while u < |scores|
      invariant u <= |scores| && validSamples == u && |hitCounts| == |topK|
      invariant forall s :: 0 <= s < |topK| ==> hitCounts[s] == TotalHits(scores, rows, topK, s, u)
    {
      var sc := scores[u];
      var z := new real[n](j requires 0 <= j < n => sc[j]);
      assert z[..] == sc;
      hitCounts := PrecK(z, rows[u], topK, hitCounts);
      validSamples := validSamples + 1;
      u := u + 1;
    }
  }

  /** `validate()`'s counting, with one thread: for each validation user
      `i`, `prec_k` on a fresh copy of the user's scores; then every
      `va_loss[s]` is the precision at cutoff `s`, which lies in `[0, 1]`
      for non-decreasing cutoffs. */
  method Validate(scores: seq<seq<real>>, rows: seq<seq<Node>>, n: nat, topK: seq<nat>)
    returns (vaLoss: seq<Option<real>>)
    requires n > 0 && |rows| == |scores| && forall i :: 0 <= i < |scores| ==> |scores[i]| == n
    ensures |vaLoss| == |topK|
    ensures forall s :: 0 <= s < |topK| ==>
      vaLoss[s] == Precision(TotalHits(scores, rows, topK, s, |scores|), |scores|, topK[s])
    ensures Sorted(topK) ==> forall s :: 0 <= s < |topK| && vaLoss[s].Some? ==> 0.0 <= vaLoss[s].value <= 1.0
  {
    var nrK := |topK|;
    var hitCounts, validSamples := CountHits(scores, rows, n, topK);
    vaLoss := [];
    var s := 0;
    while s < nrK
      invariant s <= nrK && |vaLoss| == s
      invariant forall r :: 0 <= r < s ==> vaLoss[r] == Precision(hitCounts[r], validSamples, topK[r])
    {
      vaLoss := vaLoss + [Precision(hitCounts[s], validSamples, topK[s])];
      s := s + 1;
    }
    if Sorted(topK) {
      forall r | 0 <= r < nrK
        ensures hitCounts[r] <= validSamples * topK[r]
      {
        ReachSorted(topK, r);
      }
    }
  }
}
