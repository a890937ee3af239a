# A verified model of the field-aware factorisation trainer

This project models the index and bookkeeping layer of the trainer in
`ffm.cpp` and `ffm.h`. The trainer fits one pair of factor matrices
`W[f12]` and `H[f12]` for each pair of fields `f1 <= f2`. The user side `U`
owns the fields `[0, fu)` and the item side `V` owns the fields `[fu, f)`.
The model covers:

- **Block indexing and the epoch order.** `index_vec` maps each field pair
  to a flat slot. `init` allocates `f(f+1)/2` slots. `one_epoch` visits the
  U self-side blocks, then the V self-side blocks, then the cross blocks
  (`blocks.dfy`, `schedule.dfy`).
- **Building the sparse stores of `ImpData`.** These are the array-assembly
  half of `read` over lines that are already tokenised, `split_fields` and
  `transY` (`reader.dfy`, `csr.dfy`, `transpose.dfy`). The `ImpData` class
  with its mutable fields is in `impdata.dfy`.
- **Projections and residuals.**
  - `UTx`/`UTX` is a sparse × dense product into a zeroed buffer
    (`projection.dfy`).
  - `add_side`/`calc_side`, `calc_cross`, `init_y_tilde`, `update_side`,
    `update_cross`, `init`, `solve_side` and `solve_cross` are in
    `blocksum.dfy`, `trainer.dfy`, `loops.dfy` and `problem.dfy`.
  - The headline property is the residual invariant. Every interaction edge,
    in both the user view `U->Y` and the item view `V->Y`, caches
    `a[i] + b[j] + calc_cross(i, j) - 1`. `init` establishes this, and every
    `update_side` and `update_cross` keeps it.
- **Top-k evaluation.** This covers the `init_va` cutoffs `5, 10, 20, …`
  with 32-bit wrap-around, `prec_k`'s arg-max selection with the `MIN_Z`
  sentinel and cumulative hit counts, and `validate`'s averaging
  (`evaluation.dfy`).

Arithmetic is idealised: doubles are `real`. The point of these routines is
which cells get which increment, not rounding. A flat buffer `Vec` of
`rows * k` doubles is a `seq` of `rows` rows of `k` entries. A `Node*` range
is a pair of offsets into a backing sequence (`Types.IsOffsets`). Indices
are unsigned in the source, so they are naturals here.

The state of `ImpProblem` is modelled in two layers:

- `Training.State` holds the state as a value, and `Training.Inv` is its
  invariant.
- `Problem.ImpProblem` is the class. Its fields are updated in place, and
  its methods are specified by the step predicates of `Training` over a
  snapshot of those fields.

The `Node()` and `Parameter()` defaults and `MIN_Z` are the constants
`Types.DefaultNode`, `Types.DefaultParameter` and `Types.MinZ`.

Where `ffm.h` and `ffm.cpp` disagree, the model follows `ffm.cpp`:

- `prec_k` takes the cutoff list as an argument (ffm.cpp:980), whereas
  ffm.h:136 declares it without one.
- `va_loss` is used by the code but not declared in the header.

`read` widens `f` over every entry of a line, including entries that the
cardinality filter then drops (ffm.cpp:110-112). `Reader.LinesFieldBound`
does the same.

## Model

| member | source | states |
|---|---|---|
| Blocks.HalfTri | ffm.cpp:476 | the halving in `f*(f+1)/2` is exact: it equals `0 + 1 + … + f` |
| Blocks.RowStartClosedForm | ffm.cpp:53-55 | `index_vec(f1, f1, f)` is the slot where row `f1` of the triangle starts when the rows are enumerated one after another |
| Blocks.IndexVecInRow | ffm.cpp:53-55 | within row `f1` the slots of `(f1, f1), (f1, f1+1), …` are consecutive |
| Blocks.NrBlocksIsEnd | ffm.cpp:476-482 | the last row of the triangle ends exactly at the `f(f+1)/2` slots `init` allocates |
| Blocks.IndexVecInRange | ffm.cpp:53-55 | every pair `f1 <= f2 < f` lands in `[0, f(f+1)/2)`, inside its own row's range |
| Blocks.IndexVecInjective | ffm.cpp:53-55 | two valid pairs share a slot if and only if they are the same pair |
| Blocks.SelfPairsMember | ffm.cpp:851-859 | the nested self-side loop over `[lo, hi)` visits a pair if and only if `lo <= f1 <= f2 < hi` |
| Blocks.SelfPairsNoDup | ffm.cpp:851-859 | the nested self-side loop never visits a pair twice |
| Blocks.CrossPairsMember | ffm.cpp:862-864 | the cross loop visits a pair if and only if `lo <= f1 < fu <= f2 < f` |
| Blocks.CrossPairsNoDup | ffm.cpp:862-864 | the cross loop never visits a pair twice |
| Blocks.SelfPairsSlots | ffm.cpp:484-493 | the pairs from row `lo` on, in loop order, take the consecutive slots from the start of row `lo` |
| Blocks.AllPairsSlots | ffm.cpp:484-493 | `init`'s loop order visits `f(f+1)/2` pairs, and the `x`-th pair visited has slot `x` |
| Schedule.SideLoop | ffm.cpp:853-855 | the nested self-side loop calls `solve_side` once per self-side pair, in loop order |
| Schedule.CrossLoop | ffm.cpp:862-864 | the cross loop calls `solve_cross` once per cross pair, in loop order |
| Schedule.OneEpoch | ffm.cpp:850-868 | `one_epoch` makes the U self-side calls, then the V self-side calls (both only with `self_side`), then the cross calls, then `cache_sasb` with `self_side` |
| Schedule.EpochSolvedPairs | ffm.cpp:850-868 | the blocks one epoch solves are the U self-side blocks, then the V self-side blocks, then the cross blocks |
| Schedule.EpochSolvesEachBlockOnce | ffm.cpp:850-868 | no block is solved twice in an epoch; a block is solved if and only if it is valid and either `self_side` is set or it is a cross block |
| Schedule.EpochCoversEverySlot | ffm.cpp:850-868 | with `self_side`, every slot of `[0, f(f+1)/2)` is the slot of some block the epoch solves |
| Reader.KeptFeatsMember | ffm.cpp:149-156 | an entry of a line is stored if and only if no cardinality table is given or `idx < ds[fid]` |
| Reader.KeptFeatsAll | ffm.cpp:149-156 | without a cardinality table nothing is dropped |
| Reader.KeptFeatsBelow | ffm.cpp:150-151 | with a table, every stored entry has `idx < ds[fid]` |
| Reader.FieldBoundIsMax | ffm.cpp:110 | `f` is one past the largest field id and bounds every field id |
| Reader.LabelBoundIsMax | ffm.cpp:104 | `n` is one past the largest label and bounds every label |
| Reader.CountLabels | ffm.cpp:99-107 | counting one line's labels raises `n` to the label bound and counts every label |
| Reader.CountFeats | ffm.cpp:109-114 | counting one line raises `f` over all its entries but counts only the entries that survive the filter |
| Reader.CountPass | ffm.cpp:95-115 | the first pass gives `m` lines, `n` = label bound (with labels), `y_nnz` labels, `f` over all entries, and `x_nnz` surviving entries |
| Reader.FillLabels | ffm.cpp:138-147 | the second pass appends a line's labels to `M` as index-only entries |
| Reader.FillFeats | ffm.cpp:149-157 | the second pass appends a line's surviving entries to `N`, in order |
| Reader.FillPass | ffm.cpp:135-159 | after the second pass, `N` and `M` hold all surviving entries and labels, and `nnx[i]`/`nny[i]` count those of lines `0..i` |
| Reader.RowPointers | ffm.cpp:161-170 | the row pointers are `0` followed by the running counts |
| Reader.EntryPointers | ffm.cpp:161-164 | the entry row pointers tile `N`, and row `i` is exactly line `i`'s surviving entries |
| Reader.LabelPointers | ffm.cpp:166-170 | the label row pointers tile `M`, and row `i` is exactly line `i`'s labels |
| Reader.Read | ffm.cpp:87-173 | `read` leaves `m`, `n`, `f`, `nnz_x`, `nnz_y` and a row-major store `(N, X)`, `(M, Y)` whose row `i` is line `i`'s surviving entries and labels |
| Data.ImpData.constructor | ffm.h:67 | a new `ImpData` has `m = n = f = 0` and every store empty |
| Data.ImpData.Read | ffm.cpp:87-173 | `read` on a fresh object sets the counters and stores as in `Reader.Read`, and leaves the per-field stores alone |
| Csr.FieldOfMember | ffm.cpp:204-218 | an entry is in field `fi`'s store if and only if it is in the row-major store with `fid == fi` |
| Csr.FieldOfAppend | ffm.cpp:204-218 | bucketing by field distributes over concatenation, so the original order is kept |
| Csr.DimOfIsMax | ffm.cpp:211 | `Ds[fi]` is one past the largest column of field `fi` (0 if the field is empty): it bounds every column and is attained |
| Csr.OccBeyondDim | ffm.cpp:220-230 | no column at or past `Ds[fi]` occurs, so the frequency table loses no count |
| Csr.CountFields | ffm.cpp:191-197 | `f_sum_nnz[fi]` counts field `fi`'s entries, and `f_nnz[fi][i]` counts them in row `i` |
| Csr.FillFields | ffm.cpp:204-218 | the filling pass makes `Ns[fi]` exactly field `fi`'s entries, in order, and `Ds[fi]` the field's cardinality |
| Csr.FillOne | ffm.cpp:205-216 | placing one more row entry keeps every field's store equal to that field's entries so far, in order, with its cursor and cardinality up to date |
| Csr.CountFreq | ffm.cpp:220-231 | `freq[fi]` has `Ds[fi]` counters, and `freq[fi][idx]` is the number of occurrences of column `idx` in field `fi` |
| Csr.FieldOffsets | ffm.cpp:232-240 | `Xs[fi][i]` is the number of field-`fi` entries in rows before `i` |
| Csr.FieldSlice | ffm.cpp:232-240 | a row's field entries sit in the field store between the counts before and after that row |
| Csr.SplitFields | ffm.cpp:175-247 | for every field `fi` and row `i`, `Ns[fi][Xs[fi][i]..Xs[fi][i+1]]` is exactly row `i`'s field-`fi` entries in order; `Xs[fi]` tiles `Ns[fi]`; `Ds` and `freq` are the cardinalities and counts |
| Data.ImpData.SplitFields | ffm.cpp:175-247 | `split_fields` on the object: the per-field stores as in `Csr.SplitFields`, with `X` and `N` released and nothing else changed |
| Transpose.KeptInMember | ffm.cpp:256-262 | an edge of other-side row `i` is gathered if and only if its target is below `m` |
| Transpose.KeptMember | ffm.cpp:255-262 | the gathered edges are exactly the edges of all other-side rows whose target is below `m` |
| Transpose.KeptAscending | ffm.cpp:255-262 | the gathered edges come in ascending source-row order |
| Transpose.KeptTargets | ffm.cpp:257-258 | every gathered edge targets a row below `m` |
| Transpose.ByColumnCount | ffm.cpp:264-269 | the bucket of target `t` holds each edge aimed at `t` as often as the gathered list does, and no other edge |
| Transpose.ByColumnMember | ffm.cpp:264-269 | an edge is in bucket `t` if and only if it was gathered and targets `t` |
| Transpose.ByColumnAscending | ffm.cpp:264-269 | a bucket keeps the ascending source order |
| Transpose.SortByColumnPermutation | ffm.cpp:269 | when every target is below `m`, the bucket order is a permutation of the gathered edges |
| Transpose.SortByColumnSorted | ffm.cpp:264-269 | the bucket order is sorted by `(target, source)`, the comparison `sort` uses |
| Transpose.SortByColumnTargets | ffm.cpp:269 | every edge in the bucket order up to `t` targets a row below `t` |
| Transpose.Gather | ffm.cpp:255-262 | the gathering loop returns the kept edges in row order, and `nnzs[t]` is the size of bucket `t` |
| Transpose.GatherOne | ffm.cpp:256-261 | looking at one more entry skips it when its target is `>= m`, and otherwise appends it and counts it in its target's bucket |
| Transpose.CopyEntries | ffm.cpp:271-276 | the copy loop writes the source row and the copied value of each sorted edge |
| Transpose.TargetOffsets | ffm.cpp:278-283 | `Y[t]` is the number of edges aimed below `t` |
| Transpose.TransY | ffm.cpp:249-284 | `Y` tiles `M`, and row `t` holds the source rows and values of exactly the kept edges aimed at `t`, ascending by source |
| Transpose.TransposeMeaning | ffm.cpp:249-284 | an edge is in row `t` of the transposed store if and only if it is an edge of some other-side row aimed at `t`; rows ascend by source, and the store is a sorted permutation of the kept edges |
| Data.ImpData.TransY | ffm.cpp:249-284 | `transY` on the object sets `n` to the other side's row count and `M`, `Y`, `nnz_y` as in `Transpose.TransY`, and changes nothing else |
| LinAlg.InnerComm | ffm.cpp:57-67 | `inner` is symmetric |
| LinAlg.InnerAddLeft | ffm.cpp:57-67 | `inner` is additive in its left argument |
| LinAlg.InnerAddRight | ffm.cpp:57-67 | `inner` is additive in its right argument |
| LinAlg.InnerZero | ffm.cpp:57-67 | `inner` with an all-zero row is zero |
| Projection.UTx | ffm.cpp:304-313 | `c[d]` gains `sum of x.val * A[x.idx][d]` over the entries of the range |
| Projection.UTX | ffm.cpp:315-321 | whatever `C` held, afterwards row `i` of `C` is the projection of row `i` of the store through `A` |
| Projection.ProjectLinear | ffm.cpp:315-321 | the projection is linear in the factor: `UTX(A + S) = UTX(A) + UTX(S)` |
| Projection.ProjectEmptyRow | ffm.cpp:315-321 | a row without entries projects to zero |
| Projection.RowDotZero | ffm.cpp:304-313 | projecting through the zero factor gives zero |
| Projection.HadamardProduct | ffm.cpp:69-76 | `vv[i]` gains `alpha * inner(V1[i], V2[i])` for every row |
| Projection.AddSide | ffm.cpp:342-348 | `a1[i]` gains `inner(p[i], q[i])` for every row |
| BlockSum.BlockSumUnchanged | ffm.cpp:350-376 | a sum over blocks does not move when only a block it does not name changes |
| BlockSum.BlockSumChanged | ffm.cpp:350-376 | changing one block of a duplicate-free block list moves the sum by exactly that block's change |
| BlockSum.BlockSumAppend | ffm.cpp:350-376 | a sum over blocks splits over concatenated block lists |
| Loops.CalcCross | ffm.cpp:365-376 | `calc_cross(i, j)` returns the sum of `inner(P[f12][i], Q[f12][j])` over the cross blocks |
| Loops.SideRowSums | ffm.cpp:352-355 | the inner loop of `calc_side` for field `f1` adds row `f1`'s self-side blocks to every row sum |
| Loops.SideBlock | ffm.cpp:353-354 | `add_side` on block `(f1, f2)` leaves every row sum owing exactly the blocks after `(f1, f2)` in row `f1` |
| Loops.SideSums | ffm.cpp:350-363 | one half of `calc_side`: `a1[i]` gains the sum of `inner(P[f12][i], Q[f12][i])` over the self-side blocks of that side |
| Loops.SideRow | ffm.cpp:351-356 | one pass of the outer loop of `calc_side` leaves every row sum owing exactly the self-side blocks of the fields after `f1` |
| Loops.InitView | ffm.cpp:378-393 | one view of `init_y_tilde` overwrites every edge `(i, j)` with `a[i] + b[j] + calc_cross(i, j) - 1` and changes nothing else |
| Loops.SideOwnLoop | ffm.cpp:412-418 | `a1[i] += gaps[i]`, and every edge stored under row `i` of the moving side rises by `gaps[i]` |
| Loops.SideOtherLoop | ffm.cpp:419-425 | every edge of the other view rises by the gap of the row it points to |
| Loops.CrossOwnLoop | ffm.cpp:440-446 | every edge `(i, j)` of the moving side's view rises by `inner(XS[i], Q1[j])` |
| Loops.CrossOtherLoop | ffm.cpp:447-453 | every edge `(j, i)` of the other view rises by `inner(XS[i], Q1[j])` |
| Loops.InitBlocks | ffm.cpp:484-493 | after `init`'s block loop, every block's `P[f12]` and `Q[f12]` are the projections of its factors |
| Loops.FactorUpdate | ffm.cpp:398-409 | `axpy` adds the step to the moving factor; `UTX` recomputes that side's projection; `XS` is the projection of the step |
| Loops.SideUpdate | ffm.cpp:395-426 | `update_side` on values makes exactly the step `Training.SideStep` describes |
| Loops.CrossUpdate | ffm.cpp:428-454 | `update_cross` on values makes exactly the step `Training.CrossStep` describes |
| Training.ResetEstablishesInv | ffm.cpp:378-393 | when blocks and side sums are current, `init_y_tilde` establishes the residual invariant |
| Training.FactorStepKeepsBlocks | ffm.cpp:398-400 | after a factor step only the block's own slot changes, its projection rises by `XS` (linearity), and every block stays current |
| Training.CrossScoresMove | ffm.cpp:428-454 | a cross step raises `calc_cross(u, v)` by exactly `inner(XS[own end], Q1[other end])` |
| Training.CrossSidesStay | ffm.cpp:428-454 | a cross step leaves the self-side sums current without touching `a` and `b` |
| Training.CrossStepKeepsInv | ffm.cpp:428-454 | `update_cross` keeps the residual invariant: every edge in both views still caches `a[i] + b[j] + calc_cross(i, j) - 1` |
| Training.CrossStepKeepsEdgeGap | ffm.cpp:428-454 | `update_cross` leaves `y.val - calc_cross(i, j)` unchanged on every edge |
| Training.EditedKeepsEdges | ffm.cpp:378-393 | editing a view as `init_y_tilde` does writes only `y->val`: every edge keeps its field id and its target |
| Training.EdgeStepKeepsEdges | ffm.cpp:412-425 | shifting both views by a gain keeps every edge's field id and target |
| Training.CrossStepKeepsEdges | ffm.cpp:428-454 | `update_cross` changes only the values of the edges, never their targets |
| Training.CrossUnmoved | ffm.cpp:395-426 | a self-side step leaves every `calc_cross(u, v)` alone |
| Training.SideSumsMove | ffm.cpp:395-426 | after a self-side step, `a1[i] + gaps[i]` is again the `calc_side` sum over that side's self-side blocks |
| Training.SideStepKeepsInv | ffm.cpp:395-426 | `update_side` keeps the residual invariant and the self-side sums current |
| Training.SideStepKeepsEdges | ffm.cpp:395-426 | `update_side` changes only the values of the edges, never their targets |
| Training.TwoFactorSteps | ffm.cpp:813-831 | a left step with `S1` followed by a right step with `S2` moves `W[f12]` by `S1`, `H[f12]` by `S2`, and no other factor |
| Problem.ImpProblem.constructor | ffm.h:77-79 | a new `ImpProblem` keeps the two data sides and the options, with every block vector empty |
| Problem.ImpProblem.CalcSide | ffm.cpp:350-363 | `a[i]` gains the sum over the user-side self blocks and `b[j]` the sum over the item-side self blocks; nothing else changes |
| Problem.ImpProblem.InitYTilde | ffm.cpp:378-393 | `init_y_tilde` establishes the residual invariant; it writes only the data's edge stores `M`, and there only the values (every edge keeps its target) |
| Problem.Resize | ffm.cpp:470-471 | `resize(len, 0)` gives length `len`, keeps every entry below `len` and fills the new ones with zero |
| Problem.ImpProblem.InitCounters | ffm.cpp:457-482 | `init` takes `k`, `m`, `n`, `fu`, `fv`, `f = fu + fv` from the data, gives `P` and `Q` `f(f+1)/2` slots, and resizes `a` to `m` and `b` to `n`, keeping their old entries |
| Problem.ImpProblem.InitPairs | ffm.cpp:456-493 | after `init_pair` for every block, every block's projections are current, and `a`, `b` are as `resize` left them |
| Problem.ImpProblem.InitSidesAndResiduals | ffm.cpp:495-498 | on zero-filled `a`, `b` and current blocks, `calc_side` (when `self_side` is set) and then `init_y_tilde` leave the trainer valid |
| Problem.ImpProblem.Init | ffm.cpp:456-499 | `init` on a fresh object, whose `a` and `b` are empty, zero-fills them and leaves the trainer valid (the residual invariant holds) with the given starting factors; of the data it writes only the edge values, every edge keeping its target |
| Problem.ImpProblem.UpdateSide | ffm.cpp:395-426 | `update_side` makes the step `Training.SideStep`, keeps the trainer valid, and writes only the edge values of the data |
| Problem.ImpProblem.UpdateCross | ffm.cpp:428-454 | `update_cross` makes the step `Training.CrossStep`, keeps the trainer valid, and writes only the edge values of the data |
| Problem.ImpProblem.SolveSide | ffm.cpp:813-831 | `solve_side` keeps the trainer valid, changes the data only in its edge values (every edge keeps its target), and moves `W[f12]` by `S1` and `H[f12]` by `S2` |
| Problem.ImpProblem.SolveCross | ffm.cpp:833-848 | `solve_cross` keeps the trainer valid, changes the data only in its edge values (every edge keeps its target), and moves `W[f12]` by `SW` and `H[f12]` by `SH` |
| Evaluation.InitVaCutoffs | ffm.cpp:892-902 | `top_k[i]` is `5 * 2^i` reduced modulo `2^32` (the width of `ImpInt`) |
| Evaluation.CutoffsExact | ffm.cpp:894-901 | for `i <= 29` nothing wraps, so the cutoff is exactly `5 * 2^i` |
| Evaluation.CutoffsIncrease | ffm.cpp:894-901 | the first 30 cutoffs strictly increase |
| Evaluation.CutoffWraps | ffm.cpp:894-901 | at `i = 30` the doubling wraps and the cutoff drops below the one before |
| Evaluation.ArgMax | ffm.cpp:992 | `max_element` picks an index holding the maximum, with every earlier index strictly smaller (the first maximum) |
| Evaluation.MaxElement | ffm.cpp:992 | the scan over the array returns that first maximum |
| Evaluation.PicksPrefix | ffm.cpp:990-1005 | later rounds extend the picks of earlier ones |
| Evaluation.Missing | ffm.cpp:990-1005 | fewer than `n` distinct indices below `n` miss one (so an unpicked score remains) |
| Evaluation.SelectionState | ffm.cpp:990-1005 | with scores above `MIN_Z` and at most `n` rounds, the picks are distinct, picked scores hold `MIN_Z`, and the others are untouched |
| Evaluation.PicksDescend | ffm.cpp:990-1005 | the picks come in descending score order, with ties broken by the lower index |
| Evaluation.PicksAreTop | ffm.cpp:990-1005 | every unpicked index scores no more than any pick |
| Evaluation.InRow | ffm.cpp:997-1002 | the scan of the user's row finds the picked item if and only if the row lists it |
| Evaluation.CountSplit | ffm.cpp:1010-1012 | hits over a list of picks split over any cut of the list |
| Evaluation.PickUpTo | ffm.cpp:991-1004 | one round picks until `goal` indices are picked, marking each with `MIN_Z` and counting the hits among the new picks |
| Evaluation.CumulativeStep | ffm.cpp:1010-1012 | making the counts cumulative turns round `s`'s hits into the hits among all picks up to cutoff `s` |
| Evaluation.PrecK | ffm.cpp:980-1016 | `hit_counts[s]` gains the number of the user's items among the top `top_k[..s]` picks, and `z` ends marked at every pick |
| Evaluation.ReachSorted | ffm.cpp:990-1005 | for non-decreasing cutoffs, the picks up to cutoff `s` number exactly `top_k[s]` |
| Evaluation.TopHits | ffm.cpp:990-1012 | the hits among the first `c` picks are at most `c` |
| Evaluation.Precision | ffm.cpp:976 | `va_loss[s] = hits / (valid_samples * top_k[s])`; undefined exactly when the denominator is 0, and in `[0, 1]` when hits do not exceed it |
| Evaluation.TotalHits | ffm.cpp:956-966 | the hits summed over `u` users are at most `u` times the picks made |
| Evaluation.Validate | ffm.cpp:918-978 | `va_loss[s]` is the precision at cutoff `s` over all validation users, and lies in `[0, 1]` for non-decreasing cutoffs |
| Evaluation.CountHits | ffm.cpp:956-966 | after the loop over the validation users, `hit_counts[s]` is the number of hits at cutoff `s` summed over every user, and `valid_samples` is the number of users |

## Left out

- Text parsing and file handling in `read` (`ifstream`, `istringstream`, `stoi`, `seekg`) are I/O. `Reader.Read` starts from tokenised lines (`Reader.Line`).
- Console output is left out: `print_data_info`, `print_epoch_info`, the printing in `init_va`, and `solve`'s validation cadence.
- The Newton-CG numerics (`gd_side`, `gd_cross`, `hs_side`, `hs_cross`, `cg`) are floating-point searches. `Problem.ImpProblem.SolveSide` and `Problem.ImpProblem.SolveCross` take the search directions as parameters.
- `cache_sasb` is floating-point numerics used only by the Newton-CG code. `Schedule.OneEpoch` records the call, and the model does not compute its effect.
- `axpy`, `scal`, `mm` and `mv` are BLAS wrappers. `axpy` with factor 1 is `LinAlg.MatAdd`.
- `pred_z` is a foreign `mv` call. `Evaluation.Validate` takes the scores it would produce as input.
- `validate`'s squared loss and its `sqrt` are floating-point only.
- `Uva`'s `Pva`/`Qva` projections, `at`/`bt` and their resizing in `init_va` feed only `pred_z` and the loss.
- `qrsqrt` and `init_mat` are float bit tricks and random draws. `Problem.ImpProblem.Init` takes the starting factors `W0`, `H0` as parameters of the shapes `init_pair` gives them.
- OpenMP is left out, and every loop is sequential. `Evaluation.PrecK` and `Evaluation.Validate` use one thread, so `hit_counts` has one slot per cutoff.
- `inner` uses SSE loads of two doubles, so it assumes `k` is even. The model sums over every `d < k`.
- `func`, `pq` and `norm_block` compute the float objective, which is only a diagnostic.
- Double rounding is not modelled: arithmetic is on `real`. Integer widths are not modelled either, except in the `init_va` cutoffs.
- The class has no `one_epoch` method, because it would need a search direction for every block. Its order of calls is `Schedule.OneEpoch`, and its per-block effect is `Problem.ImpProblem.SolveSide` and `Problem.ImpProblem.SolveCross`.
- Transpose.TransY: `std::sort` is modelled by the stable bucket order. This is sorted by `(target, source)` and is a permutation of the kept edges. When two kept edges share both target and source, `std::sort` may order them either way.
- Reader.Read: requires every field id to have an entry in the cardinality table when one is given; the source reads `ds[fid]` out of bounds otherwise.
- Reader.Read: without labels, the source leaves `Y` as `m + 1` null pointers and never assigns `nnz_y`. The model sets the pointers all to 0 (empty rows) and fixes `nnz_y` at 0.
- Data.ImpData.Read: requires a fresh object (`m = n = f = 0`, `M` empty). The source adds to whatever counters the object holds.
- Evaluation.PrecK: requires at least one score, because the source writes `z[0]` out of bounds for `n = 0`.
- Evaluation.Validate: requires `n > 0`, for the same reason.
- Evaluation.Precision: a zero denominator gives `None`. The source divides by zero in floating point.
- Problem.ImpProblem.UpdateSide: requires `self_side`. The source calls `update_side` only from `solve_side`, which `one_epoch` runs only with `self_side`.
- Problem.ImpProblem.Init: requires every interaction edge to name an existing row of the other side. `init_y_tilde` indexes `a` and `b` by the edge otherwise.
- Problem.ImpProblem.Init: requires `a` and `b` to be empty, as the constructor leaves them. `resize` keeps the entries of an earlier `init`, so a second `init` on the same object would add the side sums on top of the old ones and break the residual invariant. The model promises validity only for the first call.
- Problem.ImpProblem.InitSidesAndResiduals: requires `a` and `b` to be all zero, which `init` guarantees only on a fresh object, for the reason above.
