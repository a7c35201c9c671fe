# Transducer lattice, marginal loss and its reverse pass

This project models the numeric core of `transducer/gfn_loss.py`: the
transducer (RNN-T) lattice recursion, the trajectory losses built on it, and
the hand-written reverse pass of the marginal kernel. Each kernel handles
one batch item, and nothing crosses from one item to another, so each item
is modelled on its own buffers.

- `lattice.dfy` (module `Lattice`) is the specification layer.
  - A batch item (`Item`) holds the emission scores `lp[t][u][k]` over a
    padded `maxT x maxU x A` grid, the label ids, the blank id and the
    valid lengths `T` and `U`.
  - `Alpha` is the forward recursion. Column 0 only advances in time, row 0
    only emits, and each interior cell combines its no-emit and emit summands
    with a log-sum-exp, which is an abstract function `add`.
  - `Marginal` is the time-normalised terminal value of a column.
  - Alignment paths (`Move`, `Score`) give an independent reading of
    `Alpha`. No path beats it under a dominating `add`, and under the
    maximum the best path attains it.
  - The lemmas also work out how the marginals depend on the final-row blank
    scores.
- `loss.dfy` (module `Loss`) holds the loss assembly:
  - the squared trajectory residual `((r[m]-r[n]) + 2 (P[n]-P[m]))^2`;
  - its all-pairs sum over `0 <= m < n <= U-1`;
  - the reduction switch;
  - the endpoint loss averaged over the batch.
- `forward.dfy` (module `Forward`) holds the two forward kernels as methods
  over `array2<real>` buffers.
  - `cu_kernel_forward` fills alpha and then writes the all-pairs residual.
  - `cu_kernel_forward_only` also saves the emit and no-emit summands, then
    writes `log_p[u]`.
  - Each kernel is proved to leave exactly the recursion's values in the
    lattice cells and zeros in the padding.
- `reverse.dfy` (module `Reverse`) holds the reverse kernel
  `cu_kernel_forward_only_grad`.
  - One step of the pass is a function on the two gradient accumulators.
  - `Pass` is the whole schedule.
  - The array method `BackwardKernel` is proved to do exactly what `Pass`
    specifies.
  - Two lemmas state what the pass writes and in which order.
  - The pass is modelled as written. A corrected version is modelled beside
    it (see Findings): it seeds time step `T - 1` and then propagates row 0,
    which the loop bound skips.
- `host.dfy` (module `Host`) holds the autograd entry points:
  - `Transducer.forward`, without its gradient kernel;
  - `ComputeMarginalProb.forward` and `backward`;
  - `gfn_loss`.

  Each allocates zeroed buffers per item, runs the kernels, and reduces.

Scheduling:
- **Forward.** The CUDA kernels run one worker per label position and
  synchronise them with spin-locks. In the forward kernels, worker `u`
  advances to time `t` only once worker `u - 1` has finished time `t`. The
  model runs the workers one after another, column 0 first. That order
  respects the same dependencies: `(t-1, u)` and `(t, u-1)` come before
  `(t, u)`.
- **Reverse.** The lock ring serialises the workers completely. Worker `u`
  waits for `u + 1`, and worker `U` waits for worker 0 of the previous time
  step. So the pass runs `t` from `T - 1` down to 1 (the loop is
  `while t > 0`), and within each `t` runs `u` from `U` down to 0. The
  model runs exactly that order.

Floating point is replaced by `real`. The log-sum-exp is the abstract
function `add` (`Lattice.LogAdd`). The exponential in the reverse pass's
softmax weights is the abstract function `exp` (`Reverse.Exp`), assumed
only to be positive.

Where the code and the system's documented behaviour disagree, the model
follows the code:
- The value that `Transducer.forward` reduces is the all-pairs squared
  trajectory residual, with no sign flip. It is not a negative
  log-likelihood; the time-normalised log-likelihood is commented out at
  `transducer/gfn_loss.py:132-134`.
- `gfn_loss` accepts a `reduction` argument and always returns the batch
  mean.

## Model

| member | source | states |
|---|---|---|
| Lattice.ScoreAppend | transducer/gfn_loss.py:95-127 | extending an alignment path by one move adds that move's score at the cell the path ends in, and advances time or label position by one |
| Lattice.PathBelowAlpha | transducer/gfn_loss.py:95-127 | under any combination that is at least each of its arguments (`log-sum-exp` is), no alignment path ending at `(t, u)` scores more than `alpha[t][u]` |
| Lattice.BestPath | transducer/gfn_loss.py:95-127 | with `max` in place of log-sum-exp, some alignment path ending at `(t, u)` scores exactly `alpha[t][u]`, so with PathBelowAlpha `alpha` is the best-path score |
| Lattice.TwoStepTerminal | transducer/gfn_loss.py:111-123 | with two time steps and one label, the terminal cell combines exactly the two alignments, emit-then-blank and blank-then-emit |
| Lattice.AlphaIgnoresTopBlank | transducer/gfn_loss.py:430-458 | when the labels hold no blank, no forward score depends on a blank score of the last time step |
| Lattice.MarginalTopBlankSensitivity | transducer/gfn_loss.py:465-467 | raising `lp[T-1][v][blank]` by `delta` raises marginal `v` by `delta / T` and leaves every other marginal unchanged |
| Lattice.BumpTopBlank | transducer/gfn_loss.py:465-467 | perturbing one final-row blank score keeps the item well formed, with the same lengths, labels and blank |
| Lattice.BumpRowZeroLabel | transducer/gfn_loss.py:441-444 | perturbing the label score `lp[0][j][labels[j]]` that row 0 reads keeps the item well formed, with the same lengths, labels and blank |
| Lattice.AlphaRowZeroBump | transducer/gfn_loss.py:441-444 | row 0 is a chain of label moves: raising `lp[0][j][labels[j]]` by `delta` raises `alpha[0][u]` by `delta` exactly for `u > j` |
| Lattice.RowZeroLabelSensitivity | transducer/gfn_loss.py:441-467 | with `T = 1`, raising `lp[0][j][labels[j]]` by `delta` raises marginal `u` by `delta` for every `u > j` and leaves the others unchanged |
| Lattice.BumpColumnZeroBlank | transducer/gfn_loss.py:431-434 | perturbing a blank score `lp[i][0][blank]` of column 0 keeps the item well formed, with the same lengths, labels and blank |
| Lattice.AlphaColumnZeroBump | transducer/gfn_loss.py:431-434 | column 0 is a chain of blank moves: raising `lp[i][0][blank]` by `delta` raises `alpha[t][0]` by `delta` exactly for `t > i` |
| Lattice.ColumnZeroBlankSensitivity | transducer/gfn_loss.py:431-467 | for any `add` and any `U`, raising a column-0 blank score `lp[i][0][blank]`, `i < T`, by `delta` raises marginal 0 by `delta / T` |
| Loss.Sq | transducer/gfn_loss.py:146 | a squared residual is non-negative |
| Loss.PairTerm | transducer/gfn_loss.py:144-146 | the squared residual of one pair is non-negative |
| Loss.Inner | transducer/gfn_loss.py:141-146 | the sum over the inner loop `n in m+1 .. U-1` is non-negative |
| Loss.Outer | transducer/gfn_loss.py:140-146 | the sum over the outer loop `m in 0 .. U-2` is non-negative |
| Loss.AllPairsHasPair | transducer/gfn_loss.py:140-146 | every pair `i < j < U` contributes its squared residual: `0 <= term(i, j) <= ` the all-pairs sum |
| Loss.AllPairsOfThree | transducer/gfn_loss.py:139-146 | with `U = 3` the loops visit exactly the pairs (0,1), (0,2), (1,2), for inputs of any length at least 3 (the kernel's `U + 1` marginals included); the second index stops at `U - 1`, so position 3 plays no part |
| Loss.SumBounds | transducer/gfn_loss.py:248 | the built-in sum of values between `lo` and `hi` lies between `n * lo` and `n * hi` |
| Loss.MeanBetween | transducer/gfn_loss.py:246 | the mean of a non-empty vector lies between any lower and upper bound of its entries |
| Loss.SumNonNegative | transducer/gfn_loss.py:246-248 | the builtin `sum` and the `.mean()` of non-negative per-item values are non-negative |
| Loss.Reduce | transducer/gfn_loss.py:245-252 | `"mean"`, `"sum"` and `"none"` give the mean, the sum and the vector itself; any other name, and only those, is the error carrying that name |
| Loss.ReduceNonNegative | transducer/gfn_loss.py:245-252 | non-negative per-item values reduce to a non-negative scalar in every mode |
| Loss.EndpointTerms | transducer/gfn_loss.py:662-669 | one squared endpoint residual per batch item, each non-negative |
| Loss.EndpointLoss | transducer/gfn_loss.py:658-671 | the loop leaves the squared residual between positions 0 and `width - 1` in every entry of the zeroed batch vector; the result is its mean, a scalar exactly when the batch is non-empty, and non-negative |
| Forward.FillAlpha | transducer/gfn_loss.py:95-127 | after the fill, every lattice cell `t < T, u <= U` holds `Alpha(t, u)` and every padding cell keeps its zero |
| Forward.TerminalIsMarginal | transducer/gfn_loss.py:144 | the normalised terminal value read from a filled alpha is the marginal |
| Forward.FilledTerminals | transducer/gfn_loss.py:144 | a filled alpha buffer holds the marginals, normalised, on its last time step: these are the terminal values the all-pairs residual reads |
| Forward.AllPairsResidual | transducer/gfn_loss.py:139-146 | given terminal values `P` that alpha's last time step holds, `log_p`, starting from 0, ends as the all-pairs sum over `0 <= m < n <= U-1` of the squared residuals `(log_r[m] - log_r[n]) + 2 (P[n] - P[m])`, and is non-negative |
| Forward.PairsFrom | transducer/gfn_loss.py:140-146 | one pass of the inner loop for first position `m` adds the squared residuals of every pair `(m, n)` with `m < n <= U-1` |
| Forward.ForwardKernel | transducer/gfn_loss.py:61-146 | the fill, then the all-pairs residual of the marginals (0 when `U <= 1`), never negative |
| Forward.ForwardOnlyKernel | transducer/gfn_loss.py:425-467 | afterwards alpha, emit and no_emit hold the recursion's values on the lattice and zero elsewhere (so Forward.FilledRecurrence applies to them); `log_p[u]` is marginal `u` for `u <= U` and 0 beyond, and equals the normalised terminal value `(alpha[T-1][u] + lp[T-1][u][blank]) / T` read off the filled buffer |
| Forward.TerminalRow | transducer/gfn_loss.py:464-467 | a row holding the marginals holds the normalised terminal values of the filled alpha buffer, position by position |
| Forward.ForwardOnlyWorker | transducer/gfn_loss.py:430-467 | worker `u` completes column `u` (and its saved summands) on top of columns `0 .. u-1`, then writes `log_p[u]` |
| Forward.ForwardOnlyCell | transducer/gfn_loss.py:431-462 | one cell is computed from its two finished predecessors and no other entry changes |
| Forward.FilledRecurrence | transducer/gfn_loss.py:431-458 | the filled buffers satisfy the boundary and interior recurrence relations entry by entry |
| Reverse.Split | transducer/gfn_loss.py:526-531 | the emit and no-emit shares of `d_alpha[t][u]` add up to it; for a non-negative gradient each share is between 0 and the whole |
| Reverse.SplitFacts | transducer/gfn_loss.py:528-531 | the two normalised weights add up to 1, so the shares add up to `d` |
| Reverse.Share | transducer/gfn_loss.py:533-543 | one accumulation keeps the shape of both buffers |
| Reverse.ShareAdds | transducer/gfn_loss.py:533-543 | one accumulation adds `v` at one `d_alpha` entry and one `d_log_probs` entry and changes nothing else |
| Reverse.ColumnStep | transducer/gfn_loss.py:511-517 | the column-0 step keeps the shape of both buffers |
| Reverse.ColumnStepAdds | transducer/gfn_loss.py:511-517 | column 0 adds `d_alpha[t][0]` to `d_alpha[t-1][0]` and to `d_log_probs[t-1][0][blank]`, and nothing else changes |
| Reverse.SeedBelowStep | transducer/gfn_loss.py:522-524 | the seeding as written keeps the shape of both buffers |
| Reverse.SeedBelowStepAdds | transducer/gfn_loss.py:522-524 | as written, at `t = T-1` worker `u` adds `d_log_p[u] / T` to `d_alpha[T-2][u]` and to `d_log_probs[T-2][u][blank]`, and nothing else changes |
| Reverse.SplitStep | transducer/gfn_loss.py:526-543 | an interior step keeps the shape of both buffers |
| Reverse.SplitStepAdds | transducer/gfn_loss.py:526-543 | an interior step increments exactly `d_alpha[t][u-1]`, `d_alpha[t-1][u]`, `d_log_probs[t][u-1][labels[u-1]]` and `d_log_probs[t-1][u][blank]`, by the emit and the no-emit share of the split, and nothing else |
| Reverse.SplitStepConserves | transducer/gfn_loss.py:526-534 | the two `d_alpha` increments of an interior step add up to `d_alpha[t][u]` |
| Reverse.Cell | transducer/gfn_loss.py:511-551 | the step of worker `u` at time `t` keeps the accumulators' shape |
| Reverse.Pass | transducer/gfn_loss.py:505-551 | the schedule from `(t, u)` on keeps the accumulators' shape |
| Reverse.CellFrame | transducer/gfn_loss.py:511-543 | one step writes only target entries |
| Reverse.PassFrame | transducer/gfn_loss.py:505-551 | the pass writes `d_alpha` only at lattice cells other than the top corner, and `d_log_probs` only at blank scores below the last time step and at label scores after the first |
| Reverse.CellWritesPredecessors | transducer/gfn_loss.py:511-543 | a step writes `d_alpha` only at the two predecessors of its cell |
| Reverse.PassKeepsSettled | transducer/gfn_loss.py:505-551 | the schedule never writes a `d_alpha` entry after the step that splits it: every gradient is complete when it is consumed, which the lock ring exists to guarantee |
| Reverse.Run | transducer/gfn_loss.py:499-551 | the whole pass as written keeps the accumulators' shape |
| Reverse.RunKeepsPadding | transducer/gfn_loss.py:499-551 | the pass leaves the padding rows `t >= T` and columns `u > U` of both buffers unchanged |
| Reverse.RunKeepsCornerAndFirstLabels | transducer/gfn_loss.py:509 | the top corner `d_alpha[T-1][U]` and every non-blank score of time step 0 are never written |
| Reverse.ColumnChain | transducer/gfn_loss.py:511-517 | without labels the pass is column 0 alone: a gradient `c` at `(t, 0)`, with zeros below it, reaches every blank score `(i, 0)` with `i < t` exactly once |
| Reverse.RunWithoutLabels | transducer/gfn_loss.py:505-524 | without labels the pass as written never seeds: from a zero `d_alpha` column it leaves every `d_log_probs` entry unchanged |
| Reverse.AsWrittenMissesTopBlank | transducer/gfn_loss.py:522-524 | as written, `d_log_probs[T-1][u][blank]` receives nothing for any `u <= U` |
| Reverse.SeedTop | transducer/gfn_loss.py:522-524 | the corrected seeding of the first `n` columns keeps the shape of both buffers |
| Reverse.SeedTopAdds | transducer/gfn_loss.py:522-524 | the corrected seeding adds `d_log_p[j] / T` to `d_alpha[T-1][j]` and `d_log_probs[T-1][j][blank]` for every `j < n`, and nothing else |
| Reverse.CorrectedRun | transducer/gfn_loss.py:505-551 | the corrected pass (seeding at `T-1`, the steps, then row 0) keeps the accumulators' shape |
| Reverse.CorrectedCreditsTopBlank | transducer/gfn_loss.py:522-524 | corrected, `d_log_probs[T-1][u][blank]` grows by exactly `d_log_p[u] / T`, the derivative of marginal `u` with respect to that score |
| Reverse.RowZero | transducer/gfn_loss.py:505-537 | the row-0 steps the loop bound skips, workers `U` down to 1, keep the accumulators' shape |
| Reverse.RowZeroFrame | transducer/gfn_loss.py:505-537 | the row-0 steps write `d_log_probs` only at the label scores `(0, j, labels[j])` with `j < n` |
| Reverse.RowZeroChain | transducer/gfn_loss.py:533-537 | along row 0 the label score at `(0, j)` grows by the sum of `d_alpha[0][u]` over `j < u <= n` |
| Reverse.CorrectedCreditsRowZeroLabels | transducer/gfn_loss.py:505-537 | corrected, the label score at `(0, j)` receives, beyond what the steps give it, the gradient of every later cell `(0, u)`, `j < u <= U` |
| Reverse.ShareCell | transducer/gfn_loss.py:533-543 | one accumulation on the arrays does what `Share` says |
| Reverse.SeedTopCell | transducer/gfn_loss.py:522-524 | the corrected seeding of one column on the arrays does what one more step of `SeedTop` says |
| Reverse.SeedTopCells | transducer/gfn_loss.py:522-524 | the corrected seeding loop on the arrays leaves `SeedTop` of what they held, over all `U + 1` columns |
| Reverse.RowZeroCells | transducer/gfn_loss.py:505-537 | the row-0 loop on the arrays leaves `RowZero` of what they held |
| Reverse.RowZeroStep | transducer/gfn_loss.py:533-537 | one row-0 step on the arrays: label `u-1` of time step 0 and `d_alpha[0][u-1]` take `d_alpha[0][u]`, and the rest of row 0 is handed on unchanged |
| Reverse.SplitCell | transducer/gfn_loss.py:526-543 | the softmax split and the four additions on the arrays do what `SplitStep` says |
| Reverse.BackwardCell | transducer/gfn_loss.py:511-551 | the step of worker `u` at time `t` on the arrays does what `Cell` says |
| Reverse.BackwardRow | transducer/gfn_loss.py:509-551 | time step `t` for the workers `U` down to 0 on the arrays, handing the rest of the schedule on unchanged |
| Reverse.BackwardStep | transducer/gfn_loss.py:511-551 | the step of worker `u` at time `t` on the arrays, after which the schedule continues from worker `u-1` exactly as `Pass` says |
| Reverse.BackwardPass | transducer/gfn_loss.py:509-551 | the loop over time steps on the arrays does what `Pass` says |
| Reverse.BackwardKernel | transducer/gfn_loss.py:470-551 | the arrays end up holding `Run` of what they held |
| Reverse.CorrectedBackwardKernel | transducer/gfn_loss.py:470-551 | the corrected kernel (seeding, the schedule, then row 0) leaves `CorrectedRun` of what the arrays held |
| Reverse.Backward | transducer/gfn_loss.py:470-551 | the kernel on the arrays alone: they end up holding `Run` of their initial contents |
| Host.ItemResidual | transducer/gfn_loss.py:129-146 | the value the scalar kernel leaves in `log_p[b]`: non-negative, and 0 when `U <= 1` |
| Host.ResidualItem | transducer/gfn_loss.py:225-237 | one item: a zeroed alpha, then the scalar kernel, whose result is that item's residual |
| Host.TransducerForward | transducer/gfn_loss.py:219-252 | zeroed buffers, the scalar kernel per item, then the reduction of the per-item residuals; every scalar result is non-negative |
| Host.MarginalItem | transducer/gfn_loss.py:558-580 | one item: zeroed alpha, emit, no_emit and `log_p`, then the marginal kernel, whose `log_p` is that item's row |
| Host.MarginalForward | transducer/gfn_loss.py:558-599 | zeroed alpha, emit, no_emit and `log_p` per item, then the marginal kernel; the result is every item's `log_p` row |
| Host.GfnLoss | transducer/gfn_loss.py:613-671 | the batch mean of the squared endpoint residuals between positions `0` and `width - 1` of each item's `log_p` row, non-negative, a scalar exactly when the batch is non-empty, whatever the reduction argument; the last position is shared by the whole batch, so for an item with `U < width - 1` it reads the zero padding of the row, not a marginal |
| Host.EndpointIsPairTerm | transducer/gfn_loss.py:662-669 | an item's endpoint term is the squared residual between marginals 0 and `width - 1`, and is bounded by the all-pairs sum over `width` positions |
| Host.EndpointReadsPadding | transducer/gfn_loss.py:664-667 | for an item with fewer than `width - 1` labels the endpoint term pairs marginal 0 with the padding value 0 of `log_p[b, n]` |
| Host.MarginalBackward | transducer/gfn_loss.py:602-612 | the backward hands zeroed buffers and the emit / no_emit buffers the forward saved (`SavedFromForward`) to the reverse kernel, and returns `Run` of zero |
| Host.CorrectedMarginalBackward | transducer/gfn_loss.py:602-612 | the same with the corrected kernel: `CorrectedRun` of zero |
| Host.BackwardTopBlankIsZero | transducer/gfn_loss.py:602-612 | the backward as written returns 0 for every final-row blank score; corrected, it returns `d_log_p[u] / T` there |
| Host.BackwardRowZeroLabels | transducer/gfn_loss.py:505-612 | with `T = 1` the backward as written returns 0 for every label score; corrected, the score at `(0, j)` is the sum of `d_log_p[u]` over `j < u <= U`, the derivative given by `Lattice.RowZeroLabelSensitivity` |
| Host.BackwardColumnZeroBlank | transducer/gfn_loss.py:505-612 | with `U = 0` the backward as written returns an all-zero `d_log_probs`; corrected, every column-0 blank score `(t, 0, blank)`, `t < T`, receives `d_log_p[0] / T`, its derivative by `Lattice.ColumnZeroBlankSensitivity` |

## Left out

- CUDA launch grids, lock counters, atomic spin-waits, `cuda.synchronize`
  and `empty_cache` are not modelled. They are concurrency plumbing. In both
  kernels the locks only enforce an order, and the model runs the kernels
  in that order.
- In the reverse kernel, worker 0 reads its lock twice: once in the column
  branch and once in the `else` branch. If the lock is released between the
  two reads, worker 0 runs the interior branch with `u - 1 = -1`, which
  Python indexing wraps to the last position. That race is not modelled; the
  model assumes the serial order.
- `math.log1p`, `math.exp`, `max` and their behaviour on NaN and infinity are
  left abstract. Log-sum-exp is an abstract `add`, and the softmax
  exponential is an abstract positive `exp`.
- `cu_kernel_compute_grad` (`transducer/gfn_loss.py:150-200`) and its call
  at line 239 are not modelled. The kernel reads an undefined `beta`, and
  the call passes eight arguments to a kernel of seven parameters, so as
  written `Transducer.forward` raises at line 239, before it reaches the
  reduction of lines 245-252. `Host.TransducerForward` models the function
  with that line removed.
- `Transducer.backward` is commented out in the source.
- `TransducerLoss`, the `log_softmax` calls, the torchaudio `rnnt_loss`
  branch, the numba import and the logger setup are not modelled. They are
  foreign calls and environment checks.
- The rescaling of lengths by `(lens * shape).round().int()` is not
  modelled. It is float rounding on tensors; the model takes the integer
  lengths `T` and `U` directly.
- `transformer/mwer/loss_mwer.py` is unfinished code and is not part of
  this model.
- Loss.Mean: the mean of an empty batch is NaN in torch; the model returns
  the distinct value `EmptyMean`.
- Forward.ForwardKernel, Host.ItemResidual, Host.ResidualItem,
  Host.Residuals, Host.TransducerForward (through `BatchShaped`): require
  `T >= 1` or `U <= 1`. With `T = 0` and `U >= 2`, the source reads
  `alpha[T-1]`, which Python wraps to the last padded row.
  Forward.AllPairsResidual and Forward.PairsFrom require `T >= 1`:
  `ForwardKernel` calls them only then, and with `T = 0` and `U <= 1` it
  returns 0, as the source's empty loops do.
- Forward.ForwardOnlyKernel, Forward.ForwardOnlyWorker, Host.MarginalItem,
  Host.MarginalForward, Host.GfnLoss, and through `MarginalBatch`
  Host.EndpointIsPairTerm and Host.EndpointReadsPadding: require `T >= 1`.
  So do the members that read the marginals (Lattice.Marginal,
  Forward.Marginals, Forward.TerminalIsMarginal, Forward.FilledTerminals,
  Forward.TerminalRow, Forward.FilledRecurrence, Host.MarginalRow,
  Host.MarginalRows). With `T = 0` the source divides by zero and reads the
  wrapped row `T - 1`.
- Host.GfnLoss: requires `width - 1 < maxU`, where `width` is the last
  dimension of the reference log-quantities. Otherwise `log_p[b, n]` is an
  out-of-range index. It also requires `width >= 1` (so do
  `Loss.EndpointTerms` and `Loss.EndpointLoss`): with an empty last
  dimension and a non-empty batch the source raises an index error at
  `log_r[b, m]`, and with an empty batch it returns the NaN mean, which the
  model does not cover for `width = 0`.
- Host.MarginalBackward, Host.CorrectedMarginalBackward: the saved buffers
  are tied to the forward only on the interior lattice cells, the only
  entries the reverse kernel reads; their zero padding is not restated.
- Host.MarginalBackward, Host.CorrectedMarginalBackward: start every
  backward from zeroed `d_alpha` and `d_log_probs`. The source allocates
  these buffers once, in `ComputeMarginalProb.forward` (lines 584-594), and
  the backward accumulates into the saved ones (lines 605-609), so a second
  backward on the same graph adds onto the first result. Repeated
  backwards are not modelled.
- Reverse.Split: states that the shares add up and are bounded. It does not
  state that the weights are the derivatives of log-sum-exp, because `add`
  and `exp` are abstract and unrelated.
- The probability-domain instance of the recursion is not modelled. The
  path reading of `alpha` is given for the max-plus instance instead
  (`Lattice.PathBelowAlpha` and `Lattice.BestPath`).
- Torch tensors are modelled per batch item: one `Item` per item, with its
  own buffers.

## Findings

| source | as written | input that shows it | evidently intended | confidence | as-written member | corrected member |
|---|---|---|---|---|---|---|
| transducer/gfn_loss.py:522-524 | at `t == T-1`, each worker `u >= 1` adds `d_log_p[u] / T` at time index `t - 1 = T - 2`, to `d_alpha[T-2][u]` and `d_log_probs[T-2][u][blank]`; worker 0 never seeds, and with `T = 1` the loop never runs, so nothing is seeded | any item with `T >= 1`, labels without blank, and `d_log_p[u] != 0`: the returned `d_log_probs[T-1][u][blank]` is 0; with `U = 0` the whole returned gradient is 0 (`Host.BackwardColumnZeroBlank`) | since `log_p[u] = (alpha[T-1][u] + lp[T-1][u][blank]) / T`, add `d_log_p[u] / T` to `d_alpha[T-1][u]` and `d_log_probs[T-1][u][blank]` for every `u <= U`, then run the pass | not executed; high | Reverse.AsWrittenMissesTopBlank | Reverse.CorrectedCreditsTopBlank |
| transducer/gfn_loss.py:509 | the loop is `while t > 0`, so no step runs at `t = 0`: `d_alpha[0][u]` is never passed along row 0, and the label scores `lp[0][j][labels[j]]`, which row 0 of the forward reads (lines 441-444), receive nothing | an item with `T = 1`, labels without blank, `U >= 1` and `d_log_p[u] != 0` for some `u > j`: the returned `d_log_probs[0][j][labels[j]]` is 0 (`Host.BackwardRowZeroLabels`) | after the steps, pass row 0 from `u = U` down to 1 as the emit share of the other rows: add `d_alpha[0][u]` to `d_alpha[0][u-1]` and to `d_log_probs[0][u-1][labels[u-1]]`; with `T = 1` the label score at `(0, j)` then receives the sum of `d_log_p[u]` over `u > j`, its derivative by `Lattice.RowZeroLabelSensitivity` | not executed; medium | Reverse.RunKeepsCornerAndFirstLabels | Reverse.CorrectedCreditsRowZeroLabels |
