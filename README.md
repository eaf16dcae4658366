# sppr: one-dimensional global minimum search, modelled in Dafny

The library searches for the global minimum of `f` on `[x1, x2]`. It does so by
repeatedly splitting one segment between two neighbouring samples. The engine
`IMethod::execute` owns the loop. Each pass:

- refreshes the Lipschitz estimate `m` (`preprocess`);
- picks the adjacent pair with the largest characteristic (`getOptimalInex` over `getValue`);
- splits that pair at `getPoint`;
- appends the point to the sample vector `m_x` and sorts it;
- evaluates `f` there and keeps the best value and point.

The loop is a do-while. It stops once the width of the pair just split is below
`eps`, or once `maxCount` passes have run. Three strategies supply the hooks:

- sequential scanning: the width is the characteristic and the midpoint is the split;
- Piyavskiy's saw-tooth method;
- Strongin's method.

Piyavskiy and Strongin share the cone-intersection split and the refresh of `m`.
That refresh takes the steepest adjacent chord of the samples, scales it by the
safety parameter, and falls back to 1 when every chord is flat.

Files:

- `samples.dfy` (module `Samples`): the sample vector. `Insert` is `push_back` followed by `std::sort`.
- `strategies.dfy` (module `Strategies`): the `Strategy` datatype and the three hooks, with their geometry.
- `engine.dfy` (module `Engine`):
  - `getOptimalInex`, as the fold `ScanPairs` and the function `OptimalIndex`;
  - one pass of the loop as the pure transition `Step`, and the whole do-while as `Run`;
  - the class `Method` (`IMethod`), whose methods update `xs` (`m_x`) and `m` in place and are proved to follow `Step` and `Run`.
- `scenarios.dfy` (module `Scenarios`): the visiting order of sequential scanning on `[0, 8]`, and the effect of the starting threshold of `getOptimalInex`.

Modelling choices:

- Doubles are `real`.
- The objective is an abstract `f: real -> real`.
- `uint32_t` is the newtype `uint32`.
- `std::numeric_limits<double>::min()` is its exact value, 2^-1022 (`DoubleMin`).
- `Strategy.parameter` is `m_parameter`.
- The state of the loop also carries `order`, the points in the order they were evaluated. It exists only to state which minimiser `point` is: the first evaluated point that attains the minimum. So on a tie at start-up `x1` is kept, and a later point takes over only on a strict improvement.

Behaviour worth knowing, which the model keeps as the code has it:

- `getOptimalInex` starts its running maximum at the smallest positive *normal* double, 2^-1022 (not at 0, and not at the even smaller subnormal `denorm_min`).
- Piyavskiy's and Strongin's characteristics go negative whenever `f` is large.
- Once every characteristic is at or below that threshold, the first pair is split whatever the others are. `Scenarios.ThresholdQuirk` shows one such case.

## Model

| member | source | states |
|---|---|---|
| Samples.Insert | library/method.cpp:74-76 | appending the new point and sorting gives one more sample and the old samples plus the new point as a multiset |
| Samples.InsertKeepsSorted | library/method.cpp:74-76 | sorting in the new point keeps a sorted vector sorted |
| Samples.SortedArrangementUnique | library/method.cpp:76 | two sorted vectors with the same elements are equal, so the result of `std::sort` is determined |
| Samples.InsertIsSort | library/method.cpp:74-76 | every sorted permutation of the vector with the point appended equals `Insert` |
| Samples.InsertBetween | library/method.cpp:74-76 | a point strictly between neighbours `k-1` and `k` of a strictly ascending vector lands at position `k`, and the vector stays strictly ascending |
| Samples.InsertInside | library/method.cpp:74-76 | such an insertion keeps the first and the last sample and strict ascent |
| Strategies.Slope | library/method.cpp:146 | the slope of a chord is non-negative and times the width gives the absolute rise |
| Strategies.MaxSlope | library/method.cpp:141-147 | the accumulator `M` after the loop is non-negative, bounds every adjacent slope, and is 0 or one of them |
| Strategies.PrefixMaxSlopeNext | library/method.cpp:146 | looking at the pair ending at `i` raises the accumulator by `std::max` with that pair's slope |
| Strategies.Estimate | library/method.cpp:148 | the last statement of `preprocess` gives a positive `m` whenever the safety parameter is positive (its partner `EstimateAbove` bounds it from below) |
| Strategies.Refresh | library/method.cpp:139-149 | sequential scanning leaves `m` unchanged (its `preprocess` at line 117 is empty); with a positive parameter the cone strategies (Strongin's copy is lines 174-184) always give a positive `m` |
| Strategies.RefreshIsScaledMaxSlope | library/method.cpp:139-149 | after the cone strategies' `preprocess`, `m` is 1 if every adjacent chord is flat, and otherwise the parameter times the steepest adjacent slope |
| Strategies.Characteristic | library/method.cpp:129-132 | `getValue`: scanning ranks a segment of positive width by that positive width (lines 107-110); with `m > 0` Piyavskiy's estimate of the minimum, the negated characteristic, lies below the mean of the end values (Strongin's, lines 161-167, is bounded by `StronginEstimateBelowEnds`) |
| Strategies.SplitPoint | library/method.cpp:134-137 | the scan split point (lines 112-115) is equidistant from both ends; the cone split point (also lines 169-172) is where the two cones of slope `m` from the ends meet |
| Strategies.SplitInside | library/method.cpp:134-137 | the split point is strictly inside the segment if and only if the strategy is scanning or the chord is flatter than `m` |
| Strategies.SawToothDepth | library/method.cpp:129-137 | Piyavskiy's characteristic, negated, is the saw-tooth minorant's value at the split point, and the minorant is no lower anywhere on the segment |
| Strategies.StronginEstimateBelowEnds | library/method.cpp:161-167 | a quarter of Strongin's characteristic, negated, never exceeds the smaller end value |
| Strategies.EstimateAbove | library/method.cpp:148 | with a parameter above 1, the new `m` is strictly above every slope no larger than the maximum |
| Strategies.RefreshDominatesSlopes | library/method.cpp:139-149 | with a parameter above 1, every adjacent chord of the vector `m` was computed from rises by less than `m` times its width |
| Strategies.FlatObjective | library/method.cpp:134-149 | on a constant objective the cone strategies set `m` to 1 and split at the midpoint |
| Engine.DoubleMinIsPow2 | library/method.cpp:25 | the starting maximum `DoubleMin` times 2^1022, with 2^n defined independently by doubling, is exactly 1 |
| Engine.PairValue | library/method.cpp:30 | the characteristic of the pair ending at `i`; for scanning it is positive, the width of the pair |
| Engine.ScanPairs | library/method.cpp:25-36 | the index the loop keeps is always a valid pair index |
| Engine.ScanPairsFirstMax | library/method.cpp:25-36 | after each prefix of pairs, `maxValue` bounds their characteristics and `index` is the first pair attaining it once it exceeds the threshold; otherwise the accumulator is still the threshold and 1 |
| Engine.OptimalIndex | library/method.cpp:23-39 | the result `i` satisfies 1 <= i < the number of samples |
| Engine.OptimalIndexFirstMax | library/method.cpp:23-39 | if no characteristic exceeds the threshold the result is 1; otherwise it is the first index with the largest characteristic, and that characteristic exceeds the threshold |
| Engine.FirstMaxIsOptimal | library/method.cpp:23-39 | conversely, a first index with the largest characteristic above the threshold is the result |
| Engine.Init | library/method.cpp:47-60 | the state before the first pass holds `[x1, x2]` and satisfies the loop invariant, so the initial best is `x2` only if `f(x1) > f(x2)` |
| Engine.NextBest | library/method.cpp:78-84 | after evaluating one more point, the best pair is still the first minimiser in evaluation order |
| Engine.SplitStrictlyInside | library/method.cpp:64-70 | with a parameter above 1, the split point of any pair, taken right after `preprocess`, is strictly between the pair's ends |
| Engine.Target | library/method.cpp:64-70 | the pair picked after `preprocess` is a valid pair, and its split point is strictly inside it |
| Engine.Step | library/method.cpp:64-86 | one pass counts one iteration and adds one sample |
| Engine.StepKeepsInv | library/method.cpp:64-86 | one pass keeps the loop invariant: the vector has two entries more than the count, is strictly ascending, holds exactly the evaluated points, and `(best, point)` is the first minimiser |
| Engine.StepInserts | library/method.cpp:66-76 | one pass puts the new point between the ends of the chosen pair, appends it to the evaluation order and records that pair's width as `currEps` |
| Engine.StepKeepsBounds | library/method.cpp:74-76 | one pass keeps the vector strictly ascending and keeps its first and last samples |
| Engine.StepProgress | library/method.cpp:72-84 | one pass never raises the best value, extends the evaluation order, and splits a pair of positive width |
| Engine.Run | library/method.cpp:62-87 | the do-while makes at least one pass and ends only once the width just split is below `eps` or the count has reached `maxCount` |
| Engine.RunUnfold | library/method.cpp:62-87 | after a pass the loop goes on exactly when the width just split is at least `eps` and the count is below `maxCount` |
| Engine.RunCount | library/method.cpp:62-87 | the loop runs at least once and at most up to max(count + 1, maxCount); it adds one sample per pass; it ends only with the last width below `eps` or the count at least `maxCount` |
| Engine.RunKeepsInv | library/method.cpp:62-87 | the whole loop keeps the invariant |
| Engine.RunProgress | library/method.cpp:62-87 | over the whole loop the best value never increases, the evaluation order only grows, the vector stays strictly ascending and keeps its bounds |
| Engine.RunFromInit | library/method.cpp:41-92 | from `[x1, x2]`, 1 <= count <= max(1, maxCount); the vector is strictly ascending from `x1` to `x2` with `count + 2` entries; `min == f(point)`, `point` is a sample, no sample has a smaller value, `min <= f(x1)` and `min <= f(x2)`; `point` is the first evaluated point with that value |
| Engine.FinalSamples | library/method.cpp:80-91 | under the invariant, `best == f(point)`, `point` is a sample and no sample has a smaller value |
| Engine.Method.constructor | library/method.cpp:8-16 | a new object stores the strategy, count, eps and the objective and has no samples (the strategy constructors at lines 99-105, 119-127 and 151-159 only add `m_parameter`) |
| Engine.Method.SampledPoints | library/method.cpp:94-97 | returns the sample vector |
| Engine.Method.Preprocess | library/method.cpp:139-149 | the loop over adjacent pairs sets `m` to `Refresh` of the current samples, and scanning leaves it alone |
| Engine.Method.GetOptimalIndex | library/method.cpp:23-39 | the loop over adjacent pairs returns `OptimalIndex` |
| Engine.Method.SplitOptimal | library/method.cpp:64-76 | `preprocess`, choosing, splitting and sorting leave `xs`, `m`, `currEps` and the new point as in `Step` |
| Engine.Method.Search | library/method.cpp:62-87 | the do-while loop ends with the count, best value, best point, vector and `m` that `Run` gives |
| Engine.Method.Execute | library/method.cpp:41-92 | on a fresh object, the outputs, vector and `m` are those of `Run` from `Init`, with the bounds listed for `RunFromInit` |
| Scenarios.SeqScanTarget | library/method.cpp:107-115 | sequential scanning picks the first widest pair and its midpoint |
| Scenarios.SeqScanStep | library/method.cpp:107-117 | one pass of sequential scanning inserts the midpoint of the first widest pair between its ends |
| Scenarios.ScanZeroToEight | library/method.cpp:41-92 | on `[0, 8]` with `maxCount = 7` and `eps <= 2`, for every objective, sequential scanning evaluates 0, 8, 4, 2, 6, 1, 3, 5, 7, stops after 7 passes and ends with the samples 0 to 8 |
| Scenarios.SmallParameters | library/method.cpp:134-148 | safety parameters of 1 or less on samples 0 and 1 with `f(0) = 0`, `f(1) = 1`: 0 gives `m = 0`, 1 gives a split point on the sample 0, 0.5 gives `m = 0.5` and a split point -0.5 outside the segment |
| Scenarios.ThresholdQuirk | library/method.cpp:25-36 | Piyavskiy on a constant objective 10 with samples 0, 1, 3: the second pair's characteristic (-9) exceeds the first's (-9.5), yet both are below the threshold, so the first pair is chosen and 0.5 is evaluated next |

## Left out

- Floating point: rounding, overflow, NaN and infinities are not modelled. Doubles are reals.
- The effect of `numeric_limits<double>::max()` as the initial `currEps` is not modelled. The do-while overwrites it before it is read; the model starts it at 0.
- Dividing by `m == 0` or by a zero-width pair is not modelled; both have IEEE results only. `m == 0` comes from a zero safety parameter with some non-flat chord (line 148, `Scenarios.SmallParameters`), which `WellFormed` excludes. A zero-width pair needs a repeated sample, which strict ascent of the samples excludes.
- Engine.Method.Execute: requires `x1 < x2`. For the cone strategies `x1 == x2` makes `preprocess` divide by zero (line 146) and `x1 > x2` makes it divide by a negative width. Sequential scanning never divides: with `x1 > x2` its first pass splits at the midpoint, the sort gives `[x2, mid, x1]` and the run goes on normally. The model does not cover that run, because its invariant asks for strictly ascending samples from the start.
- Engine.Method.Execute: requires a safety parameter above 1 for the cone strategies (`WellFormed`). With a parameter of exactly 1, `m` can equal the steepest chord's slope: that pair's split point lands on one of its ends and the next `preprocess` divides by zero. With a parameter below 1, `m` is below that slope: the pair's split point falls outside the pair and can fall outside `[x1, x2]`, so the point is no longer inserted between the pair's ends and the samples leave `[x1, x2]`. `Scenarios.SmallParameters` shows both cases.
- Engine.Method.Execute: requires a fresh object (`xs == []`). `m_x` is never cleared, so a second call would start from the previous samples.
- The value of `m` before the first `preprocess` is arbitrary. Sequential scanning never reads it.
- `IMethod::f` (library/method.cpp:18-21) is the objective `f` itself.
- The concrete objective of the user interface (`A·sin(Bx) + C·cos(Dx)`), the Qt window, parsing and plotting are not part of this model.
- `std::set<segment> m_segments` and `addSegment` in library/method.hpp are not used by the engine and are not part of this model.
- The algorithm inside `std::sort` is not modelled. Only its result, the unique sorted permutation, is (`Samples.InsertIsSort`).
- Convergence to the true global minimum is not claimed. It depends on the objective's Lipschitz constant and on numerics.
