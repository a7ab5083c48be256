# Fixed ECharts axis scale — a Dafny model

echarts-fixed-Axis picks "nice" bounds and a tick interval for a value axis
of an ECharts chart. It takes the data range (`max`, `min`) and a wanted
number of intervals (`splitNumber`). It chooses a power of ten `multiple`
and a "magic" multiplier from an ascending table (10, 15, 20, … 100, 150).
Their product is the step. It rounds both bounds to that step with
truncation toward zero (`countDegree`). Then it either returns at once
(`deviation`) or searches: it moves up the table until the bounds span the
wanted number of steps, and widens one bound at a time when they span too
few.

The resolver exists twice in the repository:

- `generateAxisOption` in lib/utils.js takes the table from the caller.
- `scaleCompute` in index.ts uses a fixed table, and fills its defaults by
  object spread.

Two pieces of glue surround it:

- `getMinAndMax` folds the y-values of all series into `[min, max]`,
  starting from 0.
- `fixedAxis` (lib/index.js) resolves that range and writes the result onto
  the caller's axis object with `Object.assign`.

The project has eight modules:

- `Numbers` (numbers.dfy) holds the JavaScript number helpers:
  - `numberValid`, `Math.round` and `parseInt('' + x)` as truncation;
  - the `Math.floor(Math.log10(…))`/`Math.pow(10, …)` pair as an integer
    exponent of ten;
  - the destructuring default.
- `Scale` (scale.dfy) is the resolver, written once with the table as a
  parameter:
  - `Resolved` is the specification, written with recursion (`Search`,
    `Expand`).
  - `Resolve` and its helper methods run the algorithm as the source does:
    reassigned locals, the scan `for` loop, the labelled do-while `out:`
    and its expansion loop.
  - Each method is proved equal to its specification function.
- `SearchFacts` (search_facts.dfy) and `ResolveFacts` (resolve_facts.dfy)
  prove what the search and the result promise.
- `Utils` (utils.dfy) covers `getMinAndMax` and the destructuring defaults
  of `generateAxisOption`.
- `Compute` (compute.dfy) covers `scaleCompute`: the spread defaults and the
  fixed table.
- `FixedAxis` (fixed_axis.dfy) covers `fixedAxis`. The axis is a class whose
  property map `Object.assign` updates in place. It also holds the
  repository's own test case.
- `Behaviour` (behaviour.dfy) holds concrete runs with the default table that
  show what the resolver does not promise.

Numbers are exact reals. A JavaScript value in a numeric slot is
`Finite(v)` or `NonFinite` (NaN or an infinity). An
option property is `Absent`, `Undefined` or `Given(v)`: destructuring
defaults treat the first two alike, object spread does not.

Behaviour of the code that the lemmas state as it is:

- Without deviation, the returned `min` is 0 whenever the data minimum is
  at most 1, negative data included (`ResolveFacts.SmallRange`).
- With deviation the rounded minimum is returned as it is. Truncation toward
  zero can put it above a negative data minimum: `[-50, 50]` with two
  intervals gives min 0 (`Behaviour.NegativeMinCut`).
- Without deviation, with `preferZero: false` and data with
  `dataMin < dataMax < 0`, the returned `max` lies below the returned `min` 0 (`ResolveFacts.Ordering`,
  an if-and-only-if): `[-100, -30]` gives max -30 and min 0
  (`Behaviour.NegativeRange`). With deviation the ends are never reversed.
- With `fixedNum` as the identity, the interval is positive whenever bounds
  are returned (`ResolveFacts.IntervalPositive`).
- The resolver is not idempotent: its own result `[0, 40]` for the
  repository's test, resolved again with the same options, becomes 0 to 50
  in steps of 25 (`Behaviour.NotIdempotent`).
- The reported `splitNumber` need not be the span over the interval: when
  the maximum is at most 1 it is reported as 1, so `[0.2, 0.8]` in two
  intervals gives max 0.8, min 0, interval 0.4 and split count 1
  (`Behaviour.CountMismatch`).
- The uncomputable and all-zero paths return the caller's `splitNumber`
  without replacing an unusable one by 4 (`ResolveFacts.ResultShape`,
  `ResolveFacts.AllZeroResult`).
- The final interval is `(axisMax - axisMin) / splitNumber`, passed through
  `fixedNum` but not through `Math.round`.

## Model

| member | source | states |
|---|---|---|
| Numbers.OrDefault | lib/utils.js:58-60 | a destructuring default replaces a missing or `undefined` property and keeps a given one |
| Numbers.Trunc | lib/utils.js:99-100 | `parseInt('' + x)` is the integer between 0 and `x` that is less than 1 away from `x` |
| Numbers.Round | lib/utils.js:124 | `Math.round(x)` is within one half of `x` (halves go up) |
| Numbers.RoundPlus | lib/utils.js:124-134 | adding a whole number to a value adds it to the rounded value, and keeps a whole value whole |
| Numbers.Log10Floor | lib/utils.js:84 | the exponent `e` satisfies `10^e <= x < 10^(e+1)` |
| Numbers.Decade | lib/utils.js:84-86 | `multiple` is `10^(floor(log10(tempGap)) - 1)`, so it is positive and `tempStep = tempGap / multiple` lies in [10, 100) |
| Numbers.NegativeWithPositive | lib/utils.js:125 | with the index ahead of the stored one, the direction product is negative exactly when the count is short |
| Scale.Normalize | lib/utils.js:75-76 | an unusable or non-positive split count becomes 4; a positive one is kept |
| Scale.ClampToZero | lib/utils.js:77-82 | with `preferZero`, a one-signed range gets zero as its nearer end; bounds only widen; a nonempty range stays nonempty |
| Scale.PreferZero | lib/utils.js:77-82 | the in-place clamp of the two locals computes `ClampToZero` |
| Scale.FirstAbove | lib/utils.js:90-95 | the scan index is the first entry above `tempStep`, or the table length when there is none |
| Scale.FirstAboveUnique | lib/utils.js:90-95 | any index with the scan's two properties is the scan's index |
| Scale.ScanMagics | lib/utils.js:87-95 | the scan loop yields `FirstAbove`, and `expectedStep` is that entry (or entry 0 when none) times `multiple` |
| Scale.RawDegree | lib/utils.js:99-104 | the rounded bounds are grid points of the step; a zero bound stays zero; the max is moved up by less than a step; a negative max is moved up to 0 or by one to two steps; the min moves toward zero by less than a step |
| Scale.TruncUp | lib/utils.js:99 | `parseInt('' + (d/step + 1)) * step` is a grid point above `d`, within one step for positive `d`; for negative `d` it is 0 or between one and two steps above `d`, and not above 0 |
| Scale.TruncIn | lib/utils.js:100 | `parseInt('' + d/step) * step` is the grid point between `d` and 0 that is nearest to `d` |
| Scale.CountDegree | lib/utils.js:98-110 | `countDegree` leaves both bounds on the grid, keeps zero bounds, covers the max, keeps the min at or below a non-negative data min (at or below 0 otherwise), and makes straddling bounds ±equal under `symmetrical` |
| Scale.CountDegreeWidens | lib/utils.js:105-109 | the symmetry correction only widens the rounded bounds; it does nothing without `symmetrical` or when `axisMax * axisMin >= 0`; with `symmetrical`, rounded bounds on both sides of 0 become `tm = max(|axisMax|, |axisMin|)` and `-tm` |
| Scale.StepOfEntry | lib/utils.js:143 | a found table entry times `multiple` is the step the specification uses for that index |
| Scale.ExpandSpan | lib/utils.js:127-134 | each expansion step adds exactly one step to the span |
| Scale.ExpandCount | lib/utils.js:127-134 | after `n` expansions `tempSplitNumber` equals `round((axisMax - axisMin) / expectedStep)` again, and a whole count stays whole |
| Scale.ExpandOutward | lib/utils.js:128-133 | expansion never moves a bound inward; a zero max is never raised; a zero min is lowered only when the max is 0 |
| Scale.PlanOf | lib/utils.js:72-95 | after the early returns and the clamp the range is nonempty (`tempGap > 0`), the split count is at least 1 and the scan index is in range |
| Scale.StartPlan | lib/utils.js:83-112 | the state before the deviation test is valid for any nonempty range, usable table and split count |
| Scale.SearchSplit | lib/utils.js:121-148 | the labelled do-while with its expansion loop terminates, reads the table only in range, never takes the `--index` branch, and computes `Search` |
| Scale.Start | lib/utils.js:83-112 | the code from `tempGap` to the first `countDegree` computes `StartPlan` and the starting `expectedStep` |
| Scale.Prepare | lib/utils.js:72-112 | the code from the `preferZero` override to the first `countDegree` computes `PlanOf` |
| Scale.Finish | lib/utils.js:113-157 | the deviation return, the guarded search and the returned object compute `Finished` |
| Scale.Resolve | lib/utils.js:61-157 | the whole resolver computes `Resolved` |
| SearchFacts.ExpandAligned | lib/utils.js:127-134 | bounds on the grid stay on the grid through expansion |
| SearchFacts.SearchEnds | lib/utils.js:123-147 | the index only moves up and stays inside the table; the final count is never below the wanted one and differs from it only at either end of the table; it is the rounded span over the final step |
| SearchFacts.SearchAligned | lib/utils.js:123-147 | bounds on the current grid end on the grid of the final step |
| SearchFacts.SearchCovers | lib/utils.js:123-147 | bounds that cover the max and the min (or 0) still do when the search ends |
| SearchFacts.SearchExact | lib/utils.js:123-147 | on the grid, the final bounds span exactly `count` steps |
| SearchFacts.SearchKeepsZero | lib/utils.js:123-147 | a zero min under a positive max, and a zero max, survive the search |
| ResolveFacts.StartBounds | lib/utils.js:96-112 | the starting bounds cover the data, are ordered, lie on the starting grid once rounded, keep a zero min, and are ±equal under symmetry |
| ResolveFacts.PlanFacts | lib/utils.js:72-112 | the state before the deviation test keeps the clamped range, the normalised split count, the table and the flag, and its bounds have the `StartBounds` properties |
| ResolveFacts.ResultShape | lib/utils.js:61-63 | the result is `{ splitNumber }` exactly when a bound is not a finite number or the range is upside down, and then it is the caller's value |
| ResolveFacts.AllZeroResult | lib/utils.js:64-71 | zero data give min 0, interval `magics[0]`, the caller's split count and max `magics[0] * splitNumber` (not a number when the split count is not) |
| ResolveFacts.CoversData | index.ts:117-185 | the returned max is finite and at least the data max; the returned min is at most a non-negative data min |
| ResolveFacts.Ordering | index.ts:117-185 | max > min with deviation or a clamped max above 1; otherwise max >= min exactly when zero is preferred or the data max is not negative |
| ResolveFacts.FinalOrdered | lib/utils.js:121-148 | ordered starting bounds are still ordered after the search, since it stops only with at least one step counted |
| ResolveFacts.IntervalPositive | lib/utils.js:64-157 | whenever the result has bounds its interval is positive: `magics[0]`, the step with deviation, or the ordered final span over the split count |
| ResolveFacts.SmallRange | lib/utils.js:149-157 | without deviation the min is 0 once the data min is at most 1; a clamped max of at most 1 is returned as the max with split count 1 |
| ResolveFacts.GridCount | lib/utils.js:124 | on the grid the rounded count is the exact count |
| ResolveFacts.SearchedInterval | index.ts:158-186 | for any rounded plan, a search that reaches the wanted count makes the interval the final step; any other count sits at an end of the table |
| ResolveFacts.IntervalIsStep | lib/utils.js:121-157 | without deviation and with a max above 1, the reported split count is the normalised one, and a search that reaches it makes the interval exactly the final table step |
| ResolveFacts.DeviationCount | index.ts:149-155 | with deviation the reported count is exactly the span over the interval |
| ResolveFacts.DeviationResult | index.ts:149-155 | with deviation the result is the starting bounds, the starting step as interval and `Math.round` of the span over the step as the count, with no search; the count is exact once the max exceeds 1 |
| ResolveFacts.ScanFacts | lib/utils.js:83-86 | the gap per interval lies between 10 and 100 times the scan's `multiple` |
| ResolveFacts.StartStep | index.ts:121-133 | when the scan finds an entry, `expectedStep > tempGap` and the previous entry's step is at most `tempGap` |
| ResolveFacts.ZeroAnchored | lib/utils.js:77-104 | with zero preferred, positive data start the axis at 0 and negative data end it at 0 |
| ResolveFacts.SymmetricPlan | index.ts:142-156 | with `symmetrical` and straddling bounds the search is skipped |
| ResolveFacts.SymmetricBounds | index.ts:142-156 | with `symmetrical` and a max above 1, straddling bounds are ±equal and final; with deviation the returned min is minus the max |
| Utils.MinFold | lib/utils.js:38-44 | the folded min is at most the start and every value, and is the start or one of the values |
| Utils.MaxFold | lib/utils.js:38-44 | the folded max is at least the start and every value, and is the start or one of the values |
| Utils.MinFoldAppend | lib/utils.js:35-46 | folding two runs in turn is folding their concatenation (min) |
| Utils.MaxFoldAppend | lib/utils.js:35-46 | folding two runs in turn is folding their concatenation (max) |
| Utils.FoldPoints | lib/utils.js:38-44 | the inner `forEach` computes the folds over the points' y-values |
| Utils.FoldSerie | lib/utils.js:37-45 | a series with `null` or `undefined` data changes nothing; otherwise its points are folded |
| Utils.GetMinAndMax | lib/utils.js:33-47 | `getMinAndMax` returns the min and max folds from 0 over all y-values |
| Utils.MinMaxBounds | lib/utils.js:33-47 | `min <= 0 <= max`, every y-value lies in `[min, max]`, and each end is 0 or a y-value |
| Utils.NoDataGivesZero | lib/utils.js:33-47 | series without data points give `[0, 0]` |
| Utils.IgnoresX | lib/utils.js:39-40 | x-values do not matter |
| Utils.RequestOf | lib/utils.js:58-60 | defaults: a missing or `undefined` `max`/`min` is 0 and a given one is kept; table `[10, …, 150]`, split count 2, `preferZero` true unless `false` is given, the other flags false unless `true` is given |
| Utils.DefaultMagicsOk | lib/utils.js:60 | the default table is nonempty, positive and strictly ascending |
| Utils.GenerateAxisOption | lib/utils.js:56-158 | `generateAxisOption` resolves the option with its defaults applied |
| Utils.NoBoundsGiven | lib/utils.js:58-71 | missing bounds are 0, so an empty option gives `{ max: 20, min: 0, interval: 10, splitNumber: 2 }` |
| Compute.Spread | index.ts:86-92 | a spread default fills only a missing property; an `undefined` one is copied over it |
| Compute.Truthy | index.ts:99-101 | a flag without a destructuring default holds only when it is `true` |
| Compute.RequestOf | index.ts:86-102 | defaults: a missing or `undefined` `max`/`min` is 0 and a given one is kept; fixed table, split count 2, `symmetrical`/`deviation` only when `true`, `preferZero` when missing or `true` |
| Compute.FixedMagicsOk | index.ts:93 | the fixed table is nonempty, positive and strictly ascending |
| Compute.ScaleCompute | index.ts:85-189 | `scaleCompute` resolves the option with its defaults and the fixed table |
| Compute.SameAsGenerate | index.ts:86-102 | `scaleCompute` and `generateAxisOption` with the same table see the same request, except that `preferZero: undefined` is false for one and true for the other |
| Compute.StartIndex | index.ts:121-133 | with the fixed table the scan starts at entry 1 to 11 (15 to 100): never 10, never 150, never the fallback |
| Compute.FixedScan | index.ts:128-133 | a scaled gap in [10, 100) lies above entry 0 and below entry 11 of the fixed table |
| Compute.Defaults | index.ts:86-102 | an option with only bounds resolves with split count 2, no symmetry, no deviation and zero preferred |
| FixedAxis.Assigned | lib/index.js:13 | `Object.assign` keeps every key of both objects, takes the source's value for a shared key and keeps the target's for the rest |
| FixedAxis.Axis.Assign | lib/index.js:13 | the axis is updated in place to the assigned properties, and the same object is returned |
| FixedAxis.ResultProps | lib/utils.js:61-62 | the result object has `splitNumber` only when uncomputable, otherwise `max`, `min`, `interval` and `splitNumber` |
| FixedAxis.Forward | lib/index.js:7-12 | a given `splitNumber` or `magics` is passed on unchanged; a missing one becomes an own key holding `undefined` |
| FixedAxis.FixedRequest | lib/index.js:6-12 | the resolver gets `getMinAndMax` as the range, the caller's split count and table (or the defaults), and the default flags |
| FixedAxis.FixedAxis | lib/index.js:4-14 | `fixedAxis` returns the very axis it got, now holding the resolved keys over its own |
| FixedAxis.AlwaysScale | lib/index.js:6-10 | the resolver sees a finite range with `min <= 0 <= max`, so all four keys are written, the min is 0, and with nonzero data the max covers the largest y-value |
| FixedAxis.OverlayKeeps | lib/index.js:13 | result keys override the axis's own; every other axis key is unchanged |
| FixedAxis.UncomputableKeepsBounds | lib/index.js:13 | an uncomputable result writes only `splitNumber`, so `max`, `min` and `interval` on the axis survive |
| FixedAxis.TestRange | __tests__/index.ts:44-63 | the test series gives the range `[0, 30]` |
| FixedAxis.TestScan | __tests__/index.ts:66-80 | the test's gap per interval, 15, has multiple 1 and starting entry 20 |
| FixedAxis.TestPlan | __tests__/index.ts:66-80 | the test's starting bounds are 0 and 40 on the grid of 20 |
| FixedAxis.TestSearch | __tests__/index.ts:66-80 | the test's search stops at once with two steps of 20 |
| FixedAxis.TestScale | __tests__/index.ts:66-80 | the range `[0, 30]` in two intervals resolves to max 40, min 0, interval 20, split count 2 |
| FixedAxis.TestRequest | __tests__/index.ts:66-71 | the test call asks the resolver for `[0, 30]` with the defaults |
| FixedAxis.TestOverlay | __tests__/index.ts:20-28 | the expected keys written over the test's y-axis keep its `type` and `axisLabel` |
| FixedAxis.TestExample | __tests__/index.ts:66-80 | the repository's test: the y-axis ends with max 40, min 0, interval 20 and split count 2 |
| Behaviour.StopsAtOnce | lib/utils.js:123-140 | a search whose first rounded count equals the split count keeps the starting bounds |
| Behaviour.NotIdempotent | lib/utils.js:83-157 | `[0, 40]` in two intervals (the test's own result) resolves to 0 to 50 in steps of 25, with or without deviation |
| Behaviour.WiderPlan | lib/utils.js:83-112 | `[0, 40]`: multiple 1, entry 25, starting bounds 0 and 50 |
| Behaviour.WiderFinish | lib/utils.js:113-157 | 0 to 50 is two steps of 25, so both the deviation return and the search give max 50, interval 25 |
| Behaviour.CountMismatch | lib/utils.js:149-157 | `[0.2, 0.8]` in two intervals gives max 0.8, min 0, interval 0.4 and split count 1, though the span is two intervals |
| Behaviour.FractionPlan | lib/utils.js:77-112 | `[0.2, 0.8]` clamps to `[0, 0.8]`: multiple 0.01, entry 50, the data as bounds |
| Behaviour.FractionFinish | lib/utils.js:121-157 | 0.8 rounds to two steps of 0.5, the search stops, and the span is split in two |
| Behaviour.NegativeRange | lib/utils.js:77-157 | with `preferZero: false`, `[-100, -30]` in two intervals gives max -30, min 0, interval 35, split count 1 |
| Behaviour.NegativePlan | lib/utils.js:83-112 | `[-100, -30]`: multiple 1, entry 40, the data as bounds |
| Behaviour.NegativeFinish | lib/utils.js:121-157 | a span of 70 rounds to two steps of 40, so the search stops at once |
| Behaviour.NegativeMinCut | lib/utils.js:98-119 | with deviation, `[-50, 50]` gives max 60, min 0, interval 60, split count 1: the min lies above the data min |
| Behaviour.StraddlePlan | lib/utils.js:83-112 | `[-50, 50]`: multiple 1, entry 60, starting bounds 0 and 60 |
| Behaviour.StraddleScan | lib/utils.js:83-95 | the gap 50 has multiple 1 and is first exceeded by the entry 60 |
| Behaviour.StraddleDegree | lib/utils.js:98-104 | on the grid of 60, 50 rounds up to 60 and -50 truncates to 0 |
| Behaviour.StraddleFinish | lib/utils.js:113-119 | the deviation return gives the rounded bounds, the step and one interval |
| Behaviour.NegativeDegree | lib/utils.js:99-104 | a negative max rounds up by truncation: -50 on the grid of 20 becomes -20, and -30 becomes 0 |

## Left out

- `fixedNum` (lib/utils.js:14-20, index.ts:61-65) is the identity, because the model uses exact reals. The source rounds any number whose decimal string contains a '.' to 15 decimal places (`toFixed(15)`). That rounding is not modelled: digits past the 15th decimal place are kept, and magnitudes below 5e-16 are not turned into 0. For example, data `[0, 3e-16]` in two intervals give the source an interval of `fixedNum(1.5e-16)`, which is 0.
- ResolveFacts.IntervalPositive: holds with `fixedNum` as the identity. Because of the 15-decimal rounding above, the source can return an interval of 0 when the exact interval is below 5e-16.
- NaN and the infinities are one `NonFinite` case. Their different behaviour in comparisons and arithmetic is not modelled.
- Values outside the declared option types (lib/types.d.ts:8-21: the bounds and `splitNumber` are numbers or `undefined`) are not modelled. For example `null` as `splitNumber` makes the all-zero return compute `10 * null`, which is 0.
- `Math.log10` and `Math.pow` are exact integer-exponent functions. Floating-point error at exact powers of ten is not modelled.
- `parseInt` on strings in exponent notation is not modelled. Truncation toward zero stands in for it. JavaScript prints a quotient below 1e-6 in magnitude (or at least 1e21) in exponent notation, and `parseInt` keeps only its leading digits. For data `[-1e-7, 100]` in two intervals, `'' + (-1e-7 / 60)` is `'-1.6666666666666667e-9'` and `parseInt` gives -1, so the source's `axisMin` is -60 where the model has 0. The search then ends differently in the source ({150, 0, 525, 2}) and in the model ({120, 0, 60, 2}).
- Utils.GetMinAndMax: y-values are finite reals. NaN, infinite and non-number data values are not modelled. The dead `typeof min === 'undefined'` tests are dropped.
- Scale.Resolve: requires a nonempty, positive, strictly ascending table and an integer split count (or one that is replaced by 4). The source checks neither. On other input it reads `undefined` table entries or never matches a fractional count; that behaviour is not modelled.
- Utils.GenerateAxisOption: carries the same requirement on the caller's table and split count as `Scale.Resolve`.
- Compute.ScaleCompute: carries the same requirement on the split count as `Scale.Resolve`.
- FixedAxis.FixedAxis: carries the same requirement on the caller's table and split count as `Scale.Resolve`.
- `Object.assign` is a key overlay on a map from names to values. Prototypes, getters, symbols and non-enumerable properties are not modelled.
- Flags given as non-boolean truthy values (`1`, `'yes'`) are not modelled. Flags are booleans, missing or `undefined`.
- lib/types.d.ts and lib/utils.d.ts hold type declarations only, with no behaviour.
- The ECharts option literal and the Jest harness in __tests__/index.ts are not modelled. Only the test's series, y-axis and expected values appear, as lemmas.
