# Gas-fee profiler model

This project models the fee engine of `zkapp.py`, a profiler for recent gas
fees on Ethereum-style chains. The profiler works in three steps:

1. It samples blocks below a head height with a fixed stride.
2. For each block it extracts the base fee, the median effective gas price and
   the median priority tip (the per-block extractor).
3. It turns the three series into percentiles and an EIP-1559 recommendation:
   a `maxPriorityFeePerGas` and a `maxFeePerGas`.

Five modules make up the model:

- `Outcomes` defines `Option` and `Result`.
- `Stats` holds the order statistics: ascending sort, `min`, `max`,
  `statistics.median`, Python's `round` (half to even), rounding to three
  decimals, and the nearest-rank percentile `pct`.
- `Fees` covers transactions and the per-block extractor:
  - a raw transaction with optional fields is decoded into a legacy or a
    dynamic-fee (type 2) transaction;
  - each transaction's effective price and tip are computed;
  - `BlockStats` specifies one block's statistics, and the loop method
    `SampleBlockFees` is proved to compute them.
- `Networks` holds the chain-ID name table and its fallback text.
- `Window` is the window aggregator:
  - `SampledHeights` gives the heights that `range(head, start - 1, -step)`
    visits;
  - the chain client is a map from height to block, and a missing height is a
    fetch failure that ends the run;
  - `Analyze` specifies the outcome and `AnalyzeFees` is the sampling loop
    proved against it;
  - the summaries and the recommendation come last.

Fees on the chain are whole numbers of wei (`nat`). A gwei amount is the exact
real `wei / 10^9`. Python's `round(x)` is modelled exactly as rounding half to
even on real numbers, and `round(x, 3)` as `round(x * 1000) / 1000`. The
rank `q * (n - 1)` of `pct` is written as a repeated sum (`Stats.Times`), which
`Stats.TimesIsProduct` proves equal to the product.

## Model

| member | source | states |
|---|---|---|
| Stats.SortAsc | zkapp.py:55 | `sorted`: the result is ascending, has the same length and is a permutation (multiset equality) of the input |
| Stats.Insert | zkapp.py:55 | inserting into an ascending list keeps it ascending and adds exactly the new element |
| Stats.SeqMin | zkapp.py:159 | `min` of a non-empty list is an element of it and at most every element |
| Stats.SeqMax | zkapp.py:160 | `max` of a non-empty list is an element of it and at least every element |
| Stats.SortedPermutationEnds | zkapp.py:55 | any ascending permutation of a list starts with its minimum and ends with its maximum |
| Stats.SortedUnique | zkapp.py:55 | two ascending lists with the same values (as multisets) are equal |
| Stats.SortAscPermutation | zkapp.py:55 | rearrangements of a list sort to the same list |
| Stats.PermutationWithinRange | zkapp.py:55 | every element of a permutation lies between the original's minimum and maximum |
| Stats.MedianWithinRange | zkapp.py:98-99 | the median of a non-empty list lies between its minimum and maximum |
| Stats.Median | zkapp.py:98-99 | definition of `statistics.median` (middle element, or mean of the two middle ones); its bounds are stated in Stats.MedianWithinRange |
| Stats.MedianOrZero | zkapp.py:98-99 | `median(s) if s else 0.0` is 0.0 for an empty list and within the list's range otherwise |
| Stats.MedianOrZeroPermutation | zkapp.py:98-99 | the median (or 0.0) of a series does not depend on its order |
| Stats.MinMaxPermutation | zkapp.py:159-160 | the min and max of a non-empty series do not depend on its order |
| Stats.RoundHalfEven | zkapp.py:56 | `round(x)` is within 0.5 of `x`, and a tie goes to the even integer |
| Stats.RoundHalfEvenMonotone | zkapp.py:56 | `round` is monotone |
| Stats.RoundOfInteger | zkapp.py:56 | an integer rounds to itself |
| Stats.Round3 | zkapp.py:142-143 | `round(x, 3)` is a multiple of 0.001 within 0.0005 of `x` |
| Stats.Round3Monotone | zkapp.py:142-143 | `round(x, 3)` is monotone |
| Stats.Round3NonNegative | zkapp.py:142 | rounding a non-negative value to three decimals gives a non-negative value |
| Stats.Round3Idempotent | zkapp.py:143 | rounding an already rounded value again changes nothing |
| Stats.Round3OfInteger | zkapp.py:157-160 | a whole number is unchanged by rounding to three decimals |
| Stats.Clamp01 | zkapp.py:54 | `max(0, min(1, q))` lies in [0, 1], is `q` inside it, 0 below it and 1 above it |
| Stats.Clamp01Monotone | zkapp.py:54 | clamping is monotone |
| Stats.TimesIsProduct | zkapp.py:56 | the repeated sum used for `q * (n - 1)` equals the product |
| Stats.Times | zkapp.py:56 | definition of the product `q * (n - 1)` as a repeated sum; Stats.TimesIsProduct states it equals the product |
| Stats.Rank | zkapp.py:56 | the fractional rank `q * (n - 1)` of a clamped `q` lies in [0, n - 1] |
| Stats.RankMonotone | zkapp.py:54-56 | the fractional rank is monotone in `q` |
| Stats.PctIndex | zkapp.py:56 | the index `round(q * (n - 1))` is a valid index: 0 for `q <= 0` and `n - 1` for `q >= 1` |
| Stats.PctIndexMonotone | zkapp.py:54-56 | the index is monotone in `q` |
| Stats.Pct | zkapp.py:51-57 | `pct` is 0.0 on an empty list; otherwise it returns an element of the list between its min and max, the min for `q <= 0` and the max for `q >= 1` |
| Stats.PctMonotone | zkapp.py:51-57 | for a fixed list, `pct` is monotone in `q` |
| Stats.PctPermutation | zkapp.py:51-57 | `pct` does not depend on the order of the series |
| Fees.ToGwei | zkapp.py:68 | wei to gwei: non-negative, and times 10^9 gives back the wei amount |
| Fees.BaseFeeWei | zkapp.py:67 | definition: the block's base fee, 0 when absent; Fees.EmptyBlockStats states the converted value |
| Fees.Classify | zkapp.py:76-91 | a transaction is read as dynamic-fee exactly when its type is 2 (a missing type counts as 0); missing fee fields count as 0 |
| Fees.EffectivePriceWei | zkapp.py:85-92 | type 2: at most the fee cap and at most base fee plus priority fee, and equal to one of them; legacy: the gas price |
| Fees.TipWei | zkapp.py:87-93 | type 2: the declared priority fee; legacy: the gas price minus the base fee when that is non-negative, else 0, and never more than the gas price |
| Fees.EffectivePrices | zkapp.py:74-92 | one effective price per transaction |
| Fees.Tips | zkapp.py:74-94 | one tip per transaction |
| Fees.BlockStats | zkapp.py:60-100 | all three statistics are non-negative, and each median lies between the smallest and largest per-transaction value |
| Fees.SampleBlockFees | zkapp.py:60-100 | the extractor loop computes exactly `BlockStats` of the block |
| Fees.EmptyBlockStats | zkapp.py:96-100 | a block without transactions has zero medians and its converted base fee (0 when absent) |
| Fees.PositivePricesGivePositiveMedian | zkapp.py:98 | if every transaction pays a positive price, the block's median effective price is positive |
| Fees.LegacyExample | zkapp.py:88-94 | a lone legacy transaction paying the base fee plus 5 wei gives a tip of 5e-9 gwei and its own gas price as effective price |
| Fees.DynamicExample | zkapp.py:78-87 | cap 100, priority fee 10 and base fee 50 give an effective price of 60 wei and a tip of 10 wei |
| Fees.DeclaredTipExceedsPaidTipWhenCapped | zkapp.py:85-87 | when the fee cap binds, the recorded type-2 tip exceeds what is paid above the base fee |
| Networks.DigitChar | zkapp.py:35 | a digit character denotes its digit |
| Networks.NatToDecimal | zkapp.py:35 | decimal rendering is non-empty, all digits, and starts with '0' only for 0 (no leading zeros) |
| Networks.DecimalRoundTrip | zkapp.py:35 | reading back a rendered number gives the number |
| Networks.LeadingMinusIffNegative | zkapp.py:35 | the rendering starts with '-' exactly for negative IDs |
| Networks.IntToString | zkapp.py:35 | definition of `str(cid)`; Networks.LeadingMinusIffNegative and Networks.IntToStringInjective state its properties |
| Networks.IntToStringInjective | zkapp.py:35 | distinct integers render differently |
| Networks.NetworkName | zkapp.py:34-35 | definition of `network_name` (table name, else the fallback text); Networks.NetworkNameInjective states that names never collide |
| Networks.NetworkNameInjective | zkapp.py:24-35 | distinct chain IDs get distinct names, for both table entries and the fallback |
| Window.SampledHeights | zkapp.py:111-121 | the heights start at the head, fall by `step`, never go below the window start, and the next one would; empty exactly when the head is below the start |
| Window.StartBlock | zkapp.py:111 | `max(0, head - blocks + 1)`: non-negative, at least `head - blocks + 1`, and equal to 0 or to it |
| Window.SampledHeightsDescend | zkapp.py:121 | the sampled heights strictly descend |
| Window.SampledHeightsCount | zkapp.py:111-121 | there are `(head - start) / step + 1` sampled heights, or none when head < start |
| Window.SmallHeadExample | zkapp.py:111-121 | head 5, window 1000 and stride 3 sample heights 5 and 2 |
| Window.WalkStep | zkapp.py:121 | the walk continues from a height exactly when the height `step` lower is still in the window, and goes there |
| Window.FirstMissing | zkapp.py:121-122 | the first sampled height the chain client lacks; all earlier ones are present |
| Window.SeriesShape | zkapp.py:125-129 | one base fee per sampled block, equal to that block's; effective-price and tip series hold only positive values, at most one per block |
| Window.SeriesKeepsPositive | zkapp.py:126-129 | a block's positive median effective price and median tip enter their series |
| Window.SeriesSources | zkapp.py:126-129 | every entry of the effective-price and tip series comes from a sampled block |
| Window.CollectSeries | zkapp.py:125-129 | definition of the three series; Window.SeriesShape, Window.SeriesKeepsPositive and Window.SeriesSources state their properties |
| Window.CollectSeriesSnoc | zkapp.py:125-129 | one loop iteration appends the block's base fee and, when positive, its medians |
| Window.SampledStatsSnoc | zkapp.py:122-124 | sampling one more block appends its statistics |
| Window.SampledStats | zkapp.py:122-124 | one statistics record per sampled height |
| Window.RecommendedTip | zkapp.py:142 | `max(tip_p50, tip_target) * 1.2` equals 1.2 times one of the two tips and is at least 1.2 times each, so it is at least both tips and non-negative when either is |
| Window.BaseFeeStats | zkapp.py:156-161 | definition of the base-fee summary; Window.BaseFeeStatsOrdered states its ordering |
| Window.TipStats | zkapp.py:163-166 | definition of the tip summary; Window.RecommendBounds states that the recommendation covers it |
| Window.Recommend | zkapp.py:142-143 | definition of the recommendation; Window.RecommendBounds and Window.RecommendMonotone state its bounds and monotonicity |
| Window.Report | zkapp.py:136-171 | definition of the report; Window.ReportBounds and Window.ReportMonotoneInTarget state its guarantees |
| Window.Analyze | zkapp.py:110-171 | definition of the outcome of an analysis; Window.AnalyzeFailsIffMissing, Window.AnalyzeSampleCount, Window.AnalyzeRecommendationBounds and Window.AnalyzeMonotoneInTarget state its properties |
| Window.AnalyzeAtMissing | zkapp.py:121-122 | the analysis fails with the first missing sampled height |
| Window.AnalyzeAllPresent | zkapp.py:121-171 | when every sampled height is present, the analysis returns the report of the collected series |
| Window.SamplingStep | zkapp.py:121-129 | one pass over a present block keeps the loop state `Sampling`: the walk moves `step` lower, the records gain the block's statistics, and the series grow exactly as the loop appends to them |
| Window.SamplingMissing | zkapp.py:121-122 | when the loop reaches a height the chain client lacks, the analysis fails with that height |
| Window.SamplingDone | zkapp.py:121-171 | when the loop walks below the window, the analysis reports the series the loop collected, with its counter as the sample count |
| Window.AnalyzeFees | zkapp.py:110-171 | the sampling loop returns exactly `Analyze`: the failure at the first missing height, or the report |
| Window.AnalyzeFailsIffMissing | zkapp.py:121-122 | the analysis fails exactly when some sampled height is missing, and names the first one; no report is produced then |
| Window.AnalyzeSampleCount | zkapp.py:111-154 | a report counts `(head - start) / step + 1` blocks (0 when head < start), at most the window size, and echoes the chain ID, network name, head, window, step and target |
| Window.BaseFeeStatsOrdered | zkapp.py:136-161 | the base-fee summary satisfies min <= p50 <= max and min <= pTarget <= max |
| Window.RecommendBounds | zkapp.py:142-143 | with non-negative inputs, the priority fee is >= 0 and >= the rounded median and target tips; the fee cap is >= the rounded target base fee and >= the priority fee, and within 0.0005 of the target base fee plus the priority fee |
| Window.RecommendMonotone | zkapp.py:142-143 | a higher target base fee or target tip never lowers either recommended value |
| Window.RecommendExample | zkapp.py:142-143 | target base fee 12, median tip 1 and target tip 2 give priority fee 2.4 and fee cap 14.4 |
| Window.ReportBounds | zkapp.py:136-171 | with non-negative base fees and positive tips, the report's base-fee summary is ordered, its recommendation covers the reported tips and target base fee, and its fee cap is within 0.001 of the reported target base fee plus the priority fee |
| Window.ReportOrderIndependent | zkapp.py:136-171 | the report depends on the three series only through the values they hold, not the order of sampling |
| Window.AnalyzeRecommendationBounds | zkapp.py:110-171 | every successful analysis has an ordered base-fee summary; its recommended priority fee is non-negative and covers the median and target tips; its fee cap covers the target base fee and the priority fee and is within 0.001 of their sum |
| Window.ReportMonotoneInTarget | zkapp.py:137-143 | a higher target percentile never lowers the recommendation |
| Window.AnalyzeMonotoneInTarget | zkapp.py:110-171 | the fetch outcome does not depend on the target, and a higher target never lowers the recommendation |
| Window.ExampleHeights | zkapp.py:111-121 | head 2, window 3 and stride 1 sample heights 2, 1, 0 |
| Window.ExampleStats | zkapp.py:122-124 | the three example blocks without transactions give statistics (11, 0, 0), (12, 0, 0), (10, 0, 0) |
| Window.ExampleCollect | zkapp.py:125-129 | three records with base fees 11, 12, 10 and zero medians collect into base-fee series [11, 12, 10] and empty effective-price and tip series |
| Window.ExampleSeries | zkapp.py:121-129 | three empty blocks with base fees 11, 12, 10 gwei give base-fee series [11, 12, 10] and empty effective-price and tip series |
| Window.ExampleSort | zkapp.py:55 | sorting [11, 12, 10] gives [10, 11, 12] |
| Window.ExampleBaseFeeStats | zkapp.py:136-161 | base fees [11, 12, 10] at the 80th percentile give p50 11, pTarget 12, min 10 and max 12 |
| Window.ExamplePct | zkapp.py:51-57 | the 80th percentile of [11, 12, 10] is 12, the element at rank round(0.8 * 2) = 2 of [10, 11, 12] |
| Window.ExampleMedian | zkapp.py:136 | the median of [11, 12, 10] is 11 |
| Window.ExampleMinMax | zkapp.py:159-160 | the minimum of [11, 12, 10] is 10 and the maximum 12 |
| Window.ExampleReport | zkapp.py:136-171 | the report of series [11, 12, 10] with no tips at the 80th percentile has base-fee summary (11, 12, 10, 12), zero tips, priority fee 0 and fee cap 12 |
| Window.ExampleAnalysis | zkapp.py:110-171 | the three-block example reports 3 blocks, base-fee summary (11, 12, 10, 12), zero tips, priority fee 0 and fee cap 12 |
| Window.ExampleMissingBlock | zkapp.py:121-122 | the same example without block 1 fails at height 1 |

## Left out

- Connecting to the RPC endpoint (`connect`), argument parsing, environment
  defaults and `main` are not modelled. Nor are printing, progress messages,
  the elapsed time (`timingSec`) and the JSON envelope: they are I/O.
- `main` rejects a non-positive `--blocks` or `--step` before calling
  `analyze_fees`. The model carries this as the precondition
  `blocks > 0 && step > 0`.
- The head height and the chain ID are parameters. The profiler reads them
  from the RPC connection, or from `--head` for the head.
- The chain client is a map from height to block. A height it does not hold
  stands for any `get_block` failure, which ends the analysis; the reason for
  the failure is not modelled.
- Floating point is not modelled. Gwei amounts are exact reals, so
  `Web3.from_wei` followed by `float` is an exact division. `round` works on
  these exact values, not on binary floats, so a value whose binary float
  lies just across a rounding boundary can round differently in the
  profiler. The factor 1.2 is the exact real 6/5.
- Fees.Classify, Fees.BaseFeeWei: a fee field, or a block's `baseFeePerGas`,
  that is present but `None` makes `int(None)` fail in the profiler (the `or 0`
  of zkapp.py:67 only guards the default). The model reads only present or
  absent fields, and an absent one counts as 0.
- The two ways a transaction or block is read, attribute access or dictionary
  lookup, are one record of optional fields in the model. Type tags are
  integers in the model. A tag of another kind, which the profiler reads as
  legacy because it is not equal to 2, is not represented.
- `statistics.median` on an even-length list averages the two middle values
  with exact division, with no float error.
