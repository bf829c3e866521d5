# A/B test calculator — statistical core

A Dafny model of the arithmetic behind the A/B test calculator in `script.js`:

- the **sample-size planner** (`calculateSampleSize`, `checkRecommendations`): the
  visitors needed per variant for a baseline conversion rate, a relative minimum
  detectable effect, a confidence level and a power; the total sample; the
  duration in days for a daily traffic; and the three design advisories
  (at least 5000 visitors per variant, at least 14 days, at most 42 days);
- the **frequentist analysis** (`analyzeTestFrequentist`): pooled rate, z statistic,
  relative uplift, absolute difference, the 95% confidence interval of the uplift
  and the three-way verdict at significance level 0.05;
- the **Bayesian analysis** (`analyzeTestBayesian`): the Beta posterior of each arm,
  the Monte Carlo tally of rounds the variant wins, the sorted uplift samples and
  the median and 2.5%/97.5% quantiles read from them, the expected losses, and
  the four-tier verdict;
- the **entry point** (`analyzeTest`): validation of the entered counts, and the
  choice of the best-performing test variant to compare with the control.

JavaScript numbers are modelled as `real`, `Math.ceil`/`Math.floor` by Dafny's
`Floor`, `reduce` by a left-to-right sum. Modules follow the program's parts:
`Numeric` (rounding, sums, means, percentages, and the real-arithmetic lemmas the
proofs share), `Arms` (an arm's counts and conversion rate), `NormalApprox`
(`zScore`), `SampleSize`, `Frequentist`, `Sorting` (the ascending sort of the
uplift samples, an in-place insertion sort on an `array<real>`), `Bayesian` and
`Analysis`.

Two things the code does are supplied by the caller instead of computed:

- **square roots** (`Math.sqrt` at script.js lines 221 and 236): the frequentist
  functions take the root `r` together with the promise `IsSquareRoot(r, x)`
  (`0 <= r` and `r * r == x`); `Frequentist.VariancesNonNegative` shows that both
  radicands are non-negative for valid arms, which is the condition for a real
  root to exist (the model does not construct one);
- **random draws**: the Bayesian method takes the sequence of `(control, variant)`
  Beta variates the sampler produced, one pair per Monte Carlo round; the
  p-value of the frequentist test, which the code obtains from `normalCDF`, is an
  input as well.

Where the code divides without a guard, the model requires what makes the
division defined: positive visitors, a positive control conversion count for the
relative uplift, a positive standard error for the z statistic, a non-zero
baseline and effect for the sample size, non-zero daily traffic, at least one
Monte Carlo round, and a positive control draw in every round for the sampled
uplifts.

## Model

| member | source | states |
|---|---|---|
| NormalApprox.ZScore | script.js:126-134 | 0.90 maps to 1.645, 0.99 to 2.576, and 0.95 and every other level to 1.96; always positive |
| Arms.Rate | script.js:214-215 | the rate times the visitors is the conversions; positive iff there are conversions; within [0, 1] for valid counts |
| Numeric.Spread | script.js:162 | `p * (1 - p)` is non-negative on [0, 1] and positive strictly inside |
| Numeric.RelativeChange | script.js:230 | the relative change times the base is the difference in percent; positive iff the value exceeds the base, negative iff it is below |
| Numeric.RelativeChangeInterval | script.js:237-239 | moving the value down and up by a non-negative margin gives relative changes below and above the unmoved one, at equal distances; that distance times the base is the margin in percent |
| Numeric.Percent | script.js:345 | a tally out of a total, in percent, lies in [0, 100]; it is 100 iff the tally is the total and 0 iff the tally is 0 |
| Numeric.Mean | script.js:353-354 | the mean of non-negative terms is non-negative |
| Numeric.MeanDifference | script.js:353-354 | means over equally many terms subtract as their sums do |
| SampleSize.VariantRate | script.js:154 | the expected variant rate exceeds the baseline by the baseline times the relative effect |
| SampleSize.EffectSquared | script.js:163 | the squared effect is `(baseline * mde)^2`, positive iff baseline and effect are both non-zero |
| SampleSize.SamplePerVariant | script.js:157-164 | the least whole number of visitors whose product with the squared effect covers the numerator; at least 1 when the pooled rate is a proportion strictly inside (0, 1) |
| SampleSize.PositiveNumerator | script.js:161-162 | the numerator is positive when the pooled rate is strictly between 0 and 1 |
| SampleSize.DurationDays | script.js:167 | the least number of days whose traffic covers the total sample (and the mirrored bound for negative traffic) |
| SampleSize.CheckRecommendations | script.js:182-197 | each advisory holds iff its threshold (5000 visitors, 14 days, 42 days) is met; a duration never fails both duration advisories; both hold iff 14 <= days <= 42 |
| SampleSize.Plan | script.js:145-179 | the planner's report: per-variant sample, total = per-variant * variants, minimal covering duration, expected variant rate, advisories consistent with the reported figures |
| SampleSize.NumeratorMonotone | script.js:162 | the numerator grows with the two critical values when the pooled rate is a proportion |
| SampleSize.StricterLevelsNeedMoreSamples | script.js:157-164 | a larger critical value for confidence or power never lowers the per-variant sample |
| SampleSize.LowerConfidenceNeedsFewerSamples | script.js:128-133 | the sample for confidence 0.90 is at most that for 0.95, which is at most that for 0.99 |
| SampleSize.LargerEffectNeedsFewerSamples | script.js:154-164 | for a positive baseline and positive effects `mde1 <= mde2` whose larger pooled rate is at most 1, the sample for `mde2` is at most that for `mde1` |
| SampleSize.QuotientFalls | script.js:161-164 | under the same conditions, the quotient numerator / squared effect that is rounded up does not grow with the effect |
| SampleSize.CrossOrdered | script.js:161-163 | with pooled rate `b + x / 2` and squared effect `x^2`, the spread-to-squared-effect ratio falls as the absolute effect `x` grows while the pooled rate stays at most 1 |
| Frequentist.PooledRateBetween | script.js:218 | the pooled rate lies between the two arms' rates |
| Frequentist.VariancesNonNegative | script.js:221-236 | both radicands are non-negative for valid arms, so the square roots exist |
| Frequentist.ZStatistic | script.js:224 | z times the standard error is the rate difference; z is positive (negative) iff the variant's rate is higher (lower) |
| Frequentist.Decide | script.js:251-262 | better iff p < 0.05 and uplift > 0; worse iff p < 0.05 and uplift <= 0; not significant iff p >= 0.05 |
| Frequentist.AnalyzeFrequentist | script.js:213-262 | the absolute difference is the rate difference in percentage points; the uplift times the control rate is that same difference, so both have the sign of the rate difference; the interval contains the uplift symmetrically and its half-width times the control rate is 1.96 * seUplift in percent; the verdict is stated in terms of the two rates and the p-value |
| Sorting.SortAscending | script.js:348 | the array ends sorted ascending and holds the same multiset of values |
| Sorting.InsertInto | script.js:348 | inserting the next element extends the sorted prefix by one, leaves the unsorted suffix untouched and keeps the multiset of values |
| Sorting.SortedPermutationUnique | script.js:348-351 | two sorted rearrangements of the same values are equal, so the quantiles do not depend on the sorting algorithm |
| Bayesian.Posterior | script.js:318-321 | the posterior's total weight is the prior's plus the visitors; both parameters are positive for a positive prior and valid counts |
| Bayesian.PosteriorMeanBetween | script.js:318-321 | the posterior mean lies between the prior mean and the observed conversion rate |
| Bayesian.Wins | script.js:329-335 | the tally of rounds the variant won never exceeds the number of rounds |
| Bayesian.WinsAll | script.js:329-335 | the tally equals the number of rounds iff the variant won every round |
| Bayesian.WinsNone | script.js:329-335 | the tally is zero iff the variant won no round |
| Bayesian.Uplift | script.js:337 | a round's uplift is positive iff the variant's draw is higher, negative iff lower, and scales back to the difference |
| Bayesian.Uplifts | script.js:337-338 | one uplift per round, in round order |
| Bayesian.LossIfControl | script.js:341 | non-negative; positive iff the variant won the round |
| Bayesian.LossIfVariant | script.js:342 | non-negative; positive iff the control's draw is higher |
| Bayesian.LossDifference | script.js:341-342 | the two losses of a round differ by the variant's lead, and at most one is non-zero |
| Bayesian.LossesIfControl | script.js:341 | one loss per round, equal to that round's `LossIfControl`, never negative |
| Bayesian.LossesIfVariant | script.js:342 | one loss per round, equal to that round's `LossIfVariant`, never negative |
| Bayesian.Differences | script.js:341-342 | one difference per round, equal to that round's variant draw minus its control draw |
| Bayesian.SumLossDifference | script.js:341-354 | the summed loss of keeping the control minus that of shipping the variant is the variant's total lead |
| Bayesian.Simulate | script.js:329-343 | the loop's tally is the number of rounds won, its uplift array and loss lists hold one entry per round in round order |
| Bayesian.ProbabilityExtremes | script.js:345 | the probability is 100% iff the variant won every round and 0% iff it won none |
| Bayesian.ExpectedLossDifference | script.js:353-354 | the two expected losses differ by the variant's mean lead |
| Bayesian.QuantileIndex | script.js:349-351 | `floor(n * q)` is a valid position among `n` samples for every quantile below 1 |
| Bayesian.QuantileIndicesOrdered | script.js:349-351 | the 2.5% position is at most the median's, which is at most the 97.5% position |
| Bayesian.QuantileReadings | script.js:348-351 | the readings at the 2.5%, 50% and 97.5% positions of the sorted uplifts are ordered, and positive when the variant won every round |
| Bayesian.Classify | script.js:366-378 | strong iff > 95; moderate iff in (90, 95]; control likely better iff < 50; inconclusive iff in [50, 90] |
| Bayesian.ClassifyMonotone | script.js:366-378 | a higher probability never yields a verdict less favourable to the variant |
| Bayesian.AnalyzeBayesian | script.js:312-382 | probability = wins / rounds in percent, in [0, 100], 100 iff the variant won every round, 0 iff none; verdict is the tier of that probability; expected losses are the non-negative mean losses and differ by the mean lead; median and credible bounds are read at the quantile positions of the sorted uplifts, are ordered, and the lower bound is positive when the variant won every round |
| Analysis.Validate | script.js:418-433 | no error iff the control and every variant have conversions within visitors and there is a variant; otherwise the first failing check in the code's order, naming the first offending variant |
| Analysis.SelectBest | script.js:437-447 | the chosen variant has the highest conversion rate and no earlier variant reaches it |
| Analysis.EarliestBestUnique | script.js:443 | the earliest best position is unique |
| Analysis.AnalyzeTest | script.js:384-468 | rejected exactly when validation fails, with the error validation reports; otherwise the earliest best variant and its rate |

## Left out

- The page: reading the form, `parseFloat`/`parseInt`, writing results, `toFixed`
  formatting, `updateRecommendation`, alerts, and showing or hiding sections.
- `window.analyzedVariantLabel`, variant labels and the analysis header text.
- `normalCDF` (script.js:136-142): a floating-point polynomial approximation; the
  p-value it yields is an input of `Frequentist.AnalyzeFrequentist`.
- `Math.sqrt`: roots are inputs constrained by `Frequentist.IsSquareRoot`.
- `betaRandom`, `gammaRandom`, `normalRandom` (script.js:269-310): random sampling;
  their outputs are the `draws` given to `Bayesian.AnalyzeBayesian`, and
  `Bayesian.Posterior` states the parameters they are drawn with.
- The branch of `analyzeTest` on the selected method (script.js:461-465), which
  only calls one of the two analyses with the chosen variant's counts.
- IEEE 754 rounding, `NaN` and `Infinity`: arithmetic is exact. Where the code
  would divide by zero, the model requires the divisor to be non-zero (zero
  visitors, zero control conversions, zero baseline or effect, zero traffic,
  zero Monte Carlo rounds).
- A zero standard error in the z statistic (script.js:224): when both arms convert
  at 0% or both at 100%, the pooled rate is 0 or 1, the standard error is 0 and
  the code computes `0 / 0`, a `NaN` z whose `NaN` p-value fails `pValue < 0.05`,
  so the page reports "not significant". `Frequentist.ZStatistic` requires a
  positive standard error and does not model that path.
- A zero control draw in a Monte Carlo round (script.js:337): the code would divide
  by it; `Bayesian.Uplifts` and `Bayesian.AnalyzeBayesian` require every control
  draw to be positive (`Bayesian.PositiveControls`), which a Beta variate with
  positive parameters is with probability 1.
- Analysis.SelectBest: compares exact rational rates, so near-ties that
  floating-point division would order one way may be ordered differently.
- Sorting.SortAscending: the JavaScript engine's own sort algorithm is not
  visible; an insertion sort stands in for it, and `Sorting.SortedPermutationUnique`
  shows every correct ascending sort gives the same sequence.
- A zero relative effect: the code does not reject it (it divides by a zero
  squared effect); the model follows the code and requires a non-zero effect
  rather than adding an input error the code does not have.
- SampleSize.LargerEffectNeedsFewerSamples: stated only for a positive baseline,
  positive effects and a pooled rate of at most 1. For negative effects the
  sample size is not monotone in the effect: with baseline 0.05, confidence 0.95
  and power 0.80, an effect of -0.2 needs 6604 visitors per variant and an
  effect of -0.1 needs 27810.
