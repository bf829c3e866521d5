/** The two-proportion z-test of `analyzeTestFrequentist`, without its writes to
    the page. The two square roots it takes are supplied by the caller together with
    the quantity they are the root of, and the p-value (which the source obtains
    from a polynomial approximation of the normal distribution) is an input. */
module Frequentist {
  import opened Numeric
  import opened Arms

  /** A p-value below this is significant. */
  const SignificanceLevel: real := 0.05

  /** The two-sided 95% critical value used for the confidence interval. */
  const CriticalValue: real := 1.96

  /** `r` is `Math.sqrt(x)`. */
  predicate IsSquareRoot(r: real, x: real) {
    0.0 <= r && Square(r) == x
  }

  /** The conversion rate of both arms together. */
  function PooledRate(control: Arm, variant: Arm): real
    requires control.visitors > 0 && variant.visitors > 0
  {
    (control.conversions + variant.conversions) as real / (control.visitors + variant.visitors) as real
  }

  /** The variance under the null hypothesis, whose root is the z-test's standard error. */
  function PooledVariance(control: Arm, variant: Arm): real
    requires control.visitors > 0 && variant.visitors > 0
  {
    Spread(PooledRate(control, variant)) * (1.0 / control.visitors as real + 1.0 / variant.visitors as real)
  }

  /** The variance of the difference of the two rates, whose root gives the margin
      of the confidence interval. */
  function UpliftVariance(control: Arm, variant: Arm): real
    requires control.visitors > 0 && variant.visitors > 0
  {
    Spread(Rate(control)) / control.visitors as real + Spread(Rate(variant)) / variant.visitors as real
  }

  /** The pooled rate lies between the two arms' rates: it is their mean weighted
      by visitors. */
  lemma PooledRateBetween(control: Arm, variant: Arm)
    requires control.visitors > 0 && variant.visitors > 0
    ensures Rate(control) <= Rate(variant) ==> Rate(control) <= PooledRate(control, variant) <= Rate(variant)
    ensures Rate(variant) <= Rate(control) ==> Rate(variant) <= PooledRate(control, variant) <= Rate(control)
  {
    var a := control.visitors as real;
    var b := variant.visitors as real;
    var m := PooledRate(control, variant);
    assert m * (a + b) == Rate(control) * a + Rate(variant) * b;
    WeightedMeanBetween(Rate(control), Rate(variant), a, b, m);
  }

  /** For arms whose conversions are within their visitors both variances are
      non-negative, so the square roots the test takes exist. */
  lemma VariancesNonNegative(control: Arm, variant: Arm)
    requires control.visitors > 0 && variant.visitors > 0
    requires 0 <= control.conversions && ConversionsWithinVisitors(control)
    requires 0 <= variant.conversions && ConversionsWithinVisitors(variant)
    ensures 0.0 <= PooledVariance(control, variant)
    ensures 0.0 <= UpliftVariance(control, variant)
  {
    var a := control.visitors as real;
    var b := variant.visitors as real;
    PooledRateBetween(control, variant);
    var spread := Spread(PooledRate(control, variant));
    QuotientSign(1.0, a);
    QuotientSign(1.0, b);
    MulMonotone(0.0, spread, 1.0 / a + 1.0 / b);
    QuotientSign(Spread(Rate(control)), a);
    QuotientSign(Spread(Rate(variant)), b);
  }

  /** The z statistic `(pVariant - pControl) / se`. The source does not guard a zero
      standard error, so it must be positive here. */
  function ZStatistic(control: Arm, variant: Arm, se: real): (z: real)
    requires control.visitors > 0 && variant.visitors > 0
    requires 0.0 < se && IsSquareRoot(se, PooledVariance(control, variant))
    ensures z * se == Rate(variant) - Rate(control)
    ensures z > 0.0 <==> Rate(variant) > Rate(control)
    ensures z < 0.0 <==> Rate(variant) < Rate(control)
  {
    QuotientSign(Rate(variant) - Rate(control), se);
    (Rate(variant) - Rate(control)) / se
  }

  /** The three outcomes the verdict distinguishes. */
  datatype Verdict = Better | Worse | NotSignificant

  /** The verdict: significant when the p-value is below 0.05, and then better or
      worse by the sign of the uplift. */
  function Decide(pValue: real, uplift: real): (v: Verdict)
    ensures v == Better <==> pValue < SignificanceLevel && uplift > 0.0
    ensures v == Worse <==> pValue < SignificanceLevel && uplift <= 0.0
    ensures v == NotSignificant <==> pValue >= SignificanceLevel
  {
    if pValue < SignificanceLevel then
      if uplift > 0.0 then Better else Worse
    else
      NotSignificant
  }

  /** What the frequentist analysis reports, in percent or percentage points. */
  datatype FrequentistResult = FrequentistResult(
    uplift: real,
    absoluteDifference: real,
    ciLower: real,
    ciUpper: real,
    verdict: Verdict)

  /** `analyzeTestFrequentist`: relative uplift, absolute difference, the 95%
      confidence interval of the uplift, and the verdict for a given p-value. The
      source divides by the control rate without a guard, so it must be positive. */
  function AnalyzeFrequentist(control: Arm, variant: Arm, seUplift: real, pValue: real): (r: FrequentistResult)
    requires control.visitors > 0 && variant.visitors > 0 && control.conversions > 0
    requires IsSquareRoot(seUplift, UpliftVariance(control, variant))
    ensures r.uplift > 0.0 <==> Rate(variant) > Rate(control)
    ensures r.uplift < 0.0 <==> Rate(variant) < Rate(control)
    ensures r.absoluteDifference > 0.0 <==> Rate(variant) > Rate(control)
    ensures r.absoluteDifference < 0.0 <==> Rate(variant) < Rate(control)
    ensures r.absoluteDifference == (Rate(variant) - Rate(control)) * 100.0
    ensures r.uplift * Rate(control) == (Rate(variant) - Rate(control)) * 100.0
    ensures (r.ciUpper - r.uplift) * Rate(control) == CriticalValue * seUplift * 100.0
    ensures r.ciLower <= r.uplift <= r.ciUpper
    ensures r.ciUpper - r.uplift == r.uplift - r.ciLower
    ensures r.verdict == Better <==> pValue < SignificanceLevel && Rate(variant) > Rate(control)
    ensures r.verdict == Worse <==> pValue < SignificanceLevel && Rate(variant) <= Rate(control)
    ensures r.verdict == NotSignificant <==> pValue >= SignificanceLevel
  {
    var pControl := Rate(control);
    var pVariant := Rate(variant);
    var uplift := RelativeChange(pControl, pVariant);
    var absDiff := (pVariant - pControl) * 100.0;
    var margin := CriticalValue * seUplift;
    var ciLower := RelativeChange(pControl, pVariant - margin);
    var ciUpper := RelativeChange(pControl, pVariant + margin);
    RelativeChangeInterval(pControl, pVariant, margin);
    FrequentistResult(uplift, absDiff, ciLower, ciUpper, Decide(pValue, uplift))
  }
}
