/** The sample-size planner: `calculateSampleSize` and `checkRecommendations`
    without their reads from and writes to the page. */
module SampleSize {
  import opened Numeric
  import opened NormalApprox

  /** Advisory thresholds of `checkRecommendations`. */
  const MinVisitorsPerVariant: int := 5000
  const MinDurationDays: int := 14
  const MaxDurationDays: int := 42

  /** The conversion rate a variant reaches when it improves on the baseline by the
      relative minimum detectable effect `mde`. */
  function VariantRate(baseline: real, mde: real): (v: real)
    ensures v - baseline == baseline * mde
  {
    baseline * (1.0 + mde)
  }

  /** The mean of the baseline and the variant rate. */
  function PooledRate(baseline: real, mde: real): real {
    (baseline + VariantRate(baseline, mde)) / 2.0
  }

  /** `(zAlpha + zBeta)^2 * pooled * (1 - pooled)`. */
  function Numerator(baseline: real, mde: real, confidence: real, power: real): real {
    Square(ZScore(confidence) + ZScore(power)) * Spread(PooledRate(baseline, mde))
  }

  /** `(variantRate - baseline)^2`, the squared absolute effect; it vanishes only
      when the baseline or the relative effect does. */
  function EffectSquared(baseline: real, mde: real): (e: real)
    ensures e == Square(baseline * mde)
    ensures baseline != 0.0 && mde != 0.0 <==> e > 0.0
  {
    MulNonzero(baseline, mde);
    Square(VariantRate(baseline, mde) - baseline)
  }

  /** The visitors needed per variant: the least whole number `n` with
      `n * (variantRate - baseline)^2 >= (zAlpha + zBeta)^2 * pooled * (1 - pooled)`.
      The source divides by the squared effect without a guard, so the effect must
      not vanish. */
  function SamplePerVariant(baseline: real, mde: real, confidence: real, power: real): (n: int)
    requires baseline != 0.0 && mde != 0.0
    ensures n as real * EffectSquared(baseline, mde) >= Numerator(baseline, mde, confidence, power)
    ensures (n as real - 1.0) * EffectSquared(baseline, mde) < Numerator(baseline, mde, confidence, power)
    ensures 0.0 < PooledRate(baseline, mde) < 1.0 ==> n >= 1
  {
    var num := Numerator(baseline, mde, confidence, power);
    var den := EffectSquared(baseline, mde);
    CeilOfQuotient(num, den);
    PositiveNumerator(baseline, mde, confidence, power);
    Ceil(num / den)
  }

  /** For a pooled rate strictly between 0 and 1 the numerator is positive. */
  lemma PositiveNumerator(baseline: real, mde: real, confidence: real, power: real)
    ensures 0.0 < PooledRate(baseline, mde) < 1.0 ==> 0.0 < Numerator(baseline, mde, confidence, power)
  {
    if 0.0 < PooledRate(baseline, mde) < 1.0 {
      MulPositive(Square(ZScore(confidence) + ZScore(power)), Spread(PooledRate(baseline, mde)));
    }
  }

  /** `Math.ceil(totalSample / dailyTraffic)`: for positive traffic, the least number
      of days whose traffic covers the total sample. */
  function DurationDays(totalSample: int, dailyTraffic: int): (d: int)
    requires dailyTraffic != 0
    ensures dailyTraffic > 0 ==> d * dailyTraffic >= totalSample && (d - 1) * dailyTraffic < totalSample
    ensures dailyTraffic < 0 ==> d * dailyTraffic <= totalSample && (d - 1) * dailyTraffic > totalSample
  {
    if dailyTraffic > 0 then
      CeilOfQuotient(totalSample as real, dailyTraffic as real);
      Ceil(totalSample as real / dailyTraffic as real)
    else
      assert totalSample as real / dailyTraffic as real == (-totalSample) as real / (-dailyTraffic) as real;
      CeilOfQuotient((-totalSample) as real, (-dailyTraffic) as real);
      Ceil(totalSample as real / dailyTraffic as real)
  }

  /** The three design advisories shown beside a plan. */
  datatype Recommendations = Recommendations(minVisitorsMet: bool, minDurationMet: bool, maxDurationMet: bool)

  /** `checkRecommendations`: at least 5000 visitors per variant, at least 14 days,
      at most 42 days. A duration is never both too short and too long. */
  function CheckRecommendations(samplePerVariant: int, duration: int): (r: Recommendations)
    ensures r.minVisitorsMet <==> samplePerVariant >= MinVisitorsPerVariant
    ensures r.minDurationMet <==> duration >= MinDurationDays
    ensures r.maxDurationMet <==> duration <= MaxDurationDays
    ensures r.minDurationMet || r.maxDurationMet
    ensures r.minDurationMet && r.maxDurationMet <==> MinDurationDays <= duration <= MaxDurationDays
  {
    Recommendations(samplePerVariant >= MinVisitorsPerVariant, duration >= MinDurationDays, duration <= MaxDurationDays)
  }

  /** What the planner reports. */
  datatype PlanningResult = PlanningResult(
    samplePerVariant: int,
    totalSample: int,
    durationDays: int,
    expectedVariantRate: real,
    recommendations: Recommendations)

  /** `calculateSampleSize` with `checkRecommendations`. */
  function Plan(baseline: real, mde: real, confidence: real, power: real, variants: int, dailyTraffic: int): (r: PlanningResult)
    requires baseline != 0.0 && mde != 0.0 && dailyTraffic != 0
    ensures r.samplePerVariant == SamplePerVariant(baseline, mde, confidence, power)
    ensures r.totalSample == r.samplePerVariant * variants
    ensures dailyTraffic > 0 ==> r.durationDays * dailyTraffic >= r.totalSample
    ensures dailyTraffic > 0 ==> (r.durationDays - 1) * dailyTraffic < r.totalSample
    ensures r.expectedVariantRate - baseline == baseline * mde
    ensures r.recommendations.minVisitorsMet <==> r.samplePerVariant >= MinVisitorsPerVariant
    ensures r.recommendations.minDurationMet <==> r.durationDays >= MinDurationDays
    ensures r.recommendations.maxDurationMet <==> r.durationDays <= MaxDurationDays
    ensures r.recommendations.minDurationMet || r.recommendations.maxDurationMet
  {
    var variantRate := VariantRate(baseline, mde);
    var samplePerVariant := SamplePerVariant(baseline, mde, confidence, power);
    var totalSample := samplePerVariant * variants;
    var duration := DurationDays(totalSample, dailyTraffic);
    PlanningResult(samplePerVariant, totalSample, duration, variantRate,
                   CheckRecommendations(samplePerVariant, duration))
  }

  /** A stricter confidence level or a higher power never lowers the sample size,
      as long as the pooled rate is a proportion. */
  lemma StricterLevelsNeedMoreSamples(baseline: real, mde: real, confidence1: real, confidence2: real, power1: real, power2: real)
    requires baseline != 0.0 && mde != 0.0
    requires 0.0 <= PooledRate(baseline, mde) <= 1.0
    requires ZScore(confidence1) <= ZScore(confidence2) && ZScore(power1) <= ZScore(power2)
    ensures SamplePerVariant(baseline, mde, confidence1, power1) <= SamplePerVariant(baseline, mde, confidence2, power2)
  {
    NumeratorMonotone(baseline, mde, confidence1, confidence2, power1, power2);
    var den := EffectSquared(baseline, mde);
    var num1 := Numerator(baseline, mde, confidence1, power1);
    var num2 := Numerator(baseline, mde, confidence2, power2);
    QuotientMonotone(num1, num2, den);
    CeilMonotone(num1 / den, num2 / den);
  }

  /** The numerator grows with the two critical values. */
  lemma NumeratorMonotone(baseline: real, mde: real, confidence1: real, confidence2: real, power1: real, power2: real)
    requires 0.0 <= PooledRate(baseline, mde) <= 1.0
    requires ZScore(confidence1) <= ZScore(confidence2) && ZScore(power1) <= ZScore(power2)
    ensures Numerator(baseline, mde, confidence1, power1) <= Numerator(baseline, mde, confidence2, power2)
  {
    var s1 := ZScore(confidence1) + ZScore(power1);
    var s2 := ZScore(confidence2) + ZScore(power2);
    SquareMonotone(s1, s2);
    MulMonotone(Square(s1), Square(s2), Spread(PooledRate(baseline, mde)));
  }

  /** Lowering the confidence level from 0.99 through 0.95 to 0.90 never raises the
      sample size. */
  lemma LowerConfidenceNeedsFewerSamples(baseline: real, mde: real, power: real)
    requires baseline != 0.0 && mde != 0.0
    requires 0.0 <= PooledRate(baseline, mde) <= 1.0
    ensures SamplePerVariant(baseline, mde, 0.90, power) <= SamplePerVariant(baseline, mde, 0.95, power)
    ensures SamplePerVariant(baseline, mde, 0.95, power) <= SamplePerVariant(baseline, mde, 0.99, power)
  {
    StricterLevelsNeedMoreSamples(baseline, mde, 0.90, 0.95, power, power);
    StricterLevelsNeedMoreSamples(baseline, mde, 0.95, 0.99, power, power);
  }

  /** For a positive baseline, a larger positive effect never raises the sample size,
      as long as the larger effect's pooled rate is still a proportion. */
  lemma LargerEffectNeedsFewerSamples(baseline: real, mde1: real, mde2: real, confidence: real, power: real)
    requires 0.0 < baseline && 0.0 < mde1 <= mde2
    requires PooledRate(baseline, mde2) <= 1.0
    ensures SamplePerVariant(baseline, mde2, confidence, power) <= SamplePerVariant(baseline, mde1, confidence, power)
  {
    QuotientFalls(baseline, mde1, mde2, confidence, power);
    CeilMonotone(Numerator(baseline, mde2, confidence, power) / EffectSquared(baseline, mde2),
                 Numerator(baseline, mde1, confidence, power) / EffectSquared(baseline, mde1));
  }

  /** The quotient `SamplePerVariant` rounds up does not grow with a positive effect. */
  lemma QuotientFalls(baseline: real, mde1: real, mde2: real, confidence: real, power: real)
    requires 0.0 < baseline && 0.0 < mde1 <= mde2
    requires PooledRate(baseline, mde2) <= 1.0
    ensures EffectSquared(baseline, mde1) > 0.0 && EffectSquared(baseline, mde2) > 0.0
    ensures Numerator(baseline, mde2, confidence, power) / EffectSquared(baseline, mde2)
         <= Numerator(baseline, mde1, confidence, power) / EffectSquared(baseline, mde1)
  {
    SpreadsCrossOrdered(baseline, mde1, mde2);
    ScaledQuotient(Square(ZScore(confidence) + ZScore(power)),
                   Spread(PooledRate(baseline, mde1)), Spread(PooledRate(baseline, mde2)),
                   EffectSquared(baseline, mde1), EffectSquared(baseline, mde2),
                   Numerator(baseline, mde1, confidence, power), Numerator(baseline, mde2, confidence, power));
  }

  /** The spreads of the pooled rates and the squared effects of two positive
      effects `mde1 <= mde2` are ordered crosswise. */
  lemma SpreadsCrossOrdered(baseline: real, mde1: real, mde2: real)
    requires 0.0 < baseline && 0.0 < mde1 <= mde2
    requires PooledRate(baseline, mde2) <= 1.0
    ensures EffectSquared(baseline, mde1) > 0.0 && EffectSquared(baseline, mde2) > 0.0
    ensures Spread(PooledRate(baseline, mde2)) / EffectSquared(baseline, mde2)
         <= Spread(PooledRate(baseline, mde1)) / EffectSquared(baseline, mde1)
  {
    PlanTerms(baseline, mde1);
    PlanTerms(baseline, mde2);
    RatioFalls(baseline, mde1, mde2, Spread(PooledRate(baseline, mde1)), Spread(PooledRate(baseline, mde2)),
               EffectSquared(baseline, mde1), EffectSquared(baseline, mde2));
  }

  /** `SpreadsCrossOrdered` for spreads `s` and squared effects `e` given by name, as
      polynomials in the baseline `b` and the effects `m1 <= m2`. */
  lemma RatioFalls(b: real, m1: real, m2: real, s1: real, s2: real, e1: real, e2: real)
    requires 0.0 < b && 0.0 < m1 <= m2 && b + b * m2 / 2.0 <= 1.0
    requires s1 == (b + b * m1 / 2.0) * (1.0 - (b + b * m1 / 2.0))
    requires s2 == (b + b * m2 / 2.0) * (1.0 - (b + b * m2 / 2.0))
    requires e1 == Square(b * m1) && e2 == Square(b * m2)
    ensures 0.0 < e1 && 0.0 < e2
    ensures s2 / e2 <= s1 / e1
  {
    MulMonotone(m1, m2, b);
    MulPositive(m1, b);
    CrossTerms(b, b * m1, b * m2, s1, s2, e1, e2);
    CrossQuotient(s1, s2, e1, e2);
  }

  /** Ordered ratios `s / e` stay ordered after scaling the `s` by a non-negative `z`. */
  lemma ScaledQuotient(z: real, s1: real, s2: real, e1: real, e2: real, n1: real, n2: real)
    requires 0.0 <= z && 0.0 < e1 && 0.0 < e2 && s2 / e2 <= s1 / e1
    requires n1 == z * s1 && n2 == z * s2
    ensures n2 / e2 <= n1 / e1
  {
    MulMonotone(s2 / e2, s1 / e1, z);
    assert n1 / e1 == (s1 / e1) * z;
    assert n2 / e2 == (s2 / e2) * z;
  }

  /** The spread of the pooled rate as a polynomial in the baseline and the
      absolute effect `baseline * mde`. */
  lemma PlanTerms(baseline: real, mde: real)
    ensures Spread(PooledRate(baseline, mde))
         == (baseline + baseline * mde / 2.0) * (1.0 - (baseline + baseline * mde / 2.0))
  {
  }

  /** `CrossOrdered` for spreads and squared effects given by name. */
  lemma CrossTerms(b: real, x1: real, x2: real, s1: real, s2: real, e1: real, e2: real)
    requires 0.0 < b && 0.0 < x1 <= x2 && b + x2 / 2.0 <= 1.0
    requires s1 == (b + x1 / 2.0) * (1.0 - (b + x1 / 2.0)) && s2 == (b + x2 / 2.0) * (1.0 - (b + x2 / 2.0))
    requires e1 == Square(x1) && e2 == Square(x2)
    ensures s2 * e1 <= s1 * e2
  {
    CrossOrdered(b, x1, x2);
  }

  /** With pooled rate `b + x / 2` and squared effect `Square(x)` for absolute effects
      `0 < x1 <= x2`, the spread-to-squared-effect ratio does not grow. */
  lemma CrossOrdered(b: real, x1: real, x2: real)
    requires 0.0 < b && 0.0 < x1 <= x2 && b + x2 / 2.0 <= 1.0
    ensures (b + x2 / 2.0) * (1.0 - (b + x2 / 2.0)) * Square(x1)
         <= (b + x1 / 2.0) * (1.0 - (b + x1 / 2.0)) * Square(x2)
  {
    var l := b * (1.0 - b) * (x1 + x2) + x1 * x2 * (0.5 - b);
    GapFactorNonNegative(b, x1, x2);
    MulMonotone(0.0, x2 - x1, l);
    CrossIdentity(b, x1, x2);
  }

  /** The difference of the two cross products, factored. */
  lemma CrossIdentity(b: real, x1: real, x2: real)
    ensures (b + x1 / 2.0) * (1.0 - (b + x1 / 2.0)) * Square(x2) - (b + x2 / 2.0) * (1.0 - (b + x2 / 2.0)) * Square(x1)
         == (x2 - x1) * (b * (1.0 - b) * (x1 + x2) + x1 * x2 * (0.5 - b))
  {
  }

  /** The second factor is non-negative: `1 - b` is at least `x2 / 2`. */
  lemma GapFactorNonNegative(b: real, x1: real, x2: real)
    requires 0.0 < b && 0.0 < x1 <= x2 && b + x2 / 2.0 <= 1.0
    ensures 0.0 <= b * (1.0 - b) * (x1 + x2) + x1 * x2 * (0.5 - b)
  {
    MulMonotone(x2 / 2.0, 1.0 - b, b * x1);
    MulMonotone(0.0, x1 * x2, 1.0 - b);
    MulMonotone(0.0, b * x2, 1.0 - b);
    MulMonotone(0.0, x2, b);
    MulMonotone(0.0, x1, x2);
  }
}
