/** The Monte Carlo Beta-Binomial comparison of `analyzeTestBayesian`, without its
    writes to the page. The random Beta variates are an input: `draws[i]` is the
    pair of conversion rates the sampler produced in round `i`, one from the control
    arm's posterior and one from the variant arm's. */
module Bayesian {
  import opened Numeric
  import opened Arms
  import opened Sorting

  /** The parameters of a Beta distribution. */
  datatype BetaParams = BetaParams(alpha: real, beta: real)

  /** The conjugate update of a `Beta(priorAlpha, priorBeta)` prior by one arm:
      conversions are successes, the other visitors failures. */
  function Posterior(priorAlpha: real, priorBeta: real, arm: Arm): (p: BetaParams)
    ensures p.alpha + p.beta == priorAlpha + priorBeta + arm.visitors as real
    ensures (0.0 < priorAlpha && 0.0 < priorBeta && 0 <= arm.conversions && ConversionsWithinVisitors(arm))
            ==> 0.0 < p.alpha && 0.0 < p.beta
  {
    BetaParams(priorAlpha + arm.conversions as real,
               priorBeta + (arm.visitors - arm.conversions) as real)
  }

  /** The mean `alpha / (alpha + beta)` of a Beta distribution. */
  function BetaMean(p: BetaParams): real
    requires 0.0 < p.alpha + p.beta
  {
    p.alpha / (p.alpha + p.beta)
  }

  /** The posterior mean lies between the prior mean and the observed conversion
      rate: the data pull the prior towards what was observed. */
  lemma PosteriorMeanBetween(priorAlpha: real, priorBeta: real, arm: Arm)
    requires 0.0 < priorAlpha && 0.0 < priorBeta
    requires 0 < arm.visitors && 0 <= arm.conversions && ConversionsWithinVisitors(arm)
    ensures var prior := BetaMean(BetaParams(priorAlpha, priorBeta));
            var post := BetaMean(Posterior(priorAlpha, priorBeta, arm));
            (prior <= Rate(arm) ==> prior <= post <= Rate(arm)) &&
            (Rate(arm) <= prior ==> Rate(arm) <= post <= prior)
  {
    var p := Posterior(priorAlpha, priorBeta, arm);
    var s0 := priorAlpha + priorBeta;
    var n := arm.visitors as real;
    var prior := BetaMean(BetaParams(priorAlpha, priorBeta));
    var post := BetaMean(p);
    var rate := Rate(arm);
    QuotientSign(priorAlpha, s0);
    QuotientSign(p.alpha, s0 + n);
    assert post * (s0 + n) == prior * s0 + rate * n;
    WeightedMeanBetween(prior, rate, s0, n, post);
  }

  /** One Monte Carlo round: a conversion rate drawn for each arm. */
  datatype Draw = Draw(control: real, variant: real)

  /** Every control draw is positive, as a Beta variate is; the relative uplift
      divides by it. */
  predicate PositiveControls(draws: seq<Draw>) {
    forall i :: 0 <= i < |draws| ==> 0.0 < draws[i].control
  }

  /** The round counts towards "variant beats control". */
  predicate VariantWins(d: Draw) {
    d.variant > d.control
  }

  /** The number of rounds the variant won. */
  function Wins(draws: seq<Draw>): (w: nat)
    ensures w <= |draws|
  {
    if draws == [] then 0
    else Wins(draws[..|draws| - 1]) + (if VariantWins(draws[|draws| - 1]) then 1 else 0)
  }

  /** The variant won every round exactly when the tally reaches the number of
      rounds. */
  lemma {:induction false} WinsAll(draws: seq<Draw>)
    ensures Wins(draws) == |draws| <==> forall i :: 0 <= i < |draws| ==> VariantWins(draws[i])
  {
    if draws != [] {
      var init := draws[..|draws| - 1];
      WinsAll(init);
      assert forall i :: 0 <= i < |init| ==> init[i] == draws[i];
    }
  }

  /** The variant won no round exactly when the tally is zero. */
  lemma {:induction false} WinsNone(draws: seq<Draw>)
    ensures Wins(draws) == 0 <==> forall i :: 0 <= i < |draws| ==> !VariantWins(draws[i])
  {
    if draws != [] {
      var init := draws[..|draws| - 1];
      WinsNone(init);
      assert forall i :: 0 <= i < |init| ==> init[i] == draws[i];
    }
  }

  /** The relative uplift of one round, in percent. */
  function Uplift(d: Draw): (u: real)
    requires 0.0 < d.control
    ensures u > 0.0 <==> VariantWins(d)
    ensures u < 0.0 <==> d.variant < d.control
    ensures u * d.control == (d.variant - d.control) * 100.0
  {
    RelativeChange(d.control, d.variant)
  }

  /** The uplift of every round, in round order. */
  function Uplifts(draws: seq<Draw>): (u: seq<real>)
    requires PositiveControls(draws)
    ensures |u| == |draws|
    ensures forall i :: 0 <= i < |draws| ==> u[i] == Uplift(draws[i])
  {
    if draws == [] then []
    else Uplifts(draws[..|draws| - 1]) + [Uplift(draws[|draws| - 1])]
  }

  /** What is given up in one round by keeping the control: the variant's lead,
      if any. */
  function LossIfControl(d: Draw): (l: real)
    ensures 0.0 <= l
    ensures l > 0.0 <==> VariantWins(d)
  {
    Max(0.0, d.variant - d.control)
  }

  /** What is given up in one round by shipping the variant: the control's lead,
      if any. */
  function LossIfVariant(d: Draw): (l: real)
    ensures 0.0 <= l
    ensures l > 0.0 <==> d.control > d.variant
  {
    Max(0.0, d.control - d.variant)
  }

  /** The two losses of a round differ by the variant's lead, and at most one of
      them is non-zero. */
  lemma LossDifference(d: Draw)
    ensures LossIfControl(d) - LossIfVariant(d) == d.variant - d.control
    ensures LossIfControl(d) == 0.0 || LossIfVariant(d) == 0.0
  {
  }

  function LossesIfControl(draws: seq<Draw>): (s: seq<real>)
    ensures |s| == |draws|
    ensures forall k :: 0 <= k < |s| ==> s[k] == LossIfControl(draws[k])
    ensures forall k :: 0 <= k < |s| ==> 0.0 <= s[k]
  {
    if draws == [] then []
    else LossesIfControl(draws[..|draws| - 1]) + [LossIfControl(draws[|draws| - 1])]
  }

  function LossesIfVariant(draws: seq<Draw>): (s: seq<real>)
    ensures |s| == |draws|
    ensures forall k :: 0 <= k < |s| ==> s[k] == LossIfVariant(draws[k])
    ensures forall k :: 0 <= k < |s| ==> 0.0 <= s[k]
  {
    if draws == [] then []
    else LossesIfVariant(draws[..|draws| - 1]) + [LossIfVariant(draws[|draws| - 1])]
  }

  /** The variant's lead in every round, in round order. */
  function Differences(draws: seq<Draw>): (s: seq<real>)
    ensures |s| == |draws|
    ensures forall k :: 0 <= k < |s| ==> s[k] == draws[k].variant - draws[k].control
  {
    if draws == [] then []
    else Differences(draws[..|draws| - 1]) + [draws[|draws| - 1].variant - draws[|draws| - 1].control]
  }

  /** Summed over the rounds, the loss of keeping the control minus the loss of
      shipping the variant is the variant's total lead. */
  lemma {:induction false} SumLossDifference(draws: seq<Draw>)
    ensures Sum(LossesIfControl(draws)) - Sum(LossesIfVariant(draws)) == Sum(Differences(draws))
  {
    if draws != [] {
      var init := draws[..|draws| - 1];
      var last := draws[|draws| - 1];
      SumLossDifference(init);
      LossDifference(last);
      assert LossesIfControl(draws)[..|draws| - 1] == LossesIfControl(init);
      assert LossesIfVariant(draws)[..|draws| - 1] == LossesIfVariant(init);
      assert Differences(draws)[..|draws| - 1] == Differences(init);
    }
  }

  /** The quantiles read off the sorted uplifts. */
  const MedianQuantile: real := 0.5
  const LowerQuantile: real := 0.025
  const UpperQuantile: real := 0.975

  /** The position `Math.floor(n * q)` of quantile `q` among `n` sorted samples;
      for every quantile below one it is a valid position. */
  function QuantileIndex(n: nat, q: real): (k: int)
    requires 1 <= n && 0.0 <= q < 1.0
    ensures 0 <= k < n
  {
    ScaledBelow(n as real, q);
    Floor(n as real * q)
  }

  lemma ScaledBelow(n: real, q: real)
    requires 1.0 <= n && 0.0 <= q < 1.0
    ensures 0.0 <= n * q < n
  {
    MulPositive(n, 1.0 - q);
    if q != 0.0 {
      MulPositive(n, q);
    }
  }

  /** The lower bound, the median and the upper bound are read from positions in
      that order. */
  lemma QuantileIndicesOrdered(n: nat)
    requires 1 <= n
    ensures QuantileIndex(n, LowerQuantile) <= QuantileIndex(n, MedianQuantile) <= QuantileIndex(n, UpperQuantile)
  {
    FloorMonotone(n as real * LowerQuantile, n as real * MedianQuantile);
    FloorMonotone(n as real * MedianQuantile, n as real * UpperQuantile);
  }

  /** The four verdicts, from the strongest for the variant down. */
  datatype Evidence = Strong | Moderate | ControlLikelyBetter | Inconclusive

  /** The verdict on a probability (in percent) that the variant beats the control. */
  function Classify(probability: real): (e: Evidence)
    ensures e == Strong <==> probability > 95.0
    ensures e == Moderate <==> 90.0 < probability <= 95.0
    ensures e == ControlLikelyBetter <==> probability < 50.0
    ensures e == Inconclusive <==> 50.0 <= probability <= 90.0
  {
    if probability > 95.0 then Strong
    else if probability > 90.0 then Moderate
    else if probability < 50.0 then ControlLikelyBetter
    else Inconclusive
  }

  /** How favourable a verdict is to the variant. */
  function Favour(e: Evidence): nat {
    match e
    case ControlLikelyBetter => 0
    case Inconclusive => 1
    case Moderate => 2
    case Strong => 3
  }

  /** A higher probability never gives a less favourable verdict. */
  lemma ClassifyMonotone(p: real, q: real)
    requires p <= q
    ensures Favour(Classify(p)) <= Favour(Classify(q))
  {
  }

  /** Everything the Bayesian analysis reports. Probabilities and uplifts are in
      percent; expected losses are rates. */
  datatype BayesianResult = BayesianResult(
    probabilityVariantBetter: real,
    expectedLossControl: real,
    expectedLossVariant: real,
    medianUplift: real,
    credibleLower: real,
    credibleUpper: real,
    evidence: Evidence)

  /** Readings at ordered positions of a sorted sequence are ordered. */
  lemma SortedReadings(t: seq<real>, a: int, b: int, c: int)
    requires Sorted(t) && 0 <= a <= b <= c < |t|
    ensures t[a] <= t[b] <= t[c]
  {
  }

  /** When the variant won every round, every uplift is positive. */
  lemma UpliftsPositive(draws: seq<Draw>)
    requires PositiveControls(draws)
    requires forall i :: 0 <= i < |draws| ==> VariantWins(draws[i])
    ensures forall i :: 0 <= i < |draws| ==> 0.0 < Uplifts(draws)[i]
  {
  }

  /** A rearrangement of positive numbers holds positive numbers only. */
  lemma PermutationKeepsPositive(t: seq<real>, s: seq<real>)
    requires multiset(t) == multiset(s)
    requires forall i :: 0 <= i < |s| ==> 0.0 < s[i]
    ensures forall k :: 0 <= k < |t| ==> 0.0 < t[k]
  {
    forall k | 0 <= k < |t|
      ensures 0.0 < t[k]
    {
      assert t[k] in multiset(t);
      assert t[k] in s;
    }
  }

  /** The probability is 100% exactly when the variant won every round, and 0%
      exactly when it won none. */
  lemma ProbabilityExtremes(draws: seq<Draw>)
    requires 1 <= |draws|
    ensures Percent(Wins(draws), |draws|) == 100.0 <==> forall i :: 0 <= i < |draws| ==> VariantWins(draws[i])
    ensures Percent(Wins(draws), |draws|) == 0.0 <==> forall i :: 0 <= i < |draws| ==> !VariantWins(draws[i])
  {
    WinsAll(draws);
    WinsNone(draws);
  }

  /** The readings at the three quantile positions of the sorted uplifts are
      ordered, and all positive when the variant won every round. */
  lemma QuantileReadings(sorted: seq<real>, draws: seq<Draw>)
    requires 1 <= |draws| && PositiveControls(draws)
    requires SortedPermutationOf(sorted, Uplifts(draws))
    ensures |sorted| == |draws|
    ensures sorted[QuantileIndex(|draws|, LowerQuantile)] <= sorted[QuantileIndex(|draws|, MedianQuantile)]
                                                          <= sorted[QuantileIndex(|draws|, UpperQuantile)]
    ensures (forall i :: 0 <= i < |draws| ==> VariantWins(draws[i]))
            ==> 0.0 < sorted[QuantileIndex(|draws|, LowerQuantile)]
  {
    assert |sorted| == |multiset(sorted)| == |multiset(Uplifts(draws))| == |draws|;
    var n := |draws|;
    QuantileIndicesOrdered(n);
    SortedReadings(sorted, QuantileIndex(n, LowerQuantile), QuantileIndex(n, MedianQuantile), QuantileIndex(n, UpperQuantile));
    if forall i :: 0 <= i < n ==> VariantWins(draws[i]) {
      UpliftsPositive(draws);
      PermutationKeepsPositive(sorted, Uplifts(draws));
    }
  }

  /** The two expected losses differ by the mean lead of the variant. */
  lemma ExpectedLossDifference(draws: seq<Draw>)
    requires 1 <= |draws|
    ensures Mean(LossesIfControl(draws)) - Mean(LossesIfVariant(draws)) == Mean(Differences(draws))
  {
    SumLossDifference(draws);
    MeanDifference(LossesIfControl(draws), LossesIfVariant(draws), Differences(draws));
  }

  /** The Monte Carlo loop: counts the rounds the variant won and collects each
      round's uplift (into a new array) and its two losses. */
  method Simulate(draws: seq<Draw>) returns (bBeatsA: nat, upliftSamples: array<real>, lossIfA: seq<real>, lossIfB: seq<real>)
    requires PositiveControls(draws)
    ensures fresh(upliftSamples)
    ensures bBeatsA == Wins(draws)
    ensures upliftSamples[..] == Uplifts(draws)
    ensures lossIfA == LossesIfControl(draws)
    ensures lossIfB == LossesIfVariant(draws)
  {
    var samples := |draws|;
    bBeatsA := 0;
    upliftSamples := new real[samples];
    lossIfA := [];
    lossIfB := [];
    var i := 0;
    while i < samples
      invariant 0 <= i <= samples
      invariant bBeatsA == Wins(draws[..i])
      invariant upliftSamples[..i] == Uplifts(draws[..i])
      invariant lossIfA == LossesIfControl(draws[..i])
      invariant lossIfB == LossesIfVariant(draws[..i])
    {
      var controlSample := draws[i].control;
      var variantSample := draws[i].variant;
      if variantSample > controlSample {
        bBeatsA := bBeatsA + 1;
      }
      upliftSamples[i] := Uplift(draws[i]);
      lossIfA := lossIfA + [LossIfControl(draws[i])];
      lossIfB := lossIfB + [LossIfVariant(draws[i])];
      assert draws[..i + 1][..i] == draws[..i];
      i := i + 1;
    }
    assert draws[..samples] == draws;
    assert upliftSamples[..samples] == upliftSamples[..];
  }

  /** The Monte Carlo tally over the given rounds, followed by the summary
      statistics and the verdict. */
  method AnalyzeBayesian(draws: seq<Draw>) returns (r: BayesianResult)
    requires 1 <= |draws| && PositiveControls(draws)
    ensures r.probabilityVariantBetter == Percent(Wins(draws), |draws|)
    ensures 0.0 <= r.probabilityVariantBetter <= 100.0
    ensures r.probabilityVariantBetter == 100.0 <==> forall i :: 0 <= i < |draws| ==> VariantWins(draws[i])
    ensures r.probabilityVariantBetter == 0.0 <==> forall i :: 0 <= i < |draws| ==> !VariantWins(draws[i])
    ensures r.evidence == Classify(r.probabilityVariantBetter)
    ensures r.expectedLossControl == Mean(LossesIfControl(draws)) && 0.0 <= r.expectedLossControl
    ensures r.expectedLossVariant == Mean(LossesIfVariant(draws)) && 0.0 <= r.expectedLossVariant
    ensures r.expectedLossControl - r.expectedLossVariant == Mean(Differences(draws))
    ensures exists t :: SortedPermutationOf(t, Uplifts(draws)) && |t| == |draws|
                        && r.medianUplift == t[QuantileIndex(|draws|, MedianQuantile)]
                        && r.credibleLower == t[QuantileIndex(|draws|, LowerQuantile)]
                        && r.credibleUpper == t[QuantileIndex(|draws|, UpperQuantile)]
    ensures r.credibleLower <= r.medianUplift <= r.credibleUpper
    ensures (forall i :: 0 <= i < |draws| ==> VariantWins(draws[i])) ==> 0.0 < r.credibleLower
  {
    var samples := |draws|;
    var bBeatsA, upliftSamples, lossIfA, lossIfB := Simulate(draws);
    var probBBeatsA := Percent(bBeatsA, samples);
    ProbabilityExtremes(draws);

    SortAscending(upliftSamples);
    var median := upliftSamples[QuantileIndex(samples, MedianQuantile)];
    var lower := upliftSamples[QuantileIndex(samples, LowerQuantile)];
    var upper := upliftSamples[QuantileIndex(samples, UpperQuantile)];
    ghost var sorted := upliftSamples[..];
    QuantileReadings(sorted, draws);
    assert median == sorted[QuantileIndex(samples, MedianQuantile)];
    assert lower == sorted[QuantileIndex(samples, LowerQuantile)];
    assert upper == sorted[QuantileIndex(samples, UpperQuantile)];

    var avgLossA := Mean(lossIfA);
    var avgLossB := Mean(lossIfB);
    ExpectedLossDifference(draws);

    r := BayesianResult(probBBeatsA, avgLossA, avgLossB, median, lower, upper, Classify(probBBeatsA));
  }
}
