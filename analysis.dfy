/** The entry point `analyzeTest` without its page reads and writes: it validates
    the counts entered for the control and for every test variant, then picks the
    test variant with the highest conversion rate to compare against the control. */
module Analysis {
  import opened Arms

  datatype Option<T> = None | Some(value: T)

  /** Why the entered counts are refused, in the order the checks are made. */
  datatype InputError =
    | ControlConversionsExceedVisitors
    | VariantConversionsExceedVisitors(index: nat)
    | NoVariants

  /** What `analyzeTest` goes on with: either an input error, or the position and
      conversion rate of the variant chosen for the comparison. */
  datatype Outcome =
    | Rejected(error: InputError)
    | Compare(best: nat, bestRate: real)

  /** Every variant's conversions are within its visitors. */
  predicate AllWithin(variants: seq<Arm>) {
    forall j :: 0 <= j < |variants| ==> ConversionsWithinVisitors(variants[j])
  }

  /** Every variant has visitors, so its conversion rate is defined. */
  predicate AllVisited(variants: seq<Arm>) {
    forall j :: 0 <= j < |variants| ==> 0 < variants[j].visitors
  }

  /** Position `k` holds the highest conversion rate, and no earlier position
      reaches it. */
  predicate IsEarliestBest(variants: seq<Arm>, k: int)
    requires AllVisited(variants)
  {
    0 <= k < |variants|
    && (forall j :: 0 <= j < |variants| ==> Rate(variants[j]) <= Rate(variants[k]))
    && (forall j :: 0 <= j < k ==> Rate(variants[j]) < Rate(variants[k]))
  }

  /** The checks of `analyzeTest`, in its order: the control's counts, then each
      variant's in turn (the first offender is reported), then that there is at
      least one variant. */
  method Validate(control: Arm, variants: seq<Arm>) returns (e: Option<InputError>)
    ensures e == None <==> ConversionsWithinVisitors(control) && AllWithin(variants) && 0 < |variants|
    ensures e == Some(ControlConversionsExceedVisitors) <==> !ConversionsWithinVisitors(control)
    ensures e == Some(NoVariants) <==> ConversionsWithinVisitors(control) && |variants| == 0
    ensures forall k: nat :: e == Some(VariantConversionsExceedVisitors(k)) ==>
              ConversionsWithinVisitors(control)
              && k < |variants| && !ConversionsWithinVisitors(variants[k])
              && AllWithin(variants[..k])
  {
    if control.conversions > control.visitors {
      return Some(ControlConversionsExceedVisitors);
    }
    var i := 0;
    while i < |variants|
      invariant 0 <= i <= |variants|
      invariant AllWithin(variants[..i])
    {
      if variants[i].conversions > variants[i].visitors {
        return Some(VariantConversionsExceedVisitors(i));
      }
      i := i + 1;
    }
    assert variants[..i] == variants;
    if |variants| == 0 {
      return Some(NoVariants);
    }
    return None;
  }

  /** The scan for the best performer: a later variant replaces the current best
      only with a strictly higher conversion rate, so ties go to the earliest. */
  method SelectBest(variants: seq<Arm>) returns (best: nat, bestRate: real)
    requires 0 < |variants| && AllVisited(variants)
    ensures IsEarliestBest(variants, best)
    ensures bestRate == Rate(variants[best])
  {
    best := 0;
    bestRate := Rate(variants[0]);
    var i := 1;
    while i < |variants|
      invariant 1 <= i <= |variants|
      invariant best < i && bestRate == Rate(variants[best])
      invariant forall j :: 0 <= j < i ==> Rate(variants[j]) <= bestRate
      invariant forall j :: 0 <= j < best ==> Rate(variants[j]) < bestRate
    {
      var convRate := Rate(variants[i]);
      if convRate > bestRate {
        bestRate := convRate;
        best := i;
      }
      i := i + 1;
    }
  }

  /** The earliest best position is unique, so the scan's choice is determined by
      the rates alone. */
  lemma EarliestBestUnique(variants: seq<Arm>, k1: int, k2: int)
    requires AllVisited(variants)
    requires IsEarliestBest(variants, k1) && IsEarliestBest(variants, k2)
    ensures k1 == k2
  {
    assert Rate(variants[k1]) <= Rate(variants[k2]) <= Rate(variants[k1]);
  }

  /** Validation followed, when it passes, by the choice of the variant to compare
      with the control. Rates are only computed once validation has passed, so only
      then must every variant have visitors. */
  method AnalyzeTest(control: Arm, variants: seq<Arm>) returns (o: Outcome)
    requires ConversionsWithinVisitors(control) && AllWithin(variants) ==> AllVisited(variants)
    ensures o.Rejected? <==> !(ConversionsWithinVisitors(control) && AllWithin(variants) && 0 < |variants|)
    ensures o.Rejected? && o.error == ControlConversionsExceedVisitors <==> !ConversionsWithinVisitors(control)
    ensures o.Rejected? && o.error == NoVariants <==> ConversionsWithinVisitors(control) && |variants| == 0
    ensures o.Rejected? && o.error.VariantConversionsExceedVisitors? ==>
              ConversionsWithinVisitors(control)
              && o.error.index < |variants| && !ConversionsWithinVisitors(variants[o.error.index])
              && AllWithin(variants[..o.error.index])
    ensures o.Compare? ==> IsEarliestBest(variants, o.best) && o.bestRate == Rate(variants[o.best])
  {
    var e := Validate(control, variants);
    if e.Some? {
      return Rejected(e.value);
    }
    var best, bestRate := SelectBest(variants);
    return Compare(best, bestRate);
  }
}
