/** One arm of an A/B test, as `analyzeTest` reads it from the form. */
module Arms {

  /** The visitor and conversion counts of the control or of one variant. They are
      parsed with `parseInt`, so nothing but the explicit checks bounds them. */
  datatype Arm = Arm(visitors: int, conversions: int)

  /** The validation rule `analyzeTest` applies to every arm. */
  predicate ConversionsWithinVisitors(a: Arm) {
    a.conversions <= a.visitors
  }

  /** The conversion rate `conversions / visitors`. */
  function Rate(a: Arm): (r: real)
    requires a.visitors > 0
    ensures r * a.visitors as real == a.conversions as real
    ensures r > 0.0 <==> a.conversions > 0
    ensures 0 <= a.conversions && ConversionsWithinVisitors(a) ==> 0.0 <= r <= 1.0
  {
    a.conversions as real / a.visitors as real
  }
}
