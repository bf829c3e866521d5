/** The normal-distribution constants the planner uses. */
module NormalApprox {

  /** `zScore`: the critical value for a confidence or power level, looked up in a
      table of three levels; any other level falls back to the value for 0.95. */
  function ZScore(level: real): (z: real)
    ensures z == 1.645 <==> level == 0.90
    ensures z == 2.576 <==> level == 0.99
    ensures z == 1.96 <==> level != 0.90 && level != 0.99
    ensures 0.0 < z
  {
    if level == 0.90 then 1.645
    else if level == 0.95 then 1.96
    else if level == 0.99 then 2.576
    else 1.96
  }
}
