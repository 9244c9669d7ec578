/** Product and division facts about reals that the verifier needs spelled out. */
module Quotients {
  lemma PositiveProduct(x: real, y: real)
    requires x > 0.0 && y > 0.0
    ensures x * y > 0.0
  {
  }

  lemma MeanWithin(total: real, count: real, low: real, high: real)
    requires count > 0.0 && count * low <= total <= count * high
    ensures low <= total / count <= high
  {
  }

  lemma ShareIsPercentage(part: real, whole: real)
    requires 0.0 <= part <= whole && whole > 0.0
    ensures 0.0 <= part / whole * 100.0 <= 100.0
  {
  }

  lemma RatioAboveOne(x: real, y: real)
    requires y > 0.0
    ensures x / y > 1.0 <==> x > y
  {
  }
}
