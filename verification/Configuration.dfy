/**
 Evaluator-set parameters of one recompute pass: the five criterion maxima
 (whole points, each configurable in 0..100) and the target price.
 */
module Configuration {

  /** Maxima of achievement, technical proposal, regional contribution, price
      and cost-reduction criteria, and the target price (hundred-million yen). */
  datatype Config = Config(
    maxAchievement: int,
    maxProposal: int,
    maxRegional: int,
    maxPrice: int,
    maxReduction: int,
    target: real)

  /** Every maximum lies in the range the settings panel offers. */
  predicate ValidConfig(c: Config) {
    && 0 <= c.maxAchievement <= 100
    && 0 <= c.maxProposal <= 100
    && 0 <= c.maxRegional <= 100
    && 0 <= c.maxPrice <= 100
    && 0 <= c.maxReduction <= 100
  }

  /** Price at or below which the linear-deduction model awards full marks:
      eighty percent of the target price. */
  function FullScorePrice(target: real): (threshold: real)
    ensures 0.0 < target ==> 0.0 < threshold < target
    ensures target == 0.0 ==> threshold == 0.0
    ensures target < 0.0 ==> target < threshold < 0.0
    ensures 5.0 * threshold == 4.0 * target
  {
    target * 0.8
  }

  /** Sum of the five criterion maxima, the best total any bidder can reach. */
  function TotalMaxScore(c: Config): (total: int)
    ensures ValidConfig(c) ==> 0 <= total <= 500
    ensures ValidConfig(c) ==> c.maxPrice <= total
  {
    c.maxAchievement + c.maxProposal + c.maxRegional + c.maxPrice + c.maxReduction
  }
}
