/**
 One row of the evaluation table: a bidder's name, the four hand-entered
 criterion scores, the bid price, and the two derived columns (price score and
 total) that only the scoring engine writes.
 */
module Bidders {
  import opened Configuration

  datatype Bidder = Bidder(
    name: string,
    achievement: real,
    proposal: real,
    regional: real,
    price: real,
    priceScore: real,
    reduction: real,
    total: real)

  /** The editable columns accept only these values: each criterion score in
      [0, its maximum] and a non-negative price. The derived columns are free. */
  predicate ValidBidder(c: Config, b: Bidder) {
    && 0.0 <= b.achievement <= c.maxAchievement as real
    && 0.0 <= b.proposal <= c.maxProposal as real
    && 0.0 <= b.regional <= c.maxRegional as real
    && 0.0 <= b.price
    && 0.0 <= b.reduction <= c.maxReduction as real
  }

  predicate ValidTable(c: Config, rows: seq<Bidder>) {
    forall i :: 0 <= i < |rows| ==> ValidBidder(c, rows[i])
  }

  /** Two rows agree on every column an evaluator edits; they may differ only
      in the derived price-score and total columns. */
  predicate SameInputs(a: Bidder, b: Bidder) {
    && a.name == b.name
    && a.achievement == b.achievement
    && a.proposal == b.proposal
    && a.regional == b.regional
    && a.price == b.price
    && a.reduction == b.reduction
  }

  /** Sum of the five sub-scores of a row, taking the given price score. */
  function SubScoreSum(b: Bidder, priceScore: real): real {
    b.achievement + b.proposal + b.regional + priceScore + b.reduction
  }

  /** A row whose derived columns are consistent with its price score. */
  predicate TotalConsistent(b: Bidder) {
    b.total == SubScoreSum(b, b.priceScore)
  }

  /** Writes a price score into a row and the total that goes with it; every
      edited column is left as it was. */
  function Rescore(b: Bidder, priceScore: real): (r: Bidder)
    ensures SameInputs(r, b)
    ensures r.priceScore == priceScore
    ensures TotalConsistent(r)
  {
    b.(priceScore := priceScore, total := SubScoreSum(b, priceScore))
  }

  /** The price column of a table. */
  function Prices(rows: seq<Bidder>): (ps: seq<real>)
    ensures |ps| == |rows|
    ensures forall i :: 0 <= i < |rows| ==> ps[i] == rows[i].price
  {
    seq(|rows|, i requires 0 <= i < |rows| => rows[i].price)
  }

  /** The total column of a table. */
  function Totals(rows: seq<Bidder>): (ts: seq<real>)
    ensures |ts| == |rows|
    ensures forall i :: 0 <= i < |rows| ==> ts[i] == rows[i].total
  {
    seq(|rows|, i requires 0 <= i < |rows| => rows[i].total)
  }

  /** A valid row whose price score lies in [0, maxPrice] has a total within
      [0, TotalMaxScore]. */
  lemma TotalWithinMax(c: Config, b: Bidder)
    requires ValidConfig(c) && ValidBidder(c, b)
    requires 0.0 <= b.priceScore <= c.maxPrice as real
    requires TotalConsistent(b)
    ensures 0.0 <= b.total <= TotalMaxScore(c) as real
  {
  }
}
