/**
 Worked examples: the default settings (maxima 10/90/10/90/25, target 420)
 and the three-bidder starting table, scored under both models.
 */
module Scenarios {
  import opened Configuration
  import opened Bidders
  import opened PriceModels
  import opened Engine
  import opened Ranking

  /** The default settings of the side panel. */
  function DefaultConfig(): (c: Config)
    ensures ValidConfig(c) && TotalMaxScore(c) == 225
  {
    Config(10, 90, 10, 90, 25, 420.0)
  }

  /** The starting table: three bidders whose criterion scores are fixed
      fractions of the maxima, bidding 420, 380 and 340. */
  function InitialTable(c: Config): (rows: seq<Bidder>)
    ensures |rows| == 3
    ensures ValidConfig(c) ==> ValidTable(c, rows)
  {
    var m1 := c.maxAchievement as real;
    var m2 := c.maxProposal as real;
    var m3 := c.maxRegional as real;
    var m5 := c.maxReduction as real;
    [ Bidder("A社", m1, m2 * 0.94, m3, 420.0, 0.0, m5, 0.0),
      Bidder("B社", m1 * 0.8, m2 * 0.77, m3 * 0.8, 380.0, 0.0, m5, 0.0),
      Bidder("C社", m1 * 0.6, m2 * 0.61, m3 * 0.6, 340.0, 0.0, m5, 0.0) ]
  }

  /** Linear deduction with target 420 and maximum 90: the full-score price is
      336; 420 scores 0, 300 scores 90, 380 scores 40/84 of 90. */
  lemma StandardExamples()
    ensures FullScorePrice(420.0) == 336.0
    ensures StandardPriceScore(420.0, 420.0, 90.0) == 0.0
    ensures StandardPriceScore(300.0, 420.0, 90.0) == 90.0
    ensures StandardPriceScore(380.0, 420.0, 90.0) == 40.0 / 84.0 * 90.0
    ensures StandardPriceScore(340.0, 420.0, 90.0) == 80.0 / 84.0 * 90.0
  {
  }

  /** Minimum ratio with prices 420, 380, 340 and maximum 90: the minimum is
      340, which scores 90; the others score 340/380 and 340/420 of 90. */
  lemma MinRatioExamples()
    ensures MinPrice([420.0, 380.0, 340.0]) == 340.0
    ensures MinRatioPriceScore(340.0, 340.0, 90.0) == 90.0
    ensures MinRatioPriceScore(380.0, 340.0, 90.0) == 340.0 / 380.0 * 90.0
    ensures MinRatioPriceScore(420.0, 340.0, 90.0) == 340.0 / 420.0 * 90.0
    ensures MinPrice([0.0, 0.0]) == 0.0
  {
  }

  /** Under linear deduction the starting table is won by the lowest bid, C. */
  lemma InitialTableStandardWinner()
    ensures Rank(Recompute(DefaultConfig(), InitialTable(DefaultConfig()), Standard))
            == Winner("C社", 6.0 + 54.9 + 6.0 + 80.0 / 84.0 * 90.0 + 25.0)
  {
    var r := Recompute(DefaultConfig(), InitialTable(DefaultConfig()), Standard);
    StandardExamples();
    assert r[0].total == 10.0 + 84.6 + 10.0 + 0.0 + 25.0;
    assert r[1].total == 8.0 + 69.3 + 8.0 + 40.0 / 84.0 * 90.0 + 25.0;
    assert r[2].total == 6.0 + 54.9 + 6.0 + 80.0 / 84.0 * 90.0 + 25.0;
    var ts := Totals(r);
    assert ts[0] < ts[2] && ts[1] < ts[2];
    assert IsFirstMax(ts, 2);
    RankEarliestOnTie(r, 2);
  }

  /** Under the minimum-ratio model the starting table's minimum is C's 340,
      so C scores full marks and A and B score 340/420 and 340/380 of 90. */
  lemma InitialTableMinRatioTotals()
    ensures var r := Recompute(DefaultConfig(), InitialTable(DefaultConfig()), MinimumRatio);
            && |r| == 3
            && r[0].name == "A社"
            && r[0].total == 10.0 + 84.6 + 10.0 + 340.0 / 420.0 * 90.0 + 25.0
            && r[1].total == 8.0 + 69.3 + 8.0 + 340.0 / 380.0 * 90.0 + 25.0
            && r[2].total == 6.0 + 54.9 + 6.0 + 90.0 + 25.0
  {
    var rows := InitialTable(DefaultConfig());
    var r := Recompute(DefaultConfig(), rows, MinimumRatio);
    assert rows[0].price == 420.0 && rows[1].price == 380.0 && rows[2].price == 340.0;
    var ps := Prices(rows);
    assert ps[0] == 420.0 && ps[1] == 380.0 && ps[2] == 340.0;
    assert ps == [420.0, 380.0, 340.0];
    MinRatioExamples();
    assert r[0].priceScore == 340.0 / 420.0 * 90.0;
    assert r[1].priceScore == 340.0 / 380.0 * 90.0;
    assert r[2].priceScore == 90.0;
  }

  /** Under the minimum-ratio model the same table is won by A: its strong
      technical score outweighs its higher price. */
  lemma InitialTableMinRatioWinner()
    ensures Rank(Recompute(DefaultConfig(), InitialTable(DefaultConfig()), MinimumRatio))
            == Winner("A社", 10.0 + 84.6 + 10.0 + 340.0 / 420.0 * 90.0 + 25.0)
  {
    var r := Recompute(DefaultConfig(), InitialTable(DefaultConfig()), MinimumRatio);
    InitialTableMinRatioTotals();
    var ts := Totals(r);
    assert ts[1] < ts[0] && ts[2] < ts[0];
    assert IsFirstMax(ts, 0);
    RankEarliestOnTie(r, 0);
  }

  /** Two bidders tied on the best total: the earlier row wins. */
  lemma TieGoesToEarliestRow()
    ensures Rank([ Bidder("A", 0.0, 0.0, 0.0, 0.0, 0.0, 0.0, 78.4),
                   Bidder("B", 0.0, 0.0, 0.0, 0.0, 0.0, 0.0, 78.4),
                   Bidder("C", 0.0, 0.0, 0.0, 0.0, 0.0, 0.0, 75.0) ])
            == Winner("A", 78.4)
  {
  }

  /** An empty table is neither recomputed nor ranked. */
  lemma EmptyTable(c: Config, model: PriceModel)
    ensures Recompute(c, [], model) == []
    ensures Rank([]) == NoWinner
  {
  }

  /** Stored rows are checked only when they were entered: after the maxima are
      lowered to 0/0/0/90/0, the starting table breaks the new ranges and row
      A's recomputed total, 129.6, exceeds the new total maximum of 90. */
  lemma LoweredMaximaExceedTotal()
    ensures var c := Config(0, 0, 0, 90, 0, 420.0);
            && ValidConfig(c)
            && !ValidTable(c, InitialTable(DefaultConfig()))
            && Recompute(c, InitialTable(DefaultConfig()), Standard)[0].total > TotalMaxScore(c) as real
  {
    var c := Config(0, 0, 0, 90, 0, 420.0);
    var rows := InitialTable(DefaultConfig());
    assert !ValidBidder(c, rows[0]);
    StandardExamples();
    assert Recompute(c, rows, Standard)[0].total == 10.0 + 84.6 + 10.0 + 0.0 + 25.0;
  }
}
