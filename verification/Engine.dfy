/**
 The whole-table recompute: applies the selected price model to every row and
 writes the price score and the total (sum of the five sub-scores). Nothing
 else in a row changes, and an empty table is returned as it came.
 */
module Engine {
  import opened Configuration
  import opened Bidders
  import opened PriceModels

  /** The two price models. The application shows each on its own tab with its
      own table (evaluation90.py:57-60); nothing re-scores one tab's rows under
      the other model, so `model` names which tab's table is being scored. */
  datatype PriceModel = Standard | MinimumRatio

  /** Linear-deduction recompute: each row is scored on its own price alone. */
  function RecomputeStandard(c: Config, rows: seq<Bidder>): (r: seq<Bidder>)
    ensures |r| == |rows|
    ensures forall i :: 0 <= i < |rows| ==>
              && SameInputs(r[i], rows[i])
              && TotalConsistent(r[i])
              && r[i].priceScore == StandardPriceScore(rows[i].price, c.target, c.maxPrice as real)
  {
    seq(|rows|, i requires 0 <= i < |rows| =>
      Rescore(rows[i], StandardPriceScore(rows[i].price, c.target, c.maxPrice as real)))
  }

  /** Minimum-ratio recompute: the minimum positive price is taken over the
      whole table once, before any row is scored. */
  function RecomputeMinRatio(c: Config, rows: seq<Bidder>): (r: seq<Bidder>)
    ensures |r| == |rows|
    ensures forall i :: 0 <= i < |rows| ==>
              && SameInputs(r[i], rows[i])
              && TotalConsistent(r[i])
              && r[i].priceScore == MinRatioPriceScore(rows[i].price, MinPrice(Prices(rows)), c.maxPrice as real)
  {
    var minPrice := MinPrice(Prices(rows));
    seq(|rows|, i requires 0 <= i < |rows| =>
      Rescore(rows[i], MinRatioPriceScore(rows[i].price, minPrice, c.maxPrice as real)))
  }

  /** Recomputes the derived columns of the table under the selected model.
      An empty table is skipped. Every row keeps its edited columns, its total
      is the sum of its five sub-scores, and with a non-negative price maximum
      every price score lies in [0, maximum] under either model. */
  function Recompute(c: Config, rows: seq<Bidder>, model: PriceModel): (r: seq<Bidder>)
    ensures |rows| == 0 ==> r == rows
    ensures |r| == |rows|
    ensures forall i :: 0 <= i < |rows| ==> SameInputs(r[i], rows[i]) && TotalConsistent(r[i])
    ensures 0 <= c.maxPrice ==>
              forall i :: 0 <= i < |r| ==> 0.0 <= r[i].priceScore <= c.maxPrice as real
  {
    if |rows| == 0 then
      rows
    else
      match model
      case Standard => RecomputeStandard(c, rows)
      case MinimumRatio => RecomputeMinRatio(c, rows)
  }

  /** The recomputed table depends on the edited columns only: two tables that
      differ just in their derived columns recompute to the same table. */
  lemma RecomputeReadsOnlyInputs(c: Config, a: seq<Bidder>, b: seq<Bidder>, model: PriceModel)
    requires |a| == |b|
    requires forall i :: 0 <= i < |a| ==> SameInputs(a[i], b[i])
    ensures Recompute(c, a, model) == Recompute(c, b, model)
  {
    if |a| > 0 {
      assert Prices(a) == Prices(b);
      var ra := Recompute(c, a, model);
      var rb := Recompute(c, b, model);
      forall i | 0 <= i < |a|
        ensures ra[i] == rb[i]
      {
        assert a[i].(priceScore := 0.0, total := 0.0) == b[i].(priceScore := 0.0, total := 0.0);
      }
    }
  }

  /** Recomputing an already recomputed table changes nothing, so the
      application may recompute on every redraw. */
  lemma RecomputeIdempotent(c: Config, rows: seq<Bidder>, model: PriceModel)
    ensures Recompute(c, Recompute(c, rows, model), model) == Recompute(c, rows, model)
  {
  }

  /** On a valid table every recomputed total lies in [0, TotalMaxScore]. */
  lemma RecomputeTotalsWithinMax(c: Config, rows: seq<Bidder>, model: PriceModel)
    requires ValidConfig(c) && ValidTable(c, rows)
    ensures forall i :: 0 <= i < |rows| ==>
              0.0 <= Recompute(c, rows, model)[i].total <= TotalMaxScore(c) as real
  {
    var r := Recompute(c, rows, model);
    forall i | 0 <= i < |rows|
      ensures 0.0 <= r[i].total <= TotalMaxScore(c) as real
    {
      assert ValidBidder(c, r[i]);
      TotalWithinMax(c, r[i]);
    }
  }

  /** Under the minimum-ratio model a row bidding the minimum positive price
      scores full marks, and when some price is positive such a row exists. */
  lemma MinRatioLowestBidFullMarks(c: Config, rows: seq<Bidder>)
    requires 0.0 < MinPrice(Prices(rows))
    ensures exists i :: 0 <= i < |rows| && rows[i].price == MinPrice(Prices(rows))
    ensures forall i :: 0 <= i < |rows| && rows[i].price == MinPrice(Prices(rows)) ==>
              Recompute(c, rows, MinimumRatio)[i].priceScore == c.maxPrice as real
  {
  }

  /** Under the minimum-ratio model a row with a non-positive price scores 0,
      and when no price is positive every row scores 0. */
  lemma MinRatioZeroCases(c: Config, rows: seq<Bidder>)
    ensures forall i :: 0 <= i < |rows| && rows[i].price <= 0.0 ==>
              Recompute(c, rows, MinimumRatio)[i].priceScore == 0.0
    ensures MinPrice(Prices(rows)) == 0.0 ==>
              forall i :: 0 <= i < |rows| ==> Recompute(c, rows, MinimumRatio)[i].priceScore == 0.0
  {
  }

  /** A zero price maximum gives every row a zero price score under either model. */
  lemma ZeroPriceMaximum(c: Config, rows: seq<Bidder>, model: PriceModel)
    requires c.maxPrice == 0
    ensures forall i :: 0 <= i < |rows| ==> Recompute(c, rows, model)[i].priceScore == 0.0
  {
  }

  /** Under the minimum-ratio model, raising one row's positive price while
      every other row stays as it is never raises that row's price score, even
      though the table-wide minimum may move with it. */
  lemma MinRatioRaiseOwnPrice(c: Config, rows: seq<Bidder>, i: nat, newPrice: real)
    requires i < |rows| && 0.0 < rows[i].price <= newPrice && 0 <= c.maxPrice
    ensures Recompute(c, rows[i := rows[i].(price := newPrice)], MinimumRatio)[i].priceScore
            <= Recompute(c, rows, MinimumRatio)[i].priceScore
  {
    var rows' := rows[i := rows[i].(price := newPrice)];
    assert Prices(rows') == Prices(rows)[i := newPrice];
    MinRatioMonotoneInOwnPrice(Prices(rows), i, newPrice, c.maxPrice as real);
  }
}
