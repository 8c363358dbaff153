/**
 The two price-score formulas: the linear-deduction ("standard") model, which
 scores a bid against the target price alone, and the minimum-ratio model,
 which scores it against the lowest positive bid in the whole table.
 */
module PriceModels {
  import opened Configuration

  /* ---------- Small facts about scaling a maximum by a ratio ---------- */

  /** A ratio in [0, 1] scales a non-negative maximum into [0, maximum]. */
  lemma ScaleWithin(q: real, m: real)
    ensures 0.0 <= q <= 1.0 && 0.0 <= m ==> 0.0 <= q * m <= m
  {
  }

  /** Scaling a non-negative maximum is monotone in the ratio. */
  lemma ScaleMonotone(q1: real, q2: real, m: real)
    requires q1 <= q2 && 0.0 <= m
    ensures q1 * m <= q2 * m
  {
  }

  /** Division by a common divisor distributes over a difference. */
  lemma DivDifference(x: real, y: real, w: real)
    requires w != 0.0
    ensures x / w - y / w == (x - y) / w
  {
  }

  /** Dividing a positive amount by a larger positive amount gives a smaller ratio. */
  lemma RatioAntitone(a: real, b: real, c: real)
    requires 0.0 < a && 0.0 < b <= c
    ensures a / c <= a / b
  {
  }

  /** A ratio of a non-negative amount to a larger positive one lies in [0, 1]. */
  lemma RatioWithin(a: real, b: real)
    ensures 0.0 <= a <= b && 0.0 < b ==> 0.0 <= a / b <= 1.0
  {
  }

  /* ---------- Linear-deduction model ---------- */

  /** Price score under the linear-deduction model: full marks at or below the
      full-score price, nothing at or above the target, a straight line in
      between. The branches are taken in the order the program tests them, so
      the division happens only strictly between the two prices, where the
      width of the band is positive. */
  function StandardPriceScore(price: real, target: real, maxPrice: real): (s: real)
    ensures 0.0 <= maxPrice ==> 0.0 <= s <= maxPrice
  {
    var threshold := FullScorePrice(target);
    if price <= threshold then
      maxPrice
    else if price >= target then
      0.0
    else
      var rangeWidth := target - threshold;
      var priceDiff := target - price;
      assert 0.0 < priceDiff < rangeWidth;
      RatioWithin(priceDiff, rangeWidth);
      assert 0.0 <= priceDiff / rangeWidth <= 1.0;
      ScaleWithin(priceDiff / rangeWidth, maxPrice);
      (priceDiff / rangeWidth) * maxPrice
  }

  /** The interpolating branch is reached only strictly inside the band
      (full-score price, target), and there the band has positive width, so
      the division is always defined. */
  lemma StandardDivisionSafe(price: real, target: real)
    requires !(price <= FullScorePrice(target)) && !(price >= target)
    ensures FullScorePrice(target) < price < target
    ensures 0.0 < target && 0.0 < target - FullScorePrice(target)
  {
  }

  /** The exact values at the two ends of the band. */
  lemma StandardBoundaryValues(target: real, maxPrice: real)
    ensures StandardPriceScore(FullScorePrice(target), target, maxPrice) == maxPrice
    ensures 0.0 < target ==> StandardPriceScore(target, target, maxPrice) == 0.0
  {
  }

  /** The linear-deduction score never rises as the price rises. */
  lemma StandardMonotone(p1: real, p2: real, target: real, maxPrice: real)
    requires p1 <= p2 && 0.0 <= maxPrice
    ensures StandardPriceScore(p2, target, maxPrice) <= StandardPriceScore(p1, target, maxPrice)
  {
    var threshold := FullScorePrice(target);
    var s1 := StandardPriceScore(p1, target, maxPrice);
    var s2 := StandardPriceScore(p2, target, maxPrice);
    if p1 <= threshold {
      assert s1 == maxPrice;
    } else if p2 >= target {
      assert s2 == 0.0;
    } else {
      var w := target - threshold;
      var q1, q2 := (target - p1) / w, (target - p2) / w;
      assert s1 == q1 * maxPrice && s2 == q2 * maxPrice;
      DivDifference(target - p1, target - p2, w);
      assert 0.0 <= (p2 - p1) / w;
      assert q2 <= q1;
      ScaleMonotone(q2, q1, maxPrice);
    }
  }

  /** Clamps a ratio to [0, 1]. */
  function Clamp01(x: real): real {
    if x < 0.0 then 0.0 else if x > 1.0 then 1.0 else x
  }

  /** For a positive target, the linear-deduction model is the share of the
      last fifth of the target price still left below the target, clamped to
      [0, 1] and scaled by the maximum. */
  lemma StandardMatchesClampedLine(price: real, target: real, maxPrice: real)
    requires 0.0 < target
    ensures StandardPriceScore(price, target, maxPrice)
            == Clamp01((target - price) / (0.2 * target)) * maxPrice
  {
    var w := 0.2 * target;
    var q := (target - price) / w;
    if price <= FullScorePrice(target) {
      DivDifference(target - price, w, w);
      assert w / w == 1.0;
      assert 0.0 <= (target - price - w) / w;
    } else if price >= target {
      assert 0.0 / w - q == (price - target) / w;
      assert 0.0 <= (price - target) / w;
    } else {
      assert target - FullScorePrice(target) == w;
      RatioWithin(target - price, w);
    }
  }

  /** For a non-positive target the band is empty (the full-score price is not
      below the target), so the score is a step: full marks at or below the
      full-score price, zero above it. In particular a zero target still gives
      a zero price full marks. */
  lemma StandardDegenerateTarget(price: real, target: real, maxPrice: real)
    requires target <= 0.0
    ensures price <= FullScorePrice(target) ==> StandardPriceScore(price, target, maxPrice) == maxPrice
    ensures FullScorePrice(target) < price ==> StandardPriceScore(price, target, maxPrice) == 0.0
    ensures target == 0.0 ==> StandardPriceScore(0.0, target, maxPrice) == maxPrice
    ensures target < 0.0 && 0.0 <= price ==> StandardPriceScore(price, target, maxPrice) == 0.0
  {
  }

  /* ---------- Minimum positive price ---------- */

  /** The prices that take part in the minimum: the strictly positive ones, in
      table order. */
  function PositivePrices(ps: seq<real>): (vs: seq<real>)
    ensures |vs| <= |ps|
    ensures forall v :: v in vs ==> 0.0 < v && v in ps
    ensures forall i :: 0 <= i < |ps| && 0.0 < ps[i] ==> ps[i] in vs
  {
    if |ps| == 0 then []
    else if 0.0 < ps[0] then [ps[0]] + PositivePrices(ps[1..])
    else PositivePrices(ps[1..])
  }

  /** Least element of a non-empty sequence. */
  function SeqMin(s: seq<real>): (m: real)
    requires |s| > 0
    ensures m in s
    ensures forall i :: 0 <= i < |s| ==> m <= s[i]
  {
    if |s| == 1 then s[0]
    else
      var rest := SeqMin(s[1..]);
      assert forall i :: 1 <= i < |s| ==> s[i] == s[1..][i - 1];
      if s[0] <= rest then s[0] else rest
  }

  /** The reference price of the minimum-ratio model: the lowest strictly
      positive price, or 0 when no price is positive. */
  function MinPrice(ps: seq<real>): (m: real)
    ensures 0.0 <= m
    ensures m == 0.0 <==> forall i :: 0 <= i < |ps| ==> ps[i] <= 0.0
    ensures 0.0 < m ==> exists i :: 0 <= i < |ps| && ps[i] == m
    ensures forall i :: 0 <= i < |ps| && 0.0 < ps[i] ==> m <= ps[i]
  {
    var valid := PositivePrices(ps);
    if |valid| == 0 then
      0.0
    else
      var m := SeqMin(valid);
      assert forall v :: v in valid ==> m <= v;
      m
  }

  /* ---------- Minimum-ratio model ---------- */

  /** Price score under the minimum-ratio model: the lowest positive price over
      this price, scaled by the maximum; zero unless both prices are positive. */
  function MinRatioPriceScore(price: real, minPrice: real, maxPrice: real): (s: real)
    ensures 0.0 <= maxPrice && minPrice <= price ==> 0.0 <= s <= maxPrice
    ensures 0.0 < price && price == minPrice ==> s == maxPrice
    ensures maxPrice == 0.0 ==> s == 0.0
  {
    if price > 0.0 && minPrice > 0.0 then
      RatioWithin(minPrice, price);
      ScaleWithin(minPrice / price, maxPrice);
      (minPrice / price) * maxPrice
    else
      0.0
  }

  /** For positive prices the minimum-ratio score is inversely proportional to
      the price: score times price is the reference price times the maximum. */
  lemma MinRatioInverseProportional(price: real, minPrice: real, maxPrice: real)
    requires 0.0 < price && 0.0 < minPrice
    ensures MinRatioPriceScore(price, minPrice, maxPrice) * price == minPrice * maxPrice
  {
    assert minPrice / price * price == minPrice;
  }

  /** Own-price monotonicity needs a positive starting price: a zero bid scores
      0, and raising it to any positive price earns points. Here a bid of 0
      against a rival at 400 scores 0, while the same bid raised to 1 becomes
      the table minimum and scores the full 90. */
  lemma MinRatioZeroBidRaiseGains()
    ensures MinRatioPriceScore(0.0, MinPrice([0.0, 400.0]), 90.0) == 0.0
    ensures MinRatioPriceScore(1.0, MinPrice([0.0, 400.0][0 := 1.0]), 90.0) == 90.0
  {
    assert [0.0, 400.0][0 := 1.0] == [1.0, 400.0];
    assert MinPrice([1.0, 400.0]) == 1.0;
  }

  /** Under the minimum-ratio model a row's score never rises when it raises
      its own positive price and every other price stays as it is, even though
      the table-wide minimum may move with it. */
  lemma MinRatioMonotoneInOwnPrice(ps: seq<real>, i: nat, newPrice: real, maxPrice: real)
    requires i < |ps| && 0.0 < ps[i] <= newPrice && 0.0 <= maxPrice
    ensures MinRatioPriceScore(newPrice, MinPrice(ps[i := newPrice]), maxPrice)
            <= MinRatioPriceScore(ps[i], MinPrice(ps), maxPrice)
  {
    var ps' := ps[i := newPrice];
    var m := MinPrice(ps);
    var m' := MinPrice(ps');
    MinPricePositiveBelow(ps, i);
    MinPricePositiveBelow(ps', i);
    if m < ps[i] {
      MinPriceUnmovedByRaise(ps, i, newPrice);
    }
    MinRatioScoreCompare(ps[i], newPrice, m, m', maxPrice);
  }

  /** The score comparison behind MinRatioMonotoneInOwnPrice, free of the table:
      either the old price was the minimum (so it scored full marks), or the
      minimum did not move and the larger price divides the same minimum. */
  lemma MinRatioScoreCompare(p: real, p': real, m: real, m': real, maxPrice: real)
    requires 0.0 < p <= p' && 0.0 <= maxPrice
    requires 0.0 < m <= p && 0.0 < m' <= p'
    requires m == p || m == m'
    ensures MinRatioPriceScore(p', m', maxPrice) <= MinRatioPriceScore(p, m, maxPrice)
  {
    if m != p {
      assert m' == m;
      MinRatioAntitoneInPrice(p, p', m, maxPrice);
    } else {
      assert MinRatioPriceScore(p, m, maxPrice) == maxPrice;
      assert MinRatioPriceScore(p', m', maxPrice) <= maxPrice;
    }
  }

  /** Against a fixed positive reference price, a higher price never scores more. */
  lemma MinRatioAntitoneInPrice(p: real, p': real, m: real, maxPrice: real)
    requires 0.0 < p <= p' && 0.0 < m && 0.0 <= maxPrice
    ensures MinRatioPriceScore(p', m, maxPrice) <= MinRatioPriceScore(p, m, maxPrice)
  {
    RatioAntitone(m, p, p');
    ScaleMonotone(m / p', m / p, maxPrice);
  }

  /** When row i has a positive price, the minimum is positive and at most that price. */
  lemma MinPricePositiveBelow(ps: seq<real>, i: nat)
    requires i < |ps| && 0.0 < ps[i]
    ensures 0.0 < MinPrice(ps) <= ps[i]
  {
  }

  /** Raising a price that is not the minimum leaves the minimum where it is. */
  lemma MinPriceUnmovedByRaise(ps: seq<real>, i: nat, newPrice: real)
    requires i < |ps| && 0.0 < ps[i] <= newPrice && MinPrice(ps) < ps[i]
    ensures MinPrice(ps[i := newPrice]) == MinPrice(ps)
  {
    var ps' := ps[i := newPrice];
    var m := MinPrice(ps);
    var m' := MinPrice(ps');
    assert 0.0 < m;
    var j :| 0 <= j < |ps| && ps[j] == m;
    assert j != i && ps'[j] == m;
    assert m' <= m;
    assert 0.0 < m';
    var k :| 0 <= k < |ps'| && ps'[k] == m';
    assert k != i;
    assert ps[k] == m';
  }
}
