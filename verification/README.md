# Bid evaluation scoring engine — Dafny model

This project models the scoring engine of a technical bid-evaluation simulator
(`evaluation90.py`). Evaluators enter, for each bidder, four criterion scores
and a bid price. The engine turns the price into a price score using one of two
models, adds the five sub-scores into a total, and names the bidder with the
highest total. Each model has its own tab with its own table
(evaluation90.py:57-60); no table is ever re-scored under the other model.

- **Linear-deduction ("standard") model.** At or below the full-score price
  (80 % of the target price) a bid gets full marks. At or above the target
  price it gets nothing. In between, the score falls linearly.
- **Minimum-ratio model.** A bid scores `minPrice / price * maxPrice`.
  `minPrice` is the lowest strictly positive price in the whole table, or 0 when
  no price is positive.

The modules follow the engine's parts:

| module | file | contents |
|---|---|---|
| `Configuration` | Configuration.dfy | criterion maxima, target price, full-score price, total maximum |
| `Bidders` | Bidders.dfy | the bidder row, its validity, writing the derived columns |
| `PriceModels` | PriceModels.dfy | both price formulas, the minimum positive price |
| `Engine` | Engine.dfy | whole-table recompute under the selected model |
| `Ranking` | Ranking.dfy | winner selection (first row with the maximal total) |
| `Scenarios` | Scenarios.dfy | the default settings and starting table, worked through |

`Bidders.Prices` and `Bidders.Totals` are plain column projections, the
price column (evaluation90.py:197) and the total column (l.152-153) in row
order; they carry no property of their own.

Prices and scores are exact `real`s. The five maxima are `int`s, because the
settings panel takes whole numbers from 0 to 100. The application itself puts
no bound on the target price, so the model leaves it unbounded too. The
engine's functions carry no preconditions on their inputs. The ranges that the
input widgets check on entry (`ValidConfig`, `ValidBidder`) appear only as
hypotheses of the lemmas that need them.

Three behaviours of the code are worth stating plainly:

- The code has no guard for a non-positive target price. Division is safe
  only because of the order of the branches, and at target 0 a bid of 0 meets
  the first test (`price <= full_score_price`) and gets full marks
  (evaluation90.py:122). `PriceModels.StandardDegenerateTarget` states this.
- `idxmax` picks the first row holding the maximum, so a tie goes to the
  earliest tied row (evaluation90.py:152). `Ranking.Rank` states this.
- Under the minimum-ratio model, a bid's score never rises as its own price
  rises, but only from a positive starting price. A bid of 0 scores 0
  (evaluation90.py:207-210), and raising it to any positive price earns points.
  `PriceModels.MinRatioZeroBidRaiseGains` exhibits this.

## Model

| member | source | states |
|---|---|---|
| Configuration.FullScorePrice | evaluation90.py:39 | the full-score price is four fifths of the target: strictly between 0 and the target for a positive target, 0 for a zero target, and above a negative target |
| Configuration.TotalMaxScore | evaluation90.py:24-31 | with every maximum in 0..100, the best possible total is between 0 and 500 and at least the price maximum |
| Bidders.Rescore | evaluation90.py:136-138 | writing a price score into a row leaves every edited column as it was and makes the total the sum of the five sub-scores |
| Bidders.TotalWithinMax | evaluation90.py:67-90 | a row whose sub-scores lie within their configured ranges has a total between 0 and the sum of the maxima |
| PriceModels.StandardPriceScore | evaluation90.py:118-134 | with a non-negative maximum, the linear-deduction score lies between 0 and the maximum, and the division happens only where the band is wide enough |
| PriceModels.StandardDivisionSafe | evaluation90.py:122-134 | the interpolating branch is reached only strictly between the full-score price and the target, and there the band width is positive |
| PriceModels.StandardBoundaryValues | evaluation90.py:121-127 | a bid exactly at the full-score price gets full marks; with a positive target, a bid exactly at the target gets 0 |
| PriceModels.StandardMonotone | evaluation90.py:122-134 | with a non-negative maximum, a higher price never gets a higher linear-deduction score |
| PriceModels.StandardMatchesClampedLine | evaluation90.py:130-134 | with a positive target, the branch chain equals one closed form: the remaining share of the last fifth below the target, clamped to [0, 1] and scaled by the maximum |
| PriceModels.StandardDegenerateTarget | evaluation90.py:122-127 | with a non-positive target the score is a step at the full-score price; a zero target still gives a zero price full marks, and a negative target gives every non-negative price 0 |
| PriceModels.PositivePrices | evaluation90.py:197 | the filtered prices are exactly the positive ones: each is positive and comes from the table, and every positive price is kept |
| PriceModels.SeqMin | evaluation90.py:200 | the least element is one of the sequence's values and at most every value |
| PriceModels.MinPrice | evaluation90.py:197-203 | the reference price is 0 exactly when no price is positive; otherwise it is one of the table's prices and at most every positive price |
| PriceModels.MinPriceUnmovedByRaise | evaluation90.py:197-200 | raising a price that was not the minimum leaves the minimum where it was |
| PriceModels.MinRatioPriceScore | evaluation90.py:205-210 | with a non-negative maximum and a reference price not above the bid, the score lies between 0 and the maximum; a bid equal to a positive reference price gets the maximum; a zero maximum gives 0 |
| PriceModels.MinRatioInverseProportional | evaluation90.py:207-208 | for a positive price and reference price, the score times the price is the reference price times the maximum, the same for every such bid |
| PriceModels.MinRatioAntitoneInPrice | evaluation90.py:207-208 | against a fixed positive reference price, a higher price never scores more |
| PriceModels.MinRatioZeroBidRaiseGains | evaluation90.py:205-210 | a zero bid against a rival at 400 scores 0, and the same bid raised to 1 becomes the minimum and scores the full 90, so own-price monotonicity fails from a zero price |
| PriceModels.MinRatioMonotoneInOwnPrice | evaluation90.py:197-210 | raising one positive price, all others fixed, never raises that bid's minimum-ratio score, even when the table minimum moves |
| Engine.RecomputeStandard | evaluation90.py:141-143 | every row gets its linear-deduction score and the matching total; its edited columns are unchanged |
| Engine.RecomputeMinRatio | evaluation90.py:196-214 | the minimum is taken once over the whole table; every row gets its minimum-ratio score against it and the matching total; its edited columns are unchanged |
| Engine.Recompute | evaluation90.py:141-214 | an empty table is returned as it was; otherwise the row count and edited columns are kept, each total is the five-sub-score sum, and each price score lies in [0, maximum] under either model |
| Engine.RecomputeReadsOnlyInputs | evaluation90.py:141-214 | the recomputed table depends on the edited columns only, not on stale derived columns |
| Engine.RecomputeIdempotent | evaluation90.py:141-214 | recomputing an already recomputed table yields the same table |
| Engine.RecomputeTotalsWithinMax | evaluation90.py:141-214 | on a valid table, every recomputed total lies between 0 and the sum of the maxima, under either model |
| Engine.MinRatioLowestBidFullMarks | evaluation90.py:199-208 | when some price is positive, a row bids the minimum, and every row bidding it gets full marks |
| Engine.MinRatioZeroCases | evaluation90.py:202-210 | a row with a non-positive price gets 0, and when no price is positive every row gets 0 |
| Engine.ZeroPriceMaximum | evaluation90.py:141-214 | a zero price maximum gives every row 0 under either model |
| Engine.MinRatioRaiseOwnPrice | evaluation90.py:196-214 | in a recomputed table, a bidder raising its own positive price never gains minimum-ratio points |
| Ranking.FirstMaxIndex | evaluation90.py:152 | the chosen position holds a value at least every other, and every earlier position holds strictly less |
| Ranking.SeqMax | evaluation90.py:153 | the reported score is a value of the column and at least every value in it |
| Ranking.FirstMaxUnique | evaluation90.py:152 | at most one position is the first maximum, so the tie-break is deterministic |
| Ranking.Rank | evaluation90.py:151-153 | no winner exactly on an empty table; otherwise the winner's name is on the first row with the maximal total, and the reported score is that row's total and at least every total |
| Ranking.RankEarliestOnTie | evaluation90.py:222-224 | whenever a row is the first maximum, the outcome is that row's name and total, and every earlier row scores strictly less |
| Scenarios.DefaultConfig | evaluation90.py:24-28 | the default maxima are valid and add up to 225 |
| Scenarios.InitialTable | evaluation90.py:44-54 | the starting table has three rows, all within the configured ranges |
| Scenarios.StandardExamples | evaluation90.py:118-134 | with target 420 and maximum 90: full-score price 336; 420 scores 0, 300 scores 90, 380 scores 40/84 of 90, and 340 scores 80/84 of 90 |
| Scenarios.MinRatioExamples | evaluation90.py:197-210 | with prices 420, 380 and 340: the minimum is 340, which scores 90; 380 and 420 score 340/380 and 340/420 of 90; with no positive price the minimum is 0 |
| Scenarios.InitialTableStandardWinner | evaluation90.py:141-153 | under linear deduction the starting table is won by C, with its total |
| Scenarios.InitialTableMinRatioTotals | evaluation90.py:196-214 | under the minimum-ratio model C's 340 is the minimum, so C gets full marks and A and B get 340/420 and 340/380 of 90, each added to its other sub-scores |
| Scenarios.InitialTableMinRatioWinner | evaluation90.py:196-224 | under the minimum-ratio model the starting table is won by A, with its total |
| Scenarios.TieGoesToEarliestRow | evaluation90.py:151-153 | with totals 78.4, 78.4 and 75.0, the first of the two tied rows wins |
| Scenarios.LoweredMaximaExceedTotal | evaluation90.py:57-90 | after the maxima are lowered to 0/0/0/90/0, the stored starting table breaks the new ranges and row A's recomputed total exceeds the new total maximum |
| Scenarios.EmptyTable | evaluation90.py:141 | an empty table recomputes to itself and has no winner |

## Left out

- Page setup, the settings panel's widgets and captions, tabs and data editors (evaluation90.py:15-23, 32-38, 40, 96-115, 181-193). These are input widgets, which check a cell's range only when it is entered. Their ranges become `ValidConfig` and `ValidBidder`: maxima in 0..100, scores in [0, maximum], prices non-negative. The maxima themselves (l.24-28), their sum (l.31) and the full-score price (l.39) are modelled.
- Session state, `safe_rerun` and the `DataFrame.equals` change detection (evaluation90.py:6-13, 56-60, 145-148, 216-219). Session state keeps each tab's table between redraws; `safe_rerun` and `DataFrame.equals` only decide when to redraw. `Engine.RecomputeIdempotent` states why recomputing again is harmless.
- Chart construction and the `%.1f` display formatting (evaluation90.py:156-175, 227-245). These are presentation only.
- Column-existence checks on the edited table (evaluation90.py:142, 151, 196, 222). A row is a fixed-field datatype, so every column is always present.
- Blank or NaN cells in newly added rows, and how pandas `apply`, `min`, `idxmax` and `max` treat them. Only the first-maximum behaviour of `idxmax` and the value of `max` are modelled.
- IEEE floating-point rounding. Every price and score is an exact real, so the scenario values are exact fractions rather than rounded decimals.
- PriceModels.MinRatioMonotoneInOwnPrice: own-price monotonicity is promised only from a positive starting price. From a price of 0, which the editor accepts (evaluation90.py:81), the code's score jumps from 0 to a positive value; `PriceModels.MinRatioZeroBidRaiseGains` exhibits the jump.
- Engine.RecomputeTotalsWithinMax: `ValidTable` holds only for values entered under the current maxima. The program keeps stored rows in session state (evaluation90.py:57-60) and does not re-check them when a maximum is lowered (l.24-28), so a total can then exceed the sum of the maxima; `Scenarios.LoweredMaximaExceedTotal` exhibits this.
- Engine.MinRatioRaiseOwnPrice: the same restriction to a positive starting price, for the same reason, at the level of the recomputed table.
- `get_initial_data` (evaluation90.py:44-54) is used only as a worked example (`Scenarios.InitialTable`), not as engine behaviour.
