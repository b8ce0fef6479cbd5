# B2B supply-chain mini suite: a verified model of its computations

The Streamlit suite scores suppliers from an uploaded scorecard, forecasts
one SKU's daily demand with a moving average, and runs an inventory what-if
simulation. Without the widgets, uploads, charts and random draws, three
deterministic computations remain. This project models them in Dafny and
proves their properties.

- **Simulator** (`simulator.dfy`): the what-if page's day-stepped loop over
  stock on hand, backlog and a pipeline of open orders. Each day it
  receives the orders due, applies the reorder rule against the safety
  threshold, ships against backlog plus demand, and records a row. Fill
  rate, stockout days and average stock are then computed over the rows.
  `Simulate` is the loop as a method. It is proved equal to the
  day-by-day specification `Run`, whose properties are lemmas.
- **Scoring** (`scoring.dfy`): the library's `minmax` and `supplier_scores`.
  Missing numbers are `None`, and `log1p` is a function parameter, assumed
  increasing where a property needs it. The `.round(4)` is round half to
  even on `x * 10000`. The sort is descending by score, with undefined
  scores last.
- **Forecast** (`forecast.dfy`): `moving_average_forecast`. It computes a
  trailing mean that uses a shorter window at the start, and a flat
  forecast of `horizon` days after the series.
- **DemandSeries** (`demand_series.dfy`): the app's demand preparation for
  one SKU:
  - rows whose date did not parse are dropped;
  - an unparsed quantity counts as 0;
  - the rows are placed on a daily grid (`asfreq("D")`), and gaps are
    backward-filled.
- **App** (`app.dfy`): the single-page app's own copies of `mm` and the
  score, proved equal to the library's. Also the top-ten export, and the
  quick forecast that joins the demand series to the moving average.
- **Wrappers** (`wrappers.dfy`): `Option`.

Calendar days are integers, and floating-point numbers are reals.

Points where the model pins down what the code does:

- The order size is `max(moq, int(mu * lead))`; `int` truncates (`Trunc`).
- `sort_values` is not a stable sort, so no order among equal scores is
  asserted.
- On an empty series `ts.index.max()` is NaT and `pd.date_range` raises, so
  `MovingAverageForecast` returns `None`.
- Two rows of one SKU on the same day make `asfreq` raise, so `Series` and
  `QuickForecast` return `None`.

## Model

| member | source | states |
|---|---|---|
| Simulator.Simulate | pages/4_What_If_Scenarios.py:40-66 | the loop from zero stock, no backlog and an empty pipeline records exactly `Run`: one row per demand value on consecutive days from the day after the last history date, stock and backlog never negative, the first backlog at most the first demand, and each day's backlog rise at most that day's demand |
| Simulator.SimulateDay | pages/4_What_If_Scenarios.py:43-64 | one pass of the loop body yields exactly the receive–reorder–ship step `Step` |
| Simulator.Trunc | pages/4_What_If_Scenarios.py:50 | `int()` truncates toward zero: for x ≥ 0 the result is the largest integer not above x, for x < 0 the smallest not below it |
| Simulator.OrderQty | pages/4_What_If_Scenarios.py:50 | the order size is the larger of the MOQ and the truncated `mu * lead` |
| Simulator.Arrivals | pages/4_What_If_Scenarios.py:44 | the quantity of the orders due that day; ArrivalsConserve and ArrivalsNonNegative state what it adds up to |
| Simulator.Pending | pages/4_What_If_Scenarios.py:45 | no order left after receiving is due that day, and the list never grows |
| Simulator.PendingKeeps | pages/4_What_If_Scenarios.py:45 | an order stays in the pipeline if and only if it was there and is not due that day |
| Simulator.ArrivalsConserve | pages/4_What_If_Scenarios.py:44-45 | the arriving quantity plus the remaining pipeline's total equals the old pipeline's total |
| Simulator.ArrivalsNonNegative | pages/4_What_If_Scenarios.py:44 | with positive order sizes the arriving quantity is non-negative |
| Simulator.Receive | pages/4_What_If_Scenarios.py:44-46 | step 1 of a day; its contract is ReceiveStep: stock rises by exactly the arrivals, the pipeline loses exactly them and keeps nothing due that day |
| Simulator.ReceiveStep | pages/4_What_If_Scenarios.py:44-46 | receiving raises stock by exactly the arrivals, takes exactly that quantity out of the pipeline, keeps no order due that day, and leaves the backlog alone |
| Simulator.Reorder | pages/4_What_If_Scenarios.py:49-52 | step 2 of a day; its contract is ReorderStep: one order of `OrderQty` arriving `lead` days later iff the position is strictly below the threshold and the size is positive |
| Simulator.ReorderStep | pages/4_What_If_Scenarios.py:49-52 | an order is appended if and only if the position is strictly below the threshold and the order size is positive; at most one order is appended, it is for `OrderQty`, its arrival is `lead` days later (never the same day), and stock and backlog are unchanged |
| Simulator.Shipped | pages/4_What_If_Scenarios.py:55-56 | the shipment is the lesser of the free stock (never below 0) and backlog plus demand |
| Simulator.Ship | pages/4_What_If_Scenarios.py:55-64 | step 3 of a day; its contract is the pair ShipCoversBacklog / ShipShortOfBacklog, one per branch |
| Simulator.ShipCoversBacklog | pages/4_What_If_Scenarios.py:55-62 | when the shipment covers the backlog, stock falls by exactly the net shipment and the new backlog is demand minus that shipment; demand equals net shipment plus new backlog, so both `max(0, _)` guards are no-ops; the pipeline is left alone |
| Simulator.ShipShortOfBacklog | pages/4_What_If_Scenarios.py:55-64 | when the shipment falls short of the backlog, stock is unchanged and the backlog drops by the shipment but stays positive; that day's demand is not added; the pipeline is left alone |
| Simulator.Step | pages/4_What_If_Scenarios.py:43-64 | receive, then reorder, then ship; its contract is StepPreservesValid |
| Simulator.StepPreservesValid | pages/4_What_If_Scenarios.py:42-64 | a day keeps stock and backlog non-negative and every open order positive and due within `lead` days, and it raises the backlog by at most that day's demand |
| Simulator.FinalValid | pages/4_What_If_Scenarios.py:40-64 | that invariant holds after any number of days |
| Simulator.Final | pages/4_What_If_Scenarios.py:40-64 | the state after a sequence of days, starting from a given state; FinalValid states that it keeps the invariant |
| Simulator.Trace | pages/4_What_If_Scenarios.py:40-66 | the rows recorded over a sequence of days; TraceLength, TraceRow and TraceFacts state their shape and values |
| Simulator.Run | pages/4_What_If_Scenarios.py:40-66 | a whole run from zero stock, no backlog and an empty pipeline; Simulate computes it, and TraceFacts, FillRateBounds and RunSummary state its properties |
| Simulator.TraceLength | pages/4_What_If_Scenarios.py:42-66 | one row per day |
| Simulator.TraceRow | pages/4_What_If_Scenarios.py:42-66 | row i records day `d0 + i`, its demand, and the stock and backlog after the first i+1 days |
| Simulator.TraceFacts | pages/4_What_If_Scenarios.py:40-66 | every row has the right day and demand, non-negative stock and backlog, and a backlog rise of at most its demand |
| Simulator.TraceRowFacts | pages/4_What_If_Scenarios.py:42-66 | the same facts for one row |
| Simulator.PrefixStep | pages/4_What_If_Scenarios.py:42-64 | after the first i+1 days, stock and backlog are non-negative, and the backlog is at most the backlog after i days plus day i's demand |
| Simulator.NoFirstDayOrderWithoutSafety | pages/4_What_If_Scenarios.py:40-52 | with a threshold of zero or less, no order is placed on the first day |
| Simulator.FirstDayOrderWithSafety | pages/4_What_If_Scenarios.py:40-52 | with a positive threshold and a positive order size, exactly one order is placed on the first day, arriving `lead` days later |
| Simulator.StockoutDays | pages/4_What_If_Scenarios.py:76 | stockout days never exceed the number of rows; they equal it iff every row has no stock, and are 0 iff every row has stock |
| Simulator.SumDemand | pages/4_What_If_Scenarios.py:73 | the demand column's sum, never negative |
| Simulator.SumBacklog | pages/4_What_If_Scenarios.py:72 | the backlog column's sum, never negative when no backlog is |
| Simulator.SumOnHand | pages/4_What_If_Scenarios.py:77 | the stock column's sum, never negative when no stock is |
| Simulator.IncreasesOfZeroBacklog | pages/4_What_If_Scenarios.py:72 | a non-negative backlog column that sums to 0 has no increases |
| Simulator.DelayedIsIncreases | pages/4_What_If_Scenarios.py:72 | with no negative backlog the positive-sum guard changes nothing: the delayed quantity is the sum of backlog increases |
| Simulator.Increases | pages/4_What_If_Scenarios.py:72 | the sum of the clipped backlog differences from the second row on is non-negative |
| Simulator.Delayed | pages/4_What_If_Scenarios.py:72 | the delayed quantity is non-negative, and positive only when the backlog column sums to more than 0 |
| Simulator.FillRate | pages/4_What_If_Scenarios.py:73 | the fill rate is at most 1, and exactly 1 when total demand is 0 |
| Simulator.AvgOnHand | pages/4_What_If_Scenarios.py:77 | the mean stock: times the row count it is the stock column's sum, and it is non-negative when no stock is |
| Simulator.IncreasesBounded | pages/4_What_If_Scenarios.py:72 | the positive backlog increases from the second row on are non-negative and at most the demand of those rows |
| Simulator.FillRateOfRows | pages/4_What_If_Scenarios.py:72-73 | for such rows the delayed quantity lies between 0 and total demand, and the fill rate in [0, 1] |
| Simulator.FillRateBounds | pages/4_What_If_Scenarios.py:40-73 | for every run, delayed ≤ total demand and 0 ≤ fill rate ≤ 1; the fill rate is 1 when total demand is 0 |
| Simulator.RowsSummary | pages/4_What_If_Scenarios.py:76-77 | with non-negative stock, a stockout day is a day with exactly zero stock, and average stock is non-negative |
| Simulator.RunSummary | pages/4_What_If_Scenarios.py:40-77 | in every run, stockout days are at most the horizon and are the days with exactly zero stock; average stock is non-negative |
| Scoring.ColMin | utils/scoring.py:5 | the minimum skips missing values: none iff all are missing, otherwise a lower bound of every defined value that occurs in the column |
| Scoring.ColMax | utils/scoring.py:5 | the same for the maximum |
| Scoring.MinMax | utils/scoring.py:4-5 | same length; an entry is defined iff its input is; every defined output lies in [0, 1) |
| Scoring.Normalise | utils/scoring.py:5 | one normalised value lies in [0, 1), and the minimum maps to 0 |
| Scoring.MinMaxMonotone | utils/scoring.py:5 | normalisation preserves order |
| Scoring.MinMaxConstant | utils/scoring.py:5 | a column whose defined values are all equal normalises to 0, not NaN or infinity |
| Scoring.ExtremaOfSubset | utils/scoring.py:5 | a column containing all defined values of another has extrema at least as extreme |
| Scoring.ExtremaByValues | utils/scoring.py:5 | the extrema depend only on the set of defined values |
| Scoring.MinMaxIgnoresMissing | utils/scoring.py:5 | inserting a missing entry leaves every other normalised entry unchanged |
| Scoring.SpliceExtrema | utils/scoring.py:5 | inserting a missing entry leaves min and max unchanged |
| Scoring.SameEntry | utils/scoring.py:5 | equal entries of columns with the same extrema normalise alike |
| Scoring.Clip01 | utils/scoring.py:11 | the clipped on-time rate is defined iff its input is, lies in [0, 1], keeps values already inside, and sends values below to 0 and above to 1 |
| Scoring.Log1p | utils/scoring.py:16 | defined exactly for a parsed defect rate above -1, where it is `log1p` of it |
| Scoring.Coerce | utils/scoring.py:8-11 | coercion changes only the on-time rate, which stays defined iff it was and lands in [0, 1] |
| Scoring.Col | utils/scoring.py:9-17 | a metric column has one entry per row, the metric of that row |
| Scoring.Negate | utils/scoring.py:15-17 | unary minus keeps NaN as NaN and maps a value to its opposite |
| Scoring.OtdMetric | utils/scoring.py:11-14 | the on-time metric is defined iff the rate parsed, and then lies in [0, 1] |
| Scoring.CostMetric | utils/scoring.py:15 | the cost metric is defined iff the cost variance parsed, and is then its negation |
| Scoring.QualityMetricAt | utils/scoring.py:16 | the quality metric is defined iff the defect rate parsed and is above -1, and is then the negated `log1p`; see the Scoring.Log1p line under "## Left out" for a rate of exactly -1 |
| Scoring.RiskMetric | utils/scoring.py:17 | the risk metric is defined iff the risk-event count parsed, and is then its negation |
| Scoring.OtdColumn | utils/scoring.py:14 | one on-time metric per row; entry i is row i's `OtdMetric` (by `Col`) |
| Scoring.CostColumn | utils/scoring.py:15 | one cost metric per row; entry i is row i's `CostMetric` (by `Col`) |
| Scoring.QualityColumn | utils/scoring.py:16 | one quality metric per row; entry i is row i's `QualityMetric` (by `Col`) |
| Scoring.RiskColumn | utils/scoring.py:17 | one risk metric per row; entry i is row i's `RiskMetric` (by `Col`) |
| Scoring.ColSplice | utils/scoring.py:9-17 | splicing a row into the table splices its metric into the column |
| Scoring.RawScores | utils/scoring.py:13-17 | one unrounded score per row |
| Scoring.RawScoreAt | utils/scoring.py:13-17 | a row's unrounded score is the weighted sum of its four normalised metrics |
| Scoring.Combine | utils/scoring.py:13-17 | the weighted sum is defined iff all four normalised values are |
| Scoring.RoundHalfEven | utils/scoring.py:18 | the result is within 0.5 of its input, and an exact tie goes to the even integer |
| Scoring.Round4 | utils/scoring.py:18 | rounding to four decimals moves a value by at most 0.00005 |
| Scoring.RoundHalfEvenMonotone | utils/scoring.py:18 | rounding half to even is monotone |
| Scoring.Round4Monotone | utils/scoring.py:18 | rounding to four decimals is monotone |
| Scoring.Round4Zero | utils/scoring.py:18 | 0 rounds to 0 |
| Scoring.RoundScore | utils/scoring.py:18 | rounding keeps a score defined iff it was, and moves it by at most 0.00005 |
| Scoring.Scores | utils/scoring.py:13-20 | one rounded score per row |
| Scoring.ScoreAt | utils/scoring.py:13-20 | a row's score is its unrounded score rounded to four decimals |
| Scoring.ScoredRows | utils/scoring.py:8-20 | the scored table keeps every row in order, with its on-time rate clipped into [0, 1] |
| Scoring.ScoredRowAt | utils/scoring.py:8-20 | row i of the scored table is row i coerced, with score i |
| Scoring.Insert | utils/scoring.py:21 | inserting into a sorted sequence keeps it sorted and adds exactly that row |
| Scoring.SortByScore | utils/scoring.py:21 | the result is sorted by descending score with undefined scores last, and is a permutation of its input |
| Scoring.SupplierScores | utils/scoring.py:7-21 | `supplier_scores` returns a permutation of the scored rows; defined scores are non-increasing and precede undefined ones; every on-time rate is in [0, 1] |
| Scoring.ClippedKept | utils/scoring.py:11-21 | sorting keeps every on-time rate inside [0, 1] |
| Scoring.Clip01Monotone | utils/scoring.py:11 | clipping is monotone |
| Scoring.ScoreDefined | utils/scoring.py:9-18 | a row's score is defined iff all four of its metrics parsed and its defect rate is in the domain of `log1p` |
| Scoring.CombineMonotone | utils/scoring.py:13-17 | with non-negative weights, the weighted sum is monotone in each value |
| Scoring.CombineBounds | utils/scoring.py:13-17 | with non-negative weights and values in [0, 1), the weighted sum lies in [0, sum of weights], strictly below it when some weight is positive |
| Scoring.TermsWithinWeights | utils/scoring.py:13-17 | four terms each bounded by their weight sum to at most the total weight |
| Scoring.WeightedBounds | utils/scoring.py:13-17 | a non-negative weight times a value in [0, 1) lies in [0, weight] |
| Scoring.Dominance | utils/scoring.py:9-18 | with non-negative weights and an increasing `log1p`, a supplier no worse on every metric scores at least as high, before and after rounding |
| Scoring.ScoreBounds | utils/scoring.py:13-17 | with non-negative weights, a numeric row's unrounded score lies in [0, sum of weights), or is 0 when every weight is 0 |
| Scoring.SpliceMinMax | utils/scoring.py:4-10 | a row with a missing metric gets a missing normalised value and leaves the others unchanged |
| Scoring.SameNormalisedSameScore | utils/scoring.py:13-18 | rows with the same normalised metrics get the same score |
| Scoring.ScoresIgnoreUnparsed | utils/scoring.py:9-18 | adding a row none of whose metrics parsed gives it no score and leaves every other row's score unchanged |
| Scoring.MinMaxPair | utils/scoring.py:5 | in a two-entry column the larger entry normalises above 0 and the smaller to 0 |
| Scoring.ExampleOtd | utils/scoring.py:11-14 | example: on-time rates 0.95 and 0.80 normalise to above 0.99 and to 0 |
| Scoring.ExampleCost | utils/scoring.py:15 | example: cost variances 0.01 and 0.05 normalise to above 0 and to 0 |
| Scoring.ExampleQuality | utils/scoring.py:16 | example: 100 and 900 defects per million normalise to above 0 and to 0 |
| Scoring.ExampleRisk | utils/scoring.py:17 | example: 0 and 3 risk events normalise to above 0 and to 0 |
| Scoring.ExampleScores | utils/scoring.py:13-17 | example under the default weights: the better supplier scores above 0.39 before rounding, the other 0 |
| Scoring.ExampleRounded | utils/scoring.py:18 | example: after rounding the better score is positive and the other is 0 |
| Scoring.ExampleTable | utils/scoring.py:8-20 | example: the scored table before sorting is the two rows with their scores |
| Scoring.CoercedPair | utils/scoring.py:8-20 | two rows the coercion leaves unchanged appear unchanged in the scored table |
| Scoring.SortPair | utils/scoring.py:21 | two rows already in score order stay in that order |
| Scoring.BetterSupplierRanksFirst | utils/scoring.py:7-21 | example under the default weights: the better supplier is ranked first with a strictly higher score |
| Forecast.WindowSize | utils/scoring.py:24 | the window on day i holds `min(window, i + 1)` values |
| Forecast.Sum | utils/scoring.py:24 | the sum of a window; SumBounds puts it between n·lo and n·hi |
| Forecast.Mean | utils/scoring.py:24 | the mean of a non-empty window; MeanBounds puts it within the values' bounds |
| Forecast.TrailingWindow | utils/scoring.py:24 | the trailing window has that many values and ends with the day's own value |
| Forecast.MovingAverage | utils/scoring.py:24 | one trailing mean per day |
| Forecast.LastValue | utils/scoring.py:25 | the last trailing mean, or 0 for an empty series |
| Forecast.MovingAverageForecast | utils/scoring.py:23-28 | no result iff the series is empty; otherwise the trailing means on the series' own days, and `horizon` forecast values, all equal to the last mean, on consecutive days starting the day after the series ends |
| Forecast.SumBounds | utils/scoring.py:24 | a sum of values in [lo, hi] lies between n·lo and n·hi |
| Forecast.DivBounds | utils/scoring.py:24 | dividing such a sum by n lands in [lo, hi] |
| Forecast.MeanBounds | utils/scoring.py:24 | the mean lies between the bounds of its values |
| Forecast.SliceWithin | utils/scoring.py:24 | a slice of a bounded series is bounded |
| Forecast.MovingAverageBounds | utils/scoring.py:24 | a series within [lo, hi] has all its trailing means within [lo, hi] |
| Forecast.MovingAverageConstant | utils/scoring.py:24 | a constant series has a constant moving average |
| Forecast.MovingAverageWindowOne | utils/scoring.py:24 | with a one-day window the moving average is the series itself |
| Forecast.MovingAverageTrailing | utils/scoring.py:24 | a day's mean depends only on that day and earlier ones: extending the series leaves earlier means unchanged |
| Forecast.TenFivesForecast | utils/scoring.py:23-28 | example: ten days of 5 with window 3 and horizon 2 give a moving average of 5 and a forecast of 5 on the two following days |
| DemandSeries.Clean | app.py:67-69 | the cleaned rows are exactly those whose date parsed, with an unparsed quantity becoming 0; there are never more of them than input rows |
| DemandSeries.ForSku | app.py:76 | an observation is kept iff it belongs to the chosen SKU, and each is kept exactly as many times as it occurs |
| DemandSeries.CleanAppend | app.py:67-69 | cleaning works row by row: the cleaned concatenation is the concatenation of the cleaned parts, so every parsed row survives once per occurrence and in order |
| DemandSeries.CleanOne | app.py:67-69 | a row whose date parsed cleans to one observation with its quantity or 0; a row whose date did not parse cleans to nothing |
| DemandSeries.ForSkuAppend | app.py:76 | filtering by SKU works row by row as well |
| DemandSeries.SkuRows | app.py:67-76 | the SKU's observations are exactly the cleaned rows of that SKU, each as many times as it occurs |
| DemandSeries.MinDate | app.py:77-79 | the earliest observed day is a lower bound and is observed |
| DemandSeries.MaxDate | app.py:77-79 | the latest observed day is an upper bound and is observed |
| DemandSeries.Lookup | app.py:78-79 | the grid value of a day is missing iff no observation falls on it; otherwise it is the quantity of an observation on that day |
| DemandSeries.LookupUnique | app.py:78-79 | with one observation per day, an observed day's value is that observation's quantity |
| DemandSeries.Grid | app.py:79 | `asfreq("D")` has one entry per day from the first to the last day, each that day's lookup |
| DemandSeries.GridAt | app.py:79 | the grid entry of day d is that day's lookup |
| DemandSeries.NextValueSpec | app.py:79 | the backward-fill search finds the nearest defined entry at or after an index, and finds nothing only when every later entry is missing |
| DemandSeries.Bfill | app.py:79 | backward filling keeps the length |
| DemandSeries.NextValue | app.py:79 | the backward-fill search from one index; NextValueSpec states what it finds |
| DemandSeries.BfillSpec | app.py:79 | a defined entry keeps its value; a missing one takes that of the nearest defined entry after it, and stays missing only when none follows |
| DemandSeries.Unwrap | app.py:79 | a sequence without missing entries gives up its values in place |
| DemandSeries.BfillComplete | app.py:79 | the filled grid of a non-empty set of observations has no missing entry |
| DemandSeries.DailySeries | app.py:75-80 | no series iff two observations share a day (`asfreq` rejects duplicates); no observations give the empty series; otherwise the series starts on the earliest day and has `max - min + 1` values |
| DemandSeries.DuplicateDayNoSeries | app.py:75-80 | two raw rows of the SKU whose dates parse to the same day give two observations on that day, so there is no series |
| DemandSeries.Series | app.py:67-80 | the SKU's series is missing exactly when its observations are non-empty and share a day |
| DemandSeries.DailySeriesValues | app.py:79 | a series holds the filled grid |
| DemandSeries.SeriesObserved | app.py:79 | an observed day keeps its own quantity |
| DemandSeries.SeriesFilled | app.py:79 | each day holds the nearest defined grid entry at or after it |
| DemandSeries.SeriesGap | app.py:79 | each day's value is the quantity of the nearest observed day at or after it, inside the series and with no observation between |
| DemandSeries.SeriesSpan | app.py:75-80 | the series runs from the earliest observed day to the latest |
| DemandSeries.SeriesLastValue | app.py:79 | the series' last value is the latest observation's quantity |
| DemandSeries.SeriesLast | app.py:75-80 | the series' last day is the latest observed day, holding its quantity |
| App.Mm | app.py:38 | the page's `mm` keeps the length |
| App.MmAgrees | app.py:38 | the page's `mm` is the library's `minmax` (utils/scoring.py:4-5) |
| App.PageScore | app.py:46-51 | a row's page score is defined iff all four of its normalised values are |
| App.PageScores | app.py:46-51 | one score per row |
| App.PageTable | app.py:40-51 | one scored row per input row |
| App.PageScoreIsRounded | app.py:46-51 | the page's one-row score is the library's weighted sum rounded to four decimals |
| App.ColumnsAgree | app.py:38-51 | scoring four columns the page's way agrees with the library's way |
| App.PageScoreAt | app.py:46-51 | each row's page score is its `supplier_scores` score |
| App.PageScoresAgree | app.py:40-51 | the page's scores and its table are those of `supplier_scores` (utils/scoring.py:7-20) |
| App.Scorecard | app.py:53 | the shown table is sorted by descending score with undefined scores last, and is a permutation of the page's table |
| App.ScorecardAgrees | app.py:53 | the scorecard the page shows is what `supplier_scores` returns |
| App.PrefixDominates | app.py:57 | in a sorted sequence every element of a prefix is at least every element after it |
| App.TopTen | app.py:57 | the top-ten export has `min(10, n)` rows drawn from the table, is sorted, and every excluded row's score is at most every included row's |
| App.QuickForecast | app.py:67-85 | there is no quick forecast exactly when there is no series or it is empty; otherwise it has `horizon` values |
| App.DuplicateDayNoForecast | app.py:67-85 | two rows of the SKU on the same day leave no forecast |
| App.QuickForecastSpec | app.py:67-85 | a quick forecast exists iff the SKU has observations, all on distinct days; its trailing means cover every day from the first to the last observation, and it forecasts the last mean on each of the `horizon` days after the last observation |

## Left out

- Streamlit widgets, file uploads, `read_csv`/`to_csv`, the download buttons and every chart are not modelled; the SKU, weights, window and horizon are parameters.
- The seeded normal draw of future demand (pages/4_What_If_Scenarios.py:35-38) is not modelled: the demand sequence is an input of non-negative integers.
- The history statistics `mu` and `sigma` (pages/4_What_If_Scenarios.py:29-31) are not modelled: `safety` and `mu` are policy parameters. A single history row gives a NaN `sigma`, so no reorder ever fires; that case is not modelled.
- The service-level slider (pages/4_What_If_Scenarios.py:19) is read but never used, and is not modelled.
- The inventory-position column and the forecast CSV (`out`) only feed charts and downloads.
- Floating point: all arithmetic is on reals, so rolling-mean round-off is not modelled.
- `log1p` is a parameter, assumed increasing where a lemma says so.
- Scoring.Log1p: a defect rate below -1 gives NaN, which the model matches as an undefined score. At exactly -1, `np.log1p` gives -inf, whose negation +inf becomes the quality column's maximum. That zeroes every other row's quality term and leaves that row's NaN. The model instead treats the row as undefined and normalises the others against the finite values only.
- Scoring.SortByScore: pandas' default sort is not stable, so the model's insertion sort is one admissible order; nothing is claimed about the order of equal scores.
- App.TopTen: when there are more than ten rows and fewer than ten defined scores, whether rows with an undefined score fill the remaining places depends on pandas' `nlargest`; the model fills them, undefined last.
- An empty demand table, and an empty SKU (the SKU list comes from the table), are not separate cases. The empty series is modelled, and its forecast has no result.
- Date parsing is reduced to "parsed" or "did not parse"; dates are integer day numbers.
- home.py renders headline figures and HTML; it is not part of this model.
- pages/1_Data_Upload.py is not part of this model:
  - it stores uploaded tables in the session, parsing demand dates and dropping unparsed ones as app.py:67-68 do (lines 15-17);
  - it draws random sample tables from a seeded generator (lines 20-33).
- pages/2_Supplier_Scorecard.py and pages/2_🏷️_Supplier_Scorecard.py both call `supplier_scores` (modelled as Scoring.SupplierScores), show the scored table and offer its first ten rows for download. pages/2_Supplier_Scorecard.py also charts it (lines 33-60). Neither is part of this model.
- pages/3_Demand_Forecast.py builds the same `sort_values`/`asfreq`/`bfill` series as app.py:75-80 (lines 19-25), but without coercing `qty`. It then calls `moving_average_forecast` (modelled as Forecast.MovingAverageForecast). That preparation is not modelled separately.
- The variant of pages/3_Demand_Forecast.py with the emoji name also draws weekday and weekly demand charts (lines 55-82). It is not part of this model.
- pages/4_🧪_What-If_Scenarios.py is not part of this model. It runs the same simulation with other charts, with two differences:
  - it sorts the demand table by date first;
  - it guards the delayed quantity with `notna().any()` instead of a positive backlog sum. Backlog is never negative (Simulator.TraceFacts), so the two guards give the same figure (Simulator.DelayedIsIncreases).
