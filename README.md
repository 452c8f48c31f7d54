# stock_monitor in Dafny

A model of the core of stock_monitor. The backend (`app.py`, FastAPI) values
stocks with a Gordon growth (dividend-discount) model, keeps a table of
watched stocks fresh, refreshes a whole-market table per market with status
reporting, and screens the watched stocks against their valuation interval.
The frontend pages label and draw those results.

The model has eight modules:

- **Valuation** (`valuation.dfy`): `calculate_valuation`.
  - The model is evaluated on the fixed 2×2 grid of growth rates {0.03, 0.05} and return rates {0.08, 0.15}.
  - Pairs whose retention lies outside [0, 1] are dropped. Lower and upper are the min and max over the survivors.
  - A fallback response is returned when no pair survives.
  - The mid point uses the fixed 0.05 / 0.10 and the exact point uses the caller's own rates.
  - `roe == 0` is the `ZeroDivisionError` outcome.
  - The loops are methods proved against the function `Valuate`.
- **MarketUpdate** (`market_update.dfy`): the shared status map `full_market_update_status` and the whole-market table, as a class.
  - `update_full_market_data_by_market` walks an abstract frame of rows. It upserts into a committed table plus a pending batch, commits every 100 rows and at the last row, and rolls back on a failed row.
  - `update_full_market_data_overall` runs the three markets and aggregates their results.
- **Refresh** (`refresh.dfy`): the stocks table as a class.
  - The record merge of a fetched quote, and the valuation recompute.
  - The two refresh loops: `update_watchlist_stocks`, where each row fails on its own, and `update_stock_data_for_symbols`, where the first raise ends the loop.
- **Screening** (`screening.dfy`): the counting loop of `screening_analysis` and the `valuation_status` filter of `get_stocks`, with SQL's NULL semantics.
- **Watchlist**, **Dashboard**, **RangeDisplay** (`watchlist.dfy`, `dashboard.dfy`, `range_display.dfy`): the status labels and colours of the two pages, the "-" test, the in-range flag, and the bar position arithmetic.
  - Watchlist's position is guarded; Dashboard's is not.
  - JavaScript's `x / 0` is modelled as NaN or an infinity.
- **Calculator** (`calculator.dfy`): the NaN guard and `convertToDecimal` of the valuation calculator page.
- **Common**, **Ui** (`common.dfy`): `Option`, Python truthiness, `min`/`max`, and the tag colours.

Inputs the source reads from outside are parameters:

- A market fetch is `FetchRaised` or a `Frame` of rows.
- A per-stock fetch result is a `Quote` or `NoData`.
- `now` stands in for the clock.
- The set `failing` names the rows whose write or commit raises.
- The set `raised` names the market tasks that ended with an exception.

Numbers are reals, without the 4-decimal rounding.

Four behaviours of app.py that the model keeps:

- The valuation interval is the min and max over the fixed grid of growth rates 0.03 / 0.05 and return rates 0.08 / 0.15 (app.py:241-282).
- The reported retention, dividend ratio and dividend per share come from the fixed mid point 0.05 / 0.10 (app.py:284-293 and 309-311).
- A market run resets its status entry without checking whether a run of that market is already in progress (app.py:367-372).
- An overall run in which every market failed ends 部分失败 / 99 (app.py:545-553).

## Model

| member | source | states |
|---|---|---|
| `Valuation.CalculateValuation` | app.py:239-320 | the response (or the ZeroDivisionError) is exactly `Valuate` of the four inputs |
| `Valuation.ScanGrid` | app.py:253-265 | the nested loops raise exactly when roe == 0 and some return rate exceeds some growth rate (always, on the fixed grid), and otherwise collect the ratios and prices of the surviving grid pairs in loop order |
| `Valuation.ScanRow` | app.py:254-265 | one pass of the inner loop over the return rates: rates at or below g are skipped first, it raises exactly when roe == 0 and some rate exceeds g, and otherwise appends the surviving pairs' ratios and prices |
| `Valuation.GordonRelations` | app.py:257-263 | at each pair: retention = g/roe, dividend ratio = 1 - retention, dividend = eps·(1 - retention), price = dividend/(r - g), ratio = price/eps |
| `Valuation.GordonClosedForm` | app.py:257-263 | price = bvps·(roe - g)/(r - g) and ratio = (roe - g)/((r - g)·roe) |
| `Valuation.RetainedIff` | app.py:257-259 | for a positive growth rate, a pair survives exactly when roe >= g |
| `Valuation.GridUnfolded` | app.py:241-265 | the surviving points are those of the four cells (0.03, 0.08), (0.03, 0.15), (0.05, 0.08), (0.05, 0.15), in loop order |
| `Valuation.GridSize` | app.py:241-265 | 4 pairs survive from roe 0.05 on, 2 from 0.03, none below 0.03 (negative roe included) |
| `Valuation.ZeroDivisionIff` | app.py:257 | the valuation raises ZeroDivisionError exactly when roe == 0 |
| `Valuation.FallbackIff` | app.py:267-277 | the fallback (eps, zeros, no mid or exact values) is returned exactly when roe is non-zero and below 0.03, a zero book value included (eps 0) |
| `Valuation.BoundsAreExtremes` | app.py:279-282 | lower <= upper for price and ratio; every surviving pair lies in the interval and both ends are attained by a pair |
| `Valuation.MidIff` | app.py:284-293 | the mid point uses 0.05 / 0.10 exactly when roe >= 0.05, and is all zeros otherwise |
| `Valuation.MidWithinBounds` | app.py:284-293 | from roe 0.05 on, the mid price and mid ratio lie inside [lower, upper] |
| `Valuation.ExactIff` | app.py:295-305 | exact price and ratio are the closed form at the caller's rates when rrr > pgr and 0 <= pgr/roe <= 1, and 0.0 otherwise |
| `Valuation.ExactWithinBounds` | app.py:295-305 | from roe 0.05 on, with the caller's rates inside the grid's ranges, the exact values lie inside [lower, upper] |
| `Valuation.RatesOnlyReachExact` | app.py:299-305 | the caller's growth and return rates change only the exact fields of the response |
| `Valuation.BetweenGridPoints` | app.py:241-265 | from roe 0.05 on, the model at any rates inside the grid's ranges lies between two grid points, in price and ratio |
| `Valuation.PointOrder` | app.py:257-263 | points are ordered by ratio as their (roe - g)/(r - g) is; prices follow the same order for positive book value and the reverse for negative |
| `Valuation.RatioInReturn` | app.py:253-262 | between the two return rates, (roe - g)/(r - g) falls as r rises |
| `Valuation.RatioInGrowth` | app.py:253-262 | between the two growth rates, (roe - g)/(r - g) lies between its values at either end |
| `Valuation.RatioCorners` | app.py:253-262 | inside the grid's ranges the ratio is bounded by grid corners |
| `Valuation.GridFull` | app.py:253-265 | from roe 0.05 on, all four grid pairs survive, in loop order |
| `Valuation.ExtremesOf` | app.py:279-282 | Python's min and max over a non-empty list bound every element and are attained |
| `Valuation.SeqMin` | app.py:279-282 | the minimum of a non-empty list: an element, and no larger than any |
| `Valuation.SeqMax` | app.py:279-282 | the maximum of a non-empty list: an element, and no smaller than any |
| `Valuation.MinMaxOfFour` | app.py:279-282 | min and max of four values in terms of pairwise min and max |
| `Valuation.WorkedExample` | app.py:239-320 | book value 133.1, roe 0.25, rates 0.03 / 0.10: retention 0.2, interval from the (0.03, 0.15) pair to the (0.05, 0.08) pair, mid price 532.4 and ratio 16 |
| `MarketUpdate.InitialStatusIdle` | app.py:37-42 | every market and overall start 空闲 / 未开始 / 0 |
| `MarketUpdate.MarketUpdater.constructor` | app.py:37-42 | the status map starts with every key idle |
| `MarketUpdate.MarketUpdater.RunMarket` | app.py:367-516 | a run changes only its own market's entry, which ends at `RunResult`; the table ends at `RunResult`'s table |
| `MarketUpdate.MarketUpdater.ProcessRows` | app.py:434-502 | the row loop leaves table, progress and message as the fold over the rows says; it stops at a row that escapes to the outer except |
| `MarketUpdate.MarketUpdater.ProcessRow` | app.py:434-502 | one row: skip on an empty symbol, roll back pending on a failed write, otherwise upsert, commit at every 100th and the last row, and set progress and message |
| `MarketUpdate.MarketUpdater.RunAll` | app.py:518-554 | overall is reset to 进行中 / 0, the three markets run in order, and the aggregation is applied |
| `MarketUpdate.MarketUpdater.AggregateResults` | app.py:533-554 | markets whose task raised become 失败 / -1; overall becomes 完成 / 100 when all succeeded, 部分失败 / 99 otherwise; the table is unchanged |
| `MarketUpdate.Upserted` | app.py:470-487 | an upsert sets name, price, change and last_updated, keeps an existing row's is_watchlist and starts a new row unwatched |
| `MarketUpdate.LookupCases` | app.py:470 | for a listing already in the committed table, the query returns that row with the changes the batch has made to it |
| `MarketUpdate.AbortSticks` | app.py:434-513 | after a row escapes to the outer except, later rows change nothing |
| `MarketUpdate.ProgressBounds` | app.py:492-497 | 5 + int(90·(i+1)/n) stays within [5, 95] |
| `MarketUpdate.ProgressMonotone` | app.py:492-497 | a later row never shows a smaller progress |
| `MarketUpdate.ProgressLast` | app.py:492 | the last row shows 95 |
| `MarketUpdate.FoldProgress` | app.py:489-498 | during the row loop progress stays within [5, 95] and at most the progress of the last row handled |
| `MarketUpdate.FoldProgressNonDecreasing` | app.py:489-498 | progress never decreases from one row to the next, skipped and failed rows included |
| `MarketUpdate.LastRowShows95` | app.py:489-498 | when the last row is written, progress reaches 95 before 完成 |
| `MarketUpdate.FoldAborted` | app.py:434-513 | the loop is left through the outer except exactly when some row's symbol column is missing (any market) or its 名称 column is missing (A股) |
| `MarketUpdate.RunTerminal` | app.py:386-513 | a run ends 完成 / 100 exactly after a non-empty fetch with no malformed row, and 失败 / -1 otherwise; failed row writes never change that |
| `MarketUpdate.WriteEffect` | app.py:470-491 | a written row upserts its listing in the session's view and leaves every other listing alone |
| `MarketUpdate.FailEffect` | app.py:500-501 | a failed write rolls back every change since the last commit, not just its own row, and skips the progress and message update without leaving the loop |
| `MarketUpdate.StepConfined` | app.py:452-491 | one row writes only into its own market |
| `MarketUpdate.FoldStaysInMarket` | app.py:434-502 | the whole row loop of a market writes only into that market |
| `MarketUpdate.OtherMarketsUntouched` | app.py:367-516 | a run of one market leaves every other market's rows of the table as they were |
| `MarketUpdate.LostFinalBatch` | app.py:448-516 | as written: a written row followed by an empty-symbol row is never committed, yet the run reports 完成 / 100 |
| `MarketUpdate.SkippedRowsKeepState` | app.py:448-450 | rows with an empty symbol change nothing |
| `MarketUpdate.CorrectedKeepsLastWrite` | app.py:489-506 | corrected: with the final batch committed, the last written row is in the table with its values |
| `MarketUpdate.AfterRuns` | app.py:522-531 | the three runs keep every key of the status map |
| `MarketUpdate.MarkRaised` | app.py:534-541 | marking raised markets keeps the keys of the status map |
| `MarketUpdate.MarkRaisedLater` | app.py:534-541 | marking the first k markets leaves later markets' entries alone |
| `MarketUpdate.MarkRaisedAt` | app.py:534-541 | each market's aggregated entry is 失败 / -1 when its task raised, and its own result otherwise |
| `MarketUpdate.AllSuccessfulIff` | app.py:533-543 | all_successful holds exactly when no market raised and each ended 完成 |
| `MarketUpdate.OverallOutcome` | app.py:518-554 | overall is 完成 / 100 iff no task raised and every fetch was clean, else 部分失败 / 99 (even when all fail); raised markets end 失败 / -1 |
| `Refresh.QuoteRoe` | app.py:350-354 | the fetched roe is 0.0 exactly when eps or book value is 0, and its ratios are finite |
| `Refresh.Merge` | app.py:573-581 | merging a quote (here and at lines 868-876) keeps the finite-ratio invariant of a row |
| `Refresh.SymbolRefreshed` | app.py:866-896 | a refreshed row keeps the finite-ratio invariant; None is the uncaught ZeroDivisionError |
| `Refresh.SymbolsStep` | app.py:864-898 | one pair keeps the table's finite-ratio invariant |
| `Refresh.SymbolsFold` | app.py:864-900 | the loop keeps the table's finite-ratio invariant |
| `Refresh.ZipLength` | app.py:864 | zip stops at the shorter list |
| `Refresh.StockStore.constructor` | app.py:564-567 | the store starts with the given rows |
| `Refresh.StockStore.UpdateWatchlistStocks` | app.py:564-605 | the table ends as `WatchlistRefresh`: each auto-update row whose commit succeeds is refreshed, the rest unchanged, whatever the row order |
| `Refresh.StockStore.UpdateStockDataForSymbols` | app.py:862-900 | the table and the abort flag end as the fold over zip(symbols, markets), which stops at the first raise |
| `Refresh.InOrderRowByRow` | app.py:570-605 | after k distinct rows, each visited row whose commit succeeded holds its refresh and every other row is unchanged |
| `Refresh.InOrderIsOrderFree` | app.py:570-605 | the loop's result does not depend on the order the rows come in |
| `Refresh.SymbolsAbortSticks` | app.py:863-900 | once a raise ends the loop, later pairs change nothing |
| `Refresh.ZeroRoeRaises` | app.py:878-892 | a fetched roe of 0.0 (line 354) with both rates set raises ZeroDivisionError, which `except ValueError` does not catch |
| `Refresh.ZeroRoeStopsRemaining` | app.py:863-900 | after that raise every remaining pair is left as it was |
| `Refresh.ZeroRoeKeepsOldValuation` | app.py:583-597 | in the watchlist refresh the same quote skips the valuation: the old interval and mid values stay |
| `Refresh.NoRevaluationKeepsInterval` | app.py:583-597 | without all four inputs truthy, the old (possibly stale) valuation columns stay |
| `Refresh.EmptyFetchKeepsMarketData` | app.py:573-599 | an empty fetch keeps every market-data column and only updates last_updated |
| `Refresh.StoredIntervalOrdered` | app.py:583-595 | a recomputed interval is ordered; from roe 0.05 on the mid values lie inside; below 0.03 it is [0, 0] with no mid values |
| `Refresh.RefreshesAgree` | app.py:868-892 | the two refresh paths (this one and lines 573-597) agree on a fetched row whose four inputs are non-zero |
| `Refresh.WatchlistKeepsStoreOk` | app.py:564-605 | the watchlist refresh keeps the table's finite-ratio invariant |
| `Screening.Classify` | app.py:925-935 | each band in both directions: unknown iff a value is missing, reasonable iff lower <= pe <= upper, undervalued iff pe < lower, overvalued iff lower <= pe and pe > upper |
| `Screening.Count` | app.py:924-935 | a band's count never exceeds the number of stocks |
| `Screening.ScreeningAnalysis` | app.py:915-942 | total is the number of stocks, each counter is its band's count, and the counters sum to total |
| `Screening.CountsSumToTotal` | app.py:924-935 | every stock is counted exactly once |
| `Screening.ParseStatus` | app.py:654-664 | an absent or empty parameter means no filter; an unknown value is a 400 |
| `Screening.Select` | app.py:654-662 | the filter never returns more rows than the table has |
| `Screening.SelectExact` | app.py:654-662 | a row is selected iff it is in the table and the status's SQL predicate holds |
| `Screening.FilterStocksExact` | app.py:654-664 | with a status, exactly the matching rows are returned; any other non-empty text is HTTP 400 |
| `Screening.FilterAgreesWithScreening` | app.py:654-662 | for complete rows 低估 and 合理 select exactly the undervalued and reasonable bands, 高估 the overvalued one when lower <= upper, 数据缺失 nothing |
| `Screening.StatusesDisjoint` | app.py:654-662 | with lower <= upper, at most one status selects a row |
| `Screening.PartlyMissingRow` | app.py:654-662 | a partly missing row is counted unknown, is not selected by 数据缺失, and can be selected by 低估 |
| `Screening.UnknownVersusMissing` | app.py:654-662 | an unknown row is selected by 数据缺失 iff all three values are missing, and never by 合理 |
| `Watchlist.ColorFollowsText` | frontend/src/pages/Watchlist.tsx:207-233 | getStatusColor follows getStatusText's case split: default, success, error, processing |
| `Watchlist.ReasonableOnlyInRange` | frontend/src/pages/Watchlist.tsx:207-219 | 合理 is reached exactly when all three values are set and lower <= pe <= upper |
| `Watchlist.AgreesWithFilter` | frontend/src/pages/Watchlist.tsx:207-219 | 合理 iff the backend's 合理 filter selects the row; 低估 and 高估 rows are selected by their filter (both ways for complete rows); 数据缺失 selection implies the label |
| `Watchlist.PositionInBounds` | frontend/src/pages/Watchlist.tsx:42-46 | positions of values within the four lie in [0, 100]; the smallest maps to 0 and the largest to 100, or every position is 50 when all four are equal |
| `Watchlist.PositionMonotone` | frontend/src/pages/Watchlist.tsx:42-52 | positions keep the values' order, so the fill never has negative width |
| `Dashboard.ColorFollowsText` | frontend/src/pages/Dashboard.tsx:254-270 | getStatusColor follows getStatusText's case split: default, processing, success, error |
| `Dashboard.TextMatchesScreening` | frontend/src/pages/Dashboard.tsx:263-270 | the label is the band screening_analysis counts the row in |
| `Dashboard.UnknownOnlyWhenMissing` | frontend/src/pages/Dashboard.tsx:263-270 | 未知 iff a value is missing: the final `return '未知'` is unreachable for numbers |
| `Dashboard.InRangeIffReasonable` | frontend/src/pages/Dashboard.tsx:263-270 | the ratio bar's in-range flag (line 65) holds exactly when the row is labelled 合理 |
| `Dashboard.AgreesWithWatchlist` | frontend/src/pages/Dashboard.tsx:263-270 | both pages label every row alike: 合理/合理, 偏低/低估, 偏高/高估, 未知/数据缺失 |
| `Dashboard.PositionMatchesGuarded` | frontend/src/pages/Dashboard.tsx:52-56 | with non-zero width, this page's position is the Watchlist page's guarded one |
| `Dashboard.EqualValuesGiveNaN` | frontend/src/pages/Dashboard.tsx:46-56 | as written: four equal non-zero values pass the "-" test and every position is NaN |
| `Dashboard.GuardedPositions` | frontend/src/pages/Dashboard.tsx:52-63 | corrected with the zero-width guard: every drawn position lies in [0, 100], equal values at 50 |
| `RangeDisplay.LowRoeRowHidden` | frontend/src/pages/Watchlist.tsx:37-40 | a stock revalued with roe below 0.03 has no mid values, so both its bars show "-" |
| `RangeDisplay.RevaluedBarOrdered` | frontend/src/pages/Watchlist.tsx:42-52 | a stock revalued from roe 0.05 on has lower <= mid <= upper, so the mid line is drawn inside the fill |
| `Calculator.PercentToFraction` | frontend/src/pages/ValuationCalculator.tsx:43-49 | a value in (0, 100] becomes v/100, which lies in (0, 1] |
| `Calculator.PassThrough` | frontend/src/pages/ValuationCalculator.tsx:43-49 | values <= 0 or > 100 pass unchanged; null becomes undefined |
| `Calculator.NotIdempotent` | frontend/src/pages/ValuationCalculator.tsx:43-49 | a converted rate is divided by 100 again: the conversion is not idempotent |
| `Calculator.NaNGuard` | frontend/src/pages/ValuationCalculator.tsx:33-41 | a request is sent exactly when no input is NaN |
| `Calculator.OnlyRatesConverted` | frontend/src/pages/ValuationCalculator.tsx:51-62 | book value is sent as typed; roe and the two rates are converted, and none is sent undefined |
| `Calculator.DefaultRates` | frontend/src/pages/ValuationCalculator.tsx:51-62 | the page's initial rates 3 and 10 (lines 27-28) are sent as 0.03 and 0.10 |
| `Common.Min4` | frontend/src/pages/Watchlist.tsx:42 | Math.min of four values is one of them and no larger than any |
| `Common.Max4` | frontend/src/pages/Watchlist.tsx:43 | Math.max of four values is one of them and no smaller than any |

## Left out

- Valuation.CalculateValuation: the 4-decimal `round` is not modelled. Inputs with book value 0 and roe ≥ 0.03 are excluded by a precondition, because at least one grid pair survives and its ratio would be `float('inf')`. Book value 0 with roe below 0.03 (negative included) is modelled: the fallback with eps 0.
- Refresh.StockStore.UpdateStockDataForSymbols: requires every stored row with book value and roe to have finite ratios. A row stored with book value 0 and roe ≥ 0.03 (only possible through a direct write) is not modelled.
- MarketUpdate.LookupCases: a listing inserted earlier in the same batch is found and merged by the model. In the source the session does not autoflush (app.py:87), so the query at app.py:470 misses it and a second row is added. The symbol column is unique (app.py:118), so the batch commit raises and the per-row except (app.py:500-501) rolls back the whole batch, up to 100 rows. The model does not capture that loss.
- The per-stock market-data fetch (akshare, pandas parsing) is a parameter. Only its output contract is modelled: the empty result, or every key present with roe = eps / bvps, or 0.0 when bvps is 0.
- The database is a map.
  - Session autoflush and the unique constraint are not modelled (see MarketUpdate.LookupCases above). The unique constraint is on the symbol alone, while the model's key is the symbol within a market.
  - `expire_all`, `refresh` and `close` are not modelled, except that close discards what is pending.
- The three market tasks run one after another. `asyncio.gather`'s interleaving writes disjoint status keys and table rows.
- The aggregator's own except (失败 / -1 for overall) is not modelled; nothing in the modelled aggregation raises.
- The unsupported-market `HTTPException` is not modelled; the market type is a datatype with the three markets.
- The status messages keep their kind and counts but not their text or the embedded exception text. Logging is left out.
- The time-stamp is a parameter `now`.
- `int(90 * (i + 1) / len(df))` is computed as integer floor division, which equals truncating the float quotient for these positive values. Float rounding is not modelled.
- A frame row's price and change strings that fail `float()` are part of the row's `fails` flag, not parsed.
- The search, market, ordering and pagination parts of `get_stocks` are not modelled, nor its `X-Total-Count` header.
- The 400 of `calculate_valuation_api` for a `ValueError` is not modelled (the valuation raises none).
- The CRUD, watchlist-toggle and trigger endpoints, the scheduler and the memory monitor are not modelled.
- UI rendering, `toFixed`, React state, axios and the message pop-ups are not modelled.
- The calculator page's `parseFloat` is an input: a number or NaN. JavaScript's `Infinity` from parsing is not modelled.
- PriceRangeDisplay (Dashboard.tsx:115-133, Watchlist.tsx:94-112) is the same code as PERangeDisplay and shares its model.

## Findings

| source | as written | input that shows it | evidently intended | confidence | as-written member | corrected member |
|---|---|---|---|---|---|---|
| app.py:448-450, 489-491, 516 | a batch commits only when the row at a commit point is written; if the last rows skip (empty symbol), the pending batch is discarded at close while the market reports 完成 / 100 | A-share frame [600000 浦发银行 at 10.0 / 1.0, a row with an empty symbol] | the final batch is committed whenever the run ends 完成 | not executed | `MarketUpdate.LostFinalBatch` | `MarketUpdate.CorrectedKeepsLastWrite` |
| frontend/src/pages/Dashboard.tsx:52-56 | getPosition divides by max - min with no guard | lower = mid = upper = current = 10 (not all zero, so the bar is drawn) | return 50 for a bar of zero width, as Watchlist.tsx:46 does | not executed | `Dashboard.EqualValuesGiveNaN` | `Dashboard.GuardedPositions` |
