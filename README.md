# InventoryAI forecast flow, modelled in Dafny

InventoryAI lets a user upload a sales CSV and pick a start month and an end month one to six months after it, so a forecast covers two to seven months. A Python backend then forecasts sales per product and month, and a React page shows the result. This project models the core of that flow and proves properties of the model. The parts are:

- **FileUpload** (`file_upload.dfy`): the drop zone and picker. It accepts a file whose media type is `text/csv` or whose name ends in `.csv`. It keeps an idle, success or error status and a drag-active flag, and hands the file (or null) to the page.
- **Dashboard** (`dashboard.dfy`): the page controller. It is a class whose fields are the page's state: uploaded file, preview rows, start and end month, the in-flight flag, and the last forecast and whether it is shown. Its methods are the event handlers. Beside it are the month-picker bounds: the earliest start month, and an end window of one to six months after the start, with year rollover.
- **ForecastDisplay** (`forecast_display.dfy`): pure derivations from the `forecasted_products` list (`[{ "<date>": { "<product>": value } }]`):
  - the product names;
  - one trend row per month;
  - the latest-month bars;
  - per-product totals (`pieChartData`, computed but never rendered: the page imports `PieChart` and draws no pie);
  - the per-month card labels;
  - what the component renders (nothing, a "no data" message, a thrown TypeError, or the charts).
- **forecasting.py** (`forecasting.dfy`): the structural part of the backend, where fitted values are opaque.
  - `preprocess_panel` reindexes every product onto one global month grid.
  - `forecast_panel` writes one record per kept product and forecast month, with the last-value fallback.
  - `run_forecast` builds `forecasted_products` in month order and decides whether metric keys are present.
  - The loops are methods, each proved equal to a specification function.
- **End to end** (`pipeline.dfy`): what the `/forecast` endpoint returns for a `run_forecast` result, what the page does with it, and what ForecastDisplay then shows.

Shared pieces:
- `wrappers.dfy`: Option and Result.
- `pairs.dfy`: key/value lists in insertion order and their keys, as a Python dict built by assignment and the object `JSON.parse` makes of it enumerate them.
- `decimal.dfy`: decimal digit strings, `String(n)` and `padStart`.
- `calendar.dfy`: months as the integer `year * 12 + (month - 1)`, so `new Date(y, m + k, 1)` is `+ k`, and the `"YYYY-MM"` text.
- `product_order.dfy`: Python's string order, and the sorted distinct codes `groupby` iterates.

Behaviours of the code that the model keeps as they are:
- The end-month window is S+1 through S+6, so the start month S itself cannot be picked as the end.
- The accept rule is case-sensitive: `.CSV` is rejected unless the media type is `text/csv`.
- No guard drops a stale response. The handler only checks that file, start and end are present; it never checks `isGenerating` or the window.
- `response.ok` is never checked. Any JSON body replaces the forecast.
- The backend returns no `meta` object. The display reads `meta.method` without a guard, so every successfully served forecast throws a TypeError on render (`Pipeline.ServedForecastFailsToRender`).

## Model

| member | source | states |
|---|---|---|
| Upload.AcceptsIff | frontend/src/components/FileUpload.jsx:18 | a file is accepted exactly when its type is `text/csv` or its name is some stem followed by `.csv` |
| Upload.UpperCaseSuffixRejected | frontend/src/components/FileUpload.jsx:18 | the suffix test is case-sensitive: `DATA.CSV` is rejected with another media type, accepted with `text/csv` |
| Upload.FileUpload.constructor | frontend/src/components/FileUpload.jsx:7-8 | starts idle with an empty name and no drag in progress |
| Upload.FileUpload.HandleFile | frontend/src/components/FileUpload.jsx:10-26 | calls the callback exactly once. Null: status idle with an empty name, callback gets null. Accepted: success with the file's name, callback gets the file. Rejected: error with the file's name, callback gets null |
| Upload.FileUpload.HandleDrag | frontend/src/components/FileUpload.jsx:28-36 | `dragenter`/`dragover` set the flag, `dragleave` clears it, any other event leaves it unchanged |
| Upload.FileUpload.HandleDrop | frontend/src/components/FileUpload.jsx:38-45 | always clears the flag. Only the first file is handled, and only if there is one; with none, status and callback are untouched |
| Upload.FileUpload.HandleChange | frontend/src/components/FileUpload.jsx:47-53 | only the first chosen file is handled, if any; the input value is always reset to `''` |
| Calendar.DateOfParts | frontend/src/pages/Dashboard.jsx:69 | `new Date(y, m, 1)` with `0 <= m < 12` has year y and month m+1 |
| Calendar.DateOfYearMonth | frontend/src/pages/Dashboard.jsx:75-76 | rebuilding a date from its `getFullYear()` and `getMonth()` gives the same month |
| Calendar.ParseMonthText | frontend/src/pages/Dashboard.jsx:65-66 | for four-digit years, `formatMonth` gives a 7-character `"YYYY-MM"` text that reads back as the same month |
| Calendar.MonthTextInjective | frontend/src/pages/Dashboard.jsx:65-66 | distinct months get distinct `formatMonth` texts |
| Decimal.NatToString | frontend/src/pages/Dashboard.jsx:66 | `String(n)` is a non-empty digit string with value n and no leading zero |
| Decimal.PadStart2Month | frontend/src/pages/Dashboard.jsx:66 | the padded month is two digits whose value is the month |
| DashboardPage.MinStartMonth | frontend/src/pages/Dashboard.jsx:68-69 | the earliest start is the month after today; December rolls over to January of the next year |
| DashboardPage.WindowIsShift | frontend/src/pages/Dashboard.jsx:75-76 | the end bounds of a start month S are the texts of S+1 and S+6 |
| DashboardPage.EndWindow | frontend/src/pages/Dashboard.jsx:73-77 | for a readable start month S, the end input's min reads as S+1 and its max as S+6, so S itself is outside the window |
| DashboardPage.EndWindowRollsOver | frontend/src/pages/Dashboard.jsx:73-77 | a start of 2025-09 gives the window 2025-10 to 2026-03 |
| DashboardPage.Dashboard.constructor | frontend/src/pages/Dashboard.jsx:11-18 | the page starts with no file, no data, empty months, nothing generating and nothing shown |
| DashboardPage.Dashboard.CanGenerateIff | frontend/src/pages/Dashboard.jsx:128 | the button is enabled exactly when file, start and end are set and no request is outstanding |
| DashboardPage.Dashboard.HandleDataUpload | frontend/src/pages/Dashboard.jsx:20-24 | null keeps the previous file and name; a file is stored with its name |
| DashboardPage.Dashboard.CompleteCsvParse | frontend/src/pages/Dashboard.jsx:30-33 | a completed preview parse replaces the preview rows and hides the forecast, so ForecastDisplay is unmounted (the mount condition of lines 143-145) |
| DashboardPage.Dashboard.ChangeStartMonth | frontend/src/pages/Dashboard.jsx:103-119 | changing the start month stores it and always clears the end month; the end input is disabled exactly when the new start is empty, and then its min and max are empty too |
| DashboardPage.Dashboard.ChangeEndMonth | frontend/src/pages/Dashboard.jsx:116 | stores the end month |
| DashboardPage.Dashboard.BeginGenerateForecast | frontend/src/pages/Dashboard.jsx:37-45 | sends nothing and changes nothing unless file, start and end are all present (no check of the window or of `isGenerating`). Otherwise marks the request outstanding and posts the file, its name and both months |
| DashboardPage.Dashboard.FinishGenerateForecast | frontend/src/pages/Dashboard.jsx:52-60 | a parsed body replaces the forecast and shows it, so ForecastDisplay is mounted with exactly that body when it is not null (lines 143-145); a throw alerts and leaves the forecast, its visibility and what is mounted unchanged. The request is no longer outstanding either way |
| DashboardPage.ChooseFile | frontend/src/pages/Dashboard.jsx:20-24 | a rejected file shows an error but the page keeps the file accepted before it, so the button state does not change |
| ForecastDisplay.Render | frontend/src/components/ForecastDisplay.jsx:16-98 | no data renders nothing; missing or empty `forecasted_products` renders only the message; otherwise an unreadable `meta` throws. Charts have one trend row and one card per entry, the first entry's keys as product names, the key count of `last_dates_per_product` as product count, a Period tile exactly when both months are set, showing the two months as `formatDisplayMonth` renders them. The line chart gets `LineChartData` (whose rows `TrendRowLookup` and `TrendRowShape` describe), the bar chart gets `BarChartData` (`BarsFollowProductNames`), and the i-th card carries the i-th entry's date and, per product key in order, its `CellLabel`. No pie is rendered |
| ForecastDisplay.Lookup | frontend/src/components/ForecastDisplay.jsx:51 | reading a key gives a value exactly when the key is present, and the value is the one stored with it |
| ForecastDisplay.AssignLookup | frontend/src/components/ForecastDisplay.jsx:36-37 | after assigning k, k reads as the new value and every other key as before |
| ForecastDisplay.SpreadLookup | frontend/src/components/ForecastDisplay.jsx:36-37 | after spreading the products, a product key reads as its cell and any other key as before |
| ForecastDisplay.TrendRowLookup | frontend/src/components/ForecastDisplay.jsx:32-39 | a trend row reads every product as its cell, and `date` as the entry's date label unless a product is itself named `date` |
| ForecastDisplay.TrendRowShape | frontend/src/components/ForecastDisplay.jsx:32-39 | with no product named `date`, a row is the date label followed by every product/value pair, in order |
| ForecastDisplay.SpreadAppends | frontend/src/components/ForecastDisplay.jsx:36-37 | spreading keys new to the object appends them in order |
| ForecastDisplay.BarsFollowProductNames | frontend/src/components/ForecastDisplay.jsx:30-47 | the bars name the product names exactly when the last entry has the first entry's keys |
| ForecastDisplay.RoundHalfUp | frontend/src/components/ForecastDisplay.jsx:46 | the rounded value is the nearest integer, the larger one on a tie |
| ForecastDisplay.ToFixed0 | frontend/src/components/ForecastDisplay.jsx:46 | `toFixed(0)` is the rounded magnitude's digits, with a minus sign for a negative value |
| ForecastDisplay.ToFixed0Digits | frontend/src/components/ForecastDisplay.jsx:46 | the text is all digits exactly for non-negative values, and has a non-zero digit exactly from 0.5 up |
| ForecastDisplay.ToNumber | frontend/src/components/ForecastDisplay.jsx:56 | a text starting with a digit converts exactly when it is all digits, to its decimal value |
| ForecastDisplay.PieChartDataAsWritten | frontend/src/components/ForecastDisplay.jsx:49-56 | as written: an item per product name whose concatenated total compares `> 0`, carrying that total |
| ForecastDisplay.PieceShape | frontend/src/components/ForecastDisplay.jsx:52-53 | the piece a cell appends is all digits unless it is a negative number, and non-zero exactly for a number from 0.5 up |
| ForecastDisplay.TextTotalPositive | frontend/src/components/ForecastDisplay.jsx:50-54 | once the total is a string, it ends `> 0` exactly when no later cell is negative and some digit is non-zero |
| ForecastDisplay.PieItemsAsWrittenInOrder | frontend/src/components/ForecastDisplay.jsx:49-56 | as written, the items name the accepted product names once each, in the order of the names |
| ForecastDisplay.PieKeptAsWritten | frontend/src/components/ForecastDisplay.jsx:49-56 | as written, a product is kept exactly when none of its forecasts is negative and one rounds to at least 1 |
| ForecastDisplay.PieTotalConcatenates | frontend/src/components/ForecastDisplay.jsx:49-56 | as written, months of 12 and 5 total the string `"0125"`, where the sum is 17 |
| ForecastDisplay.PieChartData | frontend/src/components/ForecastDisplay.jsx:49-56 | corrected: an item per product name whose arithmetic total is positive, carrying that total |
| ForecastDisplay.PieItemsInOrder | frontend/src/components/ForecastDisplay.jsx:49-56 | corrected, the items name the product names with a positive total once each, in the order of the names |
| ForecastDisplay.PieTotalAdditive | frontend/src/components/ForecastDisplay.jsx:49-56 | the corrected total over two runs of months is the sum of their totals |
| ForecastDisplay.PieTotalPositive | frontend/src/components/ForecastDisplay.jsx:49-56 | with no negative forecasts, the corrected total is non-negative, and positive exactly when some month rounds to at least 1; a product with no valid cell totals 0 |
| ForecastDisplay.PieFiltersAgree | frontend/src/components/ForecastDisplay.jsx:49-56 | for non-negative forecasts, the as-written and corrected filters keep the same products |
| ForecastDisplay.CellLabel | frontend/src/components/ForecastDisplay.jsx:153 | a card shows "N/A" exactly for null or NaN, otherwise the rounded digits |
| ForecastDisplay.NullIsNotZero | frontend/src/components/ForecastDisplay.jsx:153 | null shows as "N/A" and 0 as "0" |
| ForecastDisplay.FormatDisplayMonth | frontend/src/components/ForecastDisplay.jsx:65-70 | the empty month shows nothing, and only the empty month does |
| ForecastDisplay.DisplayMonthOfText | frontend/src/components/ForecastDisplay.jsx:65-70 | a picked `"YYYY-MM"` month is shown as that month |
| ProductOrder.LessTotal | backend/forecasting.py:25 | any two different product codes are ordered one way or the other |
| ProductOrder.LessTransitive | backend/forecasting.py:25 | the code order is transitive |
| ProductOrder.SortedCodes | backend/forecasting.py:75 | `groupby` meets each distinct code once, in ascending order |
| ProductOrder.AscendingDistinct | backend/forecasting.py:75 | ascending codes are pairwise different |
| Forecasting.MonthRange | backend/forecasting.py:152 | every month start from first to last inclusive, ascending; empty when the end precedes the start |
| Forecasting.MonthRangeMembers | backend/forecasting.py:152 | a month is in the range exactly when it lies between the bounds |
| Forecasting.Earliest | backend/forecasting.py:40 | no row is earlier than the grid's first month |
| Forecasting.Latest | backend/forecasting.py:41 | no row is later than the grid's last month |
| Forecasting.BoundsAttained | backend/forecasting.py:40-42 | the grid's first and last months are months some row has |
| Forecasting.DuplicateInSpec | backend/forecasting.py:46-47 | a repeated month is reported exactly when two rows of the product share a month, and the reported month is one they share |
| Forecasting.SalesAtRow | backend/forecasting.py:46-47 | a sales value on the grid comes from a row of that product and month |
| Forecasting.SalesAtUnique | backend/forecasting.py:46-47 | without repeated months, each row's sales land at its own month |
| Forecasting.FillGaps | backend/forecasting.py:51-55 | filling keeps every observed value, fills every gap when some value is observed, and leaves an all-empty series empty |
| Forecasting.FirstDuplicate | backend/forecasting.py:45-47 | the product reported for a repeated month is one of the products and really repeats that month; no report means no product repeats one |
| Forecasting.ProcessedPanel | backend/forecasting.py:37-68 | fails with no rows exactly when there are none. On success the grid runs from the earliest to the latest month, and there is one series per training product, each with one value per grid month |
| Forecasting.ProcessedPanelErrors | backend/forecasting.py:37-68 | preprocessing succeeds exactly when there are rows and no product month is given twice; a reported duplicate is a real one |
| Forecasting.PreprocessPanel | backend/forecasting.py:44-65 | the per-product loop returns the panel `ProcessedPanel` specifies, or its error |
| Forecasting.ObservedRows | backend/forecasting.py:46-47 | on the global grid every row of a product sits at its month's place |
| Forecasting.ObservedSome | backend/forecasting.py:46-47 | a product's grid has a value exactly when one of its rows carries one |
| Forecasting.ProcessedSales | backend/forecasting.py:45-55 | after preprocessing, a product's series is a value in every month when one of its rows carries a value, and empty in every month otherwise |
| Forecasting.ProcessedKeepsRows | backend/forecasting.py:45-55 | after preprocessing, each row's observed sales value sits in its product's series at the row's month |
| Forecasting.MergedRows | backend/forecasting.py:65-67 | the merged frame holds one row per grid month and product |
| Forecasting.MergedRowsSorted | backend/forecasting.py:65-67 | the merged frame is strictly sorted by (date, product_code) |
| Forecasting.ProcessedRowsSorted | backend/forecasting.py:65-67 | the frame `preprocess_panel` returns is rectangular and sorted by (date, product_code) |
| Forecasting.CountNonNull | backend/forecasting.py:77 | a series has no non-null value exactly when every entry is empty |
| Forecasting.LastNonNull | backend/forecasting.py:103 | the last non-null value: present exactly when some value is, and nothing non-null follows it |
| Forecasting.PlanFor | backend/forecasting.py:81-115 | the constant fallback is taken exactly when Prophet is in use and fails, or otherwise with fewer than 12 values or a failed Holt-Winters fit. It is the last non-null value, or 0.0 when there is none |
| Forecasting.KeptProducts | backend/forecasting.py:75-78 | the products forecast are exactly those whose series has a non-null value, kept in ascending order |
| Forecasting.RecordsForStep | backend/forecasting.py:75-115 | each product appends its records after the earlier products' records |
| Forecasting.AppendProductRecords | backend/forecasting.py:98-115 | each branch's inner loop appends exactly the product's records, one per forecast month, after the records already there |
| Forecasting.ForecastPanel | backend/forecasting.py:73-116 | the nested loops produce the records `PanelForecasts` specifies, or the error an empty result raises |
| Forecasting.SelectAppend | backend/forecasting.py:160 | selecting a month from two runs of records selects from each in turn |
| Forecasting.SelectProductRecords | backend/forecasting.py:98-115 | a product's records hold exactly one record of each forecast month |
| Forecasting.SelectRecords | backend/forecasting.py:157-161 | a month's object lists exactly the kept products, in their order |
| Forecasting.SelectedForecasts | backend/forecasting.py:157-161 | each product in a month's object carries that product's forecast for the month |
| Forecasting.CollectEntries | backend/forecasting.py:157-161 | the month loop builds exactly the entries `ForecastEntries` specifies, one per month in order |
| Forecasting.RunForecast | backend/forecasting.py:144-192 | the month loop builds exactly the result `ForecastResult` specifies: preprocessing, reading both months, forecasting the panel, then assembling the output |
| Forecasting.RecordsForEmpty | backend/forecasting.py:75-116 | no record is produced exactly when there is no forecast month or no kept product |
| Forecasting.SeriesOfIndex | backend/forecasting.py:75-76 | with distinct products, looking a product up finds its own series |
| Forecasting.KeptAreSold | backend/forecasting.py:77-78 | the backend forecasts exactly the training products with at least one sales value |
| Forecasting.RunForecastMonths | backend/forecasting.py:150-161 | a successful run has both months readable, start no later than end, and one entry per month of the range |
| Forecasting.EntriesDated | backend/forecasting.py:157-159 | the i-th entry is keyed by the `YYYY-MM-DD` date of the i-th month after the start |
| Forecasting.RunForecastProducts | backend/forecasting.py:157-161 | every entry lists exactly the kept products in the same order, and there is at least one |
| Forecasting.RunForecastMetrics | backend/forecasting.py:164-186 | `metrics` has keys exactly when there are test actuals, and `aggregated_metrics` has its four keys exactly then |
| Forecasting.EntriesFollowKept | backend/forecasting.py:157-161 | every month's entry lists exactly the kept products, in their order |
| Forecasting.MetricKeysPresent | backend/forecasting.py:164-172 | with at least one record, metric keys exist exactly when there are test actuals |
| Pipeline.Serve | backend/main.py:449-496 | the page's fetch throws exactly when `run_forecast` raises or a forecast is NaN; otherwise the body has one entry per month and no `meta` |
| Pipeline.ServedValues | backend/main.py:491-496 | each served cell is the backend's forecast for that product and month |
| Pipeline.ServedForecastFailsToRender | backend/forecasting.py:188-192 | every forecast the page receives makes ForecastDisplay throw a TypeError, since the body has entries but no `meta` |
| Pipeline.ServedEntriesAgree | backend/forecasting.py:157-161 | every served entry lists the kept products in the same order, so the product names and the latest-month bars agree |
| Pipeline.SubmitForecast | frontend/src/pages/Dashboard.jsx:37-61 | pressing Generate sends the page's months; the page alerts exactly when the served response throws, keeps its file and months, and a taken response is shown and fails to render |

## Left out

- Fitted values: Prophet and Holt-Winters are opaque functions in `Forecasting.Fits`. A fit that raises is `None`. The gap-filling chain (rolling mean, month average, interpolate, ffill, bfill) is an opaque `gapFill` value per product and month.
- Floating point: sales and forecasts are exact reals. The `round(forecast, 2)` at `backend/forecasting.py:161` and binary rounding before `toFixed` are not modelled.
- Metric values (`compute_metrics_series`, `smape`, the aggregate means) are left out. Only whether the metric keys are present is modelled.
- The regressor columns (`mrp`, `discount`, `rating`) and their fills are left out.
- CSV reading is input, not model: `read_csv`, the date formats `to_datetime` accepts, the column assertion, and the missing-file error. Training rows arrive as `Forecasting.Observation` values with the month already truncated.
- Forecasting.ProcessedPanel: a product code that pandas drops from `groupby` (a missing code) is not modelled, nor are pandas' timestamp year bounds.
- Forecasting.PanelForecasts: the records stay product by product and are not re-sorted by (date, product_code). The per-month selection `run_forecast` makes is the same either way (`Forecasting.SelectRecords`, `Forecasting.SelectedForecasts`).
- Calendar.ParseMonth: reads only `"YYYY-MM"` with a four-digit year, the text a month input gives. `pd.to_datetime` and `new Date` accept many more forms.
- ForecastDisplay.FormatDisplayMonth: only `"YYYY-MM"` texts are read. For other strings the source splits at `-` and lets `new Date` normalise (a month 13 rolls into the next year); the model shows them as an invalid date. `new Date(y, m, 1)` also maps the years 0 to 99 to 1900 + y; the model keeps the year as written.
- ForecastDisplay.ToFixed0: the exponent form `toFixed` uses from 1e21 up is not modelled.
- `toLocaleDateString` is not modelled: trend rows carry the entry's date key (`ForecastDisplay.Field`), and cards carry the date key rather than the rendered month name. `toUpperCase` of the method name is also left out.
- ProductOrder.SortedCodes: product codes are taken as text and ordered as Python strings. `pd.read_csv` (`backend/forecasting.py:23`) infers integers for an all-numeric `product_code` column, and then the sort and the `groupby` order are numeric (9 before 10).
- Forecasting.ForecastResult: a NaN forecast for a month that has a test actual makes `mean_squared_error` (`backend/forecasting.py:137`) raise, so `run_forecast` raises. Metric values are not modelled, so the model reports success with metric keys for such a run. The page still sees a throw for any NaN forecast, through `Pipeline.Serve`.
- Pairs.Keys: JavaScript lists integer-like keys (a product code such as `"123"`) first, in numeric order; objects here keep the order the JSON lists them in.
- DashboardPage.EndBounds: `new Date("YYYY-MM")` is UTC midnight, so west of UTC `getMonth()` gives the month before. The model reads the start as that exact month, as the window intends. `new Date(y, m + k, 1)` maps the years 0 to 99 to 1900 + y; the month arithmetic of `Calendar` keeps the year as written, which differs only for such years.
- `Papa.parse` is the event `CompleteCsvParse` carrying the rows. `fetch` and `response.json()` are the outcome value `FetchOutcome`. `alert` is the returned flag, and `console` output is dropped.
- Concurrency: the model lets `FinishGenerateForecast` follow any state, including one changed after the request started. Interleavings of several outstanding requests are not enumerated.
- Pipeline.Serve: a NaN among the metric values, which would also make the response fail, is not seen because metric values are not modelled.
- The endpoint's printing and temporary file (`backend/main.py:449-496`) are I/O. The commented-out implementations in that file are not part of this model.
- `frontend/src/services/api.js` is never called by the page and is not part of this model. Nor are `Analytics.jsx`, `Header.jsx`, `App.jsx` and `Layout.jsx` (static markup and routing), Recharts rendering, styling or theme.

## Findings

| source | as written | input that shows it | evidently intended | confidence | as-written member | corrected member |
|---|---|---|---|---|---|---|
| frontend/src/components/ForecastDisplay.jsx:49-56 | the reduce adds `Number(value).toFixed(0)`, a string, to the running sum, so the total is a concatenation of digit strings after a leading `0`. The `> 0` filter then compares that string. The resulting `pieChartData` is never rendered, so the page shows no sign of it | one product with forecasts 12 and 5: the total is `"0125"`; a product with any negative forecast becomes NaN and is dropped | the arithmetic sum of the rounded monthly forecasts (17), kept when positive | not executed | ForecastDisplay.PieTotalConcatenates | ForecastDisplay.PieChartData |
