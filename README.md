# Sales dashboard analytics, modelled in Dafny

This project models the logic at the heart of a sales-analytics dashboard. The dashboard loads a
table of sales records and derives each record's month (`mes`) and year (`ano`). It lets the user
filter by a date range, a category and a region, caching each filtered table under its filters. It
then computes the views the charts show:

- the key figures: revenue, units sold and the average ticket;
- revenue per month, per category and per product (the top ten);
- a region × category heatmap;
- daily revenue with a fitted trend line and a 30-day forecast.

A record's `data` is an instant, counted in whole seconds since 1970-01-01T00:00:00. Calendar days,
years and months come from a proleptic Gregorian calendar built from first principles in `Calendar`.
A table is a `seq<Record>`, and revenue (`receita`) is an exact `real`.

Modules:

- `Calendar`: civil dates from day numbers and back, with both round trips.
- `Text` and `Periods`: the "YYYY-MM" period text of an instant, and reading it back.
- `Sales`: the record and the column sums.
- `Orders`: the string and integer orders groupby sorts by.
- `GroupBy`: a sorted group-and-sum.
- `Ranking`: stable sorts by revenue and `nlargest`.
- `Analytics`: the seven views.
- `DataProcessor`: `process_data`, as a method over an array.
- `App`: the filter cascade and the `Dashboard` class, which holds the table and its cache.

The least-squares regression is a parameter `fit` of type `(seq<int>, seq<real>) -> (int -> real)`.
Only the shape of the trend and forecast outputs is proved, not the values the fit produces.

As designed, both date bounds are inclusive. As coded, the pickers' day strings become the midnights
of those days. So the window ends at the end day's midnight, and later sales on the end day are
excluded. The model follows the code. `App.PickerDateWindow` states exactly which instants pass.

## Model

| member | source | states |
|---|---|---|
| Sales.TotalsAppend | utils/analytics.py:8-9 | the revenue and quantity sums of a concatenated table are the sums of the parts |
| Sales.PositiveQuantities | data/generate_sample_data.py:12 | when every sale has at least one unit, the units sold are at least the number of rows |
| Calendar.DaysToCivilToDays | utils/data_processor.py:10-11 | every day number maps to a valid civil date that maps back to the same day number |
| Calendar.CivilToDaysToCivil | utils/data_processor.py:10-11 | every valid civil date maps to a day number that maps back to the same date |
| Calendar.DateOfIff | app.py:115-118 | an instant falls on date d exactly when it lies in the 24 hours from d's midnight |
| Periods.MonthLabel | utils/data_processor.py:10 | the period text ends in '-' and two digits; for years 0..9999 it is 7 characters "YYYY-MM" |
| Periods.MonthLabelRoundTrip | utils/data_processor.py:10 | reading the period text of (year, month) gives back that year and month |
| Periods.PeriodLabel | utils/analytics.py:15 | the period text of an instant reads back as the instant's calendar year and month (1..12) |
| Periods.PeriodLabelFormat | utils/data_processor.py:10 | for four-digit years the text is four digits, a hyphen and two digits |
| Text.DigitsOrder | utils/data_processor.py:10 | two digit strings of the same length compare as text exactly as their values compare, and are equal exactly when their values are |
| Periods.MonthLabelOrder | utils/analytics.py:15 | for four-digit years, one period text sorts before another exactly when its (year, month) comes first |
| Periods.PeriodLabelOrder | utils/analytics.py:15 | the period texts of two instants sort like their calendar (year, month) |
| GroupBy.GroupSum | utils/analytics.py:19 | groupby-sum: keys strictly ascending, exactly the distinct keys of the table, each row's value the revenue of its key's records, rows total the table's revenue |
| GroupBy.GroupSumSameKeys | utils/analytics.py:15 | grouping by two key columns that agree on every row gives the same table |
| Ranking.SortRows | utils/analytics.py:23 | the sorted rows are ordered by revenue and are a permutation of the input |
| Ranking.LargestAscending | utils/analytics.py:23 | nlargest(n) then ascending sort: min(n, rows) rows, ascending, drawn from the input, and all of it when it has at most n rows |
| Ranking.LargestAscendingSelects | utils/analytics.py:23 | a row left out of the selection has no more revenue than any selected row |
| Ranking.SubRowsDistinct | utils/analytics.py:23 | rows drawn from a table with distinct keys have distinct keys |
| Analytics.CalculateKpis | utils/analytics.py:6-11 | revenue and units are the column sums; ticket times units equals revenue when units > 0, and the ticket is 0 otherwise |
| Analytics.KpisOfEmpty | utils/analytics.py:10 | an empty table gives (0, 0, 0) |
| Analytics.KpisTicketDefined | utils/analytics.py:10 | with at least one unit per sale, a non-empty table gets the quotient as its ticket |
| Analytics.GetSalesEvolution | utils/analytics.py:13-15 | one row per distinct month of the rows' instants, in ascending text order, each with that month's revenue; rows total the revenue |
| Analytics.EvolutionChronological | utils/analytics.py:13-15 | for four-digit years the monthly rows are in chronological order: each row's (year, month) comes before every later row's |
| Analytics.GetSalesByCategory | utils/analytics.py:17-19 | one row per distinct category, ascending, each with that category's revenue; rows total the revenue; an empty table gives no rows |
| Analytics.GetTopProducts | utils/analytics.py:21-23 | min(10, products) rows ascending by revenue, each a product of the table with its true revenue, no product twice; all products when there are at most 10 |
| Analytics.TopProductsAreLargest | utils/analytics.py:23 | a product not shown earned no more than any shown product |
| Analytics.GetRegionHeatmapData | utils/analytics.py:25-27 | rows are exactly the distinct regions and columns exactly the distinct categories, both ascending; one row of cells per region, each cell the revenue of its region and category |
| Analytics.PairSums | utils/analytics.py:27 | the aggregated pivot: one row per (region, category) pair that occurs, ordered by region and then category, each with the revenue of that pair |
| Analytics.PivotCellsAreRevenues | utils/analytics.py:27 | the grid filled from the pair sums (0 where a pair is absent) equals, row by row, the revenue of each region in each category summed straight from the records |
| Analytics.HeatmapZeroFill | utils/analytics.py:27 | a region and category that never sold together have cell 0 |
| Analytics.HeatmapRowTotal | utils/analytics.py:27 | each heatmap row adds up to its region's revenue |
| Analytics.ViewsOfNonEmptyTable | tests/test_analytics.py:30-54 | a non-empty table gives non-empty evolution, category and top-product views and a heatmap with at least one cell |
| Analytics.MinDate | utils/analytics.py:33 | the earliest instant is attained by some row and no row is earlier |
| Analytics.DailySales | utils/analytics.py:33-34 | one row per distinct whole-day offset from the earliest sale, ascending; offsets are at least 0 and the first is 0; each row holds the revenue of its day; rows total the revenue |
| Analytics.GetTrendAnalysis | utils/analytics.py:29-43 | the daily table, plus a trend line exactly when there are at least 2 distinct offsets; the line has one value per day, the fitted line at that day's offset |
| Analytics.GetSalesForecast | utils/analytics.py:45-63 | with at least 2 offsets: the trend line, the 30 offsets max+1..max+30, and the fitted line at each of them; otherwise the daily table with all three absent |
| Analytics.FutureDaysFollow | utils/analytics.py:58 | the first forecast day comes right after an observed offset, and every observed offset is before it |
| Analytics.LastIsLargest | utils/analytics.py:58 | the last row of an ascending day table has the largest offset |
| Analytics.ExampleKpis | utils/analytics.py:6-11 | three sales of 20 with 2, 1 and 4 units give revenue 60, 7 units and ticket 60/7 |
| Analytics.ExampleCategories | utils/analytics.py:17-19 | the same sales give category A 40 and B 20, in that order |
| Analytics.ExampleTopProducts | utils/analytics.py:21-23 | the same sales give P2 (20) then P1 (40): smallest revenue first |
| Analytics.ExampleDailySales | utils/analytics.py:31-34 | sales on 2024-01-01, 2024-01-02 and 2024-02-01 fall on day offsets 0, 1 and 31 |
| DataProcessor.Derive | utils/data_processor.py:10-11 | `mes` reads back as (`ano`, month of `data`), `ano` is the year of `data`, and every other column is kept |
| DataProcessor.DeriveMesFormat | utils/data_processor.py:10-11 | for four-digit years `mes` is "YYYY-MM" and its first four characters read back as `ano` |
| DataProcessor.ProcessRecords | utils/data_processor.py:8-12 | same number of rows, in the same order, each row derived |
| DataProcessor.DeriveIdempotent | utils/data_processor.py:10-11 | deriving a derived row changes nothing |
| DataProcessor.ProcessRecordsIdempotent | utils/data_processor.py:10-11 | processing a processed table changes nothing |
| DataProcessor.ProcessKeepsTotals | utils/data_processor.py:10-11 | processing keeps the revenue and quantity totals |
| DataProcessor.EvolutionMatchesMes | utils/analytics.py:15 | on a processed table, grouping by the stored `mes` gives the monthly evolution view |
| DataProcessor.ProcessData | utils/data_processor.py:8-12 | fills `mes` and `ano` of every row of the array in place and returns that same array |
| App.Where | app.py:115-124 | boolean-mask selection: every kept row passes, each passing row is kept as often as it occurs, and the order is kept |
| App.WhereWhere | app.py:120-124 | two masks applied in turn select what their conjunction selects |
| App.FilteredView | app.py:115-124 | every row of the result is in the date window and matches the category and region unless they are "all"; every such row of the table is present, as often as in the table |
| App.FilteredViewOnePass | app.py:115-124 | the cascade of three filters is one pass of the combined condition |
| App.FilteredViewKeepsOrder | app.py:115-124 | the filtered table is the table with some rows dropped, order kept |
| App.FilteredViewEverything | app.py:115-124 | with the full date range and "all" for both, nothing is dropped |
| App.PickerFilter | app.py:115-118 | each picked day becomes an instant that falls on that day and is a whole number of days from the epoch (its midnight); category and region pass through unchanged |
| App.PickerDateWindow | app.py:115-118 | a sale passes the picked window exactly when its day is from the start day to the day before the end day, or it is at the end day's midnight |
| App.Dashboard.constructor | app.py:39-40 | the dashboard starts with its loaded table and an empty cache |
| App.Dashboard.UpdateFilteredData | app.py:101-128 | returns the filtered table; a hit writes nothing; a miss stores the table under its filters when a server is present; every cached table stays equal to the filtered table of its key |
| App.Dashboard.Expire | utils/cache.py:38-49 | an entry's time to live running out removes just that entry and keeps the cache coherent |
| App.AskTwice | app.py:110-126 | asking twice for the same filters gives equal tables, both the filtered table; with a server the cache ends up as before plus that one entry, so the second call writes nothing; without one the cache is unchanged |

## Left out

- Reading the CSV (`load_data`), the Dash layout, the other callbacks, the charts, the KPI cards, the tables and the Excel export are user interface and file input/output.
- The Redis connection, `setex`/`get` and the JSON (de)serialisation of a table are a network backend. The cache is a map from the filter values to the filtered table.
- The SHA-256 key of the JSON-encoded filters is modelled as a collision-free hash of the filters.
- App.Dashboard.UpdateFilteredData: the cache key is computed from the raw picker strings before `pd.to_datetime` (app.py:102-108, utils/cache.py:20-22), but the model keys on the parsed instants. Two spellings of one instant, such as "2024-01-01" and "2024-01-01T00:00:00", are one key in the model and two in the code, so the model can report a hit where the code misses. The returned table is the same either way.
- App.Dashboard.Valid: Redis outlives the process, and the key does not depend on the loaded table (app.py:39-40, utils/cache.py:9-22). An entry written within the hour by an earlier run over another table would therefore be served. The model assumes that the store starts empty (the constructor) and that only this dashboard writes to it, and `Valid` holds only under that assumption.
- App.Dashboard.UpdateFilteredData: `get_from_cache` does not guard `redis_client.get` (utils/cache.py:29), so a server lost after start-up makes the callback raise. The model has no lookup failure: with a server present, every lookup answers.
- Time to live is modelled only as the `Expire` event, not as a clock.
- App.Dashboard.UpdateFilteredData: `set_to_cache` swallows any exception from the store, leaving the cache without the entry. In the model, every store to a present server succeeds.
- Floating point is not modelled: revenue is an exact `real`, so the sums are exact and the ticket is an exact quotient.
- The least-squares fit and its predictions are an uninterpreted parameter. No property of the fitted values, such as a flat line for constant data, is proved.
- `get_trend_analysis` and `get_sales_forecast` first overwrite the caller's `data` column with `pd.to_datetime` of itself. On a column that already holds instants, this changes nothing, so it is not modelled.
- Timestamps are whole seconds rather than pandas' nanoseconds. Dates outside pandas' representable range (years 1677..2262) are not excluded: the model defines the period text for every year.
- Analytics.GetTopProducts: `sort_values` in pandas is not stable, so the source does not promise the relative order of equal revenues. The model uses a stable sort and states only that the rows ascend by revenue.
- Analytics.EvolutionChronological: chronological order is proved only for years 0..9999. For longer year texts, text order and time order can differ.
- The picker's conversion of its date strings into instants is not parsed from text. `PickerFilter` takes the two calendar days directly.
