# Currency exchange system — a verified Dafny model

This project models the rules at the core of a small currency-exchange web
application. The application has a Flask backend and a React frontend.

The backend keeps a table of daily CNY rates, one row per currency and day.
A scheduled job fetches each configured currency's rate and upserts it into
that table. Four GET routes serve the table:

- the daily records of a date window;
- the monthly averages of a window;
- the yearly averages of a window;
- the list of supported currencies.

The frontend has four parts:

- a converter page that converts between CNY and one foreign currency;
- a dashboard that shows the latest rate and its change from the previous day;
- a query page that lists the records and exports them as CSV;
- a chart page that draws a daily, monthly or yearly series through a chart component.

The model follows the shape of the code:

- Pure code becomes datatypes, functions and lemmas. This covers the routes,
  the queries, `to_dict`, the chart page's selectors, the CSV export and the
  dashboard's change calculation.
- Code that updates state becomes classes whose methods have `modifies`
  clauses:
  - the rate table and its update loop (`RateService.RateTable`);
  - the converter page's state (`Converter.CurrencyConverter`);
  - the dashboard's state (`Dashboard.DashboardPage`);
  - the chart page's state (`ChartPage.ChartPageState`).
- The chart component's `forEach` loops become a method with a `while` loop
  and its invariants (`ChartComponent.GetOption`).

Values and inputs are represented as follows:

- Rates are `real`. Dates are calendar triples restricted to valid dates.
- The clock reading ("today", "now") is a parameter.
- The provider's answer to a rate fetch is given as data (`fetch`).
- The backend's answer to a frontend request is a function parameter
  (`respond`). Its result is either the JSON body of a 2xx reply or `Failed`
  for a thrown request.
- JavaScript division by zero gives an infinity or `NaN` (`Numbers.Number`).

Modules, one per file:

- `options.dfy`, `text.dfy`: the option type; string order, split and join.
- `dates.dfy`: the calendar, `%Y-%m-%d` parsing as `strptime` does it, and formatting.
- `wire.dfy`: the JSON bodies exchanged between backend and frontend.
- `exchange_rate.dfy`: the `ExchangeRate` record and `to_dict`.
- `rate_service.dfy`: the rate table, its update, the range query and the grouped averages.
- `routes.py` is modelled in `routes.dfy`: bound parsing and defaults, the 400 and 500 replies, the response bodies.
- `numbers.dfy`: JavaScript number division.
- `converter.dfy`, `dashboard.dfy`, `rate_query.dfy`, `chart_page.dfy`, `chart_component.dfy`: the frontend pages and the chart component.

The two ends of the currency list do not meet. The backend sends the list
only under `data` (backend/api/routes.py:18-21). The converter page reads only
a top-level `currencies` field (frontend/src/pages/CurrencyConverter.js:31).
The model keeps both reads exactly as the code has them, and the mismatch is
the third entry under "Findings".

## Model

| member | source | states |
|---|---|---|
| ExchangeRateModel.ToDict | backend/models/exchange_rate.py:17-25 | `id`, `currency_code` and `rate` are copied unchanged. `date` is `YYYY-MM-DD`: four-digit year, two-digit month and two-digit day that decode to the stored date and parse back to it. `created_at` is `YYYY-MM-DD HH:MM:SS`: the ISO form of its date, a space, then digit pairs separated by colons that decode to its hour, minute and second. |
| RateService.ExtractRate | backend/services/exchange_rate_service.py:29-36 | A fetch succeeds exactly when the response has `rates` and `rates` holds CNY. It then yields today's date and the CNY rate. |
| RateService.FindRecord | backend/services/exchange_rate_service.py:50-53 | The `.first()` lookup gives the first row with the (code, date) key. It gives `None` exactly when no row has that key. |
| RateService.MaxId | backend/services/exchange_rate_service.py:61-66 | The result is at least every id in the table and is the id of some row. |
| RateService.NextId | backend/services/exchange_rate_service.py:61-66 | A new row's id is 1 in an empty table. Otherwise it is one more than the largest id in use: larger than every id, and one more than some row's id. |
| RateService.Upsert | backend/services/exchange_rate_service.py:48-67 | Afterwards a row with the key holds the new rate. An existing first match gets only its rate replaced and the length is unchanged. Otherwise one new row is appended with a fresh id and creation time. Every other row is unchanged. |
| RateService.FindRecordFirst | backend/services/exchange_rate_service.py:50-53 | The first row with the key is exactly the one the lookup returns. |
| RateService.RateTable.constructor | backend/models/exchange_rate.py:4-12 | The table starts empty. |
| RateService.RateTable.StoreRate | backend/services/exchange_rate_service.py:50-67 | One currency's write replaces the table by its upsert. |
| RateService.RateTable.UpdateExchangeRates | backend/services/exchange_rate_service.py:41-71 | The loop leaves the table as the configured currencies' fetches applied in configuration order; fetches that failed or have a zero rate are skipped. It keeps keys unique. |
| RateService.UpsertLastWriteWins | backend/services/exchange_rate_service.py:55-67 | Storing the same key twice equals storing only the second rate. |
| RateService.UpsertKeepsKeysUnique | backend/services/exchange_rate_service.py:50-67 | An upsert never creates a second row for a key. |
| RateService.ApplyFetchesKeepsKeysUnique | backend/services/exchange_rate_service.py:45-67 | A whole update run keeps (code, date) keys unique. |
| RateService.ApplyFetchesStoresEveryRate | backend/services/exchange_rate_service.py:45-67 | After the run, each stored fetch has a row for its currency and date holding its rate. |
| RateService.ApplyFetchesKeepsOtherCurrencies | backend/services/exchange_rate_service.py:45-67 | Rows of currencies the run does not handle keep their place and value. The table never shrinks. |
| RateService.SupportedCodesFitColumn | backend/config.py:24-27 | Every configured code has three characters, as the `String(3)` column requires. |
| RateService.ApplyFetchesKeepsDeclaredWidth | backend/models/exchange_rate.py:9 | An update with codes of at most three characters keeps every row's code within the column width. |
| RateService.SelectMembers | backend/services/exchange_rate_service.py:75-78 | The filter keeps exactly the rows of the code whose date lies in [start, end], both ends included. |
| RateService.SelectSubMultiset | backend/services/exchange_rate_service.py:75-78 | The filter never duplicates a row. |
| RateService.InvertedWindowSelectsNothing | backend/services/exchange_rate_service.py:75-78 | A start after the end matches no row. |
| RateService.InsertByDateSorted | backend/services/exchange_rate_service.py:79 | Inserting into date-sorted rows keeps them sorted and adds exactly the new row. |
| RateService.SortedCons | backend/services/exchange_rate_service.py:79 | A row dated no later than the first of sorted rows can go in front of them. |
| RateService.SortByDateSorted | backend/services/exchange_rate_service.py:79 | `ORDER BY date` gives date-sorted rows that are a permutation of its input. |
| RateService.HistoricalRecords | backend/services/exchange_rate_service.py:73-81 | The query result is sorted by date. It is a permutation of the filtered rows and holds exactly the matching rows. |
| RateService.HistoricalRates | backend/services/exchange_rate_service.py:81 | Each result is the `to_dict` of the record at the same position. |
| RateService.PeriodLabelIsDatePrefix | backend/services/exchange_rate_service.py:87 | `strftime('%Y-%m')` and `strftime('%Y')` give the first 7 and 4 characters of the ISO date. |
| RateService.PeriodLabelMonotone | backend/services/exchange_rate_service.py:87-93 | A later date never gets a smaller group key. |
| RateService.Labels | backend/services/exchange_rate_service.py:93 | The keys collected from the rows are exactly the keys some row carries. The first row's key comes first. |
| RateService.LabelsAscending | backend/services/exchange_rate_service.py:93 | Over date-sorted rows the collected keys are strictly ascending, so they are distinct. |
| RateService.RateCountPositive | backend/services/exchange_rate_service.py:88 | A key's row count is positive exactly when some row carries that key. |
| RateService.RateTotalsHead | backend/services/exchange_rate_service.py:88 | A key's rate total and row count over a sequence split into those of its first row and of the rest. |
| RateService.RateTotalsInsert | backend/services/exchange_rate_service.py:88 | Inserting a row adds exactly its own contribution to every key's sum and count. |
| RateService.RateTotalsSort | backend/services/exchange_rate_service.py:88 | Sorting changes no key's rate sum or count. |
| RateService.GroupsOf | backend/services/exchange_rate_service.py:86-95 | There is one group per key, in key order, and each holds the average for its key. |
| RateService.PeriodKeysAscending | backend/services/exchange_rate_service.py:93 | Groups come out in strictly ascending key order. |
| RateService.GroupKeysAreLabels | backend/services/exchange_rate_service.py:93 | The groups carry exactly the collected keys. |
| RateService.PeriodKeysComplete | backend/services/exchange_rate_service.py:86-93 | A key has a group if and only if some matching row carries it. |
| RateService.PeriodAveragesMean | backend/services/exchange_rate_service.py:86-93 | Each group is non-empty. Its average is the sum of its matching rates divided by their count, taken over the rows in table order. |
| RateService.MonthlyAverages | backend/services/exchange_rate_service.py:95 | Entry i renames group i's key and average to `month` and `average_rate`. |
| RateService.YearlyAverages | backend/services/exchange_rate_service.py:109 | Entry i renames group i's key and average to `year` and `average_rate`. |
| RateService.SupportedCurrencyList | backend/services/exchange_rate_service.py:111-113 | There is one `{code}` entry per configured code, in configuration order, with no name. |
| Dates.FormatDate | backend/models/exchange_rate.py:23 | The date is rendered as `YYYY-MM-DD`: 10 characters, dashes at positions 4 and 7, digits elsewhere. The four-digit year and two-digit month and day decode to the date's fields. |
| Dates.FormatInstant | backend/models/exchange_rate.py:24 | The creation time is rendered as `YYYY-MM-DD HH:MM:SS`: the ISO date, a space, and two-digit fields separated by colons. The fields decode to the hour, minute and second. |
| Dates.SubtractDaysStep | backend/api/routes.py:35 | Going back n days lands on a valid date whose day number is exactly n smaller. It is earlier when n > 0. |
| Dates.ParseFormatRoundTrip | backend/api/routes.py:31-33 | Parsing a formatted date gives the date back. |
| Dates.ParseAcceptsShortFields | backend/api/routes.py:33 | `strptime` accepts one-digit months and days, e.g. `2024-1-5`. |
| Dates.ParseRejectsMissingDay | backend/api/routes.py:33-45 | A day the calendar lacks, e.g. `2023-02-29`, is refused. |
| Dates.FormatDateOrdered | frontend/src/pages/ExchangeRateQuery.js:99 | ISO strings compare as text exactly as their dates compare, so string order is date order. |
| Routes.DefaultStart | backend/api/routes.py:35 | The default start is 1095 days before today. It exists exactly when that is not before year 1; otherwise `OverflowError`. |
| Routes.ResolveBounds | backend/api/routes.py:30-45 | The start is resolved first, then the end. An empty argument takes its default. A non-empty argument that does not parse is a `ValueError`. A resolved bound equals the parsed argument or the default. |
| Routes.BoundsFailure | backend/api/routes.py:41-45 | Unparsable bounds give 400 with the format message. An overflowing default gives the application's 500 reply. Resolved bounds give no failure. |
| Routes.GetRates | backend/api/routes.py:23-58 | Status is 200 exactly when the bounds resolve. The body then echoes the code and canonical bounds, with the window's records under `data.rates`. Otherwise the bounds failure is returned. |
| Routes.GetMonthlyRates | backend/api/routes.py:60-95 | Same bound handling, with the monthly averages under `data.monthly_rates`. |
| Routes.GetYearlyRates | backend/api/routes.py:97-132 | Same bound handling, with the yearly averages under `data.yearly_rates`. |
| Routes.GetCurrencies | backend/api/routes.py:14-21 | The reply is 200 and successful, with the configured codes in order under `data`. |
| Routes.ReplyOf | frontend/src/services/api.js:23-28 | The frontend sees the body exactly on a 2xx status; any other status throws. |
| Routes.DefaultWindow | backend/api/routes.py:30-40 | With no arguments the window is the 1095 days ending today, with start before end. |
| Routes.EchoedBoundsReproduceWindow | backend/api/routes.py:54-55 | Sending the echoed bounds back resolves to the same window on any later day. |
| Routes.InvertedWindowIsEmpty | backend/api/routes.py:31-58 | A start after the end is not refused: the reply is 200 with no records. |
| Routes.HistoricalRatesWithinWindow | backend/api/routes.py:48-58 | Every returned record has the requested code and a date inside the window. |
| Routes.RoutesAgreeOnBounds | backend/api/routes.py:27-45 | The three rate routes refuse alike and echo the same window. |
| Routes.RefusalIgnoresTable | backend/api/routes.py:41-45 | A refused request does not depend on the table. |
| Numbers.Divide | frontend/src/pages/CurrencyConverter.js:62 | A non-zero divisor gives the exact quotient. Zero gives +Infinity, -Infinity or NaN by the dividend's sign. |
| Converter.DisplaysArePair | frontend/src/pages/CurrencyConverter.js:98-104 | One side shows CNY and the other `toCurrency`, in either mode. |
| Converter.Convert | frontend/src/pages/CurrencyConverter.js:56-63 | Reverse multiplies by the rate. Forward divides, giving +Infinity for a zero rate. |
| Converter.ConvertRoundTrip | frontend/src/pages/CurrencyConverter.js:56-63 | For a non-zero rate, converting one way and then the other returns the amount. |
| Converter.ConvertMonotone | frontend/src/pages/CurrencyConverter.js:56-63 | At a positive rate a larger amount converts to a larger result. |
| Converter.TopLevelRate | frontend/src/pages/CurrencyConverter.js:52-53 | A rate is read exactly when the body's top-level `rates` is non-empty, and it is the first record's rate. |
| Converter.TopLevelCurrencies | frontend/src/pages/CurrencyConverter.js:31 | `currencies || []`: the body's top-level list when present, the empty list otherwise. |
| Converter.CurrencyConverter.constructor | frontend/src/pages/CurrencyConverter.js:10-20 | The initial state is CNY, USD, 100, result 0, rate 0, forward. |
| Converter.CurrencyConverter.LoadCurrencies | frontend/src/pages/CurrencyConverter.js:27-37 | A reply replaces the list with what it carries at the top level. A failure leaves the list alone. Nothing else changes. |
| Converter.CurrencyConverter.PerformConversion | frontend/src/pages/CurrencyConverter.js:40-74 | A non-positive amount sends no request and changes nothing. Otherwise today's rate of the target currency is requested. A reply with a rate stores it and the converted amount; an empty reply or a thrown request leaves rate and result unchanged. |
| Converter.CurrencyConverter.ToggleDirection | frontend/src/pages/CurrencyConverter.js:77-81 | The direction flips, rate and result reset to 0, and the currencies are kept. |
| Converter.CurrencyConverter.SwapCurrencies | frontend/src/pages/CurrencyConverter.js:84-90 | The two currencies are exchanged and rate and result reset to 0. |
| Converter.SwapCurrenciesTwice | frontend/src/pages/CurrencyConverter.js:84-90 | Swapping twice restores the original pair. |
| Converter.CurrencyConverter.SelectFrom | frontend/src/pages/CurrencyConverter.js:137-141 | The "from" selector changes `toCurrency` only in reverse mode. |
| Converter.CurrencyConverter.SelectTo | frontend/src/pages/CurrencyConverter.js:169-173 | The "to" selector changes `toCurrency` only in forward mode. |
| Converter.CurrencyConverter.SetAmount | frontend/src/pages/CurrencyConverter.js:195 | An unparsable amount becomes 0. |
| Converter.CurrencyConverter.FromSelectDisabled | frontend/src/pages/CurrencyConverter.js:136 | The "from" selector is locked exactly in forward mode. |
| Converter.CurrencyConverter.SwapDisabled | frontend/src/pages/CurrencyConverter.js:157 | The swap button is locked exactly in forward mode, so it is enabled exactly when the "from" selector is. |
| Converter.CurrencyConverter.ToSelectDisabled | frontend/src/pages/CurrencyConverter.js:168 | The "to" selector is locked exactly in reverse mode. |
| Converter.OneSelectorEnabled | frontend/src/pages/CurrencyConverter.js:136-168 | Exactly one selector is enabled, and it shows `toCurrency`. |
| Converter.ReverseRequestsHiddenCurrency | frontend/src/pages/CurrencyConverter.js:48 | In reverse mode with the initial currencies, the page requests CNY while showing USD. |
| Converter.IntendedTarget | frontend/src/pages/CurrencyConverter.js:98-104 | The intended target is the foreign currency the page shows, in either direction. |
| Converter.IntendedTargetIgnoresDirection | frontend/src/pages/CurrencyConverter.js:48 | The corrected target does not change when the direction toggles. It agrees with the code in forward mode. |
| Converter.TopLevelRateNeverPresent | frontend/src/pages/CurrencyConverter.js:52 | No reply of the daily route has a top-level `rates`. |
| Converter.NestedRate | backend/api/routes.py:50-58 | The corrected reader finds a rate exactly when the route's `data.rates` is present and non-empty. The rate is the first record's. |
| Converter.NestedRateFindsStoredRate | backend/api/routes.py:48-58 | With the corrected reader, today's request for a currency stored today yields exactly the stored rate. |
| Converter.TopLevelCurrenciesAlwaysEmpty | frontend/src/pages/CurrencyConverter.js:31 | The currency route's reply gives the page an empty list. |
| Converter.NestedCurrencies | backend/api/routes.py:18-21 | The corrected reader takes the list from `data`. |
| Converter.NestedCurrenciesListsSupported | backend/api/routes.py:14-21 | With the corrected reader the page lists every configured code in order. |
| Dashboard.InsertNewest | frontend/src/pages/Dashboard.js:57 | An insertion step adds exactly one record. |
| Dashboard.SortNewestFirst | frontend/src/pages/Dashboard.js:57 | The sorted copy has the input's length. |
| Dashboard.InsertNewestSorted | frontend/src/pages/Dashboard.js:57 | Inserting into a newest-first sequence keeps it newest-first and adds exactly the new record. |
| Dashboard.NewerCons | frontend/src/pages/Dashboard.js:57 | A record not older than all of a newest-first sequence can go in front of it. |
| Dashboard.SortNewestFirstSorted | frontend/src/pages/Dashboard.js:57 | The copy is newest-first and a permutation of the input. |
| Dashboard.Percent | frontend/src/pages/Dashboard.js:61 | For a non-zero previous rate, the change times the previous rate equals (current − previous) × 100. |
| Dashboard.RateChangeOf | frontend/src/pages/Dashboard.js:52-67 | No data or no `rates` gives the neutral result. Otherwise the change of the rates is returned. |
| Dashboard.NewestTwoFromInput | frontend/src/pages/Dashboard.js:57-60 | Both records read are input records. |
| Dashboard.NewestIsLatest | frontend/src/pages/Dashboard.js:57-59 | `current` comes from a record that no other record is newer than. |
| Dashboard.NextIsLatestOfRest | frontend/src/pages/Dashboard.js:57-60 | `previous` comes from the newest record once that first one is removed. |
| Dashboard.NewestFirstHead | frontend/src/pages/Dashboard.js:57 | The head of a newest-first sequence is not older than any record in it. |
| Dashboard.ChangeOfRatesSpec | frontend/src/pages/Dashboard.js:51-65 | Fewer than two rates give the neutral result. Otherwise `current` is the newest rate, `isIncrease` holds exactly when it exceeds the next newest, and the change is their percentage step. |
| Dashboard.NewestIsUnique | frontend/src/pages/Dashboard.js:57-59 | Among records with distinct dates, the newest is unique. |
| Dashboard.RecordCountedOnce | frontend/src/pages/Dashboard.js:57 | With distinct dates, each record occurs once. |
| Dashboard.NewestAgree | frontend/src/pages/Dashboard.js:57-59 | Two orderings of the same records give the same newest record. |
| Dashboard.NextAgree | frontend/src/pages/Dashboard.js:57-60 | Two orderings of the same records give the same second-newest record. |
| Dashboard.ChangeIgnoresOrder | frontend/src/pages/Dashboard.js:57-62 | With distinct dates, the result depends only on which records there are, not on their order. |
| Dashboard.DashboardPage.constructor | frontend/src/pages/Dashboard.js:11-14 | The page starts with USD selected and no data. |
| Dashboard.DashboardPage.HandleCurrencyChange | frontend/src/pages/Dashboard.js:45-48 | Selecting a currency sets it and clears the data. |
| Dashboard.DashboardPage.CalculateRateChange | frontend/src/pages/Dashboard.js:51-67 | The method returns the change of the loaded data, which is neutral when nothing is loaded, and changes nothing on the page. |
| Dashboard.ChangeAfterSelectionIsNeutral | frontend/src/pages/Dashboard.js:47-67 | Right after a selection the change card is neutral. |
| RateQuery.DateBounds | frontend/src/pages/ExchangeRateQuery.js:41-47 | Both bounds are set, formatted, exactly when the range has two entries. Otherwise both are null. |
| RateQuery.QueryRequest | frontend/src/pages/ExchangeRateQuery.js:40-49 | The submit requests the daily rates of the chosen currency with those bounds. |
| RateQuery.QueryWindowReachesBackend | frontend/src/pages/ExchangeRateQuery.js:41-49 | A two-date range reaches the backend as exactly that window. Otherwise the backend's default window applies. |
| RateQuery.AfterQuery | frontend/src/pages/ExchangeRateQuery.js:50-60 | A successful body replaces the data and clears the error. An unsuccessful body or a thrown request keeps the data and sets the matching message. |
| RateQuery.ExportCsv | frontend/src/pages/ExchangeRateQuery.js:65-86 | Nothing is exported without data, without `rates`, or with no records. The file is named `{currency_code}_rates.csv`. |
| RateQuery.CsvLines | frontend/src/pages/ExchangeRateQuery.js:69-79 | There are exactly one more lines than records. Line 0 is the header and line i+1 is record i, in order, with no trailing newline. |
| RateQuery.CsvLineFields | frontend/src/pages/ExchangeRateQuery.js:70-78 | A line splits back into date, code and rate when no field holds a comma. |
| RateQuery.CommaInFieldIsNotQuoted | frontend/src/pages/ExchangeRateQuery.js:78 | A comma inside a field is not escaped: the line splits into four fields. |
| RateQuery.DateSorter | frontend/src/pages/ExchangeRateQuery.js:99 | The date comparator is negative exactly when the first date is earlier and zero exactly on equal dates. |
| RateQuery.RateSorter | frontend/src/pages/ExchangeRateQuery.js:111 | The rate comparator is negative exactly when the first rate is smaller and zero exactly on equal rates. |
| RateQuery.SortersConsistent | frontend/src/pages/ExchangeRateQuery.js:99-111 | Both comparators are antisymmetric and transitive on "less". |
| ChartPage.ChartSeries | frontend/src/pages/ExchangeRateChart.js:92-105 | With no data the series is []. Daily, monthly and yearly select `rates`, `monthly_rates` and `yearly_rates` item by item, and a missing field gives []. An unknown type gives []. |
| ChartPage.ChartTitle | frontend/src/pages/ExchangeRateChart.js:108-123 | With no data the title is empty. Otherwise it is `{currency_code}/CNY` followed by the granularity's suffix. |
| ChartPage.TitleNamesGranularity | frontend/src/pages/ExchangeRateChart.js:108-123 | Every title over loaded data starts with `{currency_code}/CNY`. Two chart types with different title wordings, or that load different series, never get the same title. |
| ChartPage.XAxisType | frontend/src/pages/ExchangeRateChart.js:126-137 | The axis kind is `month` for monthly and `year` for yearly, `time` otherwise. It is always a kind the component extracts for. |
| ChartPage.EndpointFor | frontend/src/pages/ExchangeRateChart.js:54-66 | Monthly and yearly pick their own endpoints; everything else picks the daily one. |
| ChartPage.SeriesFitsAxis | frontend/src/pages/ExchangeRateChart.js:209-215 | Every item the page hands the chart has the label and value fields of the axis kind handed with it. |
| ChartPage.SwitchShowsNoDataUntilReload | frontend/src/pages/ExchangeRateChart.js:83-104 | Switching from daily to monthly data shows an empty series until new data arrives. |
| ChartPage.ChartPageState.constructor | frontend/src/pages/ExchangeRateChart.js:15-17 | The page starts with no data, daily granularity and no error. |
| ChartPage.ChartPageState.HandleSubmit | frontend/src/pages/ExchangeRateChart.js:37-80 | The granularity's endpoint is requested with the form's bounds. The reply updates data and error as on the query page, and the granularity is kept. |
| ChartPage.ChartPageState.HandleChartTypeChange | frontend/src/pages/ExchangeRateChart.js:83-89 | The granularity is set. A resubmission is asked for exactly when data is loaded. |
| ChartComponent.LabelRotate | frontend/src/components/ExchangeRateChart.js:47 | Labels rotate 45 degrees exactly for `time`, and stay at 0 otherwise. |
| ChartComponent.LabelSpacing | frontend/src/components/ExchangeRateChart.js:48 | The label interval is `auto` exactly for `time`, and 0 otherwise. |
| ChartComponent.GetOption | frontend/src/components/ExchangeRateChart.js:6-93 | For `time`, `month` and `year`, both arrays have one entry per item: entry i holds item i's label and value fields. Any other kind gives two empty arrays. |
| ChartComponent.Render | frontend/src/components/ExchangeRateChart.js:95-107 | Missing or empty data renders the placeholder. Otherwise a chart is drawn with the given title for the axis kind, `category` by default. For `time`, `month` and `year` there is one label and one value per item, each that item's field for the axis. Any other kind draws no points. Label rotation and interval follow the axis kind. |
| ChartComponent.DefaultAxisExtractsNothing | frontend/src/components/ExchangeRateChart.js:4-29 | The default axis kind extracts no label and no value. |

## Left out

- The provider fetch in `get_exchange_rate_from_api` (URL, API key, HTTP errors, JSON decoding) is left out. Its outcome per currency is a parameter, and the extraction rule is `RateService.ExtractRate`.
- SQLAlchemy sessions, `commit` and the SQLite engine are left out. The table is a sequence of rows in insertion order.
- Ids of new rows follow SQLite's usual "largest id + 1"; the engine's rowid rules beyond that are not modelled.
- RateService.HistoricalRecords: rows with equal dates keep table order. SQL leaves the order of equal dates unspecified, so the model fixes one of the allowed orders.
- RateService.RateTable.UpdateExchangeRates: one `now` stands for every new row's `created_at` in a run. The per-insert `utcnow` default and its time zone are not modelled.
- ExchangeRateModel.ToDict: `created_at` is always present. The nullable column, and the failure `to_dict` would hit on a null value, are not modelled.
- Dates.FormatDate: years below 1000 are zero-padded to four digits. Platform `strftime` may not pad them.
- Dates.ParseDate accepts ASCII digits only. Python's `strptime` also accepts other Unicode decimal digits.
- Floating point is left out. Rates, averages and conversions are exact reals, and SQLite `avg` is exact division.
- Converter.CurrencyConverter.PerformConversion stores the unrounded result. The `toFixed(4)` rounding to a string is not modelled.
- Dashboard.ChangeOfRatesSpec states the change before the `toFixed(2)` rounding.
- JavaScript `new Date` parsing is not modelled. Dates are compared as ISO `YYYY-MM-DD` strings, which order like their dates (`Dates.FormatDateOrdered`).
- RateQuery.ExportCsv takes the number rendering of a rate as the parameter `show` rather than modelling JavaScript's number-to-string conversion.
- Download mechanics (Blob, object URL, link click), `message.*` notifications, antd and ECharts rendering, and loading spinners are not modelled. ECharts options other than labels, values, title and axis labels are also left out.
- ChartPage.ChartPageState.HandleChartTypeChange returns whether the form is resubmitted. The resubmission itself runs `handleSubmit` later, and which granularity it then sees depends on React's update timing, which is not modelled.
- The `useEffect` data loads are not modelled: currency lists on the query and chart pages, and the dashboard's currency list and first data load. The page states they fill are inputs of the modelled operations.
- The network client is not modelled, apart from its rules. Only truthy dates become query parameters, modelled by `RateQuery.ArgOf`. A non-2xx status throws, modelled by `Routes.ReplyOf`.
- The scheduler, application start-up, the 404 handler and database initialisation are not modelled.
- Overlapping requests and their races are not modelled. Each handler runs to completion before the next starts.

## Findings

| source | as written | input that shows it | evidently intended | confidence | as-written member | corrected member |
|---|---|---|---|---|---|---|
| frontend/src/pages/CurrencyConverter.js:48 | Reverse mode requests the rate of `fromCurrency`. The page never shows that currency, and it starts as CNY. | Initial state (from CNY, to USD), toggle to reverse, convert: the request is for CNY while the page shows USD as the source. | Request the foreign currency the page shows, which is `toCurrency`, in both directions. | not executed | Converter.ReverseRequestsHiddenCurrency | Converter.IntendedTargetIgnoresDirection |
| frontend/src/pages/CurrencyConverter.js:52-53 | The rate is read from `rates` at the top of the reply body. | Any reply of `GET /api/rates/<code>`: the records sit under `data.rates`, so every conversion ends in "no rate". | Read `data.data.rates[0].rate`. | not executed | Converter.TopLevelRateNeverPresent | Converter.NestedRateFindsStoredRate |
| frontend/src/pages/CurrencyConverter.js:31 | The currency list is read from `currencies` at the top of the reply body. | The reply of `GET /api/currencies`, whose list sits under `data`: the converter's selector stays empty. | Read `data.data`. | not executed | Converter.TopLevelCurrenciesAlwaysEmpty | Converter.NestedCurrenciesListsSupported |

The page's state class keeps the behaviour as written, so the model stays
faithful to the code. The corrected readers and the corrected target are
separate definitions, and the corrected properties are proved about them.
