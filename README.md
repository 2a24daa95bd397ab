# stock-insights-api in Dafny

A model of the core of the stock-insights API, a Go service. The service pulls
analyst rating-change events from an external paginated feed and stores them
in a CockroachDB `stocks` table keyed by ticker. It serves filtered, ordered
and paginated listings of that table, plus a monthly recommendation summary.

The model has one module per Go source file:

- `Cockroachdb` (stock_repository.go): the repository is a class whose `rows`
  field is the table, a map from ticker to row.
  - `SaveStocks` upserts a batch inside a transaction. On any fault it
    restores a snapshot, which is the rollback.
  - The readers scan the keys in an unspecified order and insert each selected
    row into a sorted sequence. The result is then cut to the LIMIT/OFFSET
    window.
  - Every reader is proved against one specification, `IsResultOf`: each
    selected row exactly once, sorted by the requested ordering. Rows that tie
    may come in any order, as in SQL.
- `StockApi` (client.go):
  - `FetchStocks` is a function of the client, the cursor and the outcome of
    the HTTP exchange.
  - `FetchAllStocks` is the pagination loop as a `while` loop. It is proved
    equal to the specification function `RunFrom`.
  - Lemmas about `RunFrom` state the cursor discipline, the retry budget,
    accumulation in fetch order and the stopping conditions.
- `Handlers` (stock_handler.go): `parsePagination`, the order_by/sort
  normalisation, the filter precedence of `ListStocks`, the page count, and
  the `ListStocks` and `GetStockDetails` handlers over the repository.
- `Services` (recommendation_service.go): `GetRecommendations` and
  `generateResponseMessage`. The clock, the month subtraction and the
  recommender are parameters.
- `Database` (connection.go): the base connection string `Connect` opens
  first, as a pure function.
- `Config` (config.go): `getEnv`, `NewConfig` and `GetDBConnectionString`.
- `ApiMain` (main.go): `maskToken`, on bytes.

Helper modules:

- `Wrappers`: Option and Result.
- `Models`: the `Stock` entity. Its `time` is an integer instant.
- `Strings`: `strings.Index`/`LastIndex`, byte-wise string order, `ToUpper`,
  and the `LIKE`/`ILIKE` matcher.
- `Strconv`: `strconv.Atoi`, `%d` formatting, and Go's 64-bit `int`
  wrap-around.

Inputs the Go code reads from the outside world are parameters:

- HTTP outcomes are a `network(k)` oracle answering the k-th request.
- Database driver failures are `dbError`/`TxFaults` arguments.
- The clock, `AddDate`, `url.QueryEscape` and the recommender are function
  parameters.

## Model

| member | source | states |
|---|---|---|
| Cockroachdb.StockRepository.SaveStocks | internal/adapters/secondary/cockroachdb/stock_repository.go:48-90 | the reported error is the first fault among begin, prepare, the upsert positions in batch order, and commit; with no error the table is the old table with the batch upserted in order; on any error the table is exactly what it was before the call; the table stays keyed by ticker |
| Cockroachdb.UpsertedLastWins | internal/adapters/secondary/cockroachdb/stock_repository.go:55-58 | after a save, each ticker of the batch maps to the last batch element with that ticker, with all its fields (whole-row replacement, no merge) |
| Cockroachdb.UpsertedUntouched | internal/adapters/secondary/cockroachdb/stock_repository.go:66-83 | a row whose ticker is not in the batch is present afterwards iff it was present before, and is unchanged |
| Cockroachdb.UpsertedKeys | internal/adapters/secondary/cockroachdb/stock_repository.go:66-83 | the keys after a save are the old keys plus exactly the batch's tickers |
| Cockroachdb.UpsertedKeyed | internal/adapters/secondary/cockroachdb/stock_repository.go:30 | every row stays stored under its own ticker (the primary key) |
| Cockroachdb.UpsertIdempotent | internal/adapters/secondary/cockroachdb/stock_repository.go:55-58 | saving the same batch twice gives the same table as saving it once |
| Cockroachdb.ResaveReplacesRow | internal/adapters/secondary/cockroachdb/stock_repository.go:55-58 | re-saving a ticker with new ratings leaves the new row under that ticker |
| Cockroachdb.SaveErrorNamesTicker | internal/adapters/secondary/cockroachdb/stock_repository.go:79-82 | when an upsert fails, the error is UpsertFailed and names the ticker of the first failing batch position; every position before it succeeded |
| Cockroachdb.InsertSorted | internal/adapters/secondary/cockroachdb/stock_repository.go:108 | placing a row into a result sorted by the ORDER BY keeps it sorted |
| Cockroachdb.StockRepository.Select | internal/adapters/secondary/cockroachdb/stock_repository.go:118-141 | the scan returns every row the WHERE clause selects exactly once, nothing else, sorted by the requested ordering |
| Cockroachdb.StockRepository.Count | internal/adapters/secondary/cockroachdb/stock_repository.go:145-152 | COUNT(*) is the number of keys whose rows satisfy the WHERE clause |
| Cockroachdb.StockRepository.GetStocks | internal/adapters/secondary/cockroachdb/stock_repository.go:93-142 | the result is the LIMIT/OFFSET window of all rows ordered by the requested column and direction, with "time" and "DESC" as the defaults for empty arguments |
| Cockroachdb.StockRepository.CountStocks | internal/adapters/secondary/cockroachdb/stock_repository.go:145-152 | the count is the number of rows in the table |
| Cockroachdb.StockRepository.GetStocksByBrokerage | internal/adapters/secondary/cockroachdb/stock_repository.go:155-196 | the window of the rows with that brokerage, newest first |
| Cockroachdb.StockRepository.CountStocksByBrokerage | internal/adapters/secondary/cockroachdb/stock_repository.go:199-206 | the number of rows the same brokerage predicate selects |
| Cockroachdb.StockRepository.GetStocksByTickerPattern | internal/adapters/secondary/cockroachdb/stock_repository.go:209-253 | the window of the rows whose ticker matches ILIKE '%' + argument + '%', newest first |
| Cockroachdb.StockRepository.CountStocksByTickerPattern | internal/adapters/secondary/cockroachdb/stock_repository.go:256-266 | the number of rows the same ILIKE pattern selects |
| Cockroachdb.TickerSearchIsSubstring | internal/adapters/secondary/cockroachdb/stock_repository.go:215-221 | for an argument without %, _ or backslash, the ticker filter selects exactly the tickers that contain the argument, ignoring ASCII case |
| Cockroachdb.StockRepository.GetStocksByRating | internal/adapters/secondary/cockroachdb/stock_repository.go:269-310 | the window of the rows whose rating_from or rating_to equals the argument, newest first |
| Cockroachdb.StockRepository.CountStocksByRating | internal/adapters/secondary/cockroachdb/stock_repository.go:313-320 | the number of rows the same either-rating predicate selects |
| Cockroachdb.StockRepository.GetStockByTicker | internal/adapters/secondary/cockroachdb/stock_repository.go:323-354 | without a driver error the lookup succeeds iff the ticker is stored, returns that row, and otherwise fails with NotFound naming the ticker; a driver error gives QueryFailed, which is distinct from NotFound |
| Cockroachdb.StockRepository.GetStocksByDateRange | internal/adapters/secondary/cockroachdb/stock_repository.go:357-397 | exactly the rows with start <= time <= end (both ends inclusive), newest first, no limit |
| Cockroachdb.WindowShape | internal/adapters/secondary/cockroachdb/stock_repository.go:109 | a window holds at most `limit` rows: entry i is row offset + i of the full result, and the window is empty once the offset passes the end |
| Cockroachdb.PagesCoverResult | internal/adapters/secondary/cockroachdb/stock_repository.go:109 | the consecutive windows of any page size, taken together, give back the whole result once and in order |
| StockApi.NewClient | internal/adapters/secondary/stockapi/client.go:42-60 | the base URL comes from STOCK_API_BASE_URL, or is the default when that is empty or unset; the token comes from STOCK_API_AUTH_TOKEN, or is "" |
| StockApi.RequestURL | internal/adapters/secondary/stockapi/client.go:68-73 | the URL always starts with the base URL; it is the base URL alone exactly when the cursor is empty, and otherwise continues with "?next_page=" and the encoded cursor |
| StockApi.FetchStocks | internal/adapters/secondary/stockapi/client.go:62-113 | an empty token fails with MissingToken whatever the network would answer; success iff status 200 with a decodable body, which is returned; Gone iff status 410; an APIError carries that status, that body and the request URL, and only for statuses other than 200 and 410, and conversely every such status with a token gives exactly that APIError; a 200 whose body does not decode gives a Decoding error with the decoder's reason; an exchange that broke down gives a request, transport or body error carrying its reason |
| StockApi.ErrorText | internal/adapters/secondary/stockapi/client.go:32-109 | the 410 and missing-token errors read as their fixed messages; every wrapped error ends with the underlying reason, and an APIError's text ends with the response body |
| StockApi.ApiErrorStatusReadable | internal/adapters/secondary/stockapi/client.go:32-34 | an APIError's text starts with "API returned status " followed by the decimal status code, which reads back as that code |
| StockApi.GoneTextOnlyForGone | internal/adapters/secondary/stockapi/client.go:95-127 | an error's text equals the 410 message iff the error is the 410 error, so the loop's text comparison recognises exactly that case |
| StockApi.Iterate | internal/adapters/secondary/stockapi/client.go:123-147 | one pass of the loop never leaves the retry counter above MaxRetries |
| StockApi.FetchAllStocks | internal/adapters/secondary/stockapi/client.go:116-151 | the loop returns exactly the result of the run that the specification function RunFrom describes for the same client and network |
| StockApi.IterateAccumulates | internal/adapters/secondary/stockapi/client.go:139-141 | one pass appends the fetched page's items (none after a failure) to the loop's state or to its result |
| StockApi.RunCollectsPages | internal/adapters/secondary/stockapi/client.go:137-150 | a successful run returns the concatenation of every successful page's items in fetch order; failed attempts contribute nothing |
| StockApi.RunCursors | internal/adapters/secondary/stockapi/client.go:118-147 | the first request uses the empty cursor; attempt k is the fetch numbered k on its cursor; after a failure the same cursor is retried, and after a success the next cursor is the page's |
| StockApi.RunContinues | internal/adapters/secondary/stockapi/client.go:119-137 | every attempt but the last is a page with a cursor or an error other than 410, and leaves the consecutive-failure counter at most 3 (the counter resets after each success) |
| StockApi.RunStops | internal/adapters/secondary/stockapi/client.go:125-145 | a finished run ends on its last attempt: success only on a page with an empty cursor; failure only on the 410 error or on the failure that makes the streak 4 (1 + maxRetries); there is no page cap |
| StockApi.GoneStopsRun | internal/adapters/secondary/stockapi/client.go:95-127 | a 410 answer ends the run at once with the Gone error and no retry, discarding what was accumulated |
| StockApi.NoTokenNoRequest | internal/adapters/secondary/stockapi/client.go:63-134 | without a token the run makes four attempts on the empty cursor, sends no request, and aborts with MissingToken whatever the network would answer |
| StockApi.TransientFails | internal/adapters/secondary/stockapi/client.go:63-110 | FetchStocks fails with an error other than 410 iff there is no token, or the exchange broke down, or the status is neither 410 nor a decodable 200 |
| StockApi.SkipFailures | internal/adapters/secondary/stockapi/client.go:129-133 | k failures other than 410 within the budget only raise the retry counter by k: the cursor and the items collected are kept |
| StockApi.SuccessForgetsRetries | internal/adapters/secondary/stockapi/client.go:137 | once a page succeeds, how many retries preceded it does not change how the run ends |
| StockApi.RetryIsTransparent | internal/adapters/secondary/stockapi/client.go:119-137 | if a page fails transiently at most 3 times in a row and then succeeds, the run ends exactly as if it had succeeded at once |
| StockApi.TwoPageScenario | internal/adapters/secondary/stockapi/client.go:116-151 | two pages, the second without a cursor: the requests use "" and then "p2", and the three items come back in order |
| Handlers.PositiveParam | internal/adapters/primary/http/handlers/stock_handler.go:174-181 | a parameter is used only when it is present, parses as a Go int and is positive |
| Handlers.ParsePagination | internal/adapters/primary/http/handlers/stock_handler.go:170-197 | page >= 1; 1 <= limit <= 100; the offset is non-negative, a multiple of the limit, and skips exactly page - 1 whole pages |
| Handlers.PageParameter | internal/adapters/primary/http/handlers/stock_handler.go:171-178 | a missing, unparseable or non-positive page gives 1; a positive one is taken as is |
| Handlers.PageSizeParameter | internal/adapters/primary/http/handlers/stock_handler.go:172-187 | a missing, unparseable or non-positive page_size gives 10; 1..100 is taken as is; larger values clamp to 100 |
| Handlers.EmptyQueryPagination | internal/adapters/primary/http/handlers/stock_handler.go:170-197 | an empty query asks for page 1 of 10 items, at offset 0 |
| Handlers.ParsePaginationAsWritten | internal/adapters/primary/http/handlers/stock_handler.go:190 | with Go's 64-bit multiplication the offset stays in int range; page and limit agree with ParsePagination, and the offset agrees too whenever the true offset fits in an int |
| Handlers.OffsetWrapsToZero | internal/adapters/primary/http/handlers/stock_handler.go:174-190 | page=288230376151711745&page_size=64 passes the checks; the true offset is 2^64, yet Go's 64-bit offset wraps to 0, the first page's offset |
| Handlers.OffsetOverflow | internal/adapters/primary/http/handlers/stock_handler.go:174-190 | page=100000000000000000&page_size=100 passes Atoi and the positivity check, yet the computed offset wraps to -8446744073709551716 instead of 9999999999999999900 |
| Handlers.NormalizeOrderBy | internal/adapters/primary/http/handlers/stock_handler.go:46-57 | the result is always an allow-listed column; an allow-listed name is kept, and an empty or unknown one becomes "time" |
| Handlers.AllowListIsSchema | internal/adapters/primary/http/handlers/stock_handler.go:50-53 | a name is allow-listed iff it names a column of the stocks table, so whatever reaches the ORDER BY interpolation of GetStocks is a column |
| Handlers.NormalizeOrderByIdempotent | internal/adapters/primary/http/handlers/stock_handler.go:46-57 | normalising order_by twice is normalising it once |
| Handlers.NormalizeSortOrder | internal/adapters/primary/http/handlers/stock_handler.go:59-66 | the result is "ASC" or "DESC", and "ASC" exactly when the upper-cased input is "ASC"; empty and unknown inputs give "DESC" |
| Handlers.AscendingSpellings | internal/adapters/primary/http/handlers/stock_handler.go:62-63 | ascending order is chosen by exactly the three-letter case variants of "asc", plus the long s that Go upper-cases to 'S' |
| Handlers.NormalizeSortOrderIdempotent | internal/adapters/primary/http/handlers/stock_handler.go:59-66 | normalising sort twice is normalising it once |
| Handlers.DescendingSpellings | internal/adapters/primary/http/handlers/stock_handler.go:59-66 | descending order is chosen by every value other than the spellings of "asc", and the four-letter case variants of "desc" (long s included) are exactly the values that upper-case to "DESC" |
| Handlers.PlanQuery | internal/adapters/primary/http/handlers/stock_handler.go:73-125 | ticker wins over brokerage, brokerage over rating, and rating over no filter; each filter query gets its own parameter; only the unfiltered query carries an ordering, and it is the normalised order_by and sort parameters |
| Handlers.OrderingOnlyUnfiltered | internal/adapters/primary/http/handlers/stock_handler.go:73-114 | once any filter is present, order_by and sort do not change the query issued |
| Handlers.TotalPages | internal/adapters/primary/http/handlers/stock_handler.go:127 | the page count is ceil(total / limit): the pages cover the total, the last page is not empty, and it is 0 for no rows |
| Handlers.PageNonEmptyIffWithinTotal | internal/adapters/primary/http/handlers/stock_handler.go:127 | page p of a result holds rows exactly when p is at most the reported page count |
| Handlers.ListStocks | internal/adapters/primary/http/handlers/stock_handler.go:32-142 | the response's rows are the requested window of the planned query's full result, ordered as planned; total_stocks is the size of that same result (the paired count uses the same predicate); total_pages, current_page and items_per_page come from the pagination |
| Handlers.GetStockDetails | internal/adapters/primary/http/handlers/stock_handler.go:145-167 | an empty ticker is rejected; otherwise the stored row is returned iff the ticker is stored; every lookup error, a driver failure included, answers not found |
| Services.ResponseMessage | internal/application/services/recommendation_service.go:58-66 | 0 gives the "none" text, 1 the singular text, and any other count the plural text with the count printed in decimal |
| Services.ResponseMessageInjective | internal/application/services/recommendation_service.go:58-66 | the message determines the count: no two counts share a message |
| Services.BuildResponse | internal/application/services/recommendation_service.go:47-52 | Count is the number of recommendations, and Message is chosen by that same number |
| Services.GetRecommendations | internal/application/services/recommendation_service.go:35-55 | a store error is returned as is, with no response; otherwise the store is queried for the window from one calendar month before now up to now, the recommender gets exactly the rows returned and the limit 10, and the response counts its results |
| Services.QuietMonth | internal/application/services/recommendation_service.go:40-51 | with no event in the window, and a recommender that says nothing about no events, the answer is empty with the "none" message |
| Database.BaseConnectionString | internal/infrastructure/database/connection.go:15-22 | the result is never longer than the input, and keeps the input's prefix up to and including the last '/' |
| Database.NoSlashUnchanged | internal/infrastructure/database/connection.go:15-16 | without a '/' the string is unchanged |
| Database.RemovesNameBeforeQuery | internal/infrastructure/database/connection.go:16-18 | with the last '/' at i and the first later '?' at j, exactly the characters strictly between them are removed |
| Database.RemovesTail | internal/infrastructure/database/connection.go:19-21 | with the last '/' at i and no '?' after it, everything after position i is removed |
| Database.SlashInQueryKeepsName | internal/infrastructure/database/connection.go:16 | a '/' in the query part becomes the cut point: "h/db?o=a/b" becomes "h/db?o=a/", keeping the database name |
| Database.BaseConnectionStringIdempotent | internal/infrastructure/database/connection.go:16-21 | stripping twice is stripping once, for every input |
| Config.GetEnv | internal/infrastructure/config/config.go:37-42 | a set variable's value is returned even when it is empty; the default is used only when the variable is unset |
| Config.NewConfig | internal/infrastructure/config/config.go:20-35 | each field is getEnv of its own variable with its own default |
| Config.EmptyValueOverridesDefault | internal/infrastructure/config/config.go:28-40 | DB_NAME set to "" gives an empty database name, not "stockdb" |
| Config.GetDBConnectionString | internal/infrastructure/config/config.go:44-47 | the DSN is the server part (user, password, host and port, ending in '/'), then the database name, then the "?sslmode=" query |
| Config.DefaultConnectionString | internal/infrastructure/config/config.go:24-46 | with no variable set the DSN is "postgresql://root:@localhost:26257/stockdb?sslmode=disable" |
| Config.BaseConnectionStringDropsName | internal/infrastructure/config/config.go:45-46 | if the database name has neither '/' nor '?' and the SSL mode has no '/', the stripping in Connect removes exactly the database name from the DSN |
| ApiMain.MaskToken | cmd/api/main.go:107-112 | a token of at most 8 bytes masks to "***"; a longer one masks to its first 4 bytes, "..." and its last 4 bytes |
| ApiMain.MaskLength | cmd/api/main.go:108-111 | the mask is 3 or 11 bytes long, and 11 exactly for tokens longer than 8 bytes |
| ApiMain.ShortTokensIndistinguishable | cmd/api/main.go:108-110 | all tokens of at most 8 bytes, the empty default included, mask alike |
| ApiMain.LongTokenHidesAByte | cmd/api/main.go:111 | for a token longer than 8 bytes there is a different token of the same length with the same mask, so the mask never reveals the whole token |
| ApiMain.LongTokenShowsEnds | cmd/api/main.go:111 | the mask of a long token is its first 4 bytes, then "...", then its last 4 bytes |

## Left out

- Cockroachdb.StockRepository.GetStocks: requires an allow-listed column name and a sort order of "", "ASC" or "DESC". The Go function interpolates any string into the SQL text. Other strings are SQL errors or injection, which the model does not capture; the handler only ever passes allow-listed values.
- Cockroachdb.StockRepository.GetStocks and the other readers: driver, `rows.Scan` and `rows.Err` failures are not modelled, so these reads always succeed. The handler's 500 responses for failed reads and counts are therefore not modelled either. `GetStockByTicker` and `GetRecommendations` do model a driver failure, through `dbError`.
- Cockroachdb.StockRepository.SaveStocks: `defer stmt.Close()` and the error text wrapping (`%w`) are not modelled. Errors are constructors that keep the ticker where the text names one.
- `InitDB` (the CREATE TABLE DDL) is not modelled beyond the table being keyed by ticker.
- `ILIKE` folds ASCII letters only. Unicode case folding is not modelled.
- `Strings.ToUpper` upper-cases ASCII letters and the few code points relevant to "ASC"/"DESC". Go's full Unicode `strings.ToUpper` is not modelled.
- `url.Values.Encode` is an abstract `escape` function. `time.AddDate(0, -1, 0)` is an abstract `monthBack` function. `time.Now` values are integer parameters.
- The recommender (`recommendation.StockRecommender`) is not part of this model. It is a function parameter, and nothing is assumed about it.
- JSON encoding and decoding, `http.Error` status writing, the router, CORS and logging middleware, the recommendation, sync and health handlers, and the repository port interface are not modelled. They are plumbing or concurrency.
- StockApi.FetchAllStocks: `time.Sleep(2 * time.Second)` is a no-op. The loop is proved only for networks under which it finishes within `bound` attempts. Go's loop has no bound, and a feed that never stops would make it run forever, which the model does not capture.
- Handlers.ListStocks: uses the corrected pagination, whereas Go computes the wrapped 64-bit offset: a negative one makes CockroachDB reject the OFFSET and the handler answers 500, and a small one (page=288230376151711745&page_size=64 wraps to 0) serves the first page's rows while reporting the requested page as current_page.
- StockApi.FetchStocks: the HTTP client, its 30-second timeout and the request headers are not modelled. What the exchange produced is an `HttpOutcome` input.
- `Database.Connect`'s `sql.Open`, `Ping`, pool settings and its `CREATE DATABASE IF NOT EXISTS stockdb` are not modelled. That statement hard-codes "stockdb" at connection.go:31 whatever DB_NAME says.
- main.go's startup sequence (environment mutation, `log.Fatalf`, starting the server) is not modelled. Only `maskToken` is.
- Strings are sequences of code points, not UTF-8 bytes. Byte lengths matter only in `maskToken`, which the model states on bytes. Elsewhere an index or a length counts characters, which agrees with Go for ASCII text such as connection strings.

## Findings

| source | as written | input that shows it | evidently intended | confidence | as-written member | corrected member |
|---|---|---|---|---|---|---|
| internal/adapters/primary/http/handlers/stock_handler.go:190 | `offset := (page - 1) * pageSize` in Go's 64-bit int, with page only checked to be a positive int | `page=100000000000000000&page_size=100`: the offset wraps to -8446744073709551716; `page=288230376151711745&page_size=64`: the offset wraps to 0 | an offset of (page - 1) * pageSize, non-negative and a multiple of the page size | not executed | Handlers.ParsePaginationAsWritten, Handlers.OffsetOverflow, Handlers.OffsetWrapsToZero | Handlers.ParsePagination |
