# Trading Data Viewer — a Dafny model of its core

The Trading Data Viewer is a Flask web application over an SQLite database
of price bars. Each bar is a row with `bar_end_datetime`, the open, high, low
and close prices, and the volume. This project models the logic of `app.py`
that does not depend on the web framework or the database engine:

- **Timeframe aggregation** (`aggregation.dfy`). `aggregate_timeframe_data`
  is modelled as a pure function from the table's bars, listed by
  `bar_end_datetime`, to the rows of its grouped query. The grouping is
  generic over the bucket key. Lemmas prove these properties:
  - every output row is the SQL aggregate of exactly the bars of its bucket;
  - periods strictly ascend;
  - `LIMIT` keeps the earliest buckets;
  - bar counts and volumes are conserved.

  The model also shows that 60, 120 and 240 minutes give the same candles.
- **Query building and limits** (`query.dfy`). This is the WHERE/params
  builder: its placeholder count matches its parameters, and its meaning as
  a date filter is proved. Also here are the `min(limit, MAX_DATA_POINTS)`
  clamp and SQLite's `LIMIT`/`OFFSET`.
- **Validators and the catalogue** (`catalog.dfy`). These are the table-name
  check, the instrument-name derivation, and `detect_trading_tables` over
  abstracted table metadata: its filter, its loop and its sort by
  instrument.
- **Saved drawings** (`drawings.dfy`). This covers the normalisation in
  `save_drawings`, the instruments join/split pair, the id checks of
  `get_drawing` and `delete_drawing`, and the pagination arithmetic and loop
  of `get_saved_drawings`.
- **The retry decorator** `handle_db_errors` (`retry.dfy`). It is a loop
  driven by the outcome of each call of the wrapped function. The sleeps are
  recorded as their length in tenths of a second.
- **The connection counter** of `DatabaseManager` (`connections.dfy`). It is
  a class with `connectionCount`, `maxConnections` and the thread's
  has-connection flag. A ghost counter records the increments no open
  connection accounts for.
- **`get_data`** (`dataapi.dfy`) composes the pieces. It runs the table-name
  check, the existence check, the clamp, then either the raw query or the
  aggregation.

Shared pieces:
- `text.dfy` holds the Python string operations used (`strip`, `split`,
  `join`, `replace`, `upper`, `lower`, `isalnum`, `in`). `strip` removes
  Python's full whitespace set, Unicode spaces included; `upper`, `lower` and
  `isalnum` are their ASCII restrictions.
- `timestamps.dfy` holds a structured timestamp with its natural order.
- `wrappers.dfy` holds `Option` (SQL NULL, an absent JSON key) and `Result`.

Modelling conventions:
- Database rows, the table catalogue, the request's parameters, and whether
  a connect, a close or a data query raises are all inputs. A data query
  raises, for instance, on a table without the bar columns.
- A NULL column is `None`.
- SQL `MAX`, `MIN` and `SUM` ignore NULLs, and `COUNT(*)` counts every row.
- A negative SQLite `LIMIT` means no limit, and a negative `OFFSET` counts
  as 0.
- Python's `//` is floor division.

The retry decorator's comment at app.py:138 says `# Exponential backoff`,
but the delays `0.1 * (attempt + 1)` grow linearly: across at most three
calls it sleeps 0.1 s, then 0.2 s. The model follows the code.

## Model

| member | source | states |
|---|---|---|
| Query.BuildDateConditions | app.py:237-248 | one condition and one parameter per supplied bound; a timestamp passes the built WHERE exactly when it is at or after `start 00:00:00` and at or before `end 23:59:59` |
| Query.QueryPlaceholders | app.py:237-275 | the WHERE clause has one `?` per condition and the full clause with `LIMIT ?` has one more; with one parameter per condition and `params.append(limit)`, the placeholders match the bound values in number and the last one receives the limit |
| Query.ClampLimit | app.py:401 | the clamped limit is at most `MAX_DATA_POINTS` and at most the request, and equals one of them |
| Query.SqlLimitPrefix | app.py:273 | `LIMIT` returns a prefix of the rows, exactly `limit` of them when that is non-negative and below their number, and all of them exactly when the limit is negative or not below their number |
| Query.ClampCapsRows | app.py:401 | for a non-negative request the answer has at most `MAX_DATA_POINTS` and at most `limit` rows |
| Query.NegativeLimitIsUncapped | app.py:401 | as written, every negative limit (from -2^63, see Left out) passes the clamp unchanged and SQLite returns every row |
| Query.CappedLimit | app.py:401 | corrected clamp: always in `0..MAX_DATA_POINTS`, the request itself when in range |
| Query.CappedLimitBoundsRows | app.py:401 | with the corrected clamp no answer exceeds `MAX_DATA_POINTS` rows, negative requests included |
| Aggregation.SqlMax | app.py:265 | `MAX` is NULL exactly when all values are NULL, else a value that occurs and bounds every non-NULL value |
| Aggregation.SqlMin | app.py:266 | `MIN` is NULL exactly when all values are NULL, else a value that occurs and is below every non-NULL value |
| Aggregation.SqlSum | app.py:268 | `SUM` is NULL exactly when all values are NULL, else the sum of the non-NULL values |
| Aggregation.RunLength | app.py:271 | the run of bars sharing the first bar's key is maximal: it ends at the end or at a bar with another key |
| Aggregation.Rows | app.py:269-272 | one row per group, never more rows than bars, and every row counts at least one bar |
| Aggregation.FilterRange | app.py:240-246 | a bar is kept exactly when it is in the table and within the requested date range |
| Aggregation.Num | app.py:324-328 | `x if x else 0`: NULL and 0 give 0, any other value is kept |
| Aggregation.ConvertRows | app.py:320-330 | the converted list has one element per fetched row, each its converted row |
| Aggregation.AggregateTimeframeData | app.py:222-332 | an unknown timeframe fails with that timeframe before any query; otherwise the result is the converted grouped query for its interval |
| Aggregation.FilterWhereIsRange | app.py:248-260 | the SQL WHERE evaluated on the built conditions and parameters keeps the same bars as the date range |
| Aggregation.FilterRangeSorted | app.py:240-246 | filtering keeps the bars in time order |
| Aggregation.MembersAreInBucket | app.py:271 | a bar is a member of bucket p exactly when it is in the table and its key is p |
| Aggregation.MembersSorted | app.py:257-258 | the members of a bucket are in time order, which the first/last picks rely on |
| Aggregation.KeyOrder | app.py:281-285 | a later bar never falls in an earlier bucket |
| Aggregation.KeyOfMonotone | app.py:250-285 | the bucket key of every timeframe is monotone in time |
| Aggregation.RowsAscending | app.py:272 | output periods strictly ascend, so one row per non-empty bucket and no duplicates |
| Aggregation.RowsAreBuckets | app.py:262-271 | each row is the reduction of exactly its bucket's members: opened by the first, closed by the last, MAX/MIN/SUM and COUNT over all of them |
| Aggregation.RowsCoverBars | app.py:271 | every bar's bucket appears among the output periods |
| Aggregation.RowsCountBars | app.py:269 | the bar counts sum to the number of grouped bars |
| Aggregation.SumPresentAppend | app.py:268 | the sum of non-NULL values splits over concatenation |
| Aggregation.RowsConserveVolume | app.py:268 | the row volumes sum to the summed volume of the grouped bars |
| Aggregation.GroupedRowIsCandle | app.py:250-314 | row i of the query has `bar_count` members, all in range and in its bucket; open from the earliest, close from the latest; high, low and volume are the aggregates of its members |
| Aggregation.GroupedQueryShape | app.py:269-314 | periods strictly ascend; the rows are the earliest buckets; there are exactly `limit` of them when the range has more buckets, else all |
| Aggregation.GroupedQueryTotals | app.py:262-314 | when the limit cuts nothing off, the bar counts sum to the bars in range, the volumes to their summed volume, and every in-range bar's bucket has a row |
| Aggregation.CandleOfWellFormed | app.py:262-268 | a row reduced from bars that each have low <= open, close <= high has the same shape |
| Aggregation.GroupedQueryWellFormed | app.py:257-330 | over well-formed bars every row of the query, and every converted candle, has low <= open, close <= high |
| Aggregation.BucketKeyShape | app.py:281-285 | daily keys are the date; minute keys keep date and hour, zero the seconds, and floor the minute to a multiple of k containing the bar's minute |
| Aggregation.SameMinuteBucket | app.py:281-285 | two bars share a minute bucket exactly when date, hour and `minute / k` agree |
| Aggregation.RowsSameKeys | app.py:271 | two keys that agree on every bar give the same grouped rows |
| Aggregation.HourlyTimeframesCoincide | app.py:226-229 | as written, `120min` and `240min` return exactly the `60min` result |
| Aggregation.TwoHourWindowSplit | app.py:281-285 | as written, bars at 10:00 and 11:00 fall in two `120min` candles |
| Aggregation.CorrectedBucketSpan | app.py:281-285 | corrected key: start on the bar's date, seconds 0, minute of day a multiple of k, within k minutes before the bar; same bucket iff same date and slot |
| Aggregation.CorrectedKeyOfMonotone | app.py:281-285 | the corrected key is monotone, so every grouping lemma applies to it |
| Aggregation.CorrectedTwoHourWindow | app.py:281-285 | with the corrected key, bars at 10:00 and 11:00 form one `120min` candle |
| Catalog.ValidTableNameChars | app.py:386 | the table-name check accepts exactly the non-empty names of letters, digits, `_` and `-` with at least one letter or digit |
| Catalog.ValidTableNameIsInert | app.py:386 | an accepted name holds no bracket, semicolon, quote or space |
| Catalog.ForeignCharRejected | app.py:599 | any other character anywhere makes the name rejected |
| Catalog.NoAlnumRejected | app.py:386 | a name without any letter or digit is rejected |
| Catalog.AllowedCharsAccepted | app.py:386 | a name of letters, digits, `_` and `-` with at least one letter or digit is accepted |
| Catalog.BlankNamesRejected | app.py:386 | `""`, `"___"` and `"-_-"` are rejected |
| Catalog.RejectedNames | app.py:386 | `"a;b"`, `"a]"` and `"a b"` are rejected |
| Catalog.AcceptedNames | app.py:386 | `"ES_bars"` and `"x-1"` are accepted |
| Catalog.InstrumentNameIsUpper | app.py:189 | the instrument name has no lower-case letter |
| Catalog.BarsSuffixName | app.py:189 | a table `stem_bars` with no `_` in the stem is instrument `STEM` |
| Catalog.DataSuffixName | app.py:189 | a table `stem_data` with no `_` in the stem is instrument `STEM` |
| Catalog.InstrumentNameCollision | app.py:189 | `es_bars` and `ES_data` both give instrument `ES` |
| Catalog.Selected | app.py:166-207 | a table is listed exactly when its probe succeeded, has the required columns (ignoring case) and has at least one row |
| Catalog.SortTables | app.py:214 | the listing is ordered by instrument and is a permutation of the selected tables |
| Catalog.SortTablesStable | app.py:214 | tables with equal instrument keep their catalogue order, as Python's stable sort does |
| Catalog.DetectTradingTables | app.py:155-220 | a failed catalogue read gives the empty listing; otherwise the loop's list, sorted, is the selection of the probes |
| Drawings.NormaliseSave | app.py:503-522 | "Name is required" exactly for a missing body or name; "Invalid name length" exactly when the stripped name is empty or over 255; otherwise name stripped, layout the request's when in {1,2} and 1 otherwise, timeframe in the allowed list, non-list instruments as [] |
| Drawings.NormaliseSaveIdempotent | app.py:508-522 | submitting an already normalised name, layout and timeframe again succeeds and stores them unchanged |
| Drawings.LoadInstruments | app.py:568 | a NULL or empty column loads as [], anything else as its comma-separated pieces |
| Drawings.InstrumentsRoundTrip | app.py:535 | join then split returns the list exactly when no element contains `,` and the list is not `[""]` |
| Drawings.GetDrawing | app.py:545-576 | an id <= 0 is invalid, a missing row is "not found", otherwise the row's fields with instruments split |
| Drawings.SaveThenGet | app.py:529-568 | a saved drawing loads with the normalised name, layout and timeframe, and with the submitted instrument list exactly when no element holds `,` and the list is not `[""]` |
| Drawings.DeleteDrawing | app.py:580-592 | invalid id exactly when id <= 0, "not found" exactly when no row was deleted, otherwise deleted |
| Drawings.PageNumber | app.py:461 | the page is at least 1 and is the request when that is |
| Drawings.PerPage | app.py:462 | per_page is at most 100, is the request when that is, and is 100 for any larger request |
| Drawings.FloorDiv | app.py:495 | Python's `//`: the quotient rounds toward negative infinity |
| Drawings.PageCountIsCeiling | app.py:495 | for per_page >= 1 the page count is the ceiling of total / per_page |
| Drawings.PagesArePrefix | app.py:463-476 | the first n pages together are the first `n * per_page` rows |
| Drawings.PagesPartition | app.py:461-495 | for 1 <= per_page <= 100 the pages hold at most per_page rows each, the pages up to the count cover every row, and later pages are empty |
| Drawings.GetSavedDrawings | app.py:457-497 | per_page 0 fails on the division; otherwise the page of rows listed, with page, per_page, total and page count |
| Drawings.NegativePerPageIsUncapped | app.py:461-476 | as written, per_page -1 passes the cap and the page, whatever page is asked for, holds every row |
| Drawings.NegativePerPageCount | app.py:462-495 | as written, per_page -1 reports `2 - total` pages |
| Drawings.CorrectedPerPage | app.py:462 | corrected per_page: always in 1..100, the request when in range |
| Drawings.CorrectedPerPagePartitions | app.py:462-495 | with the corrected per_page, every request paginates all rows into at most per_page each |
| Retry.Final | app.py:132-150 | the answer for the last call: a return passes its value through, an OperationalError gives "Database error" with its message, a FileNotFoundError "Database file not found", any other error "Server error"; the fallback is never this answer |
| Retry.CallsMade | app.py:131-150 | one to three calls; every call before the last failed retryably; stopping before the third means the last did not |
| Retry.HandleDbErrors | app.py:127-153 | the loop makes `CallsMade` calls, answers for the last one, and sleeps 0.1 s, 0.2 s before the second and third |
| Retry.NeverRetriesExceeded | app.py:152 | the "Maximum retries exceeded" answer is never given |
| Retry.PassedExactly | app.py:132-135 | the result passes through exactly when one of the first three calls returns it after only retryable failures |
| Retry.FatalErrorsAreNotRetried | app.py:136-144 | a missing file or a non-lock OperationalError answers after one call |
| Retry.LockedEveryTime | app.py:137-141 | a lock error on every call ends after three calls with "Database error" |
| Retry.LockErrorIgnoresCase | app.py:137 | two messages equal after `lower()` are both lock errors or neither |
| Retry.UpperLockError | app.py:137 | a message is a lock error exactly when its upper-case form is |
| Retry.ShoutedLockError | app.py:137 | `"DATABASE IS LOCKED"` is a lock error |
| Text.LowerUpper | app.py:137 | `s.upper().lower() == s.lower()` |
| Connections.DatabaseManager.constructor | app.py:46-51 | a new manager has no connection and a zero counter |
| Connections.DatabaseManager.Acquire | app.py:69-93 | reuse an open connection; refuse at the limit without change; otherwise raise the counter, and when connect fails keep it raised with no connection |
| Connections.DatabaseManager.Close | app.py:102-112 | closing lowers the counter, clamped at 0; a failing `close()` keeps it; the connection is forgotten either way |
| Connections.DatabaseManager.GetConnection | app.py:66-100 | the block does not start exactly when the limit is reached (nothing changes) or connect fails (counter and leak raised, no connection); a completing body keeps the connection with the counter raised only for a new one; a raising body closes it, releasing its slot unless `close()` raises |
| Connections.DatabaseManager.CloseAll | app.py:114-116 | shutdown forgets the thread's connection and lowers the counter, except when `close()` raises, when the slot leaks; with no connection nothing changes |
| Connections.DatabaseManager.AcquireFixed | app.py:72-93 | corrected: a failing connect lowers the counter again, so it equals the open connections |
| Connections.DatabaseManager.CloseFixed | app.py:104-112 | corrected: the decrement in `finally` releases the slot even when `close()` raises |
| Connections.ConnectFailuresExhaustPool | app.py:72-93 | as written, `max` failed connects leave the counter at the limit and the next request is refused with no connection open |
| Connections.FixedManagerRecovers | app.py:72-93 | corrected, the same failures leave the counter at 0 and the next request opens |
| Connections.CloseFailureLeaks | app.py:104-112 | as written, a failing `close()` with limit 1 leaves the slot taken and the next request refused |
| Connections.CloseFixedReleases | app.py:104-112 | corrected, the next request opens |
| DataApi.RawQuery | app.py:407-444 | the converted rows of the date-filtered bars, oldest first, cut by `LIMIT` |
| DataApi.GetData | app.py:381-455 | 400 exactly for a rejected name; 404 exactly for a missing table; 500 for an unknown timeframe; 500 exactly when the query or its connection raises for `raw` or a known timeframe; otherwise raw rows for `raw` and candles for the rest, the converted rows of the clamped query |
| DataApi.AnswerIsCapped | app.py:401-446 | for a non-negative limit either answer has at most `MAX_DATA_POINTS` points, and raw rows are in time order and in range |
| DataApi.SavedTimeframesAreServed | app.py:521 | the timeframes a drawing can be saved with are exactly those `get_data` serves |
| Timestamps.DayBounds | app.py:240-246 | for a valid timestamp, `>= d 00:00:00` holds exactly when its date is d or later, and `<= d 23:59:59` exactly when its date is d or earlier |
| Text.Strip | app.py:508 | the stripped string is a slice with no surrounding whitespace that drops only whitespace |
| Text.StripIdempotent | app.py:508 | stripping twice is stripping once |
| Text.Split | app.py:568 | split gives at least one piece |
| Text.SplitLength | app.py:568 | split gives one more piece than there are separators |
| Text.SplitJoin | app.py:535 | splitting the join of separator-free pieces gives the pieces back |

## Left out

- HTTP plumbing: routes, `request.args` parsing and `int()` errors, `jsonify`, headers, error handlers and `after_request`. The route arguments are parameters.
- SQLite: `connect`, the PRAGMAs, the `sqlite_master` and `PRAGMA table_info` lookups, INSERT, DELETE and commit, `lastrowid`. Their results (the table's rows, a probe's metadata, the row count) are inputs.
- `_validate_database` and `init_database` (file checks and schema creation) are not modelled: they are I/O.
- Concurrency: `threading.local`, the lock and the thread pool. The counter is modelled for one thread.
- `time.sleep`: only the delay values are recorded.
- Prices are `float` in the source and integers here. SQLite's `AVG` over one value is that value.
- Dates are structured timestamps. The text formats `DATE`, `strftime`, `printf` and `datetime(...)` are not modelled, and neither are the display strings `date_range` and `display_name` of `detect_trading_tables`.
- Timestamps are assumed well formed and the table is given listed by `bar_end_datetime`. Which of several bars with the same timestamp supplies open or close is left unspecified.
- `json.dumps`/`json.loads` of the drawings data, the `start_date`/`end_date` columns of a saved drawing, and `created_at` ordering are passed through or left out. The stored rows are given in the query's order.
- A non-string element in `instruments` makes `','.join` raise a `TypeError`. Here instruments are strings.
- `str(data['name'])` and `int(data.get('layout'))` on non-string or non-numeric JSON are not modelled: name and layout arrive as a string and an integer.
- `isalnum`, `upper` and `lower` are ASCII only: their Unicode letters and digits are not modelled. `strip` uses Python's full whitespace set.
- `download_data` beyond its table-name check, clamp and WHERE builder (shared with `get_data`), the CSV/JSON export, the health check, logging, `atexit` and the `lru_cache` memoisation are left out.
- waitress_config.py is not part of this model: it only sets server constants.
- DataApi.GetData: the table-existence lookup at app.py:389-396 runs outside the route's `try`. When its connection or query raises (the connection limit, a locked database), the exception escapes to `handle_db_errors`, which retries and answers "Database error" or "Server error". `tableExists` is only the lookup's result, so this path is not modelled.
- Drawings.GetSavedDrawings: integers are unbounded here. Python's sqlite3 binds only 64-bit integers and raises `OverflowError` for a value outside [-2^63, 2^63), such as the offset of `page=10**18`. The error escapes to the retry decorator, which answers "Server error"; the model returns an empty page.
- Query.NegativeLimitIsUncapped: holds for limits from -2^63. A smaller limit makes the binding raise `OverflowError`, and `get_data` answers 500.
- Aggregation.SqlSum: SQLite's integer `SUM` raises "integer overflow" past 2^63. The model sums unbounded integers.
- Retry.HandleDbErrors: the wrapped function is a total function from the attempt number to its outcome, so arguments and side effects of the calls are not modelled.
- Retry.HandleDbErrors: the fallback after the loop is kept in the code but is unreachable, as NeverRetriesExceeded states.

## Findings

| source | as written | input that shows it | evidently intended | confidence | as-written member | corrected member |
|---|---|---|---|---|---|---|
| app.py:281-285 | the minute is floored within the hour, so a 120- or 240-minute bucket never spans more than the hour | `120min` over bars at 10:00 and 11:00 of one day gives two candles; `120min` and `240min` always equal `60min` | buckets of k minutes aligned on the minute of the day | not executed | Aggregation.HourlyTimeframesCoincide | Aggregation.CorrectedTwoHourWindow |
| app.py:72-93 | the counter is raised before `sqlite3.connect`, and not lowered when connect raises | `max_connections` failed connects leave the counter at the limit with no connection open; every later request is refused | the counter counts open connections | not executed | Connections.ConnectFailuresExhaustPool | Connections.FixedManagerRecovers |
| app.py:104-112 | the decrement sits in the `try` after `close()`, so a raising `close()` skips it while `finally` forgets the connection | limit 1: open, a `close()` that raises, then a new request is refused | the slot is released whenever the connection is forgotten | not executed | Connections.CloseFailureLeaks | Connections.CloseFixedReleases |
| app.py:401 | `min(limit, MAX_DATA_POINTS)` bounds only from above, and a negative SQLite `LIMIT` means no limit | `limit=-1` returns every row of the table | at most `MAX_DATA_POINTS` rows | not executed | Query.NegativeLimitIsUncapped | Query.CappedLimitBoundsRows |
| app.py:462 | `min(per_page, 100)` bounds only from above | `per_page=-1` returns every drawing and reports `2 - total` pages; `per_page=0` divides by zero | per_page in 1..100 | not executed | Drawings.NegativePerPageIsUncapped, Drawings.NegativePerPageCount | Drawings.CorrectedPerPagePartitions |
