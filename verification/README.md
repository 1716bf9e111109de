# Oracle node: price aggregator and exchange price fetch, in Dafny

This project models two parts of an oracle node that publishes a BTC/USD price.

**The aggregator** (`aggregator.dfy`, `consensus.dfy`) is a gRPC service. Reporter nodes submit prices to it. It keeps two pieces of state:
- a log of the most recent 100 submissions, in arrival order;
- a map from reporter node to the time (Unix seconds, `u64`) it was last seen.

Its operations:
- **Submit.** Appends to the log, trims it to the newest 100, records the node as seen now and drops nodes silent for 120 s or more. It answers with the consensus price.
- **Consensus.** The median of the prices submitted less than 60 s ago. There is none when no submission is that recent.
- **Query.** Returns the ten newest submissions, newest first, and the consensus, with 0 when there is none.
- **Health check.** Reports how many nodes are tracked.

The service is the class `Aggregator.AggregatorService`, with `seq` and `map` fields. Each RPC handler is a method, and the clock is the parameter `now`.

**The fetch client** (`binance.dfy`, `decimal.dfy`) asks the exchange's REST API for the 1-minute kline of the last fully closed minute. It then:
- reads the close price (field 4, decimal text) and the open time (field 0, milliseconds) from the first record;
- rejects a non-positive price;
- converts the price to whole cents by truncation;
- stamps the result with the time the fetch completed.

A retry loop makes up to three attempts. It waits 2^(k-1) s after failed attempt k when another attempt follows.

The network is replaced by values:
- one fetch takes the HTTP reply it received;
- the retry loop takes the outcome of each attempt, in order;
- a wait is recorded instead of slept.

Supporting modules:
- `numeric.dfy` holds the `u16`/`u32`/`u64` ranges and the wrapping arithmetic of a release build;
- `wrappers.dfy` holds `Option` and `Result`;
- `scenarios.dfy` walks through sequences of aggregator calls and a retry run in proofs, deriving each outcome from the operations' contracts alone.

## Model

| member | source | states |
|---|---|---|
| Aggregator.AggregatorService.constructor | aggregator-server/src/main.rs:43-50 | A new service has an empty log and no tracked nodes |
| Aggregator.AggregatorService.SubmitPrice | aggregator-server/src/main.rs:95-148 | The log becomes `old + [entry]`, cut to its last 100 entries when longer, so it never exceeds 100 and the new entry is last. The node map becomes the sweep at `now` of the old map with the submitter set to `now`, so the submitter is tracked with time `now`. The response is success, with the median of the fresh prices of the new log, stamped `now` |
| Aggregator.AggregatorService.CleanupInactiveNodes | aggregator-server/src/main.rs:81-89 | The node map becomes its sweep at `now`; the log is unchanged |
| Aggregator.AggregatorService.CalculateMedianPrice | aggregator-server/src/main.rs:53-78 | There is no consensus exactly when no log entry is fresh (age under 60 s by wrapping `u64` subtraction); it reads the state only |
| Aggregator.AggregatorService.HealthCheck | aggregator-server/src/main.rs:157-174 | Healthy, stamped `now`, version "1.0.0"; the node count is `len() as u32` (the count modulo 2^32, the count itself below 2^32); the state is not modified |
| Aggregator.AggregatorService.GetAggregatedPrice | aggregator-server/src/main.rs:188-220 | The state is not modified. `recentPrices[k]` is the k-th newest log entry, with `min(10, |log|)` entries, and `dataPoints` equals that count. The price is the consensus, or 0 when there is none, in particular when no entry is fresh |
| Aggregator.FreshPrices | aggregator-server/src/main.rs:58-63 | The window of fresh prices is no longer than the log |
| Aggregator.FreshPricesMembers | aggregator-server/src/main.rs:58-63 | The window holds the price of every fresh entry, and every price in it comes from a fresh entry |
| Aggregator.FreshPricesAppend | aggregator-server/src/main.rs:58-63 | Filtering distributes over concatenation, so the window keeps log order and multiplicity |
| Aggregator.FreshPricesSingle | aggregator-server/src/main.rs:61-62 | A one-entry log contributes its price exactly when the entry is fresh |
| Aggregator.FreshnessOfPastAndFuture | aggregator-server/src/main.rs:61 | For a past timestamp, fresh means `now - ts < 60`; a future timestamp (not within 60 s of wrapping round) is never fresh |
| Aggregator.ConsensusNoneIffNoneFresh | aggregator-server/src/main.rs:58-67 | The median of the window is None if and only if no log entry is fresh |
| Aggregator.ConsensusWithinFreshPrices | aggregator-server/src/main.rs:58-77 | A consensus lies between the prices of two fresh log entries |
| Aggregator.Sweep | aggregator-server/src/main.rs:86-88 | A node is kept exactly when it was tracked and `now - last_seen < 120` (wrapping); kept nodes keep their time |
| Aggregator.SweepIdempotent | aggregator-server/src/main.rs:81-89 | A second sweep at the same time removes nothing |
| Aggregator.NewestFirst | aggregator-server/src/main.rs:196-207 | `iter().rev().take(n)`: `min(n, |log|)` entries, the k-th being `log[|log|-1-k]` |
| Consensus.Median | aggregator-server/src/main.rs:65-77 | None exactly for an empty list |
| Consensus.InsertAddsElement | aggregator-server/src/main.rs:69-70 | Inserting adds exactly one occurrence of the element |
| Consensus.InsertKeepsOrder | aggregator-server/src/main.rs:69-70 | Inserting into an ascending list keeps it ascending |
| Consensus.SortIsSortedPermutation | aggregator-server/src/main.rs:69-70 | The sort yields an ascending permutation of its input |
| Consensus.SortedUnique | aggregator-server/src/main.rs:69-70 | Two ascending lists with the same elements are equal, so the Rust code's merge sort and this insertion sort give the same list |
| Consensus.MedianOfSortedArrangement | aggregator-server/src/main.rs:69-77 | For any ascending arrangement `s` of n prices, the median is `s[n/2]` for odd n and `(s[n/2-1] + s[n/2]) / 2` for even n |
| Consensus.MedianOfSorted | aggregator-server/src/main.rs:72-77 | The median of an ascending list is its middle |
| Consensus.MedianIgnoresOrder | aggregator-server/src/main.rs:69-77 | The median depends only on the multiset of prices |
| Consensus.MiddleBetween | aggregator-server/src/main.rs:72-77 | The middle of an ascending list lies between its two central elements |
| Consensus.MedianBetweenSamples | aggregator-server/src/main.rs:69-77 | The median lies between two of the input prices |
| Consensus.MedianWithinBounds | aggregator-server/src/main.rs:69-77 | Bounds that hold for every price hold for the median, so it lies between the minimum and the maximum |
| Consensus.MedianOfIdentical | aggregator-server/src/main.rs:69-77 | Identical prices have that price as median |
| Numeric.WrappingSub | aggregator-server/src/main.rs:61 | `a - b` modulo 2^64: adding `b` back gives `a`; equals `a - b` when `b <= a`; at least `2^64 - b` otherwise |
| Numeric.WrappingPow2 | src/binance.rs:58 | `2_u64.pow(n)` equals 2^n for n below 64 |
| Binance.KlineRequestAt | src/binance.rs:81-100 | Symbol BTCUSDT, interval 1m, limit 1. The end is a multiple of 60000 ms with `end <= now*1000 < end + 60000`, and the start is 60000 ms before the end |
| Binance.RequestIsLastClosedMinute | src/binance.rs:81-88 | No minute that starts on a minute boundary and ends by `now` starts later than the requested one |
| Binance.HandleHttpError | src/binance.rs:165-175 | Every status gives an HTTP error. It is a server error iff the status is in 500..=599, and generic, carrying the status, iff the status is neither one of 400, 401, 403, 404, 429 nor 5xx |
| Binance.NamedStatusesDistinct | src/binance.rs:166-171 | 400, 401, 403, 404 and 429 each get their own error kind |
| Binance.ValidatePrice | src/binance.rs:178-192 | Error iff `price <= 0` (carrying the price). A low-price warning iff `0 < price < 1000`, a high-price warning iff `price > 1000000`, and no warning iff `1000 <= price <= 1000000` |
| Binance.ToCents | src/binance.rs:156 | `(price * 100.0) as u64`: the floor of `price * 100` when it fits in `u64`, 0 at or below zero, `u64::MAX` at or above 2^64 |
| Binance.ToCentsOfCents | src/binance.rs:156 | In exact arithmetic, a whole number of cents converts back to itself |
| Binance.ToCentsTruncates | src/binance.rs:156 | Truncation, not rounding: 0.999 becomes 99 cents |
| Binance.ParseKline | src/binance.rs:121-136 | No records is an error. A non-string close is an error. Success iff the close text parses and the open time is an unsigned integer, in which case the open time is `ms / 1000` and the close is the parsed value |
| Binance.FetchOnce | src/binance.rs:79-162 | A failed send is an error; a non-2xx status gives the status error. Success iff the body is a kline array whose first record parses with a positive close. The result is BTC/USD, the truncated cents, the completion time, no volume, source "binance" |
| Binance.FetchOnceReadsCents | src/binance.rs:121-161 | In exact arithmetic, a 200 reply whose first record's close is a positive price written with two decimals yields exactly that many cents, whatever the record's open time |
| Binance.BackoffSchedule | src/binance.rs:58 | The waits after attempts 1, 2, 3 are 1, 2, 4 seconds |
| Binance.TotalBackoff | src/binance.rs:57-64 | The waits before attempt n+1 add up to 2^n - 1 seconds |
| Binance.FetchWithRetry | src/binance.rs:45-76 | At most `max_retries` attempts (at least one). The result is the outcome of the last attempt made, and every earlier attempt failed, so it is the first success with no attempt after it. A failure means all attempts were made. One wait `2^(k-1)` follows each failed attempt k that has a successor, and none follows the last. The `unreachable!` is never reached |
| Binance.FetchBtcPrice | src/binance.rs:40-42 | Three attempts at most, with the same result rule and the same wait schedule (one wait `2^(k-1)` after each failed attempt k that has a successor), and a total wait of `2^(attempts-1) - 1` seconds, at most 3 |
| Decimal.ParseDecimal | src/binance.rs:130 | A parsed value is negative only when the text starts with '-' |
| Decimal.CentsTextParses | src/binance.rs:127-131 | In exact arithmetic, a price written with two decimals parses back to exactly `cents / 100` |
| Scenarios.ConsensusOfThree | aggregator-server/src/main.rs:95-148 | Submitting 100, 200 and 300 in the same second gives consensus 200 |
| Scenarios.ConsensusOfFour | aggregator-server/src/main.rs:95-148 | Adding 1000 gives consensus 250, the mean of the middle two |
| Scenarios.MedianOfThree | aggregator-server/src/main.rs:58-77 | Three fresh prices in ascending order with middle value 200 have median 200 |
| Scenarios.MedianOfFour | aggregator-server/src/main.rs:58-77 | Four fresh prices in ascending order have the mean of the middle two as median |
| Scenarios.StaleScenario | aggregator-server/src/main.rs:188-220 | 61 s after the only submission there is no consensus and the query reports 0, yet that entry is still listed |
| Scenarios.LivenessScenario | aggregator-server/src/main.rs:81-131 | A node silent for 121 s is still counted by a health check, because only a submission sweeps; the next submission by another node removes it |
| Scenarios.RetryScenario | src/binance.rs:45-76 | Fail, fail, succeed: three attempts, the success returned, and 1 + 2 = 3 s of waiting |

## Left out

- Transport and bootstrap are not modelled. This covers the gRPC transport, the generated protobuf types, the server start-up and logging. The unimplemented `stream_prices` and `update_config` handlers are out too. Requests and responses are plain records.
- Concurrency is not modelled. The Rust code wraps the state in an async read-write lock, and `submit_price` releases the write lock before its sweep and median. Each handler is modelled as one atomic method.
- The clock is a parameter. `submit_price` reads it three times (the stored time, the sweep, the median); the model uses one `now` for all three.
- Debug builds panic on `u64` underflow in the freshness test `current_time - p.timestamp` (aggregator-server/src/main.rs:61), in the liveness test `current_time - *last_seen` (aggregator-server/src/main.rs:87), and on overflow in `2_u64.pow`. The model follows release builds, which wrap.
- `f64` behaviour is not modelled; prices are exact reals, so the mean of the two middle prices is exact. Left out with it:
  - NaN and infinities;
  - the panic of `partial_cmp().unwrap()` on NaN;
  - the rounding of `close * 100.0` before truncation.
- As in the Rust code, `validate_price` does not reject NaN or infinite prices; the model has no such values.
- Decimal.ParseDecimal: accepts only an optional sign, digits and one optional '.', with at least one digit. The exponent forms and the "inf"/"nan" spellings that `str::parse::<f64>` also accepts are not modelled.
- Binance.ToCentsOfCents: holds only in exact arithmetic. The Rust code multiplies an `f64` by `100.0` and truncates, which gives one cent less for many two-decimal prices, e.g. 0.29 becomes 28 cents and 67890.01 becomes 6789000 cents.
- Binance.FetchOnceReadsCents: holds only in exact arithmetic, for the same reason: with `f64` a close of "67890.01" yields 6789000 cents, not 6789001. It also covers only close texts with exactly two fraction digits; the exchange writes eight ("67890.01000000"), which are not covered.
- Decimal.CentsTextParses: exact only over the reals; `str::parse::<f64>` rounds "0.29" to the nearest binary value.
- JSON decoding by serde_json is not modelled. A body is either `Malformed` or an array of records whose fields are `Str`, `UInt` or `Other`.
- Binance.ParseKline: requires the first record to have at least five fields. The Rust code indexes fields 0 and 4 without checking and would panic on a shorter record.
- HTTP client set-up, the 10 s request timeout and sending are not modelled. A send or timeout failure is the outcome `SendFailed`.
- `sleep` is not modelled. The wait is recorded in `waits`.
- Binance.FetchWithRetry: requires an outcome for every possible attempt (`|outcomes| >= max_retries`) and `max_retries >= 1`. With 0 the Rust code reaches `unreachable!` and panics.
- Binance.FetchOnce: the completion time is a parameter, and the request parameters (Binance.KlineRequestAt) are computed separately. The Rust code's fallback to the current time when the timestamp does not convert is not modelled.
- The live-network test and the `PriceProvider` trait glue are not modelled.
- Aggregator.AggregatorService.HealthCheck: the request's node id is only logged by the Rust code, so it has no effect.
