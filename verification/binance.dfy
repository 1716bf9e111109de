/**
 * The market-data client: one fetch asks the exchange for the 1-minute
 * kline of the last fully closed minute, reads the close price out of the
 * first record, checks it and converts it to cents; a bounded retry loop
 * with exponential backoff wraps that fetch.
 *
 * The network is replaced by values: a fetch takes the HTTP reply it would
 * have received (`HttpReply`), and the retry loop takes the outcome of each
 * attempt in order. The clock is a parameter; a wait is recorded, not slept.
 */
module Binance {
  import opened Wrappers
  import opened Numeric
  import opened Decimal

  /** Attempts made by `FetchBtcPrice`. */
  const MaxRetries: U32 := 3
  const Symbol: string := "BTCUSDT"
  const Interval: string := "1m"
  const SourceName: string := "binance"

  /** The traded pair; the client only ever produces BTC/USD. */
  datatype AssetPair = BtcUsd

  /** A fetched price: `price` in cents, `timestamp` in Unix seconds. */
  datatype PriceData = PriceData(pair: AssetPair, price: U64, timestamp: int, volume: Option<real>, source: string)

  datatype HttpErrorKind =
    | BadRequest | Unauthorized | Forbidden | NotFound | RateLimited | ServerError
    | OtherStatus(code: U16)

  datatype FetchError =
    | RequestFailed              // the request could not be sent or timed out
    | Http(kind: HttpErrorKind)  // a non-2xx status
    | BodyNotJson                // the body is not an array of arrays
    | NoKlineData
    | CloseNotString
    | CloseNotNumber
    | TimestampNotNumber
    | NonPositivePrice(price: real)

  /** A decoded JSON array element, as far as the client inspects it. */
  datatype Json = Str(s: string) | UInt(n: U64) | Other

  datatype Body = Malformed | Klines(rows: seq<seq<Json>>)

  /** What one HTTP exchange yields. */
  datatype HttpReply = SendFailed | Reply(status: U16, body: Body)

  /** The query parameters of one kline request; times in Unix milliseconds. */
  datatype KlineRequest = KlineRequest(symbol: string, interval: string, startTime: int, endTime: int, limit: nat)

  /** The two fields read from a kline: open time (seconds) and close price. */
  datatype Kline = Kline(openTime: U64, close: real)

  datatype PriceWarning = UnusuallyLow | UnusuallyHigh

  // ---------------------------------------------------------------- bucket

  /**
   * The request for the minute before the current one, `now` in Unix
   * seconds: the current minute starts at `now` with its seconds zeroed.
   */
  function KlineRequestAt(now: int): (q: KlineRequest)
    ensures q.symbol == Symbol && q.interval == Interval && q.limit == 1
    ensures q.endTime % 60000 == 0
    ensures q.endTime <= now * 1000 < q.endTime + 60000
    ensures q.startTime == q.endTime - 60000
  {
    var currentMinuteStart := now - now % 60;
    var targetMinuteStart := currentMinuteStart - 60;
    KlineRequest(Symbol, Interval, targetMinuteStart * 1000, currentMinuteStart * 1000, 1)
  }

  /**
   * The requested minute is the latest one that has fully elapsed: every
   * minute that starts on a minute boundary and ends by `now` starts no
   * later than it.
   */
  lemma RequestIsLastClosedMinute(now: int, start: int)
    requires start % 60000 == 0 && start + 60000 <= now * 1000
    ensures start <= KlineRequestAt(now).startTime
    ensures KlineRequestAt(now).endTime <= now * 1000
  {
    var q := KlineRequestAt(now);
    var m, k := now / 60, start / 60000;
    assert now == 60 * m + now % 60;
    assert q.startTime == 60000 * (m - 1);
    assert start == 60000 * k;
    assert 60 * (k + 1) <= now;
    assert k + 1 <= m;
  }

  // ---------------------------------------------------------------- HTTP status

  /** Whether a status is 2xx, reqwest's `is_success`. */
  predicate IsSuccessStatus(status: U16) {
    200 <= status <= 299
  }

  function ClassifyStatus(status: U16): (kind: HttpErrorKind) {
    match status
    case 400 => BadRequest
    case 401 => Unauthorized
    case 403 => Forbidden
    case 404 => NotFound
    case 429 => RateLimited
    case _ => if 500 <= status <= 599 then ServerError else OtherStatus(status)
  }

  /** Turns a status into an error: every status, including 2xx, gives one. */
  function HandleHttpError(status: U16): (r: Result<PriceData, FetchError>)
    ensures r.Failure? && r.error.Http?
    ensures r.error.kind == ServerError <==> 500 <= status <= 599
    ensures r.error.kind.OtherStatus? <==>
              status !in {400, 401, 403, 404, 429} && !(500 <= status <= 599)
    ensures r.error.kind.OtherStatus? ==> r.error.kind.code == status
  {
    Failure(Http(ClassifyStatus(status)))
  }

  /** The five statuses named individually each get their own kind. */
  lemma NamedStatusesDistinct()
    ensures HandleHttpError(400).error.kind == BadRequest
    ensures HandleHttpError(401).error.kind == Unauthorized
    ensures HandleHttpError(403).error.kind == Forbidden
    ensures HandleHttpError(404).error.kind == NotFound
    ensures HandleHttpError(429).error.kind == RateLimited
  {
  }

  // ---------------------------------------------------------------- price checks

  /**
   * Rejects a price that is not positive; a positive price outside
   * [1000, 1000000] is accepted with a warning.
   */
  function ValidatePrice(price: real): (r: Result<Option<PriceWarning>, FetchError>)
    ensures r.Failure? <==> price <= 0.0
    ensures r.Failure? ==> r.error == NonPositivePrice(price)
    ensures r == Success(None) <==> 1000.0 <= price <= 1000000.0
    ensures r == Success(Some(UnusuallyLow)) <==> 0.0 < price < 1000.0
    ensures r == Success(Some(UnusuallyHigh)) <==> price > 1000000.0
  {
    if price <= 0.0 then
      Failure(NonPositivePrice(price))
    else if price < 1000.0 then
      Success(Some(UnusuallyLow))
    else if price > 1000000.0 then
      Success(Some(UnusuallyHigh))
    else
      Success(None)
  }

  /** `(price * 100.0) as u64`: truncation toward zero, saturating at both ends of `u64`. */
  function ToCents(price: real): (c: U64)
    ensures 0.0 <= price * 100.0 < U64_LIMIT as real ==> c as real <= price * 100.0 < c as real + 1.0
    ensures price * 100.0 <= 0.0 ==> c == 0
    ensures price * 100.0 >= U64_LIMIT as real ==> c == U64_LIMIT - 1
  {
    var amount := price * 100.0;
    if amount <= 0.0 then 0
    else if amount >= U64_LIMIT as real then U64_LIMIT - 1
    else amount.Floor
  }

  /** A whole number of cents survives the conversion unchanged. */
  lemma ToCentsOfCents(cents: U64)
    ensures ToCents(cents as real / 100.0) == cents
  {
    assert cents as real / 100.0 * 100.0 == cents as real;
  }

  /** Truncation, not rounding: 0.999 units is 99 cents, not 100. */
  lemma ToCentsTruncates()
    ensures ToCents(0.999) == 99
  {
    assert (99.9).Floor == 99;
  }

  // ---------------------------------------------------------------- kline parsing

  /** The first record has the five fields the client indexes (shorter records panic). */
  predicate IndexableKlines(rows: seq<seq<Json>>) {
    |rows| > 0 ==> |rows[0]| > 4
  }

  /**
   * Reads the first record: field 4 is the close price as decimal text,
   * field 0 the open time in milliseconds, converted to seconds.
   */
  function ParseKline(rows: seq<seq<Json>>): (r: Result<Kline, FetchError>)
    requires IndexableKlines(rows)
    ensures |rows| == 0 ==> r == Failure(NoKlineData)
    ensures r.Success? <==>
              |rows| > 0 && rows[0][4].Str? && ParseDecimal(rows[0][4].s).Some? && rows[0][0].UInt?
    ensures r.Success? ==>
              r.value == Kline(rows[0][0].n / 1000, ParseDecimal(rows[0][4].s).value)
    ensures |rows| > 0 && !rows[0][4].Str? ==> r == Failure(CloseNotString)
  {
    if |rows| == 0 then
      Failure(NoKlineData)
    else
      var kline := rows[0];
      if !kline[4].Str? then
        Failure(CloseNotString)
      else
        match ParseDecimal(kline[4].s)
        case None => Failure(CloseNotNumber)
        case Some(close) =>
          if !kline[0].UInt? then Failure(TimestampNotNumber)
          else Success(Kline(kline[0].n / 1000, close))
  }

  /** The body is only read, and indexed, after a 2xx status. */
  predicate ReadableReply(reply: HttpReply) {
    reply.Reply? && IsSuccessStatus(reply.status) && reply.body.Klines? ==> IndexableKlines(reply.body.rows)
  }

  /**
   * One fetch given the reply it received and the time it completed: a
   * send failure or non-2xx status is an error, otherwise the close price
   * is parsed, validated and converted to cents, stamped with the
   * completion time (not the kline's open time).
   */
  function FetchOnce(reply: HttpReply, completedAt: int): (r: Result<PriceData, FetchError>)
    requires ReadableReply(reply)
    ensures reply.SendFailed? ==> r == Failure(RequestFailed)
    ensures reply.Reply? && !IsSuccessStatus(reply.status) ==> r == HandleHttpError(reply.status)
    ensures r.Success? <==>
              && reply.Reply? && IsSuccessStatus(reply.status) && reply.body.Klines?
              && ParseKline(reply.body.rows).Success?
              && ParseKline(reply.body.rows).value.close > 0.0
    ensures r.Success? ==>
              r.value == PriceData(BtcUsd, ToCents(ParseKline(reply.body.rows).value.close), completedAt, None, SourceName)
  {
    match reply
    case SendFailed => Failure(RequestFailed)
    case Reply(status, body) =>
      if !IsSuccessStatus(status) then
        HandleHttpError(status)
      else
        match body
        case Malformed => Failure(BodyNotJson)
        case Klines(rows) =>
          var kline :- ParseKline(rows);
          var _ :- ValidatePrice(kline.close);
          Success(PriceData(BtcUsd, ToCents(kline.close), completedAt, None, SourceName))
  }

  /**
   * A 200 reply whose first record carries a positive two-decimal close
   * price yields exactly that many cents, whatever the record's open time.
   */
  lemma FetchOnceReadsCents(openTimeMs: U64, cents: U64, rest: seq<Json>, completedAt: int)
    requires cents > 0 && |rest| >= 3
    ensures var row := [UInt(openTimeMs)] + rest[..3] + [Str(CentsText(cents))];
            FetchOnce(Reply(200, Klines([row])), completedAt)
              == Success(PriceData(BtcUsd, cents, completedAt, None, SourceName))
  {
    var row := [UInt(openTimeMs)] + rest[..3] + [Str(CentsText(cents))];
    assert row[0] == UInt(openTimeMs) && row[4] == Str(CentsText(cents));
    CentsTextParses(cents);
    ToCentsOfCents(cents);
  }

  // ---------------------------------------------------------------- retry

  /** The wait after failed attempt `attempt` (1-based): `2_u64.pow(attempt - 1)` seconds. */
  function Backoff(attempt: nat): (seconds: U64)
    requires attempt >= 1
  {
    WrappingPow2(attempt - 1)
  }

  lemma BackoffSchedule()
    ensures Backoff(1) == 1 && Backoff(2) == 2 && Backoff(3) == 4
  {
    assert Pow2(2) == 4;
  }

  function Sum(waits: seq<U64>): (total: nat) {
    if waits == [] then 0 else Sum(waits[..|waits| - 1]) + waits[|waits| - 1]
  }

  /** The waits before attempt n + 1 add up to 2^n - 1 seconds (for n up to 64). */
  lemma {:induction false} TotalBackoff(waits: seq<U64>)
    requires |waits| <= 64
    requires forall k :: 0 <= k < |waits| ==> waits[k] == Backoff(k + 1)
    ensures Sum(waits) == Pow2(|waits|) - 1
  {
    if waits != [] {
      var n := |waits|;
      TotalBackoff(waits[..n - 1]);
      assert waits[n - 1] == Pow2(n - 1);
    }
  }

  /**
   * Attempts a fetch up to `maxRetries` times. `outcomes[k]` is what attempt
   * k + 1 returns. Returns the outcome of the first successful attempt, or
   * the error of the last one; `waits` lists the backoff slept after each
   * failed attempt that was followed by another.
   */
  method FetchWithRetry(maxRetries: U32, outcomes: seq<Result<PriceData, FetchError>>)
    returns (r: Result<PriceData, FetchError>, attempts: nat, waits: seq<U64>)
    requires maxRetries >= 1
    requires |outcomes| >= maxRetries
    ensures 1 <= attempts <= maxRetries
    ensures r == outcomes[attempts - 1]
    ensures forall k :: 0 <= k < attempts - 1 ==> outcomes[k].Failure?
    ensures r.Failure? ==> attempts == maxRetries
    ensures |waits| == attempts - 1
    ensures forall k :: 0 <= k < |waits| ==> waits[k] == Backoff(k + 1)
  {
    attempts := 0;
    waits := [];
    while attempts < maxRetries
      invariant attempts < maxRetries
      invariant forall k :: 0 <= k < attempts ==> outcomes[k].Failure?
      invariant |waits| == attempts
      invariant forall k :: 0 <= k < |waits| ==> waits[k] == Backoff(k + 1)
    {
      attempts := attempts + 1;
      var outcome := outcomes[attempts - 1];
      if outcome.Success? {
        r := outcome;
        return;
      } else if attempts < maxRetries {
        waits := waits + [Backoff(attempts)];
      } else {
        r := outcome;
        return;
      }
    }
    assert false;
  }

  /** The client's entry point: at most three attempts, at most 1 + 2 = 3 seconds of waiting. */
  method FetchBtcPrice(outcomes: seq<Result<PriceData, FetchError>>)
    returns (r: Result<PriceData, FetchError>, attempts: nat, waits: seq<U64>)
    requires |outcomes| >= MaxRetries
    ensures 1 <= attempts <= MaxRetries
    ensures r == outcomes[attempts - 1]
    ensures forall k :: 0 <= k < attempts - 1 ==> outcomes[k].Failure?
    ensures r.Failure? ==> attempts == MaxRetries
    ensures |waits| == attempts - 1
    ensures forall k :: 0 <= k < |waits| ==> waits[k] == Backoff(k + 1)
    ensures Sum(waits) == Pow2(attempts - 1) - 1 <= 3
  {
    r, attempts, waits := FetchWithRetry(MaxRetries, outcomes);
    TotalBackoff(waits);
    Pow2Monotone(attempts - 1, 2);
    assert Pow2(2) == 4;
  }
}
