/**
 * The aggregator's state engine: a bounded log of price submissions in
 * arrival order and a map from reporter node to the time it was last seen.
 * Each RPC handler is one atomic method; the clock is the parameter `now`
 * (Unix seconds as `u64`).
 */
module Aggregator {
  import opened Wrappers
  import opened Numeric
  import opened Consensus

  /** The log keeps at most this many submissions. */
  const MaxEntries: nat := 100
  /** A submission counts toward consensus while younger than this (seconds). */
  const FreshnessWindow: nat := 60
  /** A node not heard from for this long (seconds) is dropped. */
  const LivenessTimeout: nat := 120
  /** How many recent submissions `GetAggregatedPrice` reports. */
  const RecentCount: nat := 10

  datatype PriceEntry = PriceEntry(price: real, timestamp: U64, source: string, nodeId: string)

  datatype PriceRequest = PriceRequest(price: real, timestamp: U64, source: string, nodeId: string)
  datatype PriceResponse = PriceResponse(success: bool, message: string, aggregatedPrice: Option<real>, timestamp: U64)
  datatype HealthRequest = HealthRequest(nodeId: string)
  datatype HealthResponse = HealthResponse(healthy: bool, timestamp: U64, activeNodes: U32, version: string)
  /** `recentPrices` holds the entries themselves: the Rust code's data point type has the same four fields. */
  datatype GetPriceResponse = GetPriceResponse(
    success: bool, aggregatedPrice: real, dataPoints: U32, lastUpdate: U64, recentPrices: seq<PriceEntry>)

  function Min(a: int, b: int): (m: int) { if a <= b then a else b }

  /**
   * Whether a submission stamped `ts` is fresh at `now`: the Rust code tests
   * `now - ts < 60` on `u64`, so a timestamp in the future wraps to a huge age.
   */
  predicate IsFresh(ts: U64, now: U64) {
    WrappingSub(now, ts) < FreshnessWindow
  }

  /** Whether a node last seen at `lastSeen` survives a sweep at `now` (same wrapping subtraction). */
  predicate IsAlive(lastSeen: U64, now: U64) {
    WrappingSub(now, lastSeen) < LivenessTimeout
  }

  lemma FreshnessOfPastAndFuture(ts: U64, now: U64)
    ensures ts <= now ==> (IsFresh(ts, now) <==> now - ts < FreshnessWindow)
    ensures now < ts && ts - now <= U64_LIMIT - FreshnessWindow ==> !IsFresh(ts, now)
  {
  }

  /** Prices of the fresh entries, in log order. */
  function FreshPrices(log: seq<PriceEntry>, now: U64): (r: seq<real>)
    ensures |r| <= |log|
  {
    if log == [] then
      []
    else
      (if IsFresh(log[0].timestamp, now) then [log[0].price] else []) + FreshPrices(log[1..], now)
  }

  /** The window holds the price of every fresh entry and nothing else. */
  lemma {:induction false} FreshPricesMembers(log: seq<PriceEntry>, now: U64)
    ensures forall i :: 0 <= i < |log| && IsFresh(log[i].timestamp, now) ==> log[i].price in FreshPrices(log, now)
    ensures forall x :: x in FreshPrices(log, now) ==>
              exists i :: 0 <= i < |log| && IsFresh(log[i].timestamp, now) && log[i].price == x
  {
    if log != [] {
      FreshPricesMembers(log[1..], now);
      assert forall i :: 1 <= i < |log| ==> log[i] == log[1..][i - 1];
    }
  }

  /**
   * Filtering distributes over concatenation: together with the one-entry
   * case this determines FreshPrices completely (order and multiplicity).
   */
  lemma {:induction false} FreshPricesAppend(a: seq<PriceEntry>, b: seq<PriceEntry>, now: U64)
    ensures FreshPrices(a + b, now) == FreshPrices(a, now) + FreshPrices(b, now)
  {
    if a != [] {
      assert (a + b)[0] == a[0];
      assert (a + b)[1..] == a[1..] + b;
      FreshPricesAppend(a[1..], b, now);
      var head := if IsFresh(a[0].timestamp, now) then [a[0].price] else [];
      calc {
        FreshPrices(a + b, now);
        head + FreshPrices(a[1..] + b, now);
        head + (FreshPrices(a[1..], now) + FreshPrices(b, now));
        (head + FreshPrices(a[1..], now)) + FreshPrices(b, now);
        FreshPrices(a, now) + FreshPrices(b, now);
      }
    } else {
      assert a + b == b;
    }
  }

  lemma FreshPricesSingle(e: PriceEntry, now: U64)
    ensures FreshPrices([e], now) == if IsFresh(e.timestamp, now) then [e.price] else []
  {
    assert [e][1..] == [];
  }

  /** The sweep: keep exactly the nodes that are still alive, with their times. */
  function Sweep(nodes: map<string, U64>, now: U64): (r: map<string, U64>)
    ensures forall id :: id in r <==> id in nodes && IsAlive(nodes[id], now)
    ensures forall id :: id in r ==> r[id] == nodes[id]
  {
    map id | id in nodes && IsAlive(nodes[id], now) :: nodes[id]
  }

  /** A second sweep at the same time removes nothing. */
  lemma SweepIdempotent(nodes: map<string, U64>, now: U64)
    ensures Sweep(Sweep(nodes, now), now) == Sweep(nodes, now)
  {
  }

  /** There is no consensus exactly when no entry of the log is fresh. */
  lemma ConsensusNoneIffNoneFresh(log: seq<PriceEntry>, now: U64)
    ensures Median(FreshPrices(log, now)).None? <==> forall i :: 0 <= i < |log| ==> !IsFresh(log[i].timestamp, now)
  {
    var window := FreshPrices(log, now);
    FreshPricesMembers(log, now);
    if window != [] {
      assert window[0] in window;
    }
  }

  /** A consensus lies between two fresh prices of the log. */
  lemma ConsensusWithinFreshPrices(log: seq<PriceEntry>, now: U64)
    requires Median(FreshPrices(log, now)).Some?
    ensures exists i, j :: 0 <= i < |log| && 0 <= j < |log|
              && IsFresh(log[i].timestamp, now) && IsFresh(log[j].timestamp, now)
              && log[i].price <= Median(FreshPrices(log, now)).value <= log[j].price
  {
    var window := FreshPrices(log, now);
    FreshPricesMembers(log, now);
    MedianBetweenSamples(window);
    var m := Median(window).value;
    var a, b :| 0 <= a < |window| && 0 <= b < |window| && window[a] <= m <= window[b];
    assert window[a] in window && window[b] in window;
  }

  /** The last `n` entries of `log`, newest first (`iter().rev().take(n)`). */
  function NewestFirst(log: seq<PriceEntry>, n: nat): (r: seq<PriceEntry>)
    ensures |r| == Min(n, |log|)
    ensures forall k :: 0 <= k < |r| ==> r[k] == log[|log| - 1 - k]
  {
    if n == 0 || log == [] then [] else [log[|log| - 1]] + NewestFirst(log[..|log| - 1], n - 1)
  }

  class AggregatorService {
    var prices: seq<PriceEntry>
    var activeNodes: map<string, U64>

    /** A new service: empty log, no nodes. */
    constructor ()
      ensures prices == [] && activeNodes == map[]
    {
      prices := [];
      activeNodes := map[];
    }

    /**
     * The median of the fresh prices in the log, or None exactly when no
     * entry is fresh; stale entries stay in the log. A consensus lies between
     * two fresh prices (ConsensusWithinFreshPrices).
     */
    function CalculateMedianPrice(now: U64): (r: Option<real>)
      reads this
      ensures r.None? <==> forall i :: 0 <= i < |prices| ==> !IsFresh(prices[i].timestamp, now)
    {
      ConsensusNoneIffNoneFresh(prices, now);
      Median(FreshPrices(prices, now))
    }

    /** Drops every node not seen within the liveness timeout; the log is untouched. */
    method CleanupInactiveNodes(now: U64)
      modifies this
      ensures prices == old(prices)
      ensures activeNodes == Sweep(old(activeNodes), now)
    {
      activeNodes := map id | id in activeNodes && IsAlive(activeNodes[id], now) :: activeNodes[id];
    }

    /**
     * Appends the submission, trims the log to the newest 100, records the
     * node as seen at `now`, sweeps inactive nodes and reports the median.
     */
    method SubmitPrice(req: PriceRequest, now: U64) returns (resp: PriceResponse)
      modifies this
      ensures |prices| <= MaxEntries
      ensures var all := old(prices) + [PriceEntry(req.price, req.timestamp, req.source, req.nodeId)];
              prices == if |all| <= MaxEntries then all else all[|all| - MaxEntries..]
      ensures prices[|prices| - 1] == PriceEntry(req.price, req.timestamp, req.source, req.nodeId)
      ensures activeNodes == Sweep(old(activeNodes)[req.nodeId := now], now)
      ensures req.nodeId in activeNodes && activeNodes[req.nodeId] == now
      ensures resp == PriceResponse(true, "Price received successfully", Median(FreshPrices(prices, now)), now)
    {
      prices := prices + [PriceEntry(req.price, req.timestamp, req.source, req.nodeId)];
      if |prices| > MaxEntries {
        var drainCount := |prices| - MaxEntries;
        prices := prices[drainCount..];
      }
      activeNodes := activeNodes[req.nodeId := now];
      CleanupInactiveNodes(now);
      var median := CalculateMedianPrice(now);
      resp := PriceResponse(true, "Price received successfully", median, now);
    }

    /** Reports the number of tracked nodes (`len() as u32`); changes nothing. */
    method HealthCheck(req: HealthRequest, now: U64) returns (resp: HealthResponse)
      ensures resp.healthy && resp.timestamp == now && resp.version == "1.0.0"
      ensures resp.activeNodes == |activeNodes| % U32_LIMIT
      ensures |activeNodes| < U32_LIMIT ==> resp.activeNodes == |activeNodes|
    {
      resp := HealthResponse(true, now, |activeNodes| % U32_LIMIT, "1.0.0");
    }

    /**
     * The ten newest submissions, newest first, and the median of the fresh
     * ones (0 when none is fresh); changes nothing.
     */
    method GetAggregatedPrice(now: U64) returns (resp: GetPriceResponse)
      ensures resp.success && resp.lastUpdate == now
      ensures |resp.recentPrices| == Min(RecentCount, |prices|) == resp.dataPoints
      ensures forall k :: 0 <= k < |resp.recentPrices| ==> resp.recentPrices[k] == prices[|prices| - 1 - k]
      ensures resp.aggregatedPrice == CalculateMedianPrice(now).GetOr(0.0)
      ensures (forall i :: 0 <= i < |prices| ==> !IsFresh(prices[i].timestamp, now)) ==> resp.aggregatedPrice == 0.0
    {
      var recent := NewestFirst(prices, RecentCount);
      var median := CalculateMedianPrice(now).GetOr(0.0);
      resp := GetPriceResponse(true, median, |recent|, now, recent);
    }
  }
}
