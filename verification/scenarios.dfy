/**
 * End-to-end runs of the aggregator and the retry loop, proved from the
 * contracts of the operations alone.
 */
module Scenarios {
  import opened Wrappers
  import opened Numeric
  import opened Consensus
  import opened Aggregator
  import opened Binance

  /** Three reporters submit 100, 200 and 300 in the same second: consensus is 200. */
  method ConsensusOfThree(t: U64, src: string, a: string, b: string, c: string) returns (consensus: Option<real>)
    ensures consensus == Some(200.0)
  {
    var svc := new AggregatorService();
    var r := svc.SubmitPrice(PriceRequest(100.0, t, src, a), t);
    r := svc.SubmitPrice(PriceRequest(200.0, t, src, b), t);
    r := svc.SubmitPrice(PriceRequest(300.0, t, src, c), t);
    var three := [PriceEntry(100.0, t, src, a), PriceEntry(200.0, t, src, b), PriceEntry(300.0, t, src, c)];
    assert svc.prices == three;
    MedianOfThree(three, t);
    consensus := r.aggregatedPrice;
  }

  /** A fourth reporter then submits 1000: consensus is the mean of the middle two, 250. */
  method ConsensusOfFour(t: U64, src: string, a: string, b: string, c: string, d: string) returns (consensus: Option<real>)
    ensures consensus == Some(250.0)
  {
    var svc := new AggregatorService();
    var r := svc.SubmitPrice(PriceRequest(100.0, t, src, a), t);
    r := svc.SubmitPrice(PriceRequest(200.0, t, src, b), t);
    r := svc.SubmitPrice(PriceRequest(300.0, t, src, c), t);
    r := svc.SubmitPrice(PriceRequest(1000.0, t, src, d), t);
    var four := [PriceEntry(100.0, t, src, a), PriceEntry(200.0, t, src, b), PriceEntry(300.0, t, src, c),
                 PriceEntry(1000.0, t, src, d)];
    assert svc.prices == four;
    MedianOfFour(four, t);
    consensus := r.aggregatedPrice;
  }

  lemma FreshThree(log: seq<PriceEntry>, t: U64)
    requires |log| == 3 && forall k :: 0 <= k < 3 ==> log[k].timestamp == t
    ensures FreshPrices(log, t) == [log[0].price, log[1].price, log[2].price]
  {
    FreshPricesSingle(log[0], t);
    FreshPricesSingle(log[1], t);
    FreshPricesSingle(log[2], t);
    FreshPricesAppend([log[0]], [log[1]], t);
    FreshPricesAppend([log[0], log[1]], [log[2]], t);
    assert [log[0]] + [log[1]] == [log[0], log[1]];
    assert [log[0], log[1]] + [log[2]] == log;
  }

  lemma MedianOfSortedThree(t: seq<real>)
    requires |t| == 3 && t[0] <= t[1] <= t[2]
    ensures Median(t) == Some(t[1])
  {
    assert Sorted(t);
    MedianOfSorted(t);
  }

  lemma MedianOfSortedFour(t: seq<real>)
    requires |t| == 4 && t[0] <= t[1] <= t[2] <= t[3]
    ensures Median(t) == Some((t[1] + t[2]) / 2.0)
  {
    assert Sorted(t);
    MedianOfSorted(t);
  }

  /** Three reports stamped `t`, ascending with the middle one 200, have consensus 200 at `t`. */
  lemma MedianOfThree(log: seq<PriceEntry>, t: U64)
    requires |log| == 3 && forall k :: 0 <= k < 3 ==> log[k].timestamp == t
    requires log[0].price <= log[1].price == 200.0 <= log[2].price
    ensures Median(FreshPrices(log, t)) == Some(200.0)
  {
    FreshThree(log, t);
    MedianOfSortedThree(FreshPrices(log, t));
  }

  /** Adding a fourth, larger report stamped `t` moves consensus to the mean of the middle two. */
  lemma MedianOfFour(log: seq<PriceEntry>, t: U64)
    requires |log| == 4 && forall k :: 0 <= k < 4 ==> log[k].timestamp == t
    requires log[0].price <= log[1].price <= log[2].price <= log[3].price
    ensures Median(FreshPrices(log, t)) == Some((log[1].price + log[2].price) / 2.0)
  {
    FreshThree(log[..3], t);
    FreshPricesSingle(log[3], t);
    FreshPricesAppend(log[..3], [log[3]], t);
    assert log[..3] + [log[3]] == log;
    MedianOfSortedFour(FreshPrices(log, t));
  }

  /**
   * One submission, then 61 seconds of silence: there is no consensus (the
   * query reports the sentinel 0) yet the entry is still the newest listed.
   */
  method StaleScenario(t: U64) returns (median: Option<real>, resp: GetPriceResponse)
    requires t + 61 < U64_LIMIT
    ensures median == None
    ensures resp.aggregatedPrice == 0.0
    ensures resp.dataPoints == |resp.recentPrices| == 1 && resp.recentPrices[0] == PriceEntry(42000.0, t, "test", "node-a")
  {
    var svc := new AggregatorService();
    var r := svc.SubmitPrice(PriceRequest(42000.0, t, "test", "node-a"), t);
    assert !IsFresh(svc.prices[0].timestamp, t + 61);
    median := svc.CalculateMedianPrice(t + 61);
    resp := svc.GetAggregatedPrice(t + 61);
  }

  /**
   * A reporter submits once. 121 seconds later, with no submission in
   * between, the health check still counts it (only a submission sweeps);
   * once another reporter submits, it is gone.
   */
  method LivenessScenario(t: U64) returns (quietCount: U32, finalCount: U32, stillTracked: bool)
    requires t + 121 < U64_LIMIT
    ensures quietCount == 1
    ensures finalCount == 1
    ensures !stillTracked
  {
    var svc := new AggregatorService();
    var r := svc.SubmitPrice(PriceRequest(42000.0, t, "test", "node-a"), t);
    SweepKeepsAlive("node-a", t);
    assert svc.activeNodes == map["node-a" := t];
    var h := svc.HealthCheck(HealthRequest("monitor"), t + 121);
    quietCount := h.activeNodes;
    r := svc.SubmitPrice(PriceRequest(42000.0, t + 121, "test", "node-b"), t + 121);
    SweepDropsSilent(t);
    assert svc.activeNodes == map["node-b" := t + 121];
    h := svc.HealthCheck(HealthRequest("monitor"), t + 121);
    finalCount := h.activeNodes;
    stillTracked := "node-a" in svc.activeNodes;
  }

  lemma SweepKeepsAlive(id: string, t: U64)
    ensures Sweep(map[][id := t], t) == map[id := t]
  {
    assert IsAlive(t, t);
  }

  lemma SweepDropsSilent(t: U64)
    requires t + 121 < U64_LIMIT
    ensures Sweep(map["node-a" := t]["node-b" := t + 121], t + 121) == map["node-b" := t + 121]
  {
    var m := map["node-a" := t]["node-b" := t + 121];
    assert !IsAlive(m["node-a"], t + 121);
    assert IsAlive(m["node-b"], t + 121);
    assert m.Keys == {"node-a", "node-b"};
  }

  /** Two failed attempts then a success: three attempts and 1 + 2 = 3 seconds of waiting. */
  method RetryScenario(first: FetchError, second: FetchError, data: PriceData)
    returns (r: Result<PriceData, FetchError>, attempts: nat, totalWait: nat)
    ensures r == Success(data)
    ensures attempts == 3
    ensures totalWait == 3
  {
    var waits: seq<U64>;
    r, attempts, waits := FetchBtcPrice([Failure(first), Failure(second), Success(data)]);
    totalWait := Sum(waits);
  }
}
