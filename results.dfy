/** The result record of one realization (calculate_results): totals, the reject probability,
    and per-source and per-device statistics. */
module Results {
  import opened Types
  import opened Tally
  import opened Blocks
  import opened Invariants

  datatype SourceStats = SourceStats(
    sourceId: nat,
    total: nat,
    processed: nat,
    rejected: nat,
    avgWaitTime: real)

  /** `utilization` is the flag "served at least one request". */
  datatype DeviceStats = DeviceStats(deviceId: nat, processed: nat, utilization: bool)

  datatype RealizationResult = RealizationResult(
    tau: real,
    totalRequests: nat,
    totalProcessed: nat,
    totalRejected: nat,
    totalRejectProb: real,
    sourcesStats: seq<SourceStats>,
    devicesStats: seq<DeviceStats>)

  /** Mean wait of a source's served requests; 0 when it has served none. */
  function AvgWait(src: Source): real {
    if src.processed > 0 then src.totalWait / src.processed as real else 0.0
  }

  /** calculate_results on the engine state at the given tau. */
  function CalculateResults(st: State, tau: real): (r: RealizationResult)
    ensures |r.sourcesStats| == |st.sources| && |r.devicesStats| == |st.devices|
  {
    var totalRequests := Sum(Generated(st.sources));
    var totalProcessed := Sum(Processed(st.sources));
    var prob := if totalRequests > 0 then st.rejects as real / totalRequests as real else 0.0;
    RealizationResult(
      tau, totalRequests, totalProcessed, st.rejects, prob,
      seq(|st.sources|, i requires 0 <= i < |st.sources| =>
        SourceStats(i, st.sources[i].generated, st.sources[i].processed, st.sources[i].rejected,
                    AvgWait(st.sources[i]))),
      seq(|st.devices|, j requires 0 <= j < |st.devices| =>
        DeviceStats(j, st.devices[j].processed, st.devices[j].processed > 0)))
  }

  /** What a result record of a realization guarantees: the reject probability is a
      probability, requests are split into served and rejected with the rest still buffered,
      the per-source rows add up to the totals, and every mean wait is non-negative. */
  ghost predicate Sound(r: RealizationResult) {
    && 0.0 <= r.totalRejectProb <= 1.0
    && (r.totalRequests == 0 ==> r.totalRejectProb == 0.0)
    && r.totalRejectProb * r.totalRequests as real == r.totalRejected as real
    && r.totalProcessed + r.totalRejected <= r.totalRequests
    && (forall i :: 0 <= i < |r.sourcesStats| ==> 0.0 <= r.sourcesStats[i].avgWaitTime)
    && (forall j :: 0 <= j < |r.devicesStats| ==>
          (r.devicesStats[j].utilization <==> r.devicesStats[j].processed > 0))
  }

  lemma DivisionBounds(a: nat, n: nat)
    requires a <= n && n > 0
    ensures 0.0 <= a as real / n as real <= 1.0
    ensures (a as real / n as real) * n as real == a as real
  {
  }

  /** Under the engine invariant the result is sound, and the requests still buffered are
      exactly those neither served nor rejected. */
  lemma ResultsSound(c: Config, st: State, tau: real)
    requires Inv(c, st)
    ensures var r := CalculateResults(st, tau);
            && Sound(r)
            && r.tau == tau
            && r.totalRequests == r.totalProcessed + r.totalRejected + st.occupied
            && r.totalRejected == Sum(Rejected(st.sources))
            && Sum(Served(st.devices)) == r.totalProcessed
  {
    var r := CalculateResults(st, tau);
    if r.totalRequests > 0 {
      DivisionBounds(st.rejects, r.totalRequests);
    }
    forall i | 0 <= i < |st.sources|
      ensures 0.0 <= AvgWait(st.sources[i])
    {
      var src := st.sources[i];
      if src.processed > 0 {
        assert 0.0 <= src.totalWait;
      }
    }
  }

  /** Each per-source row of the result copies its source's counters under the source's
      index, with a mean wait of 0 for a source that has served nothing and otherwise the
      mean that, times the served count, gives the total wait; each per-device row copies
      its device's served count under the device's index. */
  lemma ResultRows(st: State, tau: real)
    ensures var r := CalculateResults(st, tau);
            forall i :: 0 <= i < |st.sources| ==>
              var row, src := r.sourcesStats[i], st.sources[i];
              && row.sourceId == i && row.total == src.generated
              && row.processed == src.processed && row.rejected == src.rejected
              && (src.processed == 0 ==> row.avgWaitTime == 0.0)
              && (src.processed > 0 ==> row.avgWaitTime * src.processed as real == src.totalWait)
    ensures var r := CalculateResults(st, tau);
            forall j :: 0 <= j < |st.devices| ==>
              r.devicesStats[j].deviceId == j && r.devicesStats[j].processed == st.devices[j].processed
  {
    var r := CalculateResults(st, tau);
    forall i | 0 <= i < |st.sources| && st.sources[i].processed > 0
      ensures r.sourcesStats[i].avgWaitTime * st.sources[i].processed as real
              == st.sources[i].totalWait
    {
      AvgWaitTimesProcessed(st.sources[i]);
    }
  }

  /** The mean wait of a source times its served count is its total wait. */
  lemma AvgWaitTimesProcessed(src: Source)
    requires src.processed > 0
    ensures AvgWait(src) * src.processed as real == src.totalWait
  {
  }
}
