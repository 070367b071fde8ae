/**
 * One monitoring cycle of the modular monitor: probe every endpoint,
 * count the results into three buckets, and export a non-empty batch.
 */
module Cycle {
  import opened Wrappers
  import opened Records
  import opened Sheets
  import opened Monitor
  import opened Exporter

  /** The counts the cycle prints. */
  datatype Summary = Summary(healthy: nat, warnings: nat, errors: nat)

  /** How many results have a status in `bucket`. */
  function CountIn(results: seq<ProbeResult>, bucket: set<Status>): (n: nat)
    ensures n <= |results|
  {
    if results == [] then 0
    else CountIn(results[..|results| - 1], bucket) + (if results[|results| - 1].status in bucket then 1 else 0)
  }

  /** The three counts: healthy, warning, and error-or-worse. */
  function Summarize(results: seq<ProbeResult>): Summary {
    Summary(CountIn(results, {Healthy}), CountIn(results, {Warning}), CountIn(results, ErrorStatuses))
  }

  /** The positions whose status is in `bucket`. */
  function Positions(results: seq<ProbeResult>, bucket: set<Status>): set<nat> {
    set i: nat | i < |results| && results[i].status in bucket
  }

  /** A count is the number of results with a status in the bucket. */
  lemma {:induction false} CountIsPositions(results: seq<ProbeResult>, bucket: set<Status>)
    ensures CountIn(results, bucket) == |Positions(results, bucket)|
  {
    if results != [] {
      var n := |results| - 1;
      var init := results[..n];
      CountIsPositions(init, bucket);
      var before := Positions(init, bucket);
      if results[n].status in bucket {
        assert Positions(results, bucket) == before + {n};
      } else {
        assert Positions(results, bucket) == before;
      }
    }
  }

  /** Every status is in exactly one of the buckets healthy, warning, error-or-worse and unknown. */
  lemma {:induction false} BucketsPartition(results: seq<ProbeResult>)
    ensures CountIn(results, {Healthy}) + CountIn(results, {Warning}) + CountIn(results, ErrorStatuses)
          + CountIn(results, {Unknown}) == |results|
  {
    if results != [] {
      var init := results[..|results| - 1];
      BucketsPartition(init);
      var last := results[|results| - 1].status;
      assert CountIn(results, {Healthy}) == CountIn(init, {Healthy}) + (if last == Healthy then 1 else 0);
      assert CountIn(results, {Warning}) == CountIn(init, {Warning}) + (if last == Warning then 1 else 0);
      assert CountIn(results, {Unknown}) == CountIn(init, {Unknown}) + (if last == Unknown then 1 else 0);
      assert CountIn(results, ErrorStatuses) == CountIn(init, ErrorStatuses) + (if last in ErrorStatuses then 1 else 0);
    }
  }

  /** No result is counted in a bucket none of their statuses is in. */
  lemma {:induction false} CountNone(results: seq<ProbeResult>, bucket: set<Status>)
    requires forall i :: 0 <= i < |results| ==> results[i].status !in bucket
    ensures CountIn(results, bucket) == 0
  {
    if results != [] {
      CountNone(results[..|results| - 1], bucket);
    }
  }

  /**
   * The buckets are disjoint, so the three counts never exceed the number
   * of results, and they add up to it exactly when no result is 'unknown'.
   */
  lemma SummaryTotal(results: seq<ProbeResult>)
    ensures var s := Summarize(results);
      && s.healthy + s.warnings + s.errors + CountIn(results, {Unknown}) == |results|
      && (s.healthy + s.warnings + s.errors == |results|
          <==> forall i :: 0 <= i < |results| ==> results[i].status != Unknown)
  {
    BucketsPartition(results);
    if forall i :: 0 <= i < |results| ==> results[i].status != Unknown {
      CountNone(results, {Unknown});
    } else {
      var i :| 0 <= i < |results| && results[i].status == Unknown;
      CountIsPositions(results, {Unknown});
      assert i in Positions(results, {Unknown});
    }
  }

  /** Results straight from the prober are never 'unknown', so their counts add up to the number of endpoints. */
  lemma ProbedSummaryTotal(endpoints: seq<string>, obs: seq<Observation>, t: Thresholds, results: seq<ProbeResult>)
    requires |obs| == |endpoints| == |results|
    requires forall i :: 0 <= i < |endpoints| ==> results[i] == ProbeResultOf(endpoints[i], obs[i], t)
    ensures Summarize(results).healthy + Summarize(results).warnings + Summarize(results).errors == |endpoints|
  {
    forall i | 0 <= i < |results| ensures results[i].status != Unknown {
      ProbeResultWellFormed(endpoints[i], obs[i], t);
    }
    SummaryTotal(results);
  }

  /**
   * A fast healthy endpoint, one that times out and one answering HTTP 500
   * give one healthy result and two errors, in that order.
   */
  lemma ThreeEndpointCycle(t: Thresholds)
    requires 0 < t.warningMs
    ensures var results := [
        ProbeResultOf("A", Observation("t1", Response(200, 0.0)), t),
        ProbeResultOf("B", Observation("t2", TimedOut), t),
        ProbeResultOf("C", Observation("t3", Response(500, 12.5)), t)];
      && results[0].status == Healthy && results[1].status == Timeout
      && results[2].status == Error && results[2].statusCode == Some(500)
      && Summarize(results) == Summary(1, 0, 2)
  {
    var results := [
        ProbeResultOf("A", Observation("t1", Response(200, 0.0)), t),
        ProbeResultOf("B", Observation("t2", TimedOut), t),
        ProbeResultOf("C", Observation("t3", Response(500, 12.5)), t)];
    assert results[..2][..1] == [results[0]];
    assert results[..2][..1][..0] == [];
    assert results[..2] == [results[0], results[1]];
    assert CountIn(results[..2], {Healthy}) == 1 && CountIn(results[..2], {Warning}) == 0;
    assert CountIn(results[..2], ErrorStatuses) == 1;
  }

  /**
   * `run_monitoring_cycle`. `exporter` is the GoogleSheetsExporter the
   * cycle constructs, null when its constructor raises; that failure is
   * caught like any other, and the results are returned either way.
   */
  method RunMonitoringCycle(thresholds: Thresholds, endpoints: seq<string>, obs: seq<Observation>,
                            exporter: SheetsExporter?)
    returns (results: seq<ProbeResult>, summary: Summary)
    requires |obs| == |endpoints|
    modifies exporter, if exporter != null then exporter.sheet else null
    ensures |results| == |endpoints|
    ensures forall i :: 0 <= i < |endpoints| ==> results[i] == ProbeResultOf(endpoints[i], obs[i], thresholds)
    ensures summary == Summarize(results)
    ensures summary.healthy + summary.warnings + summary.errors == |endpoints|
    ensures exporter != null && endpoints != [] ==> exporter.exported == old(exporter.exported) + [results]
    ensures exporter != null && endpoints != [] && exporter.sheet != null ==>
      var sheet := exporter.sheet;
      var plan := ExportPlan(old(sheet.rows), results);
      && sheet.rows == ApplyAll(old(sheet.rows), Take(plan, old(sheet.quota)))
      && sheet.log == old(sheet.log) + Take(plan, old(sheet.quota))
      && sheet.quota == old(sheet.quota) - |Take(plan, old(sheet.quota))|
    ensures exporter != null && endpoints == [] ==>
      unchanged(exporter) && (exporter.sheet != null ==> unchanged(exporter.sheet))
  {
    var monitor := new ApiMonitor(thresholds);
    results := monitor.CheckAllEndpoints(endpoints, obs);
    summary := Summary(CountIn(results, {Healthy}), CountIn(results, {Warning}), CountIn(results, ErrorStatuses));
    ProbedSummaryTotal(endpoints, obs, thresholds, results);
    if results != [] && exporter != null {
      exporter.Export(results);
    }
  }
}
