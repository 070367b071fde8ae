/**
 * The all-in-one variant: the same probe, rows and summary, but healthy,
 * warning and critical only for code 200 with fixed 500 / 1000 ms
 * thresholds, its own failure messages and headers, one `append_row` per
 * result, and headers written only to an empty worksheet.
 */
module SimpleMonitor {
  import opened Wrappers
  import opened Records
  import opened Sheets
  import opened Monitor
  import opened Exporter
  import opened Cycle

  /** The variant's tiers: only code 200 is graded by latency, against 500 and 1000 ms. */
  function ClassifySimple(code: int, elapsedMs: real): (s: Status)
    ensures s in {Healthy, Warning, Critical, Error}
  {
    if code == 200 then
      if elapsedMs < 500.0 then Healthy
      else if elapsedMs < 1000.0 then Warning
      else Critical
    else Error
  }

  const SimpleTimeoutMessage := "Request timed out"
  const SimpleConnectionMessage := "Cannot connect to API"
  const SimpleHeaders: seq<string> := ["Timestamp", "URL", "Status", "Code", "Latency (ms)", "Error"]

  /** The result `check_api` returns for `url` when the request ends as `ob` says. */
  function SimpleResultOf(url: string, ob: Observation): ProbeResult {
    var base := ProbeResult(ob.timestamp, url, Unknown, None, None, None);
    match ob.outcome
    case Response(code, ms) =>
      base.(status := ClassifySimple(code, ms), statusCode := Some(code), latency := Some(Round2(ms)))
    case TimedOut => base.(status := Timeout, error := Some(SimpleTimeoutMessage))
    case ConnectionFailed => base.(status := ConnectionError, error := Some(SimpleConnectionMessage))
    case Raised(msg) => base.(status := Error, error := Some(msg))
  }

  /** 'healthy', 'warning' and 'critical' only for code 200, split at 500 and 1000 ms; every other code is an error. */
  lemma SimpleTiers(code: int, ms: real)
    ensures ClassifySimple(code, ms) == Healthy <==> code == 200 && ms < 500.0
    ensures ClassifySimple(code, ms) == Warning <==> code == 200 && 500.0 <= ms < 1000.0
    ensures ClassifySimple(code, ms) == Critical <==> code == 200 && 1000.0 <= ms
    ensures ClassifySimple(code, ms) == Error <==> code != 200
  {
  }

  /**
   * With the default thresholds the two classifiers agree exactly on the
   * codes other than 201..299: there the modular one grades by latency and
   * this one reports an error.
   */
  lemma ClassifiersAgreeOffOtherSuccessCodes(code: int, ms: real)
    ensures Classify(code, ms, DefaultThresholds) == ClassifySimple(code, ms) <==> !(200 < code < 300)
    ensures 200 < code < 300 ==> ClassifySimple(code, ms) == Error && Classify(code, ms, DefaultThresholds) != Error
  {
  }

  /**
   * With the default thresholds, and apart from the timestamp (the modular
   * prober stamps UTC, this one local time), the two probers give the same
   * record except for a 201..299 response, a timeout and a connection
   * failure, where only the messages differ for the two failures.
   */
  lemma ProbersAgree(url: string, utcStamp: string, localStamp: string, outcome: HttpOutcome)
    ensures ProbeResultOf(url, Observation(utcStamp, outcome), DefaultThresholds).timestamp == utcStamp
    ensures SimpleResultOf(url, Observation(localStamp, outcome)).timestamp == localStamp
    ensures var modular := ProbeResultOf(url, Observation(utcStamp, outcome), DefaultThresholds);
      var simple := SimpleResultOf(url, Observation(localStamp, outcome));
      modular.(timestamp := "") == simple.(timestamp := "") <==>
      match outcome
      case Response(code, _) => !(200 < code < 300)
      case Raised(_) => true
      case _ => false
    ensures outcome.TimedOut? || outcome.ConnectionFailed? ==>
      ProbeResultOf(url, Observation(utcStamp, outcome), DefaultThresholds).(timestamp := "", error := None)
        == SimpleResultOf(url, Observation(localStamp, outcome)).(timestamp := "", error := None)
  {
    match outcome {
      case Response(code, ms) => ClassifiersAgreeOffOtherSuccessCodes(code, ms);
      case _ =>
    }
  }

  /** Every path sets a status, so the variant's records are well formed too. */
  lemma SimpleResultWellFormed(url: string, ob: Observation)
    ensures WellFormed(SimpleResultOf(url, ob))
    ensures ob.outcome.TimedOut? ==> SimpleResultOf(url, ob).error == Some(SimpleTimeoutMessage)
    ensures ob.outcome.ConnectionFailed? ==> SimpleResultOf(url, ob).error == Some(SimpleConnectionMessage)
  {
  }

  /** `check_api`, filling the result record field by field. */
  method CheckApi(url: string, ob: Observation) returns (r: ProbeResult)
    ensures r == SimpleResultOf(url, ob)
  {
    r := ProbeResult(ob.timestamp, url, Unknown, None, None, None);
    match ob.outcome {
      case Response(code, ms) =>
        r := r.(latency := Some(Round2(ms)));
        r := r.(statusCode := Some(code));
        if code == 200 {
          if ms < 500.0 {
            r := r.(status := Healthy);
          } else if ms < 1000.0 {
            r := r.(status := Warning);
          } else {
            r := r.(status := Critical);
          }
        } else {
          r := r.(status := Error);
        }
      case TimedOut =>
        r := r.(status := Timeout);
        r := r.(error := Some(SimpleTimeoutMessage));
      case ConnectionFailed =>
        r := r.(status := ConnectionError);
        r := r.(error := Some(SimpleConnectionMessage));
      case Raised(msg) =>
        r := r.(status := Error);
        r := r.(error := Some(msg));
    }
  }

  /** One `append_row` per result, in order, with the same six cells the modular exporter writes. */
  function RowWrites(results: seq<ProbeResult>): seq<Write> {
    seq(|results|, i requires 0 <= i < |results| => Write.AppendRow(FormatRow(results[i])))
  }

  /** The headers, for an empty worksheet only. */
  function SimpleHeaderWrites(g: Grid): seq<Write> {
    if g == [] then [Write.AppendRow(SimpleHeaders)] else []
  }

  /** Every write `save_to_google_sheets` issues on a worksheet that starts as `g`, in order. */
  function SaveWrites(g: Grid, results: seq<ProbeResult>): seq<Write> {
    SimpleHeaderWrites(g) + RowWrites(results)
  }

  lemma {:induction false} ApplyRowWrites(g: Grid, results: seq<ProbeResult>, k: nat)
    requires k <= |results|
    ensures ApplyAll(g, RowWrites(results)[..k]) == g + FormatAll(results)[..k]
  {
    if k > 0 {
      ApplyRowWrites(g, results, k - 1);
      var ws, rows := RowWrites(results), FormatAll(results);
      SliceSnoc(ws, k);
      ApplyAllSnoc(g, ws[..k - 1], ws[k - 1]);
      assert ws[k - 1] == Write.AppendRow(rows[k - 1]);
      SliceSnoc(rows, k);
    }
  }

  /**
   * Saving only appends: whatever the service accepts, the rows already
   * on the worksheet stay as they were.
   */
  lemma SaveNeverRewrites(g: Grid, results: seq<ProbeResult>, quota: nat)
    ensures var g' := ApplyAll(g, Take(SaveWrites(g, results), quota));
      |g'| >= |g| && g'[..|g|] == g
  {
    AppendsKeepRows(g, Take(SaveWrites(g, results), quota));
  }

  /**
   * When the service accepts every request: the headers first if the
   * worksheet was empty, then one six-cell row per result, in order.
   */
  lemma SaveAppendsRows(g: Grid, results: seq<ProbeResult>, quota: nat)
    requires quota >= |SaveWrites(g, results)|
    ensures ApplyAll(g, Take(SaveWrites(g, results), quota))
         == g + (if g == [] then [SimpleHeaders] else []) + FormatAll(results)
  {
    var hw := SimpleHeaderWrites(g);
    ApplyAllAppend(g, hw, RowWrites(results));
    ApplyRowWrites(ApplyAll(g, hw), results, |results|);
    assert RowWrites(results)[..|results|] == RowWrites(results);
    assert FormatAll(results)[..|results|] == FormatAll(results);
    assert hw == [] || hw[..0] == [];
  }

  /** The loop of `save_to_google_sheets` that appends one row per result; `ok` is false when an append raised, which ends it. */
  method AppendResultRows(results: seq<ProbeResult>, sheet: Worksheet) returns (ok: bool)
    modifies sheet
    ensures var plan := RowWrites(results);
      && ok == (|plan| <= old(sheet.quota))
      && sheet.rows == ApplyAll(old(sheet.rows), Take(plan, old(sheet.quota)))
      && sheet.log == old(sheet.log) + Take(plan, old(sheet.quota))
      && sheet.quota == old(sheet.quota) - |Take(plan, old(sheet.quota))|
  {
    ghost var g0, log0, q0 := sheet.rows, sheet.log, sheet.quota;
    ghost var rw := RowWrites(results);
    ok := true;
    for i := 0 to |results|
      invariant ok && i <= q0
      invariant sheet.rows == ApplyAll(g0, rw[..i])
      invariant sheet.log == log0 + rw[..i] && sheet.quota == q0 - i
    {
      var row := [results[i].timestamp, results[i].url, StatusName(results[i].status),
                  CodeCell(results[i].statusCode), LatencyCell(results[i].latency), ErrorCell(results[i].error)];
      assert rw[i] == Write.AppendRow(row);
      ok := sheet.AppendRow(row);
      if !ok {
        assert Take(rw, q0) == rw[..i];
        return;
      }
      SliceSnoc(rw, i + 1);
      ApplyAllSnoc(g0, rw[..i], rw[i]);
    }
    assert rw[..|results|] == rw == Take(rw, q0);
  }

  /**
   * The header step of `save_to_google_sheets`: on an empty worksheet
   * append the header row; `ok` is false when `get_all_values()` or that
   * append raised.
   */
  method AppendSimpleHeaders(sheet: Worksheet) returns (ok: bool)
    modifies sheet
    ensures var hw := SimpleHeaderWrites(old(sheet.rows));
      && ok == (old(sheet.quota) > 0 && |hw| <= old(sheet.quota))
      && sheet.rows == ApplyAll(old(sheet.rows), Take(hw, old(sheet.quota)))
      && sheet.log == old(sheet.log) + Take(hw, old(sheet.quota))
      && sheet.quota == old(sheet.quota) - |Take(hw, old(sheet.quota))|
  {
    var values;
    ok, values := sheet.GetAllValues();
    if ok && values == [] {
      ok := sheet.AppendRow(SimpleHeaders);
      assert [Write.AppendRow(SimpleHeaders)][..0] == [];
    }
  }

  /**
   * `save_to_google_sheets`: `sheet` is the worksheet the sheet name opens,
   * null when it is not found. True once every row is written; false on a
   * missing sheet or a read or write the service rejects.
   */
  method SaveToGoogleSheets(results: seq<ProbeResult>, sheet: Worksheet?) returns (success: bool)
    modifies sheet
    ensures sheet == null ==> !success
    ensures sheet != null ==>
      var plan := SaveWrites(old(sheet.rows), results);
      && success == (old(sheet.quota) > 0 && |plan| <= old(sheet.quota))
      && sheet.rows == ApplyAll(old(sheet.rows), Take(plan, old(sheet.quota)))
      && sheet.log == old(sheet.log) + Take(plan, old(sheet.quota))
      && sheet.quota == old(sheet.quota) - |Take(plan, old(sheet.quota))|
  {
    success := false;
    if sheet == null {
      return;
    }
    ghost var g0, log0, q0 := sheet.rows, sheet.log, sheet.quota;
    ghost var hw, rw := SimpleHeaderWrites(g0), RowWrites(results);
    var ok := AppendSimpleHeaders(sheet);
    ghost var g1, log1, q1 := sheet.rows, sheet.log, sheet.quota;
    if ok {
      success := AppendResultRows(results, sheet);
      IssuedThen(g0, log0, q0, hw, g1, log1, q1, rw, sheet.rows, sheet.log, sheet.quota);
    } else if q0 < |hw| {
      IssuedStop(g0, log0, q0, hw, rw, g1, log1, q1);
    } else {
      IssuedNothing(g0, log0, hw + rw);
    }
  }

  /**
   * `main` after configuration: probe each endpoint in order, save the
   * results, and count them into the same three buckets as the modular
   * cycle.
   */
  method RunSimpleMonitor(endpoints: seq<string>, obs: seq<Observation>, sheet: Worksheet?)
    returns (results: seq<ProbeResult>, success: bool, summary: Summary)
    requires |obs| == |endpoints|
    modifies sheet
    ensures |results| == |endpoints|
    ensures forall i :: 0 <= i < |endpoints| ==> results[i] == SimpleResultOf(endpoints[i], obs[i])
    ensures summary == Summarize(results)
    ensures summary.healthy + summary.warnings + summary.errors == |endpoints|
    ensures sheet == null ==> !success
    ensures sheet != null ==>
      var plan := SaveWrites(old(sheet.rows), results);
      && success == (old(sheet.quota) > 0 && |plan| <= old(sheet.quota))
      && sheet.rows == ApplyAll(old(sheet.rows), Take(plan, old(sheet.quota)))
      && sheet.log == old(sheet.log) + Take(plan, old(sheet.quota))
      && sheet.quota == old(sheet.quota) - |Take(plan, old(sheet.quota))|
  {
    results := [];
    for i := 0 to |endpoints|
      invariant sheet != null ==> unchanged(sheet)
      invariant |results| == i
      invariant forall j :: 0 <= j < i ==> results[j] == SimpleResultOf(endpoints[j], obs[j])
    {
      var result := CheckApi(endpoints[i], obs[i]);
      results := results + [result];
    }
    success := SaveToGoogleSheets(results, sheet);
    summary := Summary(CountIn(results, {Healthy}), CountIn(results, {Warning}), CountIn(results, ErrorStatuses));
    forall i | 0 <= i < |results| ensures results[i].status != Unknown {
      SimpleResultWellFormed(endpoints[i], obs[i]);
    }
    SummaryTotal(results);
  }
}
