/**
 * The modular monitor's prober: one request per endpoint, classified by
 * status code and latency against configurable thresholds.
 */
module Monitor {
  import opened Wrappers
  import opened Records

  /**
   * The tier of a received response: a 2xx code is healthy, warning or
   * critical by its unrounded latency; any other code is an error.
   */
  function Classify(code: int, elapsedMs: real, t: Thresholds): (s: Status)
    ensures s in {Healthy, Warning, Critical, Error}
  {
    if 200 <= code < 300 then
      if elapsedMs < t.warningMs as real then Healthy
      else if elapsedMs < t.criticalMs as real then Warning
      else Critical
    else Error
  }

  const TimeoutMessage := "Request timed out after 10 seconds"
  const ConnectionMessage := "Connection failed"

  /** The result `check_endpoint` returns for `url` when the request ends as `ob` says. */
  function ProbeResultOf(url: string, ob: Observation, t: Thresholds): ProbeResult {
    var base := ProbeResult(ob.timestamp, url, Unknown, None, None, None);
    match ob.outcome
    case Response(code, ms) =>
      base.(status := Classify(code, ms, t), statusCode := Some(code), latency := Some(Round2(ms)))
    case TimedOut => base.(status := Timeout, error := Some(TimeoutMessage))
    case ConnectionFailed => base.(status := ConnectionError, error := Some(ConnectionMessage))
    case Raised(msg) => base.(status := Error, error := Some(msg))
  }

  /** Each tier of a response, both directions. */
  lemma ClassifyTiers(code: int, ms: real, t: Thresholds)
    ensures Classify(code, ms, t) == Healthy <==> 200 <= code < 300 && ms < t.warningMs as real
    ensures Classify(code, ms, t) == Warning
        <==> 200 <= code < 300 && t.warningMs as real <= ms < t.criticalMs as real
    ensures Classify(code, ms, t) == Critical
        <==> 200 <= code < 300 && t.warningMs as real <= ms && t.criticalMs as real <= ms
    ensures Classify(code, ms, t) == Error <==> !(200 <= code < 300)
  {
  }

  /** A latency exactly at the warning threshold is never healthy; with ordered thresholds it is a warning. */
  lemma WarningThresholdIsNotHealthy(code: int, t: Thresholds)
    requires 200 <= code < 300
    ensures Classify(code, t.warningMs as real, t) != Healthy
    ensures t.warningMs < t.criticalMs ==> Classify(code, t.warningMs as real, t) == Warning
  {
  }

  /** A code outside [200, 300) is an error at every latency, from zero to far past the critical threshold. */
  lemma NonSuccessCodeIsError(code: int, ms: real, t: Thresholds)
    requires !(200 <= code < 300)
    ensures Classify(code, ms, t) == Error
  {
  }

  /** A received response records its code and rounded latency and no error, whatever its tier. */
  lemma ResponseFields(url: string, ts: string, code: int, ms: real, t: Thresholds)
    ensures var r := ProbeResultOf(url, Observation(ts, Response(code, ms)), t);
      && r.statusCode == Some(code) && r.latency == Some(Round2(ms)) && r.error == None
      && r.status == Classify(code, ms, t)
      && (!(200 <= code < 300) ==> r.status == Error)
  {
  }

  /** The three exception paths: fixed messages for timeout and connection failure, the exception text otherwise; never a code or latency. */
  lemma FailureFields(url: string, ts: string, t: Thresholds, msg: string)
    ensures var r := ProbeResultOf(url, Observation(ts, TimedOut), t);
      r.status == Timeout && r.error == Some(TimeoutMessage) && r.statusCode == None && r.latency == None
    ensures var r := ProbeResultOf(url, Observation(ts, ConnectionFailed), t);
      r.status == ConnectionError && r.error == Some(ConnectionMessage) && r.statusCode == None && r.latency == None
    ensures var r := ProbeResultOf(url, Observation(ts, Raised(msg)), t);
      r.status == Error && r.error == Some(msg) && r.statusCode == None && r.latency == None
  {
  }

  /** Every path sets a status, so a finished probe is never 'unknown' and has the shape of a response or of a failure. */
  lemma ProbeResultWellFormed(url: string, ob: Observation, t: Thresholds)
    ensures WellFormed(ProbeResultOf(url, ob, t))
    ensures ProbeResultOf(url, ob, t).url == url && ProbeResultOf(url, ob, t).timestamp == ob.timestamp
  {
  }

  /**
   * The tier is taken from the unrounded latency, so a response can be
   * healthy while its recorded latency equals the warning threshold.
   */
  lemma TierUsesUnroundedLatency()
    ensures var r := ProbeResultOf("u", Observation("t", Response(200, 499.996)), DefaultThresholds);
      r.status == Healthy && r.latency == Some(50000)
  {
  }

  /** The source's APIMonitor: the thresholds are read from configuration once, at construction. */
  class ApiMonitor {
    const thresholds: Thresholds

    constructor(thresholds: Thresholds)
      ensures this.thresholds == thresholds
    {
      this.thresholds := thresholds;
    }

    /** Probes one endpoint, filling the result record field by field. */
    method CheckEndpoint(url: string, ob: Observation) returns (r: ProbeResult)
      ensures r == ProbeResultOf(url, ob, thresholds)
    {
      r := ProbeResult(ob.timestamp, url, Unknown, None, None, None);
      match ob.outcome {
        case Response(code, ms) =>
          r := r.(latency := Some(Round2(ms)));
          r := r.(statusCode := Some(code));
          if code >= 200 && code < 300 {
            if ms < thresholds.warningMs as real {
              r := r.(status := Healthy);
            } else if ms < thresholds.criticalMs as real {
              r := r.(status := Warning);
            } else {
              r := r.(status := Critical);
            }
          } else {
            r := r.(status := Error);
          }
        case TimedOut =>
          r := r.(status := Timeout);
          r := r.(error := Some(TimeoutMessage));
        case ConnectionFailed =>
          r := r.(status := ConnectionError);
          r := r.(error := Some(ConnectionMessage));
        case Raised(msg) =>
          r := r.(status := Error);
          r := r.(error := Some(msg));
      }
    }

    /**
     * Probes the endpoints in order; `obs[i]` is how the request to
     * `endpoints[i]` ends.
     */
    method CheckAllEndpoints(endpoints: seq<string>, obs: seq<Observation>) returns (results: seq<ProbeResult>)
      requires |obs| == |endpoints|
      ensures |results| == |endpoints|
      ensures forall i :: 0 <= i < |endpoints| ==> results[i] == ProbeResultOf(endpoints[i], obs[i], thresholds)
    {
      results := [];
      for i := 0 to |endpoints|
        invariant |results| == i
        invariant forall j :: 0 <= j < i ==> results[j] == ProbeResultOf(endpoints[j], obs[j], thresholds)
      {
        var result := CheckEndpoint(endpoints[i], obs[i]);
        results := results + [result];
      }
    }
  }
}
