/**
 * The values both monitor variants share: what a request to an endpoint
 * ends in, the status tiers a result can carry, the result record that
 * is printed, counted and exported, and the latency thresholds.
 */
module Records {
  import opened Wrappers

  /** How `requests.get` ended: a response after some elapsed time, or one of the exceptions the probe catches. */
  datatype HttpOutcome =
    | Response(code: int, elapsedMs: real)  // a response arrived; elapsedMs is the unrounded wall-clock time
    | TimedOut                              // requests.exceptions.Timeout
    | ConnectionFailed                      // requests.exceptions.ConnectionError
    | Raised(message: string)               // any other exception, with its str()

  /** One probe as the environment delivers it: the timestamp text taken when the probe starts, and how the request ended. */
  datatype Observation = Observation(timestamp: string, outcome: HttpOutcome)

  /** The strings the source stores in a result's 'status' field. */
  datatype Status = Unknown | Healthy | Warning | Critical | Error | Timeout | ConnectionError

  /** The text of a status as it is stored and exported. */
  function StatusName(s: Status): string {
    match s
    case Unknown => "unknown"
    case Healthy => "healthy"
    case Warning => "warning"
    case Critical => "critical"
    case Error => "error"
    case Timeout => "timeout"
    case ConnectionError => "connection_error"
  }

  /** Reads a status back from its exported text. */
  function ParseStatus(name: string): (r: Option<Status>)
    ensures forall s: Status :: r == Some(s) <==> StatusName(s) == name
  {
    if name == "unknown" then Some(Unknown)
    else if name == "healthy" then Some(Healthy)
    else if name == "warning" then Some(Warning)
    else if name == "critical" then Some(Critical)
    else if name == "error" then Some(Error)
    else if name == "timeout" then Some(Timeout)
    else if name == "connection_error" then Some(ConnectionError)
    else None
  }

  /**
   * The result dict of one probe. `latency` is the stored `latency_ms`
   * value, a float with two decimals, kept here as a whole number of
   * hundredths of a millisecond.
   */
  datatype ProbeResult = ProbeResult(
    timestamp: string,
    url: string,
    status: Status,
    statusCode: Option<int>,
    latency: Option<int>,
    error: Option<string>)

  /**
   * The shape every finished probe has: a definite status, and either a
   * response (code and latency, no error) or a failure (error text, no
   * code and no latency).
   */
  predicate WellFormed(r: ProbeResult) {
    && r.status != Unknown
    && ((r.statusCode.Some? && r.latency.Some? && r.error.None?)
        || (r.statusCode.None? && r.latency.None? && r.error.Some?))
  }

  /**
   * `round(ms, 2)` in hundredths, with halves rounded up.
   */
  function Round2(ms: real): (h: int)
    ensures (h as real) / 100.0 - 0.005 <= ms < (h as real) / 100.0 + 0.005
  {
    (ms * 100.0 + 0.5).Floor
  }

  /** The latency thresholds in milliseconds: the `warning` and `critical` keys of the source's dict. */
  datatype Thresholds = Thresholds(warningMs: int, criticalMs: int)

  /** The thresholds used when LATENCY_WARNING and LATENCY_CRITICAL are not set. */
  const DefaultThresholds := Thresholds(500, 1000)

  /** The statuses the summaries count as errors. */
  const ErrorStatuses: set<Status> := {Error, Critical, Timeout, ConnectionError}
}
