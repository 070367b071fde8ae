# API health monitor, modelled in Dafny

The API health monitor probes a list of HTTP endpoints. For each one it
makes a single GET request, classifies the response by status code and
latency, and records a result. It then counts the results into three
buckets (healthy, warning, error-or-worse) and appends them to a Google
Sheets worksheet as six-cell rows.

The repository has two variants of this, and the model covers both:

- **Modular.** `monitor.py` probes with `APIMonitor`, `exporter.py` writes with
  `GoogleSheetsExporter`, and `main.py` ties them together in
  `run_monitoring_cycle`.
  - The latency thresholds come from configuration.
  - Row 1 of the worksheet is reconciled with a header row.
  - Rows are appended in batches of at most 100.
- **All-in-one.** `simple_monitor.py` does the same work in a single file, with
  these differences:
  - Only code 200 is graded by latency, against fixed 500 and 1000 ms.
  - Its failure messages and header row are its own.
  - Headers are written only to an empty worksheet.
  - Each result gets its own `append_row`.

Modules:

- `Records`: the shared values.
  - How a request ended (`HttpOutcome`), given as an input.
  - The seven status strings.
  - The result record `ProbeResult`. Its latency is kept as a whole number
    of hundredths of a millisecond, the value `round(ms, 2)` stores.
  - The thresholds, with defaults 500 and 1000 ms.
- `Text`: the decimal text `str()` writes for a status code and for a
  two-decimal latency, with parsers that read that text back.
- `Monitor`: the tier classifier.
  - `ProbeResultOf` is the result function: the record `check_endpoint`
    returns.
  - The class `ApiMonitor` has `CheckEndpoint`, which fills the record
    field by field, and the loop `CheckAllEndpoints`.
- `Sheets`: an in-memory worksheet `Worksheet`.
  - It holds a grid of text cells, the three write requests the source
    issues (`append_row`, `append_rows`, `update_cell`) and a ghost log of
    the writes that took effect.
  - It also holds a `quota` of write requests the service still accepts. A
    request with no quota left raises and changes nothing. The reads
    `row_values` and `get_all_values` use up no quota, but they too raise
    once it is gone.
  - Every writing method is specified as: the effect of its plan of writes,
    cut at the first one that raises (`ApplyAll(old rows, Take(plan, old
    quota))`).
- `Exporter`: the exporter's pieces.
  - The cell rules: `str(x) if x else ''`.
  - The header reconciliation and the batching.
  - The class `SheetsExporter` with `FormatResults`, `EnsureHeaders` and
    `Export`.
- `Cycle`: the summary counts and `RunMonitoringCycle`.
- `SimpleMonitor`: the all-in-one variant.
  - Its classifier and prober.
  - How it compares with the modular one.
  - `SaveToGoogleSheets` and the main loop.

What the code does, as the model has it:

- A non-2xx response is stored as status `error`, together with its code.
- The tier is taken from the unrounded elapsed time, not from the rounded
  latency (`TierUsesUnroundedLatency`).
- The timestamp is taken before the request is sent. The modular monitor
  stamps UTC and the all-in-one variant local time.
- A latency exactly at the warning threshold is a warning only when
  warning < critical. The code does not enforce that order, and otherwise
  such a latency is critical.
- A row read back loses the falsy values, which become empty cells: code
  0, latency 0.0 and the empty error. So the round trip is exact only
  without them (`RowRoundTrip`, `ExactRoundTrip`).
- The exporter chunks the rows into batches of 100 itself.

A few behaviours of the code deserve a warning:

- `_ensure_headers` on a worksheet whose row 1 is blank but which has rows
  below appends the headers at the end of the worksheet. Row 1 stays blank,
  so every later export appends them again
  (`HeadersRepeatOnBlankFirstRow`).
- `check_api` grades only code 200 by latency, so a 201 or 204 is an
  error. The modular monitor grades every 2xx code
  (`ClassifiersAgreeOffOtherSuccessCodes`).
- `_ensure_headers` on a row 1 that starts with the six headers but has
  more cells finds it different from the headers. So every export sends
  the six `update_cell` requests again. They leave the worksheet as it was,
  but each of them can raise (`HeadersRewrittenOnLongerRow`).

## Model

The contracts below are stated with these functions, which give what the
code computes:
- `Monitor.ProbeResultOf`: the record `check_endpoint` returns
  (src/monitor.py:14-67).
- `SimpleMonitor.SimpleResultOf`: the record `check_api` returns
  (src/simple_monitor.py:44-91).
- `Cycle.Summarize`: the three counts (src/main.py:26-28).
- `Exporter.FormatRow` and `Exporter.FormatAll`: `format_results`
  (src/exporter.py:42-62).
- `Exporter.HeaderWrites`: the writes of `_ensure_headers`
  (src/exporter.py:34-40).
- `Exporter.Batches`: the slices `rows[i:i+100]` (src/exporter.py:82-84).
- `Exporter.ExportPlan`: every write of `export`, in order
  (src/exporter.py:71-84).
- `SimpleMonitor.SaveWrites`: every write of `save_to_google_sheets`, in
  order (src/simple_monitor.py:113-129).

| member | source | states |
|---|---|---|
| Text.NatTextRoundTrip | src/exporter.py:58 | The digits `str()` writes for a non-negative integer read back as that integer. |
| Text.IntTextRoundTrip | src/exporter.py:58 | `str(status_code)` is never empty and reads back as the same code, negative codes included. |
| Text.UnsignedFixedRoundTrip | src/exporter.py:59 | The text of a non-negative two-decimal latency (`123.0`, `123.4`, `0.05`) is at least three characters long, has no sign, and reads back as the same number of hundredths. |
| Text.FixedTextRoundTrip | src/exporter.py:59 | `str(latency_ms)` for any two-decimal latency is never empty and reads back as the same number of hundredths. |
| Records.ParseStatus | src/monitor.py:27-65 | A status text reads back as a status exactly when it is the text that status is stored as, so the seven status strings are distinct. |
| Records.Round2 | src/monitor.py:43 | `round(latency_ms, 2)` is within half a hundredth of the measured latency. |
| Monitor.Classify | src/monitor.py:47-55 | A response is classified as healthy, warning, critical or error, never as another status. |
| Monitor.ClassifyTiers | src/monitor.py:47-55 | Each tier in both directions: healthy iff 2xx below the warning threshold; warning iff 2xx from warning up to below critical; critical iff 2xx at or past both thresholds; error iff the code is outside [200, 300). |
| Monitor.WarningThresholdIsNotHealthy | src/monitor.py:48-51 | A 2xx latency equal to the warning threshold is not healthy, and it is a warning when warning < critical. |
| Monitor.NonSuccessCodeIsError | src/monitor.py:54-55 | A code outside [200, 300) is an error at any latency. |
| Monitor.ResponseFields | src/monitor.py:42-55 | A received response records its code and its rounded latency and no error, and its status is the tier of the code and the unrounded latency. |
| Monitor.FailureFields | src/monitor.py:57-65 | A timeout records 'timeout' with its fixed message, a connection failure 'connection_error' with its fixed message, and any other exception 'error' with its text. None of them records a code or latency. |
| Monitor.ProbeResultWellFormed | src/monitor.py:24-67 | Every path sets a status, so a finished probe is never 'unknown'. It has either code and latency without error, or error without code and latency, and it keeps the url and timestamp. |
| Monitor.TierUsesUnroundedLatency | src/monitor.py:42-50 | With the default thresholds, 499.996 ms is healthy although the stored latency is 500.00. |
| Monitor.ApiMonitor.constructor | src/monitor.py:11-12 | The thresholds are fixed when the monitor is built. |
| Monitor.ApiMonitor.CheckEndpoint | src/monitor.py:14-67 | Filling the record field by field gives exactly the result function for that url and outcome. |
| Monitor.ApiMonitor.CheckAllEndpoints | src/monitor.py:69-92 | One result per endpoint, in endpoint order, each the result of probing that endpoint. |
| Sheets.TakeThenApply | src/exporter.py:71-93 | A write that raises ends the sequence. The writes before it stand, and the second part of a plan is issued only within the quota the first part leaves. |
| Sheets.IssuedThen | src/exporter.py:71-93 | Carrying out one plan in full and then another is carrying out the two joined. |
| Sheets.IssuedStop | src/exporter.py:71-93 | When the first part of a plan raises, nothing of the second part is issued. |
| Sheets.IssuedNothing | src/simple_monitor.py:113-143 | Once the quota is gone, nothing of a plan takes effect, which is the state a raising read leaves. |
| Sheets.Worksheet.RowValues | src/exporter.py:34 | `row_values(r)` gives the cells of row r, or an empty row past the end, and raises once the service refuses requests. |
| Sheets.Worksheet.GetAllValues | src/simple_monitor.py:114 | `get_all_values()` gives the whole grid, and raises once the service refuses requests. |
| Sheets.AppendsKeepRows | src/simple_monitor.py:116-129 | Appends never change the rows already on the worksheet. |
| Exporter.FormatRowCells | src/exporter.py:54-61 | A row has six cells: timestamp, url and status text, then code, latency and error cells. Each of the last three is empty exactly when its field is None or falsy (0, 0.0, ''). |
| Exporter.RowRoundTrip | src/exporter.py:54-61 | Reading an exported row back gives the record with its falsy values turned into None. |
| Exporter.ExactRoundTrip | src/exporter.py:54-61 | A record with no falsy code, latency or error is read back exactly. |
| Exporter.ZeroLatencyExportsEmpty | src/exporter.py:59 | A latency that rounds to 0.00 is exported as an empty cell. |
| Exporter.HeaderUpdatesPrefix | src/exporter.py:39-40 | After the first k `update_cell` calls, row 1 starts with the first k headers and keeps its other cells, and no other row changes. |
| Exporter.HeaderUpdatesIdle | src/exporter.py:39-40 | On a row 1 that already starts with the headers, the updates change nothing. |
| Exporter.HeadersReconciled | src/exporter.py:34-40 | With a non-empty row 1, the first six cells of row 1 become the headers afterwards, no other row changes, and reconciling again changes nothing (idempotence). |
| Exporter.HeadersOnEmptySheet | src/exporter.py:34-36 | An empty worksheet gets the header row appended once, after which the headers stand in row 1 and no further header write is issued. |
| Exporter.HeadersRewrittenOnLongerRow | src/exporter.py:34-40 | A row 1 that starts with the headers but has more cells gets the six updates on every export, and they leave the worksheet unchanged. |
| Exporter.HeadersRepeatOnBlankFirstRow | src/exporter.py:34-36 | A blank row 1 with rows below gets the headers appended at the end, and the next reconciliation issues the same append again. |
| Exporter.BatchesPrefix | src/exporter.py:82-84 | The first k batches joined are the first 100·k rows, or all rows when there are fewer. |
| Exporter.BatchesShape | src/exporter.py:82-84 | There are n/100 rounded up batches, none for no rows. Each holds 1 to 100 rows, all but the last exactly 100. Batch k starts at row 100·k, and joined the batches are the rows. |
| Exporter.ApplyBatchWrites | src/exporter.py:82-84 | Appending the first k batches appends their rows, in order. |
| Exporter.ExportAppendsFormattedRows | src/exporter.py:71-84 | When every request is accepted, an export reconciles the headers and then appends exactly the formatted rows, with one `append_rows` per batch. |
| Exporter.SheetsExporter.constructor | src/exporter.py:10-20 | The exporter holds the worksheet (null when the spreadsheet is not found) and has exported nothing yet. |
| Exporter.SheetsExporter.FormatResults | src/exporter.py:42-62 | One row per result, in order, each the six-cell row of that result. |
| Exporter.SheetsExporter.EnsureHeaders | src/exporter.py:22-40 | Row 1 is read first, and a raising read ends the step. Then there are three cases: append the header row when row 1 is blank, rewrite six cells of a differing row 1, or do nothing. The new worksheet is what those writes leave, cut at the first that raises. `ok` tells whether the read and all the writes went through. |
| Exporter.SheetsExporter.WriteHeaderCells | src/exporter.py:39-40 | The six `update_cell` calls, in order, stopping at the first that raises. |
| Exporter.SheetsExporter.AppendBatches | src/exporter.py:82-84 | One `append_rows` per batch at offsets 0, 100, 200, ..., stopping at the first that raises. |
| Exporter.SheetsExporter.Export | src/exporter.py:64-93 | Headers, then batches. A missing spreadsheet or a raised read or write is caught, and the writes before it stand. The call is recorded once. |
| Cycle.CountIn | src/main.py:26-28 | A bucket count never exceeds the number of results. |
| Cycle.CountIsPositions | src/main.py:26-28 | A bucket count is the number of positions whose status is in that bucket. |
| Cycle.BucketsPartition | src/main.py:26-28 | Healthy, warning, error-or-worse and unknown counts add up to the number of results, so the buckets are disjoint. |
| Cycle.CountNone | src/main.py:26-28 | A bucket no result falls into counts zero. |
| Cycle.SummaryTotal | src/main.py:26-28 | The three counts plus the unknown count are the number of results. The three counts alone add up to it exactly when no result is 'unknown'. |
| Cycle.ProbedSummaryTotal | src/main.py:22-28 | For results straight from the prober, the three counts add up to the number of endpoints. |
| Cycle.ThreeEndpointCycle | src/main.py:22-28 | A fast healthy endpoint, a timeout and an HTTP 500 give healthy, timeout and error (with code 500), in that order, and the counts 1, 0 and 2. |
| Cycle.RunMonitoringCycle | src/main.py:15-43 | The cycle gives the results in endpoint order and their counts, which add up to the number of endpoints. `export` runs exactly once when there are results and never when there are none. An exporter that cannot be built, a missing sheet or a raised write leaves the results and counts as they are. |
| SimpleMonitor.ClassifySimple | src/simple_monitor.py:65-73 | A response is classified as healthy, warning, critical or error. |
| SimpleMonitor.SimpleTiers | src/simple_monitor.py:65-73 | Each tier in both directions: only code 200 is graded, at 500 and 1000 ms, and any other code is an error. |
| SimpleMonitor.ClassifiersAgreeOffOtherSuccessCodes | src/simple_monitor.py:65-73 | With the default thresholds the two classifiers agree exactly when the code is not 201..299. There the all-in-one variant says error and the modular one does not. |
| SimpleMonitor.ProbersAgree | src/simple_monitor.py:44-91 | Each prober keeps its own timestamp (UTC for the modular one, local time for this one). With the default thresholds and apart from the timestamp, the two give the same record exactly for responses with codes other than 201..299 and for other exceptions. For a timeout or a connection failure, only the message differs. |
| SimpleMonitor.SimpleResultWellFormed | src/simple_monitor.py:48-89 | The variant's records are well formed and carry its own timeout and connection messages. |
| SimpleMonitor.CheckApi | src/simple_monitor.py:44-91 | Filling the record field by field gives exactly the variant's result function. |
| SimpleMonitor.ApplyRowWrites | src/simple_monitor.py:120-129 | The first k `append_row` calls append the first k formatted rows. |
| SimpleMonitor.SaveNeverRewrites | src/simple_monitor.py:113-129 | Whatever the service accepts, a save never changes the rows already on the worksheet. |
| SimpleMonitor.SaveAppendsRows | src/simple_monitor.py:113-132 | When every request is accepted, a save appends the variant's headers if the worksheet was empty, then one six-cell row per result, in order. |
| SimpleMonitor.AppendResultRows | src/simple_monitor.py:120-129 | One `append_row` per result, in order, stopping at the first that raises. |
| SimpleMonitor.AppendSimpleHeaders | src/simple_monitor.py:113-117 | The header row is appended only to an empty worksheet. A raising `get_all_values()` writes nothing and gives false. |
| SimpleMonitor.SaveToGoogleSheets | src/simple_monitor.py:94-143 | False for a missing sheet. Otherwise the headers (empty worksheet only) and the rows are written up to the first write that raises. The result is true exactly when `get_all_values()` and every write went through, so a raising read gives false even with no results. |
| SimpleMonitor.RunSimpleMonitor | src/simple_monitor.py:154-170 | Results in endpoint order, saved once. The three counts add up to the number of endpoints and do not depend on whether the save succeeded. |

## Left out

- HTTP, the clock and `datetime` are inputs. Each probe arrives as an `Observation`: the timestamp text and how the request ended (a response with its code and elapsed milliseconds, a timeout, a connection failure, or another exception with its text). The User-Agent header and the 10-second timeout are therefore not modelled.
- Records.Round2: rounds halves up on exact reals. Python's `round` rounds the binary double half to even, so a value within floating-point error of a half hundredth may round the other way.
- Text.FixedTextRoundTrip: covers the fixed-point text Python writes while a double still holds the latency to the hundredth, up to about 10^13 ms. Beyond that, Python's shortest repr can end in a different last digit (for 10^14 + 0.01 ms it writes `...00.02`), and from 10^16 it uses exponent form. Neither is modelled.
- Floating point in general: elapsed times are exact reals, and `time.time()` drift is not modelled.
- Exporter.SheetsExporter.constructor: takes the worksheet that `client.open(self.sheet_name).sheet1` gives. The source runs that open inside every `export` (src/exporter.py:73), not in the constructor. The behaviour is the same for the single export per exporter that `run_monitoring_cycle` makes. A second export on the same exporter would reopen the spreadsheet in the source, and the model does not capture that.
- SimpleMonitor.ProbersAgree: the timestamps are inputs, so the lemma says nothing about how UTC and local stamps of the same instant relate.
- Google authentication (`ServiceAccountCredentials`, `gspread.authorize`) and `client.open`:
  - an exporter whose constructor raises is a null exporter;
  - a spreadsheet that is not found is a null worksheet;
  - every other service error is a read or write that raises once the `quota` is used up. Which request fails is decided only by that count, so a read that raises while writes would still be accepted is not modelled.
- Worksheet semantics: the grid stores exactly what was written. Google Sheets trims trailing blank cells and rows when it reads values back, and that trimming is not modelled. An append lands after the last stored row.
- `config.py` is not part of this model beyond its threshold defaults (500 and 1000 ms). The other settings are not modelled: the endpoint list, the check interval, credential loading and `get_config`'s exit when credentials are missing. The endpoints and thresholds are parameters.
- The scheduler loop of `main.py` (`schedule.every(...)`, `time.sleep`, Ctrl+C) and `cli.py` are not part of this model.
- `print` output and the per-endpoint console summary are not modelled; the counts are returned instead.
