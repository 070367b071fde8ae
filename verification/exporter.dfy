/**
 * The modular exporter: result records become six-cell rows, row 1 of the
 * worksheet is reconciled with the header row, and the rows are appended
 * in batches of at most 100.
 */
module Exporter {
  import opened Wrappers
  import opened Text
  import opened Records
  import opened Sheets

  const Headers: seq<string> :=
    ["Timestamp (UTC)", "API Endpoint", "Status", "Status Code", "Latency (ms)", "Error Message"]

  // ---------------------------------------------------------------- rows

  /** `str(status_code) if status_code else ''`: None and 0 are falsy. */
  function CodeCell(code: Option<int>): string {
    if code.Some? && code.value != 0 then IntText(code.value) else ""
  }

  /** `str(latency_ms) if latency_ms else ''`: None and 0.0 are falsy. */
  function LatencyCell(latency: Option<int>): string {
    if latency.Some? && latency.value != 0 then FixedText(latency.value) else ""
  }

  /** `error if error else ''`: None and the empty text are falsy. */
  function ErrorCell(error: Option<string>): string {
    if error.Some? then error.value else ""
  }

  /** The row one result is exported as. */
  function FormatRow(r: ProbeResult): seq<string> {
    [r.timestamp, r.url, StatusName(r.status), CodeCell(r.statusCode), LatencyCell(r.latency), ErrorCell(r.error)]
  }

  /** One row per result, in the same order. */
  function FormatAll(results: seq<ProbeResult>): Grid {
    seq(|results|, i requires 0 <= i < |results| => FormatRow(results[i]))
  }

  /** A row has six cells, and a cell is empty exactly when its field is None or falsy. */
  lemma FormatRowCells(r: ProbeResult)
    ensures var row := FormatRow(r);
      && |row| == 6
      && row[0] == r.timestamp && row[1] == r.url && row[2] == StatusName(r.status)
      && (row[3] == "" <==> r.statusCode == None || r.statusCode == Some(0))
      && (row[4] == "" <==> r.latency == None || r.latency == Some(0))
      && (row[5] == "" <==> r.error == None || r.error == Some(""))
  {
  }

  /** What survives export: the falsy values become None. */
  function Exported(r: ProbeResult): ProbeResult {
    r.(statusCode := if r.statusCode == Some(0) then None else r.statusCode,
       latency := if r.latency == Some(0) then None else r.latency,
       error := if r.error == Some("") then None else r.error)
  }

  /** An optional number cell read back: empty is None; other text must parse. */
  function ParseCell(cell: string, parse: string -> Option<int>): Option<Option<int>> {
    if cell == "" then Some(None)
    else match parse(cell)
      case Some(v) => Some(Some(v))
      case None => None
  }

  /** The record a six-cell row describes, when it is one `FormatRow` could have written. */
  function UnformatRow(row: seq<string>): Option<ProbeResult> {
    if |row| != 6 then None
    else match (ParseStatus(row[2]), ParseCell(row[3], ParseInt), ParseCell(row[4], ParseFixed))
      case (Some(status), Some(code), Some(latency)) =>
        Some(ProbeResult(row[0], row[1], status, code, latency, if row[5] == "" then None else Some(row[5])))
      case _ => None
  }

  /** Reading an exported row back gives the record with its falsy values dropped. */
  lemma RowRoundTrip(r: ProbeResult)
    ensures UnformatRow(FormatRow(r)) == Some(Exported(r))
  {
    var row := FormatRow(r);
    FormatRowCells(r);
    assert ParseStatus(row[2]) == Some(r.status);
    if r.statusCode.Some? && r.statusCode.value != 0 {
      IntTextRoundTrip(r.statusCode.value);
    }
    if r.latency.Some? && r.latency.value != 0 {
      FixedTextRoundTrip(r.latency.value);
    }
  }

  /** A record without falsy values is read back exactly. */
  lemma ExactRoundTrip(r: ProbeResult)
    requires r.statusCode != Some(0) && r.latency != Some(0) && r.error != Some("")
    ensures UnformatRow(FormatRow(r)) == Some(r)
  {
    RowRoundTrip(r);
  }

  /** A response whose latency rounds to 0.00 ms is exported with an empty latency cell. */
  lemma ZeroLatencyExportsEmpty(r: ProbeResult)
    requires r.latency == Some(0)
    ensures FormatRow(r)[4] == ""
  {
  }

  // ---------------------------------------------------------------- headers

  /** The six `update_cell` requests that overwrite cells 1..6 of row 1. */
  const HeaderUpdates: seq<Write> := [
    Write.UpdateCell(1, 1, Headers[0]), Write.UpdateCell(1, 2, Headers[1]), Write.UpdateCell(1, 3, Headers[2]),
    Write.UpdateCell(1, 4, Headers[3]), Write.UpdateCell(1, 5, Headers[4]), Write.UpdateCell(1, 6, Headers[5])]

  /** The writes `_ensure_headers` issues, given the cells of row 1. */
  function HeaderWrites(row1: seq<string>): seq<Write> {
    if row1 == [] then [Write.AppendRow(Headers)]
    else if row1 != Headers then HeaderUpdates
    else []
  }

  lemma HeaderUpdateAt(i: nat)
    requires i < 6
    ensures HeaderUpdates[i] == Write.UpdateCell(1, i + 1, Headers[i])
  {
  }

  /** Setting a cell of row 1 keeps the other rows and changes only that cell of row 1, growing it if needed. */
  lemma SetCellInRow1(g: Grid, c: Index1, v: string)
    requires |g| >= 1
    ensures var g' := SetCell(g, 1, c, v);
      && |g'| == |g| && g'[1..] == g[1..]
      && g'[0] == Padded(g[0], c, "")[c - 1 := v]
  {
    assert Padded(g, 1, []) == g;
  }

  /** The cells of row 1 after the first k header updates, given row 1 before them. */
  predicate HeaderPrefixWritten(before: seq<string>, after: seq<string>, k: nat)
    requires k <= 6
  {
    && |after| == (if |before| < k then k else |before|)
    && (forall j :: 0 <= j < k ==> after[j] == Headers[j])
    && (forall j :: k <= j < |before| ==> after[j] == before[j])
  }

  /** After the first k header updates on a grid with a row 1, row 1 begins with k headers and keeps its other cells; no other row changes. */
  lemma {:induction false} HeaderUpdatesPrefix(g: Grid, k: nat)
    requires |g| >= 1 && k <= 6
    ensures var g' := ApplyAll(g, HeaderUpdates[..k]);
      |g'| == |g| && g'[1..] == g[1..] && HeaderPrefixWritten(g[0], g'[0], k)
  {
    if k > 0 {
      HeaderUpdatesPrefix(g, k - 1);
      var prev := ApplyAll(g, HeaderUpdates[..k - 1]);
      SliceSnoc(HeaderUpdates, k);
      ApplyAllSnoc(g, HeaderUpdates[..k - 1], HeaderUpdates[k - 1]);
      HeaderUpdateAt(k - 1);
      SetCellInRow1(prev, k, Headers[k - 1]);
      HeaderPrefixStep(g[0], prev[0], k);
    }
  }

  /** One more header update extends the written prefix of row 1 by one cell. */
  lemma HeaderPrefixStep(before: seq<string>, row: seq<string>, k: nat)
    requires 0 < k <= 6 && HeaderPrefixWritten(before, row, k - 1)
    ensures HeaderPrefixWritten(before, Padded(row, k, "")[k - 1 := Headers[k - 1]], k)
  {
  }

  /** Setting a cell to the value it already holds changes nothing. */
  lemma SetSameCell(g: Grid, r: Index1, c: Index1, v: string)
    requires r <= |g| && c <= |g[r - 1]| && g[r - 1][c - 1] == v
    ensures SetCell(g, r, c, v) == g
  {
    assert Padded(g, r, []) == g;
    assert Padded(g[r - 1], c, "") == g[r - 1];
    assert g[r - 1][c - 1 := v] == g[r - 1];
  }

  /** On a grid whose row 1 already starts with the headers, the header updates change nothing. */
  lemma {:induction false} HeaderUpdatesIdle(g: Grid, k: nat)
    requires |g| >= 1 && |g[0]| >= 6 && g[0][..6] == Headers && k <= 6
    ensures ApplyAll(g, HeaderUpdates[..k]) == g
  {
    if k > 0 {
      HeaderUpdatesIdle(g, k - 1);
      assert HeaderUpdates[..k] == HeaderUpdates[..k - 1] + [HeaderUpdates[k - 1]];
      ApplyAllSnoc(g, HeaderUpdates[..k - 1], HeaderUpdates[k - 1]);
      HeaderUpdateAt(k - 1);
      assert g[0][k - 1] == g[0][..6][k - 1];
      SetSameCell(g, 1, k, Headers[k - 1]);
    }
  }

  /**
   * With a non-empty row 1: afterwards its first six cells are the
   * headers, no other row changes, and reconciling again changes nothing.
   */
  lemma HeadersReconciled(g: Grid)
    requires RowOf(g, 1) != []
    ensures var g' := ApplyAll(g, HeaderWrites(RowOf(g, 1)));
      && |g'| == |g| && |g'[0]| >= 6 && g'[0][..6] == Headers
      && (forall j :: 1 <= j < |g| ==> g'[j] == g[j])
      && ApplyAll(g', HeaderWrites(RowOf(g', 1))) == g'
  {
    var g' := ApplyAll(g, HeaderWrites(RowOf(g, 1)));
    if g[0] == Headers {
      assert g' == g;
    } else {
      HeaderUpdatesPrefix(g, 6);
      assert HeaderUpdates[..6] == HeaderUpdates;
      assert g'[0][..6] == Headers;
      forall j | 1 <= j < |g| ensures g'[j] == g[j] {
        assert g'[1..][j - 1] == g[1..][j - 1];
      }
    }
    if g'[0] != Headers {
      HeaderUpdatesIdle(g', 6);
      assert HeaderUpdates[..6] == HeaderUpdates;
    }
  }

  /** On an empty worksheet the headers are appended once, and they then stand in row 1. */
  lemma HeadersOnEmptySheet()
    ensures ApplyAll([], HeaderWrites(RowOf([], 1))) == [Headers]
    ensures HeaderWrites(RowOf([Headers], 1)) == []
  {
    assert [Write.AppendRow(Headers)][..0] == [];
  }

  /**
   * A row 1 that starts with the headers but has more cells differs from
   * them, so every reconciliation issues the six updates again.
   */
  lemma HeadersRewrittenOnLongerRow(g: Grid)
    requires |g| >= 1 && |g[0]| > 6 && g[0][..6] == Headers
    ensures HeaderWrites(RowOf(g, 1)) == HeaderUpdates && |HeaderUpdates| == 6
    ensures ApplyAll(g, HeaderWrites(RowOf(g, 1))) == g
  {
    assert g[0] != Headers;
    HeaderUpdatesIdle(g, 6);
    assert HeaderUpdates[..6] == HeaderUpdates;
  }

  /**
   * A worksheet whose row 1 is blank but which has rows below gets the
   * headers appended at its end, so row 1 stays blank and every later
   * reconciliation appends them again.
   */
  lemma HeadersRepeatOnBlankFirstRow(g: Grid)
    requires |g| >= 2 && g[0] == []
    ensures ApplyAll(g, HeaderWrites(RowOf(g, 1))) == g + [Headers]
    ensures HeaderWrites(RowOf(g + [Headers], 1)) == HeaderWrites(RowOf(g, 1))
  {
    assert [Write.AppendRow(Headers)][..0] == [];
  }

  // ---------------------------------------------------------------- batches

  function Min(a: int, b: int): int {
    if a < b then a else b
  }

  /** The number of batches `range(0, n, 100)` gives: n / 100 rounded up. */
  function NumBatches(n: nat): nat {
    (n + 99) / 100
  }

  /** `rows[i:i+100]` for i = 0, 100, 200, ... below `|rows|`. */
  function Batches(rows: Grid): seq<Grid> {
    seq(NumBatches(|rows|), k requires 0 <= k < NumBatches(|rows|) =>
      rows[100 * k .. Min(100 * k + 100, |rows|)])
  }

  /** The batch the loop takes at offset i = 100 * k is the k-th one. */
  lemma BatchAt(rows: Grid, i: nat, k: nat)
    requires i == 100 * k && i < |rows|
    ensures k < |Batches(rows)| && Batches(rows)[k] == rows[i .. Min(i + 100, |rows|)]
  {
  }

  /** The loop stops at the first offset 100 * k at or past the end: after NumBatches(n) batches. */
  lemma BatchesDone(n: nat, k: nat)
    requires 100 * k >= n && (k == 0 || 100 * k < n + 100)
    ensures k == NumBatches(n)
  {
  }

  /** The batches joined end to end. */
  function Flatten(bs: seq<Grid>): Grid {
    if bs == [] then [] else Flatten(bs[..|bs| - 1]) + bs[|bs| - 1]
  }

  lemma {:induction false} BatchesPrefix(rows: Grid, k: nat)
    requires k <= NumBatches(|rows|)
    ensures Flatten(Batches(rows)[..k]) == rows[..Min(100 * k, |rows|)]
  {
    if k > 0 {
      var bs := Batches(rows);
      assert bs[..k][..k - 1] == bs[..k - 1];
      BatchesPrefix(rows, k - 1);
    }
  }

  /**
   * Batches start at 0, 100, 200, ...: there are n / 100 rounded up of
   * them, none when there are no rows, each holds 1 to 100 rows, all but
   * the last exactly 100, and joined they are the rows.
   */
  lemma BatchesShape(rows: Grid)
    ensures var bs := Batches(rows);
      && |bs| == NumBatches(|rows|)
      && (bs == [] <==> rows == [])
      && (forall k :: 0 <= k < |bs| ==> 1 <= |bs[k]| <= 100)
      && (forall k :: 0 <= k < |bs| - 1 ==> |bs[k]| == 100)
      && (forall k :: 0 <= k < |bs| ==> bs[k] == rows[100 * k .. 100 * k + |bs[k]|])
      && Flatten(bs) == rows
  {
    BatchesPrefix(rows, NumBatches(|rows|));
    assert Batches(rows)[..NumBatches(|rows|)] == Batches(rows);
  }

  /** One `append_rows` request per batch. */
  function BatchWrites(bs: seq<Grid>): seq<Write> {
    seq(|bs|, i requires 0 <= i < |bs| => Write.AppendRows(bs[i]))
  }

  lemma {:induction false} ApplyBatchWrites(g: Grid, bs: seq<Grid>, k: nat)
    requires k <= |bs|
    ensures ApplyAll(g, BatchWrites(bs)[..k]) == g + Flatten(bs[..k])
  {
    if k > 0 {
      ApplyBatchWrites(g, bs, k - 1);
      var ws := BatchWrites(bs);
      assert ws[..k] == ws[..k - 1] + [ws[k - 1]];
      ApplyAllSnoc(g, ws[..k - 1], ws[k - 1]);
      assert bs[..k][..k - 1] == bs[..k - 1];
    }
  }

  /** Every write `export` issues on a worksheet that starts as `g`, in order. */
  function ExportPlan(g: Grid, results: seq<ProbeResult>): seq<Write> {
    HeaderWrites(RowOf(g, 1)) + BatchWrites(Batches(FormatAll(results)))
  }

  /**
   * When the service accepts every request, an export reconciles the
   * headers and then appends exactly the formatted rows, with one
   * `append_rows` per batch: none for no results.
   */
  lemma ExportAppendsFormattedRows(g: Grid, results: seq<ProbeResult>, quota: nat)
    requires quota >= |ExportPlan(g, results)|
    ensures ApplyAll(g, Take(ExportPlan(g, results), quota))
         == ApplyAll(g, HeaderWrites(RowOf(g, 1))) + FormatAll(results)
    ensures |ExportPlan(g, results)| == |HeaderWrites(RowOf(g, 1))| + NumBatches(|results|)
    ensures results == [] ==> ExportPlan(g, results) == HeaderWrites(RowOf(g, 1))
  {
    var hw := HeaderWrites(RowOf(g, 1));
    var bs := Batches(FormatAll(results));
    ApplyAllAppend(g, hw, BatchWrites(bs));
    ApplyBatchWrites(ApplyAll(g, hw), bs, |bs|);
    assert BatchWrites(bs)[..|bs|] == BatchWrites(bs);
    assert bs[..|bs|] == bs;
    BatchesShape(FormatAll(results));
    if results == [] {
      assert BatchWrites(bs) == [];
    }
  }

  // ---------------------------------------------------------------- exporter

  /** The source's GoogleSheetsExporter. */
  class SheetsExporter {
    /** The worksheet `client.open(sheet_name).sheet1` gives; null when the spreadsheet is not found. */
    const sheet: Worksheet?
    /** The result batches `export` has been called with, oldest first. */
    ghost var exported: seq<seq<ProbeResult>>

    constructor(sheet: Worksheet?)
      ensures this.sheet == sheet && exported == []
    {
      this.sheet := sheet;
      exported := [];
    }

    /** Rows for the results, one per result, in order. */
    method FormatResults(results: seq<ProbeResult>) returns (rows: Grid)
      ensures |rows| == |results|
      ensures forall i :: 0 <= i < |results| ==> rows[i] == FormatRow(results[i])
      ensures rows == FormatAll(results)
    {
      rows := [];
      for i := 0 to |results|
        invariant |rows| == i
        invariant forall j :: 0 <= j < i ==> rows[j] == FormatRow(results[j])
      {
        rows := rows + [[results[i].timestamp, results[i].url, StatusName(results[i].status),
                         CodeCell(results[i].statusCode), LatencyCell(results[i].latency),
                         ErrorCell(results[i].error)]];
      }
    }

    /**
     * Reconciles row 1 with the headers. `ok` is false when the read of
     * row 1 or a write raised; the writes before it have taken effect.
     */
    method EnsureHeaders(ws: Worksheet) returns (ok: bool)
      modifies ws
      ensures var plan := HeaderWrites(RowOf(old(ws.rows), 1));
        && ok == (old(ws.quota) > 0 && |plan| <= old(ws.quota))
        && ws.rows == ApplyAll(old(ws.rows), Take(plan, old(ws.quota)))
        && ws.log == old(ws.log) + Take(plan, old(ws.quota))
        && ws.quota == old(ws.quota) - |Take(plan, old(ws.quota))|
    {
      var existing;
      ok, existing := ws.RowValues(1);
      if !ok {
        return;
      }
      if existing == [] {
        ok := ws.AppendRow(Headers);
        assert [Write.AppendRow(Headers)][..0] == [];
      } else if existing != Headers {
        ok := WriteHeaderCells(ws);
      } else {
        ok := true;
      }
    }

    /** The loop of `_ensure_headers` that writes the six headers into row 1, cell by cell; `ok` is false when an update raised, which ends it. */
    method WriteHeaderCells(ws: Worksheet) returns (ok: bool)
      modifies ws
      ensures ok == (6 <= old(ws.quota))
      ensures ws.rows == ApplyAll(old(ws.rows), Take(HeaderUpdates, old(ws.quota)))
      ensures ws.log == old(ws.log) + Take(HeaderUpdates, old(ws.quota))
      ensures ws.quota == old(ws.quota) - |Take(HeaderUpdates, old(ws.quota))|
    {
      ghost var g0, log0, q0 := ws.rows, ws.log, ws.quota;
      ok := true;
      for i := 0 to 6
        invariant ok && i <= q0
        invariant ws.rows == ApplyAll(g0, HeaderUpdates[..i])
        invariant ws.log == log0 + HeaderUpdates[..i] && ws.quota == q0 - i
      {
        HeaderUpdateAt(i);
        ok := ws.UpdateCell(1, i + 1, Headers[i]);
        if !ok {
          assert Take(HeaderUpdates, q0) == HeaderUpdates[..i];
          return;
        }
        SliceSnoc(HeaderUpdates, i + 1);
        ApplyAllSnoc(g0, HeaderUpdates[..i], HeaderUpdates[i]);
      }
      assert HeaderUpdates[..6] == HeaderUpdates == Take(HeaderUpdates, q0);
    }

    /**
     * The loop of `export` that appends `rows[i:i+100]` for i = 0, 100,
     * 200, ...; `ok` is false when an append raised, which ends the loop.
     */
    method AppendBatches(ws: Worksheet, rows: Grid) returns (ok: bool)
      modifies ws
      ensures var plan := BatchWrites(Batches(rows));
        && ok == (|plan| <= old(ws.quota))
        && ws.rows == ApplyAll(old(ws.rows), Take(plan, old(ws.quota)))
        && ws.log == old(ws.log) + Take(plan, old(ws.quota))
        && ws.quota == old(ws.quota) - |Take(plan, old(ws.quota))|
    {
      ghost var g0, log0, q0 := ws.rows, ws.log, ws.quota;
      ghost var bs := Batches(rows);
      ghost var bw := BatchWrites(bs);
      ok := true;
      var i, k := 0, 0;
      while i < |rows|
        invariant i == 100 * k && k <= |bs| && (k == 0 || i < |rows| + 100)
        invariant ok && k <= q0
        invariant ws.rows == ApplyAll(g0, bw[..k])
        invariant ws.log == log0 + bw[..k] && ws.quota == q0 - k
      {
        BatchAt(rows, i, k);
        var batch := rows[i .. Min(i + 100, |rows|)];
        ok := ws.AppendRows(batch);
        if !ok {
          assert Take(bw, q0) == bw[..k];
          return;
        }
        SliceSnoc(bw, k + 1);
        ApplyAllSnoc(g0, bw[..k], bw[k]);
        i, k := i + 100, k + 1;
      }
      BatchesDone(|rows|, k);
      assert bw[..k] == bw == Take(bw, q0);
    }

    /**
     * `export`: every exception (spreadsheet not found, a write the
     * service rejects) is caught, and the writes before it stand.
     */
    method Export(results: seq<ProbeResult>)
      modifies this, sheet
      ensures exported == old(exported) + [results]
      ensures sheet != null ==>
        var plan := ExportPlan(old(sheet.rows), results);
        && sheet.rows == ApplyAll(old(sheet.rows), Take(plan, old(sheet.quota)))
        && sheet.log == old(sheet.log) + Take(plan, old(sheet.quota))
        && sheet.quota == old(sheet.quota) - |Take(plan, old(sheet.quota))|
    {
      exported := exported + [results];
      if sheet == null {
        return;
      }
      ghost var g0, log0, q0 := sheet.rows, sheet.log, sheet.quota;
      ghost var hw := HeaderWrites(RowOf(g0, 1));
      var ok := EnsureHeaders(sheet);
      ghost var g1, log1, q1 := sheet.rows, sheet.log, sheet.quota;
      var rows := FormatResults(results);
      ghost var bw := BatchWrites(Batches(rows));
      if ok {
        ok := AppendBatches(sheet, rows);
        IssuedThen(g0, log0, q0, hw, g1, log1, q1, bw, sheet.rows, sheet.log, sheet.quota);
      } else if q0 < |hw| {
        IssuedStop(g0, log0, q0, hw, bw, g1, log1, q1);
      } else {
        IssuedNothing(g0, log0, hw + bw);
      }
    }
  }
}
