/**
 * An in-memory stand-in for the worksheet the exporters write to: a grid of
 * text cells, the three write requests the source issues, and a log of the
 * writes that took effect. `quota` is how many more write requests the
 * service accepts; a request made with none left raises (here: returns
 * false) and changes nothing. Reads use up no quota, but they too raise
 * once it is gone.
 */
module Sheets {

  /** A 1-based row or column number. */
  type Index1 = n: int | 1 <= n witness 1

  type Grid = seq<seq<string>>

  /** A write request: `append_row`, `append_rows`, `update_cell`. */
  datatype Write =
    | AppendRow(row: seq<string>)
    | AppendRows(batch: Grid)
    | UpdateCell(r: Index1, c: Index1, value: string)

  /** `s` extended with `fill` to at least `n` elements. */
  function Padded<T>(s: seq<T>, n: nat, fill: T): (p: seq<T>)
    ensures |p| == if |s| < n then n else |s|
    ensures p[..|s|] == s
    ensures forall i :: |s| <= i < |p| ==> p[i] == fill
  {
    if |s| >= n then s else s + seq(n - |s|, _ => fill)
  }

  /** The grid after cell (r, c) is set to `v`, growing the grid and the row as needed. */
  function SetCell(g: Grid, r: Index1, c: Index1, v: string): Grid {
    var grown := Padded(g, r, []);
    grown[r - 1 := Padded(grown[r - 1], c, "")[c - 1 := v]]
  }

  /** The effect of one write on the grid. */
  function Apply(g: Grid, w: Write): Grid {
    match w
    case AppendRow(row) => g + [row]
    case AppendRows(batch) => g + batch
    case UpdateCell(r, c, v) => SetCell(g, r, c, v)
  }

  /** The effect of a sequence of writes, in order. */
  function ApplyAll(g: Grid, ws: seq<Write>): Grid
    decreases |ws|
  {
    if ws == [] then g else Apply(ApplyAll(g, ws[..|ws| - 1]), ws[|ws| - 1])
  }

  /** The writes of `plan` that take effect when `quota` requests are left: the ones before the first that raises. */
  function Take(plan: seq<Write>, quota: nat): (done: seq<Write>)
    ensures |done| <= quota && done <= plan
    ensures |done| == |plan| || |done| == quota
  {
    if quota < |plan| then plan[..quota] else plan
  }

  /** `row_values(r)`: the cells of row r, empty for a row past the end. */
  function RowOf(g: Grid, r: Index1): seq<string> {
    if r <= |g| then g[r - 1] else []
  }

  /** A non-empty prefix is the one before it plus its last element. */
  lemma SliceSnoc<T>(s: seq<T>, k: nat)
    requires 0 < k <= |s|
    ensures s[..k] == s[..k - 1] + [s[k - 1]]
  {
  }

  lemma AppendAssoc<T>(a: seq<T>, b: seq<T>, c: seq<T>)
    ensures (a + b) + c == a + (b + c)
  {
  }

  lemma ApplyAllSnoc(g: Grid, ws: seq<Write>, w: Write)
    ensures ApplyAll(g, ws + [w]) == Apply(ApplyAll(g, ws), w)
  {
    assert (ws + [w])[..|ws|] == ws;
  }

  lemma {:induction false} ApplyAllAppend(g: Grid, a: seq<Write>, b: seq<Write>)
    ensures ApplyAll(g, a + b) == ApplyAll(ApplyAll(g, a), b)
    decreases |b|
  {
    if b == [] {
      assert a + b == a;
    } else {
      var b' := b[..|b| - 1];
      assert a + b == (a + b') + [b[|b| - 1]];
      assert b == b' + [b[|b| - 1]];
      ApplyAllSnoc(g, a + b', b[|b| - 1]);
      ApplyAllAppend(g, a, b');
      ApplyAllSnoc(ApplyAll(g, a), b', b[|b| - 1]);
    }
  }

  /** A failed request stops the plan, so what takes effect of `a + b` is `a` first and then `b` within the quota left. */
  lemma TakeAppend(a: seq<Write>, b: seq<Write>, quota: nat)
    ensures Take(a + b, quota) == if quota <= |a| then Take(a, quota) else a + Take(b, quota - |a|)
  {
    if quota <= |a| {
      assert (a + b)[..quota] == a[..quota];
    } else if quota < |a| + |b| {
      assert (a + b)[..quota] == a + b[..quota - |a|];
    }
  }

  /** What takes effect of a plan `a + b`, and the grid it leaves, when `quota` requests are left. */
  lemma TakeThenApply(g: Grid, a: seq<Write>, b: seq<Write>, quota: nat)
    ensures quota < |a| ==> Take(a + b, quota) == Take(a, quota)
    ensures quota >= |a| ==>
      && Take(a + b, quota) == a + Take(b, quota - |a|)
      && ApplyAll(g, Take(a + b, quota)) == ApplyAll(ApplyAll(g, a), Take(b, quota - |a|))
  {
    TakeAppend(a, b, quota);
    if quota >= |a| {
      ApplyAllAppend(g, a, Take(b, quota - |a|));
    }
  }

  /**
   * (g, log, q) is the state that issuing `plan` from (g0, log0, q0)
   * leaves: the writes the quota allows take effect in order and are logged.
   */
  ghost predicate Issued(g0: Grid, log0: seq<Write>, q0: nat, plan: seq<Write>, g: Grid, log: seq<Write>, q: nat) {
    var done := Take(plan, q0);
    g == ApplyAll(g0, done) && log == log0 + done && q == q0 - |done|
  }

  /** Issuing `a` in full and then `b` is issuing `a + b`. */
  lemma IssuedThen(g0: Grid, log0: seq<Write>, q0: nat, a: seq<Write>, g1: Grid, log1: seq<Write>, q1: nat,
                   b: seq<Write>, g2: Grid, log2: seq<Write>, q2: nat)
    requires |a| <= q0 && Issued(g0, log0, q0, a, g1, log1, q1)
    requires Issued(g1, log1, q1, b, g2, log2, q2)
    ensures q1 == q0 - |a|
    ensures Issued(g0, log0, q0, a + b, g2, log2, q2)
  {
    assert Take(a, q0) == a;
    var done := Take(b, q1);
    TakeThenApply(g0, a, b, q0);
    assert Take(a + b, q0) == a + done;
    AppendAssoc(log0, a, done);
  }

  /** When `a` runs out of quota, nothing of `b` is issued. */
  lemma IssuedStop(g0: Grid, log0: seq<Write>, q0: nat, a: seq<Write>, b: seq<Write>, g1: Grid, log1: seq<Write>, q1: nat)
    requires q0 < |a| && Issued(g0, log0, q0, a, g1, log1, q1)
    ensures Issued(g0, log0, q0, a + b, g1, log1, q1)
  {
    TakeThenApply(g0, a, b, q0);
  }

  /** With no quota left, nothing of a plan is issued. */
  lemma IssuedNothing(g0: Grid, log0: seq<Write>, plan: seq<Write>)
    ensures Issued(g0, log0, 0, plan, g0, log0, 0)
  {
    assert Take(plan, 0) == [];
  }

  /** Appending rows never changes the rows already there. */
  lemma {:induction false} AppendsKeepRows(g: Grid, ws: seq<Write>)
    requires forall i :: 0 <= i < |ws| ==> !ws[i].UpdateCell?
    ensures |ApplyAll(g, ws)| >= |g| && ApplyAll(g, ws)[..|g|] == g
  {
    if ws != [] {
      AppendsKeepRows(g, ws[..|ws| - 1]);
      var prev := ApplyAll(g, ws[..|ws| - 1]);
      assert ApplyAll(g, ws)[..|prev|] == prev;
      assert prev[..|g|] == g;
    }
  }

  class Worksheet {
    var rows: Grid
    var quota: nat
    ghost var log: seq<Write>

    constructor(rows: Grid, quota: nat)
      ensures this.rows == rows && this.quota == quota && log == []
    {
      this.rows := rows;
      this.quota := quota;
      log := [];
    }

    /**
     * `row_values(r)`: the cells of row r. A read uses up no quota, but once
     * the quota is gone the service refuses reads too, and the read raises
     * (here: returns false).
     */
    method RowValues(r: Index1) returns (ok: bool, values: seq<string>)
      ensures ok == (quota > 0)
      ensures ok ==> values == RowOf(rows, r)
      ensures !ok ==> values == []
    {
      ok := quota > 0;
      values := if ok then RowOf(rows, r) else [];
    }

    /** `get_all_values()`: the whole grid, raising like `RowValues` once the quota is gone. */
    method GetAllValues() returns (ok: bool, values: Grid)
      ensures ok == (quota > 0)
      ensures ok ==> values == rows
      ensures !ok ==> values == []
    {
      ok := quota > 0;
      values := if ok then rows else [];
    }

    /** Issues one write request: it takes effect and uses up one request of the quota, or raises when none is left. */
    method Perform(w: Write) returns (ok: bool)
      modifies this
      ensures ok == (old(quota) > 0)
      ensures ok ==> rows == Apply(old(rows), w) && log == old(log) + [w] && quota == old(quota) - 1
      ensures !ok ==> rows == old(rows) && log == old(log) && quota == old(quota)
    {
      ok := quota > 0;
      if ok {
        rows := Apply(rows, w);
        log := log + [w];
        quota := quota - 1;
      }
    }

    method AppendRow(row: seq<string>) returns (ok: bool)
      modifies this
      ensures ok == (old(quota) > 0)
      ensures ok ==> rows == old(rows) + [row] && log == old(log) + [Write.AppendRow(row)] && quota == old(quota) - 1
      ensures !ok ==> rows == old(rows) && log == old(log) && quota == old(quota)
    {
      ok := Perform(Write.AppendRow(row));
    }

    method AppendRows(batch: Grid) returns (ok: bool)
      modifies this
      ensures ok == (old(quota) > 0)
      ensures ok ==> rows == old(rows) + batch && log == old(log) + [Write.AppendRows(batch)] && quota == old(quota) - 1
      ensures !ok ==> rows == old(rows) && log == old(log) && quota == old(quota)
    {
      ok := Perform(Write.AppendRows(batch));
    }

    method UpdateCell(r: Index1, c: Index1, value: string) returns (ok: bool)
      modifies this
      ensures ok == (old(quota) > 0)
      ensures ok ==> rows == SetCell(old(rows), r, c, value) && log == old(log) + [Write.UpdateCell(r, c, value)]
                     && quota == old(quota) - 1
      ensures !ok ==> rows == old(rows) && log == old(log) && quota == old(quota)
    {
      ok := Perform(Write.UpdateCell(r, c, value));
    }
  }
}
