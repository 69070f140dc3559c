/**
 * The per-engine column transforms of the feature stage, each taking one sensor
 * column and the engine-id column to a new column of the same length:
 * `diff()`, `shift(k)` followed by a within-engine back-fill, and trailing
 * `rolling(window=w, min_periods=1)` minimum and maximum. Each has a
 * specification function and a method that computes it with one pass over
 * arrays, keeping per engine the rows seen so far (what `groupby` provides).
 * Sensor values are finite reals here; real arithmetic stands in for floats.
 */
module SequenceTransforms {
  import opened Wrappers
  import opened Cells
  import opened EngineGroups

  // ---------------------------------------------------------------- helpers

  /** Every listed row is a row of x. */
  predicate RowsWithin(rows: seq<nat>, n: nat) {
    forall t :: 0 <= t < |rows| ==> rows[t] < n
  }

  /** The smallest of x's values at the listed rows. */
  function MinOver(x: seq<real>, rows: seq<nat>): real
    requires |rows| > 0 && RowsWithin(rows, |x|)
  {
    var v := x[rows[|rows| - 1]];
    if |rows| == 1 then v
    else
      var m := MinOver(x, rows[..|rows| - 1]);
      if v < m then v else m
  }

  /** The largest of x's values at the listed rows. */
  function MaxOver(x: seq<real>, rows: seq<nat>): real
    requires |rows| > 0 && RowsWithin(rows, |x|)
  {
    var v := x[rows[|rows| - 1]];
    if |rows| == 1 then v
    else
      var m := MaxOver(x, rows[..|rows| - 1]);
      if v > m then v else m
  }

  /** MinOver is a lower bound of the listed values and is one of them. */
  lemma {:induction false} MinOverIsMin(x: seq<real>, rows: seq<nat>)
    requires |rows| > 0 && RowsWithin(rows, |x|)
    ensures forall t :: 0 <= t < |rows| ==> MinOver(x, rows) <= x[rows[t]]
    ensures exists t :: 0 <= t < |rows| && MinOver(x, rows) == x[rows[t]]
  {
    if |rows| > 1 {
      var p := rows[..|rows| - 1];
      MinOverIsMin(x, p);
      var u :| 0 <= u < |p| && MinOver(x, p) == x[p[u]];
      if x[rows[|rows| - 1]] >= MinOver(x, p) {
        assert MinOver(x, rows) == x[rows[u]];
      } else {
        assert MinOver(x, rows) == x[rows[|rows| - 1]];
      }
    } else {
      assert MinOver(x, rows) == x[rows[0]];
    }
  }

  /** MaxOver is an upper bound of the listed values and is one of them. */
  lemma {:induction false} MaxOverIsMax(x: seq<real>, rows: seq<nat>)
    requires |rows| > 0 && RowsWithin(rows, |x|)
    ensures forall t :: 0 <= t < |rows| ==> x[rows[t]] <= MaxOver(x, rows)
    ensures exists t :: 0 <= t < |rows| && MaxOver(x, rows) == x[rows[t]]
  {
    if |rows| > 1 {
      var p := rows[..|rows| - 1];
      MaxOverIsMax(x, p);
      var u :| 0 <= u < |p| && MaxOver(x, p) == x[p[u]];
      if x[rows[|rows| - 1]] <= MaxOver(x, p) {
        assert MaxOver(x, rows) == x[rows[u]];
      } else {
        assert MaxOver(x, rows) == x[rows[|rows| - 1]];
      }
    } else {
      assert MaxOver(x, rows) == x[rows[0]];
    }
  }

  /** Finite cells of the given values. */
  function AsCells(s: seq<real>): seq<Num> {
    seq(|s|, i requires 0 <= i < |s| => Finite(s[i]))
  }

  /** `fillna(v)` on a column. */
  function FillNaN(c: seq<Num>, v: real): seq<Num> {
    seq(|c|, i requires 0 <= i < |c| => FillMissing(c[i], v))
  }

  /** `clip(upper=u)` on a column. */
  function ClipColumn(c: seq<Num>, u: real): seq<Num> {
    seq(|c|, i requires 0 <= i < |c| => ClipUpper(c[i], u))
  }

  // ------------------------------------------------------- specifications

  /** `groupby(engine)[s].diff()`: change since the previous same-engine row, NaN at an engine's first row. */
  function Diff(x: seq<real>, ids: seq<int>): seq<Num>
    requires |x| == |ids|
  {
    seq(|x|, i requires 0 <= i < |x| => DiffAt(x, ids, i))
  }

  function DiffAt(x: seq<real>, ids: seq<int>, i: nat): Num
    requires |x| == |ids| && i < |x|
  {
    match Previous(ids, i)
    case None => NaN
    case Some(j) => Finite(x[i] - x[j])
  }

  /** `groupby(engine)[s].shift(k)`: the value k same-engine rows earlier, NaN where there is none. */
  function Shift(x: seq<real>, ids: seq<int>, k: nat): seq<Num>
    requires |x| == |ids|
  {
    seq(|x|, i requires 0 <= i < |x| => ShiftAt(x, ids, k, i))
  }

  function ShiftAt(x: seq<real>, ids: seq<int>, k: nat, i: nat): Num
    requires |x| == |ids| && i < |x|
  {
    match LagSource(ids, i, k)
    case None => NaN
    case Some(j) => Finite(x[j])
  }

  /** The first non-NaN cell of engine e at row j or later, NaN if there is none. */
  function NextValid(c: seq<Num>, ids: seq<int>, e: int, j: nat): Num
    requires |c| == |ids|
    decreases |c| - j
  {
    if j >= |c| then NaN
    else if ids[j] == e && !c[j].NaN? then c[j]
    else NextValid(c, ids, e, j + 1)
  }

  /** `groupby(engine)[col].fillna(method='bfill')`: each NaN takes the next non-NaN value of its engine. */
  function BackFill(c: seq<Num>, ids: seq<int>): seq<Num>
    requires |c| == |ids|
  {
    seq(|c|, i requires 0 <= i < |c| => NextValid(c, ids, ids[i], i))
  }

  /** A lag feature: shifted, then back-filled within the engine. */
  function Lag(x: seq<real>, ids: seq<int>, k: nat): seq<Num>
    requires |x| == |ids|
  {
    BackFill(Shift(x, ids, k), ids)
  }

  function RollingMin(x: seq<real>, ids: seq<int>, w: nat): seq<real>
    requires |x| == |ids| && 1 <= w
  {
    seq(|x|, i requires 0 <= i < |x| => RollingMinAt(x, ids, w, i))
  }

  function RollingMax(x: seq<real>, ids: seq<int>, w: nat): seq<real>
    requires |x| == |ids| && 1 <= w
  {
    seq(|x|, i requires 0 <= i < |x| => RollingMaxAt(x, ids, w, i))
  }

  /** `rolling(window=w, min_periods=1).min()` at row i, within i's engine. */
  function RollingMinAt(x: seq<real>, ids: seq<int>, w: nat, i: nat): real
    requires |x| == |ids| && 1 <= w && i < |x|
  {
    MinOver(x, Window(ids, i, w))
  }

  /** `rolling(window=w, min_periods=1).max()` at row i, within i's engine. */
  function RollingMaxAt(x: seq<real>, ids: seq<int>, w: nat, i: nat): real
    requires |x| == |ids| && 1 <= w && i < |x|
  {
    MaxOver(x, Window(ids, i, w))
  }

  // ---------------------------------------------------- one-pass computations

  /** A prefix one longer is the prefix with the next element appended. */
  lemma Extends<T>(s: seq<T>, i: nat)
    requires i < |s|
    ensures s[..i + 1] == s[..i] + [s[i]]
  {
  }

  /** `groupby(engine)[s].diff()` in one pass. */
  method DiffColumn(x: array<real>, ids: array<int>) returns (d: seq<Num>)
    requires x.Length == ids.Length
    ensures d == Diff(x[..], ids[..])
  {
    ghost var xs, es := x[..], ids[..];
    d := [];
    var seen: map<int, seq<nat>> := map[];
    for i := 0 to x.Length
      invariant seen == SeenMap(es, i)
      invariant d == Diff(xs, es)[..i]
    {
      var e := ids[i];
      var h := SeenRows(seen, e) + [i];
      StepHistory(es, i, seen, h);
      var v := if |h| >= 2 then Finite(x[i] - x[h[|h| - 2]]) else NaN;
      StepDiff(xs, es, i, h, v);
      Extends(Diff(xs, es), i);
      d := d + [v];
      seen := seen[e := h];
    }
    assert Diff(xs, es)[..x.Length] == Diff(xs, es);
  }


  /** `groupby(engine)[s].shift(k)` in one pass. */
  method ShiftColumn(x: array<real>, ids: array<int>, k: nat) returns (s: seq<Num>)
    requires x.Length == ids.Length
    ensures s == Shift(x[..], ids[..], k)
  {
    ghost var xs, es := x[..], ids[..];
    s := [];
    var seen: map<int, seq<nat>> := map[];
    for i := 0 to x.Length
      invariant seen == SeenMap(es, i)
      invariant s == Shift(xs, es, k)[..i]
    {
      var e := ids[i];
      var h := SeenRows(seen, e) + [i];
      StepHistory(es, i, seen, h);
      var v := if |h| - 1 >= k then Finite(x[h[|h| - 1 - k]]) else NaN;
      StepShift(xs, es, k, i, h, v);
      Extends(Shift(xs, es, k), i);
      s := s + [v];
      seen := seen[e := h];
    }
    assert Shift(xs, es, k)[..x.Length] == Shift(xs, es, k);
  }

  /** `groupby(engine)[col].fillna(method='bfill')` in one backward pass, keeping per engine the next non-NaN cell. */
  method BackFillColumn(c: array<Num>, ids: array<int>) returns (b: array<Num>)
    requires c.Length == ids.Length
    ensures b[..] == BackFill(c[..], ids[..])
  {
    ghost var cs, es := c[..], ids[..];
    b := new Num[c.Length];
    var next: map<int, Num> := map[];
    var i := c.Length;
    while i > 0
      invariant 0 <= i <= c.Length
      invariant cs == c[..]
      invariant forall e :: e in next ==> next[e] == NextValid(cs, es, e, i)
      invariant forall e :: e !in next ==> NextValid(cs, es, e, i) == NaN
      invariant forall t :: i <= t < c.Length ==> b[t] == BackFill(cs, es)[t]
    {
      i := i - 1;
      if !c[i].NaN? {
        next := next[ids[i] := c[i]];
      }
      b[i] := if ids[i] in next then next[ids[i]] else NaN;
    }
  }

  /** Minimum of x over the listed rows, one row at a time. */
  method WindowMin(x: seq<real>, rows: seq<nat>) returns (m: real)
    requires |rows| > 0 && RowsWithin(rows, |x|)
    ensures m == MinOver(x, rows)
  {
    m := x[rows[0]];
    for u := 1 to |rows|
      invariant m == MinOver(x, rows[..u])
    {
      assert rows[..u + 1][..u] == rows[..u];
      var v := x[rows[u]];
      if v < m {
        m := v;
      }
    }
    assert rows[..|rows|] == rows;
  }

  /** Maximum of x over the listed rows, one row at a time. */
  method WindowMax(x: seq<real>, rows: seq<nat>) returns (m: real)
    requires |rows| > 0 && RowsWithin(rows, |x|)
    ensures m == MaxOver(x, rows)
  {
    m := x[rows[0]];
    for u := 1 to |rows|
      invariant m == MaxOver(x, rows[..u])
    {
      assert rows[..u + 1][..u] == rows[..u];
      var v := x[rows[u]];
      if v > m {
        m := v;
      }
    }
    assert rows[..|rows|] == rows;
  }

  /** The pass state extended by row i holds row i's history, and is the state after row i. */
  lemma StepHistory(es: seq<int>, i: nat, seen: map<int, seq<nat>>, h: seq<nat>)
    requires i < |es| && seen == SeenMap(es, i)
    requires h == SeenRows(seen, es[i]) + [i]
    ensures h == History(es, i)
    ensures seen[es[i] := h] == SeenMap(es, i + 1)
  {
    SeenMapRows(es, i, es[i]);
  }

  /** The difference computed from row i's history is the diff at row i. */
  lemma StepDiff(xs: seq<real>, es: seq<int>, i: nat, h: seq<nat>, v: Num)
    requires |xs| == |es| && i < |xs| && h == History(es, i)
    requires v == if |h| >= 2 then Finite(xs[i] - xs[h[|h| - 2]]) else NaN
    ensures v == Diff(xs, es)[i]
  {
  }

  /** The value k places back in row i's history is the shift at row i. */
  lemma StepShift(xs: seq<real>, es: seq<int>, k: nat, i: nat, h: seq<nat>, v: Num)
    requires |xs| == |es| && i < |xs| && h == History(es, i)
    requires v == if |h| - 1 >= k then Finite(xs[h[|h| - 1 - k]]) else NaN
    ensures v == Shift(xs, es, k)[i]
  {
  }

  /** The last min(w, |h|) rows of row i's history: a non-empty list of rows below |es|. */
  lemma StepWindow(es: seq<int>, i: nat, w: nat, h: seq<nat>, win: seq<nat>)
    requires i < |es| && 1 <= w && h == History(es, i)
    requires win == h[|h| - Min(w, |h|)..]
    ensures |win| > 0 && RowsWithin(win, |es|)
  {
    assert win == Window(es, i, w);
  }

  /** The smallest value over the last min(w, |h|) rows of row i's history is the rolling minimum at row i. */
  lemma StepMin(xs: seq<real>, es: seq<int>, w: nat, i: nat, h: seq<nat>, win: seq<nat>, m: real)
    requires |xs| == |es| && 1 <= w && i < |xs| && h == History(es, i)
    requires win == h[|h| - Min(w, |h|)..] && RowsWithin(win, |xs|)
    requires m == MinOver(xs, win)
    ensures Finite(m) == AsCells(RollingMin(xs, es, w))[i]
  {
    assert win == Window(es, i, w);
  }

  /** The largest value over the last min(w, |h|) rows of row i's history is the rolling maximum at row i. */
  lemma StepMax(xs: seq<real>, es: seq<int>, w: nat, i: nat, h: seq<nat>, win: seq<nat>, m: real)
    requires |xs| == |es| && 1 <= w && i < |xs| && h == History(es, i)
    requires win == h[|h| - Min(w, |h|)..] && RowsWithin(win, |xs|)
    requires m == MaxOver(xs, win)
    ensures Finite(m) == AsCells(RollingMax(xs, es, w))[i]
  {
    assert win == Window(es, i, w);
  }

  /** `groupby(engine)[s].transform(lambda x: x.rolling(w, min_periods=1).min())` in one pass. */
  method RollingMinColumn(x: array<real>, ids: array<int>, w: nat) returns (r: seq<Num>)
    requires x.Length == ids.Length && 1 <= w
    ensures r == AsCells(RollingMin(x[..], ids[..], w))
  {
    var xs := x[..];
    ghost var es := ids[..];
    r := [];
    var seen: map<int, seq<nat>> := map[];
    for i := 0 to x.Length
      invariant seen == SeenMap(es, i)
      invariant r == AsCells(RollingMin(xs, es, w))[..i]
    {
      var e := ids[i];
      var h := SeenRows(seen, e) + [i];
      StepHistory(es, i, seen, h);
      var win := h[|h| - Min(w, |h|)..];
      StepWindow(es, i, w, h, win);
      var m := WindowMin(xs, win);
      StepMin(xs, es, w, i, h, win, m);
      Extends(AsCells(RollingMin(xs, es, w)), i);
      r := r + [Finite(m)];
      seen := seen[e := h];
    }
    assert AsCells(RollingMin(xs, es, w))[..x.Length] == AsCells(RollingMin(xs, es, w));
  }



  /** `groupby(engine)[s].transform(lambda x: x.rolling(w, min_periods=1).max())` in one pass. */
  method RollingMaxColumn(x: array<real>, ids: array<int>, w: nat) returns (r: seq<Num>)
    requires x.Length == ids.Length && 1 <= w
    ensures r == AsCells(RollingMax(x[..], ids[..], w))
  {
    var xs := x[..];
    ghost var es := ids[..];
    r := [];
    var seen: map<int, seq<nat>> := map[];
    for i := 0 to x.Length
      invariant seen == SeenMap(es, i)
      invariant r == AsCells(RollingMax(xs, es, w))[..i]
    {
      var e := ids[i];
      var h := SeenRows(seen, e) + [i];
      StepHistory(es, i, seen, h);
      var win := h[|h| - Min(w, |h|)..];
      StepWindow(es, i, w, h, win);
      var m := WindowMax(xs, win);
      StepMax(xs, es, w, i, h, win, m);
      Extends(AsCells(RollingMax(xs, es, w)), i);
      r := r + [Finite(m)];
      seen := seen[e := h];
    }
    assert AsCells(RollingMax(xs, es, w))[..x.Length] == AsCells(RollingMax(xs, es, w));
  }


}
