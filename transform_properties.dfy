/**
 * What the per-engine transforms mean, stated over the engine's own row list
 * (EngineRows): each result at a row depends only on rows of the same engine,
 * at the positions the pandas operation names.
 */
module TransformProperties {
  import opened Wrappers
  import opened Cells
  import opened EngineGroups
  import opened SequenceTransforms

  // ------------------------------------------------------------------ diff

  /**
   * The trend stage's difference feature, `diff().fillna(0)`: 0 at an engine's
   * first row, otherwise the change since the engine's previous row.
   */
  lemma FilledDiffAt(x: seq<real>, ids: seq<int>, i: nat)
    requires |x| == |ids| && i < |x|
    ensures Position(ids, i) < |EngineRows(ids, ids[i])|
    ensures FillNaN(Diff(x, ids), 0.0)[i] ==
      if Position(ids, i) == 0 then Finite(0.0)
      else Finite(x[i] - x[EngineRows(ids, ids[i])[Position(ids, i) - 1]])
  {
    PreviousInEngine(ids, i);
  }

  /** A difference cell as a number (NaN, which diff only gives at first rows, as 0). */
  function Step(c: Num): real {
    if c.Finite? then c.v else 0.0
  }

  /** The engine's first value plus its first t differences. */
  function Undiff(x0: real, d: seq<Num>, rows: seq<nat>, t: nat): real
    requires t < |rows| && RowsWithin(rows, |d|)
  {
    if t == 0 then x0 else Undiff(x0, d, rows, t - 1) + Step(d[rows[t]])
  }

  /**
   * Diff loses nothing but the engine's starting value: adding its differences
   * up from the first value gives back every value of the engine.
   */
  lemma {:induction false} DiffCumulates(x: seq<real>, ids: seq<int>, e: int, t: nat)
    requires |x| == |ids| && t < |EngineRows(ids, e)|
    ensures RowsWithin(EngineRows(ids, e), |x|)
    ensures Undiff(x[EngineRows(ids, e)[0]], Diff(x, ids), EngineRows(ids, e), t) == x[EngineRows(ids, e)[t]]
  {
    var rows := EngineRows(ids, e);
    if t > 0 {
      DiffCumulates(x, ids, e, t - 1);
      PositionOfEngineRow(ids, e, t);
      PreviousInEngine(ids, rows[t]);
      assert Diff(x, ids)[rows[t]] == Finite(x[rows[t]] - x[rows[t - 1]]);
    }
  }

  // ------------------------------------------------------------------- lag

  /** The first non-NaN cell of engine e from row j on is the one at row m when all engine-e cells between are NaN. */
  lemma {:induction false} NextValidReaches(c: seq<Num>, ids: seq<int>, e: int, j: nat, m: nat)
    requires |c| == |ids| && j <= m < |c| && ids[m] == e && !c[m].NaN?
    requires forall l :: j <= l < m && ids[l] == e ==> c[l].NaN?
    ensures NextValid(c, ids, e, j) == c[m]
    decreases m - j
  {
    if j < m {
      NextValidReaches(c, ids, e, j + 1, m);
    }
  }

  /** With no non-NaN cell of engine e from row j on, the back-fill finds nothing. */
  lemma {:induction false} NextValidNone(c: seq<Num>, ids: seq<int>, e: int, j: nat)
    requires |c| == |ids|
    requires forall l :: j <= l < |c| && ids[l] == e ==> c[l].NaN?
    ensures NextValid(c, ids, e, j) == NaN
    decreases |c| - j
  {
    if j < |c| {
      NextValidNone(c, ids, e, j + 1);
    }
  }

  /** A row of engine e at or after row i sits at a position no smaller than i's, and below the one of any later engine row. */
  lemma PositionOrder(ids: seq<int>, i: nat, l: nat, q: nat)
    requires i <= l < |ids| && ids[l] == ids[i] && q < |EngineRows(ids, ids[i])|
    requires l < EngineRows(ids, ids[i])[q]
    ensures Position(ids, i) <= Position(ids, l) < q
  {
    PositionsOrdered(ids, i, l);
    RowsOfIncreasing(ids, ids[i], |ids|);
  }

  /** Two rows of one engine: the earlier row has the smaller position, and each sits at its position. */
  lemma PositionsOrdered(ids: seq<int>, i: nat, l: nat)
    requires i <= l < |ids| && ids[l] == ids[i]
    ensures Position(ids, i) <= Position(ids, l) < |EngineRows(ids, ids[i])|
    ensures EngineRows(ids, ids[i])[Position(ids, l)] == l
  {
    PositionInEngine(ids, i);
    PositionInEngine(ids, l);
    RowsOfIncreasing(ids, ids[i], |ids|);
  }

  /**
   * A lag feature `shift(k)` then within-engine `bfill`: the value k engine rows
   * back; in the engine's first k rows, the engine's FIRST value (a back-fill,
   * although the code's comment speaks of a forward fill); NaN only when the
   * engine has no more than k rows.
   */
  lemma LagAt(x: seq<real>, ids: seq<int>, k: nat, i: nat)
    requires |x| == |ids| && i < |x|
    ensures Position(ids, i) < |EngineRows(ids, ids[i])|
    ensures RowsWithin(EngineRows(ids, ids[i]), |x|)
    ensures Lag(x, ids, k)[i] ==
      if Position(ids, i) >= k then Finite(x[EngineRows(ids, ids[i])[Position(ids, i) - k]])
      else if |EngineRows(ids, ids[i])| > k then Finite(x[EngineRows(ids, ids[i])[0]])
      else NaN
  {
    var e, p, rows := ids[i], Position(ids, i), EngineRows(ids, ids[i]);
    var c := Shift(x, ids, k);
    PositionInEngine(ids, i);
    if p >= k {
      LagSourceInEngine(ids, i, k);
      assert Lag(x, ids, k)[i] == NextValid(c, ids, e, i);
    } else {
      if |rows| > k {
        var m := rows[k];
        PositionOfEngineRow(ids, e, k);
        LagSourceInEngine(ids, m, k);
        forall l | i <= l < m && ids[l] == e
          ensures c[l].NaN?
        {
          PositionOrder(ids, i, l, k);
        }
        RowsOfIncreasing(ids, e, |ids|);
        NextValidReaches(c, ids, e, i, m);
      } else {
        forall l | i <= l < |c| && ids[l] == e
          ensures c[l].NaN?
        {
          PositionsOrdered(ids, i, l);
        }
        NextValidNone(c, ids, e, i);
      }
    }
  }

  // --------------------------------------------------------------- rolling

  /**
   * The rolling minimum at row i is the smallest value of i's engine over
   * engine positions p + 1 - min(w, p + 1) .. p, and it is one of them.
   */
  lemma RollingMinAtMeans(x: seq<real>, ids: seq<int>, w: nat, i: nat)
    requires |x| == |ids| && 1 <= w && i < |x|
    ensures Position(ids, i) < |EngineRows(ids, ids[i])|
    ensures RowsWithin(EngineRows(ids, ids[i]), |x|)
    ensures forall t :: Position(ids, i) + 1 - Min(w, Position(ids, i) + 1) <= t <= Position(ids, i) ==>
      RollingMinAt(x, ids, w, i) <= x[EngineRows(ids, ids[i])[t]]
    ensures exists t :: (Position(ids, i) + 1 - Min(w, Position(ids, i) + 1) <= t <= Position(ids, i) &&
                         RollingMinAt(x, ids, w, i) == x[EngineRows(ids, ids[i])[t]])
  {
    var p, rows, win := Position(ids, i), EngineRows(ids, ids[i]), Window(ids, i, w);
    var lo := p + 1 - |win|;
    WindowInEngine(ids, i, w);
    MinOverIsMin(x, win);
    assert forall t :: lo <= t <= p ==> rows[t] == win[t - lo];
    var u :| 0 <= u < |win| && MinOver(x, win) == x[win[u]];
    assert rows[u + lo] == win[u];
  }

  /** The rolling maximum at row i: the largest value over the same engine positions, and one of them. */
  lemma RollingMaxAtMeans(x: seq<real>, ids: seq<int>, w: nat, i: nat)
    requires |x| == |ids| && 1 <= w && i < |x|
    ensures Position(ids, i) < |EngineRows(ids, ids[i])|
    ensures RowsWithin(EngineRows(ids, ids[i]), |x|)
    ensures forall t :: Position(ids, i) + 1 - Min(w, Position(ids, i) + 1) <= t <= Position(ids, i) ==>
      x[EngineRows(ids, ids[i])[t]] <= RollingMaxAt(x, ids, w, i)
    ensures exists t :: (Position(ids, i) + 1 - Min(w, Position(ids, i) + 1) <= t <= Position(ids, i) &&
                         RollingMaxAt(x, ids, w, i) == x[EngineRows(ids, ids[i])[t]])
  {
    var p, rows, win := Position(ids, i), EngineRows(ids, ids[i]), Window(ids, i, w);
    var lo := p + 1 - |win|;
    WindowInEngine(ids, i, w);
    MaxOverIsMax(x, win);
    assert forall t :: lo <= t <= p ==> rows[t] == win[t - lo];
    var u :| 0 <= u < |win| && MaxOver(x, win) == x[win[u]];
    assert rows[u + lo] == win[u];
  }

  /**
   * The rolling extremes bracket the current value, and with `min_periods=1`
   * both are the value itself at an engine's first row and for a window of one.
   */
  lemma RollingBracketsValue(x: seq<real>, ids: seq<int>, w: nat, i: nat)
    requires |x| == |ids| && 1 <= w && i < |x|
    ensures RollingMin(x, ids, w)[i] <= x[i] <= RollingMax(x, ids, w)[i]
    ensures Position(ids, i) == 0 || w == 1 ==> RollingMin(x, ids, w)[i] == x[i] == RollingMax(x, ids, w)[i]
  {
    var win := Window(ids, i, w);
    MinOverIsMin(x, win);
    MaxOverIsMax(x, win);
    assert win[|win| - 1] == i;
  }
}
