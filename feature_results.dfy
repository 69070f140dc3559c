/**
 * What the three feature steps leave in the dataframe, column by column and
 * row by row: the rolling min/max, lag and difference columns of each sensor
 * in terms of that sensor's ORIGINAL values and its engine's own rows, and
 * how many columns each step appends.
 */
module FeatureResults {
  import opened Cells
  import opened Text
  import opened Tables
  import opened EngineGroups
  import opened SequenceTransforms
  import opened TransformProperties
  import opened Features

  // ------------------------------------------------------------ columns added

  /**
   * When the generated names are new and distinct, a pass over parameters and
   * sensors appends exactly its feature names after the existing columns:
   * `len(params) * len(sensors) * PerSensor` columns (4 per sensor and window
   * for the rolling step, 1 per sensor and lag for the lag step).
   */
  lemma ParamsPassAppends(stage: Stage, t: Table, sensors: seq<string>, params: seq<nat>, num: Numerics)
    requires Ready(t, sensors) && StageOk(stage, sensors) && ParamsOk(stage, params)
    requires Distinct(t.Names() + FeatureNames(ParamsPass(stage, sensors, params, |params|)))
    ensures ApplyFeatures(t, sensors, ParamsPass(stage, sensors, params, |params|), num).Names() ==
      t.Names() + FeatureNames(ParamsPass(stage, sensors, params, |params|))
    ensures |ApplyFeatures(t, sensors, ParamsPass(stage, sensors, params, |params|), num).cols| ==
      |t.cols| + |params| * |sensors| * PerSensor(stage)
  {
    ApplyAppends(t, sensors, ParamsPass(stage, sensors, params, |params|), num);
    ParamsPassCount(stage, sensors, params);
  }

  lemma TimesOne(m: int, one: int)
    requires one == 1
    ensures m * one == m
  {
  }

  /** The lag step's back-fill keeps the columns the loops appended: `len(lags) * len(sensors)` new ones. */
  lemma LagStepAppends(t: Table, sensors: seq<string>, lags: seq<nat>, num: Numerics)
    requires Ready(t, sensors) && StageOk(Lagging, sensors)
    requires ParamsOk(Lagging, lags) && Distinct(t.Names() + FeatureNames(ParamsPass(Lagging, sensors, lags, |lags|)))
    ensures LaggedTable(t, sensors, lags, num).Names() == t.Names() + FeatureNames(ParamsPass(Lagging, sensors, lags, |lags|))
    ensures |LaggedTable(t, sensors, lags, num).cols| == |t.cols| + |lags| * |sensors|
  {
    ParamsPassAppends(Lagging, t, sensors, lags, num);
    var added := ApplyFeatures(t, sensors, ParamsPass(Lagging, sensors, lags, |lags|), num);
    var r := LaggedTable(t, sensors, lags, num);
    assert r == BackFillLags(added, |added.cols|);
    assert r.Names() == added.Names() && |r.cols| == |added.cols|;
    TimesOne(|lags| * |sensors|, PerSensor(Lagging));
  }

  /** The trend step appends `2 * len(sensors)` columns, the difference and slope of each sensor. */
  lemma TrendStepAppends(t: Table, sensors: seq<string>, window: nat, num: Numerics)
    requires Ready(t, sensors) && StageOk(Trend, sensors) && ParamOk(Trend, window)
    requires Distinct(t.Names() + FeatureNames(SensorsPass(Trend, sensors, window, |sensors|)))
    ensures TrendedTable(t, sensors, window, num).Names() == t.Names() + FeatureNames(SensorsPass(Trend, sensors, window, |sensors|))
    ensures |TrendedTable(t, sensors, window, num).cols| == |t.cols| + 2 * |sensors|
  {
    ApplyAppends(t, sensors, SensorsPass(Trend, sensors, window, |sensors|), num);
    SensorsPassCount(Trend, sensors, window);
    TwoPerSensor(|sensors|, |SensorsPass(Trend, sensors, window, |sensors|)|);
    var added := ApplyFeatures(t, sensors, SensorsPass(Trend, sensors, window, |sensors|), num);
    assert TrendedTable(t, sensors, window, num) == ZeroFillTrends(added);
  }

  /** The trend stage's per-sensor count, multiplied out. */
  lemma TwoPerSensor(n: nat, total: nat)
    requires total == n * PerSensor(Trend)
    ensures total == 2 * n
  {
  }

  // ---------------------------------------------------------- kinds' cells

  lemma MinCells(x: seq<real>, ids: seq<int>, w: nat, num: Numerics)
    requires |x| == |ids| && w >= 1
    ensures FeatureCells(x, ids, RollMin(w), num) == AsCells(RollingMin(x, ids, w))
  {
  }

  lemma MaxCells(x: seq<real>, ids: seq<int>, w: nat, num: Numerics)
    requires |x| == |ids| && w >= 1
    ensures FeatureCells(x, ids, RollMax(w), num) == AsCells(RollingMax(x, ids, w))
  {
  }

  lemma ShiftCells(x: seq<real>, ids: seq<int>, k: nat, num: Numerics)
    requires |x| == |ids|
    ensures FeatureCells(x, ids, Shifted(k), num) == Shift(x, ids, k)
  {
  }

  lemma DiffCells(x: seq<real>, ids: seq<int>, num: Numerics)
    requires |x| == |ids|
    ensures FeatureCells(x, ids, Diffed, num) == Diff(x, ids)
  {
  }

  /** `rolling(window=w, min_periods=2)` leaves an engine's first row missing. */
  lemma SlopeFirstRow(x: seq<real>, ids: seq<int>, w: nat, num: Numerics, i: nat)
    requires |x| == |ids| && w >= 2 && i < |x| && Position(ids, i) == 0
    ensures FeatureCells(x, ids, Slope(w), num)[i] == NaN
  {
    assert |Window(ids, i, w)| == 1;
  }

  // --------------------------------------------------------------- rolling

  /** After the rolling step the four statistic columns of every (window, sensor) pair exist. */
  lemma RollingNames(t: Table, sensors: seq<string>, windows: seq<nat>, num: Numerics, k: nat, n: nat)
    requires Ready(t, sensors) && StageOk(Rolling, sensors) && ParamsOk(Rolling, windows)
    requires k < |windows| && n < |sensors|
    requires Distinct(FeatureNames(ParamsPass(Rolling, sensors, windows, |windows|)))
    ensures var r := ApplyFeatures(t, sensors, ParamsPass(Rolling, sensors, windows, |windows|), num);
      && RollingName(sensors[n], "mean", windows[k]) in r.Names() && RollingName(sensors[n], "std", windows[k]) in r.Names()
      && RollingName(sensors[n], "min", windows[k]) in r.Names() && RollingName(sensors[n], "max", windows[k]) in r.Names()
  {
    var fs := FeaturesOf(Rolling, sensors[n], windows[k]);
    ParamsPassColumn(Rolling, t, sensors, windows, num, k, n, fs[0]);
    ParamsPassColumn(Rolling, t, sensors, windows, num, k, n, fs[1]);
    ParamsPassColumn(Rolling, t, sensors, windows, num, k, n, fs[2]);
    ParamsPassColumn(Rolling, t, sensors, windows, num, k, n, fs[3]);
  }

  /** After the rolling step, `{sensor}_rolling_min_{w}` holds the per-engine rolling min of the sensor's original values. */
  lemma RollingMinColumn(t: Table, sensors: seq<string>, windows: seq<nat>, num: Numerics, k: nat, n: nat)
    requires Ready(t, sensors) && StageOk(Rolling, sensors) && ParamsOk(Rolling, windows)
    requires k < |windows| && n < |sensors|
    requires Distinct(FeatureNames(ParamsPass(Rolling, sensors, windows, |windows|)))
    ensures RollingName(sensors[n], "min", windows[k]) in ApplyFeatures(t, sensors, ParamsPass(Rolling, sensors, windows, |windows|), num).Names()
    ensures ColumnNamed(ApplyFeatures(t, sensors, ParamsPass(Rolling, sensors, windows, |windows|), num).cols, RollingName(sensors[n], "min", windows[k])).cells
      == AsCells(RollingMin(SensorValues(t, sensors[n]), t.ids, windows[k]))
  {
    var s := sensors[n];
    var w := windows[k];
    var f := FeaturesOf(Rolling, s, w)[2];
    assert f == Feature(RollingName(s, "min", w), s, RollMin(w));
    ParamsPassColumn(Rolling, t, sensors, windows, num, k, n, f);
    MinCells(SensorValues(t, s), t.ids, w, num);
  }

  /** After the rolling step, `{sensor}_rolling_max_{w}` holds the per-engine rolling max of the sensor's original values. */
  lemma RollingMaxColumn(t: Table, sensors: seq<string>, windows: seq<nat>, num: Numerics, k: nat, n: nat)
    requires Ready(t, sensors) && StageOk(Rolling, sensors) && ParamsOk(Rolling, windows)
    requires k < |windows| && n < |sensors|
    requires Distinct(FeatureNames(ParamsPass(Rolling, sensors, windows, |windows|)))
    ensures RollingName(sensors[n], "max", windows[k]) in ApplyFeatures(t, sensors, ParamsPass(Rolling, sensors, windows, |windows|), num).Names()
    ensures ColumnNamed(ApplyFeatures(t, sensors, ParamsPass(Rolling, sensors, windows, |windows|), num).cols, RollingName(sensors[n], "max", windows[k])).cells
      == AsCells(RollingMax(SensorValues(t, sensors[n]), t.ids, windows[k]))
  {
    var s := sensors[n];
    var w := windows[k];
    var f := FeaturesOf(Rolling, s, w)[3];
    assert f == Feature(RollingName(s, "max", w), s, RollMax(w));
    ParamsPassColumn(Rolling, t, sensors, windows, num, k, n, f);
    MaxCells(SensorValues(t, s), t.ids, w, num);
  }

  /**
   * Row by row: the rolling min/max cells of row i bracket the row's own
   * value and equal it at the engine's first row (the window bounds and
   * attainment are RollingMinAtMeans / RollingMaxAtMeans).
   */
  lemma RollingCellsAt(t: Table, sensors: seq<string>, windows: seq<nat>, num: Numerics, k: nat, n: nat, i: nat)
    requires Ready(t, sensors) && StageOk(Rolling, sensors) && ParamsOk(Rolling, windows)
    requires k < |windows| && n < |sensors| && i < t.Rows()
    requires Distinct(FeatureNames(ParamsPass(Rolling, sensors, windows, |windows|)))
    ensures RollingName(sensors[n], "min", windows[k]) in ApplyFeatures(t, sensors, ParamsPass(Rolling, sensors, windows, |windows|), num).Names()
    ensures RollingName(sensors[n], "max", windows[k]) in ApplyFeatures(t, sensors, ParamsPass(Rolling, sensors, windows, |windows|), num).Names()
    ensures var r := ApplyFeatures(t, sensors, ParamsPass(Rolling, sensors, windows, |windows|), num);
      var x := SensorValues(t, sensors[n]);
      var lo := ColumnNamed(r.cols, RollingName(sensors[n], "min", windows[k])).cells;
      var hi := ColumnNamed(r.cols, RollingName(sensors[n], "max", windows[k])).cells;
      && i < |lo| && i < |hi|
      && lo[i] == Finite(RollingMinAt(x, t.ids, windows[k], i)) && hi[i] == Finite(RollingMaxAt(x, t.ids, windows[k], i))
      && RollingMinAt(x, t.ids, windows[k], i) <= x[i] <= RollingMaxAt(x, t.ids, windows[k], i)
      && (Position(t.ids, i) == 0 ==> lo[i] == Finite(x[i]) == hi[i])
  {
    RollingMinColumn(t, sensors, windows, num, k, n);
    RollingMaxColumn(t, sensors, windows, num, k, n);
    RollingBracketsValue(SensorValues(t, sensors[n]), t.ids, windows[k], i);
  }

  // ------------------------------------------------------------------- lag

  /**
   * After the lag step, `{sensor}_lag_{k}` holds the sensor's original values
   * shifted by k within each engine and then back-filled within each engine.
   */
  lemma LagColumn(t: Table, sensors: seq<string>, lags: seq<nat>, num: Numerics, k: nat, n: nat)
    requires Ready(t, sensors) && StageOk(Lagging, sensors) && ParamsOk(Lagging, lags)
    requires k < |lags| && n < |sensors|
    requires Distinct(FeatureNames(ParamsPass(Lagging, sensors, lags, |lags|)))
    ensures LagName(sensors[n], lags[k]) in LaggedTable(t, sensors, lags, num).Names()
    ensures ColumnNamed(LaggedTable(t, sensors, lags, num).cols, LagName(sensors[n], lags[k])).cells ==
      Lag(SensorValues(t, sensors[n]), t.ids, lags[k])
  {
    var s := sensors[n];
    var f := FeaturesOf(Lagging, s, lags[k])[0];
    assert f == Feature(LagName(s, lags[k]), s, Shifted(lags[k]));
    ParamsPassColumn(Lagging, t, sensors, lags, num, k, n, f);
    ShiftCells(SensorValues(t, s), t.ids, lags[k], num);
    var added := ApplyFeatures(t, sensors, ParamsPass(Lagging, sensors, lags, |lags|), num);
    LagNameMarked(s, lags[k]);
    BackFillLagsMeans(added, f.name);
  }

  // ----------------------------------------------------------------- trend

  /**
   * After the trend step, `{sensor}_diff` holds the per-engine first
   * difference of the sensor's original values with NaN as 0.
   */
  lemma DiffColumnFilled(t: Table, sensors: seq<string>, window: nat, num: Numerics, n: nat)
    requires Ready(t, sensors) && StageOk(Trend, sensors) && ParamOk(Trend, window) && n < |sensors|
    requires Distinct(FeatureNames(SensorsPass(Trend, sensors, window, |sensors|)))
    ensures DiffName(sensors[n]) in TrendedTable(t, sensors, window, num).Names()
    ensures ColumnNamed(TrendedTable(t, sensors, window, num).cols, DiffName(sensors[n])).cells ==
      FillNaN(Diff(SensorValues(t, sensors[n]), t.ids), 0.0)
  {
    var s := sensors[n];
    var x := SensorValues(t, s);
    var f := FeaturesOf(Trend, s, window)[0];
    assert f == Feature(DiffName(s), s, Diffed);
    var added := ApplyFeatures(t, sensors, SensorsPass(Trend, sensors, window, |sensors|), num);
    SensorsPassColumn(Trend, t, sensors, window, num, n, f);
    assert ColumnNamed(added.cols, f.name).cells == FeatureCells(x, t.ids, Diffed, num);
    DiffCells(x, t.ids, num);
    DiffNameMarked(s);
    ZeroFillTrendsMeans(added, f.name);
    assert TrendedTable(t, sensors, window, num) == ZeroFillTrends(added);
  }

  /** After the trend step, `{sensor}_slope_{w}` holds the slope column with NaN as 0. */
  lemma SlopeColumnFilled(t: Table, sensors: seq<string>, window: nat, num: Numerics, n: nat)
    requires Ready(t, sensors) && StageOk(Trend, sensors) && ParamOk(Trend, window) && n < |sensors|
    requires Distinct(FeatureNames(SensorsPass(Trend, sensors, window, |sensors|)))
    ensures SlopeName(sensors[n], window) in TrendedTable(t, sensors, window, num).Names()
    ensures ColumnNamed(TrendedTable(t, sensors, window, num).cols, SlopeName(sensors[n], window)).cells ==
      FillNaN(FeatureCells(SensorValues(t, sensors[n]), t.ids, Slope(window), num), 0.0)
  {
    var s := sensors[n];
    var f := FeaturesOf(Trend, s, window)[1];
    assert f == Feature(SlopeName(s, window), s, Slope(window));
    SensorsPassColumn(Trend, t, sensors, window, num, n, f);
    var added := ApplyFeatures(t, sensors, SensorsPass(Trend, sensors, window, |sensors|), num);
    SlopeNameMarked(s, window);
    ZeroFillTrendsMeans(added, SlopeName(s, window));
    assert TrendedTable(t, sensors, window, num) == ZeroFillTrends(added);
  }

  /** Row by row: the slope cell is never missing, and is 0 at an engine's first row. */
  lemma SlopeCellAt(t: Table, sensors: seq<string>, window: nat, num: Numerics, n: nat, i: nat)
    requires Ready(t, sensors) && StageOk(Trend, sensors) && ParamOk(Trend, window) && n < |sensors| && i < t.Rows()
    requires Distinct(FeatureNames(SensorsPass(Trend, sensors, window, |sensors|)))
    ensures SlopeName(sensors[n], window) in TrendedTable(t, sensors, window, num).Names()
    ensures var sl := ColumnNamed(TrendedTable(t, sensors, window, num).cols, SlopeName(sensors[n], window)).cells;
      && i < |sl| && !sl[i].NaN?
      && (Position(t.ids, i) == 0 ==> sl[i] == Finite(0.0))
  {
    var x := SensorValues(t, sensors[n]);
    SlopeColumnFilled(t, sensors, window, num, n);
    var sl := ColumnNamed(TrendedTable(t, sensors, window, num).cols, SlopeName(sensors[n], window)).cells;
    var raw := FeatureCells(x, t.ids, Slope(window), num);
    assert sl == FillNaN(raw, 0.0);
    assert sl[i] == FillMissing(raw[i], 0.0);
    if Position(t.ids, i) == 0 {
      SlopeFirstRow(x, t.ids, window, num, i);
    }
  }
}
