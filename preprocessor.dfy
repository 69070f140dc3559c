/**
 * The preprocessor object: the cleaning pipeline that also resets the list of
 * sensor columns it works on, the RUL clip, and the per-engine feature steps
 * that add columns to the dataframe in place.
 */
module Preprocessing {
  import opened Wrappers
  import opened Cells
  import opened Text
  import opened Tables
  import opened Cleaning
  import opened EngineGroups
  import opened SequenceTransforms
  import opened Features

  /** The defaults of the preprocessor's parameters. */
  const DefaultCorrThreshold: real := 0.95
  const DefaultVarianceThreshold: real := 0.001
  const DefaultRulClip: real := 125.0
  const DefaultWindows: seq<nat> := [5, 10, 20]
  const DefaultLags: seq<nat> := [1, 3, 5]
  const DefaultTrendWindow: nat := 10

  /** `'sensor' in c.lower()`: the test behind `sensor_cols` (unlike the cleaning steps, case-blind). */
  predicate IsSensorColumn(name: string) {
    Contains(Lower(name), "sensor")
  }

  /** `[c for c in df.columns if 'sensor' in c.lower()]`. */
  function SensorNames(names: seq<string>): (r: seq<string>)
    ensures forall n :: n in r <==> n in names && IsSensorColumn(n)
    ensures Subsequence(r, names)
    decreases |names|
  {
    if names == [] then []
    else
      var n := |names| - 1;
      var rest := SensorNames(names[..n]);
      if IsSensorColumn(names[n]) then
        assert (rest + [names[n]])[..|rest|] == rest;
        rest + [names[n]]
      else
        assert rest != [] ==> rest[|rest| - 1] in rest;
        rest
  }

  /** The dataframe a feature step writes to. */
  class Frame {
    var table: Table

    constructor (t: Table)
      ensures table == t
    {
      table := t;
    }
  }

  // --------------------------------------------------------------- cleaning

  /**
   * `clean_data` on values: invalid, then constant, then low-variance, then
   * correlated columns, each step on the previous step's output, with the four
   * drop lists under their keys.
   */
  function Clean(t: Table, variance: seq<Num> -> Num, absCorr: (seq<Num>, seq<Num>) -> Num,
                 varianceThreshold: real, corrThreshold: real): (r: (Table, map<string, seq<string>>))
    requires t.Valid()
    ensures r.0.Valid() && r.0.ids == t.ids && r.0.cycles == t.cycles
    ensures r.1.Keys == {"invalid", "constant", "low_variance", "correlated"}
  {
    DropFlagged(t, HasInvalid);
    var invalid := Flagged(t.cols, HasInvalid);
    var t1 := DropColumns(t, invalid);
    var (t2, constant) := RemoveConstant(t1, variance);
    var (t3, low) := RemoveLowVariance(t2, variance, varianceThreshold);
    var (t4, correlated) := RemoveCorrelated(t3, absCorr, corrThreshold);
    (t4, map["invalid" := invalid, "constant" := constant, "low_variance" := low, "correlated" := correlated])
  }

  /**
   * What survives cleaning: exactly the original columns, unchanged, that hold
   * no NaN or infinite cell, that are not sensors with zero or below-threshold
   * variance, and that the correlated step does not name.
   */
  lemma CleanSurvivors(t: Table, variance: seq<Num> -> Num, absCorr: (seq<Num>, seq<Num>) -> Num,
                       varianceThreshold: real, corrThreshold: real, c: Column)
    requires t.Valid()
    ensures c in Clean(t, variance, absCorr, varianceThreshold, corrThreshold).0.cols <==>
      && c in t.cols
      && (forall i :: 0 <= i < |c.cells| ==> c.cells[i].Finite?)
      && !(IsSensor(c.name) && variance(c.cells) == Finite(0.0))
      && !(IsSensor(c.name) && LessThan(variance(c.cells), varianceThreshold))
      && c.name !in Clean(t, variance, absCorr, varianceThreshold, corrThreshold).1["correlated"]
  {
    CleanFilters(t, variance, varianceThreshold, c);
    var t1 := DropColumns(t, Flagged(t.cols, HasInvalid));
    var t2 := RemoveConstant(t1, variance).0;
    var t3 := RemoveLowVariance(t2, variance, varianceThreshold).0;
    var r := RemoveCorrelated(t3, absCorr, corrThreshold);
    var cleaned := Clean(t, variance, absCorr, varianceThreshold, corrThreshold);
    assert cleaned.0 == r.0 && cleaned.1["correlated"] == r.1;
  }

  /** The columns left after the invalid, constant and low-variance steps: the correlated step's input. */
  function Filtered(t: Table, variance: seq<Num> -> Num, varianceThreshold: real): seq<Column>
    requires t.Valid()
  {
    DropFlagged(t, HasInvalid);
    RemoveLowVariance(RemoveConstant(DropColumns(t, Flagged(t.cols, HasInvalid)), variance).0, variance, varianceThreshold).0.cols
  }

  /** The three filtering steps of cleaning, before the correlated step: which columns pass. */
  lemma CleanFilters(t: Table, variance: seq<Num> -> Num, varianceThreshold: real, c: Column)
    requires t.Valid()
    ensures forall d :: d in Flagged(t.cols, HasInvalid) ==> d in t.Names()
    ensures c in Filtered(t, variance, varianceThreshold) <==>
      && c in t.cols
      && (forall i :: 0 <= i < |c.cells| ==> c.cells[i].Finite?)
      && !(IsSensor(c.name) && variance(c.cells) == Finite(0.0))
      && !(IsSensor(c.name) && LessThan(variance(c.cells), varianceThreshold))
  {
    DropFlagged(t, HasInvalid);
    var t1 := DropColumns(t, Flagged(t.cols, HasInvalid));
    var t2 := RemoveConstant(t1, variance).0;
    assert c in t1.cols <==> c in t.cols && !HasInvalid(c);
    assert c in t2.cols <==> c in t1.cols && !ConstantRule(variance)(c);
  }

  /** The first two steps of cleaning keep exactly the all-finite columns, then drop the constant sensors. */
  lemma FirstSteps(t: Table, variance: seq<Num> -> Num, c: Column)
    requires t.Valid()
    ensures forall d :: d in Flagged(t.cols, HasInvalid) ==> d in t.Names()
    ensures c in DropColumns(t, Flagged(t.cols, HasInvalid)).cols <==> c in t.cols && AllFinite(c.cells)
    ensures c in RemoveConstant(DropColumns(t, Flagged(t.cols, HasInvalid)), variance).0.cols <==>
      c in t.cols && AllFinite(c.cells) && !ConstantRule(variance)(c)
  {
    DropFlagged(t, HasInvalid);
  }

  /** The four drop lists of cleaning are the four steps' lists, each step on the previous step's table. */
  lemma CleanLists(t: Table, variance: seq<Num> -> Num, absCorr: (seq<Num>, seq<Num>) -> Num,
                   varianceThreshold: real, corrThreshold: real)
    requires t.Valid()
    ensures forall d :: d in Flagged(t.cols, HasInvalid) ==> d in t.Names()
    ensures var t1 := DropColumns(t, Flagged(t.cols, HasInvalid));
      var t2 := RemoveConstant(t1, variance).0;
      var t3 := RemoveLowVariance(t2, variance, varianceThreshold).0;
      var lists := Clean(t, variance, absCorr, varianceThreshold, corrThreshold).1;
      && lists["invalid"] == Flagged(t.cols, HasInvalid)
      && lists["constant"] == RemoveConstant(t1, variance).1
      && lists["low_variance"] == RemoveLowVariance(t2, variance, varianceThreshold).1
      && lists["correlated"] == RemoveCorrelated(t3, absCorr, corrThreshold).1
  {
    DropFlagged(t, HasInvalid);
    var t1 := DropColumns(t, Flagged(t.cols, HasInvalid));
    var t2 := RemoveConstant(t1, variance).0;
    var t3 := RemoveLowVariance(t2, variance, varianceThreshold).0;
    var lists := map["invalid" := Flagged(t.cols, HasInvalid), "constant" := RemoveConstant(t1, variance).1,
                     "low_variance" := RemoveLowVariance(t2, variance, varianceThreshold).1,
                     "correlated" := RemoveCorrelated(t3, absCorr, corrThreshold).1];
    assert Clean(t, variance, absCorr, varianceThreshold, corrThreshold).1 == lists;
  }

  /**
   * What the invalid drop list of cleaning holds: the names, in column order,
   * of the columns with a NaN or infinite cell.
   */
  lemma CleanInvalid(t: Table, variance: seq<Num> -> Num, absCorr: (seq<Num>, seq<Num>) -> Num,
                     varianceThreshold: real, corrThreshold: real, name: string)
    requires t.Valid()
    ensures Clean(t, variance, absCorr, varianceThreshold, corrThreshold).1["invalid"] == Flagged(t.cols, HasInvalid)
    ensures name in Clean(t, variance, absCorr, varianceThreshold, corrThreshold).1["invalid"] <==>
      exists c :: c in t.cols && c.name == name && !AllFinite(c.cells)
  {
    var invalid := Flagged(t.cols, HasInvalid);
    CleanLists(t, variance, absCorr, varianceThreshold, corrThreshold);
    SelectNames(t.cols, HasInvalid, true, name);
    if name in invalid {
      var j :| 0 <= j < |t.cols| && t.cols[j].name == name && HasInvalid(t.cols[j]);
      assert t.cols[j] in t.cols;
    }
    if c :| c in t.cols && c.name == name && !AllFinite(c.cells) {
      var j :| 0 <= j < |t.cols| && t.cols[j] == c;
      var i :| 0 <= i < |c.cells| && !c.cells[i].Finite?;
      assert IsInvalid(t.cols[j].cells[i]);
    }
  }

  /**
   * What the constant drop list of cleaning holds: a name is on it exactly
   * when it is an all-finite sensor column of zero variance.
   */
  lemma CleanConstant(t: Table, variance: seq<Num> -> Num, absCorr: (seq<Num>, seq<Num>) -> Num,
                     varianceThreshold: real, corrThreshold: real, name: string)
    requires t.Valid()
    ensures name in Clean(t, variance, absCorr, varianceThreshold, corrThreshold).1["constant"] <==>
      exists c :: (c in t.cols && c.name == name && AllFinite(c.cells) && IsSensor(name) && variance(c.cells) == Finite(0.0))
  {
    DropFlagged(t, HasInvalid);
    var t1 := DropColumns(t, Flagged(t.cols, HasInvalid));
    var constant := RemoveConstant(t1, variance).1;
    CleanLists(t, variance, absCorr, varianceThreshold, corrThreshold);
    SelectNames(t1.cols, ConstantRule(variance), true, name);
    if name in constant {
      var j :| 0 <= j < |t1.cols| && t1.cols[j].name == name && ConstantRule(variance)(t1.cols[j]);
      FirstSteps(t, variance, t1.cols[j]);
    }
    if c :| (c in t.cols && c.name == name && AllFinite(c.cells) && IsSensor(name) && variance(c.cells) == Finite(0.0)) {
      FirstSteps(t, variance, c);
      var j :| 0 <= j < |t1.cols| && t1.cols[j] == c;
    }
  }

  /**
   * What the low-variance drop list of cleaning holds: a name is on it exactly
   * when it is an all-finite sensor column whose variance is nonzero and below
   * the threshold.
   */
  lemma CleanLowVariance(t: Table, variance: seq<Num> -> Num, absCorr: (seq<Num>, seq<Num>) -> Num,
                         varianceThreshold: real, corrThreshold: real, name: string)
    requires t.Valid()
    ensures name in Clean(t, variance, absCorr, varianceThreshold, corrThreshold).1["low_variance"] <==>
      exists c :: (c in t.cols && c.name == name && AllFinite(c.cells) && IsSensor(name)
                   && variance(c.cells) != Finite(0.0) && LessThan(variance(c.cells), varianceThreshold))
  {
    DropFlagged(t, HasInvalid);
    var t2 := RemoveConstant(DropColumns(t, Flagged(t.cols, HasInvalid)), variance).0;
    var low := RemoveLowVariance(t2, variance, varianceThreshold).1;
    CleanLists(t, variance, absCorr, varianceThreshold, corrThreshold);
    SelectNames(t2.cols, LowVarianceRule(variance, varianceThreshold), true, name);
    if name in low {
      var j :| 0 <= j < |t2.cols| && t2.cols[j].name == name && LowVarianceRule(variance, varianceThreshold)(t2.cols[j]);
      FirstSteps(t, variance, t2.cols[j]);
    }
    if c :| (c in t.cols && c.name == name && AllFinite(c.cells) && IsSensor(name)
             && variance(c.cells) != Finite(0.0) && LessThan(variance(c.cells), varianceThreshold)) {
      FirstSteps(t, variance, c);
      var j :| 0 <= j < |t2.cols| && t2.cols[j] == c;
    }
  }

  /**
   * What the correlated drop list of cleaning holds: among the sensors that pass
   * the first three steps, in column order, sensor j is listed exactly when an
   * earlier one correlates with it above the threshold, and nothing else is listed.
   */
  lemma CleanCorrelated(t: Table, variance: seq<Num> -> Num, absCorr: (seq<Num>, seq<Num>) -> Num,
                        varianceThreshold: real, corrThreshold: real, j: nat)
    requires t.Valid() && j < |Sensors(Filtered(t, variance, varianceThreshold))|
    ensures Sensors(Filtered(t, variance, varianceThreshold))[j].name in Clean(t, variance, absCorr, varianceThreshold, corrThreshold).1["correlated"] <==>
      Redundant(Sensors(Filtered(t, variance, varianceThreshold)), absCorr, corrThreshold, j)
    ensures forall d :: d in Clean(t, variance, absCorr, varianceThreshold, corrThreshold).1["correlated"] ==>
      exists k :: 0 <= k < |Sensors(Filtered(t, variance, varianceThreshold))| && Sensors(Filtered(t, variance, varianceThreshold))[k].name == d
  {
    DropFlagged(t, HasInvalid);
    var t1 := DropColumns(t, Flagged(t.cols, HasInvalid));
    var t2 := RemoveConstant(t1, variance).0;
    var t3 := RemoveLowVariance(t2, variance, varianceThreshold).0;
    var correlated := Clean(t, variance, absCorr, varianceThreshold, corrThreshold).1["correlated"];
    CleanLists(t, variance, absCorr, varianceThreshold, corrThreshold);
    var s := Sensors(t3.cols);
    SubsequenceDistinct(s, t3.cols);
    CorrelatedAmongMember(s, absCorr, corrThreshold, |s|, j);
    forall d | d in correlated
      ensures exists k :: 0 <= k < |s| && s[k].name == d
    {
      CorrelatedAmongSensors(s, absCorr, corrThreshold, |s|, d);
    }
  }

  // ------------------------------------------------------------- RUL clip

  function ClippedName(rulCol: string): string {
    rulCol + "_clipped"
  }

  /** `df[f'{rul_col}_clipped'] = df[rul_col].clip(upper=clip_value)` on values; `rul_col` may name a key column. */
  function ClipRulTable(t: Table, rulCol: string, clipValue: real): Table
    requires t.Valid() && HasColumn(t, rulCol)
  {
    SetColumn(t, ClippedName(rulCol), ClipColumn(ColumnCells(t, rulCol), clipValue))
  }

  /**
   * The clipped column is min(RUL, clip value) cell by cell (NaN stays NaN), so
   * it never exceeds either; the keys, the RUL column itself and every other
   * column keep their contents.
   */
  lemma ClipRulMeans(t: Table, rulCol: string, clipValue: real, m: string)
    requires t.Valid() && HasColumn(t, rulCol)
    ensures ClipRulTable(t, rulCol, clipValue).ids == t.ids && ClipRulTable(t, rulCol, clipValue).cycles == t.cycles
    ensures ClippedName(rulCol) in ClipRulTable(t, rulCol, clipValue).Names()
    ensures var rul, clipped := ColumnCells(t, rulCol), ColumnNamed(ClipRulTable(t, rulCol, clipValue).cols, ClippedName(rulCol)).cells;
      && |clipped| == |rul|
      && forall i :: 0 <= i < |rul| ==>
           && (rul[i].NaN? <==> clipped[i].NaN?)
           && (rul[i].Finite? ==> clipped[i].Finite? && clipped[i].v <= clipValue && clipped[i].v <= rul[i].v
                                   && (clipped[i].v == rul[i].v || clipped[i].v == clipValue))
    ensures m in t.Names() && m != ClippedName(rulCol) ==>
      m in ClipRulTable(t, rulCol, clipValue).Names() &&
      ColumnNamed(ClipRulTable(t, rulCol, clipValue).cols, m) == ColumnNamed(t.cols, m)
    ensures HasColumn(ClipRulTable(t, rulCol, clipValue), rulCol) &&
      ColumnCells(ClipRulTable(t, rulCol, clipValue), rulCol) == ColumnCells(t, rulCol)
  {
    var cells := ClipColumn(ColumnCells(t, rulCol), clipValue);
    assert |ClippedName(rulCol)| == |rulCol| + 8;
    if rulCol in t.Names() {
      SetColumnOther(t, ClippedName(rulCol), cells, rulCol);
    }
    if m in t.Names() && m != ClippedName(rulCol) {
      SetColumnOther(t, ClippedName(rulCol), cells, m);
    }
  }

  // ------------------------------------------------------------ the object

  /**
   * The column `df.groupby(engine)[sensor].<transform>` gives for sensor
   * values x. Rolling min/max, shift and diff run as one-pass loops over arrays;
   * mean, std and slope come from the numeric parameters.
   */
  method ComputeFeature(x: seq<real>, ids: seq<int>, k: Kind, num: Numerics) returns (cells: seq<Num>)
    requires |x| == |ids| && KindOk(k)
    ensures cells == FeatureCells(x, ids, k, num)
  {
    var xa := new real[|x|](i requires 0 <= i < |x| => x[i]);
    var ia := new int[|ids|](i requires 0 <= i < |ids| => ids[i]);
    assert xa[..] == x && ia[..] == ids;
    match k {
      case RollMin(w) =>
        cells := RollingMinColumn(xa, ia, w);
      case RollMax(w) =>
        cells := RollingMaxColumn(xa, ia, w);
      case Shifted(lag) =>
        cells := ShiftColumn(xa, ia, lag);
      case Diffed =>
        cells := DiffColumn(xa, ia);
      case RollMean(_) =>
        cells := FeatureCells(x, ids, k, num);
      case RollStd(_) =>
        cells := FeatureCells(x, ids, k, num);
      case Slope(_) =>
        cells := FeatureCells(x, ids, k, num);
    }
  }

  /** One `df[f.name] = ...` assignment, given the source sensor's values x. */
  method AddFeatureColumn(df: Frame, sensors: seq<string>, f: Feature, x: seq<real>, num: Numerics)
    requires Ready(df.table, sensors) && FeatureOk(f, sensors) && x == SensorValues(df.table, f.source)
    modifies df
    ensures df.table == AddFeature(old(df.table), sensors, f, num)
    ensures x == SensorValues(df.table, f.source)
  {
    AddFeatureKeepsSensor(df.table, sensors, f, num, f.source);
    var cells := ComputeFeature(x, df.table.ids, f.kind, num);
    df.table := SetColumn(df.table, f.name, cells);
  }

  /**
   * The body of the sensor loop of `add_rolling_features`: the four rolling
   * columns of sensor n for window w, extending the pass over sensors 0..n-1.
   */
  method RollingStep(df: Frame, sensors: seq<string>, w: nat, n: nat, num: Numerics, ghost t: Table)
    requires Ready(t, sensors) && StageOk(Rolling, sensors) && ParamOk(Rolling, w) && n < |sensors|
    requires df.table == ApplyFeatures(t, sensors, SensorsPass(Rolling, sensors, w, n), num)
    modifies df
    ensures df.table == ApplyFeatures(t, sensors, SensorsPass(Rolling, sensors, w, n + 1), num)
  {
    ghost var t0 := df.table;
    var sensor := sensors[n];
    var x := SensorValues(df.table, sensor);
    var fs := FeaturesOf(Rolling, sensor, w);
    FeaturesOfOk(Rolling, sensor, w, sensors);
    assert fs[0] in fs && fs[1] in fs && fs[2] in fs && fs[3] in fs;
    AddFeatureColumn(df, sensors, fs[0], x, num);  // mean
    AddFeatureColumn(df, sensors, fs[1], x, num);  // std
    AddFeatureColumn(df, sensors, fs[2], x, num);  // min
    AddFeatureColumn(df, sensors, fs[3], x, num);  // max
    ApplyFour(t0, sensors, fs[0], fs[1], fs[2], fs[3], num);
    assert fs == [fs[0], fs[1], fs[2], fs[3]];
    ApplyConcat(t, sensors, SensorsPass(Rolling, sensors, w, n), fs, num);
  }

  /** The body of the sensor loop of `add_lag_features`: `{sensor}_lag_{k}` as the per-engine shift by k. */
  method LagStep(df: Frame, sensors: seq<string>, k: nat, n: nat, num: Numerics, ghost t: Table)
    requires Ready(t, sensors) && StageOk(Lagging, sensors) && n < |sensors|
    requires df.table == ApplyFeatures(t, sensors, SensorsPass(Lagging, sensors, k, n), num)
    modifies df
    ensures df.table == ApplyFeatures(t, sensors, SensorsPass(Lagging, sensors, k, n + 1), num)
  {
    ghost var t0 := df.table;
    var sensor := sensors[n];
    var x := SensorValues(df.table, sensor);
    var fs := FeaturesOf(Lagging, sensor, k);
    FeaturesOfOk(Lagging, sensor, k, sensors);
    assert fs[0] in fs;
    AddFeatureColumn(df, sensors, fs[0], x, num);
    ApplyOne(t0, sensors, fs[0], num);
    assert fs == [fs[0]];
    ApplyConcat(t, sensors, SensorsPass(Lagging, sensors, k, n), fs, num);
  }

  /** The body of the sensor loop of `add_trend_features`: `{sensor}_diff`, then `{sensor}_slope_{w}`. */
  method TrendStep(df: Frame, sensors: seq<string>, w: nat, n: nat, num: Numerics, ghost t: Table)
    requires Ready(t, sensors) && StageOk(Trend, sensors) && ParamOk(Trend, w) && n < |sensors|
    requires df.table == ApplyFeatures(t, sensors, SensorsPass(Trend, sensors, w, n), num)
    modifies df
    ensures df.table == ApplyFeatures(t, sensors, SensorsPass(Trend, sensors, w, n + 1), num)
  {
    ghost var t0 := df.table;
    var sensor := sensors[n];
    var x := SensorValues(df.table, sensor);
    var fs := FeaturesOf(Trend, sensor, w);
    FeaturesOfOk(Trend, sensor, w, sensors);
    assert fs[0] in fs && fs[1] in fs;
    AddFeatureColumn(df, sensors, fs[0], x, num);  // diff
    AddFeatureColumn(df, sensors, fs[1], x, num);  // slope
    ApplyTwo(t0, sensors, fs[0], fs[1], num);
    assert fs == [fs[0], fs[1]];
    ApplyConcat(t, sensors, SensorsPass(Trend, sensors, w, n), fs, num);
  }

  /** The two loops of `add_rolling_features`: windows outside, sensors inside. */
  method AddRollingColumns(df: Frame, sensors: seq<string>, windows: seq<nat>, num: Numerics)
    requires Ready(df.table, sensors) && StageOk(Rolling, sensors) && ParamsOk(Rolling, windows)
    modifies df
    ensures df.table == ApplyFeatures(old(df.table), sensors, ParamsPass(Rolling, sensors, windows, |windows|), num)
  {
    ghost var t0 := df.table;
    for k := 0 to |windows|
      invariant df.table == ApplyFeatures(t0, sensors, ParamsPass(Rolling, sensors, windows, k), num)
    {
      ghost var tk := df.table;
      for n := 0 to |sensors|
        invariant df.table == ApplyFeatures(tk, sensors, SensorsPass(Rolling, sensors, windows[k], n), num)
      {
        RollingStep(df, sensors, windows[k], n, num, tk);
      }
      ParamsPassStep(Rolling, t0, sensors, windows, k, num);
    }
  }

  /** The two loops of `add_lag_features`: for each lag, for each sensor, its lag column. */
  method AddLagColumns(df: Frame, sensors: seq<string>, lags: seq<nat>, num: Numerics)
    requires Ready(df.table, sensors) && StageOk(Lagging, sensors) && ParamsOk(Lagging, lags)
    modifies df
    ensures df.table == ApplyFeatures(old(df.table), sensors, ParamsPass(Lagging, sensors, lags, |lags|), num)
  {
    ghost var t0 := df.table;
    for k := 0 to |lags|
      invariant df.table == ApplyFeatures(t0, sensors, ParamsPass(Lagging, sensors, lags, k), num)
    {
      ghost var tk := df.table;
      for n := 0 to |sensors|
        invariant df.table == ApplyFeatures(tk, sensors, SensorsPass(Lagging, sensors, lags[k], n), num)
      {
        LagStep(df, sensors, lags[k], n, num, tk);
      }
      ParamsPassStep(Lagging, t0, sensors, lags, k, num);
    }
  }

  /**
   * `df[lag_cols] = df.groupby(engine)[lag_cols].fillna(method='bfill')`:
   * each column whose name contains `_lag_` back-filled within each engine by
   * the one-pass array method; the other columns are left alone.
   */
  method BackFillLagColumns(df: Frame)
    requires df.table.Valid()
    modifies df
    ensures df.table == BackFillLags(old(df.table), |old(df.table).cols|)
  {
    ghost var t := df.table;
    var ids := df.table.ids;
    var ia := new int[|ids|](i requires 0 <= i < |ids| => ids[i]);
    assert ia[..] == ids;
    for j := 0 to |df.table.cols|
      invariant df.table == BackFillLags(t, j) && ia[..] == t.ids
    {
      BackFillLagsStep(t, j);
      var c := df.table.cols[j];
      if IsLagColumn(c.name) {
        var ca := new Num[|c.cells|](i requires 0 <= i < |c.cells| => c.cells[i]);
        assert ca[..] == c.cells;
        var b := BackFillColumn(ca, ia);
        df.table := Table(df.table.ids, df.table.cycles, df.table.cols[j := Column(c.name, b[..])]);
      }
    }
  }

  class Preprocessor {
    const corrThreshold: real
    const varianceThreshold: real
    var sensorCols: seq<string>

    /** `__init__`: the thresholds, and the sensor columns of the frame it is built on. */
    constructor (df: Table, corrThreshold: real := DefaultCorrThreshold, varianceThreshold: real := DefaultVarianceThreshold)
      ensures this.corrThreshold == corrThreshold && this.varianceThreshold == varianceThreshold
      ensures sensorCols == SensorNames(df.Names())
    {
      this.corrThreshold := corrThreshold;
      this.varianceThreshold := varianceThreshold;
      sensorCols := SensorNames(df.Names());
    }

    /**
     * `clean_data`: the cleaned table and the four drop lists, and afterwards
     * `sensor_cols` lists the surviving sensor-named columns in order.
     */
    method CleanData(df: Table, variance: seq<Num> -> Num, absCorr: (seq<Num>, seq<Num>) -> Num)
      returns (r: Table, dropped: map<string, seq<string>>)
      requires df.Valid()
      modifies this
      ensures (r, dropped) == Clean(df, variance, absCorr, varianceThreshold, corrThreshold)
      ensures sensorCols == SensorNames(r.Names())
    {
      var t1, invalid := IdentifyInvalid(df);
      DropFlagged(df, HasInvalid);
      var (t2, constant) := RemoveConstant(t1, variance);
      var (t3, low) := RemoveLowVariance(t2, variance, varianceThreshold);
      var (t4, correlated) := RemoveCorrelated(t3, absCorr, corrThreshold);
      r := t4;
      dropped := map["invalid" := invalid, "constant" := constant, "low_variance" := low, "correlated" := correlated];
      sensorCols := SensorNames(r.Names());
    }

    /** `clip_rul`; a missing RUL column is pandas' KeyError, and then nothing changes. */
    method ClipRul(df: Frame, rulCol: string := "RUL", clipValue: real := DefaultRulClip) returns (r: Result<(), KeyError>)
      requires df.table.Valid()
      modifies df
      ensures r.Ok? <==> HasColumn(old(df.table), rulCol)
      ensures r.Ok? ==> df.table == ClipRulTable(old(df.table), rulCol, clipValue)
      ensures r.Err? ==> r.error == KeyError(rulCol) && df.table == old(df.table)
    {
      if !HasColumn(df.table, rulCol) {
        return Err(KeyError(rulCol));
      }
      df.table := ClipRulTable(df.table, rulCol, clipValue);
      r := Ok(());
    }

    /**
     * `add_rolling_features`: for each window, for each sensor, the rolling
     * mean, std, min and max columns, in that order.
     */
    method AddRollingFeatures(df: Frame, num: Numerics, windows: seq<nat> := DefaultWindows)
      requires Ready(df.table, sensorCols) && StageOk(Rolling, sensorCols) && ParamsOk(Rolling, windows)
      modifies df
      ensures df.table == ApplyFeatures(old(df.table), sensorCols, ParamsPass(Rolling, sensorCols, windows, |windows|), num)
    {
      AddRollingColumns(df, sensorCols, windows, num);
    }

    /**
     * `add_lag_features`: for each lag, for each sensor, the column shifted by
     * that lag within its engine; then every `_lag_` column back-filled within
     * its engine.
     */
    method AddLagFeatures(df: Frame, num: Numerics, lags: seq<nat> := DefaultLags)
      requires Ready(df.table, sensorCols) && StageOk(Lagging, sensorCols)
      modifies df
      ensures df.table == LaggedTable(old(df.table), sensorCols, lags, num)
    {
      LagsOk(lags);
      AddLagColumns(df, sensorCols, lags, num);
      BackFillLagColumns(df);
    }

    /**
     * `add_trend_features`: for each sensor its first difference and its
     * rolling slope; then NaN set to 0 in every `_diff` / `_slope_` column.
     */
    method AddTrendFeatures(df: Frame, num: Numerics, window: nat := DefaultTrendWindow)
      requires Ready(df.table, sensorCols) && StageOk(Trend, sensorCols) && ParamOk(Trend, window)
      modifies df
      ensures df.table == TrendedTable(old(df.table), sensorCols, window, num)
    {
      ghost var t0 := df.table;
      for n := 0 to |sensorCols|
        invariant df.table == ApplyFeatures(t0, sensorCols, SensorsPass(Trend, sensorCols, window, n), num)
      {
        TrendStep(df, sensorCols, window, n, num, t0);
      }
      df.table := ZeroFillTrends(df.table);
    }
  }
}
