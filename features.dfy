/**
 * The feature columns the preprocessor adds, as values: each is named after
 * its sensor and parameter, and computed from that sensor's values within each
 * engine. A feature step adds its features one `df[name] = ...` at a time, in
 * the order of its loops. Rolling mean and standard deviation and the
 * regression slope are float library numerics and enter as functions of the
 * window's values (`Numerics`).
 */
module Features {
  import opened Cells
  import opened Text
  import opened Tables
  import opened EngineGroups
  import opened SequenceTransforms

  /** Rolling mean, rolling standard deviation (NaN for one value) and the `polyfit` slope of a window. */
  datatype Numerics = Numerics(mean: seq<real> -> real, std: seq<real> -> Num, slope: seq<real> -> real)

  datatype Kind =
    | RollMean(w: nat) | RollStd(w: nat) | RollMin(w: nat) | RollMax(w: nat)
    | Shifted(k: nat)
    | Diffed
    | Slope(w: nat)

  /** A new column `name`, computed from the sensor column `source`. */
  datatype Feature = Feature(name: string, source: string, kind: Kind)

  /** What pandas accepts: `rolling(window=w, min_periods=m)` needs m <= w. */
  predicate KindOk(k: Kind) {
    match k
    case RollMean(w) => w >= 1
    case RollStd(w) => w >= 1
    case RollMin(w) => w >= 1
    case RollMax(w) => w >= 1
    case Slope(w) => w >= 2
    case _ => true
  }

  predicate AllFinite(cells: seq<Num>) {
    forall i :: 0 <= i < |cells| ==> cells[i].Finite?
  }

  /** The numbers in a column of finite cells; AsCells turns them back into the column. */
  function Values(cells: seq<Num>): (x: seq<real>)
    requires AllFinite(cells)
    ensures |x| == |cells| && AsCells(x) == cells
  {
    seq(|cells|, i requires 0 <= i < |cells| => cells[i].v)
  }

  /** The listed sensors are columns of a valid table, with finite cells only. */
  predicate Ready(t: Table, sensors: seq<string>) {
    && t.Valid()
    && forall s :: s in sensors ==> s in t.Names() && AllFinite(ColumnNamed(t.cols, s).cells)
  }

  /** The values of sensor column s. */
  function SensorValues(t: Table, s: string): (x: seq<real>)
    requires t.Valid() && s in t.Names() && AllFinite(ColumnNamed(t.cols, s).cells)
    ensures |x| == t.Rows()
  {
    Values(ColumnNamed(t.cols, s).cells)
  }

  /** The values of x over the rolling window of row i. */
  function WindowValues(x: seq<real>, ids: seq<int>, w: nat, i: nat): seq<real>
    requires |x| == |ids| && 1 <= w && i < |x|
  {
    var win := Window(ids, i, w);
    seq(|win|, t requires 0 <= t < |win| => x[win[t]])
  }

  /** The column a feature of the given kind computes from sensor values x. */
  function FeatureCells(x: seq<real>, ids: seq<int>, k: Kind, num: Numerics): (r: seq<Num>)
    requires |x| == |ids| && KindOk(k)
    ensures |r| == |x|
  {
    match k
    case RollMean(w) => seq(|x|, i requires 0 <= i < |x| => Finite(num.mean(WindowValues(x, ids, w, i))))
    case RollStd(w) => seq(|x|, i requires 0 <= i < |x| => num.std(WindowValues(x, ids, w, i)))
    case RollMin(w) => AsCells(RollingMin(x, ids, w))
    case RollMax(w) => AsCells(RollingMax(x, ids, w))
    case Shifted(lag) => Shift(x, ids, lag)
    case Diffed => Diff(x, ids)
    case Slope(w) =>
      seq(|x|, i requires 0 <= i < |x| =>
        if |Window(ids, i, w)| >= 2 then Finite(num.slope(WindowValues(x, ids, w, i))) else NaN)
  }

  predicate FeatureOk(f: Feature, sensors: seq<string>) {
    f.source in sensors && f.name !in sensors && KindOk(f.kind)
  }

  /** Features that read only listed sensors, never overwrite one, and have kinds pandas accepts. */
  predicate FeaturesOk(fs: seq<Feature>, sensors: seq<string>) {
    forall f :: f in fs ==> FeatureOk(f, sensors)
  }

  /** Setting a column that is not a listed sensor keeps the table ready and the sensors' contents. */
  lemma SetKeepsReady(t: Table, sensors: seq<string>, name: string, cells: seq<Num>)
    requires Ready(t, sensors) && name !in sensors && |cells| == t.Rows()
    ensures Ready(SetColumn(t, name, cells), sensors)
    ensures forall s :: s in sensors ==> ColumnNamed(SetColumn(t, name, cells).cols, s) == ColumnNamed(t.cols, s)
  {
    forall s | s in sensors
      ensures s in SetColumn(t, name, cells).Names()
      ensures ColumnNamed(SetColumn(t, name, cells).cols, s) == ColumnNamed(t.cols, s)
    {
      SetColumnOther(t, name, cells, s);
    }
  }

  /** `df[f.name] = <feature computed from df[f.source]>`. */
  function AddFeature(t: Table, sensors: seq<string>, f: Feature, num: Numerics): (r: Table)
    requires Ready(t, sensors) && FeatureOk(f, sensors)
    ensures Ready(r, sensors) && r.ids == t.ids && r.cycles == t.cycles
    ensures f.name in r.Names() && ColumnNamed(r.cols, f.name) == Column(f.name, FeatureCells(SensorValues(t, f.source), t.ids, f.kind, num))
  {
    var cells := FeatureCells(SensorValues(t, f.source), t.ids, f.kind, num);
    SetKeepsReady(t, sensors, f.name, cells);
    SetColumn(t, f.name, cells)
  }

  /** The features added one after another, in list order. */
  function ApplyFeatures(t: Table, sensors: seq<string>, fs: seq<Feature>, num: Numerics): (r: Table)
    requires Ready(t, sensors) && FeaturesOk(fs, sensors)
    ensures Ready(r, sensors) && r.ids == t.ids && r.cycles == t.cycles
    decreases |fs|
  {
    if fs == [] then t
    else
      var n := |fs| - 1;
      assert FeaturesOk(fs[..n], sensors) && fs[n] in fs;
      AddFeature(ApplyFeatures(t, sensors, fs[..n], num), sensors, fs[n], num)
  }

  /** Adding two lists of features is adding their concatenation. */
  lemma {:induction false} ApplyConcat(t: Table, sensors: seq<string>, a: seq<Feature>, b: seq<Feature>, num: Numerics)
    requires Ready(t, sensors) && FeaturesOk(a, sensors) && FeaturesOk(b, sensors)
    ensures FeaturesOk(a + b, sensors)
    ensures ApplyFeatures(t, sensors, a + b, num) == ApplyFeatures(ApplyFeatures(t, sensors, a, num), sensors, b, num)
    decreases |b|
  {
    if b == [] {
      assert a + b == a;
    } else {
      var n := |b| - 1;
      var ab := a + b;
      assert ab[..|ab| - 1] == a + b[..n];
      assert ab[|ab| - 1] == b[n];
      ApplyConcat(t, sensors, a, b[..n], num);
      ApplyLast(t, sensors, ab, num);
      ApplyLast(ApplyFeatures(t, sensors, a, num), sensors, b, num);
    }
  }

  /** One unfolding of ApplyFeatures: the last feature is added last. */
  lemma ApplyLast(t: Table, sensors: seq<string>, fs: seq<Feature>, num: Numerics)
    requires Ready(t, sensors) && FeaturesOk(fs, sensors) && fs != []
    ensures FeaturesOk(fs[..|fs| - 1], sensors) && FeatureOk(fs[|fs| - 1], sensors)
    ensures ApplyFeatures(t, sensors, fs, num) ==
      AddFeature(ApplyFeatures(t, sensors, fs[..|fs| - 1], num), sensors, fs[|fs| - 1], num)
  {
    assert fs[|fs| - 1] in fs;
  }

  // ---------------------------------------------------------- the stages

  function RollingName(s: string, stat: string, w: nat): string {
    s + "_rolling_" + stat + "_" + NatToString(w)
  }

  function LagName(s: string, k: nat): string {
    s + "_lag_" + NatToString(k)
  }

  function DiffName(s: string): string {
    s + "_diff"
  }

  function SlopeName(s: string, w: nat): string {
    s + "_slope_" + NatToString(w)
  }

  datatype Stage = Rolling | Lagging | Trend

  /** The columns one inner-loop iteration adds for sensor s and parameter p (window or lag). */
  function FeaturesOf(stage: Stage, s: string, p: nat): (fs: seq<Feature>)
    ensures forall j :: 0 <= j < |fs| ==> fs[j].source == s
    ensures ParamOk(stage, p) ==> forall j :: 0 <= j < |fs| ==> KindOk(fs[j].kind)
  {
    match stage
    case Rolling => [Feature(RollingName(s, "mean", p), s, RollMean(p)), Feature(RollingName(s, "std", p), s, RollStd(p)),
                     Feature(RollingName(s, "min", p), s, RollMin(p)), Feature(RollingName(s, "max", p), s, RollMax(p))]
    case Lagging => [Feature(LagName(s, p), s, Shifted(p))]
    case Trend => [Feature(DiffName(s), s, Diffed), Feature(SlopeName(s, p), s, Slope(p))]
  }

  /** Columns per sensor per parameter: 4 rolling statistics, 1 lag, a difference and a slope. */
  function PerSensor(stage: Stage): nat {
    match stage
    case Rolling => 4
    case Lagging => 1
    case Trend => 2
  }

  /** Sensor names free of the stage's marker, so that no feature of the stage overwrites a sensor. */
  predicate Unmarked(stage: Stage, name: string) {
    match stage
    case Rolling => !Contains(name, "_rolling_")
    case Lagging => !Contains(name, "_lag_")
    case Trend => !Contains(name, "_diff") && !Contains(name, "_slope_")
  }

  /** Windows of at least 1 (and of at least 2 for the slope, whose `min_periods` is 2); lags are any nat. */
  predicate ParamOk(stage: Stage, p: nat) {
    match stage
    case Rolling => p >= 1
    case Lagging => true
    case Trend => p >= 2
  }

  predicate StageOk(stage: Stage, sensors: seq<string>) {
    forall s :: s in sensors ==> Unmarked(stage, s)
  }

  predicate ParamsOk(stage: Stage, params: seq<nat>) {
    forall j :: 0 <= j < |params| ==> ParamOk(stage, params[j])
  }

  /** Any lags will do: `shift` accepts every non-negative lag. */
  lemma LagsOk(lags: seq<nat>)
    ensures ParamsOk(Lagging, lags)
  {
  }

  /** Every feature of a stage carries the stage's marker in its name, so it is never an unmarked sensor. */
  lemma FeaturesOfOk(stage: Stage, s: string, p: nat, sensors: seq<string>)
    requires s in sensors && StageOk(stage, sensors) && ParamOk(stage, p)
    ensures FeaturesOk(FeaturesOf(stage, s, p), sensors)
  {
    var n := NatToString(p);
    match stage
    case Rolling =>
      forall stat | stat in ["mean", "std", "min", "max"]
        ensures RollingName(s, stat, p) !in sensors
      {
        assert RollingName(s, stat, p) == s + "_rolling_" + (stat + "_" + n);
        ContainsInfix(s, "_rolling_", stat + "_" + n);
      }
    case Lagging =>
      ContainsInfix(s, "_lag_", n);
    case Trend =>
      assert DiffName(s) == s + "_diff" + "";
      ContainsInfix(s, "_diff", "");
      ContainsInfix(s, "_slope_", n);
  }

  /** The inner loop over the first n sensors, for parameter p. */
  function SensorsPass(stage: Stage, sensors: seq<string>, p: nat, n: nat): (fs: seq<Feature>)
    requires n <= |sensors| && StageOk(stage, sensors) && ParamOk(stage, p)
    ensures FeaturesOk(fs, sensors)
    decreases n
  {
    if n == 0 then []
    else
      FeaturesOfOk(stage, sensors[n - 1], p, sensors);
      SensorsPass(stage, sensors, p, n - 1) + FeaturesOf(stage, sensors[n - 1], p)
  }

  /** The outer loop over the first k parameters, each running the full inner loop. */
  function ParamsPass(stage: Stage, sensors: seq<string>, params: seq<nat>, k: nat): (fs: seq<Feature>)
    requires k <= |params| && StageOk(stage, sensors) && ParamsOk(stage, params)
    ensures FeaturesOk(fs, sensors)
    decreases k
  {
    if k == 0 then []
    else ParamsPass(stage, sensors, params, k - 1) + SensorsPass(stage, sensors, params[k - 1], |sensors|)
  }

  /** One more round of the outer loop: the full inner loop for parameter k, after rounds 0..k-1. */
  lemma ParamsPassStep(stage: Stage, t: Table, sensors: seq<string>, params: seq<nat>, k: nat, num: Numerics)
    requires Ready(t, sensors) && k < |params| && StageOk(stage, sensors) && ParamsOk(stage, params)
    ensures ApplyFeatures(t, sensors, ParamsPass(stage, sensors, params, k + 1), num) ==
      ApplyFeatures(ApplyFeatures(t, sensors, ParamsPass(stage, sensors, params, k), num), sensors,
                    SensorsPass(stage, sensors, params[k], |sensors|), num)
  {
    ApplyConcat(t, sensors, ParamsPass(stage, sensors, params, k), SensorsPass(stage, sensors, params[k], |sensors|), num);
  }

  /** k rounds of `size` columns each. */
  function Rounds(k: nat, size: nat): nat {
    if k == 0 then 0 else Rounds(k - 1, size) + size
  }

  lemma {:induction false} RoundsProduct(k: nat, size: nat)
    ensures Rounds(k, size) == k * size
  {
    if k > 0 {
      RoundsProduct(k - 1, size);
    }
  }

  /** The inner loop adds PerSensor columns per sensor. */
  lemma {:induction false} SensorsPassLength(stage: Stage, sensors: seq<string>, p: nat, n: nat)
    requires n <= |sensors| && StageOk(stage, sensors) && ParamOk(stage, p)
    ensures |SensorsPass(stage, sensors, p, n)| == Rounds(n, PerSensor(stage))
    decreases n
  {
    if n > 0 {
      SensorsPassLength(stage, sensors, p, n - 1);
    }
  }

  /** The outer loop adds one full inner loop per parameter. */
  lemma {:induction false} ParamsPassLength(stage: Stage, sensors: seq<string>, params: seq<nat>, k: nat)
    requires k <= |params| && StageOk(stage, sensors) && ParamsOk(stage, params)
    ensures |ParamsPass(stage, sensors, params, k)| == Rounds(k, Rounds(|sensors|, PerSensor(stage)))
    decreases k
  {
    if k > 0 {
      ParamsPassLength(stage, sensors, params, k - 1);
      ParamsPassRound(stage, sensors, params, k);
    }
  }

  /** The step of ParamsPassLength: round k adds one full inner loop to rounds 0..k-1. */
  lemma ParamsPassRound(stage: Stage, sensors: seq<string>, params: seq<nat>, k: nat)
    requires 0 < k <= |params| && StageOk(stage, sensors) && ParamsOk(stage, params)
    requires |ParamsPass(stage, sensors, params, k - 1)| == Rounds(k - 1, Rounds(|sensors|, PerSensor(stage)))
    ensures |ParamsPass(stage, sensors, params, k)| == Rounds(k, Rounds(|sensors|, PerSensor(stage)))
  {
    var prefix := ParamsPass(stage, sensors, params, k - 1);
    var last := SensorsPass(stage, sensors, params[k - 1], |sensors|);
    SensorsPassLength(stage, sensors, params[k - 1], |sensors|);
    assert |ParamsPass(stage, sensors, params, k)| == |prefix| + |last|;
  }

  /** One inner loop over all sensors adds `len(sensors) * PerSensor` columns. */
  lemma SensorsPassCount(stage: Stage, sensors: seq<string>, p: nat)
    requires StageOk(stage, sensors) && ParamOk(stage, p)
    ensures |SensorsPass(stage, sensors, p, |sensors|)| == |sensors| * PerSensor(stage)
  {
    SensorsPassLength(stage, sensors, p, |sensors|);
    RoundsProduct(|sensors|, PerSensor(stage));
  }

  /** The full pass adds `len(params) * len(sensors) * PerSensor` columns (4 per sensor and window when rolling). */
  lemma ParamsPassCount(stage: Stage, sensors: seq<string>, params: seq<nat>)
    requires StageOk(stage, sensors) && ParamsOk(stage, params)
    ensures |ParamsPass(stage, sensors, params, |params|)| == |params| * |sensors| * PerSensor(stage)
  {
    ParamsPassLength(stage, sensors, params, |params|);
    RoundsProduct(|sensors|, PerSensor(stage));
    RoundsProduct(|params|, |sensors| * PerSensor(stage));
    Reassociate(|params|, |sensors|, PerSensor(stage));
  }

  lemma Reassociate(a: nat, b: nat, c: nat)
    ensures a * (b * c) == a * b * c
  {
  }

  // ------------------------------------------------------ names and contents

  function FeatureNames(fs: seq<Feature>): seq<string> {
    seq(|fs|, j requires 0 <= j < |fs| => fs[j].name)
  }

  predicate Distinct(names: seq<string>) {
    forall a, b :: 0 <= a < b < |names| ==> names[a] != names[b]
  }

  /**
   * When no feature name repeats or is already a column, the features are
   * appended after the existing columns, one column each, in loop order.
   */
  lemma {:induction false} ApplyAppends(t: Table, sensors: seq<string>, fs: seq<Feature>, num: Numerics)
    requires Ready(t, sensors) && FeaturesOk(fs, sensors) && Distinct(t.Names() + FeatureNames(fs))
    ensures ApplyFeatures(t, sensors, fs, num).Names() == t.Names() + FeatureNames(fs)
    ensures |ApplyFeatures(t, sensors, fs, num).cols| == |t.cols| + |fs|
    decreases |fs|
  {
    if fs == [] {
      assert t.Names() + FeatureNames(fs) == t.Names();
    } else {
      var n := |fs| - 1;
      var all := t.Names() + FeatureNames(fs);
      assert FeatureNames(fs[..n]) == FeatureNames(fs)[..n];
      assert t.Names() + FeatureNames(fs[..n]) == all[..|all| - 1];
      assert all[|all| - 1] == fs[n].name;
      DistinctInit(all);
      ApplyLast(t, sensors, fs, num);
      ApplyAppends(t, sensors, fs[..n], num);
      var prev := ApplyFeatures(t, sensors, fs[..n], num);
      AddFeatureNew(prev, sensors, fs[n], num);
    }
  }

  /** Without its last name a distinct list stays distinct, and never held that name. */
  lemma DistinctInit(names: seq<string>)
    requires Distinct(names) && names != []
    ensures Distinct(names[..|names| - 1]) && names[|names| - 1] !in names[..|names| - 1]
  {
  }

  /** A feature with a new name is appended as the last column. */
  lemma AddFeatureNew(t: Table, sensors: seq<string>, f: Feature, num: Numerics)
    requires Ready(t, sensors) && FeatureOk(f, sensors) && f.name !in t.Names()
    ensures AddFeature(t, sensors, f, num).Names() == t.Names() + [f.name]
    ensures |AddFeature(t, sensors, f, num).cols| == |t.cols| + 1
  {
  }

  /** Adding a feature leaves every other existing column as it was. */
  lemma AddFeatureOther(t: Table, sensors: seq<string>, f: Feature, num: Numerics, m: string)
    requires Ready(t, sensors) && FeatureOk(f, sensors) && m in t.Names() && m != f.name
    ensures m in AddFeature(t, sensors, f, num).Names()
    ensures ColumnNamed(AddFeature(t, sensors, f, num).cols, m) == ColumnNamed(t.cols, m)
  {
    SetColumnOther(t, f.name, FeatureCells(SensorValues(t, f.source), t.ids, f.kind, num), m);
  }

  /** Applying features never changes a sensor column. */
  lemma {:induction false} ApplyKeepsSensors(t: Table, sensors: seq<string>, fs: seq<Feature>, num: Numerics, s: string)
    requires Ready(t, sensors) && FeaturesOk(fs, sensors) && s in sensors
    ensures ColumnNamed(ApplyFeatures(t, sensors, fs, num).cols, s) == ColumnNamed(t.cols, s)
    ensures SensorValues(ApplyFeatures(t, sensors, fs, num), s) == SensorValues(t, s)
    decreases |fs|
  {
    if fs != [] {
      var n := |fs| - 1;
      ApplyLast(t, sensors, fs, num);
      ApplyKeepsSensors(t, sensors, fs[..n], num, s);
      AddFeatureKeepsSensor(ApplyFeatures(t, sensors, fs[..n], num), sensors, fs[n], num, s);
    }
  }

  /** Adding a feature never changes a sensor column. */
  lemma AddFeatureKeepsSensor(t: Table, sensors: seq<string>, f: Feature, num: Numerics, s: string)
    requires Ready(t, sensors) && FeatureOk(f, sensors) && s in sensors
    ensures ColumnNamed(AddFeature(t, sensors, f, num).cols, s) == ColumnNamed(t.cols, s)
  {
    SetKeepsReady(t, sensors, f.name, FeatureCells(SensorValues(t, f.source), t.ids, f.kind, num));
  }

  /** One feature applied. */
  lemma ApplyOne(t: Table, sensors: seq<string>, f: Feature, num: Numerics)
    requires Ready(t, sensors) && FeatureOk(f, sensors)
    ensures FeaturesOk([f], sensors)
    ensures ApplyFeatures(t, sensors, [f], num) == AddFeature(t, sensors, f, num)
  {
    assert [f][..0] == [];
    ApplyLast(t, sensors, [f], num);
  }

  /** Two features applied in order. */
  lemma ApplyTwo(t: Table, sensors: seq<string>, a: Feature, b: Feature, num: Numerics)
    requires Ready(t, sensors) && FeatureOk(a, sensors) && FeatureOk(b, sensors)
    ensures FeaturesOk([a, b], sensors)
    ensures ApplyFeatures(t, sensors, [a, b], num) == AddFeature(AddFeature(t, sensors, a, num), sensors, b, num)
  {
    assert [a, b][..1] == [a];
    ApplyLast(t, sensors, [a, b], num);
    ApplyOne(t, sensors, a, num);
  }

  lemma PairsJoin(a: Feature, b: Feature, c: Feature, d: Feature)
    ensures [a, b] + [c, d] == [a, b, c, d]
  {
  }

  /** Four features applied in order, one assignment after another. */
  lemma ApplyFour(t: Table, sensors: seq<string>, a: Feature, b: Feature, c: Feature, d: Feature, num: Numerics)
    requires Ready(t, sensors) && FeatureOk(a, sensors) && FeatureOk(b, sensors) && FeatureOk(c, sensors) && FeatureOk(d, sensors)
    ensures FeaturesOk([a, b, c, d], sensors)
    ensures ApplyFeatures(t, sensors, [a, b, c, d], num) ==
      AddFeature(AddFeature(AddFeature(AddFeature(t, sensors, a, num), sensors, b, num), sensors, c, num), sensors, d, num)
  {
    ApplyTwo(t, sensors, a, b, num);
    var t2 := AddFeature(AddFeature(t, sensors, a, num), sensors, b, num);
    ApplyTwo(t2, sensors, c, d, num);
    PairsJoin(a, b, c, d);
    ApplyConcat(t, sensors, [a, b], [c, d], num);
  }

  /**
   * With distinct feature names, each feature's column ends up holding that
   * feature computed from the ORIGINAL sensor values.
   */
  lemma ApplyContents(t: Table, sensors: seq<string>, fs: seq<Feature>, num: Numerics, j: nat)
    requires Ready(t, sensors) && FeaturesOk(fs, sensors) && Distinct(FeatureNames(fs)) && j < |fs|
    ensures fs[j] in fs
    ensures fs[j].name in ApplyFeatures(t, sensors, fs, num).Names()
    ensures ColumnNamed(ApplyFeatures(t, sensors, fs, num).cols, fs[j].name) ==
      Column(fs[j].name, FeatureCells(SensorValues(t, fs[j].source), t.ids, fs[j].kind, num))
  {
    assert fs[j] in fs;
    ApplySplit(t, sensors, fs, j + 1, num);
    ContentsAt(t, sensors, fs, num, j);
    DistinctLater(fs, j, fs[j + 1..]);
    ApplyKeepsColumn(ApplyFeatures(t, sensors, fs[..j + 1], num), sensors, fs[j + 1..], num, fs[j].name);
  }

  /** With distinct names, no feature after feature j shares its name. */
  lemma DistinctLater(fs: seq<Feature>, j: nat, later: seq<Feature>)
    requires j < |fs| && Distinct(FeatureNames(fs)) && later == fs[j + 1..]
    ensures forall q :: 0 <= q < |later| ==> later[q].name != fs[j].name
  {
    forall q | 0 <= q < |later|
      ensures later[q].name != fs[j].name
    {
      DistinctNamesAt(fs, j, j + 1 + q);
    }
  }

  /** Adding a list of features is adding its first m, then the rest. */
  lemma ApplySplit(t: Table, sensors: seq<string>, fs: seq<Feature>, m: nat, num: Numerics)
    requires Ready(t, sensors) && FeaturesOk(fs, sensors) && m <= |fs|
    ensures FeaturesOk(fs[..m], sensors) && FeaturesOk(fs[m..], sensors)
    ensures ApplyFeatures(t, sensors, fs, num) == ApplyFeatures(ApplyFeatures(t, sensors, fs[..m], num), sensors, fs[m..], num)
  {
    FeaturesOkSplit(fs, m, sensors);
    ApplyConcat(t, sensors, fs[..m], fs[m..], num);
    SplitJoins(fs, m);
  }

  /** Right after feature j is added, its column holds that feature of the original sensor values. */
  lemma ContentsAt(t: Table, sensors: seq<string>, fs: seq<Feature>, num: Numerics, j: nat)
    requires Ready(t, sensors) && FeaturesOk(fs, sensors) && j < |fs|
    ensures fs[j] in fs && FeaturesOk(fs[..j + 1], sensors)
    ensures fs[j].name in ApplyFeatures(t, sensors, fs[..j + 1], num).Names()
    ensures ColumnNamed(ApplyFeatures(t, sensors, fs[..j + 1], num).cols, fs[j].name) ==
      Column(fs[j].name, FeatureCells(SensorValues(t, fs[j].source), t.ids, fs[j].kind, num))
  {
    assert fs[j] in fs;
    FeaturesOkSplit(fs, j + 1, sensors);
    var head := fs[..j + 1];
    assert head[j] == fs[j];
    ContentsLast(t, sensors, head, num, j);
  }

  lemma SplitJoins(fs: seq<Feature>, m: nat)
    requires m <= |fs|
    ensures fs[..m] + fs[m..] == fs
  {
  }

  /** Both parts of a list of acceptable features are acceptable. */
  lemma FeaturesOkSplit(fs: seq<Feature>, m: nat, sensors: seq<string>)
    requires FeaturesOk(fs, sensors) && m <= |fs|
    ensures FeaturesOk(fs[..m], sensors) && FeaturesOk(fs[m..], sensors)
  {
    forall f | f in fs[..m] ensures FeatureOk(f, sensors) {
      assert f in fs;
    }
    forall f | f in fs[m..] ensures FeatureOk(f, sensors) {
      assert f in fs;
    }
  }

  /** Features named differently from an existing column keep that column as it was. */
  lemma {:induction false} ApplyKeepsColumn(t: Table, sensors: seq<string>, gs: seq<Feature>, num: Numerics, name: string)
    requires Ready(t, sensors) && FeaturesOk(gs, sensors) && name in t.Names()
    requires forall q :: 0 <= q < |gs| ==> gs[q].name != name
    ensures name in ApplyFeatures(t, sensors, gs, num).Names()
    ensures ColumnNamed(ApplyFeatures(t, sensors, gs, num).cols, name) == ColumnNamed(t.cols, name)
    decreases |gs|
  {
    if gs != [] {
      var n := |gs| - 1;
      ApplyLast(t, sensors, gs, num);
      ApplyKeepsColumn(t, sensors, gs[..n], num, name);
      AddFeatureOther(ApplyFeatures(t, sensors, gs[..n], num), sensors, gs[n], num, name);
    }
  }

  /** The last feature's column holds that feature of the original sensor values. */
  lemma ContentsLast(t: Table, sensors: seq<string>, fs: seq<Feature>, num: Numerics, j: nat)
    requires Ready(t, sensors) && FeaturesOk(fs, sensors) && j == |fs| - 1
    ensures fs[j] in fs
    ensures fs[j].name in ApplyFeatures(t, sensors, fs, num).Names()
    ensures ColumnNamed(ApplyFeatures(t, sensors, fs, num).cols, fs[j].name) ==
      Column(fs[j].name, FeatureCells(SensorValues(t, fs[j].source), t.ids, fs[j].kind, num))
  {
    var n := |fs| - 1;
    var f := fs[n];
    assert f in fs;
    ApplyLast(t, sensors, fs, num);
    ApplyKeepsSensors(t, sensors, fs[..n], num, f.source);
    var prev := ApplyFeatures(t, sensors, fs[..n], num);
    assert ApplyFeatures(t, sensors, fs, num) == AddFeature(prev, sensors, f, num);
  }

  lemma DistinctNamesAt(fs: seq<Feature>, a: nat, b: nat)
    requires a < b < |fs| && Distinct(FeatureNames(fs))
    ensures fs[a].name != fs[b].name
  {
    assert FeatureNames(fs)[a] == fs[a].name && FeatureNames(fs)[b] == fs[b].name;
  }

  /** A feature listed once, by membership rather than by index. */
  lemma ApplyContentsOf(t: Table, sensors: seq<string>, fs: seq<Feature>, num: Numerics, f: Feature)
    requires Ready(t, sensors) && FeaturesOk(fs, sensors) && Distinct(FeatureNames(fs)) && f in fs
    ensures f.name in ApplyFeatures(t, sensors, fs, num).Names()
    ensures ColumnNamed(ApplyFeatures(t, sensors, fs, num).cols, f.name) ==
      Column(f.name, FeatureCells(SensorValues(t, f.source), t.ids, f.kind, num))
  {
    var j :| 0 <= j < |fs| && fs[j] == f;
    ApplyContents(t, sensors, fs, num, j);
  }

  /** The inner loop over the first m sensors adds the features of each of them. */
  lemma {:induction false} SensorsPassHas(stage: Stage, sensors: seq<string>, p: nat, n: nat, m: nat, f: Feature)
    requires n < m <= |sensors| && StageOk(stage, sensors) && ParamOk(stage, p)
    requires f in FeaturesOf(stage, sensors[n], p)
    ensures f in SensorsPass(stage, sensors, p, m)
    decreases m
  {
    if n < m - 1 {
      SensorsPassHas(stage, sensors, p, n, m - 1, f);
    }
  }

  /** The outer loop over the first l parameters adds the features of each sensor for each of them. */
  lemma {:induction false} ParamsPassHas(stage: Stage, sensors: seq<string>, params: seq<nat>, k: nat, l: nat, n: nat, f: Feature)
    requires k < l <= |params| && n < |sensors| && StageOk(stage, sensors) && ParamsOk(stage, params)
    requires f in FeaturesOf(stage, sensors[n], params[k])
    ensures f in ParamsPass(stage, sensors, params, l)
    decreases l
  {
    var prefix := ParamsPass(stage, sensors, params, l - 1);
    var last := SensorsPass(stage, sensors, params[l - 1], |sensors|);
    if k < l - 1 {
      ParamsPassHas(stage, sensors, params, k, l - 1, n, f);
    } else {
      SensorsPassHas(stage, sensors, params[k], n, |sensors|, f);
    }
    assert f in prefix || f in last;
  }

  /**
   * After a full pass over parameters and sensors with distinct feature
   * names, each (parameter, sensor) feature column holds that feature of the
   * sensor's original values.
   */
  lemma ParamsPassColumn(stage: Stage, t: Table, sensors: seq<string>, params: seq<nat>, num: Numerics, k: nat, n: nat, f: Feature)
    requires Ready(t, sensors) && StageOk(stage, sensors) && ParamsOk(stage, params)
    requires k < |params| && n < |sensors| && f in FeaturesOf(stage, sensors[n], params[k])
    requires Distinct(FeatureNames(ParamsPass(stage, sensors, params, |params|)))
    ensures f.name in ApplyFeatures(t, sensors, ParamsPass(stage, sensors, params, |params|), num).Names()
    ensures ColumnNamed(ApplyFeatures(t, sensors, ParamsPass(stage, sensors, params, |params|), num).cols, f.name) ==
      Column(f.name, FeatureCells(SensorValues(t, sensors[n]), t.ids, f.kind, num))
  {
    ParamsPassHas(stage, sensors, params, k, |params|, n, f);
    ApplyContentsOf(t, sensors, ParamsPass(stage, sensors, params, |params|), num, f);
  }

  /** The same for a single pass over the sensors with one parameter. */
  lemma SensorsPassColumn(stage: Stage, t: Table, sensors: seq<string>, p: nat, num: Numerics, n: nat, f: Feature)
    requires Ready(t, sensors) && StageOk(stage, sensors) && ParamOk(stage, p)
    requires n < |sensors| && f in FeaturesOf(stage, sensors[n], p)
    requires Distinct(FeatureNames(SensorsPass(stage, sensors, p, |sensors|)))
    ensures f.name in ApplyFeatures(t, sensors, SensorsPass(stage, sensors, p, |sensors|), num).Names()
    ensures ColumnNamed(ApplyFeatures(t, sensors, SensorsPass(stage, sensors, p, |sensors|), num).cols, f.name) ==
      Column(f.name, FeatureCells(SensorValues(t, sensors[n]), t.ids, f.kind, num))
  {
    SensorsPassHas(stage, sensors, p, n, |sensors|, f);
    ApplyContentsOf(t, sensors, SensorsPass(stage, sensors, p, |sensors|), num, f);
  }

  // ----------------------------------------------------------- the fills

  /** `'_lag_' in c`. */
  predicate IsLagColumn(name: string) {
    Contains(name, "_lag_")
  }

  /** `'_diff' in c or '_slope_' in c`. */
  predicate IsTrendColumn(name: string) {
    Contains(name, "_diff") || Contains(name, "_slope_")
  }

  /** Every lag feature's name carries the `_lag_` marker. */
  lemma LagNameMarked(s: string, k: nat)
    ensures IsLagColumn(LagName(s, k))
  {
    ContainsInfix(s, "_lag_", NatToString(k));
  }

  /** Every difference feature's name carries the `_diff` marker. */
  lemma DiffNameMarked(s: string)
    ensures IsTrendColumn(DiffName(s))
  {
    assert DiffName(s) == s + "_diff" + "";
    ContainsInfix(s, "_diff", "");
  }

  /** Every slope feature's name carries the `_slope_` marker. */
  lemma SlopeNameMarked(s: string, w: nat)
    ensures IsTrendColumn(SlopeName(s, w))
  {
    ContainsInfix(s, "_slope_", NatToString(w));
  }

  /**
   * `df[lag_cols] = df.groupby(engine)[lag_cols].fillna(method='bfill')` over
   * the first `upTo` columns: every column named with `_lag_` (old ones
   * included) back-filled within each engine.
   */
  function BackFillLags(t: Table, upTo: nat): (r: Table)
    requires t.Valid()
    ensures r.Valid() && r.ids == t.ids && r.cycles == t.cycles && r.Names() == t.Names()
    ensures |r.cols| == |t.cols|
  {
    var r := Table(t.ids, t.cycles, seq(|t.cols|, j requires 0 <= j < |t.cols| =>
      if j < upTo && IsLagColumn(t.cols[j].name) then Column(t.cols[j].name, BackFill(t.cols[j].cells, t.ids)) else t.cols[j]));
    assert r.Names() == t.Names();
    r
  }

  /** `df[trend_cols] = df.groupby(engine)[trend_cols].fillna(0)`: NaN becomes 0 in every `_diff` / `_slope_` column. */
  function ZeroFillTrends(t: Table): (r: Table)
    requires t.Valid()
    ensures r.Valid() && r.ids == t.ids && r.cycles == t.cycles && r.Names() == t.Names()
    ensures |r.cols| == |t.cols|
  {
    var r := Table(t.ids, t.cycles, seq(|t.cols|, j requires 0 <= j < |t.cols| =>
      if IsTrendColumn(t.cols[j].name) then Column(t.cols[j].name, FillNaN(t.cols[j].cells, 0.0)) else t.cols[j]));
    assert r.Names() == t.Names();
    r
  }

  /** One more column of the back-fill pass. */
  lemma BackFillLagsStep(t: Table, j: nat)
    requires t.Valid() && j < |t.cols|
    ensures BackFillLags(t, j).cols[j] == t.cols[j]
    ensures !IsLagColumn(t.cols[j].name) ==> BackFillLags(t, j + 1) == BackFillLags(t, j)
    ensures IsLagColumn(t.cols[j].name) ==>
      BackFillLags(t, j + 1) == Table(t.ids, t.cycles, BackFillLags(t, j).cols[j := Column(t.cols[j].name, BackFill(t.cols[j].cells, t.ids))])
  {
    if IsLagColumn(t.cols[j].name) {
      var c := Column(t.cols[j].name, BackFill(t.cols[j].cells, t.ids));
      assert BackFillLags(t, j + 1).cols == BackFillLags(t, j).cols[j := c];
    } else {
      assert BackFillLags(t, j + 1).cols == BackFillLags(t, j).cols;
    }
  }

  /** `add_lag_features` as a whole: the lag columns of every (lag, sensor) pair, then the back-fill. */
  function LaggedTable(t: Table, sensors: seq<string>, lags: seq<nat>, num: Numerics): (r: Table)
    requires Ready(t, sensors) && StageOk(Lagging, sensors)
    ensures r.Valid() && r.ids == t.ids && r.cycles == t.cycles
  {
    var a := ApplyFeatures(t, sensors, ParamsPass(Lagging, sensors, lags, |lags|), num);
    BackFillLags(a, |a.cols|)
  }

  /** `add_trend_features` as a whole: the difference and slope of every sensor, then the zero fill. */
  function TrendedTable(t: Table, sensors: seq<string>, window: nat, num: Numerics): (r: Table)
    requires Ready(t, sensors) && StageOk(Trend, sensors) && ParamOk(Trend, window)
    ensures r.Valid() && r.ids == t.ids && r.cycles == t.cycles
  {
    ZeroFillTrends(ApplyFeatures(t, sensors, SensorsPass(Trend, sensors, window, |sensors|), num))
  }

  /** The column at index j of a valid table is the one its name looks up. */
  lemma ColumnAt(t: Table, j: nat)
    requires t.Valid() && j < |t.cols|
    ensures t.cols[j].name in t.Names() && ColumnNamed(t.cols, t.cols[j].name) == t.cols[j]
  {
    NamesOfMember(t.cols, t.cols[j]);
  }

  /** After the back-fill, a `_lag_` column holds its old cells back-filled per engine; any other column is as it was. */
  lemma BackFillLagsMeans(t: Table, name: string)
    requires t.Valid() && name in t.Names()
    ensures name in BackFillLags(t, |t.cols|).Names()
    ensures ColumnNamed(BackFillLags(t, |t.cols|).cols, name) ==
      if IsLagColumn(name) then Column(name, BackFill(ColumnNamed(t.cols, name).cells, t.ids)) else ColumnNamed(t.cols, name)
  {
    var r := BackFillLags(t, |t.cols|);
    var j := NamesOfOwner(t.cols, name);
    ColumnAt(t, j);
    ColumnAt(r, j);
  }

  /** After the zero fill, a `_diff` / `_slope_` column holds its old cells with NaN as 0; any other column is as it was. */
  lemma ZeroFillTrendsMeans(t: Table, name: string)
    requires t.Valid() && name in t.Names()
    ensures name in ZeroFillTrends(t).Names()
    ensures ColumnNamed(ZeroFillTrends(t).cols, name) ==
      if IsTrendColumn(name) then Column(name, FillNaN(ColumnNamed(t.cols, name).cells, 0.0)) else ColumnNamed(t.cols, name)
  {
    var r := ZeroFillTrends(t);
    var j := NamesOfOwner(t.cols, name);
    ColumnAt(t, j);
    ColumnAt(r, j);
  }
}
