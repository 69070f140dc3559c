/**
 * The column-cleaning rules of the preprocessor: which columns each step
 * drops, and in which order. Per-column variances and absolute pairwise
 * correlations are float library output, so they enter as functions of the
 * column cells (`variance`, `absCorr`); every comparison with them follows
 * float rules, under which NaN compares false.
 */
module Cleaning {
  import opened Cells
  import opened Tables
  import opened Text

  /** `'sensor' in c` (case-sensitive, as the three sensor-selecting steps test it). */
  predicate IsSensor(name: string) {
    Contains(name, "sensor")
  }

  /** `df[col].isna().any() or np.isinf(df[col]).any()`. */
  predicate HasInvalid(c: Column) {
    exists i :: 0 <= i < |c.cells| && IsInvalid(c.cells[i])
  }

  /** The columns c with p(c) == want, in column order. */
  function Select(cols: seq<Column>, p: Column -> bool, want: bool): (r: seq<Column>)
    ensures forall c :: c in r <==> c in cols && p(c) == want
    ensures Subsequence(r, cols)
    decreases |cols|
  {
    if cols == [] then []
    else
      var n := |cols| - 1;
      var rest := Select(cols[..n], p, want);
      if p(cols[n]) == want then
        assert (rest + [cols[n]])[..|rest|] == rest;
        rest + [cols[n]]
      else
        assert rest != [] ==> rest[|rest| - 1] in rest;
        rest
  }

  /** Selecting on one polarity keeps the names of selected columns and never the others. */
  lemma SelectNames(cols: seq<Column>, p: Column -> bool, want: bool, name: string)
    requires DistinctNames(cols)
    ensures name in NamesOf(Select(cols, p, want)) <==>
      exists j :: 0 <= j < |cols| && cols[j].name == name && p(cols[j]) == want
  {
    var r := Select(cols, p, want);
    if name in NamesOf(r) {
      var u :| 0 <= u < |r| && NamesOf(r)[u] == name;
      assert r[u] in cols;
      var j :| 0 <= j < |cols| && cols[j] == r[u];
    }
    if j :| 0 <= j < |cols| && cols[j].name == name && p(cols[j]) == want {
      NamesOfMember(r, cols[j]);
    }
  }

  /** Dropping a list of names that flags exactly the p-columns leaves exactly the other columns, in order. */
  lemma {:induction false} WithoutSelected(cols: seq<Column>, drop: seq<string>, p: Column -> bool)
    requires forall j :: 0 <= j < |cols| ==> (cols[j].name in drop <==> p(cols[j]))
    ensures Without(cols, drop) == Select(cols, p, false)
    decreases |cols|
  {
    if cols != [] {
      WithoutSelected(cols[..|cols| - 1], drop, p);
    }
  }

  /** A step's drop list: the names of the columns p selects, in column order. */
  function Flagged(cols: seq<Column>, p: Column -> bool): seq<string> {
    NamesOf(Select(cols, p, true))
  }

  /**
   * A step that drops the columns p flags: the flagged names, and a table that
   * keeps every other column unchanged and in order.
   */
  lemma DropFlagged(t: Table, p: Column -> bool)
    requires t.Valid()
    ensures forall d :: d in Flagged(t.cols, p) ==> d in t.Names()
    ensures DropColumns(t, Flagged(t.cols, p)).cols == Select(t.cols, p, false)
  {
    var drop := Flagged(t.cols, p);
    forall d | d in drop
      ensures d in t.Names()
    {
      SelectNames(t.cols, p, true, d);
      var j :| 0 <= j < |t.cols| && t.cols[j].name == d && p(t.cols[j]);
      NamesOfMember(t.cols, t.cols[j]);
    }
    forall j | 0 <= j < |t.cols|
      ensures t.cols[j].name in drop <==> p(t.cols[j])
    {
      SelectNames(t.cols, p, true, t.cols[j].name);
    }
    WithoutSelected(t.cols, drop, p);
  }

  // -------------------------------------------------------------- the rules

  /** Rule of `remove_constant_sensors`: a sensor column whose variance equals 0. */
  function ConstantRule(variance: seq<Num> -> Num): Column -> bool {
    (c: Column) => IsSensor(c.name) && EqualsZero(variance(c.cells))
  }

  /** Rule of `remove_low_variance_sensors`: a sensor column whose variance is below the threshold. */
  function LowVarianceRule(variance: seq<Num> -> Num, threshold: real): Column -> bool {
    (c: Column) => IsSensor(c.name) && LessThan(variance(c.cells), threshold)
  }

  function SensorRule(): Column -> bool {
    (c: Column) => IsSensor(c.name)
  }

  /** The sensor columns, in column order; the rows and columns of the correlation matrix. */
  function Sensors(cols: seq<Column>): seq<Column> {
    Select(cols, SensorRule(), true)
  }

  /** Sensor j is flagged by some earlier sensor whose absolute correlation with it exceeds the threshold. */
  predicate Redundant(s: seq<Column>, absCorr: (seq<Num>, seq<Num>) -> Num, threshold: real, j: nat)
    requires j < |s|
  {
    exists r :: 0 <= r < j && GreaterThan(absCorr(s[r].cells, s[j].cells), threshold)
  }

  /**
   * `[c for c in upper.columns if any(upper[c] > threshold)]` over the first n
   * sensors, where `upper` keeps the strictly upper triangle, so column c
   * holds the correlations with the sensors before c.
   */
  function CorrelatedAmong(s: seq<Column>, absCorr: (seq<Num>, seq<Num>) -> Num, threshold: real, n: nat): (r: seq<string>)
    requires n <= |s|
    ensures |r| <= n
    decreases n
  {
    if n == 0 then []
    else
      CorrelatedAmong(s, absCorr, threshold, n - 1)
        + (if Redundant(s, absCorr, threshold, n - 1) then [s[n - 1].name] else [])
  }

  function Correlated(cols: seq<Column>, absCorr: (seq<Num>, seq<Num>) -> Num, threshold: real): seq<string> {
    var s := Sensors(cols);
    CorrelatedAmong(s, absCorr, threshold, |s|)
  }

  /** Sensor j (of distinctly named sensors) is in the correlated drop list exactly when it is redundant. */
  lemma {:induction false} CorrelatedAmongMember(s: seq<Column>, absCorr: (seq<Num>, seq<Num>) -> Num, threshold: real, n: nat, j: nat)
    requires n <= |s| && j < |s| && DistinctNames(s)
    ensures s[j].name in CorrelatedAmong(s, absCorr, threshold, n) <==> j < n && Redundant(s, absCorr, threshold, j)
    decreases n
  {
    if n > 0 {
      CorrelatedAmongMember(s, absCorr, threshold, n - 1, j);
    }
  }

  /** Every name on the correlated list is a sensor column's. */
  lemma {:induction false} CorrelatedAmongSensors(s: seq<Column>, absCorr: (seq<Num>, seq<Num>) -> Num, threshold: real, n: nat, d: string)
    requires n <= |s| && d in CorrelatedAmong(s, absCorr, threshold, n)
    ensures exists j :: 0 <= j < n && s[j].name == d
    decreases n
  {
    var rest := CorrelatedAmong(s, absCorr, threshold, n - 1);
    if d in rest {
      CorrelatedAmongSensors(s, absCorr, threshold, n - 1, d);
    } else {
      assert s[n - 1].name == d;
    }
  }

  // --------------------------------------------------------------- the steps

  /** `remove_constant_sensors`: the cleaned table and the dropped names. */
  function RemoveConstant(t: Table, variance: seq<Num> -> Num): (r: (Table, seq<string>))
    requires t.Valid()
    ensures r.0.Valid() && r.0.ids == t.ids && r.0.cycles == t.cycles
    ensures r.1 == Flagged(t.cols, ConstantRule(variance))
    ensures r.0.cols == Select(t.cols, ConstantRule(variance), false)
  {
    var drop := Flagged(t.cols, ConstantRule(variance));
    DropFlagged(t, ConstantRule(variance));
    (DropColumns(t, drop), drop)
  }

  /** `remove_low_variance_sensors`: the cleaned table and the dropped names. */
  function RemoveLowVariance(t: Table, variance: seq<Num> -> Num, threshold: real): (r: (Table, seq<string>))
    requires t.Valid()
    ensures r.0.Valid() && r.0.ids == t.ids && r.0.cycles == t.cycles
    ensures r.1 == Flagged(t.cols, LowVarianceRule(variance, threshold))
    ensures r.0.cols == Select(t.cols, LowVarianceRule(variance, threshold), false)
  {
    var drop := Flagged(t.cols, LowVarianceRule(variance, threshold));
    DropFlagged(t, LowVarianceRule(variance, threshold));
    (DropColumns(t, drop), drop)
  }

  /** `remove_correlated_sensors`: the cleaned table and the dropped names. */
  function RemoveCorrelated(t: Table, absCorr: (seq<Num>, seq<Num>) -> Num, threshold: real): (r: (Table, seq<string>))
    requires t.Valid()
    ensures r.0.Valid() && r.0.ids == t.ids && r.0.cycles == t.cycles
    ensures r.1 == Correlated(t.cols, absCorr, threshold)
    ensures forall c :: c in r.0.cols <==> c in t.cols && c.name !in r.1
    ensures Subsequence(r.0.cols, t.cols)
  {
    var s := Sensors(t.cols);
    var drop := Correlated(t.cols, absCorr, threshold);
    forall d | d in drop
      ensures d in t.Names()
    {
      CorrelatedAmongSensors(s, absCorr, threshold, |s|, d);
      var j :| 0 <= j < |s| && s[j].name == d;
      NamesOfMember(t.cols, s[j]);
    }
    (DropColumns(t, drop), drop)
  }

  /**
   * `identify_invalid`: one pass over the columns collecting those with a NaN
   * or infinite cell, then the table without them.
   */
  method IdentifyInvalid(t: Table) returns (r: Table, invalid: seq<string>)
    requires t.Valid()
    ensures invalid == Flagged(t.cols, HasInvalid)
    ensures r.Valid() && r.ids == t.ids && r.cycles == t.cycles
    ensures r.cols == Select(t.cols, HasInvalid, false)
  {
    invalid := [];
    for j := 0 to |t.cols|
      invariant invalid == Flagged(t.cols[..j], HasInvalid)
    {
      assert t.cols[..j + 1][..j] == t.cols[..j];
      if HasInvalid(t.cols[j]) {
        invalid := invalid + [t.cols[j].name];
      }
    }
    assert t.cols[..|t.cols|] == t.cols;
    DropFlagged(t, HasInvalid);
    r := DropColumns(t, invalid);
  }

  // ---------------------------------------------------------- what they mean

  /**
   * `identify_invalid` names exactly the columns, of any kind, holding a NaN or
   * infinite cell; the table it returns holds no such cell.
   */
  lemma InvalidMeans(t: Table, name: string)
    requires t.Valid()
    ensures name in Flagged(t.cols, HasInvalid) <==>
      exists j, i :: 0 <= j < |t.cols| && t.cols[j].name == name && 0 <= i < |t.cols[j].cells| && IsInvalid(t.cols[j].cells[i])
    ensures forall c, i :: c in Select(t.cols, HasInvalid, false) && 0 <= i < |c.cells| ==> c.cells[i].Finite?
  {
    SelectNames(t.cols, HasInvalid, true, name);
  }

  /**
   * The constant step drops exactly the sensor columns whose variance is 0;
   * a NaN variance (a one-row table) is kept, and non-sensor columns are never dropped.
   */
  lemma ConstantMeans(t: Table, variance: seq<Num> -> Num, name: string)
    requires t.Valid()
    ensures name in RemoveConstant(t, variance).1 <==>
      exists j :: 0 <= j < |t.cols| && t.cols[j].name == name && IsSensor(name) && variance(t.cols[j].cells) == Finite(0.0)
    ensures !IsSensor(name) ==> name !in RemoveConstant(t, variance).1
    ensures forall j :: 0 <= j < |t.cols| && variance(t.cols[j].cells).NaN? ==> t.cols[j] in RemoveConstant(t, variance).0.cols
  {
    var p := ConstantRule(variance);
    SelectNames(t.cols, p, true, name);
    var kept := RemoveConstant(t, variance).0.cols;
    assert kept == Select(t.cols, p, false);
    forall j | 0 <= j < |t.cols| && variance(t.cols[j].cells).NaN?
      ensures t.cols[j] in kept
    {
      assert !p(t.cols[j]);
    }
  }

  /**
   * The low-variance step drops exactly the sensor columns whose variance is
   * strictly below the threshold; NaN and +inf variances are kept, and so are non-sensor columns.
   */
  lemma LowVarianceMeans(t: Table, variance: seq<Num> -> Num, threshold: real, name: string)
    requires t.Valid()
    ensures name in RemoveLowVariance(t, variance, threshold).1 <==>
      exists j :: 0 <= j < |t.cols| && t.cols[j].name == name && IsSensor(name) && LessThan(variance(t.cols[j].cells), threshold)
    ensures !IsSensor(name) ==> name !in RemoveLowVariance(t, variance, threshold).1
    ensures forall j :: 0 <= j < |t.cols| && variance(t.cols[j].cells) == Finite(threshold) ==>
      t.cols[j] in RemoveLowVariance(t, variance, threshold).0.cols
    ensures forall j :: 0 <= j < |t.cols| && variance(t.cols[j].cells).NaN? ==>
      t.cols[j] in RemoveLowVariance(t, variance, threshold).0.cols
  {
    var p := LowVarianceRule(variance, threshold);
    SelectNames(t.cols, p, true, name);
    var kept := RemoveLowVariance(t, variance, threshold).0.cols;
    assert kept == Select(t.cols, p, false);
    forall j | 0 <= j < |t.cols| && !LessThan(variance(t.cols[j].cells), threshold)
      ensures t.cols[j] in kept
    {
      assert !p(t.cols[j]);
    }
  }

  /**
   * The correlated step drops sensor j exactly when some earlier sensor's
   * absolute correlation with it is strictly above the threshold, whether or
   * not that earlier sensor is dropped too; so the first sensor always stays,
   * and a correlation equal to the threshold drops nothing.
   */
  lemma CorrelatedMeans(t: Table, absCorr: (seq<Num>, seq<Num>) -> Num, threshold: real, j: nat)
    requires t.Valid() && j < |Sensors(t.cols)|
    ensures Sensors(t.cols)[j].name in RemoveCorrelated(t, absCorr, threshold).1 <==>
      exists r :: 0 <= r < j && GreaterThan(absCorr(Sensors(t.cols)[r].cells, Sensors(t.cols)[j].cells), threshold)
    ensures j == 0 ==> Sensors(t.cols)[0] in RemoveCorrelated(t, absCorr, threshold).0.cols
  {
    var s := Sensors(t.cols);
    SubsequenceDistinct(s, t.cols);
    CorrelatedAmongMember(s, absCorr, threshold, |s|, j);
  }
}
