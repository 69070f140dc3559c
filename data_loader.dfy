/**
 * The loader: the fixed 31-name column schema, the drop of columns that are
 * entirely missing, the `train`/other dispatch, and the training split's
 * Remaining Useful Life label. Reading the whitespace-separated file is I/O
 * and is left out: the loader starts here from the table `read_csv` yields.
 */
module DataLoader {
  import opened Wrappers
  import opened Cells
  import opened Text
  import opened Tables
  import opened Cleaning

  // ---------------------------------------------------------------- schema

  function SettingName(i: nat): string {
    "operational_setting_" + NatToString(i)
  }

  function SensorName(i: nat): string {
    "sensor_" + NatToString(i)
  }

  /** `self.columns`: the two keys, operational settings 1 to 3 and sensors 1 to 26. */
  function Schema(): (s: seq<string>)
    ensures |s| == 31 && s[0] == "engine_id" && s[1] == "time_cycles"
    ensures forall i :: 1 <= i <= 3 ==> s[1 + i] == SettingName(i)
    ensures forall i :: 1 <= i <= 26 ==> s[4 + i] == SensorName(i)
  {
    ["engine_id", "time_cycles"]
      + seq(3, i requires 0 <= i < 3 => SettingName(i + 1))
      + seq(26, i requires 0 <= i < 26 => SensorName(i + 1))
  }

  /** The schema names no column twice, so `read_csv(names=...)` accepts it. */
  lemma SchemaDistinct()
    ensures forall a, b :: 0 <= a < b < |Schema()| ==> Schema()[a] != Schema()[b]
  {
    forall a, b | 0 <= a < b < |Schema()|
      ensures Schema()[a] != Schema()[b]
    {
      SchemaPair(a, b);
    }
  }

  /** Two schema positions: same-prefix names differ in their number, the others in their first letter. */
  lemma SchemaPair(a: nat, b: nat)
    requires a < b < 31
    ensures Schema()[a] != Schema()[b]
  {
    var s := Schema();
    if 2 <= a && b < 5 {
      if SettingName(a - 1) == SettingName(b - 1) {
        CancelPrefix("operational_setting_", NatToString(a - 1), NatToString(b - 1));
      }
    } else if 5 <= a {
      if SensorName(a - 4) == SensorName(b - 4) {
        CancelPrefix("sensor_", NatToString(a - 4), NatToString(b - 4));
        NatToStringInjective(a - 4, b - 4);
      }
    } else if a < 2 {
      assert s[a][0] != s[b][0];
    } else {
      assert s[a][0] == 'o' && s[b][0] == 's';
    }
  }

  /** Every schema name starts with one of e, t, o, s. */
  lemma NotInSchema(n: string)
    requires |n| > 0 && n[0] !in "etos"
    ensures n !in Schema()
  {
    var s := Schema();
    forall j | 0 <= j < |s|
      ensures s[j] != n
    {
      assert s[j][0] in "etos";
    }
  }

  /**
   * A table read with the schema has no value column whose name starts with
   * a letter other than e, t, o or s, before or after the all-missing drop:
   * in particular no `max_cycles` and no `RUL`.
   */
  lemma NotLoaded(raw: Table, n: string)
    requires raw.Valid() && raw.Names() == Schema()[2..]
    requires |n| > 0 && n[0] !in "etos"
    ensures n !in raw.Names() && n !in DropAllMissing(raw).Names()
  {
    NotInSchema(n);
    var t := DropAllMissing(raw);
    if n in t.Names() {
      var j := NamesOfOwner(t.cols, n);
      NamesOfMember(raw.cols, t.cols[j]);
    }
  }

  /** Neither key name is a value column of a table read with the schema, before or after the all-missing drop. */
  lemma KeysNotLoaded(raw: Table)
    requires raw.Valid() && raw.Names() == Schema()[2..]
    ensures "engine_id" !in DropAllMissing(raw).Names() && "time_cycles" !in DropAllMissing(raw).Names()
  {
    SchemaDistinct();
    var t := DropAllMissing(raw);
    forall n | n in t.Names()
      ensures n != "engine_id" && n != "time_cycles"
    {
      var j := NamesOfOwner(t.cols, n);
      NamesOfMember(raw.cols, t.cols[j]);
      var k :| 0 <= k < |raw.Names()| && raw.Names()[k] == n;
      assert Schema()[k + 2] == n;
    }
  }

  // ------------------------------------------------------ all-missing drop

  /** Every cell of the column is NaN (vacuously so when there are no rows). */
  predicate AllMissing(c: Column) {
    forall i :: 0 <= i < |c.cells| ==> c.cells[i].NaN?
  }

  /**
   * `df.dropna(axis=1, how='all')` on the value columns: drops exactly the
   * all-NaN columns and keeps the others unchanged, in schema order.
   */
  function DropAllMissing(t: Table): (r: Table)
    requires t.Valid()
    ensures r.Valid() && r.ids == t.ids && r.cycles == t.cycles
    ensures r.cols == Select(t.cols, AllMissing, false)
    ensures forall c :: c in r.cols <==> c in t.cols && !AllMissing(c)
  {
    DropFlagged(t, AllMissing);
    DropColumns(t, Flagged(t.cols, AllMissing))
  }

  // -------------------------------------------------------------- RUL label

  /** The largest cycle of engine e among rows below n, starting from acc. */
  function MaxFrom(ids: seq<int>, cycles: seq<int>, e: int, n: nat, acc: int): int
    requires n <= |ids| == |cycles|
    decreases n
  {
    if n == 0 then acc
    else MaxFrom(ids, cycles, e, n - 1, if ids[n - 1] == e && cycles[n - 1] > acc then cycles[n - 1] else acc)
  }

  /** `df.groupby('engine_id')['time_cycles'].max()` looked up at row i's engine. */
  function MaxCycle(ids: seq<int>, cycles: seq<int>, i: nat): int
    requires i < |ids| == |cycles|
  {
    MaxFrom(ids, cycles, ids[i], |ids|, cycles[i])
  }

  /** MaxFrom bounds acc and every engine-e cycle below n, and is acc or one of those cycles. */
  lemma {:induction false} MaxFromIsMax(ids: seq<int>, cycles: seq<int>, e: int, n: nat, acc: int)
    requires n <= |ids| == |cycles|
    ensures acc <= MaxFrom(ids, cycles, e, n, acc)
    ensures forall j :: 0 <= j < n && ids[j] == e ==> cycles[j] <= MaxFrom(ids, cycles, e, n, acc)
    ensures MaxFrom(ids, cycles, e, n, acc) == acc ||
      exists j :: 0 <= j < n && ids[j] == e && cycles[j] == MaxFrom(ids, cycles, e, n, acc)
    decreases n
  {
    if n > 0 {
      var acc' := if ids[n - 1] == e && cycles[n - 1] > acc then cycles[n - 1] else acc;
      MaxFromIsMax(ids, cycles, e, n - 1, acc');
    }
  }

  /** The group maximum is the largest cycle among the rows of row i's engine. */
  lemma MaxCycleIsMax(ids: seq<int>, cycles: seq<int>, i: nat)
    requires i < |ids| == |cycles|
    ensures forall j :: 0 <= j < |ids| && ids[j] == ids[i] ==> cycles[j] <= MaxCycle(ids, cycles, i)
    ensures exists j :: 0 <= j < |ids| && ids[j] == ids[i] && cycles[j] == MaxCycle(ids, cycles, i)
  {
    MaxFromIsMax(ids, cycles, ids[i], |ids|, cycles[i]);
  }

  /** `df['max_cycles'] - df['time_cycles']` after the left merge on `engine_id`. */
  function RulLabels(ids: seq<int>, cycles: seq<int>): (r: seq<int>)
    requires |ids| == |cycles|
    ensures |r| == |ids|
  {
    seq(|ids|, i requires 0 <= i < |ids| => MaxCycle(ids, cycles, i) - cycles[i])
  }

  /**
   * The label in terms of the rows alone: RUL at row i is the largest
   * `cycles[j] - cycles[i]` over the rows j of the same engine. Hence it is
   * never negative, it is 0 at the row with the engine's last cycle, and it
   * falls strictly as the cycle grows within an engine.
   */
  lemma RulMeans(ids: seq<int>, cycles: seq<int>, i: nat)
    requires i < |ids| == |cycles|
    ensures forall j :: 0 <= j < |ids| && ids[j] == ids[i] ==> cycles[j] - cycles[i] <= RulLabels(ids, cycles)[i]
    ensures exists j :: 0 <= j < |ids| && ids[j] == ids[i] && cycles[j] - cycles[i] == RulLabels(ids, cycles)[i]
    ensures RulLabels(ids, cycles)[i] >= 0
    ensures (forall j :: 0 <= j < |ids| && ids[j] == ids[i] ==> cycles[j] <= cycles[i]) ==> RulLabels(ids, cycles)[i] == 0
  {
    MaxCycleIsMax(ids, cycles, i);
  }

  /** Rows of one engine share their maximum, so a later cycle means a strictly smaller RUL. */
  lemma RulDecreasing(ids: seq<int>, cycles: seq<int>, a: nat, b: nat)
    requires a < |ids| == |cycles| && b < |ids| && ids[a] == ids[b] && cycles[a] < cycles[b]
    ensures RulLabels(ids, cycles)[a] > RulLabels(ids, cycles)[b]
  {
    MaxCycleIsMax(ids, cycles, a);
    MaxCycleIsMax(ids, cycles, b);
  }

  /**
   * `_calculate_rul`: merge each engine's maximum cycle in as `max_cycles`,
   * set `RUL = max_cycles - time_cycles`, drop `max_cycles`. The rows, their
   * order and the key columns are untouched; `RUL` is the only column added
   * (or, if one exists, rewritten), and no `max_cycles` column remains.
   */
  function CalculateRul(t: Table): (r: Table)
    requires t.Valid() && "max_cycles" !in t.Names()
    ensures r.Valid() && r.ids == t.ids && r.cycles == t.cycles
    ensures "RUL" in r.Names() && ColumnNamed(r.cols, "RUL") == Column("RUL", IntCells(RulLabels(t.ids, t.cycles)))
    ensures "RUL" !in t.Names() ==> r.cols == t.cols + [Column("RUL", IntCells(RulLabels(t.ids, t.cycles)))]
    ensures "max_cycles" !in r.Names()
  {
    var merged := SetColumn(t, "max_cycles", IntCells(seq(|t.ids|, i requires 0 <= i < |t.ids| => MaxCycle(t.ids, t.cycles, i))));
    var labelled := SetColumn(merged, "RUL", IntCells(RulLabels(t.ids, t.cycles)));
    RulKept(t, merged, labelled);
    DropColumns(labelled, ["max_cycles"])
  }

  /** The bookkeeping behind CalculateRul's contract: dropping `max_cycles` leaves `RUL` where it was. */
  lemma RulKept(t: Table, merged: Table, labelled: Table)
    requires t.Valid() && "max_cycles" !in t.Names()
    requires merged == SetColumn(t, "max_cycles", IntCells(seq(|t.ids|, i requires 0 <= i < |t.ids| => MaxCycle(t.ids, t.cycles, i))))
    requires labelled == SetColumn(merged, "RUL", IntCells(RulLabels(t.ids, t.cycles)))
    ensures "max_cycles" in labelled.Names()
    ensures "RUL" in DropColumns(labelled, ["max_cycles"]).Names()
    ensures ColumnNamed(DropColumns(labelled, ["max_cycles"]).cols, "RUL") == Column("RUL", IntCells(RulLabels(t.ids, t.cycles)))
    ensures "RUL" !in t.Names() ==>
      DropColumns(labelled, ["max_cycles"]).cols == t.cols + [Column("RUL", IntCells(RulLabels(t.ids, t.cycles)))]
    ensures "max_cycles" !in DropColumns(labelled, ["max_cycles"]).Names()
  {
    var rul := Column("RUL", IntCells(RulLabels(t.ids, t.cycles)));
    var mc := Column("max_cycles", IntCells(seq(|t.ids|, i requires 0 <= i < |t.ids| => MaxCycle(t.ids, t.cycles, i))));
    assert merged.cols == t.cols + [mc];
    assert "max_cycles" in labelled.Names();
    DropKeeps(labelled, "RUL", "max_cycles");
    if "RUL" !in t.Names() {
      assert labelled.cols == t.cols + [mc] + [rul];
      WithoutLast(t.cols, mc, rul);
    }
  }

  /** Dropping one column keeps every other column as it was, and the dropped name is gone. */
  lemma DropKeeps(t: Table, name: string, drop: string)
    requires t.Valid() && name in t.Names() && drop in t.Names() && name != drop
    ensures name in DropColumns(t, [drop]).Names() && drop !in DropColumns(t, [drop]).Names()
    ensures ColumnNamed(DropColumns(t, [drop]).cols, name) == ColumnNamed(t.cols, name)
  {
    var r := DropColumns(t, [drop]);
    var c := ColumnNamed(t.cols, name);
    assert c in r.cols;
    NamesOfMember(r.cols, c);
    if drop in r.Names() {
      var j := NamesOfOwner(r.cols, drop);
    }
  }

  /** Dropping the one `max_cycles` column between the old columns and the new RUL column. */
  lemma WithoutLast(cols: seq<Column>, mc: Column, rul: Column)
    requires mc.name == "max_cycles" && rul.name != "max_cycles"
    requires "max_cycles" !in NamesOf(cols)
    ensures Without(cols + [mc] + [rul], ["max_cycles"]) == cols + [rul]
  {
    assert (cols + [mc] + [rul])[..|cols| + 1] == cols + [mc];
    assert (cols + [mc])[..|cols|] == cols;
    forall j | 0 <= j < |cols|
      ensures cols[j].name !in ["max_cycles"]
    {
      assert NamesOf(cols)[j] == cols[j].name;
    }
    WithoutNone(cols, ["max_cycles"]);
  }

  /** Dropping names no column has changes nothing. */
  lemma {:induction false} WithoutNone(cols: seq<Column>, drop: seq<string>)
    requires forall j :: 0 <= j < |cols| ==> cols[j].name !in drop
    ensures Without(cols, drop) == cols
    decreases |cols|
  {
    if cols != [] {
      var n := |cols| - 1;
      WithoutNone(cols[..n], drop);
      assert cols[n].name !in drop;
      assert cols == cols[..n] + [cols[n]];
    }
  }

  // ---------------------------------------------------------- load_dataset

  /**
   * The column names of `left.merge(right, on=key)`: the key once, then the
   * left's other names, then the right's, with `_x` / `_y` appended to each
   * name the two sides share.
   */
  function MergedNames(left: seq<string>, right: seq<string>, key: string): seq<string> {
    [key]
      + seq(|left|, i requires 0 <= i < |left| => if left[i] in right then left[i] + "_x" else left[i])
      + seq(|right|, i requires 0 <= i < |right| => if right[i] in left then right[i] + "_y" else right[i])
  }

  /** A suffixed name differs from a name that does not end in that suffix. */
  lemma SuffixedDiffers(a: string, suffix: string, n: string)
    requires |suffix| > 0 && |n| > 0 && n[|n| - 1] != suffix[|suffix| - 1]
    ensures a + suffix != n
  {
    assert (a + suffix)[|a + suffix| - 1] == suffix[|suffix| - 1];
  }

  /**
   * In the test branch the per-engine maximum keeps the name `time_cycles`
   * (it is never renamed to `max_cycles`), so the merge suffixes both copies
   * and the frame has no `time_cycles` column for the RUL formula to read.
   */
  lemma TestMergeLosesCycles(names: seq<string>)
    requires "time_cycles" !in names
    ensures "time_cycles" !in MergedNames(["time_cycles"] + names, ["time_cycles", "truth_rul"], "engine_id")
  {
    var left, right := ["time_cycles"] + names, ["time_cycles", "truth_rul"];
    var r := MergedNames(left, right, "engine_id");
    forall k | 0 <= k < |r|
      ensures r[k] != "time_cycles"
    {
      if 1 <= k <= |left| {
        var a := left[k - 1];
        SuffixedDiffers(a, "_x", "time_cycles");
        if k > 1 {
          assert a in names;
        }
      } else if k > |left| {
        var b := right[k - 1 - |left|];
        SuffixedDiffers(b, "_y", "time_cycles");
        if b == "time_cycles" {
          assert left[0] == b;
        }
      }
    }
  }

  /**
   * `load_dataset` once the file is read: drop the all-missing columns, then
   * label. `split == "train"` takes the RUL formula; every other split takes
   * the test branch, which as written always stops with `KeyError('time_cycles')`.
   * A file with no rows has every column all-missing, `engine_id` included, so
   * both branches stop at grouping by `engine_id`.
   */
  function LoadDataset(raw: Table, split: string): (r: Result<Table, KeyError>)
    requires raw.Valid() && raw.Names() == Schema()[2..]
    ensures raw.Rows() == 0 ==> r == Err(KeyError("engine_id"))
    ensures raw.Rows() > 0 && split != "train" ==> r == Err(KeyError("time_cycles"))
    ensures r.Ok? <==> raw.Rows() > 0 && split == "train"
    ensures r.Ok? ==> r.value.Valid() && r.value.ids == raw.ids && r.value.cycles == raw.cycles
    ensures r.Ok? ==> r.value.cols == DropAllMissing(raw).cols + [Column("RUL", IntCells(RulLabels(raw.ids, raw.cycles)))]
  {
    if raw.Rows() == 0 then Err(KeyError("engine_id"))
    else
      var t := DropAllMissing(raw);
      NotLoaded(raw, "max_cycles");
      NotLoaded(raw, "RUL");
      if split == "train" then Ok(CalculateRul(t))
      else
        KeysNotLoaded(raw);
        TestMergeLosesCycles(t.Names());
        var merged := MergedNames(["time_cycles"] + t.Names(), ["time_cycles", "truth_rul"], "engine_id");
        assert "time_cycles" !in merged;
        Err(KeyError("time_cycles"))
  }
}
