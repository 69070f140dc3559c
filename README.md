# Turbofan preprocessing core, modelled in Dafny

This project models the data-wrangling core of a NASA C-MAPSS turbofan
pipeline. The core has two parts.

- The dataset loader (`src/data_loader.py`). It fixes the 31-column schema, drops all-missing
  columns, and either labels each training row with its Remaining Useful Life (RUL) or takes
  the test branch.
- The preprocessor (`src/preprocessor.py`), which does three things:
  - the four-step column cleaning (invalid, constant, low-variance, correlated) and its
    `dropped` map;
  - the reset of `sensor_cols`;
  - an in-place RUL clip and the per-engine feature steps (rolling min/max, lag with
    back-fill, first difference with zero fill).

A dataframe is a `Tables.Table` with three parts:
- the integer `engine_id` column `ids`;
- the integer `time_cycles` column `cycles`;
- a sequence of named value columns whose cells are `Cells.Num`: a finite real, NaN or ±inf.
NaN follows float comparison rules: `NaN == 0`, `NaN < t` and `NaN > t` are all false.

Every `groupby('engine_id')` is modelled by `EngineGroups`: the rows sharing an engine id,
in row order. This is not cycle order, and an engine's rows need not be contiguous. Every
per-engine transform is a reference function over a column and the engine-id column. It
is also computed by a one-pass method over arrays. The forward passes keep a map from engine
id to the rows seen so far. The back-fill (`SequenceTransforms.BackFillColumn`) runs backward
and keeps a map from engine id to the engine's next non-NaN value. The methods are proved
equal to the functions, and lemmas state what the functions mean at each row in terms of the
engine's own row list.

The preprocessor is a class, `Preprocessing.Preprocessor`:
- its thresholds (`corr_threshold`, `variance_threshold`) are constants;
- `sensorCols` is a mutable field, so `clean_data` resets it;
- the dataframe that `clip_rul` and the `add_*` steps change in place is a `Preprocessing.Frame`
  object whose `table` field they reassign.

The feature loops run in the source's order: windows or lags outside, sensors inside, one
`df[name] = ...` at a time. Each loop is proved to produce `Features.ApplyFeatures` over the
feature list `Features.ParamsPass` / `Features.SensorsPass` describes.

Some computations are float library output, and they enter as parameters:
- variance and absolute Pearson correlation, as functions of column cells;
- rolling mean, rolling standard deviation and the `polyfit` slope, as `Features.Numerics`
  (functions of a window's values).

Behaviours of the code worth knowing:
- Both variance steps compare with `==` and `<`, which are false for NaN, so a NaN variance
  (a one-row table) is kept (`Cleaning.ConstantMeans`, `Cleaning.LowVarianceMeans`).
- `clean_data` returns a map of four ordered lists, not one set of dropped names.
- The lag fill is a back-fill within each engine, although the code comment says forward
  fill. When an engine has more than k rows, its first k rows take the engine's first value;
  otherwise they stay NaN (`TransformProperties.LagAt`).
  Lags and differences count engine ROWS in row order, not cycles.
- No window, lag or threshold is validated, so there is no `ConfigError`. A lag of 0 is
  accepted.
- The slope feature is NaN at each engine's first row (`min_periods=2`), and the zero fill
  then turns it into 0.
- The test split cannot run as written. Its group-by maximum keeps the column name
  `time_cycles`, so the merge renames both copies to `time_cycles_x` / `time_cycles_y`, and
  the lookup of `time_cycles` raises `KeyError` (`DataLoader.TestMergeLosesCycles`,
  `DataLoader.LoadDataset`).
- `clip_rul` is never called by `engineer_features`, whose `rul_clip` argument is unused.
  It is modelled as the standalone method it is. Its column may be a key column, whose
  integers are then clipped as finite cells (`Tables.ColumnCells`).
- The keyword defaults of the preprocessor (thresholds 0.95 and 0.001, clip 125, windows
  5, 10, 20, lags 1, 3, 5, trend window 10) are the default parameter values of the
  corresponding members.
- An empty raw table loses every column to `dropna(axis=1, how='all')`, including
  `engine_id`, so labelling it raises `KeyError('engine_id')`.

## Model

| member | source | states |
|---|---|---|
| DataLoader.Schema | src/data_loader.py:19-23 | 31 names: `engine_id`, `time_cycles`, `operational_setting_1..3`, `sensor_1..26`, at their fixed positions |
| DataLoader.SchemaDistinct | src/data_loader.py:19-23 | no schema name occurs twice, so every column of the read table is named uniquely |
| DataLoader.NotLoaded | src/data_loader.py:19-23 | a table read with the schema has no column such as `max_cycles` or `RUL`, before or after the all-missing drop, so labelling appends them rather than overwriting |
| DataLoader.DropAllMissing | src/data_loader.py:42 | keeps exactly the columns having a non-NaN cell, in schema order, with the key columns unchanged |
| DataLoader.MaxCycleIsMax | src/data_loader.py:55 | the group maximum is at least every cycle of the row's engine and is one of them |
| DataLoader.RulMeans | src/data_loader.py:55-59 | a row's RUL is the largest cycle difference to a row of its engine and is attained; it is ≥ 0, and 0 at a row holding the engine's largest cycle |
| DataLoader.RulDecreasing | src/data_loader.py:59 | within one engine, a larger cycle means a strictly smaller RUL |
| DataLoader.CalculateRul | src/data_loader.py:53-62 | rows, row order and key columns kept; the `RUL` column holds the labels and is appended after all old columns when new; no `max_cycles` column remains |
| DataLoader.RulKept | src/data_loader.py:58-60 | after the merge and the subtraction, dropping `max_cycles` keeps the `RUL` column and its place and removes `max_cycles` |
| DataLoader.TestMergeLosesCycles | src/data_loader.py:69-73 | merging the unrenamed group maximum leaves no column called `time_cycles` |
| DataLoader.KeysNotLoaded | src/data_loader.py:19-23 | neither `engine_id` nor `time_cycles` is a value column of a table read with the schema, before or after the all-missing drop |
| DataLoader.LoadDataset | src/data_loader.py:41-47 | `Err(KeyError("engine_id"))` for no rows; for any split but `train`, the merged names lack `time_cycles`, so `Err(KeyError("time_cycles"))`; otherwise Ok: the all-missing drop plus the appended RUL column |
| Tables.DropColumns | src/preprocessor.py:42 | `df.drop(columns=...)` keeps exactly the unlisted columns, order preserved; every listed name must exist |
| Tables.SetColumn | src/preprocessor.py:91 | `df[name] = cells` makes `name` hold the cells; an existing column is overwritten in place with every other column at its index unchanged, and a new one is appended at the end |
| Tables.SetColumnOther | src/preprocessor.py:91 | setting one column leaves every other column's contents found under its name |
| Cells.ClipUpper | src/preprocessor.py:91 | `clip(upper=u)` on a cell: NaN stays NaN, a finite value becomes one of itself or u and at most both; +inf becomes u |
| Cells.FillMissing | src/preprocessor.py:170 | `fillna(v)` on a cell: a NaN cell becomes `v`, so never NaN afterwards, and a non-NaN cell is unchanged |
| Cleaning.Select | src/preprocessor.py:46 | a list comprehension's filter: exactly the columns meeting the test, in order |
| Cleaning.DropFlagged | src/preprocessor.py:42 | dropping a step's flagged names leaves exactly the unflagged columns in their order |
| Cleaning.IdentifyInvalid | src/preprocessor.py:34-42 | the loop lists exactly the columns holding a NaN or inf cell, in column order, and returns the table without them |
| Cleaning.InvalidMeans | src/preprocessor.py:38-42 | a name is listed iff its column, of any kind, has a NaN or infinite cell; the kept columns hold only finite cells |
| Cleaning.RemoveConstant | src/preprocessor.py:44-49 | keeps exactly the columns not flagged as zero-variance sensors; returns the flagged names in column order |
| Cleaning.ConstantMeans | src/preprocessor.py:46-48 | drops a name iff it is a `'sensor'` column with variance exactly 0; non-sensors are never dropped; a NaN variance is kept |
| Cleaning.RemoveLowVariance | src/preprocessor.py:51-56 | keeps exactly the columns not flagged as below-threshold sensors; returns the flagged names in column order |
| Cleaning.LowVarianceMeans | src/preprocessor.py:53-55 | drops a name iff it is a sensor with variance strictly below the threshold; a variance equal to the threshold and a NaN variance are kept; non-sensors never dropped |
| Cleaning.RemoveCorrelated | src/preprocessor.py:58-64 | the kept columns are exactly those not named on the correlated list, in order |
| Cleaning.CorrelatedMeans | src/preprocessor.py:60-63 | sensor j is dropped iff some earlier sensor r < j has absolute correlation with it strictly above the threshold, whether or not r is dropped; the first sensor is always kept |
| Cleaning.CorrelatedAmongMember | src/preprocessor.py:62-63 | the upper-triangle scan over the first n sensors names sensor j iff j < n and j is redundant |
| Cleaning.CorrelatedAmongSensors | src/preprocessor.py:63 | every name on the correlated list is one of the scanned sensors |
| Preprocessing.SensorNames | src/preprocessor.py:32 | exactly the names whose lower-cased form contains `sensor`, in their column order |
| Preprocessing.Preprocessor.constructor | src/preprocessor.py:14-32 | records both thresholds and sets `sensorCols` to the frame's sensor-named columns |
| Preprocessing.Clean | src/preprocessor.py:66-85 | the cleaned table is valid with its key columns unchanged; the map has exactly the keys invalid, constant, low_variance, correlated |
| Preprocessing.CleanInvalid | src/preprocessor.py:70 | the invalid list is the names, in column order, of the columns with a NaN or infinite cell |
| Preprocessing.CleanConstant | src/preprocessor.py:71 | a name is on the constant list iff it is an original all-finite sensor column with variance exactly 0 |
| Preprocessing.CleanLowVariance | src/preprocessor.py:72 | a name is on the low-variance list iff it is an original all-finite sensor column whose variance is nonzero and below the threshold |
| Preprocessing.CleanCorrelated | src/preprocessor.py:73 | among the sensors passing the first three steps, sensor j is on the correlated list iff an earlier one correlates with it above the threshold; nothing else is listed |
| Preprocessing.FirstSteps | src/preprocessor.py:70-71 | the invalid step keeps exactly the all-finite columns, and the constant step then drops exactly the zero-variance sensors |
| Preprocessing.CleanFilters | src/preprocessor.py:70-72 | a column passes the first three steps iff it is an original column with only finite cells that is not a zero- or low-variance sensor |
| Preprocessing.CleanSurvivors | src/preprocessor.py:70-73 | a column survives cleaning iff it is an original column, unchanged, with only finite cells, not a zero- or low-variance sensor, and not on the correlated list |
| Preprocessing.Preprocessor.CleanData | src/preprocessor.py:66-85 | returns the cleaned table and drop map of `Clean`, and resets `sensorCols` to the surviving sensor-named columns |
| Tables.ColumnCells | src/preprocessor.py:91 | `df[name]` yields one cell per row, from a key column or the named value column |
| Preprocessing.ClipRulMeans | src/preprocessor.py:91 | `RUL_clipped` is min(RUL, clip value) per cell, NaN kept, never above either; the keys, `RUL` and every other column unchanged |
| Preprocessing.Preprocessor.ClipRul | src/preprocessor.py:87-92 | a column that is neither a key nor a value column is `KeyError` and the frame is untouched; otherwise the frame gets the clipped column |
| EngineGroups.RowsOf | src/preprocessor.py:105 | lists only rows below n belonging to the engine |
| EngineGroups.RowsOfIncreasing | src/preprocessor.py:105 | a group's rows are in strictly increasing row order |
| EngineGroups.RowsOfComplete | src/preprocessor.py:105 | no row of the engine below n is missing from its group |
| EngineGroups.PositionInEngine | src/preprocessor.py:105 | a row sits at index Position of its engine's row list, and its history is that list's prefix up to it |
| EngineGroups.PositionOfEngineRow | src/preprocessor.py:105 | conversely, the row at index t of an engine's list is a row of that engine with position t |
| EngineGroups.SeenMapRows | src/preprocessor.py:105 | the one-pass map from engine id to rows seen holds exactly each engine's rows so far |
| EngineGroups.Previous | src/preprocessor.py:150 | None iff the row is its engine's first; otherwise an earlier row of the same engine |
| EngineGroups.PreviousIsClosest | src/preprocessor.py:150 | no row of the same engine lies between the previous row and the row; None means no earlier engine row exists |
| EngineGroups.PreviousInEngine | src/preprocessor.py:150 | the previous row is the engine's row one position earlier |
| EngineGroups.LagSource | src/preprocessor.py:130 | a source row exists iff the row's position is at least k; it belongs to the same engine and is not later |
| EngineGroups.LagSourceInEngine | src/preprocessor.py:130 | the source row is the engine's row k positions earlier |
| EngineGroups.Window | src/preprocessor.py:114-118 | min(w, position + 1) rows of the row's engine, ending at the row, none later |
| EngineGroups.WindowInEngine | src/preprocessor.py:114-118 | the window is the slice of the engine's row list at positions p + 1 − size .. p |
| SequenceTransforms.MinOverIsMin | src/preprocessor.py:115 | the minimum is at most every listed value and is one of them |
| SequenceTransforms.MaxOverIsMax | src/preprocessor.py:118 | the maximum is at least every listed value and is one of them |
| SequenceTransforms.WindowMin | src/preprocessor.py:115 | the loop returns the window minimum |
| SequenceTransforms.WindowMax | src/preprocessor.py:118 | the loop returns the window maximum |
| SequenceTransforms.RollingMinColumn | src/preprocessor.py:114-116 | the one-pass loop over arrays yields the per-engine rolling minimum column |
| SequenceTransforms.RollingMaxColumn | src/preprocessor.py:117-119 | the one-pass loop over arrays yields the per-engine rolling maximum column |
| SequenceTransforms.ShiftColumn | src/preprocessor.py:130 | the one-pass loop yields the per-engine `shift(k)` column |
| SequenceTransforms.BackFillColumn | src/preprocessor.py:134 | the backward loop yields the per-engine back-filled column |
| SequenceTransforms.DiffColumn | src/preprocessor.py:150 | the one-pass loop yields the per-engine `diff()` column |
| TransformProperties.RollingMinAtMeans | src/preprocessor.py:114-116 | the rolling min at row i is at most the engine's values at positions p + 1 − min(w, p + 1) .. p and equals one of them |
| TransformProperties.RollingMaxAtMeans | src/preprocessor.py:117-119 | the rolling max at row i is at least those values and equals one of them |
| TransformProperties.RollingBracketsValue | src/preprocessor.py:114-119 | rolling min ≤ value ≤ rolling max; at an engine's first row, or with window 1, both equal the value |
| TransformProperties.LagAt | src/preprocessor.py:128-134 | lag k at position p: the engine's value at p − k if p ≥ k; else the engine's first value if it has more than k rows; else NaN; never another engine's value |
| TransformProperties.NextValidReaches | src/preprocessor.py:134 | the back-fill takes the first non-NaN cell of the engine at or after the row |
| TransformProperties.NextValidNone | src/preprocessor.py:134 | with no later non-NaN cell in the engine, the back-fill leaves NaN |
| TransformProperties.FilledDiffAt | src/preprocessor.py:150-170 | the filled difference is 0 at an engine's first row and otherwise the value minus the engine's previous value |
| TransformProperties.DiffCumulates | src/preprocessor.py:150 | summing an engine's differences from its first value gives back each of its values |
| Features.AddFeature | src/preprocessor.py:108-119 | `df[name] = groupby(engine)[sensor].transform(...)` sets the feature's column from the sensor's values and keeps every sensor column |
| Features.ApplyAppends | src/preprocessor.py:102-119 | with new, distinct names the features are appended after the existing columns, one column each, in loop order |
| Features.ApplyContents | src/preprocessor.py:102-119 | with distinct names, each feature's column holds that feature computed from the ORIGINAL sensor values |
| Features.ParamsPassCount | src/preprocessor.py:121 | the nested loops produce `len(params) * len(sensors) * k` features, with k = 4 when rolling and 1 when lagging |
| Features.SensorsPassCount | src/preprocessor.py:172 | one sensor loop produces `len(sensors) * k` features |
| Features.ParamsPassLength | src/preprocessor.py:102-103 | the outer loop adds one full inner loop per parameter |
| Features.ParamsPassHas | src/preprocessor.py:102-103 | every (parameter, sensor) pair's features are produced |
| Features.ParamsPassColumn | src/preprocessor.py:102-130 | after the loops, every (parameter, sensor) feature's column holds its value from the original sensor |
| Features.SensorsPassColumn | src/preprocessor.py:148-166 | the same for the trend step's single loop over sensors |
| Features.LagNameMarked | src/preprocessor.py:130-134 | every lag feature's name contains `_lag_`, so it is back-filled |
| Features.DiffNameMarked | src/preprocessor.py:150-170 | every difference name contains `_diff`, so it is zero-filled |
| Features.SlopeNameMarked | src/preprocessor.py:164-170 | every slope name contains `_slope_`, so it is zero-filled |
| Features.BackFillLags | src/preprocessor.py:133-134 | same keys, names and column count after the back-fill |
| Features.BackFillLagsMeans | src/preprocessor.py:133-134 | a `_lag_` column holds its old cells back-filled per engine, old lag columns included; any other column is unchanged |
| Features.ZeroFillTrends | src/preprocessor.py:169-170 | same keys, names and column count after the zero fill |
| Features.ZeroFillTrendsMeans | src/preprocessor.py:169-170 | a `_diff` / `_slope_` column holds its old cells with NaN as 0; any other column is unchanged |
| FeatureResults.ParamsPassAppends | src/preprocessor.py:102-121 | the rolling or lag loops append exactly their feature names after the existing columns: `len(params) * len(sensors) * k` new columns |
| FeatureResults.LagStepAppends | src/preprocessor.py:128-136 | the lag step, back-fill included, adds `len(lags) * len(sensors)` columns after the existing ones |
| FeatureResults.TrendStepAppends | src/preprocessor.py:148-172 | the trend step, zero fill included, adds `2 * len(sensors)` columns after the existing ones |
| FeatureResults.RollingNames | src/preprocessor.py:108-119 | after the rolling step, `{sensor}_rolling_{mean,std,min,max}_{w}` exist for every window and sensor |
| FeatureResults.RollingMinColumn | src/preprocessor.py:114-116 | `{sensor}_rolling_min_{w}` holds the per-engine rolling minimum of the sensor's original values |
| FeatureResults.RollingMaxColumn | src/preprocessor.py:117-119 | `{sensor}_rolling_max_{w}` holds the per-engine rolling maximum |
| FeatureResults.RollingCellsAt | src/preprocessor.py:114-119 | row by row, the min cell ≤ the value ≤ the max cell, and both equal the value at an engine's first row |
| FeatureResults.LagColumn | src/preprocessor.py:128-134 | `{sensor}_lag_{k}` holds the sensor's original values shifted by k within each engine, then back-filled within each engine |
| FeatureResults.DiffColumnFilled | src/preprocessor.py:150-170 | `{sensor}_diff` holds the per-engine first difference of the original values with NaN as 0 |
| FeatureResults.SlopeFirstRow | src/preprocessor.py:164-166 | with `min_periods=2`, the slope is missing at an engine's first row |
| FeatureResults.SlopeColumnFilled | src/preprocessor.py:164-170 | `{sensor}_slope_{w}` holds the rolling slope column with NaN as 0 |
| FeatureResults.SlopeCellAt | src/preprocessor.py:164-170 | the slope cell is never missing after the step, and is 0 at an engine's first row |
| Preprocessing.ComputeFeature | src/preprocessor.py:105-119 | the column `groupby(engine)[sensor].<transform>` gives, computed by the one-pass array methods for min, max, shift and diff |
| Preprocessing.AddFeatureColumn | src/preprocessor.py:108 | one `df[name] = ...` assignment changes the frame to `AddFeature` of the old one and keeps the sensor's values |
| Preprocessing.RollingStep | src/preprocessor.py:103-119 | one sensor iteration adds its mean, std, min and max columns, extending the pass by one sensor |
| Preprocessing.LagStep | src/preprocessor.py:129-130 | one sensor iteration adds its lag column |
| Preprocessing.TrendStep | src/preprocessor.py:148-166 | one sensor iteration adds its difference, then its slope |
| Preprocessing.AddRollingColumns | src/preprocessor.py:102-119 | the two nested loops leave the frame as the feature list applied to the old frame |
| Preprocessing.AddLagColumns | src/preprocessor.py:128-130 | the two nested lag loops leave the frame as the lag features applied to the old frame |
| Preprocessing.BackFillLagColumns | src/preprocessor.py:133-134 | the column loop leaves the frame as every `_lag_` column back-filled per engine |
| Preprocessing.Preprocessor.AddRollingFeatures | src/preprocessor.py:94-122 | the frame becomes the old one with every window's and sensor's four rolling columns, in loop order |
| Preprocessing.Preprocessor.AddLagFeatures | src/preprocessor.py:124-137 | the frame becomes the old one with every lag column, then back-filled |
| Preprocessing.Preprocessor.AddTrendFeatures | src/preprocessor.py:139-173 | the frame becomes the old one with each sensor's difference and slope, then zero-filled |

## Left out

- File and console I/O is not modelled: path building, `read_csv` / `to_csv`, `makedirs`, the `FileNotFoundError` check, the summary `print`s and the saving in `clean_data` and `engineer_features`. The raw table read with the schema is a parameter of `DataLoader.LoadDataset`.
- Parsing of whitespace-separated text is left out. The parsed table, named by the schema, is the input.
- The test-split RUL formula and the contents of its truth file are left out. The code reads the truth file (`src/data_loader.py:66`), stores it in `max_cycles` (line 70) and merges (line 72). The lookup of `time_cycles` then fails (line 73) before the formula is evaluated; the model computes the merged names and that `KeyError`. No intended formula is modelled, because the code leaves open whether the cycle maximum was meant globally or per engine.
- Variance, Pearson correlation, rolling mean, rolling standard deviation and the `polyfit` slope (including its constant-window and short-window branches) are float library numerics. They are parameters, not definitions.
- Floating-point rounding is not modelled; exact reals stand in for floats in the rolling min/max, difference and clip.
- `add_ewma_features`, `normalize_features` (with the `MinMaxScaler` state) and the `engineer_features` orchestration are not part of this model. They are float library numerics and orchestration of them.
- The `scaler` and the three directory fields of the preprocessor object are not modelled.
- `unit_col` is fixed to `engine_id`, and `rul_col` is a parameter of `ClipRul`.
- A value column named like a key column (`engine_id`, `time_cycles`) is not modelled: pandas would then hold two columns of that name, and `Tables.ColumnCells` takes the key.
- Only upper-case ASCII letters are lower-cased in `sensor_cols`; Unicode case folding is not modelled.
- Preprocessing.Preprocessor.AddRollingFeatures: requires the listed sensors to be columns with finite cells only (`Features.Ready`), which holds after cleaning. NaN handling inside the rolling windows is not modelled.
- Preprocessing.Preprocessor.AddRollingFeatures: requires every window ≥ 1. With a smaller window pandas raises `ValueError` (`min_periods=1` exceeds the window), and that error path is not modelled.
- Preprocessing.Preprocessor.AddTrendFeatures: requires the trend window ≥ 2, for the same `ValueError` (`min_periods=2`), and finite sensors.
- Preprocessing.Preprocessor.AddLagFeatures: requires finite sensor columns. Lags are natural numbers, so negative lags (a look-ahead shift) are not modelled.
- Preprocessing.Preprocessor.AddRollingFeatures: requires that no sensor name already contains the step's marker (`_rolling_`, `_lag_`, `_diff`, `_slope_`; `Features.StageOk`). This holds for the schema's `sensor_1..26`. A sensor whose name carried a marker would be overwritten by a feature or filled with the features; that case is not modelled.
- FeatureResults.RollingMinColumn, FeatureResults.RollingMaxColumn, FeatureResults.RollingCellsAt, FeatureResults.LagColumn, FeatureResults.DiffColumnFilled, FeatureResults.SlopeColumnFilled, FeatureResults.SlopeCellAt, FeatureResults.ParamsPassAppends, Features.ApplyContents, Features.ParamsPassColumn: these column-content lemmas require the generated feature names to be distinct, as they are when windows or lags do not repeat. With repeated parameters the later identical column overwrites the earlier one; the step methods themselves need no such requirement.
- FeatureResults.ParamsPassAppends: the column counts also require the new names to be absent from the table beforehand. Re-running a step, which overwrites columns in place, is covered by `Tables.SetColumn` but not counted.
- Rolling mean and std columns are checked for placement and for being computed from the window's values, not for their numeric contents.
- The one-pass transform methods return the new column as a sequence. The table then replaces the column by value; pandas' in-place column write and its aliasing are not modelled.
