# Energy6 forecasting core in Dafny

A model of the core of a six-hour energy-production forecaster. The program
uses an hourly `power_x` series from a CSV file. `create_features` derives
calendar fields, two lags and a trailing three-hour mean. `create_targets`
attaches the values of the next six rows as targets. One regressor is trained
per horizon and the six models are saved to disk. The serving app loads them
once into a process-wide cache. It forecasts from the last row that has
features.

The model has these modules:

- `Calendar` (calendar.dfy): a parsed timestamp and the `.dt.hour`,
  `.dt.dayofweek` and `.dt.month` fields.
- `Frames` (frames.dfy): the pandas column operations the pipeline uses.
  These are `shift(k)`, `rolling(3).mean()` and the row filter of
  `dropna(subset=...)`. All of them work on columns as sequences, by row
  position. `KeptPositions` records which input position each kept row came
  from.
- `Preprocessing` (preprocessing.dfy): `create_features` and `create_targets`.
  - Each has a method that follows the source step by step: column
    assignments, then the drop.
  - Each method is proved equal to a row-by-row function (`FeaturesOf`,
    `TargetsOf`).
  - Lemmas about those functions state exactly which rows survive and what
    their values are.
  - Further lemmas cover what the two steps do together, in the order
    `main.py` runs them.
- `Decimal` (decimal.dfy): `str(n)` for horizon numbers, and the proof that
  it is injective. Distinct horizons therefore get distinct column names and
  file names.
- `Paths` (paths.dfy): POSIX `os.path.dirname`.
- `ModelTraining` (model_training.dfy): `train_models`,
  `forecast_next_6_hours` and `save_models`.
  - The regressor's fit and predict are function parameters, so every result
    holds for any regressor.
  - The file system is a class with a map from paths to stored artifacts and
    a set of directories.
- `App` (app.dfy): `load_models` with its load-once cache (the class
  `ModelCache`), the row selection of `load_latest_data`, the dashboard's
  horizon labels, and the save-then-load round trip.
- `Wrappers` (wrappers.dfy): `Option`, which stands for NaN and for `None`.

Some behaviours of the code are easy to miss and are stated as lemmas:

- **Shifts are positional.** `lag_1` is the value one row earlier in the
  unfiltered input, not one hour earlier. `target_t+k` is `k` rows later in
  the frame after `create_features`.
  - When `create_features` drops rows in the middle of the series,
    `target_t+k` is `k` retained rows ahead. That can be more than `k` hours
    ahead (`PipelineTargetsAreRetainedRowsAhead`,
    `FirstTargetSkipsDroppedRows`).
  - With no missing values, rows and hours coincide
    (`FullyPopulatedPipelineTarget`).
- **`create_targets` never checks a row's own `power_x`.** After
  `create_features` this makes no difference: the pipeline always drops
  exactly the last `n` feature rows, whatever NaNs the input held
  (`PipelineDropsOnlyTheLastRows`).
- **Too few rows give empty frames, not errors.** The frame is empty when
  `L <= n` rows remain. `load_latest_data` returns `None` when no row
  survives.
- **A warm cache ignores the store.** Once filled, `load_models` returns the
  cached list without reading the store again.
- **A save of fewer than six models does not always fail the next load.** A
  cold load succeeds exactly when files from an earlier save fill the missing
  horizons. Those stale models are then served next to the new ones
  (`SaveFewerThenLoad`).

Three further facts about the code shape the model:

- Lags and targets are taken by row position, never by looking up the
  timestamp `k` hours before or after; a gap in the hourly series is not
  detected.
- Insufficient history and a missing model file are not distinct errors:
  the code returns an empty frame or `None`.
- Nothing guards the first fill of the model cache; two first requests may
  both read the store.

## Model

| member | source | states |
|---|---|---|
| Calendar.HourOf | energy_forecasting_project/src/preprocessing.py:11 | the hour of a well-formed timestamp lies in 0..23 |
| Calendar.DayOfWeek | energy_forecasting_project/src/preprocessing.py:15 | the day of the week (Monday = 0) lies in 0..6 |
| Calendar.MonthOf | energy_forecasting_project/src/preprocessing.py:19 | the month lies in 1..12 |
| Frames.Shift | energy_forecasting_project/src/preprocessing.py:24-27 | `shift(k)` keeps the length; position `i` holds the value at `i-k` when that is a position, NaN otherwise (with negative `k`, as `shift(-i)` in line 52, it looks ahead) |
| Frames.RollingMean3 | energy_forecasting_project/src/preprocessing.py:31 | `rolling(3).mean()` keeps the length; position `i` is present iff `i >= 2` and all three values `i-2..i` are present, and then three times it is their sum |
| Frames.DropWhere | energy_forecasting_project/src/preprocessing.py:38 | `dropna` keeps one row per kept position, never more rows than it was given |
| Frames.DropWhereKeepsPassingRows | energy_forecasting_project/src/preprocessing.py:38 | output row `j` is the input row at the `j`-th kept position, which passes the test, and every row that passes appears in the output |
| Frames.KeptPositions | energy_forecasting_project/src/preprocessing.py:38 | `dropna` keeps exactly the positions whose row passes, each once, in strictly ascending (original) order |
| Frames.KeptRange | energy_forecasting_project/src/preprocessing.py:38 | when the rows that pass form one contiguous block `lo..hi-1`, the kept positions are that block in order |
| Frames.KeptNext | energy_forecasting_project/src/preprocessing.py:38 | the kept row after a kept position `p` is the next position after `p` that passes |
| Preprocessing.FeaturesOf | energy_forecasting_project/src/preprocessing.py:6-41 | the result of `create_features` has one row per kept input position, never more rows than the input |
| Preprocessing.CreateFeatures | energy_forecasting_project/src/preprocessing.py:6-41 | the step-by-step computation (whole-column `.dt` fields, `shift(1)`, `shift(2)`, `rolling(3).mean()`, `dropna` on the four columns) yields exactly `FeaturesOf(raw)` |
| Preprocessing.FeatureMaskIsWindow | energy_forecasting_project/src/preprocessing.py:24-38 | the `dropna` test passes at position `i` iff `i >= 2` and `power_x` is present at `i-2`, `i-1` and `i` |
| Preprocessing.FeatureSurvival | energy_forecasting_project/src/preprocessing.py:24-38 | input position `i` appears in the output iff its three-row window is complete |
| Preprocessing.FeatureRowFromOrigin | energy_forecasting_project/src/preprocessing.py:11-38 | output row `j` is input row `i` (its origin) unchanged, with all features present: `lag_1 = v[i-1]`, `lag_2 = v[i-2]` from the unfiltered column, `rolling_mean_3 = (v[i-2]+v[i-1]+v[i])/3`, calendar fields from its own date |
| Preprocessing.FeaturesUseNoLaterRow | energy_forecasting_project/src/preprocessing.py:24-38 | the features of row `i` and whether it is kept depend only on rows `0..i`: two inputs that agree up to `i` agree there |
| Preprocessing.CalendarFieldsInRange | energy_forecasting_project/src/preprocessing.py:11-19 | every output row has hour in 0..23, day of week in 0..6, month in 1..12 |
| Preprocessing.FullyPopulatedFeatures | energy_forecasting_project/src/preprocessing.py:38-41 | with no NaN in `power_x`, the output is input rows `2..L-1` in order, `max(0, L-2)` rows |
| Preprocessing.TargetColumnsDistinct | energy_forecasting_project/src/preprocessing.py:48 | the target columns are `target_t+1 .. target_t+n` in ascending order, pairwise distinct |
| Preprocessing.TargetsOf | energy_forecasting_project/src/preprocessing.py:43-57 | the result of `create_targets` has one row per kept frame position, never more rows than the frame |
| Preprocessing.CreateTargets | energy_forecasting_project/src/preprocessing.py:43-57 | the horizon loop assigning `shift(-i)` columns, then `dropna` over the target columns, yields exactly `TargetsOf(frame, n)` |
| Preprocessing.TargetMaskIsLookahead | energy_forecasting_project/src/preprocessing.py:51-55 | the targets of frame row `j` are all present iff `j+n` is inside the frame and `power_x` is present at `j+1..j+n`; the row's own value is not tested |
| Preprocessing.TargetSurvival | energy_forecasting_project/src/preprocessing.py:55 | frame row `j` is kept iff `j+n < L` and `power_x` is present at `j+1..j+n` |
| Preprocessing.TargetRowFromOrigin | energy_forecasting_project/src/preprocessing.py:51-52 | kept row `j` is frame row `i` unchanged, it has `n` targets, all present, and `target_t+(k+1) = power_x` at frame position `i+k+1` |
| Preprocessing.FullyPopulatedTargets | energy_forecasting_project/src/preprocessing.py:48-57 | on a frame with `power_x` everywhere, the first `max(0, L-n)` rows are kept, so the result is empty (not an error) when `L <= n` |
| Preprocessing.PipelineTargetsAreRetainedRowsAhead | energy_forecasting_project/main.py:14-16 | after both steps, training row `j` is input row `o1[o2[j]]`, and its `target_t+(k+1)` is `power_x` of input row `o1[o2[j]+k+1]`, `k+1` RETAINED rows later |
| Preprocessing.RetainedRowsAreAtLeastHoursAhead | energy_forecasting_project/src/preprocessing.py:38 | the row `k` retained rows later lies at least `k` input positions later |
| Preprocessing.DroppedRowWidensGap | energy_forecasting_project/src/preprocessing.py:38 | when an input row between two retained rows `k` apart was dropped, the later one lies strictly more than `k` input positions later |
| Preprocessing.SkippedPositionWidensGap | energy_forecasting_project/src/preprocessing.py:38 | for any `dropna` mask, kept positions `k` rows apart with a dropped position between them lie more than `k` positions apart |
| Preprocessing.NextCompleteWindowIsNextOrigin | energy_forecasting_project/src/preprocessing.py:38 | the retained row after the one from position `p` comes from the next position after `p` whose window is complete |
| Preprocessing.FirstTargetSkipsDroppedRows | energy_forecasting_project/src/preprocessing.py:38-52 | if the next surviving input row after a training row's origin is at `q`, its `target_t+1` is `power_x` at `q`, however many rows were dropped in between |
| Preprocessing.PipelineDropsOnlyTheLastRows | energy_forecasting_project/src/preprocessing.py:38-55 | on the output of `create_features`, `create_targets(n)` keeps exactly the first `max(0, m-n)` of its `m` rows |
| Preprocessing.FullyPopulatedPipelineTarget | energy_forecasting_project/main.py:14-16 | with no NaN, training row `j` is input row `j+2` and its `target_t+(k+1)` is the value of input row `j+3+k` |
| Preprocessing.FullyPopulatedTargetsWindow | energy_forecasting_project/main.py:14-16 | with no NaN, the targets of training row `j` are the `n` input values after input row `j+2`, in order |
| Preprocessing.TenHourFeatures | energy_forecasting_project/src/preprocessing.py:24-41 | the series 10,12,11,13,14,16,15,17,18,20 keeps 8 rows; the first is position 2 with `lag_1 = 12`, `lag_2 = 10`, `rolling_mean_3 = 11` |
| Preprocessing.TenHourTargets | energy_forecasting_project/main.py:14-16 | the same series through `create_targets(6)` keeps 2 rows; the first is position 2 with targets 13,14,16,15,17,18 |
| Decimal.NatToString | energy_forecasting_project/src/model_training.py:73 | `str(n)` is a non-empty digit string with no leading zero, one digit exactly for `n < 10` |
| Decimal.ParseNatToString | energy_forecasting_project/src/model_training.py:73 | parsing `str(n)` gives `n` back |
| Decimal.NatToStringInjective | energy_forecasting_project/src/model_training.py:73 | distinct numbers render differently |
| Decimal.NumberedNameInjective | energy_forecasting_project/src/model_training.py:73 | `prefix + str(a) + suffix == prefix + str(b) + suffix` only when `a == b` |
| Paths.SepEnd | energy_forecasting_project/src/model_training.py:68 | the split point of `dirname` is just after the last `/`, or 0 when there is none |
| Paths.StripTrailingSeps | energy_forecasting_project/src/model_training.py:68 | `rstrip('/')` yields a prefix not ending in `/`, and only `/` was removed |
| Paths.DirName | energy_forecasting_project/src/model_training.py:68-70 | `dirname(p)` is a prefix of `p`, empty (so no directory is created) iff `p` contains no `/` |
| Paths.DirNameOfFileInDir | energy_forecasting_project/src/model_training.py:68 | `dirname("d/f") == "d"` for a plain directory `d` and file name `f` |
| ModelTraining.Column | energy_forecasting_project/src/model_training.py:33 | a column of the target table has one value per sample |
| ModelTraining.TrainModels | energy_forecasting_project/src/model_training.py:29-41 | exactly `y_train.shape[1]` models; model `i` is the regressor fitted on all of `X_train` and column `i` of `y_train` |
| ModelTraining.Forecast | energy_forecasting_project/src/model_training.py:54-58 | one prediction per model, any number of models (none for none), prediction `i` from model `i` on the same row |
| ModelTraining.ForecastNext6Hours | energy_forecasting_project/src/model_training.py:54-58 | the loop yields exactly `Forecast(predict, models, row)`: no prediction is fed back as input |
| ModelTraining.ForecastReplace | energy_forecasting_project/src/model_training.py:55-57 | replacing model `k` changes prediction `k` and no other |
| ModelTraining.ForecastPrefix | energy_forecasting_project/src/model_training.py:55-57 | the first `n` predictions depend only on the first `n` models |
| ModelTraining.ModelKeyInjective | energy_forecasting_project/src/model_training.py:72-73 | different model positions get different file names `{prefix}{i+1}.pkl` |
| ModelTraining.SavedFiles | energy_forecasting_project/src/model_training.py:72-73 | the save removes no file, and the last model written is readable under its own name |
| ModelTraining.SavedFilesHoldModels | energy_forecasting_project/src/model_training.py:72-73 | after the save, the file of model `i` holds model `i`; no later write overwrites it |
| ModelTraining.SavedFilesKeys | energy_forecasting_project/src/model_training.py:72-73 | the save adds exactly the written file names to the store |
| ModelTraining.SavedFilesKeepOthers | energy_forecasting_project/src/model_training.py:72-73 | every file under another name is left untouched |
| ModelTraining.FileStore.SaveModels | energy_forecasting_project/src/model_training.py:61-73 | the directory `dirname(prefix)` is added iff it is non-empty, and the files become `SavedFiles(old files, models, prefix)` |
| ModelTraining.DefaultPrefixDirectory | energy_forecasting_project/src/model_training.py:61-70 | the default prefix `models/xgb_model_t+` saves into directory `models` |
| App.ServedKeysAreSavedKeys | energy_forecasting_project/app.py:31-32 | the six files the app reads are, in order, the files `save_models` writes for positions 0..5 with its default prefix |
| App.Ensemble | energy_forecasting_project/app.py:29-35 | the load yields a list iff every key is readable; the list has one model per key, model `k` from key `k` |
| App.ReadModels | energy_forecasting_project/app.py:29-35 | loading the keys in turn yields all their models in key order, or `None` as soon as one is missing or unreadable (a partial list is never returned) |
| App.ModelCache.constructor | energy_forecasting_project/app.py:11 | the cache starts empty, which satisfies the invariant that a filled cache holds six models |
| App.ModelCache.LoadModels | energy_forecasting_project/app.py:25-38 | keeps the invariant that a filled cache holds six models; a filled cache is returned unchanged without reading the store; a cold load returns the six-model ensemble or `None`, and the cache is filled only on success; any list returned has six models |
| App.EnsembleShape | energy_forecasting_project/app.py:29-35 | a cold load succeeds iff all six files load; the result has 6 models, element `h-1` from file `t+h` |
| App.SaveThenLoad | energy_forecasting_project/app.py:31-34 | saving 6 or more models and then loading cold returns the first six in the same order, whatever the store held before |
| App.SaveFewerThenLoad | energy_forecasting_project/app.py:31-38 | after saving fewer than six, a cold load succeeds iff earlier files fill every missing horizon; it then serves the new models followed by those stale ones |
| App.SaveFewerToEmptyStore | energy_forecasting_project/app.py:31-38 | saving fewer than six models into any store that holds none of the six served files makes the cold load right after the save return `None` |
| App.FeatureVector | energy_forecasting_project/app.py:19 | the served row drops `date` and `power_x`: the file's other columns, then the six derived features |
| App.LoadLatestData | energy_forecasting_project/app.py:14-23 | `None` when the file cannot be read, and otherwise `None` iff `create_features` keeps no row; a served row has at least the six derived features |
| App.LatestNoneIff | energy_forecasting_project/app.py:16-23 | `load_latest_data` returns `None` iff no position has a complete three-row window |
| App.LatestIsLastCompleteWindow | energy_forecasting_project/app.py:18-20 | the served row is the LAST input position with a complete window, with the features `create_features` derived for it |
| App.HorizonLabels | energy_forecasting_project/app.py:47 | six labels; label `k` is `t+` followed by the single digit `k+1` |
| App.HorizonLabelsAgree | energy_forecasting_project/app.py:47 | labels `t+1..t+6` are distinct and name, in the same order, target column `target_<label>` and model file `models/xgb_model_<label>.pkl` |
| App.ServedForecastIsSavedForecast | energy_forecasting_project/app.py:43-47 | after a save of six models a cold load serves exactly those models; there is one label per prediction, and the forecast next to label `k` is model `k`'s prediction on the row |

## Left out

- In-place mutation: `create_features` and `create_targets` change the
  caller's DataFrame (`inplace=True`, column assignment). The model returns
  new sequences, so aliasing of the caller's frame is not captured.
- Floating point: values are exact reals. The rolling mean is the exact mean,
  without rounding.
- A missing `date` (NaT) is not modelled: every input row has a valid
  timestamp. In the code such a row gets NaN `hour`, `dayofweek` and
  `month`, and because the `dropna` of `create_features` does not test those
  columns it survives whenever its `power_x` window is complete, and
  `load_latest_data` may serve it. `CalendarFieldsInRange` holds only for
  inputs whose dates are all present.
- Timestamps arrive already broken down into fields, day of the week
  included. Parsing by `read_csv(parse_dates=...)`, time zones and deriving
  the weekday from the date are not modelled.
- Column dtypes and the coercion of non-numeric `power_x`: a value is present
  or NaN.
- `train_models`: the XGBoost regressor is an abstract `fit`. The MAE
  evaluation on `X_test`/`y_test` and its printing are not modelled.
- `forecast_next_6_hours`: `predict` is abstract. The row reshaping is not
  modelled.
- `save_models`: `joblib.dump` is a map update to a `Pickled` artifact.
  - `os.makedirs` also creates missing parent directories; only the leaf
    directory is recorded.
  - Write failures are not modelled.
  - Only POSIX path rules are modelled, not Windows ones.
- `load_models`: any load failure is an absent or `Unreadable` file. The
  cached list is the list object returned, but that aliasing is not captured.
  Concurrent first loads are not modelled.
- `load_latest_data`: reading the hard-coded CSV path is the `Option`
  argument (`None` when reading or parsing fails). Failures inside
  `create_features` on a malformed file (a missing column) are not modelled.
- All `print` diagnostics, the Flask routes, templates and error handlers,
  and `main.py` apart from the order in which it calls the two preprocessing
  steps (`train_test_split`, plotting).
